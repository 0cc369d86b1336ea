/** The order service's own transactions, run one at a time: what each one does to the tables. */
module OrderService {
  import opened Common
  import Sums
  import opened Stock
  import opened OrderState
  import opened DatabaseTables
  import opened InventoryStockRepository

  const LOW_STOCK_THRESHOLD := 10

  datatype OrderError =
    | InventoryMissing
    | InsufficientStock(available: int)
    | OrderNotFound
    | IllegalTransition(from: OrderStatus)
    | StoreNotFound
    | StoreInactive
    | ProductNotFound
    | ProductInactive
    | OtherStoresProduct
    | CheckoutRefused
    | NoAccess
    | PaymentMissing
    | PaymentUnconfirmed

  datatype StoreState = NoStore | ClosedStore | OpenStore

  /** An item's product, as a checkout at the store looks at it. */
  datatype ProductState = NoProduct | InactiveProduct | ElsewhereProduct | Sellable

  /** The latest payment of an order, as completion looks at it. */
  datatype Payment = NoPayment | Confirmed | CashDue | GatewayDue

  datatype LowStock = LowStock(inventoryId: InventoryId, onHand: int)

  // ---- holding lines ------------------------------------------------------------------

  /** One line held and recorded, or None when it does not fit. */
  function HoldOne(db: Db, r: ReservationId, line: Line, expiresAt: Instant): Option<Db> {
    if line.inventoryId in db.stock && Available(db.stock[line.inventoryId]) >= line.quantity then
      Some(db.(
        stock := db.stock[line.inventoryId := AddReserved(db.stock[line.inventoryId], line.quantity)],
        reservations := db.reservations[r := Reservation(line.inventoryId, line.quantity, Reserved, None, expiresAt)]))
    else None
  }

  /** The lines held in turn. */
  ghost function HoldAll(db: Db, ids: seq<ReservationId>, lines: seq<Line>, expiresAt: Instant): Option<Db>
    requires |ids| == |lines|
  {
    if lines == [] then Some(db) else
      var n := |lines| - 1;
      var before := HoldAll(db, ids[..n], lines[..n], expiresAt);
      if before.None? then None else HoldOne(before.value, ids[n], lines[n], expiresAt)
  }

  /** Every line's inventory row exists and covers all the lines on it together. */
  ghost predicate CanHold(stock: map<InventoryId, StockRow>, lines: seq<Line>) {
    forall k :: 0 <= k < |lines| ==> LineFits(stock, lines, lines[k].inventoryId)
  }

  ghost predicate LineFits(stock: map<InventoryId, StockRow>, lines: seq<Line>, i: InventoryId) {
    i in stock && LinesTotal(lines, i) <= Available(stock[i])
  }

  /** What holding the lines has added: reserved stock, and rows only under the given ids. */
  ghost predicate HeldOnTop(before: Db, after: Db, ids: seq<ReservationId>, lines: seq<Line>) {
    after.orders == before.orders && after.stock.Keys == before.stock.Keys &&
    (forall i :: i in before.stock ==> after.stock[i] == AddReserved(before.stock[i], LinesTotal(lines, i))) &&
    (forall r :: r in before.reservations && r !in ids ==>
      r in after.reservations && after.reservations[r] == before.reservations[r]) &&
    (forall r :: r in after.reservations ==> r in before.reservations || r in ids)
  }

  lemma {:induction false} HoldAllOnTop(db: Db, ids: seq<ReservationId>, lines: seq<Line>, expiresAt: Instant)
    requires |ids| == |lines| && HoldAll(db, ids, lines, expiresAt).Some?
    ensures HeldOnTop(db, HoldAll(db, ids, lines, expiresAt).value, ids, lines)
    decreases |lines|
  {
    if lines != [] {
      var n := |lines| - 1;
      HoldAllOnTop(db, ids[..n], lines[..n], expiresAt);
      assert ids == ids[..n] + [ids[n]];
    }
  }

  /** Each line is held by the row of its own id. */
  lemma {:induction false} HoldAllRows(db: Db, ids: seq<ReservationId>, lines: seq<Line>, expiresAt: Instant, k: nat)
    requires |ids| == |lines| && Distinct(ids) && HoldAll(db, ids, lines, expiresAt).Some? && k < |lines|
    ensures ids[k] in HoldAll(db, ids, lines, expiresAt).value.reservations
    ensures HoldAll(db, ids, lines, expiresAt).value.reservations[ids[k]]
         == Reservation(lines[k].inventoryId, lines[k].quantity, Reserved, None, expiresAt)
    decreases |lines|
  {
    var n := |lines| - 1;
    if k < n {
      HoldAllRows(db, ids[..n], lines[..n], expiresAt, k);
      assert ids[n] != ids[k];
    }
  }

  /** All the lines can be held exactly when each inventory row covers its lines together. */
  lemma {:induction false} HoldAllIff(db: Db, ids: seq<ReservationId>, lines: seq<Line>, expiresAt: Instant)
    requires |ids| == |lines|
    ensures HoldAll(db, ids, lines, expiresAt).Some? <==> CanHold(db.stock, lines)
    decreases |lines|
  {
    if lines != [] {
      var n := |lines| - 1;
      var before := HoldAll(db, ids[..n], lines[..n], expiresAt);
      HoldAllIff(db, ids[..n], lines[..n], expiresAt);
      if before.Some? {
        HoldAllOnTop(db, ids[..n], lines[..n], expiresAt);
        LastLineFits(db.stock, lines);
      } else if CanHold(db.stock, lines) {
        PrefixCanHold(db.stock, lines, n);
      }
    }
  }

  lemma LastLineFits(stock: map<InventoryId, StockRow>, lines: seq<Line>)
    requires lines != [] && CanHold(stock, lines[..|lines| - 1])
    ensures CanHold(stock, lines) <==> LineFits(stock, lines, lines[|lines| - 1].inventoryId)
  {
    var n := |lines| - 1;
    if LineFits(stock, lines, lines[n].inventoryId) {
      forall k | 0 <= k < |lines|
        ensures LineFits(stock, lines, lines[k].inventoryId)
      {
        if k < n {
          assert LineFits(stock, lines[..n], lines[..n][k].inventoryId);
        }
      }
    }
  }

  lemma PrefixCanHold(stock: map<InventoryId, StockRow>, lines: seq<Line>, n: nat)
    requires n <= |lines| && CanHold(stock, lines)
    ensures CanHold(stock, lines[..n])
  {
    forall k | 0 <= k < n
      ensures LineFits(stock, lines[..n], lines[..n][k].inventoryId)
    {
      assert LineFits(stock, lines, lines[k].inventoryId);
      LinesTotalGrows(lines, n, lines[k].inventoryId);
    }
  }

  // ---- counters stay right ------------------------------------------------------------

  lemma HoldOneCounter(db: Db, r: ReservationId, line: Line, expiresAt: Instant, after: Db, i: InventoryId)
    requires i in db.stock && db.stock[i].reserved == Held(db.reservations, i) && r !in db.reservations
    requires HoldOne(db, r, line, expiresAt) == Some(after)
    ensures after.stock[i].reserved == Held(after.reservations, i)
  {
    HeldUpdate(db.reservations, r, Reservation(line.inventoryId, line.quantity, Reserved, None, expiresAt), i);
  }

  lemma HoldOneKeepsBalance(db: Db, r: ReservationId, line: Line, expiresAt: Instant)
    requires Balanced(db) && r !in db.reservations
    ensures var after := HoldOne(db, r, line, expiresAt); after.Some? ==> Balanced(after.value)
  {
    var after := HoldOne(db, r, line, expiresAt);
    if after.Some? {
      forall i | i in after.value.stock
        ensures after.value.stock[i].reserved == Held(after.value.reservations, i)
      {
        HoldOneCounter(db, r, line, expiresAt, after.value, i);
      }
    }
  }

  lemma {:induction false} HoldAllKeepsBalance(db: Db, ids: seq<ReservationId>, lines: seq<Line>, expiresAt: Instant)
    requires |ids| == |lines| && Distinct(ids) && Balanced(db) && forall r :: r in ids ==> r !in db.reservations
    ensures var after := HoldAll(db, ids, lines, expiresAt); after.Some? ==> Balanced(after.value)
    decreases |lines|
  {
    if lines != [] {
      var n := |lines| - 1;
      var before := HoldAll(db, ids[..n], lines[..n], expiresAt);
      HoldAllKeepsBalance(db, ids[..n], lines[..n], expiresAt);
      if before.Some? {
        HoldAllOnTop(db, ids[..n], lines[..n], expiresAt);
        assert ids[n] !in ids[..n];
        HoldOneKeepsBalance(before.value, ids[n], lines[n], expiresAt);
      }
    }
  }

  /** The rows `ids` linked to their order. */
  function Link(rs: Reservations, ids: seq<ReservationId>, o: OrderId): Reservations {
    map r | r in rs :: if r in ids then rs[r].(orderId := Some(o)) else rs[r]
  }

  /** The order inserted and this checkout's own reservations linked to it. */
  function Place(db: Db, o: OrderId, lines: seq<Line>, ids: seq<ReservationId>): Db {
    db.(reservations := Link(db.reservations, ids, o), orders := db.orders[o := Order(Pending, lines, ids)])
  }

  /** A placed checkout: one order, PENDING, each line held by its own row linked to it, everything else as it was. */
  lemma PlacedIs(db: Db, ids: seq<ReservationId>, lines: seq<Line>, expiresAt: Instant, o: OrderId)
    requires |ids| == |lines| && Distinct(ids) && (forall r :: r in ids ==> r !in db.reservations)
    requires HoldAll(db, ids, lines, expiresAt).Some?
    ensures var after := Place(HoldAll(db, ids, lines, expiresAt).value, o, lines, ids);
      after.orders == db.orders[o := Order(Pending, lines, ids)] && after.stock.Keys == db.stock.Keys &&
      (forall i :: i in db.stock ==>
        after.stock[i] == StockRow(db.stock[i].onHand, db.stock[i].reserved + LinesTotal(lines, i))) &&
      (forall r :: r in db.reservations ==> r in after.reservations && after.reservations[r] == db.reservations[r]) &&
      (forall r :: r in after.reservations ==> r in db.reservations || r in ids) &&
      (forall k :: 0 <= k < |ids| ==>
        ids[k] in after.reservations &&
        after.reservations[ids[k]] == Reservation(lines[k].inventoryId, lines[k].quantity, Reserved, Some(o), expiresAt))
  {
    HoldAllOnTop(db, ids, lines, expiresAt);
    forall k | 0 <= k < |ids|
      ensures ids[k] in HoldAll(db, ids, lines, expiresAt).value.reservations
      ensures HoldAll(db, ids, lines, expiresAt).value.reservations[ids[k]]
           == Reservation(lines[k].inventoryId, lines[k].quantity, Reserved, None, expiresAt)
    {
      HoldAllRows(db, ids, lines, expiresAt, k);
    }
    hide HoldAll;
  }

  lemma PlaceKeepsBalance(db: Db, o: OrderId, lines: seq<Line>, ids: seq<ReservationId>)
    requires Balanced(db)
    ensures Balanced(Place(db, o, lines, ids))
  {
    var linked := Link(db.reservations, ids, o);
    forall i | i in db.stock
      ensures Held(linked, i) == Held(db.reservations, i)
    {
      assert (map r | r in linked :: Weight(linked[r], i))
          == (map r | r in db.reservations :: Weight(db.reservations[r], i));
    }
  }

  // ---- checkout -----------------------------------------------------------------------

  function StoreRefusal(store: StoreState): Option<OrderError> {
    match store
    case NoStore => Some(StoreNotFound)
    case ClosedStore => Some(StoreInactive)
    case OpenStore => None
  }

  function ProductRefusal(product: ProductState): Option<OrderError> {
    match product
    case NoProduct => Some(ProductNotFound)
    case InactiveProduct => Some(ProductInactive)
    case ElsewhereProduct => Some(OtherStoresProduct)
    case Sellable => None
  }

  function StockRefusal(stock: map<InventoryId, StockRow>, line: Line): Option<OrderError> {
    if line.inventoryId !in stock then Some(InventoryMissing)
    else if Available(stock[line.inventoryId]) < line.quantity then Some(InsufficientStock(Available(stock[line.inventoryId])))
    else None
  }

  /** A line is short exactly when what is on hand and not reserved does not cover it, and is told that amount. */
  lemma StockRefusalIs(stock: map<InventoryId, StockRow>, line: Line)
    ensures StockRefusal(stock, line) == Some(InventoryMissing) <==> line.inventoryId !in stock
    ensures forall available ::
      StockRefusal(stock, line) == Some(InsufficientStock(available)) <==>
        line.inventoryId in stock && available == stock[line.inventoryId].onHand - stock[line.inventoryId].reserved < line.quantity
  {
  }

  /** What line `k` is refused with, once the lines before it are held: its product first, then its stock. */
  ghost function StopsAt(db: Db, ids: seq<ReservationId>, lines: seq<Line>, products: seq<ProductState>, expiresAt: Instant,
      k: nat): Option<OrderError>
    requires |ids| == |lines| == |products| && k < |lines|
  {
    var held := HoldAll(db, ids[..k], lines[..k], expiresAt);
    if held.None? then None
    else if ProductRefusal(products[k]).Some? then ProductRefusal(products[k])
    else StockRefusal(held.value.stock, lines[k])
  }

  ghost predicate AllSellable(products: seq<ProductState>) {
    forall k :: 0 <= k < |products| ==> products[k].Sellable?
  }

  /** Why a checkout fails: the store, a line, or what comes after the lines (voucher, payment method, fees). */
  ghost predicate Explains(db: Db, ids: seq<ReservationId>, lines: seq<Line>, store: StoreState, products: seq<ProductState>,
      refusedLater: bool, expiresAt: Instant, error: OrderError)
    requires |ids| == |lines| == |products|
  {
    if StoreRefusal(store).Some? then StoreRefusal(store) == Some(error)
    else if AllSellable(products) && CanHold(db.stock, lines) then refusedLater && error.CheckoutRefused?
    else exists k :: 0 <= k < |lines| && StopsAt(db, ids, lines, products, expiresAt, k) == Some(error)
  }

  /**
   * The checkout transaction. The generated ids are parameters, and so is what other tables say of
   * the store and the products. A throw rolls everything back: the transaction works on the tables
   * and restores them on the way out.
   */
  method CreateOrder(client: Database, orderId: OrderId, ids: seq<ReservationId>, items: seq<Line>, expiresAt: Instant,
      store: StoreState, products: seq<ProductState>, refusedLater: bool) returns (result: Result<Order, OrderError>)
    requires |ids| == |items| == |products|
    modifies client
    ensures result.Ok? <==> store.OpenStore? && AllSellable(products) && CanHold(old(client.stock), items) && !refusedLater
    ensures result.Err? ==>
      client.State() == old(client.State()) &&
      Explains(old(client.State()), ids, items, store, products, refusedLater, expiresAt, result.error)
    ensures (result == Err(StoreNotFound) <==> store == NoStore) && (result == Err(StoreInactive) <==> store == ClosedStore)
    ensures result.Ok? ==>
      result.value == Order(Pending, items, ids) &&
      HoldAll(old(client.State()), ids, items, expiresAt).Some? &&
      client.State() == Place(HoldAll(old(client.State()), ids, items, expiresAt).value, orderId, items, ids)
  {
    var stock, reservations, orders := client.stock, client.reservations, client.orders;
    ghost var before := client.State();
    HoldAllIff(before, ids, items, expiresAt);
    hide CanHold, Link;
    if store.NoStore? {
      return Err(StoreNotFound);
    }
    if store.ClosedStore? {
      return Err(StoreInactive);
    }
    for k := 0 to |items|
      invariant HoldAll(before, ids[..k], items[..k], expiresAt) == Some(client.State())
      invariant forall j :: 0 <= j < k ==> products[j].Sellable?
    {
      var item := items[k];
      assert items[..k + 1][..k] == items[..k] && ids[..k + 1][..k] == ids[..k];
      if !products[k].Sellable? {
        client.stock, client.reservations, client.orders := stock, reservations, orders;
        var error := if products[k].NoProduct? then ProductNotFound
                     else if products[k].InactiveProduct? then ProductInactive else OtherStoresProduct;
        assert StopsAt(before, ids, items, products, expiresAt, k) == Some(error);
        return Err(error);
      }
      if item.inventoryId !in client.stock || Available(client.stock[item.inventoryId]) < item.quantity {
        var error := if item.inventoryId !in client.stock then InventoryMissing
                     else InsufficientStock(Available(client.stock[item.inventoryId]));
        StuckStaysStuck(before, ids, items, expiresAt, k + 1);
        assert StopsAt(before, ids, items, products, expiresAt, k) == Some(error);
        client.stock, client.reservations, client.orders := stock, reservations, orders;
        return Err(error);
      }
      var reserved := TryReserve(client, item.inventoryId, item.quantity);
      client.reservations := client.reservations[ids[k] :=
        Reservation(item.inventoryId, item.quantity, Reserved, None, expiresAt)];
    }
    assert items[..|items|] == items && ids[..|ids|] == ids;
    if refusedLater {
      client.stock, client.reservations, client.orders := stock, reservations, orders;
      return Err(CheckoutRefused);
    }
    var order := Order(Pending, items, ids);
    client.orders := client.orders[orderId := order];
    client.reservations := Link(client.reservations, ids, orderId);
    result := Ok(order);
  }

  lemma {:induction false} StuckStaysStuck(db: Db, ids: seq<ReservationId>, lines: seq<Line>, expiresAt: Instant, k: nat)
    requires |ids| == |lines| && k <= |lines| && HoldAll(db, ids[..k], lines[..k], expiresAt).None?
    ensures HoldAll(db, ids, lines, expiresAt).None?
    decreases |lines|
  {
    if k == |lines| {
      assert ids[..k] == ids && lines[..k] == lines;
    } else {
      var n := |lines| - 1;
      assert ids[..n][..k] == ids[..k] && lines[..n][..k] == lines[..k];
      StuckStaysStuck(db, ids[..n], lines[..n], expiresAt, k);
    }
  }

  ghost function WithStatus(db: Db, o: OrderId, to: OrderStatus): Db
    requires o in db.orders
  {
    db.(orders := db.orders[o := db.orders[o].(status := to)])
  }

  /** The order failed and its holds given back. */
  ghost function FailedOrder(db: Db, o: OrderId): Db
    requires o in db.orders
  {
    ReleaseOrder(WithStatus(db, o, Failed), o, Released)
  }

  /** When the gateway cannot open a session, the order fails and its holds are given back. */
  method FailCheckout(client: Database, orderId: OrderId)
    requires client.Valid() && orderId in client.orders
    modifies client
    ensures client.State() == FailedOrder(old(client.State()), orderId)
    ensures Closed(old(client.State()), client.State(), orderId, Failed, Released)
  {
    ClosingIs(client.State(), orderId);
    hide Closed, Flip, GivenBack, OwedFor, Outstanding;
    client.orders := client.orders[orderId := client.orders[orderId].(status := Failed)];
    var _ := ReleaseOrderReservations(client, orderId, Released);
  }

  /** The rows a checkout added are its own and all still held. */
  ghost predicate AddedRows(before: Reservations, after: Reservations, ids: seq<ReservationId>) {
    (forall r :: r in before ==> r in after && after[r] == before[r]) &&
    (forall r :: r in after ==> r in before || r in ids) &&
    (forall r :: r in ids ==> r !in before && r in after && after[r].status.Reserved?)
  }

  lemma HoldAllAdds(db: Db, ids: seq<ReservationId>, lines: seq<Line>, expiresAt: Instant)
    requires |ids| == |lines| && Distinct(ids) && (forall r :: r in ids ==> r !in db.reservations)
    requires HoldAll(db, ids, lines, expiresAt).Some?
    ensures AddedRows(db.reservations, HoldAll(db, ids, lines, expiresAt).value.reservations, ids)
  {
    HoldAllOnTop(db, ids, lines, expiresAt);
    var held := HoldAll(db, ids, lines, expiresAt).value;
    forall r | r in ids
      ensures r in held.reservations && held.reservations[r].status.Reserved?
    {
      var k :| 0 <= k < |ids| && ids[k] == r;
      HoldAllRows(db, ids, lines, expiresAt, k);
    }
  }

  /** Ending the rows a checkout added and linked leaves every other row as it was. */
  lemma UndoneRows(before: Reservations, held: Reservations, ids: seq<ReservationId>, o: OrderId)
    requires AddedRows(before, held, ids) && Outstanding(before, o) == {}
    ensures var linked := Link(held, ids, o);
      var after := Flip(linked, Outstanding(linked, o), Released);
      (forall r :: r in before ==> r in after && after[r] == before[r]) &&
      (forall r :: r in after ==> r in before || r in ids) &&
      (forall r :: r in ids ==> r in after && after[r].status.Released?)
  {
    var linked := Link(held, ids, o);
    forall r | r in before
      ensures r !in Outstanding(linked, o)
    {
      assert r !in Outstanding(before, o);
    }
  }

  lemma UndoneHeld(before: Reservations, after: Reservations, ids: seq<ReservationId>, i: InventoryId)
    requires forall r :: r in before ==> r in after && after[r] == before[r]
    requires forall r :: r in after ==> r in before || r in ids
    requires forall r :: r in ids ==> r in after && after[r].status.Released?
    ensures Held(after, i) == Held(before, i)
  {
    var all: map<ReservationId, int> := map r | r in after :: Weight(after[r], i);
    var mine: map<ReservationId, int> := map r | r in before :: Weight(before[r], i);
    Sums.SumIgnoresZeros(all, mine);
  }

  /** A released order's row is what its rows still hold, on an untouched shelf. */
  lemma UndoneStock(db: Db, placed: Db, o: OrderId, i: InventoryId)
    requires Balanced(placed) && i in placed.stock && i in db.stock
    requires placed.stock[i].onHand == db.stock[i].onHand && db.stock[i].reserved == Held(db.reservations, i)
    requires Held(ReleaseOrder(placed, o, Released).reservations, i) == Held(db.reservations, i)
    ensures ReleaseOrder(placed, o, Released).stock[i] == db.stock[i]
  {
    ReleaseOrderCounter(placed, o, Released, i);
    ReleaseOrderRow(placed, o, Released, i);
  }

  /** The tables after a checkout whose gateway session then fails. */
  ghost function PlacedThenFailed(db: Db, o: OrderId, ids: seq<ReservationId>, lines: seq<Line>, expiresAt: Instant): Db
    requires |ids| == |lines| && HoldAll(db, ids, lines, expiresAt).Some?
  {
    FailedOrder(Place(HoldAll(db, ids, lines, expiresAt).value, o, lines, ids), o)
  }

  /** A checkout whose gateway session fails leaves every counter and every other row as it found them. */
  lemma FailedCheckoutUndone(db: Db, o: OrderId, ids: seq<ReservationId>, lines: seq<Line>, expiresAt: Instant)
    requires |ids| == |lines| && Distinct(ids) && (forall r :: r in ids ==> r !in db.reservations)
    requires Balanced(db) && HoldAll(db, ids, lines, expiresAt).Some? && Outstanding(db.reservations, o) == {}
    ensures PlacedThenFailed(db, o, ids, lines, expiresAt).stock == db.stock
    ensures forall r :: r in db.reservations ==>
      r in PlacedThenFailed(db, o, ids, lines, expiresAt).reservations &&
      PlacedThenFailed(db, o, ids, lines, expiresAt).reservations[r] == db.reservations[r]
    ensures forall r :: r in ids ==>
      r in PlacedThenFailed(db, o, ids, lines, expiresAt).reservations &&
      PlacedThenFailed(db, o, ids, lines, expiresAt).reservations[r].status.Released?
  {
    var held := HoldAll(db, ids, lines, expiresAt).value;
    HoldAllAdds(db, ids, lines, expiresAt);
    UndoneRows(db.reservations, held.reservations, ids, o);
    HoldAllOnTop(db, ids, lines, expiresAt);
    HoldAllKeepsBalance(db, ids, lines, expiresAt);
    PlaceKeepsBalance(held, o, lines, ids);
    FailedStock(db, held, o, ids, lines);
  }

  lemma FailedStock(db: Db, held: Db, o: OrderId, ids: seq<ReservationId>, lines: seq<Line>)
    requires Balanced(db) && HeldOnTop(db, held, ids, lines) && Balanced(Place(held, o, lines, ids))
    requires AddedRows(db.reservations, held.reservations, ids) && Outstanding(db.reservations, o) == {}
    ensures FailedOrder(Place(held, o, lines, ids), o).stock == db.stock
  {
    hide Held;
    hide ClaimedOf;
    var placed := Place(held, o, lines, ids);
    var failed := placed.(orders := placed.orders[o := placed.orders[o].(status := Failed)]);
    UndoneRows(db.reservations, held.reservations, ids, o);
    forall i | i in db.stock
      ensures ReleaseOrder(failed, o, Released).stock[i] == db.stock[i]
    {
      UndoneHeld(db.reservations, ReleaseOrder(failed, o, Released).reservations, ids, i);
      UndoneStock(db, failed, o, i);
    }
  }

  // ---- completion ---------------------------------------------------------------------

  /** Each shelf lowered by what the lines take from it. */
  ghost function Taken(stock: map<InventoryId, StockRow>, lines: seq<Line>): map<InventoryId, StockRow> {
    map i | i in stock :: AddOnHand(stock[i], -LinesTotal(lines, i))
  }

  ghost predicate AllStocked(stock: map<InventoryId, StockRow>, lines: seq<Line>) {
    forall k :: 0 <= k < |lines| ==> lines[k].inventoryId in stock
  }

  function CrossingAlert(i: InventoryId, before: int, left: int): seq<LowStock> {
    if before > LOW_STOCK_THRESHOLD && left <= LOW_STOCK_THRESHOLD then [LowStock(i, left)] else []
  }

  /** A line raises an alert when it takes its shelf across the threshold. */
  ghost function Alerts(stock: map<InventoryId, StockRow>, lines: seq<Line>): seq<LowStock>
    requires AllStocked(stock, lines)
  {
    if lines == [] then [] else
      var n := |lines| - 1;
      var i := lines[n].inventoryId;
      Alerts(stock, lines[..n]) +
      CrossingAlert(i, stock[i].onHand - LinesTotal(lines[..n], i), stock[i].onHand - LinesTotal(lines, i))
  }

  lemma TakesNothing(stock: map<InventoryId, StockRow>)
    ensures Taken(stock, []) == stock && Alerts(stock, []) == []
  {
  }

  lemma StockedOneMore(stock: map<InventoryId, StockRow>, lines: seq<Line>, last: Line)
    requires AllStocked(stock, lines) && last.inventoryId in stock
    ensures AllStocked(stock, lines + [last])
  {
  }

  /** One more line taken: its shelf drops by it, and the crossing, if there is one, is reported. */
  lemma TakesOneMore(stock: map<InventoryId, StockRow>, lines: seq<Line>, last: Line)
    requires AllStocked(stock, lines) && last.inventoryId in stock
    ensures var shelf := Taken(stock, lines)[last.inventoryId];
      AllStocked(stock, lines + [last]) &&
      Taken(stock, lines + [last]) == Taken(stock, lines)[last.inventoryId := AddOnHand(shelf, 0 - last.quantity)] &&
      Alerts(stock, lines + [last]) == Alerts(stock, lines) + CrossingAlert(last.inventoryId, shelf.onHand, shelf.onHand - last.quantity)
  {
    StockedOneMore(stock, lines, last);
    hide AllStocked, AddOnHand, CrossingAlert;
    var more := lines + [last];
    assert more[..|more| - 1] == lines && more[|more| - 1] == last;
  }

  function AlertsFor(alerts: seq<LowStock>, i: InventoryId): nat {
    if alerts == [] then 0 else
      AlertsFor(alerts[..|alerts| - 1], i) + if alerts[|alerts| - 1].inventoryId == i then 1 else 0
  }

  lemma AlertsForOneMore(alerts: seq<LowStock>, more: LowStock, i: InventoryId)
    ensures AlertsFor(alerts + [more], i) == AlertsFor(alerts, i) + if more.inventoryId == i then 1 else 0
  {
    assert (alerts + [more])[..|alerts|] == alerts;
  }

  /** One alert for each shelf the order takes across the threshold, however many lines share it; else none. */
  lemma {:induction false} AlertedOnCrossing(stock: map<InventoryId, StockRow>, lines: seq<Line>, i: InventoryId)
    requires AllStocked(stock, lines) && i in stock
    ensures AlertsFor(Alerts(stock, lines), i)
         == if stock[i].onHand > 10 >= stock[i].onHand - LinesTotal(lines, i) then 1 else 0
    decreases |lines|
  {
    if lines != [] {
      var n := |lines| - 1;
      AlertedOnCrossing(stock, lines[..n], i);
      assert LinesTotal(lines, i) == LinesTotal(lines[..n], i) + if lines[n].inventoryId == i then lines[n].quantity else 0;
      LinesTotalGrows(lines, n, i);
      var at := lines[n].inventoryId;
      AlertsForOneMore(Alerts(stock, lines[..n]), LowStock(at, stock[at].onHand - LinesTotal(lines, at)), i);
      assert Alerts(stock, lines[..n]) + [] == Alerts(stock, lines[..n]);
    }
  }

  /** The goods off the shelf, the holds consumed, the order completed. */
  ghost function CompletedOrder(db: Db, o: OrderId): Db
    requires o in db.orders
  {
    WithStatus(ReleaseOrder(db.(stock := Taken(db.stock, db.orders[o].items)), o, Consumed), o, Completed)
  }

  /** Why the payment row refuses a completion: it is missing, or neither settled nor cash. */
  function PaymentRefusal(payment: Payment): Option<OrderError> {
    match payment
    case NoPayment => Some(PaymentMissing)
    case GatewayDue => Some(PaymentUnconfirmed)
    case _ => None
  }

  /** The rows of an order that ended as `next`, the order moved to `to`; every other row and order as it was. */
  ghost predicate Closed(db: Db, after: Db, o: OrderId, to: OrderStatus, next: ReservationStatus) {
    o in db.orders && after.orders == db.orders[o := db.orders[o].(status := to)] &&
    after.stock.Keys == db.stock.Keys && after.reservations.Keys == db.reservations.Keys &&
    forall r :: r in db.reservations ==>
      var row := db.reservations[r];
      after.reservations[r] == if row.orderId == Some(o) && row.status == Reserved then row.(status := next) else row
  }

  /** Each way an order closes: the status it gets, what its holds end as, and what leaves the shelf. */
  lemma ClosingIs(db: Db, o: OrderId)
    requires o in db.orders
    ensures Closed(db, CompletedOrder(db, o), o, Completed, Consumed)
    ensures Closed(db, CancelledOrder(db, o, Released), o, Cancelled, Released)
    ensures Closed(db, FailedOrder(db, o), o, Failed, Released)
    ensures forall i :: i in db.stock ==>
      CompletedOrder(db, o).stock[i].onHand == db.stock[i].onHand - LinesTotal(db.orders[o].items, i) &&
      CancelledOrder(db, o, Released).stock[i].onHand == FailedOrder(db, o).stock[i].onHand == db.stock[i].onHand
  {
    hide ReleaseOrder;
    var taken := db.(stock := Taken(db.stock, db.orders[o].items));
    ReleaseOrderIs(taken, o, Consumed);
    ReleaseOrderIs(db, o, Released);
    ReleaseOrderIs(WithStatus(db, o, Failed), o, Released);
  }

  /** What refuses the completion, in the order it is checked. */
  ghost function CompletionRefusal(db: Db, o: OrderId, ownStore: bool, payment: Payment): Option<OrderError> {
    if o !in db.orders then Some(OrderNotFound)
    else if !ownStore then Some(NoAccess)
    else if !TransitionAllowed(db.orders[o].status, Completed) then Some(IllegalTransition(db.orders[o].status))
    else if PaymentRefusal(payment).Some? then PaymentRefusal(payment)
    else if !AllStocked(db.stock, db.orders[o].items) then Some(InventoryMissing)
    else None
  }

  /** `ownStore` is whether the order belongs to the caller's store; `paid` is the payment row afterwards. */
  method CompleteOrderInternal(client: Database, orderId: OrderId, ownStore: bool, payment: Payment)
      returns (result: Result<seq<LowStock>, OrderError>, paid: Payment)
    requires client.Valid()
    modifies client
    ensures result.Ok? <==> CompletionRefusal(old(client.State()), orderId, ownStore, payment).None?
    ensures result.Err? ==>
      Some(result.error) == CompletionRefusal(old(client.State()), orderId, ownStore, payment) &&
      client.State() == old(client.State()) && paid == payment
    ensures result.Ok? ==>
      client.State() == CompletedOrder(old(client.State()), orderId) && paid.Confirmed? &&
      result.value == Alerts(old(client.stock), old(client.orders)[orderId].items)
    ensures result.Ok? ==> Closed(old(client.State()), client.State(), orderId, Completed, Consumed)
    ensures orderId !in old(client.orders) <==> result == Err(OrderNotFound)
    ensures orderId in old(client.orders) ==>
      var order := old(client.orders)[orderId];
      var ready := ownStore && (order.status == ReadyForPickup || order.status == Completed);
      var stocked := forall k :: 0 <= k < |order.items| ==> order.items[k].inventoryId in old(client.stock);
      (result == Err(NoAccess) <==> !ownStore) &&
      (ownStore && !ready <==> result == Err(IllegalTransition(order.status))) &&
      (result == Err(PaymentMissing) <==> ready && payment == NoPayment) &&
      (result == Err(PaymentUnconfirmed) <==> ready && payment == GatewayDue) &&
      (result == Err(InventoryMissing) <==> ready && (payment == Confirmed || payment == CashDue) && !stocked) &&
      (result.Ok? <==> ready && (payment == Confirmed || payment == CashDue) && stocked)
  {
    hide GivenBack, Flip, OwedFor, Outstanding, Alerts;
    paid := payment;
    if orderId !in client.orders {
      return Err(OrderNotFound), paid;
    }
    ClosingIs(client.State(), orderId);
    hide Closed;
    var order := client.orders[orderId];
    if !ownStore {
      return Err(NoAccess), paid;
    }
    if !TransitionAllowed(order.status, Completed) {
      return Err(IllegalTransition(order.status)), paid;
    }
    if payment.NoPayment? {
      return Err(PaymentMissing), paid;
    }
    if payment.GatewayDue? {
      return Err(PaymentUnconfirmed), paid;
    }
    var lowStockAlerts := TakeOffShelf(client, order.items);
    if lowStockAlerts.None? {
      return Err(InventoryMissing), paid;
    }
    paid := Confirmed;
    var _ := ReleaseOrderReservations(client, orderId, Consumed);
    client.orders := client.orders[orderId := order.(status := Completed)];
    result := Ok(lowStockAlerts.value);
  }

  /** The completion's loop over the items; a missing inventory row throws, which rolls back. */
  method TakeOffShelf(client: Database, items: seq<Line>) returns (alerts: Option<seq<LowStock>>)
    modifies client`stock
    ensures alerts.Some? <==> AllStocked(old(client.stock), items)
    ensures alerts.None? ==> client.stock == old(client.stock)
    ensures alerts.Some? ==>
      client.stock == Taken(old(client.stock), items) && alerts.value == Alerts(old(client.stock), items)
  {
    var stock := client.stock;
    var found := [];
    TakesNothing(stock);
    hide Alerts;
    for k := 0 to |items|
      invariant AllStocked(stock, items[..k])
      invariant client.stock == Taken(stock, items[..k])
      invariant found == Alerts(stock, items[..k])
    {
      var item := items[k];
      if item.inventoryId !in client.stock {
        client.stock := stock;
        return None;
      }
      assert items[..k + 1] == items[..k] + [item];
      TakesOneMore(stock, items[..k], item);
      var inventory := client.stock[item.inventoryId];
      var newOnHand := inventory.onHand - item.quantity;
      client.stock := client.stock[item.inventoryId := AddOnHand(inventory, 0 - item.quantity)];
      if inventory.onHand > LOW_STOCK_THRESHOLD && newOnHand <= LOW_STOCK_THRESHOLD {
        found := found + [LowStock(item.inventoryId, newOnHand)];
      }
    }
    assert items[..|items|] == items;
    alerts := Some(found);
  }

  /** A completion moves what is available by what was still held less what was sold. */
  lemma CompletionMovesAvailable(db: Db, o: OrderId, i: InventoryId)
    requires o in db.orders && i in db.stock
    ensures var after := CompletedOrder(db, o).stock[i];
      after.onHand == db.stock[i].onHand - LinesTotal(db.orders[o].items, i) &&
      (Available(after) == Available(db.stock[i]) <==>
        ClaimedOf(db.reservations, Outstanding(db.reservations, o), i) == LinesTotal(db.orders[o].items, i))
  {
    hide ClaimedOf;
    ReleaseOrderRow(db.(stock := Taken(db.stock, db.orders[o].items)), o, Consumed, i);
  }

  lemma CompletionShelf(db: Db, o: OrderId, after: Db, i: InventoryId)
    requires o in db.orders && i in db.stock && after == CompletedOrder(db, o)
    ensures after.stock.Keys == db.stock.Keys && after.stock[i].onHand == db.stock[i].onHand - LinesTotal(db.orders[o].items, i)
    ensures o in after.orders && after.orders[o] == db.orders[o].(status := Completed)
  {
    ReleaseOrderRow(db.(stock := Taken(db.stock, db.orders[o].items)), o, Consumed, i);
  }

  /**
   * An unchanged status passes validation, so a completed order can be completed again, and the
   * goods leave the shelf again, line for line.
   */
  lemma CompletingTwiceSellsTwice(db: Db, o: OrderId, i: InventoryId, payment: Payment, once: Db, twice: Db)
    requires o in db.orders && i in db.stock && CompletionRefusal(db, o, true, payment).None?
    requires once == CompletedOrder(db, o) && o in once.orders && twice == CompletedOrder(once, o)
    ensures CompletionRefusal(once, o, true, payment).None?
    ensures i in once.stock && i in twice.stock
    ensures once.stock[i].onHand == db.stock[i].onHand - LinesTotal(db.orders[o].items, i)
    ensures twice.stock[i].onHand == db.stock[i].onHand - 2 * LinesTotal(db.orders[o].items, i)
  {
    hide CompletedOrder;
    CompletionShelf(db, o, once, i);
    CompletionShelf(once, o, twice, i);
  }

  // ---- cancellation -------------------------------------------------------------------

  ghost function CancelledOrder(db: Db, o: OrderId, next: ReservationStatus): Db
    requires o in db.orders
  {
    WithStatus(ReleaseOrder(db, o, next), o, Cancelled)
  }

  /** The cancelling transaction: it validates against the live status. */
  method CancelOrder(client: Database, orderId: OrderId) returns (result: Result<Order, OrderError>)
    requires client.Valid()
    modifies client
    ensures result.Ok? <==> orderId in old(client.orders) && TransitionAllowed(old(client.orders)[orderId].status, Cancelled)
    ensures result.Err? ==>
      client.State() == old(client.State()) &&
      result.error == if orderId in old(client.orders) then IllegalTransition(old(client.orders)[orderId].status) else OrderNotFound
    ensures result.Ok? ==> client.State() == CancelledOrder(old(client.State()), orderId, Released)
    ensures result.Ok? ==> Closed(old(client.State()), client.State(), orderId, Cancelled, Released)
  {
    hide GivenBack, Flip, OwedFor, Outstanding;
    if orderId !in client.orders {
      return Err(OrderNotFound);
    }
    ClosingIs(client.State(), orderId);
    hide Closed;
    var current := client.orders[orderId];
    if !TransitionAllowed(current.status, Cancelled) {
      return Err(IllegalTransition(current.status));
    }
    var _ := ReleaseOrderReservations(client, orderId, Released);
    client.orders := client.orders[orderId := current.(status := Cancelled)];
    result := Ok(client.orders[orderId]);
  }

  /** Cancelling keeps the counters right, leaves nothing held, and doing it again changes nothing. */
  lemma CancellingSettles(db: Db, o: OrderId, next: ReservationStatus)
    requires o in db.orders && Balanced(db) && !next.Reserved?
    ensures var after := CancelledOrder(db, o, next);
      Balanced(after) && Outstanding(after.reservations, o) == {} && CancelledOrder(after, o, next) == after
  {
    var after := CancelledOrder(db, o, next);
    ReleaseOrderKeepsBalance(db, o, next);
    NothingToRelease(after, o, next);
  }

  // ---- the stale-order sweep ----------------------------------------------------------

  /** One order of the sweep: only a status still PENDING is claimed. */
  ghost function ExpiredOrder(db: Db, o: OrderId): Db {
    if o in db.orders && db.orders[o].status.Pending?
    then ReleaseOrder(WithStatus(db, o, Cancelled), o, Expired) else db
  }

  ghost function ExpireInOrder(db: Db, stale: seq<OrderId>): Db {
    if stale == [] then db else ExpiredOrder(ExpireInOrder(db, stale[..|stale| - 1]), stale[|stale| - 1])
  }

  /** The rows read as stale may have moved on since; every one is counted, moved or not. */
  method ExpireStalePendingOrders(client: Database, staleOrders: seq<OrderId>) returns (expiredCount: nat)
    requires client.Valid()
    modifies client
    ensures client.Valid() && client.State() == ExpireInOrder(old(client.State()), staleOrders)
    ensures expiredCount == |staleOrders|
  {
    ghost var before := client.State();
    expiredCount := 0;
    for k := 0 to |staleOrders|
      invariant client.Valid() && client.State() == ExpireInOrder(before, staleOrders[..k])
      invariant expiredCount == k
    {
      var o := staleOrders[k];
      assert staleOrders[..k + 1][..k] == staleOrders[..k];
      if o in client.orders && client.orders[o].status.Pending? {
        client.orders := client.orders[o := client.orders[o].(status := Cancelled)];
        var _ := ReleaseOrderReservations(client, o, Expired);
      }
      expiredCount := expiredCount + 1;
    }
    assert staleOrders[..|staleOrders|] == staleOrders;
  }

  /** The sweep cancels exactly the listed orders still PENDING, and keeps the counters right. */
  lemma {:induction false} SweepCancelsPending(db: Db, stale: seq<OrderId>)
    requires Balanced(db)
    ensures var after := ExpireInOrder(db, stale);
      Balanced(after) && after.orders.Keys == db.orders.Keys &&
      (forall o :: o in db.orders ==>
        after.orders[o] == if o in stale && db.orders[o].status.Pending? then db.orders[o].(status := Cancelled) else db.orders[o])
    decreases |stale|
  {
    if stale != [] {
      var n := |stale| - 1;
      var before := ExpireInOrder(db, stale[..n]);
      SweepCancelsPending(db, stale[..n]);
      assert stale == stale[..n] + [stale[n]];
      if stale[n] in before.orders && before.orders[stale[n]].status.Pending? {
        ReleaseOrderKeepsBalance(WithStatus(before, stale[n], Cancelled), stale[n], Expired);
      }
    }
  }

  predicate IsPending(db: Db, o: OrderId) {
    o in db.orders && db.orders[o].status.Pending?
  }

  /** The orders a sweep cancels. */
  function CancelledBy(db: Db, stale: seq<OrderId>): set<OrderId> {
    if stale == [] then {} else
      var last := stale[|stale| - 1];
      CancelledBy(db, stale[..|stale| - 1]) + if IsPending(db, last) then {last} else {}
  }

  lemma {:induction false} CancelledAre(db: Db, stale: seq<OrderId>, o: OrderId)
    ensures o in CancelledBy(db, stale) <==> o in stale && IsPending(db, o)
    decreases |stale|
  {
    if stale != [] {
      CancelledAre(db, stale[..|stale| - 1], o);
      assert stale == stale[..|stale| - 1] + [stale[|stale| - 1]];
    }
  }

  lemma DistinctNext(s: seq<OrderId>)
    requires s != []
    ensures Distinct(s) <==> Distinct(s[..|s| - 1]) && s[|s| - 1] !in s[..|s| - 1]
  {
    var n := |s| - 1;
    if Distinct(s[..n]) && s[n] !in s[..n] {
      forall i, j | 0 <= i < j < |s|
        ensures s[i] != s[j]
      {
        assert s[i] == s[..n][i];
      }
    }
  }

  lemma {:induction false} CancelledAtMost(db: Db, stale: seq<OrderId>)
    ensures |CancelledBy(db, stale)| <= |stale|
    ensures |CancelledBy(db, stale)| == |stale| <==> Distinct(stale) && AllPending(db, stale)
    decreases |stale|
  {
    if stale != [] {
      var n := |stale| - 1;
      var before := CancelledBy(db, stale[..n]);
      CancelledAtMost(db, stale[..n]);
      CancelledAre(db, stale[..n], stale[n]);
      DistinctNext(stale);
      hide Distinct;
      assert AllPending(db, stale) <==> AllPending(db, stale[..n]) && IsPending(db, stale[n]);
      if IsPending(db, stale[n]) && stale[n] in stale[..n] {
        assert CancelledBy(db, stale) == before;
      } else if IsPending(db, stale[n]) {
        assert CancelledBy(db, stale) == before + {stale[n]} && |before + {stale[n]}| == |before| + 1;
      }
    }
  }

  ghost predicate AllPending(db: Db, stale: seq<OrderId>) {
    forall k :: 0 <= k < |stale| ==> IsPending(db, stale[k])
  }

  /**
   * The sweep reports as many orders as it cancels exactly when its list names each order once and
   * none of them has moved since it was read.
   */
  lemma SweepCountsExactly(db: Db, stale: seq<OrderId>)
    requires Balanced(db)
    ensures ExpireInOrder(db, stale).orders.Keys == db.orders.Keys
    ensures forall o :: o in db.orders ==>
      (o in CancelledBy(db, stale) <==> IsPending(db, o) && ExpireInOrder(db, stale).orders[o].status.Cancelled?)
    ensures |stale| == |CancelledBy(db, stale)| <==> Distinct(stale) && AllPending(db, stale)
  {
    CancelledAtMost(db, stale);
    SweepCancelsPending(db, stale);
    forall o | o in db.orders
      ensures o in CancelledBy(db, stale) <==> o in stale && IsPending(db, o)
    {
      CancelledAre(db, stale, o);
    }
  }

  /** A swept order holds nothing, and a hold outside the swept orders is not touched. */
  lemma {:induction false} SweepEndsTheirHolds(db: Db, stale: seq<OrderId>, r: ReservationId)
    requires r in db.reservations
    ensures r in ExpireInOrder(db, stale).reservations
    ensures var was, now := db.reservations[r], ExpireInOrder(db, stale).reservations[r];
      var swept := was.status.Reserved? && was.orderId.Some? && was.orderId.value in stale &&
        was.orderId.value in db.orders && db.orders[was.orderId.value].status.Pending?;
      now == if swept then was.(status := Expired) else was
    decreases |stale|
  {
    if stale != [] {
      var n := |stale| - 1;
      SweepEndsTheirHolds(db, stale[..n], r);
      SweepStatus(db, stale[..n], stale[n]);
      assert stale == stale[..n] + [stale[n]];
    }
  }

  lemma {:induction false} SweepStatus(db: Db, stale: seq<OrderId>, o: OrderId)
    ensures o in ExpireInOrder(db, stale).orders <==> o in db.orders
    ensures o in db.orders ==>
      ExpireInOrder(db, stale).orders[o].status == if o in stale && db.orders[o].status.Pending? then Cancelled else db.orders[o].status
    decreases |stale|
  {
    if stale != [] {
      var n := |stale| - 1;
      SweepStatus(db, stale[..n], o);
      assert stale == stale[..n] + [stale[n]];
    }
  }
}
