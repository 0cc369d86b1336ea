/**
 * Stock rows, the reservations held against them and the orders they belong to, with the
 * single-statement effects every path in the system is built from.
 */
module Stock {
  import opened Common
  import opened Sums

  type InventoryId = string
  type ReservationId = string
  type OrderId = string
  type Instant = int
  type Quantity = q: int | 1 <= q witness 1

  datatype ReservationStatus = Reserved | Consumed | Expired | Released

  datatype OrderStatus = Pending | Processing | ReadyForPickup | Completed | Cancelled | Failed

  datatype StockRow = StockRow(onHand: int, reserved: int)

  datatype Reservation = Reservation(
    inventoryId: InventoryId, quantity: Quantity, status: ReservationStatus,
    orderId: Option<OrderId>, expiresAt: Instant)

  datatype Line = Line(inventoryId: InventoryId, quantity: Quantity)

  /** `holds` are the reservation ids the checkout created and linked, one per line. */
  datatype Order = Order(status: OrderStatus, items: seq<Line>, holds: seq<ReservationId>)

  datatype Db = Db(
    stock: map<InventoryId, StockRow>,
    reservations: map<ReservationId, Reservation>,
    orders: map<OrderId, Order>)

  type Reservations = map<ReservationId, Reservation>

  function Available(row: StockRow): int {
    row.onHand - row.reserved
  }

  /** Every reservation points at a stock row (a foreign key). */
  ghost predicate StockExists(db: Db) {
    forall r :: r in db.reservations ==> db.reservations[r].inventoryId in db.stock
  }

  // ---- what is held -------------------------------------------------------------------

  /** What one reservation row holds of inventory row `i`. */
  function Weight(r: Reservation, i: InventoryId): nat {
    if r.status.Reserved? && r.inventoryId == i then r.quantity else 0
  }

  /** The total quantity of the RESERVED rows of inventory row `i`. */
  ghost function Held(rs: Reservations, i: InventoryId): int {
    Sum(map r | r in rs :: Weight(rs[r], i))
  }

  /** The counter column agrees with the rows. */
  ghost predicate Balanced(db: Db) {
    forall i :: i in db.stock ==> db.stock[i].reserved == Held(db.reservations, i)
  }

  /** An order's rows that are still RESERVED: what one claim on the order returns. */
  function Outstanding(rs: Reservations, orderId: OrderId): set<ReservationId> {
    set r | r in rs && rs[r].orderId == Some(orderId) && rs[r].status.Reserved?
  }

  /** What claiming row `r` takes out of inventory row `i`. */
  function Share(rs: Reservations, r: ReservationId, i: InventoryId): nat {
    if r in rs && rs[r].inventoryId == i then rs[r].quantity else 0
  }

  /** The total quantity of the rows `claimed` that sit on inventory row `i`. */
  ghost function ClaimedOf(rs: Reservations, claimed: set<ReservationId>, i: InventoryId): int {
    Sum(map r | r in claimed :: Share(rs, r, i))
  }

  // ---- statement effects --------------------------------------------------------------

  function AddReserved(row: StockRow, d: int): StockRow {
    row.(reserved := row.reserved + d)
  }

  function AddOnHand(row: StockRow, d: int): StockRow {
    row.(onHand := row.onHand + d)
  }

  /** The status flip that is the claim. */
  function Flip(rs: Reservations, claimed: set<ReservationId>, next: ReservationStatus): Reservations {
    map r | r in rs :: if r in claimed then rs[r].(status := next) else rs[r]
  }

  /** What is owed back to each inventory row of `keys` once the rows `claimed` are claimed. */
  ghost function OwedFor(rs: Reservations, claimed: set<ReservationId>, keys: set<InventoryId>): map<InventoryId, int> {
    map i | i in keys :: ClaimedOf(rs, claimed, i)
  }

  /** Each counter lowered by what is owed back to it. */
  function GivenBack(stock: map<InventoryId, StockRow>, owed: map<InventoryId, int>): map<InventoryId, StockRow> {
    map i | i in stock :: if i in owed then AddReserved(stock[i], -owed[i]) else stock[i]
  }

  /** All of an order's outstanding rows claimed and given back. */
  ghost function ReleaseOrder(db: Db, orderId: OrderId, next: ReservationStatus): Db {
    var claimed := Outstanding(db.reservations, orderId);
    db.(stock := GivenBack(db.stock, OwedFor(db.reservations, claimed, db.stock.Keys)),
        reservations := Flip(db.reservations, claimed, next))
  }

  /** One row claimed and given back; nothing happens when its hold has already ended. */
  ghost function ReleaseOne(db: Db, r: ReservationId, next: ReservationStatus): Db
    requires StockExists(db)
  {
    if r in db.reservations && db.reservations[r].status.Reserved? then
      var i := db.reservations[r].inventoryId;
      db.(stock := db.stock[i := AddReserved(db.stock[i], 0 - db.reservations[r].quantity)],
          reservations := db.reservations[r := db.reservations[r].(status := next)])
    else db
  }

  // ---- laws of the effects ------------------------------------------------------------

  /** Ending the rows `claimed` takes exactly their quantity out of what is held. */
  lemma FlipTakesClaimed(rs: Reservations, claimed: set<ReservationId>, next: ReservationStatus, i: InventoryId)
    requires claimed <= rs.Keys
    requires forall r :: r in claimed ==> rs[r].status.Reserved?
    requires !next.Reserved?
    ensures Held(Flip(rs, claimed, next), i) == Held(rs, i) - ClaimedOf(rs, claimed, i)
  {
    var after := Flip(rs, claimed, next);
    var wBefore := map r | r in rs :: Weight(rs[r], i);
    var wAfter := map r | r in after :: Weight(after[r], i);
    var only := map r | r in claimed :: Share(rs, r, i);
    var padded := map r | r in rs :: if r in only then only[r] else 0;
    SumIgnoresZeros(padded, only);
    SumAdd(wAfter, padded, wBefore);
  }

  /** Inserting or replacing one row moves what is held by the difference of its weights. */
  lemma HeldUpdate(rs: Reservations, r: ReservationId, row: Reservation, i: InventoryId)
    ensures Held(rs[r := row], i) == Held(rs, i) + Weight(row, i) - (if r in rs then Weight(rs[r], i) else 0)
  {
    var w := map x | x in rs :: Weight(rs[x], i);
    var after := rs[r := row];
    assert (map x | x in after :: Weight(after[x], i)) == w[r := Weight(row, i)];
    SumUpdate(w, r, Weight(row, i));
  }

  lemma HeldNonNegative(rs: Reservations, i: InventoryId)
    ensures Held(rs, i) >= 0
  {
    SumNonNegative(map r | r in rs :: Weight(rs[r], i));
  }

  lemma NothingHeld(rs: Reservations, i: InventoryId)
    requires forall r :: r in rs ==> !rs[r].status.Reserved?
    ensures Held(rs, i) == 0
  {
    var none: map<ReservationId, int> := map[];
    SumIgnoresZeros(map r | r in rs :: Weight(rs[r], i), none);
  }

  lemma FlipLeavesNothing(rs: Reservations, orderId: OrderId, next: ReservationStatus)
    requires !next.Reserved?
    ensures Outstanding(Flip(rs, Outstanding(rs, orderId), next), orderId) == {}
  {
  }

  /** A release ends exactly the order's RESERVED rows and touches no shelf, no other row and no order. */
  lemma ReleaseOrderIs(db: Db, orderId: OrderId, next: ReservationStatus)
    ensures var after := ReleaseOrder(db, orderId, next);
      after.orders == db.orders && after.stock.Keys == db.stock.Keys && after.reservations.Keys == db.reservations.Keys &&
      (forall i :: i in db.stock ==> after.stock[i].onHand == db.stock[i].onHand) &&
      (forall r :: r in db.reservations ==>
        var row := db.reservations[r];
        after.reservations[r] == if row.orderId == Some(orderId) && row.status == Reserved then row.(status := next) else row)
  {
    hide ClaimedOf;
    var claimed := Outstanding(db.reservations, orderId);
    forall r | r in db.reservations
      ensures r in claimed <==> db.reservations[r].orderId == Some(orderId) && db.reservations[r].status == Reserved
    {
    }
    hide Outstanding;
  }

  lemma ReleaseOrderRow(db: Db, orderId: OrderId, next: ReservationStatus, i: InventoryId)
    requires i in db.stock
    ensures ReleaseOrder(db, orderId, next).stock[i] ==
      AddReserved(db.stock[i], -ClaimedOf(db.reservations, Outstanding(db.reservations, orderId), i))
  {
    var owed := OwedFor(db.reservations, Outstanding(db.reservations, orderId), db.stock.Keys);
    assert GivenBack(db.stock, owed)[i] == AddReserved(db.stock[i], -owed[i]);
  }

  lemma ReleaseOrderCounter(db: Db, orderId: OrderId, next: ReservationStatus, i: InventoryId)
    requires !next.Reserved?
    requires i in db.stock && db.stock[i].reserved == Held(db.reservations, i)
    ensures ReleaseOrder(db, orderId, next).stock[i].reserved
         == Held(ReleaseOrder(db, orderId, next).reservations, i)
  {
    ReleaseOrderRow(db, orderId, next, i);
    FlipTakesClaimed(db.reservations, Outstanding(db.reservations, orderId), next, i);
  }

  /** The release keeps the counter and the rows in agreement, and leaves the order nothing held. */
  lemma ReleaseOrderKeepsBalance(db: Db, orderId: OrderId, next: ReservationStatus)
    requires Balanced(db) && !next.Reserved?
    ensures Balanced(ReleaseOrder(db, orderId, next))
    ensures Outstanding(ReleaseOrder(db, orderId, next).reservations, orderId) == {}
  {
    FlipLeavesNothing(db.reservations, orderId, next);
    forall i | i in ReleaseOrder(db, orderId, next).stock
      ensures ReleaseOrder(db, orderId, next).stock[i].reserved
           == Held(ReleaseOrder(db, orderId, next).reservations, i)
    {
      ReleaseOrderCounter(db, orderId, next, i);
    }
  }

  lemma NothingToRelease(db: Db, orderId: OrderId, next: ReservationStatus)
    requires Outstanding(db.reservations, orderId) == {}
    ensures ReleaseOrder(db, orderId, next) == db
  {
    assert ReleaseOrder(db, orderId, next).stock == db.stock;
    assert ReleaseOrder(db, orderId, next).reservations == db.reservations;
  }

  /** Releasing an order twice is releasing it once: the second call finds nothing to claim. */
  lemma ReleaseOrderTwice(db: Db, orderId: OrderId, next: ReservationStatus, again: ReservationStatus)
    requires !next.Reserved?
    ensures ReleaseOrder(ReleaseOrder(db, orderId, next), orderId, again) == ReleaseOrder(db, orderId, next)
  {
    FlipLeavesNothing(db.reservations, orderId, next);
    NothingToRelease(ReleaseOrder(db, orderId, next), orderId, again);
  }

  lemma ReleaseOneKeepsBalance(db: Db, r: ReservationId, next: ReservationStatus)
    requires Balanced(db) && StockExists(db) && !next.Reserved?
    ensures Balanced(ReleaseOne(db, r, next)) && StockExists(ReleaseOne(db, r, next))
    ensures ReleaseOne(ReleaseOne(db, r, next), r, next) == ReleaseOne(db, r, next)
  {
    hide Held;
    if r in db.reservations && db.reservations[r].status.Reserved? {
      forall i | i in db.stock
        ensures ReleaseOne(db, r, next).stock[i].reserved == Held(ReleaseOne(db, r, next).reservations, i)
      {
        HeldUpdate(db.reservations, r, db.reservations[r].(status := next), i);
      }
    }
  }

  // ---- order lines --------------------------------------------------------------------

  /** What the lines ask of inventory row `i`. */
  ghost function LinesTotal(lines: seq<Line>, i: InventoryId): int {
    if lines == [] then 0 else
      var last := lines[|lines| - 1];
      LinesTotal(lines[..|lines| - 1], i) + if last.inventoryId == i then last.quantity else 0
  }

  lemma {:induction false} NoLinesElsewhere(lines: seq<Line>, i: InventoryId)
    requires forall k :: 0 <= k < |lines| ==> lines[k].inventoryId != i
    ensures LinesTotal(lines, i) == 0
    decreases |lines|
  {
    if lines != [] {
      NoLinesElsewhere(lines[..|lines| - 1], i);
    }
  }

  lemma LinesTotalNext(lines: seq<Line>, k: nat, i: InventoryId)
    requires k < |lines|
    ensures LinesTotal(lines[..k + 1], i)
         == LinesTotal(lines[..k], i) + if lines[k].inventoryId == i then lines[k].quantity else 0
  {
    assert lines[..k + 1][..k] == lines[..k];
  }

  lemma {:induction false} LinesTotalGrows(lines: seq<Line>, k: nat, i: InventoryId)
    requires k <= |lines|
    ensures 0 <= LinesTotal(lines[..k], i) <= LinesTotal(lines, i)
    decreases |lines|, |lines| - k
  {
    if k == |lines| {
      assert lines[..k] == lines;
      if k > 0 {
        LinesTotalGrows(lines[..k - 1], k - 1, i);
      }
    } else {
      LinesTotalGrows(lines, k + 1, i);
      LinesTotalNext(lines, k, i);
      LinesTotalGrows(lines[..k], k, i);
    }
  }
}
