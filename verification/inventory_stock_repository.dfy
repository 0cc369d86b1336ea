/** The stock primitives: one conditional update, and claims whose rows say what to give back. */
module InventoryStockRepository {
  import opened Common
  import opened Sums
  import opened Stock
  import opened DatabaseTables

  /** What a claim reports of a row it moved out of RESERVED: the inventory row held, and how much of it. */
  datatype ClaimedReservation = ClaimedReservation(inventoryId: InventoryId, quantity: Quantity)

  // ---- specification ------------------------------------------------------------------

  function RowOf(r: Reservation): ClaimedReservation {
    ClaimedReservation(r.inventoryId, r.quantity)
  }

  /** `ids` lists the set `s`, each member once, in whatever order the database returns it. */
  ghost predicate Lists(ids: seq<ReservationId>, s: set<ReservationId>) {
    if ids == [] then s == {} else
      var last := ids[|ids| - 1];
      last in s && Lists(ids[..|ids| - 1], s - {last})
  }

  /** The RETURNING clause: the claimed rows in that order. */
  ghost predicate Returns(claimed: seq<ClaimedReservation>, rs: Reservations, ids: seq<ReservationId>) {
    |claimed| == |ids| &&
    (ids != [] ==>
      var n := |ids| - 1;
      ids[n] in rs && claimed[n] == RowOf(rs[ids[n]]) && Returns(claimed[..n], rs, ids[..n]))
  }

  /** What the claimed rows hold of inventory row `i`. */
  ghost function QuantityOn(claimed: seq<ClaimedReservation>, i: InventoryId): int {
    if claimed == [] then 0 else
      var last := claimed[|claimed| - 1];
      QuantityOn(claimed[..|claimed| - 1], i) + if last.inventoryId == i then last.quantity else 0
  }

  function TotalQuantity(claimed: seq<ClaimedReservation>): int {
    if claimed == [] then 0 else TotalQuantity(claimed[..|claimed| - 1]) + claimed[|claimed| - 1].quantity
  }

  /** The total an order still holds. */
  ghost function OutstandingTotal(rs: Reservations, orderId: OrderId): int {
    Sum(map r | r in Outstanding(rs, orderId) :: rs[r].quantity)
  }

  /** The simple form the fold replaces: one decrement for each claimed row. */
  ghost function RowByRow(stock: map<InventoryId, StockRow>, claimed: seq<ClaimedReservation>): map<InventoryId, StockRow>
    requires forall k :: 0 <= k < |claimed| ==> claimed[k].inventoryId in stock
    ensures RowByRow(stock, claimed).Keys == stock.Keys
  {
    if claimed == [] then stock else
      var last := claimed[|claimed| - 1];
      var before := RowByRow(stock, claimed[..|claimed| - 1]);
      before[last.inventoryId := AddReserved(before[last.inventoryId], 0 - last.quantity)]
  }

  // ---- laws ---------------------------------------------------------------------------

  /** Row by row, each counter drops by exactly what the rows hold of it. */
  lemma {:induction false} RowByRowDropsQuantity(
      stock: map<InventoryId, StockRow>, claimed: seq<ClaimedReservation>, i: InventoryId)
    requires forall k :: 0 <= k < |claimed| ==> claimed[k].inventoryId in stock
    requires i in stock
    ensures RowByRow(stock, claimed)[i] == AddReserved(stock[i], -QuantityOn(claimed, i))
    decreases |claimed|
  {
    if claimed != [] {
      RowByRowDropsQuantity(stock, claimed[..|claimed| - 1], i);
    }
  }

  /** The rows of a set, listed in any order, hold what the set holds. */
  lemma {:induction false} ListedQuantity(
      rs: Reservations, ids: seq<ReservationId>, s: set<ReservationId>, claimed: seq<ClaimedReservation>, i: InventoryId)
    requires s <= rs.Keys && Lists(ids, s) && Returns(claimed, rs, ids)
    ensures QuantityOn(claimed, i) == ClaimedOf(rs, s, i)
    decreases |ids|
  {
    var w := map r | r in s :: Share(rs, r, i);
    if ids == [] {
      assert w == map[];
    } else {
      var n := |ids| - 1;
      var r := ids[n];
      ListedQuantity(rs, ids[..n], s - {r}, claimed[..n], i);
      SumPick(w, r);
      assert w - {r} == map x | x in s - {r} :: Share(rs, x, i);
    }
  }

  lemma {:induction false} ListedTotal(
      rs: Reservations, ids: seq<ReservationId>, s: set<ReservationId>, claimed: seq<ClaimedReservation>)
    requires s <= rs.Keys && Lists(ids, s) && Returns(claimed, rs, ids)
    ensures TotalQuantity(claimed) == Sum(map r | r in s :: rs[r].quantity)
    decreases |ids|
  {
    var w: map<ReservationId, int> := map r | r in s :: rs[r].quantity;
    if ids == [] {
      assert w == map[];
    } else {
      var n := |ids| - 1;
      var r := ids[n];
      ListedTotal(rs, ids[..n], s - {r}, claimed[..n]);
      SumPick(w, r);
      var rest: map<ReservationId, int> := map x | x in s - {r} :: rs[x].quantity;
      assert w - {r} == rest;
    }
  }

  lemma {:induction false} TotalPositive(claimed: seq<ClaimedReservation>)
    ensures TotalQuantity(claimed) >= |claimed|
    decreases |claimed|
  {
    if claimed != [] {
      TotalPositive(claimed[..|claimed| - 1]);
    }
  }

  /** The claimed rows sit on inventory rows that exist. */
  lemma {:induction false} ClaimedStockExists(db: Db, ids: seq<ReservationId>, claimed: seq<ClaimedReservation>, k: nat)
    requires StockExists(db) && Returns(claimed, db.reservations, ids)
    requires k < |claimed|
    ensures claimed[k].inventoryId in db.stock
    decreases |claimed|
  {
    if k < |claimed| - 1 {
      ClaimedStockExists(db, ids[..|ids| - 1], claimed[..|ids| - 1], k);
    }
  }

  /** Counters lowered by what is owed are the counters lowered row by row. */
  lemma GivenBackIsRowByRow(
      stock: map<InventoryId, StockRow>, owed: map<InventoryId, int>, claimed: seq<ClaimedReservation>)
    requires forall k :: 0 <= k < |claimed| ==> claimed[k].inventoryId in stock
    requires forall i :: QuantityOn(claimed, i) == if i in owed then owed[i] else 0
    ensures GivenBack(stock, owed) == RowByRow(stock, claimed)
  {
    forall i | i in stock
      ensures GivenBack(stock, owed)[i] == RowByRow(stock, claimed)[i]
    {
      RowByRowDropsQuantity(stock, claimed, i);
    }
  }

  lemma {:induction false} QuantityElsewhere(claimed: seq<ClaimedReservation>, i: InventoryId)
    requires forall k :: 0 <= k < |claimed| ==> claimed[k].inventoryId != i
    ensures QuantityOn(claimed, i) == 0
    decreases |claimed|
  {
    if claimed != [] {
      QuantityElsewhere(claimed[..|claimed| - 1], i);
    }
  }

  /** Listed in any order, the claimed rows hold of each inventory row what is owed back to it. */
  lemma ListedOwed(rs: Reservations, ids: seq<ReservationId>, s: set<ReservationId>,
      claimed: seq<ClaimedReservation>, keys: set<InventoryId>)
    requires s <= rs.Keys && Lists(ids, s) && Returns(claimed, rs, ids)
    requires forall k :: 0 <= k < |claimed| ==> claimed[k].inventoryId in keys
    ensures forall i :: QuantityOn(claimed, i) == if i in OwedFor(rs, s, keys) then OwedFor(rs, s, keys)[i] else 0
  {
    var owed := OwedFor(rs, s, keys);
    forall i
      ensures QuantityOn(claimed, i) == if i in owed then owed[i] else 0
    {
      if i in owed {
        ListedQuantity(rs, ids, s, claimed, i);
      } else {
        QuantityElsewhere(claimed, i);
      }
    }
  }

  /** What the claimed rows tell the caller: how much was held, and that it can be credited. */
  lemma ClaimedRows(db: Db, orderId: OrderId, ids: seq<ReservationId>, claimed: seq<ClaimedReservation>)
    requires StockExists(db)
    requires Lists(ids, Outstanding(db.reservations, orderId)) && Returns(claimed, db.reservations, ids)
    ensures claimed == [] <==> Outstanding(db.reservations, orderId) == {}
    ensures TotalQuantity(claimed) == 0 <==> claimed == []
    ensures TotalQuantity(claimed) == OutstandingTotal(db.reservations, orderId)
    ensures forall k :: 0 <= k < |claimed| ==> claimed[k].inventoryId in db.stock
  {
    ListedTotal(db.reservations, ids, Outstanding(db.reservations, orderId), claimed);
    TotalPositive(claimed);
    forall k | 0 <= k < |claimed|
      ensures claimed[k].inventoryId in db.stock
    {
      ClaimedStockExists(db, ids, claimed, k);
    }
  }

  /** The folded release leaves the stock that decrementing row by row leaves, in any row order. */
  lemma FoldedReleaseIsRowByRow(db: Db, orderId: OrderId, next: ReservationStatus,
      ids: seq<ReservationId>, claimed: seq<ClaimedReservation>)
    requires StockExists(db)
    requires Lists(ids, Outstanding(db.reservations, orderId)) && Returns(claimed, db.reservations, ids)
    ensures forall k :: 0 <= k < |claimed| ==> claimed[k].inventoryId in db.stock
    ensures ReleaseOrder(db, orderId, next).stock == RowByRow(db.stock, claimed)
  {
    var s := Outstanding(db.reservations, orderId);
    ClaimedRows(db, orderId, ids, claimed);
    ListedOwed(db.reservations, ids, s, claimed, db.stock.Keys);
    GivenBackIsRowByRow(db.stock, OwedFor(db.reservations, s, db.stock.Keys), claimed);
  }

  // ---- the repository -----------------------------------------------------------------

  /** The conditional increment: it succeeds exactly on a row with enough left, and then adds to its counter alone. */
  method TryReserve(client: Database, inventoryId: InventoryId, quantity: Quantity) returns (reserved: bool)
    modifies client`stock
    ensures reserved <==> inventoryId in old(client.stock) && Available(old(client.stock)[inventoryId]) >= quantity
    ensures client.stock ==
      if reserved then old(client.stock)[inventoryId := AddReserved(old(client.stock)[inventoryId], quantity)]
      else old(client.stock)
  {
    reserved := false;
    if inventoryId in client.stock && Available(client.stock[inventoryId]) >= quantity {
      client.stock := client.stock[inventoryId := AddReserved(client.stock[inventoryId], quantity)];
      reserved := true;
    }
  }

  /** End every RESERVED row of an order; the result lists each row ended once, and no other. */
  method ClaimOrderReservations(client: Database, orderId: OrderId, next: ReservationStatus)
      returns (claimed: seq<ClaimedReservation>, ghost ids: seq<ReservationId>)
    modifies client`reservations
    ensures Lists(ids, Outstanding(old(client.reservations), orderId))
    ensures Returns(claimed, old(client.reservations), ids)
    ensures client.reservations == Flip(old(client.reservations), Outstanding(old(client.reservations), orderId), next)
  {
    var all := Outstanding(client.reservations, orderId);
    var todo := all;
    claimed, ids := [], [];
    while todo != {}
      invariant todo <= all
      invariant Lists(ids, all - todo)
      invariant Returns(claimed, client.reservations, ids)
    {
      var r :| r in todo;
      assert (ids + [r])[..|ids|] == ids;
      assert all - (todo - {r}) - {r} == all - todo;
      assert (claimed + [RowOf(client.reservations[r])])[..|ids|] == claimed;
      claimed := claimed + [RowOf(client.reservations[r])];
      ids := ids + [r];
      todo := todo - {r};
    }
    assert all - todo == all;
    client.reservations := Flip(client.reservations, all, next);
  }

  /** The claim of one row; None unless it was RESERVED. */
  method ClaimReservation(client: Database, reservationId: ReservationId, next: ReservationStatus)
      returns (claimed: Option<ClaimedReservation>)
    modifies client`reservations
    ensures claimed.Some? <==>
      reservationId in old(client.reservations) && old(client.reservations)[reservationId].status.Reserved?
    ensures claimed.Some? ==> claimed.value == RowOf(old(client.reservations)[reservationId])
    ensures client.reservations ==
      if claimed.Some?
      then old(client.reservations)[reservationId := old(client.reservations)[reservationId].(status := next)]
      else old(client.reservations)
  {
    if reservationId in client.reservations && client.reservations[reservationId].status.Reserved? {
      claimed := Some(RowOf(client.reservations[reservationId]));
      client.reservations :=
        client.reservations[reservationId := client.reservations[reservationId].(status := next)];
    } else {
      claimed := None;
    }
  }

  /** End one hold and lower its counter by what it held; returns that quantity, 0 for a row not RESERVED. */
  method ReleaseReservation(client: Database, reservationId: ReservationId, next: ReservationStatus)
      returns (released: int)
    requires client.Valid() && !next.Reserved?
    modifies client`stock, client`reservations
    ensures client.State() == ReleaseOne(old(client.State()), reservationId, next)
    ensures client.Valid()
    ensures released ==
      if reservationId in old(client.reservations) && old(client.reservations)[reservationId].status.Reserved?
      then old(client.reservations)[reservationId].quantity else 0
  {
    var claimed := ClaimReservation(client, reservationId, next);
    if claimed.None? {
      return 0;
    }
    var row := claimed.value;
    client.stock := client.stock[row.inventoryId := AddReserved(client.stock[row.inventoryId], 0 - row.quantity)];
    released := row.quantity;
  }

  /** Totals by inventory row: the quantity claimed on each, and no entry for a row without claims. */
  method FoldByInventory(claimed: seq<ClaimedReservation>) returns (byInventory: map<InventoryId, int>)
    ensures forall i :: i in byInventory ==> exists k :: 0 <= k < |claimed| && claimed[k].inventoryId == i
    ensures forall i :: QuantityOn(claimed, i) == if i in byInventory then byInventory[i] else 0
  {
    byInventory := map[];
    for n := 0 to |claimed|
      invariant forall i :: i in byInventory ==> exists k :: 0 <= k < n && claimed[k].inventoryId == i
      invariant forall i :: QuantityOn(claimed[..n], i) == if i in byInventory then byInventory[i] else 0
    {
      var row := claimed[n];
      assert claimed[..n + 1][..n] == claimed[..n];
      var sofar := if row.inventoryId in byInventory then byInventory[row.inventoryId] else 0;
      byInventory := byInventory[row.inventoryId := sofar + row.quantity];
    }
    assert claimed[..|claimed|] == claimed;
  }

  /** One update for each inventory row of the fold. */
  method GiveBack(client: Database, byInventory: map<InventoryId, int>)
    requires byInventory.Keys <= client.stock.Keys
    modifies client`stock
    ensures client.stock == GivenBack(old(client.stock), byInventory)
  {
    ghost var before := client.stock;
    var todo := byInventory.Keys;
    while todo != {}
      invariant todo <= byInventory.Keys
      invariant client.stock == map i | i in before ::
        if i in byInventory && i !in todo then AddReserved(before[i], -byInventory[i]) else before[i]
    {
      var i :| i in todo;
      client.stock := client.stock[i := AddReserved(client.stock[i], -byInventory[i])];
      todo := todo - {i};
    }
  }

  /** The fold and its updates together: the stock that one decrement per claimed row would leave. */
  method Credit(client: Database, claimed: seq<ClaimedReservation>)
    requires forall k :: 0 <= k < |claimed| ==> claimed[k].inventoryId in client.stock
    modifies client`stock
    ensures client.stock == RowByRow(old(client.stock), claimed)
  {
    var byInventory := FoldByInventory(claimed);
    GivenBackIsRowByRow(client.stock, byInventory, claimed);
    GiveBack(client, byInventory);
  }

  /** End all RESERVED rows of an order and lower each counter by what they held; returns the total, 0 the second time. */
  method ReleaseOrderReservations(client: Database, orderId: OrderId, next: ReservationStatus)
      returns (released: int)
    requires client.Valid() && !next.Reserved?
    modifies client`stock, client`reservations
    ensures client.State() == ReleaseOrder(old(client.State()), orderId, next)
    ensures client.Valid()
    ensures released == OutstandingTotal(old(client.reservations), orderId)
    ensures released == 0 <==> Outstanding(old(client.reservations), orderId) == {}
  {
    hide OwedFor;
    hide Returns;
    ghost var before := client.State();
    var claimed, ids := ClaimOrderReservations(client, orderId, next);
    ClaimedRows(before, orderId, ids, claimed);
    if claimed == [] {
      NothingToRelease(before, orderId, next);
      return 0;
    }
    Credit(client, claimed);
    FoldedReleaseIsRowByRow(before, orderId, next, ids, claimed);
    released := TotalQuantity(claimed);
  }
}
