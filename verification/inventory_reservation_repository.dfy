/** Holds as the reservation endpoints and the TTL sweeper end them. */
module InventoryReservationRepository {
  import opened Common
  import opened Sums
  import opened Stock
  import opened DatabaseTables
  import opened InventoryStockRepository

  datatype ReservationError =
    | InventoryNotFound
    | InsufficientStock(available: int)
    | ReservationNotFound
    | HoldEnded(status: ReservationStatus)

  /** A sale's audit entry. */
  datatype Sale = Sale(previousOnHand: int, newOnHand: int)

  // ---- specification ------------------------------------------------------------------

  /** The sweep may take a hold without an order, or with one that is neither PROCESSING nor READY_FOR_PICKUP. */
  predicate Sweepable(db: Db, r: Reservation) {
    r.orderId.None? ||
    (r.orderId.value in db.orders &&
     !db.orders[r.orderId.value].status.Processing? && !db.orders[r.orderId.value].status.ReadyForPickup?)
  }

  /** What the sweep reads: RESERVED rows past their expiry that no paid order owns. */
  function Stale(db: Db, now: Instant): set<ReservationId> {
    set r | r in db.reservations && db.reservations[r].status.Reserved? &&
            db.reservations[r].expiresAt <= now && Sweepable(db, db.reservations[r])
  }

  /** A whole set of RESERVED rows claimed and given back at once. */
  ghost function ReleaseSet(db: Db, rows: set<ReservationId>, next: ReservationStatus): Db {
    db.(stock := GivenBack(db.stock, OwedFor(db.reservations, rows, db.stock.Keys)),
        reservations := Flip(db.reservations, rows, next))
  }

  // ---- laws ---------------------------------------------------------------------------

  lemma ClaimedOfOneMore(rs: Reservations, rows: set<ReservationId>, r: ReservationId, i: InventoryId)
    requires r !in rows
    ensures ClaimedOf(rs, rows + {r}, i) == ClaimedOf(rs, rows, i) + Share(rs, r, i)
  {
    var more := map x | x in rows + {r} :: Share(rs, x, i);
    SumPick(more, r);
    assert more - {r} == map x | x in rows :: Share(rs, x, i);
  }

  lemma ReleaseNone(db: Db, next: ReservationStatus)
    ensures ReleaseSet(db, {}, next) == db
  {
    assert ReleaseSet(db, {}, next).reservations == db.reservations;
    assert ReleaseSet(db, {}, next).stock == db.stock;
  }

  lemma OwedOneMore(rs: Reservations, rows: set<ReservationId>, r: ReservationId, keys: set<InventoryId>)
    requires r in rs && r !in rows
    ensures forall i :: i in keys ==>
      OwedFor(rs, rows + {r}, keys)[i]
        == OwedFor(rs, rows, keys)[i] + if i == rs[r].inventoryId then rs[r].quantity else 0
  {
    forall i | i in keys
      ensures ClaimedOf(rs, rows + {r}, i) == ClaimedOf(rs, rows, i) + Share(rs, r, i)
    {
      ClaimedOfOneMore(rs, rows, r, i);
    }
  }

  lemma GivenBackOneMore(stock: map<InventoryId, StockRow>, owed: map<InventoryId, int>, more: map<InventoryId, int>,
      at: InventoryId, quantity: int)
    requires owed.Keys == more.Keys == stock.Keys && at in stock
    requires forall i :: i in stock ==> more[i] == owed[i] + if i == at then quantity else 0
    ensures GivenBack(stock, more)
         == GivenBack(stock, owed)[at := AddReserved(GivenBack(stock, owed)[at], 0 - quantity)]
  {
  }

  /** Releasing rows one at a time, each re-claimed, is releasing the set. */
  lemma ReleaseOneMore(db: Db, rows: set<ReservationId>, r: ReservationId, next: ReservationStatus)
    requires StockExists(db) && r in db.reservations && r !in rows && db.reservations[r].status.Reserved?
    ensures StockExists(ReleaseSet(db, rows, next))
    ensures ReleaseOne(ReleaseSet(db, rows, next), r, next) == ReleaseSet(db, rows + {r}, next)
  {
    hide ClaimedOf;
    var owed, more := OwedFor(db.reservations, rows, db.stock.Keys), OwedFor(db.reservations, rows + {r}, db.stock.Keys);
    OwedOneMore(db.reservations, rows, r, db.stock.Keys);
    GivenBackOneMore(db.stock, owed, more, db.reservations[r].inventoryId, db.reservations[r].quantity);
    FlipOneMore(db.reservations, rows, r, next);
  }

  lemma FlipOneMore(rs: Reservations, rows: set<ReservationId>, r: ReservationId, next: ReservationStatus)
    requires r in rs && r !in rows
    ensures Flip(rs, rows + {r}, next) == Flip(rs, rows, next)[r := Flip(rs, rows, next)[r].(status := next)]
  {
  }

  lemma EndedHoldWeighs(rs: Reservations, r: ReservationId, ended: Reservation)
    requires r in rs && !ended.status.Reserved?
    ensures forall i :: Held(rs[r := ended], i) == Held(rs, i) - Weight(rs[r], i)
  {
    forall i ensures Held(rs[r := ended], i) == Held(rs, i) - Weight(rs[r], i) {
      HeldUpdate(rs, r, ended, i);
    }
  }

  /** The rows released one after the other. */
  ghost function ReleaseInOrder(db: Db, rows: seq<ReservationId>, next: ReservationStatus): (after: Db)
    requires StockExists(db)
    ensures StockExists(after)
  {
    if rows == [] then db else
      ReleaseOne(ReleaseInOrder(db, rows[..|rows| - 1], next), rows[|rows| - 1], next)
  }

  /** One transaction per row, in any order, leaves what claiming the whole set at once would leave. */
  lemma {:induction false} InOrderIsAtOnce(db: Db, rows: seq<ReservationId>, s: set<ReservationId>, next: ReservationStatus)
    requires StockExists(db) && Lists(rows, s) && !next.Reserved?
    requires forall r :: r in s ==> r in db.reservations && db.reservations[r].status.Reserved?
    ensures ReleaseInOrder(db, rows, next) == ReleaseSet(db, s, next)
    decreases |rows|
  {
    if rows == [] {
      ReleaseNone(db, next);
    } else {
      var n := |rows| - 1;
      InOrderIsAtOnce(db, rows[..n], s - {rows[n]}, next);
      ReleaseOneMore(db, s - {rows[n]}, rows[n], next);
      assert s - {rows[n]} + {rows[n]} == s;
    }
  }

  /** Every hold the order lists stands: RESERVED, and linked to it. */
  ghost predicate HoldsStand(db: Db, o: OrderId) {
    o in db.orders && forall r :: r in db.orders[o].holds ==>
      r in db.reservations && db.reservations[r].status == Reserved && db.reservations[r].orderId == Some(o)
  }

  predicate PaidFor(db: Db, o: OrderId) {
    o in db.orders && (db.orders[o].status == Processing || db.orders[o].status == ReadyForPickup)
  }

  /** A sweep never ends a hold of a paid order, so such an order keeps all it held; and it leaves nothing to sweep. */
  lemma SweepSparesPaidOrders(db: Db, now: Instant)
    ensures var after := ReleaseSet(db, Stale(db, now), Expired);
      (forall r, o :: r in db.reservations && db.reservations[r].orderId == Some(o) && PaidFor(db, o) ==>
        r in after.reservations && after.reservations[r] == db.reservations[r]) &&
      (forall o :: HoldsStand(db, o) && PaidFor(db, o) ==> HoldsStand(after, o)) &&
      Stale(after, now) == {}
  {
    var after := ReleaseSet(db, Stale(db, now), Expired);
    assert after.orders == db.orders;
    forall r | r in after.reservations
      ensures r !in Stale(after, now)
    {
      assert after.orders == db.orders;
    }
  }

  lemma SweepKeepsBalance(db: Db, now: Instant)
    requires Balanced(db)
    ensures Balanced(ReleaseSet(db, Stale(db, now), Expired))
  {
    var rows := Stale(db, now);
    var after := ReleaseSet(db, rows, Expired);
    forall i | i in after.stock
      ensures after.stock[i].reserved == Held(after.reservations, i)
    {
      SweptCounter(db, rows, i);
    }
  }

  lemma SweptCounter(db: Db, rows: set<ReservationId>, i: InventoryId)
    requires i in db.stock && db.stock[i].reserved == Held(db.reservations, i)
    requires forall r :: r in rows ==> r in db.reservations && db.reservations[r].status.Reserved?
    ensures var after := ReleaseSet(db, rows, Expired); after.stock[i].reserved == Held(after.reservations, i)
  {
    var owed := OwedFor(db.reservations, rows, db.stock.Keys);
    assert GivenBack(db.stock, owed)[i] == AddReserved(db.stock[i], -owed[i]);
    FlipTakesClaimed(db.reservations, rows, Expired, i);
  }

  // ---- the repository -----------------------------------------------------------------

  /** Reserve inventory if what is available covers it; `id` is the new row's generated id. */
  method CreateReservation(client: Database, id: ReservationId, inventoryId: InventoryId, quantity: Quantity,
      expiresAt: Instant, orderId: Option<OrderId>) returns (result: Result<Reservation, ReservationError>)
    requires id !in client.reservations
    modifies client`stock, client`reservations
    ensures result.Ok? <==> inventoryId in old(client.stock) && Available(old(client.stock)[inventoryId]) >= quantity
    ensures result.Ok? ==>
      result.value == Reservation(inventoryId, quantity, Reserved, orderId, expiresAt) &&
      client.reservations == old(client.reservations)[id := result.value] &&
      client.stock == old(client.stock)[inventoryId := AddReserved(old(client.stock)[inventoryId], quantity)]
    ensures result.Err? ==> client.State() == old(client.State())
    ensures inventoryId !in old(client.stock) ==> result == Err(InventoryNotFound)
    ensures result.Err? && inventoryId in old(client.stock) ==>
      result.error == InsufficientStock(Available(old(client.stock)[inventoryId]))
    ensures Balanced(old(client.State())) ==> Balanced(client.State())
  {
    if inventoryId !in client.stock {
      return Err(InventoryNotFound);
    }
    var inventory := client.stock[inventoryId];
    var reserved := TryReserve(client, inventoryId, quantity);
    if !reserved {
      return Err(InsufficientStock(Available(inventory)));
    }
    var row := Reservation(inventoryId, quantity, Reserved, orderId, expiresAt);
    ghost var before := client.reservations;
    client.reservations := client.reservations[id := row];
    forall i | i in client.stock
      ensures Held(client.reservations, i) == Held(before, i) + Weight(row, i)
    {
      HeldUpdate(before, id, row, i);
    }
    result := Ok(row);
  }

  /** On-hand stock and reserved counter drop by the held quantity in one step, and the row becomes CONSUMED. */
  method ConsumeReservation(client: Database, reservationId: ReservationId, orderId: OrderId)
      returns (result: Result<Sale, ReservationError>)
    requires client.Valid()
    modifies client`stock, client`reservations
    ensures client.Valid()
    ensures result.Ok? <==>
      reservationId in old(client.reservations) && old(client.reservations)[reservationId].status.Reserved?
    ensures result.Err? ==> client.State() == old(client.State())
    ensures reservationId !in old(client.reservations) ==> result == Err(ReservationNotFound)
    ensures result.Err? && reservationId in old(client.reservations) ==>
      result.error == HoldEnded(old(client.reservations)[reservationId].status)
    ensures result.Ok? ==>
      var row := old(client.reservations)[reservationId];
      var was := old(client.stock)[row.inventoryId];
      result.value == Sale(was.onHand, was.onHand - row.quantity) &&
      client.reservations == old(client.reservations)[reservationId := row.(status := Consumed, orderId := Some(orderId))] &&
      client.stock == old(client.stock)[row.inventoryId := StockRow(was.onHand - row.quantity, was.reserved - row.quantity)]
    ensures forall i :: i in client.stock ==>
      i in old(client.stock) && Available(client.stock[i]) == Available(old(client.stock)[i])
    ensures Balanced(old(client.State())) ==> Balanced(client.State())
  {
    if reservationId !in client.reservations {
      return Err(ReservationNotFound);
    }
    var reservation := client.reservations[reservationId];
    if !reservation.status.Reserved? {
      return Err(HoldEnded(reservation.status));
    }
    ghost var before := client.reservations;
    var claimed := ClaimReservation(client, reservationId, Consumed);
    var quantity := claimed.value.quantity;
    var inv := client.stock[reservation.inventoryId];
    var newOnHand := inv.onHand - quantity;
    client.stock := client.stock[reservation.inventoryId := StockRow(newOnHand, inv.reserved - quantity)];
    var updated := reservation.(status := Consumed, orderId := Some(orderId));
    client.reservations := client.reservations[reservationId := updated];
    assert client.reservations == before[reservationId := updated];
    EndedHoldWeighs(before, reservationId, updated);
    result := Ok(Sale(newOnHand + quantity, newOnHand));
  }

  /** Release a hold; one that already ended is left as it is. */
  method ReleaseHold(client: Database, reservationId: ReservationId)
      returns (result: Result<Reservation, ReservationError>)
    requires client.Valid()
    modifies client`stock, client`reservations
    ensures client.Valid()
    ensures result.Ok? <==> reservationId in old(client.reservations)
    ensures client.State() == ReleaseOne(old(client.State()), reservationId, Released)
    ensures result.Ok? ==> result.value == client.reservations[reservationId] && !result.value.status.Reserved?
  {
    if reservationId !in client.reservations {
      return Err(ReservationNotFound);
    }
    var _ := ReleaseReservation(client, reservationId, Released);
    result := Ok(client.reservations[reservationId]);
  }

  /** Claim and release the rows read, one transaction at a time, counting those released. */
  method ExpireRows(client: Database, rows: set<ReservationId>) returns (expiredCount: nat)
    requires client.Valid()
    requires forall r :: r in rows ==> r in client.reservations && client.reservations[r].status.Reserved?
    modifies client`stock, client`reservations
    ensures client.Valid()
    ensures client.State() == ReleaseSet(old(client.State()), rows, Expired)
    ensures expiredCount == |rows|
  {
    ghost var before := client.State();
    var todo := rows;
    expiredCount := 0;
    ghost var done: seq<ReservationId> := [];
    while todo != {}
      invariant todo <= rows && client.Valid()
      invariant Lists(done, rows - todo)
      invariant client.State() == ReleaseInOrder(before, done, Expired)
      invariant forall r :: r in todo ==> r in client.reservations && client.reservations[r].status.Reserved?
      invariant expiredCount == |rows| - |todo|
    {
      var r :| r in todo;
      assert (done + [r])[..|done|] == done;
      assert rows - (todo - {r}) - {r} == rows - todo;
      done := done + [r];
      var released := ReleaseReservation(client, r, Expired);
      if released > 0 {
        expiredCount := expiredCount + 1;
      }
      todo := todo - {r};
    }
    assert rows - todo == rows;
    InOrderIsAtOnce(before, done, rows, Expired);
  }

  /** The TTL sweep: read the stale rows, then end them. */
  method ExpireStaleReservations(client: Database, now: Instant) returns (expiredCount: nat)
    requires client.Valid()
    modifies client`stock, client`reservations
    ensures client.Valid()
    ensures client.State() == ReleaseSet(old(client.State()), Stale(old(client.State()), now), Expired)
    ensures expiredCount == |Stale(old(client.State()), now)|
    ensures client.reservations.Keys == old(client.reservations).Keys
    ensures forall r :: r in old(client.reservations) ==>
      var row := old(client.reservations)[r];
      client.reservations[r] ==
        if row.status == Reserved && row.expiresAt <= now &&
           (row.orderId.None? || (row.orderId.value in old(client.orders) &&
             old(client.orders)[row.orderId.value].status !in {Processing, ReadyForPickup}))
        then row.(status := Expired) else row
  {
    var stale := Stale(Db(client.stock, client.reservations, client.orders), now);
    expiredCount := ExpireRows(client, stale);
  }
}
