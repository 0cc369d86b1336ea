/**
 * The interleaved protocol and the one-call-at-a-time code describe the same operations: a
 * transaction's claim followed by its credits, in whatever order they come, is the release that
 * `releaseOrderReservations` performs, and a whole cancellation is the serial one.
 */
module ProtocolAlone {
  import opened Common
  import opened Sums
  import opened Stock
  import opened OrderState
  import opened OrderService
  import opened StockProtocol
  import opened StockConservation

  /** The credits of a claim, one statement each. */
  function Credits(db: Db, tx: Tx, picks: seq<string>): Option<Tx> {
    if picks == [] then Some(tx) else
      var before := Credits(db, tx, picks[..|picks| - 1]);
      if before.None? || before.value.owed == map[] then None else
        DoCredit(View(db, before.value.w), before.value, picks[|picks| - 1])
  }

  /** What has been credited so far. */
  function Paid(owed: map<InventoryId, int>, left: map<InventoryId, int>): map<InventoryId, int> {
    map i | i in owed && i !in left :: owed[i]
  }

  /** `t` is `tx` with some of what it owed credited: those counters lowered once, nothing else changed. */
  ghost predicate PaidPart(db: Db, tx: Tx, t: Tx) {
    t == tx.(w := t.w, owed := t.owed) && t.w.reservations == tx.w.reservations && t.w.orders == tx.w.orders &&
    t.owed.Keys <= tx.owed.Keys && (forall i :: i in t.owed ==> t.owed[i] == tx.owed[i]) &&
    View(db, t.w).stock == GivenBack(View(db, tx.w).stock, Paid(tx.owed, t.owed))
  }

  lemma {:induction false} CreditsSoFar(db: Db, tx: Tx, picks: seq<string>)
    requires Credits(db, tx, picks).Some?
    ensures PaidPart(db, tx, Credits(db, tx, picks).value)
    decreases |picks|
  {
    if picks == [] {
      NothingPaid(View(db, tx.w).stock, tx.owed);
    } else {
      hide PaidPart, DoCredit;
      var n := |picks| - 1;
      CreditsSoFar(db, tx, picks[..n]);
      OneMorePaid(db, tx, Credits(db, tx, picks[..n]).value, picks[n], Credits(db, tx, picks).value);
    }
  }

  lemma OneMorePaid(db: Db, tx: Tx, before: Tx, pick: string, t: Tx)
    requires PaidPart(db, tx, before) && before.owed != map[] && DoCredit(View(db, before.w), before, pick) == Some(t)
    ensures PaidPart(db, tx, t)
  {
    CreditStep(db, before, pick);
    hide View, DoCredit, GivenBack, Paid;
    CreditOneMore(View(db, tx.w).stock, tx.owed, before.owed, pick);
  }

  lemma NothingPaid(stock: map<InventoryId, StockRow>, owed: map<InventoryId, int>)
    ensures GivenBack(stock, Paid(owed, owed)) == stock
  {
    assert Paid(owed, owed) == map[];
  }

  /** One credit, as it is seen. */
  lemma CreditStep(db: Db, tx: Tx, pick: string)
    requires tx.owed != map[] && DoCredit(View(db, tx.w), tx, pick).Some?
    ensures var t, stock := DoCredit(View(db, tx.w), tx, pick).value, View(db, tx.w).stock;
      pick in tx.owed && pick in stock && t == tx.(w := t.w, owed := tx.owed - {pick}) &&
      t.w.reservations == tx.w.reservations && t.w.orders == tx.w.orders &&
      View(db, t.w).stock == stock[pick := AddReserved(stock[pick], -tx.owed[pick])]
  {
  }

  lemma CreditOneMore(stock: map<InventoryId, StockRow>, owed: map<InventoryId, int>, left: map<InventoryId, int>, i: InventoryId)
    requires i in left && i in owed && left[i] == owed[i] && i in GivenBack(stock, Paid(owed, left))
    ensures i in stock
    ensures GivenBack(stock, Paid(owed, left - {i}))
         == GivenBack(stock, Paid(owed, left))[i := AddReserved(GivenBack(stock, Paid(owed, left))[i], -owed[i])]
  {
  }

  /** What is owed by inventory row, over just the rows claimed from or over all rows, gives back the same. */
  lemma SameGivenBack(stock: map<InventoryId, StockRow>, rs: Reservations, claimed: set<ReservationId>)
    ensures GivenBack(stock, OwedFor(rs, claimed, RowsOf(rs, claimed))) == GivenBack(stock, OwedFor(rs, claimed, stock.Keys))
  {
    hide ClaimedOf, RowsOf;
    forall i | i in stock
      ensures GivenBack(stock, OwedFor(rs, claimed, RowsOf(rs, claimed)))[i] == GivenBack(stock, OwedFor(rs, claimed, stock.Keys))[i]
    {
      if i !in RowsOf(rs, claimed) {
        ClaimedElsewhere(rs, claimed, i);
      }
    }
  }

  /** A claim on an order and all its credits, in any order, are the release in place. */
  lemma ClaimAndCreditsRelease(db: Db, tx: Tx, o: OrderId, next: ReservationStatus, claimed: Tx, picks: seq<string>, paid: Tx)
    requires DoClaimOrder(View(db, tx.w), tx, o, next) == Some(claimed)
    requires Credits(db, claimed, picks) == Some(paid) && paid.owed == map[]
    ensures View(db, paid.w) == ReleaseOrder(View(db, tx.w), o, next)
  {
    hide DoClaimOrder, Credits, GivenBack, OwedFor, Flip, Outstanding, View;
    ClaimStep(db, tx, o, next, claimed);
    CreditsSoFar(db, claimed, picks);
    var v := View(db, tx.w);
    var rows := Outstanding(v.reservations, o);
    assert Paid(claimed.owed, map[]) == claimed.owed;
    SameGivenBack(v.stock, v.reservations, rows);
    SameRest(db, claimed.w, paid.w);
  }

  lemma SameRest(db: Db, w: Db, w': Db)
    requires w'.reservations == w.reservations && w'.orders == w.orders
    ensures View(db, w').reservations == View(db, w).reservations && View(db, w').orders == View(db, w).orders
  {
  }

  /** The claim, as it is seen: the rows flipped, and owed for what they hold. */
  lemma ClaimStep(db: Db, tx: Tx, o: OrderId, next: ReservationStatus, claimed: Tx)
    requires DoClaimOrder(View(db, tx.w), tx, o, next) == Some(claimed)
    ensures var v := View(db, tx.w);
      var rows := Outstanding(v.reservations, o);
      View(db, claimed.w) == v.(reservations := Flip(v.reservations, rows, next)) &&
      claimed.owed == OwedFor(v.reservations, rows, RowsOf(v.reservations, rows)) &&
      claimed.pc == tx.pc + 1 && claimed.op == tx.op
  {
    var v := View(db, tx.w);
    ClaimedView(db, tx.w, Outstanding(v.reservations, o), next);
    hide View, OwedFor, RowsOf, Flip, Claimed;
  }

  const NO_PICK := ""

  /** A cancellation that has begun, checked the status and claimed. */
  ghost predicate CancelClaimed(db: Db, o: OrderId, claimed: Tx) {
    var checked := Exec(db, Tx(StockProtocol.Op.CancelOrder(o), 0, NOTHING, map[], None, []), NO_PICK);
    checked.Some? && Exec(db, checked.value, NO_PICK) == Some(claimed)
  }

  lemma CancelStarts(db: Db, o: OrderId, claimed: Tx)
    requires CancelClaimed(db, o, claimed)
    ensures var ready := Tx(StockProtocol.Op.CancelOrder(o), 1, NOTHING, map[], None, []);
      DoClaimOrder(View(db, ready.w), ready, o, Released) == Some(claimed)
    ensures o in db.orders && TransitionAllowed(db.orders[o].status, Cancelled) && View(db, NOTHING) == db
  {
    hide DoClaimOrder;
    assert View(db, NOTHING) == db;
  }

  lemma CancelEnds(db: Db, o: OrderId, paid: Tx, done: Tx)
    requires paid.op == StockProtocol.Op.CancelOrder(o) && o in View(db, paid.w).orders
    requires Exec(db, paid.(pc := 3), NO_PICK) == Some(done)
    ensures View(db, done.w) == WithStatus(View(db, paid.w), o, Cancelled)
  {
    assert DoSetStatus(View(db, paid.w), paid.(pc := 3), o, Cancelled) == Some(done);
    StatusStep(db, paid.w, o, done.w, Cancelled);
  }

  /** A cancellation's statements, run with no one else's in between, leave what the serial code leaves. */
  lemma CancelAlone(db: Db, o: OrderId, claimed: Tx, picks: seq<string>, paid: Tx, done: Tx)
    requires CancelClaimed(db, o, claimed)
    requires Credits(db, claimed, picks) == Some(paid) && paid.owed == map[]
    requires Exec(db, paid.(pc := 3), NO_PICK) == Some(done)
    ensures o in db.orders && TransitionAllowed(db.orders[o].status, Cancelled)
    ensures View(db, done.w) == CancelledOrder(db, o, Released)
  {
    hide Exec, CancelClaimed, Credits, View, DoClaimOrder;
    var ready := Tx(StockProtocol.Op.CancelOrder(o), 1, NOTHING, map[], None, []);
    CancelStarts(db, o, claimed);
    ClaimAndCreditsRelease(db, ready, o, Released, claimed, picks, paid);
    ClaimStep(db, ready, o, Released, claimed);
    CreditsSoFar(db, claimed, picks);
    CancelEnds(db, o, paid, done);
  }

  lemma StatusStep(db: Db, w: Db, o: OrderId, w': Db, to: OrderStatus)
    requires o in View(db, w).orders && w' == WriteOrder(w, o, View(db, w).orders[o].(status := to))
    ensures View(db, w') == WithStatus(View(db, w), o, to)
  {
    assert db.orders + w'.orders == View(db, w).orders[o := w'.orders[o]];
  }
}
