/** What commits do to reservation rows and orders: holds end once, closed orders hold nothing. */
module OrderLifecycle {
  import opened Common
  import opened Stock
  import opened OrderState
  import opened StockProtocol
  import opened StockConservation

  // ---- how rows change ----------------------------------------------------------------

  /** A row keeps what it holds; once ended it keeps its status; while RESERVED, its order. */
  ghost predicate Evolves(a: Reservation, b: Reservation) {
    b.inventoryId == a.inventoryId && b.quantity == a.quantity &&
    (b.status.Reserved? ==> a.status.Reserved? && b.orderId == a.orderId) &&
    (!a.status.Reserved? ==> b.status == a.status)
  }

  ghost predicate RowsEvolve(db: Db, tx: Tx) {
    forall r :: r in tx.w.reservations && r in db.reservations ==>
      Evolves(db.reservations[r], tx.w.reservations[r])
  }

  /** An order's lines and holds never change. */
  ghost predicate OrdersKeep(db: Db, tx: Tx) {
    forall o :: o in tx.w.orders && o in db.orders ==>
      tx.w.orders[o].items == db.orders[o].items && tx.w.orders[o].holds == db.orders[o].holds
  }

  /** The rows a transaction inserted are its own, and it writes no other unknown row. */
  ghost predicate MadeFresh(db: Db, tx: Tx) {
    Distinct(tx.made) &&
    (forall r :: r in tx.made ==> r in tx.w.reservations && r !in db.reservations) &&
    (forall r :: r in tx.w.reservations ==> r in db.reservations || r in tx.made)
  }

  /** A hold is attached to another order only after this transaction consumed it. */
  ghost predicate ConsumedFirst(tx: Tx) {
    tx.op.ConsumeHold? && 1 <= tx.pc <= 2 ==>
      tx.op.reservationId in tx.w.reservations && !tx.w.reservations[tx.op.reservationId].status.Reserved?
  }

  ghost predicate RowsSound(db: Db, tx: Tx) {
    RowsEvolve(db, tx) && OrdersKeep(db, tx) && MadeFresh(db, tx) && ConsumedFirst(tx)
  }

  // ---- one statement keeps the rows sound ---------------------------------------------

  lemma WriteHoldSound(db: Db, tx: Tx, r: ReservationId, row: Reservation)
    requires RowsEvolve(db, tx) && MadeFresh(db, tx)
    requires r in View(db, tx.w).reservations && Evolves(View(db, tx.w).reservations[r], row)
    ensures RowsEvolve(db, tx.(w := WriteHold(tx.w, r, row)))
    ensures MadeFresh(db, tx.(w := WriteHold(tx.w, r, row)))
  {
  }

  lemma ClaimOrderSound(db: Db, tx: Tx, o: OrderId, next: ReservationStatus)
    requires RowsEvolve(db, tx) && MadeFresh(db, tx) && !next.Reserved?
    ensures var after := DoClaimOrder(View(db, tx.w), tx, o, next).value;
      RowsEvolve(db, after) && MadeFresh(db, after)
  {
  }

  lemma InsertHoldSound(db: Db, tx: Tx, line: Line, forOrder: Option<OrderId>, pick: string)
    requires RowsEvolve(db, tx) && MadeFresh(db, tx)
    ensures var after := DoInsertHold(View(db, tx.w), tx, line, forOrder, pick);
      after.Some? ==> RowsEvolve(db, after.value) && MadeFresh(db, after.value)
  {
    var after := DoInsertHold(View(db, tx.w), tx, line, forOrder, pick);
    if after.Some? {
      assert pick !in tx.made;
    }
  }

  lemma InsertOrderSound(db: Db, tx: Tx, o: OrderId, lines: seq<Line>)
    requires RowsEvolve(db, tx) && MadeFresh(db, tx) && OrdersKeep(db, tx)
    ensures var after := DoInsertOrder(View(db, tx.w), tx, o, lines);
      after.Some? ==> RowsEvolve(db, after.value) && MadeFresh(db, after.value) && OrdersKeep(db, after.value)
  {
  }

  lemma SetStatusSound(db: Db, tx: Tx, o: OrderId, to: OrderStatus)
    requires OrdersKeep(db, tx)
    ensures var after := DoSetStatus(View(db, tx.w), tx, o, to);
      after.Some? ==> OrdersKeep(db, after.value)
  {
  }

  /** The statements that write no reservation row leave those parts of the transaction alone. */
  lemma OtherRowsUntouched(db: Db, tx: Tx, stmt: Stmt, pick: string)
    requires !stmt.ClaimOrder? && !stmt.InsertOrder? && !stmt.InsertHold? && !stmt.ClaimHold? && !stmt.AttachOrder?
    ensures var after := ExecStmt(db, tx, stmt, pick);
      after.Some? ==> after.value.w.reservations == tx.w.reservations && after.value.made == tx.made
  {
    match stmt
    case TryReserve(_) =>
    case CreditClaimed =>
    case SellClaimed =>
    case SetStatusWhere(_, _, _) =>
    case _ =>
  }

  lemma OtherOrdersUntouched(db: Db, tx: Tx, stmt: Stmt, pick: string)
    requires !stmt.InsertOrder? && !stmt.SetStatus? && !stmt.SetStatusWhere?
    ensures var after := ExecStmt(db, tx, stmt, pick); after.Some? ==> after.value.w.orders == tx.w.orders
  {
    match stmt
    case TryReserve(_) =>
    case CreditClaimed =>
    case SellClaimed =>
    case ClaimOrder(_, _) =>
    case ClaimHold(_, _, _) =>
    case InsertHold(_, _) =>
    case _ =>
  }

  lemma ExecRowsEvolve(db: Db, tx: Tx, pick: string)
    requires RowsSound(db, tx) && Shaped(tx)
    ensures var after := Exec(db, tx, pick); after.Some? ==> RowsEvolve(db, after.value) && MadeFresh(db, after.value)
  {
    var v, stmt := View(db, tx.w), StmtAt(tx.op, tx.pc);
    match stmt
    case ClaimOrder(o, next) => ClaimOrderSound(db, tx, o, next);
    case InsertOrder(o, lines) => InsertOrderSound(db, tx, o, lines);
    case InsertHold(line, forOrder) => InsertHoldSound(db, tx, line, forOrder, pick);
    case ClaimHold(r, next, _) =>
      if r in v.reservations && v.reservations[r].status.Reserved? {
        WriteHoldSound(db, tx, r, v.reservations[r].(status := next));
      }
    case AttachOrder(r, o) =>
      AttachPosition(tx.op, tx.pc);
      WriteHoldSound(db, tx, r, v.reservations[r].(orderId := Some(o)));
    case _ => OtherRowsUntouched(db, tx, stmt, pick);
  }

  lemma AttachPosition(op: Op, pc: nat)
    ensures StmtAt(op, pc).AttachOrder? ==>
      op.ConsumeHold? && pc == 2 && StmtAt(op, pc).reservationId == op.reservationId
    ensures op.ConsumeHold? && pc == 0 ==> StmtAt(op, pc) == ClaimHold(op.reservationId, Consumed, true)
    ensures op.ConsumeHold? && pc == 1 ==> StmtAt(op, pc).SellClaimed?
  {
  }

  lemma ExecConsumedFirst(db: Db, tx: Tx, pick: string)
    requires ConsumedFirst(tx) && Shaped(tx)
    ensures var after := Exec(db, tx, pick); after.Some? ==> ConsumedFirst(after.value)
  {
    var stmt := StmtAt(tx.op, tx.pc);
    StmtLeaves(db, tx, stmt, pick);
    if tx.op.ConsumeHold? {
      AttachPosition(tx.op, tx.pc);
      if tx.pc == 1 {
        OtherRowsUntouched(db, tx, stmt, pick);
      }
    }
  }

  lemma ExecOrdersKeep(db: Db, tx: Tx, pick: string)
    requires RowsSound(db, tx)
    ensures var after := Exec(db, tx, pick); after.Some? ==> OrdersKeep(db, after.value)
  {
    var stmt := StmtAt(tx.op, tx.pc);
    match stmt
    case InsertOrder(o, lines) => InsertOrderSound(db, tx, o, lines);
    case SetStatus(o, to) => SetStatusSound(db, tx, o, to);
    case SetStatusWhere(o, _, to) => SetStatusSound(db, tx, o, to);
    case _ => OtherOrdersUntouched(db, tx, stmt, pick);
  }

  /** A commit by another transaction, on rows this one has not locked, keeps its rows sound. */
  lemma CommitRowsSound(db: Db, w: Db, other: Tx)
    requires RowsSound(db, other) && DisjointWrites(w, other.w)
    ensures RowsSound(View(db, w), other)
  {
  }

  ghost predicate Sound(s: World) {
    Conserved(s) && forall t :: t in s.txs ==> RowsSound(s.db, s.txs[t])
  }

  lemma NextSound(s: World, s': World, e: Event)
    requires Sound(s) && Next(s, s', e)
    ensures Sound(s')
  {
    NextConserves(s, s', e);
    match e
    case Run(t, pick) =>
      ExecRowsEvolve(s.db, s.txs[t], pick);
      ExecConsumedFirst(s.db, s.txs[t], pick);
      ExecOrdersKeep(s.db, s.txs[t], pick);
    case Commit(t) =>
      forall u | u in s'.txs
        ensures RowsSound(s'.db, s'.txs[u])
      {
        CommitRowsSound(s.db, s.txs[t].w, s.txs[u]);
      }
    case _ =>
  }

  lemma {:induction false} RunsSound(run: seq<World>, es: seq<Event>, k: nat)
    requires IsRun(run, es) && k < |run|
    ensures Sound(run[k])
    decreases k
  {
    if k == 0 {
      InitConserved(run[0]);
    } else {
      RunsSound(run, es, k - 1);
      NextSound(run[k - 1], run[k], es[k - 1]);
    }
  }

  /** Committed rows only move forward: no row is lost, and a hold that ended stays ended. */
  lemma {:induction false} RowsOnlyEvolve(run: seq<World>, es: seq<Event>, j: nat, k: nat, r: ReservationId)
    requires IsRun(run, es) && j <= k < |run| && r in run[j].db.reservations
    ensures r in run[k].db.reservations
    ensures Evolves(run[j].db.reservations[r], run[k].db.reservations[r])
    decreases k
  {
    if j < k {
      RowsOnlyEvolve(run, es, j, k - 1, r);
      RunsSound(run, es, k - 1);
      assert Next(run[k - 1], run[k], es[k - 1]);
    }
  }

  /** The rows whose hold a transaction's commit ends, and so whose stock it gives back or sells. */
  ghost function EndedBy(s: World, t: TxId): set<ReservationId> {
    set r | t in s.txs && r in s.txs[t].w.reservations && r in s.db.reservations &&
            s.db.reservations[r].status.Reserved? && !s.txs[t].w.reservations[r].status.Reserved?
  }

  /** Whatever sweepers, cancels, completions and releases race, each hold is given back at most once. */
  lemma HoldEndsOnce(run: seq<World>, es: seq<Event>, j: nat, k: nat)
    requires IsRun(run, es) && j < k < |es| && es[j].Commit? && es[k].Commit?
    ensures EndedBy(run[j], es[j].t) !! EndedBy(run[k], es[k].t)
  {
    assert Next(run[j], run[j + 1], es[j]);
    assert Next(run[k], run[k + 1], es[k]);
    forall r | r in EndedBy(run[j], es[j].t)
      ensures r !in EndedBy(run[k], es[k].t)
    {
      assert !run[j + 1].db.reservations[r].status.Reserved?;
      RowsOnlyEvolve(run, es, j + 1, k, r);
    }
  }
}
