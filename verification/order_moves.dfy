/** Order statuses across interleaved transactions: which committed moves the matrix allows, and how one escapes it. */
module OrderMoves {
  import opened Common
  import opened Stock
  import opened OrderState
  import opened StockProtocol
  import opened StockConservation
  import opened OrderLifecycle

  // ---- moves and their guards -----------------------------------------------------------

  /** The status an operation gives an order that is already placed, unless it is refused. */
  function TargetOf(op: Op): Option<OrderStatus> {
    match op
    case GatewayFailure(_) => Some(Failed)
    case PaymentSucceeded(_) => Some(Processing)
    case PaymentFailed(_) => Some(Failed)
    case Advance(_, to) => Some(to)
    case CancelOrder(_) => Some(Cancelled)
    case CompleteOrder(_, _) => Some(Completed)
    case ExpireOrder(_) => Some(Cancelled)
    case _ => None
  }

  /** The statuses from which the matrix lets an order become `to`. */
  function Sources(to: OrderStatus): set<OrderStatus> {
    match to
    case Pending => {Pending}
    case Processing => {Pending, Processing}
    case ReadyForPickup => {Processing, ReadyForPickup}
    case Completed => {ReadyForPickup, Completed}
    case Cancelled => {Pending, Processing, ReadyForPickup, Cancelled}
    case Failed => {Pending, Failed}
  }

  lemma SourcesAreAllowed(from: OrderStatus, to: OrderStatus)
    ensures from in Sources(to) <==> TransitionAllowed(from, to)
  {
  }

  /** Where an operation reads the status that decides whether it moves the order. */
  function GuardPc(op: Op): Option<nat> {
    match op
    case PaymentFailed(_) => Some(2)
    case PaymentSucceeded(_) => Some(0)
    case Advance(_, _) => Some(0)
    case CancelOrder(_) => Some(0)
    case CompleteOrder(_, _) => Some(0)
    case ExpireOrder(_) => Some(0)
    case _ => None
  }

  /** The guard and the write are one statement, which keeps the order's row locked. */
  predicate Conditional(op: Op) {
    op.PaymentSucceeded? || op.ExpireOrder?
  }

  /** The statuses that pass an operation's guard. */
  predicate Permits(op: Op, s: OrderStatus) {
    match op
    case PaymentFailed(_) => s.Pending?
    case PaymentSucceeded(_) => s.Pending?
    case ExpireOrder(_) => s.Pending?
    case _ => TargetOf(op).Some? && TransitionAllowed(s, TargetOf(op).value)
  }

  lemma PermittedIsAllowed(op: Op, s: OrderStatus)
    requires GuardPc(op).Some? && Permits(op, s)
    ensures TransitionAllowed(s, TargetOf(op).value)
  {
  }

  // ---- one transaction ------------------------------------------------------------------

  /** A guarded operation writes its own order alone, to its target, and only past its guard. */
  ghost predicate WritesTarget(tx: Tx) {
    GuardPc(tx.op).Some? ==>
      (tx.pc <= GuardPc(tx.op).value ==> tx.w.orders == map[]) &&
      (forall o :: o in tx.w.orders ==> Some(o) == OrderOf(tx.op) && Some(tx.w.orders[o].status) == TargetOf(tx.op))
  }

  /** It is past its guard and has not returned early, or has written already. */
  ghost predicate PastGuard(tx: Tx) {
    GuardPc(tx.op).Some? && (GuardPc(tx.op).value < tx.pc < EndOf(tx.op) || tx.w.orders != map[])
  }

  lemma GuardPositions(op: Op, pc: nat)
    requires GuardPc(op).Some?
    ensures var stmt := StmtAt(op, pc);
      (stmt.CheckTransition? || stmt.ProceedIf? || stmt.SetStatusWhere? <==> pc == GuardPc(op).value) &&
      (stmt.SetStatus? ==> GuardPc(op).value < pc < EndOf(op) && Some(stmt.to) == TargetOf(op)) &&
      (stmt.SetStatusWhere? ==> Some(stmt.to) == TargetOf(op)) &&
      (stmt.SetStatus? || stmt.SetStatusWhere? || stmt.CheckTransition? || stmt.ProceedIf? ==> Some(stmt.orderId) == OrderOf(op)) &&
      !stmt.InsertOrder? && !stmt.ClaimHold? && OrderOf(op).Some? && EndOf(op) > GuardPc(op).value
  {
  }

  /** A statement keeps `WritesTarget`, and takes the transaction past its guard only by reading a status that permits it. */
  lemma StatementMoves(db: Db, tx: Tx, pick: string)
    requires WritesTarget(tx) && Shaped(tx) && GuardPc(tx.op).Some? && Exec(db, tx, pick).Some?
    ensures var after := Exec(db, tx, pick).value;
      after.op == tx.op && WritesTarget(after) &&
      (PastGuard(after) && !PastGuard(tx) ==>
        tx.w.orders == map[] && OrderOf(tx.op).value in db.orders && Permits(tx.op, db.orders[OrderOf(tx.op).value].status))
  {
    var stmt, after := StmtAt(tx.op, tx.pc), Exec(db, tx, pick).value;
    GuardPositions(tx.op, tx.pc);
    if !stmt.SetStatus? && !stmt.SetStatusWhere? {
      OtherOrdersUntouched(db, tx, stmt, pick);
    }
    StmtLeaves(db, tx, stmt, pick);
    hide RowsOf, Outstanding, OwedFor, Claimed;
    match stmt
    case CheckTransition(_, _) =>
    case ProceedIf(_, _) =>
    case SetStatusWhere(_, _, _) =>
    case SetStatus(_, _) =>
    case _ =>
  }

  /** The order an operation works on has a committed status that permits its move. */
  ghost predicate Reads(db: Db, op: Op) {
    GuardPc(op).Some? && OrderOf(op).Some? && OrderOf(op).value in db.orders && Permits(op, db.orders[OrderOf(op).value].status)
  }

  // ---- runs -----------------------------------------------------------------------------

  /** The transaction `t` of position `k` read at `c` a committed status that permits its move. */
  ghost predicate Checked(run: seq<World>, es: seq<Event>, c: nat, k: nat, t: TxId) {
    IsRun(run, es) && c < k < |run| && t in run[c].txs && t in run[k].txs && run[c].txs[t].op == run[k].txs[t].op &&
    es[c].Run? && es[c].t == t && (forall j :: c < j < k ==> es[j].Run? || es[j].t != t) &&
    Reads(run[c].db, run[k].txs[t].op)
  }

  lemma Targeted(s: World, s': World, e: Event)
    requires Sound(s) && Next(s, s', e) && forall t :: t in s.txs ==> WritesTarget(s.txs[t])
    ensures forall t :: t in s'.txs ==> WritesTarget(s'.txs[t])
  {
    forall t | t in s'.txs
      ensures WritesTarget(s'.txs[t])
    {
      if e.Run? && e.t == t && GuardPc(s.txs[t].op).Some? {
        StatementMoves(s.db, s.txs[t], e.pick);
      } else if e.Run? && e.t == t {
        OpStays(s.db, s.txs[t], e.pick);
      }
    }
  }

  lemma OpStays(db: Db, tx: Tx, pick: string)
    requires Shaped(tx) && Exec(db, tx, pick).Some?
    ensures Exec(db, tx, pick).value.op == tx.op
  {
    StmtLeaves(db, tx, StmtAt(tx.op, tx.pc), pick);
  }

  lemma {:induction false} RunsTarget(run: seq<World>, es: seq<Event>, k: nat)
    requires IsRun(run, es) && k < |run|
    ensures forall t :: t in run[k].txs ==> WritesTarget(run[k].txs[t])
    decreases k
  {
    if k > 0 {
      RunsTarget(run, es, k - 1);
      RunsSound(run, es, k - 1);
      Targeted(run[k - 1], run[k], es[k - 1]);
    }
  }

  /** A transaction comes past its guard only by a statement that reads a status permitting its move. */
  lemma ComesPastGuard(s: World, s': World, e: Event, t: TxId)
    requires Sound(s) && Next(s, s', e) && (forall u :: u in s.txs ==> WritesTarget(s.txs[u]))
    requires t in s'.txs && PastGuard(s'.txs[t])
    ensures t in s.txs && s.txs[t].op == s'.txs[t].op && (e.Run? || e.t != t)
    ensures !PastGuard(s.txs[t]) ==> e.Run? && e.t == t && Reads(s.db, s.txs[t].op)
  {
    if t in s.txs && e.Run? && e.t == t {
      OpStays(s.db, s.txs[t], e.pick);
      StatementMoves(s.db, s.txs[t], e.pick);
      GuardPositions(s.txs[t].op, s.txs[t].pc);
    }
  }

  /** A transaction past its guard read, at some point, a status that permits its move. */
  lemma {:induction false} GuardWasRead(run: seq<World>, es: seq<Event>, k: nat, t: TxId)
    requires IsRun(run, es) && k < |run| && t in run[k].txs && PastGuard(run[k].txs[t])
    ensures exists c: nat :: Checked(run, es, c, k, t)
    decreases k
  {
    if k > 0 {
      assert Next(run[k - 1], run[k], es[k - 1]);
      hide Next, Sound, PastGuard, WritesTarget, Reads;
      RunsTarget(run, es, k - 1);
      RunsSound(run, es, k - 1);
      ComesPastGuard(run[k - 1], run[k], es[k - 1], t);
      if PastGuard(run[k - 1].txs[t]) {
        GuardWasRead(run, es, k - 1, t);
        var c: nat :| Checked(run, es, c, k - 1, t);
        assert Checked(run, es, c, k, t);
      } else {
        assert Checked(run, es, k - 1, k, t);
      }
    }
  }

  /** Where a committed status that differs from an earlier one came from: the last commit that changed it. */
  lemma {:induction false} ChangedBy(run: seq<World>, es: seq<Event>, c: nat, k: nat, o: OrderId)
    requires IsRun(run, es) && c <= k < |run| && o in run[c].db.orders
    ensures o in run[k].db.orders
    ensures run[c].db.orders[o].status != run[k].db.orders[o].status ==>
      exists j: nat :: c <= j < k && es[j].Commit? && Changes(run[j], run[j + 1], o, run[k].db.orders[o].status)
    decreases k
  {
    if c < k {
      ChangedBy(run, es, c, k - 1, o);
      assert Next(run[k - 1], run[k], es[k - 1]);
      if run[k - 1].db.orders[o].status != run[k].db.orders[o].status {
        assert Changes(run[k - 1], run[k], o, run[k].db.orders[o].status);
      } else if run[c].db.orders[o].status != run[k].db.orders[o].status {
        var j: nat :| c <= j < k - 1 && es[j].Commit? && Changes(run[j], run[j + 1], o, run[k].db.orders[o].status);
        assert Changes(run[j], run[j + 1], o, run[k].db.orders[o].status);
      }
    }
  }

  ghost predicate Changes(s: World, s': World, o: OrderId, to: OrderStatus) {
    o in s.db.orders && o in s'.db.orders && s'.db.orders[o].status == to != s.db.orders[o].status
  }

  /** The commit at `k` moves an order that is already placed. */
  ghost predicate Moves(run: seq<World>, es: seq<Event>, k: nat, o: OrderId) {
    IsRun(run, es) && k < |es| && es[k].Commit? && es[k].t in run[k].txs &&
    o in run[k].txs[es[k].t].w.orders && o in run[k].db.orders
  }

  /** At `j` another transaction commits the status that the commit at `k` writes over. */
  ghost predicate Overtakes(run: seq<World>, es: seq<Event>, j: nat, k: nat, o: OrderId) {
    j < k < |es| && |run| == |es| + 1 && es[j].Commit? && es[k].Commit? && es[j].t != es[k].t &&
    o in run[k].db.orders && Changes(run[j], run[j + 1], o, run[k].db.orders[o].status)
  }

  /** After the check at `c`, another commit at `j` leaves a status that the move may not write over. */
  ghost predicate OutrunAt(run: seq<World>, es: seq<Event>, c: nat, j: nat, k: nat, o: OrderId, to: OrderStatus) {
    c < j < k < |es| && Checked(run, es, c, k, es[k].t) && Overtakes(run, es, j, k, o) &&
    run[j + 1].db.orders[o].status !in Sources(to)
  }

  /** A guarded move is overtaken out of the matrix. */
  ghost predicate Outrun(run: seq<World>, es: seq<Event>, k: nat, o: OrderId, to: OrderStatus) {
    exists c: nat, j: nat :: OutrunAt(run, es, c, j, k, o, to)
  }

  lemma GuardedMoves(run: seq<World>, es: seq<Event>, k: nat, o: OrderId)
    requires Moves(run, es, k, o) && GuardPc(run[k].txs[es[k].t].op).Some?
    ensures Some(run[k + 1].db.orders[o].status) == TargetOf(run[k].txs[es[k].t].op)
    ensures !TransitionAllowed(run[k].db.orders[o].status, run[k + 1].db.orders[o].status)
      <==> Outrun(run, es, k, o, run[k + 1].db.orders[o].status)
  {
    var t, tx := es[k].t, run[k].txs[es[k].t];
    RunsTarget(run, es, k);
    assert Next(run[k], run[k + 1], es[k]);
    var from, to := run[k].db.orders[o].status, run[k + 1].db.orders[o].status;
    SourcesAreAllowed(from, to);
    if !TransitionAllowed(from, to) {
      hide Sources;
      GuardWasRead(run, es, k, t);
      var c: nat :| Checked(run, es, c, k, t);
      PermittedIsAllowed(tx.op, run[c].db.orders[o].status);
      ChangedBy(run, es, c, k, o);
      var j: nat :| c <= j < k && es[j].Commit? && Changes(run[j], run[j + 1], o, from);
      assert j != c && OutrunAt(run, es, c, j, k, o, to);
    }
  }

  // ---- the unguarded write ----------------------------------------------------------------

  /** A gateway failure writes FAILED; what moves no placed order writes only orders nobody has committed. */
  ghost predicate WritesOther(db: Db, tx: Tx) {
    (tx.op.GatewayFailure? ==> forall o :: o in tx.w.orders ==> tx.w.orders[o].status.Failed?) &&
    (TargetOf(tx.op).None? ==> forall o :: o in tx.w.orders ==> o !in db.orders)
  }

  lemma UnguardedPositions(op: Op, pc: nat)
    requires GuardPc(op).None?
    ensures var stmt := StmtAt(op, pc);
      !stmt.SetStatusWhere? && (stmt.SetStatus? ==> op.GatewayFailure? && stmt.to.Failed?) &&
      (stmt.InsertOrder? ==> TargetOf(op).None?)
  {
  }

  lemma OtherStatement(db: Db, tx: Tx, pick: string)
    requires WritesOther(db, tx) && Shaped(tx) && Exec(db, tx, pick).Some?
    ensures WritesOther(db, Exec(db, tx, pick).value)
  {
    var stmt := StmtAt(tx.op, tx.pc);
    OpStays(db, tx, pick);
    if GuardPc(tx.op).None? {
      UnguardedPositions(tx.op, tx.pc);
      if !stmt.SetStatus? && !stmt.InsertOrder? {
        OtherOrdersUntouched(db, tx, stmt, pick);
        hide ExecStmt;
      }
    }
  }

  lemma {:induction false} RunsWriteOther(run: seq<World>, es: seq<Event>, k: nat)
    requires IsRun(run, es) && k < |run|
    ensures forall t :: t in run[k].txs ==> WritesOther(run[k].db, run[k].txs[t])
    decreases k
  {
    if k > 0 {
      RunsWriteOther(run, es, k - 1);
      RunsSound(run, es, k - 1);
      var s, s', e := run[k - 1], run[k], es[k - 1];
      assert Next(s, s', e);
      forall t | t in s'.txs
        ensures WritesOther(s'.db, s'.txs[t])
      {
        if e.Run? && e.t == t {
          OtherStatement(s.db, s.txs[t], e.pick);
        }
      }
    }
  }

  // ---- exactly when the matrix is left ------------------------------------------------------

  /**
   * In every run, a commit moves a placed order outside the matrix exactly when it is a gateway
   * failure that finds the order neither PENDING nor FAILED, or a guarded move that was overtaken:
   * after its check another transaction committed a status that the matrix does not let it write over.
   */
  lemma IllegalMovesExactly(run: seq<World>, es: seq<Event>, k: nat, o: OrderId)
    requires Moves(run, es, k, o)
    ensures Some(run[k + 1].db.orders[o].status) == TargetOf(run[k].txs[es[k].t].op)
    ensures !TransitionAllowed(run[k].db.orders[o].status, run[k + 1].db.orders[o].status) <==>
      if run[k].txs[es[k].t].op.GatewayFailure? then run[k].db.orders[o].status !in {Pending, Failed}
      else Outrun(run, es, k, o, run[k + 1].db.orders[o].status)
  {
    var tx := run[k].txs[es[k].t];
    assert Next(run[k], run[k + 1], es[k]);
    RunsWriteOther(run, es, k);
    assert WritesOther(run[k].db, tx);
    if GuardPc(tx.op).Some? {
      GuardedMoves(run, es, k, o);
    } else {
      SourcesAreAllowed(run[k].db.orders[o].status, Failed);
    }
  }

  // ---- conditional updates --------------------------------------------------------------

  /** A conditional update's order is locked with the status it found. */
  ghost predicate HoldsPending(db: Db, tx: Tx) {
    Conditional(tx.op) ==> forall o :: o in tx.w.orders ==> o in db.orders && db.orders[o].status.Pending?
  }

  lemma ConditionalStatement(db: Db, tx: Tx, pick: string)
    requires WritesTarget(tx) && Shaped(tx) && HoldsPending(db, tx) && Exec(db, tx, pick).Some?
    ensures HoldsPending(db, Exec(db, tx, pick).value)
  {
    var stmt := StmtAt(tx.op, tx.pc);
    OpStays(db, tx, pick);
    if Conditional(tx.op) {
      GuardPositions(tx.op, tx.pc);
      hide Shaped;
      if stmt.SetStatusWhere? {
        ConditionalUpdate(db, tx, stmt.orderId, stmt.from, stmt.to);
        assert stmt.from.Pending?;
      } else {
        assert !stmt.SetStatus?;
        OtherOrdersUntouched(db, tx, stmt, pick);
        hide ExecStmt;
      }
    }
  }

  lemma ConditionalUpdate(db: Db, tx: Tx, o: OrderId, from: OrderStatus, to: OrderStatus)
    requires tx.w.orders == map[] && from.Pending? && DoSetStatusWhere(View(db, tx.w), tx, o, from, to).Some?
    ensures HoldsPending(db, DoSetStatusWhere(View(db, tx.w), tx, o, from, to).value)
  {
  }

  lemma {:induction false} RunsHoldPending(run: seq<World>, es: seq<Event>, k: nat)
    requires IsRun(run, es) && k < |run|
    ensures forall t :: t in run[k].txs ==> HoldsPending(run[k].db, run[k].txs[t])
    decreases k
  {
    if k > 0 {
      RunsHoldPending(run, es, k - 1);
      RunsTarget(run, es, k - 1);
      RunsSound(run, es, k - 1);
      var s, s', e := run[k - 1], run[k], es[k - 1];
      assert Next(s, s', e);
      forall t | t in s'.txs
        ensures HoldsPending(s'.db, s'.txs[t])
      {
        if e.Run? && e.t == t {
          ConditionalStatement(s.db, s.txs[t], e.pick);
        }
      }
    }
  }

  /** Whatever races, a payment that succeeds and a stale-order sweep only ever move a PENDING order. */
  lemma ConditionalMovesAreLegal(run: seq<World>, es: seq<Event>, k: nat, o: OrderId)
    requires Moves(run, es, k, o) && Conditional(run[k].txs[es[k].t].op)
    ensures run[k].db.orders[o].status.Pending?
    ensures Some(run[k + 1].db.orders[o].status) == TargetOf(run[k].txs[es[k].t].op)
  {
    RunsHoldPending(run, es, k);
    RunsTarget(run, es, k);
    assert Next(run[k], run[k + 1], es[k]);
    assert HoldsPending(run[k].db, run[k].txs[es[k].t]);
  }
}
