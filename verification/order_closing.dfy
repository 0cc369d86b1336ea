/** Checkout is all-or-nothing, and an order that reaches a terminal status holds no stock. */
module OrderClosing {
  import opened Common
  import opened Stock
  import opened OrderState
  import opened StockProtocol
  import opened StockConservation
  import opened OrderLifecycle

  // ---- what an order's holds look like ------------------------------------------------

  /** Row `r` is the hold of `line` for order `o`; while it is RESERVED it is linked to `o`. */
  ghost predicate IsHoldOf(rs: Reservations, r: ReservationId, line: Line, o: OrderId) {
    r in rs && rs[r].inventoryId == line.inventoryId && rs[r].quantity == line.quantity &&
    (rs[r].status.Reserved? ==> rs[r].orderId == Some(o))
  }

  /** Every line of the order has a hold row of its own. */
  ghost predicate LinesHeld(rs: Reservations, order: Order, o: OrderId) {
    Distinct(order.holds) && |order.holds| == |order.items| &&
    forall k :: 0 <= k < |order.items| ==> IsHoldOf(rs, order.holds[k], order.items[k], o)
  }

  /** None of the order's holds is still RESERVED. */
  ghost predicate Settled(rs: Reservations, order: Order) {
    forall r :: r in order.holds ==> r in rs && !rs[r].status.Reserved?
  }

  /** The committed orders: every line held by its own row, and closed orders holding nothing. */
  ghost predicate OrdersSound(db: Db) {
    forall o :: o in db.orders ==>
      LinesHeld(db.reservations, db.orders[o], o) &&
      (Terminal(db.orders[o].status) ==> Settled(db.reservations, db.orders[o]))
  }

  // ---- a checkout in flight -----------------------------------------------------------

  /** The first rows are inserted, RESERVED, one for each line so far. */
  ghost predicate CheckoutHeld(tx: Tx, lines: seq<Line>) {
    |tx.made| <= |lines| &&
    forall k :: 0 <= k < |tx.made| ==>
      tx.made[k] in tx.w.reservations &&
      tx.w.reservations[tx.made[k]].inventoryId == lines[k].inventoryId &&
      tx.w.reservations[tx.made[k]].quantity == lines[k].quantity &&
      tx.w.reservations[tx.made[k]].status.Reserved?
  }

  ghost predicate CheckoutPlaced(tx: Tx, o: OrderId, lines: seq<Line>) {
    tx.w.orders == map[o := Order(Pending, lines, tx.made)] && |tx.made| == |lines| &&
    forall r :: r in tx.made ==> r in tx.w.reservations && tx.w.reservations[r].orderId == Some(o)
  }

  /** Where a checkout stands: no order before the last statement, the whole order after it. */
  ghost predicate CheckoutSound(db: Db, tx: Tx) {
    tx.op.Checkout? ==>
      var n := |tx.op.lines|;
      tx.pc <= 2 * n + 1 && CheckoutHeld(tx, tx.op.lines) &&
      (tx.pc <= 2 * n ==> |tx.made| == tx.pc / 2 && tx.w.orders == map[]) &&
      (tx.pc == 2 * n + 1 ==> CheckoutPlaced(tx, tx.op.orderId, tx.op.lines) && tx.op.orderId !in db.orders)
  }

  lemma CheckoutSteps(db: Db, tx: Tx, pick: string)
    requires RowsSound(db, tx) && Shaped(tx) && CheckoutSound(db, tx)
    ensures var after := Exec(db, tx, pick); after.Some? ==> CheckoutSound(db, after.value)
  {
    var stmt := StmtAt(tx.op, tx.pc);
    OpKept(db, tx, stmt, pick);
    if tx.op.Checkout? {
      hide CheckoutSound, RowsSound, Shaped;
      match stmt
      case TryReserve(line) => CheckoutReserves(db, tx, line);
      case InsertHold(line, forOrder) => CheckoutInserts(db, tx, line, forOrder, pick);
      case InsertOrder(o, lines) => CheckoutPlaces(db, tx, o, lines);
      case _ =>
    } else {
      hide ExecStmt;
    }
  }

  lemma CheckoutReserves(db: Db, tx: Tx, line: Line)
    requires CheckoutSound(db, tx) && tx.op.Checkout? && StmtAt(tx.op, tx.pc) == TryReserve(line)
    ensures var after := DoTryReserve(View(db, tx.w), tx, line);
      after.Some? ==> CheckoutSound(db, after.value)
  {
  }

  lemma CheckoutInserts(db: Db, tx: Tx, line: Line, forOrder: Option<OrderId>, pick: string)
    requires RowsSound(db, tx) && CheckoutSound(db, tx) && tx.op.Checkout?
    requires StmtAt(tx.op, tx.pc) == InsertHold(line, forOrder)
    ensures var after := DoInsertHold(View(db, tx.w), tx, line, forOrder, pick);
      after.Some? ==> CheckoutSound(db, after.value)
  {
    var after := DoInsertHold(View(db, tx.w), tx, line, forOrder, pick);
    if after.Some? {
      assert pick !in tx.made;
      assert line == tx.op.lines[tx.pc / 2];
    }
  }

  lemma CheckoutPlaces(db: Db, tx: Tx, o: OrderId, lines: seq<Line>)
    requires RowsSound(db, tx) && CheckoutSound(db, tx) && tx.op.Checkout?
    requires StmtAt(tx.op, tx.pc) == InsertOrder(o, lines)
    ensures var after := DoInsertOrder(View(db, tx.w), tx, o, lines);
      after.Some? ==> CheckoutSound(db, after.value)
  {
    var after := DoInsertOrder(View(db, tx.w), tx, o, lines);
    if after.Some? {
      assert o == tx.op.orderId && lines == tx.op.lines;
      assert tx.w.orders[o := Order(Pending, lines, tx.made)] == map[o := Order(Pending, lines, tx.made)];
    }
  }

  // ---- closing an order ---------------------------------------------------------------

  /** Where an operation that may close its order claims the order's rows. */
  function ClaimPc(op: Op): Option<nat> {
    match op
    case GatewayFailure(_) => Some(1)
    case PaymentFailed(_) => Some(0)
    case CancelOrder(_) => Some(1)
    case CompleteOrder(_, items) => Some(|items| + 1)
    case ExpireOrder(_) => Some(1)
    case _ => None
  }

  /** The stale-order sweeper found the order no longer PENDING and did nothing. */
  ghost predicate ReturnedEarly(tx: Tx) {
    tx.op.ExpireOrder? && tx.pc == EndOf(tx.op) && tx.w == NOTHING
  }

  /** Past its claim, a closing transaction sees none of the order's holds RESERVED. */
  ghost predicate ClaimedAll(db: Db, tx: Tx) {
    ClaimPc(tx.op).Some? ==>
      var o := OrderOf(tx.op).value;
      o in db.orders &&
      (tx.op.ExpireOrder? && tx.pc == 0 ==> tx.w == NOTHING) &&
      (tx.pc > ClaimPc(tx.op).value ==>
        Settled(View(db, tx.w).reservations, db.orders[o]) || ReturnedEarly(tx))
  }

  /** A transaction writes only its own order, and closes it only if it claims its rows. */
  ghost predicate WritesOwnOrder(tx: Tx) {
    (tx.op.Advance? ==> !Terminal(tx.op.to)) &&
    forall o :: o in tx.w.orders ==>
      OrderOf(tx.op) == Some(o) &&
      (Terminal(tx.w.orders[o].status) ==> ClaimPc(tx.op).Some?)
  }

  /** Apart from a checkout, an operation acts on an order that is already committed. */
  ghost predicate KnowsItsOrder(db: Db, tx: Tx) {
    OrderOf(tx.op).Some? && !tx.op.Checkout? ==> OrderOf(tx.op).value in db.orders
  }

  ghost predicate Closes(db: Db, tx: Tx) {
    KnowsItsOrder(db, tx) && ClaimedAll(db, tx) && WritesOwnOrder(tx) && CheckoutSound(db, tx)
  }

  /** A transaction still sees each committed order's lines held by their own rows. */
  lemma ViewLinesHeld(db: Db, tx: Tx, o: OrderId)
    requires RowsSound(db, tx) && o in db.orders && LinesHeld(db.reservations, db.orders[o], o)
    ensures LinesHeld(View(db, tx.w).reservations, db.orders[o], o)
  {
    var order, v := db.orders[o], View(db, tx.w).reservations;
    forall k | 0 <= k < |order.items|
      ensures IsHoldOf(v, order.holds[k], order.items[k], o)
    {
      assert IsHoldOf(db.reservations, order.holds[k], order.items[k], o);
    }
  }

  /** Claiming an order's RESERVED rows settles every hold its checkout created. */
  lemma ClaimSettles(db: Db, tx: Tx, o: OrderId, next: ReservationStatus)
    requires RowsSound(db, tx) && o in db.orders && LinesHeld(db.reservations, db.orders[o], o)
    requires !next.Reserved?
    ensures Settled(View(db, DoClaimOrder(View(db, tx.w), tx, o, next).value.w).reservations, db.orders[o])
  {
    var order, v := db.orders[o], View(db, tx.w).reservations;
    var after := View(db, DoClaimOrder(View(db, tx.w), tx, o, next).value.w).reservations;
    ViewLinesHeld(db, tx, o);
    hide LinesHeld;
    forall r | r in order.holds
      ensures r in after && !after[r].status.Reserved?
    {
      var k :| 0 <= k < |order.holds| && order.holds[k] == r;
      assert IsHoldOf(v, order.holds[k], order.items[k], o);
    }
  }

  lemma ClosingPositions(op: Op, pc: nat)
    ensures var stmt := StmtAt(op, pc);
      (stmt.ClaimOrder? <==> ClaimPc(op) == Some(pc)) &&
      (stmt.ClaimOrder? ==> OrderOf(op) == Some(stmt.orderId)) &&
      (stmt.SetStatus? || stmt.SetStatusWhere? || stmt.InsertOrder? ==> OrderOf(op) == Some(stmt.orderId)) &&
      ((stmt.SetStatus? || stmt.SetStatusWhere?) && Terminal(stmt.to) && !op.Advance? ==> ClaimPc(op).Some?) &&
      (stmt.SetStatus? && op.Advance? ==> stmt.to == op.to) &&
      (ClaimPc(op).Some? ==> !stmt.InsertHold? && !stmt.InsertOrder? && !stmt.ClaimHold? && !stmt.AttachOrder?) &&
      (ClaimPc(op).Some? && stmt.SetStatusWhere? ==> op.ExpireOrder? && pc == 0)
    ensures ClaimPc(op).Some? ==> OrderOf(op).Some? && !op.Checkout? && EndOf(op) > ClaimPc(op).value
    ensures StmtAt(op, pc).Done? && ClaimPc(op).Some? ==> pc > ClaimPc(op).value
  {
  }

  lemma ExecWritesOwnOrder(db: Db, tx: Tx, pick: string)
    requires WritesOwnOrder(tx) && CanBeginOrder(tx.op)
    ensures var after := Exec(db, tx, pick); after.Some? ==> WritesOwnOrder(after.value)
  {
    var stmt := StmtAt(tx.op, tx.pc);
    ClosingPositions(tx.op, tx.pc);
    match stmt
    case SetStatus(_, _) =>
    case SetStatusWhere(_, _, _) =>
    case InsertOrder(_, _) =>
    case _ => OtherOrdersUntouched(db, tx, stmt, pick);
      OpKept(db, tx, stmt, pick);
  }

  ghost predicate CanBeginOrder(op: Op) {
    op.Advance? ==> !Terminal(op.to)
  }

  lemma OpKept(db: Db, tx: Tx, stmt: Stmt, pick: string)
    ensures var after := ExecStmt(db, tx, stmt, pick); after.Some? ==> after.value.op == tx.op
  {
    match stmt
    case SetStatusWhere(_, _, _) =>
    case _ =>
  }

  lemma ExecClaimedAll(db: Db, tx: Tx, pick: string)
    requires RowsSound(db, tx) && Shaped(tx) && OrdersSound(db) && ClaimedAll(db, tx)
    ensures var after := Exec(db, tx, pick); after.Some? ==> ClaimedAll(db, after.value)
  {
    hide DoTryReserve, DoInsertHold, DoInsertOrder, DoClaimHold, DoCredit, DoSell, DoAttach;
    var stmt := StmtAt(tx.op, tx.pc);
    var after := Exec(db, tx, pick);
    OpKept(db, tx, stmt, pick);
    StmtLeaves(db, tx, stmt, pick);
    ClosingPositions(tx.op, tx.pc);
    if ClaimPc(tx.op).Some? && after.Some? {
      var o := OrderOf(tx.op).value;
      if stmt.ClaimOrder? {
        ClaimSettles(db, tx, o, stmt.next);
      } else {
        OtherRowsUntouched(db, tx, stmt, pick);
      }
    }
  }

  // ---- commits ------------------------------------------------------------------------

  /** Committing a checkout adds its order whole: one RESERVED row of its own for every line. */
  lemma CheckoutCommits(db: Db, tx: Tx)
    requires RowsSound(db, tx) && CheckoutSound(db, tx) && tx.op.Checkout? && StmtAt(tx.op, tx.pc).Done?
    ensures var after := View(db, tx.w);
      after.orders == db.orders[tx.op.orderId := Order(Pending, tx.op.lines, tx.made)] &&
      LinesHeld(after.reservations, after.orders[tx.op.orderId], tx.op.orderId) &&
      (forall r :: r in tx.made ==> r !in db.reservations && after.reservations[r].status.Reserved?) &&
      (forall r :: r in after.reservations ==> r in db.reservations || r in tx.made)
  {
    var o, lines := tx.op.orderId, tx.op.lines;
    var after := View(db, tx.w);
    assert tx.pc == 2 * |lines| + 1;
    forall k | 0 <= k < |lines|
      ensures IsHoldOf(after.reservations, tx.made[k], lines[k], o)
    {
      assert tx.made[k] in tx.made;
    }
  }

  lemma CommitSettles(db: Db, tx: Tx, o: OrderId)
    requires RowsSound(db, tx) && Closes(db, tx) && OrdersSound(db) && StmtAt(tx.op, tx.pc).Done?
    requires o in db.orders
    ensures var after := View(db, tx.w);
      after.orders[o].items == db.orders[o].items && after.orders[o].holds == db.orders[o].holds &&
      (Terminal(after.orders[o].status) ==> Settled(after.reservations, after.orders[o]))
  {
    var after := View(db, tx.w);
    if o in tx.w.orders {
      ClosingPositions(tx.op, tx.pc);
    } else if Terminal(db.orders[o].status) {
      forall r | r in db.orders[o].holds
        ensures r in after.reservations && !after.reservations[r].status.Reserved?
      {
        assert r in db.reservations && !db.reservations[r].status.Reserved?;
      }
    }
  }

  /** Whoever commits, the committed orders stay sound. */
  lemma CommitKeepsOrders(db: Db, tx: Tx)
    requires RowsSound(db, tx) && Closes(db, tx) && OrdersSound(db) && StmtAt(tx.op, tx.pc).Done?
    ensures OrdersSound(View(db, tx.w))
  {
    var after := View(db, tx.w);
    forall o | o in after.orders
      ensures LinesHeld(after.reservations, after.orders[o], o)
      ensures Terminal(after.orders[o].status) ==> Settled(after.reservations, after.orders[o])
    {
      if o in db.orders {
        ViewLinesHeld(db, tx, o);
        CommitSettles(db, tx, o);
      } else {
        CheckoutCommits(db, tx);
      }
    }
  }

  /** A transaction keeps closing properly on top of what another one commits. */
  lemma CommitKeepsCloses(db: Db, tx: Tx, other: Tx)
    requires RowsSound(db, tx) && RowsSound(db, other) && Closes(db, tx) && Closes(db, other) && OrdersSound(db)
    requires DisjointWrites(tx.w, other.w) && StmtAt(tx.op, tx.pc).Done?
    ensures Closes(View(db, tx.w), other)
  {
    var after := View(db, tx.w);
    if ClaimPc(other.op).Some? {
      var o := OrderOf(other.op).value;
      CommitSettles(db, tx, o);
      if Settled(View(db, other.w).reservations, db.orders[o]) {
        forall r | r in db.orders[o].holds
          ensures r in View(after, other.w).reservations && !View(after, other.w).reservations[r].status.Reserved?
        {
          assert r in View(db, other.w).reservations && !View(db, other.w).reservations[r].status.Reserved?;
        }
      }
    }
  }

  // ---- runs ---------------------------------------------------------------------------

  ghost predicate Closing(s: World) {
    Sound(s) && OrdersSound(s.db) && forall t :: t in s.txs ==> Closes(s.db, s.txs[t])
  }

  lemma RunCloses(s: World, s': World, t: TxId, pick: string)
    requires Closing(s) && Next(s, s', Run(t, pick))
    ensures Closes(s.db, s'.txs[t])
  {
    CheckoutSteps(s.db, s.txs[t], pick);
    ExecWritesOwnOrder(s.db, s.txs[t], pick);
    ExecClaimedAll(s.db, s.txs[t], pick);
    OpKept(s.db, s.txs[t], StmtAt(s.txs[t].op, s.txs[t].pc), pick);
  }

  lemma NextCloses(s: World, s': World, e: Event)
    requires Closing(s) && Next(s, s', e)
    ensures Closing(s')
  {
    NextSound(s, s', e);
    match e
    case Begin(t, op) => assert Closes(s.db, s'.txs[t]);
    case Run(t, pick) => RunCloses(s, s', t, pick);
    case Commit(t) =>
      CommitKeepsOrders(s.db, s.txs[t]);
      forall u | u in s'.txs
        ensures Closes(s'.db, s'.txs[u])
      {
        CommitKeepsCloses(s.db, s.txs[t], s.txs[u]);
      }
    case Abort(t) =>
  }

  lemma {:induction false} RunsClose(run: seq<World>, es: seq<Event>, k: nat)
    requires IsRun(run, es) && k < |run|
    ensures Closing(run[k])
    decreases k
  {
    if k == 0 {
      RunsSound(run, es, 0);
    } else {
      RunsClose(run, es, k - 1);
      NextCloses(run[k - 1], run[k], es[k - 1]);
    }
  }

  /** In every committed state, a closed order has no RESERVED hold created by its checkout. */
  lemma ClosedOrdersHoldNothing(run: seq<World>, es: seq<Event>, k: nat, o: OrderId, r: ReservationId)
    requires IsRun(run, es) && k < |run|
    requires o in run[k].db.orders && Terminal(run[k].db.orders[o].status)
    requires r in run[k].db.orders[o].holds
    ensures r in run[k].db.reservations && !run[k].db.reservations[r].status.Reserved?
  {
    RunsClose(run, es, k);
  }

  /** A checkout's commit publishes every line at once; until then it has published nothing. */
  lemma CheckoutAllOrNothing(run: seq<World>, es: seq<Event>, k: nat, t: TxId)
    requires IsRun(run, es) && k < |es| && t in run[k].txs && run[k].txs[t].op.Checkout?
    ensures es[k] == Commit(t) ==>
      var tx, before, after := run[k].txs[t], run[k].db, run[k + 1].db;
      var o, lines := tx.op.orderId, tx.op.lines;
      o !in before.orders && after.orders == before.orders[o := Order(Pending, lines, tx.made)] &&
      LinesHeld(after.reservations, after.orders[o], o) &&
      (forall r :: r in tx.made ==> r !in before.reservations && after.reservations[r].status.Reserved?) &&
      (forall r :: r in after.reservations ==> r in before.reservations || r in tx.made)
    ensures !es[k].Commit? ==> run[k + 1].db == run[k].db
  {
    RunsClose(run, es, k);
    assert Next(run[k], run[k + 1], es[k]);
    if es[k] == Commit(t) {
      CheckoutCommits(run[k].db, run[k].txs[t]);
    }
  }
}
