/** The counter of every stock row agrees with its reservation rows, in every interleaving. */
module StockConservation {
  import opened Common
  import opened Sums
  import opened Stock
  import opened OrderState
  import opened StockProtocol

  // ---- what one transaction has in flight ---------------------------------------------

  /** Claimed from inventory row `i` and not credited yet. */
  function OwedAt(tx: Tx, i: InventoryId): int {
    if i in tx.owed then tx.owed[i] else 0
  }

  /** Reserved on inventory row `i` with the reservation row not inserted yet. */
  function UnrecordedAt(tx: Tx, i: InventoryId): int {
    if tx.unrecorded.Some? && tx.unrecorded.value.inventoryId == i then tx.unrecorded.value.quantity else 0
  }

  function InFlight(tx: Tx, i: InventoryId): int {
    OwedAt(tx, i) + UnrecordedAt(tx, i)
  }

  /** A counter equals the RESERVED rows plus `inFlight`. */
  ghost predicate CountsAt(db: Db, i: InventoryId, inFlight: int) {
    i in db.stock ==> db.stock[i].reserved == Held(db.reservations, i) + inFlight
  }

  /** Debts are settled by the very next statement, and an increment is recorded by it. */
  ghost predicate ShapedFor(tx: Tx, stmt: Stmt) {
    (tx.owed != map[] ==> stmt.CreditClaimed? || stmt.SellClaimed?) &&
    (stmt.SellClaimed? ==> |tx.owed.Keys| == 1) &&
    (tx.unrecorded.Some? ==> stmt.InsertHold? && stmt.line == tx.unrecorded.value) &&
    (stmt.InsertHold? ==> tx.unrecorded == Some(stmt.line)) &&
    (stmt.ClaimOrder? || stmt.ClaimHold? ==> !stmt.next.Reserved?)
  }

  ghost predicate Shaped(tx: Tx) {
    ShapedFor(tx, StmtAt(tx.op, tx.pc))
  }

  // ---- one statement ------------------------------------------------------------------

  lemma ClaimedElsewhere(rs: Reservations, claimed: set<ReservationId>, i: InventoryId)
    requires i !in RowsOf(rs, claimed)
    ensures ClaimedOf(rs, claimed, i) == 0
  {
    var shares: map<ReservationId, int> := map r | r in claimed :: Share(rs, r, i);
    forall r | r in shares
      ensures shares[r] == 0
    {
    }
    var none: map<ReservationId, int> := map[];
    SumIgnoresZeros(shares, none);
  }

  /** A statement turns what is held into what is in flight, or back, without loss. */
  ghost predicate Conserves(db: Db, tx: Tx, after: Option<Tx>, i: InventoryId) {
    CountsAt(View(db, tx.w), i, InFlight(tx, i)) && after.Some? ==>
      CountsAt(View(db, after.value.w), i, InFlight(after.value, i))
  }

  lemma ClaimedView(db: Db, w: Db, claimed: set<ReservationId>, next: ReservationStatus)
    ensures var rs := View(db, w).reservations;
      View(db, w.(reservations := w.reservations + Claimed(rs, claimed, next))) ==
        View(db, w).(reservations := Flip(rs, claimed, next))
  {
    var rs := View(db, w).reservations;
    assert db.reservations + (w.reservations + Claimed(rs, claimed, next)) == Flip(rs, claimed, next);
  }

  /** A claim on an order turns what its rows held into what is owed. */
  lemma ClaimOrderConserves(db: Db, tx: Tx, o: OrderId, next: ReservationStatus, i: InventoryId)
    requires tx.owed == map[] && tx.unrecorded.None? && !next.Reserved?
    ensures Conserves(db, tx, DoClaimOrder(View(db, tx.w), tx, o, next), i)
  {
    hide Held, ClaimedOf, View;
    var v := View(db, tx.w);
    var claimed := Outstanding(v.reservations, o);
    ClaimedView(db, tx.w, claimed, next);
    FlipTakesClaimed(v.reservations, claimed, next, i);
    if i !in RowsOf(v.reservations, claimed) {
      ClaimedElsewhere(v.reservations, claimed, i);
    }
  }

  /** Linking rows to their order changes nothing that is held. */
  lemma LinkHolds(rs: Reservations, ids: seq<ReservationId>, o: OrderId, i: InventoryId)
    ensures Held(rs + Linked(rs, ids, o), i) == Held(rs, i)
  {
    var after := rs + Linked(rs, ids, o);
    assert (map r | r in after :: Weight(after[r], i)) == (map r | r in rs :: Weight(rs[r], i));
  }

  lemma WriteHoldCounts(db: Db, w: Db, r: ReservationId, row: Reservation, i: InventoryId)
    ensures var rs := View(db, w).reservations;
      Held(View(db, WriteHold(w, r, row)).reservations, i)
        == Held(rs, i) + Weight(row, i) - (if r in rs then Weight(rs[r], i) else 0)
  {
    var rs := View(db, w).reservations;
    assert View(db, WriteHold(w, r, row)).reservations == rs[r := row];
    HeldUpdate(rs, r, row, i);
  }

  lemma PlacedView(db: Db, w: Db, rows: Reservations, o: OrderId, order: Order)
    ensures var v := View(db, w);
      View(db, Db(w.stock, w.reservations + rows, w.orders[o := order])) ==
        Db(v.stock, v.reservations + rows, v.orders[o := order])
  {
    var v := View(db, w);
    assert db.reservations + (w.reservations + rows) == v.reservations + rows;
    assert db.orders + w.orders[o := order] == v.orders[o := order];
  }

  lemma InsertOrderConserves(db: Db, tx: Tx, o: OrderId, lines: seq<Line>, i: InventoryId)
    ensures Conserves(db, tx, DoInsertOrder(View(db, tx.w), tx, o, lines), i)
  {
    hide Held, View, Linked;
    var v := View(db, tx.w);
    PlacedView(db, tx.w, Linked(v.reservations, tx.made, o), o, Order(Pending, lines, tx.made));
    LinkHolds(v.reservations, tx.made, o, i);
  }

  lemma InsertHoldConserves(db: Db, tx: Tx, line: Line, forOrder: Option<OrderId>, pick: string, i: InventoryId)
    requires tx.owed == map[] && tx.unrecorded == Some(line)
    ensures Conserves(db, tx, DoInsertHold(View(db, tx.w), tx, line, forOrder, pick), i)
  {
    WriteHoldCounts(db, tx.w, pick, NewHold(line, forOrder), i);
  }

  lemma ClaimHoldConserves(db: Db, tx: Tx, r: ReservationId, next: ReservationStatus, must: bool, i: InventoryId)
    requires tx.owed == map[] && tx.unrecorded.None? && !next.Reserved?
    ensures Conserves(db, tx, DoClaimHold(View(db, tx.w), tx, r, next, must), i)
  {
    var rs := View(db, tx.w).reservations;
    if r in rs {
      WriteHoldCounts(db, tx.w, r, rs[r].(status := next), i);
    }
  }

  lemma AttachConserves(db: Db, tx: Tx, r: ReservationId, o: OrderId, i: InventoryId)
    ensures Conserves(db, tx, DoAttach(View(db, tx.w), tx, r, o), i)
  {
    var rs := View(db, tx.w).reservations;
    if r in rs {
      WriteHoldCounts(db, tx.w, r, rs[r].(orderId := Some(o)), i);
    }
  }

  /** A statement that writes no hold moves a counter exactly as it moves what is in flight. */
  ghost predicate MovesTogether(db: Db, tx: Tx, after: Option<Tx>, i: InventoryId) {
    after.Some? ==>
      var v, v' := View(db, tx.w), View(db, after.value.w);
      v'.reservations == v.reservations &&
      (i in v'.stock ==>
        i in v.stock && v'.stock[i].reserved - v.stock[i].reserved == InFlight(after.value, i) - InFlight(tx, i))
  }

  lemma CreditMoves(db: Db, tx: Tx, pick: string, i: InventoryId)
    requires tx.unrecorded.None?
    ensures MovesTogether(db, tx, DoCredit(View(db, tx.w), tx, pick), i)
  {
  }

  lemma SellMoves(db: Db, tx: Tx, pick: string, i: InventoryId)
    requires tx.unrecorded.None?
    ensures MovesTogether(db, tx, DoSell(View(db, tx.w), tx, pick), i)
  {
  }

  lemma TryReserveMoves(db: Db, tx: Tx, line: Line, i: InventoryId)
    requires tx.unrecorded.None?
    ensures MovesTogether(db, tx, DoTryReserve(View(db, tx.w), tx, line), i)
  {
  }

  lemma ShelfMoves(db: Db, tx: Tx, at: InventoryId, d: int, i: InventoryId)
    ensures MovesTogether(db, tx, DoShelf(View(db, tx.w), tx, at, d), i)
    ensures MovesTogether(db, tx, DoSetOnHand(View(db, tx.w), tx, at, d), i)
  {
  }

  lemma OrderStatementMoves(db: Db, tx: Tx, o: OrderId, from: OrderStatus, to: OrderStatus, i: InventoryId)
    ensures MovesTogether(db, tx, DoSetStatus(View(db, tx.w), tx, o, to), i)
    ensures MovesTogether(db, tx, DoSetStatusWhere(View(db, tx.w), tx, o, from, to), i)
    ensures MovesTogether(db, tx, DoCheckTransition(View(db, tx.w), tx, o, to), i)
  {
  }

  lemma OtherStatementMoves(db: Db, tx: Tx, stmt: Stmt, pick: string, i: InventoryId)
    requires ShapedFor(tx, stmt)
    requires !stmt.ClaimOrder? && !stmt.InsertOrder? && !stmt.InsertHold? && !stmt.ClaimHold? && !stmt.AttachOrder?
    ensures MovesTogether(db, tx, ExecStmt(db, tx, stmt, pick), i)
  {
    match stmt
    case TryReserve(line) => TryReserveMoves(db, tx, line, i);
    case CheckTransition(o, to) => OrderStatementMoves(db, tx, o, to, to, i);
    case SetStatus(o, to) => OrderStatementMoves(db, tx, o, to, to, i);
    case SetStatusWhere(o, from, to) => OrderStatementMoves(db, tx, o, from, to, i);
    case ProceedIf(_, _) =>
    case CreditClaimed => CreditMoves(db, tx, pick, i);
    case SellClaimed => SellMoves(db, tx, pick, i);
    case TakeFromShelf(line) => ShelfMoves(db, tx, line.inventoryId, 0 - line.quantity, i);
    case AddToShelf(at, added) => ShelfMoves(db, tx, at, added, i);
    case SetOnHand(at, n) => ShelfMoves(db, tx, at, n, i);
    case Done =>
  }

  /** Whatever statement runs, the transaction's view keeps counting what it has in flight. */
  lemma StmtConserves(db: Db, tx: Tx, stmt: Stmt, pick: string, i: InventoryId)
    requires ShapedFor(tx, stmt)
    ensures Conserves(db, tx, ExecStmt(db, tx, stmt, pick), i)
  {
    match stmt
    case ClaimOrder(o, next) => ClaimOrderConserves(db, tx, o, next, i);
    case InsertOrder(o, lines) => InsertOrderConserves(db, tx, o, lines, i);
    case InsertHold(line, forOrder) => InsertHoldConserves(db, tx, line, forOrder, pick, i);
    case ClaimHold(r, next, must) => ClaimHoldConserves(db, tx, r, next, must, i);
    case AttachOrder(r, o) => AttachConserves(db, tx, r, o, i);
    case _ => OtherStatementMoves(db, tx, stmt, pick, i);
  }

  // ---- the shape of the operations ----------------------------------------------------

  lemma StatementOrder(op: Op, pc: nat)
    ensures var stmt, next := StmtAt(op, pc), StmtAt(op, pc + 1);
      (stmt.ClaimOrder? ==> next.CreditClaimed?) &&
      (stmt.ClaimHold? ==> next.CreditClaimed? || next.SellClaimed?) &&
      (stmt.TryReserve? <==> next.InsertHold?) &&
      (next.InsertHold? ==> next.line == stmt.line) &&
      (next.SellClaimed? ==> stmt.ClaimHold?)
    ensures !StmtAt(op, 0).InsertHold? && !StmtAt(op, 0).SellClaimed?
    ensures StmtAt(op, pc).ClaimOrder? || StmtAt(op, pc).ClaimHold? ==> !StmtAt(op, pc).next.Reserved?
  {
  }

  /** What each statement leaves in flight and where it goes next. */
  ghost predicate Leaves(tx: Tx, stmt: Stmt, after: Tx) {
    after.op == tx.op &&
    after.unrecorded == (if stmt.TryReserve? then Some(stmt.line) else None) &&
    if stmt.CreditClaimed? && tx.owed != map[] then
      after.pc == tx.pc
    else if stmt.ClaimOrder? || stmt.ClaimHold? then
      (after.pc == tx.pc + 1 && (stmt.ClaimHold? ==> |after.owed.Keys| == 1)) ||
      (after.pc == EndOf(tx.op) && after.owed == map[])
    else
      after.owed == map[] && (after.pc == tx.pc + 1 || (after.pc == EndOf(tx.op) && (stmt.SetStatusWhere? || stmt.ProceedIf?)))
  }

  lemma StmtLeaves(db: Db, tx: Tx, stmt: Stmt, pick: string)
    requires ShapedFor(tx, stmt)
    ensures var after := ExecStmt(db, tx, stmt, pick); after.Some? ==> Leaves(tx, stmt, after.value)
  {
    var v := View(db, tx.w);
    match stmt
    case SellClaimed => SellLeaves(v, tx, pick);
    case ClaimHold(r, next, must) => ClaimHoldLeaves(v, tx, r, next, must);
    case ClaimOrder(_, _) =>
    case CreditClaimed =>
    case TryReserve(_) =>
    case InsertHold(_, _) =>
    case _ => OtherLeaves(db, tx, stmt, pick);
  }

  lemma SellLeaves(v: Db, tx: Tx, pick: string)
    requires ShapedFor(tx, SellClaimed)
    ensures var after := DoSell(v, tx, pick); after.Some? ==> Leaves(tx, SellClaimed, after.value)
  {
    if pick in tx.owed {
      OnlyKey(tx.owed, pick);
    }
  }

  /** Statements on orders and shelves leave nothing in flight. */
  lemma OtherLeaves(db: Db, tx: Tx, stmt: Stmt, pick: string)
    requires ShapedFor(tx, stmt) && !stmt.SellClaimed? && !stmt.CreditClaimed?
    requires !stmt.ClaimHold? && !stmt.ClaimOrder? && !stmt.TryReserve? && !stmt.InsertHold?
    ensures var after := ExecStmt(db, tx, stmt, pick); after.Some? ==> Leaves(tx, stmt, after.value)
  {
    hide View;
    match stmt
    case InsertOrder(_, _) =>
    case SetStatusWhere(_, _, _) =>
    case _ =>
  }

  lemma OnlyKey(m: map<InventoryId, int>, k: InventoryId)
    requires |m.Keys| == 1 && k in m
    ensures m - {k} == map[]
  {
    assert |m.Keys - {k}| == 0;
  }

  lemma ClaimHoldLeaves(v: Db, tx: Tx, r: ReservationId, next: ReservationStatus, must: bool)
    requires tx.owed == map[] && tx.unrecorded.None?
    ensures var after := DoClaimHold(v, tx, r, next, must);
      after.Some? ==> Leaves(tx, ClaimHold(r, next, must), after.value)
  {
    if r in v.reservations {
      assert map[v.reservations[r].inventoryId := 0].Keys == {v.reservations[r].inventoryId};
    }
  }

  /** What a statement leaves behind is what the next statement of the operation expects. */
  lemma ExecKeepsShape(db: Db, tx: Tx, pick: string)
    requires Shaped(tx)
    ensures var after := Exec(db, tx, pick); after.Some? ==> Shaped(after.value)
  {
    hide ExecStmt;
    var stmt := StmtAt(tx.op, tx.pc);
    StmtLeaves(db, tx, stmt, pick);
    StatementOrder(tx.op, tx.pc);
    StatementOrder(tx.op, tx.pc + 1);
  }

  // ---- worlds -------------------------------------------------------------------------

  ghost predicate TxCounts(db: Db, tx: Tx) {
    Shaped(tx) && tx.w.stock.Keys <= db.stock.Keys &&
    forall i :: i in db.stock ==> CountsAt(View(db, tx.w), i, InFlight(tx, i))
  }

  ghost predicate Locked(s: World) {
    forall t, u :: t in s.txs && u in s.txs && t != u ==> DisjointWrites(s.txs[t].w, s.txs[u].w)
  }

  ghost predicate Conserved(s: World) {
    Balanced(s.db) && Locked(s) && forall t :: t in s.txs ==> TxCounts(s.db, s.txs[t])
  }

  ghost function Padded(rs: Reservations, keys: set<ReservationId>, i: InventoryId): map<ReservationId, int> {
    map r | r in keys :: if r in rs then Weight(rs[r], i) else 0
  }

  lemma PaddedSum(rs: Reservations, keys: set<ReservationId>, i: InventoryId)
    requires rs.Keys <= keys
    ensures Sum(Padded(rs, keys, i)) == Held(rs, i)
  {
    var weights: map<ReservationId, int> := map r | r in rs :: Weight(rs[r], i);
    SumIgnoresZeros(Padded(rs, keys, i), weights);
  }

  /** Two transactions that write different rows change what is held independently. */
  lemma HeldMerge(rs: Reservations, a: Reservations, b: Reservations, i: InventoryId)
    requires a.Keys !! b.Keys
    ensures Held(rs + a + b, i) + Held(rs, i) == Held(rs + a, i) + Held(rs + b, i)
  {
    hide Sum;
    var keys := rs.Keys + a.Keys + b.Keys;
    PaddedSum(rs + a + b, keys, i);
    PaddedSum(rs, keys, i);
    PaddedSum(rs + a, keys, i);
    PaddedSum(rs + b, keys, i);
    var both: map<ReservationId, int> :=
      map r | r in keys :: Padded(rs + a, keys, i)[r] + Padded(rs + b, keys, i)[r];
    SumAdd(Padded(rs + a, keys, i), Padded(rs + b, keys, i), both);
    SumAdd(Padded(rs + a + b, keys, i), Padded(rs, keys, i), both);
  }

  /** On top of a balanced state, what two disjoint overlays have in flight adds up. */
  lemma CountsMerge(db: Db, a: Db, b: Db, i: InventoryId, inA: int, inB: int)
    requires DisjointWrites(a, b) && i in db.stock
    requires CountsAt(db, i, 0) && CountsAt(View(db, a), i, inA) && CountsAt(View(db, b), i, inB)
    ensures CountsAt(View(View(db, a), b), i, inA + inB)
  {
    HeldMerge(db.reservations, a.reservations, b.reservations, i);
  }

  lemma DoneInFlight(tx: Tx, i: InventoryId)
    requires Shaped(tx) && StmtAt(tx.op, tx.pc).Done?
    ensures InFlight(tx, i) == 0
  {
  }

  lemma FreshCounts(db: Db, op: Op)
    requires Balanced(db)
    ensures TxCounts(db, Tx(op, 0, NOTHING, map[], None, []))
  {
    var tx := Tx(op, 0, NOTHING, map[], None, []);
    StatementOrder(op, 0);
    assert View(db, NOTHING) == db;
    forall i | i in db.stock
      ensures CountsAt(View(db, tx.w), i, InFlight(tx, i))
    {
      assert InFlight(tx, i) == 0;
    }
  }

  lemma BeginConserves(s: World, s': World, t: TxId, op: Op)
    requires Conserved(s) && Next(s, s', Begin(t, op))
    ensures Conserved(s')
  {
    hide TxCounts;
    FreshCounts(s.db, op);
    forall u | u in s'.txs
      ensures TxCounts(s'.db, s'.txs[u])
    {
      assert u == t || s'.txs[u] == s.txs[u];
    }
  }

  lemma ExecWritesKnownStock(db: Db, tx: Tx, pick: string)
    requires tx.w.stock.Keys <= db.stock.Keys
    ensures var after := Exec(db, tx, pick); after.Some? ==> after.value.w.stock.Keys <= db.stock.Keys
  {
    match StmtAt(tx.op, tx.pc)
    case TryReserve(_) =>
    case CreditClaimed =>
    case SellClaimed =>
    case ClaimHold(_, _, _) =>
    case _ =>
  }

  lemma RunConserves(s: World, s': World, t: TxId, pick: string)
    requires Conserved(s) && Next(s, s', Run(t, pick))
    ensures Conserved(s')
  {
    var tx, after := s.txs[t], Exec(s.db, s.txs[t], pick).value;
    ExecKeepsShape(s.db, tx, pick);
    ExecWritesKnownStock(s.db, tx, pick);
    forall i | i in s.db.stock
      ensures CountsAt(View(s.db, after.w), i, InFlight(after, i))
    {
      StmtConserves(s.db, tx, StmtAt(tx.op, tx.pc), pick, i);
    }
    assert TxCounts(s.db, after);
  }

  /** A commit publishes a balanced state, and every other transaction still counts on top of it. */
  lemma CommitConserves(s: World, s': World, t: TxId)
    requires Conserved(s) && Next(s, s', Commit(t))
    ensures Conserved(s')
  {
    var tx := s.txs[t];
    forall i | i in s.db.stock
      ensures CountsAt(s'.db, i, 0)
    {
      DoneInFlight(tx, i);
      assert CountsAt(View(s.db, tx.w), i, InFlight(tx, i));
    }
    forall u | u in s'.txs
      ensures TxCounts(s'.db, s'.txs[u])
    {
      OtherStillCounts(s, t, u);
    }
  }

  lemma OtherStillCounts(s: World, t: TxId, u: TxId)
    requires Conserved(s) && t in s.txs && u in s.txs && t != u
    requires StmtAt(s.txs[t].op, s.txs[t].pc).Done?
    ensures TxCounts(View(s.db, s.txs[t].w), s.txs[u])
  {
    var tx, other := s.txs[t], s.txs[u];
    forall i | i in s.db.stock
      ensures CountsAt(View(View(s.db, tx.w), other.w), i, InFlight(other, i))
    {
      DoneInFlight(tx, i);
      CountsMerge(s.db, tx.w, other.w, i, InFlight(tx, i), InFlight(other, i));
    }
    assert View(s.db, tx.w).stock.Keys == s.db.stock.Keys;
  }

  lemma NextConserves(s: World, s': World, e: Event)
    requires Conserved(s) && Next(s, s', e)
    ensures Conserved(s')
  {
    match e
    case Begin(t, op) => BeginConserves(s, s', t, op);
    case Run(t, pick) => RunConserves(s, s', t, pick);
    case Commit(t) => CommitConserves(s, s', t);
    case Abort(t) =>
  }

  lemma InitConserved(s: World)
    requires Init(s)
    ensures Conserved(s)
  {
    forall i | i in s.db.stock
      ensures Held(s.db.reservations, i) == 0
    {
      NothingHeld(s.db.reservations, i);
    }
  }

  /** Every reachable world is conserved. */
  lemma {:induction false} RunsConserve(run: seq<World>, es: seq<Event>, k: nat)
    requires IsRun(run, es) && k < |run|
    ensures Conserved(run[k])
    decreases k
  {
    if k == 0 {
      InitConserved(run[0]);
    } else {
      RunsConserve(run, es, k - 1);
      NextConserves(run[k - 1], run[k], es[k - 1]);
    }
  }

  /** In every committed state of every run the counter is the RESERVED rows, so never negative. */
  lemma CommittedCounter(run: seq<World>, es: seq<Event>, k: nat, i: InventoryId)
    requires IsRun(run, es) && k < |run| && i in run[k].db.stock
    ensures run[k].db.stock[i].reserved == Held(run[k].db.reservations, i)
    ensures run[k].db.stock[i].reserved >= 0
  {
    RunsConserve(run, es, k);
    HeldNonNegative(run[k].db.reservations, i);
  }

  // ---- the latest row versions, committed or not --------------------------------------

  /** Every uncommitted row version of every transaction. */
  ghost function AllWrites(txs: map<TxId, Tx>): Db {
    if txs == map[] then NOTHING else
      var t :| t in txs;
      View(AllWrites(txs - {t}), txs[t].w)
  }

  function Flights(txs: map<TxId, Tx>, i: InventoryId): map<TxId, int> {
    map t: TxId | t in txs :: InFlight(txs[t], i)
  }

  ghost function AllInFlight(txs: map<TxId, Tx>, i: InventoryId): int {
    Sum(Flights(txs, i))
  }

  lemma ViewDisjoint(a: Db, b: Db, w: Db)
    requires DisjointWrites(a, w) && DisjointWrites(b, w)
    ensures DisjointWrites(View(a, b), w)
  {
    assert (a.stock + b.stock).Keys == a.stock.Keys + b.stock.Keys;
    assert (a.reservations + b.reservations).Keys == a.reservations.Keys + b.reservations.Keys;
    assert (a.orders + b.orders).Keys == a.orders.Keys + b.orders.Keys;
  }

  lemma {:induction false} AllWritesDisjoint(txs: map<TxId, Tx>, w: Db)
    requires forall t :: t in txs ==> DisjointWrites(txs[t].w, w)
    ensures DisjointWrites(AllWrites(txs), w)
    decreases |txs|
  {
    if txs == map[] {
      assert AllWrites(txs) == NOTHING;
    } else {
      var t :| t in txs && AllWrites(txs) == View(AllWrites(txs - {t}), txs[t].w);
      AllWritesDisjoint(txs - {t}, w);
      ViewDisjoint(AllWrites(txs - {t}), txs[t].w, w);
    }
  }

  lemma AllInFlightPick(txs: map<TxId, Tx>, t: TxId, i: InventoryId)
    requires t in txs
    ensures AllInFlight(txs, i) == AllInFlight(txs - {t}, i) + InFlight(txs[t], i)
  {
    SumPick(Flights(txs, i), t);
    assert Flights(txs, i) - {t} == Flights(txs - {t}, i);
  }

  /** The transactions `txs` write different rows and each counts on top of `db`. */
  ghost predicate Flying(db: Db, txs: map<TxId, Tx>, i: InventoryId) {
    Locked(World(db, txs)) && forall t :: t in txs ==> CountsAt(View(db, txs[t].w), i, InFlight(txs[t], i))
  }

  lemma FlyingWithout(db: Db, txs: map<TxId, Tx>, t: TxId, i: InventoryId)
    requires t in txs && Flying(db, txs, i)
    ensures Flying(db, txs - {t}, i)
    ensures DisjointWrites(AllWrites(txs - {t}), txs[t].w)
  {
    var s := World(db, txs);
    forall u | u in txs - {t}
      ensures DisjointWrites((txs - {t})[u].w, txs[t].w)
    {
      assert u in s.txs && t in s.txs;
    }
    AllWritesDisjoint(txs - {t}, txs[t].w);
  }

  lemma NothingInFlight(db: Db, i: InventoryId)
    ensures View(db, AllWrites(map[])) == db
    ensures AllInFlight(map[], i) == 0
  {
    assert View(db, NOTHING) == db;
    assert Flights(map[], i) == map[];
  }

  lemma {:induction false} LatestCounts(db: Db, txs: map<TxId, Tx>, i: InventoryId)
    requires CountsAt(db, i, 0) && i in db.stock && Flying(db, txs, i)
    ensures CountsAt(View(db, AllWrites(txs)), i, AllInFlight(txs, i))
    decreases |txs|
  {
    if txs == map[] {
      NothingInFlight(db, i);
    } else {
      var t :| t in txs && AllWrites(txs) == View(AllWrites(txs - {t}), txs[t].w);
      FlyingWithout(db, txs, t, i);
      LatestCounts(db, txs - {t}, i);
      LatestWith(db, txs, AllWrites(txs - {t}), t, i);
    }
  }

  lemma LatestWith(db: Db, txs: map<TxId, Tx>, writes: Db, t: TxId, i: InventoryId)
    requires t in txs && i in db.stock && DisjointWrites(writes, txs[t].w)
    requires CountsAt(db, i, 0) && CountsAt(View(db, writes), i, AllInFlight(txs - {t}, i))
    requires CountsAt(View(db, txs[t].w), i, InFlight(txs[t], i))
    ensures CountsAt(View(db, View(writes, txs[t].w)), i, AllInFlight(txs, i))
  {
    AllInFlightPick(txs, t, i);
    CountsMerge(db, writes, txs[t].w, i, AllInFlight(txs - {t}, i), InFlight(txs[t], i));
    ViewTwice(db, writes, txs[t].w);
  }

  lemma ViewTwice(db: Db, a: Db, b: Db)
    ensures View(db, View(a, b)) == View(View(db, a), b)
  {
    assert db.stock + (a.stock + b.stock) == db.stock + a.stock + b.stock;
    assert db.reservations + (a.reservations + b.reservations) == db.reservations + a.reservations + b.reservations;
    assert db.orders + (a.orders + b.orders) == db.orders + a.orders + b.orders;
  }

  /**
   * In every interleaving, the newest version of a counter is the newest RESERVED rows, plus the
   * claims taken but not credited, plus the increments whose row is not inserted.
   */
  lemma LatestCounter(run: seq<World>, es: seq<Event>, k: nat, i: InventoryId)
    requires IsRun(run, es) && k < |run| && i in run[k].db.stock
    ensures var latest := View(run[k].db, AllWrites(run[k].txs));
      i in latest.stock && latest.stock[i].reserved == Held(latest.reservations, i) + AllInFlight(run[k].txs, i)
  {
    RunsConserve(run, es, k);
    assert Flying(run[k].db, run[k].txs, i);
    LatestCounts(run[k].db, run[k].txs, i);
  }
}
