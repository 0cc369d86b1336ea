/**
 * What a sale does to a stock row, in any interleaving: a completion takes its items and frees its
 * claim, consuming a hold takes what it frees, and an order sold while its holds stand is sold once.
 */
module Sales {
  import opened Common
  import opened Sums
  import opened Stock
  import opened OrderState
  import opened StockProtocol
  import opened StockConservation
  import opened OrderLifecycle
  import opened OrderClosing

  // ---- what a sale may have written ---------------------------------------------------

  /** How many of its items a completion has taken at position `pc`. */
  function TakenAt(items: seq<Line>, pc: nat): nat
    ensures TakenAt(items, pc) <= |items|
  {
    if pc == 0 then 0 else Min(pc - 1, |items|)
  }

  /**
   * The rows a sale has written: a completion has taken its items so far, and consuming a hold
   * leaves what is available as it was.
   */
  ghost predicate SaleFits(db: Db, tx: Tx, i: InventoryId) {
    i in tx.w.stock ==>
      var row := tx.w.stock[i];
      match tx.op
      case CompleteOrder(_, items) =>
        i in db.stock && row.onHand == db.stock[i].onHand - LinesTotal(items[..TakenAt(items, tx.pc)], i)
      case ConsumeHold(_, _) => i in db.stock && Available(row) == Available(db.stock[i])
      case _ => true
  }

  /** A completion locks the row of every item it has taken; what is owed is never negative. */
  ghost predicate TakesSound(tx: Tx) {
    (tx.op.CompleteOrder? ==> tx.made == []) &&
    (tx.op.CompleteOrder? ==>
      forall k :: 0 <= k < TakenAt(tx.op.items, tx.pc) ==> tx.op.items[k].inventoryId in tx.w.stock) &&
    forall i :: i in tx.owed ==> tx.owed[i] >= 0
  }

  ghost predicate Sells(db: Db, tx: Tx) {
    TakesSound(tx) && forall i :: i in tx.w.stock ==> SaleFits(db, tx, i)
  }

  // ---- one statement ------------------------------------------------------------------

  /** Which statements the special operations run on stock rows. */
  lemma StockPositions(op: Op, pc: nat)
    ensures var stmt := StmtAt(op, pc);
      (stmt.TakeFromShelf? <==> op.CompleteOrder? && 1 <= pc <= |op.items|) &&
      (stmt.TakeFromShelf? ==> stmt.line == op.items[pc - 1]) &&
      (stmt.SellClaimed? ==> op.ConsumeHold?) &&
      (op.ConsumeHold? ==> !stmt.TryReserve? && !stmt.CreditClaimed? && !stmt.AddToShelf?) &&
      (stmt.SetOnHand? <==> op.Adjust? && pc == 0) &&
      (stmt.SetOnHand? ==> stmt.inventoryId == op.inventoryId && stmt.onHand == Max(0, op.target)) &&
      (op.Adjust? ==> stmt.SetOnHand? || stmt.Done?) &&
      (op.CompleteOrder? ==> !stmt.TryReserve? && !stmt.AddToShelf?) &&
      (op.CompleteOrder? && stmt.CreditClaimed? ==> pc > |op.items|)
    ensures op.CompleteOrder? ==> EndOf(op) > |op.items| && !StmtAt(op, pc).SetStatusWhere? && !StmtAt(op, pc).ProceedIf? && !StmtAt(op, pc).ClaimHold?
  {
  }

  /** A row this transaction has not written still holds what is committed. */
  lemma TakeFits(db: Db, tx: Tx, line: Line, i: InventoryId)
    requires Sells(db, tx) && tx.op.CompleteOrder? && 1 <= tx.pc <= |tx.op.items| && line == tx.op.items[tx.pc - 1]
    requires i == line.inventoryId || i in tx.w.stock
    requires tx.w.stock.Keys <= db.stock.Keys
    ensures var after := DoShelf(View(db, tx.w), tx, line.inventoryId, 0 - line.quantity);
      after.Some? ==> SaleFits(db, after.value, i)
  {
    var items := tx.op.items;
    LinesTotalNext(items, tx.pc - 1, i);
    if i !in tx.w.stock {
      var taken := items[..tx.pc - 1];
      forall k | 0 <= k < |taken|
        ensures taken[k].inventoryId != i
      {
        assert taken[k] == items[k];
      }
      NoLinesElsewhere(taken, i);
    }
  }

  /** A completion's credits come after it has taken every item. */
  lemma CompletionCreditFits(db: Db, tx: Tx, pick: string, i: InventoryId)
    requires Sells(db, tx) && tx.w.stock.Keys <= db.stock.Keys
    requires tx.op.CompleteOrder? && tx.pc > |tx.op.items|
    ensures var after := DoCredit(View(db, tx.w), tx, pick);
      after.Some? && i in after.value.w.stock ==> SaleFits(db, after.value, i)
  {
    var after := DoCredit(View(db, tx.w), tx, pick);
    if after.Some? && i in after.value.w.stock && i !in tx.w.stock {
      var items := tx.op.items;
      forall k | 0 <= k < |items|
        ensures items[k].inventoryId != i
      {
        assert items[k].inventoryId in tx.w.stock;
      }
      NoLinesElsewhere(items, i);
      assert items[..TakenAt(items, tx.pc)] == items;
    }
  }

  lemma SellFits(db: Db, tx: Tx, pick: string, i: InventoryId)
    requires Sells(db, tx) && tx.op.ConsumeHold? && tx.w.stock.Keys <= db.stock.Keys
    ensures var after := DoSell(View(db, tx.w), tx, pick);
      after.Some? && i in after.value.w.stock ==> SaleFits(db, after.value, i)
  {
  }

  /** The statements that write no stock row. */
  lemma StockUntouched(db: Db, tx: Tx, stmt: Stmt, pick: string)
    requires !stmt.TryReserve? && !stmt.CreditClaimed? && !stmt.SellClaimed?
    requires !stmt.TakeFromShelf? && !stmt.AddToShelf? && !stmt.SetOnHand?
    ensures var after := ExecStmt(db, tx, stmt, pick); after.Some? ==> after.value.w.stock == tx.w.stock
  {
    match stmt
    case ClaimHold(_, _, _) =>
    case ClaimOrder(_, _) =>
    case InsertOrder(_, _) =>
    case SetStatusWhere(_, _, _) =>
    case _ =>
  }

  lemma UntouchedSale(db: Db, tx: Tx, after: Tx, i: InventoryId)
    requires SaleFits(db, tx, i) && after.op == tx.op && after.w.stock == tx.w.stock
    requires tx.op.CompleteOrder? ==> TakenAt(tx.op.items, after.pc) == TakenAt(tx.op.items, tx.pc)
    ensures SaleFits(db, after, i)
  {
  }

  lemma ExecSaleFits(db: Db, tx: Tx, pick: string, i: InventoryId)
    requires Sells(db, tx) && Shaped(tx) && tx.w.stock.Keys <= db.stock.Keys
    ensures var after := Exec(db, tx, pick);
      after.Some? && i in after.value.w.stock ==> SaleFits(db, after.value, i)
  {
    var stmt := StmtAt(tx.op, tx.pc);
    OpKept(db, tx, stmt, pick);
    if tx.op.CompleteOrder? || tx.op.ConsumeHold? {
      StockPositions(tx.op, tx.pc);
      match stmt
      case CreditClaimed => CompletionCreditFits(db, tx, pick, i);
      case SellClaimed => SellFits(db, tx, pick, i);
      case TakeFromShelf(line) =>
        if i == line.inventoryId || i in tx.w.stock {
          TakeFits(db, tx, line, i);
        }
      case _ => OtherSaleFits(db, tx, stmt, pick, i);
    } else {
      hide ExecStmt;
    }
  }

  lemma OtherSaleFits(db: Db, tx: Tx, stmt: Stmt, pick: string, i: InventoryId)
    requires Sells(db, tx) && Shaped(tx) && stmt == StmtAt(tx.op, tx.pc)
    requires !stmt.TryReserve? && !stmt.CreditClaimed? && !stmt.SellClaimed?
    requires !stmt.TakeFromShelf? && !stmt.AddToShelf? && !stmt.SetOnHand?
    ensures var after := ExecStmt(db, tx, stmt, pick);
      after.Some? && i in after.value.w.stock ==> SaleFits(db, after.value, i)
  {
    var after := ExecStmt(db, tx, stmt, pick);
    StockPositions(tx.op, tx.pc);
    StockUntouched(db, tx, stmt, pick);
    StmtLeaves(db, tx, stmt, pick);
    if after.Some? && i in tx.w.stock {
      UntouchedSale(db, tx, after.value, i);
    }
  }

  lemma ClaimedNonNegative(rs: Reservations, claimed: set<ReservationId>, i: InventoryId)
    ensures ClaimedOf(rs, claimed, i) >= 0
  {
    SumNonNegative(map r | r in claimed :: Share(rs, r, i));
  }

  lemma ClaimOwesNonNegative(v: Db, tx: Tx, o: OrderId, next: ReservationStatus)
    ensures var after := DoClaimOrder(v, tx, o, next).value;
      forall i :: i in after.owed ==> after.owed[i] >= 0
  {
    var claimed := Outstanding(v.reservations, o);
    forall i | i in RowsOf(v.reservations, claimed)
      ensures ClaimedOf(v.reservations, claimed, i) >= 0
    {
      ClaimedNonNegative(v.reservations, claimed, i);
    }
  }

  lemma ExecOwesNonNegative(db: Db, tx: Tx, pick: string)
    requires TakesSound(tx) && Shaped(tx)
    ensures var after := Exec(db, tx, pick); after.Some? ==> forall i :: i in after.value.owed ==> after.value.owed[i] >= 0
  {
    var stmt := StmtAt(tx.op, tx.pc);
    match stmt
    case ClaimOrder(o, next) => ClaimOwesNonNegative(View(db, tx.w), tx, o, next);
    case ClaimHold(_, _, _) =>
    case CreditClaimed =>
    case _ => StmtLeaves(db, tx, stmt, pick);
  }

  lemma ExecTakes(db: Db, tx: Tx, pick: string)
    requires TakesSound(tx) && Shaped(tx)
    ensures var after := Exec(db, tx, pick); after.Some? ==> TakesSound(after.value)
  {
    var stmt := StmtAt(tx.op, tx.pc);
    ExecOwesNonNegative(db, tx, pick);
    StmtLeaves(db, tx, stmt, pick);
    StockPositions(tx.op, tx.pc);
    CompletionStatements(tx.op, tx.pc);
    match stmt
    case TakeFromShelf(_) =>
    case CreditClaimed =>
    case CheckTransition(_, _) =>
    case SetStatus(_, _) =>
    case ClaimOrder(_, _) =>
    case _ =>
  }

  lemma CompletionStatements(op: Op, pc: nat)
    ensures var stmt := StmtAt(op, pc);
      op.CompleteOrder? ==>
        stmt.CheckTransition? || stmt.TakeFromShelf? || stmt.ClaimOrder? || stmt.CreditClaimed? || stmt.SetStatus? || stmt.Done?
  {
  }

  // ---- what a completion does to what is available -------------------------------------

  /** Every hold the order's checkout created is still RESERVED. */
  ghost predicate Intact(db: Db, o: OrderId) {
    o in db.orders &&
    forall r :: r in db.orders[o].holds ==> r in db.reservations && db.reservations[r].status.Reserved?
  }

  /** Distinct holds drop at least their lines, and exactly their lines when nothing else drops. */
  lemma {:induction false} HoldsCover(m: map<ReservationId, int>, holds: seq<ReservationId>, lines: seq<Line>, i: InventoryId)
    requires Distinct(holds) && |holds| == |lines|
    requires forall r :: r in m ==> m[r] >= 0
    requires forall k :: 0 <= k < |holds| ==>
      holds[k] in m && m[holds[k]] == if lines[k].inventoryId == i then lines[k].quantity else 0
    ensures LinesTotal(lines, i) <= Sum(m)
    ensures (forall r :: r in m ==> r in holds || m[r] == 0) ==> LinesTotal(lines, i) == Sum(m)
    decreases |holds|
  {
    if holds == [] {
      SumNonNegative(m);
      if forall r :: r in m ==> m[r] == 0 {
        SumIgnoresZeros(m, map[]);
      }
    } else {
      var n := |holds| - 1;
      SumPick(m, holds[n]);
      HoldsCover(m - {holds[n]}, holds[..n], lines[..n], i);
      if forall r :: r in m ==> r in holds || m[r] == 0 {
        forall r | r in m - {holds[n]}
          ensures r in holds[..n] || m[r] == 0
        {
          if r in holds {
            var k :| 0 <= k < |holds| && holds[k] == r;
            assert holds[..n][k] == r;
          }
        }
      }
    }
  }

  /** Ending an order's intact holds frees at least what its lines take. */
  lemma SettlingFrees(db: Db, after: Reservations, o: OrderId, i: InventoryId)
    requires Intact(db, o) && LinesHeld(db.reservations, db.orders[o], o)
    requires after.Keys == db.reservations.Keys && Settled(after, db.orders[o])
    requires forall r :: r in after ==> Evolves(db.reservations[r], after[r])
    ensures LinesTotal(db.orders[o].items, i) <= Held(db.reservations, i) - Held(after, i)
    ensures (forall r :: r in after && r !in db.orders[o].holds ==> after[r] == db.reservations[r]) ==>
      LinesTotal(db.orders[o].items, i) == Held(db.reservations, i) - Held(after, i)
  {
    var rs, order := db.reservations, db.orders[o];
    var before: map<ReservationId, int> := map r | r in rs :: Weight(rs[r], i);
    var kept: map<ReservationId, int> := map r | r in after :: Weight(after[r], i);
    var freed: map<ReservationId, int> := map r | r in rs :: Weight(rs[r], i) - Weight(after[r], i);
    SumAdd(kept, freed, before);
    forall k | 0 <= k < |order.holds|
      ensures order.holds[k] in freed
      ensures freed[order.holds[k]] == if order.items[k].inventoryId == i then order.items[k].quantity else 0
    {
      assert IsHoldOf(rs, order.holds[k], order.items[k], o);
      assert order.holds[k] in order.holds;
    }
    HoldsCover(freed, order.holds, order.items, i);
  }

  lemma CompletionFits(db: Db, tx: Tx, i: InventoryId)
    requires RowsSound(db, tx) && Closes(db, tx) && OrdersSound(db) && Sells(db, tx)
    requires tx.op.CompleteOrder? && StmtAt(tx.op, tx.pc).Done? && db.orders[tx.op.orderId].items == tx.op.items
    requires Intact(db, tx.op.orderId) && i in tx.w.stock && i in db.stock
    requires CountsAt(db, i, 0) && CountsAt(View(db, tx.w), i, 0)
    ensures Available(tx.w.stock[i]) >= Available(db.stock[i])
    ensures (forall r :: r in tx.w.reservations ==> r in db.orders[tx.op.orderId].holds) ==>
      Available(tx.w.stock[i]) == Available(db.stock[i])
  {
    var items, after := tx.op.items, View(db, tx.w).reservations;
    assert TakenAt(items, tx.pc) == |items| && items[..|items|] == items;
    ClosingPositions(tx.op, tx.pc);
    assert tx.pc > ClaimPc(tx.op).value;
    assert SaleFits(db, tx, i);
    SettlingFrees(db, after, tx.op.orderId, i);
  }

  /** The completion's items are its order's items. */
  ghost predicate ItemsKnown(db: Db, tx: Tx) {
    tx.op.CompleteOrder? ==> tx.op.orderId in db.orders && db.orders[tx.op.orderId].items == tx.op.items
  }

  // ---- runs ---------------------------------------------------------------------------

  ghost predicate Selling(s: World) {
    Closing(s) && forall t :: t in s.txs ==> Sells(s.db, s.txs[t]) && ItemsKnown(s.db, s.txs[t])
  }

  lemma CommitKeepsSells(db: Db, tx: Tx, other: Tx)
    requires RowsSound(db, tx) && DisjointWrites(tx.w, other.w) && Sells(db, other) && ItemsKnown(db, other)
    requires other.w.stock.Keys <= db.stock.Keys
    ensures Sells(View(db, tx.w), other) && ItemsKnown(View(db, tx.w), other)
  {
    var after := View(db, tx.w);
    forall i | i in other.w.stock
      ensures SaleFits(after, other, i)
    {
      assert SaleFits(db, other, i);
      assert after.stock[i] == db.stock[i];
    }
  }

  lemma RunSells(s: World, s': World, t: TxId, pick: string)
    requires Selling(s) && Next(s, s', Run(t, pick))
    ensures Sells(s.db, s'.txs[t]) && ItemsKnown(s.db, s'.txs[t])
  {
    ExecTakes(s.db, s.txs[t], pick);
    OpKept(s.db, s.txs[t], StmtAt(s.txs[t].op, s.txs[t].pc), pick);
    forall i | i in s'.txs[t].w.stock
      ensures SaleFits(s.db, s'.txs[t], i)
    {
      ExecSaleFits(s.db, s.txs[t], pick, i);
    }
  }

  lemma NextSells(s: World, s': World, e: Event)
    requires Selling(s) && Next(s, s', e)
    ensures Selling(s')
  {
    NextCloses(s, s', e);
    match e
    case Begin(t, op) => assert Sells(s.db, s'.txs[t]);
    case Run(t, pick) => RunSells(s, s', t, pick);
    case Commit(t) =>
      forall u | u in s'.txs
        ensures Sells(s'.db, s'.txs[u]) && ItemsKnown(s'.db, s'.txs[u])
      {
        CommitKeepsSells(s.db, s.txs[t], s.txs[u]);
      }
    case Abort(t) =>
  }

  lemma {:induction false} RunsSell(run: seq<World>, es: seq<Event>, k: nat)
    requires IsRun(run, es) && k < |run|
    ensures Selling(run[k])
    decreases k
  {
    if k == 0 {
      RunsClose(run, es, 0);
    } else {
      RunsSell(run, es, k - 1);
      NextSells(run[k - 1], run[k], es[k - 1]);
    }
  }

  // ---- availability -------------------------------------------------------------------

  /** In every run, consuming a hold leaves on-hand minus reserved alone on every row. */
  lemma ConsumingKeepsAvailable(run: seq<World>, es: seq<Event>, k: nat, i: InventoryId)
    requires IsRun(run, es) && k < |es| && es[k].Commit? && i in run[k].db.stock
    requires es[k].t in run[k].txs && run[k].txs[es[k].t].op.ConsumeHold?
    ensures i in run[k + 1].db.stock
    ensures Available(run[k + 1].db.stock[i]) == Available(run[k].db.stock[i])
  {
    RunsSell(run, es, k);
    assert Next(run[k], run[k + 1], es[k]);
    if i in run[k].txs[es[k].t].w.stock {
      assert SaleFits(run[k].db, run[k].txs[es[k].t], i);
    }
  }

  /**
   * In every run, a completion that commits with its order's holds standing leaves on-hand minus
   * reserved no lower on any row, and alone when it ends no other hold.
   */
  lemma SaleKeepsAvailable(run: seq<World>, es: seq<Event>, k: nat, i: InventoryId)
    requires IsRun(run, es) && k < |es| && i in run[k].db.stock
    requires es[k].Commit? && es[k].t in run[k].txs && run[k].txs[es[k].t].op.CompleteOrder?
    requires Intact(run[k].db, run[k].txs[es[k].t].op.orderId)
    ensures i in run[k + 1].db.stock
    ensures Available(run[k + 1].db.stock[i]) >= Available(run[k].db.stock[i])
    ensures var tx := run[k].txs[es[k].t];
      (forall r :: r in tx.w.reservations ==> r in run[k].db.orders[tx.op.orderId].holds) ==>
        Available(run[k + 1].db.stock[i]) == Available(run[k].db.stock[i])
  {
    RunsSell(run, es, k);
    var s, tx := run[k], run[k].txs[es[k].t];
    assert Next(s, run[k + 1], es[k]);
    if i in tx.w.stock {
      DoneInFlight(tx, i);
      assert CountsAt(View(s.db, tx.w), i, InFlight(tx, i));
      CompletionFits(s.db, tx, i);
    }
  }

  /** A finished completion's own rows: on-hand dropped by the lines, reserved by what its claim ended. */
  lemma CompletionRow(db: Db, tx: Tx, i: InventoryId)
    requires Sells(db, tx) && tx.op.CompleteOrder? && StmtAt(tx.op, tx.pc).Done? && i in db.stock
    requires CountsAt(db, i, 0) && CountsAt(View(db, tx.w), i, 0)
    ensures var row := View(db, tx.w).stock[i];
      row.onHand == db.stock[i].onHand - LinesTotal(tx.op.items, i) &&
      row.reserved == db.stock[i].reserved + Held(View(db, tx.w).reservations, i) - Held(db.reservations, i)
  {
    var items := tx.op.items;
    assert TakenAt(items, tx.pc) == |items| && items[..|items|] == items;
    if i in tx.w.stock {
      assert SaleFits(db, tx, i);
    } else {
      forall k | 0 <= k < |items|
        ensures items[k].inventoryId != i
      {
        assert items[k].inventoryId in tx.w.stock;
      }
      NoLinesElsewhere(items, i);
    }
  }

  /**
   * In every run, exactly what a committed completion does to what is available, intact holds or
   * not: it adds what its claim ended and takes what the order's lines say. So it oversells a row
   * exactly when its lines take more than was available and freed together.
   */
  lemma CompletionExactly(run: seq<World>, es: seq<Event>, k: nat, i: InventoryId)
    requires IsRun(run, es) && k < |es| && i in run[k].db.stock
    requires es[k].Commit? && es[k].t in run[k].txs && run[k].txs[es[k].t].op.CompleteOrder?
    ensures var op := run[k].txs[es[k].t].op; op.orderId in run[k].db.orders && run[k].db.orders[op.orderId].items == op.items
    ensures i in run[k + 1].db.stock
    ensures var items := run[k].txs[es[k].t].op.items;
      var freed := Held(run[k].db.reservations, i) - Held(run[k + 1].db.reservations, i);
      Available(run[k + 1].db.stock[i]) == Available(run[k].db.stock[i]) + freed - LinesTotal(items, i) &&
      (Available(run[k + 1].db.stock[i]) < 0 <==> LinesTotal(items, i) > Available(run[k].db.stock[i]) + freed)
  {
    RunsSell(run, es, k);
    var s, tx := run[k], run[k].txs[es[k].t];
    assert Next(s, run[k + 1], es[k]);
    DoneInFlight(tx, i);
    assert CountsAt(View(s.db, tx.w), i, InFlight(tx, i));
    CompletionRow(s.db, tx, i);
  }

  // ---- sold once ----------------------------------------------------------------------

  /** A completion of order `o` commits: its goods leave the shelf. */
  ghost predicate Completes(s: World, e: Event, o: OrderId) {
    e.Commit? && e.t in s.txs && s.txs[e.t].op.CompleteOrder? && s.txs[e.t].op.orderId == o
  }

  /** A placed order stays, with the same lines and holds. */
  lemma {:induction false} OrderStays(run: seq<World>, es: seq<Event>, j: nat, k: nat, o: OrderId)
    requires IsRun(run, es) && j <= k < |run| && o in run[j].db.orders
    ensures o in run[k].db.orders
    ensures run[k].db.orders[o].items == run[j].db.orders[o].items && run[k].db.orders[o].holds == run[j].db.orders[o].holds
    decreases k
  {
    if j < k {
      OrderStays(run, es, j, k - 1, o);
      RunsSound(run, es, k - 1);
      assert Next(run[k - 1], run[k], es[k - 1]);
    }
  }

  /** A completion leaves none of its order's holds standing. */
  lemma CompletionSettles(run: seq<World>, es: seq<Event>, j: nat, o: OrderId)
    requires IsRun(run, es) && j < |es| && Completes(run[j], es[j], o)
    ensures o in run[j].db.orders && LinesHeld(run[j].db.reservations, run[j].db.orders[o], o)
    ensures Settled(run[j + 1].db.reservations, run[j].db.orders[o])
  {
    RunsClose(run, es, j);
    var tx := run[j].txs[es[j].t];
    assert Next(run[j], run[j + 1], es[j]);
    assert Closes(run[j].db, tx);
    ClosingPositions(tx.op, tx.pc);
  }

  /**
   * Sold at most once while the holds stand: whoever races, a second completion of an order with
   * a line commits only when some hold of the order is already gone.
   */
  lemma SecondSaleFindsHoldsGone(run: seq<World>, es: seq<Event>, j: nat, k: nat, o: OrderId)
    requires IsRun(run, es) && j < k < |es| && Completes(run[j], es[j], o) && Completes(run[k], es[k], o)
    requires o in run[k].db.orders && run[k].db.orders[o].items != []
    ensures !Intact(run[k].db, o)
  {
    CompletionSettles(run, es, j, o);
    OrderStays(run, es, j, k, o);
    var r := run[j].db.orders[o].holds[0];
    assert r in run[j].db.orders[o].holds && r in run[k].db.orders[o].holds;
    RowsOnlyEvolve(run, es, j + 1, k, r);
  }

  /** Until `k`, the order's holds were ended by nothing but completions of the order. */
  ghost predicate OnlySalesEnd(run: seq<World>, es: seq<Event>, k: nat, o: OrderId)
    requires k < |run| == |es| + 1 && o in run[k].db.orders
  {
    forall j, r :: 0 <= j < k && es[j].Commit? && r in run[k].db.orders[o].holds && r in EndedBy(run[j], es[j].t) ==>
      Completes(run[j], es[j], o)
  }

  /** A hold that is gone was ended by some commit. */
  lemma {:induction false} EndedSomewhere(run: seq<World>, es: seq<Event>, k: nat, o: OrderId, r: ReservationId)
    requires IsRun(run, es) && k < |run| && o in run[k].db.orders && r in run[k].db.orders[o].holds
    requires r in run[k].db.reservations && !run[k].db.reservations[r].status.Reserved?
    ensures exists j :: 0 <= j < k && es[j].Commit? && r in EndedBy(run[j], es[j].t)
    decreases k
  {
    var s, e := run[k - 1], es[k - 1];
    RunsClose(run, es, k - 1);
    assert Next(s, run[k], e);
    if o in s.db.orders {
      OrderStays(run, es, k - 1, k, o);
      HoldExists(s.db, o, r);
      if !s.db.reservations[r].status.Reserved? {
        EndedSomewhere(run, es, k - 1, o, r);
      } else {
        assert r in EndedBy(s, e.t);
      }
    } else {
      assert WritesOwnOrder(s.txs[e.t]);
      CheckoutCommits(s.db, s.txs[e.t]);
    }
  }

  lemma HoldExists(db: Db, o: OrderId, r: ReservationId)
    requires OrdersSound(db) && o in db.orders && r in db.orders[o].holds
    ensures r in db.reservations
  {
    var k :| 0 <= k < |db.orders[o].holds| && db.orders[o].holds[k] == r;
    assert IsHoldOf(db.reservations, db.orders[o].holds[k], db.orders[o].items[k], o);
  }

  /**
   * Exactly when a completion sells again: if nothing but its own completions has ended the
   * order's holds, a completion about to commit repeats an earlier one just when a hold is gone.
   */
  lemma SellsAgainExactly(run: seq<World>, es: seq<Event>, k: nat, o: OrderId)
    requires IsRun(run, es) && k < |es| && Completes(run[k], es[k], o)
    requires o in run[k].db.orders && run[k].db.orders[o].items != [] && OnlySalesEnd(run, es, k, o)
    ensures (exists j :: 0 <= j < k && Completes(run[j], es[j], o)) <==> !Intact(run[k].db, o)
  {
    if j :| 0 <= j < k && Completes(run[j], es[j], o) {
      SecondSaleFindsHoldsGone(run, es, j, k, o);
    }
    if !Intact(run[k].db, o) {
      RunsClose(run, es, k);
      var r :| r in run[k].db.orders[o].holds && !(r in run[k].db.reservations && run[k].db.reservations[r].status.Reserved?);
      HoldExists(run[k].db, o, r);
      EndedSomewhere(run, es, k, o, r);
    }
  }
}
