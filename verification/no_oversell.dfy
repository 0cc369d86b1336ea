/** No oversell: reserved stock never exceeds what is on the shelf, in any interleaving. */
module NoOversell {
  import opened Common
  import opened Sums
  import opened Stock
  import opened OrderState
  import opened StockProtocol
  import opened StockConservation
  import opened OrderLifecycle
  import opened OrderClosing
  import opened Sales

  // ---- what a transaction may have written --------------------------------------------

  /**
   * The rows a transaction has written: a manual adjustment sets its target, a sale does what a
   * sale does, and every other operation leaves nothing oversold.
   */
  ghost predicate RowFits(db: Db, tx: Tx, i: InventoryId) {
    SaleFits(db, tx, i) &&
    (i in tx.w.stock ==>
      match tx.op
      case CompleteOrder(_, _) => true
      case ConsumeHold(_, _) => true
      case Adjust(at, target) => i == at && i in db.stock && tx.w.stock[i] == db.stock[i].(onHand := Max(0, target))
      case _ => Available(tx.w.stock[i]) >= 0)
  }

  ghost predicate Fits(db: Db, tx: Tx) {
    TakesSound(tx) && forall i :: i in tx.w.stock ==> RowFits(db, tx, i)
  }

  ghost predicate NothingOversold(db: Db) {
    forall i :: i in db.stock ==> Available(db.stock[i]) >= 0
  }

  // ---- one statement ------------------------------------------------------------------

  lemma CreditFits(db: Db, tx: Tx, pick: string, i: InventoryId)
    requires Fits(db, tx) && NothingOversold(db)
    requires !tx.op.ConsumeHold? && !tx.op.Adjust? && !tx.op.CompleteOrder?
    ensures var after := DoCredit(View(db, tx.w), tx, pick);
      after.Some? && i in after.value.w.stock ==> RowFits(db, after.value, i)
  {
  }

  lemma ReserveFits(db: Db, tx: Tx, line: Line, i: InventoryId)
    requires Fits(db, tx) && !tx.op.CompleteOrder? && !tx.op.ConsumeHold? && !tx.op.Adjust?
    ensures var after := DoTryReserve(View(db, tx.w), tx, line);
      after.Some? && i in after.value.w.stock ==> RowFits(db, after.value, i)
  {
  }

  lemma AddFits(db: Db, tx: Tx, at: InventoryId, added: nat, i: InventoryId)
    requires Fits(db, tx) && NothingOversold(db)
    requires !tx.op.CompleteOrder? && !tx.op.ConsumeHold? && !tx.op.Adjust?
    ensures var after := DoShelf(View(db, tx.w), tx, at, added);
      after.Some? && i in after.value.w.stock ==> RowFits(db, after.value, i)
  {
  }

  lemma SetFits(db: Db, tx: Tx, at: InventoryId, n: int, i: InventoryId)
    requires Fits(db, tx) && tx.w.stock.Keys <= db.stock.Keys
    requires tx.op.Adjust? && at == tx.op.inventoryId && n == Max(0, tx.op.target)
    ensures var after := DoSetOnHand(View(db, tx.w), tx, at, n);
      after.Some? && i in after.value.w.stock ==> RowFits(db, after.value, i)
  {
    if at in tx.w.stock {
      assert RowFits(db, tx, at);
    }
  }

  lemma FitsSells(db: Db, tx: Tx)
    requires Fits(db, tx)
    ensures Sells(db, tx)
  {
    forall i | i in tx.w.stock
      ensures SaleFits(db, tx, i)
    {
      assert RowFits(db, tx, i);
    }
  }

  lemma ExecRowFits(db: Db, tx: Tx, pick: string, i: InventoryId)
    requires Fits(db, tx) && NothingOversold(db) && Shaped(tx) && tx.w.stock.Keys <= db.stock.Keys
    ensures var after := Exec(db, tx, pick);
      after.Some? && i in after.value.w.stock ==> RowFits(db, after.value, i)
  {
    var stmt := StmtAt(tx.op, tx.pc);
    OpKept(db, tx, stmt, pick);
    FitsSells(db, tx);
    ExecSaleFits(db, tx, pick, i);
    if !tx.op.CompleteOrder? && !tx.op.ConsumeHold? {
      StockPositions(tx.op, tx.pc);
      hide SaleFits;
      match stmt
      case TryReserve(line) => ReserveFits(db, tx, line, i);
      case CreditClaimed => CreditFits(db, tx, pick, i);
      case AddToShelf(at, added) => AddFits(db, tx, at, added, i);
      case SetOnHand(at, n) => SetFits(db, tx, at, n, i);
      case _ => OtherFits(db, tx, stmt, pick, i);
    } else {
      hide ExecStmt;
    }
  }

  /** The statements of the other operations that write no stock row. */
  lemma OtherFits(db: Db, tx: Tx, stmt: Stmt, pick: string, i: InventoryId)
    requires Fits(db, tx) && !tx.op.CompleteOrder? && !tx.op.ConsumeHold?
    requires !stmt.TryReserve? && !stmt.CreditClaimed? && !stmt.SellClaimed?
    requires !stmt.TakeFromShelf? && !stmt.AddToShelf? && !stmt.SetOnHand?
    ensures var after := ExecStmt(db, tx, stmt, pick);
      after.Some? && i in after.value.w.stock ==> RowFits(db, after.value, i)
  {
    OpKept(db, tx, stmt, pick);
    StockUntouched(db, tx, stmt, pick);
    hide ExecStmt;
    if i in tx.w.stock {
      assert RowFits(db, tx, i);
    }
  }

  // ---- commits ------------------------------------------------------------------------

  /** What a run may not do: complete an order whose holds ended, or adjust below what is reserved. */
  ghost predicate Careful(s: World, e: Event) {
    e.Commit? && e.t in s.txs ==>
      match s.txs[e.t].op
      case CompleteOrder(o, _) => Intact(s.db, o)
      case Adjust(i, target) => i in s.db.stock ==> s.db.stock[i].reserved <= Max(0, target)
      case _ => true
  }

  lemma CommitFits(s: World, t: TxId)
    requires Closing(s) && NothingOversold(s.db) && t in s.txs && Fits(s.db, s.txs[t]) && ItemsKnown(s.db, s.txs[t])
    requires StmtAt(s.txs[t].op, s.txs[t].pc).Done? && Careful(s, Commit(t))
    ensures NothingOversold(View(s.db, s.txs[t].w))
  {
    var tx := s.txs[t];
    forall i | i in s.db.stock
      ensures Available(View(s.db, tx.w).stock[i]) >= 0
    {
      if i in tx.w.stock {
        assert RowFits(s.db, tx, i);
        DoneInFlight(tx, i);
        assert CountsAt(View(s.db, tx.w), i, InFlight(tx, i));
        if tx.op.CompleteOrder? {
          FitsSells(s.db, tx);
          CompletionFits(s.db, tx, i);
        }
      }
    }
  }

  // ---- runs ---------------------------------------------------------------------------

  ghost predicate Unsold(s: World) {
    Closing(s) && NothingOversold(s.db) &&
    forall t :: t in s.txs ==> Fits(s.db, s.txs[t]) && ItemsKnown(s.db, s.txs[t])
  }

  lemma CommitKeepsFits(db: Db, tx: Tx, other: Tx)
    requires RowsSound(db, tx) && DisjointWrites(tx.w, other.w) && Fits(db, other) && ItemsKnown(db, other)
    requires other.w.stock.Keys <= db.stock.Keys
    ensures Fits(View(db, tx.w), other) && ItemsKnown(View(db, tx.w), other)
  {
    var after := View(db, tx.w);
    forall i | i in other.w.stock
      ensures RowFits(after, other, i)
    {
      assert RowFits(db, other, i);
      assert after.stock[i] == db.stock[i];
    }
  }

  lemma RunFits(s: World, s': World, t: TxId, pick: string)
    requires Unsold(s) && Next(s, s', Run(t, pick))
    ensures Fits(s.db, s'.txs[t]) && ItemsKnown(s.db, s'.txs[t])
  {
    ExecTakes(s.db, s.txs[t], pick);
    OpKept(s.db, s.txs[t], StmtAt(s.txs[t].op, s.txs[t].pc), pick);
    forall i | i in s'.txs[t].w.stock
      ensures RowFits(s.db, s'.txs[t], i)
    {
      ExecRowFits(s.db, s.txs[t], pick, i);
    }
  }

  lemma CommitUnsold(s: World, s': World, t: TxId)
    requires Unsold(s) && Next(s, s', Commit(t)) && Careful(s, Commit(t)) && Closing(s')
    ensures Unsold(s')
  {
    CommitFits(s, t);
    forall u | u in s'.txs
      ensures Fits(s'.db, s'.txs[u]) && ItemsKnown(s'.db, s'.txs[u])
    {
      CommitKeepsFits(s.db, s.txs[t], s.txs[u]);
    }
  }

  lemma NextUnsold(s: World, s': World, e: Event)
    requires Unsold(s) && Next(s, s', e) && Careful(s, e)
    ensures Unsold(s')
  {
    NextCloses(s, s', e);
    match e
    case Begin(t, op) => assert Fits(s.db, s'.txs[t]);
    case Run(t, pick) => RunFits(s, s', t, pick);
    case Commit(t) => CommitUnsold(s, s', t);
    case Abort(t) =>
  }

  lemma {:induction false} RunsUnsold(run: seq<World>, es: seq<Event>, k: nat)
    requires IsRun(run, es) && k < |run|
    requires forall j :: 0 <= j < k ==> Careful(run[j], es[j])
    ensures Unsold(run[k])
    decreases k
  {
    if k == 0 {
      RunsClose(run, es, 0);
    } else {
      RunsUnsold(run, es, k - 1);
      NextUnsold(run[k - 1], run[k], es[k - 1]);
    }
  }

  /**
   * No oversell: as long as every completion commits with its order's holds intact and no manual
   * adjustment goes below what is reserved, no committed state has more reserved than on hand.
   */
  lemma NeverOversold(run: seq<World>, es: seq<Event>, k: nat, i: InventoryId)
    requires IsRun(run, es) && k < |run| && i in run[k].db.stock
    requires forall j :: 0 <= j < k ==> Careful(run[j], es[j])
    ensures run[k].db.stock[i].reserved <= run[k].db.stock[i].onHand
  {
    RunsUnsold(run, es, k);
  }
}
