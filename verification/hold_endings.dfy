/** What a hold ends as tells what ended it, however transactions interleave; and what each statement decides. */
module HoldEndings {
  import opened Common
  import opened Stock
  import opened OrderState
  import opened StockProtocol
  import opened StockConservation
  import opened OrderLifecycle

  // ---- what holds end as ------------------------------------------------------------------

  /** The status an operation ends holds with; None when it ends none. */
  function EndsAs(op: Op): Option<ReservationStatus> {
    match op
    case ConsumeHold(_, _) => Some(Consumed)
    case ReleaseHold(_) => Some(Released)
    case SweepHold(_) => Some(Expired)
    case GatewayFailure(_) => Some(Released)
    case PaymentFailed(_) => Some(Released)
    case CancelOrder(_) => Some(Released)
    case CompleteOrder(_, _) => Some(Consumed)
    case ExpireOrder(_) => Some(Expired)
    case _ => None
  }

  /** A row the transaction has written is RESERVED, ended the operation's way, or was ended before. */
  ghost predicate EndsItsWay(db: Db, tx: Tx) {
    forall r :: r in tx.w.reservations ==> RowEndsItsWay(db, tx, r)
  }

  ghost predicate RowEndsItsWay(db: Db, tx: Tx, r: ReservationId)
    requires r in tx.w.reservations
  {
    var status := tx.w.reservations[r].status;
    status == Reserved || Some(status) == EndsAs(tx.op) || (r in db.reservations && db.reservations[r].status == status)
  }

  lemma EndPositions(op: Op, pc: nat)
    ensures var stmt := StmtAt(op, pc);
      stmt.ClaimOrder? || stmt.ClaimHold? ==> Some(stmt.next) == EndsAs(op)
  {
  }

  lemma WriteEnds(db: Db, tx: Tx, after: Tx, r: ReservationId, row: Reservation)
    requires EndsItsWay(db, tx) && after.op == tx.op && after.w.reservations == tx.w.reservations[r := row]
    requires row.status == Reserved || Some(row.status) == EndsAs(tx.op) ||
      (r in View(db, tx.w).reservations && View(db, tx.w).reservations[r].status == row.status)
    ensures EndsItsWay(db, after)
  {
    forall x | x in after.w.reservations
      ensures RowEndsItsWay(db, after, x)
    {
      if x in tx.w.reservations {
        assert RowEndsItsWay(db, tx, x);
      }
    }
  }

  lemma ClaimOrderEnds(db: Db, tx: Tx, o: OrderId, next: ReservationStatus)
    requires EndsItsWay(db, tx) && Some(next) == EndsAs(tx.op)
    ensures EndsItsWay(db, DoClaimOrder(View(db, tx.w), tx, o, next).value)
  {
    hide OwedFor, RowsOf, Outstanding;
    var after := DoClaimOrder(View(db, tx.w), tx, o, next).value;
    forall r | r in after.w.reservations
      ensures RowEndsItsWay(db, after, r)
    {
      if r in tx.w.reservations {
        assert RowEndsItsWay(db, tx, r);
      }
    }
  }

  lemma InsertOrderEnds(db: Db, tx: Tx, o: OrderId, lines: seq<Line>)
    requires EndsItsWay(db, tx) && DoInsertOrder(View(db, tx.w), tx, o, lines).Some?
    ensures EndsItsWay(db, DoInsertOrder(View(db, tx.w), tx, o, lines).value)
  {
    var after := DoInsertOrder(View(db, tx.w), tx, o, lines).value;
    forall r | r in after.w.reservations
      ensures RowEndsItsWay(db, after, r)
    {
      if r in tx.w.reservations {
        assert RowEndsItsWay(db, tx, r);
      }
    }
  }

  lemma InsertHoldEnds(db: Db, tx: Tx, line: Line, forOrder: Option<OrderId>, pick: string)
    requires EndsItsWay(db, tx) && DoInsertHold(View(db, tx.w), tx, line, forOrder, pick).Some?
    ensures EndsItsWay(db, DoInsertHold(View(db, tx.w), tx, line, forOrder, pick).value)
  {
    hide EndsItsWay;
    WriteEnds(db, tx, DoInsertHold(View(db, tx.w), tx, line, forOrder, pick).value, pick, NewHold(line, forOrder));
  }

  lemma AttachEnds(db: Db, tx: Tx, r: ReservationId, o: OrderId)
    requires EndsItsWay(db, tx) && DoAttach(View(db, tx.w), tx, r, o).Some?
    ensures EndsItsWay(db, DoAttach(View(db, tx.w), tx, r, o).value)
  {
    hide EndsItsWay;
    WriteEnds(db, tx, DoAttach(View(db, tx.w), tx, r, o).value, r, View(db, tx.w).reservations[r].(orderId := Some(o)));
  }

  lemma ClaimHoldEnds(db: Db, tx: Tx, r: ReservationId, next: ReservationStatus, must: bool)
    requires EndsItsWay(db, tx) && Some(next) == EndsAs(tx.op) && DoClaimHold(View(db, tx.w), tx, r, next, must).Some?
    ensures EndsItsWay(db, DoClaimHold(View(db, tx.w), tx, r, next, must).value)
  {
    hide EndsItsWay;
    var v, after := View(db, tx.w), DoClaimHold(View(db, tx.w), tx, r, next, must).value;
    if r in v.reservations && v.reservations[r].status.Reserved? {
      WriteEnds(db, tx, after, r, v.reservations[r].(status := next));
    } else {
      SameRowsEnd(db, tx, after);
    }
  }

  lemma SameRowsEnd(db: Db, tx: Tx, after: Tx)
    requires EndsItsWay(db, tx) && after.op == tx.op && after.w.reservations == tx.w.reservations
    ensures EndsItsWay(db, after)
  {
    forall r | r in after.w.reservations
      ensures RowEndsItsWay(db, after, r)
    {
      assert RowEndsItsWay(db, tx, r);
    }
  }

  lemma StatementEnds(db: Db, tx: Tx, pick: string)
    requires Shaped(tx) && EndsItsWay(db, tx) && Exec(db, tx, pick).Some?
    ensures Exec(db, tx, pick).value.op == tx.op && EndsItsWay(db, Exec(db, tx, pick).value)
  {
    hide EndsItsWay, DoTryReserve, DoInsertHold, DoInsertOrder, DoClaimOrder, DoClaimHold, DoCredit, DoSell, DoAttach, View;
    var stmt := StmtAt(tx.op, tx.pc);
    EndPositions(tx.op, tx.pc);
    StmtLeaves(db, tx, stmt, pick);
    match stmt
    case ClaimOrder(o, next) => ClaimOrderEnds(db, tx, o, next);
    case InsertOrder(o, lines) => InsertOrderEnds(db, tx, o, lines);
    case InsertHold(line, forOrder) => InsertHoldEnds(db, tx, line, forOrder, pick);
    case AttachOrder(r, o) => AttachEnds(db, tx, r, o);
    case ClaimHold(r, next, must) => ClaimHoldEnds(db, tx, r, next, must);
    case _ =>
      OtherRowsUntouched(db, tx, stmt, pick);
      SameRowsEnd(db, tx, Exec(db, tx, pick).value);
  }

  /** A commit by another transaction, on rows this one has not locked. */
  lemma CommitEnds(db: Db, w: Db, other: Tx)
    requires EndsItsWay(db, other) && DisjointWrites(w, other.w)
    ensures EndsItsWay(View(db, w), other)
  {
    forall r | r in other.w.reservations
      ensures RowEndsItsWay(View(db, w), other, r)
    {
      assert RowEndsItsWay(db, other, r);
    }
  }

  lemma {:induction false} RunsEnd(run: seq<World>, es: seq<Event>, k: nat)
    requires IsRun(run, es) && k < |run|
    ensures forall t :: t in run[k].txs ==> EndsItsWay(run[k].db, run[k].txs[t])
    decreases k
  {
    if k > 0 {
      RunsEnd(run, es, k - 1);
      RunsSound(run, es, k - 1);
      var s, s', e := run[k - 1], run[k], es[k - 1];
      assert Next(s, s', e);
      forall t | t in s'.txs
        ensures EndsItsWay(s'.db, s'.txs[t])
      {
        if e.Run? && e.t == t {
          StatementEnds(s.db, s.txs[t], e.pick);
        } else if e.Commit? {
          CommitEnds(s.db, s.txs[e.t].w, s.txs[t]);
        }
      }
    }
  }

  /**
   * In every run, a hold ended by a commit is CONSUMED by a sale, EXPIRED by a sweep and RELEASED by
   * anything else that ends holds, and is otherwise the row it was, but for the order of a consumed one.
   */
  lemma HoldsEndAs(run: seq<World>, es: seq<Event>, k: nat, r: ReservationId)
    requires IsRun(run, es) && k < |es| && es[k].Commit? && r in EndedBy(run[k], es[k].t)
    ensures r in run[k + 1].db.reservations
    ensures var op := run[k].txs[es[k].t].op;
      var was, now := run[k].db.reservations[r], run[k + 1].db.reservations[r];
      was.status == Reserved && now.inventoryId == was.inventoryId && now.quantity == was.quantity &&
      (now.status == Consumed <==> op.CompleteOrder? || op.ConsumeHold?) &&
      (now.status == Expired <==> op.SweepHold? || op.ExpireOrder?) &&
      (now.status == Released <==> op.ReleaseHold? || op.CancelOrder? || op.GatewayFailure? || op.PaymentFailed?)
  {
    RunsEnd(run, es, k);
    RunsSound(run, es, k);
    var s, tx := run[k], run[k].txs[es[k].t];
    assert Next(s, run[k + 1], es[k]);
    assert RowEndsItsWay(s.db, tx, r) && RowsSound(s.db, tx);
    assert Evolves(s.db.reservations[r], tx.w.reservations[r]);
  }

  // ---- what statements decide -------------------------------------------------------------

  /** Reserving takes exactly a row with enough on hand beyond what is reserved, and raises its counter alone. */
  lemma ReserveDecides(db: Db, tx: Tx, line: Line)
    ensures var v := View(db, tx.w);
      DoTryReserve(v, tx, line).Some? <==>
        line.inventoryId in v.stock && v.stock[line.inventoryId].onHand - v.stock[line.inventoryId].reserved >= line.quantity
    ensures var v, after := View(db, tx.w), DoTryReserve(View(db, tx.w), tx, line);
      after.Some? ==>
        var row := v.stock[line.inventoryId];
        View(db, after.value.w) == v.(stock := v.stock[line.inventoryId := StockRow(row.onHand, row.reserved + line.quantity)])
  {
    if DoTryReserve(View(db, tx.w), tx, line).Some? {
      var row := View(db, tx.w).stock[line.inventoryId];
      StockWritten(db, tx.w, line.inventoryId, StockRow(row.onHand, row.reserved + line.quantity));
    }
  }

  lemma StockWritten(db: Db, w: Db, i: InventoryId, row: StockRow)
    ensures View(db, WriteStock(w, i, row)) == View(db, w).(stock := View(db, w).stock[i := row])
  {
    assert db.stock + w.stock[i := row] == (db.stock + w.stock)[i := row];
  }

  /** A shelf gains what is added and loses what a sale takes, and keeps its counter. */
  lemma ShelvesMove(db: Db, tx: Tx, i: InventoryId, d: int)
    ensures DoShelf(View(db, tx.w), tx, i, d).Some? <==> i in View(db, tx.w).stock
    ensures var v, after := View(db, tx.w), DoShelf(View(db, tx.w), tx, i, d);
      i in v.stock ==> View(db, after.value.w) == v.(stock := v.stock[i := StockRow(v.stock[i].onHand + d, v.stock[i].reserved)])
  {
    var v := View(db, tx.w);
    if i in v.stock {
      StockWritten(db, tx.w, i, StockRow(v.stock[i].onHand + d, v.stock[i].reserved));
      hide View;
    }
  }

  /** A manual adjustment sets the shelf of a row that is there, and keeps its counter. */
  lemma AdjustmentSets(db: Db, tx: Tx, i: InventoryId, n: int)
    ensures DoSetOnHand(View(db, tx.w), tx, i, n).Some?
    ensures var v, after := View(db, tx.w), DoSetOnHand(View(db, tx.w), tx, i, n);
      View(db, after.value.w) == if i in v.stock then v.(stock := v.stock[i := StockRow(n, v.stock[i].reserved)]) else v
  {
    var v := View(db, tx.w);
    if i in v.stock {
      StockWritten(db, tx.w, i, StockRow(n, v.stock[i].reserved));
      hide View;
    }
  }

  /** A check of the matrix passes a listed order in a status that allows the move; a conditional one moves on, or ends. */
  lemma StatusesDecide(v: Db, tx: Tx, o: OrderId, from: OrderStatus, to: OrderStatus)
    ensures DoCheckTransition(v, tx, o, to).Some? <==> o in v.orders && TransitionAllowed(v.orders[o].status, to)
    ensures DoSetStatus(v, tx, o, to).Some? <==> o in v.orders
    ensures var found := o in v.orders && v.orders[o].status == from;
      (DoProceedIf(v, tx, o, from) == Some(tx.(pc := if found then tx.pc + 1 else EndOf(tx.op)))) &&
      (!found ==> DoSetStatusWhere(v, tx, o, from, to) == Some(tx.(pc := EndOf(tx.op)))) &&
      (found ==> DoSetStatusWhere(v, tx, o, from, to) == DoSetStatus(v, tx, o, to))
    ensures o in v.orders ==>
      DoSetStatus(v, tx, o, to).value.w.orders == tx.w.orders[o := Order(to, v.orders[o].items, v.orders[o].holds)]
  {
  }
}
