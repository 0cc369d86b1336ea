/**
 * A run in which a cancelled order becomes FAILED: the buyer cancels while the gateway is still
 * asked for a checkout session, and its failure then writes the status without looking.
 */
module GatewayRace {
  import opened Common
  import opened Stock
  import opened OrderState
  import opened StockProtocol
  import opened SaleRaces
  import opened CancelRace

  const FAILURE := GatewayFailure("order")
  const PLACED := Tables(5, 1, HELD, Pending)
  const FAILED := Tables(5, 0, FREED, Failed)

  /** The failure, once the order is cancelled: nothing is left to claim. */
  function FailingTx(pc: nat): Tx {
    if pc == 0 then Begun(FAILURE) else Moving(FAILURE, pc, Failed)
  }

  // ---- statement by statement -------------------------------------------------------------

  lemma NoneFreed(rs: Reservations)
    requires rs == map["hold" := FREED]
    ensures Outstanding(rs, "order") == {} && RowsOf(rs, {}) == {} && OwedFor(rs, {}, {}) == map[]
    ensures Claimed(rs, {}, Released) == map[]
  {
  }

  lemma FailureClaims()
    ensures Ran(CLOSED, FailingTx(1), "", FailingTx(2))
  {
    var v := View(CLOSED, FailingTx(1).w);
    assert v.reservations == map["hold" := FREED];
    NoneFreed(v.reservations);
    hide Outstanding, RowsOf, OwedFor, Claimed;
    assert StmtAt(FAILURE, 1) == ClaimOrder("order", Released);
  }

  lemma FailureRuns()
    ensures Ran(CLOSED, FailingTx(0), "", FailingTx(1)) && Ran(CLOSED, FailingTx(2), "", FailingTx(3))
    ensures StmtAt(FAILURE, 3).Done? && View(CLOSED, FailingTx(3).w) == FAILED
  {
    assert View(CLOSED, NOTHING) == CLOSED;
    var none: map<OrderId, Order> := map[];
    var order := Order(Failed, [LINE], ["hold"]);
    assert none["order" := order] == map["order" := order];
  }

  // ---- the run ------------------------------------------------------------------------------

  /** The order is cancelled, and then the gateway fails. */
  function Later(k: nat): Moment {
    if k <= 5 then Moment(World(PLACED, map[]), Begin(0, CANCEL))
    else if k <= 10 then Moment(World(PLACED, map[0 := Cancelling(k - 6)]), Run(0, if k == 8 then "item" else ""))
    else if k == 11 then Moment(World(PLACED, map[0 := Cancelling(5)]), Commit(0))
    else if k == 12 then Moment(World(CLOSED, map[]), Begin(0, FAILURE))
    else if k <= 15 then Moment(World(CLOSED, map[0 := FailingTx(k - 13)]), Run(0, ""))
    else if k == 16 then Moment(World(CLOSED, map[0 := FailingTx(3)]), Commit(0))
    else Moment(World(FAILED, map[]), Commit(0))
  }

  function InstantOf(k: nat): Moment {
    if k < 5 then At(k) else Later(k)
  }

  const FINISH := 17

  function FailureWorlds(): seq<World> {
    seq(FINISH + 1, k requires 0 <= k => InstantOf(k).world)
  }

  function FailureEvents(): seq<Event> {
    seq(FINISH, k requires 0 <= k => InstantOf(k).event)
  }

  ghost predicate Leads(k: nat) {
    Next(InstantOf(k).world, InstantOf(k + 1).world, InstantOf(k).event)
  }

  lemma PlacedFirst(k: nat)
    requires k < 5
    ensures Leads(k)
  {
    assert At(5).world == Later(5).world;
    hide Next, At;
    EveryStep(k);
    assert StepAt(k);
  }

  lemma ThenBegins(k: nat)
    requires k == 5 || k == 12
    ensures Leads(k)
  {
    var s, s' := InstantOf(k).world, InstantOf(k + 1).world;
    hide Exec, View;
    BeginStep(s.db, s.txs, 0, InstantOf(k).event.op);
    assert s'.txs == s.txs[0 := Begun(InstantOf(k).event.op)];
  }

  lemma ThenCancels(k: nat)
    requires 6 <= k <= 11
    ensures Leads(k)
  {
    CancelRuns(Pending);
    CancelClaims(Pending);
    CancelCredits(Pending);
    assert Cancelling(5).op == CANCEL && Cancelling(5).pc == 4;
    hide Exec, View, Cancelling, Next;
    if k < 11 {
      AloneRuns(PLACED, Cancelling(k - 6), if k == 8 then "item" else "", Cancelling(k - 5));
    } else {
      AloneCommits(PLACED, Cancelling(5), CLOSED);
    }
  }

  lemma ThenFails(k: nat)
    requires 13 <= k <= 16
    ensures Leads(k)
  {
    FailureRuns();
    FailureClaims();
    assert FailingTx(3).op == FAILURE && FailingTx(3).pc == 3;
    hide Exec, View, FailingTx, Next;
    if k < 16 {
      AloneRuns(CLOSED, FailingTx(k - 13), "", FailingTx(k - 12));
    } else {
      AloneCommits(CLOSED, FailingTx(3), FAILED);
    }
  }

  lemma EveryLeads(k: nat)
    requires k < FINISH
    ensures Leads(k)
  {
    if k < 5 {
      PlacedFirst(k);
    } else if k == 5 || k == 12 {
      ThenBegins(k);
    } else if k <= 11 {
      ThenCancels(k);
    } else {
      ThenFails(k);
    }
  }

  /** An order its buyer cancelled, with nothing held, is afterwards FAILED. */
  lemma CancelledOrderFails()
    ensures IsRun(FailureWorlds(), FailureEvents())
    ensures var cancelled, end := FailureWorlds()[12].db, FailureWorlds()[FINISH].db;
      cancelled.orders["order"].status.Cancelled? && end.orders["order"].status.Failed? &&
      !TransitionAllowed(Cancelled, Failed) && cancelled.stock["item"].reserved == 0 && end.stock == cancelled.stock
  {
    forall k | 0 <= k < FINISH
      ensures Leads(k)
    {
      EveryLeads(k);
    }
    Landmarks();
    hide Next, InstantOf;
    forall k | 0 <= k < |FailureEvents()|
      ensures Next(FailureWorlds()[k], FailureWorlds()[k + 1], FailureEvents()[k])
    {
      assert Leads(k);
    }
  }

  lemma Landmarks()
    ensures Init(InstantOf(0).world) && InstantOf(12).world.db == CLOSED && InstantOf(FINISH).world.db == FAILED
  {
    Starts();
  }
}
