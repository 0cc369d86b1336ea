/**
 * A run in which a cancelled order is made ready for pickup: the seller's update reads PROCESSING,
 * the buyer's cancellation commits, and the update then writes its status unconditionally.
 */
module CancelRace {
  import opened Common
  import opened Stock
  import opened OrderState
  import opened StockProtocol
  import opened SaleRaces

  const CANCEL := CancelOrder("order")
  const FREED := HELD.(status := Released)
  const PAID := Tables(5, 1, HELD, Processing)
  const CLOSED := Tables(5, 0, FREED, Cancelled)
  const REOPENED := Tables(5, 0, FREED, ReadyForPickup)

  /** The seller's update, validated. */
  const VALIDATED := Begun(READY).(pc := 1)

  /** The cancellation. */
  function Cancelling(step: nat): Tx {
    var begun := Begun(CANCEL);
    var given := map["item" := StockRow(5, 0)];
    if step <= 1 then begun.(pc := step)
    else if step == 2 then begun.(pc := 2, w := Db(map[], map["hold" := FREED], map[]), owed := map["item" := 1])
    else if step == 3 then begun.(pc := 2, w := Db(given, map["hold" := FREED], map[]))
    else if step == 4 then begun.(pc := 3, w := Db(given, map["hold" := FREED], map[]))
    else begun.(pc := 4, w := Db(given, map["hold" := FREED], map["order" := Order(Cancelled, [LINE], ["hold"])]))
  }

  // ---- statement by statement -------------------------------------------------------------

  lemma CancelClaims(s: OrderStatus)
    ensures Ran(Tables(5, 1, HELD, s), Cancelling(1), "", Cancelling(2))
  {
    var v := View(Tables(5, 1, HELD, s), NOTHING);
    assert v.reservations == map["hold" := HELD];
    OneClaimed(v.reservations, Released);
    hide Outstanding, RowsOf, OwedFor, Claimed;
    var none: Reservations := map[];
    assert none + map["hold" := FREED] == map["hold" := FREED];
    assert StmtAt(CANCEL, 1) == ClaimOrder("order", Released);
  }

  lemma CancelCredits(s: OrderStatus)
    ensures Ran(Tables(5, 1, HELD, s), Cancelling(2), "item", Cancelling(3))
    ensures Ran(Tables(5, 1, HELD, s), Cancelling(3), "", Cancelling(4))
  {
    assert Cancelling(2).owed - {"item"} == Cancelling(3).owed;
    assert StmtAt(CANCEL, 2) == CreditClaimed && Cancelling(3).owed == map[];
    assert View(Tables(5, 1, HELD, s), Cancelling(2).w).stock["item"] == StockRow(5, 1);
    var none: map<InventoryId, StockRow> := map[];
    assert none["item" := StockRow(5, 0)] == Cancelling(3).w.stock;
  }

  lemma CancelRuns(s: OrderStatus)
    requires TransitionAllowed(s, Cancelled)
    ensures Ran(Tables(5, 1, HELD, s), Cancelling(0), "", Cancelling(1)) && Ran(Tables(5, 1, HELD, s), Cancelling(4), "", Cancelling(5))
    ensures StmtAt(CANCEL, 4).Done? && View(Tables(5, 1, HELD, s), Cancelling(5).w) == CLOSED
  {
    var open := Tables(5, 1, HELD, s);
    assert View(open, NOTHING) == open;
    assert View(open, Cancelling(4).w).orders == open.orders;
    var none: map<OrderId, Order> := map[];
    var order := Order(Cancelled, [LINE], ["hold"]);
    assert none["order" := order] == map["order" := order];
  }

  lemma UpdateRuns()
    ensures Ran(CLOSED, VALIDATED, "", Moving(READY, 2, ReadyForPickup))
    ensures View(CLOSED, Moving(READY, 2, ReadyForPickup).w) == REOPENED
  {
  }

  // ---- the run ------------------------------------------------------------------------------

  /** The buyer cancels while the seller's update waits, and then the update goes through. */
  function Afterwards(k: nat): Moment {
    if k == 10 then Moment(World(PAID, map[0 := VALIDATED]), Begin(1, CANCEL))
    else if k <= 15 then
      Moment(World(PAID, map[0 := VALIDATED, 1 := Cancelling(if k > 11 then k - 11 else 0)]), Run(1, if k == 13 then "item" else ""))
    else if k == 16 then Moment(World(PAID, map[0 := VALIDATED, 1 := Cancelling(5)]), Commit(1))
    else if k == 17 then Moment(World(CLOSED, map[0 := VALIDATED]), Run(0, ""))
    else if k == 18 then Moment(World(CLOSED, map[0 := Moving(READY, 2, ReadyForPickup)]), Commit(0))
    else Moment(World(REOPENED, map[]), Commit(0))
  }

  function MomentAt(k: nat): Moment {
    if k < 10 then At(k) else Afterwards(k)
  }

  const END := 19

  function RaceWorlds(): seq<World> {
    seq(END + 1, k requires 0 <= k => MomentAt(k).world)
  }

  function RaceEvents(): seq<Event> {
    seq(END, k requires 0 <= k => MomentAt(k).event)
  }

  ghost predicate Follows(k: nat) {
    Next(MomentAt(k).world, MomentAt(k + 1).world, MomentAt(k).event)
  }

  lemma Before(k: nat)
    requires k < 10
    ensures Follows(k)
  {
    assert At(10).world == Afterwards(10).world;
    hide Next, At;
    EveryStep(k);
    assert StepAt(k);
  }

  lemma CancelBegins()
    ensures Follows(10)
  {
    var s := MomentAt(10).world;
    BeginStep(PAID, s.txs, 1, CANCEL);
    assert MomentAt(11).world.txs == s.txs[1 := Begun(CANCEL)];
  }

  function Meanwhile(step: nat): World {
    World(PAID, map[0 := VALIDATED, 1 := Cancelling(step)])
  }

  lemma CancelStep(step: nat, pick: string)
    requires Ran(PAID, Cancelling(step), pick, Cancelling(step + 1)) && VALIDATED.w == NOTHING
    ensures Next(Meanwhile(step), Meanwhile(step + 1), Run(1, pick))
  {
    hide Exec, View, Cancelling;
    var s := Meanwhile(step);
    RunStep(PAID, s.txs, 1, pick, Cancelling(step + 1));
    assert s.txs[1 := Cancelling(step + 1)] == Meanwhile(step + 1).txs;
  }

  lemma CancelSteps(k: nat)
    requires 11 <= k < 16
    ensures Follows(k)
  {
    CancelRuns(Processing);
    CancelClaims(Processing);
    CancelCredits(Processing);
    assert MomentAt(k) == Moment(Meanwhile(k - 11), Run(1, if k == 13 then "item" else ""));
    assert MomentAt(k + 1).world == Meanwhile(k - 10);
    hide Exec, Cancelling, MomentAt, Next, Meanwhile;
    CancelStep(k - 11, if k == 13 then "item" else "");
  }

  lemma CancelCommits()
    ensures Follows(16)
  {
    CancelRuns(Processing);
    var s := MomentAt(16).world;
    assert Cancelling(5).op == CANCEL && Cancelling(5).pc == 4;
    hide View, Cancelling;
    CommitStep(PAID, s.txs, 1, CLOSED);
    assert MomentAt(17).world.txs == s.txs - {1};
  }

  lemma UpdateSteps(k: nat)
    requires 17 <= k < 19
    ensures Follows(k)
  {
    var s, s' := MomentAt(k).world, MomentAt(k + 1).world;
    UpdateRuns();
    hide Exec, View;
    if k == 17 {
      RunStep(CLOSED, s.txs, 0, "", s'.txs[0]);
      assert s'.txs == s.txs[0 := s'.txs[0]];
    } else {
      CommitStep(CLOSED, s.txs, 0, REOPENED);
      assert s'.txs == s.txs - {0};
    }
  }

  lemma EveryFollows(k: nat)
    requires k < END
    ensures Follows(k)
  {
    if k < 10 {
      Before(k);
    } else if k == 10 {
      CancelBegins();
    } else if k < 16 {
      CancelSteps(k);
    } else if k == 16 {
      CancelCommits();
    } else {
      UpdateSteps(k);
    }
  }

  /** A cancelled order, its goods given back, is afterwards READY_FOR_PICKUP. */
  lemma CancelledOrderIsReadied()
    ensures IsRun(RaceWorlds(), RaceEvents())
    ensures var cancelled, end := RaceWorlds()[17].db, RaceWorlds()[END].db;
      cancelled.orders["order"].status.Cancelled? && end.orders["order"].status.ReadyForPickup? &&
      !TransitionAllowed(Cancelled, ReadyForPickup) && end.reservations["hold"].status.Released? && end.stock["item"].reserved == 0
  {
    forall k | 0 <= k < END
      ensures Follows(k)
    {
      EveryFollows(k);
    }
    Ends();
    hide Next, MomentAt;
    forall k | 0 <= k < |RaceEvents()|
      ensures Next(RaceWorlds()[k], RaceWorlds()[k + 1], RaceEvents()[k])
    {
      assert Follows(k);
    }
  }

  lemma Ends()
    ensures Init(MomentAt(0).world) && MomentAt(17).world.db == CLOSED && MomentAt(19).world.db == REOPENED
  {
    Starts();
  }
}
