/**
 * A run in which an order is sold twice: two completions both validate at READY_FOR_PICKUP, the
 * first commits, and the second, already validated, takes the goods again.
 */
module SaleRaces {
  import opened Common
  import opened Sums
  import opened Stock
  import opened OrderState
  import opened StockProtocol
  import opened Sales

  const LINE := Line("item", 1)
  const PLACE := Checkout("order", [LINE])
  const PAY := PaymentSucceeded("order")
  const READY := Advance("order", ReadyForPickup)
  const SELL := CompleteOrder("order", [LINE])

  function Begun(op: Op): Tx {
    Tx(op, 0, NOTHING, map[], None, [])
  }

  /** The tables: `left` on the shelf, and one order with one hold. */
  function Tables(left: int, reserved: int, hold: Reservation, status: OrderStatus): Db {
    Db(map["item" := StockRow(left, reserved)], map["hold" := hold], map["order" := Order(status, [LINE], ["hold"])])
  }

  const START := Db(map["item" := StockRow(5, 0)], map[], map[])
  const UNLINKED := Reservation("item", 1, Reserved, None, 0)
  const HELD := Reservation("item", 1, Reserved, Some("order"), 0)
  const SOLD := HELD.(status := Consumed)

  // ---- the order is placed, paid and made ready -----------------------------------------

  function Placing(pc: nat): Tx {
    var stock := map["item" := StockRow(5, 1)];
    var begun := Begun(PLACE);
    if pc == 0 then begun
    else if pc == 1 then begun.(pc := 1, w := Db(stock, map[], map[]), unrecorded := Some(LINE))
    else if pc == 2 then begun.(pc := 2, w := Db(stock, map["hold" := UNLINKED], map[]), made := ["hold"])
    else begun.(pc := 3, made := ["hold"],
      w := Db(stock, map["hold" := HELD], map["order" := Order(Pending, [LINE], ["hold"])]))
  }

  function Moving(op: Op, pc: nat, to: OrderStatus): Tx {
    Begun(op).(pc := pc, w := Db(map[], map[], map["order" := Order(to, [LINE], ["hold"])]))
  }

  // ---- the two completions ----------------------------------------------------------------

  /** The first completion, on the tables as they were when both validated. */
  function First(step: nat): Tx {
    var begun := Begun(SELL);
    var taken, given := map["item" := StockRow(4, 1)], map["item" := StockRow(4, 0)];
    if step <= 1 then begun.(pc := step)
    else if step == 2 then begun.(pc := 2, w := Db(taken, map[], map[]))
    else if step == 3 then begun.(pc := 3, w := Db(taken, map["hold" := SOLD], map[]), owed := map["item" := 1])
    else if step == 4 then begun.(pc := 3, w := Db(given, map["hold" := SOLD], map[]))
    else if step == 5 then begun.(pc := 4, w := Db(given, map["hold" := SOLD], map[]))
    else begun.(pc := 5, w := Db(given, map["hold" := SOLD], map["order" := Order(Completed, [LINE], ["hold"])]))
  }

  /** The second completion, on what the first has committed: nothing is left to claim, the goods still go. */
  function Second(pc: nat): Tx {
    var begun := Begun(SELL);
    var taken := map["item" := StockRow(3, 0)];
    if pc <= 1 then begun.(pc := pc)
    else if pc <= 4 then begun.(pc := pc, w := Db(taken, map[], map[]))
    else begun.(pc := 5, w := Db(taken, map[], map["order" := Order(Completed, [LINE], ["hold"])]))
  }

  // ---- each phase, statement by statement -------------------------------------------------

  ghost predicate Ran(db: Db, before: Tx, pick: string, after: Tx) {
    Exec(db, before, pick) == Some(after)
  }

  lemma PlacingReserves()
    ensures Ran(START, Placing(0), "", Placing(1))
  {
    assert View(START, NOTHING) == START;
    assert StmtAt(PLACE, 0) == TryReserve(LINE);
    var none: map<InventoryId, StockRow> := map[];
    assert none["item" := StockRow(5, 1)] == map["item" := StockRow(5, 1)];
    hide View;
  }

  lemma PlacingInserts()
    ensures Ran(START, Placing(1), "hold", Placing(2))
  {
    assert View(START, Placing(1).w).reservations == map[];
    assert StmtAt(PLACE, 1) == InsertHold(LINE, None);
    var none: Reservations := map[];
    assert none["hold" := UNLINKED] == map["hold" := UNLINKED];
    assert Placing(1).made + ["hold"] == ["hold"];
  }

  lemma PlacingLinks()
    ensures Ran(START, Placing(2), "", Placing(3))
  {
    var v := View(START, Placing(2).w);
    assert v.reservations == map["hold" := UNLINKED] && v.orders == map[];
    assert "hold" in ["hold"];
    assert Linked(v.reservations, ["hold"], "order") == map["hold" := HELD];
    assert StmtAt(PLACE, 2) == InsertOrder("order", [LINE]);
    var none: map<OrderId, Order> := map[];
    var order := Order(Pending, [LINE], ["hold"]);
    assert none["order" := order] == map["order" := order];
    assert Placing(2).w.reservations + map["hold" := HELD] == map["hold" := HELD];
  }

  lemma PlacingEnds()
    ensures StmtAt(PLACE, 3).Done? && View(START, Placing(3).w) == Tables(5, 1, HELD, Pending)
  {
  }

  lemma MovingRuns()
    ensures Ran(Tables(5, 1, HELD, Pending), Begun(PAY), "", Moving(PAY, 1, Processing))
    ensures Ran(Tables(5, 1, HELD, Processing), Begun(READY), "", Begun(READY).(pc := 1))
    ensures Ran(Tables(5, 1, HELD, Processing), Begun(READY).(pc := 1), "", Moving(READY, 2, ReadyForPickup))
    ensures View(Tables(5, 1, HELD, Pending), Moving(PAY, 1, Processing).w) == Tables(5, 1, HELD, Processing)
    ensures View(Tables(5, 1, HELD, Processing), Moving(READY, 2, ReadyForPickup).w) == Tables(5, 1, HELD, ReadyForPickup)
  {
  }

  const SHELF := Tables(5, 1, HELD, ReadyForPickup)
  const ONCE := Tables(4, 0, SOLD, Completed)
  const TWICE := Tables(3, 0, SOLD, Completed)

  /** One row of quantity one is claimed: one is owed to its item. */
  lemma OneClaimed(rs: Reservations, next: ReservationStatus)
    requires rs == map["hold" := HELD]
    ensures Outstanding(rs, "order") == {"hold"} && RowsOf(rs, {"hold"}) == {"item"}
    ensures OwedFor(rs, {"hold"}, {"item"}) == map["item" := 1]
    ensures Claimed(rs, {"hold"}, next) == map["hold" := HELD.(status := next)]
  {
    assert "hold" in rs;
    ClaimedOfOne(rs, "hold", "item");
  }

  lemma ClaimedOfOne(rs: Reservations, r: ReservationId, i: InventoryId)
    ensures ClaimedOf(rs, {r}, i) == Share(rs, r, i)
  {
    var claimed := {r};
    var shares := map x | x in claimed :: Share(rs, x, i);
    SumPick(shares, r);
    assert shares - {r} == map[];
  }

  lemma FirstClaims()
    ensures Ran(SHELF, First(2), "", First(3))
  {
    var v := View(SHELF, First(2).w);
    assert v.reservations == map["hold" := HELD];
    OneClaimed(v.reservations, Consumed);
    hide Outstanding, RowsOf, OwedFor, Claimed;
    assert StmtAt(SELL, 2) == ClaimOrder("order", Consumed);
    assert First(2).w.reservations + map["hold" := SOLD] == map["hold" := SOLD];
  }

  lemma FirstCredits()
    ensures Ran(SHELF, First(3), "item", First(4)) && Ran(SHELF, First(4), "", First(5))
  {
    assert First(3).owed - {"item"} == First(4).owed;
    assert StmtAt(SELL, 3) == CreditClaimed && First(4).owed == map[];
    assert View(SHELF, First(3).w).stock["item"] == StockRow(4, 1);
    assert First(3).w.stock["item" := StockRow(4, 0)] == First(4).w.stock;
  }

  lemma FirstRuns()
    ensures Ran(SHELF, First(0), "", First(1)) && Ran(SHELF, First(1), "", First(2))
    ensures Ran(SHELF, First(5), "", First(6))
    ensures StmtAt(SELL, 5).Done? && View(SHELF, First(6).w) == ONCE
  {
    assert View(SHELF, NOTHING) == SHELF;
    assert View(SHELF, First(5).w).orders == SHELF.orders;
    var none: map<OrderId, Order> := map[];
    var order := Order(Completed, [LINE], ["hold"]);
    assert none["order" := order] == map["order" := order];
  }

  lemma NoneClaimed(rs: Reservations)
    requires rs == map["hold" := SOLD]
    ensures Outstanding(rs, "order") == {} && RowsOf(rs, {}) == {} && OwedFor(rs, {}, {}) == map[]
    ensures Claimed(rs, {}, Consumed) == map[]
  {
  }

  lemma SecondClaims()
    ensures Ran(ONCE, Second(2), "", Second(3))
  {
    var v := View(ONCE, Second(2).w);
    assert v.reservations == map["hold" := SOLD];
    NoneClaimed(v.reservations);
    hide Outstanding, RowsOf, OwedFor, Claimed;
    assert StmtAt(SELL, 2) == ClaimOrder("order", Consumed);
  }

  lemma SecondRuns()
    ensures Ran(ONCE, Second(1), "", Second(2)) && Ran(ONCE, Second(3), "", Second(4)) && Ran(ONCE, Second(4), "", Second(5))
    ensures View(ONCE, Second(5).w) == TWICE
  {
    assert View(ONCE, NOTHING) == ONCE;
    assert View(ONCE, Second(4).w).orders == ONCE.orders;
  }

  // ---- the run ------------------------------------------------------------------------------

  datatype Moment = Moment(world: World, event: Event)

  /** The order placed, paid and made ready: twelve events. */
  function Prologue(k: nat): Moment {
    var pending, paid := Tables(5, 1, HELD, Pending), Tables(5, 1, HELD, Processing);
    if k == 0 then Moment(World(START, map[]), Begin(0, PLACE))
    else if k == 1 then Moment(World(START, map[0 := Placing(0)]), Run(0, ""))
    else if k == 2 then Moment(World(START, map[0 := Placing(1)]), Run(0, "hold"))
    else if k == 3 then Moment(World(START, map[0 := Placing(2)]), Run(0, ""))
    else if k == 4 then Moment(World(START, map[0 := Placing(3)]), Commit(0))
    else if k == 5 then Moment(World(pending, map[]), Begin(0, PAY))
    else if k == 6 then Moment(World(pending, map[0 := Begun(PAY)]), Run(0, ""))
    else if k == 7 then Moment(World(pending, map[0 := Moving(PAY, 1, Processing)]), Commit(0))
    else if k == 8 then Moment(World(paid, map[]), Begin(0, READY))
    else if k == 9 then Moment(World(paid, map[0 := Begun(READY)]), Run(0, ""))
    else if k == 10 then Moment(World(paid, map[0 := Begun(READY).(pc := 1)]), Run(0, ""))
    else Moment(World(paid, map[0 := Moving(READY, 2, ReadyForPickup)]), Commit(0))
  }

  /** Both completions validate, and the first goes through. */
  function FirstSale(k: nat): Moment {
    if k == 12 then Moment(World(SHELF, map[]), Begin(0, SELL))
    else if k == 13 then Moment(World(SHELF, map[0 := First(0)]), Run(0, ""))
    else if k == 14 then Moment(World(SHELF, map[0 := First(1)]), Begin(1, SELL))
    else if k == 15 then Moment(World(SHELF, map[0 := First(1), 1 := Second(0)]), Run(1, ""))
    else if k == 16 then Moment(World(SHELF, map[0 := First(1), 1 := Second(1)]), Run(0, ""))
    else if k == 17 then Moment(World(SHELF, map[0 := First(2), 1 := Second(1)]), Run(0, ""))
    else if k == 18 then Moment(World(SHELF, map[0 := First(3), 1 := Second(1)]), Run(0, "item"))
    else if k == 19 then Moment(World(SHELF, map[0 := First(4), 1 := Second(1)]), Run(0, ""))
    else if k == 20 then Moment(World(SHELF, map[0 := First(5), 1 := Second(1)]), Run(0, ""))
    else Moment(World(SHELF, map[0 := First(6), 1 := Second(1)]), Commit(0))
  }

  /** The second goes through as well. */
  function SecondSale(k: nat): Moment {
    if k == 22 then Moment(World(ONCE, map[1 := Second(1)]), Run(1, ""))
    else if k == 23 then Moment(World(ONCE, map[1 := Second(2)]), Run(1, ""))
    else if k == 24 then Moment(World(ONCE, map[1 := Second(3)]), Run(1, ""))
    else if k == 25 then Moment(World(ONCE, map[1 := Second(4)]), Run(1, ""))
    else if k == 26 then Moment(World(ONCE, map[1 := Second(5)]), Commit(1))
    else Moment(World(TWICE, map[]), Commit(1))
  }

  function At(k: nat): Moment {
    if k < 12 then Prologue(k) else if k < 22 then FirstSale(k) else SecondSale(k)
  }

  const LAST := 27

  function Worlds(): seq<World> {
    seq(LAST + 1, k requires 0 <= k => At(k).world)
  }

  function Events(): seq<Event> {
    seq(LAST, k requires 0 <= k => At(k).event)
  }

  ghost predicate StepAt(k: nat) {
    Next(At(k).world, At(k + 1).world, At(k).event)
  }

  lemma RunStep(db: Db, txs: map<TxId, Tx>, t: TxId, pick: string, after: Tx)
    requires t in txs && Ran(db, txs[t], pick, after)
    requires forall u :: u in txs && u != t ==> txs[u].w == NOTHING
    ensures Next(World(db, txs), World(db, txs[t := after]), Run(t, pick))
  {
    hide Exec;
  }

  lemma BeginStep(db: Db, txs: map<TxId, Tx>, t: TxId, op: Op)
    requires t !in txs && CanBegin(db, op)
    ensures Next(World(db, txs), World(db, txs[t := Begun(op)]), Begin(t, op))
  {
  }

  lemma CommitStep(db: Db, txs: map<TxId, Tx>, t: TxId, after: Db)
    requires t in txs && StmtAt(txs[t].op, txs[t].pc).Done? && View(db, txs[t].w) == after
    ensures Next(World(db, txs), World(after, txs - {t}), Commit(t))
  {
  }

  lemma PlacingBegins()
    ensures StepAt(0)
  {
    var s := At(0).world;
    BeginStep(START, s.txs, 0, PLACE);
    assert At(1).world.txs == s.txs[0 := Begun(PLACE)];
  }

  /** A lone transaction runs a statement. */
  lemma AloneRuns(db: Db, before: Tx, pick: string, after: Tx)
    requires Ran(db, before, pick, after)
    ensures Next(World(db, map[0 := before]), World(db, map[0 := after]), Run(0, pick))
  {
    hide Exec, View;
    var txs: map<TxId, Tx> := map[0 := before];
    RunStep(db, txs, 0, pick, after);
    assert txs[0 := after] == map[0 := after];
  }

  lemma AloneCommits(db: Db, tx: Tx, after: Db)
    requires StmtAt(tx.op, tx.pc).Done? && View(db, tx.w) == after
    ensures Next(World(db, map[0 := tx]), World(after, map[]), Commit(0))
  {
    hide View;
    var txs: map<TxId, Tx> := map[0 := tx];
    CommitStep(db, txs, 0, after);
    assert txs - {0} == map[];
  }

  lemma PlacingRuns(k: nat)
    requires 1 <= k <= 3
    ensures StepAt(k)
  {
    PlacingReserves();
    PlacingInserts();
    PlacingLinks();
    hide Exec, Placing, View, Next;
    AloneRuns(START, Placing(k - 1), At(k).event.pick, Placing(k));
  }

  lemma PlacingCommits()
    ensures StepAt(4)
  {
    PlacingEnds();
    assert Placing(3).op == PLACE && Placing(3).pc == 3;
    hide View, Placing, Next;
    AloneCommits(START, Placing(3), Tables(5, 1, HELD, Pending));
  }

  lemma MovingBegins(k: nat)
    requires k == 5 || k == 8
    ensures StepAt(k)
  {
    var s, s' := At(k).world, At(k + 1).world;
    hide Exec, View;
    BeginStep(s.db, s.txs, 0, At(k).event.op);
    assert s'.txs == s.txs[0 := Begun(At(k).event.op)];
  }

  lemma MovingCommits(k: nat)
    requires k == 7 || k == 11
    ensures StepAt(k)
  {
    MovingRuns();
    hide Exec, View, Next;
    if k == 7 {
      AloneCommits(Tables(5, 1, HELD, Pending), Moving(PAY, 1, Processing), Tables(5, 1, HELD, Processing));
    } else {
      AloneCommits(Tables(5, 1, HELD, Processing), Moving(READY, 2, ReadyForPickup), SHELF);
    }
  }

  lemma MovingSteps(k: nat)
    requires k == 6 || k == 9 || k == 10
    ensures StepAt(k)
  {
    MovingRuns();
    hide Exec, View, Next;
    if k == 6 {
      AloneRuns(Tables(5, 1, HELD, Pending), Begun(PAY), "", Moving(PAY, 1, Processing));
    } else if k == 9 {
      AloneRuns(Tables(5, 1, HELD, Processing), Begun(READY), "", Begun(READY).(pc := 1));
    } else {
      AloneRuns(Tables(5, 1, HELD, Processing), Begun(READY).(pc := 1), "", Moving(READY, 2, ReadyForPickup));
    }
  }

  /** Both validate. */
  lemma BothValidate(k: nat)
    requires 12 <= k < 16
    ensures StepAt(k)
  {
    var s, s' := At(k).world, At(k + 1).world;
    FirstRuns();
    SecondValidates();
    hide Exec, View;
    if k == 12 {
      BeginStep(SHELF, s.txs, 0, SELL);
      assert s'.txs == s.txs[0 := First(0)];
    } else if k == 13 {
      RunStep(SHELF, s.txs, 0, "", First(1));
      assert s'.txs == s.txs[0 := First(1)];
    } else if k == 14 {
      BeginStep(SHELF, s.txs, 1, SELL);
      assert s'.txs == s.txs[1 := Second(0)];
    } else {
      RunStep(SHELF, s.txs, 1, "", Second(1));
      assert s'.txs == s.txs[1 := Second(1)];
    }
  }

  lemma SecondValidates()
    ensures Ran(SHELF, Second(0), "", Second(1))
  {
    assert View(SHELF, NOTHING) == SHELF;
  }

  /** The world while the first runs. */
  function Racing(step: nat): World {
    World(SHELF, map[0 := First(step), 1 := Second(1)])
  }

  lemma RaceStep(step: nat, pick: string)
    requires Ran(SHELF, First(step), pick, First(step + 1)) && Second(1).w == NOTHING
    ensures Next(Racing(step), Racing(step + 1), Run(0, pick))
  {
    hide Exec, View, First, Second;
    var s := Racing(step);
    RunStep(SHELF, s.txs, 0, pick, First(step + 1));
    assert s.txs[0 := First(step + 1)] == Racing(step + 1).txs;
  }

  lemma FirstSteps(k: nat)
    requires 16 <= k < 21
    ensures StepAt(k)
  {
    FirstRuns();
    FirstClaims();
    FirstCredits();
    assert Second(1).w == NOTHING;
    assert At(k) == Moment(Racing(k - 15), Run(0, if k == 18 then "item" else "")) && At(k + 1).world == Racing(k - 14);
    hide Exec, First, Second, At, Next, Racing;
    RaceStep(k - 15, if k == 18 then "item" else "");
  }

  lemma FirstCommits()
    ensures StepAt(21)
  {
    FirstRuns();
    assert First(6).op == SELL && First(6).pc == 5;
    hide View, First, Second, Next;
    var txs: map<TxId, Tx> := map[0 := First(6), 1 := Second(1)];
    CommitStep(SHELF, txs, 0, ONCE);
    assert map[1 := Second(1)] == txs - {0};
  }

  lemma SecondSteps(k: nat)
    requires 22 <= k < 27
    ensures StepAt(k)
  {
    var s, s' := At(k).world, At(k + 1).world;
    SecondRuns();
    SecondClaims();
    hide Exec, View;
    if k == 26 {
      CommitStep(ONCE, s.txs, 1, TWICE);
      assert s'.txs == s.txs - {1};
    } else {
      RunStep(ONCE, s.txs, 1, "", s'.txs[1]);
      assert s'.txs == s.txs[1 := s'.txs[1]];
    }
  }

  lemma EveryStep(k: nat)
    requires k < LAST
    ensures StepAt(k)
  {
    if k == 0 {
      PlacingBegins();
    } else if k <= 3 {
      PlacingRuns(k);
    } else if k == 4 {
      PlacingCommits();
    } else if k == 5 || k == 8 {
      MovingBegins(k);
    } else if k == 7 || k == 11 {
      MovingCommits(k);
    } else if k < 12 {
      MovingSteps(k);
    } else if k < 16 {
      BothValidate(k);
    } else if k < 21 {
      FirstSteps(k);
    } else if k == 21 {
      FirstCommits();
    } else {
      SecondSteps(k);
    }
  }

  /** Two completions validated before either commits take one order's goods twice: five on the shelf become three. */
  lemma RacingCompletionsSellTwice()
    ensures IsRun(Worlds(), Events())
    ensures Completes(Worlds()[21], Events()[21], "order") && Completes(Worlds()[26], Events()[26], "order")
    ensures var validated := Worlds()[16];
      validated.txs == map[0 := Begun(SELL).(pc := 1), 1 := Begun(SELL).(pc := 1)] &&
      validated.db.orders["order"].status.ReadyForPickup? && validated.db.stock["item"].onHand == 5
    ensures Worlds()[LAST].db.stock["item"].onHand == 3
  {
    forall k | 0 <= k < LAST
      ensures StepAt(k)
    {
      EveryStep(k);
    }
    hide Next, At;
    Starts();
    forall k | 0 <= k < |Events()|
      ensures Next(Worlds()[k], Worlds()[k + 1], Events()[k])
    {
      assert StepAt(k);
    }
  }

  lemma Starts()
    ensures Init(At(0).world)
    ensures Completes(At(21).world, At(21).event, "order") && Completes(At(26).world, At(26).event, "order")
    ensures At(16).world == World(SHELF, map[0 := Begun(SELL).(pc := 1), 1 := Begun(SELL).(pc := 1)])
    ensures At(27).world.db == TWICE
  {
  }
}
