/** `runOnce`: a claim that expires, a done mark that lasts, and what they keep apart. */
module Idempotency {
  import opened Common

  type WorkerId = nat

  const CLAIM_SECONDS := 60
  const DONE_SECONDS := 7 * 24 * 60 * 60

  datatype Value = Running | Done

  /** The key as Redis stores it; an entry past its expiry is not there. */
  datatype Entry = Entry(state: Value, expiresAt: int)

  predicate Live(cell: Option<Entry>, now: int) {
    cell.Some? && now < cell.value.expiresAt
  }

  // ---- one call -----------------------------------------------------------------------

  datatype Outcome = Ran | AlreadyDone | InProgress | Failed

  /** What the world does to one call: which Redis calls fail, and whether `fn` succeeds. */
  datatype Luck = Luck(connected: bool, claimFails: bool, getFails: bool, fnFails: bool, delFails: bool, markFails: bool)

  class Redis {
    var cell: Option<Entry>

    constructor ()
      ensures cell == None
    {
      cell := None;
    }

    /** SET NX EX. */
    method SetIfAbsent(entry: Entry, now: int) returns (claimed: bool)
      modifies this
      ensures claimed == !Live(old(cell), now)
      ensures cell == if claimed then Some(entry) else old(cell)
    {
      claimed := !Live(cell, now);
      if claimed {
        cell := Some(entry);
      }
    }
  }

  /**
   * One call with nobody else at the key, started at `now` and finishing `fn` at `end`. It runs
   * `fn` exactly when the key is free or Redis cannot be asked, and leaves the key done after
   * success, free after failure, and untouched when it did not claim it.
   */
  method RunOnce(redis: Redis, now: int, end: int, luck: Luck) returns (outcome: Outcome, fnRuns: nat)
    requires now <= end
    modifies redis
    ensures var checked := luck.connected && !luck.claimFails;
      var free := !Live(old(redis.cell), now);
      fnRuns == (if !checked || free then 1 else 0) &&
      (outcome.Ran? || outcome.Failed? <==> fnRuns == 1) &&
      (fnRuns == 1 ==> (outcome.Failed? <==> luck.fnFails)) &&
      (outcome.AlreadyDone? <==> fnRuns == 0 && old(redis.cell).value.state.Done? && !luck.getFails) &&
      redis.cell ==
        (if !checked || !free then old(redis.cell)
         else if outcome.Ran? && !luck.markFails then Some(Entry(Done, end + DONE_SECONDS))
         else if outcome.Failed? && !luck.delFails then None
         else Some(Entry(Running, now + CLAIM_SECONDS)))
  {
    fnRuns := 0;
    if !luck.connected {
      fnRuns := fnRuns + 1;
      return if luck.fnFails then Failed else Ran, fnRuns;
    }
    if luck.claimFails {
      fnRuns := fnRuns + 1;
      return if luck.fnFails then Failed else Ran, fnRuns;
    }
    var claimed := redis.SetIfAbsent(Entry(Running, now + CLAIM_SECONDS), now);
    if !claimed {
      var state := if luck.getFails then None else Some(redis.cell.value.state);
      if state == Some(Done) {
        return AlreadyDone, fnRuns;
      }
      return InProgress, fnRuns;
    }
    fnRuns := fnRuns + 1;
    if luck.fnFails {
      if !luck.delFails {
        redis.cell := None;
      }
      return Failed, fnRuns;
    }
    if !luck.markFails {
      redis.cell := Some(Entry(Done, end + DONE_SECONDS));
    }
    outcome := Ran;
  }

  // ---- many workers -------------------------------------------------------------------

  /** `since` is when the worker claimed the key. */
  datatype Phase =
    | Inside(since: int)
    | Failing(since: int)
    | Finishing(since: int)
    | Refused
    | Unchecked

  /** `owner` is who claimed the entry; Redis does not store it. */
  datatype World = World(now: int, cell: Option<Entry>, owner: WorkerId, phases: map<WorkerId, Phase>)

  datatype Step =
    | Tick(seconds: nat)
    | Claim(w: WorkerId)
    | ClaimThrows(w: WorkerId)
    | Look(w: WorkerId)
    | FnFails(w: WorkerId)
    | FnSucceeds(w: WorkerId)
    | Release(w: WorkerId, fails: bool)
    | MarkDone(w: WorkerId, fails: bool)
    | Crash(w: WorkerId)

  ghost predicate Next(s: World, s': World, e: Step) {
    match e
    case Tick(d) => s' == s.(now := s.now + d)
    case Claim(w) =>
      w !in s.phases &&
      s' == if Live(s.cell, s.now) then s.(phases := s.phases[w := Refused])
            else s.(cell := Some(Entry(Running, s.now + CLAIM_SECONDS)), owner := w, phases := s.phases[w := Inside(s.now)])
    case ClaimThrows(w) =>
      w !in s.phases && s' == s.(phases := s.phases[w := Unchecked])
    case Look(w) =>
      w in s.phases && s.phases[w].Refused? && s' == s.(phases := s.phases - {w})
    case FnFails(w) =>
      w in s.phases && s.phases[w].Inside? && s' == s.(phases := s.phases[w := Failing(s.phases[w].since)])
    case FnSucceeds(w) =>
      w in s.phases && s.phases[w].Inside? && s' == s.(phases := s.phases[w := Finishing(s.phases[w].since)])
    case Release(w, fails) =>
      w in s.phases && s.phases[w].Failing? &&
      s' == s.(cell := if fails then s.cell else None, phases := s.phases - {w})
    case MarkDone(w, fails) =>
      w in s.phases && s.phases[w].Finishing? &&
      s' == s.(cell := if fails then s.cell else Some(Entry(Done, s.now + DONE_SECONDS)), phases := s.phases - {w})
    case Crash(w) =>
      w in s.phases && s' == s.(phases := s.phases - {w})
  }

  /** Holding the claim: `fn` is running, or its result has not reached Redis yet. */
  predicate Holding(s: World, w: WorkerId) {
    w in s.phases && (s.phases[w].Inside? || s.phases[w].Failing? || s.phases[w].Finishing?)
  }

  predicate InFn(s: World, w: WorkerId) {
    w in s.phases && (s.phases[w].Inside? || s.phases[w].Unchecked?)
  }

  /** The worker still holds the claim although its time has run out. */
  predicate Overstays(s: World, w: WorkerId) {
    Holding(s, w) && s.phases[w].since + CLAIM_SECONDS <= s.now
  }

  /** A run in which Redis answers every claim. */
  ghost predicate IsRun(run: seq<World>, es: seq<Step>) {
    |run| == |es| + 1 && run[0].cell.None? && run[0].phases == map[] &&
    forall k :: 0 <= k < |es| ==> Next(run[k], run[k + 1], es[k]) && !es[k].ClaimThrows?
  }

  /** Up to `n`, nobody asks for the key while a holder overstays. */
  ghost predicate NoLateClaim(run: seq<World>, es: seq<Step>, n: nat) {
    n <= |es| <= |run| && forall k, w :: 0 <= k < n && es[k].Claim? ==> !Overstays(run[k], w)
  }

  /** A worker that holds the claim owns the entry, which still says so. */
  predicate Owns(s: World, w: WorkerId) {
    Holding(s, w) ==> w == s.owner && s.cell == Some(Entry(Running, s.phases[w].since + CLAIM_SECONDS))
  }

  /** Nobody runs unchecked, and a claim lasts no longer than its time. */
  ghost predicate Inv(s: World) {
    (forall w :: Owns(s, w)) &&
    (forall w :: w in s.phases ==> !s.phases[w].Unchecked?) &&
    (s.cell.Some? && s.cell.value.state.Running? ==> s.cell.value.expiresAt <= s.now + CLAIM_SECONDS)
  }

  lemma NextInv(s: World, s': World, e: Step)
    requires Inv(s) && Next(s, s', e) && !e.ClaimThrows? && (e.Claim? ==> forall w :: !Overstays(s, w))
    ensures Inv(s')
  {
    forall w
      ensures Owns(s', w)
    {
      assert Owns(s, w);
      match e
      case Claim(u) => assert !Overstays(s, w);
      case Release(u, _) => assert Owns(s, u);
      case MarkDone(u, _) => assert Owns(s, u);
      case _ =>
    }
  }

  lemma {:induction false} RunsKeepInv(run: seq<World>, es: seq<Step>, k: nat)
    requires IsRun(run, es) && NoLateClaim(run, es, k)
    ensures Inv(run[k])
    decreases k
  {
    if k > 0 {
      RunsKeepInv(run, es, k - 1);
      NextInv(run[k - 1], run[k], es[k - 1]);
    }
  }

  // ---- main results -------------------------------------------------------------------

  /** Inside `fn`, or between `fn` and its mark. */
  predicate Busy(s: World, w: WorkerId) {
    InFn(s, w) || Holding(s, w)
  }

  ghost predicate Alone(s: World) {
    forall u, w :: Busy(s, u) && Busy(s, w) ==> u == w
  }

  lemma BusyOwns(s: World, w: WorkerId)
    requires Inv(s) && Busy(s, w)
    ensures Holding(s, w) && w == s.owner && s.cell == Some(Entry(Running, s.phases[w].since + CLAIM_SECONDS))
  {
    assert Owns(s, w);
  }

  /** Nobody else is busy at the key unless somebody asked for it while a holder overstayed. */
  lemma Exclusion(run: seq<World>, es: seq<Step>, k: nat)
    requires IsRun(run, es) && NoLateClaim(run, es, k)
    ensures Alone(run[k])
  {
    RunsKeepInv(run, es, k);
    forall w | Busy(run[k], w)
      ensures w == run[k].owner
    {
      BusyOwns(run[k], w);
    }
  }

  /**
   * Over every run in which Redis answers: up to `n` no two workers are ever busy at the key
   * exactly when nobody asked for it while a holder overstayed.
   */
  lemma {:induction false} ExclusionExactly(run: seq<World>, es: seq<Step>, n: nat)
    requires IsRun(run, es) && n <= |es|
    ensures (forall k :: 0 <= k <= n ==> Alone(run[k])) <==> NoLateClaim(run, es, n)
    decreases n
  {
    if NoLateClaim(run, es, n) {
      forall k: nat | k <= n
        ensures Alone(run[k])
      {
        Exclusion(run, es, k);
      }
    } else {
      ExclusionExactly(run, es, n - 1);
      if NoLateClaim(run, es, n - 1) {
        RunsKeepInv(run, es, n - 1);
        var w :| Overstays(run[n - 1], w);
        BusyOwns(run[n - 1], w);
        assert Next(run[n - 1], run[n], es[n - 1]);
        assert Busy(run[n], w) && Busy(run[n], es[n - 1].w);
      }
    }
  }

  /** Until a late claim, a worker only ever releases or marks its own claim, in force exactly until it overstays. */
  lemma OnlyOwnClaim(run: seq<World>, es: seq<Step>, k: nat)
    requires IsRun(run, es) && k < |es| && NoLateClaim(run, es, k) && (es[k].Release? || es[k].MarkDone?)
    ensures run[k].owner == es[k].w && run[k].cell.Some? && run[k].cell.value.state.Running?
    ensures Live(run[k].cell, run[k].now) <==> !Overstays(run[k], es[k].w)
  {
    RunsKeepInv(run, es, k);
    assert Next(run[k], run[k + 1], es[k]);
    assert Owns(run[k], es[k].w);
  }

  /** While a done mark lasts it stays as it is, and nobody is inside `fn`. */
  lemma {:induction false} DoneLasts(run: seq<World>, es: seq<Step>, j: nat, k: nat)
    requires IsRun(run, es) && j <= k && NoLateClaim(run, es, k)
    requires run[j].cell.Some? && run[j].cell.value.state.Done? && run[k].now < run[j].cell.value.expiresAt
    ensures run[k].cell == run[j].cell && forall w :: !Busy(run[k], w)
    decreases k
  {
    RunsKeepInv(run, es, k);
    if j < k {
      assert run[k - 1].now <= run[k].now by { assert Next(run[k - 1], run[k], es[k - 1]); }
      DoneLasts(run, es, j, k - 1);
      assert es[k - 1].Tick? || !Busy(run[k - 1], es[k - 1].w);
    }
    forall w
      ensures !Busy(run[k], w)
    {
      if Busy(run[k], w) {
        BusyOwns(run[k], w);
      }
    }
  }

  /** Marking done at time t means no call runs `fn` before t + DONE_SECONDS. */
  lemma DoneOnce(run: seq<World>, es: seq<Step>, j: nat, k: nat, w: WorkerId)
    requires IsRun(run, es) && j < k && NoLateClaim(run, es, k) && es[j].MarkDone? && !es[j].fails
    requires run[k].now < run[j].now + 7 * 24 * 60 * 60
    ensures !InFn(run[k], w)
  {
    DoneLasts(run, es, j + 1, k);
    assert !Busy(run[k], w);
  }

  /** A failed run that reaches Redis frees the key; after any other ending it frees itself in a minute. */
  lemma Claimable(run: seq<World>, es: seq<Step>, k: nat)
    requires IsRun(run, es) && k < |es| && NoLateClaim(run, es, k)
    ensures es[k].Release? && !es[k].fails ==> !Live(run[k + 1].cell, run[k + 1].now)
    ensures run[k].cell.Some? && run[k].cell.value.state.Running? ==> !Live(run[k].cell, run[k].now + 60)
  {
    RunsKeepInv(run, es, k);
  }

  /**
   * Time is what keeps workers apart: with a worker inside and no late claim so far, waiting lets a
   * second worker in exactly when the wait outlives the first one's claim.
   */
  lemma OverstayLetsAnotherIn(run: seq<World>, es: seq<Step>, k: nat, w: WorkerId, u: WorkerId, wait: nat, late: World, after: World)
    requires IsRun(run, es) && NoLateClaim(run, es, k) && u !in run[k].phases && w in run[k].phases && run[k].phases[w].Inside?
    requires Next(run[k], late, Tick(wait)) && Next(late, after, Claim(u))
    ensures InFn(after, w)
    ensures InFn(after, u) <==> run[k].now + wait >= run[k].phases[w].since + 60
  {
    RunsKeepInv(run, es, k);
    BusyOwns(run[k], w);
  }

  /** And then the first one's failure frees the second one's claim for a third. */
  lemma OverstayFreesAnothersClaim()
    ensures exists s0, s1, s2, s3, s4, s5, s6: World ::
      Next(s0, s1, Claim(0)) && Next(s1, s2, Tick(60)) && Next(s2, s3, Claim(1)) && Next(s3, s4, FnFails(0)) &&
      Next(s4, s5, Release(0, false)) && Next(s5, s6, Claim(2)) &&
      s0.phases == map[] && s0.cell.None? && InFn(s6, 1) && InFn(s6, 2)
  {
    var s0 := World(0, None, 0, map[]);
    var s1 := World(0, Some(Entry(Running, 60)), 0, map[0 := Inside(0)]);
    var s2 := s1.(now := 60);
    var s3 := World(60, Some(Entry(Running, 120)), 1, s2.phases[1 := Inside(60)]);
    var s4 := s3.(phases := s3.phases[0 := Failing(0)]);
    var s5 := s4.(cell := None, phases := s4.phases - {0});
    var s6 := World(60, Some(Entry(Running, 120)), 2, s5.phases[2 := Inside(60)]);
    assert Next(s0, s1, Claim(0)) && Next(s1, s2, Tick(60)) && Next(s2, s3, Claim(1)) && Next(s3, s4, FnFails(0));
    assert Next(s4, s5, Release(0, false)) && Next(s5, s6, Claim(2));
  }
}
