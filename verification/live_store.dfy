/** The live index in Redis under many replicas: pings refresh it, sweeps claim what has gone silent. */
module LiveStore {
  import opened Common
  import opened LiveMap

  type Instant = int
  type Replica = nat

  const LIVE_TTL_MS := 60 * 1000

  /** The GEO set and the last-seen scores; a ping writes both in one transaction. */
  datatype Index = Index(geo: Positions, seen: map<VehicleId, Instant>)

  /** A sweep that has read the silent members, then their positions, and claims them one by one. */
  datatype Sweep =
    | Ranged(cutoff: Instant, ids: set<VehicleId>)
    | Located(cutoff: Instant, ids: set<VehicleId>, positions: Positions)

  datatype World = World(now: Instant, index: Index, sweeps: map<Replica, Sweep>)

  /** What a step announces: a vehicle removed, and where it was. */
  datatype Step =
    | Tick(ms: nat)
    | Put(id: VehicleId, at: Position)
    | Drop(id: VehicleId)
    | ReadRange(r: Replica)
    | ReadPositions(r: Replica)
    | Claim(r: Replica, id: VehicleId)
    | EndSweep(r: Replica)

  // ---- the atomic effects -------------------------------------------------------------

  function PutLive(x: Index, id: VehicleId, at: Position, now: Instant): Index {
    Index(x.geo[id := at], x.seen[id := now])
  }

  function Forget(x: Index, id: VehicleId): Index {
    Index(x.geo - {id}, x.seen - {id})
  }

  function SilentSince(x: Index, cutoff: Instant): set<VehicleId> {
    set id | id in x.seen && x.seen[id] <= cutoff
  }

  /** The claim script's test: still there, and not refreshed since the cutoff. */
  predicate Wins(x: Index, id: VehicleId, cutoff: Instant) {
    id in x.seen && x.seen[id] <= cutoff
  }

  function Claimed(x: Index, id: VehicleId, cutoff: Instant): Index {
    if Wins(x, id, cutoff) then Forget(x, id) else x
  }

  ghost predicate Next(s: World, s': World, e: Step) {
    match e
    case Tick(ms) => s' == s.(now := s.now + ms)
    case Put(id, at) => s' == s.(index := PutLive(s.index, id, at, s.now))
    case Drop(id) => s' == s.(index := Forget(s.index, id))
    case ReadRange(r) =>
      r !in s.sweeps &&
      var cutoff := s.now - LIVE_TTL_MS;
      s' == s.(sweeps := s.sweeps[r := Ranged(cutoff, SilentSince(s.index, cutoff))])
    case ReadPositions(r) =>
      r in s.sweeps && s.sweeps[r].Ranged? &&
      s' == s.(sweeps := s.sweeps[r := Located(s.sweeps[r].cutoff, s.sweeps[r].ids, Restricted(s.index.geo, s.sweeps[r].ids))])
    case Claim(r, id) =>
      r in s.sweeps && s.sweeps[r].Located? && id in s.sweeps[r].ids &&
      s' == s.(index := Claimed(s.index, id, s.sweeps[r].cutoff),
               sweeps := s.sweeps[r := s.sweeps[r].(ids := s.sweeps[r].ids - {id})])
    case EndSweep(r) =>
      r in s.sweeps && s' == s.(sweeps := s.sweeps - {r})
  }

  function Restricted(geo: Positions, ids: set<VehicleId>): Positions {
    map id | id in ids && id in geo :: geo[id]
  }

  ghost predicate IsRun(run: seq<World>, es: seq<Step>) {
    |run| == |es| + 1 && run[0].index == Index(map[], map[]) && run[0].sweeps == map[] &&
    forall k :: 0 <= k < |es| ==> Next(run[k], run[k + 1], es[k])
  }

  // ---- the invariant ------------------------------------------------------------------

  ghost predicate CutoffPast(sweep: Sweep, now: Instant) {
    sweep.cutoff < now
  }

  /** A vehicle the sweep can still claim has not moved since its position was read. */
  ghost predicate Fresh(x: Index, sweep: Sweep) {
    sweep.Located? ==> forall id :: id in sweep.ids && Wins(x, id, sweep.cutoff) ==>
      id in x.geo && id in sweep.positions && sweep.positions[id] == x.geo[id]
  }

  ghost predicate Inv(s: World) {
    s.index.geo.Keys == s.index.seen.Keys &&
    (forall r :: r in s.sweeps ==> CutoffPast(s.sweeps[r], s.now) && Fresh(s.index, s.sweeps[r]))
  }

  lemma NextInv(s: World, s': World, e: Step)
    requires Inv(s) && Next(s, s', e)
    ensures Inv(s')
  {
    forall r | r in s'.sweeps
      ensures CutoffPast(s'.sweeps[r], s'.now) && Fresh(s'.index, s'.sweeps[r])
    {
      if r in s.sweeps {
        assert CutoffPast(s.sweeps[r], s.now) && Fresh(s.index, s.sweeps[r]);
      }
    }
  }

  lemma {:induction false} RunsKeepInv(run: seq<World>, es: seq<Step>, k: nat)
    requires IsRun(run, es) && k < |run|
    ensures Inv(run[k])
    decreases k
  {
    if k > 0 {
      RunsKeepInv(run, es, k - 1);
      NextInv(run[k - 1], run[k], es[k - 1]);
    }
  }

  /** A claim that gets the vehicle. */
  ghost predicate Gets(s: World, e: Step, id: VehicleId) {
    e.Claim? && e.id == id && e.r in s.sweeps && Wins(s.index, id, s.sweeps[e.r].cutoff)
  }

  // ---- main results -------------------------------------------------------------------

  /** A claim announces the vehicle's last position, whatever other replicas did meanwhile. */
  lemma ClaimKnowsLastPosition(run: seq<World>, es: seq<Step>, k: nat, id: VehicleId)
    requires IsRun(run, es) && k < |es| && Gets(run[k], es[k], id)
    ensures var s, sweep := run[k], run[k].sweeps[es[k].r];
      id in s.index.geo && sweep.Located? && id in sweep.positions && sweep.positions[id] == s.index.geo[id]
    ensures id !in run[k + 1].index.seen && id !in run[k + 1].index.geo
  {
    RunsKeepInv(run, es, k);
    assert Next(run[k], run[k + 1], es[k]);
    assert Fresh(run[k].index, run[k].sweeps[es[k].r]);
  }

  /** A sweep already under way never removes a vehicle that has pinged since it started. */
  lemma {:induction false} PingIsSafe(run: seq<World>, es: seq<Step>, i: nat, k: nat, id: VehicleId, r: Replica)
    requires IsRun(run, es) && i < k < |es| && es[i].Put? && es[i].id == id
    requires r in run[i].sweeps && forall j :: i <= j <= k ==> r in run[j].sweeps
    ensures run[k].sweeps[r].cutoff == run[i].sweeps[r].cutoff
    ensures id in run[k].index.seen ==> run[k].index.seen[id] > run[i].sweeps[r].cutoff
    ensures !(es[k].Claim? && es[k].r == r && Gets(run[k], es[k], id))
    decreases k
  {
    hide Fresh, Restricted, SilentSince;
    RunsKeepInv(run, es, i);
    assert CutoffPast(run[i].sweeps[r], run[i].now);
    RunsKeepInv(run, es, k - 1);
    assert CutoffPast(run[k - 1].sweeps[r], run[k - 1].now);
    assert Next(run[k - 1], run[k], es[k - 1]);
    if i < k - 1 {
      PingIsSafe(run, es, i, k - 1, id, r);
    }
  }

  /** Without a ping, a vehicle once off the index stays off it. */
  lemma {:induction false} StaysGone(run: seq<World>, es: seq<Step>, i: nat, k: nat, id: VehicleId)
    requires IsRun(run, es) && i <= k < |run| && id !in run[i].index.seen
    requires forall j :: i <= j < k ==> !(es[j].Put? && es[j].id == id)
    ensures id !in run[k].index.seen
    decreases k
  {
    if i < k {
      StaysGone(run, es, i, k - 1, id);
      assert Next(run[k - 1], run[k], es[k - 1]);
    }
  }

  /** Between two successful claims of a vehicle, by any replicas, there is a ping from it. */
  lemma ClaimedOncePerSilence(run: seq<World>, es: seq<Step>, i: nat, k: nat, id: VehicleId)
    requires IsRun(run, es) && i < k < |es| && Gets(run[i], es[i], id) && Gets(run[k], es[k], id)
    ensures exists j :: i < j < k && es[j].Put? && es[j].id == id
  {
    if forall j :: i < j < k ==> !(es[j].Put? && es[j].id == id) {
      ClaimKnowsLastPosition(run, es, i, id);
      StaysGone(run, es, i + 1, k, id);
    }
  }

  function Pings(es: seq<Step>, id: VehicleId): nat {
    if es == [] then 0 else
      Pings(es[..|es| - 1], id) + if es[|es| - 1].Put? && es[|es| - 1].id == id then 1 else 0
  }

  ghost function Announced(run: seq<World>, es: seq<Step>, id: VehicleId): nat
    requires |run| == |es| + 1
  {
    if es == [] then 0 else
      var n := |es| - 1;
      Announced(run[..|es|], es[..n], id) + if Gets(run[n], es[n], id) then 1 else 0
  }

  function PingsAt(es: seq<Step>, id: VehicleId): set<nat> {
    set j: nat | j < |es| && es[j].Put? && es[j].id == id
  }

  ghost function ClaimsAt(run: seq<World>, es: seq<Step>, id: VehicleId): set<nat>
    requires |run| == |es| + 1
  {
    set j: nat | j < |es| && Gets(run[j], es[j], id)
  }

  /** The two counts are the numbers of those steps. */
  lemma {:induction false} PingsAre(es: seq<Step>, id: VehicleId)
    ensures Pings(es, id) == |PingsAt(es, id)|
    decreases |es|
  {
    if es != [] {
      var n := |es| - 1;
      PingsAre(es[..n], id);
      assert PingsAt(es, id) == PingsAt(es[..n], id) + if es[n].Put? && es[n].id == id then {n} else {};
    }
  }

  lemma {:induction false} ClaimsAre(run: seq<World>, es: seq<Step>, id: VehicleId)
    requires |run| == |es| + 1
    ensures Announced(run, es, id) == |ClaimsAt(run, es, id)|
    decreases |es|
  {
    if es != [] {
      hide Gets;
      var n := |es| - 1;
      ClaimsAre(run[..|es|], es[..n], id);
      assert ClaimsAt(run, es, id) == ClaimsAt(run[..|es|], es[..n], id) + if Gets(run[n], es[n], id) then {n} else {};
    }
  }

  /** Over a whole run, a vehicle is announced removed by sweeps at most once for each of its pings. */
  lemma {:induction false} AnnouncedAtMostOncePerPing(run: seq<World>, es: seq<Step>, id: VehicleId)
    requires IsRun(run, es)
    ensures Announced(run, es, id) + (if id in run[|es|].index.seen then 1 else 0) <= Pings(es, id)
    ensures |ClaimsAt(run, es, id)| <= |PingsAt(es, id)|
    decreases |es|
  {
    PingsAre(es, id);
    ClaimsAre(run, es, id);
    if es != [] {
      var n := |es| - 1;
      assert IsRun(run[..|es|], es[..n]);
      AnnouncedAtMostOncePerPing(run[..|es|], es[..n], id);
      assert Next(run[n], run[n + 1], es[n]);
    }
  }

  // ---- silence --------------------------------------------------------------------------

  /** A sweep reads exactly the vehicles last heard from a minute ago or earlier. */
  lemma SweepReadsTheSilent(run: seq<World>, es: seq<Step>, k: nat, id: VehicleId)
    requires IsRun(run, es) && k < |es| && es[k].ReadRange?
    ensures es[k].r in run[k + 1].sweeps
    ensures id in run[k + 1].sweeps[es[k].r].ids <==> id in run[k].index.seen && run[k].now - run[k].index.seen[id] >= 60 * 1000
  {
    assert Next(run[k], run[k + 1], es[k]);
  }

  /** What the index says a vehicle was last heard from is the instant of its latest ping. */
  ghost predicate LatestPing(run: seq<World>, es: seq<Step>, j: nat, k: nat, id: VehicleId) {
    j < k <= |es| && |run| == |es| + 1 && es[j].Put? && es[j].id == id &&
    forall i :: j < i < k ==> !(es[i].Put? && es[i].id == id)
  }

  lemma {:induction false} SeenAtLatestPing(run: seq<World>, es: seq<Step>, k: nat, id: VehicleId) returns (j: nat)
    requires IsRun(run, es) && k < |run| && id in run[k].index.seen
    ensures LatestPing(run, es, j, k, id) && run[k].index.seen[id] == run[j].now
    decreases k
  {
    assert k > 0 && Next(run[k - 1], run[k], es[k - 1]);
    if es[k - 1].Put? && es[k - 1].id == id {
      j := k - 1;
    } else {
      j := SeenAtLatestPing(run, es, k - 1, id);
    }
  }

  lemma {:induction false} CutoffWasRead(run: seq<World>, es: seq<Step>, k: nat, r: Replica)
    requires IsRun(run, es) && k < |run| && r in run[k].sweeps
    ensures run[k].sweeps[r].cutoff <= run[k].now - 60 * 1000
    decreases k
  {
    assert k > 0 && Next(run[k - 1], run[k], es[k - 1]);
    if r in run[k - 1].sweeps {
      CutoffWasRead(run, es, k - 1, r);
    }
  }

  /** In every run, a sweep takes a vehicle only when its latest ping is a minute old. */
  lemma ClaimedAfterAMinute(run: seq<World>, es: seq<Step>, k: nat, id: VehicleId) returns (j: nat)
    requires IsRun(run, es) && k < |es| && Gets(run[k], es[k], id)
    ensures LatestPing(run, es, j, k, id) && run[k].now >= run[j].now + 60 * 1000
  {
    j := SeenAtLatestPing(run, es, k, id);
    CutoffWasRead(run, es, k, es[k].r);
  }
}
