/** The mobility service on one server: pings, drops and sweeps, and what they leave on every viewer's map. */
module Mobility {
  import opened Common
  import opened LiveMap
  import opened LiveStore

  /** A fix and when its key expires. */
  datatype Point = Point(at: Position, ts: Instant, expiresAt: Instant)

  datatype LocationError = TooVague | OlderThanLast | ImplausibleJump

  ghost predicate AllAgree(viewers: map<SocketId, Viewer>, last: Positions) {
    forall s :: s in viewers ==> Agrees(viewers[s], last)
  }

  /** Every viewer is told of a move. */
  ghost predicate AllTold(viewers: map<SocketId, Viewer>, last: Positions, id: VehicleId, at: Position, prev: Option<Position>) {
    forall s :: s in viewers ==> Told(viewers[s].joined, last, id, at, prev)
  }

  /** Positions and scores go together, and a point that has not expired is the position on the map. */
  ghost predicate Consistent(points: map<VehicleId, Point>, index: Index, clock: Instant) {
    index.geo.Keys == index.seen.Keys &&
    forall id :: id in points && clock < points[id].expiresAt ==>
      id in index.geo && index.geo[id] == points[id].at && points[id].expiresAt == index.seen[id] + LIVE_TTL_MS
  }

  lemma EmitMovedAgrees(viewers: map<SocketId, Viewer>, last: Positions, id: VehicleId, at: Position, prev: Option<Position>)
    requires AllAgree(viewers, last)
    ensures AllAgree(map s | s in viewers :: SeesMove(viewers[s], id, at, prev), last[id := at])
      <==> AllTold(viewers, last, id, at, prev)
  {
    hide Agrees, SeesMove, Told;
    var after := map s | s in viewers :: SeesMove(viewers[s], id, at, prev);
    forall s | s in viewers
      ensures Agrees(after[s], last[id := at]) <==> Told(viewers[s].joined, last, id, at, prev)
    {
      MoveAgrees(viewers[s], last, id, at, prev);
    }
  }

  lemma EmitRemovedAgrees(viewers: map<SocketId, Viewer>, last: Positions, id: VehicleId)
    requires AllAgree(viewers, last) && id in last
    ensures AllAgree(map s | s in viewers :: SeesRemoval(viewers[s], id, last[id]), last - {id})
  {
    hide Agrees, SeesRemoval;
    forall s | s in viewers
      ensures Agrees(SeesRemoval(viewers[s], id, last[id]), last - {id})
    {
      RemovalAgrees(viewers[s], last, id);
    }
  }

  /** A vehicle whose point has expired but which no sweep has claimed yet. */
  predicate Lingering(points: map<VehicleId, Point>, index: Index, id: VehicleId, now: Instant) {
    id in index.geo && !(id in points && now < points[id].expiresAt)
  }

  /** A fix may follow the last one: it is newer, and not an implausible jump away. */
  predicate Follows(prev: Option<Point>, timestamp: Instant, jumps: bool) {
    prev.Some? ==> timestamp > prev.value.ts && !jumps
  }

  class Service {
    var points: map<VehicleId, Point>
    var index: Index
    var clock: Instant
    const gateway: Gateway

    constructor (viewers: map<SocketId, Viewer>, now: Instant)
      requires forall s :: s in viewers ==> viewers[s].markers == map[]
      ensures Valid() && AllAgree(gateway.viewers, index.geo) && clock == now && index.geo == map[]
      ensures fresh(gateway)
    {
      points, index, clock := map[], Index(map[], map[]), now;
      gateway := new Gateway(viewers);
    }

    ghost predicate Valid()
      reads this
    {
      Consistent(points, index, clock)
    }

    /** The last fix, while it has not expired. */
    function GetLive(id: VehicleId, now: Instant): (point: Option<Point>)
      reads this
      ensures point.Some? && Valid() && clock <= now ==> id in index.geo && index.geo[id] == point.value.at
    {
      if id in points && now < points[id].expiresAt then Some(points[id]) else None
    }

    /**
     * One GPS fix. Every viewer's map stays right exactly when everyone watching only the cell the
     * vehicle left is told, and the fix always carries that unless the last one expired unswept.
     */
    method RecordLocation(id: VehicleId, at: Position, timestamp: Instant, tooVague: bool, jumps: bool, now: Instant)
        returns (result: Result<Point, LocationError>)
      requires Valid() && clock <= now && AllAgree(gateway.viewers, index.geo)
      modifies this, gateway
      ensures Valid() && clock == now
      ensures result.Err? ==> index == old(index) && points == old(points) && gateway.viewers == old(gateway.viewers)
      ensures result.Ok? <==> !tooVague && Follows(old(GetLive(id, now)), timestamp, jumps)
      ensures result.Ok? ==> index == PutLive(old(index), id, at, now) && GetLive(id, now) == Some(Point(at, timestamp, now + LIVE_TTL_MS))
      ensures result.Ok? ==>
        var prev := if old(GetLive(id, now)).Some? then Some(old(GetLive(id, now)).value.at) else None;
        AllAgree(gateway.viewers, index.geo) <==> AllTold(old(gateway.viewers), old(index).geo, id, at, prev)
      ensures !Lingering(old(points), old(index), id, now) ==> AllAgree(gateway.viewers, index.geo)
      ensures id !in old(index).geo || (id in old(points) && now < old(points)[id].expiresAt) ==> AllAgree(gateway.viewers, index.geo)
    {
      clock := now;
      if tooVague {
        return Err(TooVague);
      }
      var prev := GetLive(id, now);
      if prev.Some? {
        if timestamp <= prev.value.ts {
          return Err(OlderThanLast);
        }
        if jumps {
          return Err(ImplausibleJump);
        }
      }
      ghost var viewers, last := gateway.viewers, index.geo;
      var was := if prev.Some? then Some(prev.value.at) else None;
      var point := Point(at, timestamp, now + LIVE_TTL_MS);
      points := points[id := point];
      index := PutLive(index, id, at, now);
      gateway.EmitVehicleMoved(id, at, was);
      EmitMovedAgrees(viewers, last, id, at, was);
      result := Ok(point);
    }

    /** Take a vehicle off the map: found by its point, or by its place in the index once that has expired. */
    method DropLive(id: VehicleId, now: Instant)
      requires Valid() && clock <= now && AllAgree(gateway.viewers, index.geo)
      modifies this, gateway
      ensures Valid() && clock == now && index == Forget(old(index), id)
      ensures AllAgree(gateway.viewers, index.geo)
    {
      clock := now;
      var point := GetLive(id, now);
      var at := if point.Some? then Some(point.value.at)
                else if id in index.geo then Some(index.geo[id]) else None;
      ghost var viewers, last := gateway.viewers, index.geo;
      points := points - {id};
      index := Forget(index, id);
      if at.Some? {
        gateway.EmitVehicleRemoved(id, at.value);
        EmitRemovedAgrees(viewers, last, id);
      } else {
        assert last - {id} == last;
      }
    }

    /** Claim everything silent for a minute, one vehicle at a time. */
    method ClaimExpired(now: Instant) returns (claimed: seq<(VehicleId, Position)>)
      requires Valid() && clock <= now
      modifies this
      ensures Valid() && clock == now
      ensures index == Swept(old(index), SilentSince(old(index), now - LIVE_TTL_MS))
      ensures Lists(claimed, old(index).geo, SilentSince(old(index), now - LIVE_TTL_MS))
    {
      clock := now;
      var cutoff := now - LIVE_TTL_MS;
      var ids := SilentSince(index, cutoff);
      var positions := index.geo;
      ghost var before := index;
      claimed := [];
      var todo := ids;
      while todo != {}
        invariant todo <= ids && index == Swept(before, ids - todo)
        invariant Lists(claimed, positions, ids - todo)
        invariant Consistent(points, index, now) && clock == now
      {
        var id :| id in todo;
        var won := Wins(index, id, cutoff);
        assert ids - (todo - {id}) == ids - todo + {id};
        SweptOneMore(before, ids - todo, id);
        ListsOneMore(claimed, positions, ids - todo, id);
        index := Claimed(index, id, cutoff);
        if won && id in positions {
          claimed := claimed + [(id, positions[id])];
        }
        todo := todo - {id};
      }
      assert ids - todo == ids;
    }

    /** Each silent vehicle is claimed and its cell told; viewers agree again, and a second sweep finds nothing. */
    method SweepExpired(now: Instant) returns (count: nat)
      requires Valid() && clock <= now && AllAgree(gateway.viewers, index.geo)
      modifies this, gateway
      ensures Valid() && clock == now && AllAgree(gateway.viewers, index.geo)
      ensures index == Swept(old(index), SilentSince(old(index), now - LIVE_TTL_MS))
      ensures count == |SilentSince(old(index), now - LIVE_TTL_MS)|
      ensures SilentSince(index, now - LIVE_TTL_MS) == {}
      ensures forall id :: id in index.seen <==> id in old(index).seen && now - old(index).seen[id] < 60 * 1000
      ensures forall id :: id in index.seen ==> index.seen[id] == old(index).seen[id]
    {
      hide Lists, AllAgree;
      ghost var before := index;
      var expired := ClaimExpired(now);
      ghost var silent := SilentSince(before, now - LIVE_TTL_MS);
      ListsSize(expired, before.geo, silent);
      NothingGone(before.geo);
      for k := 0 to |expired|
        invariant AllAgree(gateway.viewers, before.geo - Ids(expired[..k]))
        invariant Valid() && clock == now && index == Swept(before, silent)
      {
        assert expired[..k + 1][..k] == expired[..k];
        ghost var viewers := gateway.viewers;
        ListedAt(expired, before.geo, silent, k);
        gateway.EmitVehicleRemoved(expired[k].0, expired[k].1);
        EmitRemovedAgrees(viewers, before.geo - Ids(expired[..k]), expired[k].0);
        assert before.geo - Ids(expired[..k]) - {expired[k].0} == before.geo - Ids(expired[..k + 1]);
      }
      assert expired[..|expired|] == expired;
      count := |expired|;
    }
  }

  // ---- sweeping as a whole ------------------------------------------------------------

  function Swept(x: Index, gone: set<VehicleId>): Index {
    Index(x.geo - gone, x.seen - gone)
  }

  lemma SweptOneMore(x: Index, gone: set<VehicleId>, id: VehicleId)
    ensures Swept(x, gone + {id}) == Forget(Swept(x, gone), id)
    ensures Swept(x, {}) == x
  {
    assert x.geo - (gone + {id}) == x.geo - gone - {id};
    assert x.seen - (gone + {id}) == x.seen - gone - {id};
    assert x.geo - {} == x.geo && x.seen - {} == x.seen;
  }

  lemma NothingGone(last: Positions)
    ensures last - Ids([]) == last
  {
  }

  function Ids(claimed: seq<(VehicleId, Position)>): set<VehicleId> {
    if claimed == [] then {} else Ids(claimed[..|claimed| - 1]) + {claimed[|claimed| - 1].0}
  }

  /** `claimed` names each of `ids` once, where it was. */
  ghost predicate Lists(claimed: seq<(VehicleId, Position)>, geo: Positions, ids: set<VehicleId>) {
    if claimed == [] then ids == {} else
      var last := claimed[|claimed| - 1];
      last.0 in ids && last.0 in geo && last.1 == geo[last.0] && Lists(claimed[..|claimed| - 1], geo, ids - {last.0})
  }

  lemma ListsOneMore(claimed: seq<(VehicleId, Position)>, geo: Positions, ids: set<VehicleId>, id: VehicleId)
    requires Lists(claimed, geo, ids) && id !in ids && id in geo
    ensures Lists(claimed + [(id, geo[id])], geo, ids + {id})
  {
    assert (claimed + [(id, geo[id])])[..|claimed|] == claimed;
    assert ids + {id} - {id} == ids;
  }

  lemma {:induction false} ListsSize(claimed: seq<(VehicleId, Position)>, geo: Positions, ids: set<VehicleId>)
    requires Lists(claimed, geo, ids)
    ensures |claimed| == |ids| && Ids(claimed) == ids
    decreases |claimed|
  {
    if claimed != [] {
      var n := |claimed| - 1;
      ListsSize(claimed[..n], geo, ids - {claimed[n].0});
    }
  }

  lemma {:induction false} ListedAt(claimed: seq<(VehicleId, Position)>, geo: Positions, ids: set<VehicleId>, k: nat)
    requires Lists(claimed, geo, ids) && k < |claimed|
    ensures claimed[k].0 in geo && claimed[k].1 == geo[claimed[k].0] && claimed[k].0 !in Ids(claimed[..k])
    decreases |claimed|
  {
    var n := |claimed| - 1;
    if k < n {
      ListedAt(claimed[..n], geo, ids - {claimed[n].0}, k);
      assert claimed[..n][..k] == claimed[..k];
    } else {
      ListsSize(claimed[..n], geo, ids - {claimed[n].0});
    }
  }
}
