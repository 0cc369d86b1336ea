/** The event table, and the service that fills it through the queue or directly. */
module Analytics {
  import opened Common
  import opened DomainEvents
  import opened Publisher

  const ANALYTICS_EVENT_RECORDED := "analytics.event.recorded"

  /** A row of the event table; the event id is unique where it is not null. */
  datatype Row = Row(eventId: Option<EventId>, payload: Payload)

  // ---- the insert ---------------------------------------------------------------------

  predicate HasId(rows: seq<Row>, id: EventId) {
    exists k :: 0 <= k < |rows| && rows[k].eventId == Some(id)
  }

  /** No two rows carry the same event id. */
  ghost predicate UniqueIds(rows: seq<Row>) {
    forall j, k :: 0 <= j < k < |rows| && rows[j].eventId.Some? ==> rows[j].eventId != rows[k].eventId
  }

  predicate Skipped(rows: seq<Row>, row: Row) {
    row.eventId.Some? && HasId(rows, row.eventId.value)
  }

  /** A multi-row insert that skips rows whose event id is stored, earlier rows of the same insert included. */
  function InsertMany(rows: seq<Row>, data: seq<Row>): seq<Row> {
    if data == [] then rows else
      var before := InsertMany(rows, data[..|data| - 1]);
      var last := data[|data| - 1];
      if Skipped(before, last) then before else before + [last]
  }

  lemma {:induction false} InsertKeepsRows(rows: seq<Row>, data: seq<Row>)
    ensures rows <= InsertMany(rows, data) && |InsertMany(rows, data)| <= |rows| + |data|
    decreases |data|
  {
    if data != [] {
      InsertKeepsRows(rows, data[..|data| - 1]);
    }
  }

  lemma {:induction false} InsertKeepsUnique(rows: seq<Row>, data: seq<Row>)
    requires UniqueIds(rows)
    ensures UniqueIds(InsertMany(rows, data))
    decreases |data|
  {
    if data != [] {
      InsertKeepsUnique(rows, data[..|data| - 1]);
    }
  }

  /** A stored row is an old one, or one of the inserted ones; nothing else appears. */
  lemma {:induction false} InsertedFrom(rows: seq<Row>, data: seq<Row>, row: Row)
    requires row in InsertMany(rows, data)
    ensures row in rows || row in data
    decreases |data|
  {
    if data != [] {
      var n := |data| - 1;
      if row in InsertMany(rows, data[..n]) {
        InsertedFrom(rows, data[..n], row);
      }
    }
  }

  /** After the insert, every id inserted is stored. */
  lemma {:induction false} InsertCovers(rows: seq<Row>, data: seq<Row>, k: nat)
    requires k < |data| && data[k].eventId.Some?
    ensures HasId(InsertMany(rows, data), data[k].eventId.value)
    decreases |data|
  {
    var n := |data| - 1;
    var before := InsertMany(rows, data[..n]);
    if k < n {
      InsertCovers(rows, data[..n], k);
      var j :| 0 <= j < |before| && before[j].eventId == data[k].eventId;
      assert InsertMany(rows, data)[j] == before[j];
    } else if !Skipped(before, data[k]) {
      assert (before + [data[k]])[|before|] == data[k];
    }
  }

  lemma {:induction false} AllStoredInsertsNothing(rows: seq<Row>, data: seq<Row>)
    requires forall k :: 0 <= k < |data| ==> Skipped(rows, data[k])
    ensures InsertMany(rows, data) == rows
    decreases |data|
  {
    if data != [] {
      AllStoredInsertsNothing(rows, data[..|data| - 1]);
    }
  }

  /** A batch delivered twice is written once. */
  lemma RedeliveredBatchWritesNothing(rows: seq<Row>, data: seq<Row>)
    requires forall k :: 0 <= k < |data| ==> data[k].eventId.Some?
    ensures InsertMany(InsertMany(rows, data), data) == InsertMany(rows, data)
  {
    var stored := InsertMany(rows, data);
    forall k | 0 <= k < |data|
      ensures Skipped(stored, data[k])
    {
      InsertCovers(rows, data, k);
    }
    AllStoredInsertsNothing(stored, data);
  }

  /** The position in `data` of each row that an insert adds, in order. */
  function Picked(rows: seq<Row>, data: seq<Row>): seq<nat> {
    if data == [] then [] else
      var n := |data| - 1;
      Picked(rows, data[..n]) + if Skipped(InsertMany(rows, data[..n]), data[n]) then [] else [n]
  }

  /** The added rows are the picked ones, in order; picked is what has no id, or an id not stored and not earlier in `data`. */
  lemma {:induction false} InsertAddsPicked(rows: seq<Row>, data: seq<Row>)
    ensures var added, picks := InsertMany(rows, data), Picked(rows, data);
      |added| == |rows| + |picks| &&
      (forall j :: 0 <= j < |picks| ==> picks[j] < |data| && added[|rows| + j] == data[picks[j]]) &&
      (forall i, j :: 0 <= i < j < |picks| ==> picks[i] < picks[j])
    ensures forall k :: 0 <= k < |data| ==> (k in Picked(rows, data) <==> !Repeats(rows, data, k))
    decreases |data|
  {
    if data != [] {
      var n := |data| - 1;
      InsertAddsPicked(rows, data[..n]);
      InsertKeepsRows(rows, data[..n]);
      StoredOrEarlier(rows, data, n);
      forall k | 0 <= k < n
        ensures Repeats(rows, data, k) <==> Repeats(rows, data[..n], k)
      {
        assert forall j :: 0 <= j < k ==> data[..n][j] == data[j];
      }
    }
  }

  /** Row `k` carries an id that is stored, or that an earlier row of the same insert carries. */
  ghost predicate Repeats(rows: seq<Row>, data: seq<Row>, k: nat)
    requires k < |data|
  {
    data[k].eventId != None &&
    ((exists j :: 0 <= j < |rows| && rows[j].eventId == data[k].eventId) ||
     (exists j :: 0 <= j < k && data[j].eventId == data[k].eventId))
  }

  lemma StoredOrEarlier(rows: seq<Row>, data: seq<Row>, k: nat)
    requires k < |data|
    ensures Skipped(InsertMany(rows, data[..k]), data[k]) <==> Repeats(rows, data, k)
  {
    var before := InsertMany(rows, data[..k]);
    InsertKeepsRows(rows, data[..k]);
    if Skipped(before, data[k]) {
      var j :| 0 <= j < |before| && before[j].eventId == data[k].eventId;
      InsertedFrom(rows, data[..k], before[j]);
    }
    if data[k].eventId.Some? {
      if j :| 0 <= j < |rows| && rows[j].eventId == data[k].eventId {
        assert before[j].eventId == data[k].eventId;
      }
      if j :| 0 <= j < k && data[j].eventId == data[k].eventId {
        InsertCovers(rows, data[..k], j);
      }
    }
  }

  // ---- the repository -----------------------------------------------------------------

  /** The id given for event `k`; an event past the end of the id list has none. */
  function IdAt(eventIds: seq<Option<EventId>>, k: nat): Option<EventId> {
    if k < |eventIds| then eventIds[k] else None
  }

  /** The rows of the events; an event past the end of the id list has none. */
  function ToRows(events: seq<Payload>, eventIds: seq<Option<EventId>>): (rows: seq<Row>)
    ensures |rows| == |events|
  {
    seq(|events|, i requires 0 <= i < |events| => Row(IdAt(eventIds, i), events[i]))
  }

  class AnalyticsRepository {
    var rows: seq<Row>

    constructor ()
      ensures rows == []
    {
      rows := [];
    }

    /** `picks` are the events written, by position. */
    method CreateMany(events: seq<Payload>, eventIds: seq<Option<EventId>>) returns (count: nat, ghost picks: seq<nat>)
      modifies this
      ensures rows == InsertMany(old(rows), ToRows(events, eventIds))
      ensures old(rows) <= rows && |rows| == |old(rows)| + count
      ensures UniqueIds(old(rows)) ==> UniqueIds(rows)
      ensures count == |picks| && forall i, j :: 0 <= i < j < |picks| ==> picks[i] < picks[j]
      ensures forall j :: 0 <= j < |picks| ==>
        picks[j] < |events| &&
        rows[|old(rows)| + j] == Row(if picks[j] < |eventIds| then eventIds[picks[j]] else None, events[picks[j]])
      ensures forall k :: 0 <= k < |events| && k < |eventIds| && eventIds[k].Some? ==>
        exists j :: 0 <= j < |rows| && rows[j].eventId == eventIds[k]
      ensures forall k :: 0 <= k < |events| ==> (k in picks <==> IsNew(old(rows), eventIds, k))
      ensures (forall k :: 0 <= k < |events| ==> !IsNew(old(rows), eventIds, k)) ==> count == 0 && rows == old(rows)
    {
      ghost var data := ToRows(events, eventIds);
      InsertKeepsRows(rows, data);
      if UniqueIds(rows) {
        InsertKeepsUnique(rows, data);
      }
      AddedAre(rows, events, eventIds);
      GivenAreStored(rows, events, eventIds);
      PickedAreNew(rows, events, eventIds);
      if forall k :: 0 <= k < |events| ==> !IsNew(rows, eventIds, k) {
        NoneNewAddsNothing(rows, events, eventIds);
      }
      picks := Picked(rows, data);
      hide InsertMany, ToRows, Picked, IsNew, UniqueIds;
      if |events| == 0 {
        return 0, picks;
      }
      var after := InsertMany(rows, ToRows(events, eventIds));
      count := |after| - |rows|;
      rows := after;
    }
  }

  /** The added rows are the picked events under their ids. */
  lemma AddedAre(rows: seq<Row>, events: seq<Payload>, eventIds: seq<Option<EventId>>)
    ensures var after, picks := InsertMany(rows, ToRows(events, eventIds)), Picked(rows, ToRows(events, eventIds));
      |after| == |rows| + |picks| && (forall i, j :: 0 <= i < j < |picks| ==> picks[i] < picks[j]) &&
      forall j :: 0 <= j < |picks| ==>
        picks[j] < |events| &&
        after[|rows| + j] == Row(if picks[j] < |eventIds| then eventIds[picks[j]] else None, events[picks[j]])
  {
    var data := ToRows(events, eventIds);
    InsertAddsPicked(rows, data);
    hide InsertMany, Picked;
  }

  /** Every id given is stored. */
  lemma GivenAreStored(rows: seq<Row>, events: seq<Payload>, eventIds: seq<Option<EventId>>)
    ensures forall k :: 0 <= k < |events| && k < |eventIds| && eventIds[k].Some? ==>
      HasId(InsertMany(rows, ToRows(events, eventIds)), eventIds[k].value)
  {
    forall k | 0 <= k < |events| && k < |eventIds| && eventIds[k].Some?
      ensures HasId(InsertMany(rows, ToRows(events, eventIds)), eventIds[k].value)
    {
      assert ToRows(events, eventIds)[k].eventId == eventIds[k];
      InsertCovers(rows, ToRows(events, eventIds), k);
    }
  }

  /** The picked events are the new ones. */
  lemma PickedAreNew(rows: seq<Row>, events: seq<Payload>, eventIds: seq<Option<EventId>>)
    ensures forall k :: 0 <= k < |events| ==> (k in Picked(rows, ToRows(events, eventIds)) <==> IsNew(rows, eventIds, k))
  {
    InsertAddsPicked(rows, ToRows(events, eventIds));
    hide InsertMany, Picked, Repeats, IsNew;
    forall k | 0 <= k < |events|
      ensures k in Picked(rows, ToRows(events, eventIds)) <==> IsNew(rows, eventIds, k)
    {
      NewIsNoRepeat(rows, events, eventIds, k);
    }
  }

  lemma SomePickedIsNew(rows: seq<Row>, events: seq<Payload>, eventIds: seq<Option<EventId>>)
    ensures Picked(rows, ToRows(events, eventIds)) != [] ==> exists k :: 0 <= k < |events| && IsNew(rows, eventIds, k)
  {
    var picks := Picked(rows, ToRows(events, eventIds));
    AddedAre(rows, events, eventIds);
    PickedAreNew(rows, events, eventIds);
    hide Picked, IsNew, ToRows, InsertMany;
    if picks != [] {
      assert picks[0] in picks && 0 <= picks[0] < |events|;
    }
  }

  /** When none is new, the table stays as it is. */
  lemma NoneNewAddsNothing(rows: seq<Row>, events: seq<Payload>, eventIds: seq<Option<EventId>>)
    requires forall k :: 0 <= k < |events| ==> !IsNew(rows, eventIds, k)
    ensures InsertMany(rows, ToRows(events, eventIds)) == rows
  {
    var after := InsertMany(rows, ToRows(events, eventIds));
    InsertKeepsRows(rows, ToRows(events, eventIds));
    AddedAre(rows, events, eventIds);
    SomePickedIsNew(rows, events, eventIds);
    hide InsertMany, Picked, IsNew, ToRows;
    assert |after| == |rows|;
    assert after == after[..|rows|];
  }

  /** Event `k` has no id, or one that is neither stored nor given for an event before it. */
  ghost predicate IsNew(rows: seq<Row>, eventIds: seq<Option<EventId>>, k: nat) {
    k >= |eventIds| || eventIds[k] == None ||
    ((forall j :: 0 <= j < |rows| ==> rows[j].eventId != eventIds[k]) && (forall j :: 0 <= j < k ==> eventIds[j] != eventIds[k]))
  }

  lemma NewIsNoRepeat(rows: seq<Row>, events: seq<Payload>, eventIds: seq<Option<EventId>>, k: nat)
    requires k < |events|
    ensures Repeats(rows, ToRows(events, eventIds), k) <==> !IsNew(rows, eventIds, k)
  {
    var data := ToRows(events, eventIds);
    if k < |eventIds| {
      assert forall j :: 0 <= j < k ==> data[j].eventId == eventIds[j];
    }
  }

  // ---- the service --------------------------------------------------------------------

  /** The payloads that were not reported as published, in order. */
  function Unpublished(payloads: seq<Payload>, published: seq<bool>): seq<Payload>
    requires |payloads| == |published|
  {
    if payloads == [] then [] else
      var n := |payloads| - 1;
      Unpublished(payloads[..n], published[..n]) + if published[n] then [] else [payloads[n]]
  }

  /** The positions of the payloads not flagged, in order. */
  function Unflagged(published: seq<bool>): seq<nat> {
    if published == [] then [] else
      var n := |published| - 1;
      Unflagged(published[..n]) + if published[n] then [] else [n]
  }

  lemma {:induction false} UnflaggedAre(published: seq<bool>)
    ensures forall j :: 0 <= j < |Unflagged(published)| ==> Unflagged(published)[j] < |published|
    ensures forall i, j :: 0 <= i < j < |Unflagged(published)| ==> Unflagged(published)[i] < Unflagged(published)[j]
    ensures forall k :: 0 <= k < |published| ==> (k in Unflagged(published) <==> !published[k])
    decreases |published|
  {
    if published != [] {
      UnflaggedAre(published[..|published| - 1]);
    }
  }

  /** What is written directly are the payloads at those positions. */
  lemma {:induction false} UnpublishedAre(payloads: seq<Payload>, published: seq<bool>)
    requires |payloads| == |published|
    ensures |Unpublished(payloads, published)| == |Unflagged(published)|
    ensures forall j :: 0 <= j < |Unflagged(published)| ==>
      Unflagged(published)[j] < |payloads| && Unpublished(payloads, published)[j] == payloads[Unflagged(published)[j]]
    ensures forall k :: 0 <= k < |published| ==> (k in Unflagged(published) <==> !published[k])
    decreases |payloads|
  {
    UnflaggedAre(published);
    if payloads != [] {
      var n := |payloads| - 1;
      UnpublishedAre(payloads[..n], published[..n]);
    }
  }

  function Direct(payloads: seq<Payload>): seq<Row> {
    ToRows(payloads, [])
  }

  /** Rows without an id are never skipped. */
  lemma {:induction false} DirectAppends(rows: seq<Row>, payloads: seq<Payload>)
    ensures InsertMany(rows, Direct(payloads)) == rows + Direct(payloads)
    decreases |payloads|
  {
    if payloads == [] {
      assert Direct(payloads) == [];
    } else {
      var n := |payloads| - 1;
      DirectAppends(rows, payloads[..n]);
      assert Direct(payloads)[..n] == Direct(payloads[..n]);
    }
  }

  datatype Transport = Queued | WrittenDirectly

  /** Publish; write directly exactly the payloads that were not reported as published. */
  method Record(topic: Topic, repository: AnalyticsRepository, topicArnSet: bool, payloads: seq<Payload>,
      eventIds: seq<EventId>, answers: seq<Answer>) returns (accepted: nat, transport: Transport, ghost published: seq<bool>)
    requires |eventIds| == |payloads| && Answered(|payloads|, answers)
    modifies topic, repository
    ensures accepted == |payloads| == |published|
    ensures forall k: nat :: k < |payloads| ==> published[k] == (topicArnSet && Reported(k, answers))
    ensures repository.rows == old(repository.rows) + Direct(Unpublished(payloads, published))
    ensures transport.Queued? <==> Unpublished(payloads, published) == []
    ensures topic.taken == old(topic.taken) +
      if topicArnSet then TakenUpTo(ANALYTICS_EVENT_RECORDED, payloads, eventIds, answers, |payloads|) else []
  {
    var reported := PublishMany(topic, topicArnSet, ANALYTICS_EVENT_RECORDED, payloads, eventIds, answers);
    published := reported;
    accepted := |payloads|;
    var failed := Unpublished(payloads, reported);
    if |failed| == 0 {
      assert Direct(failed) == [];
      return accepted, Queued, published;
    }
    DirectAppends(repository.rows, failed);
    var _, _ := repository.CreateMany(failed, []);
    transport := WrittenDirectly;
  }

  /** No payload is lost: each was taken by the topic or is written directly. */
  lemma {:induction false} NothingLost(key: EventType, payloads: seq<Payload>, eventIds: seq<EventId>, answers: seq<Answer>,
      published: seq<bool>, k: nat)
    requires |eventIds| == |payloads| == |published| && Answered(|payloads|, answers) && k < |payloads|
    requires forall j: nat :: j < |payloads| && published[j] ==> Reported(j, answers)
    ensures Enveloped(key, payloads, eventIds, k) in TakenUpTo(key, payloads, eventIds, answers, |payloads|)
      || payloads[k] in Unpublished(payloads, published)
  {
    if published[k] {
      TakenWhenTook(key, payloads, eventIds, answers, |payloads|, k);
    } else {
      WrittenWhenUnpublished(payloads, published, k);
    }
  }

  lemma {:induction false} TakenWhenTook(key: EventType, payloads: seq<Payload>, eventIds: seq<EventId>, answers: seq<Answer>,
      n: nat, k: nat)
    requires k < n <= |payloads| == |eventIds| && Answered(n, answers) && Took(k, answers)
    ensures Enveloped(key, payloads, eventIds, k) in TakenUpTo(key, payloads, eventIds, answers, n)
    decreases n
  {
    if k < n - 1 {
      TakenWhenTook(key, payloads, eventIds, answers, n - 1, k);
    }
  }

  lemma {:induction false} WrittenWhenUnpublished(payloads: seq<Payload>, published: seq<bool>, k: nat)
    requires |payloads| == |published| && k < |payloads| && !published[k]
    ensures payloads[k] in Unpublished(payloads, published)
    decreases |payloads|
  {
    var n := |payloads| - 1;
    if k < n {
      WrittenWhenUnpublished(payloads[..n], published[..n], k);
    }
  }
}
