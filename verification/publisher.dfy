/** Publishing many events, ten to a call, and reporting exactly the ones the topic took. */
module Publisher {
  import opened Common
  import opened DomainEvents

  const SNS_BATCH_LIMIT := 10

  datatype Entry = Entry(id: nat, event: Event)

  /** What the topic does with one call: the ids it takes, and whether the caller sees an answer. */
  datatype Answer = Answer(taken: set<nat>, thrown: bool)

  class Topic {
    /** The events taken so far, in order. */
    var taken: seq<Event>

    constructor ()
      ensures taken == []
    {
      taken := [];
    }

    /** None when the call throws; otherwise the ids that were taken. */
    method PublishBatch(entries: seq<Entry>, answer: Answer) returns (successful: Option<seq<nat>>)
      requires 1 <= |entries| <= 10
      modifies this
      ensures taken == old(taken) + Taken(entries, answer)
      ensures successful.None? <==> answer.thrown
      ensures successful.Some? ==> successful.value == TakenIds(entries, answer)
    {
      var ids := [];
      for k := 0 to |entries|
        invariant taken == old(taken) + Taken(entries[..k], answer)
        invariant ids == TakenIds(entries[..k], answer)
      {
        assert entries[..k + 1][..k] == entries[..k];
        if entries[k].id in answer.taken {
          taken := taken + [entries[k].event];
          ids := ids + [entries[k].id];
        }
      }
      assert entries[..|entries|] == entries;
      successful := if answer.thrown then None else Some(ids);
    }
  }

  function Taken(entries: seq<Entry>, answer: Answer): seq<Event> {
    if entries == [] then [] else
      var last := entries[|entries| - 1];
      Taken(entries[..|entries| - 1], answer) + if last.id in answer.taken then [last.event] else []
  }

  function TakenIds(entries: seq<Entry>, answer: Answer): seq<nat> {
    if entries == [] then [] else
      var last := entries[|entries| - 1];
      TakenIds(entries[..|entries| - 1], answer) + if last.id in answer.taken then [last.id] else []
  }

  // ---- specification ------------------------------------------------------------------

  /** The calls the payloads need. */
  predicate Answered(n: nat, answers: seq<Answer>) {
    SNS_BATCH_LIMIT * |answers| >= n
  }

  function AnswerTo(k: nat, answers: seq<Answer>): Answer
    requires k < SNS_BATCH_LIMIT * |answers|
  {
    answers[k / SNS_BATCH_LIMIT]
  }

  /** The topic took payload `k`. */
  predicate Took(k: nat, answers: seq<Answer>)
    requires k < SNS_BATCH_LIMIT * |answers|
  {
    k in AnswerTo(k, answers).taken
  }

  function Enveloped(key: EventType, payloads: seq<Payload>, eventIds: seq<EventId>, k: nat): Event
    requires k < |payloads| == |eventIds|
  {
    Envelope(eventIds[k], key, payloads[k])
  }

  /** The topic took payload `k` and said so. */
  predicate Reported(k: nat, answers: seq<Answer>)
    requires k < SNS_BATCH_LIMIT * |answers|
  {
    Took(k, answers) && !AnswerTo(k, answers).thrown
  }

  /** The first `n` payloads' envelopes that the topic took, in order. */
  function TakenUpTo(key: EventType, payloads: seq<Payload>, eventIds: seq<EventId>, answers: seq<Answer>, n: nat): seq<Event>
    requires n <= |payloads| == |eventIds| && Answered(n, answers)
  {
    if n == 0 then [] else
      TakenUpTo(key, payloads, eventIds, answers, n - 1) +
      if Took(n - 1, answers) then [Enveloped(key, payloads, eventIds, n - 1)] else []
  }

  // ---- one chunk ----------------------------------------------------------------------

  /** The entries of the chunk starting at `start`: the ids are positions in the whole batch. */
  function Chunk(key: EventType, payloads: seq<Payload>, eventIds: seq<EventId>, start: nat, end: nat): (entries: seq<Entry>)
    requires start <= end <= |payloads| == |eventIds|
    ensures |entries| == end - start
  {
    seq(end - start, i requires 0 <= i < end - start => Entry(start + i, Enveloped(key, payloads, eventIds, start + i)))
  }

  /** The topic takes from a chunk what it takes of the whole batch there. */
  lemma {:induction false} ChunkTaken(key: EventType, payloads: seq<Payload>, eventIds: seq<EventId>, answers: seq<Answer>,
      start: nat, end: nat)
    requires start <= end <= |payloads| == |eventIds| && Answered(end, answers)
    requires start % SNS_BATCH_LIMIT == 0 && end <= start + SNS_BATCH_LIMIT && start < end
    ensures start / SNS_BATCH_LIMIT < |answers|
    ensures TakenUpTo(key, payloads, eventIds, answers, start)
          + Taken(Chunk(key, payloads, eventIds, start, end), answers[start / SNS_BATCH_LIMIT])
         == TakenUpTo(key, payloads, eventIds, answers, end)
    decreases end
  {
    var chunk := Chunk(key, payloads, eventIds, start, end);
    var before := Chunk(key, payloads, eventIds, start, end - 1);
    assert chunk[..|chunk| - 1] == before;
    assert (end - 1) / SNS_BATCH_LIMIT == start / SNS_BATCH_LIMIT;
    if end - 1 > start {
      ChunkTaken(key, payloads, eventIds, answers, start, end - 1);
    } else {
      assert before == [];
    }
  }

  /** The answer names positions of the chunk, and names exactly those that were taken. */
  lemma {:induction false} ChunkIds(key: EventType, payloads: seq<Payload>, eventIds: seq<EventId>, start: nat, end: nat,
      answer: Answer, id: nat)
    requires start <= end <= |payloads| == |eventIds|
    ensures id in TakenIds(Chunk(key, payloads, eventIds, start, end), answer) <==> start <= id < end && id in answer.taken
    decreases end
  {
    var chunk := Chunk(key, payloads, eventIds, start, end);
    if start < end {
      assert chunk[..|chunk| - 1] == Chunk(key, payloads, eventIds, start, end - 1);
      ChunkIds(key, payloads, eventIds, start, end - 1, answer, id);
    } else {
      assert chunk == [];
    }
  }

  // ---- the publisher ------------------------------------------------------------------

  /** Mark the ids an answer names. */
  method MarkSuccessful(results: array<bool>, successful: seq<nat>)
    requires forall n :: 0 <= n < |successful| ==> successful[n] < results.Length
    modifies results
    ensures forall k: nat :: k < results.Length ==> results[k] == (old(results[k]) || k in successful)
  {
    for n := 0 to |successful|
      invariant forall k: nat :: k < results.Length ==> results[k] == (old(results[k]) || k in successful[..n])
    {
      assert successful[..n + 1] == successful[..n] + [successful[n]];
      results[successful[n]] := true;
    }
    assert successful[..|successful|] == successful;
  }

  /** One call: the topic takes what it takes, and what its answer names is marked. */
  method PublishChunk(topic: Topic, results: array<bool>, routingKey: EventType, payloads: seq<Payload>,
      eventIds: seq<EventId>, start: nat, end: nat, answer: Answer)
    requires start < end <= |payloads| == |eventIds| == results.Length && end <= start + SNS_BATCH_LIMIT
    modifies topic, results
    ensures topic.taken == old(topic.taken) + Taken(Chunk(routingKey, payloads, eventIds, start, end), answer)
    ensures forall k: nat :: k < results.Length ==>
      results[k] == (old(results[k]) || (start <= k < end && k in answer.taken && !answer.thrown))
  {
    var chunk := Chunk(routingKey, payloads, eventIds, start, end);
    var successful := topic.PublishBatch(chunk, answer);
    if successful.Some? {
      forall id: nat
        ensures id in successful.value <==> start <= id < end && id in answer.taken
      {
        ChunkIds(routingKey, payloads, eventIds, start, end, answer, id);
      }
      assert forall n :: 0 <= n < |successful.value| ==> successful.value[n] in successful.value;
      MarkSuccessful(results, successful.value);
    }
  }

  /**
   * Publish the payloads; `eventIds` are the generated ids, `answers` what the topic does with
   * each call. The result has a flag for every payload, true exactly when the topic acknowledged it.
   */
  method PublishMany(topic: Topic, topicArnSet: bool, routingKey: EventType, payloads: seq<Payload>,
      eventIds: seq<EventId>, answers: seq<Answer>) returns (published: seq<bool>)
    requires |eventIds| == |payloads| && Answered(|payloads|, answers)
    modifies topic
    ensures |published| == |payloads|
    ensures forall k: nat :: k < |payloads| ==> published[k] == (topicArnSet && Reported(k, answers))
    ensures topic.taken == old(topic.taken) +
      if topicArnSet then TakenUpTo(routingKey, payloads, eventIds, answers, |payloads|) else []
  {
    if !topicArnSet {
      return seq(|payloads|, _ => false);
    }
    var results := new bool[|payloads|](_ => false);
    var start := 0;
    assert TakenUpTo(routingKey, payloads, eventIds, answers, 0) == [];
    hide Taken, Chunk, TakenUpTo, Reported;
    while start < |payloads|
      invariant start % SNS_BATCH_LIMIT == 0
      invariant topic.taken == old(topic.taken) + TakenUpTo(routingKey, payloads, eventIds, answers, Min(start, |payloads|))
      invariant forall k: nat :: k < |payloads| ==> results[k] == (k < start && Reported(k, answers))
    {
      var end := Min(start + SNS_BATCH_LIMIT, |payloads|);
      ChunkTaken(routingKey, payloads, eventIds, answers, start, end);
      SameAnswer(answers, start, end);
      var answer := answers[start / SNS_BATCH_LIMIT];
      PublishChunk(topic, results, routingKey, payloads, eventIds, start, end, answer);
      start := start + SNS_BATCH_LIMIT;
    }
    published := results[..];
  }

  lemma SameAnswer(answers: seq<Answer>, start: nat, end: nat)
    requires start % SNS_BATCH_LIMIT == 0 && end <= start + SNS_BATCH_LIMIT && Answered(end, answers)
    requires start < end
    ensures start / SNS_BATCH_LIMIT < |answers| && (start + SNS_BATCH_LIMIT) % SNS_BATCH_LIMIT == 0
    ensures var answer := answers[start / SNS_BATCH_LIMIT];
      forall k: nat :: start <= k < end ==> (Reported(k, answers) <==> k in answer.taken && !answer.thrown)
  {
    forall k: nat | start <= k < end
      ensures AnswerTo(k, answers) == answers[start / SNS_BATCH_LIMIT]
    {
      assert k / SNS_BATCH_LIMIT == start / SNS_BATCH_LIMIT;
    }
  }
}
