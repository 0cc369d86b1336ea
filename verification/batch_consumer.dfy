/** The buffering consumer loop: receive, buffer, flush, delete. */
module BatchConsumer {
  import opened Common
  import opened DomainEvents

  const SQS_BATCH_LIMIT := 10
  const WAIT_TIME_SECONDS := 20

  datatype Buffered = Buffered(message: Message, payload: Payload, metadata: Option<Metadata>)

  /** What one call of the handler is given, and whether it succeeds. */
  datatype HandlerCall = HandlerCall(payloads: seq<Payload>, metadata: seq<Option<Metadata>>, ok: bool)

  datatype Ask = Ask(maxMessages: int, waitSeconds: int)

  /**
   * What the world does during one turn of the loop: the clock readings, whether `stop` is called
   * before it or during its flush, whether the handler succeeds, and what the queue has to offer
   * (None when the receive fails).
   */
  datatype Turn = Turn(
    now: int, stopped: bool, handlerOk: bool, stoppedInFlush: bool, nowAtWait: int,
    offered: Option<seq<Message>>, nowAtPush: int)

  // ---- specification ------------------------------------------------------------------

  function Entry(m: Message): Buffered
    requires ParseEvent(m).Some?
  {
    Buffered(m, ParseEvent(m).value.payload, ParseEvent(m).value.metadata)
  }

  /** The received messages the handler is to see, in arrival order. */
  function AcceptedFrom(received: seq<Message>, types: Option<seq<EventType>>): seq<Buffered> {
    if received == [] then [] else
      var last := received[|received| - 1];
      AcceptedFrom(received[..|received| - 1], types) + if Accepts(last, types) then [Entry(last)] else []
  }

  /** The receipts of the received messages that are dropped, in arrival order. */
  function RejectedFrom(received: seq<Message>, types: Option<seq<EventType>>): seq<string> {
    if received == [] then [] else
      var last := received[|received| - 1];
      RejectedFrom(received[..|received| - 1], types) + if Accepts(last, types) then [] else [last.receipt]
  }

  function Concat<T>(parts: seq<seq<T>>): seq<T> {
    if parts == [] then [] else Concat(parts[..|parts| - 1]) + parts[|parts| - 1]
  }

  function Payloads(batch: seq<Buffered>): seq<Payload> {
    seq(|batch|, k requires 0 <= k < |batch| => batch[k].payload)
  }

  function Metadatas(batch: seq<Buffered>): seq<Option<Metadata>> {
    seq(|batch|, k requires 0 <= k < |batch| => batch[k].metadata)
  }

  function Receipts(batch: seq<Buffered>): seq<string> {
    seq(|batch|, k requires 0 <= k < |batch| => batch[k].message.receipt)
  }

  /** The receipts of the batches whose handler call came out as `ok`, in order. */
  function ReceiptsOf(batches: seq<seq<Buffered>>, calls: seq<HandlerCall>, ok: bool): seq<string>
    requires |batches| == |calls|
  {
    if batches == [] then [] else
      var n := |batches| - 1;
      ReceiptsOf(batches[..n], calls[..n], ok) + if calls[n].ok == ok then Receipts(batches[n]) else []
  }

  /** Pieces as SQS takes them. */
  predicate Pieces<T>(parts: seq<seq<T>>) {
    forall k :: 0 <= k < |parts| ==> 1 <= |parts[k]| <= 10
  }

  function CeilDiv(a: int, b: int): int
    requires b > 0
  {
    -(-a / b)
  }

  /** The length of one poll in seconds: the rest of the buffer's deadline, rounded up, within the ceiling. */
  function WaitSeconds(buffered: nat, deadline: int, now: int): int {
    if buffered == 0 then WAIT_TIME_SECONDS
    else Min(WAIT_TIME_SECONDS, Max(0, CeilDiv(deadline - now, 1000)))
  }

  /**
   * An empty buffer polls for twenty seconds. Otherwise the poll ends at the deadline, less than a
   * second late, unless the ceiling or a past deadline cuts it.
   */
  lemma PollEndsAtDeadline(buffered: nat, deadline: int, now: int)
    ensures var w := WaitSeconds(buffered, deadline, now);
      (buffered == 0 ==> w == 20) &&
      (buffered > 0 ==> 0 <= w <= 20 && (w < 20 ==> now + 1000 * w >= deadline) && (w > 0 ==> now + 1000 * (w - 1) < deadline))
  {
    var d := deadline - now;
    assert -d == 1000 * (-d / 1000) + (-d) % 1000;
  }

  // ---- laws ---------------------------------------------------------------------------

  lemma {:induction false} AcceptedAppend(a: seq<Message>, m: Message, types: Option<seq<EventType>>)
    ensures AcceptedFrom(a + [m], types) == AcceptedFrom(a, types) + if Accepts(m, types) then [Entry(m)] else []
    ensures RejectedFrom(a + [m], types) == RejectedFrom(a, types) + if Accepts(m, types) then [] else [m.receipt]
  {
    assert (a + [m])[..|a|] == a;
  }

  lemma ConcatAppend<T>(parts: seq<seq<T>>, part: seq<T>)
    ensures Concat(parts + [part]) == Concat(parts) + part
  {
    assert (parts + [part])[..|parts|] == parts;
  }

  lemma {:induction false} ConcatPlus<T>(a: seq<seq<T>>, b: seq<seq<T>>)
    ensures Concat(a + b) == Concat(a) + Concat(b)
    decreases |b|
  {
    if b == [] {
      assert a + b == a;
    } else {
      var n := |b| - 1;
      ConcatPlus(a, b[..n]);
      assert a + b == (a + b[..n]) + [b[n]];
      ConcatAppend(a + b[..n], b[n]);
    }
  }

  lemma ReceiptsOfAppend(batches: seq<seq<Buffered>>, calls: seq<HandlerCall>, batch: seq<Buffered>, call: HandlerCall, ok: bool)
    requires |batches| == |calls|
    ensures ReceiptsOf(batches + [batch], calls + [call], ok)
         == ReceiptsOf(batches, calls, ok) + if call.ok == ok then Receipts(batch) else []
  {
    assert (batches + [batch])[..|batches|] == batches && (calls + [call])[..|calls|] == calls;
  }

  /** Every accepted message is in exactly one deleted or retried call, or still in the buffer. */
  lemma {:induction false} SettledOnce(batches: seq<seq<Buffered>>, calls: seq<HandlerCall>)
    requires |batches| == |calls|
    ensures multiset(Receipts(Concat(batches)))
         == multiset(ReceiptsOf(batches, calls, true)) + multiset(ReceiptsOf(batches, calls, false))
    decreases |batches|
  {
    if batches != [] {
      var n := |batches| - 1;
      SettledOnce(batches[..n], calls[..n]);
      assert Receipts(Concat(batches)) == Receipts(Concat(batches[..n])) + Receipts(batches[n]);
    }
  }

  /** What a receive returns: at most as many of the messages on offer as it asked for. */
  function Delivered(offered: Option<seq<Message>>, maxMessages: int): seq<Message>
    requires maxMessages >= 0
  {
    if offered.None? then [] else offered.value[..Min(maxMessages, |offered.value|)]
  }

  /** Every message of every batch has been deleted or made visible again, exactly once. */
  lemma BatchesSettled(batches: seq<seq<Buffered>>, calls: seq<HandlerCall>, deletes: seq<seq<string>>,
      retries: seq<seq<string>>, batchSize: int)
    requires Accounted(batches, calls, deletes, retries, batchSize)
    ensures multiset(Concat(deletes)) + multiset(Concat(retries)) == multiset(Receipts(Concat(batches)))
  {
    SettledOnce(batches, calls);
  }

  // ---- the consumer -------------------------------------------------------------------

  /** Split into SQS-sized pieces; `items` are covered exactly once, in order. */
  method InChunks(items: seq<string>) returns (chunks: seq<seq<string>>)
    ensures Concat(chunks) == items && Pieces(chunks)
    ensures |chunks| == CeilDiv(|items|, SQS_BATCH_LIMIT)
  {
    chunks := [];
    var i := 0;
    while i < |items|
      invariant 0 <= i
      invariant i == SQS_BATCH_LIMIT * |chunks|
      invariant |chunks| > 0 ==> i - SQS_BATCH_LIMIT < |items|
      invariant Concat(chunks) == items[..Min(i, |items|)] && Pieces(chunks)
    {
      var chunk := items[i..Min(i + SQS_BATCH_LIMIT, |items|)];
      ConcatAppend(chunks, chunk);
      chunks := chunks + [chunk];
      i := i + SQS_BATCH_LIMIT;
    }
  }

  /** Each accepted message is in exactly one batch or in the buffer, in arrival order. */
  ghost predicate Ordered(batches: seq<seq<Buffered>>, buffer: seq<Buffered>, received: seq<Message>, drops: seq<string>,
      types: Option<seq<EventType>>)
  {
    Concat(batches) + buffer == AcceptedFrom(received, types) && drops == RejectedFrom(received, types)
  }

  /** The handler was given the batch, payloads and metadata aligned. */
  ghost predicate Given(batch: seq<Buffered>, call: HandlerCall, batchSize: int) {
    1 <= |batch| <= batchSize && |call.payloads| == |call.metadata| == |batch| &&
    forall k :: 0 <= k < |batch| ==> call.payloads[k] == batch[k].payload && call.metadata[k] == batch[k].metadata
  }

  /** Each batch went to the handler once, and was then deleted or made visible again whole. */
  ghost predicate Accounted(batches: seq<seq<Buffered>>, calls: seq<HandlerCall>, deletes: seq<seq<string>>,
      retries: seq<seq<string>>, batchSize: int)
  {
    |calls| == |batches| && (forall k :: 0 <= k < |calls| ==> Given(batches[k], calls[k], batchSize)) &&
    Concat(deletes) == ReceiptsOf(batches, calls, true) && Pieces(deletes) &&
    Concat(retries) == ReceiptsOf(batches, calls, false) && Pieces(retries)
  }

  /** Every receive asked for one to ten messages, and waited no longer than SQS allows. */
  ghost predicate Polite(asks: seq<Ask>) {
    forall k :: 0 <= k < |asks| ==>
      1 <= asks[k].maxMessages <= 10 && 0 <= asks[k].waitSeconds <= 20
  }

  /** A receive after any due flush is polite: there is room for at least one message. */
  lemma AsksPolitely(asks: seq<Ask>, buffered: nat, batchSize: int, deadline: int, now: int)
    requires Polite(asks) && buffered < batchSize
    ensures Polite(asks + [Ask(Min(SQS_BATCH_LIMIT, batchSize - buffered), WaitSeconds(buffered, deadline, now))])
  {
    if buffered > 0 {
      PollEndsAtDeadline(buffered, deadline, now);
    }
  }

  lemma TakesInOrder(batches: seq<seq<Buffered>>, buffer: seq<Buffered>, received: seq<Message>, drops: seq<string>,
      types: Option<seq<EventType>>, m: Message)
    requires Ordered(batches, buffer, received, drops, types)
    ensures if Accepts(m, types) then Ordered(batches, buffer + [Entry(m)], received + [m], drops, types)
            else Ordered(batches, buffer, received + [m], drops + [m.receipt], types)
  {
    AcceptedAppend(received, m, types);
    if Accepts(m, types) {
      assert Concat(batches) + (buffer + [Entry(m)]) == (Concat(batches) + buffer) + [Entry(m)];
    }
  }

  lemma FlushesInOrder(batches: seq<seq<Buffered>>, buffer: seq<Buffered>, received: seq<Message>, drops: seq<string>,
      types: Option<seq<EventType>>)
    requires Ordered(batches, buffer, received, drops, types)
    ensures Ordered(batches + [buffer], [], received, drops, types)
  {
    ConcatAppend(batches, buffer);
  }

  lemma FlushAccounted(batches: seq<seq<Buffered>>, calls: seq<HandlerCall>, deletes: seq<seq<string>>,
      retries: seq<seq<string>>, batchSize: int, batch: seq<Buffered>, call: HandlerCall, chunks: seq<seq<string>>)
    requires Accounted(batches, calls, deletes, retries, batchSize) && Given(batch, call, batchSize)
    requires Concat(chunks) == Receipts(batch) && Pieces(chunks)
    ensures Accounted(batches + [batch], calls + [call], if call.ok then deletes + chunks else deletes,
      if call.ok then retries else retries + chunks, batchSize)
  {
    hide Concat, Receipts, ReceiptsOf, Given;
    ReceiptsOfAppend(batches, calls, batch, call, true);
    ReceiptsOfAppend(batches, calls, batch, call, false);
    ConcatPlus(deletes, chunks);
    ConcatPlus(retries, chunks);
  }

  class BatchConsumer {
    const batchSize: int
    const flushIntervalMs: int
    const eventTypes: Option<seq<EventType>>

    var buffer: seq<Buffered>
    var deadline: int
    var consecutiveErrors: nat
    var aborted: bool

    // The calls made on the outside world, in order.
    var asks: seq<Ask>
    var calls: seq<HandlerCall>
    var deletes: seq<seq<string>>
    var retries: seq<seq<string>>
    var drops: seq<string>

    ghost var received: seq<Message>
    ghost var batches: seq<seq<Buffered>>

    /** The configured batch size is positive. */
    constructor (batchSize: int, flushIntervalMs: int, eventTypes: Option<seq<EventType>>)
      requires 1 <= batchSize
      ensures Valid() && buffer == [] && !aborted && received == [] && batches == []
      ensures this.batchSize == batchSize && this.eventTypes == eventTypes && this.flushIntervalMs == flushIntervalMs
    {
      this.batchSize, this.flushIntervalMs, this.eventTypes := batchSize, flushIntervalMs, eventTypes;
      buffer, deadline, consecutiveErrors, aborted := [], 0, 0, false;
      asks, calls, deletes, retries, drops := [], [], [], [], [];
      received, batches := [], [];
    }

    ghost predicate Valid()
      reads this
    {
      1 <= batchSize && |buffer| <= batchSize &&
      Ordered(batches, buffer, received, drops, eventTypes) &&
      Accounted(batches, calls, deletes, retries, batchSize) &&
      Polite(asks)
    }

    /** Hand the whole buffer to the handler; delete what was written, or make it visible again. */
    method Flush(handlerOk: bool)
      requires Valid() && buffer != []
      modifies this`buffer, this`calls, this`deletes, this`retries, this`batches
      ensures Valid() && buffer == []
      ensures batches == old(batches) + [old(buffer)]
      ensures calls == old(calls) + [HandlerCall(Payloads(old(buffer)), Metadatas(old(buffer)), handlerOk)]
    {
      hide Ordered, Accounted;
      var batch := buffer;
      buffer := [];
      var call := HandlerCall(Payloads(batch), Metadatas(batch), handlerOk);
      var chunks := InChunks(Receipts(batch));
      FlushesInOrder(batches, batch, received, drops, eventTypes);
      FlushAccounted(batches, calls, deletes, retries, batchSize, batch, call, chunks);
      calls := calls + [call];
      batches := batches + [batch];
      if !handlerOk {
        retries := retries + chunks;
        return;
      }
      deletes := deletes + chunks;
    }

    /** Buffer what can be handled and drop the rest. */
    method Take(messages: seq<Message>, now: int)
      requires Valid() && |buffer| + |messages| <= batchSize
      modifies this`buffer, this`deadline, this`drops, this`received
      ensures Valid() && received == old(received) + messages
      ensures deadline == if old(buffer) == [] && buffer != [] then now + flushIntervalMs else old(deadline)
    {
      hide Ordered, Accounted;
      for k := 0 to |messages|
        invariant Ordered(batches, buffer, received, drops, eventTypes)
        invariant |old(buffer)| <= |buffer| <= |old(buffer)| + k
        invariant received == old(received) + messages[..k]
        invariant deadline == if old(buffer) == [] && buffer != [] then now + flushIntervalMs else old(deadline)
      {
        var message := messages[k];
        TakesInOrder(batches, buffer, received, drops, eventTypes, message);
        assert old(received) + messages[..k + 1] == received + [message];
        received := received + [message];
        var event := ParseEvent(message);
        if event.None? || !HandlesEvent(event.value, eventTypes) {
          drops := drops + [message.receipt];
        } else {
          if buffer == [] {
            deadline := now + flushIntervalMs;
          }
          buffer := buffer + [Buffered(message, event.value.payload, event.value.metadata)];
        }
      }
    }

    /** One turn of the loop; true when the loop exits. */
    method Step(turn: Turn) returns (exit: bool)
      requires Valid()
      modifies this
      ensures Valid()
      ensures exit <==> aborted
      ensures turn.stopped ==> exit
      ensures exit ==> buffer == [] && received == old(received) && asks == old(asks)
      ensures var due := |old(buffer)| == batchSize ||
          (old(buffer) != [] && (turn.now >= old(deadline) || old(aborted) || turn.stopped));
        batches == (if due then old(batches) + [old(buffer)] else old(batches)) &&
        (!exit ==>
          var kept := if due then 0 else |old(buffer)|;
          asks == old(asks) + [Ask(Min(SQS_BATCH_LIMIT, batchSize - kept), WaitSeconds(kept, old(deadline), turn.nowAtWait))])
      ensures !exit ==>
        received == old(received) + Delivered(turn.offered, asks[|asks| - 1].maxMessages) &&
        consecutiveErrors == if turn.offered.None? then old(consecutiveErrors) + 1 else 0
    {
      hide Ordered, Accounted, Polite, WaitSeconds;
      aborted := aborted || turn.stopped;
      var due := |buffer| >= batchSize || (|buffer| > 0 && (turn.now >= deadline || aborted));
      if due {
        Flush(turn.handlerOk);
        aborted := aborted || turn.stoppedInFlush;
      }
      if aborted {
        return true;
      }
      var ask := Ask(Min(SQS_BATCH_LIMIT, batchSize - |buffer|), WaitSeconds(|buffer|, deadline, turn.nowAtWait));
      AsksPolitely(asks, |buffer|, batchSize, deadline, turn.nowAtWait);
      asks := asks + [ask];
      if turn.offered.None? {
        consecutiveErrors := consecutiveErrors + 1;
        return false;
      }
      var messages := turn.offered.value[..Min(ask.maxMessages, |turn.offered.value|)];
      consecutiveErrors := 0;
      Take(messages, turn.nowAtPush);
      exit := false;
    }

    /** The loop, for as long as the script of turns lasts. */
    method Run(script: seq<Turn>) returns (exited: bool)
      requires Valid() && !aborted
      modifies this
      ensures Valid()
      ensures exited ==> aborted && buffer == [] && Concat(batches) == AcceptedFrom(received, eventTypes)
      ensures !exited ==> !aborted && forall k :: 0 <= k < |script| ==> !script[k].stopped
      ensures old(received) <= received && old(batches) <= batches
    {
      hide Accounted;
      exited := false;
      var k := 0;
      while k < |script|
        invariant 0 <= k <= |script| && Valid()
        invariant !exited && !aborted
        invariant forall j :: 0 <= j < k ==> !script[j].stopped
        invariant old(received) <= received && old(batches) <= batches
      {
        var exit := Step(script[k]);
        if exit {
          assert Concat(batches) + buffer == Concat(batches);
          return true;
        }
        k := k + 1;
      }
    }
  }
}
