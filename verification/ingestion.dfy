/**
 * Events from publication to the event table, over an at-least-once queue.
 *
 * Any number of workers receive, buffer, write and delete. A message may be handed to several
 * workers and any number of times; a worker may crash between any two steps; a write or a delete
 * may fail for any part of a batch; the redrive policy may park a message at any time.
 */
module Ingestion {
  import opened Common
  import opened DomainEvents
  import opened Analytics

  type MessageId = string
  type WorkerId = nat

  /** A message a worker holds: its id on the queue and the event read from it. */
  datatype Item = Item(id: MessageId, event: Event)

  /** A worker fills its buffer, writes it whole, then deletes what it wrote. */
  datatype Worker = Worker(buffer: seq<Item>, written: seq<Item>)

  datatype World = World(
    queue: map<MessageId, Body>,
    deadLetters: map<MessageId, Body>,
    rows: seq<Row>,
    workers: map<WorkerId, Worker>,
    published: map<EventId, Payload>,
    used: set<MessageId>)

  const TYPES := Some([ANALYTICS_EVENT_RECORDED])

  function EventOf(id: EventId, payload: Payload): Event {
    Envelope(id, ANALYTICS_EVENT_RECORDED, payload)
  }

  /** The handled event a message carries. */
  function Carried(body: Body): Option<Event> {
    var m := Message("", "", body);
    if Accepts(m, TYPES) then ParseEvent(m) else None
  }

  /** What the handler writes for a batch: the events' payloads under their ids. */
  function BatchRows(batch: seq<Item>): seq<Row> {
    seq(|batch|, k requires 0 <= k < |batch| => Row(IdOf(batch[k].event), batch[k].event.payload))
  }

  /** It is the repository's insert of the batch's payloads and ids that writes them. */
  lemma BatchRowsAreCreateManys(batch: seq<Item>)
    ensures var payloads := seq(|batch|, k requires 0 <= k < |batch| => batch[k].event.payload);
      var ids := seq(|batch|, k requires 0 <= k < |batch| => IdOf(batch[k].event));
      ToRows(payloads, ids) == BatchRows(batch)
  {
  }

  // ---- steps --------------------------------------------------------------------------

  datatype Step =
    | Publish(id: EventId, payload: Payload, m: MessageId, wrapped: bool)
    | Duplicate(from: MessageId, m: MessageId)
    | Stray(m: MessageId, body: Body)
    | Receive(w: WorkerId, m: MessageId)
    | DropMessage(w: WorkerId, m: MessageId, deleted: bool)
    | Write(w: WorkerId)
    | WriteFails(w: WorkerId)
    | DeleteWritten(w: WorkerId, gone: set<MessageId>)
    | Crash(w: WorkerId)
    | Park(m: MessageId)
    | WriteDirectly(payloads: seq<Payload>)

  function WorkerAt(s: World, w: WorkerId): Worker {
    if w in s.workers then s.workers[w] else Worker([], [])
  }

  function Ids(items: seq<Item>): set<MessageId> {
    set k | 0 <= k < |items| :: items[k].id
  }

  ghost predicate Next(s: World, s': World, e: Step) {
    match e
    case Publish(id, payload, m, wrapped) =>
      id !in s.published && m !in s.used &&
      var event := EventOf(id, payload);
      s' == s.(queue := s.queue[m := if wrapped then Wrapped(event) else Raw(event)],
               published := s.published[id := payload], used := s.used + {m})
    case Duplicate(from, m) =>
      from in s.queue && m !in s.used && s' == s.(queue := s.queue[m := s.queue[from]], used := s.used + {m})
    case Stray(m, body) =>
      m !in s.used && Carried(body).None? && s' == s.(queue := s.queue[m := body], used := s.used + {m})
    case Receive(w, m) =>
      m in s.queue && Carried(s.queue[m]).Some? &&
      var was := WorkerAt(s, w);
      was.written == [] &&
      s' == s.(workers := s.workers[w := was.(buffer := was.buffer + [Item(m, Carried(s.queue[m]).value)])])
    case DropMessage(w, m, deleted) =>
      m in s.queue && Carried(s.queue[m]).None? &&
      s' == if deleted then s.(queue := s.queue - {m}) else s
    case Write(w) =>
      var was := WorkerAt(s, w);
      was.written == [] && was.buffer != [] &&
      s' == s.(rows := InsertMany(s.rows, BatchRows(was.buffer)), workers := s.workers[w := Worker([], was.buffer)])
    case WriteFails(w) =>
      var was := WorkerAt(s, w);
      was.written == [] && s' == s.(workers := s.workers[w := Worker([], [])])
    case DeleteWritten(w, gone) =>
      var was := WorkerAt(s, w);
      gone <= Ids(was.written) &&
      s' == s.(queue := s.queue - gone, workers := s.workers[w := Worker([], [])])
    case Crash(w) =>
      s' == s.(workers := s.workers - {w})
    case Park(m) =>
      m in s.queue && s' == s.(queue := s.queue - {m}, deadLetters := s.deadLetters[m := s.queue[m]])
    case WriteDirectly(payloads) =>
      s' == s.(rows := InsertMany(s.rows, Direct(payloads)))
  }

  ghost predicate Init(s: World) {
    s == World(map[], map[], [], map[], map[], {})
  }

  ghost predicate IsRun(run: seq<World>, es: seq<Step>) {
    |run| == |es| + 1 && Init(run[0]) && forall k :: 0 <= k < |es| ==> Next(run[k], run[k + 1], es[k])
  }

  // ---- the invariant ------------------------------------------------------------------

  /** An event somebody published, as it was published. */
  predicate Genuine(published: map<EventId, Payload>, event: Event) {
    IdOf(event).Some? && IdOf(event).value in published && event == EventOf(IdOf(event).value, published[IdOf(event).value])
  }

  ghost predicate OnQueue(queue: map<MessageId, Body>, event: Event) {
    exists m :: m in queue && Carried(queue[m]) == Some(event)
  }

  /** The event is waiting, parked or stored. */
  ghost predicate Kept(s: World, id: EventId)
    requires id in s.published
  {
    OnQueue(s.queue, EventOf(id, s.published[id])) || OnQueue(s.deadLetters, EventOf(id, s.published[id])) || HasId(s.rows, id)
  }

  ghost predicate AllKept(s: World) {
    forall id :: id in s.published ==> Kept(s, id)
  }

  ghost predicate BodiesGenuine(queue: map<MessageId, Body>, published: map<EventId, Payload>) {
    forall m :: m in queue && Carried(queue[m]).Some? ==> Genuine(published, Carried(queue[m]).value)
  }

  /** An item is what its message carries, for as long as the message is on the queue. */
  ghost predicate ItemKnown(s: World, item: Item) {
    item.id in s.used && Genuine(s.published, item.event) &&
    (item.id in s.queue ==> Carried(s.queue[item.id]) == Some(item.event))
  }

  ghost predicate ItemStored(s: World, item: Item) {
    IdOf(item.event).Some? && HasId(s.rows, IdOf(item.event).value)
  }

  ghost predicate WorkerSound(s: World, worker: Worker) {
    (forall k :: 0 <= k < |worker.buffer| ==> ItemKnown(s, worker.buffer[k])) &&
    (forall k :: 0 <= k < |worker.written| ==> ItemKnown(s, worker.written[k])) &&
    (forall k :: 0 <= k < |worker.written| ==> ItemStored(s, worker.written[k]))
  }

  ghost predicate RowsGenuine(rows: seq<Row>, published: map<EventId, Payload>) {
    forall k :: 0 <= k < |rows| && rows[k].eventId.Some? ==> RowGenuine(rows[k], published)
  }

  ghost predicate RowGenuine(row: Row, published: map<EventId, Payload>) {
    row.eventId.Some? && row.eventId.value in published && published[row.eventId.value] == row.payload
  }

  ghost predicate TableSound(s: World) {
    UniqueIds(s.rows) && RowsGenuine(s.rows, s.published)
  }

  ghost predicate QueuesSound(s: World) {
    s.queue.Keys <= s.used && s.deadLetters.Keys <= s.used && s.queue.Keys !! s.deadLetters.Keys &&
    BodiesGenuine(s.queue, s.published) && BodiesGenuine(s.deadLetters, s.published)
  }

  ghost predicate WorkersSound(s: World) {
    forall w :: w in s.workers ==> WorkerSound(s, s.workers[w])
  }

  ghost predicate Inv(s: World) {
    TableSound(s) && QueuesSound(s) && WorkersSound(s) && AllKept(s)
  }

  // ---- what a step may change ---------------------------------------------------------

  lemma HasIdStays(rows: seq<Row>, rows': seq<Row>, id: EventId)
    requires rows <= rows' && HasId(rows, id)
    ensures HasId(rows', id)
  {
    var k :| 0 <= k < |rows| && rows[k].eventId == Some(id);
    assert rows'[k] == rows[k];
  }

  /** Rows, published events and used ids only grow; messages keep their bodies. */
  ghost predicate Grows(s: World, s': World) {
    s.rows <= s'.rows && s.used <= s'.used &&
    (forall id :: id in s.published ==> id in s'.published && s'.published[id] == s.published[id]) &&
    (forall m :: m in s'.queue && m in s.used ==> m in s.queue && s'.queue[m] == s.queue[m])
  }

  lemma StepGrows(s: World, s': World, e: Step)
    requires Next(s, s', e) && s.queue.Keys <= s.used
    ensures Grows(s, s')
  {
    match e
    case Write(w) => InsertKeepsRows(s.rows, BatchRows(WorkerAt(s, w).buffer));
    case WriteDirectly(payloads) => InsertKeepsRows(s.rows, Direct(payloads));
    case _ =>
  }

  lemma WorkerStaysSound(s: World, s': World, worker: Worker)
    requires Grows(s, s') && WorkerSound(s, worker)
    ensures WorkerSound(s', worker)
  {
    hide HasId, Carried;
    forall k | 0 <= k < |worker.written|
      ensures ItemStored(s', worker.written[k])
    {
      HasIdStays(s.rows, s'.rows, IdOf(worker.written[k].event).value);
    }
  }

  // ---- each kind of step --------------------------------------------------------------

  lemma StepKeepsTable(s: World, s': World, e: Step)
    requires Inv(s) && Next(s, s', e)
    ensures TableSound(s')
  {
    match e
    case Write(w) =>
      WriteKeepsTable(s, w);
    case WriteDirectly(payloads) =>
      InsertKeepsUnique(s.rows, Direct(payloads));
      InsertGenuine(s.rows, Direct(payloads), s.published);
    case _ =>
  }

  lemma InsertGenuine(rows: seq<Row>, data: seq<Row>, published: map<EventId, Payload>)
    requires RowsGenuine(rows, published) && RowsGenuine(data, published)
    ensures RowsGenuine(InsertMany(rows, data), published)
  {
    var after := InsertMany(rows, data);
    forall k | 0 <= k < |after| && after[k].eventId.Some?
      ensures RowGenuine(after[k], published)
    {
      InsertedFrom(rows, data, after[k]);
    }
  }

  lemma WriteKeepsTable(s: World, w: WorkerId)
    requires Inv(s)
    ensures var rows := InsertMany(s.rows, BatchRows(WorkerAt(s, w).buffer)); UniqueIds(rows) && RowsGenuine(rows, s.published)
  {
    var buffer := WorkerAt(s, w).buffer;
    InsertKeepsUnique(s.rows, BatchRows(buffer));
    forall k | 0 <= k < |buffer|
      ensures RowGenuine(BatchRows(buffer)[k], s.published)
    {
      assert ItemKnown(s, buffer[k]);
    }
    InsertGenuine(s.rows, BatchRows(buffer), s.published);
  }

  lemma StepKeepsQueues(s: World, s': World, e: Step)
    requires Inv(s) && Next(s, s', e)
    ensures QueuesSound(s')
  {
    match e
    case Publish(id, payload, m, wrapped) =>
      PublishedCarried(id, payload, wrapped);
    case _ =>
  }

  lemma PublishedCarried(id: EventId, payload: Payload, wrapped: bool)
    ensures var event := EventOf(id, payload); Carried(if wrapped then Wrapped(event) else Raw(event)) == Some(event)
  {
    var event := EventOf(id, payload);
    PublishedIsRead(Message("", "", if wrapped then Wrapped(event) else Raw(event)), id, ANALYTICS_EVENT_RECORDED, payload,
      [ANALYTICS_EVENT_RECORDED]);
  }

  /** The worker a step belongs to. */
  function ActorOf(e: Step): Option<WorkerId> {
    match e
    case Receive(w, _) => Some(w)
    case Write(w) => Some(w)
    case WriteFails(w) => Some(w)
    case DeleteWritten(w, _) => Some(w)
    case _ => None
  }

  /** What a worker has just written is stored. */
  lemma WrittenIsStored(s: World, s': World, w: WorkerId)
    requires Inv(s) && Next(s, s', Write(w))
    ensures WorkerSound(s', s'.workers[w])
  {
    var buffer := WorkerAt(s, w).buffer;
    StepGrows(s, s', Write(w));
    WorkerStaysSound(s, s', WorkerAt(s, w));
    forall k | 0 <= k < |buffer|
      ensures ItemStored(s', buffer[k])
    {
      assert ItemKnown(s, buffer[k]);
      InsertCovers(s.rows, BatchRows(buffer), k);
    }
  }

  lemma ActorStaysSound(s: World, s': World, e: Step)
    requires Inv(s) && Next(s, s', e) && ActorOf(e).Some?
    ensures ActorOf(e).value in s'.workers && WorkerSound(s', s'.workers[ActorOf(e).value])
  {
    match e
    case Receive(w, m) =>
      StepGrows(s, s', e);
      WorkerStaysSound(s, s', WorkerAt(s, w));
    case Write(w) => WrittenIsStored(s, s', w);
    case _ =>
  }

  lemma StepKeepsWorkers(s: World, s': World, e: Step)
    requires Inv(s) && Next(s, s', e)
    ensures WorkersSound(s')
  {
    StepGrows(s, s', e);
    forall w | w in s'.workers
      ensures WorkerSound(s', s'.workers[w])
    {
      if ActorOf(e) == Some(w) {
        ActorStaysSound(s, s', e);
      } else {
        OthersUnchanged(s, s', e, w);
        WorkerStaysSound(s, s', s.workers[w]);
      }
    }
  }

  lemma OthersUnchanged(s: World, s': World, e: Step, w: WorkerId)
    requires Next(s, s', e) && ActorOf(e) != Some(w) && w in s'.workers
    ensures w in s.workers && s'.workers[w] == s.workers[w]
  {
  }

  /** A handled message leaves the queue only for the dead letters, or once its event is stored. */
  lemma LeavesStored(s: World, s': World, e: Step, m: MessageId)
    requires Inv(s) && Next(s, s', e)
    requires m in s.queue && m !in s'.queue && Carried(s.queue[m]).Some?
    ensures (m in s'.deadLetters && s'.deadLetters[m] == s.queue[m]) ||
      (IdOf(Carried(s.queue[m]).value).Some? && HasId(s.rows, IdOf(Carried(s.queue[m]).value).value))
  {
    if e.DeleteWritten? {
      DeletedItem(s, e.w, m);
    }
  }

  lemma StepKeepsEvent(s: World, s': World, e: Step, id: EventId)
    requires Inv(s) && Next(s, s', e) && id in s.published
    ensures id in s'.published && Kept(s', id)
  {
    StepGrows(s, s', e);
    assert Kept(s, id);
    var event := EventOf(id, s.published[id]);
    if HasId(s.rows, id) {
      HasIdStays(s.rows, s'.rows, id);
    } else if OnQueue(s.deadLetters, event) {
      DeadLettersStay(s, s', e, event);
    } else {
      var m :| m in s.queue && Carried(s.queue[m]) == Some(event);
      if m in s'.queue {
        assert Carried(s'.queue[m]) == Some(event);
      } else {
        LeavesStored(s, s', e, m);
        assert Carried(s'.deadLetters[m]) == Some(event);
      }
    }
  }

  lemma DeadLettersStay(s: World, s': World, e: Step, event: Event)
    requires Inv(s) && Next(s, s', e) && OnQueue(s.deadLetters, event)
    ensures OnQueue(s'.deadLetters, event)
  {
    var m :| m in s.deadLetters && Carried(s.deadLetters[m]) == Some(event);
    assert m in s'.deadLetters && Carried(s'.deadLetters[m]) == Some(event);
  }

  lemma NextInv(s: World, s': World, e: Step)
    requires Inv(s) && Next(s, s', e)
    ensures Inv(s')
  {
    StepKeepsTable(s, s', e);
    StepKeepsQueues(s, s', e);
    StepKeepsWorkers(s, s', e);
    forall id | id in s'.published
      ensures Kept(s', id)
    {
      if id in s.published {
        StepKeepsEvent(s, s', e, id);
      } else {
        assert e.Publish? && e.id == id;
        PublishedCarried(id, e.payload, e.wrapped);
        assert Carried(s'.queue[e.m]) == Some(EventOf(id, e.payload));
      }
    }
  }

  lemma {:induction false} RunsKeepInv(run: seq<World>, es: seq<Step>, k: nat)
    requires IsRun(run, es) && k < |run|
    ensures Inv(run[k])
    decreases k
  {
    if k > 0 {
      RunsKeepInv(run, es, k - 1);
      NextInv(run[k - 1], run[k], es[k - 1]);
    }
  }

  // ---- main results -------------------------------------------------------------------

  /** However deliveries, crashes and failures fall, a published event is on the queue, parked or stored. */
  lemma NoEventLost(run: seq<World>, es: seq<Step>, k: nat, id: EventId)
    requires IsRun(run, es) && k < |run| && id in run[k].published
    ensures OnQueue(run[k].queue, EventOf(id, run[k].published[id]))
      || OnQueue(run[k].deadLetters, EventOf(id, run[k].published[id]))
      || exists j :: 0 <= j < |run[k].rows| && run[k].rows[j] == Row(Some(id), run[k].published[id])
  {
    RunsKeepInv(run, es, k);
    assert Kept(run[k], id);
    if HasId(run[k].rows, id) {
      var j :| 0 <= j < |run[k].rows| && run[k].rows[j].eventId == Some(id);
      assert RowGenuine(run[k].rows[j], run[k].published);
      assert run[k].rows[j] == Row(Some(id), run[k].published[id]);
    }
  }

  /** An event is stored at most once, however often it is delivered and written. */
  lemma StoredAtMostOnce(run: seq<World>, es: seq<Step>, k: nat, i: nat, j: nat)
    requires IsRun(run, es) && k < |run| && i < |run[k].rows| && j < |run[k].rows|
    requires run[k].rows[i].eventId.Some? && run[k].rows[i].eventId == run[k].rows[j].eventId
    ensures i == j
  {
    RunsKeepInv(run, es, k);
    assert UniqueIds(run[k].rows);
  }

  /** A message of a handled type is deleted only after its event's row exists. */
  lemma DeletedAfterStored(run: seq<World>, es: seq<Step>, k: nat, m: MessageId)
    requires IsRun(run, es) && k < |es| && m in run[k].queue && Carried(run[k].queue[m]).Some?
    requires m !in run[k + 1].queue && !es[k].Park?
    ensures var event := Carried(run[k].queue[m]).value; IdOf(event).Some? && HasId(run[k].rows, IdOf(event).value)
  {
    RunsKeepInv(run, es, k);
    assert m in run[k].used && m !in run[k + 1].queue;
    LeavesStored(run[k], run[k + 1], es[k], m);
    if es[k].DeleteWritten? {
      DeletedItem(run[k], es[k].w, m);
    }
  }

  lemma DeletedItem(s: World, w: WorkerId, m: MessageId)
    requires Inv(s) && m in s.queue && m in Ids(WorkerAt(s, w).written)
    ensures Carried(s.queue[m]).Some? && IdOf(Carried(s.queue[m]).value).Some?
    ensures HasId(s.rows, IdOf(Carried(s.queue[m]).value).value)
  {
    hide Carried, HasId;
    var written := WorkerAt(s, w).written;
    var k :| 0 <= k < |written| && written[k].id == m;
    assert ItemKnown(s, written[k]) && ItemStored(s, written[k]);
  }
}
