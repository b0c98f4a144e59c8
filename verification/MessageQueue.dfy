/**
 PostgresMessageQueueRepository.cpp with every call as one step. The payload column is jsonb: `norm`
 takes a text to the one the column gives back for it, and has none for a text that is no JSON.
 */
module MessageQueue {
  import opened Wrappers
  import opened Transactions

  datatype Status = PENDING | PROCESSING | COMPLETED | FAILED

  type Norm = string -> Option<string>

  datatype Row = Row(topic: string, payload: string, status: Status, retries: nat, processedAt: Option<int>)

  datatype Message = Message(id: nat, row: Row)

  /** The table by id and the id sequence, which a rolled-back insert advances, too. */
  datatype Queue = Queue(rows: map<nat, Row>, nextId: nat)

  const EMPTY := Queue(map[], 1)

  ghost predicate Sound(q: Queue) {
    q.nextId > 0 && forall id :: id in q.rows ==> 0 < id < q.nextId
  }

  predicate Waiting(rows: map<nat, Row>, topic: string, id: nat) {
    id in rows && rows[id].topic == topic && rows[id].status == PENDING
  }

  /** The first waiting id from `id` on. */
  function HeadFrom(q: Queue, topic: string, id: nat): (head: Option<nat>)
    ensures match head
            case Some(h) =>
              Waiting(q.rows, topic, h) && id <= h && forall k :: id <= k < h ==> !Waiting(q.rows, topic, k)
            case None => forall k :: id <= k < q.nextId ==> !Waiting(q.rows, topic, k)
    decreases q.nextId - id
  {
    if id >= q.nextId then None
    else if Waiting(q.rows, topic, id) then Some(id)
    else HeadFrom(q, topic, id + 1)
  }

  /** `ORDER BY id ASC LIMIT 1` among the pending rows of the topic. */
  function Head(q: Queue, topic: string): Option<nat> { HeadFrom(q, topic, 0) }

  /** `stored` is the payload as the column has it. */
  function Publish(q: Queue, topic: string, stored: string): Queue {
    Queue(q.rows[q.nextId := Row(topic, stored, PENDING, 0, None)], q.nextId + 1)
  }

  function Poll(q: Queue, topic: string, now: int): (Queue, Option<Message>) {
    match Head(q, topic)
    case None => (q, None)
    case Some(id) =>
      var row := q.rows[id].(status := PROCESSING, processedAt := Some(now));
      (q.(rows := q.rows[id := row]), Some(Message(id, row)))
  }

  /** Any row, whatever its status. */
  function Acknowledge(q: Queue, id: nat, now: int): (Queue, bool) {
    if id !in q.rows then (q, false)
    else (q.(rows := q.rows[id := q.rows[id].(status := COMPLETED, processedAt := Some(now))]), true)
  }

  function Fail(q: Queue, id: nat): (Queue, bool) {
    if id !in q.rows then (q, false)
    else (q.(rows := q.rows[id := q.rows[id].(status := FAILED, retries := q.rows[id].retries + 1)]), true)
  }

  function WithStatus(q: Queue, topic: string, status: Status): set<nat> {
    set id | id in q.rows && q.rows[id].topic == topic && q.rows[id].status == status
  }

  function OfTopic(q: Queue, topic: string): set<nat> {
    set id | id in q.rows && q.rows[id].topic == topic
  }

  datatype Metrics = Metrics(pending: nat, processing: nat, completed: nat, failed: nat)
  {
    function Total(): nat { pending + processing + completed + failed }
  }

  datatype TopicMetrics = TopicMetrics(topic: string, metrics: Metrics)

  function MetricsOf(q: Queue, topic: string): Metrics {
    Metrics(|WithStatus(q, topic, PENDING)|, |WithStatus(q, topic, PROCESSING)|,
            |WithStatus(q, topic, COMPLETED)|, |WithStatus(q, topic, FAILED)|)
  }

  class PostgresMessageQueueRepository {
    var rows: map<nat, Row>
    var nextId: nat
    const norm: Norm

    constructor (norm: Norm)
      ensures State() == EMPTY && this.norm == norm
    {
      rows, nextId, this.norm := map[], 1, norm;
    }

    function State(): Queue
      reads this
    {
      Queue(rows, nextId)
    }

    /** A text that is no JSON fails before the insert draws an id. */
    method PublishMessage(topic: string, payload: string, fault: Fault) returns (id: nat)
      requires nextId > 0
      modifies this`rows, this`nextId
      ensures fault.EarlyFault? || norm(payload).None? ==> State() == old(State()) && id == 0
      ensures !fault.EarlyFault? && norm(payload).Some? ==>
                && nextId == old(nextId) + 1 && id == (if fault.NoFault? then old(nextId) else 0)
                && rows == Settle(old(State()), Publish(old(State()), topic, norm(payload).value), fault).rows
    {
      if fault.EarlyFault? || norm(payload).None? { return 0; }
      id := nextId;
      nextId := nextId + 1;
      if fault.NoFault? || fault.applied {
        rows := rows[id := Row(topic, norm(payload).value, PENDING, 0, None)];
      }
      if fault.LateFault? { return 0; }
    }

    /** A commit that fails after being applied takes the message without delivering it. */
    method PollNext(topic: string, now: int, fault: Fault) returns (message: Option<Message>)
      modifies this`rows
      ensures State() == Settle(old(State()), Poll(old(State()), topic, now).0, fault)
      ensures message == if fault.NoFault? then Poll(old(State()), topic, now).1 else None
    {
      message := None;
      if fault.EarlyFault? { return; }
      var head := Head(State(), topic);
      if head.None? { return; }
      var id := head.value;
      var row := rows[id].(status := PROCESSING, processedAt := Some(now));
      if fault.NoFault? || fault.applied {
        rows := rows[id := row];
      }
      if fault.NoFault? {
        message := Some(Message(id, row));
      }
    }

    method AcknowledgeMessage(id: nat, now: int, fault: Fault) returns (ok: bool)
      modifies this`rows
      ensures State() == Settle(old(State()), Acknowledge(old(State()), id, now).0, fault)
      ensures ok == (fault.NoFault? && Acknowledge(old(State()), id, now).1)
    {
      if fault.EarlyFault? || id !in rows { return false; }
      if fault.NoFault? || fault.applied {
        rows := rows[id := rows[id].(status := COMPLETED, processedAt := Some(now))];
      }
      ok := fault.NoFault?;
    }

    method FailMessage(id: nat, fault: Fault) returns (ok: bool)
      modifies this`rows
      ensures State() == Settle(old(State()), Fail(old(State()), id).0, fault)
      ensures ok == (fault.NoFault? && Fail(old(State()), id).1)
    {
      if fault.EarlyFault? || id !in rows { return false; }
      if fault.NoFault? || fault.applied {
        rows := rows[id := rows[id].(status := FAILED, retries := rows[id].retries + 1)];
      }
      ok := fault.NoFault?;
    }

    /**
     One entry for each topic that has a row, in the order the database sorts them. `ordered` is
     those topics as its GROUP BY and ORDER BY give them.
     */
    method GetMetrics(ordered: seq<string>, fails: bool) returns (metrics: seq<TopicMetrics>)
      requires forall i, j :: 0 <= i < j < |ordered| ==> ordered[i] != ordered[j]
      requires forall topic :: topic in ordered <==> exists id :: id in rows && rows[id].topic == topic
      ensures fails ==> metrics == []
      ensures !fails ==> |metrics| == |ordered|
      ensures !fails ==>
                forall i :: 0 <= i < |metrics| ==>
                  metrics[i] == TopicMetrics(ordered[i], MetricsOf(State(), ordered[i]))
    {
      metrics := [];
      if fails { return; }
      for i := 0 to |ordered|
        invariant |metrics| == i
        invariant forall k :: 0 <= k < i ==> metrics[k] == TopicMetrics(ordered[k], MetricsOf(State(), ordered[k]))
      {
        metrics := metrics + [TopicMetrics(ordered[i], MetricsOf(State(), ordered[i]))];
      }
    }
  }

  // ----- Runs -----

  datatype Event =
    | Published(topic: string, id: nat)
    | Delivered(topic: string, id: nat)
    | Early(topic: string, id: nat)      // acknowledged or failed before it was polled
    | FailCounted(id: nat)

  /** What an event counts for. */
  datatype Tag = PublishedTo(topic: string) | DeliveredFrom(topic: string) | EarlyIn(topic: string) | FailOf(id: nat)

  function TagOf(e: Event): Tag {
    match e
    case Published(topic, _) => PublishedTo(topic)
    case Delivered(topic, _) => DeliveredFrom(topic)
    case Early(topic, _) => EarlyIn(topic)
    case FailCounted(id) => FailOf(id)
  }

  function Count(log: seq<Event>, tag: Tag): nat {
    if log == [] then 0
    else Count(log[..|log| - 1], tag) + if TagOf(log[|log| - 1]) == tag then 1 else 0
  }

  lemma CountMore(log: seq<Event>, e: Event, tag: Tag)
    ensures Count(log + [e], tag) == Count(log, tag) + if TagOf(e) == tag then 1 else 0
  {
    assert (log + [e])[..|log|] == log;
  }

  datatype Op =
    | PublishOp(topic: string, payload: string)
    | PollOp(topic: string, now: int)
    | AcknowledgeOp(id: nat, now: int)
    | FailOp(id: nat)

  datatype State = State(queue: Queue, log: seq<Event>)

  const START := State(EMPTY, [])

  function EarlyEvents(q: Queue, id: nat): seq<Event> {
    if id in q.rows && q.rows[id].status == PENDING then [Early(q.rows[id].topic, id)] else []
  }

  function Step(s: State, op: Op, norm: Norm): State {
    var q := s.queue;
    match op
    case PublishOp(topic, payload) =>
      match norm(payload) {
        case None => s
        case Some(stored) => State(Publish(q, topic, stored), s.log + [Published(topic, q.nextId)])
      }
    case PollOp(topic, now) =>
      var (next, message) := Poll(q, topic, now);
      State(next, if message.Some? then s.log + [Delivered(topic, message.value.id)] else s.log)
    case AcknowledgeOp(id, now) => State(Acknowledge(q, id, now).0, s.log + EarlyEvents(q, id))
    case FailOp(id) =>
      var (next, ok) := Fail(q, id);
      State(next, s.log + EarlyEvents(q, id) + if ok then [FailCounted(id)] else [])
  }

  /** Messages leave a topic in the order of their ids, each at most once. */
  ghost predicate Increasing(log: seq<Event>) {
    forall i, j ::
      0 <= i < j < |log| && log[i].Delivered? && log[j].Delivered? && log[i].topic == log[j].topic ==>
      log[i].id < log[j].id
  }

  ghost predicate Ordered(s: State) {
    && Increasing(s.log)
    && (forall i, id: nat ::
          0 <= i < |s.log| && s.log[i].Delivered? && Waiting(s.queue.rows, s.log[i].topic, id) ==> s.log[i].id < id)
    && (forall i :: 0 <= i < |s.log| && s.log[i].Delivered? ==> s.log[i].id in s.queue.rows)
  }

  /** Conservation: of rows, of waiting rows and of failures. */
  ghost predicate Balanced(s: State) {
    && (forall topic :: TopicBalanced(s.queue, s.log, topic))
    && (forall id: nat :: RetriesCounted(s.queue, s.log, id))
  }

  ghost predicate TopicBalanced(q: Queue, log: seq<Event>, topic: string) {
    && |OfTopic(q, topic)| == Count(log, PublishedTo(topic))
    && |WithStatus(q, topic, PENDING)| + Count(log, DeliveredFrom(topic)) + Count(log, EarlyIn(topic))
       == Count(log, PublishedTo(topic))
  }

  ghost predicate RetriesCounted(q: Queue, log: seq<Event>, id: nat) {
    Count(log, FailOf(id)) == if id in q.rows then q.rows[id].retries else 0
  }

  ghost predicate Inv(s: State) {
    Sound(s.queue) && Ordered(s) && Balanced(s)
  }

  lemma OrderedStep(s: State, op: Op, norm: Norm)
    requires Sound(s.queue) && Ordered(s)
    ensures Ordered(Step(s, op, norm)) && Sound(Step(s, op, norm).queue)
  {
    var next := Step(s, op, norm);
    match op {
      case PollOp(topic, now) => OrderedPoll(s, topic, now, norm);
      case PublishOp(topic, payload) =>
        if norm(payload).Some? {
          OrderedOther(s, next, [Published(topic, s.queue.nextId)]);
        }
      case AcknowledgeOp(id, now) => OrderedOther(s, next, EarlyEvents(s.queue, id));
      case FailOp(id) =>
        var more := if Fail(s.queue, id).1 then [FailCounted(id)] else [];
        assert next.log == s.log + (EarlyEvents(s.queue, id) + more);
        OrderedOther(s, next, EarlyEvents(s.queue, id) + more);
    }
  }

  lemma OrderedPoll(s: State, topic: string, now: int, norm: Norm)
    requires Sound(s.queue) && Ordered(s)
    ensures Ordered(Step(s, PollOp(topic, now), norm)) && Sound(Step(s, PollOp(topic, now), norm).queue)
  {
    var next := Step(s, PollOp(topic, now), norm);
    HeadIsFirst(s.queue, topic);
    hide Head;
    if Head(s.queue, topic).Some? {
      var id := Head(s.queue, topic).value;
      assert forall t, k: nat :: Waiting(next.queue.rows, t, k) ==> Waiting(s.queue.rows, t, k) && k != id;
      assert next.log == s.log + [Delivered(topic, id)];
    }
  }

  /** A step that delivers nothing and lets only a new row start to wait. */
  lemma OrderedOther(s: State, next: State, more: seq<Event>)
    requires Sound(s.queue) && Ordered(s) && next.log == s.log + more
    requires forall e :: e in more ==> !e.Delivered?
    requires s.queue.rows.Keys <= next.queue.rows.Keys
    requires forall topic, id: nat :: Waiting(next.queue.rows, topic, id) ==>
               Waiting(s.queue.rows, topic, id) || id >= s.queue.nextId
    ensures Ordered(next)
  {
    assert forall i :: |s.log| <= i < |next.log| ==> next.log[i] in more;
    assert forall i :: 0 <= i < |s.log| ==> next.log[i] == s.log[i];
  }

  lemma HeadIsFirst(q: Queue, topic: string)
    requires Sound(q)
    ensures Head(q, topic).Some? ==> Waiting(q.rows, topic, Head(q, topic).value)
    ensures forall id: nat :: Waiting(q.rows, topic, id) ==> Head(q, topic).Some? && Head(q, topic).value <= id
  {
    hide HeadFrom;
    forall id: nat | Waiting(q.rows, topic, id)
      ensures Head(q, topic).Some? && Head(q, topic).value <= id
    {
      assert 0 <= id < q.nextId;
      if Head(q, topic).Some? {
        assert id < Head(q, topic).value ==> !Waiting(q.rows, topic, id);
      }
    }
  }

  /** Only this row changed, and it does not wait now. */
  ghost predicate StopsWaiting(q: Queue, next: Queue, id: nat) {
    && id in q.rows && next.rows.Keys == q.rows.Keys
    && (forall k :: k in q.rows && k != id ==> next.rows[k] == q.rows[k])
    && next.rows[id].topic == q.rows[id].topic && next.rows[id].status != PENDING
    && next.rows[id].retries == q.rows[id].retries
  }

  lemma PendingLess(q: Queue, next: Queue, id: nat, topic: string)
    requires StopsWaiting(q, next, id)
    ensures OfTopic(next, topic) == OfTopic(q, topic)
    ensures |WithStatus(next, topic, PENDING)| ==
            |WithStatus(q, topic, PENDING)| - (if Waiting(q.rows, topic, id) then 1 else 0)
  {
    if Waiting(q.rows, topic, id) {
      assert WithStatus(next, topic, PENDING) == WithStatus(q, topic, PENDING) - {id};
    } else {
      assert WithStatus(next, topic, PENDING) == WithStatus(q, topic, PENDING);
    }
  }

  lemma AddedRow(q: Queue, topic: string, stored: string, t: string)
    requires Sound(q)
    ensures var next := Publish(q, topic, stored);
            && |OfTopic(next, t)| == |OfTopic(q, t)| + (if t == topic then 1 else 0)
            && |WithStatus(next, t, PENDING)| == |WithStatus(q, t, PENDING)| + (if t == topic then 1 else 0)
  {
    AddedSets(q, topic, stored, t);
    hide OfTopic, WithStatus, Publish;
    if t == topic {
      UnionSize(OfTopic(q, t), {q.nextId});
      UnionSize(WithStatus(q, t, PENDING), {q.nextId});
    }
  }

  lemma AddedSets(q: Queue, topic: string, stored: string, t: string)
    requires Sound(q)
    ensures var next := Publish(q, topic, stored);
            && OfTopic(next, t) == OfTopic(q, t) + (if t == topic then {q.nextId} else {})
            && WithStatus(next, t, PENDING) == WithStatus(q, t, PENDING) + (if t == topic then {q.nextId} else {})
    ensures OfTopic(q, t) !! {q.nextId} && WithStatus(q, t, PENDING) !! {q.nextId}
  {
  }

  lemma BalancedPublish(s: State, topic: string, stored: string)
    requires Sound(s.queue) && Balanced(s)
    ensures Balanced(State(Publish(s.queue, topic, stored), s.log + [Published(topic, s.queue.nextId)]))
  {
    hide TopicBalanced, RetriesCounted, Publish;
    forall t
      ensures TopicBalanced(Publish(s.queue, topic, stored), s.log + [Published(topic, s.queue.nextId)], t)
    {
      PublishTopic(s, topic, stored, t);
    }
    forall id: nat
      ensures RetriesCounted(Publish(s.queue, topic, stored), s.log + [Published(topic, s.queue.nextId)], id)
    {
      PublishRetries(s, topic, stored, id);
    }
  }

  lemma PublishTopic(s: State, topic: string, stored: string, t: string)
    requires Sound(s.queue) && TopicBalanced(s.queue, s.log, t)
    ensures TopicBalanced(Publish(s.queue, topic, stored), s.log + [Published(topic, s.queue.nextId)], t)
  {
    var e := Published(topic, s.queue.nextId);
    AddedRow(s.queue, topic, stored, t);
    hide OfTopic, WithStatus, Count, Publish, Sound;
    CountMore(s.log, e, PublishedTo(t));
    CountMore(s.log, e, DeliveredFrom(t));
    CountMore(s.log, e, EarlyIn(t));
  }

  lemma PublishRetries(s: State, topic: string, stored: string, id: nat)
    requires Sound(s.queue) && RetriesCounted(s.queue, s.log, id)
    ensures RetriesCounted(Publish(s.queue, topic, stored), s.log + [Published(topic, s.queue.nextId)], id)
  {
    CountMore(s.log, Published(topic, s.queue.nextId), FailOf(id));
    hide Count;
  }

  lemma BalancedPoll(s: State, topic: string, now: int, norm: Norm)
    requires Sound(s.queue) && Balanced(s)
    ensures Balanced(Step(s, PollOp(topic, now), norm))
  {
    var q, next := s.queue, Step(s, PollOp(topic, now), norm);
    HeadIsFirst(q, topic);
    hide Head;
    if Head(q, topic).Some? {
      LogsOne(s, next, Head(q, topic).value, Delivered(topic, Head(q, topic).value));
    }
  }

  /** A waiting row stops waiting, and the one new event says how. */
  lemma LogsOne(s: State, next: State, id: nat, e: Event)
    requires Balanced(s) && next.log == s.log + [e] && StopsWaiting(s.queue, next.queue, id)
    requires e.Delivered? || e.Early?
    requires Waiting(s.queue.rows, e.topic, id)
    ensures Balanced(next)
  {
    forall t
      ensures TopicBalanced(next.queue, next.log, t)
    {
      assert TopicBalanced(s.queue, s.log, t);
      PendingLess(s.queue, next.queue, id, t);
      hide OfTopic, WithStatus, Count, StopsWaiting;
      CountMore(s.log, e, PublishedTo(t));
      CountMore(s.log, e, DeliveredFrom(t));
      CountMore(s.log, e, EarlyIn(t));
    }
    forall k: nat
      ensures RetriesCounted(next.queue, next.log, k)
    {
      assert RetriesCounted(s.queue, s.log, k);
      CountMore(s.log, e, FailOf(k));
      hide Count;
    }
  }

  /** An acknowledgement or failure, without the count of failures. */
  lemma LogsEarly(s: State, next: State, id: nat)
    requires Balanced(s) && StopsWaiting(s.queue, next.queue, id)
    requires next.log == s.log + EarlyEvents(s.queue, id)
    ensures Balanced(next)
  {
    if s.queue.rows[id].status == PENDING {
      LogsOne(s, next, id, Early(s.queue.rows[id].topic, id));
    } else {
      assert next.log == s.log;
      forall t
        ensures TopicBalanced(next.queue, next.log, t)
      {
        assert TopicBalanced(s.queue, s.log, t);
        PendingLess(s.queue, next.queue, id, t);
        hide OfTopic, WithStatus, Count, StopsWaiting;
      }
      forall k: nat
        ensures RetriesCounted(next.queue, next.log, k)
      {
        assert RetriesCounted(s.queue, s.log, k);
        hide Count;
      }
    }
  }

  lemma SameSets(q: Queue, next: Queue, topic: string)
    requires next.rows.Keys == q.rows.Keys
    requires forall id :: id in q.rows ==>
               next.rows[id].topic == q.rows[id].topic && next.rows[id].status == q.rows[id].status
    ensures OfTopic(next, topic) == OfTopic(q, topic)
    ensures WithStatus(next, topic, PENDING) == WithStatus(q, topic, PENDING)
  {
  }

  lemma LogsFailure(s: State, next: State, id: nat)
    requires Balanced(s) && next.log == s.log + [FailCounted(id)] && id in s.queue.rows
    requires var row := s.queue.rows[id];
             next.queue == s.queue.(rows := s.queue.rows[id := row.(retries := row.retries + 1)])
    ensures Balanced(next)
  {
    forall t
      ensures TopicBalanced(next.queue, next.log, t)
    {
      assert TopicBalanced(s.queue, s.log, t);
      SameSets(s.queue, next.queue, t);
      hide OfTopic, WithStatus, Count;
      CountMore(s.log, FailCounted(id), PublishedTo(t));
      CountMore(s.log, FailCounted(id), DeliveredFrom(t));
      CountMore(s.log, FailCounted(id), EarlyIn(t));
    }
    forall k: nat
      ensures RetriesCounted(next.queue, next.log, k)
    {
      assert RetriesCounted(s.queue, s.log, k);
      CountMore(s.log, FailCounted(id), FailOf(k));
      hide Count;
    }
  }

  /** A failure is a settlement followed by one more retry. */
  lemma FailInTwo(s: State, id: nat, norm: Norm)
    requires id in s.queue.rows
    ensures var mid := Settled(s, id);
            var row := mid.queue.rows[id];
            Step(s, FailOp(id), norm)
            == State(mid.queue.(rows := mid.queue.rows[id := row.(retries := row.retries + 1)]),
                     mid.log + [FailCounted(id)])
  {
    var mid := Settled(s, id);
    var row := mid.queue.rows[id];
    assert mid.queue.rows[id := row.(retries := row.retries + 1)] == Fail(s.queue, id).0.rows;
  }

  function Settled(s: State, id: nat): State
    requires id in s.queue.rows
  {
    State(s.queue.(rows := s.queue.rows[id := s.queue.rows[id].(status := FAILED)]), s.log + EarlyEvents(s.queue, id))
  }

  lemma BalancedFail(s: State, id: nat, norm: Norm)
    requires Balanced(s) && id in s.queue.rows
    ensures Balanced(Step(s, FailOp(id), norm))
  {
    hide Balanced, EarlyEvents, Step;
    LogsEarly(s, Settled(s, id), id);
    FailInTwo(s, id, norm);
    LogsFailure(Settled(s, id), Step(s, FailOp(id), norm), id);
  }

  lemma InvStep(s: State, op: Op, norm: Norm)
    requires Inv(s)
    ensures Inv(Step(s, op, norm))
  {
    OrderedStep(s, op, norm);
    hide Ordered, Sound, Balanced;
    match op {
      case PublishOp(topic, payload) =>
        if norm(payload).Some? {
          BalancedPublish(s, topic, norm(payload).value);
        }
      case PollOp(topic, now) => BalancedPoll(s, topic, now, norm);
      case AcknowledgeOp(id, now) =>
        if id in s.queue.rows {
          LogsEarly(s, Step(s, op, norm), id);
        } else {
          assert s.log + [] == s.log;
        }
      case FailOp(id) =>
        if id in s.queue.rows {
          BalancedFail(s, id, norm);
        } else {
          assert s.log + [] + [] == s.log;
        }
    }
  }

  function Run(s: State, ops: seq<Op>, norm: Norm): State
    decreases |ops|
  {
    if ops == [] then s else Run(Step(s, ops[0], norm), ops[1..], norm)
  }

  lemma {:induction false} InvRun(s: State, ops: seq<Op>, norm: Norm)
    requires Inv(s)
    ensures Inv(Run(s, ops, norm))
    decreases |ops|
  {
    hide Inv, Step;
    if ops != [] {
      InvStep(s, ops[0], norm);
      InvRun(Step(s, ops[0], norm), ops[1..], norm);
    }
  }

  /** A message that has left PENDING, by failing or otherwise, is never handed out again. */
  lemma {:induction false} NothingIsRetried(s: State, ops: seq<Op>, id: nat, norm: Norm)
    requires id in s.queue.rows && s.queue.rows[id].status != PENDING && Sound(s.queue)
    ensures id in Run(s, ops, norm).queue.rows && Run(s, ops, norm).queue.rows[id].status != PENDING
    decreases |ops|
  {
    if ops != [] {
      SoundStep(s, ops[0], norm);
      assert id != s.queue.nextId;
      hide Head;
      NothingIsRetried(Step(s, ops[0], norm), ops[1..], id, norm);
    }
  }

  lemma SoundStep(s: State, op: Op, norm: Norm)
    requires Sound(s.queue)
    ensures Sound(Step(s, op, norm).queue)
  {
    if op.PollOp? {
      HeadIsFirst(s.queue, op.topic);
    }
    hide Head;
  }

  lemma {:induction false} ContentStays(s: State, ops: seq<Op>, id: nat, norm: Norm)
    requires Sound(s.queue) && id in s.queue.rows
    ensures Sound(Run(s, ops, norm).queue) && id in Run(s, ops, norm).queue.rows
    ensures var a, b := s.queue.rows[id], Run(s, ops, norm).queue.rows[id];
            a.topic == b.topic && a.payload == b.payload
    decreases |ops|
  {
    if ops != [] {
      SoundStep(s, ops[0], norm);
      assert id != s.queue.nextId;
      hide Head;
      ContentStays(Step(s, ops[0], norm), ops[1..], id, norm);
    }
  }

  /**
   A text that is no JSON is never published. Any other is stored as its normal form, and whatever
   happens afterwards, topic and stored payload stay so and a poll answers with exactly them.
   */
  lemma ContentIsKept(s: State, topic: string, payload: string, ops: seq<Op>, norm: Norm)
    requires Sound(s.queue)
    ensures var id, published := s.queue.nextId, Step(s, PublishOp(topic, payload), norm);
            var q := Run(published, ops, norm).queue;
            match norm(payload)
            case None => published == s
            case Some(stored) =>
              && id in q.rows && q.rows[id].topic == topic && q.rows[id].payload == stored
              && forall t, now ::
                   var m := Poll(q, t, now).1;
                   m.Some? && m.value.id == id ==> t == topic && m.value.row.payload == stored
  {
    var published := Step(s, PublishOp(topic, payload), norm);
    if norm(payload).Some? {
      SoundStep(s, PublishOp(topic, payload), norm);
      ContentStays(published, ops, s.queue.nextId, norm);
      var q := Run(published, ops, norm).queue;
      forall t, now | Poll(q, t, now).1.Some? && Poll(q, t, now).1.value.id == s.queue.nextId
        ensures t == topic && Poll(q, t, now).1.value.row.payload == norm(payload).value
      {
        HeadIsFirst(q, t);
      }
    }
  }

  lemma InvStart()
    ensures Inv(START)
  {
    assert forall topic :: OfTopic(EMPTY, topic) == {} && WithStatus(EMPTY, topic, PENDING) == {};
  }

  lemma StatusesPartition(q: Queue, topic: string)
    ensures MetricsOf(q, topic).Total() == |OfTopic(q, topic)|
  {
    var a, b := WithStatus(q, topic, PENDING), WithStatus(q, topic, PROCESSING);
    var c, d := WithStatus(q, topic, COMPLETED), WithStatus(q, topic, FAILED);
    StatusesCover(q, topic);
    hide WithStatus, OfTopic;
    UnionSize(a, b);
    UnionSize(a + b, c);
    UnionSize(a + b + c, d);
  }

  lemma StatusesCover(q: Queue, topic: string)
    ensures var a, b := WithStatus(q, topic, PENDING), WithStatus(q, topic, PROCESSING);
            var c, d := WithStatus(q, topic, COMPLETED), WithStatus(q, topic, FAILED);
            && OfTopic(q, topic) == a + b + c + d
            && a !! b && a + b !! c && a + b + c !! d
  {
  }

  lemma UnionSize(a: set<nat>, b: set<nat>)
    requires a !! b
    ensures |a + b| == |a| + |b|
  {
  }

  /**
   After every run: the ids delivered from a topic increase, the four counts of a topic sum to
   what was published to it, and each retry count is the number of successful failures.
   */
  lemma RunTotals(ops: seq<Op>, norm: Norm)
    ensures var s := Run(START, ops, norm);
            && Increasing(s.log)
            && (forall topic :: MetricsOf(s.queue, topic).Total() == Count(s.log, PublishedTo(topic)))
            && (forall id: nat :: id in s.queue.rows ==> s.queue.rows[id].retries == Count(s.log, FailOf(id)))
  {
    InvStart();
    InvRun(START, ops, norm);
    var s := Run(START, ops, norm);
    hide Run, Ordered, Count, OfTopic, Metrics.Total, MetricsOf;
    forall topic
      ensures MetricsOf(s.queue, topic).Total() == Count(s.log, PublishedTo(topic))
    {
      assert TopicBalanced(s.queue, s.log, topic);
      StatusesPartition(s.queue, topic);
    }
    forall id: nat | id in s.queue.rows
      ensures s.queue.rows[id].retries == Count(s.log, FailOf(id))
    {
      assert RetriesCounted(s.queue, s.log, id);
    }
    assert Increasing(s.log) by { OrderedIncreases(s); }
  }

  lemma OrderedIncreases(s: State)
    requires Ordered(s)
    ensures Increasing(s.log)
  {
  }

  // ----- What each call does to a row and to the counts -----

  /** Only this row is written. */
  predicate Writes(q: Queue, next: Queue, id: nat, row: Row) {
    next.nextId == q.nextId && next.rows == q.rows[id := row]
  }

  /** A poll takes the smallest waiting id, marks it as being processed now and answers with that very row. */
  lemma PollIsExact(q: Queue, topic: string, now: int)
    requires Sound(q)
    ensures var (next, message) := Poll(q, topic, now);
            match message
            case None => next == q && forall id: nat :: !Waiting(q.rows, topic, id)
            case Some(m) =>
              && Waiting(q.rows, topic, m.id) && (forall id: nat :: Waiting(q.rows, topic, id) ==> m.id <= id)
              && var was := q.rows[m.id];
                 && m.row == Row(was.topic, was.payload, PROCESSING, was.retries, Some(now))
                 && Writes(q, next, m.id, m.row)
  {
    HeadIsFirst(q, topic);
    hide Head;
  }

  /** An acknowledged row is completed now, a failed one is failed with one more retry; other rows stay. */
  lemma SettlingIsExact(q: Queue, id: nat, now: int)
    ensures id !in q.rows ==> Acknowledge(q, id, now) == (q, false) && Fail(q, id) == (q, false)
    ensures id in q.rows ==>
              var was := q.rows[id];
              && Acknowledge(q, id, now).1 && Fail(q, id).1
              && Writes(q, Acknowledge(q, id, now).0, id,
                        Row(was.topic, was.payload, COMPLETED, was.retries, Some(now)))
              && Writes(q, Fail(q, id).0, id,
                        Row(was.topic, was.payload, FAILED, was.retries + 1, was.processedAt))
  {
  }

  function One(b: bool): int { if b then 1 else 0 }

  predicate Counts(row: Row, topic: string, status: Status) { row.topic == topic && row.status == status }

  lemma StatusSets(q: Queue, next: Queue, id: nat, row: Row, topic: string, status: Status)
    requires id in q.rows && Writes(q, next, id, row)
    ensures var rest := WithStatus(q, topic, status) - {id};
            && WithStatus(q, topic, status) == (if Counts(q.rows[id], topic, status) then rest + {id} else rest)
            && WithStatus(next, topic, status) == (if Counts(row, topic, status) then rest + {id} else rest)
  {
  }

  lemma OneMore(rest: set<nat>, id: nat)
    requires id !in rest
    ensures |rest + {id}| == |rest| + 1
  {
  }

  /** A row that changes its status leaves one count and enters another. */
  lemma CountMoves(q: Queue, next: Queue, id: nat, row: Row, topic: string, status: Status)
    requires id in q.rows && Writes(q, next, id, row)
    ensures |WithStatus(next, topic, status)| == |WithStatus(q, topic, status)|
            + One(row.topic == topic && row.status == status)
            - One(q.rows[id].topic == topic && q.rows[id].status == status)
  {
    StatusSets(q, next, id, row, topic, status);
    hide WithStatus, Writes;
    OneMore(WithStatus(q, topic, status) - {id}, id);
  }

  /** The metrics of the row's topic after it has got another status; those of other topics stay. */
  lemma MetricsMove(q: Queue, next: Queue, id: nat, row: Row, topic: string)
    requires id in q.rows && row.topic == q.rows[id].topic && Writes(q, next, id, row)
    ensures var m, n, was := MetricsOf(q, topic), MetricsOf(next, topic), q.rows[id].status;
            if topic != row.topic then n == m
            else
              && n.pending == m.pending + One(row.status == PENDING) - One(was == PENDING)
              && n.processing == m.processing + One(row.status == PROCESSING) - One(was == PROCESSING)
              && n.completed == m.completed + One(row.status == COMPLETED) - One(was == COMPLETED)
              && n.failed == m.failed + One(row.status == FAILED) - One(was == FAILED)
  {
    CountMoves(q, next, id, row, topic, PENDING);
    CountMoves(q, next, id, row, topic, PROCESSING);
    CountMoves(q, next, id, row, topic, COMPLETED);
    CountMoves(q, next, id, row, topic, FAILED);
    hide WithStatus;
  }

  /** An acknowledged message is counted as completed and a failed one as failed, wherever it was counted before. */
  lemma SettledIsCounted(q: Queue, id: nat, now: int)
    requires id in q.rows
    ensures var topic, was := q.rows[id].topic, q.rows[id].status;
            var m := MetricsOf(q, topic);
            var a, f := MetricsOf(Acknowledge(q, id, now).0, topic), MetricsOf(Fail(q, id).0, topic);
            && a.completed == m.completed + One(was != COMPLETED) && a.failed == m.failed - One(was == FAILED)
            && f.failed == m.failed + One(was != FAILED) && f.completed == m.completed - One(was == COMPLETED)
            && a.pending == f.pending == m.pending - One(was == PENDING)
            && a.processing == f.processing == m.processing - One(was == PROCESSING)
  {
    SettlingIsExact(q, id, now);
    var was := q.rows[id];
    MetricsMove(q, Acknowledge(q, id, now).0, id, Row(was.topic, was.payload, COMPLETED, was.retries, Some(now)),
                was.topic);
    MetricsMove(q, Fail(q, id).0, id, Row(was.topic, was.payload, FAILED, was.retries + 1, was.processedAt), was.topic);
    hide MetricsOf, Acknowledge, Fail, Writes;
  }

  /** A published message is counted as pending, a polled one as being processed. */
  lemma PolledIsCounted(q: Queue, topic: string, stored: string, now: int)
    requires Sound(q)
    ensures var m, n := MetricsOf(q, topic), MetricsOf(Publish(q, topic, stored), topic);
            n == m.(pending := m.pending + 1)
    ensures Poll(q, topic, now).1.Some? ==>
              var m := MetricsOf(q, topic);
              m.pending > 0
              && MetricsOf(Poll(q, topic, now).0, topic)
                 == m.(pending := m.pending - 1, processing := m.processing + 1)
    ensures var next := Publish(q, topic, stored);
            && next.nextId == q.nextId + 1
            && next.rows == q.rows[q.nextId := Row(topic, stored, PENDING, 0, None)]
  {
    PublishCounts(q, topic, stored);
    PollIsExact(q, topic, now);
    if Poll(q, topic, now).1.Some? {
      var m := Poll(q, topic, now).1.value;
      MetricsMove(q, Poll(q, topic, now).0, m.id, m.row, topic);
    }
    hide MetricsOf, Poll, Publish, Writes;
  }

  lemma PublishCounts(q: Queue, topic: string, stored: string)
    requires Sound(q)
    ensures var m, n := MetricsOf(q, topic), MetricsOf(Publish(q, topic, stored), topic);
            n == m.(pending := m.pending + 1)
  {
    AddedRow(q, topic, stored, topic);
    var next := Publish(q, topic, stored);
    assert WithStatus(next, topic, PROCESSING) == WithStatus(q, topic, PROCESSING);
    assert WithStatus(next, topic, COMPLETED) == WithStatus(q, topic, COMPLETED);
    assert WithStatus(next, topic, FAILED) == WithStatus(q, topic, FAILED);
  }

  // ----- Draining -----

  /** The answers of polls in a row. */
  function Polls(q: Queue, topic: string, times: nat, now: int): (answers: seq<Option<Message>>)
    ensures |answers| == times
    decreases times
  {
    if times == 0 then []
    else
      [Poll(q, topic, now).1] + Polls(Poll(q, topic, now).0, topic, times - 1, now)
  }

  /** As many polls as there are waiting messages find one each, and every later poll finds none. */
  lemma {:induction false} DrainedByExactly(q: Queue, topic: string, times: nat, now: int)
    requires Sound(q)
    ensures forall k :: 0 <= k < times ==>
              (Polls(q, topic, times, now)[k].Some? <==> k < |WithStatus(q, topic, PENDING)|)
    decreases times
  {
    if times > 0 {
      var (next, message) := Poll(q, topic, now);
      HeadIsFirst(q, topic);
      var waiting := WithStatus(q, topic, PENDING);
      if message.Some? {
        PendingLess(q, next, message.value.id, topic);
      } else {
        assert forall id :: id in waiting ==> Waiting(q.rows, topic, id);
        assert waiting == {};
      }
      var answers := Polls(q, topic, times, now);
      assert answers == [message] + Polls(next, topic, times - 1, now);
      hide Poll, Polls;
      DrainedByExactly(next, topic, times - 1, now);
      hide WithStatus;
      assert forall k :: 0 < k < times ==> answers[k] == Polls(next, topic, times - 1, now)[k - 1];
    }
  }

  /** After a run without early acknowledgements, exactly the published messages that were not delivered remain. */
  lemma RemainingPolls(ops: seq<Op>, topic: string, times: nat, now: int, norm: Norm)
    requires Count(Run(START, ops, norm).log, EarlyIn(topic)) == 0
    ensures var s := Run(START, ops, norm);
            forall k :: 0 <= k < times ==>
              (Polls(s.queue, topic, times, now)[k].Some? <==>
               k < Count(s.log, PublishedTo(topic)) - Count(s.log, DeliveredFrom(topic)))
  {
    InvStart();
    InvRun(START, ops, norm);
    var s := Run(START, ops, norm);
    assert TopicBalanced(s.queue, s.log, topic);
    DrainedByExactly(s.queue, topic, times, now);
    hide Run, Polls, Count, WithStatus, OfTopic;
  }
}
