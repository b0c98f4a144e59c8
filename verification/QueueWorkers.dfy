/**
 The queue's calls cut into their transactions: a statement locks its row and keeps the change
 to itself, a commit shows it, a rollback drops it. A commit may also throw after the server
 applied it. Any number of workers interleave.
 */
module QueueWorkers {
  import opened Wrappers
  import opened MessageQueue

  /** What an open transaction has done. */
  datatype Work =
    | Polling(topic: string, id: nat, row: Row)   // locked by SELECT ... FOR UPDATE SKIP LOCKED, and updated
    | Updating(id: nat, row: Row)                  // acknowledge or fail
    | Inserting(id: nat, row: Row)                 // publish; invisible to the others

  datatype Event =
    | Handed(worker: nat, topic: string, id: nat)    // pollNext returned the message
    | FoundNothing(worker: nat, topic: string)       // pollNext saw no row it could lock

  /** `rows` is what is committed; each worker has at most one transaction open. */
  datatype World = World(rows: map<nat, Row>, nextId: nat, open: map<nat, Work>, log: seq<Event>)

  const START := World(map[], 1, map[], [])

  datatype Op =
    | BeginPublish(worker: nat, topic: string, stored: string)  // the payload as its cast to jsonb leaves it
    | BeginPoll(worker: nat, topic: string, now: int)
    | BeginAcknowledge(worker: nat, id: nat, now: int)
    | BeginFail(worker: nat, id: nat)
    | Commit(worker: nat)
    | CommitThrows(worker: nat, applied: bool)
    | Rollback(worker: nat)

  predicate Locks(work: Work, id: nat) { !work.Inserting? && work.id == id }

  ghost predicate Locked(w: World, id: nat) {
    exists worker :: worker in w.open && Locks(w.open[worker], id)
  }

  /** A pending row of the topic that no transaction has locked. */
  ghost predicate Takeable(w: World, topic: string, id: nat) {
    Waiting(w.rows, topic, id) && !Locked(w, id)
  }

  ghost function First(w: World, topic: string, id: nat): (first: Option<nat>)
    ensures match first
            case Some(f) => Takeable(w, topic, f) && id <= f && forall k :: id <= k < f ==> !Takeable(w, topic, k)
            case None => forall k :: id <= k < w.nextId ==> !Takeable(w, topic, k)
    decreases w.nextId - id
  {
    if id >= w.nextId then None
    else if Takeable(w, topic, id) then Some(id)
    else First(w, topic, id + 1)
  }

  /** An update of a locked row waits, so its step is not enabled until the lock is gone. */
  ghost predicate Enabled(w: World, op: Op) {
    match op
    case BeginPublish(worker, _, _) => worker !in w.open
    case BeginPoll(worker, _, _) => worker !in w.open
    case BeginAcknowledge(worker, id, _) => worker !in w.open && !Locked(w, id)
    case BeginFail(worker, id) => worker !in w.open && !Locked(w, id)
    case Commit(worker) => worker in w.open
    case CommitThrows(worker, _) => worker in w.open
    case Rollback(worker) => worker in w.open
  }

  function Ended(w: World, worker: nat, applied: bool): World
    requires worker in w.open
  {
    w.(open := w.open - {worker},
       rows := if applied then w.rows[w.open[worker].id := w.open[worker].row] else w.rows)
  }

  ghost function Apply(w: World, op: Op): World
    requires Enabled(w, op)
  {
    match op
    case BeginPublish(worker, topic, stored) =>
      w.(nextId := w.nextId + 1, open := w.open[worker := Inserting(w.nextId, Row(topic, stored, PENDING, 0, None))])
    case BeginPoll(worker, topic, now) =>
      var first := First(w, topic, 0);
      if first.None? then w.(log := w.log + [FoundNothing(worker, topic)])
      else
        var row := w.rows[first.value].(status := PROCESSING, processedAt := Some(now));
        w.(open := w.open[worker := Polling(topic, first.value, row)])
    case BeginAcknowledge(worker, id, now) =>
      if id !in w.rows then w
      else w.(open := w.open[worker := Updating(id, w.rows[id].(status := COMPLETED, processedAt := Some(now)))])
    case BeginFail(worker, id) =>
      if id !in w.rows then w
      else w.(open := w.open[worker := Updating(id, w.rows[id].(status := FAILED, retries := w.rows[id].retries + 1))])
    case Commit(worker) =>
      var next := Ended(w, worker, true);
      var work := w.open[worker];
      if work.Polling? then next.(log := w.log + [Handed(worker, work.topic, work.id)]) else next
    case CommitThrows(worker, applied) => Ended(w, worker, applied)
    case Rollback(worker) => Ended(w, worker, false)
  }

  // ----- The invariant -----

  /** No two workers work on the same row. */
  ghost predicate Exclusive(w: World) {
    forall a, b :: a in w.open && b in w.open && w.open[a].id == w.open[b].id ==> a == b
  }

  ghost predicate WorkKnown(w: World, work: Work) {
    && 0 < work.id < w.nextId
    && match work
       case Polling(topic, id, row) => Waiting(w.rows, topic, id) && row.status != PENDING
       case Updating(id, row) => id in w.rows && row.status != PENDING
       case Inserting(id, row) => id !in w.rows && row.status == PENDING
  }

  ghost predicate Inv(w: World) {
    && w.nextId > 0
    && Exclusive(w)
    && (forall id :: id in w.rows ==> 0 < id < w.nextId)
    && (forall worker :: worker in w.open ==> WorkKnown(w, w.open[worker]))
    && HandedAreGone(w)
    && HandedOnce(w.log)
  }

  ghost predicate HandedAreGone(w: World) {
    forall k :: 0 <= k < |w.log| && w.log[k].Handed? ==>
      w.log[k].id in w.rows && w.rows[w.log[k].id].status != PENDING
  }

  /** Each message is handed out at most once. */
  ghost predicate HandedOnce(log: seq<Event>) {
    forall j, k :: 0 <= j < k < |log| && log[j].Handed? && log[k].Handed? ==> log[j].id != log[k].id
  }

  lemma InvBegin(w: World, op: Op)
    requires Inv(w) && Enabled(w, op) && !op.Commit? && !op.CommitThrows? && !op.Rollback?
    ensures Inv(Apply(w, op))
  {
    hide HandedOnce, First;
    var next := Apply(w, op);
    assert HandedOnce(next.log) by { NothingHanded(w.log, next.log); }
    if op.worker in next.open {
      Begun(w, op);
      forall a | a in next.open
        ensures WorkKnown(next, next.open[a])
      {
        assert a != op.worker ==> WorkKnown(w, w.open[a]);
      }
    }
  }

  lemma NothingHanded(log: seq<Event>, more: seq<Event>)
    requires HandedOnce(log) && log <= more && |more| <= |log| + 1
    requires |more| == |log| + 1 ==> !more[|log|].Handed?
    ensures HandedOnce(more)
  {
  }

  /** The row a transaction starts on is nobody else's. */
  lemma Begun(w: World, op: Op)
    requires Inv(w) && Enabled(w, op) && !op.Commit? && !op.CommitThrows? && !op.Rollback?
    requires op.worker in Apply(w, op).open
    ensures var work := Apply(w, op).open[op.worker];
            WorkKnown(Apply(w, op), work) && forall other :: other in w.open ==> w.open[other].id != work.id
  {
    var work := Apply(w, op).open[op.worker];
    forall other | other in w.open
      ensures w.open[other].id != work.id
    {
      assert WorkKnown(w, w.open[other]);
      if !op.BeginPublish? {
        assert !Locked(w, work.id);
        assert !Locks(w.open[other], work.id);
      }
    }
  }

  lemma InvEnd(w: World, worker: nat, applied: bool)
    requires Inv(w) && worker in w.open
    ensures Inv(Ended(w, worker, applied))
  {
    hide HandedOnce;
    var next := Ended(w, worker, applied);
    assert WorkKnown(w, w.open[worker]);
    forall a | a in next.open
      ensures WorkKnown(next, next.open[a])
    {
      assert WorkKnown(w, w.open[a]) && w.open[a].id != w.open[worker].id;
    }
  }

  lemma InvCommit(w: World, worker: nat)
    requires Inv(w) && worker in w.open
    ensures Inv(Apply(w, Commit(worker)))
  {
    InvEnd(w, worker, true);
    var work := w.open[worker];
    assert WorkKnown(w, work);
    if work.Polling? {
      HandOne(w.log, Handed(worker, work.topic, work.id));
    }
    hide HandedOnce;
  }

  lemma HandOne(log: seq<Event>, e: Event)
    requires HandedOnce(log) && e.Handed?
    requires forall k :: 0 <= k < |log| && log[k].Handed? ==> log[k].id != e.id
    ensures HandedOnce(log + [e])
  {
  }

  lemma InvStep(w: World, op: Op)
    requires Inv(w) && Enabled(w, op)
    ensures Inv(Apply(w, op))
  {
    hide Inv;
    match op {
      case Commit(worker) => InvCommit(w, worker);
      case CommitThrows(worker, applied) => InvEnd(w, worker, applied);
      case Rollback(worker) => InvEnd(w, worker, false);
      case _ => InvBegin(w, op);
    }
  }

  // ----- Runs -----

  ghost predicate Legal(w: World, ops: seq<Op>)
    decreases |ops|
  {
    ops == [] || (Enabled(w, ops[0]) && Legal(Apply(w, ops[0]), ops[1..]))
  }

  ghost function Run(w: World, ops: seq<Op>): World
    requires Legal(w, ops)
    decreases |ops|
  {
    if ops == [] then w else Run(Apply(w, ops[0]), ops[1..])
  }

  lemma {:induction false} InvRun(w: World, ops: seq<Op>)
    requires Inv(w) && Legal(w, ops)
    ensures Inv(Run(w, ops))
    decreases |ops|
  {
    hide Inv, Enabled, Apply;
    if ops != [] {
      InvStep(w, ops[0]);
      InvRun(Apply(w, ops[0]), ops[1..]);
    }
  }

  /** Under every interleaving, rows are worked on by one worker at a time and handed out at most once. */
  lemma EachMessageOnce(ops: seq<Op>)
    requires Legal(START, ops)
    ensures Exclusive(Run(START, ops)) && HandedOnce(Run(START, ops).log)
  {
    InvRun(START, ops);
  }

  /** A poll that finds nothing: every pending row of the topic is locked by another worker. */
  lemma NothingMeansAllLocked(w: World, worker: nat, topic: string, now: int)
    requires Inv(w) && worker !in w.open
    ensures Apply(w, BeginPoll(worker, topic, now)).log == w.log + [FoundNothing(worker, topic)] <==>
            forall id: nat :: Waiting(w.rows, topic, id) ==>
              exists other :: other in w.open && other != worker && Locks(w.open[other], id)
  {
    var first := First(w, topic, 0);
    if first.None? {
      forall id: nat | Waiting(w.rows, topic, id)
        ensures exists other :: other in w.open && other != worker && Locks(w.open[other], id)
      {
        assert 0 <= id < w.nextId && !Takeable(w, topic, id);
      }
    } else {
      assert Waiting(w.rows, topic, first.value) && !Locked(w, first.value);
      assert |w.log + [FoundNothing(worker, topic)]| != |w.log|;
    }
  }

  lemma RunOne(w: World, op: Op, rest: seq<Op>)
    requires Enabled(w, op) && Legal(Apply(w, op), rest)
    ensures Legal(w, [op] + rest) && Run(w, [op] + rest) == Run(Apply(w, op), rest)
  {
    assert ([op] + rest)[1..] == rest;
  }

  // ----- A worker alone -----

  /** With no transaction open, the first row a worker can lock is the first that waits. */
  lemma FirstIsHead(w: World, topic: string)
    requires Inv(w) && w.open == map[]
    ensures First(w, topic, 0) == Head(Queue(w.rows, w.nextId), topic)
  {
    assert forall id: nat :: Takeable(w, topic, id) <==> Waiting(w.rows, topic, id);
    var first, head := First(w, topic, 0), Head(Queue(w.rows, w.nextId), topic);
    if first.Some? {
      assert Waiting(w.rows, topic, first.value) && first.value < w.nextId;
    }
    if head.Some? {
      assert Takeable(w, topic, head.value) && head.value < w.nextId;
    }
  }

  /**
   A transaction with no other open, from its begin to its commit, does what the whole call does: the
   rows, the id sequence and, for a poll, the message that is handed out.
   */
  lemma AloneIsOneCall(w: World, worker: nat, topic: string, stored: string, id: nat, now: int)
    requires Inv(w) && w.open == map[]
    ensures var q := Queue(w.rows, w.nextId);
            && Committed(w, BeginPublish(worker, topic, stored), worker, Publish(q, topic, stored), w.log)
            && (id in w.rows ==>
                  && Committed(w, BeginAcknowledge(worker, id, now), worker, Acknowledge(q, id, now).0, w.log)
                  && Committed(w, BeginFail(worker, id), worker, Fail(q, id).0, w.log))
            && var (next, message) := Poll(q, topic, now);
               match message
               case None => Apply(w, BeginPoll(worker, topic, now)) == w.(log := w.log + [FoundNothing(worker, topic)])
               case Some(m) =>
                 Committed(w, BeginPoll(worker, topic, now), worker, next, w.log + [Handed(worker, topic, m.id)])
  {
    FirstIsHead(w, topic);
    hide First, Head, Inv;
  }

  /** Begin and commit lead to this queue and this log, with nothing left open. */
  ghost predicate Committed(w: World, begin: Op, worker: nat, q: Queue, log: seq<Event>) {
    && Enabled(w, begin) && Enabled(Apply(w, begin), Commit(worker))
    && Apply(Apply(w, begin), Commit(worker)) == World(q.rows, q.nextId, map[], log)
  }
}
