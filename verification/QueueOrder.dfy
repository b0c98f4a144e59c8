/**
 What interleaving does to the promises of the queue: exactly when the ids handed out of a topic
 increase, and exactly which messages are lost.
 */
module QueueOrder {
  import opened Wrappers
  import M = MessageQueue
  import opened QueueWorkers

  // ----- Order -----

  /** In each topic, ids are handed out in increasing order. */
  ghost predicate HandedInOrder(log: seq<Event>) {
    forall i, j ::
      0 <= i < j < |log| && log[i].Handed? && log[j].Handed? && log[i].topic == log[j].topic ==>
      log[i].id < log[j].id
  }

  /** A message that can still be handed out: pending, whoever has it locked, or being inserted. */
  ghost predicate Coming(w: World, topic: string, id: nat) {
    || M.Waiting(w.rows, topic, id)
    || exists worker :: worker in w.open && w.open[worker].Inserting? && w.open[worker].id == id
                        && w.open[worker].row.topic == topic
  }

  ghost predicate HandsOut(w: World, op: Op) {
    op.Commit? && op.worker in w.open && w.open[op.worker].Polling?
  }

  /** Messages by topic and id. */
  type Messages = set<(string, nat)>

  ghost function Behind(w: World, topic: string, id: nat): Messages {
    set k: nat | k < id && Coming(w, topic, k) :: (topic, k)
  }

  /** The messages overtaken so far: still to come when a later one of their topic was handed out. */
  ghost function Overtaken(w: World, over: Messages, op: Op): Messages {
    if HandsOut(w, op) then over + Behind(w, w.open[op.worker].topic, w.open[op.worker].id) else over
  }

  /** The guard: the commit that hands out a message that has been overtaken. */
  ghost predicate HandsOutOvertaken(w: World, over: Messages, op: Op) {
    HandsOut(w, op) && (w.open[op.worker].topic, w.open[op.worker].id) in over
  }

  ghost predicate OvertakenByHanded(w: World, over: Messages) {
    forall m :: m in over ==>
      exists i :: 0 <= i < |w.log| && w.log[i].Handed? && w.log[i].topic == m.0 && w.log[i].id > m.1
  }

  ghost predicate LateOnesKnown(w: World, over: Messages) {
    forall i, k: nat ::
      0 <= i < |w.log| && w.log[i].Handed? && k < w.log[i].id && Coming(w, w.log[i].topic, k) ==>
      (w.log[i].topic, k) in over
  }

  ghost predicate Tracks(w: World, over: Messages) {
    OvertakenByHanded(w, over) && LateOnesKnown(w, over)
  }

  /** Nothing starts to come but a new id. */
  lemma ComingIsOld(w: World, op: Op, topic: string, k: nat)
    requires Inv(w) && Enabled(w, op) && Coming(Apply(w, op), topic, k)
    ensures Coming(w, topic, k) || k == w.nextId
  {
    hide First, HandedOnce, HandedAreGone, Exclusive;
    var next := Apply(w, op);
    assert op.worker in w.open ==> WorkKnown(w, w.open[op.worker]);
    if worker :| worker in next.open && next.open[worker].Inserting? && next.open[worker].id == k
                 && next.open[worker].row.topic == topic {
      assert worker in w.open ==> next.open[worker] == w.open[worker];
    }
  }

  lemma HandedAreOld(w: World, i: nat)
    requires Inv(w) && i < |w.log| && w.log[i].Handed?
    ensures w.log[i].id < w.nextId
  {
  }

  lemma LogGrows(w: World, op: Op)
    requires Enabled(w, op)
    ensures var log := Apply(w, op).log;
            if HandsOut(w, op) then log == w.log + [Handed(op.worker, w.open[op.worker].topic, w.open[op.worker].id)]
            else log == w.log || exists e :: log == w.log + [e] && !e.Handed?
  {
    hide First;
  }

  lemma TracksStep(w: World, over: Messages, op: Op)
    requires Inv(w) && Tracks(w, over) && Enabled(w, op)
    ensures Tracks(Apply(w, op), Overtaken(w, over, op))
  {
    hide Inv, Enabled, Apply;
    var next, more := Apply(w, op), Overtaken(w, over, op);
    LogGrows(w, op);
    forall m | m in more
      ensures exists i :: 0 <= i < |next.log| && next.log[i].Handed? && next.log[i].topic == m.0 && next.log[i].id > m.1
    {
      if m in over {
        var i :| 0 <= i < |w.log| && w.log[i].Handed? && w.log[i].topic == m.0 && w.log[i].id > m.1;
        assert next.log[i] == w.log[i];
      } else {
        assert next.log[|w.log|].Handed?;
      }
    }
    forall i, k: nat | 0 <= i < |next.log| && next.log[i].Handed? && k < next.log[i].id
                       && Coming(next, next.log[i].topic, k)
      ensures (next.log[i].topic, k) in more
    {
      ComingIsOld(w, op, next.log[i].topic, k);
      if i < |w.log| {
        HandedAreOld(w, i);
        assert next.log[i] == w.log[i];
      } else {
        WorkIsOld(w, op);
      }
    }
  }

  lemma WorkIsOld(w: World, op: Op)
    requires Inv(w) && HandsOut(w, op)
    ensures w.open[op.worker].id < w.nextId
    ensures M.Waiting(w.rows, w.open[op.worker].topic, w.open[op.worker].id)
  {
    assert WorkKnown(w, w.open[op.worker]);
  }

  /** One step keeps the order exactly unless it hands out an overtaken message. */
  lemma OrderStep(w: World, over: Messages, op: Op)
    requires Inv(w) && Tracks(w, over) && Enabled(w, op)
    ensures HandedInOrder(Apply(w, op).log) <==> HandedInOrder(w.log) && !HandsOutOvertaken(w, over, op)
  {
    LogGrows(w, op);
    if HandsOut(w, op) {
      WorkIsOld(w, op);
      HandedDiffer(w, op);
      OrderOfOneMore(w, over, op);
    } else {
      hide Apply, Inv, Enabled;
      OrderWithout(w.log, Apply(w, op).log);
    }
  }

  lemma HandedDiffer(w: World, op: Op)
    requires Inv(w) && HandsOut(w, op)
    ensures forall i :: 0 <= i < |w.log| && w.log[i].Handed? ==> w.log[i].id != w.open[op.worker].id
  {
    assert WorkKnown(w, w.open[op.worker]);
  }

  lemma OrderOfOneMore(w: World, over: Messages, op: Op)
    requires Tracks(w, over) && HandsOut(w, op)
    requires var work := w.open[op.worker];
             && M.Waiting(w.rows, work.topic, work.id)
             && forall i :: 0 <= i < |w.log| && w.log[i].Handed? ==> w.log[i].id != work.id
    ensures var work := w.open[op.worker];
            HandedInOrder(w.log + [Handed(op.worker, work.topic, work.id)]) <==>
            HandedInOrder(w.log) && (work.topic, work.id) !in over
  {
    var work := w.open[op.worker];
    var more := w.log + [Handed(op.worker, work.topic, work.id)];
    assert Coming(w, work.topic, work.id);
    if (work.topic, work.id) in over {
      var i :| 0 <= i < |w.log| && w.log[i].Handed? && w.log[i].topic == work.topic && w.log[i].id > work.id;
      assert more[i] == w.log[i] && more[|w.log|].id == work.id;
    }
    assert forall i :: 0 <= i < |w.log| ==> more[i] == w.log[i];
  }

  lemma OrderWithout(log: seq<Event>, more: seq<Event>)
    requires more == log || exists e :: more == log + [e] && !e.Handed?
    ensures HandedInOrder(more) <==> HandedInOrder(log)
  {
    assert forall i :: 0 <= i < |log| ==> more[i] == log[i];
  }

  /** Some step of the run hands out an overtaken message. */
  ghost predicate AnyOvertakenHandedOut(w: World, over: Messages, ops: seq<Op>)
    requires Legal(w, ops)
    decreases |ops|
  {
    ops != [] &&
    (HandsOutOvertaken(w, over, ops[0])
     || AnyOvertakenHandedOut(Apply(w, ops[0]), Overtaken(w, over, ops[0]), ops[1..]))
  }

  lemma {:induction false} OrderRun(w: World, over: Messages, ops: seq<Op>)
    requires Inv(w) && Tracks(w, over) && Legal(w, ops)
    ensures HandedInOrder(Run(w, ops).log) <==> HandedInOrder(w.log) && !AnyOvertakenHandedOut(w, over, ops)
    decreases |ops|
  {
    hide Inv, Tracks, Enabled, Apply, HandedInOrder, Overtaken, HandsOutOvertaken;
    if ops != [] {
      InvStep(w, ops[0]);
      TracksStep(w, over, ops[0]);
      OrderStep(w, over, ops[0]);
      OrderRun(Apply(w, ops[0]), Overtaken(w, over, ops[0]), ops[1..]);
    }
  }

  /** For every run: ids of a topic leave in increasing order exactly unless an overtaken one is handed out. */
  lemma InOrderExactlyUnlessOvertaken(ops: seq<Op>)
    requires Legal(START, ops)
    ensures HandedInOrder(Run(START, ops).log) <==>
            !AnyOvertakenHandedOut(START, {}, ops)
  {
    OrderRun(START, {}, ops);
  }

  // ----- Loss -----

  ghost predicate WasHanded(log: seq<Event>, id: nat) {
    exists k :: 0 <= k < |log| && log[k].Handed? && log[k].id == id
  }

  /** Gone from the queue, and nobody ever got it. */
  ghost predicate Lost(w: World, id: nat) {
    id in w.rows && w.rows[id].status != M.PENDING && !WasHanded(w.log, id)
  }

  /** The guard: a pending row is settled by a commit that throws but applies, or before it was polled. */
  predicate Loses(w: World, op: Op, id: nat) {
    && id in w.rows && w.rows[id].status == M.PENDING
    && (op.Commit? || op.CommitThrows?) && op.worker in w.open && w.open[op.worker].id == id
    && if op.Commit? then w.open[op.worker].Updating? else op.applied
  }

  lemma LostStep(w: World, op: Op, id: nat)
    requires Inv(w) && Enabled(w, op)
    ensures Lost(Apply(w, op), id) <==> Lost(w, id) || Loses(w, op, id)
  {
    HandedStep(w, op, id);
    RowStep(w, op, id);
    hide Apply, Enabled, WasHanded;
  }

  lemma HandedStep(w: World, op: Op, id: nat)
    requires Enabled(w, op)
    ensures WasHanded(Apply(w, op).log, id) <==>
            WasHanded(w.log, id) || (HandsOut(w, op) && w.open[op.worker].id == id)
  {
    LogGrows(w, op);
    hide Apply, Enabled;
    var log := Apply(w, op).log;
    assert forall k :: 0 <= k < |w.log| ==> log[k] == w.log[k];
    if HandsOut(w, op) {
      assert log[|w.log|].id == w.open[op.worker].id;
    }
  }

  /** A row stops being pending exactly when a transaction on it is applied. */
  lemma RowStep(w: World, op: Op, id: nat)
    requires Inv(w) && Enabled(w, op)
    ensures var next := Apply(w, op);
            var settles := (op.Commit? || (op.CommitThrows? && op.applied)) && w.open[op.worker].id == id;
            && (id in w.rows ==> id in next.rows)
            && (id in w.rows && w.rows[id].status == M.PENDING ==>
                 (next.rows[id].status != M.PENDING <==> settles) && (settles ==> !w.open[op.worker].Inserting?))
            && (id in w.rows && w.rows[id].status != M.PENDING ==> next.rows[id].status != M.PENDING)
            && (id !in w.rows && id in next.rows ==> next.rows[id].status == M.PENDING)
            && (HandsOut(w, op) && w.open[op.worker].id == id ==> id in w.rows && w.rows[id].status == M.PENDING)
  {
    hide First, HandedOnce, HandedAreGone, Exclusive;
    assert op.worker in w.open ==> WorkKnown(w, w.open[op.worker]);
  }

  ghost predicate AnyLoses(w: World, ops: seq<Op>, id: nat)
    requires Legal(w, ops)
    decreases |ops|
  {
    ops != [] && (Loses(w, ops[0], id) || AnyLoses(Apply(w, ops[0]), ops[1..], id))
  }

  /** For every run, exactly these messages are lost; a lost one stays lost. */
  lemma {:induction false} LostExactlyWhen(w: World, ops: seq<Op>, id: nat)
    requires Inv(w) && Legal(w, ops)
    ensures Lost(Run(w, ops), id) <==> Lost(w, id) || AnyLoses(w, ops, id)
    decreases |ops|
  {
    hide Inv, Enabled, Apply, Lost, Loses;
    if ops != [] {
      InvStep(w, ops[0]);
      LostStep(w, ops[0], id);
      LostExactlyWhen(Apply(w, ops[0]), ops[1..], id);
    }
  }

  // ----- Runs that break the promises -----

  /** A publish that is committed at once. */
  lemma PublishNow(w: World, stored: string) returns (next: World)
    requires 1 !in w.open
    ensures next == World(w.rows[w.nextId := M.Row("t", stored, M.PENDING, 0, None)], w.nextId + 1, w.open, w.log)
    ensures forall rest :: Legal(next, rest) ==>
              Legal(w, [BeginPublish(1, "t", stored)] + ([Commit(1)] + rest))
              && Run(w, [BeginPublish(1, "t", stored)] + ([Commit(1)] + rest)) == Run(next, rest)
  {
    var mid := Apply(w, BeginPublish(1, "t", stored));
    next := Apply(mid, Commit(1));
    assert mid.open - {1} == w.open;
    forall rest | Legal(next, rest)
      ensures Legal(w, [BeginPublish(1, "t", stored)] + ([Commit(1)] + rest))
      ensures Run(w, [BeginPublish(1, "t", stored)] + ([Commit(1)] + rest)) == Run(next, rest)
    {
      RunOne(mid, Commit(1), rest);
      RunOne(w, BeginPublish(1, "t", stored), [Commit(1)] + rest);
    }
  }

  lemma Takes(w: World, id: nat)
    requires Takeable(w, "t", id) && id < w.nextId
    requires forall other: nat :: other < id ==> !Takeable(w, "t", other)
    ensures First(w, "t", 0) == Some(id)
  {
    var first := First(w, "t", 0);
    assert first.None? ==> !(0 <= id < w.nextId) || !Takeable(w, "t", id);
    assert first.Some? && id < first.value ==> !Takeable(w, "t", id);
  }

  /** The server applies the poll's commit and the connection breaks: the message is never handed out. */
  lemma ThrowingCommitLosesMessage()
    ensures exists ops :: Legal(START, ops) && Lost(Run(START, ops), 1)
  {
    var w := PublishNow(START, "{}");
    assert !Locked(w, 1);
    Takes(w, 1);
    var mid := Apply(w, BeginPoll(3, "t", 0));
    var last := Apply(mid, CommitThrows(3, true));
    assert Lost(last, 1);
    RunOne(mid, CommitThrows(3, true), []);
    RunOne(w, BeginPoll(3, "t", 0), [CommitThrows(3, true)] + []);
  }

  /** Every publish commits at once, and two overlapping polls commit the other way round. */
  lemma OverlappingPollsOvertake()
    ensures exists ops :: Legal(START, ops)
                          && Run(START, ops).log == [Handed(4, "t", 2), Handed(3, "t", 1)]
  {
    var w1 := PublishNow(START, "1");
    var w2 := PublishNow(w1, "2");
    var polls := BothPoll(w2);
    var rest := [BeginPublish(1, "t", "2")] + ([Commit(1)] + polls);
    assert Legal(w1, rest) && Run(w1, rest) == Run(w2, polls);
  }

  lemma BothPoll(w: World) returns (ops: seq<Op>)
    requires w.open == map[] && w.log == [] && w.nextId == 3
    requires M.Waiting(w.rows, "t", 1) && M.Waiting(w.rows, "t", 2) && w.rows.Keys == {1, 2}
    ensures Legal(w, ops) && Run(w, ops).log == [Handed(4, "t", 2), Handed(3, "t", 1)]
  {
    assert !Locked(w, 1);
    Takes(w, 1);
    var w3 := Apply(w, BeginPoll(3, "t", 0));
    assert w3.open.Keys == {3} && w3.rows == w.rows && Locks(w3.open[3], 1) && !Locked(w3, 2);
    Takes(w3, 2);
    var w4 := Apply(w3, BeginPoll(4, "t", 0));
    var w5 := Apply(w4, Commit(4));
    assert w5.open.Keys == {3} && w5.open[3] == w3.open[3];
    ops := [BeginPoll(3, "t", 0)] + ([BeginPoll(4, "t", 0)] + ([Commit(4)] + ([Commit(3)] + [])));
    RunOne(w5, Commit(3), []);
    RunOne(w4, Commit(4), [Commit(3)] + []);
    RunOne(w3, BeginPoll(4, "t", 0), [Commit(4)] + ([Commit(3)] + []));
    RunOne(w, BeginPoll(3, "t", 0), [BeginPoll(4, "t", 0)] + ([Commit(4)] + ([Commit(3)] + [])));
  }

  /** A publisher that drew the smaller id commits after the larger one is out. */
  lemma LatePublishIsOvertaken()
    ensures exists ops :: Legal(START, ops)
                          && Run(START, ops).log == [Handed(3, "t", 2), Handed(3, "t", 1)]
  {
    var w1 := Apply(START, BeginPublish(2, "t", "1"));
    var w2 := PublishNow(w1, "2");
    var polls := LatePolls(w2);
    var rest := [BeginPublish(1, "t", "2")] + ([Commit(1)] + polls);
    assert Legal(w1, rest) && Run(w1, rest) == Run(w2, polls);
    RunOne(START, BeginPublish(2, "t", "1"), rest);
  }

  lemma LatePolls(w: World) returns (ops: seq<Op>)
    requires w.open.Keys == {2} && w.open[2].Inserting? && w.open[2].id == 1 && w.nextId == 3 && w.log == []
    requires w.open[2].row.topic == "t" && w.open[2].row.status == M.PENDING
    requires w.rows.Keys == {2} && M.Waiting(w.rows, "t", 2)
    ensures Legal(w, ops) && Run(w, ops).log == [Handed(3, "t", 2), Handed(3, "t", 1)]
  {
    var mid, polls := PollOnly(w, 2);
    var next := Apply(mid, Commit(2));
    assert next.open == map[] && next.rows.Keys == {1, 2};
    var end, last := PollOnly(next, 1);
    hide Apply, Enabled;
    RunOne(mid, Commit(2), last);
    PollThen(w, mid, 2, [Commit(2)] + last);
    ops := polls + ([Commit(2)] + last);
  }

  /** A poll and its commit when one row of the topic is takeable. */
  lemma PollOnly(w: World, id: nat) returns (next: World, ops: seq<Op>)
    requires 3 !in w.open && Takeable(w, "t", id) && id < w.nextId
    requires forall other: nat :: other != id ==> !M.Waiting(w.rows, "t", other)
    ensures ops == [BeginPoll(3, "t", 0)] + ([Commit(3)] + []) && Legal(w, ops) && Run(w, ops) == next
    ensures next == w.(rows := w.rows[id := w.rows[id].(status := M.PROCESSING, processedAt := Some(0))],
                       log := w.log + [Handed(3, "t", id)])
  {
    Takes(w, id);
    var mid := Apply(w, BeginPoll(3, "t", 0));
    next := Apply(mid, Commit(3));
    assert mid.open - {3} == w.open;
    ops := [BeginPoll(3, "t", 0)] + ([Commit(3)] + []);
    RunOne(mid, Commit(3), []);
    RunOne(w, BeginPoll(3, "t", 0), [Commit(3)] + []);
  }

  lemma PollThen(w: World, next: World, id: nat, rest: seq<Op>)
    requires var ops := [BeginPoll(3, "t", 0)] + ([Commit(3)] + []); Legal(w, ops) && Run(w, ops) == next
    requires Legal(next, rest)
    ensures var ops := [BeginPoll(3, "t", 0)] + ([Commit(3)] + []);
            Legal(w, ops + rest) && Run(w, ops + rest) == Run(next, rest)
  {
    var ops := [BeginPoll(3, "t", 0)] + ([Commit(3)] + []);
    assert ops == [BeginPoll(3, "t", 0), Commit(3)];
    var mid := Apply(w, ops[0]);
    assert ops[1..] == [Commit(3)];
    assert Run(mid, [Commit(3)]) == next && [Commit(3)][1..] == [];
    assert next == Apply(mid, Commit(3));
    hide Apply, Enabled;
    RunOne(mid, Commit(3), rest);
    RunOne(w, ops[0], [Commit(3)] + rest);
    assert ops + rest == [ops[0]] + ([Commit(3)] + rest);
  }
}
