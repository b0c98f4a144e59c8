/**
 PostgresDb.cpp: a bounded pool behind one mutex and one condition variable. The code between
 two points where the mutex is free is one step, so `getConnection` is one step once its wait is
 over, and `returnConnection` is two: the change, and later its notification.
 */
module ConnectionPool {
  import opened Wrappers

  const MAX_POOL_SIZE := 20

  /** Connections are numbered; a number may be used again once its connection is gone. */
  datatype Pool = Pool(idle: seq<nat>, created: nat, max: nat)
  {
    predicate MayGo() { idle != [] || created < max }

    /** Connections that could still be handed out. */
    function Free(): int { |idle| + max - created }
  }

  /** What the database answers: whether the connection at hand is open, and new connections or exceptions. */
  datatype Answers = Answers(open: bool, create: Option<nat>, reconnect: Option<nat>)

  datatype Outcome = Leased(handle: nat) | CreationFailed | ReconnectFailed

  function Decrement(n: nat): nat { if n > 0 then n - 1 else n }

  /** `getConnection` after its wait. */
  function Acquire(p: Pool, a: Answers): (Pool, Outcome)
    requires p.MayGo()
  {
    if p.idle == [] && a.create.None? then (p, CreationFailed)
    else
      var h := if p.idle != [] then p.idle[|p.idle| - 1] else a.create.value;
      var q := if p.idle != [] then p.(idle := p.idle[..|p.idle| - 1]) else p.(created := p.created + 1);
      if a.open then (q, Leased(h))
      else if a.reconnect.Some? then (q, Leased(a.reconnect.value))
      else (q.(created := Decrement(q.created)), ReconnectFailed)
  }

  /** The locked part of `returnConnection`. */
  function Return(p: Pool, h: nat, open: bool): Pool {
    if open then p.(idle := p.idle + [h]) else p.(created := Decrement(p.created))
  }

  class PostgresDb {
    var pool: seq<nat>
    var createdCount: nat
    const maxPoolSize: nat

    constructor (maxPoolSize: nat)
      ensures State() == Pool([], 0, maxPoolSize)
    {
      pool, createdCount := [], 0;
      this.maxPoolSize := maxPoolSize;
    }

    function State(): Pool
      reads this
    {
      Pool(pool, createdCount, maxPoolSize)
    }

    /** `notified`: whether the failing path signalled one waiter. */
    method GetConnection(a: Answers) returns (outcome: Outcome, notified: bool)
      requires State().MayGo()
      modifies this
      ensures (State(), outcome) == Acquire(old(State()), a)
      ensures notified == outcome.ReconnectFailed?
    {
      notified := false;
      var conn;
      if pool != [] {
        conn := pool[|pool| - 1];
        pool := pool[..|pool| - 1];
      } else {
        if a.create.None? { return CreationFailed, false; }
        conn := a.create.value;
        createdCount := createdCount + 1;
      }
      if !a.open {
        if a.reconnect.None? {
          if createdCount > 0 {
            createdCount := createdCount - 1;
          }
          return ReconnectFailed, true;
        }
        conn := a.reconnect.value;
      }
      outcome := Leased(conn);
    }

    method ReturnConnection(conn: nat, open: bool)
      modifies this
      ensures State() == Return(old(State()), conn, open)
    {
      if open {
        pool := pool + [conn];
      } else {
        if createdCount > 0 {
          createdCount := createdCount - 1;
        }
      }
    }
  }

  // ----- Threads -----

  /**
   `leases` says which thread holds which connection; `pending` counts returns whose
   notification is still to come, `lost` the creations that failed for a thread that had slept.
   Only a pool owned by a shared pointer is `managed`; any other deletes what is given back, and
   `discarded` counts that.
   */
  datatype World = World(
    pool: Pool, managed: bool, leases: map<nat, nat>, asleep: set<nat>, woken: set<nat>,
    pending: nat, lost: nat, discarded: nat)

  datatype Op =
    | Arrive(thread: nat, answers: Answers, signalled: Option<nat>)
    | Wake(thread: nat, answers: Answers, signalled: Option<nat>)
    | GiveBack(handle: nat, open: bool)
    | Notify(signalled: Option<nat>)
    | SpuriousWakeup(thread: nat)

  function Start(max: nat, managed: bool): World {
    World(Pool([], 0, max), managed, map[], {}, {}, 0, 0, 0)
  }

  predicate Unused(w: World, h: nat) {
    h !in w.leases && forall i :: 0 <= i < |w.pool.idle| ==> w.pool.idle[i] != h
  }

  /** New connections are different from all existing ones; `notify_one` wakes a sleeper if there is one. */
  predicate Enabled(w: World, op: Op) {
    match op
    case Arrive(t, a, target) => t !in w.asleep + w.woken && NewOnes(w, a) && IsTarget(w, target)
    case Wake(t, a, target) => t in w.woken && NewOnes(w, a) && IsTarget(w, target)
    case GiveBack(h, _) => h in w.leases
    case Notify(target) => w.pending > 0 && IsTarget(w, target)
    case SpuriousWakeup(t) => t in w.asleep
  }

  predicate NewOnes(w: World, a: Answers) {
    && (a.create.Some? ==> Unused(w, a.create.value))
    && (a.reconnect.Some? ==> Unused(w, a.reconnect.value))
  }

  predicate IsTarget(w: World, target: Option<nat>) {
    if target.Some? then target.value in w.asleep else w.asleep == {}
  }

  function NotifyOne(w: World, target: Option<nat>): World {
    if target.None? then w else w.(asleep := w.asleep - {target.value}, woken := w.woken + {target.value})
  }

  /** A thread outside `asleep` and `woken` finds the mutex free. */
  function TryAcquire(w: World, t: nat, slept: bool, a: Answers, target: Option<nat>): World {
    if !w.pool.MayGo() then w.(asleep := w.asleep + {t})
    else
      var (pool, outcome) := Acquire(w.pool, a);
      var w := w.(pool := pool);
      match outcome
      case Leased(h) => w.(leases := w.leases[h := t])
      case CreationFailed => w.(lost := if slept then w.lost + 1 else w.lost)
      case ReconnectFailed => NotifyOne(w, target)
  }

  function Apply(w: World, op: Op): World {
    match op
    case Arrive(t, a, target) => TryAcquire(w, t, false, a, target)
    case Wake(t, a, target) => TryAcquire(w.(woken := w.woken - {t}), t, true, a, target)
    case GiveBack(h, open) =>
      if w.managed then w.(pool := Return(w.pool, h, open), leases := w.leases - {h}, pending := w.pending + 1)
      else w.(leases := w.leases - {h}, discarded := w.discarded + 1)
    case Notify(target) => NotifyOne(w.(pending := Decrement(w.pending)), target)
    case SpuriousWakeup(t) => NotifyOne(w, Some(t))
  }

  // ----- Every connection is counted once -----

  predicate Distinct(s: seq<nat>) {
    forall i, j :: 0 <= i < j < |s| ==> s[i] != s[j]
  }

  /** No connection is idle twice, or idle and leased, and the counter counts them all, and those discarded. */
  predicate Counted(w: World) {
    && Distinct(w.pool.idle)
    && (forall i :: 0 <= i < |w.pool.idle| ==> w.pool.idle[i] !in w.leases)
    && w.pool.created <= w.pool.max
    && |w.pool.idle| + |w.leases| + w.discarded == w.pool.created
    && (if w.managed then w.discarded == 0 else w.pool.idle == [])
    && w.asleep !! w.woken
  }

  lemma AcquireCounted(w: World, t: nat, slept: bool, a: Answers, target: Option<nat>)
    requires Counted(w) && t !in w.asleep + w.woken && NewOnes(w, a) && IsTarget(w, target)
    ensures Counted(TryAcquire(w, t, slept, a, target))
    ensures w.pool.MayGo() && Acquire(w.pool, a).1.Leased? ==> Acquire(w.pool, a).1.handle !in w.leases
  {
    if w.pool.MayGo() {
      AcquireTakes(w.pool, a);
      hide Acquire;
      var outcome := Acquire(w.pool, a).1;
      if outcome.Leased? {
        AddOne(w.leases, outcome.handle, t);
      }
    }
  }

  lemma AddOne(m: map<nat, nat>, h: nat, t: nat)
    requires h !in m
    ensures |m[h := t]| == |m| + 1
  {
  }

  /** Where a connection comes from, and what that leaves. */
  lemma AcquireTakes(p: Pool, a: Answers)
    requires p.MayGo() && (p.idle != [] ==> p.created > 0) && p.created <= p.max
    ensures var (q, outcome) := Acquire(p, a);
            && q.max == p.max && q.created <= p.max
            && |q.idle| == (if p.idle == [] then 0 else |p.idle| - 1)
            && (forall i :: 0 <= i < |q.idle| ==> q.idle[i] == p.idle[i])
            && |q.idle| + (if outcome.Leased? then 1 else 0) - q.created == |p.idle| - p.created
            && (outcome.Leased? ==>
                  || (p.idle != [] && outcome.handle == p.idle[|p.idle| - 1])
                  || a.create == Some(outcome.handle) || a.reconnect == Some(outcome.handle))
  {
  }

  /**
   Which handle is leased: the last idle one, or with none idle the created one, if it is open; else the
   reconnected one. There is none exactly when the creation or the reconnection that is needed fails.
   */
  lemma AcquireLeases(p: Pool, a: Answers)
    requires p.MayGo()
    ensures var outcome := Acquire(p, a).1;
            var atHand := if p.idle != [] then Some(p.idle[|p.idle| - 1]) else a.create;
            && (atHand == None ==> outcome == CreationFailed)
            && (atHand.Some? && a.open ==> outcome == Leased(atHand.value))
            && (atHand.Some? && !a.open && a.reconnect.Some? ==> outcome == Leased(a.reconnect.value))
            && (atHand.Some? && !a.open && a.reconnect == None ==> outcome == ReconnectFailed)
  {
  }

  /** An open connection becomes the next to be handed out; a closed one is not kept and leaves the count. */
  lemma ReturnKeepsOpenOnly(p: Pool, h: nat, open: bool)
    requires p.created > 0
    ensures var q := Return(p, h, open);
            && q.max == p.max && q.created == (if open then p.created else p.created - 1)
            && |q.idle| == |p.idle| + (if open then 1 else 0)
            && (forall i :: 0 <= i < |p.idle| ==> q.idle[i] == p.idle[i])
            && (open ==> forall a: Answers :: a.open ==> Acquire(q, a) == (p, Leased(h)))
  {
    assert open ==> Return(p, h, open).idle[..|p.idle|] == p.idle;
  }

  lemma ReturnCounted(w: World, h: nat, open: bool)
    requires Counted(w) && h in w.leases
    ensures Counted(Apply(w, GiveBack(h, open)))
  {
    assert |w.leases - {h}| == |w.leases| - 1 by { RemoveOne(w.leases, h); }
  }

  lemma RemoveOne(m: map<nat, nat>, h: nat)
    requires h in m
    ensures |m - {h}| == |m| - 1
  {
    assert (m - {h}).Keys == m.Keys - {h};
    assert m == (m - {h})[h := m[h]];
  }

  lemma CountedStep(w: World, op: Op)
    requires Counted(w) && Enabled(w, op)
    ensures Counted(Apply(w, op))
  {
    hide Counted, TryAcquire, Return, NewOnes, NotifyOne;
    match op {
      case Arrive(t, a, target) => AcquireCounted(w, t, false, a, target);
      case Wake(t, a, target) => WakeCounted(w, t, a, target);
      case GiveBack(h, open) => ReturnCounted(w, h, open);
      case Notify(target) =>
        NotifyCounted(w.(pending := Decrement(w.pending)), target) by { PendingCounted(w); }
      case SpuriousWakeup(t) => NotifyCounted(w, Some(t));
    }
  }

  lemma WakeCounted(w: World, t: nat, a: Answers, target: Option<nat>)
    requires Counted(w) && Enabled(w, Wake(t, a, target))
    ensures Counted(Apply(w, Wake(t, a, target)))
  {
    var awake := w.(woken := w.woken - {t});
    assert Counted(awake) && t !in awake.asleep + awake.woken by { hide Distinct; }
    assert NewOnes(awake, a) by { SameUnused(w, awake, a); }
    hide Counted, TryAcquire, NewOnes;
    AcquireCounted(awake, t, true, a, target);
  }

  lemma SameUnused(w: World, v: World, a: Answers)
    requires NewOnes(w, a) && v.pool == w.pool && v.leases == w.leases
    ensures NewOnes(v, a)
  {
  }

  lemma PendingCounted(w: World)
    requires Counted(w)
    ensures Counted(w.(pending := Decrement(w.pending)))
  {
    hide Distinct;
  }

  lemma NotifyCounted(w: World, target: Option<nat>)
    requires Counted(w) && (target.Some? ==> target.value in w.asleep)
    ensures Counted(NotifyOne(w, target))
  {
    hide Distinct;
  }

  /** Both `m_createdCount > 0` tests are always true: the counter counts the connection at hand. */
  lemma GuardsAreTrue(w: World, a: Answers)
    requires Counted(w)
    ensures forall h :: h in w.leases ==> w.pool.created > 0
    ensures w.pool.MayGo() && Acquire(w.pool, a).1.ReconnectFailed? ==>
              Acquire(w.pool, a).0.created == (if w.pool.idle != [] then w.pool.created - 1 else w.pool.created)
              && (w.pool.idle != [] ==> w.pool.created > 0)
  {
    forall h | h in w.leases
      ensures w.pool.created > 0
    {
      RemoveOne(w.leases, h);
    }
  }

  // ----- Every lease is open -----

  /** The connections that are open after a step, of those open before it: new ones are, deleted ones are not. */
  function OpenAfter(w: World, open: set<nat>, op: Op): set<nat> {
    match op
    case GiveBack(h, _) => if w.managed then open else open - {h}
    case Notify(_) => open
    case SpuriousWakeup(_) => open
    case _ =>
      if !w.pool.MayGo() || (w.pool.idle == [] && op.answers.create.None?) then open
      else if op.answers.open then open + (if w.pool.idle == [] then {op.answers.create.value} else {})
      else open + (if op.answers.reconnect.Some? then {op.answers.reconnect.value} else {})
  }

  /** The database says of an old connection whether it is open; new ones are not among the open. */
  predicate Truthful(w: World, open: set<nat>, op: Op) {
    match op
    case GiveBack(h, isOpen) => isOpen <==> h in open
    case Notify(_) => true
    case SpuriousWakeup(_) => true
    case _ =>
      && (w.pool.MayGo() && w.pool.idle != [] ==> (op.answers.open <==> w.pool.idle[|w.pool.idle| - 1] in open))
      && (op.answers.create.Some? ==> op.answers.create.value !in open)
  }

  /** A step of the pool; before it the server may have dropped any connections. */
  datatype Turn = Turn(op: Op, dropped: set<nat>)

  predicate LegalTurns(w: World, open: set<nat>, turns: seq<Turn>)
    decreases |turns|
  {
    turns != [] ==>
      var before := open - turns[0].dropped;
      && Enabled(w, turns[0].op) && Truthful(w, before, turns[0].op)
      && LegalTurns(Apply(w, turns[0].op), OpenAfter(w, before, turns[0].op), turns[1..])
  }

  predicate Handles(w: World, h: nat) {
    h in w.leases || exists i :: 0 <= i < |w.pool.idle| && w.pool.idle[i] == h
  }

  /** No open connection is forgotten: each is idle or leased. */
  predicate Held(w: World, open: set<nat>) {
    forall h :: h in open ==> Handles(w, h)
  }

  /** Whatever a step leases is open at that step and goes to its thread; the other leases stay. */
  predicate LeasesOpen(w: World, open: set<nat>, op: Op) {
    forall h :: h in Apply(w, op).leases ==>
      if h in w.leases then Apply(w, op).leases[h] == w.leases[h]
      else (op.Arrive? || op.Wake?) && Apply(w, op).leases[h] == op.thread && h in OpenAfter(w, open, op)
  }

  predicate AlwaysOpen(w: World, open: set<nat>, turns: seq<Turn>)
    decreases |turns|
  {
    && Held(w, open)
    && (turns != [] ==>
          var before := open - turns[0].dropped;
          && LeasesOpen(w, before, turns[0].op)
          && AlwaysOpen(Apply(w, turns[0].op), OpenAfter(w, before, turns[0].op), turns[1..]))
  }

  lemma LeasedOpen(w: World, t: nat, slept: bool, a: Answers, target: Option<nat>, open: set<nat>)
    requires Counted(w) && Held(w, open) && NewOnes(w, a)
    requires w.pool.MayGo() && w.pool.idle != [] ==> (a.open <==> w.pool.idle[|w.pool.idle| - 1] in open)
    requires a.create.Some? ==> a.create.value !in open
    ensures var next, after := TryAcquire(w, t, slept, a, target), OpenAfter(w, open, Arrive(t, a, target));
            && Held(next, after)
            && forall h :: h in next.leases ==>
                 if h in w.leases then next.leases[h] == w.leases[h] else next.leases[h] == t && h in after
  {
    var next, after := TryAcquire(w, t, slept, a, target), OpenAfter(w, open, Arrive(t, a, target));
    if w.pool.MayGo() {
      AcquireLeases(w.pool, a);
      forall h | h in after
        ensures Handles(next, h)
      {
        if h in open && h !in w.leases {
          var i :| 0 <= i < |w.pool.idle| && w.pool.idle[i] == h;
          assert i < |w.pool.idle| - 1 ==> next.pool.idle[i] == h;
        }
      }
    }
  }

  lemma GivenBackOpen(w: World, open: set<nat>, h: nat, isOpen: bool)
    requires Held(w, open) && h in w.leases && (isOpen <==> h in open)
    ensures var next, after := Apply(w, GiveBack(h, isOpen)), OpenAfter(w, open, GiveBack(h, isOpen));
            Held(next, after) && forall k :: k in next.leases ==> k in w.leases && next.leases[k] == w.leases[k]
  {
    var next, after := Apply(w, GiveBack(h, isOpen)), OpenAfter(w, open, GiveBack(h, isOpen));
    forall k | k in after
      ensures Handles(next, k)
    {
      if k == h && w.managed {
        assert next.pool.idle[|w.pool.idle|] == h;
      } else if k !in w.leases {
        var i :| 0 <= i < |w.pool.idle| && w.pool.idle[i] == k;
        assert next.pool.idle[i] == k;
      }
    }
  }

  lemma AwakeCounted(w: World, t: nat, a: Answers)
    requires Counted(w) && NewOnes(w, a)
    ensures Counted(w.(woken := w.woken - {t})) && NewOnes(w.(woken := w.woken - {t}), a)
  {
    hide Distinct;
    SameUnused(w, w.(woken := w.woken - {t}), a);
  }

  lemma OpenStep(w: World, open: set<nat>, op: Op)
    requires Counted(w) && Held(w, open) && Enabled(w, op) && Truthful(w, open, op)
    ensures LeasesOpen(w, open, op) && Held(Apply(w, op), OpenAfter(w, open, op))
  {
    hide TryAcquire, Counted, NewOnes, Return, IsTarget;
    match op {
      case Arrive(t, a, target) => LeasedOpen(w, t, false, a, target, open);
      case Wake(t, a, target) =>
        AwakeCounted(w, t, a);
        LeasedOpen(w.(woken := w.woken - {t}), t, true, a, target, open);
      case GiveBack(h, isOpen) => GivenBackOpen(w, open, h, isOpen);
      case _ =>
    }
  }

  lemma {:induction false} OpenRun(w: World, open: set<nat>, turns: seq<Turn>)
    requires Counted(w) && Held(w, open) && LegalTurns(w, open, turns)
    ensures AlwaysOpen(w, open, turns)
    decreases |turns|
  {
    hide Counted, Enabled, Apply, Truthful, LeasesOpen;
    if turns != [] {
      var op, before := turns[0].op, open - turns[0].dropped;
      OpenStep(w, before, op);
      CountedStep(w, op);
      OpenRun(Apply(w, op), OpenAfter(w, before, op), turns[1..]);
    }
  }

  /**
   For every run, whichever connections the server drops at whatever moment: a connection is open when
   it is leased, and no open connection is ever forgotten.
   */
  lemma EveryLeaseIsOpen(max: nat, managed: bool, turns: seq<Turn>)
    requires LegalTurns(Start(max, managed), {}, turns)
    ensures AlwaysOpen(Start(max, managed), {}, turns)
  {
    OpenRun(Start(max, managed), {}, turns);
  }

  // ----- No lost wakeup -----

  /** While somebody sleeps, the wakeups under way and k more cover all that is free. */
  predicate Within(w: World, k: nat) {
    w.asleep != {} ==> |w.woken| + w.pending + k >= w.pool.Free()
  }

  /** While somebody sleeps, wakeups under way or lost cover all that is free. */
  predicate Awake(w: World) { Within(w, w.lost) }

  /** While somebody sleeps, the wakeups under way cover all that is free. */
  predicate Covered(w: World) { Within(w, 0) }

  /** The empty-pool creation fails for a thread that had slept. */
  predicate LosesWakeup(w: World, op: Op) {
    op.Wake? && w.pool.idle == [] && w.pool.MayGo() && op.answers.create.None?
  }

  /** Such a failure while others sleep and not one wakeup can be spared. */
  predicate UncoversWithin(w: World, op: Op, k: nat) {
    LosesWakeup(w, op) && w.asleep != {} && |w.woken| + w.pending + k == w.pool.Free()
  }

  /** The guard. */
  predicate Uncovers(w: World, op: Op) { UncoversWithin(w, op, 0) }

  /** A lease takes one free place; a failure takes none. */
  lemma AcquireFree(p: Pool, a: Answers)
    requires p.MayGo() && (p.idle != [] ==> p.created > 0)
    ensures Acquire(p, a).0.Free() == p.Free() - if Acquire(p, a).1.Leased? then 1 else 0
  {
  }

  lemma PutOn(woken: set<nat>, t: nat)
    requires t !in woken
    ensures |woken + {t}| == |woken| + 1
  {
  }

  lemma TakenOff(woken: set<nat>, t: nat)
    requires t in woken
    ensures |woken - {t}| == |woken| - 1
  {
    assert woken == woken - {t} + {t};
  }

  lemma NotifyWithin(w: World, target: Option<nat>, k: nat)
    requires w.asleep !! w.woken && IsTarget(w, target)
    requires w.asleep != {} ==> |w.woken| + w.pending + k + 1 >= w.pool.Free()
    ensures Within(NotifyOne(w, target), k)
  {
    if target.Some? {
      PutOn(w.woken, target.value);
    }
  }

  lemma AcquireWithin(w: World, t: nat, slept: bool, a: Answers, target: Option<nat>, k: nat)
    requires w.asleep !! w.woken && IsTarget(w, target) && (w.pool.idle != [] ==> w.pool.created > 0)
    requires w.asleep != {} ==> |w.woken| + w.pending + k + (if slept then 1 else 0) >= w.pool.Free()
    ensures !Within(TryAcquire(w, t, slept, a, target), k) <==>
            && slept && w.pool.MayGo() && w.pool.idle == [] && a.create.None?
            && w.asleep != {} && |w.woken| + w.pending + k + 1 == w.pool.Free()
  {
    if w.pool.MayGo() {
      AcquireFree(w.pool, a);
      AcquireFails(w.pool, a);
      hide Acquire, NotifyOne;
      if Acquire(w.pool, a).1.ReconnectFailed? {
        NotifyWithin(w.(pool := Acquire(w.pool, a).0), target, k);
      }
    }
  }

  /** What a return frees is one place. */
  lemma ReturnFrees(w: World, h: nat, open: bool)
    requires Counted(w) && h in w.leases
    ensures Return(w.pool, h, open).Free() == w.pool.Free() + 1
  {
    RemoveOne(w.leases, h);
  }

  lemma IdleIsCreated(w: World)
    requires Counted(w)
    ensures w.pool.idle != [] ==> w.pool.created > 0
    ensures w.asleep !! w.woken
  {
  }

  lemma WithinStep(w: World, op: Op, k: nat)
    requires Counted(w) && Within(w, k) && Enabled(w, op)
    ensures Within(Apply(w, op), k) <==> !UncoversWithin(w, op, k)
  {
    hide NewOnes, TryAcquire, Return, NotifyOne;
    IdleIsCreated(w);
    match op {
      case Arrive(t, a, target) =>
        hide Counted;
        AcquireWithin(w, t, false, a, target, k);
      case Wake(t, a, target) =>
        hide Counted;
        TakenOff(w.woken, t);
        AcquireWithin(w.(woken := w.woken - {t}), t, true, a, target, k);
      case GiveBack(h, open) =>
        ReturnFrees(w, h, open);
      case Notify(target) =>
        hide Counted;
        NotifyWithin(w.(pending := Decrement(w.pending)), target, k);
      case SpuriousWakeup(t) =>
        hide Counted;
        NotifyWithin(w, Some(t), k);
    }
  }

  lemma LostStep(w: World, op: Op)
    ensures Apply(w, op).lost == w.lost + if LosesWakeup(w, op) then 1 else 0
  {
    hide Acquire, Return;
    if (op.Arrive? || op.Wake?) && w.pool.MayGo() {
      AcquireFails(w.pool, op.answers);
    }
  }

  lemma AcquireFails(p: Pool, a: Answers)
    requires p.MayGo()
    ensures Acquire(p, a).1.CreationFailed? <==> p.idle == [] && a.create.None?
  {
  }

  lemma AwakeStep(w: World, op: Op)
    requires Counted(w) && Awake(w) && Enabled(w, op)
    ensures Awake(Apply(w, op))
  {
    hide Counted, Enabled, Apply;
    LostStep(w, op);
    if LosesWakeup(w, op) {
      hide LosesWakeup;
      WithinStep(w, op, w.lost + 1);
    } else {
      WithinStep(w, op, w.lost);
    }
  }

  // ----- Runs -----

  predicate Legal(w: World, ops: seq<Op>)
    decreases |ops|
  {
    ops == [] || (Enabled(w, ops[0]) && Legal(Apply(w, ops[0]), ops[1..]))
  }

  function Run(w: World, ops: seq<Op>): World
    decreases |ops|
  {
    if ops == [] then w else Run(Apply(w, ops[0]), ops[1..])
  }

  // ----- Exactly when a sleeper is left alone -----

  /** One step leaves a sleeper uncovered exactly when a creation fails with no wakeup to spare. */
  lemma CoveredStep(w: World, op: Op)
    requires Counted(w) && Covered(w) && Enabled(w, op)
    ensures Covered(Apply(w, op)) <==> !Uncovers(w, op)
  {
    hide Counted, Enabled, Apply, Within, UncoversWithin;
    WithinStep(w, op, 0);
  }

  /** Every state of the run is covered. */
  predicate AlwaysCovered(w: World, ops: seq<Op>)
    decreases |ops|
  {
    Covered(w) && (ops != [] ==> AlwaysCovered(Apply(w, ops[0]), ops[1..]))
  }

  predicate NeverUncovers(w: World, ops: seq<Op>)
    decreases |ops|
  {
    ops != [] ==> !Uncovers(w, ops[0]) && NeverUncovers(Apply(w, ops[0]), ops[1..])
  }

  lemma {:induction false} CoveredRun(w: World, ops: seq<Op>)
    requires Counted(w) && Covered(w) && Legal(w, ops)
    ensures AlwaysCovered(w, ops) <==> NeverUncovers(w, ops)
    decreases |ops|
  {
    if ops != [] {
      CountedStep(w, ops[0]);
      CoveredStep(w, ops[0]);
      hide Counted, Covered, Enabled, Apply, Uncovers;
      if !Uncovers(w, ops[0]) {
        CoveredRun(Apply(w, ops[0]), ops[1..]);
      } else {
        NotCovered(Apply(w, ops[0]), ops[1..]);
      }
    }
  }

  lemma NotCovered(w: World, ops: seq<Op>)
    requires !Covered(w)
    ensures !AlwaysCovered(w, ops)
  {
  }

  /** For every run, whatever else fails: every sleeper is covered all along exactly unless some step uncovers one. */
  lemma CoveredExactlyUnlessUncovered(max: nat, managed: bool, ops: seq<Op>)
    requires Legal(Start(max, managed), ops)
    ensures AlwaysCovered(Start(max, managed), ops) <==> NeverUncovers(Start(max, managed), ops)
  {
    CoveredRun(Start(max, managed), ops);
  }

  // ----- Pools without a shared owner -----

  /**
   An unmanaged pool has nothing idle; it hands out a connection exactly while those leased and
   those discarded are fewer than the maximum.
   */
  lemma UnmanagedPoolCounts(max: nat, ops: seq<Op>)
    requires Legal(Start(max, false), ops)
    ensures var w := Run(Start(max, false), ops);
            && w.pool.created == |w.leases| + w.discarded
            && (w.pool.MayGo() <==> |w.leases| + w.discarded < max)
  {
    PoolInvariant(Start(max, false), ops);
  }

  lemma DiscardedStep(w: World, op: Op)
    ensures Apply(w, op).discarded >= w.discarded
  {
  }

  lemma {:induction false} DiscardedGrows(w: World, ops: seq<Op>)
    ensures Run(w, ops).discarded >= w.discarded
    decreases |ops|
  {
    hide Apply;
    if ops != [] {
      DiscardedStep(w, ops[0]);
      DiscardedGrows(Apply(w, ops[0]), ops[1..]);
    }
  }

  /** Once the maximum has been discarded, nobody ever gets a connection again. */
  lemma DryForever(w: World, ops: seq<Op>)
    requires Counted(w) && Awake(w) && !w.managed && w.discarded == w.pool.max && Legal(w, ops)
    ensures Run(w, ops).leases == map[] && !Run(w, ops).pool.MayGo()
  {
    PoolInvariant(w, ops);
    DiscardedGrows(w, ops);
  }

  // ----- Every run -----

  /** In every state of every run of every interleaving. */
  lemma {:induction false} PoolInvariant(w: World, ops: seq<Op>)
    requires Counted(w) && Awake(w) && Legal(w, ops)
    ensures Counted(Run(w, ops)) && Awake(Run(w, ops))
    ensures Run(w, ops).managed == w.managed && Run(w, ops).pool.max == w.pool.max
    decreases |ops|
  {
    if ops != [] {
      CountedStep(w, ops[0]);
      AwakeStep(w, ops[0]);
      StepKeepsSettings(w, ops[0]);
      hide Counted, Awake, Enabled, Apply;
      PoolInvariant(Apply(w, ops[0]), ops[1..]);
    }
  }

  lemma StepKeepsSettings(w: World, op: Op)
    ensures Apply(w, op).managed == w.managed && Apply(w, op).pool.max == w.pool.max
  {
  }

  predicate NothingLost(w: World, ops: seq<Op>)
    decreases |ops|
  {
    ops == [] || (!LosesWakeup(w, ops[0]) && NothingLost(Apply(w, ops[0]), ops[1..]))
  }

  lemma {:induction false} LostCounts(w: World, ops: seq<Op>)
    requires NothingLost(w, ops)
    ensures Run(w, ops).lost == w.lost
    decreases |ops|
  {
    if ops != [] {
      LostStep(w, ops[0]);
      hide Apply;
      LostCounts(Apply(w, ops[0]), ops[1..]);
    }
  }

  /**
   Whatever else fails, if no creation ever fails for a thread that had slept, then a sleeper
   always has enough wakeups under way; and once none is, every connection the pool may have
   is leased.
   */
  lemma NoLostWakeup(max: nat, ops: seq<Op>)
    requires Legal(Start(max, true), ops) && NothingLost(Start(max, true), ops)
    ensures var w := Run(Start(max, true), ops);
            w.asleep != {} ==>
              && |w.woken| + w.pending >= w.pool.Free()
              && (w.woken == {} && w.pending == 0 ==> |w.leases| == max)
  {
    PoolInvariant(Start(max, true), ops);
    LostCounts(Start(max, true), ops);
  }

  /** One such failure is enough: a sleeper, a free place, and nobody to wake it. */
  lemma FailedCreationLosesWakeup()
    ensures exists ops :: Legal(Start(1, true), ops) &&
              var w := Run(Start(1, true), ops);
              w.asleep != {} && w.woken == {} && w.pending == 0 && w.pool.Free() == 1
  {
    var fine, broken := Answers(true, Some(7), None), Answers(true, None, None);
    var o0, o1, o2 := Arrive(0, fine, None), Arrive(1, broken, None), Arrive(2, broken, Some(1));
    var o3, o4, o5 := GiveBack(7, false), Notify(Some(1)), Wake(1, broken, Some(2));
    var w1 := Apply(Start(1, true), o0);
    var w2 := Apply(w1, o1);
    var w3 := Apply(w2, o2);
    assert w3.leases == map[7 := 0] && w3.asleep == {1, 2};
    var w4 := Apply(w3, o3);
    assert w4.leases == map[];
    var w5 := Apply(w4, o4);
    var w6 := Apply(w5, o5);
    RunTwo(w4, o4, o5);
    RunOne(w3, o3, [o4, o5]);
    RunOne(w2, o2, [o3] + [o4, o5]);
    RunOne(w1, o1, [o2] + ([o3] + [o4, o5]));
    RunOne(Start(1, true), o0, [o1] + ([o2] + ([o3] + [o4, o5])));
  }

  /** Nothing in the repository builds such a pool; the deleter provides for it. */
  lemma UnmanagedPoolRunsDry()
    ensures exists ops :: Legal(Start(1, false), ops) &&
              var w := Run(Start(1, false), ops);
              w.asleep != {} && w.woken == {} && w.pending == 0 && w.leases == map[] && w.pool.Free() == 0
  {
    var fine := Answers(true, Some(7), None);
    var o0, o1, o2 := Arrive(0, fine, None), GiveBack(7, true), Arrive(1, fine, None);
    var w1 := Apply(Start(1, false), o0);
    var w2 := Apply(w1, o1);
    assert w2.leases == map[];
    RunTwo(w1, o1, o2);
    RunOne(Start(1, false), o0, [o1, o2]);
  }

  lemma RunOne(w: World, op: Op, rest: seq<Op>)
    requires Enabled(w, op) && Legal(Apply(w, op), rest)
    ensures Legal(w, [op] + rest) && Run(w, [op] + rest) == Run(Apply(w, op), rest)
  {
    assert ([op] + rest)[1..] == rest;
  }

  lemma RunTwo(w: World, a: Op, b: Op)
    requires Enabled(w, a) && Enabled(Apply(w, a), b)
    ensures Legal(w, [a, b]) && Run(w, [a, b]) == Apply(Apply(w, a), b)
  {
    RunOne(Apply(w, a), b, []);
    RunOne(w, a, [b]);
    assert [a] + [b] == [a, b] && [b] + [] == [b];
  }
}
