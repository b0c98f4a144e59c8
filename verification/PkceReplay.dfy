/**
 Single use of the PKCE verifier when the two transactions of a callback interleave with others,
 and clean-ups of the cache in such runs.
 */
module PkceReplay {
  import opened Wrappers
  import opened Transactions
  import opened PkceCache

  // ----- Exactly when a verifier is taken twice -----

  ghost predicate TakenOnce(log: seq<Event>) {
    forall j, k :: 0 <= j < k < |log| && log[j].Taken? && log[k].Taken? ==> log[j].verifier != log[k].verifier
  }

  ghost predicate TakenBefore(log: seq<Event>, verifier: string) {
    exists k :: 0 <= k < |log| && log[k].Taken? && log[k].verifier == verifier
  }

  /** The states whose present row has been taken by some callback and is still there. */
  function Left(w: World, left: set<string>, op: Op): set<string>
    requires Enabled(w, op)
  {
    match op
    case IssueUrl(state, _, _, fault) =>
      if Applied(fault) && |PREFIX + state| <= MAX_KEY then left - {state} else left
    case CallbackLookup(_, state, now, fails) =>
      if LookUp(w.cache, state, now, fails).Some? then left + {state} else left
    case CallbackRemoval(request, _, fault) => if Applied(fault) then left - {w.flights[request].state} else left
    case _ => left
  }

  /** The guard: a lookup finds a live row that was taken before and not removed or replaced since. */
  predicate Replays(w: World, left: set<string>, op: Op) {
    op.CallbackLookup? && op.state in left && LookUp(w.cache, op.state, op.now, op.fails).Some?
  }

  ghost predicate Tracks(w: World, left: set<string>) {
    forall state: string :: PREFIX + state in w.cache ==>
      (state in left <==> TakenBefore(w.log, w.cache[PREFIX + state].value))
  }

  /** Different states never share a verifier. */
  lemma OneState(w: World, a: string, b: string)
    requires Inv(w) && PREFIX + a in w.cache && PREFIX + b in w.cache
    ensures w.cache[PREFIX + a].value == w.cache[PREFIX + b].value ==> a == b
  {
    assert IssuedFor(w.log, a, w.cache[PREFIX + a]) && IssuedFor(w.log, b, w.cache[PREFIX + b]);
    var x :| Issued(a, w.cache[PREFIX + a].value, x) in w.log;
    var y :| Issued(b, w.cache[PREFIX + b].value, y) in w.log;
    var j :| 0 <= j < |w.log| && w.log[j] == Issued(a, w.cache[PREFIX + a].value, x);
    var k :| 0 <= k < |w.log| && w.log[k] == Issued(b, w.cache[PREFIX + b].value, y);
    assert j != k ==> w.log[j].verifier != w.log[k].verifier;
  }

  lemma TakenWasIssued(w: World, verifier: string)
    requires Inv(w) && TakenBefore(w.log, verifier)
    ensures WasIssued(w.log, verifier)
  {
    var k :| 0 <= k < |w.log| && w.log[k].Taken? && w.log[k].verifier == verifier;
    assert InTime(w.log, w.log[k].state, w.log[k].verifier, w.log[k].at);
    var at :| Issued(w.log[k].state, verifier, at) in w.log;
  }

  /** Which verifiers a step adds to those taken. */
  lemma TakenStep(w: World, op: Op, verifier: string)
    requires Enabled(w, op)
    ensures TakenBefore(Apply(w, op).log, verifier) <==>
            || TakenBefore(w.log, verifier)
            || (op.CallbackLookup? && LookUp(w.cache, op.state, op.now, op.fails) == Some(verifier))
  {
    var log := Apply(w, op).log;
    LogGrows(w, op);
    assert forall k :: 0 <= k < |w.log| ==> log[k] == w.log[k];
    if op.CallbackLookup? && LookUp(w.cache, op.state, op.now, op.fails) == Some(verifier) {
      assert log[|w.log|].Taken?;
    }
  }

  lemma TracksStep(w: World, left: set<string>, op: Op)
    requires Inv(w) && Tracks(w, left) && Enabled(w, op)
    ensures Tracks(Apply(w, op), Left(w, left, op))
  {
    var next, more := Apply(w, op), Left(w, left, op);
    forall state: string | PREFIX + state in next.cache
      ensures state in more <==> TakenBefore(next.log, next.cache[PREFIX + state].value)
    {
      TakenStep(w, op, next.cache[PREFIX + state].value);
      RowTracked(w, left, op, state);
    }
  }

  lemma RowTracked(w: World, left: set<string>, op: Op, state: string)
    requires Inv(w) && Tracks(w, left) && Enabled(w, op) && PREFIX + state in Apply(w, op).cache
    ensures state in Left(w, left, op) <==>
            || TakenBefore(w.log, Apply(w, op).cache[PREFIX + state].value)
            || (op.CallbackLookup?
                && LookUp(w.cache, op.state, op.now, op.fails) == Some(Apply(w, op).cache[PREFIX + state].value))
  {
    hide Inv;
    RowsUnderPrefix(w, op, state);
    match op {
      case IssueUrl(other, verifier, _, fault) =>
        PrefixIsInjective(state, other);
        if TakenBefore(w.log, verifier) { TakenWasIssued(w, verifier); }
      case CallbackLookup(_, other, now, fails) =>
        if LookUp(w.cache, other, now, fails).Some? { OneState(w, state, other); }
      case CallbackRemoval(request, _, fault) =>
        PrefixIsInjective(state, w.flights[request].state);
      case _ =>
    }
  }

  /** One step keeps every verifier taken once exactly unless it is a replay. */
  lemma TakenOnceStep(w: World, left: set<string>, op: Op)
    requires Inv(w) && Tracks(w, left) && Enabled(w, op)
    ensures TakenOnce(Apply(w, op).log) <==> TakenOnce(w.log) && !Replays(w, left, op)
  {
    var log := Apply(w, op).log;
    hide Inv;
    if op.CallbackLookup? && LookUp(w.cache, op.state, op.now, op.fails).Some? {
      OneMoreTaken(w.log, log[|w.log|]);
    } else {
      LogGrows(w, op);
      assert forall k :: |w.log| <= k < |log| ==> !log[k].Taken?;
      assert forall k :: 0 <= k < |w.log| ==> log[k] == w.log[k];
    }
  }

  lemma OneMoreTaken(log: seq<Event>, e: Event)
    requires e.Taken?
    ensures TakenOnce(log + [e]) <==> TakenOnce(log) && !TakenBefore(log, e.verifier)
  {
    var more := log + [e];
    assert more[|log|] == e && forall k :: 0 <= k < |log| ==> more[k] == log[k];
  }

  predicate AnyReplay(w: World, left: set<string>, ops: seq<Op>)
    requires Legal(w, ops)
    decreases |ops|
  {
    ops != [] && (Replays(w, left, ops[0]) || AnyReplay(Apply(w, ops[0]), Left(w, left, ops[0]), ops[1..]))
  }

  lemma {:induction false} TakenOnceRun(w: World, left: set<string>, ops: seq<Op>)
    requires Inv(w) && Tracks(w, left) && Legal(w, ops)
    ensures TakenOnce(Run(w, ops).log) <==> TakenOnce(w.log) && !AnyReplay(w, left, ops)
    decreases |ops|
  {
    hide Inv, Tracks, Enabled, Apply, TakenOnce, Left, Replays;
    if ops != [] {
      InvStep(w, ops[0]);
      TracksStep(w, left, ops[0]);
      TakenOnceStep(w, left, ops[0]);
      TakenOnceRun(Apply(w, ops[0]), Left(w, left, ops[0]), ops[1..]);
    }
  }

  // ----- From taken to exchanged -----

  ghost predicate ExchangedOnce(log: seq<Event>) {
    forall j, k ::
      0 <= j < k < |log| && log[j].Exchanged? && log[k].Exchanged? ==> log[j].verifier != log[k].verifier
  }

  ghost predicate WasExchanged(log: seq<Event>, request: nat, verifier: string) {
    exists k :: 0 <= k < |log| && log[k].Exchanged? && log[k].request == request && log[k].verifier == verifier
  }

  /** Requests are taken once and exchanged once, and what was taken is in flight or exchanged. */
  ghost predicate Accounted(w: World) {
    && (forall k :: 0 <= k < |w.log| && !w.log[k].Issued? ==> w.log[k].request in w.requests)
    && (forall r :: r in w.flights ==> r in w.requests)
    && (forall j, k :: 0 <= j < k < |w.log| && w.log[j].Taken? && w.log[k].Taken? ==>
          w.log[j].request != w.log[k].request)
    && (forall j, k :: 0 <= j < k < |w.log| && w.log[j].Exchanged? && w.log[k].Exchanged? ==>
          w.log[j].request != w.log[k].request)
    && (forall k :: 0 <= k < |w.log| && w.log[k].Exchanged? ==> w.log[k].request !in w.flights)
    && (forall k :: 0 <= k < |w.log| && w.log[k].Taken? ==> Settled(w, w.log[k].request, w.log[k].verifier))
  }

  ghost predicate Settled(w: World, request: nat, verifier: string) {
    (request in w.flights && w.flights[request].verifier == verifier) || WasExchanged(w.log, request, verifier)
  }

  lemma SettledStep(w: World, op: Op, request: nat, verifier: string)
    requires Accounted(w) && Enabled(w, op) && Settled(w, request, verifier)
    ensures Settled(Apply(w, op), request, verifier)
  {
    var next := Apply(w, op);
    LogGrows(w, op);
    if WasExchanged(w.log, request, verifier) {
      var k :| 0 <= k < |w.log| && w.log[k].Exchanged? && w.log[k].request == request && w.log[k].verifier == verifier;
      assert next.log[k] == w.log[k];
    } else if op.CallbackRemoval? && op.request == request {
      assert next.log[|w.log|].Exchanged?;
    }
  }

  lemma AccountedStep(w: World, op: Op)
    requires Accounted(w) && Enabled(w, op)
    ensures Accounted(Apply(w, op))
  {
    var next := Apply(w, op);
    LogGrows(w, op);
    forall k | 0 <= k < |next.log| && next.log[k].Taken?
      ensures Settled(next, next.log[k].request, next.log[k].verifier)
    {
      if k < |w.log| {
        assert next.log[k] == w.log[k];
        SettledStep(w, op, w.log[k].request, w.log[k].verifier);
      }
    }
    hide Settled, LookUp, Removed, Settle, Set;
  }

  lemma {:induction false} AccountedRun(w: World, ops: seq<Op>)
    requires Accounted(w) && Legal(w, ops)
    ensures Accounted(Run(w, ops))
    decreases |ops|
  {
    hide Accounted, Enabled, Apply;
    if ops != [] {
      AccountedStep(w, ops[0]);
      AccountedRun(Apply(w, ops[0]), ops[1..]);
    }
  }

  lemma TakenOnceIsExchangedOnce(w: World)
    requires Inv(w) && Accounted(w)
    ensures TakenOnce(w.log) ==> ExchangedOnce(w.log)
    ensures w.flights == map[] ==> (TakenOnce(w.log) <==> ExchangedOnce(w.log))
  {
    forall j, k | 0 <= j < k < |w.log| && w.log[j].Exchanged? && w.log[k].Exchanged? && TakenOnce(w.log)
      ensures w.log[j].verifier != w.log[k].verifier
    {
      assert WasTaken(w.log, w.log[j].request, w.log[j].state, w.log[j].verifier);
      assert WasTaken(w.log, w.log[k].request, w.log[k].state, w.log[k].verifier);
    }
    if w.flights == map[] {
      forall j, k | 0 <= j < k < |w.log| && w.log[j].Taken? && w.log[k].Taken? && ExchangedOnce(w.log)
        ensures w.log[j].verifier != w.log[k].verifier
      {
        assert Settled(w, w.log[j].request, w.log[j].verifier) && Settled(w, w.log[k].request, w.log[k].verifier);
      }
    }
  }

  /**
   For every run of interleaved callbacks: each verifier is taken once exactly unless some lookup
   is a replay. Then it is also exchanged once; and once no callback is in flight, exactly then.
   */
  lemma UsedOnceExactlyUnlessReplayed(now: int, ops: seq<Op>)
    requires Legal(Start(now), ops)
    ensures var w := Run(Start(now), ops);
            && (TakenOnce(w.log) <==> !AnyReplay(Start(now), {}, ops))
            && (!AnyReplay(Start(now), {}, ops) ==> ExchangedOnce(w.log))
            && (w.flights == map[] ==> (ExchangedOnce(w.log) <==> !AnyReplay(Start(now), {}, ops)))
  {
    TakenOnceRun(Start(now), {}, ops);
    InvRun(Start(now), ops);
    AccountedRun(Start(now), ops);
    TakenOnceIsExchangedOnce(Run(Start(now), ops));
  }

  // ----- One callback at a time -----

  /** No lookup while a callback is in flight, and removals that take effect. */
  predicate OneAtATime(w: World, ops: seq<Op>)
    requires Legal(w, ops)
    decreases |ops|
  {
    ops != [] ==>
      && (ops[0].CallbackLookup? ==> w.flights == map[])
      && (ops[0].CallbackRemoval? ==> Applied(ops[0].fault))
      && OneAtATime(Apply(w, ops[0]), ops[1..])
  }

  /** Whatever is left has its callback in flight, and there is at most one. */
  predicate LeftInFlight(w: World, left: set<string>) {
    && (forall state :: state in left ==> exists r :: r in w.flights && w.flights[r].state == state)
    && (forall a, b :: a in w.flights && b in w.flights ==> a == b)
  }

  lemma {:induction false} NoReplayOneAtATime(w: World, left: set<string>, ops: seq<Op>)
    requires Legal(w, ops) && OneAtATime(w, ops) && LeftInFlight(w, left)
    ensures !AnyReplay(w, left, ops)
    decreases |ops|
  {
    if ops != [] {
      LeftStep(w, left, ops[0]);
      hide Apply, Enabled, Left, LookUp;
      NoReplayOneAtATime(Apply(w, ops[0]), Left(w, left, ops[0]), ops[1..]);
    }
  }

  lemma LeftStep(w: World, left: set<string>, op: Op)
    requires Enabled(w, op) && LeftInFlight(w, left)
    requires (op.CallbackLookup? ==> w.flights == map[]) && (op.CallbackRemoval? ==> Applied(op.fault))
    ensures LeftInFlight(Apply(w, op), Left(w, left, op)) && !Replays(w, left, op)
  {
    var next := Apply(w, op);
    forall state | state in Left(w, left, op)
      ensures exists r :: r in next.flights && next.flights[r].state == state
    {
      if state in left {
        var r :| r in w.flights && w.flights[r].state == state;
        if op.CallbackRemoval? {
          assert false;
        }
        assert r in next.flights && next.flights[r] == w.flights[r];
      } else {
        assert next.flights[op.request].state == state;
      }
    }
  }

  /** Callbacks that do not overlap, with removals that take effect, exchange each verifier at most once. */
  lemma VerifierIsUsedOnce(now: int, ops: seq<Op>)
    requires Legal(Start(now), ops) && OneAtATime(Start(now), ops)
    ensures ExchangedOnce(Run(Start(now), ops).log)
  {
    NoReplayOneAtATime(Start(now), {}, ops);
    UsedOnceExactlyUnlessReplayed(now, ops);
  }

  // ----- Runs with a replay -----

  /** Two callbacks both look up before either removes; every removal takes effect. */
  lemma OverlappingCallbacksReplay(now: int)
    ensures exists ops: seq<Op> :: Legal(Start(now), ops)
                          && ExchangedTwice(Run(Start(now), ops).log, "v")
                          && forall k :: 0 <= k < |ops| && ops[k].CallbackRemoval? ==> ops[k].fault.NoFault?
  {
    var o0 := IssueUrl("s", "v", now, NoFault);
    var w1 := Apply(Start(now), o0);
    var rest := BothCallBack(w1, now);
    RunOne(Start(now), o0, rest);
  }

  lemma BothCallBack(w: World, now: int) returns (ops: seq<Op>)
    requires w.now == now && w.flights == map[] && w.requests == {}
    requires PREFIX + "s" in w.cache && w.cache[PREFIX + "s"] == Entry("v", STATE_TTL, now + STATE_TTL)
    ensures Legal(w, ops) && ExchangedTwice(Run(w, ops).log, "v")
    ensures forall k :: 0 <= k < |ops| && ops[k].CallbackRemoval? ==> ops[k].fault.NoFault?
  {
    var o1, o2 := CallbackLookup(1, "s", now, false), CallbackLookup(2, "s", now, false);
    var o3, o4 := CallbackRemoval(1, now, NoFault), CallbackRemoval(2, now, NoFault);
    LookUpFinds(w.cache, "s", now, false);
    hide LookUp;
    var w2 := Apply(w, o1);
    var w3 := Apply(w2, o2);
    assert w3.flights == map[1 := Flight("s", "v"), 2 := Flight("s", "v")];
    var rest := RemoveBoth(w3, now, o3, o4);
    hide Apply, Enabled, ExchangedTwice;
    RunOne(w2, o2, rest);
    RunOne(w, o1, [o2] + rest);
    ops := [o1] + ([o2] + rest);
    assert ops == [o1, o2, o3, o4];
  }

  ghost predicate ExchangedTwice(log: seq<Event>, verifier: string) {
    exists j, k :: 0 <= j < k < |log| && log[j].Exchanged? && log[k].Exchanged?
                   && log[j].verifier == verifier && log[k].verifier == verifier
  }

  lemma RemoveBoth(w: World, now: int, a: Op, b: Op) returns (ops: seq<Op>)
    requires a.CallbackRemoval? && b.CallbackRemoval? && a.now == b.now == now && w.now <= now
    requires a.request != b.request && a.request in w.flights && b.request in w.flights
    requires w.flights[a.request].verifier == "v" && w.flights[b.request].verifier == "v"
    ensures ops == [a] + ([b] + []) && Legal(w, ops) && ExchangedTwice(Run(w, ops).log, "v")
  {
    var w1 := Apply(w, a);
    var w2 := Apply(w1, b);
    assert w2.log[|w.log|].Exchanged? && w2.log[|w.log| + 1].Exchanged?;
    ops := [a] + ([b] + []);
    RunOne(w1, b, []);
    RunOne(w, a, [b] + []);
  }

  /** The use case ignores the answer of `remove`, so a removal that fails allows a second use, too. */
  lemma FailedRemovalAllowsReplay(now: int)
    ensures exists ops: seq<Op> :: Legal(Start(now), ops) && ExchangedTwice(Run(Start(now), ops).log, "v")
  {
    var o0 := IssueUrl("s", "v", now, NoFault);
    var o1, o2 := CallbackLookup(1, "s", now, false), CallbackRemoval(1, now, EarlyFault);
    var o3, o4 := CallbackLookup(2, "s", now, false), CallbackRemoval(2, now, NoFault);
    var w1 := Apply(Start(now), o0);
    var w2 := Apply(w1, o1);
    var w3 := Apply(w2, o2);
    var w4 := Apply(w3, o3);
    var w5 := Apply(w4, o4);
    assert w5.log[2].Exchanged? && w5.log[4].Exchanged?;
    RunOne(w4, o4, []);
    RunOne(w3, o3, [o4] + []);
    RunOne(w2, o2, [o3] + ([o4] + []));
    RunOne(w1, o1, [o2] + ([o3] + ([o4] + [])));
    RunOne(Start(now), o0, [o1] + ([o2] + ([o3] + ([o4] + []))));
  }

  lemma RunOne(w: World, op: Op, rest: seq<Op>)
    requires Enabled(w, op) && Legal(Apply(w, op), rest)
    ensures Legal(w, [op] + rest) && Run(w, [op] + rest) == Run(Apply(w, op), rest)
  {
    assert ([op] + rest)[1..] == rest;
  }

  // ----- Cleaning up is invisible -----

  /** Equal but for rows that have expired. */
  ghost predicate SameLive(a: World, b: World) {
    && b == a.(cache := b.cache)
    && forall key :: (IsLive(a.cache, key, a.now) || IsLive(b.cache, key, a.now)) ==>
         key in a.cache && key in b.cache && a.cache[key] == b.cache[key]
  }

  lemma SameAnswers(a: World, b: World, key: string, now: int)
    requires SameLive(a, b) && a.now <= now
    ensures Get(a.cache, key, now) == Get(b.cache, key, now)
  {
    assert IsLive(a.cache, key, now) ==> IsLive(a.cache, key, a.now);
    assert IsLive(b.cache, key, now) ==> IsLive(b.cache, key, a.now);
  }

  lemma SameStep(a: World, b: World, op: Op)
    requires SameLive(a, b) && Enabled(a, op)
    ensures Enabled(b, op) && SameLive(Apply(a, op), Apply(b, op))
  {
    forall key
      ensures IsLive(a.cache, key, op.now) ==> IsLive(a.cache, key, a.now)
      ensures IsLive(b.cache, key, op.now) ==> IsLive(b.cache, key, a.now)
    {
    }
    if op.CallbackLookup? {
      SameAnswers(a, b, PREFIX + op.state, op.now);
      hide Get;
    }
  }

  lemma CleanupStep(a: World, b: World, op: Op)
    requires SameLive(a, b) && op.Cleanup? && Enabled(a, op)
    ensures SameLive(Apply(a, op), b.(now := op.now))
  {
    forall key
      ensures IsLive(a.cache, key, op.now) ==> IsLive(a.cache, key, a.now)
      ensures IsLive(b.cache, key, op.now) ==> IsLive(b.cache, key, a.now)
    {
    }
  }

  function WithoutCleanups(ops: seq<Op>): seq<Op>
    decreases |ops|
  {
    if ops == [] then []
    else (if ops[0].Cleanup? then [] else [ops[0]]) + WithoutCleanups(ops[1..])
  }

  /** Later ops only look at the clock through their own times. */
  lemma LaterClock(w: World, ops: seq<Op>, now: int)
    requires Legal(w.(now := now), ops) && w.now <= now
    ensures Legal(w, ops) && Run(w, ops).log == Run(w.(now := now), ops).log
  {
    if ops != [] {
      assert Apply(w.(now := now), ops[0]) == Apply(w, ops[0]);
    }
  }

  /** Leaving out every clean-up of a run changes no answer to any request. */
  lemma {:induction false} CleanupsAreInvisible(a: World, b: World, ops: seq<Op>)
    requires SameLive(a, b) && Legal(a, ops)
    ensures Legal(b, WithoutCleanups(ops)) && Run(b, WithoutCleanups(ops)).log == Run(a, ops).log
    decreases |ops|
  {
    hide SameLive, Enabled, Apply;
    var kept := WithoutCleanups(ops);
    if ops == [] {
      SameLogs(a, b);
    } else if ops[0].Cleanup? {
      assert kept == WithoutCleanups(ops[1..]);
      ClockMoves(a, b, ops[0]);
      CleanupStep(a, b, ops[0]);
      CleanupsAreInvisible(Apply(a, ops[0]), b.(now := ops[0].now), ops[1..]);
      LaterClock(b, kept, ops[0].now);
    } else {
      SameStep(a, b, ops[0]);
      assert kept[1..] == WithoutCleanups(ops[1..]);
      CleanupsAreInvisible(Apply(a, ops[0]), Apply(b, ops[0]), ops[1..]);
    }
  }

  lemma SameLogs(a: World, b: World)
    requires SameLive(a, b)
    ensures a.log == b.log
  {
  }

  lemma ClockMoves(a: World, b: World, op: Op)
    requires SameLive(a, b) && Enabled(a, op)
    ensures a.now <= op.now && a.now == b.now
  {
  }
}
