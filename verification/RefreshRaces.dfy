/**
 Refreshes that overlap: when a refresh hash rotates its session twice, and when two refreshes
 succeed with one hash.
 */
module RefreshRaces {
  import opened Wrappers
  import opened SessionTables
  import opened SessionRepository
  import opened Transactions
  import opened RevocationProtocol

  /** Two refreshes of the log report success for one hash. */
  ghost predicate ReportedTwice(log: seq<Event>) {
    exists i, j :: 0 <= i < j < |log| && log[i].Refreshed? && log[j].Refreshed? && log[i].hash == log[j].hash
  }

  ghost predicate Reported(log: seq<Event>, hash: string) {
    exists k :: 0 <= k < |log| && log[k].Refreshed? && log[k].hash == hash
  }

  /** The update reaches a live session; it is applied unless the call fails without effect. */
  predicate Rotates(w: World, op: Op) {
    && op.RefreshUpdate? && op.request in w.flights && w.flights[op.request].RefreshReady?
    && w.flights[op.request].sid in w.tables.sessions
    && !w.tables.sessions[w.flights[op.request].sid].IsRevoked()
    && (op.fault.NoFault? || (op.fault.LateFault? && op.fault.applied))
  }

  /** The guard: an update of a session whose hash is no longer the one its request looked up. */
  predicate WritesStale(w: World, op: Op) {
    Rotates(w, op) && !HoldsHash(w.tables, w.flights[op.request].sid, w.flights[op.request].hash)
  }

  /** What an update does to the flags and the log. */
  lemma UpdateTells(w: World, op: Op)
    requires Inv(w) && op.RefreshUpdate? && Enabled(w, op)
    ensures var next, f := Apply(w, op), w.flights[op.request];
            && next.stale == (w.stale || WritesStale(w, op))
            && next.spent == (if Rotates(w, op) then w.spent + {f.hash} else w.spent)
            && next.log == if Rotates(w, op) && op.fault.NoFault?
                           then w.log + [Refreshed(op.request, f.sid, f.hash)] else w.log
  {
    hide WellFormed, RowsKnown, TokensKnown, FlightsKnown, HoldsHash;
    UpdateRotates(w, op);
    UpdateResult(w, op);
    hide UpdateCall;
  }

  lemma UpdateResult(w: World, op: Op)
    requires Inv(w) && op.RefreshUpdate? && Enabled(w, op)
    ensures var (tables, updated) :=
              UpdateCall(w.tables, w.flights[op.request].sid, op.newHash, op.newJti, op.expiresAt, op.now, op.fault);
            (tables != w.tables <==> Rotates(w, op)) && (updated <==> Rotates(w, op) && op.fault.NoFault?)
  {
    var f := w.flights[op.request];
    assert FlightKnown(w, f);
    FindIsUnique(w.tables, f.sid, f.sid);
    assert !JtiTaken(w.tables, op.newJti);
    assert op.newHash !in w.owners && w.tables.sessions[f.sid].hash in w.owners;
    hide WellFormed, RowsKnown, TokensKnown, FlightsKnown, FindIn;
    var rotated := Rotate(w.tables, f.sid, op.newHash, op.newJti, op.expiresAt, op.now);
    assert rotated.sessions[f.sid].hash == op.newHash;
  }

  lemma OneMoreReport(log: seq<Event>, e: Event)
    requires e.Refreshed?
    ensures ReportedTwice(log + [e]) <==> ReportedTwice(log) || Reported(log, e.hash)
    ensures forall hash :: Reported(log + [e], hash) <==> Reported(log, hash) || hash == e.hash
  {
    var more := log + [e];
    assert more[|log|] == e && forall k :: 0 <= k < |log| ==> more[k] == log[k];
    if i, j :| 0 <= i < j < |log| && log[i].Refreshed? && log[j].Refreshed? && log[i].hash == log[j].hash {
      assert more[i].hash == more[j].hash;
    }
    if k :| 0 <= k < |log| && log[k].Refreshed? && log[k].hash == e.hash {
      assert more[k].hash == more[|log|].hash;
    }
    forall hash | Reported(log, hash) || hash == e.hash
      ensures Reported(more, hash)
    {
      if hash != e.hash {
        var k :| 0 <= k < |log| && log[k].Refreshed? && log[k].hash == hash;
        assert more[k].hash == hash;
      }
    }
  }

  lemma OneOtherEvent(log: seq<Event>, more: seq<Event>)
    requires more == log || exists e :: more == log + [e] && !e.Refreshed?
    ensures ReportedTwice(more) <==> ReportedTwice(log)
    ensures forall hash :: Reported(more, hash) <==> Reported(log, hash)
  {
    assert forall k :: 0 <= k < |log| ==> more[k] == log[k];
    forall hash | Reported(log, hash)
      ensures Reported(more, hash)
    {
      var k :| 0 <= k < |log| && log[k].Refreshed? && log[k].hash == hash;
      assert more[k].hash == hash;
    }
  }

  /** Steps other than updates report no refresh and spend nothing. */
  lemma OthersReportNothing(w: World, op: Op)
    requires Enabled(w, op) && !op.RefreshUpdate?
    ensures var next := Apply(w, op);
            && next.spent == w.spent && next.stale == w.stale && !WritesStale(w, op)
            && (next.log == w.log || exists e :: next.log == w.log + [e] && !e.Refreshed?)
  {
    hide LiveHolder, SessionIsLive, IsTokenRevoked, CreateCall, RevokeCall, RevokeAllCall, UserInactive;
  }

  /** Exactly the spent hashes have been reported. */
  ghost predicate SpentAreReported(w: World) {
    forall hash :: hash in w.spent <==> Reported(w.log, hash)
  }

  /** An update that throws at its commit although the server applied it: rotated, but not reported. */
  predicate LosesSuccess(op: Op) { op.RefreshUpdate? && op.fault == LateFault(true) }

  lemma ReportStep(w: World, op: Op)
    requires Inv(w) && Enabled(w, op) && !LosesSuccess(op)
    requires SpentAreReported(w) && (ReportedTwice(w.log) <==> w.stale)
    ensures SpentAreReported(Apply(w, op)) && (ReportedTwice(Apply(w, op).log) <==> Apply(w, op).stale)
    ensures Apply(w, op).stale == (w.stale || WritesStale(w, op))
  {
    hide WellFormed, RowsKnown, TokensKnown, FlightsKnown, Apply, ReportedTwice, Reported, HoldsHash;
    if op.RefreshUpdate? {
      UpdateTells(w, op);
      if Rotates(w, op) {
        TwiceIsStale(w, op);
        OneMoreReport(w.log, Refreshed(op.request, w.flights[op.request].sid, w.flights[op.request].hash));
      }
    } else {
      OthersReportNothing(w, op);
      OneOtherEvent(w.log, Apply(w, op).log);
    }
  }

  /** An update makes a spent hash spent twice exactly when something has been written stale. */
  lemma TwiceIsStale(w: World, op: Op)
    requires Inv(w) && op.RefreshUpdate? && Enabled(w, op) && Rotates(w, op)
    ensures (w.stale || WritesStale(w, op)) == (w.twice || w.flights[op.request].hash in w.spent)
  {
    ReadyFlight(w, op.request);
    hide WellFormed, RowsKnown, TokensKnown, FlightsKnown;
  }

  ghost predicate NothingUnreported(ops: seq<Op>) {
    forall k :: 0 <= k < |ops| ==> !LosesSuccess(ops[k])
  }

  ghost predicate AnyWritesStale(w: World, ops: seq<Op>)
    requires Legal(w, ops)
    decreases |ops|
  {
    ops != [] && (WritesStale(w, ops[0]) || AnyWritesStale(Apply(w, ops[0]), ops[1..]))
  }

  lemma StaleStep(w: World, op: Op)
    requires Inv(w) && Enabled(w, op)
    ensures Apply(w, op).stale == (w.stale || WritesStale(w, op))
  {
    if op.RefreshUpdate? {
      UpdateTells(w, op);
    } else {
      OthersReportNothing(w, op);
    }
    hide Inv, Apply, Enabled, WritesStale;
  }

  lemma {:induction false} StaleRun(w: World, ops: seq<Op>)
    requires Inv(w) && Legal(w, ops)
    ensures Inv(Run(w, ops)) && Run(w, ops).stale == (w.stale || AnyWritesStale(w, ops))
    decreases |ops|
  {
    hide Inv, Enabled, Apply, WritesStale;
    if ops != [] {
      StaleStep(w, ops[0]);
      InvStep(w, ops[0]);
      StaleRun(Apply(w, ops[0]), ops[1..]);
    }
  }

  /**
   With lookup and update as separate steps a refresh hash can be spent twice. For every run it is
   so exactly when some update writes over a hash that its request did not look up.
   */
  lemma SpentTwiceExactlyWhenStale(ops: seq<Op>)
    requires Legal(START, ops)
    ensures Run(START, ops).twice <==> AnyWritesStale(START, ops)
  {
    InvStart();
    StaleRun(START, ops);
    hide Run, AnyWritesStale, Legal;
  }

  lemma {:induction false} ReportRun(w: World, ops: seq<Op>)
    requires Inv(w) && Legal(w, ops) && NothingUnreported(ops)
    requires SpentAreReported(w) && (ReportedTwice(w.log) <==> w.stale)
    ensures ReportedTwice(Run(w, ops).log) <==> w.stale || AnyWritesStale(w, ops)
    decreases |ops|
  {
    hide Inv, Enabled, Apply, WritesStale, SpentAreReported, ReportedTwice, LosesSuccess;
    if ops != [] {
      assert !LosesSuccess(ops[0]);
      ReportStep(w, ops[0]);
      InvStep(w, ops[0]);
      assert NothingUnreported(ops[1..]);
      ReportRun(Apply(w, ops[0]), ops[1..]);
    }
  }

  /**
   For every run in which no update is applied without being reported: two refreshes succeed with
   one hash exactly when some update writes over a hash that its request did not look up.
   */
  lemma SucceedTwiceExactlyWhenStale(ops: seq<Op>)
    requires Legal(START, ops) && NothingUnreported(ops)
    ensures ReportedTwice(Run(START, ops).log) <==> AnyWritesStale(START, ops)
  {
    InvStart();
    ReportRun(START, ops);
  }

  /** Reported hashes are spent, and a hash reported twice has been written stale. */
  ghost predicate ReportsAreSpent(w: World) {
    (forall hash :: Reported(w.log, hash) ==> hash in w.spent) && (ReportedTwice(w.log) ==> w.stale)
  }

  lemma ReportsAreSpentStep(w: World, op: Op)
    requires Inv(w) && Enabled(w, op) && ReportsAreSpent(w)
    ensures ReportsAreSpent(Apply(w, op))
  {
    hide WellFormed, RowsKnown, TokensKnown, FlightsKnown, Apply, ReportedTwice, Reported, HoldsHash;
    if op.RefreshUpdate? {
      UpdateTells(w, op);
      if Rotates(w, op) {
        TwiceIsStale(w, op);
        OneMoreReport(w.log, Refreshed(op.request, w.flights[op.request].sid, w.flights[op.request].hash));
      }
    } else {
      OthersReportNothing(w, op);
      OneOtherEvent(w.log, Apply(w, op).log);
    }
  }

  lemma {:induction false} ReportsAreSpentRun(w: World, ops: seq<Op>)
    requires Inv(w) && Legal(w, ops) && ReportsAreSpent(w)
    ensures ReportsAreSpent(Run(w, ops))
    decreases |ops|
  {
    hide Inv, Enabled, Apply, ReportsAreSpent;
    if ops != [] {
      ReportsAreSpentStep(w, ops[0]);
      InvStep(w, ops[0]);
      ReportsAreSpentRun(Apply(w, ops[0]), ops[1..]);
    }
  }

  /**
   For every run, unreported updates or not: two refreshes succeed with one hash only if some update
   writes over a hash that its request did not look up.
   */
  lemma SucceedTwiceOnlyWhenStale(ops: seq<Op>)
    requires Legal(START, ops)
    ensures ReportedTwice(Run(START, ops).log) ==> AnyWritesStale(START, ops)
  {
    InvStart();
    ReportsAreSpentRun(START, ops);
    StaleRun(START, ops);
    hide Run, AnyWritesStale, Legal, ReportedTwice;
  }

  /** The update succeeds, writes stale, and the update it writes over was reported. */
  ghost predicate SucceedsAgain(w: World, op: Op) {
    WritesStale(w, op) && op.fault.NoFault? && Reported(w.log, w.flights[op.request].hash)
  }

  lemma AgainStep(w: World, op: Op)
    requires Inv(w) && Enabled(w, op) && ReportsAreSpent(w)
    ensures ReportedTwice(Apply(w, op).log) <==> ReportedTwice(w.log) || SucceedsAgain(w, op)
  {
    if op.RefreshUpdate? {
      UpdateTells(w, op);
      OneMoreReport(w.log, Refreshed(op.request, w.flights[op.request].sid, w.flights[op.request].hash));
      SpentIsStale(w, op);
    } else {
      OthersReportNothing(w, op);
      OneOtherEvent(w.log, Apply(w, op).log);
    }
    hide Inv, Apply, Enabled, ReportedTwice, Reported, HoldsHash;
  }

  /** An update with a spent hash writes stale: a current hash has not been spent. */
  lemma SpentIsStale(w: World, op: Op)
    requires Inv(w)
    ensures Rotates(w, op) && w.flights[op.request].hash in w.spent ==> WritesStale(w, op)
  {
    hide WellFormed, TokensKnown, FlightsKnown;
  }

  ghost predicate AnySucceedsAgain(w: World, ops: seq<Op>)
    requires Legal(w, ops)
    decreases |ops|
  {
    ops != [] && (SucceedsAgain(w, ops[0]) || AnySucceedsAgain(Apply(w, ops[0]), ops[1..]))
  }

  lemma {:induction false} AgainRun(w: World, ops: seq<Op>)
    requires Inv(w) && Legal(w, ops) && ReportsAreSpent(w)
    ensures ReportedTwice(Run(w, ops).log) <==> ReportedTwice(w.log) || AnySucceedsAgain(w, ops)
    decreases |ops|
  {
    hide Inv, Enabled, Apply, SucceedsAgain, ReportedTwice, ReportsAreSpent;
    if ops != [] {
      AgainStep(w, ops[0]);
      ReportsAreSpentStep(w, ops[0]);
      InvStep(w, ops[0]);
      AgainRun(Apply(w, ops[0]), ops[1..]);
    }
  }

  /** The exact form for every run: such a write that succeeds, over one that was reported. */
  lemma SucceedTwiceExactlyWhenAgain(ops: seq<Op>)
    requires Legal(START, ops)
    ensures ReportedTwice(Run(START, ops).log) <==> AnySucceedsAgain(START, ops)
  {
    InvStart();
    AgainRun(START, ops);
    hide Run, AnySucceedsAgain, Legal;
  }

  /** Two refreshes with the same hash that both look up before either updates. */
  lemma HashCanBeSpentTwice(userId: string, now: int)
    ensures exists ops :: Legal(START, ops) && Run(START, ops).twice
                          && Run(START, ops).log == [Refreshed(1, "s", "h0"), Refreshed(2, "s", "h0")]
  {
    var later := now + 604800;
    var o0 := Login(userId, "s", "j0", "h0", now, later, NoFault);
    var w1 := Apply(START, o0);
    var ops := BothLookUp(w1, now);
    assert w1.tables.sessions["s"].IsActive(now);
    RunOne(START, o0, ops);
  }

  lemma BothLookUp(w1: World, now: int) returns (ops: seq<Op>)
    requires w1.tables.sessions.Keys == {"s"} && w1.tables.sessions["s"].hash == "h0"
    requires w1.tables.sessions["s"].IsActive(now)
    requires w1.flights == map[] && w1.requests == {} && w1.inactive == {} && w1.spent == {} && w1.log == []
    requires w1.owners.Keys == {"h0"} && w1.ids == {"s"} && w1.jtis == {"j0"} && w1.tables.sessions["s"].jti == "j0"
    ensures Legal(w1, ops) && Run(w1, ops).twice
    ensures Run(w1, ops).log == [Refreshed(1, "s", "h0"), Refreshed(2, "s", "h0")]
  {
    var o1, o2 := RefreshLookup(1, "h0", now, false), RefreshLookup(2, "h0", now, false);
    var o3, o4 := RefreshUser(1, false), RefreshUser(2, false);
    assert LiveHolder(w1.tables.sessions, "h0", now) == Some("s");
    var w2 := Apply(w1, o1);
    var w3 := Apply(w2, o2);
    var w4 := Apply(w3, o3);
    var w5 := Apply(w4, o4);
    var rest := BothUpdate(w5, now);
    RunOne(w4, o4, rest);
    RunOne(w3, o3, [o4] + rest);
    RunOne(w2, o2, [o3] + ([o4] + rest));
    RunOne(w1, o1, [o2] + ([o3] + ([o4] + rest)));
    ops := [o1] + ([o2] + ([o3] + ([o4] + rest)));
  }

  lemma BothUpdate(w5: World, now: int) returns (ops: seq<Op>)
    requires w5.tables.sessions.Keys == {"s"} && w5.tables.sessions["s"].hash == "h0"
    requires w5.tables.sessions["s"].jti == "j0" && !w5.tables.sessions["s"].IsRevoked()
    requires w5.flights == map[1 := RefreshReady("h0", "s"), 2 := RefreshReady("h0", "s")]
    requires w5.spent == {} && w5.log == [] && w5.owners.Keys == {"h0"} && w5.ids == {"s"} && w5.jtis == {"j0"}
    ensures Legal(w5, ops) && Run(w5, ops).twice
    ensures Run(w5, ops).log == [Refreshed(1, "s", "h0"), Refreshed(2, "s", "h0")]
  {
    hide UpdateCall;
    var later := now + 604800;
    var o5 := RefreshUpdate(1, "h1", "j1", now, later, NoFault);
    var o6 := RefreshUpdate(2, "h2", "j2", now, later, NoFault);
    UpdateOnly(w5.tables, "h1", "j1", later, now);
    var w6 := Apply(w5, o5);
    assert w5.tables.sessions["s"].hash == "h0" && w6.tables.sessions["s"].hash == "h1";
    assert w6.spent == {"h0"} && w6.flights[2] == RefreshReady("h0", "s");
    UpdateOnly(w6.tables, "h2", "j2", later, now);
    var w7 := Apply(w6, o6);
    assert w7.log == [Refreshed(1, "s", "h0"), Refreshed(2, "s", "h0")] && w7.twice;
    hide Apply, Enabled;
    RunOne(w6, o6, []);
    RunOne(w5, o5, [o6]);
    ops := [o5] + [o6];
  }

  /** Updating the only session. */
  lemma UpdateOnly(t: Tables, newHash: string, newJti: string, later: int, now: int)
    requires t.sessions.Keys == {"s"} && !t.sessions["s"].IsRevoked()
    ensures UpdateCall(t, "s", newHash, newJti, later, now, NoFault)
         == (Rotate(t, "s", newHash, newJti, later, now), true)
  {
  }

  lemma RunOne(w: World, op: Op, rest: seq<Op>)
    requires Enabled(w, op) && Legal(Apply(w, op), rest)
    ensures Legal(w, [op] + rest) && Run(w, [op] + rest) == Run(Apply(w, op), rest)
  {
    assert ([op] + rest)[1..] == rest;
  }
}
