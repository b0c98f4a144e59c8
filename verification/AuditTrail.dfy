/**
 The audit log against the sessions table over runs of whole use cases with failing writes: when
 the sessions that are revoked can be read off the log alone.
 */
module AuditTrail {
  import opened Wrappers
  import opened SessionTables
  import opened SessionRepository
  import opened Transactions
  import opened UseCases
  import opened DeskRuns

  type Log = seq<AuditEntry>

  predicate Opens(log: Log, i: nat, id: string) {
    i < |log| && log[i].event in SIGN_INS && log[i].sessionId == id
  }

  ghost predicate Opened(log: Log, id: string) {
    exists i: nat :: Opens(log, i, id)
  }

  /** Entry k ends the session: it names its id or jti, or ends all of its owner's after it was opened. */
  ghost predicate Ends(log: Log, k: nat, id: string, row: Session) {
    && k < |log|
    && (|| (log[k].event in NAMED && log[k].sessionId in {id, row.jti})
        || (log[k].event in BULK && log[k].userId == row.userId && exists i: nat :: i < k && Opens(log, i, id)))
  }

  ghost predicate Ended(log: Log, id: string, row: Session) {
    exists k: nat :: Ends(log, k, id, row)
  }

  /** A session is revoked exactly when the log has an entry that ends it. */
  ghost predicate Agrees(d: Desk) {
    forall id :: id in d.tables.sessions ==> AgreesOn(d, id)
  }

  ghost predicate AgreesOn(d: Desk, id: string)
    requires id in d.tables.sessions
  {
    d.tables.sessions[id].IsRevoked() <==> Ended(d.audit, id, d.tables.sessions[id])
  }

  // ----- The guard -----

  /** The write of the use case reaches this session and takes effect. */
  predicate Revokes(d: Desk, shape: Shape, id: string)
    requires id in d.tables.sessions
  {
    match shape
    case Close(closed, _, takes, _) => takes && closed == id
    case CloseAll(userId, takes, _) => takes && d.tables.sessions[id].userId == userId
    case _ => false
  }

  /** Its audit entry is stored, and ends this session in the log as it stands. */
  ghost predicate Records(d: Desk, shape: Shape, id: string)
    requires id in d.tables.sessions
  {
    match shape
    case Close(closed, _, _, tells) => tells && closed == id
    case CloseAll(userId, _, tells) => tells && d.tables.sessions[id].userId == userId && Opened(d.audit, id)
    case _ => false
  }

  ghost predicate MisrecordsOn(d: Desk, shape: Shape, id: string)
    requires id in d.tables.sessions
  {
    !d.tables.sessions[id].IsRevoked() && Revokes(d, shape, id) != Records(d, shape, id)
  }

  /** Some live session is revoked and not recorded, or recorded and not revoked. */
  ghost predicate Misrecords(s: State, op: Op, sha: string -> string) {
    exists id :: id in s.desk.tables.sessions && MisrecordsOn(s.desk, Effect(s, op, sha), id)
  }

  // ----- Longer logs -----

  lemma OpensStays(log: Log, more: Log, i: nat, id: string)
    requires log <= more && Opens(log, i, id)
    ensures Opens(more, i, id)
  {
  }

  lemma EndsStays(log: Log, more: Log, id: string, row: Session)
    requires log <= more && Ended(log, id, row)
    ensures Ended(more, id, row)
  {
    var k: nat :| Ends(log, k, id, row);
    if log[k].event in BULK && log[k].userId == row.userId && exists i: nat :: i < k && Opens(log, i, id) {
      var i: nat :| i < k && Opens(log, i, id);
      OpensStays(log, more, i, id);
    }
    assert Ends(more, k, id, row);
  }

  lemma EndsBefore(log: Log, more: Log, k: nat, id: string, row: Session)
    requires log <= more && k < |log| && Ends(more, k, id, row)
    ensures Ends(log, k, id, row)
  {
    if i: nat :| i < k && Opens(more, i, id) {
      assert Opens(log, i, id);
    }
  }

  /** One more entry ends what it names, or what it finds opened. */
  lemma EndedOneMore(log: Log, more: Log, id: string, row: Session)
    requires |more| == |log| + 1 && log <= more
    ensures var e := more[|log|];
            Ended(more, id, row) <==>
              || Ended(log, id, row)
              || (e.event in NAMED && e.sessionId in {id, row.jti})
              || (e.event in BULK && e.userId == row.userId && Opened(log, id))
  {
    var n, e := |log|, more[|log|];
    if Ended(log, id, row) {
      EndsStays(log, more, id, row);
    }
    if e.event in BULK && e.userId == row.userId && Opened(log, id) {
      var i: nat :| Opens(log, i, id);
      OpensStays(log, more, i, id);
    }
    assert Ends(more, n, id, row) <== e.event in NAMED && e.sessionId in {id, row.jti};
    assert Ends(more, n, id, row) <== e.event in BULK && e.userId == row.userId && Opened(log, id);
    if Ended(more, id, row) {
      var k: nat :| Ends(more, k, id, row);
      if k < n {
        EndsBefore(log, more, k, id, row);
      } else if i: nat :| i < k && Opens(more, i, id) {
        assert Opens(log, i, id);
      }
    }
  }

  lemma EndedOthers(log: Log, more: Log, id: string, row: Session)
    requires log <= more && forall k :: |log| <= k < |more| ==> more[k].event !in SIGN_INS + CLOSING
    ensures Ended(more, id, row) <==> Ended(log, id, row)
  {
    if Ended(log, id, row) {
      EndsStays(log, more, id, row);
    }
    if Ended(more, id, row) {
      var k: nat :| Ends(more, k, id, row);
      assert k < |log|;
      EndsBefore(log, more, k, id, row);
    }
  }

  // ----- What the log can name -----

  predicate Unnamed(log: Log, key: string) {
    forall k :: 0 <= k < |log| && log[k].event in SIGN_INS + NAMED ==> log[k].sessionId != key
  }

  /** Sign-ins and named revocations have drawn ids only. */
  ghost predicate NamesKnown(s: State) {
    forall k :: 0 <= k < |s.desk.audit| && s.desk.audit[k].event in SIGN_INS + NAMED ==>
      s.desk.audit[k].sessionId in s.uuids
  }

  lemma NewIsUnnamed(s: State, key: string)
    requires NamesKnown(s) && key !in s.uuids
    ensures Unnamed(s.desk.audit, key)
  {
  }

  lemma UnnamedIsNotEnded(log: Log, id: string, row: Session)
    requires Unnamed(log, id) && Unnamed(log, row.jti)
    ensures !Ended(log, id, row)
  {
  }

  /** A new jti ends nothing that the old one did not. */
  lemma RenamedIsNotEnded(log: Log, id: string, row: Session, renamed: Session)
    requires renamed.userId == row.userId && Unnamed(log, renamed.jti) && !Ended(log, id, row)
    ensures !Ended(log, id, renamed)
  {
    if k: nat :| Ends(log, k, id, renamed) {
      assert Ends(log, k, id, row);
    }
  }

  // ----- One step, one session -----

  lemma IdleOn(d: Desk, e: Desk, id: string)
    requires Shaped(d, e, Idle) && id in d.tables.sessions
    ensures AgreesOn(e, id) <==> AgreesOn(d, id)
  {
    EndedOthers(d.audit, e.audit, id, d.tables.sessions[id]);
    hide Ended;
  }

  lemma OpenOn(d: Desk, e: Desk, shape: Shape, id: string)
    requires shape.Open? && Shaped(d, e, shape) && id in d.tables.sessions
    ensures id in e.tables.sessions && (AgreesOn(e, id) <==> AgreesOn(d, id))
  {
    if shape.tells {
      EndedOneMore(d.audit, e.audit, id, d.tables.sessions[id]);
    }
    hide Ended, Opened;
  }

  lemma OpenedOn(d: Desk, e: Desk, shape: Shape)
    requires shape.Open? && shape.takes && Shaped(d, e, shape)
    requires Unnamed(d.audit, shape.id) && Unnamed(d.audit, shape.row.jti)
    ensures shape.id in e.tables.sessions && AgreesOn(e, shape.id)
  {
    UnnamedIsNotEnded(d.audit, shape.id, shape.row);
    if shape.tells {
      EndedOneMore(d.audit, e.audit, shape.id, shape.row);
    }
    hide Ended, Opened, Unnamed;
  }

  lemma TurnOn(d: Desk, e: Desk, shape: Shape, id: string)
    requires shape.Turn? && Shaped(d, e, shape) && id in d.tables.sessions && AgreesOn(d, id)
    requires Unnamed(d.audit, shape.jti)
    ensures id in e.tables.sessions && AgreesOn(e, id)
  {
    if id == shape.id {
      RenamedIsNotEnded(d.audit, id, d.tables.sessions[id], e.tables.sessions[id]);
    }
    EndedOthers(d.audit, e.audit, id, e.tables.sessions[id]);
    hide Ended, Unnamed;
  }

  lemma CloseOn(d: Desk, e: Desk, shape: Shape, id: string)
    requires WellFormed(d.tables) && shape.Close? && Shaped(d, e, shape) && id in d.tables.sessions && AgreesOn(d, id)
    ensures id in e.tables.sessions && (AgreesOn(e, id) <==> !MisrecordsOn(d, shape, id))
  {
    NamesOne(d.tables, shape.key, shape.id, id);
    if shape.tells {
      EndedOneMore(d.audit, e.audit, id, d.tables.sessions[id]);
    }
    hide Ended, WellFormed;
    assert Ended(e.audit, id, e.tables.sessions[id]) == Ended(e.audit, id, d.tables.sessions[id]) by {
      SameEnded(e.audit, id, d.tables.sessions[id], e.tables.sessions[id]);
    }
  }

  lemma NamesOne(t: Tables, key: string, id: string, other: string)
    requires WellFormed(t) && id in t.sessions && other in t.sessions && (id == key || t.sessions[id].jti == key)
    ensures key in {other, t.sessions[other].jti} <==> other == id
  {
    FindIsUnique(t, key, id);
    if key in {other, t.sessions[other].jti} {
      FindIsUnique(t, key, other);
    }
  }

  lemma SameEnded(log: Log, id: string, row: Session, later: Session)
    requires later.userId == row.userId && later.jti == row.jti
    ensures Ended(log, id, row) <==> Ended(log, id, later)
  {
    assert forall k: nat :: Ends(log, k, id, row) <==> Ends(log, k, id, later);
  }

  lemma CloseAllOn(d: Desk, e: Desk, shape: Shape, id: string)
    requires shape.CloseAll? && Shaped(d, e, shape) && id in d.tables.sessions && AgreesOn(d, id)
    ensures id in e.tables.sessions && (AgreesOn(e, id) <==> !MisrecordsOn(d, shape, id))
  {
    if shape.tells {
      EndedOneMore(d.audit, e.audit, id, d.tables.sessions[id]);
    }
    hide Ended, Opened;
    assert Ended(e.audit, id, e.tables.sessions[id]) == Ended(e.audit, id, d.tables.sessions[id]) by {
      SameEnded(e.audit, id, d.tables.sessions[id], e.tables.sessions[id]);
    }
  }

  // ----- One step -----

  /** The names a step brings in are new. */
  lemma NewNames(s: State, op: Op, sha: string -> string)
    requires DeskRuns.Inv(s) && NamesKnown(s) && Enabled(s, op, sha)
    ensures var shape := Effect(s, op, sha);
            && (shape.Open? ==> Unnamed(s.desk.audit, shape.id) && Unnamed(s.desk.audit, shape.row.jti))
            && (shape.Turn? ==> Unnamed(s.desk.audit, shape.jti))
  {
    hide Effect, DeskRuns.Inv, Unnamed, NamesKnown, Shaped, Sound, DeskStep;
    var shape := StepShape(s, op, sha);
    if op.Draws() {
      NewIsUnnamed(s, op.x.id);
      NewIsUnnamed(s, op.x.jti);
    }
  }

  lemma StepOn(s: State, op: Op, sha: string -> string, id: string)
    requires DeskRuns.Inv(s) && NamesKnown(s) && Enabled(s, op, sha)
    requires id in s.desk.tables.sessions && AgreesOn(s.desk, id)
    ensures id in Step(s, op, sha).desk.tables.sessions
    ensures AgreesOn(Step(s, op, sha).desk, id) <==> !MisrecordsOn(s.desk, Effect(s, op, sha), id)
  {
    NewNames(s, op, sha);
    hide Effect, Unnamed, NamesKnown, Shaped, DeskStep, AgreesOn, Enabled, Known, WellFormed, DistinctHashes;
    var shape := StepShape(s, op, sha);
    var d, e := s.desk, Step(s, op, sha).desk;
    IdleKeeps(d, e, shape);
    match shape {
      case Idle => IdleOn(d, e, id);
      case Open(_, _, _, _) => OpenOn(d, e, shape, id);
      case Turn(_, _, _, _, _) => TurnOn(d, e, shape, id);
      case Close(_, _, _, _) => CloseOn(d, e, shape, id);
      case CloseAll(_, _, _) => CloseAllOn(d, e, shape, id);
    }
  }

  lemma IdleKeeps(d: Desk, e: Desk, shape: Shape)
    requires Shaped(d, e, shape)
    ensures forall id :: id in d.tables.sessions ==> id in e.tables.sessions
    ensures forall id :: id in e.tables.sessions ==>
              id in d.tables.sessions || (shape.Open? && shape.takes && id == shape.id)
  {
    hide Appends, AppendsOther;
  }

  /** From a state where log and table agree, they agree after the step exactly unless it misrecords. */
  lemma AgreesStep(s: State, op: Op, sha: string -> string)
    requires DeskRuns.Inv(s) && NamesKnown(s) && Enabled(s, op, sha) && Agrees(s.desk)
    ensures Agrees(Step(s, op, sha).desk) <==> !Misrecords(s, op, sha)
  {
    hide Effect, NamesKnown, Step, AgreesOn, Enabled, DeskRuns.Inv, MisrecordsOn;
    NewRowAgrees(s, op, sha);
    forall id | id in s.desk.tables.sessions
      ensures id in Step(s, op, sha).desk.tables.sessions
      ensures AgreesOn(Step(s, op, sha).desk, id) <==> !MisrecordsOn(s.desk, Effect(s, op, sha), id)
    {
      StepOn(s, op, sha, id);
    }
  }

  lemma NewRowAgrees(s: State, op: Op, sha: string -> string)
    requires DeskRuns.Inv(s) && NamesKnown(s) && Enabled(s, op, sha)
    ensures var e := Step(s, op, sha).desk;
            forall id :: id in e.tables.sessions && id !in s.desk.tables.sessions ==> AgreesOn(e, id)
  {
    NewNames(s, op, sha);
    hide Effect, Unnamed, NamesKnown, Shaped, DeskStep, AgreesOn, Enabled, DeskRuns.Inv, Sound;
    var shape := StepShape(s, op, sha);
    var d, e := s.desk, Step(s, op, sha).desk;
    IdleKeeps(d, e, shape);
    if shape.Open? && shape.takes {
      OpenedOn(d, e, shape);
    }
  }

  /** What the shapes do to the log: it grows by at most one entry that opens or closes. */
  lemma ShapeLog(d: Desk, e: Desk, shape: Shape)
    requires Shaped(d, e, shape)
    ensures d.audit <= e.audit
    ensures forall k :: |d.audit| <= k < |e.audit| ==>
              && (e.audit[k].event in SIGN_INS ==> shape.Open? && e.audit[k].sessionId == shape.id)
              && (e.audit[k].event in NAMED ==> shape.Close? && e.audit[k].sessionId == shape.key)
  {
    assert SIGN_INS !! NAMED && SIGN_INS !! BULK && NAMED !! BULK;
  }

  lemma NamesStep(s: State, op: Op, sha: string -> string)
    requires DeskRuns.Inv(s) && NamesKnown(s) && Enabled(s, op, sha)
    ensures NamesKnown(Step(s, op, sha))
  {
    hide Effect, Shaped, DeskStep, Sound, Enabled;
    var shape := StepShape(s, op, sha);
    var next := Step(s, op, sha);
    ShapeLog(s.desk, next.desk, shape);
    if shape.Close? {
      CloseKey(s, next.desk, shape);
    }
    hide Known;
    forall k | 0 <= k < |next.desk.audit| && next.desk.audit[k].event in SIGN_INS + NAMED
      ensures next.desk.audit[k].sessionId in next.uuids
    {
      assert k < |s.desk.audit| ==> next.desk.audit[k] == s.desk.audit[k];
    }
  }

  lemma CloseKey(s: State, e: Desk, shape: Shape)
    requires Known(s) && shape.Close? && Shaped(s.desk, e, shape)
    ensures shape.key in s.uuids
  {
    hide Appends;
  }

  // ----- Runs -----

  ghost predicate AgreesThroughout(s: State, ops: seq<Op>, sha: string -> string)
    decreases |ops|
  {
    Agrees(s.desk) && (ops != [] ==> AgreesThroughout(Step(s, ops[0], sha), ops[1..], sha))
  }

  ghost predicate AnyMisrecords(s: State, ops: seq<Op>, sha: string -> string)
    decreases |ops|
  {
    ops != [] && (Misrecords(s, ops[0], sha) || AnyMisrecords(Step(s, ops[0], sha), ops[1..], sha))
  }

  lemma {:induction false} AgreesRun(s: State, ops: seq<Op>, sha: string -> string)
    requires DeskRuns.Inv(s) && NamesKnown(s) && Legal(s, ops, sha) && Agrees(s.desk)
    ensures AgreesThroughout(s, ops, sha) <==> !AnyMisrecords(s, ops, sha)
    decreases |ops|
  {
    hide NamesKnown, DeskRuns.Inv, Enabled, Step, Agrees, Misrecords;
    if ops != [] {
      InvStep(s, ops[0], sha);
      NamesStep(s, ops[0], sha);
      AgreesStep(s, ops[0], sha);
      var next := Step(s, ops[0], sha);
      if Agrees(next.desk) {
        AgreesRun(next, ops[1..], sha);
      } else {
        assert !AgreesThroughout(next, ops[1..], sha);
      }
    }
  }

  /**
   For every run, whatever fails in it: log and table agree after every use case exactly unless
   some use case misrecords.
   */
  lemma AgreeExactlyUnlessMisrecorded(ops: seq<Op>, sha: string -> string)
    requires Legal(START, ops, sha)
    ensures AgreesThroughout(START, ops, sha) <==> !AnyMisrecords(START, ops, sha)
  {
    AgreesRun(START, ops, sha);
  }

  // ----- Both directions fail -----

  predicate NothingFails(op: Op) {
    op.CleanUp? || op.SetUser? || (op.io.write.NoFault? && op.io.audit.NoFault?)
  }

  ghost predicate RecordedAlive(d: Desk, id: string) {
    id in d.tables.sessions && !d.tables.sessions[id].IsRevoked() && Ended(d.audit, id, d.tables.sessions[id])
  }

  ghost predicate RevokedUnrecorded(d: Desk, id: string) {
    id in d.tables.sessions && d.tables.sessions[id].IsRevoked() && !Ended(d.audit, id, d.tables.sessions[id])
  }

  /** A third request after a user's first sign-in. */
  function ThirdRequest(userId: string, x: Drawn, op: Op): seq<Op> {
    [SetUser(userId, true)] + ([FirstSignIn(userId, x)] + ([op] + []))
  }

  /** An administrator's reason longer than its column: the log ends a session that stays live. */
  lemma LongReasonRecordsLiveSession(userId: string, x: Drawn, reason: string, now: int, sha: string -> string)
    requires x.id != "" && x.id != x.jti && !FitsColumn(reason, REASON_WIDTH)
    ensures var ops := ThirdRequest(userId, x, AdminRevoke(true, x.id, reason, now, SMOOTH));
            && Legal(START, ops, sha) && (forall k :: 0 <= k < |ops| ==> NothingFails(ops[k]))
            && RecordedAlive(Run(START, ops, sha).desk, x.id)
  {
    var op := AdminRevoke(true, x.id, reason, now, SMOOTH);
    assert NothingFails(op) && !op.Takes() && op.Tells();
    hide NothingFails, Op.Takes, Op.Tells, DeskRuns.Inv, Run, Legal, DeskStep, ThirdRequest, Ended, NamedEffect;
    var s := ThirdStep(userId, x, op, sha);
    ClosesFirst(s, op);
    var shape := NamedShape(s, op, sha);
    RecordedHere(s.desk, Step(s, op, sha).desk, shape);
  }

  lemma ClosesFirst(s: State, op: Op)
    requires op.AdminRevoke? && op.permitted && op.key in s.desk.tables.sessions
    ensures NamedEffect(s, op) == Close(op.key, op.key, op.Takes(), op.Tells())
  {
    hide Op.Takes, Op.Tells;
  }

  lemma RecordedHere(d: Desk, e: Desk, shape: Shape)
    requires shape.Close? && !shape.takes && shape.tells && shape.key == shape.id && Shaped(d, e, shape)
    requires !d.tables.sessions[shape.id].IsRevoked()
    ensures RecordedAlive(e, shape.id)
  {
    assert Ends(e.audit, |d.audit|, shape.id, e.tables.sessions[shape.id]);
  }

  /** A forwarded address longer than its column: the session is revoked and the log does not say so. */
  lemma LongAddressRevokesUnrecorded(userId: string, x: Drawn, ip: string, now: int, sha: string -> string)
    requires x.id != "" && x.id != x.jti && !FitsColumn(ip, ADDRESS_WIDTH)
    ensures var io := Io(Client(ip, "", ""), NoFault, NoFault);
            var ops := ThirdRequest(userId, x, LogoutEverywhere(userId, now, io));
            && Legal(START, ops, sha) && (forall k :: 0 <= k < |ops| ==> NothingFails(ops[k]))
            && RevokedUnrecorded(Run(START, ops, sha).desk, x.id)
  {
    var op := LogoutEverywhere(userId, now, Io(Client(ip, "", ""), NoFault, NoFault));
    assert NothingFails(op) && op.Takes() && !op.Tells();
    hide NothingFails, Op.Takes, Op.Tells, DeskRuns.Inv, Run, Legal, DeskStep, ThirdRequest, Ended;
    var s := ThirdStep(userId, x, op, sha);
    var shape := BulkShape(s, op, sha);
    UnrecordedHere(s.desk, Step(s, op, sha).desk, shape, x.id);
  }

  lemma UnrecordedHere(d: Desk, e: Desk, shape: Shape, id: string)
    requires shape.CloseAll? && shape.takes && !shape.tells && Shaped(d, e, shape)
    requires id in d.tables.sessions && d.tables.sessions[id].userId == shape.userId
    requires |d.audit| == 1 && d.audit[0].event in SIGN_INS
    ensures RevokedUnrecorded(e, id)
  {
  }

  lemma ThirdStep(userId: string, x: Drawn, op: Op, sha: string -> string) returns (s: State)
    requires x.id != "" && x.id != x.jti && !op.Draws() && NothingFails(op)
    ensures DeskRuns.Inv(s) && s.desk.tables.sessions == map[x.id := NewRow(FirstSignIn(userId, x), sha)]
    ensures |s.desk.audit| == 1 && s.desk.audit[0].event in SIGN_INS
    ensures var ops := ThirdRequest(userId, x, op);
            && Legal(START, ops, sha) && Run(START, ops, sha) == Step(s, op, sha)
            && forall k :: 0 <= k < |ops| ==> NothingFails(ops[k])
  {
    SignedIn(userId, x, sha);
    hide Step, DeskRuns.Inv, NewRow;
    var o0, o1 := SetUser(userId, true), FirstSignIn(userId, x);
    assert NothingFails(o0) && NothingFails(o1);
    var s1 := Step(START, o0, sha);
    s := Step(s1, o1, sha);
    assert Enabled(s, op, sha) && Legal(Step(s, op, sha), [], sha);
    hide Enabled, FirstSignIn, NothingFails;
    RunOne(s, op, [], sha);
    RunOne(s1, o1, [op] + [], sha);
    RunOne(START, o0, [o1] + ([op] + []), sha);
  }

  // ----- Use cases that do both or neither -----

  ghost predicate RowsOpened(d: Desk) {
    forall id :: id in d.tables.sessions ==> Opened(d.audit, id)
  }

  ghost predicate BothOrNeither(ops: seq<Op>) {
    forall k :: 0 <= k < |ops| ==> ops[k].Takes() == ops[k].Tells()
  }

  lemma EffectOfBoth(s: State, op: Op, sha: string -> string)
    requires op.Takes() == op.Tells()
    ensures var shape := Effect(s, op, sha);
            shape.Open? || shape.Close? || shape.CloseAll? ==> shape.takes == shape.tells
  {
    hide Op.Takes, Op.Tells;
  }

  lemma RowsOpenedStep(s: State, op: Op, sha: string -> string)
    requires DeskRuns.Inv(s) && Enabled(s, op, sha) && RowsOpened(s.desk) && op.Takes() == op.Tells()
    ensures RowsOpened(Step(s, op, sha).desk)
  {
    EffectOfBoth(s, op, sha);
    hide Effect, Shaped, DeskStep, Sound, Enabled, DeskRuns.Inv, Op.Takes, Op.Tells;
    var shape := StepShape(s, op, sha);
    var d, e := s.desk, Step(s, op, sha).desk;
    ShapeLog(d, e, shape);
    IdleKeeps(d, e, shape);
    forall id | id in e.tables.sessions
      ensures Opened(e.audit, id)
    {
      if id in d.tables.sessions {
        var i: nat :| Opens(d.audit, i, id);
        OpensStays(d.audit, e.audit, i, id);
      } else {
        OpenedNow(d, e, shape);
      }
    }
  }

  lemma OpenedNow(d: Desk, e: Desk, shape: Shape)
    requires shape.Open? && shape.tells && Shaped(d, e, shape)
    ensures Opened(e.audit, shape.id)
  {
    assert Opens(e.audit, |d.audit|, shape.id);
  }

  lemma BothMisrecordNothing(s: State, op: Op, sha: string -> string)
    requires RowsOpened(s.desk) && op.Takes() == op.Tells()
    ensures !Misrecords(s, op, sha)
  {
    EffectOfBoth(s, op, sha);
    hide Effect, Op.Takes, Op.Tells, Opened;
  }

  lemma {:induction false} BothRun(s: State, ops: seq<Op>, sha: string -> string)
    requires DeskRuns.Inv(s) && NamesKnown(s) && RowsOpened(s.desk) && Agrees(s.desk)
    requires Legal(s, ops, sha) && BothOrNeither(ops)
    ensures Agrees(Run(s, ops, sha).desk)
    decreases |ops|
  {
    hide NamesKnown, DeskRuns.Inv, Enabled, Step, Agrees, RowsOpened, Misrecords, Op.Takes, Op.Tells;
    if ops != [] {
      InvStep(s, ops[0], sha);
      NamesStep(s, ops[0], sha);
      BothMisrecordNothing(s, ops[0], sha);
      AgreesStep(s, ops[0], sha);
      RowsOpenedStep(s, ops[0], sha);
      BothRun(Step(s, ops[0], sha), ops[1..], sha);
    }
  }

  /**
   After every run in which each use case both takes effect and is recorded, or neither, the audit
   log accounts for exactly the revoked sessions.
   */
  lemma LogAccountsForEveryRevocation(ops: seq<Op>, sha: string -> string, id: string)
    requires Legal(START, ops, sha) && BothOrNeither(ops)
    ensures var d := Run(START, ops, sha).desk;
            id in d.tables.sessions ==>
              (d.tables.sessions[id].IsRevoked() <==> Ended(d.audit, id, d.tables.sessions[id]))
  {
    BothRun(START, ops, sha);
    hide Run, Legal, BothOrNeither, Ended;
  }

  /**
   A bulk revocation that takes effect ends exactly the user's sessions, one that does not changes
   none, and the number it replies with is that of the sessions it newly revoked exactly unless its
   commit was lost with live sessions at hand.
   */
  lemma BulkReportsExactly(s: State, op: Op, sha: string -> string)
    requires WellFormed(s.desk.tables) && (op.LogoutEverywhere? || (op.AdminRevokeAll? && op.permitted))
    ensures var (e, reply) := DeskStep(s, op, sha);
            var before, after := s.desk.tables.sessions, e.tables.sessions;
            var fits := op.AdminRevokeAll? ==> FitsColumn(AdminAllReason(op.reason), REASON_WIDTH);
            && after.Keys == before.Keys && reply.Ended?
            && (reply.count == |set id | id in before && !before[id].IsRevoked() && after[id].IsRevoked()| <==>
                !(fits && op.io.write == LateFault(false) && LiveOf(s.desk.tables, op.userId) != {}))
            && forall id :: id in before ==>
                 if op.Takes() && before[id].userId == op.userId then after[id].IsRevoked()
                 else after[id] == before[id]
  {
    var t := s.desk.tables;
    var reason := if op.LogoutEverywhere? then LOGGED_OUT_EVERYWHERE else AdminAllReason(op.reason);
    OwnReasonsFit(op.io.write);
    assert FitsColumn(LOGGED_OUT_EVERYWHERE, REASON_WIDTH);
    CountIsTrueUnlessCommitLost(t, op.userId, reason, op.now, op.io.write);
    BulkRows(t, op.userId, reason, op.now, op.io.write);
    hide RevokeAllCall, WellFormed, ReasonFault, LiveOf, Reason, Guarded;
  }
}
