/**
 The two hash columns against the whole story: each session keeps every refresh token it ever
 had, the newest one works, the one before it raises the alarm, and all others are strangers.
 A whole use case is one step here.
 */
module RefreshLineage {
  import opened Wrappers
  import opened SessionTables
  import opened SessionRepository
  import opened Transactions
  import opened UseCases
  import opened DeskRuns

  /** A session with the hashes of all its refresh tokens, oldest first. */
  datatype Line = Line(userId: string, jti: string, tokens: seq<string>, expiresAt: int, revoked: bool)

  type Lines = map<string, Line>

  predicate At(lines: Lines, id: string, k: nat, hash: string) {
    id in lines && k < |lines[id].tokens| && lines[id].tokens[k] == hash
  }

  function CloseLines(lines: Lines, ids: set<string>): Lines {
    map id | id in lines :: if id in ids then lines[id].(revoked := true) else lines[id]
  }

  function OfUser(lines: Lines, userId: string): set<string> {
    set id | id in lines && lines[id].userId == userId
  }

  function Named(lines: Lines, key: string): set<string> {
    set id | id in lines && (id == key || lines[id].jti == key)
  }

  function CloseIf(takes: bool, lines: Lines, ids: set<string>): Lines {
    if takes then CloseLines(lines, ids) else lines
  }

  ghost function SpecRefresh(
    lines: Lines, users: map<string, bool>, raw: string, sha: string -> string, x: Drawn, write: Fault
  ): (Lines, Reply)
  {
    if AllWhitespace(raw) then (lines, Rejected(400))
    else if !exists id, k: nat :: At(lines, id, k, sha(raw)) then (lines, Rejected(401))
    else
      var id, k: nat :| At(lines, id, k, sha(raw));
      SpecPresent(lines, users, id, k, sha, x, write)
  }

  /** Token k of the session is presented. */
  function SpecPresent(
    lines: Lines, users: map<string, bool>, id: string, k: nat, sha: string -> string, x: Drawn, write: Fault
  ): (Lines, Reply)
    requires id in lines && k < |lines[id].tokens|
  {
    var line := lines[id];
    var fromEnd := |line.tokens| - 1 - k;
    if fromEnd > 1 then (lines, Rejected(401))
    else if fromEnd == 1 || line.revoked then
      (CloseIf(Applied(write), lines, OfUser(lines, line.userId)), Rejected(401))
    else if x.now >= line.expiresAt || line.userId !in users || !users[line.userId] then (lines, Rejected(401))
    else (if Applied(write) then lines[id := Longer(line, sha(x.refresh), x.jti, x.now + LOGIN_LIFETIME)] else lines,
          if write.NoFault? then Tokens(id, x.jti, x.refresh, ACCESS_TTL) else Rejected(409))
  }

  function Longer(line: Line, hash: string, jti: string, expiresAt: int): Line {
    line.(tokens := line.tokens + [hash], jti := jti, expiresAt := expiresAt)
  }

  ghost function SpecStep(lines: Lines, s: State, op: Op, sha: string -> string): Lines {
    match op
    case SignIn(_, _, _, _, _) => SpecSignIn(lines, s, op, sha)
    case GoogleSignIn(_, _, _) => SpecSignIn(lines, s, op, sha)
    case RefreshWith(raw, x, io) => SpecRefresh(lines, s.users, raw, sha, x, io.write).0
    case LogoutOf(key, _, _, _) => CloseIf(op.Takes(), lines, Named(lines, key))
    case RevokeOwn(userId, key, _, _) => CloseIf(op.Takes(), lines, Named(lines, key) * OfUser(lines, userId))
    case AdminRevoke(permitted, key, _, _, _) => CloseIf(permitted && op.Takes(), lines, Named(lines, key))
    case LogoutEverywhere(userId, _, _) => CloseIf(op.Takes(), lines, OfUser(lines, userId))
    case AdminRevokeAll(permitted, userId, _, _, _) =>
      CloseIf(permitted && op.Takes(), lines, OfUser(lines, userId))
    case CleanUp(_) => lines
    case SetUser(_, _) => lines
  }

  function SpecSignIn(lines: Lines, s: State, op: Op, sha: string -> string): Lines
    requires op.SignIn? || op.GoogleSignIn?
  {
    if SignsIn(s, op) && op.Takes() then lines[op.x.id := NewLine(NewRow(op, sha))] else lines
  }

  function NewLine(row: Session): Line {
    Line(row.userId, row.jti, [row.hash], row.expiresAt, false)
  }

  // ----- The abstraction -----

  predicate RowMatches(row: Session, line: Line) {
    var n := |line.tokens|;
    && n > 0
    && row.userId == line.userId && row.jti == line.jti && row.expiresAt == line.expiresAt
    && row.IsRevoked() == line.revoked
    && row.hash == line.tokens[n - 1]
    && row.previousHash == if n > 1 then Some(line.tokens[n - 2]) else None
  }

  ghost predicate Matches(t: Tables, lines: Lines) {
    && t.sessions.Keys == lines.Keys
    && forall id :: id in lines ==> RowMatches(t.sessions[id], lines[id])
  }

  /** No token occurs twice anywhere. */
  ghost predicate Distinct(lines: Lines) {
    forall a, b, i: nat, j: nat ::
      a in lines && b in lines && i < |lines[a].tokens| && j < |lines[b].tokens| ==>
      lines[a].tokens[i] == lines[b].tokens[j] ==> a == b && i == j
  }

  ghost predicate Covered(lines: Lines, hashes: set<string>) {
    forall id, k: nat :: id in lines && k < |lines[id].tokens| ==> lines[id].tokens[k] in hashes
  }

  ghost predicate Refines(s: State, lines: Lines) {
    Matches(s.desk.tables, lines) && Distinct(lines) && Covered(lines, s.hashes)
  }

  // ----- Shapes on both sides -----

  lemma OpenBoth(d: Desk, e: Desk, lines: Lines, hashes: set<string>, shape: Shape)
    requires Matches(d.tables, lines) && Distinct(lines) && Covered(lines, hashes)
    requires shape.Open? && Shaped(d, e, shape) && shape.row.hash !in hashes
    ensures var next := if shape.takes then lines[shape.id := NewLine(shape.row)] else lines;
            Matches(e.tables, next) && Distinct(next) && Covered(next, hashes + {shape.row.hash})
  {
    OpenMatches(d, e, lines, shape);
    OpenDistinct(lines, hashes, shape.id, NewLine(shape.row));
    MoreCovered(lines, hashes, hashes + {shape.row.hash});
    hide Matches, Distinct, Covered, Shaped;
  }

  lemma OpenMatches(d: Desk, e: Desk, lines: Lines, shape: Shape)
    requires Matches(d.tables, lines) && shape.Open? && Shaped(d, e, shape)
    ensures Matches(e.tables, if shape.takes then lines[shape.id := NewLine(shape.row)] else lines)
    ensures shape.id !in lines
  {
    hide Appends;
  }

  lemma OpenDistinct(lines: Lines, hashes: set<string>, id: string, line: Line)
    requires Distinct(lines) && Covered(lines, hashes) && id !in lines
    requires |line.tokens| == 1 && line.tokens[0] !in hashes
    ensures Distinct(lines[id := line]) && Covered(lines[id := line], hashes + {line.tokens[0]})
  {
  }

  lemma TurnBoth(d: Desk, e: Desk, lines: Lines, hashes: set<string>, shape: Shape)
    requires Matches(d.tables, lines) && Distinct(lines) && Covered(lines, hashes)
    requires shape.Turn? && Shaped(d, e, shape) && shape.hash !in hashes
    ensures shape.id in lines
    ensures var next := lines[shape.id := Longer(lines[shape.id], shape.hash, shape.jti, shape.expiresAt)];
            Matches(e.tables, next) && Distinct(next) && Covered(next, hashes + {shape.hash})
  {
    hide Distinct, Covered;
    TurnMatches(d, e, lines, shape);
    hide Matches, Shaped;
    TurnDistinct(lines, hashes, shape.id,
                 lines[shape.id := Longer(lines[shape.id], shape.hash, shape.jti, shape.expiresAt)]);
  }

  lemma TurnMatches(d: Desk, e: Desk, lines: Lines, shape: Shape)
    requires Matches(d.tables, lines) && shape.Turn? && Shaped(d, e, shape)
    ensures shape.id in lines
    ensures Matches(e.tables, lines[shape.id := Longer(lines[shape.id], shape.hash, shape.jti, shape.expiresAt)])
  {
    hide AppendsOther;
    assert RowMatches(d.tables.sessions[shape.id], lines[shape.id]);
  }

  lemma TurnDistinct(lines: Lines, hashes: set<string>, id: string, next: Lines)
    requires Distinct(lines) && Covered(lines, hashes) && id in lines && id in next && |next[id].tokens| > 0
    requires var n := |lines[id].tokens|;
             |next[id].tokens| == n + 1 && next[id].tokens[..n] == lines[id].tokens && next[id].tokens[n] !in hashes
    requires next.Keys == lines.Keys && forall a :: a in lines && a != id ==> next[a] == lines[a]
    ensures Distinct(next) && Covered(next, hashes + {next[id].tokens[|lines[id].tokens|]})
  {
    var n := |lines[id].tokens|;
    forall a, k: nat | a in next && k < |next[a].tokens|
      ensures if a == id && k == n then next[a].tokens[k] !in hashes
              else k < |lines[a].tokens| && next[a].tokens[k] == lines[a].tokens[k]
    {
      assert a == id && k < n ==> next[id].tokens[..n][k] == next[id].tokens[k];
    }
  }

  /** Closing lines changes no token. */
  lemma CloseTokens(lines: Lines, hashes: set<string>, ids: set<string>)
    requires Distinct(lines) && Covered(lines, hashes)
    ensures Distinct(CloseLines(lines, ids)) && Covered(CloseLines(lines, ids), hashes)
  {
  }

  lemma CloseBoth(d: Desk, e: Desk, lines: Lines, shape: Shape)
    requires Matches(d.tables, lines) && shape.Close? && Shaped(d, e, shape)
    ensures Matches(e.tables, CloseIf(shape.takes, lines, {shape.id}))
  {
    hide Appends;
  }

  lemma CloseAllBoth(d: Desk, e: Desk, lines: Lines, shape: Shape)
    requires Matches(d.tables, lines) && shape.CloseAll? && Shaped(d, e, shape)
    ensures Matches(e.tables, CloseIf(shape.takes, lines, OfUser(lines, shape.userId)))
  {
    hide Appends;
  }

  // ----- One step -----

  lemma RefineSignIn(s: State, lines: Lines, op: Op, sha: string -> string)
    requires DeskRuns.Inv(s) && Refines(s, lines) && Enabled(s, op, sha) && (op.SignIn? || op.GoogleSignIn?)
    ensures Refines(Step(s, op, sha), SpecStep(lines, s, op, sha))
  {
    hide Shaped, Matches, Distinct, DeskRuns.Inv, DeskStep, SignsIn;
    var shape := SignInShape(s, op, sha);
    var e := Step(s, op, sha).desk;
    if SignsIn(s, op) {
      OpenBoth(s.desk, e, lines, s.hashes, shape);
    } else {
      IdleBoth(s.desk, e, lines);
    }
  }

  lemma IdleBoth(d: Desk, e: Desk, lines: Lines)
    requires Matches(d.tables, lines) && Shaped(d, e, Idle)
    ensures Matches(e.tables, lines)
  {
  }

  lemma RefineBulk(s: State, lines: Lines, op: Op, sha: string -> string)
    requires DeskRuns.Inv(s) && Refines(s, lines) && (op.LogoutEverywhere? || op.AdminRevokeAll?)
    ensures Refines(Step(s, op, sha), SpecStep(lines, s, op, sha))
  {
    hide Shaped, Matches, Distinct, Covered, DeskRuns.Inv, DeskStep, CloseLines, ReasonFault, OfUser;
    var shape := BulkShape(s, op, sha);
    var e := Step(s, op, sha).desk;
    if shape.Idle? {
      IdleBoth(s.desk, e, lines);
    } else {
      CloseAllBoth(s.desk, e, lines, shape);
      CloseTokens(lines, s.hashes, OfUser(lines, op.userId));
    }
  }

  lemma NamedIsFound(t: Tables, lines: Lines, key: string)
    requires WellFormed(t) && Matches(t, lines)
    ensures Named(lines, key) == match Find(t, key) case None => {} case Some(id) => {id}
  {
    forall id | id in Named(lines, key)
      ensures Find(t, key) == Some(id)
    {
      assert RowMatches(t.sessions[id], lines[id]);
      FindIsUnique(t, key, id);
    }
    if Find(t, key).Some? {
      assert RowMatches(t.sessions[Find(t, key).value], lines[Find(t, key).value]);
    }
  }

  lemma CloseNothing(lines: Lines, ids: set<string>)
    requires forall id :: id in ids && id in lines ==> lines[id].revoked
    ensures CloseLines(lines, ids) == lines
  {
  }

  lemma NamedLines(t: Tables, lines: Lines, key: string, userId: string)
    requires WellFormed(t) && Matches(t, lines)
    ensures match Find(t, key)
            case None => Named(lines, key) == {} && {} * OfUser(lines, userId) == {}
            case Some(id) =>
              && id in lines && Named(lines, key) == {id}
              && {id} * OfUser(lines, userId) == (if t.sessions[id].userId == userId then {id} else {})
              && (t.sessions[id].IsRevoked() ==> CloseLines(lines, {id}) == lines)
    ensures CloseLines(lines, {}) == lines
  {
    NamedIsFound(t, lines, key);
    CloseNothing(lines, {});
    if Find(t, key).Some? {
      var id := Find(t, key).value;
      assert RowMatches(t.sessions[id], lines[id]);
      if lines[id].revoked {
        CloseNothing(lines, {id});
      }
    }
    hide Named, WellFormed, FindIn, CloseLines;
  }

  /** The named revocations close on both sides what the lookup finds. */
  lemma NamedSpec(s: State, lines: Lines, op: Op, sha: string -> string)
    requires WellFormed(s.desk.tables) && Matches(s.desk.tables, lines)
    requires op.LogoutOf? || op.RevokeOwn? || op.AdminRevoke?
    ensures SpecStep(lines, s, op, sha) == match NamedEffect(s, op)
                                           case Close(id, _, takes, _) => CloseIf(takes, lines, {id})
                                           case _ => lines
  {
    hide Matches, Named, OfUser, WellFormed, FindIn, CloseLines, ReasonFault;
    NamedLines(s.desk.tables, lines, op.key, if op.AdminRevoke? then "" else op.userId);
  }

  lemma RefineNamed(s: State, lines: Lines, op: Op, sha: string -> string)
    requires DeskRuns.Inv(s) && Refines(s, lines) && (op.LogoutOf? || op.RevokeOwn? || op.AdminRevoke?)
    ensures Refines(Step(s, op, sha), SpecStep(lines, s, op, sha))
  {
    NamedSpec(s, lines, op, sha);
    NamedCloses(s, op);
    hide Shaped, Matches, Distinct, Covered, DeskStep, CloseLines, DeskRuns.Inv, NamedEffect, SpecStep;
    var shape := NamedShape(s, op, sha);
    var e := Step(s, op, sha).desk;
    if shape.Idle? {
      IdleBoth(s.desk, e, lines);
    } else {
      CloseBoth(s.desk, e, lines, shape);
      CloseTokens(lines, s.hashes, {shape.id});
    }
  }

  /** What the two columns can see of a token. */
  lemma LookupSees(t: Tables, lines: Lines, id: string, k: nat, hash: string, now: int)
    requires DistinctHashes(t) && Matches(t, lines) && Distinct(lines) && At(lines, id, k, hash)
    ensures var n := |lines[id].tokens|;
            && (k == n - 1 ==> Lookup(t.sessions, hash, now) == Some(Found(id, t.sessions[id])))
            && (k == n - 2 ==>
                 Lookup(t.sessions, hash, now) == Some(Found(id, Mark(t.sessions[id], "TOKEN_REUSE_DETECTED", now))))
            && (k < n - 2 ==> Lookup(t.sessions, hash, now) == None)
  {
    assert RowMatches(t.sessions[id], lines[id]);
    LookupIsUnique(t, hash, now, id);
    if k < |lines[id].tokens| - 2 && Lookup(t.sessions, hash, now).Some? {
      LookupIsListed(t, lines, hash, now);
    }
  }

  lemma LookupIsListed(t: Tables, lines: Lines, hash: string, now: int)
    requires Matches(t, lines) && Lookup(t.sessions, hash, now).Some?
    ensures exists id, k: nat :: At(lines, id, k, hash) && k >= |lines[id].tokens| - 2
  {
    var id := Lookup(t.sessions, hash, now).value.id;
    var n := |lines[id].tokens|;
    assert RowMatches(t.sessions[id], lines[id]);
    assert At(lines, id, n - 1, hash) || (n > 1 && At(lines, id, n - 2, hash));
  }

  /** A token that is one of the two newest of a session. */
  lemma RefinePresent(s: State, lines: Lines, op: Op, sha: string -> string, id: string, k: nat)
    requires DeskRuns.Inv(s) && Refines(s, lines) && Enabled(s, op, sha) && op.RefreshWith?
    requires !AllWhitespace(op.raw) && At(lines, id, k, sha(op.raw))
    ensures var (next, reply) := SpecPresent(lines, s.users, id, k, sha, op.x, op.io.write);
            Refines(Step(s, op, sha), next) && DeskStep(s, op, sha).1 == reply
  {
    hide Matches, Distinct, Covered, DeskRuns.Inv, AllWhitespace, SpecPresent, DeskStep, Step;
    var line := lines[id];
    var fromEnd := |line.tokens| - 1 - k;
    if fromEnd <= 1 && (fromEnd == 1 || line.revoked) {
      RefineReuse(s, lines, op, sha, id, k);
    } else if fromEnd == 0 {
      RefineNewest(s, lines, op, sha, id, k);
    } else {
      RefineStranger(s, lines, op, sha, id, k);
    }
  }

  lemma RefineReuse(s: State, lines: Lines, op: Op, sha: string -> string, id: string, k: nat)
    requires DeskRuns.Inv(s) && Refines(s, lines) && op.RefreshWith?
    requires !AllWhitespace(op.raw) && At(lines, id, k, sha(op.raw))
    requires k == |lines[id].tokens| - 2 || (k == |lines[id].tokens| - 1 && lines[id].revoked)
    ensures var (next, reply) := SpecPresent(lines, s.users, id, k, sha, op.x, op.io.write);
            Refines(Step(s, op, sha), next) && DeskStep(s, op, sha).1 == reply
  {
    hide Shaped, Matches, Distinct, Covered, RevokeAllCall, CloseLines, WellFormed, DistinctHashes, DeskStep, Known,
      ReasonFault, Guarded, OfUser;
    ReuseDesk(s, lines, op, sha, id, k);
    var line := lines[id];
    OwnReasonsFit(op.io.write);
    var shape := CloseAllShape(s.desk, Step(s, op, sha).desk, line.userId, REUSED, op.x.now, op.io.write,
                               REFRESH_REUSE_DETECTED, id, op.io.Records());
    CloseAllBoth(s.desk, Step(s, op, sha).desk, lines, shape);
    CloseTokens(lines, s.hashes, OfUser(lines, line.userId));
    MoreCovered(CloseIf(shape.takes, lines, OfUser(lines, line.userId)), s.hashes, Step(s, op, sha).hashes);
  }

  lemma ReuseDesk(s: State, lines: Lines, op: Op, sha: string -> string, id: string, k: nat)
    requires DistinctHashes(s.desk.tables) && Matches(s.desk.tables, lines) && Distinct(lines) && op.RefreshWith?
    requires !AllWhitespace(op.raw) && At(lines, id, k, sha(op.raw))
    requires k == |lines[id].tokens| - 2 || (k == |lines[id].tokens| - 1 && lines[id].revoked)
    ensures DeskStep(s, op, sha) ==
            (Logged(s.desk.(tables := RevokeAllCall(s.desk.tables, lines[id].userId, REUSED, op.x.now, op.io.write).0),
                    REFRESH_REUSE_DETECTED, lines[id].userId, id, op.io), Rejected(401))
  {
    LookupSees(s.desk.tables, lines, id, k, sha(op.raw), op.x.now);
    assert RowMatches(s.desk.tables.sessions[id], lines[id]);
    hide Matches, Distinct, DistinctHashes, Lookup, RevokeAllCall, AllWhitespace, Guarded;
  }

  lemma MoreCovered(lines: Lines, hashes: set<string>, more: set<string>)
    requires Covered(lines, hashes) && hashes <= more
    ensures Covered(lines, more)
  {
  }

  lemma RefineNewest(s: State, lines: Lines, op: Op, sha: string -> string, id: string, k: nat)
    requires DeskRuns.Inv(s) && Refines(s, lines) && Enabled(s, op, sha) && op.RefreshWith?
    requires !AllWhitespace(op.raw) && At(lines, id, k, sha(op.raw))
    requires k == |lines[id].tokens| - 1 && !lines[id].revoked
    ensures var (next, reply) := SpecPresent(lines, s.users, id, k, sha, op.x, op.io.write);
            Refines(Step(s, op, sha), next) && DeskStep(s, op, sha).1 == reply
  {
    hide Shaped, Matches, Distinct, Covered, RotateFor, DeskStep, WellFormed, DistinctHashes, Known, Longer;
    NewestDesk(s, lines, op, sha, id, k);
    var line := lines[id];
    if op.x.now < line.expiresAt && line.userId in s.users && s.users[line.userId] {
      var shape := TurnShape(s, id, line.userId, sha, op.x, op.io);
      if shape.Turn? {
        TurnBoth(s.desk, Step(s, op, sha).desk, lines, s.hashes, shape);
      } else {
        IdleBoth(s.desk, Step(s, op, sha).desk, lines);
        MoreCovered(lines, s.hashes, Step(s, op, sha).hashes);
      }
    } else {
      MoreCovered(lines, s.hashes, Step(s, op, sha).hashes);
    }
  }

  lemma NewestDesk(s: State, lines: Lines, op: Op, sha: string -> string, id: string, k: nat)
    requires DistinctHashes(s.desk.tables) && Matches(s.desk.tables, lines) && Distinct(lines) && op.RefreshWith?
    requires !AllWhitespace(op.raw) && At(lines, id, k, sha(op.raw))
    requires k == |lines[id].tokens| - 1 && !lines[id].revoked
    ensures id in s.desk.tables.sessions && !s.desk.tables.sessions[id].IsRevoked()
    ensures var line := lines[id];
            DeskStep(s, op, sha) ==
              if op.x.now < line.expiresAt && line.userId in s.users && s.users[line.userId]
              then RotateFor(s.desk, id, line.userId, sha, op.x, op.io)
              else (s.desk, Rejected(401))
  {
    LookupSees(s.desk.tables, lines, id, k, sha(op.raw), op.x.now);
    assert RowMatches(s.desk.tables.sessions[id], lines[id]);
    hide Matches, Distinct, DistinctHashes, Lookup, RotateFor, AllWhitespace;
  }

  lemma RefineStranger(s: State, lines: Lines, op: Op, sha: string -> string, id: string, k: nat)
    requires DeskRuns.Inv(s) && Refines(s, lines) && op.RefreshWith?
    requires !AllWhitespace(op.raw) && At(lines, id, k, sha(op.raw)) && k < |lines[id].tokens| - 2
    ensures var (next, reply) := SpecPresent(lines, s.users, id, k, sha, op.x, op.io.write);
            Refines(Step(s, op, sha), next) && DeskStep(s, op, sha).1 == reply
  {
    LookupSees(s.desk.tables, lines, id, k, sha(op.raw), op.x.now);
    hide Matches, Distinct, Covered, Lookup, AllWhitespace, DeskRuns.Inv;
    MoreCovered(lines, s.hashes, Step(s, op, sha).hashes);
  }

  lemma RefineRefresh(s: State, lines: Lines, op: Op, sha: string -> string)
    requires DeskRuns.Inv(s) && Refines(s, lines) && Enabled(s, op, sha) && op.RefreshWith?
    ensures var (next, reply) := SpecRefresh(lines, s.users, op.raw, sha, op.x, op.io.write);
            Refines(Step(s, op, sha), next) && DeskStep(s, op, sha).1 == reply
  {
    var hash := sha(op.raw);
    hide Matches, Distinct, SpecPresent, DeskRuns.Inv, AllWhitespace;
    if !AllWhitespace(op.raw) && exists id, k: nat :: At(lines, id, k, hash) {
      hide At, Covered, DeskStep;
      forall id, k: nat | At(lines, id, k, hash)
        ensures id in lines && k < |lines[id].tokens|
        ensures var (next, reply) := SpecPresent(lines, s.users, id, k, sha, op.x, op.io.write);
                Refines(Step(s, op, sha), next) && DeskStep(s, op, sha).1 == reply
      {
        AtBounds(lines, id, k, hash);
        RefinePresent(s, lines, op, sha, id, k);
      }
    } else if !AllWhitespace(op.raw) {
      if Lookup(s.desk.tables.sessions, hash, op.x.now).Some? {
        LookupIsListed(s.desk.tables, lines, hash, op.x.now);
      }
    }
  }

  lemma AtBounds(lines: Lines, id: string, k: nat, hash: string)
    requires At(lines, id, k, hash)
    ensures id in lines && k < |lines[id].tokens|
  {
  }

  /** The newest token of this session, which is live and whose user is active. */
  predicate Works(lines: Lines, users: map<string, bool>, id: string, hash: string, now: int) {
    && id in lines && |lines[id].tokens| > 0 && lines[id].tokens[|lines[id].tokens| - 1] == hash
    && !lines[id].revoked && now < lines[id].expiresAt
    && lines[id].userId in users && users[lines[id].userId]
  }

  /** A refresh succeeds exactly when it presents the newest token of a live session and its update succeeds. */
  lemma OnlyNewestTokenWorks(s: State, lines: Lines, op: Op, sha: string -> string)
    requires DeskRuns.Inv(s) && Refines(s, lines) && Enabled(s, op, sha) && op.RefreshWith? && !AllWhitespace(op.raw)
    ensures DeskStep(s, op, sha).1.Tokens? <==>
            op.io.write.NoFault? && exists id :: Works(lines, s.users, id, sha(op.raw), op.x.now)
  {
    RefineRefresh(s, lines, op, sha);
    SpecSuccess(lines, s.users, op.raw, sha, op.x, op.io.write);
    hide DeskRuns.Inv, DeskStep, SpecRefresh, Works;
  }

  lemma SpecSuccess(lines: Lines, users: map<string, bool>, raw: string, sha: string -> string, x: Drawn, write: Fault)
    requires Distinct(lines) && !AllWhitespace(raw)
    ensures SpecRefresh(lines, users, raw, sha, x, write).1.Tokens? <==>
            write.NoFault? && exists id :: Works(lines, users, id, sha(raw), x.now)
  {
    hide AllWhitespace, CloseLines, OfUser, Longer;
    var hash := sha(raw);
    if id :| Works(lines, users, id, hash, x.now) {
      assert At(lines, id, |lines[id].tokens| - 1, hash);
    }
    if SpecRefresh(lines, users, raw, sha, x, write).1.Tokens? {
      var id, k: nat :| At(lines, id, k, hash)
                        && SpecRefresh(lines, users, raw, sha, x, write)
                         == SpecPresent(lines, users, id, k, sha, x, write);
      assert Works(lines, users, id, hash, x.now);
    }
  }

  /** A token that no session ever had, or had more than one rotation ago, changes nothing. */
  lemma StrangerChangesNothing(s: State, lines: Lines, op: Op, sha: string -> string)
    requires Refines(s, lines) && op.RefreshWith?
    requires forall id, k: nat :: At(lines, id, k, sha(op.raw)) ==> k < |lines[id].tokens| - 2
    ensures DeskStep(s, op, sha).0 == s.desk && DeskStep(s, op, sha).1.Rejected?
  {
    if Lookup(s.desk.tables.sessions, sha(op.raw), op.x.now).Some? {
      LookupIsListed(s.desk.tables, lines, sha(op.raw), op.x.now);
    }
  }

  lemma RefineStep(s: State, lines: Lines, op: Op, sha: string -> string)
    requires DeskRuns.Inv(s) && Refines(s, lines) && Enabled(s, op, sha)
    ensures Refines(Step(s, op, sha), SpecStep(lines, s, op, sha))
  {
    hide Refines, DeskRuns.Inv, Step, SpecRefresh, Enabled;
    match op {
      case SignIn(_, _, _, _, _) => RefineSignIn(s, lines, op, sha);
      case GoogleSignIn(_, _, _) => RefineSignIn(s, lines, op, sha);
      case RefreshWith(_, _, _) => RefineRefresh(s, lines, op, sha);
      case LogoutEverywhere(_, _, _) => RefineBulk(s, lines, op, sha);
      case AdminRevokeAll(_, _, _, _, _) => RefineBulk(s, lines, op, sha);
      case CleanUp(_) => RefineQuiet(s, lines, op, sha);
      case SetUser(_, _) => RefineQuiet(s, lines, op, sha);
      case _ => RefineNamed(s, lines, op, sha);
    }
  }

  lemma RefineQuiet(s: State, lines: Lines, op: Op, sha: string -> string)
    requires DeskRuns.Inv(s) && Refines(s, lines) && (op.CleanUp? || op.SetUser?)
    ensures Refines(Step(s, op, sha), lines)
  {
    hide DeskRuns.Inv, Distinct, Covered;
  }

  // ----- Runs -----

  ghost function SpecRun(lines: Lines, s: State, ops: seq<Op>, sha: string -> string): Lines
    decreases |ops|
  {
    if ops == [] then lines
    else SpecRun(SpecStep(lines, s, ops[0], sha), Step(s, ops[0], sha), ops[1..], sha)
  }

  ghost function Replies(s: State, ops: seq<Op>, sha: string -> string): (replies: seq<Reply>)
    ensures |replies| == |ops|
    decreases |ops|
  {
    if ops == [] then [] else [DeskStep(s, ops[0], sha).1] + Replies(Step(s, ops[0], sha), ops[1..], sha)
  }

  /** What the full history answers to each refresh of the run. */
  ghost predicate AnsweredByHistory(lines: Lines, s: State, ops: seq<Op>, sha: string -> string, replies: seq<Reply>)
    decreases |ops|
  {
    && |replies| == |ops|
    && (ops != [] ==>
          && (ops[0].RefreshWith? ==>
                replies[0] == SpecRefresh(lines, s.users, ops[0].raw, sha, ops[0].x, ops[0].io.write).1)
          && AnsweredByHistory(SpecStep(lines, s, ops[0], sha), Step(s, ops[0], sha), ops[1..], sha, replies[1..]))
  }

  /** For every run, the two columns stay an image of the history and every refresh answers as it would. */
  lemma {:induction false} RunRefines(s: State, lines: Lines, ops: seq<Op>, sha: string -> string)
    requires DeskRuns.Inv(s) && Refines(s, lines) && Legal(s, ops, sha)
    ensures Refines(Run(s, ops, sha), SpecRun(lines, s, ops, sha))
    ensures AnsweredByHistory(lines, s, ops, sha, Replies(s, ops, sha))
    decreases |ops|
  {
    hide DeskRuns.Inv, Refines, Enabled, Step, SpecStep, DeskStep, SpecRefresh;
    if ops != [] {
      RefineStep(s, lines, ops[0], sha);
      if ops[0].RefreshWith? {
        RefineRefresh(s, lines, ops[0], sha);
      }
      InvStep(s, ops[0], sha);
      RunRefines(Step(s, ops[0], sha), SpecStep(lines, s, ops[0], sha), ops[1..], sha);
      assert Replies(s, ops, sha)[1..] == Replies(Step(s, ops[0], sha), ops[1..], sha);
    }
  }

  lemma StartRefines(sha: string -> string)
    ensures DeskRuns.Inv(START) && Refines(START, map[])
  {
  }

  // ----- Nothing is exchanged twice -----

  ghost predicate Spent(lines: Lines, hash: string) {
    exists id, k: nat :: At(lines, id, k, hash) && k < |lines[id].tokens| - 1
  }

  lemma SpentStays(s: State, lines: Lines, op: Op, sha: string -> string, hash: string)
    requires DeskRuns.Inv(s) && Refines(s, lines) && Enabled(s, op, sha) && Spent(lines, hash)
    ensures Spent(SpecStep(lines, s, op, sha), hash)
  {
    var id, k: nat :| At(lines, id, k, hash) && k < |lines[id].tokens| - 1;
    AtBounds(lines, id, k, hash);
    hide SpecStep, DeskRuns.Inv, Refines, At, Spent, Extends, Enabled;
    TokensStay(s, lines, op, sha, id);
    ExtendsSpent(lines, SpecStep(lines, s, op, sha), id, k, hash);
  }

  lemma ExtendsSpent(lines: Lines, next: Lines, id: string, k: nat, hash: string)
    requires Extends(lines, next, id) && At(lines, id, k, hash) && k < |lines[id].tokens| - 1
    ensures Spent(next, hash)
  {
    assert At(next, id, k, hash);
  }

  lemma DrawnIsNew(s: State, lines: Lines, op: Op, sha: string -> string)
    requires DeskRuns.Inv(s) && Refines(s, lines) && Enabled(s, op, sha)
    ensures op.Draws() ==> op.x.id !in lines
  {
  }

  lemma TokensStay(s: State, lines: Lines, op: Op, sha: string -> string, id: string)
    requires DeskRuns.Inv(s) && Refines(s, lines) && Enabled(s, op, sha) && id in lines
    ensures Extends(lines, SpecStep(lines, s, op, sha), id)
  {
    DrawnIsNew(s, lines, op, sha);
    hide DeskRuns.Inv, Refines, SpecStep, Extends, Enabled;
    match op {
      case SignIn(_, _, _, _, _) => SignInExtends(lines, s, op, sha, id);
      case GoogleSignIn(_, _, _) => SignInExtends(lines, s, op, sha, id);
      case RefreshWith(_, _, _) => RefreshExtends(lines, s, op, sha, id);
      case _ => ClosingExtends(lines, s, op, sha, id);
    }
  }

  lemma SignInExtends(lines: Lines, s: State, op: Op, sha: string -> string, id: string)
    requires id in lines && (op.SignIn? || op.GoogleSignIn?) && op.x.id !in lines
    ensures Extends(lines, SpecStep(lines, s, op, sha), id)
  {
    hide SignsIn, NewRow;
  }

  lemma ClosingExtends(lines: Lines, s: State, op: Op, sha: string -> string, id: string)
    requires id in lines && !op.Draws()
    ensures Extends(lines, SpecStep(lines, s, op, sha), id)
  {
    hide OfUser, Named, CloseLines, Extends;
    forall ids
      ensures Extends(lines, CloseLines(lines, ids), id)
    {
      CloseExtends(lines, ids, id);
    }
    SameExtends(lines, id);
  }

  predicate Extends(lines: Lines, next: Lines, id: string) {
    id in lines && id in next && lines[id].tokens <= next[id].tokens
  }

  lemma SameExtends(lines: Lines, id: string)
    requires id in lines
    ensures Extends(lines, lines, id)
  {
  }

  lemma CloseExtends(lines: Lines, ids: set<string>, id: string)
    requires id in lines
    ensures Extends(lines, CloseLines(lines, ids), id)
  {
  }

  lemma RefreshExtends(lines: Lines, s: State, op: Op, sha: string -> string, id: string)
    requires id in lines && op.RefreshWith?
    ensures Extends(lines, SpecStep(lines, s, op, sha), id)
  {
    hide OfUser, AllWhitespace;
    forall ids
      ensures Extends(lines, CloseLines(lines, ids), id)
    {
      CloseExtends(lines, ids, id);
    }
    hide CloseLines;
  }

  /** A refresh that succeeds spends its token; a spent token never succeeds. */
  lemma SuccessSpends(s: State, lines: Lines, op: Op, sha: string -> string)
    requires DeskRuns.Inv(s) && Refines(s, lines) && Enabled(s, op, sha) && op.RefreshWith?
    requires DeskStep(s, op, sha).1.Tokens?
    ensures Spent(SpecStep(lines, s, op, sha), sha(op.raw))
    ensures !Spent(lines, sha(op.raw))
  {
    RefineRefresh(s, lines, op, sha);
    SpecSpends(lines, s.users, op.raw, sha, op.x, op.io.write);
    hide DeskRuns.Inv, DeskStep, Matches, Distinct, Covered, Spent, Enabled, SpecRefresh;
  }

  lemma SpecSpends(lines: Lines, users: map<string, bool>, raw: string, sha: string -> string, x: Drawn, write: Fault)
    requires Distinct(lines) && SpecRefresh(lines, users, raw, sha, x, write).1.Tokens?
    ensures Spent(SpecRefresh(lines, users, raw, sha, x, write).0, sha(raw)) && !Spent(lines, sha(raw))
  {
    hide AllWhitespace, CloseLines, OfUser;
    var hash := sha(raw);
    var next := SpecRefresh(lines, users, raw, sha, x, write).0;
    var id, k: nat :| At(lines, id, k, hash)
                      && SpecRefresh(lines, users, raw, sha, x, write)
                         == SpecPresent(lines, users, id, k, sha, x, write);
    assert At(next, id, k, hash) && k < |next[id].tokens| - 1;
  }

  lemma {:induction false} SpentNeverWorks(s: State, lines: Lines, ops: seq<Op>, sha: string -> string, hash: string)
    requires DeskRuns.Inv(s) && Refines(s, lines) && Legal(s, ops, sha) && Spent(lines, hash)
    ensures forall j :: 0 <= j < |ops| && ops[j].RefreshWith? && sha(ops[j].raw) == hash ==>
              !Replies(s, ops, sha)[j].Tokens?
    decreases |ops|
  {
    hide DeskRuns.Inv, Refines, Enabled, Step, SpecStep, DeskStep, Spent;
    if ops != [] {
      if ops[0].RefreshWith? && sha(ops[0].raw) == hash && DeskStep(s, ops[0], sha).1.Tokens? {
        SuccessSpends(s, lines, ops[0], sha);
      }
      RefineStep(s, lines, ops[0], sha);
      InvStep(s, ops[0], sha);
      SpentStays(s, lines, ops[0], sha, hash);
      SpentNeverWorks(Step(s, ops[0], sha), SpecStep(lines, s, ops[0], sha), ops[1..], sha, hash);
    }
  }

  /** In every run of whole use cases no refresh token is exchanged twice. */
  lemma {:induction false} NoTokenIsExchangedTwice(s: State, lines: Lines, ops: seq<Op>, sha: string -> string)
    requires DeskRuns.Inv(s) && Refines(s, lines) && Legal(s, ops, sha)
    ensures forall i, j :: 0 <= i < j < |ops| && ops[i].RefreshWith? && ops[j].RefreshWith?
                           && Replies(s, ops, sha)[i].Tokens? && Replies(s, ops, sha)[j].Tokens?
              ==> sha(ops[i].raw) != sha(ops[j].raw) && ops[i].raw != ops[j].raw
    decreases |ops|
  {
    hide DeskRuns.Inv, Refines, Enabled, Step, SpecStep, DeskStep, Spent;
    if ops != [] {
      var next, grown := Step(s, ops[0], sha), SpecStep(lines, s, ops[0], sha);
      RefineStep(s, lines, ops[0], sha);
      InvStep(s, ops[0], sha);
      NoTokenIsExchangedTwice(next, grown, ops[1..], sha);
      if ops[0].RefreshWith? && DeskStep(s, ops[0], sha).1.Tokens? {
        SuccessSpends(s, lines, ops[0], sha);
        SpentNeverWorks(next, grown, ops[1..], sha, sha(ops[0].raw));
      }
      assert forall j :: 0 < j < |ops| ==> ops[j] == ops[1..][j - 1];
      assert forall j :: 0 < j < |ops| ==> Replies(s, ops, sha)[j] == Replies(next, ops[1..], sha)[j - 1];
    }
  }

  // ----- From the first request on -----

  /** Every run from an empty table refines its token histories. */
  lemma RefinesFromStart(ops: seq<Op>, sha: string -> string)
    requires Legal(START, ops, sha)
    ensures Refines(Run(START, ops, sha), SpecRun(map[], START, ops, sha))
    ensures AnsweredByHistory(map[], START, ops, sha, Replies(START, ops, sha))
  {
    StartRefines(sha);
    RunRefines(START, map[], ops, sha);
  }

  /** In every run from an empty table each refresh token is exchanged at most once. */
  lemma OneTimeFromStart(ops: seq<Op>, sha: string -> string)
    requires Legal(START, ops, sha)
    ensures forall i, j ::
              0 <= i < j < |ops| && ops[i].RefreshWith? && ops[j].RefreshWith?
              && Replies(START, ops, sha)[i].Tokens? && Replies(START, ops, sha)[j].Tokens? ==>
              ops[i].raw != ops[j].raw
  {
    StartRefines(sha);
    NoTokenIsExchangedTwice(START, map[], ops, sha);
  }

  // ----- A token rotated away twice -----

  predicate Disjoint(x: Drawn, y: Drawn, sha: string -> string) {
    {x.id, x.jti} !! {y.id, y.jti} && sha(x.refresh) != sha(y.refresh)
  }

  predicate Usable(x: Drawn) { x.id != "" && x.id != x.jti && !AllWhitespace(x.refresh) }

  /** A sign-in and two refreshes, each with the token of the request before. */
  function RotatedTwice(userId: string, x: Drawn, y: Drawn, z: Drawn): seq<Op> {
    [SetUser(userId, true)] + ([FirstSignIn(userId, x)]
                               + ([RefreshWith(x.refresh, y, SMOOTH)] + ([RefreshWith(y.refresh, z, SMOOTH)] + [])))
  }

  /** A refresh that goes through adds its token to the line. */
  lemma Rotated(s: State, lines: Lines, id: string, op: Op, sha: string -> string)
    requires DeskRuns.Inv(s) && Refines(s, lines) && Enabled(s, op, sha)
    requires op.RefreshWith? && op.io == SMOOTH && !AllWhitespace(op.raw)
    requires Works(lines, s.users, id, sha(op.raw), op.x.now)
    ensures var next := Step(s, op, sha);
            && DeskRuns.Inv(next)
            && Refines(next, lines[id := Longer(lines[id], sha(op.x.refresh), op.x.jti, op.x.now + LOGIN_LIFETIME)])
            && next.users == s.users && next.uuids == s.uuids + {op.x.id, op.x.jti}
            && next.hashes == s.hashes + {sha(op.x.refresh)}
            && DeskStep(s, op, sha).1.Tokens?
  {
    hide DeskStep, Refines, DeskRuns.Inv, AllWhitespace, Enabled, SpecRefresh, Works, Longer, Distinct;
    NoTokenTwice(s, lines);
    SpecNewest(lines, s.users, id, op.raw, sha, op.x);
    InvStep(s, op, sha);
    RefineRefresh(s, lines, op, sha);
  }

  lemma NoTokenTwice(s: State, lines: Lines)
    requires Refines(s, lines)
    ensures Distinct(lines)
  {
  }

  lemma SpecNewest(lines: Lines, users: map<string, bool>, id: string, raw: string, sha: string -> string, x: Drawn)
    requires Distinct(lines) && !AllWhitespace(raw) && Works(lines, users, id, sha(raw), x.now)
    ensures SpecRefresh(lines, users, raw, sha, x, NoFault)
         == (lines[id := Longer(lines[id], sha(x.refresh), x.jti, x.now + LOGIN_LIFETIME)],
             Tokens(id, x.jti, x.refresh, ACCESS_TTL))
  {
    assert At(lines, id, |lines[id].tokens| - 1, sha(raw));
    hide AllWhitespace, Longer, CloseLines, OfUser;
  }

  lemma TwoExchanges(s: State, line: Line, userId: string, x: Drawn, y: Drawn, z: Drawn, sha: string -> string)
    requires DeskRuns.Inv(s) && Refines(s, map[x.id := line]) && s.users == map[userId := true]
    requires line == Line(userId, x.jti, [sha(x.refresh)], x.now + LOGIN_LIFETIME, false)
    requires s.uuids == {x.id, x.jti} && s.hashes == {sha(x.refresh)}
    requires Usable(x) && Usable(y) && Usable(z) && Disjoint(x, y, sha) && Disjoint(x, z, sha) && Disjoint(y, z, sha)
    requires y.now < x.now + LOGIN_LIFETIME && z.now < y.now + LOGIN_LIFETIME
    ensures var o2, o3 := RefreshWith(x.refresh, y, SMOOTH), RefreshWith(y.refresh, z, SMOOTH);
            var s3 := Step(s, o2, sha);
            var s4 := Step(s3, o3, sha);
            && Enabled(s, o2, sha) && DeskStep(s, o2, sha).1.Tokens?
            && Enabled(s3, o3, sha) && DeskStep(s3, o3, sha).1.Tokens?
            && DeskRuns.Inv(s4) && s4.uuids == {x.id, x.jti, y.id, y.jti, z.id, z.jti}
            && s4.hashes == {sha(x.refresh), sha(y.refresh), sha(z.refresh)}
            && Refines(s4, map[x.id := Line(userId, z.jti, [sha(x.refresh), sha(y.refresh), sha(z.refresh)],
                                            z.now + LOGIN_LIFETIME, false)])
  {
    hide Step, DeskStep, AllWhitespace, Refines, DeskRuns.Inv;
    var o2, o3 := RefreshWith(x.refresh, y, SMOOTH), RefreshWith(y.refresh, z, SMOOTH);
    Rotated(s, map[x.id := line], x.id, o2, sha);
    var line3 := Longer(line, sha(y.refresh), y.jti, y.now + LOGIN_LIFETIME);
    assert map[x.id := line][x.id := line3] == map[x.id := line3];
    var s3 := Step(s, o2, sha);
    Rotated(s3, map[x.id := line3], x.id, o3, sha);
    var line4 := Longer(line3, sha(z.refresh), z.jti, z.now + LOGIN_LIFETIME);
    assert map[x.id := line3][x.id := line4] == map[x.id := line4];
    assert line4.tokens == [sha(x.refresh), sha(y.refresh), sha(z.refresh)];
  }

  lemma FourSteps(o0: Op, o1: Op, o2: Op, o3: Op, sha: string -> string)
    requires var s1 := Step(START, o0, sha);
             var s2 := Step(s1, o1, sha);
             Enabled(START, o0, sha) && Enabled(s1, o1, sha) && Enabled(s2, o2, sha)
             && Enabled(Step(s2, o2, sha), o3, sha)
    ensures var ops := [o0] + ([o1] + ([o2] + ([o3] + [])));
            var s2 := Step(Step(START, o0, sha), o1, sha);
            var s3 := Step(s2, o2, sha);
            && Legal(START, ops, sha) && Run(START, ops, sha) == Step(s3, o3, sha)
            && Replies(START, ops, sha)[2] == DeskStep(s2, o2, sha).1
            && Replies(START, ops, sha)[3] == DeskStep(s3, o3, sha).1
  {
    hide Enabled, Step, DeskStep;
    var s1 := Step(START, o0, sha);
    var s2 := Step(s1, o1, sha);
    var s3 := Step(s2, o2, sha);
    RunOne(s3, o3, [], sha);
    RunOne(s2, o2, [o3] + [], sha);
    RunOne(s1, o1, [o2] + ([o3] + []), sha);
    RunOne(START, o0, [o1] + ([o2] + ([o3] + [])), sha);
    RepliesOne(s2, o2, [o3] + [], sha);
    RepliesOne(s1, o1, [o2] + ([o3] + []), sha);
    RepliesOne(START, o0, [o1] + ([o2] + ([o3] + [])), sha);
  }

  lemma RepliesOne(s: State, op: Op, rest: seq<Op>, sha: string -> string)
    ensures Replies(s, [op] + rest, sha) == [DeskStep(s, op, sha).1] + Replies(Step(s, op, sha), rest, sha)
  {
    assert ([op] + rest)[1..] == rest;
  }

  /** Both refreshes succeed, and the first token presented once more raises no alarm: the session lives on. */
  lemma TwiceRotatedRaisesNoAlarm(userId: string, x: Drawn, y: Drawn, z: Drawn, w: Drawn, sha: string -> string)
    requires Usable(x) && Usable(y) && Usable(z) && Usable(w)
    requires Disjoint(x, y, sha) && Disjoint(x, z, sha) && Disjoint(y, z, sha)
    requires Disjoint(x, w, sha) && Disjoint(y, w, sha) && Disjoint(z, w, sha)
    requires y.now < x.now + LOGIN_LIFETIME && z.now < y.now + LOGIN_LIFETIME
    ensures var ops, again := RotatedTwice(userId, x, y, z), RefreshWith(x.refresh, w, SMOOTH);
            var s := Run(START, ops, sha);
            && Legal(START, ops, sha) && Enabled(s, again, sha)
            && Replies(START, ops, sha)[2].Tokens? && Replies(START, ops, sha)[3].Tokens?
            && DeskStep(s, again, sha).0 == s.desk && DeskStep(s, again, sha).1.Rejected?
            && x.id in s.desk.tables.sessions && !s.desk.tables.sessions[x.id].IsRevoked()
  {
    hide Step, DeskStep, DeskRuns.Inv, Run, Legal, Replies, Refines, AllWhitespace, Disjoint, FirstSignIn;
    OneSession(userId, x, sha);
    var o0, o1 := SetUser(userId, true), FirstSignIn(userId, x);
    var s2 := Step(Step(START, o0, sha), o1, sha);
    TwoExchanges(s2, Line(userId, x.jti, [sha(x.refresh)], x.now + LOGIN_LIFETIME, false), userId, x, y, z, sha);
    FourSteps(o0, o1, RefreshWith(x.refresh, y, SMOOTH), RefreshWith(y.refresh, z, SMOOTH), sha);
    NewDraw(Run(START, RotatedTwice(userId, x, y, z), sha), x, y, z, w, sha);
    OldestIsStranger(Run(START, RotatedTwice(userId, x, y, z), sha), x.id,
                     Line(userId, z.jti, [sha(x.refresh), sha(y.refresh), sha(z.refresh)],
                          z.now + LOGIN_LIFETIME, false),
                     RefreshWith(x.refresh, w, SMOOTH), sha);
  }

  lemma NewDraw(s: State, x: Drawn, y: Drawn, z: Drawn, w: Drawn, sha: string -> string)
    requires s.uuids == {x.id, x.jti, y.id, y.jti, z.id, z.jti}
    requires s.hashes == {sha(x.refresh), sha(y.refresh), sha(z.refresh)}
    requires Usable(w) && Disjoint(x, w, sha) && Disjoint(y, w, sha) && Disjoint(z, w, sha)
    ensures Enabled(s, RefreshWith(x.refresh, w, SMOOTH), sha)
  {
  }

  lemma OneSession(userId: string, x: Drawn, sha: string -> string)
    requires Usable(x)
    ensures var o0, o1 := SetUser(userId, true), FirstSignIn(userId, x);
            var s1 := Step(START, o0, sha);
            var s2 := Step(s1, o1, sha);
            && Enabled(START, o0, sha) && Enabled(s1, o1, sha) && DeskRuns.Inv(s2)
            && s2.users == map[userId := true] && s2.uuids == {x.id, x.jti} && s2.hashes == {sha(x.refresh)}
            && Refines(s2, map[x.id := Line(userId, x.jti, [sha(x.refresh)], x.now + LOGIN_LIFETIME, false)])
  {
    SignedIn(userId, x, sha);
    hide Step, Enabled, DeskRuns.Inv;
    OneLine(Step(Step(START, SetUser(userId, true), sha), FirstSignIn(userId, x), sha), x.id,
            NewRow(FirstSignIn(userId, x), sha));
  }

  lemma OldestIsStranger(s: State, id: string, line: Line, op: Op, sha: string -> string)
    requires Refines(s, map[id := line]) && op.RefreshWith? && !line.revoked
    requires |line.tokens| == 3 && line.tokens[0] == sha(op.raw)
    ensures DeskStep(s, op, sha).0 == s.desk && DeskStep(s, op, sha).1.Rejected?
    ensures id in s.desk.tables.sessions && !s.desk.tables.sessions[id].IsRevoked()
  {
    hide DeskStep, Covered;
    StrangerChangesNothing(s, map[id := line], op, sha);
  }

  lemma OneLine(s: State, id: string, row: Session)
    requires s.desk.tables.sessions == map[id := row] && row.hash in s.hashes
    requires !row.IsRevoked() && row.previousHash.None?
    ensures Refines(s, map[id := NewLine(row)])
  {
  }
}
