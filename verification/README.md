# Sessions, tokens, keys, queue and sign-in: a verified model

This project models the stateful core of a C++ web service with a PostgreSQL store and proves what
that core keeps over whole runs. `dafny verify dfyconfig.toml` checks all of it.

## What is modelled

**Tokens and keys.** `Base64Url` is the block encoder and the streaming decoder, whose 32-bit
accumulator is never masked and wraps; `KeyManager` is the active signing key with its five retired
keys and the cached JWKS text; `Jwks` reads that text back; `Jwt` builds and checks access tokens;
`Authentication` goes from the request header to the user.

**Sessions.** `SessionTables` is the `sessions` table and its fast shadow `token_revocations`;
`SessionRepository` is the repository class, each method one transaction that may fail early or at
its commit (`Transactions`). The results about whole runs are in these modules:

* `RevocationProtocol` interleaves requests one repository call at a time, every call free to fail, and
  `RefreshRaces` says in these runs when a refresh token is good twice;
* `RefreshLineage` compares the two hash columns with a specification that keeps each session's whole
  token history, and `AuditTrail` compares the sessions table with the audit log, both over the runs of
  whole use cases of `DeskRuns`, in which every write may fail or not fit its column;
* `UseCases` has those use cases as step functions, and as the two classes of the source, whose methods
  make the repository calls in order, ignore the answers that the source ignores, and arrive where the
  functions say; `DeskReplies` says what each of them answers, records and stores;
* `ProtocolRequests` says what each read of an interleaved request decides, and that a request with
  nothing in between is its use case.

**Connection pool.** `ConnectionPool` is the mutex and condition-variable pool as steps of threads:
arriving, waking, giving back, notifying after the unlock, waking spuriously, with every exception path.

**Message queue.** `MessageQueue` has each call as one step; `QueueWorkers` cuts the calls into lock,
commit and rollback and lets workers compete; `QueueOrder` says exactly what that does to the order and
to the messages.

**Sign-in.** `Accounts` is registration, Google sign-in with account linking, and passwords, with
`AccountReplies` for what each of them answers and stores; `PkceCache` is the cache table and the PKCE
state in it, with the two transactions of a callback apart, and `PkceReplay` its single use; `AuthUrl`
is percent-encoding, the authorization URL and the PKCE verifier and challenge; `Hex` and `PasswordHash`
are the stored password format.

## What enters as an argument

UUIDs, random octets, times, database failures and the answers of the database server are arguments
of the steps. SHA-256, PBKDF2, RSA signatures, SQL `LOWER`, the JSON library and the normal form of a
`jsonb` column are function values; the contracts asked of them are stated where they are used
(`Jwt.JsonContract`, `Jwt.PairContract`, `PasswordHash.GivesLength`). Generated UUIDs are taken to be
new, ids and jtis to be different, and hashes of newly generated tokens to be new
(`RevocationProtocol.Enabled`, `DeskRuns.Enabled`). The order in which the database sorts topics is an
argument of `GetMetrics`.

## Where the code differs from its documentation

The model follows the code. References to README.md and docs are to the repository's own files. Where
a promise fails in some runs only, there is a run that breaks it and, over all runs, the exact condition:
a guard on the state before the failing step.

* Refresh tokens are described as one-time (README.md:80). With whole refreshes as single steps they
  are (`RefreshLineage.OneTimeFromStart`). But the row lock of the lookup ends at the lookup's own
  commit, and two refreshes can both succeed with one token (`RefreshRaces.HashCanBeSpentTwice`). In
  every run a hash rotates its session twice exactly when some update writes over a hash its request did
  not look up (`RefreshRaces.SpentTwiceExactlyWhenStale`), and two refreshes report success with one hash
  only then (`RefreshRaces.SucceedTwiceOnlyWhenStale`). In runs where every applied update is also
  reported they do so exactly then (`RefreshRaces.SucceedTwiceExactlyWhenStale`), and in general exactly
  when such a write succeeds over an update that was reported (`RefreshRaces.SucceedTwiceExactlyWhenAgain`).
* A previously rotated token is described as raising the alarm (README.md:80). Only the newest rotated
  one does; older ones are strangers (`RefreshLineage.StrangerChangesNothing`). After any sign-in and two
  refreshes the first token can be presented again and the session lives on
  (`RefreshLineage.TwiceRotatedRaisesNoAlarm`).
* The audit log is described as the record of security events (docs/02_architecture.md:62). Log and
  sessions table are two writes, and few use cases ask what became of either. They agree after every use
  case of a run exactly unless some use case misrecords (`AuditTrail.AgreeExactlyUnlessMisrecorded`): it
  revokes a live session that its entry does not end, or the other way round. For a named revocation
  that means one of the two writes takes effect without the other; for a bulk one it is asked of each
  live session of the user, and an entry ends only those whose sign-in left one. An administrator's
  reason longer than 255 characters ends a session in the log that stays live
  (`AuditTrail.LongReasonRecordsLiveSession`); a forwarded address longer than 100 revokes sessions
  without an entry (`AuditTrail.LongAddressRevokesUnrecorded`). Where each use case does both or
  neither, the log accounts for every revocation (`AuditTrail.LogAccountsForEveryRevocation`).
* A failed message is described as kept for a retry (README.md:134). Nothing ever sets a row back to
  PENDING (`MessageQueue.NothingIsRetried`).
* The queue is described as strictly first-in first-out (docs/01_system_design.md:140). The order holds
  when every call, publish and poll, is one step (`MessageQueue.RunTotals`). Interleaved, it holds
  exactly unless a poll commits a message that has been overtaken, that is, one that was still pending or
  being inserted when a later one of its topic was handed out
  (`QueueOrder.InOrderExactlyUnlessOvertaken`). Two overlapping polls can do it
  (`QueueOrder.OverlappingPollsOvertake`), and so can a publish that commits late
  (`QueueOrder.LatePublishIsOvertaken`).
* The queue is described as losing nothing (docs/01_system_design.md:140). A message is gone without
  having been handed out exactly when, while it was pending, a transaction on it was applied by a commit
  that threw, or it was acknowledged or failed before it was polled (`QueueOrder.LostExactlyWhen`,
  `QueueOrder.ThrowingCommitLosesMessage`).
* The PKCE state is described as single-use (README.md:68). Lookup and removal are two transactions and
  the answer of the removal is ignored. A verifier is taken twice exactly when some lookup finds a row
  that was taken before and has been neither removed nor replaced
  (`PkceReplay.UsedOnceExactlyUnlessReplayed`): two overlapping callbacks do that although every removal
  takes effect (`PkceReplay.OverlappingCallbacksReplay`), and so does a removal that fails
  (`PkceReplay.FailedRemovalAllowsReplay`). Callbacks that do not overlap, with removals that take
  effect, use each verifier at most once (`PkceReplay.VerifierIsUsedOnce`).
* The count of a bulk revocation is taken before the commit and is wrong exactly when the commit is
  lost with live sessions at hand (`SessionRepository.CountIsTrueUnlessCommitLost`).
* An empty new kid becomes `key-<seconds>`, so two rotations in one second share a kid. The lookup then
  answers with the active key, else the oldest of the newest six that has it
  (`KeyManager.LookupAnswersPreferred`), and goes back to the older of the two at the next rotation
  (`KeyManager.SameSecondRotationsShareKid`).
* A published payload is stored as `jsonb`. A text that is no JSON is not published, and any other is
  polled in its normal form, not as it was published (`MessageQueue.ContentIsKept`).
* An empty Google `sub` is accepted. It breaks `auth_provider` exactly when no user holds the empty id
  and the email belongs to a user or is free (`Accounts.GoogleKeepsLawExactlyWhen`,
  `Accounts.LawfulExactlyUnlessBroken`); a first sign-in does it (`Accounts.EmptyGoogleIdBreaksLaw`).
* Linking overwrites another Google id, so one Google id can reach two users
  (`Accounts.MovedEmailReachesAnotherUser`): exactly when a sign-in strays, as
  `Accounts.OneUserExactlyUnlessStray` spells out. It never does if no link overwrites a Google id
  (`Accounts.OneUserUnlessOverwritten`), or if each Google id comes with one email
  (`Accounts.SameGoogleIdSameUser`).
* A creation that fails for a thread that had slept consumes a wakeup. It leaves a sleeper beside a free
  place with nobody to wake it exactly when others sleep and not one wakeup can be spared
  (`ConnectionPool.CoveredExactlyUnlessUncovered`, `ConnectionPool.FailedCreationLosesWakeup`).
* The deleter provides for a pool that no shared pointer owns, which nothing in the repository builds.
  Such a pool hands out a connection exactly while those leased and those given back are together fewer
  than its maximum (`ConnectionPool.UnmanagedPoolCounts`, `ConnectionPool.DryForever`).

## Model

| member | source | states |
|---|---|---|
| `Base64Url.Encode` | Infrastructure/src/Security/OpenSslCrypto.cpp:198-232 | the block loop prints the base64url digits of each group of three octets and of the short last group, for every length |
| `Base64Url.Decode` | Infrastructure/src/Security/OpenSslCrypto.cpp:234-268 | the wrapping 32-bit accumulator yields the same octets as unbounded arithmetic, and nothing on an invalid character |
| `Base64Url.EncodedShape` | Infrastructure/src/Security/OpenSslCrypto.cpp:198-232 | the text has ceil(4n/3) URL-safe characters, 43 for a digest, no dot and no padding |
| `Base64Url.DecodeOutcome` | Infrastructure/src/Security/OpenSslCrypto.cpp:234-268 | decoding fails exactly when an invalid character precedes the first padding sign, otherwise gives floor(6k/8) octets |
| `Base64Url.RoundTrip` | Infrastructure/src/Security/OpenSslCrypto.cpp:198-268 | decoding an encoding gives back every byte string |
| `Base64Url.ReencodeExactlyWhenCanonical` | Infrastructure/src/Security/OpenSslCrypto.cpp:198-268 | re-encoding a decoded text returns it exactly for canonical texts |
| `Base64Url.GroupIsOneNumber` | Infrastructure/src/Security/OpenSslCrypto.cpp:205-214 | three octets and their four digits are the same 24-bit number |
| `Base64Url.AlphabetIsInverse` | Infrastructure/src/Security/OpenSslCrypto.cpp:198-268 | the printed alphabet and the reading table are inverse to each other |
| `Base64Url.AlphabetInOrder` | Infrastructure/src/Security/OpenSslCrypto.cpp:198-203 | the printed alphabet itself: capital letters, small letters, digits, hyphen and underscore, in this order |
| `Base64Url.DecoderTakes` | Infrastructure/src/Security/OpenSslCrypto.cpp:234-268 | beside it the decoder takes plus and slash for 62 and 63, stops at the equals sign and refuses every other character |
| `KeyManager.RsaKeyManager.constructor` | Infrastructure/src/Security/RsaKeyManager.cpp:9-23 | starts with one key, made of the given pair or of the generated one, and the JWKS text of that key |
| `KeyManager.RsaKeyManager.RotateKey` | Infrastructure/src/Security/RsaKeyManager.cpp:71-97 | the ring becomes the rotation of the old ring with the generated pair under the chosen kid, at most five keys retired, and the cached text follows; every key in it describes its own public half |
| `KeyManager.RsaKeyManager.GetVerificationPublicKeyPem` | Infrastructure/src/Security/RsaKeyManager.cpp:53-64 | the active key first, then the retired keys in order, as the lookup function says |
| `KeyManager.RsaKeyManager.GetJwksJson` | Infrastructure/src/Security/RsaKeyManager.cpp:66-69 | the cached text is always the text of the present ring, each key of which has its own kid, modulus and exponent |
| `KeyManager.RsaKeyManager.RebuildJwksJson` | Infrastructure/src/Security/RsaKeyManager.cpp:99-124 | the loop writes the active key and then every retired key, comma-separated |
| `KeyManager.RotationsKeepNewest` | Infrastructure/src/Security/RsaKeyManager.cpp:71-97 | after any rotations the ring holds exactly the newest min(n+1, 6) keys in order |
| `KeyManager.RingHoldsSix` | Infrastructure/src/Security/RsaKeyManager.cpp:71-97 | in numbers: the last key rotated in is active and the five before it, or as many as there are, are retired, in order |
| `KeyManager.RecordIsExact` | Infrastructure/src/Security/RsaKeyManager.cpp:25-51 | a key keeps the pair it was made of, and its published n and e are modulus and exponent of its own public half |
| `KeyManager.ChosenKidIsExact` | Infrastructure/src/Security/RsaKeyManager.cpp:76-80 | a given kid is taken; an empty one becomes the seconds in decimal behind `key-` |
| `KeyManager.LookupAnswersWindow` | Infrastructure/src/Security/RsaKeyManager.cpp:53-97 | with distinct kids a key is answered for exactly while it is among the newest six |
| `KeyManager.LookupRefusesOthers` | Infrastructure/src/Security/RsaKeyManager.cpp:53-64 | a kid that was never rotated in is never answered for |
| `KeyManager.LookupAnswersPreferred` | Infrastructure/src/Security/RsaKeyManager.cpp:53-64 | whatever kids repeat, the answer is the active key's if it has the kid, else that of the oldest of the newest six that has it, and none exactly when none has |
| `KeyManager.SameSecondRotationsShareKid` | Infrastructure/src/Security/RsaKeyManager.cpp:71-97 | two rotations without a kid in one second share one: it names the newer key until the next rotation and the older one after it |
| `Jwks.JwksRoundTrip` | Infrastructure/src/Security/RsaKeyManager.cpp:99-124 | the published text parses back to the active key followed by the retired keys |
| `Jwks.RingReadsBack` | Infrastructure/src/Security/RsaKeyManager.cpp:99-124 | the document of any ring reads as its keys, the active one first, each with type, use, algorithm, kid, modulus and exponent of its own |
| `Jwks.PublishedAfterRotations` | Infrastructure/src/Security/RsaKeyManager.cpp:25-124 | after any rotations the published set reads as the newest six generated pairs, in order, each under its kid with its own modulus and exponent |
| `Jwks.PublishedKidsAnswer` | Infrastructure/src/Security/RsaKeyManager.cpp:53-124 | the kids of the published set are exactly those the lookup answers for |
| `Jwt.SegmentsExact` | Infrastructure/src/Security/JwtService.cpp:63-80 | three dot-free texts joined by dots split into exactly themselves |
| `Jwt.SegmentsJoin` | Infrastructure/src/Security/JwtService.cpp:63-80 | whatever splits into three segments is their join and no segment has a dot |
| `Jwt.IssuedClaimsPass` | Infrastructure/src/Security/JwtService.cpp:136-196 | the claims of an issued token come back unchanged between nbf and exp |
| `Jwt.IssuedTokenValidates` | Infrastructure/src/Security/JwtService.cpp:17-196 | what validation says of an issued token, in terms of the key lookup alone |
| `Jwt.TokenLifetime` | Infrastructure/src/Security/JwtService.cpp:17-196 | a token validates to its own claims from iat to exp for up to five rotations, and its key is unknown after the sixth, for all times that fit 64 bits |
| `Jwt.ValidatedTokenIsSigned` | Infrastructure/src/Security/JwtService.cpp:63-196 | whatever validates carries a signature of its first two segments under a key of the ring, in its time bounds |
| `Jwt.AcceptedExactlyWhen` | Infrastructure/src/Security/JwtService.cpp:63-196 | for every token: it is accepted with these claims exactly when it is three segments, its RS256 header names a key of the ring that verifies the signature, its payload says these claims, issuer and audience match, and now is in its time bounds |
| `Jwt.RefusedForItsReason` | Infrastructure/src/Security/JwtService.cpp:63-196 | every refusal is true of the token, and none about the payload comes before the signature has verified |
| `Jwt.IssuedTokenIsSigned` | Infrastructure/src/Security/JwtService.cpp:17-61 | an issued token carries the claims as given under an RS256 JWT header and the active key's signature, or there is none because signing failed |
| `Authentication.ChecksFollowTheSession` | Presentation/src/Common/HttpResponseHelper.cpp:756-779 | the jti check and the session check together say what the session row alone says, or its absence, for tokens of any rotation |
| `Authentication.IssuedTokenAuthenticates` | Presentation/src/Common/HttpResponseHelper.cpp:737-790 | end to end, the answer to a request with an issued token at any time, after any rotations, in any well-formed tables where its jti is its session's or nobody's |
| `Authentication.IssuedTokensOwnTheirSession` | Presentation/src/Common/HttpResponseHelper.cpp:756-779 | in every state that interleaved, failing requests can reach, that holds for every token issued so far |
| `Authentication.ReachableTokenAuthenticates` | Presentation/src/Common/HttpResponseHelper.cpp:737-790 | so the same end to end for every issued token in every reachable state, a lost login's token included |
| `Authentication.AuthenticatedExactlyWhen` | Presentation/src/Common/HttpResponseHelper.cpp:737-790 | for every header and all well-formed tables: a request is answered with a user exactly when the header bears an acceptable token, no revoked session has its jti, its session is stored, unrevoked and unexpired, and the user is its subject's active account with that account's role |
| `Authentication.DeniedForItsReason` | Presentation/src/Common/HttpResponseHelper.cpp:744-779 | every denial is true of the request, and a refused token is answered with that very refusal |
| `SessionTables.FindIsUnique` | Infrastructure/src/Persistence/PostgresSessionRepository.cpp:54-94 | an id or jti names at most one session |
| `SessionTables.InsertKeeps` | Infrastructure/src/Persistence/PostgresSessionRepository.cpp:22-52 | a new session keeps jtis unique and the fast table a shadow of revoked sessions |
| `SessionTables.RotateKeeps` | Infrastructure/src/Persistence/PostgresSessionRepository.cpp:328-357 | rotating a live session keeps the tables well-formed, so a listed jti is frozen |
| `SessionTables.RevokeKeeps` | Infrastructure/src/Persistence/PostgresSessionRepository.cpp:359-447 | revoking any set of sessions keeps the tables well-formed |
| `SessionTables.RevokedEntry` | Infrastructure/src/Persistence/PostgresSessionRepository.cpp:359-447 | every entry of the fast table is old, or belongs to a session just revoked |
| `SessionTables.ListOneMore` | Infrastructure/src/Persistence/PostgresSessionRepository.cpp:424-437 | one iteration of the listing loop never meets a conflict and adds exactly one entry |
| `SessionTables.CleanupKeeps` | Infrastructure/src/Persistence/PostgresSessionRepository.cpp:499-510 | removing expired entries keeps the tables well-formed |
| `SessionTables.ListedExactlyWhenRevoked` | Infrastructure/src/Persistence/PostgresSessionRepository.cpp:449-471 | a jti is reported exactly when the session that has it is revoked |
| `SessionTables.CleanupChangesNoAnswer` | Infrastructure/src/Persistence/PostgresSessionRepository.cpp:449-510 | a clean-up at any time changes no answer of isTokenRevoked |
| `SessionTables.BulkRevocationIsExact` | Infrastructure/src/Persistence/PostgresSessionRepository.cpp:406-447 | a bulk revocation marks exactly the user's live sessions with moment and reason, counts what it newly revokes and leaves all others as they were |
| `SessionTables.BulkListingIsExact` | Infrastructure/src/Persistence/PostgresSessionRepository.cpp:424-437 | and lists exactly their jtis until their expiry, leaving what was listed |
| `SessionTables.OneRevocationIsExact` | Infrastructure/src/Persistence/PostgresSessionRepository.cpp:359-404 | a revocation by id or jti succeeds exactly for a live session, marks that row with moment and reason and lists its jti, and touches nothing else |
| `SessionTables.CleanupIsExact` | Infrastructure/src/Persistence/PostgresSessionRepository.cpp:499-510 | a clean-up keeps exactly the entries that have not expired |
| `SessionTables.EitherTableReports` | Infrastructure/src/Persistence/PostgresSessionRepository.cpp:449-471 | in any tables either of the two lookups is enough to report a jti |
| `SessionRepository.PostgresSessionRepository.CreateSession` | Infrastructure/src/Persistence/PostgresSessionRepository.cpp:22-52 | new tables and answered id, also when the commit throws after the id was read; nothing when address, device or client type do not fit |
| `SessionRepository.CreateIsExact` | Infrastructure/src/Persistence/PostgresSessionRepository.cpp:22-52 | no id is answered exactly on an early fault or a jti in use, and the row is stored exactly if an id is answered and the insert applied |
| `SessionRepository.PostgresSessionRepository.FindById` | Infrastructure/src/Persistence/PostgresSessionRepository.cpp:54-94 | answers the one session with that id or jti |
| `SessionRepository.PostgresSessionRepository.FindByRefreshTokenHash` | Infrastructure/src/Persistence/PostgresSessionRepository.cpp:138-208 | a current hash wins over a previous one, which is answered as a session revoked for reuse |
| `SessionRepository.PostgresSessionRepository.UpdateRefreshToken` | Infrastructure/src/Persistence/PostgresSessionRepository.cpp:328-357 | rotates a live session only, and nothing on a jti collision |
| `SessionRepository.PostgresSessionRepository.RevokeSession` | Infrastructure/src/Persistence/PostgresSessionRepository.cpp:359-404 | marks the session and lists its jti in one transaction, or does nothing, as for a reason too long for its column |
| `SessionRepository.PostgresSessionRepository.RevokeAllUserSessions` | Infrastructure/src/Persistence/PostgresSessionRepository.cpp:406-447 | marks and lists every live session of the user, and answers their number; nothing for a reason too long |
| `SessionRepository.PostgresSessionRepository.ListRevocations` | Infrastructure/src/Persistence/PostgresSessionRepository.cpp:424-437 | the insertion loop ends with the same entries in whatever order it visits the rows |
| `SessionRepository.PostgresSessionRepository.IsTokenRevoked` | Infrastructure/src/Persistence/PostgresSessionRepository.cpp:449-471 | the fast table first, then the sessions; false on failure |
| `SessionRepository.PostgresSessionRepository.CleanupExpiredRevocations` | Infrastructure/src/Persistence/PostgresSessionRepository.cpp:499-510 | removes only expired entries of the fast table |
| `SessionRepository.CountIsTrueUnlessCommitLost` | Infrastructure/src/Persistence/PostgresSessionRepository.cpp:406-447 | the reported count is wrong exactly when a fitting revocation's commit was lost with live sessions at hand |
| `RevocationProtocol.InvRun` | Infrastructure/src/Persistence/PostgresSessionRepository.cpp:22-510 | the invariant of every run of interleaved, failing calls |
| `RevocationProtocol.ReportedExactlyWhenRevoked` | Infrastructure/src/Persistence/PostgresSessionRepository.cpp:359-471 | in every reachable state a jti is reported exactly when its session is revoked |
| `RevocationProtocol.CleanupsAreInvisible` | Infrastructure/src/Persistence/PostgresSessionRepository.cpp:499-510 | leaving every clean-up out of a run changes no event, no session and no answer |
| `RevocationProtocol.RevocationIsForever` | Presentation/src/Common/HttpResponseHelper.cpp:758-771 | once revoked, a session's row never changes, no token is issued for it, no refresh of it succeeds, and its tokens admit no request that had not passed its session lookup |
| `RevocationProtocol.StepSealed` | Infrastructure/src/Persistence/PostgresSessionRepository.cpp:339-352 | the same for one step of any request |
| `ProtocolRequests.AuthReads` | Presentation/src/Common/HttpResponseHelper.cpp:758-779 | what each of the three reads of an authentication decides; a failed one refuses, except that of the revoked tokens |
| `ProtocolRequests.RefreshLookupReads` | Application/src/UseCases/AuthUseCases.cpp:251-278 | a refresh goes on from its lookup exactly with a live, unexpired holder of its hash |
| `ProtocolRequests.RefreshUserReads` | Application/src/UseCases/AuthUseCases.cpp:280-285 | and from there exactly if the session's user is active |
| `ProtocolRequests.AuthAlone` | Presentation/src/Common/HttpResponseHelper.cpp:737-790 | an authentication with nothing in between passes its checks exactly as the one-step function says |
| `ProtocolRequests.RefreshAlone` | Application/src/UseCases/AuthUseCases.cpp:241-337 | a refresh with nothing in between leaves the tables of the use case, and succeeds exactly when that answers with tokens |
| `ProtocolRequests.UpdateAlone` | Application/src/UseCases/AuthUseCases.cpp:287-337 | its last step is the rotation of the use case, and issues exactly the token that this answers with |
| `ProtocolRequests.LoginAlone` | Application/src/UseCases/AuthUseCases.cpp:172-239 | a sign-in is one step that leaves the tables of the use case, and issues exactly the token that this answers with |
| `ProtocolRequests.CallsAlone` | Infrastructure/src/Persistence/PostgresSessionRepository.cpp:359-510 | a revocation or a clean-up of the runs is that one call of the repository, and changes the tables only |
| `ProtocolRequests.InactiveIsRefused` | Presentation/src/Common/HttpResponseHelper.cpp:773-779 | over every interleaved, failing run, from the moment a user is deactivated until the account is activated again, no request is authenticated for a session of that user |
| `RefreshRaces.SucceedTwiceExactlyWhenStale` | Application/src/UseCases/AuthUseCases.cpp:241-337 | in every run whose applied updates are all reported, two refreshes succeed with one hash exactly when some update writes over a hash its request did not look up |
| `RefreshRaces.SucceedTwiceOnlyWhenStale` | Application/src/UseCases/AuthUseCases.cpp:241-337 | in every run, unreported updates included, two refreshes succeed with one hash only if some update writes over a hash its request did not look up |
| `RefreshRaces.SucceedTwiceExactlyWhenAgain` | Application/src/UseCases/AuthUseCases.cpp:241-337 | in every run, exactly when such a write succeeds over an update that was reported |
| `RefreshRaces.SpentTwiceExactlyWhenStale` | Application/src/UseCases/AuthUseCases.cpp:241-337 | in every run a hash rotates its session twice exactly when some update writes over a hash it did not look up, reported or not |
| `RefreshRaces.UpdateTells` | Infrastructure/src/Persistence/PostgresSessionRepository.cpp:328-357 | what one update does to table, log and spent hashes, in terms of the state before it |
| `RefreshRaces.HashCanBeSpentTwice` | Application/src/UseCases/AuthUseCases.cpp:251-297 | a run in which two refreshes with one token both succeed |
| `UseCases.LookupIsUnique` | Infrastructure/src/Persistence/PostgresSessionRepository.cpp:138-208 | with distinct hashes the lookup has one answer |
| `UseCases.InsertKeepsHashes` | Infrastructure/src/Persistence/PostgresSessionRepository.cpp:22-52 | a session with a new hash keeps all current and previous hashes different |
| `UseCases.RotateKeepsHashes` | Infrastructure/src/Persistence/PostgresSessionRepository.cpp:339-352 | so does rotating to a new hash |
| `UseCases.AuthUseCases.Login` | Application/src/UseCases/AuthUseCases.cpp:95-239 | arrives at the state, audit log and reply of the login function, whichever of its writes fail; `DeskReplies.SignInAnswers` says what these are |
| `UseCases.AuthUseCases.LoginWithGoogle` | Application/src/UseCases/AuthUseCases.cpp:483-554 | the same for the part of a Google sign-in after the account is known |
| `UseCases.AuthUseCases.Refresh` | Application/src/UseCases/AuthUseCases.cpp:241-337 | the same for a refresh, reuse alarm included |
| `UseCases.AuthUseCases.Logout` | Application/src/UseCases/AuthUseCases.cpp:339-364 | the same for a logout |
| `UseCases.AuthUseCases.LogoutAll` | Application/src/UseCases/AuthUseCases.cpp:366-384 | the same for a logout everywhere |
| `UseCases.SessionUseCases.RevokeUserSession` | Application/src/UseCases/SessionUseCases.cpp:72-115 | the same for a user's own revocation, with its owner check |
| `UseCases.SessionUseCases.RevokeAdminSession` | Application/src/UseCases/SessionUseCases.cpp:148-187 | the same for an administrator's revocation, which is recorded whether or not it took effect, as with a reason too long |
| `UseCases.SessionUseCases.RevokeAllUserSessionsAdmin` | Application/src/UseCases/SessionUseCases.cpp:189-217 | the same for an administrator's bulk revocation |
| `UseCases.PostgresAuditLogRepository.Record` | Infrastructure/src/Persistence/PostgresAuditLogRepository.cpp:9-31 | appends one entry and keeps the others; a failed insert leaves no entry and no error |
| `DeskRuns.StepShape` | Application/src/UseCases/AuthUseCases.cpp:95-384 | every use case opens, turns, closes, closes all, or does none of it, as its effect function says from the state before it; each effect tells apart whether the sessions changed and whether the entry is there |
| `DeskRuns.SignInShape` | Application/src/UseCases/AuthUseCases.cpp:95-239 | a sign-in of an active user whose password matched opens one session of 7 days (30 with Google), stored exactly when it fits its columns and the insert is applied, recorded exactly when it was answered and the entry is stored; any other opens nothing |
| `DeskRuns.NamedShape` | Application/src/UseCases/SessionUseCases.cpp:72-187 | a named revocation closes the one session found, unless not permitted, not the owner's, or revoked before; exactly which of revocation and entry take effect, for every failure and reason |
| `DeskRuns.BulkShape` | Application/src/UseCases/SessionUseCases.cpp:189-217 | a bulk revocation, if permitted, closes exactly the user's sessions or none, and is recorded or not, as write, reason and address decide |
| `DeskRuns.RefreshShape` | Application/src/UseCases/AuthUseCases.cpp:241-337 | which effect a refresh has, from what its lookup answers and whether its write is applied: it turns one live session, closes all of one user's, or changes nothing |
| `DeskRuns.HashesStayDistinct` | Application/src/UseCases/AuthUseCases.cpp:241-337 | over every run all current and previous hashes stay pairwise different |
| `DeskReplies.SignInAnswers` | Application/src/UseCases/AuthUseCases.cpp:95-239 | a sign-in answers with the drawn id, jti and refresh token for 900 seconds exactly for a known, active user whose password matched, if its insert has no early fault; otherwise with 401, 403, 400 or 500 by cause; the log gets ACCOUNT_LOCKED from the fifth failure on, then LOGIN_FAILURE, and a session of 7 or 30 days is stored exactly if the insert is applied |
| `DeskReplies.RefreshAnswers` | Application/src/UseCases/AuthUseCases.cpp:241-337 | status, entry and tables of every refresh by what its lookup answers: blank, unknown, reused, expired, user inactive, update failed, or rotated with the row it leaves |
| `DeskReplies.LogoutAnswers` | Application/src/UseCases/AuthUseCases.cpp:339-364 | a logout is done and recorded exactly when it revokes a live session and the call reports it; otherwise 404 without an entry |
| `DeskReplies.RevokeOwnAnswers` | Application/src/UseCases/SessionUseCases.cpp:72-115 | 404, 403 and already-revoked change nothing; otherwise done and recorded, and the session marked if the write is applied |
| `DeskReplies.AdminRevokeAnswers` | Application/src/UseCases/SessionUseCases.cpp:148-187 | 403 and 404 change nothing; otherwise done and recorded for whatever session is found, marked with the given or the default reason if that fits and the write is applied |
| `DeskReplies.BulkAnswers` | Application/src/UseCases/SessionUseCases.cpp:189-217 | reply, entry and reason of a bulk revocation, or 403 and nothing |
| `DeskReplies.Fitting` | migrations/002_auth_sessions_schema.sql:39-42 | which addresses, devices and client types fit: 100, 150 and 50 characters, blanks aside |
| `DeskReplies.ReasonFits` | migrations/002_auth_sessions_schema.sql:38 | which reasons fit: 255 characters, blanks aside |
| `DeskReplies.InactiveGetsNoTokens` | Application/src/UseCases/AuthUseCases.cpp:119-285 | over every run a deactivated user gets no tokens, by sign-in or refresh, until the account is activated again |
| `RefreshLineage.RefinesFromStart` | Application/src/UseCases/AuthUseCases.cpp:241-337 | every run from an empty table refines its full token histories, and every refresh is answered as the history says |
| `RefreshLineage.RunRefines` | Application/src/UseCases/AuthUseCases.cpp:241-337 | the same from any refined state: the two columns stay an image of the full token history |
| `RefreshLineage.RefineRefresh` | Application/src/UseCases/AuthUseCases.cpp:241-337 | the same for one refresh: newest token works, the one before or a revoked session's raises the alarm, others nothing |
| `RefreshLineage.RefineStep` | Application/src/UseCases/AuthUseCases.cpp:95-384 | every use case keeps the history an abstraction of the table |
| `RefreshLineage.LookupSees` | Infrastructure/src/Persistence/PostgresSessionRepository.cpp:138-208 | what two columns can see of a token, by its distance from the newest |
| `RefreshLineage.OnlyNewestTokenWorks` | Application/src/UseCases/AuthUseCases.cpp:251-297 | a refresh succeeds exactly when it presents the newest token of a live session of an active user and its update succeeds |
| `RefreshLineage.StrangerChangesNothing` | Infrastructure/src/Persistence/PostgresSessionRepository.cpp:153-192 | an unknown token, or one rotated away before the last rotation, changes nothing |
| `RefreshLineage.TwiceRotatedRaisesNoAlarm` | Infrastructure/src/Persistence/PostgresSessionRepository.cpp:153-192 | after any sign-in and two refreshes the first token, presented again, is rejected and changes nothing: no alarm, and the session stays live |
| `RefreshLineage.SuccessSpends` | Application/src/UseCases/AuthUseCases.cpp:288-297 | a success spends a token that had not been spent |
| `RefreshLineage.SpentNeverWorks` | Application/src/UseCases/AuthUseCases.cpp:241-337 | a spent token never succeeds again in any continuation |
| `RefreshLineage.NoTokenIsExchangedTwice` | Application/src/UseCases/AuthUseCases.cpp:241-337 | no raw refresh token is exchanged twice in any run of whole use cases |
| `RefreshLineage.OneTimeFromStart` | Application/src/UseCases/AuthUseCases.cpp:241-337 | the same from an empty table |
| `AuditTrail.AgreeExactlyUnlessMisrecorded` | Application/src/UseCases/SessionUseCases.cpp:72-217 | over every run with failing writes, after each use case a session is revoked exactly when the log ends it, exactly unless some use case revokes a live session that its entry does not end, or the other way round |
| `AuditTrail.AgreesStep` | Application/src/UseCases/SessionUseCases.cpp:164-184 | the same for one use case |
| `AuditTrail.EndedOneMore` | Infrastructure/src/Persistence/PostgresAuditLogRepository.cpp:9-31 | which sessions one more entry ends: those it names by id or jti, or its user's whose sign-in entry is there |
| `AuditTrail.LongReasonRecordsLiveSession` | Application/src/UseCases/SessionUseCases.cpp:167-184 | a run in which nothing fails but an over-long reason: the log ends a session that stays live |
| `AuditTrail.LongAddressRevokesUnrecorded` | Infrastructure/src/Persistence/PostgresAuditLogRepository.cpp:9-31 | a run in which nothing fails but an over-long forwarded address: a session is revoked and the log does not say so |
| `AuditTrail.LogAccountsForEveryRevocation` | Application/src/UseCases/AuthUseCases.cpp:254-384 | after every run whose use cases each take effect and are recorded, or neither, a session is revoked exactly when the log has an entry that names it, or ends all of its owner's after its sign-in |
| `AuditTrail.BulkReportsExactly` | Application/src/UseCases/AuthUseCases.cpp:366-384 | a bulk use case that takes effect ends all of the user's sessions, otherwise it changes none; its count is that of the newly revoked exactly unless its commit was lost with live sessions at hand |
| `ConnectionPool.PostgresDb.GetConnection` | Infrastructure/src/Persistence/PostgresDb.cpp:62-110 | pool, counter, outcome and notification of the code after the wait, on every path |
| `ConnectionPool.PostgresDb.ReturnConnection` | Infrastructure/src/Persistence/PostgresDb.cpp:112-124 | an open connection goes back, a closed one leaves the count |
| `ConnectionPool.AcquireCounted` | Infrastructure/src/Persistence/PostgresDb.cpp:62-110 | a connection handed out was leased to nobody, and the count stays right on every exception path |
| `ConnectionPool.ReturnCounted` | Infrastructure/src/Persistence/PostgresDb.cpp:112-124 | giving back keeps every connection counted once |
| `ConnectionPool.GuardsAreTrue` | Infrastructure/src/Persistence/PostgresDb.cpp:82-121 | both tests for a positive count are always true |
| `ConnectionPool.AcquireFree` | Infrastructure/src/Persistence/PostgresDb.cpp:62-110 | a lease takes one free place and no failure takes any |
| `ConnectionPool.AcquireTakes` | Infrastructure/src/Persistence/PostgresDb.cpp:62-110 | a connection handed out is the last idle one or a new one, and leaves the others and the count in step |
| `ConnectionPool.AcquireLeases` | Infrastructure/src/Persistence/PostgresDb.cpp:68-93 | the handle at hand is leased if it is open, else the reconnected one; none exactly when the creation or reconnection that is needed fails |
| `ConnectionPool.ReturnKeepsOpenOnly` | Infrastructure/src/Persistence/PostgresDb.cpp:112-124 | an open connection given back is the next to be handed out, a closed one is not kept and leaves the count |
| `ConnectionPool.EveryLeaseIsOpen` | Infrastructure/src/Persistence/PostgresDb.cpp:62-124 | in every run, whichever connections the server drops at whatever moment, each connection is open when it is leased and goes to the thread of that step, and no open connection is forgotten |
| `ConnectionPool.WithinStep` | Infrastructure/src/Persistence/PostgresDb.cpp:62-126 | with any number of spare wakeups, one step uses up more than there are exactly when a creation fails for a thread that slept with none to spare |
| `ConnectionPool.CoveredStep` | Infrastructure/src/Persistence/PostgresDb.cpp:62-126 | one step leaves a sleeper uncovered exactly at such a failure |
| `ConnectionPool.CoveredExactlyUnlessUncovered` | Infrastructure/src/Persistence/PostgresDb.cpp:62-126 | in every run, managed or not, every state is covered exactly unless some step is such a failure |
| `ConnectionPool.AwakeStep` | Infrastructure/src/Persistence/PostgresDb.cpp:62-126 | no step lets a sleeper have fewer wakeups under way or lost than there are free places |
| `ConnectionPool.PoolInvariant` | Infrastructure/src/Persistence/PostgresDb.cpp:62-126 | under every interleaving the counter is idle plus leased connections, within the maximum, none leased twice |
| `ConnectionPool.NoLostWakeup` | Infrastructure/src/Persistence/PostgresDb.cpp:62-126 | in a run where no creation fails for a thread that slept, wakeups under way cover the free places, and with none under way all connections are leased |
| `ConnectionPool.FailedCreationLosesWakeup` | Infrastructure/src/Persistence/PostgresDb.cpp:73-80 | one such failure leaves a sleeper beside a free place |
| `ConnectionPool.UnmanagedPoolCounts` | Infrastructure/src/Persistence/PostgresDb.cpp:96-109 | a pool without a shared owner hands out exactly while leased and given-back connections are fewer than its maximum |
| `ConnectionPool.DryForever` | Infrastructure/src/Persistence/PostgresDb.cpp:96-109 | once the maximum has been given back nobody ever gets a connection again |
| `ConnectionPool.UnmanagedPoolRunsDry` | Infrastructure/src/Persistence/PostgresDb.cpp:96-109 | a run that ends so |
| `MessageQueue.PostgresMessageQueueRepository.PublishMessage` | Infrastructure/src/Persistence/PostgresMessageQueueRepository.cpp:10-36 | one new pending row with the normal form of the payload, and its id; 0 when the transaction failed, and nothing for a text that is no JSON |
| `MessageQueue.PostgresMessageQueueRepository.PollNext` | Infrastructure/src/Persistence/PostgresMessageQueueRepository.cpp:38-80 | the first pending row becomes processing and is answered, unless the commit throws |
| `MessageQueue.PostgresMessageQueueRepository.AcknowledgeMessage` | Infrastructure/src/Persistence/PostgresMessageQueueRepository.cpp:82-96 | completes a row of any status |
| `MessageQueue.PostgresMessageQueueRepository.FailMessage` | Infrastructure/src/Persistence/PostgresMessageQueueRepository.cpp:98-112 | fails a row of any status and counts one retry |
| `MessageQueue.PostgresMessageQueueRepository.GetMetrics` | Infrastructure/src/Persistence/PostgresMessageQueueRepository.cpp:114-143 | one entry for each topic with a row, in the database's order, with its four counts; nothing on failure |
| `MessageQueue.HeadIsFirst` | Infrastructure/src/Persistence/PostgresMessageQueueRepository.cpp:48-54 | a poll takes the smallest pending id of the topic and finds one if there is any |
| `MessageQueue.PollIsExact` | Infrastructure/src/Persistence/PostgresMessageQueueRepository.cpp:38-80 | a poll marks the smallest waiting id as being processed now and answers with that very row, or there is none waiting |
| `MessageQueue.SettlingIsExact` | Infrastructure/src/Persistence/PostgresMessageQueueRepository.cpp:82-112 | an acknowledged row is completed now, a failed one is failed with one more retry; other rows stay |
| `MessageQueue.SettledIsCounted` | Infrastructure/src/Persistence/PostgresMessageQueueRepository.cpp:82-126 | an acknowledged message is counted as completed and a failed one as failed, and leaves the count it was in |
| `MessageQueue.PolledIsCounted` | Infrastructure/src/Persistence/PostgresMessageQueueRepository.cpp:10-126 | a published message is counted as pending and a polled one moves from pending to processing |
| `MessageQueue.RunTotals` | Infrastructure/src/Persistence/PostgresMessageQueueRepository.cpp:10-143 | over every run delivered ids increase, the four counts sum to what was published, retry counts are the successful failures |
| `MessageQueue.InvStep` | Infrastructure/src/Persistence/PostgresMessageQueueRepository.cpp:10-112 | every call keeps order and balance of published, delivered and settled messages |
| `MessageQueue.StatusesPartition` | Infrastructure/src/Persistence/PostgresMessageQueueRepository.cpp:119-126 | the four counts add up to the rows of the topic |
| `MessageQueue.DrainedByExactly` | Infrastructure/src/Persistence/PostgresMessageQueueRepository.cpp:38-80 | n waiting messages are drained by exactly n polls |
| `MessageQueue.RemainingPolls` | Infrastructure/src/Persistence/PostgresMessageQueueRepository.cpp:10-80 | after any run without early settlements, exactly the published and undelivered messages can still be polled |
| `MessageQueue.ContentIsKept` | Infrastructure/src/Persistence/PostgresMessageQueueRepository.cpp:14-77 | a text that is no JSON changes nothing; after any other publish and any run, topic and stored payload are still the topic and the payload's normal form, and a poll that answers the message answers exactly these |
| `MessageQueue.NothingIsRetried` | Infrastructure/src/Persistence/PostgresMessageQueueRepository.cpp:98-112 | a row that has left PENDING never returns to it |
| `QueueWorkers.EachMessageOnce` | Infrastructure/src/Persistence/PostgresMessageQueueRepository.cpp:38-112 | under every interleaving no two workers work on one row and each message is handed out at most once |
| `QueueWorkers.InvStep` | Infrastructure/src/Persistence/PostgresMessageQueueRepository.cpp:38-112 | each lock, commit, rollback and throwing commit keeps that |
| `QueueWorkers.AloneIsOneCall` | Infrastructure/src/Persistence/PostgresMessageQueueRepository.cpp:10-112 | a transaction with no other open does from begin to commit what the whole call does, rows, ids and answer |
| `QueueWorkers.NothingMeansAllLocked` | Infrastructure/src/Persistence/PostgresMessageQueueRepository.cpp:44-63 | a poll finds nothing exactly when every pending row of the topic is locked by another worker |
| `QueueOrder.InOrderExactlyUnlessOvertaken` | Infrastructure/src/Persistence/PostgresMessageQueueRepository.cpp:10-80 | for every interleaving, the ids handed out of a topic increase exactly unless a poll commits a message that was still coming when a later one was handed out |
| `QueueOrder.OrderStep` | Infrastructure/src/Persistence/PostgresMessageQueueRepository.cpp:38-80 | the same for one step |
| `QueueOrder.LostExactlyWhen` | Infrastructure/src/Persistence/PostgresMessageQueueRepository.cpp:38-112 | for every interleaving, a message is gone without having been handed out exactly when a commit on it threw but applied, or it was settled before it was polled; a lost message stays lost |
| `QueueOrder.ThrowingCommitLosesMessage` | Infrastructure/src/Persistence/PostgresMessageQueueRepository.cpp:74-79 | a run that loses a message |
| `QueueOrder.OverlappingPollsOvertake` | Infrastructure/src/Persistence/PostgresMessageQueueRepository.cpp:38-80 | a run in which two overlapping polls hand out the later id first, though every publish commits at once |
| `QueueOrder.LatePublishIsOvertaken` | Infrastructure/src/Persistence/PostgresMessageQueueRepository.cpp:10-36 | a run in which a publish that commits late is overtaken |
| `Accounts.PostgresUserRepository.FindByEmail` | Infrastructure/src/Persistence/PostgresUserRepository.cpp:62-83 | answers the one user with that email |
| `Accounts.PostgresUserRepository.FindByGoogleId` | Infrastructure/src/Persistence/PostgresUserRepository.cpp:85-106 | answers the one user with that Google id |
| `Accounts.PostgresUserRepository.CreateUser` | Infrastructure/src/Persistence/PostgresUserRepository.cpp:108-136 | one new user, or none and no id on a unique-index conflict |
| `Accounts.PostgresUserRepository.LinkAccount` | Infrastructure/src/Persistence/PostgresUserRepository.cpp:138-161 | sets Google id and provider, or nothing when another user has the id |
| `Accounts.PostgresUserRepository.StorePassword` | Infrastructure/src/Persistence/PostgresUserRepository.cpp:163-183 | sets password and provider |
| `Accounts.AccountUseCases.RegisterUser` | Application/src/UseCases/AuthUseCases.cpp:42-93 | arrives at the table and outcome of the registration function |
| `Accounts.AccountUseCases.LoginWithGoogle` | Application/src/UseCases/AuthUseCases.cpp:431-487 | the same for finding, linking or creating the account of a Google profile |
| `Accounts.AccountUseCases.SetUserPassword` | Application/src/UseCases/AuthUseCases.cpp:591-629 | the same for adding a password |
| `Accounts.RegisterKeeps` | Application/src/UseCases/AuthUseCases.cpp:42-93 | registration keeps emails and Google ids unique and providers truthful |
| `Accounts.PasswordKeeps` | Infrastructure/src/Persistence/PostgresUserRepository.cpp:163-183 | so does adding a password |
| `Accounts.GoogleKeepsUnique` | Application/src/UseCases/AuthUseCases.cpp:438-481 | a Google sign-in keeps emails and Google ids unique |
| `Accounts.GoogleKeepsLawExactlyWhen` | Application/src/UseCases/AuthUseCases.cpp:438-481 | a sign-in breaks the provider law exactly when its Google id is empty, no user holds the empty id, and the email belongs to a user or is free |
| `Accounts.LawfulExactlyUnlessBroken` | Application/src/UseCases/AuthUseCases.cpp:438-481 | over every run all providers are right all along exactly unless some sign-in does that |
| `Accounts.EmptyGoogleIdBreaksLaw` | Application/src/UseCases/AuthUseCases.cpp:438-481 | a run of one sign-in that does it |
| `Accounts.RunKeeps` | Application/src/UseCases/AuthUseCases.cpp:42-93 | over every run emails and Google ids stay unique, and without empty Google ids every provider is right and every user has a credential |
| `Accounts.OneUserExactlyUnlessStray` | Application/src/UseCases/AuthUseCases.cpp:438-481 | over every run each Google id has reached one user exactly unless some sign-in strays: the id reached somebody else before, and its holder, else the holder of the email, is another active user, or the email is free |
| `Accounts.StrayStep` | Infrastructure/src/Persistence/PostgresUserRepository.cpp:138-161 | the same for one step |
| `Accounts.OneUserUnlessOverwritten` | Infrastructure/src/Persistence/PostgresUserRepository.cpp:138-161 | over every run in which no link overwrites a user's Google id, each Google id has reached one user |
| `Accounts.SameGoogleIdSameUser` | Application/src/UseCases/AuthUseCases.cpp:438-481 | if each Google id always comes with one email, all its sign-ins reach one user |
| `Accounts.MovedEmailReachesAnotherUser` | Application/src/UseCases/AuthUseCases.cpp:438-481 | without that premise a run where one Google id reaches two users |
| `AccountReplies.RegisterAnswers` | Application/src/UseCases/AuthUseCases.cpp:42-93 | a valid registration makes an active local user with the given hash exactly if nobody has the email in any case; otherwise 400, 409 or 500 and nothing changes |
| `AccountReplies.GoogleAnswers` | Application/src/UseCases/AuthUseCases.cpp:431-487 | a Google sign-in reaches the holder of its id, else links the holder of its email, else makes an active user, with exactly these columns; an inactive user is refused |
| `AccountReplies.PasswordAnswers` | Application/src/UseCases/AuthUseCases.cpp:591-629 | a password of at least 8 characters of a known user is stored hashed with the provider that follows; otherwise 400 or 404 |
| `AccountReplies.StepsAreUseCases` | Application/src/UseCases/AuthUseCases.cpp:42-629 | a step of an account run is its use case, and logs the user a Google sign-in reached; activation changes one user only |
| `PkceCache.PostgresCacheRepository.Lookup` | Infrastructure/src/Persistence/PostgresCacheRepository.cpp:10-40 | answers live rows only, with an expiry counted from now |
| `PkceCache.PostgresCacheRepository.Store` | Infrastructure/src/Persistence/PostgresCacheRepository.cpp:42-67 | writes or overwrites the row, or nothing for a key too long for its column |
| `PkceCache.PostgresCacheRepository.Remove` | Infrastructure/src/Persistence/PostgresCacheRepository.cpp:69-80 | removes exactly that row |
| `PkceCache.PostgresCacheRepository.Cleanup` | Infrastructure/src/Persistence/PostgresCacheRepository.cpp:82-93 | removes exactly the expired rows and counts them |
| `PkceCache.GoogleStates.GetGoogleAuthUrl` | Application/src/UseCases/AuthUseCases.cpp:557-589 | answers state, verifier, its challenge and the URL of the two, and caches the verifier for 600 seconds whatever becomes of the insert |
| `PkceCache.GoogleStates.ResolveVerifier` | Application/src/UseCases/AuthUseCases.cpp:405-429 | takes the verifier of the state out of the cache, or rejects the state, as `PkceCache.ResolveIsExact` says |
| `PkceCache.ResolveIsExact` | Application/src/UseCases/AuthUseCases.cpp:411-428 | a callback exchanges exactly what is stored and live under its state, takes exactly that row out if the removal is applied, and changes nothing on an invalid state |
| `PkceCache.SecondCallbackIsRefused` | Application/src/UseCases/AuthUseCases.cpp:411-428 | after a callback whose removal was applied every other one with that state is refused |
| `PkceCache.InvalidUntilIssued` | Application/src/UseCases/AuthUseCases.cpp:411-428 | over every run a state out of the cache stays invalid until a URL is issued for it |
| `PkceCache.ResolveIsTheTwoSteps` | Application/src/UseCases/AuthUseCases.cpp:409-420 | a callback alone is the lookup and the removal of one request of the interleaved runs |
| `PkceCache.FoundForTenMinutes` | Application/src/UseCases/AuthUseCases.cpp:571-577 | a stored verifier is found under its state for 600 seconds and under no other |
| `PkceCache.SetIsExact` | Infrastructure/src/Persistence/PostgresCacheRepository.cpp:42-67 | a store writes one row that lives for its ttl, nothing for a key longer than 255 |
| `PkceCache.CleanupIsExact` | Infrastructure/src/Persistence/PostgresCacheRepository.cpp:82-93 | a clean-up removes exactly the rows that have expired |
| `PkceCache.OtherSteps` | Infrastructure/src/Persistence/PostgresCacheRepository.cpp:42-93 | a step of a run that is no callback writes, removes or expires exactly the rows its call does |
| `PkceCache.VerifierReachesItsStateInTime` | Application/src/UseCases/AuthUseCases.cpp:405-429 | over every run of interleaved callbacks a verifier is exchanged only by the request that looked it up under the state it was issued for, within 600 seconds of the issue |
| `PkceReplay.UsedOnceExactlyUnlessReplayed` | Application/src/UseCases/AuthUseCases.cpp:409-420 | for every run of interleaved callbacks a verifier is taken once, and once they have ended exchanged once, exactly unless a lookup finds a row taken before and not removed or replaced since |
| `PkceReplay.TakenOnceStep` | Application/src/UseCases/AuthUseCases.cpp:412-414 | the same for one step |
| `PkceReplay.OverlappingCallbacksReplay` | Application/src/UseCases/AuthUseCases.cpp:412-416 | two overlapping callbacks exchange one verifier although both removals take effect |
| `PkceReplay.VerifierIsUsedOnce` | Application/src/UseCases/AuthUseCases.cpp:412-416 | callbacks that do not overlap, with removals that take effect, exchange each verifier at most once |
| `PkceReplay.FailedRemovalAllowsReplay` | Application/src/UseCases/AuthUseCases.cpp:413-416 | a failed removal allows a second exchange |
| `PkceReplay.CleanupsAreInvisible` | Infrastructure/src/Persistence/PostgresCacheRepository.cpp:82-93 | leaving every clean-up out of a run changes no answer |
| `AuthUrl.UrlEncode` | Infrastructure/src/Security/GoogleAuthService.cpp:30-43 | the loop prints every octet as itself or as a percent sign and two lower-case digits |
| `AuthUrl.EncodedAlphabet` | Infrastructure/src/Security/GoogleAuthService.cpp:30-43 | the output has unreserved characters and percent signs only |
| `AuthUrl.EncodedReadsBack` | Infrastructure/src/Security/GoogleAuthService.cpp:30-43 | percent-decoding gives every text back, so the encoding is injective |
| `AuthUrl.GetAuthorizationUrl` | Infrastructure/src/Security/GoogleAuthService.cpp:198-217 | the appended text is the query of the parameter list, state and challenge only when given |
| `AuthUrl.UrlReadsBack` | Infrastructure/src/Security/GoogleAuthService.cpp:198-217 | splitting the URL at its separators and decoding gives exactly the parameters put in, in order |
| `AuthUrl.UrlInWords` | Infrastructure/src/Security/GoogleAuthService.cpp:198-217 | the parameters literally: client_id, redirect_uri, response_type code, the three scopes, offline, consent, then state and S256 challenge when given |
| `AuthUrl.UrlGoesToGoogle` | Infrastructure/src/Security/GoogleAuthService.cpp:202 | the URL goes to Google's authorization endpoint |
| `AuthUrl.GenerateCodeVerifier` | Infrastructure/src/Security/GoogleAuthService.cpp:182-191 | 64 characters, each drawn from the unreserved set by its octet |
| `AuthUrl.VerifierCharset` | Infrastructure/src/Security/GoogleAuthService.cpp:183-189 | the 66 characters in the order in which octets draw them |
| `AuthUrl.EveryCharCanBeDrawn` | Infrastructure/src/Security/GoogleAuthService.cpp:182-191 | the drawing reaches every unreserved character |
| `AuthUrl.ChallengeShape` | Infrastructure/src/Security/GoogleAuthService.cpp:193-196 | the challenge has 43 URL-safe characters and decodes to the digest of the verifier |
| `Hex.BytesToHex` | Infrastructure/src/Security/OpenSslCrypto.cpp:51-57 | the loop prints two lower-case digits for each octet |
| `Hex.HexToBytes` | Infrastructure/src/Security/OpenSslCrypto.cpp:59-70 | the loop reads pairs as strtoul does, and nothing from an odd length |
| `Hex.PairReads` | Infrastructure/src/Security/OpenSslCrypto.cpp:59-70 | what strtoul makes of every pair: two digits, one, one behind a blank or a sign, or none |
| `Hex.DigitValues` | Infrastructure/src/Security/OpenSslCrypto.cpp:59-70 | the sixteen digits of either case and their values |
| `Hex.HexReadsBack` | Infrastructure/src/Security/OpenSslCrypto.cpp:51-70 | every byte string comes back from its text |
| `Hex.PrintsBackExactlyWhenLower` | Infrastructure/src/Security/OpenSslCrypto.cpp:51-70 | a text prints back from its octets exactly when it has an even number of lower-case digits |
| `PasswordHash.HashPassword` | Infrastructure/src/Security/OpenSslCrypto.cpp:325-351 | stores scheme, 100000 iterations, salt and a 32-octet key |
| `PasswordHash.VerifyPassword` | Infrastructure/src/Security/OpenSslCrypto.cpp:353-388 | the verdict on any stored text, or the exception of a bad number |
| `PasswordHash.VerdictOnFields` | Infrastructure/src/Security/OpenSslCrypto.cpp:353-388 | for every stored text with three fields: an exception if the first is no int, otherwise whether salt and key are there and the password derives that very key with that salt and count |
| `PasswordHash.NoFieldsNoMatch` | Infrastructure/src/Security/OpenSslCrypto.cpp:355-363 | any other stored text is no match |
| `PasswordHash.StoredInWords` | Infrastructure/src/Security/OpenSslCrypto.cpp:325-351 | what is stored, literally: pbkdf2_sha256, 100000, salt and a 32-octet key |
| `PasswordHash.NumberReadsBack` | Infrastructure/src/Security/OpenSslCrypto.cpp:350-365 | stoi reads back every int that to_string printed |
| `PasswordHash.StoiReads` | Infrastructure/src/Security/OpenSslCrypto.cpp:365 | stoi reads blanks, a sign and a number with anything behind it, and throws beyond 32 bits |
| `PasswordHash.StoiThrows` | Infrastructure/src/Security/OpenSslCrypto.cpp:365 | and throws when there is no digit |
| `PasswordHash.StoredReadsBack` | Infrastructure/src/Security/OpenSslCrypto.cpp:325-370 | the stored text parses back to the iterations, salt and key that were printed |
| `PasswordHash.VerifiesExactlyWhenKeysAgree` | Infrastructure/src/Security/OpenSslCrypto.cpp:325-388 | a password verifies against another's stored text exactly when their derived keys agree |

## Left out

- RSA, SHA-256, PBKDF2 and random octets: foreign calls, taken as functions and arguments.
- SQL text, libpqxx, the JSON library and timestamps as text: tables, codec contracts and whole seconds instead; one clock for the process and the database.
- The stored values of the columns that only describe the client (address, user agent, device, client type) and the reason texts of audit entries; the widths of these columns are modelled. The audit inserts of one request fail together or not at all.
- A text too long for its column is shortened if the excess is blanks: modelled for reasons, addresses, devices and client types (`SessionTables.FitsColumn`), not for cache keys. Ids are compared as text, so UUIDs are taken to be in canonical form, and texts to be valid UTF-8.
- Failing reads in the runs of `DeskRuns`, `AuditTrail` and `RefreshLineage`: the use case ends as if the row were absent.
- Single statements are atomic: the listing loop of a bulk revocation and its update are one transaction, and waiting for a row lock inside one statement is not modelled for sessions.
- `recordTokenRevocation`, which has no caller, and `findUserSessions` and `findAllSessions`, which only read.
- The revocation listener, whose callback only logs.
- Account lockout as a whole: no row mapping fills `lockedUntil`, so the branch that reads it never runs. `UseCases.LoginStep` keeps the audit entry of the fifth failure and takes the failure counter as an argument.
- Network calls to Google and the checks of Google's own token claims: a profile is an argument.
- Request validation other than the blank refresh token and the password length of setPassword: its result is an argument. Column widths of users.
- Todo and document storage, permissions, controllers, routing, logging and start-up.
- Waiting times and fairness of the pool: `ConnectionPool.NoLostWakeup` says that wakeups are under way, not when a thread runs. The destructor of the pool and a connection given back after it are not modelled.
- A topic longer than 100 characters, or one that `pg_notify` refuses as a channel name (empty, or 64 octets and more), always fails to publish; a `publish` here takes every topic.
- The runs of `Accounts` have no failing calls, and the whole calls of `MessageQueue` neither, apart from texts that are no JSON; the runs of the other modules have failing writes.
