# Verification model of the notes services

A Dafny model of the parts of the notes microservices whose behaviour is hard to see from any one
function, with proofs over every input and every run:

* **refresh-token rotation** as a protocol of interleaving repository statements
  (`Faults`, `TokenTable`, `AuthProtocol`, `AuthInvariants`, `AuthTheorems`, `AuthExpiry`,
  `AuthRaces`, `AuthUseCase`, `AuthSessions`);
* **circuit breaker and retry loop** (`CircuitBreaker`, `BreakerRuns`, `BreakerTheorems`, `BreakerHistory`,
  `ProbeBoundTight`, `ResetBoundTight`, `Retry`, `Resilience`, `ResilienceTheorems`);
* **the gateway's two-level profile cache** (`RedisCache`, `ProfileCache`, `ProfileTheorems`,
  `ProfileExpiry`, `ProfileAge`, `ProfileService`);
* **error translation** from a server-side error to a gRPC status, back to an error, and on to an
  HTTP status (`DomainErrors`, `ErrorTranslation`, `TranslationTheorems`);
* **notes isolation and pagination** (`WhiteSpace`, `NoteStore`, `NoteIsolation`, `NoteReadback`, `Pagination`).

`dafny verify dfyconfig.toml` checks all of it.

## How the model is built

Objects that the code updates in place are classes (`Breaker`, `ServiceResilience`, `TokenRepository`,
`AuthUseCase`, `Cache`, `AuthService`, `Note`, `NoteUseCase`). Their methods have the code's branches and
are proved against specification functions on values; the theorems are about those functions.

Concurrency is a step system: a state, a datatype of actions, `Apply` for one step and `Exec` for a list
of them. An action that is not possible changes nothing, so "every run" is "every list of actions". A
step is one critical section, one SQL statement, one transaction, or one cache or backend operation;
everything else may happen between two steps of a call. Clock readings, failures of the database, the
cache and the network, generated tokens and row ids are parameters of the actions. Where a use case is
both a method and a chain of steps, a lemma (`Uninterrupted...`) shows that the steps taken without
interruption do what the method does.

## What the proofs found

* The single-probe guarantee of the half-open state fails when calls admitted earlier are still
  unrecorded: recording one of them frees the probe slot. The exact bound is the number of such calls
  plus one, and it is reached for every number (`ProbeBound`, `StaleCallsAdmitMoreProbes`).
* A profile served from the cache can be older than the 15 minutes of `profileCacheTTL`, because they run
  from the write and not from the fetch; the excess is at most the longest delay between the two, and
  reaches it (`HitAge`, `LateWritesAge`).
* Late results count: with as many calls left in flight by a trip as the success threshold, their late
  successes close the breaker while its only probe is unrecorded. How many probes a reset needs is exact
  (`ResetNeedsProbes`, `LateCallsReplaceProbes`).
* Reuse of a refresh token is noticed only until the cleanup deletes the revoked row; from then on it is
  answered as merely invalid and the owner's other sessions stay (`ReuseNoticedWhileStored`,
  `CleanupHidesReuse`). Conversely "revoked" does not mean reuse: a live token that expires between the two
  checks ends all sessions of its owner (`RevokedExactly`, `ExpiryEndsSessions`), and of two refreshes
  racing with one token the loser's rejection ends the session that the winner has just been given
  (`LoserEndsWinner`).
* The owner check inside the rotation transaction never fires (`OwnerCheckNeverFails`).
* For every error that a use case builds, the HTTP status through the gateway is that of the error itself
  (`BuiltErrorsKeepTheirStatus`). That is owed to those errors holding one sentinel at most: the mappers
  taken alone test the sentinels in different orders and handle different ones, and `HttpStatusCommutes`
  says for which trees they agree.
* A deadline exceeded counts as an infrastructure failure, but is answered with 500
  (`DeadlineIsInfraWith500`); which infrastructure failures get 503 is exact (`InfraStatus`).
* A rotation whose answer is lost has consumed the token although the client never sees the new one, and a
  login whose answer is lost leaves a live session behind (`FailureLeaves`, `SessionCompletesExactly`).
* The reply to an update carries the application's time, the stored note the database's
  (`UpdateReadsBack`).
* A notes write whose answer is lost reports an error and has changed the table, as a success would have
  (`BrokenChangesExactly`).
* A list response reports the limit that was asked for, not the one applied. A client that steps by the
  reported limit sees a listing of more than 100 notes whole exactly when it asked for 1 to 100
  (`ReportedLimitWorksExactly`).
* Truncation in the backoff is exact for the factor 2 that the services use; for factors in general,
  exactly when no wait below the maximum has a fraction, and no wait that is cut off is followed by a
  shrinking one (`BackoffClosedForm`, `FractionsFallBehind`).

## Model

| member | source | states |
|---|---|---|
| DomainErrors.MessageInjective | internal/domain/err.go:5-32 | no two sentinels have the same message, so a message on the wire identifies its sentinel |
| ErrorTranslation.StatusMessageLookup | internal/adapters/grpc/helpers.go:31-49 | looking a message up yields a sentinel if and only if that sentinel is listed and the text is its message |
| ErrorTranslation.HttpStatusIsStrongestClass | internal/adapters/http/helpers.go:50-85 | the status of an error tree is the strongest class among its sentinels, in the order 400, 401, 404, 409, 503, 500 |
| TranslationTheorems.ArrivesAlone | internal/adapters/grpc/helpers.go:84-186 | whatever tree a use case returned, the gateway's error holds exactly one sentinel, of the class that the server's mapper chose |
| TranslationTheorems.RoundTrip | internal/adapters/grpc/helpers.go:84-186 | for a tree of any shape with one handled sentinel, parsing the printed status gives back that sentinel if and only if it is listed and sent under its own message; the others come back as "unauthorized" or "invalid parameters" |
| TranslationTheorems.HttpStatusCommutes | internal/adapters/http/helpers.go:50-85 | the gateway's HTTP status equals the one computed from the server-side error if and only if no sentinel of the tree is of a stronger class than the one the mapper chose |
| TranslationTheorems.HttpStatusOfSoleSentinel | internal/adapters/http/helpers.go:50-85 | with one recognised sentinel both statuses are that sentinel's class |
| TranslationTheorems.BuiltErrorsKeepTheirStatus | internal/adapters/grpc/helpers.go:84-145 | for every error of the shapes that use cases build, wrapped any number of times, the HTTP status through the gateway is the one of the error itself |
| TranslationTheorems.OrderChangesStatus | internal/adapters/grpc/helpers.go:116-145 | about the mappers alone: a tree with two handled sentinels would get 401 through the gateway and 400 directly |
| TranslationTheorems.UnhandledChangesStatus | internal/adapters/grpc/helpers.go:84-145 | about the mappers alone: neither handles "service unavailable", which would get 500 through the gateway and 503 directly |
| TranslationTheorems.InfraStatus | internal/adapters/http/helpers.go:79-83 | an infrastructure error is answered with 503 if and only if it holds "service unavailable" or "circuit open" and no sentinel of a stronger class |
| TranslationTheorems.DeadlineIsInfraWith500 | internal/adapters/grpc/helpers.go:173-174 | a call that ran into its deadline is an infrastructure error answered with 500 |
| TranslationTheorems.InfraExactly | internal/adapters/grpc/helpers.go:156-186 | a client call's error counts as an infrastructure failure if and only if the transport failed, or the status is Unavailable or DeadlineExceeded without a known message |
| TranslationTheorems.UseCaseErrorsAreNeverInfra | internal/app/gateway.go:23-25 | no error tree of a use case, of any shape, arrives as an infrastructure failure |
| TranslationTheorems.CodesMatchClasses | internal/adapters/grpc/helpers.go:84-145 | the gRPC code of every answer agrees with the HTTP class of the sentinel whose message it carries, and is Internal exactly without one |
| TranslationTheorems.CodeAloneKeepsStatus | internal/adapters/grpc/helpers.go:170-185 | had the server sent any unknown text, the gateway's HTTP status would be the same |
| TranslationTheorems.VerdictIsFirst | internal/adapters/grpc/helpers.go:84-145 | each mapper answers for the sentinel it tests first among those that the tree holds |
| TranslationTheorems.ServerErrorsHideTheirText | internal/adapters/http/helpers.go:79-84 | answers of 500 and 503 say the same for every error; all others show the error's text |
| CircuitBreaker.Breaker.constructor | internal/fault/fault.go:82-94 | a new breaker is closed with zero counters |
| CircuitBreaker.Breaker.Allow | internal/fault/fault.go:205-238 | admits or refuses as the state, the timeout and the probe slot say, and the whole new state |
| CircuitBreaker.Breaker.Record | internal/fault/fault.go:240-281 | the whole new state for a success, a counted failure and an ignored error, in each of the three states |
| CircuitBreaker.Breaker.Trip | internal/fault/fault.go:283-287 | opens, stamps the time, clears successes, keeps failures |
| BreakerRuns.StepKeeps | internal/fault/fault.go:205-287 | every step of every interleaving keeps the counters true to the history, the probe slot held by an unrecorded call, the trips apart, and each success accounted to a probe or a late call |
| BreakerTheorems.ProbeBound | internal/fault/fault.go:205-244 | in every run, a half-open period never has more calls in flight than the calls unrecorded when it began plus one; with none, there is one probe and it holds the slot |
| ProbeBoundTight.StaleCallsAdmitMoreProbes | internal/fault/fault.go:205-244 | for every number n of such calls a reachable state has n + 1 probes in flight |
| BreakerTheorems.CountersRefineHistory | internal/fault/fault.go:240-287 | in every run, in Closed `failures` is the trailing run of counted failures; outside it `successes` counts the successes since the trip; the breaker is closed exactly while `failures` is under the threshold |
| BreakerHistory.FieldsAreHistory | internal/fault/fault.go:205-287 | over every run, state, both counters, time of the last change and probe slot are functions of the history of events |
| BreakerHistory.OpenAdmitsByLastTrip | internal/fault/fault.go:211-223 | in every run an open breaker admits the next call if and only if more than the timeout has passed since its last trip, whatever was recorded meanwhile |
| BreakerHistory.RecordingExactly | internal/fault/fault.go:240-281 | a recorded result trips the breaker, or resets it, if and only if the history says that it fills the threshold of the state it lands in |
| BreakerHistory.ArrivingExactly | internal/fault/fault.go:205-238 | whether an arrival is admitted, and what state it leaves, said from the history |
| BreakerTheorems.ClosesOnlyWhenEarned | internal/fault/fault.go:259-287 | every reset of every run follows SuccessThreshold successes since the trip and no counted failure since going half-open |
| BreakerTheorems.ResetNeedsProbes | internal/fault/fault.go:259-287 | every reset of every run needs as many successes of probes as the threshold exceeds the recorded ones of the calls that the trip left in flight |
| ResetBoundTight.LateCallsReplaceProbes | internal/fault/fault.go:240-281 | for every number of such calls up to the threshold, a reset happens with no more; with the threshold, with none, its only probe unrecorded |
| BreakerTheorems.RefusedOnlyForCause | internal/fault/fault.go:205-244 | a call is refused if and only if the timeout has not passed, or the call that took the probe slot is unrecorded |
| BreakerTheorems.NeverWedges | internal/fault/fault.go:106-116 | from every reachable state, once the calls in flight are recorded with whatever results and more than the timeout passes, the next call is admitted |
| BreakerTheorems.TripsAreSpaced | internal/fault/fault.go:205-287 | any two trips of any run are more than the timeout apart |
| BreakerTheorems.TripRate | internal/fault/fault.go:205-287 | n trips after a first one take more than n timeouts |
| Retry.RetryExecute | internal/fault/fault.go:290-344 | the loop ends as the outcomes dictate, over arbitrary outcomes and cancellations, and the waits are the backoffs in order |
| Retry.EndingUnique | internal/fault/fault.go:301-343 | the outcomes dictate one ending only |
| Retry.CallsMade | internal/fault/fault.go:294-320 | uncancelled, the number of calls is the least of MaxAttempts, at least 1, and the index of the first success or final error, also when there is none |
| Retry.BackoffClosedForm | internal/fault/fault.go:341 | for every factor, the waits after the first are min(Initial * Factor^(k-1), Max) if and only if none of those below Max has a fraction and none that is cut off is followed by a shrinking one |
| Retry.WholeFactorIsExact | internal/fault/fault.go:58 | a whole factor always meets that condition |
| Retry.FractionsFallBehind | internal/fault/fault.go:341 | an input with factor 1.5 where truncation makes the third wait 1 and not 2.25 |
| Retry.TotalWait | internal/fault/fault.go:330-341 | all waits of one call add up to at most Initial + (MaxAttempts - 2) * Max |
| Resilience.ServiceResilience.constructor | internal/fault/fault.go:67-104 | the gateway's settings and retry policy, and a closed breaker |
| Resilience.ServiceResilience.ExecuteWithResilience | internal/fault/fault.go:156-178 | refused: no attempt and nothing changes; admitted: the retry loop's ending, counted once by its final error: a success, an infrastructure failure, or neither, in terms of the breaker's fields |
| Resilience.ServiceResilience.ExecuteCircuitOnly | internal/fault/fault.go:145-153 | the same around a single attempt |
| ResilienceTheorems.UseCaseErrorsMoveNothing | internal/fault/fault.go:67-78 | an error reported by a use case, of any shape and on any attempt, is not retried, and leaves the breaker as it was but for a freed probe slot |
| ResilienceTheorems.CallsAreCounted | internal/fault/fault.go:244-281 | an admitted call without an error clears the failures of a closed breaker, and adds a success to, or closes, any other; an infrastructure failure adds a failure or opens; any other error counts for nothing |
| ResilienceTheorems.TransportFailureIsRetried | internal/fault/fault.go:303-337 | a failure of the transport is tried again if and only if it does not come of cancellation, attempts remain and the wait is not cut short |
| ResilienceTheorems.CutShort | internal/fault/fault.go:331-337 | a call cancelled by its client during a wait counts for nothing; one whose deadline strikes then counts as a failure |
| ResilienceTheorems.OutageLoad | internal/fault/fault.go:106-116 | non-overlapping calls that all fail in the transport make, over elapsed time T from a fresh breaker, at most MaxAttempts * (ErrorThreshold + T / (Timeout + 1)) attempts |
| ResilienceTheorems.GatewayOutageLoad | internal/fault/fault.go:51-59 | with the gateway's settings: at most 15 attempts, and 3 for each ten seconds |
| ResilienceTheorems.Recovery | internal/fault/fault.go:205-281 | from any open breaker, non-overlapping calls after the timeout that succeed are all admitted, and close it exactly when they are as many as the success threshold still asks for |
| ResilienceTheorems.GatewayRecovery | internal/fault/fault.go:51-59 | with the gateway's settings two successes after a trip close the breaker, one does not |
| ResilienceTheorems.GatewayWaits | internal/fault/fault.go:51-59 | with the gateway's policy the waits of one call are none, 100, or 100 and 200 milliseconds |
| TokenTable.TokenRepository.FindByToken | internal/adapters/postgres/auth.go:165-179 | found, absent and failed are told apart exactly |
| TokenTable.TokenRepository.StoreRefreshToken | internal/adapters/postgres/auth.go:181-193 | inserts one row, refuses a hash already stored, and what a lost answer leaves behind |
| TokenTable.TokenRepository.RevokeToken | internal/adapters/postgres/auth.go:195-206 | revokes that row only; absent is told |
| TokenTable.TokenRepository.RotateRefreshToken | internal/adapters/postgres/auth.go:224-270 | all or nothing: consumes an unrevoked, unexpired row of the user and inserts its successor, or leaves the table as it was |
| TokenTable.TokenRepository.RevokeAllUserTokens | internal/adapters/postgres/auth.go:306-319 | revokes every row of the user and no other |
| TokenTable.TokenRepository.CleanupExpiredTokens | internal/adapters/postgres/auth.go:272-285 | deletes exactly the revoked and the expired rows |
| TokenTable.CleanupKeepsUsable | internal/adapters/postgres/auth.go:36 | the cleanup deletes nothing that a refresh could still use, then or later, and leaves nothing revoked or expired |
| TokenTable.RotationOnlyByOwner | internal/adapters/postgres/auth.go:224-270 | a rotation that is answered with success was of an unrevoked, unexpired token of that user, to a new one |
| AuthUseCase.AuthUseCase.RefreshTokens | internal/app/auth.go:137-202 | table and answer for every state of the table and every fault |
| AuthUseCase.AuthUseCase.RejectRefreshReuse | internal/app/auth.go:230-239 | ends all sessions of the user and answers "revoked", or fails |
| AuthUseCase.AuthUseCase.Logout | internal/app/auth.go:204-228 | afterwards the token is not live; absent counts as done |
| AuthUseCase.AuthUseCase.GenerateTokenPair | internal/app/auth.go:241-274 | on success the new token is live and its user's |
| AuthUseCase.UninterruptedRefresh | internal/app/auth.go:137-202 | the protocol steps of a refresh, uninterrupted, have the outcome of the method |
| AuthUseCase.SucceedsExactly | internal/app/auth.go:144-191 | a refresh succeeds if and only if its token is stored, unrevoked and unexpired at both checks, its user exists, the new token is new and nothing fails |
| AuthUseCase.SuccessRotates | internal/app/auth.go:177-191 | a success replaces one live row by one live row of the same user and lineage, under the generated token and with its expiry, and changes no other |
| AuthUseCase.RefreshedTokenRefreshes | internal/app/auth.go:142-202 | the token that a refresh answered, presented any time before its generated expiry, is answered with a pair again |
| AuthUseCase.NewSessionRefreshes | internal/app/auth.go:241-274 | so is the token of a completed login or registration, which changes no other row |
| AuthUseCase.SessionCompletesExactly | internal/app/auth.go:241-274 | when a login completes, exactly, and when it leaves a live session behind, which one whose answer was lost does |
| AuthUseCase.LogoutCompletesExactly | internal/app/auth.go:214-227 | a logout completes whenever its statement works, whatever the token; one whose answer was lost has ended the token too |
| AuthUseCase.LogoutEndsRefreshing | internal/app/auth.go:204-228 | after a completed logout no refresh with the token succeeds, and other tokens are as they were |
| AuthUseCase.InvalidExactly | internal/app/auth.go:144-160 | a refresh is answered "invalid" if and only if its token is absent, or live and past its expiry at look-up; it then changes nothing |
| AuthUseCase.FailureLeaves | internal/app/auth.go:185-191 | a failed refresh changes nothing unless the answer of its last write was lost; a lost rotation has consumed the token |
| AuthUseCase.ReuseNoticedWhileStored | internal/app/auth.go:154-156 | presenting a token that is not live is answered "revoked", and ends all sessions of its owner, if and only if its row is still stored |
| AuthUseCase.RevokedExactly | internal/app/auth.go:154-188 | a refresh is answered "revoked" if and only if its token is stored and either revoked, or expired between the two checks with everything before working, and the rejection works |
| AuthUseCase.ExpiryEndsSessions | internal/app/auth.go:185-188 | a live token presented for the first time just before it expires ends all sessions of its owner |
| AuthUseCase.CleanupHidesReuse | internal/adapters/postgres/auth.go:36 | after the cleanup no reuse is noticed and no session ends |
| AuthRaces.LoserEndsWinner | internal/app/auth.go:177-191 | of two refreshes racing with one live token, one is answered with a pair and the other "revoked", and then the new token is dead with every session of the user |
| AuthRaces.RacesHappen | internal/app/auth.go:142-184 | that race is reachable, for every user, tokens and lifetime |
| AuthInvariants.ExecKeeps | internal/app/auth.go:137-274 | every run keeps: new tokens in one hand, in-flight calls true about their token and user, single use, lineages, and balanced tallies |
| AuthTheorems.LineageSafety | internal/adapters/postgres/auth.go:224-270 | in every reachable state each login lineage has at most one unrevoked row, and all its rows belong to one user |
| AuthTheorems.OwnersGrow | internal/app/auth.go:255-262 | a lineage keeps its owner through every run |
| AuthTheorems.AtMostOneWinner | internal/app/auth.go:142-191 | of any number of interleaved refreshes presenting one token, at most one is answered with a pair |
| AuthTheorems.DeadForever | internal/app/auth.go:142-191 | a spent token that is not live stays so through every run, and no further call with it succeeds |
| AuthTheorems.EndedIsDead | internal/adapters/postgres/auth.go:31-36 | a stored token that stops being live by any step, deletion by the cleanup included, is spent for good |
| AuthTheorems.StepsEndTokens | internal/app/auth.go:177-228 | rotation, logout and revoke-all do end the tokens they are meant to end |
| AuthTheorems.EndedTokensNeverWin | internal/app/auth.go:142-228 | over whole runs: once a stored token has stopped being live, no call with it is answered with a pair any more |
| AuthTheorems.IssuedForEver | internal/adapters/postgres/auth.go:181-193 | to whom a token was issued is what its row says, and never changes in any run, whether the row stays or is deleted |
| AuthTheorems.RevokedMeansCleared | internal/app/auth.go:230-239 | in the step that answers "revoked", the user to whom the token was issued loses every unrevoked row and no row of another user changes, even when the token's own row was deleted before |
| AuthTheorems.ClearedUntilNextSession | internal/app/auth.go:185-188 | a user without unrevoked rows gets none through any run without a store step of that user's logins and registrations |
| AuthTheorems.RevokedUntilNextSession | internal/app/auth.go:154-156 | and that user has no unrevoked row in any continuation until the next store step of a login or registration of theirs, whatever refreshes are in flight |
| AuthTheorems.SessionsConserved | internal/app/auth.go:241-265 | over every run and per user: sessions stored equal unrevoked rows plus those ended by logout, revoke-all and expiry |
| AuthTheorems.RotationKeepsCount | internal/adapters/postgres/auth.go:224-270 | a rotation changes neither side of that account |
| AuthTheorems.OwnerCheckNeverFails | internal/adapters/postgres/auth.go:248-250 | in every run a token about to be rotated belongs to the user its look-up found |
| AuthExpiry.RowsExpireAsGenerated | internal/adapters/postgres/auth.go:257 | in every run and every continuation the row of a token expires when the token was generated to |
| AuthExpiry.AnsweredTokenIsStored | internal/app/auth.go:177-191 | over every run: the token that a refresh answers is stored live in that step, for the user and in the lineage of the unexpired token presented, with the expiry it was generated with |
| AuthSessions.UninterruptedLogout | internal/app/auth.go:204-228 | the protocol steps of a logout, uninterrupted, have the outcome of the method |
| AuthSessions.UninterruptedSession | internal/app/auth.go:241-274 | the protocol steps of a login, uninterrupted, end as the method does |
| AuthSessions.LogoutDoneMeansDead | internal/app/auth.go:214-227 | over every run: when a logout is answered with success, an issued token is dead from then on |
| AuthSessions.SessionDoneMeansLive | internal/app/auth.go:255-273 | over every run: when a login is answered with success, a live row of its user has just been stored, in a lineage of its own |
| AuthSessions.EachPartHasItsCause | internal/app/auth.go:204-274 | stored sessions, logouts, mass revocations and expiries each move by their own kind of step only |
| RedisCache.Cache.constructor | internal/adapters/redis/cache.go:47-50 | a default lifetime that is not positive becomes 15 minutes |
| RedisCache.Cache.Get | internal/adapters/redis/cache.go:75-86 | a missing or expired key reads as empty without error; a failing server as an error |
| RedisCache.Cache.Set | internal/adapters/redis/cache.go:88-99 | writes that key only, with the default lifetime for one that is not positive; a failed write changes nothing |
| RedisCache.Cache.Delete | internal/adapters/redis/cache.go:101-108 | removes that key only |
| RedisCache.ReadAfterWrite | internal/adapters/redis/cache.go:75-99 | what is written is read back under its key until it expires, and no other key changes |
| ProfileService.AuthService.GetUserProfile | internal/app/gateway.go:127-168 | cache, answer, error and breaker for every state of cache and breaker, every failure and every course of the attempts: a cached profile is served whatever the breaker's state and leaves it alone; otherwise the breaker is asked, and the answer is the backend's exactly when the retry loop ends without an error; an expired token gets an error and changes no cache entry |
| ProfileService.UninterruptedLookup | internal/app/gateway.go:127-197 | the interleaved steps of a lookup, uninterrupted, have the outcome of the method |
| ProfileService.SecondLookupHits | internal/app/gateway.go:158-193 | a second lookup within the stored lifetime gives the same profile, whether or not the backend answers |
| ProfileService.AttemptsClassified | internal/app/gateway.go:138-149 | an attempt is no error exactly when it gets through and the token is accepted; a failed transport is an infrastructure failure, an unauthorized token is none |
| ProfileService.AnsweredExactly | internal/adapters/grpc/clients.go:265-285 | without a cached profile a lookup is answered if and only if the backend is reached and the token is unexpired and of a stored user; then with that user's id, e-mail, name and creation time |
| ProfileService.ExpiredAlone | internal/adapters/jwt/jwt.go:91-98 | an expired token gets nothing, whatever the cache holds, and leaves it alone |
| ProfileService.WritesExpireWithToken | internal/app/gateway.go:154-165 | a lookup writes entries of its own token and owner only, which expire with the token or in 15 minutes, whichever is first |
| ProfileTheorems.KeysDistinct | internal/app/gateway.go:199-205 | profile keys and token keys never meet, and each determines its user or hash |
| ProfileTheorems.ExecKeeps | internal/app/gateway.go:127-221 | every run keeps each entry and each call in flight true about token, owner, profile and times |
| ProfileTheorems.AnswersAreTheBackends | internal/app/gateway.go:131-197 | transparency: every profile ever answered, cached or not, is what the backend answers for that token at any time before it expires |
| ProfileTheorems.HitsAreSound | internal/app/gateway.go:170-221 | a hit only for a token that the backend had accepted by then and that was unexpired when checked, with its owner's profile, stored less than 15 minutes before it is read |
| ProfileTheorems.ForgedTokensGetNothing | internal/app/gateway.go:127-197 | a token the backend would not verify is never answered with a profile |
| ProfileExpiry.ExpiredTokensGetNothing | internal/app/gateway.go:175-177 | over every run: a lookup that comes in at or after its token's expiry is never answered with a profile |
| ProfileExpiry.AnswersAreTheOwners | internal/app/gateway.go:131-197 | over every run: every profile answered is the stored owner's in id, e-mail, name and creation time, without password hash |
| ProfileAge.HitAge | internal/app/gateway.go:158-164 | a profile read from the cache was fetched less than 15 minutes plus the run's longest fetch-to-write delay before |
| ProfileAge.LateWritesAge | internal/app/gateway.go:158-164 | for every delay of a write, a later lookup without any delay hits a profile of that age, to the millisecond |
| WhiteSpace.BlankExactly | internal/domain/general.go:106 | a title counts as empty if and only if its bytes encode white-space characters of Unicode and nothing else |
| NoteStore.Note.ApplyUpdate | internal/domain/general.go:130-154 | the note in memory and the error, with the title assigned before the content is checked |
| NoteStore.GetFinds | internal/adapters/postgres/notes.go:69-80 | finds a row of that id and owner if and only if there is one |
| NoteStore.NoteUseCase.CreateNote | internal/app/notes.go:24-39 | appends one row of the user, or nothing with the reason; and what a lost answer leaves behind |
| NoteStore.NoteUseCase.GetNote | internal/app/notes.go:41-48 | only a stored note of that id and user is returned |
| NoteStore.NoteUseCase.ListNotes | internal/app/notes.go:50-73 | the count and one page of the user's listing with the normalised limit and offset, never over 100 |
| NoteStore.NoteUseCase.UpdateNote | internal/app/notes.go:75-96 | table and reply of the read, the change in memory and the write, for every fault |
| NoteStore.NoteUseCase.DeleteNote | internal/app/notes.go:98-105 | deletes the user's note, or tells that there is none; and what a lost answer leaves behind |
| NoteIsolation.NonInterference | internal/app/notes.go:24-105 | deleting all other users' steps from any run leaves a user's rows, use cases in flight and replies as they were |
| NoteIsolation.UninterruptedUpdate | internal/app/notes.go:75-96 | the read and write steps of an update, uninterrupted, have the outcome of the method |
| NoteIsolation.UninterruptedList | internal/app/notes.go:50-73 | the count and page steps of a listing, uninterrupted, have the outcome of the method |
| NoteIsolation.RefusalChangesNoRow | internal/app/notes.go:24-105 | a step answered with a domain error leaves the table as it was |
| NoteIsolation.BrokenChangesExactly | internal/adapters/postgres/notes.go:54-131 | a step answered with a database error has changed the table if and only if a write that matched took effect and its answer was lost, and then as a success would have |
| NoteIsolation.RefusedUpdateInMemory | internal/domain/general.go:130-154 | a refused update has changed the note in memory in its title only, and exactly when the content was refused after a new title |
| NoteIsolation.NotesAlwaysValid | internal/domain/general.go:101-154 | in every reachable state every stored note keeps the title and content rules, although interleaved updates write what they read earlier |
| NoteReadback.NewNoteChecked | internal/domain/general.go:101-116 | which new notes are accepted, and which of four errors the others get, exactly |
| NoteReadback.UpdateAccepted | internal/domain/general.go:130-154 | which updates are accepted, exactly; an accepted one leaves what was given, the old values where nothing was, and id, owner and creation time |
| NoteReadback.CreateReadsBack | internal/app/notes.go:24-48 | a created note is the row appended, with what was given, and is read back |
| NoteReadback.CreateSucceedsExactly | internal/app/notes.go:24-39 | when creating succeeds, exactly |
| NoteReadback.UpdateReadsBack | internal/app/notes.go:75-96 | an update answered with a note is read back with what was given, stamped by the database; every other row is as it was |
| NoteReadback.UpdateSucceedsExactly | internal/app/notes.go:75-96 | when updating a stored note succeeds, exactly |
| NoteReadback.LateUpdateIsRefused | internal/adapters/postgres/notes.go:107-118 | an update whose note is deleted between its read and its write is refused, and brings nothing back |
| NoteReadback.DeleteForgets | internal/app/notes.go:98-105 | a deleted note is gone, and every other row stays in order |
| NoteReadback.ForeignNotesAreHidden | internal/adapters/postgres/notes.go:20-25 | somebody else's note can be neither read nor changed nor deleted, and is answered like one that does not exist |
| NoteReadback.StoredOnce | internal/adapters/postgres/notes.go:18-25 | in every reachable state every stored note has its id to itself |
| Pagination.LimitInRange | internal/app/notes.go:55-61 | the limit that reaches the statement is 1 to 100, and the one asked for if and only if that lies there |
| Pagination.PagesAreSmall | internal/app/notes.go:59-61 | no page holds more than 100 notes |
| Pagination.OffsetHonoured | internal/app/gateway.go:327-337 | the page at an offset inside the listing is the one asked for if and only if the offset fits 32 bits |
| Pagination.WalkPartitions | internal/adapters/grpc/clients.go:310-320 | walking by the effective limit through the whole clamp pipeline yields every note once and in order |
| Pagination.EveryListingIsWalked | internal/app/gateway.go:266-294 | for every listing of at most 2^31 notes and every limit asked for there is such a walk, with no page after the last note |
| Pagination.ReportedLimitWorksExactly | internal/adapters/http/notes.go:104-117 | stepping by the reported limit yields a listing of more than 100 notes whole if and only if 1 to 100 were asked for |
| Pagination.ListingIsSorted | internal/adapters/postgres/notes.go:21-22 | the listing holds exactly the rows given, latest update first |
| Pagination.WalkYieldsOwnNotes | internal/adapters/postgres/notes.go:21-22 | the walk holds each note of the user as often as the table does, nobody else's, latest update first |
| Pagination.ListNotesPages | internal/app/notes.go:50-73 | the listing use case answers the page that the pipeline asks for, and counts all the user's notes |
| Pagination.ListWalkYieldsOwnNotes | internal/app/notes.go:50-73 | for every limit asked for, the replies of a walk list each note of the user as often as the table holds it, nobody else's, latest update first, and each counts as many |
| Pagination.ClampIsNearest | internal/app/gateway.go:327-337 | a clamped value is the nearest 32-bit one that is not negative |
| Pagination.NegativeOffsetIsFirstPage | internal/app/notes.go:63-65 | for the use case by itself a negative offset is the first page |
| Pagination.LimitApplied | internal/app/notes.go:55-61 | the limit is 10 when none, nothing sensible or 0 was asked for, at most 100, otherwise the one asked for |

## Left out

Assumptions of the model:

- Clock of the breaker: one reading for each critical section, although `allow` takes two when it leaves the open state and `trip` its own; readings never go back. Operations return rather than panic, since `record` is not deferred.
- Rotation transaction: serialised, one atomic step. Isolation anomalies of the database are not modelled.
- Tokens: identified with their hashes, so the hash is taken as injective; generated ones are new (random `jti`, section 4.1.7 of RFC 7519).
- Profile cache: one clock for gateway, cache and backend; the token hash injective and the JSON coding of a profile reversible but for the password hash (`ProfileCache.Lawful`); users never changed or deleted, as no use case does either.
- Histories: `lineage`, `owners`, `issuedTo`, tallies, `storedAt`, `fetches`, `lag`, and of the breaker's runs `log`, `probes`, `stale`, `late` and `probeWins`, are records that no modelled operation of the code reads.
- NoteIsolation.NonInterference: new row ids differ from one another, as the database's do.

Simplifications:

- Retry.BackoffClosedForm: the float product is taken over the reals, with the truncation but without rounding and overflow; the maximum is not negative.
- ResilienceTheorems.OutageLoad: calls do not overlap and no context is cancelled, as otherwise late results and uncounted endings add attempts.
- AuthUseCase.AuthUseCase.Logout: the look-up before the revocation is left out; it only feeds a log line.
- AuthUseCase.AuthUseCase.GenerateTokenPair: what Login and Register do before it (email look-up, bcrypt, validation) is left out; a registration's insert of its user appears as the step `Enroll`.
- AuthUseCase.AuthUseCase.RefreshTokens: finding the user and generating both tokens are one step, which can fail; the access token itself is not modelled.
- ProfileService.AuthService.GetUserProfile: a method call has one time for all it reads and writes; in the interleaved model time passes between all operations, and there breaker and retry appear as "gets through or not".
- NoteStore.NoteUseCase.ListNotes: rows updated at the same time keep the table's order, which is fixed.
- NoteStore.NoteUseCase.UpdateNote: concurrent updates overwrite each other by design; no merging is claimed.
- Pagination.WalkPartitions: the listing does not change during the walk, and parsing of the query is abstracted to an optional number.
- ErrorTranslation: statuses wrapped in other errors, and the framework's own error type in `handleError`, are not modelled.

Not modelled:

- Generated protobuf and gateway code, routing and handlers, configuration, logging, TLS, rate limiting, start and shutdown, `waitUntilReady` and the metadata helpers: no hard state.
- JWT signing and verification, bcrypt, SHA-256: abstract functions with the laws above.
- The email and password expressions and the other single-branch validations: easy members only.
- Unused statements: user update and delete, `FindUserTokens`, `ConsumeActiveToken` outside a transaction; and row ids and creation times of tokens.
- `NewServiceResilience` without a failure predicate; revocation of access tokens, of which the code keeps no state.
