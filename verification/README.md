# Single-use grants of an OAuth authorization server: model and proofs

A user's approval is turned into a one-shot credential: an authorization code in the browser, or a
device code on a device. The credential is exchanged once for tokens. The exchange may start a
refresh-token family, which then rotates token by token, or is revoked as a whole when a spent
token comes back. This project models that lifecycle in Dafny and proves what it promises over
every run: any number of clients, users and requests in flight, in any order.

## How the model is laid out

| module | what it holds |
|---|---|
| Outcomes, Model | errors, results, the entities and their transitions |
| Scopes | scope tokens, wire text, row text |
| Pkce | base64url, challenges, verification |
| RefreshTokens, AuthorizationCodes, DeviceCodes | the in-memory repositories: a class over a map, and the functions that specify it |
| SqlStores | the database repositories, each conditional UPDATE proved against the in-memory function |
| RefreshGrant, Exchanges, DeviceFlow, AuthorizeConsent, TokenExchange | the use cases: small-step functions, and services whose methods run them in sequence |
| RefreshRotation, RefreshRuns | refresh requests interleaved at the repository operations |
| DevicePolling | device codes created, decided and polled, each use case one step, over runs |
| SplitPolling | polls and decisions with read and write apart: when they still agree with the atomic ones |
| GrantLifecycle, GrantSafety, GrantRuns | everything together: invariant, preservation, theorems over runs |
| SequentialRuns | the services' sequential programs are runs of the whole system |
| HonestRefresh, HonestRun | a well-behaved client is never refused, under any interleaving |
| StoredRuns | on a database, nothing a run stores is changed by its row |

A request is a program that touches a repository at a few points. Its local state between those
points is a value (`Progress`, `Exchange`, `Task`), so a row read earlier is stale by the time it
is used. The services run the steps back to back; the transition systems interleave the same
functions. `BackToBackIsRunAlone`, `BackToBackIsCodeAlone` and `BackToBackIsPollAlone` tie the two
together: any run can go on with one service call, stopping where the call is answered, and ends
in the state that call leaves.

Assumptions, all explicit in the `Enabled` predicates or as parameters:

- Random values are fresh: never handed out before, and (for authorization codes) never presented
  before they were minted. Nothing in the source retries on a collision. Where a collision reaches
  a repository, `SqlStores` says what each form does with it.
- Time is an integer and the clock does not go back. A request may use a clock reading taken
  before its repository call.
- The client registry is fixed during a run, and clients are already authenticated.
- In the lifecycle a device poll up to its redemption, a device decision and a consent are one step
  each, since nothing suspends between their reads and writes in the in-memory form. SplitPolling
  takes polls and decisions apart.
- SHA-256 is any function to 32 bytes; the access-token issuer is a ledger of what it was asked for.

## Where the code and its documentation differ

The model follows the code.

- A consumed refresh token's replay is said to revoke its family. The code revokes only if the
  token was already consumed when the request read it (`ReplayIsNoticedAtTheRead`). A request that
  loses a race after reading a live token is refused and revokes nothing (`RaceLoserDoesNotRevoke`).
- Scope tokens are documented by their grammar, but the pattern ends in `$` and also takes one
  trailing newline. Wire text round-trips for all accepted tokens; database rows do exactly when no
  scope ends in a newline (`RowRoundTrip`, `RowRoundTripFails`). Where the registry is itself read
  from rows no such scope gets that far (`NothingIsLostInRows`). PKCE values have the same `$`.
- Section 3.5 of RFC 8628 has `slow_down` lengthen the interval. The code restarts it instead.
- The device repository's port calls a poll racing an approval benign. With the read and the save
  apart it is not: a save from a copy read before the approval undoes it, and the same device code
  can then be granted twice, to different users (`OvertakenSaveGrantsTwice`). Decisions and
  redemptions are final in a run exactly when no save meets a row decided or redeemed since the
  save's own read (`ForwardIffNeverOvertaken`), and only such a save lets a code be redeemed twice
  (`RedeemedTwiceMeansOvertaken`).

## Model

| member | source | states |
|---|---|---|
| Scopes.ParseToStr | src/oauth_lab/domain/model/scope.py:36-43 | parsing the printed form of any set of accepted tokens gives the set back |
| Scopes.NormalForm | src/oauth_lab/domain/model/scope.py:36-43 | what is printed is in normal form (tokens in strictly increasing order by code point, one blank between neighbours; said without parsing or printing), and printing the parse of a text changes nothing exactly for normal forms |
| Scopes.SameScopeIffSameNormalForm | src/oauth_lab/domain/model/scope.py:36-43 | two texts parse alike exactly when their normal forms are equal |
| Scopes.RowTakesTheWords | src/oauth_lab/adapter/outbound/persistence/sqlalchemy/refresh_token_repository.py:100-109 | a scope column is read exactly when all that stands in it between white space are tokens, and then these are the set |
| Scopes.ParseTakesTheWords | src/oauth_lab/domain/model/scope.py:13-40 | a scope text is accepted exactly when all that stands in it between blanks is printable ASCII without quote and backslash, a newline at the end aside; then exactly these words are the set |
| Scopes.Sorted | src/oauth_lab/domain/model/scope.py:42-43 | strictly increasing by code point, with exactly the set's elements |
| Scopes.LexIsByCodePoint | src/oauth_lab/domain/model/scope.py:42-43 | the sorting order is the order by code point: the first difference decides, a prefix comes first |
| Scopes.RowRoundTrip | src/oauth_lab/adapter/outbound/persistence/sqlalchemy/refresh_token_repository.py:86-109 | a row always reads back, as the set without trailing newlines; it is the set written exactly when no scope ends in a newline |
| Scopes.RowRoundTripFails | src/oauth_lab/domain/model/scope.py:15-24 | a set the constructor accepts and a row does not preserve |
| Scopes.ReadScopesAreRowSafe | src/oauth_lab/adapter/outbound/persistence/sqlalchemy/client_repository.py:42-48 | a set read from any scope column survives being stored again |
| Pkce.DecodeUnpadded | src/oauth_lab/domain/service/pkce_verifier.py:25-26 | decoding undoes the unpadded base64url encoding of every byte string, so the encoding is injective |
| Pkce.ChallengeIsAccepted | src/oauth_lab/domain/model/pkce.py:33-44 | the challenge of every verifier has exactly 43 unreserved characters, and the challenge constructor takes it |
| Pkce.AcceptedChallenges | src/oauth_lab/domain/model/pkce.py:33-44 | a challenge is accepted exactly with method S256 and 43 to 128 letters, digits and `-._~`, a newline at the end aside |
| Pkce.LegalVerifiersOpen | src/oauth_lab/domain/service/pkce_verifier.py:21-27 | every verifier of 43 to 128 such characters opens its own challenge; no other verifier opens any |
| Pkce.VerifyIffSameDigest | src/oauth_lab/domain/service/pkce_verifier.py:21-27 | a verifier opens a challenge built from another exactly when it is legal and the digests are equal |
| RefreshTokens.Repository.Rotate | src/oauth_lab/adapter/outbound/persistence/memory/refresh_token_repository.py:29-46 | result and new store of the check-and-set, error cases in order |
| RefreshTokens.Repository.RevokeFamily | src/oauth_lab/adapter/outbound/persistence/memory/refresh_token_repository.py:48-55 | the loop consumes exactly the family's live tokens, changes nothing else, and returns their number |
| RefreshTokens.RevokedTwice | src/oauth_lab/adapter/outbound/persistence/memory/refresh_token_repository.py:48-55 | after a revocation the family has no live token, earlier consumption times and other families are untouched, and a second one changes nothing |
| RefreshTokens.RotationMovesLiveness | src/oauth_lab/adapter/outbound/persistence/memory/refresh_token_repository.py:36-46 | an accepted rotation moves the family's liveness from the old token to the new one and adds one member |
| RefreshTokens.RotationOutcomes | src/oauth_lab/adapter/outbound/persistence/memory/refresh_token_repository.py:36-46 | each answer of a rotation exactly when, in terms of the stored token, and both writes or none |
| RefreshGrant.Service.Execute | src/oauth_lab/application/service/grant/refresh_token_grant.py:59-128 | the method does what the small steps do when run back to back |
| RefreshGrant.LoneRequest | src/oauth_lab/application/service/grant/refresh_token_grant.py:64-128 | a lone request succeeds exactly when its client is registered to refresh and may spend the token, and then what changes; a replay leaves its family dead; anything else changes nothing |
| RefreshGrant.RefusalReasons | src/oauth_lab/application/service/grant/refresh_token_grant.py:64-93 | each kind of refusal exactly when, in terms of the registration and the stored token; "already used" never without a race |
| RefreshGrant.OnlyTheReadDecidesRevocation | src/oauth_lab/application/service/grant/refresh_token_grant.py:72-112 | a request revokes exactly when its copy was consumed; one that lost the race changes nothing |
| RefreshRotation.StepInv | src/oauth_lab/application/service/grant/refresh_token_grant.py:72-112 | every interleaved step keeps: families are linear chains, in-flight copies agree with the store, pending replacements are distinct |
| RefreshRotation.StepEvolves | src/oauth_lab/domain/model/refresh_token.py:24-45 | no step changes a stored token except by consuming it, once |
| RefreshRuns.AtMostOneLive | src/oauth_lab/application/service/grant/refresh_token_grant.py:72-112 | in every reachable state every family has at most one unconsumed token |
| RefreshRuns.RotatedAtMostOnce | src/oauth_lab/adapter/outbound/persistence/memory/refresh_token_repository.py:36-46 | no token is the source of two accepted rotations |
| RefreshRuns.RevocationIsPermanent | src/oauth_lab/application/service/grant/refresh_token_grant.py:81-112 | after the replay branch ran, no later state has an unconsumed token of the family, whatever was in flight |
| RefreshRuns.Lineage | src/oauth_lab/application/service/grant/refresh_token_grant.py:85-112 | a family is one chain of 1 + accepted rotations; client, user and family constant, scope only narrowing, consumption time = successor's issue time before own expiry; the n-th token expires by root issue + (n+1) * ttl |
| RefreshRuns.SizeCountsRotations | src/oauth_lab/adapter/outbound/persistence/memory/refresh_token_repository.py:29-46 | a family has one member more than its accepted rotations |
| RefreshRuns.ReplayIsNoticedAtTheRead | src/oauth_lab/application/service/grant/refresh_token_grant.py:72-83 | a request comes to revoke exactly if the presented token was consumed in the store when it was read |
| RefreshRuns.RaceLoserDoesNotRevoke | src/oauth_lab/application/service/grant/refresh_token_grant.py:6-12 | a run in which a consumed token was presented and its family lives on |
| AuthorizationCodes.Repository.Consume | src/oauth_lab/adapter/outbound/persistence/memory/authorization_code_repository.py:29-36 | result and new store of the check-and-set |
| DeviceCodes.Repository.Redeem | src/oauth_lab/adapter/outbound/persistence/memory/device_code_repository.py:30-39 | result and new store of the check-and-set |
| DeviceCodes.Repository.FindByUser | src/oauth_lab/adapter/outbound/persistence/memory/device_code_repository.py:44-48 | the index lookup answers as a scan of the rows while the maps are in step |
| DeviceCodes.IndexAgreesWithScan | src/oauth_lab/adapter/outbound/persistence/memory/device_code_repository.py:44-48 | a result is the index's answer exactly when it is a scan's answer |
| DeviceCodes.SaveKeepsInStep | src/oauth_lab/adapter/outbound/persistence/memory/device_code_repository.py:25-28 | saving keeps index and rows in step exactly when the user code is no other row's and a stored row keeps its own |
| Exchanges.CodeService.Execute | src/oauth_lab/application/service/grant/authorization_code_grant.py:73-144 | the method does what the small steps do when run back to back |
| Exchanges.LoneCodeExchange | src/oauth_lab/application/service/grant/authorization_code_grant.py:78-124 | a lone exchange consumes whenever it can, succeeds exactly when the bindings then hold, burns the code otherwise, and stores one new family root exactly when the client may refresh |
| Exchanges.CodeRefusalReasons | src/oauth_lab/application/service/grant/authorization_code_grant.py:78-99 | each kind of refusal exactly when, in terms of the registration and the stored code |
| Exchanges.DeviceService.Execute | src/oauth_lab/application/service/grant/device_code_grant.py:68-146 | the method does one poll and, if it redeems, the shared tail; the index stays in step |
| Exchanges.LonePoll | src/oauth_lab/application/service/grant/device_code_grant.py:74-138 | a lone poll is answered with tokens exactly when its row is its own, timely, approved and unredeemed; then the row is redeemed, the answer is for approver and row scope, and one new family root is stored exactly when the client may refresh; otherwise tokens are unchanged and at most the poll time is written |
| Exchanges.PollRefusalReasons | src/oauth_lab/application/service/grant/device_code_grant.py:69-115 | each kind of refusal exactly when, in terms of the registration and the stored row |
| DeviceFlow.Service.RequestAuthorization | src/oauth_lab/application/service/request_device_authorization_service.py:64-94 | creates exactly the specified row, or refuses and writes nothing |
| DeviceFlow.Service.Decide | src/oauth_lab/application/service/device_consent_service.py:24-34 | decides a pending, unexpired code, or refuses and writes nothing |
| DeviceFlow.DecisionAnswers | src/oauth_lab/application/service/device_consent_service.py:24-34 | the answer by the rows themselves: unknown exactly when no row has the user code, else by that row's expiry and state; an approval puts the approver on the row, a refusal marks it denied, nothing else changes |
| DevicePolling.PollRewrites | src/oauth_lab/application/service/grant/device_code_grant.py:81-115 | a poll rewrites one row and answers as the single-row decision table says |
| DevicePolling.StepRows | src/oauth_lab/domain/model/device_code.py:40-77 | every step acts row by row; only an accepted request adds one, undecided, unpolled and unredeemed |
| DevicePolling.PhaseStep | src/oauth_lab/domain/model/device_code.py:40-77 | one step takes a device code at most one transition on: waiting to granted or rejected, granted to spent; a new one is waiting |
| DevicePolling.SpentWasGranted | src/oauth_lab/domain/model/device_code.py:12-14 | a spent code was granted to the same user, unspent, before |
| DevicePolling.PhasesOnlyAdvance | src/oauth_lab/domain/model/device_code.py:12-14 | over any stretch of a run: a decision is final, approver and redemption time write-once, identity fixed |
| DevicePolling.RowsOnlyAdvance | src/oauth_lab/domain/model/device_code.py:61-77 | between any two states of a run rows only evolve forwards |
| DevicePolling.ApprovedByItsUser | src/oauth_lab/application/service/device_consent_service.py:24-34 | an approver on a row was put there by that user, through its user code, before expiry |
| DevicePolling.DeniedByAUser | src/oauth_lab/application/service/device_consent_service.py:24-34 | a row is denied only because a user denied it through its user code, before expiry |
| DevicePolling.DecisionsTake | src/oauth_lab/application/service/device_consent_service.py:24-34 | such an approval or denial is accepted and stays on the row for the rest of the run |
| DevicePolling.LookupIsScan | src/oauth_lab/adapter/outbound/persistence/memory/device_code_repository.py:25-48 | in every reachable state the user-code lookup answers what a scan answers |
| DevicePolling.PollingBudget | src/oauth_lab/application/service/grant/device_code_grant.py:87-103 | k pending answers for one code satisfy (k-1) * interval < ttl |
| DevicePolling.GrantedInTime | src/oauth_lab/application/service/grant/device_code_grant.py:90-115 | tokens only at least one interval after the last recorded poll, before expiry, for the user who approved |
| DevicePolling.GrantedOnce | src/oauth_lab/application/service/grant/device_code_grant.py:105-115 | one device code is granted at most once in a run |
| DevicePolling.DeniedForGood | src/oauth_lab/application/service/grant/device_code_grant.py:89-93 | after a denial every later poll is answered access_denied, or expired_token once expired |
| DevicePolling.RedeemedByAPoll | src/oauth_lab/application/service/grant/device_code_grant.py:113-115 | a row is redeemed only by a poll that was granted |
| DevicePolling.ApprovedIsGranted | src/oauth_lab/application/service/grant/device_code_grant.py:87-121 | the first timely poll after an approval is granted, to the approver and for the scope of the code |
| DevicePolling.PatientNeverSlowsDown | src/oauth_lab/domain/model/device_code.py:55-59 | polls at least one interval apart are never told to slow down |
| DevicePolling.HastyOnlyRebuffed | src/oauth_lab/application/service/grant/device_code_grant.py:90-103 | after a recorded poll, polls that keep coming too soon only ever get slow_down, access_denied or expired_token |
| SplitPolling.HalvesMakeTheWhole | src/oauth_lab/application/service/grant/device_code_grant.py:81-113 | read and write with nothing in between are the atomic poll and the atomic decision |
| SplitPolling.SplitPollIsAtomicIff | src/oauth_lab/application/service/grant/device_code_grant.py:81-103 | a poll judged by a copy answers and writes what an atomic poll at the write would exactly when only poll times changed and do not change whether it is too soon |
| SplitPolling.ForwardIffNeverOvertaken | src/oauth_lab/application/port/outbound/device_code_repository.py:7-12 | in a run with reads and writes apart, decisions and redemptions are final exactly when no save meets a row decided or redeemed since its read |
| SplitPolling.RedeemedTwiceMeansOvertaken | src/oauth_lab/application/port/outbound/device_code_repository.py:7-12 | two redemptions of one code have an overtaken save of its row between them |
| SplitPolling.OvertakenSaveGrantsTwice | src/oauth_lab/application/port/outbound/device_code_repository.py:7-12 | a run in which a poll's stale save undoes an approval and one code is granted to two users |
| AuthorizeConsent.OnlyValidRequestsReachConsent | src/oauth_lab/application/service/authorize_service.py:47-144 | the consent page is shown exactly to valid requests of a signed-in user; valid includes the registered grant and a challenge of legal text whose method is S256, empty or left out |
| AuthorizeConsent.ErrorsGoOnlyToRegisteredUris | src/oauth_lab/application/service/authorize_service.py:47-124 | an error is sent to a redirect URI exactly when that URI is registered for the client and the rest is not valid, with the request's state and the first thing wrong; otherwise nothing is redirected |
| AuthorizeConsent.ConsentService.Execute | src/oauth_lab/application/service/consent_service.py:53-103 | only an approval passing every check writes, and it writes one new code |
| AuthorizeConsent.ConsentHandOff | src/oauth_lab/application/service/consent_service.py:71-97 | the form of a displayed page, approved, cannot fail and mints a code with exactly the displayed scope, redirect URI, challenge and client |
| AuthorizeConsent.NewCodeIff | src/oauth_lab/application/service/consent_service.py:53-97 | for every form: the code an approval mints, in all its fields, or the first thing wrong |
| AuthorizeConsent.CodesStayWithinRegistration | src/oauth_lab/application/service/consent_service.py:55-84 | whatever the form says, a code stays within the client's scopes and redirect URIs |
| SqlStores.UpdateByKey | src/oauth_lab/adapter/outbound/persistence/sqlalchemy/refresh_token_repository.py:47-57 | an UPDATE whose condition fixes the key touches that row or none, and the row count tells which |
| SqlStores.TokenRowRoundTrip | src/oauth_lab/adapter/outbound/persistence/sqlalchemy/refresh_token_repository.py:86-109 | a token's row reads back as the token without trailing newlines in its scopes: the identity exactly when none has one |
| SqlStores.TokenTable.Save | src/oauth_lab/adapter/outbound/persistence/sqlalchemy/refresh_token_repository.py:27-30 | INSERT: the in-memory save of the token as its row reads, on a fresh key; an integrity error on a used one |
| SqlStores.TokenTable.Rotate | src/oauth_lab/adapter/outbound/persistence/sqlalchemy/refresh_token_repository.py:39-69 | same result, error case and (replacement as its row reads) end state as the in-memory rotation on a fresh key; on a used one nothing is written |
| SqlStores.TokenTable.RevokeFamily | src/oauth_lab/adapter/outbound/persistence/sqlalchemy/refresh_token_repository.py:71-83 | same count and end state as the in-memory loop |
| SqlStores.CodeRowRoundTrip | src/oauth_lab/adapter/outbound/persistence/sqlalchemy/authorization_code_repository.py:76-106 | the same for authorization codes |
| SqlStores.CodeTable.Consume | src/oauth_lab/adapter/outbound/persistence/sqlalchemy/authorization_code_repository.py:44-73 | same result, error case and end state as the in-memory consumption |
| SqlStores.DeviceRowRoundTrip | src/oauth_lab/adapter/outbound/persistence/sqlalchemy/device_code_repository.py:75-104 | the same for device codes |
| SqlStores.DeviceTable.Save | src/oauth_lab/adapter/outbound/persistence/sqlalchemy/device_code_repository.py:25-32 | the uniqueness constraint refuses only what would put the in-memory maps out of step; otherwise same rows, and in step exactly if a stored row keeps its user code |
| SqlStores.DeviceTable.FindByUserCode | src/oauth_lab/adapter/outbound/persistence/sqlalchemy/device_code_repository.py:41-46 | the scan answers as the in-memory index |
| SqlStores.DeviceTable.Redeem | src/oauth_lab/adapter/outbound/persistence/sqlalchemy/device_code_repository.py:48-72 | same result and end state as the in-memory redemption |
| TokenExchange.ChainKeepsExactlyWhatPasses | src/oauth_lab/application/service/grant/token_exchange_grant.py:108-124 | exactly the subject's scopes that every client of a chain may have and every non-empty request names come out of it |
| TokenExchange.ExchangeNeverWidens | src/oauth_lab/application/service/grant/token_exchange_grant.py:108-124 | the result is within the subject's scope, every scope on the way and every client's registration |
| TokenExchange.ChainRefusedIff | src/oauth_lab/domain/service/scope_validator.py:14-30 | a chain is refused exactly when some hop asks for a scope no longer left by then |
| TokenExchange.GrantableIsAllOrNothing | src/oauth_lab/domain/service/scope_validator.py:14-30 | a request within what is allowed is granted, an empty one gets all that is allowed, anything beyond is refused whole; derivation is that within what subject and client have in common |
| GrantSafety.StepInv | src/oauth_lab/application/service/grant/authorization_code_grant.py:90-124 | every step of the combined system keeps: spent approvals have one holder, roots are distinct and fresh, tokens and ledger trace to their exchange |
| GrantLifecycle.TokenPartEnabled | src/oauth_lab/application/service/grant/authorization_code_grant.py:112-124 | the family root an exchange saves is always fresh to the refresh-token part |
| GrantRuns.TokenPartIsRun | src/oauth_lab/application/service/grant/refresh_token_grant.py:72-112 | every run is, seen from the refresh tokens, a run of RefreshRuns, so its theorems hold |
| GrantRuns.DevicePartIsRun | src/oauth_lab/application/service/grant/device_code_grant.py:81-115 | every run is, seen from the device codes, a run of DevicePolling |
| GrantRuns.OneLiveTokenPerApproval | src/oauth_lab/application/service/grant/device_code_grant.py:105-138 | in every reachable state an approval has at most one issuing exchange, one family and one unconsumed refresh token, and a family has one approval |
| GrantRuns.EverythingTracesToAnApproval | src/oauth_lab/application/service/grant/authorization_code_grant.py:103-124 | every access token issued and refresh token stored traces to an approval with the same user and client and no wider scope, itself within the registration |
| GrantRuns.LedgerIsComplete | src/oauth_lab/application/service/grant/device_code_grant.py:119-125 | every exchange that has issued and every refresh answered with tokens has its ledger entry, so what holds of all entries holds of all access tokens |
| GrantRuns.ReplayEndsTheApproval | src/oauth_lab/application/service/grant/refresh_token_grant.py:80-83 | after a replay revocation the approval never again has an unconsumed refresh token |
| GrantRuns.CodeWonOnce | src/oauth_lab/application/service/grant/authorization_code_grant.py:90-93 | of all requests that ever present a code at most one gets it; later ones are refused as already used |
| GrantRuns.FailedCheckBurnsTheCode | src/oauth_lab/application/service/grant/authorization_code_grant.py:90-99 | a consumed code whose checks fail is held by no exchange ever after |
| GrantRuns.SuccessMeansConsented | src/oauth_lab/application/service/grant/authorization_code_grant.py:92-109 | success only if a consent minted the code, and later the exchange's own check passed on that code, consumed in [issued, issued + ttl) of that consent; user, client and scope exactly as consented |
| GrantRuns.DeviceSuccessMeansApproved | src/oauth_lab/application/service/grant/device_code_grant.py:116-129 | a device exchange is for the user who approved that code before it expired, and for the code's client and scope |
| GrantRuns.OnlyRegisteredGrants | src/oauth_lab/application/service/grant/refresh_token_grant.py:64-67 | in every reachable state an exchange got anywhere only for a client registered for its grant, has a family only and, when done, always if the client is registered to refresh; no other client ever comes to a refresh lookup |
| SequentialRuns.BackToBackIsRunAlone | src/oauth_lab/application/service/grant/refresh_token_grant.py:59-128 | any run can go on with one refresh request run to its answer, ending in exactly the answer and tokens of the sequential program |
| SequentialRuns.BackToBackIsCodeAlone | src/oauth_lab/application/service/grant/authorization_code_grant.py:73-144 | the same for a code exchange: answer, codes and tokens |
| SequentialRuns.BackToBackIsPollAlone | src/oauth_lab/application/service/grant/device_code_grant.py:68-146 | the same for a device poll: answer, device codes and tokens |
| StoredRuns.NothingIsLostInRows | src/oauth_lab/adapter/outbound/persistence/sqlalchemy/client_repository.py:42-48 | with a registry read from rows, every token, code and device code a run ever stores is what its row reads back as |
| HonestRefresh.AlwaysInHand | src/oauth_lab/application/service/grant/refresh_token_grant.py:72-112 | while a family is used properly its one live token is the one last handed out, or the one read by the single request at work on it |
| HonestRefresh.LastHandedIsFound | src/oauth_lab/application/service/grant/refresh_token_grant.py:72-77 | the token last handed out is always found by its client |
| HonestRefresh.NeverRefused | src/oauth_lab/application/service/grant/refresh_token_grant.py:72-128 | whatever else is in flight, a proper refresh is on its way or answered with tokens for the root's user, client and scope |
| HonestRefresh.ProperRequestCompletes | src/oauth_lab/application/service/grant/refresh_token_grant.py:72-128 | its three further steps, whenever they come, complete it |
| HonestRefresh.AnswerIsHandedOn | src/oauth_lab/application/service/grant/refresh_token_grant.py:95-112 | the answer carries the live token that the next request is to present |
| HonestRun.GoodExchangeNeverRefused | src/oauth_lab/application/service/grant/authorization_code_grant.py:90-124 | an exchange in time, with the right bindings and the first to present its code, is never refused, whatever is in flight |
| HonestRun.GoodExchangeMoves | src/oauth_lab/application/service/grant/authorization_code_grant.py:90-138 | until it is done it always has a next step, and four steps complete it |
| HonestRun.HonestRunCompletes | src/oauth_lab/application/service/grant/authorization_code_grant.py:78-144 | over every run of the whole system: authorize, approve, exchange and any number of proper refreshes are never refused and are for the consenting user and exactly the consented scope |

## Left out

- GrantLifecycle.Enabled: consent, device decision and the poll up to redemption are atomic steps; with reads and writes of the device rows apart only the claims of SplitPolling are made.
- SplitPolling.ForwardIffNeverOvertaken: is about decisions and redemptions, not about the time of the last poll, which an older save may set back.
- SqlStores: sessions, isolation levels and time zones are not modelled; each repository operation is atomic.
- Exchanges.CodeService.Execute: the OpenID Connect id token, the audience and the token lifetimes in the response are not modelled.
- Exchanges.DeviceService.Execute: nor are the audience and lifetimes here.
- RefreshGrant.Service.Execute: nor here; access-token strings are opaque, only what they are issued for is kept.
- DeviceFlow.Service.RequestAuthorization: the verification URIs in the response are not modelled.
- HonestRefresh.NeverRefused: is about refreshes without a scope parameter; narrowing refreshes are in RefreshRuns.Lineage.
- Scopes.Sorted: strings are sequences of characters compared by code point; Unicode normalisation does not arise.
- JWT signing and verification, key sets, password hashing, session cookies and SHA-256 itself are library code.
- HTTP controllers, templates, redirects, the CSRF gate, the command line and the exception handler are transport.
- Client authentication, the grant registry, discovery metadata, user info and login would only add branch-by-branch members.
- The client-credentials and JWT-bearer grants keep no state; their scope rule is `TokenExchange.Grantable`.
- Demo seeding, settings, container wiring, the thin sqlite and postgres subclasses and the client repository's list columns are plumbing.
