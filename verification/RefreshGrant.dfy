/** The refresh-token grant (section 6 of RFC 6749, section 2.2.2 of RFC 9700).

    A request is a small program that reaches the repository at two points: the
    lookup, and then either the rotation or the family revocation. `Progress` is
    the request's local state between those points, so that the same steps can be
    run back to back (`Execute`) or interleaved with other requests
    (module RefreshRotation). */
module RefreshGrant {
  import opened Model
  import opened Outcomes
  import opened Scopes
  import RefreshTokens

  datatype Request = Request(client: Client, presented: Option<string>, scope: ScopeSet)

  /** A request that names a token. */
  datatype Attempt = Attempt(client: Client, presented: string, scope: ScopeSet)

  /** What a token response is issued for; the token strings themselves are opaque. */
  datatype Issued = Issued(subject: string, clientId: string, scope: ScopeSet, refreshToken: Option<string>)

  datatype Progress =
    | Looking(attempt: Attempt)
    | Found(attempt: Attempt, seen: RefreshToken)
    | Revoking(attempt: Attempt, seen: RefreshToken, at: int)
    | Rotating(attempt: Attempt, seen: RefreshToken, replacement: RefreshToken)
    | Issuing(issue: RefreshToken)
    | Finished(outcome: Result<Issued>)

  // ---------------------------------------------------------------- the steps

  function Start(request: Request): Progress {
    if !request.client.Supports(RefreshTokenGrant) then Finished(Err(UnauthorizedClient))
    else if request.presented.None? || request.presented.value == "" then Finished(Err(InvalidRequest))
    else Looking(Attempt(request.client, request.presented.value, request.scope))
  }

  function Look(p: Progress, store: RefreshTokens.Store): Progress {
    match p
    case Looking(attempt) =>
      if attempt.presented !in store then Finished(Err(InvalidGrant(NotFound)))
      else
        var seen := store[attempt.presented];
        if seen.clientId != attempt.client.id then Finished(Err(InvalidGrant(WrongClient)))
        else Found(attempt, seen)
    case _ => p
  }

  function GrantedScope(requested: ScopeSet, seen: RefreshToken): ScopeSet {
    if requested != {} then requested * seen.scope else seen.scope
  }

  /** Everything between the lookup's answer and the second repository call: the
      clock is read, the token copy judged, and the replacement minted. */
  function Decide(p: Progress, now: int, freshValue: string, ttl: int): Progress {
    match p
    case Found(attempt, seen) =>
      if seen.IsConsumed() then Revoking(attempt, seen, now)
      else if seen.IsExpired(now) then Finished(Err(InvalidGrant(Expired)))
      else if attempt.scope != {} && !(attempt.scope <= seen.scope) then Finished(Err(InvalidScope))
      else
        Rotating(attempt, seen,
          RefreshToken(freshValue, seen.familyId, seen.clientId, seen.userSub,
                       GrantedScope(attempt.scope, seen), now, now + ttl, None))
    case _ => p
  }

  function Commit(p: Progress, store: RefreshTokens.Store): (r: (Progress, RefreshTokens.Store)) {
    match p
    case Revoking(attempt, seen, at) =>
      (Finished(Err(InvalidGrant(ReplayDetected))), RefreshTokens.Revoked(store, seen.familyId, at))
    case Rotating(attempt, seen, replacement) =>
      var fault := RefreshTokens.RotationFault(store, seen.value, replacement.issuedAt);
      (if fault.Some? then Finished(Err(InvalidGrant(fault.value))) else Issuing(replacement),
       RefreshTokens.Rotated(store, seen.value, replacement, replacement.issuedAt))
    case _ => (p, store)
  }

  function Issue(p: Progress): Progress {
    match p
    case Issuing(t) => Finished(Ok(Issued(t.userSub, t.clientId, t.scope, Some(t.value))))
    case _ => p
  }

  /** One request run from start to finish with no other request in between. */
  function RunAlone(request: Request, store: RefreshTokens.Store, now: int, freshValue: string, ttl: int)
    : (Progress, RefreshTokens.Store)
  {
    var (p, after) := Commit(Decide(Look(Start(request), store), now, freshValue, ttl), store);
    (Issue(p), after)
  }

  // ---------------------------------------------------------------- the service

  class Service {
    const tokens: RefreshTokens.Repository
    const refreshTtl: int

    constructor (tokens: RefreshTokens.Repository, refreshTtl: int)
      ensures this.tokens == tokens && this.refreshTtl == refreshTtl
    {
      this.tokens, this.refreshTtl := tokens, refreshTtl;
    }

    /** `now` is the clock reading and `freshValue` the random value the request draws. */
    method Execute(request: Request, now: int, freshValue: string) returns (outcome: Result<Issued>)
      requires RefreshTokens.Keyed(tokens.store)
      modifies tokens
      ensures (Finished(outcome), tokens.store) == RunAlone(request, old(tokens.store), now, freshValue, refreshTtl)
    {
      if !request.client.Supports(RefreshTokenGrant) {
        return Err(UnauthorizedClient);
      }
      if request.presented.None? || request.presented.value == "" {
        return Err(InvalidRequest);
      }
      var found := tokens.FindByValue(request.presented.value);
      if found.None? {
        return Err(InvalidGrant(NotFound));
      }
      var token := found.value;
      if token.clientId != request.client.id {
        return Err(InvalidGrant(WrongClient));
      }
      if token.IsConsumed() {
        var _ := tokens.RevokeFamily(token.familyId, now);
        return Err(InvalidGrant(ReplayDetected));
      }
      if token.IsExpired(now) {
        return Err(InvalidGrant(Expired));
      }
      var granted := token.scope;
      if request.scope != {} {
        if !(request.scope <= token.scope) {
          return Err(InvalidScope);
        }
        granted := request.scope * token.scope;
      }
      var replacement := RefreshToken(freshValue, token.familyId, token.clientId, token.userSub,
                                      granted, now, now + refreshTtl, None);
      var rotation := tokens.Rotate(token.value, replacement, now);
      match rotation {
        case Err(error) => return Err(error);
        case Ok(_) => return Ok(Issued(token.userSub, request.client.id, granted, Some(replacement.value)));
      }
    }
  }

  // ---------------------------------------------------------------- what a lone request does

  /** The request names a stored token of its own client, which may use the grant. */
  predicate IsOwn(request: Request, store: RefreshTokens.Store) {
    && RefreshTokenGrant in request.client.allowedGrants
    && request.presented.Some? && request.presented.value != "" && request.presented.value in store
    && store[request.presented.value].clientId == request.client.id
  }

  /** And may spend it: it is unused and unexpired, and the scope request does not exceed it. */
  predicate MaySpend(request: Request, store: RefreshTokens.Store, now: int) {
    && IsOwn(request, store)
    && var t := store[request.presented.value];
       t.consumedAt.None? && now < t.expiresAt && request.scope <= t.scope
  }

  /** The request replays a consumed token of its own client. */
  predicate Replays(request: Request, store: RefreshTokens.Store) {
    IsOwn(request, store) && store[request.presented.value].consumedAt.Some?
  }

  /** A lone request succeeds exactly when it may spend the token; then the token is the
      only one consumed and the only new one is its unconsumed successor, with the requested
      scope or, if none was requested, the old one. A replay leaves its family without a live
      token. Every other request leaves the store as it was; and a client without the grant is
      told just that. */
  lemma LoneRequest(request: Request, store: RefreshTokens.Store, now: int, freshValue: string, ttl: int)
    requires RefreshTokens.Keyed(store) && freshValue !in store
    ensures
      var (p, after) := RunAlone(request, store, now, freshValue, ttl);
      && p.Finished?
      && (p.outcome == Err(UnauthorizedClient) <==> RefreshTokenGrant !in request.client.allowedGrants)
      && (p.outcome.Ok? <==> MaySpend(request, store, now))
      && (MaySpend(request, store, now) ==>
            && var spent := store[request.presented.value];
               var scope := if request.scope == {} then spent.scope else request.scope;
               && p.outcome.value == Issued(spent.userSub, request.client.id, scope, Some(freshValue))
               && after.Keys == store.Keys + {freshValue}
               && after[freshValue] == spent.(value := freshValue, scope := scope, issuedAt := now,
                                             expiresAt := now + ttl, consumedAt := None)
               && after[spent.value] == spent.(consumedAt := Some(now))
               && forall v | v in store && v != spent.value :: after[v] == store[v])
      && (Replays(request, store) ==>
            && p.outcome == Err(InvalidGrant(ReplayDetected))
            && RefreshTokens.IsRevocation(store, after, store[request.presented.value].familyId, now)
            && RefreshTokens.Live(after, store[request.presented.value].familyId) == {})
      && (!MaySpend(request, store, now) && !Replays(request, store) ==> after == store)
  {
    if Replays(request, store) {
      RefreshTokens.RevokedTwice(store, store[request.presented.value].familyId, now, now);
    } else if MaySpend(request, store, now) {
      var t := store[request.presented.value];
      assert request.scope * t.scope == request.scope;
    }
  }

  /** Which refusal a lone request gets, each exactly when; "already used" is only ever the
      answer to a request that lost a race. */
  lemma RefusalReasons(request: Request, store: RefreshTokens.Store, now: int, freshValue: string, ttl: int)
    requires RefreshTokens.Keyed(store)
    ensures var refusal := RunAlone(request, store, now, freshValue, ttl).0;
            var supported := RefreshTokenGrant in request.client.allowedGrants;
            var named := supported && request.presented.Some? && request.presented.value != "";
            && refusal.Finished?
            && (refusal.outcome == Err(UnauthorizedClient) <==> !supported)
            && (refusal.outcome == Err(InvalidRequest) <==> supported && !named)
            && (refusal.outcome == Err(InvalidGrant(NotFound)) <==> named && request.presented.value !in store)
            && (refusal.outcome == Err(InvalidGrant(WrongClient))
                <==> named && request.presented.value in store && !IsOwn(request, store))
            && (refusal.outcome == Err(InvalidGrant(ReplayDetected)) <==> Replays(request, store))
            && (refusal.outcome == Err(InvalidGrant(Expired))
                <==> IsOwn(request, store) && store[request.presented.value].consumedAt.None?
                     && now >= store[request.presented.value].expiresAt)
            && (refusal.outcome == Err(InvalidScope)
                <==> IsOwn(request, store) && store[request.presented.value].consumedAt.None?
                     && now < store[request.presented.value].expiresAt
                     && !(request.scope <= store[request.presented.value].scope))
            && (refusal.outcome.Ok? <==> MaySpend(request, store, now))
            && refusal.outcome != Err(InvalidGrant(AlreadyUsed))
  {}

  /** Under interleaving a request revokes its family exactly when the copy it read was
      already consumed. One that read a live copy and lost the race is told the token is already
      used, and changes nothing, however the token was consumed meanwhile. */
  lemma OnlyTheReadDecidesRevocation(attempt: Attempt, seen: RefreshToken, now: int, freshValue: string, ttl: int,
                                     atCommit: RefreshTokens.Store)
    ensures Decide(Found(attempt, seen), now, freshValue, ttl).Revoking? <==> seen.consumedAt.Some?
    ensures seen.consumedAt.None? && seen.value in atCommit && atCommit[seen.value].consumedAt.Some? ==>
              var judged := Decide(Found(attempt, seen), now, freshValue, ttl);
              var (p, after) := Commit(judged, atCommit);
              && after == atCommit && Issue(p).Finished? && Issue(p).outcome.Err?
              && (judged.Rotating? ==> Issue(p).outcome == Err(InvalidGrant(AlreadyUsed)))
  {}
}
