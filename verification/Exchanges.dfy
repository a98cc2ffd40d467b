/** The two grants that turn a user's approval into tokens: the authorization-code grant
    (section 4.1.3 of RFC 6749 with RFC 7636) and the device-code grant (sections 3.4 and
    3.5 of RFC 8628). They share their tail: issue an access token, then save the root of a
    new refresh-token family when the client may refresh. */
module Exchanges {
  import opened Model
  import opened Outcomes
  import opened Pkce
  import opened Scopes
  import AuthorizationCodes
  import DeviceCodes
  import RefreshTokens

  /** The credential an approval was turned into. */
  datatype Approval = Browser(code: string) | Device(deviceCode: string)

  datatype CodeRequest = CodeRequest(
    client: Client, code: Option<string>, redirectUri: Option<string>, verifier: Option<string>)

  /** A request whose parameters are all there. */
  datatype CodeAttempt = CodeAttempt(client: Client, code: string, redirectUri: Option<string>, verifier: string)

  /** Local state of an exchange between its repository calls. */
  datatype Exchange =
    | Consuming(attempt: CodeAttempt, at: int)
    | Checking(attempt: CodeAttempt, code: AuthorizationCode)
    | Approved(approval: Approval, client: Client, userSub: string, scope: ScopeSet, at: int)
    | Saving(approval: Approval, client: Client, userSub: string, scope: ScopeSet, root: RefreshToken)
    | Done(approval: Approval, client: Client, userSub: string, scope: ScopeSet, saved: Option<RefreshToken>)
    | Refused(error: Error)

  // ---------------------------------------------------------------- steps of the code grant

  predicate Missing(parameter: Option<string>) { parameter.None? || parameter.value == "" }

  function StartCode(request: CodeRequest, now: int): Exchange {
    if !request.client.Supports(AuthorizationCodeGrant) then Refused(UnauthorizedClient)
    else if Missing(request.code) then Refused(InvalidRequest)
    else if Missing(request.verifier) then Refused(InvalidRequest)
    else Consuming(CodeAttempt(request.client, request.code.value, request.redirectUri, request.verifier.value), now)
  }

  function ConsumeCode(x: Exchange, codes: AuthorizationCodes.Store): (r: (Exchange, AuthorizationCodes.Store)) {
    match x
    case Consuming(attempt, at) =>
      (match AuthorizationCodes.Consumption(codes, attempt.code, at)
       case Ok(code) => Checking(attempt, code)
       case Err(e) => Refused(e),
       AuthorizationCodes.Consumed(codes, attempt.code, at))
    case _ => (x, codes)
  }

  /** The bindings a consumed code must satisfy: its client, its redirect URI if one is sent, and
      a legal verifier that its challenge was derived from. */
  ghost predicate BindingsHold(sha256: Digest, attempt: CodeAttempt, code: AuthorizationCode) {
    && code.clientId == attempt.client.id
    && (attempt.redirectUri.Some? ==> code.redirectUri == attempt.redirectUri.value)
    && IsPkceText(attempt.verifier) && code.pkceChallenge.value == S256(sha256, attempt.verifier)
  }

  function CheckCode(x: Exchange, sha256: Digest, now: int): Exchange {
    match x
    case Checking(attempt, code) =>
      if code.clientId != attempt.client.id then Refused(InvalidGrant(WrongClient))
      else if attempt.redirectUri.Some? && code.redirectUri != attempt.redirectUri.value then
        Refused(InvalidGrant(RedirectMismatch))
      else if !Verify(sha256, attempt.verifier, code.pkceChallenge) then Refused(InvalidGrant(PkceMismatch))
      else Approved(Browser(code.value), attempt.client, code.userSub, code.scope, now)
    case _ => x
  }

  // ---------------------------------------------------------------- the shared tail

  function IssueAccess(x: Exchange, freshValue: string, freshFamily: string, ttl: int): Exchange {
    match x
    case Approved(approval, client, userSub, scope, at) =>
      if client.Supports(RefreshTokenGrant) then
        Saving(approval, client, userSub, scope,
               RefreshToken(freshValue, freshFamily, client.id, userSub, scope, at, at + ttl, None))
      else Done(approval, client, userSub, scope, None)
    case _ => x
  }

  function SaveRoot(x: Exchange, tokens: RefreshTokens.Store): (r: (Exchange, RefreshTokens.Store)) {
    match x
    case Saving(approval, client, userSub, scope, root) =>
      (Done(approval, client, userSub, scope, Some(root)), tokens[root.value := root])
    case _ => (x, tokens)
  }

  /** The whole code exchange with nothing in between. `at` is the clock when the code is
      consumed, `now` the clock after the checks. */
  function CodeAlone(sha256: Digest, request: CodeRequest, codes: AuthorizationCodes.Store, tokens: RefreshTokens.Store,
                     at: int, now: int, freshValue: string, freshFamily: string, ttl: int)
    : (Exchange, AuthorizationCodes.Store, RefreshTokens.Store)
  {
    var (x, codes') := ConsumeCode(StartCode(request, at), codes);
    var (y, tokens') := SaveRoot(IssueAccess(CheckCode(x, sha256, now), freshValue, freshFamily, ttl), tokens);
    (y, codes', tokens')
  }

  /** The request gets as far as consuming its code. */
  predicate CanConsume(request: CodeRequest, codes: AuthorizationCodes.Store, at: int) {
    && AuthorizationCodeGrant in request.client.allowedGrants && IsGiven(request.code) && IsGiven(request.verifier)
    && request.code.value in codes
    && codes[request.code.value].consumedAt.None? && at < codes[request.code.value].expiresAt
  }

  predicate IsGiven(parameter: Option<string>) {
    parameter.Some? && |parameter.value| > 0
  }

  /** A lone exchange consumes the code whenever it can, and succeeds exactly when the code's
      bindings then hold. On success the response is for the code's user and scope, and a client
      that may refresh gets one new unconsumed token of a new family for them. On failure no
      token is stored, and if the code was consumed every retry finds it used. */
  lemma LoneCodeExchange(sha256: Digest, request: CodeRequest,
                         codes: AuthorizationCodes.Store, tokens: RefreshTokens.Store,
                         at: int, now: int, freshValue: string, freshFamily: string, ttl: int)
    requires forall v | v in codes :: codes[v].value == v
    ensures
      var (x, codes', tokens') := CodeAlone(sha256, request, codes, tokens, at, now, freshValue, freshFamily, ttl);
      && (x.Done? || x.Refused?)
      && (CanConsume(request, codes, at) ==>
            && var c, code := request.code.value, codes[request.code.value];
               && codes' == codes[c := code.(consumedAt := Some(at))]
               && AuthorizationCodes.Consumption(codes', c, now) == Err(InvalidGrant(AlreadyUsed))
               && var attempt := CodeAttempt(request.client, c, request.redirectUri, request.verifier.value);
               (x.Done? <==> BindingsHold(sha256, attempt, code))
               && (x.Done? ==>
                     && x.approval == Browser(c) && x.client == request.client
                     && x.userSub == code.userSub && x.scope == code.scope))
      && (!CanConsume(request, codes, at) ==> x.Refused? && codes' == codes)
      && (x.Refused? ==> tokens' == tokens)
      && (x.Done? ==>
            && (x.saved.Some? <==> RefreshTokenGrant in request.client.allowedGrants)
            && tokens' == (if x.saved.Some? then tokens[freshValue := x.saved.value] else tokens)
            && (x.saved.Some? ==>
                  x.saved.value == RefreshToken(freshValue, freshFamily, request.client.id, x.userSub, x.scope,
                                                now, now + ttl, None)))
  {
    if IsGiven(request.verifier) { ShapeIsText(request.verifier.value); }
    if IsGiven(request.code) { AuthorizationCodes.ConsumedAtMostOnce(codes, request.code.value, at, now); }
  }

  /** Which refusal a lone code exchange gets, each exactly when. The last three come after the
      code has been consumed. */
  lemma CodeRefusalReasons(sha256: Digest, request: CodeRequest, codes: AuthorizationCodes.Store,
                           tokens: RefreshTokens.Store, at: int, now: int,
                           freshValue: string, freshFamily: string, ttl: int)
    requires forall v | v in codes :: codes[v].value == v
    ensures var refusal := CodeAlone(sha256, request, codes, tokens, at, now, freshValue, freshFamily, ttl).0;
            var supported := AuthorizationCodeGrant in request.client.allowedGrants;
            var complete := supported && IsGiven(request.code) && IsGiven(request.verifier);
            var known := complete && request.code.value in codes;
            && (refusal == Refused(UnauthorizedClient) <==> !supported)
            && (refusal == Refused(InvalidRequest) <==> supported && !complete)
            && (refusal == Refused(InvalidGrant(NotFound)) <==> complete && !known)
            && (refusal == Refused(InvalidGrant(AlreadyUsed)) <==> known && codes[request.code.value].consumedAt.Some?)
            && (refusal == Refused(InvalidGrant(Expired))
                <==> known && codes[request.code.value].consumedAt.None? && at >= codes[request.code.value].expiresAt)
            && (refusal == Refused(InvalidGrant(WrongClient))
                <==> CanConsume(request, codes, at) && codes[request.code.value].clientId != request.client.id)
            && (refusal == Refused(InvalidGrant(RedirectMismatch))
                <==> && CanConsume(request, codes, at) && codes[request.code.value].clientId == request.client.id
                     && request.redirectUri.Some? && codes[request.code.value].redirectUri != request.redirectUri.value)
            && (refusal == Refused(InvalidGrant(PkceMismatch))
                <==> && CanConsume(request, codes, at) && codes[request.code.value].clientId == request.client.id
                     && (request.redirectUri.Some? ==>
                           codes[request.code.value].redirectUri == request.redirectUri.value)
                     && !(IsPkceText(request.verifier.value)
                          && codes[request.code.value].pkceChallenge.value == S256(sha256, request.verifier.value)))
  {
    if IsGiven(request.verifier) { ShapeIsText(request.verifier.value); }
  }

  // ---------------------------------------------------------------- the device poll

  datatype PollRequest = PollRequest(client: Client, deviceCode: Option<string>)

  /** One poll, up to and including the redemption, as the decision order of the source. */
  function Poll(request: PollRequest, devices: DeviceCodes.Store, now: int): (r: (Exchange, DeviceCodes.Store)) {
    if !request.client.Supports(DeviceCodeGrant) then (Refused(UnauthorizedClient), devices)
    else if Missing(request.deviceCode) then (Refused(InvalidRequest), devices)
    else
      var d := request.deviceCode.value;
      if d !in devices.byDeviceCode then (Refused(InvalidGrant(NotFound)), devices)
      else
        var code := devices.byDeviceCode[d];
        if code.clientId != request.client.id then (Refused(InvalidGrant(WrongClient)), devices)
        else if code.IsExpired(now) then (Refused(ExpiredToken), devices)
        else if code.IsDenied() then (Refused(AccessDenied), devices)
        else if !code.CanPollAt(now) then (Refused(SlowDown), DeviceCodes.Saved(devices, code.MarkPolled(now)))
        else if code.IsPending() then (Refused(AuthorizationPending), DeviceCodes.Saved(devices, code.MarkPolled(now)))
        else
          match DeviceCodes.Redemption(devices, d, now)
          case None => (Refused(InvalidGrant(AlreadyUsed)), devices)
          case Some(redeemed) =>
            (Approved(Device(d), request.client, redeemed.userSub.value, redeemed.scope, now),
             DeviceCodes.Redeemed(devices, d, now))
  }

  function PollAlone(request: PollRequest, devices: DeviceCodes.Store, tokens: RefreshTokens.Store,
                     now: int, freshValue: string, freshFamily: string, ttl: int)
    : (Exchange, DeviceCodes.Store, RefreshTokens.Store)
  {
    var (x, devices') := Poll(request, devices, now);
    var (y, tokens') := SaveRoot(IssueAccess(x, freshValue, freshFamily, ttl), tokens);
    (y, devices', tokens')
  }

  /** The poll names a row of its own client, which may use the grant. */
  predicate IsOwnPoll(request: PollRequest, devices: DeviceCodes.Store) {
    && DeviceCodeGrant in request.client.allowedGrants
    && IsGiven(request.deviceCode) && request.deviceCode.value in devices.byDeviceCode
    && devices.byDeviceCode[request.deviceCode.value].clientId == request.client.id
  }

  /** Its own row is unexpired, not denied, and was last polled at least one interval ago. */
  predicate IsTimelyPoll(request: PollRequest, devices: DeviceCodes.Store, now: int) {
    && IsOwnPoll(request, devices)
    && var row := devices.byDeviceCode[request.deviceCode.value];
       && now < row.expiresAt && !row.denied
       && (row.lastPolledAt.None? || row.lastPolledAt.value + row.interval <= now)
  }

  /** And is approved and unredeemed. */
  predicate MayRedeem(request: PollRequest, devices: DeviceCodes.Store, now: int) {
    && IsTimelyPoll(request, devices, now)
    && var row := devices.byDeviceCode[request.deviceCode.value];
       row.userSub.Some? && row.redeemedAt.None?
  }

  /** A lone poll is answered with tokens exactly when it may redeem its row. Then the row is
      marked redeemed and nothing else in the device store changes; the response is for the user
      who approved and the row's scope; and a client that may refresh gets one new unconsumed
      token of a new family for them. A poll that is not answered with tokens leaves the tokens
      as they were, and writes at most the poll time on its own row. */
  lemma LonePoll(request: PollRequest, devices: DeviceCodes.Store, tokens: RefreshTokens.Store,
                 now: int, freshValue: string, freshFamily: string, ttl: int)
    requires DeviceCodes.InStep(devices)
    ensures
      var (x, devices', tokens') := PollAlone(request, devices, tokens, now, freshValue, freshFamily, ttl);
      && (x.Done? || x.Refused?)
      && (x.Done? <==> MayRedeem(request, devices, now))
      && (x.Done? ==>
            && var d, row := request.deviceCode.value, devices.byDeviceCode[request.deviceCode.value];
               var client, user := request.client, row.userSub.value;
               var root := RefreshToken(freshValue, freshFamily, client.id, user, row.scope, now, now + ttl, None);
               var mayRefresh := RefreshTokenGrant in client.allowedGrants;
               && x == Done(Device(d), client, user, row.scope, if mayRefresh then Some(root) else None)
               && tokens' == (if mayRefresh then tokens[freshValue := root] else tokens)
               && devices' == devices.(byDeviceCode := devices.byDeviceCode[d := row.(redeemedAt := Some(now))]))
      && (x.Refused? ==>
            && tokens' == tokens
            && devices' == if x.error == SlowDown || x.error == AuthorizationPending
                           then devices.(byDeviceCode := devices.byDeviceCode[request.deviceCode.value :=
                                  devices.byDeviceCode[request.deviceCode.value].(lastPolledAt := Some(now))])
                           else devices)
  {
    if IsOwnPoll(request, devices) {
      var row := devices.byDeviceCode[request.deviceCode.value];
      assert devices.byUserCode[row.userCode := row.deviceCode] == devices.byUserCode;
    }
  }

  /** Which refusal a lone poll gets, each exactly when. */
  lemma PollRefusalReasons(request: PollRequest, devices: DeviceCodes.Store, now: int)
    requires DeviceCodes.InStep(devices)
    ensures var refusal := Poll(request, devices, now).0;
            var supported := DeviceCodeGrant in request.client.allowedGrants;
            var named := supported && IsGiven(request.deviceCode);
            && (refusal == Refused(UnauthorizedClient) <==> !supported)
            && (refusal == Refused(InvalidRequest) <==> supported && !named)
            && (refusal == Refused(InvalidGrant(NotFound)) <==>
                  named && request.deviceCode.value !in devices.byDeviceCode)
            && (refusal == Refused(InvalidGrant(WrongClient)) <==>
                  named && request.deviceCode.value in devices.byDeviceCode && !IsOwnPoll(request, devices))
            && (IsOwnPoll(request, devices) ==>
                  var row := devices.byDeviceCode[request.deviceCode.value];
                  var timely := IsTimelyPoll(request, devices, now);
                  && (refusal == Refused(ExpiredToken) <==> now >= row.expiresAt)
                  && (refusal == Refused(AccessDenied) <==> now < row.expiresAt && row.denied)
                  && (refusal == Refused(SlowDown) <==> now < row.expiresAt && !row.denied && !timely)
                  && (refusal == Refused(AuthorizationPending) <==> timely && row.userSub.None?)
                  && (refusal == Refused(InvalidGrant(AlreadyUsed)) <==>
                        timely && row.userSub.Some? && row.redeemedAt.Some?)
                  && (refusal.Approved? <==> MayRedeem(request, devices, now)))
  {}

  // ---------------------------------------------------------------- the services

  class CodeService {
    const codes: AuthorizationCodes.Repository
    const tokens: RefreshTokens.Repository
    const sha256: Digest
    const refreshTtl: int

    constructor (codes: AuthorizationCodes.Repository, tokens: RefreshTokens.Repository,
                 sha256: Digest, refreshTtl: int)
      ensures this.codes == codes && this.tokens == tokens && this.sha256 == sha256 && this.refreshTtl == refreshTtl
    {
      this.codes, this.tokens, this.sha256, this.refreshTtl := codes, tokens, sha256, refreshTtl;
    }

    method Execute(request: CodeRequest, at: int, now: int, freshValue: string, freshFamily: string)
      returns (outcome: Exchange)
      requires forall v | v in codes.store :: codes.store[v].value == v
      modifies codes, tokens
      ensures (outcome, codes.store, tokens.store)
              == CodeAlone(sha256, request, old(codes.store), old(tokens.store), at, now,
                           freshValue, freshFamily, refreshTtl)
    {
      if !request.client.Supports(AuthorizationCodeGrant) {
        return Refused(UnauthorizedClient);
      }
      if Missing(request.code) || Missing(request.verifier) {
        return Refused(InvalidRequest);
      }
      var consumption := codes.Consume(request.code.value, at);
      if consumption.Err? {
        return Refused(consumption.error);
      }
      var code := consumption.value;
      if code.clientId != request.client.id {
        return Refused(InvalidGrant(WrongClient));
      }
      if request.redirectUri.Some? && code.redirectUri != request.redirectUri.value {
        return Refused(InvalidGrant(RedirectMismatch));
      }
      if !Verify(sha256, request.verifier.value, code.pkceChallenge) {
        return Refused(InvalidGrant(PkceMismatch));
      }
      var saved: Option<RefreshToken> := None;
      if request.client.Supports(RefreshTokenGrant) {
        var root := RefreshToken(freshValue, freshFamily, request.client.id, code.userSub, code.scope,
                                 now, now + refreshTtl, None);
        tokens.Save(root);
        saved := Some(root);
      }
      return Done(Browser(request.code.value), request.client, code.userSub, code.scope, saved);
    }
  }

  class DeviceService {
    const devices: DeviceCodes.Repository
    const tokens: RefreshTokens.Repository
    const refreshTtl: int

    constructor (devices: DeviceCodes.Repository, tokens: RefreshTokens.Repository, refreshTtl: int)
      ensures this.devices == devices && this.tokens == tokens && this.refreshTtl == refreshTtl
    {
      this.devices, this.tokens, this.refreshTtl := devices, tokens, refreshTtl;
    }

    method Execute(request: PollRequest, now: int, freshValue: string, freshFamily: string) returns (outcome: Exchange)
      requires DeviceCodes.InStep(devices.Contents())
      modifies devices, tokens
      ensures (outcome, devices.Contents(), tokens.store)
              == PollAlone(request, old(devices.Contents()), old(tokens.store), now,
                           freshValue, freshFamily, refreshTtl)
      ensures DeviceCodes.InStep(devices.Contents())
    {
      if !request.client.Supports(DeviceCodeGrant) {
        return Refused(UnauthorizedClient);
      }
      if Missing(request.deviceCode) {
        return Refused(InvalidRequest);
      }
      var found := devices.FindByDevice(request.deviceCode.value);
      if found.None? {
        return Refused(InvalidGrant(NotFound));
      }
      var code := found.value;
      if code.clientId != request.client.id {
        return Refused(InvalidGrant(WrongClient));
      }
      if code.IsExpired(now) {
        return Refused(ExpiredToken);
      }
      if code.IsDenied() {
        return Refused(AccessDenied);
      }
      if !code.CanPollAt(now) {
        DeviceCodes.SaveKeepsInStep(devices.Contents(), code.MarkPolled(now));
        devices.Save(code.MarkPolled(now));
        return Refused(SlowDown);
      }
      if code.IsPending() {
        DeviceCodes.SaveKeepsInStep(devices.Contents(), code.MarkPolled(now));
        devices.Save(code.MarkPolled(now));
        return Refused(AuthorizationPending);
      }
      DeviceCodes.RedeemKeepsInStep(devices.Contents(), request.deviceCode.value, now);
      var redemption := devices.Redeem(request.deviceCode.value, now);
      if redemption.None? {
        return Refused(InvalidGrant(AlreadyUsed));
      }
      var redeemed := redemption.value;
      assert redeemed.userSub.Some?;
      var saved: Option<RefreshToken> := None;
      if request.client.Supports(RefreshTokenGrant) {
        var root := RefreshToken(freshValue, freshFamily, request.client.id, redeemed.userSub.value, redeemed.scope,
                                 now, now + refreshTtl, None);
        tokens.Save(root);
        saved := Some(root);
      }
      return Done(Device(request.deviceCode.value), request.client, redeemed.userSub.value, redeemed.scope, saved);
    }
  }
}
