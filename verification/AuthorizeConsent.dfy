/** The browser flow up to the authorization code: the validation chain of the
    authorization endpoint (section 4.1.1 of RFC 6749), and the user's consent. */
module AuthorizeConsent {
  import opened DeviceFlow
  import opened Exchanges
  import opened Model
  import opened Outcomes
  import opened Pkce
  import opened Scopes
  import AuthorizationCodes

  datatype User = User(sub: string, username: string)

  datatype Session = Session(userSub: string, csrfToken: string)

  datatype AuthorizeRequest = AuthorizeRequest(
    responseType: Option<string>,
    clientId: Option<string>,
    redirectUri: Option<string>,
    scope: Option<string>,
    state: Option<string>,
    codeChallenge: Option<string>,
    codeChallengeMethod: Option<string>)

  /** The four outcomes; a redirectable error goes back to the client, a request error does not. */
  datatype AuthorizeResult =
    | AuthenticationRequired
    | ConsentRequired(client: Client, user: User, requestedScope: ScopeSet, redirectUri: string,
                      state: Option<string>, codeChallenge: PkceChallenge, csrfToken: string)
    | RequestError(code: string)
    | ResponseError(redirectUri: string, error: string, state: Option<string>)

  /** `None` or empty falls back to S256. */
  function MethodOrDefault(challengeMethod: Option<string>): string {
    if Missing(challengeMethod) then "S256" else challengeMethod.value
  }

  /** `session` is what the signer makes of the session cookie. The only exception is the
      client-id constructor's. */
  function Authorize(clients: Clients, users: map<string, User>, request: AuthorizeRequest, session: Option<Session>)
    : Result<AuthorizeResult>
  {
    if Missing(request.clientId) then Ok(RequestError("invalid_request"))
    else if !IsClientId(request.clientId.value) then Err(BadValue)
    else if request.clientId.value !in clients then Ok(RequestError("invalid_client"))
    else
      var client := clients[request.clientId.value];
      if Missing(request.redirectUri) then Ok(RequestError("invalid_request"))
      else if request.redirectUri.value !in client.redirectUris then Ok(RequestError("invalid_request"))
      else
        var uri := request.redirectUri.value;
        if request.responseType != Some("code") then
          Ok(ResponseError(uri, "unsupported_response_type", request.state))
        else if Missing(request.codeChallenge) then Ok(ResponseError(uri, "invalid_request", request.state))
        else
          var challenge := MakeChallenge(request.codeChallenge.value, MethodOrDefault(request.codeChallengeMethod));
          if challenge.Err? then Ok(ResponseError(uri, "invalid_request", request.state))
          else
            var parsed := Parse(request.scope);
            if parsed.Err? then Ok(ResponseError(uri, "invalid_scope", request.state))
            else if parsed.value != {} && !(parsed.value <= client.allowedScopes) then
              Ok(ResponseError(uri, "invalid_scope", request.state))
            else
              var scope := if parsed.value == {} then client.allowedScopes else parsed.value;
              if !client.Supports(AuthorizationCodeGrant) then
                Ok(ResponseError(uri, "unauthorized_client", request.state))
              else if session.None? || session.value.userSub !in users then Ok(AuthenticationRequired)
              else
                Ok(ConsentRequired(client, users[session.value.userSub], scope, uri, request.state,
                                   challenge.value, session.value.csrfToken))
  }

  // ---------------------------------------------------------------- consent

  datatype ConsentDecision = ConsentDecision(
    approved: bool,
    userSub: string,
    clientId: string,
    redirectUri: string,
    scope: Option<string>,
    state: Option<string>,
    codeChallenge: string,
    codeChallengeMethod: string)

  datatype ConsentResult =
    | ConsentGranted(redirectUri: string, code: string, state: Option<string>)
    | ConsentDenied(redirectUri: string, state: Option<string>)

  /** The re-validation of the form's client and redirect URI, common to both answers. */
  function FormFault(clients: Clients, decision: ConsentDecision): Option<Error> {
    if !IsClientId(decision.clientId) then Some(BadValue)
    else if decision.clientId !in clients then Some(InvalidRequest)
    else if decision.redirectUri !in clients[decision.clientId].redirectUris then Some(InvalidRequest)
    else if !clients[decision.clientId].Supports(AuthorizationCodeGrant) then Some(InvalidRequest)
    else None
  }

  /** The code an approving decision mints, or why it is refused. */
  function NewCode(clients: Clients, decision: ConsentDecision, now: int, ttl: int, value: string)
    : Result<AuthorizationCode>
  {
    if FormFault(clients, decision).Some? then Err(FormFault(clients, decision).value)
    else
      var client := clients[decision.clientId];
      var challenge := MakeChallenge(decision.codeChallenge, MethodOrDefault(Some(decision.codeChallengeMethod)));
      if challenge.Err? then Err(challenge.error)
      else
        var parsed := Parse(decision.scope);
        if parsed.Err? then Err(parsed.error)
        else if parsed.value != {} && !(parsed.value <= client.allowedScopes) then Err(InvalidScope)
        else
          var scope := if parsed.value != {} then parsed.value else client.allowedScopes;
          Ok(AuthorizationCode(value, client.id, decision.userSub, decision.redirectUri, scope,
                               challenge.value, now, now + ttl, None, None))
  }

  class ConsentService {
    const clients: Clients
    const codes: AuthorizationCodes.Repository
    const codeTtl: int

    constructor (clients: Clients, codes: AuthorizationCodes.Repository, codeTtl: int)
      ensures this.clients == clients && this.codes == codes && this.codeTtl == codeTtl
    {
      this.clients, this.codes, this.codeTtl := clients, codes, codeTtl;
    }

    /** Only an approval that passes every check writes anything: the one new code. */
    method Execute(decision: ConsentDecision, now: int, value: string) returns (r: Result<ConsentResult>)
      modifies codes
      ensures decision.approved ==>
        match NewCode(clients, decision, now, codeTtl, value)
        case Ok(code) =>
          && r == Ok(ConsentGranted(decision.redirectUri, value, decision.state))
          && codes.store == old(codes.store)[value := code]
        case Err(e) => r == Err(e) && codes.store == old(codes.store)
      ensures !decision.approved ==>
        && codes.store == old(codes.store)
        && r == match FormFault(clients, decision)
                case None => Ok(ConsentDenied(decision.redirectUri, decision.state))
                case Some(e) => Err(e)
    {
      if !IsClientId(decision.clientId) {
        return Err(BadValue);
      }
      if decision.clientId !in clients {
        return Err(InvalidRequest);
      }
      var client := clients[decision.clientId];
      if decision.redirectUri !in client.redirectUris {
        return Err(InvalidRequest);
      }
      if !client.Supports(AuthorizationCodeGrant) {
        return Err(InvalidRequest);
      }
      if !decision.approved {
        return Ok(ConsentDenied(decision.redirectUri, decision.state));
      }
      var challenge := MakeChallenge(decision.codeChallenge, MethodOrDefault(Some(decision.codeChallengeMethod)));
      if challenge.Err? {
        return Err(challenge.error);
      }
      var parsed := Parse(decision.scope);
      if parsed.Err? {
        return Err(parsed.error);
      }
      var granted := client.allowedScopes;
      if parsed.value != {} {
        if !(parsed.value <= client.allowedScopes) {
          return Err(InvalidScope);
        }
        granted := parsed.value;
      }
      var code := AuthorizationCode(value, client.id, decision.userSub, decision.redirectUri, granted,
                                    challenge.value, now, now + codeTtl, None, None);
      codes.Save(code);
      return Ok(ConsentGranted(decision.redirectUri, code.value, decision.state));
    }
  }

  // ---------------------------------------------------------------- what the chain guarantees

  /** It names a registered client and one of that client's redirect URIs. */
  ghost predicate HasRegisteredTarget(clients: Clients, request: AuthorizeRequest) {
    && request.clientId.Some? && 0 < |request.clientId.value| <= 255 && request.clientId.value in clients
    && request.redirectUri.Some? && request.redirectUri.value != ""
    && request.redirectUri.value in clients[request.clientId.value].redirectUris
  }

  /** It brings a challenge of legal text, for S256: named, left out or left empty. */
  ghost predicate BringsChallenge(request: AuthorizeRequest) {
    && request.codeChallenge.Some? && IsPkceText(request.codeChallenge.value)
    && request.codeChallengeMethod in {None, Some(""), Some("S256")}
  }

  lemma AcceptedChallenge(request: AuthorizeRequest)
    ensures BringsChallenge(request) <==>
              && !Missing(request.codeChallenge)
              && MakeChallenge(request.codeChallenge.value, MethodOrDefault(request.codeChallengeMethod)).Ok?
  {
    if request.codeChallenge.Some? {
      AcceptedChallenges(request.codeChallenge.value, MethodOrDefault(request.codeChallengeMethod));
      if request.codeChallengeMethod.Some? && request.codeChallengeMethod.value == "" {
        assert request.codeChallengeMethod == Some("");
      }
    }
  }

  /** Its scope text is well formed and within the registration. */
  ghost predicate AsksWithin(client: Client, scope: Option<string>) {
    Parse(scope).Ok? && Parse(scope).value <= client.allowedScopes
  }

  /** A request that may be put before the user. */
  ghost predicate IsPresentable(clients: Clients, request: AuthorizeRequest) {
    && HasRegisteredTarget(clients, request)
    && var client := clients[request.clientId.value];
       && AuthorizationCodeGrant in client.allowedGrants
       && request.responseType == Some("code") && BringsChallenge(request) && AsksWithin(client, request.scope)
  }

  /** The consent page is shown exactly for a presentable request of a signed-in user, and shows
      that user, that client, the redirect URI and challenge of the request, and the requested
      scope or all the client is allowed. */
  lemma OnlyValidRequestsReachConsent(clients: Clients, users: map<string, User>, request: AuthorizeRequest,
                                      session: Option<Session>)
    ensures var r := Authorize(clients, users, request, session);
            && (r.Ok? && r.value.ConsentRequired? <==>
                  IsPresentable(clients, request) && session.Some? && session.value.userSub in users)
            && (r == Ok(AuthenticationRequired) <==>
                  IsPresentable(clients, request) && (session.None? || session.value.userSub !in users))
            && (r.Ok? && r.value.ConsentRequired? ==>
                  && r.value.client == clients[request.clientId.value] && r.value.user == users[session.value.userSub]
                  && r.value.redirectUri == request.redirectUri.value && r.value.state == request.state
                  && r.value.csrfToken == session.value.csrfToken
                  && r.value.codeChallenge == PkceChallenge(request.codeChallenge.value, "S256")
                  && (Parse(request.scope).value != {} ==> r.value.requestedScope == Parse(request.scope).value)
                  && (Parse(request.scope).value == {} ==> r.value.requestedScope == r.value.client.allowedScopes))
  {
    AcceptedChallenge(request);
  }

  /** Errors are sent to a redirect URI only if it is registered for the named client, and then
      it is the requested one, with the request's state and the first thing wrong; without a
      registered target nothing is ever redirected. */
  lemma ErrorsGoOnlyToRegisteredUris(clients: Clients, users: map<string, User>, request: AuthorizeRequest,
                                     session: Option<Session>)
    ensures var r := Authorize(clients, users, request, session);
            && (r.Ok? && r.value.ResponseError? <==>
                  HasRegisteredTarget(clients, request) && !IsPresentable(clients, request))
            && (r.Ok? && r.value.ResponseError? ==> r.value.redirectUri == request.redirectUri.value)
            && (r.Err? || r.value.RequestError? <==> !HasRegisteredTarget(clients, request))
            && (r.Ok? && r.value.ResponseError? ==>
                  var client := clients[request.clientId.value];
                  r.value == ResponseError(
                    request.redirectUri.value,
                    if request.responseType != Some("code") then "unsupported_response_type"
                    else if !BringsChallenge(request) then "invalid_request"
                    else if !AsksWithin(client, request.scope) then "invalid_scope"
                    else "unauthorized_client",
                    request.state))
            && (!HasRegisteredTarget(clients, request) ==>
                  var id := if request.clientId.Some? then request.clientId.value else "";
                  r == if |id| > 255 then Err(BadValue)
                       else if id != "" && id !in clients then Ok(RequestError("invalid_client"))
                       else Ok(RequestError("invalid_request")))
  {
    AcceptedChallenge(request);
  }

  /** The form the consent page posts back: the displayed values, the scope as text. */
  function Echo(shown: AuthorizeResult, approved: bool, userSub: string): ConsentDecision
    requires shown.ConsentRequired?
  {
    ConsentDecision(approved, userSub, shown.client.id, shown.redirectUri, Some(ToStr(shown.requestedScope)),
                    Some(if shown.state.Some? then shown.state.value else ""),
                    shown.codeChallenge.value, shown.codeChallenge.challengeMethod)
  }

  /** If the page was shown and its form comes back approved, consent cannot fail, and the
      code it mints carries exactly the displayed scope, redirect URI, challenge and client,
      also when the displayed scope is empty. */
  lemma ConsentHandOff(clients: Clients, users: map<string, User>, request: AuthorizeRequest, session: Option<Session>,
                       userSub: string, now: int, ttl: int, value: string)
    requires IsRegistry(clients)
    requires var r := Authorize(clients, users, request, session); r.Ok? && r.value.ConsentRequired?
    ensures var shown := Authorize(clients, users, request, session).value;
            NewCode(clients, Echo(shown, true, userSub), now, ttl, value)
            == Ok(AuthorizationCode(value, shown.client.id, userSub, shown.redirectUri, shown.requestedScope,
                                    shown.codeChallenge, now, now + ttl, None, None))
    ensures forall approved :: var form := Echo(Authorize(clients, users, request, session).value, approved, userSub);
              && form.approved == approved && form.userSub == userSub && form.codeChallengeMethod == "S256"
              && form.clientId == request.clientId.value && form.redirectUri == request.redirectUri.value
              && form.state == Some(if request.state == None then "" else request.state.value)
  {
    var shown := Authorize(clients, users, request, session).value;
    ParseToStr(shown.requestedScope);
  }

  /** An approval mints a code exactly when the form names a registered client and redirect URI, a
      legal challenge for S256, and a scope within the registration. The code is for just what the
      form says, with all the client is allowed where it asks for no scope. Otherwise the first
      thing wrong is named. */
  lemma NewCodeIff(clients: Clients, decision: ConsentDecision, now: int, ttl: int, value: string)
    requires IsRegistry(clients)
    ensures var r := NewCode(clients, decision, now, ttl, value);
            var id := decision.clientId;
            if !(0 < |id| <= 255) then r == Err(BadValue)
            else if id !in clients || decision.redirectUri !in clients[id].redirectUris
                    || AuthorizationCodeGrant !in clients[id].allowedGrants then r == Err(InvalidRequest)
            else if decision.codeChallengeMethod !in {"", "S256"} || !IsPkceText(decision.codeChallenge)
                    || Parse(decision.scope).Err? then r == Err(BadValue)
            else
              var requested, allowed := Parse(decision.scope).value, clients[id].allowedScopes;
              if requested <= allowed then
                r == Ok(AuthorizationCode(value, id, decision.userSub, decision.redirectUri,
                                          if requested == {} then allowed else requested,
                                          PkceChallenge(decision.codeChallenge, "S256"), now, now + ttl, None, None))
              else r == Err(InvalidScope)
  {
    ShapeIsText(decision.codeChallenge);
  }

  /** A refusal of consent is answered as one exactly when the form names a registered client with
      the grant and one of its redirect URIs. */
  lemma FormFaults(clients: Clients, decision: ConsentDecision)
    ensures FormFault(clients, decision)
            == if !(0 < |decision.clientId| <= 255) then Some(BadValue)
               else if decision.clientId in clients
                       && decision.redirectUri in clients[decision.clientId].redirectUris
                       && AuthorizationCodeGrant in clients[decision.clientId].allowedGrants then None
               else Some(InvalidRequest)
  {}

  /** Whatever the posted form says, a minted code never exceeds the client's registration, and no
      other challenge method than S256 gets through. */
  lemma CodesStayWithinRegistration(clients: Clients, decision: ConsentDecision, now: int, ttl: int, value: string)
    requires IsRegistry(clients) && NewCode(clients, decision, now, ttl, value).Ok?
    ensures var code := NewCode(clients, decision, now, ttl, value).value;
            && code.clientId == decision.clientId && code.clientId in clients && code.userSub == decision.userSub
            && code.scope <= clients[code.clientId].allowedScopes
            && code.redirectUri in clients[code.clientId].redirectUris
            && (Parse(decision.scope).value != {} ==> code.scope == Parse(decision.scope).value)
            && code.pkceChallenge.challengeMethod == "S256" && code.consumedAt.None?
            && decision.codeChallengeMethod in {"", "S256"} && IsPkceText(code.pkceChallenge.value)
  {
    ShapeIsText(decision.codeChallenge);
  }
}
