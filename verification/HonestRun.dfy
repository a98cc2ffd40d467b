/** The honest path through the whole system, with any number of other requests in flight: a
    client that asks for what it is registered for, is approved, exchanges its code in time and
    before anyone else presents it, and then refreshes properly, is never refused, and gets
    exactly the consented scope throughout. The conditions are about what requests do and when,
    not about what the stores hold. */
module HonestRun {
  import opened AuthorizeConsent
  import opened DeviceFlow
  import opened Exchanges
  import opened GrantLifecycle
  import opened GrantRuns
  import opened Model
  import opened Outcomes
  import opened Pkce
  import opened Scopes
  import HonestRefresh

  // ---------------------------------------------------------------- up to the code

  /** What the client starts from: a registration that allows both grants, a registered redirect
      URI, a legal verifier, and a scope request within its registration. */
  ghost predicate IsHonest(clients: Clients, users: map<string, User>, request: AuthorizeRequest,
                           session: Option<Session>, sha256: Digest, verifier: string)
  {
    && IsRegistry(clients)
    && request.clientId.Some? && 0 < |request.clientId.value| <= 255 && request.clientId.value in clients
    && var client := clients[request.clientId.value];
       && AuthorizationCodeGrant in client.allowedGrants && RefreshTokenGrant in client.allowedGrants
       && request.redirectUri.Some? && request.redirectUri.value != ""
       && request.redirectUri.value in client.redirectUris
       && request.responseType == Some("code")
       && IsPkceText(verifier)
       && request.codeChallenge == Some(S256(sha256, verifier))
       && request.codeChallengeMethod in {None, Some(""), Some("S256")}
       && Parse(request.scope).Ok? && Parse(request.scope).value <= client.allowedScopes
       && session.Some? && session.value.userSub in users
  }

  /** The scope such a request is for. */
  function ConsentedScope(client: Client, request: AuthorizeRequest): ScopeSet
    requires Parse(request.scope).Ok?
  {
    if Parse(request.scope).value == {} then client.allowedScopes else Parse(request.scope).value
  }

  /** The code the honest client's request ends in, once its user has approved. */
  function ExpectedCode(client: Client, request: AuthorizeRequest, userSub: string, sha256: Digest, verifier: string,
                        consentAt: int, codeTtl: int, value: string): AuthorizationCode
    requires Parse(request.scope).Ok? && request.redirectUri.Some?
  {
    AuthorizationCode(value, client.id, userSub, request.redirectUri.value, ConsentedScope(client, request),
                      PkceChallenge(S256(sha256, verifier), "S256"), consentAt, consentAt + codeTtl, None, None)
  }

  lemma HonestApproval(clients: Clients, users: map<string, User>, request: AuthorizeRequest, session: Option<Session>,
                       sha256: Digest, verifier: string, consentAt: int, codeTtl: int, value: string)
    requires IsHonest(clients, users, request, session, sha256, verifier)
    ensures var shown := Authorize(clients, users, request, session);
            && shown.Ok? && shown.value.ConsentRequired?
            && NewCode(clients, Echo(shown.value, true, session.value.userSub), consentAt, codeTtl, value)
               == Ok(ExpectedCode(clients[request.clientId.value], request, session.value.userSub, sha256, verifier,
                                  consentAt, codeTtl, value))
  {
    ChallengeIsAccepted(sha256, verifier);
    OnlyValidRequestsReachConsent(clients, users, request, session);
    ConsentHandOff(clients, users, request, session, session.value.userSub, consentAt, codeTtl, value);
  }

  // ---------------------------------------------------------------- the exchange

  /** What the exchange of a code goes through when nothing goes wrong. */
  ghost predicate IsOnCourse(x: Exchange, attempt: CodeAttempt, at: int, code: AuthorizationCode) {
    match x
    case Consuming(a, t) => a == attempt && t == at
    case Checking(a, c) => a == attempt && IsLater(c, code)
    case Approved(approval, client, userSub, scope, _) =>
      approval == Browser(code.value) && client == attempt.client && userSub == code.userSub && scope == code.scope
    case Saving(approval, client, userSub, scope, _) =>
      approval == Browser(code.value) && client == attempt.client && userSub == code.userSub && scope == code.scope
    case Done(approval, client, userSub, scope, saved) =>
      && approval == Browser(code.value) && client == attempt.client && userSub == code.userSub && scope == code.scope
      && saved.Some?
    case Refused(_) => false
  }

  /** The attempt meets the code's bindings, in time, for a client that may refresh. */
  ghost predicate IsGoodAttempt(sha256: Digest, attempt: CodeAttempt, at: int, code: AuthorizationCode) {
    && attempt.code == code.value && BindingsHold(sha256, attempt, code) && at < code.expiresAt
    && RefreshTokenGrant in attempt.client.allowedGrants
  }

  /** No other request presents `c` before exchange `id` has consumed it. */
  ghost predicate IsFirstToPresent(r: Run, id: nat, c: string) {
    forall k: nat | Presents(r, k, c) && r.actions[k].id != id ::
      id in r.states[k].exchanges && !r.states[k].exchanges[id].Consuming?
  }

  /** Step `i` mints `code`, and step `b` begins its exchange `id`. */
  ghost predicate IsVisit(r: Run, i: nat, b: nat, id: nat, code: AuthorizationCode, attempt: CodeAttempt) {
    && i < b < |r.actions| && b < |r.states| && Minted(r, i, code.value, code)
    && r.actions[b].Begin? && r.actions[b].id == id
    && StartCode(r.actions[b].request, r.states[b].Clock()) == Consuming(attempt, r.states[b].Clock())
    && IsGoodAttempt(r.states[b].config.sha256, attempt, r.states[b].Clock(), code)
    && IsFirstToPresent(r, id, code.value)
  }

  lemma {:induction false} NotBegunBefore(r: Run, n: nat, b: nat, id: nat)
    requires IsRun(r) && n <= b < |r.states| && id !in r.states[b].exchanges
    ensures id !in r.states[n].exchanges
    decreases b
  {
    if n < b {
      assert r.states[b] == Do(r.states[b - 1], r.actions[b - 1]);
      NotBegunBefore(r, n, b - 1, id);
    }
  }

  /** A code changes only when it is presented. */
  lemma CodeWaits(r: Run, n: nat, c: string)
    requires IsRun(r) && n < |r.actions| && c in r.states[n].codes && !Presents(r, n, c)
    ensures c in r.states[n + 1].codes && r.states[n + 1].codes[c] == r.states[n].codes[c]
  {
    assert r.states[n + 1] == Do(r.states[n], r.actions[n]);
  }

  lemma {:induction false} CodeWaitsLong(r: Run, m: nat, n: nat, c: string)
    requires IsRun(r) && m <= n < |r.states| && c in r.states[m].codes
    requires forall k: nat | m <= k < n :: !Presents(r, k, c)
    ensures c in r.states[n].codes && r.states[n].codes[c] == r.states[m].codes[c]
    decreases n
  {
    if m < n {
      CodeWaitsLong(r, m, n - 1, c);
      CodeWaits(r, n - 1, c);
    }
  }

  /** Until its exchange begins the code lies untouched. */
  lemma UntouchedUntilBegun(r: Run, m: nat, b: nat, id: nat, c: string)
    requires IsRun(r) && m <= b < |r.states| && id !in r.states[b].exchanges && IsFirstToPresent(r, id, c)
    requires c in r.states[m].codes
    ensures c in r.states[b].codes && r.states[b].codes[c] == r.states[m].codes[c]
  {
    forall k: nat | m <= k < b ensures !Presents(r, k, c) { NotBegunBefore(r, k, b, id); }
    CodeWaitsLong(r, m, b, c);
  }

  lemma {:induction false} SameConfig(r: Run, n: nat)
    requires IsRun(r) && n < |r.states|
    ensures r.states[n].config == r.states[0].config && r.states[n].tokens.ttl == r.states[0].tokens.ttl
  {
    if n > 0 {
      SameConfig(r, n - 1);
      assert r.states[n] == Do(r.states[n - 1], r.actions[n - 1]);
    }
  }

  /** The exchange is on course and its code, until consumed, is as minted. */
  ghost predicate IsSafe(s: State, id: nat, code: AuthorizationCode, attempt: CodeAttempt, at: int) {
    && id in s.exchanges && IsOnCourse(s.exchanges[id], attempt, at, code)
    && (s.exchanges[id].Consuming? ==> code.value in s.codes && s.codes[code.value] == code)
  }

  lemma BegunIsSafe(r: Run, i: nat, b: nat, id: nat, code: AuthorizationCode, attempt: CodeAttempt)
    requires IsRun(r) && IsVisit(r, i, b, id, code, attempt)
    ensures IsSafe(r.states[b + 1], id, code, attempt, r.states[b].Clock())
  {
    assert r.states[i + 1] == Do(r.states[i], r.actions[i]);
    assert r.states[b + 1] == Do(r.states[b], r.actions[b]);
    UntouchedUntilBegun(r, i + 1, b, id, code.value);
    CodeWaits(r, b, code.value);
  }

  /** One step of the run keeps the exchange on course. */
  lemma OnCourseStep(r: Run, n: nat, id: nat, code: AuthorizationCode, attempt: CodeAttempt, at: int)
    requires IsRun(r) && n < |r.actions| && IsFirstToPresent(r, id, code.value)
    requires IsGoodAttempt(r.states[n].config.sha256, attempt, at, code) && code.consumedAt.None?
    requires IsSafe(r.states[n], id, code, attempt, at)
    ensures IsSafe(r.states[n + 1], id, code, attempt, at)
  {
    var s, a := r.states[n], r.actions[n];
    assert r.states[n + 1] == Do(s, a);
    if Moved(s, a).Some? && Moved(s, a).value.0 == id {
      if s.exchanges[id].Checking? { ShapeIsText(attempt.verifier); }
    } else if s.exchanges[id].Consuming? {
      CodeWaits(r, n, code.value);
    }
  }

  lemma {:induction false} StaysSafe(r: Run, m: nat, n: nat, id: nat, code: AuthorizationCode,
                                     attempt: CodeAttempt, at: int)
    requires IsRun(r) && m <= n < |r.states| && IsFirstToPresent(r, id, code.value)
    requires IsGoodAttempt(r.states[0].config.sha256, attempt, at, code) && code.consumedAt.None?
    requires IsSafe(r.states[m], id, code, attempt, at)
    ensures IsSafe(r.states[n], id, code, attempt, at)
    decreases n
  {
    if m < n {
      StaysSafe(r, m, n - 1, id, code, attempt, at);
      SameConfig(r, n - 1);
      OnCourseStep(r, n - 1, id, code, attempt, at);
    }
  }

  /** From its beginning on, a good attempt that is the first to present its code is never
      refused, whatever is in flight: it is on its way or done, with a refresh family. */
  lemma GoodExchangeNeverRefused(r: Run, i: nat, b: nat, id: nat, code: AuthorizationCode,
                                 attempt: CodeAttempt, n: nat)
    requires IsRun(r) && IsVisit(r, i, b, id, code, attempt) && b < n < |r.states|
    ensures IsSafe(r.states[n], id, code, attempt, r.states[b].Clock())
  {
    BegunIsSafe(r, i, b, id, code, attempt);
    SameConfig(r, b);
    StaysSafe(r, b + 1, n, id, code, attempt, r.states[b].Clock());
  }

  /** The step that takes an exchange on. */
  function NextStep(x: Exchange, id: nat, value: string, family: string): Action {
    match x
    case Consuming(_, _) => Consume(id)
    case Checking(_, _) => Check(id)
    case Approved(_, _, _, _, _) => Issue(id, value, family)
    case _ => SaveFamily(id)
  }

  function StepsLeft(x: Exchange): nat {
    match x
    case Consuming(_, _) => 4
    case Checking(_, _) => 3
    case Approved(_, _, _, _, _) => 2
    case Saving(_, _, _, _, _) => 1
    case _ => 0
  }

  lemma NextStepMoves(s: State, id: nat, attempt: CodeAttempt, at: int, code: AuthorizationCode,
                      value: string, family: string)
    requires id in s.exchanges && IsOnCourse(s.exchanges[id], attempt, at, code) && !s.exchanges[id].Done?
    requires IsGoodAttempt(s.config.sha256, attempt, at, code) && code.consumedAt.None?
    requires s.exchanges[id].Consuming? ==> code.value in s.codes && s.codes[code.value] == code
    requires value !in s.tokens.used && family !in s.tokens.used
    ensures var a := NextStep(s.exchanges[id], id, value, family);
            && Enabled(s, a) && Moved(s, a).Some? && Moved(s, a).value.0 == id
            && StepsLeft(Moved(s, a).value.1) == StepsLeft(s.exchanges[id]) - 1
            && (StepsLeft(s.exchanges[id]) == 1 ==> Moved(s, a).value.1.Done?)
  {
    ShapeIsText(attempt.verifier);
  }

  /** An exchange on its way always has a step of its own it may take next, given fresh values,
      and each such step takes it one stage further: four of them complete it. */
  lemma GoodExchangeMoves(r: Run, i: nat, b: nat, id: nat, code: AuthorizationCode, attempt: CodeAttempt, n: nat,
                          value: string, family: string)
    requires IsRun(r) && IsVisit(r, i, b, id, code, attempt) && b < n < |r.states|
    requires value !in r.states[n].tokens.used && family !in r.states[n].tokens.used
    ensures id in r.states[n].exchanges
    ensures var x := r.states[n].exchanges[id];
            var a := NextStep(x, id, value, family);
            !x.Done? ==>
              && Enabled(r.states[n], a) && id in Do(r.states[n], a).exchanges
              && StepsLeft(Do(r.states[n], a).exchanges[id]) == StepsLeft(x) - 1
              && (StepsLeft(x) == 1 ==> Do(r.states[n], a).exchanges[id].Done?)
  {
    GoodExchangeNeverRefused(r, i, b, id, code, attempt, n);
    SameConfig(r, b);
    SameConfig(r, n);
    if !r.states[n].exchanges[id].Done? {
      NextStepMoves(r.states[n], id, attempt, r.states[b].Clock(), code, value, family);
    }
  }

  // ---------------------------------------------------------------- from approval to the last refresh

  /** Step `i` is the consent of the signed-in user to what the honest client asked for, posted
      back from the page shown. */
  ghost predicate ApprovesHonestly(r: Run, i: nat, users: map<string, User>, request: AuthorizeRequest,
                                   session: Option<Session>, verifier: string, codeValue: string)
  {
    && i < |r.actions| && i < |r.states|
    && IsHonest(r.states[i].config.clients, users, request, session, r.states[i].config.sha256, verifier)
    && var shown := Authorize(r.states[i].config.clients, users, request, session);
       && shown.Ok? && shown.value.ConsentRequired?
       && r.actions[i] == Consent(Echo(shown.value, true, session.value.userSub), codeValue)
  }

  /** Step `b` begins the exchange of that code by the same client, in time, with its verifier
      and, if it sends one, the same redirect URI. */
  ghost predicate BeginsHonestly(r: Run, i: nat, b: nat, id: nat, client: Client, request: AuthorizeRequest,
                                 verifier: string, codeValue: string)
  {
    && i < b < |r.actions| && b < |r.states| && codeValue != ""
    && r.actions[b].Begin? && r.actions[b].id == id
    && (var sent := r.actions[b].request;
        && sent.client == client && sent.code == Some(codeValue) && sent.verifier == Some(verifier)
        && (sent.redirectUri.Some? ==> sent.redirectUri == request.redirectUri))
    && r.states[b].Clock() < r.states[i].Clock() + r.states[i].config.codeTtl
  }

  lemma HonestVisit(r: Run, i: nat, b: nat, id: nat, users: map<string, User>, request: AuthorizeRequest,
                    session: Option<Session>, verifier: string, codeValue: string)
    requires IsRun(r) && ApprovesHonestly(r, i, users, request, session, verifier, codeValue)
    requires var client := r.states[i].config.clients[request.clientId.value];
             BeginsHonestly(r, i, b, id, client, request, verifier, codeValue)
    requires IsFirstToPresent(r, id, codeValue)
    ensures var client := r.states[i].config.clients[request.clientId.value];
            var code := ExpectedCode(client, request, session.value.userSub, r.states[i].config.sha256, verifier,
                                     r.states[i].Clock(), r.states[i].config.codeTtl, codeValue);
            IsVisit(r, i, b, id, code, CodeAttempt(client, codeValue, r.actions[b].request.redirectUri, verifier))
  {
    SameConfig(r, i);
    SameConfig(r, b);
    var config := r.states[i].config;
    HonestApproval(config.clients, users, request, session, config.sha256, verifier,
                   r.states[i].Clock(), config.codeTtl, codeValue);
    VerifyIffSameDigest(config.sha256, verifier, verifier);
  }

  /** Authorize, approve, exchange, refresh: the exchange is never refused; once it has saved its
      family the response is for the consenting user and exactly the consented scope; and if the
      family is then used properly, no refresh is ever refused and every answer is tokens for that
      user, client and scope. Any other requests may be in flight throughout. */
  lemma HonestRunCompletes(r: Run, i: nat, b: nat, m: nat, id: nat,
                           users: map<string, User>, request: AuthorizeRequest, session: Option<Session>,
                           verifier: string, codeValue: string)
    requires IsRun(r) && ApprovesHonestly(r, i, users, request, session, verifier, codeValue)
    requires var client := r.states[i].config.clients[request.clientId.value];
             BeginsHonestly(r, i, b, id, client, request, verifier, codeValue)
    requires IsFirstToPresent(r, id, codeValue)
    requires b < m < |r.actions| && r.actions[m] == SaveFamily(id)
    ensures forall n: nat | b < n < |r.states| ::
              id in r.states[n].exchanges && !r.states[n].exchanges[id].Refused?
    ensures id in r.states[m].exchanges && r.states[m].exchanges[id].Saving?
    ensures var client, user := r.states[i].config.clients[request.clientId.value], session.value.userSub;
            var scope, root := ConsentedScope(client, request), r.states[m].exchanges[id].root;
            && r.states[m + 1].exchanges[id] == Done(Browser(codeValue), client, user, scope, Some(root))
            && root.userSub == user && root.clientId == client.id && root.scope == scope
            && HonestRefresh.LastHanded(TokenPart(r), root.familyId, m + 1) == root.value
            && (HonestRefresh.IsProperFrom(TokenPart(r), m + 1, root.familyId) ==> AlwaysAnswered(r, m, root))
  {
    var client, user := r.states[i].config.clients[request.clientId.value], session.value.userSub;
    var code := ExpectedCode(client, request, user, r.states[i].config.sha256, verifier,
                             r.states[i].Clock(), r.states[i].config.codeTtl, codeValue);
    var attempt := CodeAttempt(client, codeValue, r.actions[b].request.redirectUri, verifier);
    HonestVisit(r, i, b, id, users, request, session, verifier, codeValue);
    forall n: nat | b < n < |r.states| ensures id in r.states[n].exchanges && !r.states[n].exchanges[id].Refused? {
      GoodExchangeNeverRefused(r, i, b, id, code, attempt, n);
    }
    GoodExchangeNeverRefused(r, i, b, id, code, attempt, m);
    FamilyIsSaved(r, m, id);
    var root := r.states[m].exchanges[id].root;
    if HonestRefresh.IsProperFrom(TokenPart(r), m + 1, root.familyId) { ProperRefreshesAnswered(r, m, root); }
  }

  lemma FamilyIsSaved(r: Run, m: nat, id: nat)
    requires IsRun(r) && m < |r.actions| && r.actions[m] == SaveFamily(id)
    ensures id in r.states[m].exchanges && r.states[m].exchanges[id].Saving? && RootMatches(r.states[m].exchanges[id])
    ensures var Saving(approval, client, userSub, scope, root) := r.states[m].exchanges[id];
            && id in r.states[m + 1].exchanges
            && r.states[m + 1].exchanges[id] == Done(approval, client, userSub, scope, Some(root))
            && HonestRefresh.Starts(TokenPart(r), m, root)
            && HonestRefresh.LastHanded(TokenPart(r), root.familyId, m + 1) == root.value
  {
    Reachable(r, m);
    assert r.states[m + 1] == Do(r.states[m], r.actions[m]);
    assert ExchangeOk(r.states[m], r.states[m].exchanges[id]);
  }

  /** Every request that finds a token of the root's family after step `m` is at work on it, not
      to revoke it, or answered with tokens for the root's user, client and scope. */
  ghost predicate AlwaysAnswered(r: Run, m: nat, root: RefreshToken)
    requires |r.states| == |r.actions| + 1
  {
    forall k: nat, reader: nat, n: nat
      | m < k < n < |r.states| && HonestRefresh.Finds(TokenPart(r), k, reader, root.familyId) ::
      reader in r.states[n].tokens.requests && HonestRefresh.IsOnItsWay(r.states[n].tokens.requests[reader], root)
  }

  lemma ProperRefreshesAnswered(r: Run, m: nat, root: RefreshToken)
    requires IsRun(r) && HonestRefresh.Starts(TokenPart(r), m, root)
    requires HonestRefresh.IsProperFrom(TokenPart(r), m + 1, root.familyId)
    ensures AlwaysAnswered(r, m, root)
  {
    TokenPartIsRun(r);
    forall k: nat, reader: nat, n: nat
      | m < k < n < |r.states| && HonestRefresh.Finds(TokenPart(r), k, reader, root.familyId)
      ensures reader in r.states[n].tokens.requests
      ensures HonestRefresh.IsOnItsWay(r.states[n].tokens.requests[reader], root)
    {
      HonestRefresh.NeverRefused(TokenPart(r), m, root, k, reader, n);
    }
  }
}
