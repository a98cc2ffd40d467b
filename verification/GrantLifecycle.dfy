/** The whole lifecycle in one transition system: approvals (browser consent and device
    consent), their exchange for tokens, and refresh-token rotation. Code exchanges and refresh
    requests interleave at the repository operations; a device poll is one step up to its
    redemption, and its token issuance and family creation are further steps. */
module GrantLifecycle {
  import opened AuthorizeConsent
  import opened Exchanges
  import opened Model
  import opened Outcomes
  import opened Pkce
  import opened Scopes
  import AuthorizationCodes
  import DeviceCodes
  import DevicePolling
  import RefreshRotation
  import RefreshTokens

  // ---------------------------------------------------------------- state and steps

  datatype Cause = ByApproval(approval: Approval) | ByRefresh(family: string)

  /** An entry of the issuance ledger: what the token issuer was asked for, and by which path. */
  datatype AccessToken = AccessToken(subject: string, clientId: string, scope: ScopeSet, cause: Cause)

  datatype Config = Config(clients: Clients, sha256: Digest, codeTtl: int, deviceTtl: int, interval: int)

  datatype State = State(
    config: Config,
    tokens: RefreshRotation.State,
    codes: AuthorizationCodes.Store,
    devices: DeviceCodes.Store,
    exchanges: map<nat, Exchange>,
    ledger: seq<AccessToken>)
  {
    function Clock(): int { tokens.clock }

    /** The device part, as the system of module DevicePolling. */
    function DeviceView(): DevicePolling.State {
      DevicePolling.State(tokens.clock, config.clients, config.deviceTtl, config.interval, devices)
    }
  }

  datatype Action =
    | Tick(now: int)
    | Refresh(step: RefreshRotation.Action)
    | Respond(refreshId: nat)
    | Consent(decision: ConsentDecision, value: string)
    | Begin(id: nat, request: CodeRequest)
    | Consume(id: nat)
    | Check(id: nat)
    | Device(deviceStep: DevicePolling.Action)
    | PollDevice(id: nat, poll: PollRequest)
    | Issue(id: nat, value: string, family: string)
    | SaveFamily(id: nat)

  /** Freshness is all that is asked of the random source; nothing is asked of timing. */
  ghost predicate Enabled(s: State, a: Action) {
    match a
    case Tick(now) => s.Clock() <= now
    case Refresh(step) =>
      (step.Arrive? || step.Lookup? || step.Judge? || step.Write?) && RefreshRotation.Enabled(s.tokens, step)
    case Respond(id) => id in s.tokens.requests && s.tokens.requests[id].Issuing?
    case Consent(_, value) => value !in s.codes && value !in s.tokens.used
    case Begin(id, _) => id !in s.exchanges
    case Consume(id) => id in s.exchanges && s.exchanges[id].Consuming?
    case Check(id) => id in s.exchanges && s.exchanges[id].Checking?
    case Device(step) => (step.Create? || step.Choose?) && DevicePolling.Enabled(s.DeviceView(), step)
    case PollDevice(id, _) => id !in s.exchanges
    case Issue(id, value, family) =>
      && id in s.exchanges && s.exchanges[id].Approved?
      && value !in s.tokens.used && family !in s.tokens.used
    case SaveFamily(id) => id in s.exchanges && s.exchanges[id].Saving?
  }

  /** What the step is to the refresh-token part. */
  ghost function TokenStep(s: State, a: Action): RefreshRotation.Action {
    match a
    case Tick(now) => RefreshRotation.Tick(now)
    case Refresh(step) => step
    case Respond(id) => RefreshRotation.Respond(id)
    case Consent(_, value) => RefreshRotation.Reserve({value})
    case Begin(_, request) => RefreshRotation.Reserve(if request.code.Some? then {request.code.value} else {})
    case Issue(_, value, family) => RefreshRotation.Reserve({value, family})
    case SaveFamily(id) =>
      if id in s.exchanges && s.exchanges[id].Saving? then RefreshRotation.StartFamily(s.exchanges[id].root)
      else RefreshRotation.Reserve({})
    case _ => RefreshRotation.Reserve({})
  }

  /** What the step is to the device part. */
  ghost function DeviceStep(s: State, a: Action): DevicePolling.Action {
    match a
    case Tick(now) => DevicePolling.Tick(now)
    case Device(step) => step
    case PollDevice(_, poll) => DevicePolling.Ask(poll)
    case _ => DevicePolling.Tick(s.Clock())
  }

  ghost function CodesAfter(s: State, a: Action): AuthorizationCodes.Store {
    match a
    case Consent(decision, value) =>
      var r := NewCode(s.config.clients, decision, s.Clock(), s.config.codeTtl, value);
      if decision.approved && r.Ok? then s.codes[value := r.value] else s.codes
    case Consume(id) => if id in s.exchanges then ConsumeCode(s.exchanges[id], s.codes).1 else s.codes
    case _ => s.codes
  }

  /** The exchange a step creates or moves, and its new state. */
  ghost function Moved(s: State, a: Action): Option<(nat, Exchange)> {
    match a
    case Begin(id, request) => Some((id, StartCode(request, s.Clock())))
    case Consume(id) => if id in s.exchanges then Some((id, ConsumeCode(s.exchanges[id], s.codes).0)) else None
    case Check(id) =>
      if id in s.exchanges then Some((id, CheckCode(s.exchanges[id], s.config.sha256, s.Clock()))) else None
    case PollDevice(id, poll) => Some((id, Poll(poll, s.devices, s.Clock()).0))
    case Issue(id, value, family) =>
      if id in s.exchanges then Some((id, IssueAccess(s.exchanges[id], value, family, s.tokens.ttl))) else None
    case SaveFamily(id) =>
      if id in s.exchanges then Some((id, SaveRoot(s.exchanges[id], s.tokens.store).0)) else None
    case _ => None
  }

  ghost function LedgerAfter(s: State, a: Action): seq<AccessToken> {
    match a
    case Respond(id) =>
      if id in s.tokens.requests && s.tokens.requests[id].Issuing? then
        var t := s.tokens.requests[id].issue;
        s.ledger + [AccessToken(t.userSub, t.clientId, t.scope, ByRefresh(t.familyId))]
      else s.ledger
    case Issue(id, _, _) =>
      if id in s.exchanges && s.exchanges[id].Approved? then
        var x := s.exchanges[id];
        s.ledger + [AccessToken(x.userSub, x.client.id, x.scope, ByApproval(x.approval))]
      else s.ledger
    case _ => s.ledger
  }

  ghost function Do(s: State, a: Action): State {
    var moved := Moved(s, a);
    State(
      s.config,
      RefreshRotation.Do(s.tokens, TokenStep(s, a)),
      CodesAfter(s, a),
      DevicePolling.Do(s.DeviceView(), DeviceStep(s, a)).devices,
      if moved.Some? then s.exchanges[moved.value.0 := moved.value.1] else s.exchanges,
      LedgerAfter(s, a))
  }

  // ---------------------------------------------------------------- the invariant

  /** The approval an exchange has spent, from the check of its bindings on. */
  function Holds(x: Exchange): Option<Approval> {
    match x
    case Checking(_, code) => Some(Browser(code.value))
    case Approved(approval, _, _, _, _) => Some(approval)
    case Saving(approval, _, _, _, _) => Some(approval)
    case Done(approval, _, _, _, _) => Some(approval)
    case _ => None
  }

  /** The approval is on record, spent, and was given to this client by this user for this scope. */
  ghost predicate Backs(s: State, approval: Approval, clientId: string, userSub: string, scope: ScopeSet) {
    match approval
    case Browser(c) =>
      && c in s.codes && s.codes[c].consumedAt.Some?
      && s.codes[c].clientId == clientId && s.codes[c].userSub == userSub && s.codes[c].scope == scope
    case Device(d) =>
      && d in s.devices.byDeviceCode
      && var row := s.devices.byDeviceCode[d];
         row.redeemedAt.Some? && row.clientId == clientId && row.userSub == Some(userSub) && row.scope == scope
  }

  /** The root of a family that exchange has started or is about to start. */
  function RootOf(x: Exchange): Option<RefreshToken> {
    match x
    case Saving(_, _, _, _, root) => Some(root)
    case Done(_, _, _, _, saved) => saved
    case _ => None
  }

  ghost predicate RootMatches(x: Exchange)
    requires RootOf(x).Some?
  {
    var root := RootOf(x).value;
    root.clientId == x.client.id && root.userSub == x.userSub && root.scope == x.scope && root.consumedAt.None?
  }

  ghost predicate ExchangeOk(s: State, x: Exchange) {
    match x
    case Consuming(attempt, at) =>
      && at <= s.Clock() && attempt.code in s.tokens.used
      && (attempt.code in s.codes ==> s.codes[attempt.code].issuedAt <= at)
    case Checking(attempt, code) => code.value in s.codes && s.codes[code.value] == code && code.consumedAt.Some?
    case Approved(approval, client, userSub, scope, at) =>
      Backs(s, approval, client.id, userSub, scope) && at <= s.Clock()
    case Saving(approval, client, userSub, scope, root) =>
      && Backs(s, approval, client.id, userSub, scope) && RootMatches(x)
      && root.issuedAt <= s.Clock() && root.expiresAt == root.issuedAt + s.tokens.ttl
      && IsReserved(s.tokens, root)
    case Done(approval, client, userSub, scope, saved) =>
      && Backs(s, approval, client.id, userSub, scope)
      && (saved.Some? ==> RootMatches(x) && saved.value.value in s.tokens.store
                          && saved.value.familyId in RefreshTokens.Families(s.tokens.store))
    case Refused(_) => true
  }

  /** Minted, not stored, and wanted by no refresh request. */
  ghost predicate IsReserved(tokens: RefreshRotation.State, root: RefreshToken) {
    && root.value in tokens.used && root.value !in tokens.store && !RefreshRotation.IsPending(tokens, root.value)
    && root.familyId in tokens.used && root.familyId !in RefreshTokens.Families(tokens.store)
  }

  ghost predicate CodeOk(s: State, c: string, code: AuthorizationCode) {
    && code.value == c && c in s.tokens.used
    && code.clientId in s.config.clients && code.scope <= s.config.clients[code.clientId].allowedScopes
    && code.issuedAt <= s.Clock() && code.expiresAt == code.issuedAt + s.config.codeTtl
    && (code.consumedAt.Some? ==> code.issuedAt <= code.consumedAt.value < code.expiresAt)
  }

  ghost predicate CodesOk(s: State) {
    forall c | c in s.codes :: CodeOk(s, c, s.codes[c])
  }

  ghost predicate ExchangesOk(s: State) {
    forall id | id in s.exchanges :: ExchangeOk(s, s.exchanges[id])
  }

  /** No approval is held by two exchanges. */
  ghost predicate HoldersDistinct(s: State) {
    forall i, j | i in s.exchanges && j in s.exchanges && Holds(s.exchanges[i]).Some?
                  && Holds(s.exchanges[i]) == Holds(s.exchanges[j]) :: i == j
  }

  ghost predicate RootsDistinct(s: State) {
    forall i, j | i in s.exchanges && j in s.exchanges && i != j
                  && RootOf(s.exchanges[i]).Some? && RootOf(s.exchanges[j]).Some? ::
      && RootOf(s.exchanges[i]).value.familyId != RootOf(s.exchanges[j]).value.familyId
      && RootOf(s.exchanges[i]).value.value != RootOf(s.exchanges[j]).value.value
  }

  /** Exchange `id` started family `f`. */
  ghost predicate Started(s: State, id: nat, f: string) {
    && id in s.exchanges && s.exchanges[id].Done?
    && s.exchanges[id].saved.Some? && s.exchanges[id].saved.value.familyId == f
  }

  /** The subject, client and scope are within what exchange `id` was approved for. */
  ghost predicate Covers(s: State, id: nat, subject: string, clientId: string, scope: ScopeSet) {
    && id in s.exchanges && s.exchanges[id].Done?
    && subject == s.exchanges[id].userSub && clientId == s.exchanges[id].client.id && scope <= s.exchanges[id].scope
  }

  ghost predicate TokenTraced(s: State, t: RefreshToken) {
    exists id :: Started(s, id, t.familyId) && Covers(s, id, t.userSub, t.clientId, t.scope)
  }

  ghost predicate TokensTraced(s: State) {
    && RefreshTokens.Families(s.tokens.store) <= s.tokens.used
    && forall v | v in s.tokens.store :: TokenTraced(s, s.tokens.store[v])
  }

  /** An exchange that has issued its access token. */
  predicate HasIssued(x: Exchange) { x.Saving? || x.Done? }

  ghost predicate IssuedFor(s: State, id: nat, e: AccessToken) {
    && e.cause.ByApproval? && id in s.exchanges && HasIssued(s.exchanges[id])
    && s.exchanges[id].approval == e.cause.approval
    && s.exchanges[id].userSub == e.subject && s.exchanges[id].client.id == e.clientId
    && s.exchanges[id].scope == e.scope
  }

  ghost predicate EntryTraced(s: State, e: AccessToken) {
    match e.cause
    case ByApproval(_) => exists id :: IssuedFor(s, id, e)
    case ByRefresh(f) => exists id :: Started(s, id, f) && Covers(s, id, e.subject, e.clientId, e.scope)
  }

  ghost predicate LedgerOk(s: State) {
    && (forall i | 0 <= i < |s.ledger| :: EntryTraced(s, s.ledger[i]))
    && (forall i, j | 0 <= i < j < |s.ledger| && s.ledger[i].cause.ByApproval? ::
          s.ledger[i].cause != s.ledger[j].cause)
  }

  ghost predicate Inv(s: State) {
    && RefreshRotation.Inv(s.tokens) && DevicePolling.Inv(s.DeviceView())
    && CodesOk(s) && ExchangesOk(s) && HoldersDistinct(s) && RootsDistinct(s) && TokensTraced(s) && LedgerOk(s)
  }

  ghost predicate Init(s: State) {
    && IsRegistry(s.config.clients) && RefreshRotation.Init(s.tokens)
    && s.codes == map[] && s.devices == DeviceCodes.EMPTY && s.exchanges == map[] && s.ledger == []
  }

  lemma InitInv(s: State)
    requires Init(s)
    ensures Inv(s)
  {
    RefreshRotation.InitInv(s.tokens);
  }

  // ---------------------------------------------------------------- the parts step as parts

  /** Saving a family root is always fresh to the refresh-token part: nothing is assumed there. */
  lemma TokenPartEnabled(s: State, a: Action)
    requires Inv(s) && Enabled(s, a)
    ensures RefreshRotation.Enabled(s.tokens, TokenStep(s, a))
  {
    if a.SaveFamily? { assert ExchangeOk(s, s.exchanges[a.id]); }
  }

  ghost predicate CodesEvolve(before: AuthorizationCodes.Store, after: AuthorizationCodes.Store) {
    forall c | c in before ::
      && c in after
      && (after[c] == before[c] ||
          (before[c].consumedAt.None? && after[c].consumedAt.Some?
           && after[c] == before[c].(consumedAt := after[c].consumedAt)))
  }

  ghost predicate Evolves(s: State, s': State) {
    && s'.config == s.config && s'.tokens.ttl == s.tokens.ttl
    && s.Clock() <= s'.Clock() && s.tokens.used <= s'.tokens.used
    && RefreshRotation.Evolves(s.tokens.store, s'.tokens.store)
    && CodesEvolve(s.codes, s'.codes)
    && DevicePolling.StoreEvolves(s.devices, s'.devices)
  }

  lemma PartsStep(s: State, a: Action)
    requires Inv(s) && Enabled(s, a)
    ensures RefreshRotation.Inv(Do(s, a).tokens) && DevicePolling.Inv(Do(s, a).DeviceView())
  {
    TokenPartEnabled(s, a);
    RefreshRotation.StepInv(s.tokens, TokenStep(s, a));
    DevicePolling.StepInv(s.DeviceView(), DeviceStep(s, a));
    assert Do(s, a).DeviceView() == DevicePolling.Do(s.DeviceView(), DeviceStep(s, a));
  }

  lemma CodesStep(s: State, a: Action)
    requires Enabled(s, a) && forall c | c in s.codes :: s.codes[c].value == c
    ensures CodesEvolve(s.codes, CodesAfter(s, a))
  {}

  lemma StepEvolves(s: State, a: Action)
    requires Inv(s) && Enabled(s, a)
    ensures Evolves(s, Do(s, a))
  {
    TokenPartEnabled(s, a);
    RefreshRotation.StepEvolves(s.tokens, TokenStep(s, a));
    DevicePolling.StepInv(s.DeviceView(), DeviceStep(s, a));
    assert forall c | c in s.codes :: CodeOk(s, c, s.codes[c]);
    CodesStep(s, a);
  }
}
