/** The domain entities: immutable records whose transitions return changed copies.
    Times are integers (seconds); every expiry test is `now >= expiresAt`. */
module Model {
  import opened Outcomes
  import opened Pkce
  import opened Scopes

  datatype GrantType =
    | AuthorizationCodeGrant
    | ClientCredentialsGrant
    | RefreshTokenGrant
    | DeviceCodeGrant
    | JwtBearerGrant
    | TokenExchangeGrant

  datatype Client = Client(
    id: string,
    allowedGrants: set<GrantType>,
    allowedScopes: ScopeSet,
    redirectUris: set<string>)
  {
    predicate Supports(grant: GrantType) { grant in allowedGrants }
  }

  type Clients = map<string, Client>

  ghost predicate IsRegistry(clients: Clients) {
    forall c | c in clients :: clients[c].id == c && IsScopeSet(clients[c].allowedScopes)
  }

  datatype RefreshToken = RefreshToken(
    value: string,
    familyId: string,
    clientId: string,
    userSub: string,
    scope: ScopeSet,
    issuedAt: int,
    expiresAt: int,
    consumedAt: Option<int>)
  {
    predicate IsExpired(now: int) { now >= expiresAt }
    predicate IsConsumed() { consumedAt.Some? }
    function Consume(now: int): RefreshToken { this.(consumedAt := Some(now)) }
  }

  datatype AuthorizationCode = AuthorizationCode(
    value: string,
    clientId: string,
    userSub: string,
    redirectUri: string,
    scope: ScopeSet,
    pkceChallenge: PkceChallenge,
    issuedAt: int,
    expiresAt: int,
    consumedAt: Option<int>,
    nonce: Option<string>)
  {
    predicate IsExpired(now: int) { now >= expiresAt }
    predicate IsConsumed() { consumedAt.Some? }
    function Consume(now: int): Result<AuthorizationCode> {
      if IsConsumed() then Err(InvalidGrant(AlreadyUsed))
      else if IsExpired(now) then Err(InvalidGrant(Expired))
      else Ok(this.(consumedAt := Some(now)))
    }
  }

  datatype DeviceCode = DeviceCode(
    deviceCode: string,
    userCode: string,
    clientId: string,
    scope: ScopeSet,
    issuedAt: int,
    expiresAt: int,
    interval: int,
    lastPolledAt: Option<int>,
    userSub: Option<string>,
    denied: bool,
    redeemedAt: Option<int>)
  {
    predicate IsExpired(now: int) { now >= expiresAt }
    predicate IsPending() { userSub.None? && !denied }
    predicate IsApproved() { userSub.Some? && !denied }
    predicate IsDenied() { denied }
    predicate IsRedeemed() { redeemedAt.Some? }
    predicate CanPollAt(now: int) { lastPolledAt.None? || now >= lastPolledAt.value + interval }
    function Approve(user: string): DeviceCode { this.(userSub := Some(user), denied := false) }
    function Deny(): DeviceCode { this.(denied := true, userSub := None) }
    function MarkPolled(now: int): DeviceCode { this.(lastPolledAt := Some(now)) }
    function Redeem(now: int): DeviceCode { this.(redeemedAt := Some(now)) }
  }
}
