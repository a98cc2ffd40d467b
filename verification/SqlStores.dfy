/** The database repositories. Each check-and-set is one conditional UPDATE whose row count
    decides the outcome; the table is a map keyed by primary key, and the scope column holds
    text. Every method is proved to do to the decoded table what the in-memory repository
    does to its map. */
module SqlStores {
  import opened Model
  import opened Outcomes
  import opened Pkce
  import opened Scopes
  import AuthorizationCodes
  import DeviceCodes
  import RefreshTokens

  // ---------------------------------------------------------------- statements

  /** The keys of the rows a WHERE clause matches; their number is the row count. */
  function Where<R>(rows: map<string, R>, condition: R -> bool): set<string> {
    set k | k in rows && condition(rows[k])
  }

  function Update<R>(rows: map<string, R>, matched: set<string>, assign: R -> R): map<string, R> {
    map k | k in rows :: if k in matched then assign(rows[k]) else rows[k]
  }

  /** A WHERE clause that fixes the primary key matches that row or nothing. */
  lemma UpdateByKey<R>(rows: map<string, R>, key: string, condition: R -> bool, assign: R -> R)
    requires forall k | k in rows :: condition(rows[k]) ==> k == key
    ensures var matched := Where(rows, condition);
            if key in rows && condition(rows[key]) then
              |matched| == 1 && Update(rows, matched, assign) == rows[key := assign(rows[key])]
            else
              |matched| == 0 && Update(rows, matched, assign) == rows
  {
    var matched := Where(rows, condition);
    if key in rows && condition(rows[key]) {
      assert matched == {key};
    } else {
      assert matched == {};
    }
  }

  // ---------------------------------------------------------------- the scope column

  predicate IsReadable(text: string) { ScopeOfRow(text).Ok? }

  function ReadScope(text: string): ScopeSet
    requires IsReadable(text)
  {
    ScopeOfRow(text).value
  }

  /** Scopes that survive being written to a row and read back. */
  predicate IsStorable(ss: ScopeSet) { IsScopeSet(ss) && IsRowSafe(ss) }

  /** What a stored scope set reads back as: the set itself exactly when it is storable. */
  lemma StoredScope(ss: ScopeSet)
    requires IsScopeSet(ss)
    ensures IsReadable(ToStr(ss)) && ReadScope(ToStr(ss)) == Chomped(ss)
    ensures Chomped(ss) == ss <==> IsStorable(ss)
  {
    RowRoundTrip(ss);
  }

  // ---------------------------------------------------------------- refresh tokens

  datatype TokenRow = TokenRow(
    value: string, familyId: string, clientId: string, userSub: string, scope: string,
    issuedAt: int, expiresAt: int, consumedAt: Option<int>)

  function ToTokenRow(t: RefreshToken): TokenRow {
    TokenRow(t.value, t.familyId, t.clientId, t.userSub, ToStr(t.scope), t.issuedAt, t.expiresAt, t.consumedAt)
  }

  function FromTokenRow(row: TokenRow): RefreshToken
    requires IsReadable(row.scope)
  {
    RefreshToken(row.value, row.familyId, row.clientId, row.userSub, ReadScope(row.scope),
                 row.issuedAt, row.expiresAt, row.consumedAt)
  }

  /** The token a row gives back: its scopes without trailing newlines. */
  ghost function AsRead(t: RefreshToken): RefreshToken { t.(scope := Chomped(t.scope)) }

  /** Writing a token and reading it back is the identity exactly when its scopes are storable. */
  lemma TokenRowRoundTrip(t: RefreshToken)
    requires IsScopeSet(t.scope)
    ensures IsReadable(ToTokenRow(t).scope)
    ensures FromTokenRow(ToTokenRow(t)) == AsRead(t)
    ensures AsRead(t) == t <==> IsStorable(t.scope)
  {
    StoredScope(t.scope);
  }

  ghost predicate ValidTokens(rows: map<string, TokenRow>) {
    forall k | k in rows :: rows[k].value == k && IsReadable(rows[k].scope)
  }

  ghost function DecodeTokens(rows: map<string, TokenRow>): RefreshTokens.Store
    requires ValidTokens(rows)
  {
    map k | k in rows :: FromTokenRow(rows[k])
  }

  lemma DecodeTokenWrite(rows: map<string, TokenRow>, row: TokenRow)
    requires ValidTokens(rows) && IsReadable(row.scope)
    ensures ValidTokens(rows[row.value := row])
    ensures DecodeTokens(rows[row.value := row]) == DecodeTokens(rows)[row.value := FromTokenRow(row)]
  {}

  class TokenTable {
    var rows: map<string, TokenRow>

    ghost predicate Valid()
      reads this
    {
      ValidTokens(rows)
    }

    /** The table as the domain reads it. */
    ghost function Decoded(): RefreshTokens.Store
      requires Valid()
      reads this
    {
      DecodeTokens(rows)
    }

    constructor ()
      ensures Valid() && Decoded() == map[]
    {
      rows := map[];
    }

    /** INSERT: a second row with the same key is an integrity error, where the in-memory
        repository would overwrite. */
    method Save(token: RefreshToken) returns (r: Result<()>)
      requires Valid() && IsScopeSet(token.scope)
      modifies this
      ensures Valid()
      ensures r == if token.value in old(rows) then Err(IntegrityFault) else Ok(())
      ensures r.Ok? ==> Decoded() == old(Decoded())[token.value := AsRead(token)]
      ensures r.Err? ==> rows == old(rows)
    {
      TokenRowRoundTrip(token);
      if token.value in rows {
        return Err(IntegrityFault);
      }
      DecodeTokenWrite(rows, ToTokenRow(token));
      rows := rows[token.value := ToTokenRow(token)];
      return Ok(());
    }

    method FindByValue(value: string) returns (token: Option<RefreshToken>)
      requires Valid()
      ensures token.Some? <==> value in Decoded()
      ensures token.Some? ==> token.value == Decoded()[value]
    {
      token := if value in rows then Some(FromTokenRow(rows[value])) else None;
    }

    /** UPDATE the row if it is unconsumed and unexpired; if no row matched, look again to say
        why; otherwise INSERT the replacement and commit both. */
    method Rotate(oldValue: string, newToken: RefreshToken, now: int) returns (r: Result<RefreshToken>)
      requires Valid() && IsScopeSet(newToken.scope)
      modifies this
      ensures Valid()
      ensures newToken.value !in old(rows) ==>
                && r == RefreshTokens.RotationResult(old(Decoded()), oldValue, newToken, now)
                && Decoded() == RefreshTokens.Rotated(old(Decoded()), oldValue, AsRead(newToken), now)
      ensures newToken.value in old(rows) ==>
                && rows == old(rows)
                && (r == Err(IntegrityFault) <==> RefreshTokens.RotationFault(old(Decoded()), oldValue, now).None?)
                && (r != Err(IntegrityFault) ==>
                      r == RefreshTokens.RotationResult(old(Decoded()), oldValue, newToken, now))
    {
      TokenRowRoundTrip(newToken);
      var condition := (row: TokenRow) => row.value == oldValue && row.consumedAt.None? && row.expiresAt > now;
      var consume := (row: TokenRow) => row.(consumedAt := Some(now));
      var matched := Where(rows, condition);
      var updated := Update(rows, matched, consume);
      UpdateByKey(rows, oldValue, condition, consume);
      if |matched| == 0 {
        if oldValue !in rows {
          return Err(InvalidGrant(NotFound));
        }
        if rows[oldValue].consumedAt.Some? {
          return Err(InvalidGrant(AlreadyUsed));
        }
        return Err(InvalidGrant(Expired));
      }
      if newToken.value in updated {
        return Err(IntegrityFault);
      }
      DecodeTokenWrite(rows, consume(rows[oldValue]));
      DecodeTokenWrite(updated, ToTokenRow(newToken));
      rows := updated[newToken.value := ToTokenRow(newToken)];
      return Ok(newToken);
    }

    /** One UPDATE over the family's unconsumed rows; the row count is the answer. */
    method RevokeFamily(family: string, now: int) returns (count: nat)
      requires Valid()
      modifies this
      ensures Valid()
      ensures Decoded() == RefreshTokens.Revoked(old(Decoded()), family, now)
      ensures count == |RefreshTokens.Live(old(Decoded()), family)|
    {
      ghost var before := Decoded();
      var matched := Where(rows, (row: TokenRow) => row.familyId == family && row.consumedAt.None?);
      assert matched == RefreshTokens.Live(before, family);
      rows := Update(rows, matched, (row: TokenRow) => row.(consumedAt := Some(now)));
      count := |matched|;
      assert Decoded() == RefreshTokens.Revoked(before, family, now);
    }
  }

  // ---------------------------------------------------------------- authorization codes

  datatype CodeRow = CodeRow(
    value: string, clientId: string, userSub: string, redirectUri: string, scope: string,
    challengeValue: string, challengeMethod: string,
    issuedAt: int, expiresAt: int, consumedAt: Option<int>, nonce: Option<string>)

  function ToCodeRow(c: AuthorizationCode): CodeRow {
    CodeRow(c.value, c.clientId, c.userSub, c.redirectUri, ToStr(c.scope), c.pkceChallenge.value,
            c.pkceChallenge.challengeMethod, c.issuedAt, c.expiresAt, c.consumedAt, c.nonce)
  }

  predicate IsReadableCode(row: CodeRow) {
    IsReadable(row.scope) && MakeChallenge(row.challengeValue, row.challengeMethod).Ok?
  }

  function FromCodeRow(row: CodeRow): AuthorizationCode
    requires IsReadableCode(row)
  {
    AuthorizationCode(row.value, row.clientId, row.userSub, row.redirectUri, ReadScope(row.scope),
                      MakeChallenge(row.challengeValue, row.challengeMethod).value,
                      row.issuedAt, row.expiresAt, row.consumedAt, row.nonce)
  }

  /** A challenge some call of the constructor returned. */
  predicate IsChallenge(c: PkceChallenge) { MakeChallenge(c.value, c.challengeMethod).Ok? }

  ghost function CodeAsRead(c: AuthorizationCode): AuthorizationCode { c.(scope := Chomped(c.scope)) }

  lemma CodeRowRoundTrip(c: AuthorizationCode)
    requires IsScopeSet(c.scope) && IsChallenge(c.pkceChallenge)
    ensures IsReadableCode(ToCodeRow(c))
    ensures FromCodeRow(ToCodeRow(c)) == CodeAsRead(c)
    ensures CodeAsRead(c) == c <==> IsStorable(c.scope)
  {
    StoredScope(c.scope);
  }

  ghost predicate ValidCodes(rows: map<string, CodeRow>) {
    forall k | k in rows :: rows[k].value == k && IsReadableCode(rows[k])
  }

  ghost function DecodeCodes(rows: map<string, CodeRow>): AuthorizationCodes.Store
    requires ValidCodes(rows)
  {
    map k | k in rows :: FromCodeRow(rows[k])
  }

  lemma DecodeCodeWrite(rows: map<string, CodeRow>, row: CodeRow)
    requires ValidCodes(rows) && IsReadableCode(row)
    ensures ValidCodes(rows[row.value := row])
    ensures DecodeCodes(rows[row.value := row]) == DecodeCodes(rows)[row.value := FromCodeRow(row)]
  {}

  class CodeTable {
    var rows: map<string, CodeRow>

    ghost predicate Valid()
      reads this
    {
      ValidCodes(rows)
    }

    ghost function Decoded(): AuthorizationCodes.Store
      requires Valid()
      reads this
    {
      DecodeCodes(rows)
    }

    constructor ()
      ensures Valid() && Decoded() == map[]
    {
      rows := map[];
    }

    method Save(code: AuthorizationCode) returns (r: Result<()>)
      requires Valid() && IsScopeSet(code.scope) && IsChallenge(code.pkceChallenge)
      modifies this
      ensures Valid()
      ensures r == if code.value in old(rows) then Err(IntegrityFault) else Ok(())
      ensures r.Ok? ==> Decoded() == old(Decoded())[code.value := CodeAsRead(code)]
      ensures r.Err? ==> rows == old(rows)
    {
      CodeRowRoundTrip(code);
      if code.value in rows {
        return Err(IntegrityFault);
      }
      DecodeCodeWrite(rows, ToCodeRow(code));
      rows := rows[code.value := ToCodeRow(code)];
      return Ok(());
    }

    /** UPDATE if unconsumed and unexpired, commit, then read back the row or the reason. */
    method Consume(value: string, now: int) returns (r: Result<AuthorizationCode>)
      requires Valid()
      modifies this
      ensures Valid()
      ensures r == AuthorizationCodes.Consumption(old(Decoded()), value, now)
      ensures Decoded() == AuthorizationCodes.Consumed(old(Decoded()), value, now)
    {
      var condition := (row: CodeRow) => row.value == value && row.consumedAt.None? && row.expiresAt > now;
      var consume := (row: CodeRow) => row.(consumedAt := Some(now));
      var matched := Where(rows, condition);
      UpdateByKey(rows, value, condition, consume);
      if value in rows { DecodeCodeWrite(rows, consume(rows[value])); }
      rows := Update(rows, matched, consume);
      if |matched| == 0 {
        if value !in rows {
          return Err(InvalidGrant(NotFound));
        }
        if rows[value].consumedAt.Some? {
          return Err(InvalidGrant(AlreadyUsed));
        }
        return Err(InvalidGrant(Expired));
      }
      return Ok(FromCodeRow(rows[value]));
    }
  }

  // ---------------------------------------------------------------- device codes

  datatype DeviceRow = DeviceRow(
    deviceCode: string, userCode: string, clientId: string, scope: string,
    issuedAt: int, expiresAt: int, intervalSeconds: int, lastPolledAt: Option<int>,
    userSub: Option<string>, denied: bool, redeemedAt: Option<int>)

  function ToDeviceRow(c: DeviceCode): DeviceRow {
    DeviceRow(c.deviceCode, c.userCode, c.clientId, ToStr(c.scope), c.issuedAt, c.expiresAt, c.interval,
              c.lastPolledAt, c.userSub, c.denied, c.redeemedAt)
  }

  function FromDeviceRow(row: DeviceRow): DeviceCode
    requires IsReadable(row.scope)
  {
    DeviceCode(row.deviceCode, row.userCode, row.clientId, ReadScope(row.scope), row.issuedAt, row.expiresAt,
               row.intervalSeconds, row.lastPolledAt, row.userSub, row.denied, row.redeemedAt)
  }

  ghost function DeviceAsRead(c: DeviceCode): DeviceCode { c.(scope := Chomped(c.scope)) }

  lemma DeviceRowRoundTrip(c: DeviceCode)
    requires IsScopeSet(c.scope)
    ensures IsReadable(ToDeviceRow(c).scope)
    ensures FromDeviceRow(ToDeviceRow(c)) == DeviceAsRead(c)
    ensures DeviceAsRead(c) == c <==> IsStorable(c.scope)
  {
    StoredScope(c.scope);
  }

  ghost predicate ValidDevices(rows: map<string, DeviceRow>) {
    && (forall k | k in rows :: rows[k].deviceCode == k && IsReadable(rows[k].scope))
    && (forall k, j | k in rows && j in rows && rows[k].userCode == rows[j].userCode :: k == j)
  }

  ghost function DecodeDevices(rows: map<string, DeviceRow>): map<string, DeviceCode>
    requires ValidDevices(rows)
  {
    map k | k in rows :: FromDeviceRow(rows[k])
  }

  lemma DecodeDeviceWrite(rows: map<string, DeviceRow>, row: DeviceRow)
    requires ValidDevices(rows) && IsReadable(row.scope)
    requires forall k | k in rows && rows[k].userCode == row.userCode :: k == row.deviceCode
    ensures ValidDevices(rows[row.deviceCode := row])
    ensures DecodeDevices(rows[row.deviceCode := row]) == DecodeDevices(rows)[row.deviceCode := FromDeviceRow(row)]
  {}

  /** The in-memory store with these rows, side index included. */
  ghost predicate Represents(rows: map<string, DeviceRow>, store: DeviceCodes.Store) {
    ValidDevices(rows) && DecodeDevices(rows) == store.byDeviceCode && DeviceCodes.InStep(store)
  }

  /** In the in-memory store the index entry of a user code names the row the scan finds. */
  lemma NoClashMeansOwnIndexEntry(rows: map<string, DeviceRow>, store: DeviceCodes.Store, code: DeviceCode)
    requires Represents(rows, store)
    ensures (forall k | k in rows && rows[k].userCode == code.userCode :: k == code.deviceCode)
            <==> (code.userCode in store.byUserCode ==> store.byUserCode[code.userCode] == code.deviceCode)
  {
    forall k | k in rows ensures store.byDeviceCode[k] == FromDeviceRow(rows[k]) {}
    if code.userCode in store.byUserCode {
      assert rows[store.byUserCode[code.userCode]].userCode == code.userCode;
    }
    forall k | k in rows && rows[k].userCode == code.userCode ensures store.byUserCode[code.userCode] == k {
      assert store.byDeviceCode[k].userCode == code.userCode;
    }
  }

  /** No side index here: the user code is a column with a uniqueness constraint. */
  class DeviceTable {
    var rows: map<string, DeviceRow>

    constructor ()
      ensures Represents(rows, DeviceCodes.EMPTY)
    {
      rows := map[];
    }

    /** Upsert by device code. The uniqueness constraint on the user code rejects a save that
        would put the in-memory maps out of step; the one save the database takes and the
        in-memory index does not survive is one that changes a stored row's user code. */
    method Save(code: DeviceCode, ghost store: DeviceCodes.Store) returns (r: Result<()>)
      requires Represents(rows, store) && IsScopeSet(code.scope)
      modifies this
      ensures ValidDevices(rows)
      ensures r.Err? ==> r.error == IntegrityFault && rows == old(rows)
      ensures r.Err? ==> !DeviceCodes.InStep(DeviceCodes.Saved(store, code))
      ensures r.Ok? ==> DecodeDevices(rows) == DeviceCodes.Saved(store, DeviceAsRead(code)).byDeviceCode
      ensures r.Ok? ==>
        (Represents(rows, DeviceCodes.Saved(store, DeviceAsRead(code))) <==>
         (code.deviceCode in old(rows) ==> old(rows)[code.deviceCode].userCode == code.userCode))
    {
      DeviceRowRoundTrip(code);
      NoClashMeansOwnIndexEntry(rows, store, code);
      DeviceCodes.SaveKeepsInStep(store, code);
      DeviceCodes.SaveKeepsInStep(store, DeviceAsRead(code));
      if code.deviceCode in rows { assert store.byDeviceCode[code.deviceCode] == FromDeviceRow(rows[code.deviceCode]); }
      var clashes := Where(rows, (row: DeviceRow) =>
        row.userCode == code.userCode && row.deviceCode != code.deviceCode);
      if clashes != {} {
        return Err(IntegrityFault);
      }
      assert forall k | k in rows && rows[k].userCode == code.userCode :: k == code.deviceCode by {
        assert forall k | k in rows :: k !in clashes;
      }
      DecodeDeviceWrite(rows, ToDeviceRow(code));
      rows := rows[code.deviceCode := ToDeviceRow(code)];
      return Ok(());
    }

    /** SELECT by user code. */
    method FindByUserCode(userCode: string, ghost store: DeviceCodes.Store) returns (code: Option<DeviceCode>)
      requires Represents(rows, store)
      ensures code == DeviceCodes.FindByUserCode(store, userCode)
    {
      assert forall k | k in rows :: store.byDeviceCode[k] == FromDeviceRow(rows[k]);
      var hits := Where(rows, (row: DeviceRow) => row.userCode == userCode);
      if hits == {} {
        code := None;
        assert forall k | k in rows :: k !in hits;
        assert DeviceCodes.IsScanResult(store, userCode, None);
        DeviceCodes.IndexAgreesWithScan(store, userCode, None);
      } else {
        var k :| k in hits;
        code := Some(FromDeviceRow(rows[k]));
        assert DeviceCodes.IsScanResult(store, userCode, code);
        DeviceCodes.IndexAgreesWithScan(store, userCode, code);
      }
    }

    /** UPDATE if approved, not denied, unredeemed and unexpired; then read the row back. */
    method Redeem(deviceCode: string, now: int, ghost store: DeviceCodes.Store) returns (r: Option<DeviceCode>)
      requires Represents(rows, store)
      modifies this
      ensures r == DeviceCodes.Redemption(store, deviceCode, now)
      ensures Represents(rows, DeviceCodes.Redeemed(store, deviceCode, now))
    {
      DeviceCodes.RedeemKeepsInStep(store, deviceCode, now);
      var condition := (row: DeviceRow) =>
        row.deviceCode == deviceCode && row.userSub.Some? && !row.denied && row.redeemedAt.None? && row.expiresAt > now;
      var redeem := (row: DeviceRow) => row.(redeemedAt := Some(now));
      var matched := Where(rows, condition);
      UpdateByKey(rows, deviceCode, condition, redeem);
      if deviceCode in rows {
        assert store.byDeviceCode[deviceCode] == FromDeviceRow(rows[deviceCode]);
        DecodeDeviceWrite(rows, redeem(rows[deviceCode]));
      }
      rows := Update(rows, matched, redeem);
      if |matched| == 0 {
        return None;
      }
      return Some(FromDeviceRow(rows[deviceCode]));
    }
  }
}
