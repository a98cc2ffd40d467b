/** On a database the client registry is itself read from rows, so no registered scope ends in a
    newline, and nothing a run ever stores loses anything in its row. */
module StoredRuns {
  import opened GrantLifecycle
  import opened GrantRuns
  import opened Model
  import opened Outcomes
  import opened Scopes
  import opened SqlStores
  import DevicePolling

  /** Every client's allowed scopes came out of a scope column. */
  ghost predicate IsReadFromRows(clients: Clients) {
    forall c | c in clients :: exists text :: ScopeOfRow(text) == Ok(clients[c].allowedScopes)
  }

  lemma WithinRegistrationIsStorable(clients: Clients, c: string, scope: ScopeSet)
    requires IsReadFromRows(clients) && c in clients && scope <= clients[c].allowedScopes
    ensures IsStorable(scope)
  {
    var text :| ScopeOfRow(text) == Ok(clients[c].allowedScopes);
    ReadScopesAreRowSafe(text);
  }

  lemma {:induction false} ChallengesAreAccepted(r: Run, n: nat, c: string)
    requires IsRun(r) && n < |r.states| && c in r.states[n].codes
    ensures IsChallenge(r.states[n].codes[c].pkceChallenge)
  {
    CodeAsConsented(r, n, c);
    var i, code :| i < n && Minted(r, i, c, code) && IsLater(r.states[n].codes[c], code);
    assert code.pkceChallenge == r.states[n].codes[c].pkceChallenge;
  }

  /** In every reachable state every refresh token, authorization code and device code is what its
      row reads back as. */
  lemma NothingIsLostInRows(r: Run, n: nat)
    requires IsRun(r) && n < |r.states| && IsReadFromRows(r.states[n].config.clients)
    ensures forall v | v in r.states[n].tokens.store ::
              AsRead(r.states[n].tokens.store[v]) == r.states[n].tokens.store[v]
    ensures forall c | c in r.states[n].codes ::
              && IsChallenge(r.states[n].codes[c].pkceChallenge)
              && CodeAsRead(r.states[n].codes[c]) == r.states[n].codes[c]
    ensures forall d | d in r.states[n].devices.byDeviceCode ::
              DeviceAsRead(r.states[n].devices.byDeviceCode[d]) == r.states[n].devices.byDeviceCode[d]
  {
    Reachable(r, n);
    var s := r.states[n];
    forall v | v in s.tokens.store ensures AsRead(s.tokens.store[v]) == s.tokens.store[v] {
      var t := s.tokens.store[v];
      EverythingTracesToAnApproval(r, n);
      var a :| StartedBy(s, a, t.familyId) && WithinApproval(s, a, t.userSub, t.clientId, t.scope);
      WithinRegistrationIsStorable(s.config.clients, t.clientId, t.scope);
      StoredScope(t.scope);
    }
    forall c | c in s.codes ensures IsChallenge(s.codes[c].pkceChallenge) && CodeAsRead(s.codes[c]) == s.codes[c] {
      ChallengesAreAccepted(r, n, c);
      assert CodeOk(s, c, s.codes[c]);
      WithinRegistrationIsStorable(s.config.clients, s.codes[c].clientId, s.codes[c].scope);
      StoredScope(s.codes[c].scope);
    }
    forall d | d in s.devices.byDeviceCode
      ensures DeviceAsRead(s.devices.byDeviceCode[d]) == s.devices.byDeviceCode[d]
    {
      var row := s.devices.byDeviceCode[d];
      assert DevicePolling.RowOk(s.DeviceView(), row);
      WithinRegistrationIsStorable(s.config.clients, row.clientId, row.scope);
      StoredScope(row.scope);
    }
  }
}
