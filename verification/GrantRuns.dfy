/** Safety of the whole lifecycle over every run: approvals, exchanges and refreshes of any
    number of clients and users, interleaved in any order. */
module GrantRuns {
  import opened AuthorizeConsent
  import opened Exchanges
  import opened GrantLifecycle
  import opened GrantSafety
  import opened Model
  import opened Outcomes
  import opened Scopes
  import DevicePolling
  import RefreshGrant
  import RefreshRotation
  import RefreshRuns
  import RefreshTokens

  datatype Run = Run(states: seq<State>, actions: seq<Action>)

  ghost predicate IsRun(r: Run) {
    && |r.states| == |r.actions| + 1
    && Init(r.states[0])
    && forall i :: 0 <= i < |r.actions| ==>
         Enabled(r.states[i], r.actions[i]) && r.states[i + 1] == Do(r.states[i], r.actions[i])
  }

  lemma {:induction false} Reachable(r: Run, n: nat)
    requires IsRun(r) && n < |r.states|
    ensures Inv(r.states[n])
  {
    if n == 0 {
      InitInv(r.states[0]);
    } else {
      Reachable(r, n - 1);
      StepInv(r.states[n - 1], r.actions[n - 1]);
    }
  }

  // ---------------------------------------------------------------- the parts run as parts

  ghost function TokenPart(r: Run): RefreshRuns.Run
    requires |r.states| == |r.actions| + 1
  {
    RefreshRuns.Run(seq(|r.states|, i requires 0 <= i < |r.states| => r.states[i].tokens),
                    seq(|r.actions|, i requires 0 <= i < |r.actions| => TokenStep(r.states[i], r.actions[i])))
  }

  ghost function DevicePart(r: Run): DevicePolling.Run
    requires |r.states| == |r.actions| + 1
  {
    DevicePolling.Run(seq(|r.states|, i requires 0 <= i < |r.states| => r.states[i].DeviceView()),
                      seq(|r.actions|, i requires 0 <= i < |r.actions| => DeviceStep(r.states[i], r.actions[i])))
  }

  /** Every run of the lifecycle is, seen from the refresh tokens, a run of module RefreshRuns:
      rotation safety, permanence of revocation and lineage hold here too. In particular the
      roots an exchange saves are always fresh families. */
  lemma TokenPartIsRun(r: Run)
    requires IsRun(r)
    ensures RefreshRuns.IsRun(TokenPart(r))
  {
    forall i | 0 <= i < |r.actions|
      ensures RefreshRotation.Enabled(TokenPart(r).states[i], TokenPart(r).actions[i])
    {
      Reachable(r, i);
      TokenPartEnabled(r.states[i], r.actions[i]);
    }
  }

  /** And seen from the device codes it is a run of module DevicePolling: the state machine, the
      polling budget and the polling discipline hold here too. */
  lemma DevicePartIsRun(r: Run)
    requires IsRun(r)
    ensures DevicePolling.IsRun(DevicePart(r))
  {
    forall i | 0 <= i < |r.actions|
      ensures DevicePolling.Enabled(DevicePart(r).states[i], DevicePart(r).actions[i])
      ensures DevicePart(r).states[i + 1] == DevicePolling.Do(DevicePart(r).states[i], DevicePart(r).actions[i])
    {
      assert r.states[i + 1] == Do(r.states[i], r.actions[i]);
    }
  }

  // ---------------------------------------------------------------- one approval, one line of tokens

  /** The approval's exchange started family `f`. */
  ghost predicate StartedBy(s: State, approval: Approval, f: string) {
    exists id :: Started(s, id, f) && s.exchanges[id].approval == approval
  }

  /** The unconsumed refresh tokens an approval has led to. */
  ghost function LiveTokens(s: State, approval: Approval): set<string> {
    set v | v in s.tokens.store && s.tokens.store[v].consumedAt.None?
            && StartedBy(s, approval, s.tokens.store[v].familyId)
  }

  lemma OneFamily(s: State, a: Approval, b: Approval, f: string, g: string)
    requires HoldersDistinct(s) && RootsDistinct(s) && StartedBy(s, a, f) && StartedBy(s, b, g)
    ensures a == b <==> f == g
  {
    var i :| Started(s, i, f) && s.exchanges[i].approval == a;
    var j :| Started(s, j, g) && s.exchanges[j].approval == b;
    assert Holds(s.exchanges[i]) == Some(a) && Holds(s.exchanges[j]) == Some(b);
    assert RootOf(s.exchanges[i]).Some? && RootOf(s.exchanges[j]).Some?;
  }

  /** In every reachable state each approval, browser or device, has led to at most one
      exchange that issued an access token, at most one refresh family (and no family has two
      approvals), and at most one unconsumed refresh token. */
  lemma OneLiveTokenPerApproval(r: Run, n: nat, approval: Approval)
    requires IsRun(r) && n < |r.states|
    ensures forall i, j | 0 <= i < j < |r.states[n].ledger| && r.states[n].ledger[i].cause == ByApproval(approval) ::
              r.states[n].ledger[j].cause != ByApproval(approval)
    ensures forall f, g | StartedBy(r.states[n], approval, f) && StartedBy(r.states[n], approval, g) :: f == g
    ensures forall f, other | StartedBy(r.states[n], approval, f) && StartedBy(r.states[n], other, f) ::
              other == approval
    ensures |LiveTokens(r.states[n], approval)| <= 1
  {
    Reachable(r, n);
    var s := r.states[n];
    forall f, g | StartedBy(s, approval, f) && StartedBy(s, approval, g) ensures f == g {
      OneFamily(s, approval, approval, f, g);
    }
    forall f, other | StartedBy(s, approval, f) && StartedBy(s, other, f) ensures other == approval {
      OneFamily(s, approval, other, f, f);
    }
    var live := LiveTokens(s, approval);
    if v :| v in live {
      forall w | w in live ensures w == v {
        OneFamily(s, approval, approval, s.tokens.store[v].familyId, s.tokens.store[w].familyId);
        RefreshRuns.OneLiveToken(s.tokens, s.tokens.store[v].familyId, v, w);
      }
      assert live == {v};
    }
  }

  /** What an approval covers: its user, its client, and no scope beyond the approved one, which
      is itself within the client's registration. */
  ghost predicate WithinApproval(s: State, approval: Approval, subject: string, clientId: string, scope: ScopeSet) {
    exists approved: ScopeSet {:trigger Backs(s, approval, clientId, subject, approved)} ::
      && Backs(s, approval, clientId, subject, approved)
      && scope <= approved && clientId in s.config.clients && approved <= s.config.clients[clientId].allowedScopes
  }

  lemma DoneIsWithinApproval(s: State, id: nat, scope: ScopeSet)
    requires Inv(s) && id in s.exchanges && HasIssued(s.exchanges[id]) && scope <= s.exchanges[id].scope
    ensures WithinApproval(s, s.exchanges[id].approval, s.exchanges[id].userSub, s.exchanges[id].client.id, scope)
  {
    var x := s.exchanges[id];
    assert ExchangeOk(s, x);
    assert Backs(s, x.approval, x.client.id, x.userSub, x.scope);
    match x.approval {
      case Browser(c) => assert CodeOk(s, c, s.codes[c]);
      case Device(d) => assert DevicePolling.RowOk(s.DeviceView(), s.devices.byDeviceCode[d]);
    }
  }

  /** The ledger entry is covered by the approval that caused it: its own, or its family's. */
  ghost predicate EntryWithinSomeApproval(s: State, e: AccessToken) {
    match e.cause
    case ByApproval(a) => WithinApproval(s, a, e.subject, e.clientId, e.scope)
    case ByRefresh(f) => exists a :: StartedBy(s, a, f) && WithinApproval(s, a, e.subject, e.clientId, e.scope)
  }

  /** Every access token ever issued and every refresh token ever stored traces back to one
      approval, with the same user and client and no wider scope: scope never widens on the way
      from consent through exchange and any number of refreshes. */
  lemma EverythingTracesToAnApproval(r: Run, n: nat)
    requires IsRun(r) && n < |r.states|
    ensures forall i | 0 <= i < |r.states[n].ledger| :: EntryWithinSomeApproval(r.states[n], r.states[n].ledger[i])
    ensures forall v | v in r.states[n].tokens.store ::
              var t := r.states[n].tokens.store[v];
              exists a :: StartedBy(r.states[n], a, t.familyId)
                          && WithinApproval(r.states[n], a, t.userSub, t.clientId, t.scope)
  {
    Reachable(r, n);
    var s := r.states[n];
    forall i | 0 <= i < |s.ledger| ensures EntryWithinSomeApproval(s, s.ledger[i]) {
      EntryWithinApproval(s, s.ledger[i]);
    }
    forall v | v in s.tokens.store
      ensures var t := s.tokens.store[v];
              exists a :: StartedBy(s, a, t.familyId) && WithinApproval(s, a, t.userSub, t.clientId, t.scope)
    {
      var t := s.tokens.store[v];
      assert TokenTraced(s, t);
      var id :| Started(s, id, t.familyId) && Covers(s, id, t.userSub, t.clientId, t.scope);
      DoneIsWithinApproval(s, id, t.scope);
      assert StartedBy(s, s.exchanges[id].approval, t.familyId);
    }
  }

  lemma EntryWithinApproval(s: State, e: AccessToken)
    requires Inv(s) && EntryTraced(s, e)
    ensures EntryWithinSomeApproval(s, e)
  {
    match e.cause {
      case ByApproval(a) =>
        var id :| IssuedFor(s, id, e);
        DoneIsWithinApproval(s, id, e.scope);
      case ByRefresh(f) =>
        var id :| Started(s, id, f) && Covers(s, id, e.subject, e.clientId, e.scope);
        DoneIsWithinApproval(s, id, e.scope);
        assert StartedBy(s, s.exchanges[id].approval, f);
    }
  }

  /** The ledger has the access token an exchange was answered with. */
  ghost predicate IsRecorded(s: State, x: Exchange)
    requires HasIssued(x)
  {
    AccessToken(x.userSub, x.client.id, x.scope, ByApproval(x.approval)) in s.ledger
  }

  /** And the one a refresh request was answered with. */
  ghost predicate IsRenewalRecorded(s: State, issued: RefreshGrant.Issued) {
    exists f :: AccessToken(issued.subject, issued.clientId, issued.scope, ByRefresh(f)) in s.ledger
  }

  ghost predicate IsComplete(s: State) {
    && (forall id | id in s.exchanges && HasIssued(s.exchanges[id]) :: IsRecorded(s, s.exchanges[id]))
    && (forall id | id in s.tokens.requests && s.tokens.requests[id].Finished? && s.tokens.requests[id].outcome.Ok? ::
          IsRenewalRecorded(s, s.tokens.requests[id].outcome.value))
  }

  lemma StepKeepsComplete(s: State, a: Action)
    requires Inv(s) && Enabled(s, a) && IsComplete(s)
    ensures IsComplete(Do(s, a))
  {
    var s' := Do(s, a);
    forall id | id in s'.exchanges && HasIssued(s'.exchanges[id]) ensures IsRecorded(s', s'.exchanges[id]) {
      IssueKept(s, a, id);
    }
    forall id | id in s'.tokens.requests && s'.tokens.requests[id].Finished? && s'.tokens.requests[id].outcome.Ok?
      ensures IsRenewalRecorded(s', s'.tokens.requests[id].outcome.value)
    {
      RenewalKept(s, a, id);
    }
  }

  lemma IssueKept(s: State, a: Action, id: nat)
    requires Enabled(s, a) && IsComplete(s) && id in Do(s, a).exchanges && HasIssued(Do(s, a).exchanges[id])
    ensures IsRecorded(Do(s, a), Do(s, a).exchanges[id])
  {
    if a.PollDevice? { PollRefuses(s, a.poll); }
    if id in s.exchanges && HasIssued(s.exchanges[id]) { assert IsRecorded(s, s.exchanges[id]); }
  }

  /** A refresh request comes to an answer with tokens only by its own last step. */
  lemma AnswerIsItsOwn(t: RefreshRotation.State, a: RefreshRotation.Action, id: nat)
    requires RefreshRotation.Enabled(t, a) && id in RefreshRotation.Do(t, a).requests
    requires var p' := RefreshRotation.Do(t, a).requests[id];
             p'.Finished? && p'.outcome.Ok? && !(id in t.requests && t.requests[id] == p')
    ensures a == RefreshRotation.Respond(id) && id in t.requests && t.requests[id].Issuing?
  {}

  lemma RenewalKept(s: State, a: Action, id: nat)
    requires Inv(s) && Enabled(s, a) && IsComplete(s)
    requires var p := Do(s, a).tokens.requests; id in p && p[id].Finished? && p[id].outcome.Ok?
    ensures IsRenewalRecorded(Do(s, a), Do(s, a).tokens.requests[id].outcome.value)
  {
    var p' := Do(s, a).tokens.requests[id];
    assert s.ledger <= Do(s, a).ledger;
    if id in s.tokens.requests && s.tokens.requests[id] == p' {
      var issued := p'.outcome.value;
      assert IsRenewalRecorded(s, issued);
      var f :| AccessToken(issued.subject, issued.clientId, issued.scope, ByRefresh(f)) in s.ledger;
      assert AccessToken(issued.subject, issued.clientId, issued.scope, ByRefresh(f)) in Do(s, a).ledger;
    } else {
      TokenPartEnabled(s, a);
      AnswerIsItsOwn(s.tokens, TokenStep(s, a), id);
      RespondIsRecorded(s, id);
    }
  }

  lemma RespondIsRecorded(s: State, id: nat)
    requires Enabled(s, Respond(id))
    ensures var s' := Do(s, Respond(id));
            && id in s'.tokens.requests && s'.tokens.requests[id].Finished? && s'.tokens.requests[id].outcome.Ok?
            && IsRenewalRecorded(s', s'.tokens.requests[id].outcome.value)
  {
    var s', t := Do(s, Respond(id)), s.tokens.requests[id].issue;
    assert s'.ledger[|s.ledger|] == AccessToken(t.userSub, t.clientId, t.scope, ByRefresh(t.familyId));
  }

  /** Nothing is issued behind the ledger's back: every exchange that has issued and every refresh
      request answered with tokens has its entry, so what holds of all entries holds of all access
      tokens. */
  lemma {:induction false} LedgerIsComplete(r: Run, n: nat)
    requires IsRun(r) && n < |r.states|
    ensures IsComplete(r.states[n])
  {
    if n > 0 {
      LedgerIsComplete(r, n - 1);
      Reachable(r, n - 1);
      StepKeepsComplete(r.states[n - 1], r.actions[n - 1]);
    }
  }

  lemma {:induction false} StartedStays(r: Run, i: nat, j: nat, approval: Approval, f: string)
    requires IsRun(r) && i <= j < |r.states| && StartedBy(r.states[i], approval, f)
    ensures StartedBy(r.states[j], approval, f)
    decreases j
  {
    if i < j {
      StartedStays(r, i, j - 1, approval, f);
      var id :| Started(r.states[j - 1], id, f) && r.states[j - 1].exchanges[id].approval == approval;
      DoneStays(r.states[j - 1], r.actions[j - 1], id);
      assert Started(r.states[j], id, f);
    }
  }

  /** A replayed refresh token ends its approval for good: from the revocation on, no state has
      an unconsumed refresh token the approval led to, whatever was in flight. */
  lemma ReplayEndsTheApproval(r: Run, i: nat, approval: Approval, f: string, j: nat)
    requires IsRun(r) && RefreshRuns.Revokes(TokenPart(r), i, f) && StartedBy(r.states[i], approval, f)
    requires i < j < |r.states|
    ensures LiveTokens(r.states[j], approval) == {}
  {
    TokenPartIsRun(r);
    RefreshRuns.RevocationIsPermanent(TokenPart(r), i, f, j);
    StartedStays(r, i, j, approval, f);
    Reachable(r, j);
    var s := r.states[j];
    forall v | v in LiveTokens(s, approval) ensures v in RefreshTokens.Live(s.tokens.store, f) {
      OneFamily(s, approval, approval, f, s.tokens.store[v].familyId);
    }
  }

  // ---------------------------------------------------------------- authorization codes

  /** Step `i` presents code `c` for consumption. */
  ghost predicate Presents(r: Run, i: nat, c: string) {
    && i < |r.actions| && i < |r.states| && r.actions[i].Consume?
    && r.actions[i].id in r.states[i].exchanges
    && r.states[i].exchanges[r.actions[i].id].Consuming?
    && r.states[i].exchanges[r.actions[i].id].attempt.code == c
  }

  /** And gets it. */
  ghost predicate Wins(r: Run, i: nat, c: string) {
    Presents(r, i, c) && ConsumeCode(r.states[i].exchanges[r.actions[i].id], r.states[i].codes).0.Checking?
  }

  lemma {:induction false} CodesOnlyAdvance(r: Run, i: nat, j: nat)
    requires IsRun(r) && i <= j < |r.states|
    ensures CodesEvolve(r.states[i].codes, r.states[j].codes)
    decreases j
  {
    if i < j {
      CodesOnlyAdvance(r, i, j - 1);
      Reachable(r, j - 1);
      StepEvolves(r.states[j - 1], r.actions[j - 1]);
    }
  }

  /** Of all the requests that ever present a code, at most one gets it; every later one is
      refused as "already used", whether or not the first passed its checks. */
  lemma CodeWonOnce(r: Run, i: nat, j: nat, c: string)
    requires IsRun(r) && Wins(r, i, c) && i < j && Presents(r, j, c)
    ensures ConsumeCode(r.states[j].exchanges[r.actions[j].id], r.states[j].codes).0
            == Refused(InvalidGrant(AlreadyUsed))
  {
    CodesOnlyAdvance(r, i + 1, j);
    assert r.states[i + 1].codes[c].consumedAt.Some?;
  }

  /** No exchange is past the consumption of `c`, and `c` is spent. */
  ghost predicate IsBurnt(s: State, c: string) {
    && c in s.codes && s.codes[c].consumedAt.Some?
    && forall id | id in s.exchanges :: Holds(s.exchanges[id]) != Some(Browser(c))
  }

  lemma BurntStays(s: State, a: Action, c: string)
    requires Inv(s) && Enabled(s, a) && IsBurnt(s, c)
    ensures IsBurnt(Do(s, a), c)
  {
    StepKeepsCodes(s, a);
    if Moved(s, a).Some? && Holds(Moved(s, a).value.1).Some? { NewHolderSpends(s, a); }
  }

  /** An exchange that wins a code and then fails the client, redirect or PKCE check burns it:
      in no later state does any exchange hold that code. */
  lemma {:induction false} FailedCheckBurnsTheCode(r: Run, i: nat, n: nat)
    requires IsRun(r) && i < |r.actions| && r.actions[i].Check? && i < n < |r.states|
    requires r.actions[i].id in r.states[i].exchanges && r.states[i].exchanges[r.actions[i].id].Checking?
    requires var x := r.states[i].exchanges[r.actions[i].id];
             !BindingsHold(r.states[i].config.sha256, x.attempt, x.code)
    ensures IsBurnt(r.states[n], r.states[i].exchanges[r.actions[i].id].code.value)
    decreases n
  {
    var id := r.actions[i].id;
    var c := r.states[i].exchanges[id].code.value;
    if n == i + 1 {
      Reachable(r, i);
      var s := r.states[i];
      assert ExchangeOk(s, s.exchanges[id]);
      assert Holds(s.exchanges[id]) == Some(Browser(c));
      assert r.states[n].exchanges[id].Refused?;
      forall j | j in r.states[n].exchanges ensures Holds(r.states[n].exchanges[j]) != Some(Browser(c)) {
        if j != id { assert r.states[n].exchanges[j] == s.exchanges[j]; }
      }
    } else {
      FailedCheckBurnsTheCode(r, i, n - 1);
      Reachable(r, n - 1);
      BurntStays(r.states[n - 1], r.actions[n - 1], c);
    }
  }

  /** Step `i` is the approving consent that minted code `c`, as `code`. */
  ghost predicate Minted(r: Run, i: int, c: string, code: AuthorizationCode) {
    && 0 <= i < |r.actions| && i < |r.states| && r.actions[i].Consent? && r.actions[i].value == c
    && var decision := r.actions[i].decision;
       decision.approved
       && NewCode(r.states[i].config.clients, decision, r.states[i].Clock(), r.states[i].config.codeTtl, c) == Ok(code)
  }

  /** The same code, perhaps consumed since. */
  ghost predicate IsLater(later: AuthorizationCode, code: AuthorizationCode) {
    later == code.(consumedAt := later.consumedAt)
  }

  lemma {:induction false} CodeAsConsented(r: Run, n: nat, c: string)
    requires IsRun(r) && n < |r.states| && c in r.states[n].codes
    ensures exists i, code :: i < n && Minted(r, i, c, code) && IsLater(r.states[n].codes[c], code)
  {
    var s, a := r.states[n - 1], r.actions[n - 1];
    Reachable(r, n - 1);
    StepInv(s, a);
    if c in s.codes {
      CodeAsConsented(r, n - 1, c);
      var i, code :| i < n - 1 && Minted(r, i, c, code) && IsLater(s.codes[c], code);
      assert IsLater(r.states[n].codes[c], code);
      assert i < n;
    } else {
      assert Minted(r, n - 1, c, r.states[n].codes[c]);
    }
  }

  /** Step `k` is the check that exchange `id` passed with code `c`, spent in time. */
  ghost predicate Passed(r: Run, k: int, id: nat, c: string) {
    && 0 <= k < |r.actions| && k < |r.states| && r.actions[k] == Check(id)
    && id in r.states[k].exchanges && r.states[k].exchanges[id].Checking?
    && var x := r.states[k].exchanges[id];
       && x.code.value == c && BindingsHold(r.states[k].config.sha256, x.attempt, x.code)
       && x.code.consumedAt.Some? && x.code.issuedAt <= x.code.consumedAt.value < x.code.expiresAt
  }

  /** Exchange `x` has passed its checks on code `c`. */
  predicate IsGranted(x: Exchange, c: string) {
    !x.Checking? && Holds(x) == Some(Browser(c))
  }

  lemma GrantComesFromCheck(s: State, a: Action, c: string)
    requires Inv(s) && Enabled(s, a) && Moved(s, a).Some? && IsGranted(Moved(s, a).value.1, c)
    ensures var (id, x) := Moved(s, a).value;
            || (id in s.exchanges && IsGranted(s.exchanges[id], c))
            || (a == Check(id) && id in s.exchanges && s.exchanges[id].Checking? && s.exchanges[id].code.value == c
                && BindingsHold(s.config.sha256, s.exchanges[id].attempt, s.exchanges[id].code))
  {
    if a.PollDevice? {
      PollRefuses(s, a.poll);
      PollHolds(s, a.poll);
    }
  }

  lemma {:induction false} GrantedMeansPassed(r: Run, n: nat, id: nat, c: string)
    requires IsRun(r) && n < |r.states| && id in r.states[n].exchanges && IsGranted(r.states[n].exchanges[id], c)
    ensures exists k :: k < n && Passed(r, k, id, c)
  {
    var s, a := r.states[n - 1], r.actions[n - 1];
    Reachable(r, n - 1);
    if id in s.exchanges && IsGranted(s.exchanges[id], c) {
      GrantedMeansPassed(r, n - 1, id, c);
      var k :| k < n - 1 && Passed(r, k, id, c);
      assert k < n;
    } else {
      GrantComesFromCheck(s, a, c);
      assert ExchangeOk(s, s.exchanges[id]);
      assert CodeOk(s, c, s.codes[c]);
      assert Passed(r, n - 1, id, c);
    }
  }

  /** The code a check passes on was minted by a consent before, and is in the store. */
  lemma PassedMeansConsented(r: Run, k: int, id: nat, c: string) returns (i: int, code: AuthorizationCode)
    requires IsRun(r) && Passed(r, k, id, c)
    ensures i < k && Minted(r, i, c, code) && IsLater(r.states[k].exchanges[id].code, code)
    ensures c in r.states[k].codes && IsLater(r.states[k].codes[c], code)
  {
    Reachable(r, k);
    assert ExchangeOk(r.states[k], r.states[k].exchanges[id]);
    CodeAsConsented(r, k, c);
    i, code :| i < k && Minted(r, i, c, code) && IsLater(r.states[k].codes[c], code);
  }

  /** A code exchange succeeds only if a consent minted the code and later its own check passed
      on that very code, consumed within [issued, issued + ttl) of the consent; and then user,
      client and scope are exactly those consented to. */
  lemma SuccessMeansConsented(r: Run, n: nat, id: nat, c: string)
    requires IsRun(r) && n < |r.states| && id in r.states[n].exchanges && IsGranted(r.states[n].exchanges[id], c)
    ensures var x := r.states[n].exchanges[id];
            exists k: int, i: int, code ::
              && i < k < n && Minted(r, i, c, code) && Passed(r, k, id, c)
              && IsLater(r.states[k].exchanges[id].code, code)
              && x.userSub == code.userSub && x.scope == code.scope && x.client.id == code.clientId
  {
    GrantedMeansPassed(r, n, id, c);
    var k :| k < n && Passed(r, k, id, c);
    var i, code := PassedMeansConsented(r, k, id, c);
    CodesOnlyAdvance(r, k, n);
    Reachable(r, n);
    assert ExchangeOk(r.states[n], r.states[n].exchanges[id]);
    assert i < k < n && Minted(r, i, c, code) && Passed(r, k, id, c);
  }

  // ---------------------------------------------------------------- registered grants

  /** The exchange is of a grant its client is registered for, and starts a family, when it is done,
      exactly if the client is registered to refresh. */
  ghost predicate IsRegisteredFor(x: Exchange) {
    match x
    case Consuming(attempt, _) => AuthorizationCodeGrant in attempt.client.allowedGrants
    case Checking(attempt, _) => AuthorizationCodeGrant in attempt.client.allowedGrants
    case Refused(_) => true
    case _ =>
      && (if x.approval.Browser? then AuthorizationCodeGrant else DeviceCodeGrant) in x.client.allowedGrants
      && (x.Saving? ==> RefreshTokenGrant in x.client.allowedGrants)
      && (x.Done? ==> (x.saved.Some? <==> RefreshTokenGrant in x.client.allowedGrants))
  }

  lemma MovesAreRegistered(s: State, a: Action)
    requires Enabled(s, a) && Moved(s, a).Some?
    requires forall id | id in s.exchanges :: IsRegisteredFor(s.exchanges[id])
    ensures IsRegisteredFor(Moved(s, a).value.1)
  {
    if a.PollDevice? { PollRefuses(s, a.poll); }
  }

  lemma StepKeepsRegistered(s: State, a: Action)
    requires Enabled(s, a) && forall id | id in s.exchanges :: IsRegisteredFor(s.exchanges[id])
    ensures forall id | id in Do(s, a).exchanges :: IsRegisteredFor(Do(s, a).exchanges[id])
  {
    if Moved(s, a).Some? { MovesAreRegistered(s, a); }
  }

  lemma {:induction false} ExchangesAreRegistered(r: Run, n: nat)
    requires IsRun(r) && n < |r.states|
    ensures forall id | id in r.states[n].exchanges :: IsRegisteredFor(r.states[n].exchanges[id])
  {
    if n > 0 {
      ExchangesAreRegistered(r, n - 1);
      StepKeepsRegistered(r.states[n - 1], r.actions[n - 1]);
    }
  }

  /** No exchange ever gets anywhere but for a client registered for its grant; it has a refresh
      family only, and when done always, if the client is registered to refresh; and no refresh
      request of any other client ever comes to a lookup. */
  lemma OnlyRegisteredGrants(r: Run, n: nat)
    requires IsRun(r) && n < |r.states|
    ensures forall id | id in r.states[n].exchanges :: IsRegisteredFor(r.states[n].exchanges[id])
    ensures forall id | id in r.states[n].tokens.requests ::
              RefreshRuns.IsRegisteredFor(r.states[n].tokens.requests[id])
  {
    ExchangesAreRegistered(r, n);
    TokenPartIsRun(r);
    RefreshRuns.OnlyRegisteredRefreshes(TokenPart(r), n);
    assert TokenPart(r).states[n] == r.states[n].tokens;
  }

  // ---------------------------------------------------------------- device codes

  /** A device exchange succeeds only for the user who approved that very code, through its user
      code and before it expired, and for the client and scope of the code as created. */
  lemma DeviceSuccessMeansApproved(r: Run, n: nat, id: nat, d: string)
    requires IsRun(r) && n < |r.states| && id in r.states[n].exchanges
    requires Holds(r.states[n].exchanges[id]) == Some(Approval.Device(d))
    ensures d in r.states[n].devices.byDeviceCode
    ensures var x, row := r.states[n].exchanges[id], r.states[n].devices.byDeviceCode[d];
            && x.client.id == row.clientId && x.scope == row.scope
            && row.redeemedAt.Some? && row.issuedAt <= row.redeemedAt.value < row.expiresAt
            && exists i :: i < n && DevicePolling.Approves(DevicePart(r), i, d, x.userSub)
  {
    Reachable(r, n);
    DevicePartIsRun(r);
    var s := r.states[n];
    assert ExchangeOk(s, s.exchanges[id]);
    assert DevicePolling.RowOk(s.DeviceView(), s.devices.byDeviceCode[d]);
    DevicePolling.ApprovedByItsUser(DevicePart(r), n, d, s.exchanges[id].userSub);
  }
}
