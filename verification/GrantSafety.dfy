/** The lifecycle invariant is kept by every step, and what follows from it over whole runs. */
module GrantSafety {
  import opened AuthorizeConsent
  import opened Exchanges
  import opened GrantLifecycle
  import opened Model
  import opened Outcomes
  import opened Scopes
  import DevicePolling
  import RefreshRotation
  import RefreshTokens

  // ---------------------------------------------------------------- codes

  lemma CodeOkStays(s: State, s': State, c: string, code: AuthorizationCode)
    requires CodeOk(s, c, code) && Evolves(s, s')
    ensures CodeOk(s', c, code)
  {}

  lemma MintedCodeOk(s: State, decision: ConsentDecision, value: string)
    requires Inv(s) && NewCode(s.config.clients, decision, s.Clock(), s.config.codeTtl, value).Ok?
    ensures CodeOk(s.(tokens := s.tokens.(used := s.tokens.used + {value})), value,
                   NewCode(s.config.clients, decision, s.Clock(), s.config.codeTtl, value).value)
  {
    CodesStayWithinRegistration(s.config.clients, decision, s.Clock(), s.config.codeTtl, value);
  }

  lemma ConsumedCodeOk(s: State, id: nat)
    requires CodesOk(s) && ExchangesOk(s) && id in s.exchanges && s.exchanges[id].Consuming?
    ensures forall c | c in CodesAfter(s, Consume(id)) :: c in s.codes && CodeOk(s, c, CodesAfter(s, Consume(id))[c])
  {
    assert ExchangeOk(s, s.exchanges[id]);
  }

  lemma StepKeepsCodes(s: State, a: Action)
    requires Inv(s) && Enabled(s, a)
    ensures CodesOk(Do(s, a))
    ensures forall c | c in Do(s, a).codes && c !in s.codes :: c !in s.tokens.used
  {
    StepEvolves(s, a);
    var s' := Do(s, a);
    forall c | c in s'.codes ensures CodeOk(s', c, s'.codes[c]) && (c in s.codes || c !in s.tokens.used) {
      if a.Consume? {
        ConsumedCodeOk(s, a.id);
        CodeOkStays(s, s', c, s'.codes[c]);
      } else if c in s.codes && s'.codes[c] == s.codes[c] {
        CodeOkStays(s, s', c, s.codes[c]);
      } else {
        MintedCodeOk(s, a.decision, a.value);
      }
    }
  }

  // ---------------------------------------------------------------- exchanges

  lemma BacksStays(s: State, s': State, approval: Approval, clientId: string, userSub: string, scope: ScopeSet)
    requires Backs(s, approval, clientId, userSub, scope) && Evolves(s, s')
    ensures Backs(s', approval, clientId, userSub, scope)
  {}

  lemma FamiliesGrow(before: RefreshTokens.Store, after: RefreshTokens.Store)
    requires RefreshRotation.Evolves(before, after)
    ensures RefreshTokens.Families(before) <= RefreshTokens.Families(after)
  {
    forall f | f in RefreshTokens.Families(before) ensures f in RefreshTokens.Families(after) {
      var v :| v in before && before[v].familyId == f;
      assert RefreshRotation.Same(after[v], before[v]);
      assert after[v].familyId == f;
    }
  }

  lemma BystanderOk(s: State, s': State, x: Exchange)
    requires ExchangeOk(s, x) && Evolves(s, s')
    requires forall c | c in s'.codes && c !in s.codes :: c !in s.tokens.used
    requires x.Saving? ==> IsReserved(s'.tokens, x.root)
    ensures ExchangeOk(s', x)
  {
    FamiliesGrow(s.tokens.store, s'.tokens.store);
  }

  /** A reserved root stays reserved while other families are started and tokens rotate. */
  lemma ReservedStays(t: RefreshRotation.State, a: RefreshRotation.Action, root: RefreshToken)
    requires RefreshRotation.Inv(t) && RefreshRotation.Enabled(t, a) && IsReserved(t, root)
    requires a.StartFamily? ==> a.root.value != root.value && a.root.familyId != root.familyId
    ensures IsReserved(RefreshRotation.Do(t, a), root)
  {
    var t' := RefreshRotation.Do(t, a);
    if a.Write? { assert RefreshRotation.ProgressOk(t, t.requests[a.id]); WriteKeepsReserved(t, a.id, root); }
    forall id | id in t'.requests && t'.requests[id].Rotating? ensures t'.requests[id].replacement.value != root.value {
      if id in t.requests && t.requests[id] == t'.requests[id] {
        assert !RefreshRotation.IsPending(t, root.value);
      }
    }
    forall v | v in t'.store ensures t'.store[v].familyId != root.familyId {
      if v in t.store { assert t.store[v].familyId in RefreshTokens.Families(t.store); }
    }
  }

  lemma WriteKeepsReserved(t: RefreshRotation.State, id: nat, root: RefreshToken)
    requires RefreshRotation.Inv(t) && id in t.requests && IsReserved(t, root)
    ensures var after := RefreshRotation.Do(t, RefreshRotation.Write(id)).store;
            root.value !in after && forall v | v in after :: after[v].familyId in RefreshTokens.Families(t.store)
  {
    var p := t.requests[id];
    assert RefreshRotation.ProgressOk(t, p);
    var after := RefreshRotation.Do(t, RefreshRotation.Write(id)).store;
    if p.Rotating? {
      assert p.replacement.value != root.value by { assert !RefreshRotation.IsPending(t, root.value); }
      assert t.store[p.seen.value].familyId in RefreshTokens.Families(t.store);
    }
    forall v | v in after ensures after[v].familyId in RefreshTokens.Families(t.store) {
      if v in t.store { assert t.store[v].familyId in RefreshTokens.Families(t.store); }
    }
  }

  lemma SavingStaysReserved(s: State, a: Action, id: nat)
    requires Inv(s) && Enabled(s, a) && id in s.exchanges && s.exchanges[id].Saving?
    requires !(a.SaveFamily? && a.id == id)
    ensures IsReserved(Do(s, a).tokens, s.exchanges[id].root)
  {
    assert ExchangeOk(s, s.exchanges[id]);
    TokenPartEnabled(s, a);
    ReservedStays(s.tokens, TokenStep(s, a), s.exchanges[id].root);
  }

  lemma PollHolds(s: State, poll: PollRequest)
    requires Inv(s) && Poll(poll, s.devices, s.Clock()).0.Approved?
    ensures var x, after := Poll(poll, s.devices, s.Clock()).0, Poll(poll, s.devices, s.Clock()).1;
            && x.approval.Device? && x.approval.deviceCode in s.devices.byDeviceCode && x.at == s.Clock()
            && s.devices.byDeviceCode[x.approval.deviceCode].redeemedAt.None?
            && x.approval.deviceCode in after.byDeviceCode
            && var row := after.byDeviceCode[x.approval.deviceCode];
               && row.redeemedAt.Some? && row.clientId == x.client.id
               && row.userSub == Some(x.userSub) && row.scope == x.scope
  {
    DevicePolling.AskOneRow(s.DeviceView(), poll);
  }

  lemma MovedOk(s: State, a: Action)
    requires Inv(s) && Enabled(s, a) && Moved(s, a).Some?
    ensures ExchangeOk(Do(s, a), Moved(s, a).value.1)
  {
    match a {
      case Begin(id, request) => BegunIsOk(s, id, request);
      case Consume(id) => ConsumedIsOk(s, id);
      case Check(id) => CheckedIsBacked(s, id);
      case PollDevice(id, poll) => PolledIsOk(s, id, poll);
      case Issue(id, value, family) => IssuedIsOk(s, id, value, family);
      case SaveFamily(id) => SavedIsOk(s, id);
      case _ =>
    }
  }

  lemma BegunIsOk(s: State, id: nat, request: CodeRequest)
    requires Inv(s)
    ensures ExchangeOk(Do(s, Begin(id, request)), StartCode(request, s.Clock()))
  {
    assert forall c | c in s.codes :: CodeOk(s, c, s.codes[c]);
  }

  lemma ConsumedIsOk(s: State, id: nat)
    requires Inv(s) && Enabled(s, Consume(id))
    ensures ExchangeOk(Do(s, Consume(id)), ConsumeCode(s.exchanges[id], s.codes).0)
  {
    var c := s.exchanges[id].attempt.code;
    assert c in s.codes ==> CodeOk(s, c, s.codes[c]);
  }

  lemma PolledIsOk(s: State, id: nat, poll: PollRequest)
    requires Inv(s)
    ensures ExchangeOk(Do(s, PollDevice(id, poll)), Poll(poll, s.devices, s.Clock()).0)
  {
    if Poll(poll, s.devices, s.Clock()).0.Approved? { PollHolds(s, poll); } else { PollRefuses(s, poll); }
  }

  lemma PollRefuses(s: State, poll: PollRequest)
    ensures var x := Poll(poll, s.devices, s.Clock()).0; x.Approved? || x.Refused?
  {}

  lemma CheckedIsBacked(s: State, id: nat)
    requires Inv(s) && Enabled(s, Check(id))
    ensures ExchangeOk(Do(s, Check(id)), Moved(s, Check(id)).value.1)
  {
    assert ExchangeOk(s, s.exchanges[id]);
    var x := CheckCode(s.exchanges[id], s.config.sha256, s.Clock());
    if x.Approved? {
      assert Backs(s, x.approval, x.client.id, x.userSub, x.scope);
      StepEvolves(s, Check(id));
      BacksStays(s, Do(s, Check(id)), x.approval, x.client.id, x.userSub, x.scope);
    }
  }

  lemma IssuedIsOk(s: State, id: nat, value: string, family: string)
    requires Inv(s) && Enabled(s, Issue(id, value, family))
    ensures ExchangeOk(Do(s, Issue(id, value, family)), Moved(s, Issue(id, value, family)).value.1)
  {
    var a := Issue(id, value, family);
    var x := s.exchanges[id];
    assert ExchangeOk(s, x);
    StepEvolves(s, a);
    var s' := Do(s, a);
    BacksStays(s, s', x.approval, x.client.id, x.userSub, x.scope);
    FreshIsReserved(s.tokens, value, family, RootOf(Moved(s, a).value.1));
  }

  /** Fresh values, once handed out, are wanted by nobody else. */
  lemma FreshIsReserved(t: RefreshRotation.State, value: string, family: string, root: Option<RefreshToken>)
    requires RefreshRotation.Inv(t) && RefreshTokens.Families(t.store) <= t.used
    requires value !in t.used && family !in t.used
    requires root.Some? ==> root.value.value == value && root.value.familyId == family
    ensures root.Some? ==> IsReserved(RefreshRotation.Do(t, RefreshRotation.Reserve({value, family})), root.value)
  {
    forall r | r in t.requests && t.requests[r].Rotating? ensures t.requests[r].replacement.value != value {
      assert RefreshRotation.ProgressOk(t, t.requests[r]);
    }
  }

  lemma SavedIsOk(s: State, id: nat)
    requires Inv(s) && Enabled(s, SaveFamily(id))
    ensures ExchangeOk(Do(s, SaveFamily(id)), Moved(s, SaveFamily(id)).value.1)
  {
    var x := s.exchanges[id];
    assert ExchangeOk(s, x);
    StepEvolves(s, SaveFamily(id));
    var s' := Do(s, SaveFamily(id));
    BacksStays(s, s', x.approval, x.client.id, x.userSub, x.scope);
    assert s'.tokens.store[x.root.value].familyId in RefreshTokens.Families(s'.tokens.store);
  }

  lemma StepKeepsExchanges(s: State, a: Action)
    requires Inv(s) && Enabled(s, a)
    ensures ExchangesOk(Do(s, a))
  {
    var s' := Do(s, a);
    StepEvolves(s, a);
    StepKeepsCodes(s, a);
    forall id | id in s'.exchanges ensures ExchangeOk(s', s'.exchanges[id]) {
      if Moved(s, a).Some? && Moved(s, a).value.0 == id {
        MovedOk(s, a);
      } else {
        assert ExchangeOk(s, s.exchanges[id]);
        if s.exchanges[id].Saving? { SavingStaysReserved(s, a, id); }
        BystanderOk(s, s', s.exchanges[id]);
      }
    }
  }

  // ---------------------------------------------------------------- uniqueness

  /** A held approval is spent already. */
  lemma HeldIsSpent(s: State, id: nat)
    requires ExchangesOk(s) && id in s.exchanges && Holds(s.exchanges[id]).Some?
    ensures match Holds(s.exchanges[id]).value
            case Browser(c) => c in s.codes && s.codes[c].consumedAt.Some?
            case Device(d) => d in s.devices.byDeviceCode && s.devices.byDeviceCode[d].redeemedAt.Some?
  {
    assert ExchangeOk(s, s.exchanges[id]);
  }

  /** A step that gives an exchange a new approval spends it just then. */
  lemma NewHolderSpends(s: State, a: Action)
    requires Inv(s) && Enabled(s, a) && Moved(s, a).Some? && Holds(Moved(s, a).value.1).Some?
    ensures var (id, x) := Moved(s, a).value;
            || (id in s.exchanges && Holds(s.exchanges[id]) == Holds(x))
            || (match Holds(x).value
                case Browser(c) => c in s.codes && s.codes[c].consumedAt.None?
                case Device(d) => d in s.devices.byDeviceCode && s.devices.byDeviceCode[d].redeemedAt.None?)
  {
    match a {
      case PollDevice(id, poll) => PollRefuses(s, poll); PollHolds(s, poll);
      case Consume(id) => assert forall c | c in s.codes :: CodeOk(s, c, s.codes[c]);
      case _ =>
    }
  }

  lemma StepKeepsHolders(s: State, a: Action)
    requires Inv(s) && Enabled(s, a)
    ensures HoldersDistinct(Do(s, a))
  {
    if Moved(s, a).Some? {
      var (id, x) := Moved(s, a).value;
      if Holds(x).Some? {
        NewHolderSpends(s, a);
        forall j | j in s.exchanges && j != id ensures Holds(s.exchanges[j]) != Holds(x) {
          if Holds(s.exchanges[j]) == Holds(x) { HeldIsSpent(s, j); }
        }
      }
      HoldersDistinctUpdate(s.exchanges, id, x);
      assert Do(s, a).exchanges == s.exchanges[id := x];
    }
  }

  lemma HoldersDistinctUpdate(exchanges: map<nat, Exchange>, id: nat, x: Exchange)
    requires forall i, j | i in exchanges && j in exchanges && Holds(exchanges[i]).Some?
                           && Holds(exchanges[i]) == Holds(exchanges[j]) :: i == j
    requires Holds(x).Some? ==> forall j | j in exchanges && j != id :: Holds(exchanges[j]) != Holds(x)
    ensures var after := exchanges[id := x];
            forall i, j | i in after && j in after && Holds(after[i]).Some? && Holds(after[i]) == Holds(after[j]) ::
              i == j
  {}

  lemma RootIsUsed(s: State, id: nat)
    requires Inv(s) && id in s.exchanges && RootOf(s.exchanges[id]).Some?
    ensures var root := RootOf(s.exchanges[id]).value; root.value in s.tokens.used && root.familyId in s.tokens.used
  {
    assert ExchangeOk(s, s.exchanges[id]);
  }

  /** A root is minted fresh and then kept. */
  lemma RootIsFreshOrKept(s: State, a: Action)
    requires Enabled(s, a) && Moved(s, a).Some? && RootOf(Moved(s, a).value.1).Some?
    ensures var (id, x) := Moved(s, a).value;
            || (id in s.exchanges && RootOf(s.exchanges[id]) == RootOf(x))
            || (RootOf(x).value.value !in s.tokens.used && RootOf(x).value.familyId !in s.tokens.used)
  {
    if a.PollDevice? { PollRefuses(s, a.poll); }
  }

  lemma StepKeepsRoots(s: State, a: Action)
    requires Inv(s) && Enabled(s, a)
    ensures RootsDistinct(Do(s, a))
  {
    if Moved(s, a).Some? {
      var (id, x) := Moved(s, a).value;
      if RootOf(x).Some? {
        RootIsFreshOrKept(s, a);
        forall j | j in s.exchanges && j != id && RootOf(s.exchanges[j]).Some?
          ensures RootOf(s.exchanges[j]).value.familyId != RootOf(x).value.familyId
          ensures RootOf(s.exchanges[j]).value.value != RootOf(x).value.value
        {
          RootIsUsed(s, j);
        }
      }
      RootsDistinctUpdate(s.exchanges, id, x);
      assert Do(s, a).exchanges == s.exchanges[id := x];
    }
  }

  lemma RootsDistinctUpdate(exchanges: map<nat, Exchange>, id: nat, x: Exchange)
    requires forall i, j | i in exchanges && j in exchanges && i != j
                           && RootOf(exchanges[i]).Some? && RootOf(exchanges[j]).Some? ::
               && RootOf(exchanges[i]).value.familyId != RootOf(exchanges[j]).value.familyId
               && RootOf(exchanges[i]).value.value != RootOf(exchanges[j]).value.value
    requires RootOf(x).Some? ==> forall j | j in exchanges && j != id && RootOf(exchanges[j]).Some? ::
               && RootOf(exchanges[j]).value.familyId != RootOf(x).value.familyId
               && RootOf(exchanges[j]).value.value != RootOf(x).value.value
    ensures var after := exchanges[id := x];
            forall i, j | i in after && j in after && i != j && RootOf(after[i]).Some? && RootOf(after[j]).Some? ::
              && RootOf(after[i]).value.familyId != RootOf(after[j]).value.familyId
              && RootOf(after[i]).value.value != RootOf(after[j]).value.value
  {}

  // ---------------------------------------------------------------- tracing

  lemma DoneStays(s: State, a: Action, id: nat)
    requires Enabled(s, a) && id in s.exchanges && s.exchanges[id].Done?
    ensures id in Do(s, a).exchanges && Do(s, a).exchanges[id] == s.exchanges[id]
  {}

  lemma TraceStays(s: State, a: Action, t: RefreshToken, t': RefreshToken)
    requires Enabled(s, a) && TokenTraced(s, t)
    requires Descends(t, t')
    ensures TokenTraced(Do(s, a), t')
  {
    var id :| Started(s, id, t.familyId) && Covers(s, id, t.userSub, t.clientId, t.scope);
    DoneStays(s, a, id);
    assert Started(Do(s, a), id, t'.familyId) && Covers(Do(s, a), id, t'.userSub, t'.clientId, t'.scope);
  }

  /** Token `t'` has the family, user and client of `t`, and no wider scope. */
  ghost predicate Descends(t: RefreshToken, t': RefreshToken) {
    t'.familyId == t.familyId && t'.userSub == t.userSub && t'.clientId == t.clientId && t'.scope <= t.scope
  }

  /** Where a token in the store after a step comes from. */
  lemma TokenOrigin(t: RefreshRotation.State, a: RefreshRotation.Action, v: string)
    requires RefreshRotation.Inv(t) && RefreshRotation.Enabled(t, a) && v in RefreshRotation.Do(t, a).store
    ensures || (exists u :: u in t.store && Descends(t.store[u], RefreshRotation.Do(t, a).store[v]))
            || (a.StartFamily? && RefreshRotation.Do(t, a).store[v] == a.root)
  {
    RefreshRotation.StepEvolves(t, a);
    var after := RefreshRotation.Do(t, a).store;
    if v in t.store {
      assert RefreshRotation.Same(after[v], t.store[v]);
      assert Descends(t.store[v], after[v]);
    } else if a.Write? {
      var p := t.requests[a.id];
      assert RefreshRotation.ProgressOk(t, p);
      assert Descends(t.store[p.seen.value], after[v]);
    }
  }

  lemma StepKeepsTraces(s: State, a: Action)
    requires Inv(s) && Enabled(s, a)
    ensures TokensTraced(Do(s, a))
  {
    var s' := Do(s, a);
    StepEvolves(s, a);
    TokenPartEnabled(s, a);
    forall v | v in s'.tokens.store
      ensures TokenTraced(s', s'.tokens.store[v]) && s'.tokens.store[v].familyId in s'.tokens.used
    {
      TokenOrigin(s.tokens, TokenStep(s, a), v);
      var t' := s'.tokens.store[v];
      if u :| u in s.tokens.store && Descends(s.tokens.store[u], t') {
        TraceStays(s, a, s.tokens.store[u], t');
        assert s.tokens.store[u].familyId in RefreshTokens.Families(s.tokens.store);
      } else {
        RootIsTraced(s, a.id);
      }
    }
  }

  lemma RootIsTraced(s: State, id: nat)
    requires Inv(s) && Enabled(s, SaveFamily(id))
    ensures TokenTraced(Do(s, SaveFamily(id)), s.exchanges[id].root)
    ensures s.exchanges[id].root.familyId in s.tokens.used
  {
    var s', x := Do(s, SaveFamily(id)), s.exchanges[id];
    assert ExchangeOk(s, x);
    assert Started(s', id, x.root.familyId) && Covers(s', id, x.root.userSub, x.root.clientId, x.root.scope);
  }

  lemma EntryStays(s: State, a: Action, e: AccessToken)
    requires Enabled(s, a) && EntryTraced(s, e)
    ensures EntryTraced(Do(s, a), e)
  {
    match e.cause {
      case ByApproval(_) =>
        var id :| IssuedFor(s, id, e);
        assert IssuedFor(Do(s, a), id, e);
      case ByRefresh(f) =>
        var id :| Started(s, id, f) && Covers(s, id, e.subject, e.clientId, e.scope);
        DoneStays(s, a, id);
        assert Started(Do(s, a), id, f) && Covers(Do(s, a), id, e.subject, e.clientId, e.scope);
    }
  }

  lemma NewRefreshEntry(s: State, id: nat)
    requires Inv(s) && Enabled(s, Respond(id))
    ensures EntryTraced(Do(s, Respond(id)), Do(s, Respond(id)).ledger[|s.ledger|])
  {
    var s', t := Do(s, Respond(id)), s.tokens.requests[id].issue;
    assert RefreshRotation.ProgressOk(s.tokens, s.tokens.requests[id]);
    assert RefreshRotation.Same(s.tokens.store[t.value], t);
    TraceStays(s, Respond(id), s.tokens.store[t.value], t);
    var x :| Started(s', x, t.familyId) && Covers(s', x, t.userSub, t.clientId, t.scope);
  }

  lemma NewExchangeEntry(s: State, id: nat, value: string, family: string)
    requires Inv(s) && Enabled(s, Issue(id, value, family))
    ensures var e := Do(s, Issue(id, value, family)).ledger[|s.ledger|];
            && EntryTraced(Do(s, Issue(id, value, family)), e)
            && forall i | 0 <= i < |s.ledger| :: s.ledger[i].cause != e.cause
  {
    var s' := Do(s, Issue(id, value, family));
    var e := s'.ledger[|s.ledger|];
    assert IssuedFor(s', id, e);
    assert Holds(s.exchanges[id]) == Some(e.cause.approval);
    forall i | 0 <= i < |s.ledger| ensures s.ledger[i].cause != e.cause {
      assert EntryTraced(s, s.ledger[i]);
      if s.ledger[i].cause.ByApproval? {
        var j :| IssuedFor(s, j, s.ledger[i]);
        assert Holds(s.exchanges[j]) == Some(s.ledger[i].cause.approval);
      }
    }
  }

  lemma NewEntry(s: State, a: Action)
    requires Inv(s) && Enabled(s, a) && |Do(s, a).ledger| > |s.ledger|
    ensures var e := Do(s, a).ledger[|s.ledger|];
            && EntryTraced(Do(s, a), e)
            && (e.cause.ByApproval? ==> forall i | 0 <= i < |s.ledger| :: s.ledger[i].cause != e.cause)
  {
    match a {
      case Respond(id) => NewRefreshEntry(s, id);
      case Issue(id, value, family) => NewExchangeEntry(s, id, value, family);
      case _ =>
    }
  }

  lemma StepKeepsLedger(s: State, a: Action)
    requires Inv(s) && Enabled(s, a)
    ensures LedgerOk(Do(s, a))
  {
    var s' := Do(s, a);
    forall i | 0 <= i < |s'.ledger| ensures EntryTraced(s', s'.ledger[i]) {
      if i < |s.ledger| {
        assert s'.ledger[i] == s.ledger[i];
        assert EntryTraced(s, s.ledger[i]);
        EntryStays(s, a, s.ledger[i]);
      } else {
        NewEntry(s, a);
      }
    }
    if |s'.ledger| > |s.ledger| {
      NewEntry(s, a);
      forall i, j | 0 <= i < j < |s'.ledger| && s'.ledger[i].cause.ByApproval?
        ensures s'.ledger[i].cause != s'.ledger[j].cause
      {
        assert s'.ledger[i] == s.ledger[i];
        if j < |s.ledger| { assert s'.ledger[j] == s.ledger[j]; }
      }
    }
  }

  lemma StepInv(s: State, a: Action)
    requires Inv(s) && Enabled(s, a)
    ensures Inv(Do(s, a)) && Evolves(s, Do(s, a))
  {
    PartsStep(s, a);
    StepEvolves(s, a);
    StepKeepsCodes(s, a);
    StepKeepsExchanges(s, a);
    StepKeepsHolders(s, a);
    StepKeepsRoots(s, a);
    StepKeepsTraces(s, a);
    StepKeepsLedger(s, a);
  }
}
