/** The services' sequential programs are runs of the interleaved system. Whatever a run has come
    to, a new request can follow with its steps back to back, stopping where it is answered, and
    the state reached is the one the service leaves behind. So what holds over every run holds of
    the services run one after another. */
module SequentialRuns {
  import opened Exchanges
  import opened GrantLifecycle
  import opened GrantRuns
  import opened Outcomes
  import AuthorizationCodes
  import DeviceCodes
  import RefreshGrant
  import RefreshRotation
  import RefreshTokens

  ghost function Last(r: Run): State
    requires r.states != []
  {
    r.states[|r.states| - 1]
  }

  ghost function Then(r: Run, a: Action): Run
    requires r.states != []
  {
    Run(r.states + [Do(Last(r), a)], r.actions + [a])
  }

  /** Run `longer` goes on from where run `r` ended. */
  ghost predicate Continues(r: Run, longer: Run) {
    IsRun(r) && IsRun(longer) && r.states <= longer.states && r.actions <= longer.actions
  }

  lemma ThenContinues(r: Run, a: Action)
    requires IsRun(r) && Enabled(Last(r), a)
    ensures Continues(r, Then(r, a)) && Last(Then(r, a)) == Do(Last(r), a)
  {}

  // ---------------------------------------------------------------- refresh requests

  /** All that has changed is the one refresh request and the tokens. */
  ghost predicate OnlyRefreshed(s: State, s': State, id: nat, p: RefreshGrant.Progress, store: RefreshTokens.Store) {
    && s'.config == s.config && s'.Clock() == s.Clock() && s'.codes == s.codes && s'.devices == s.devices
    && s'.exchanges == s.exchanges
    && s'.tokens.requests == s.tokens.requests[id := p] && s'.tokens.store == store
  }

  /** Run `r` can go on to a state in which only that has changed. */
  ghost predicate CanRefresh(r: Run, id: nat, p: RefreshGrant.Progress, store: RefreshTokens.Store)
    requires r.states != []
  {
    exists longer :: Continues(r, longer) && OnlyRefreshed(Last(r), Last(longer), id, p, store)
  }

  ghost predicate IsOwnStep(s: State, a: Action, id: nat) {
    && Enabled(s, a)
    && ((a.Refresh? && RefreshRotation.Runs(a.step, id)) || (a.Respond? && a.refreshId == id))
  }

  lemma OwnStepChangesOnlyThat(s: State, a: Action, id: nat)
    requires IsOwnStep(s, a, id)
    ensures id in Do(s, a).tokens.requests
    ensures OnlyRefreshed(s, Do(s, a), id, Do(s, a).tokens.requests[id], Do(s, a).tokens.store)
  {}

  /** A step of the request itself, and what can be reached after it. */
  lemma RefreshThrough(r: Run, a: Action, id: nat, p: RefreshGrant.Progress, store: RefreshTokens.Store)
    requires IsRun(r) && IsOwnStep(Last(r), a, id)
    requires CanRefresh(Then(r, a), id, p, store)
    ensures CanRefresh(r, id, p, store)
  {
    ThenContinues(r, a);
    OwnStepChangesOnlyThat(Last(r), a, id);
    var longer :| Continues(Then(r, a), longer) && OnlyRefreshed(Last(Then(r, a)), Last(longer), id, p, store);
    RefreshedTwice(Last(r), Last(Then(r, a)), Last(longer), id, p, store);
    assert Continues(r, longer);
  }

  lemma RefreshedTwice(s: State, s1: State, s2: State, id: nat, p: RefreshGrant.Progress, store: RefreshTokens.Store)
    requires id in s1.tokens.requests && OnlyRefreshed(s, s1, id, s1.tokens.requests[id], s1.tokens.store)
    requires OnlyRefreshed(s1, s2, id, p, store)
    ensures OnlyRefreshed(s, s2, id, p, store)
  {}

  lemma RefreshedAlready(r: Run, id: nat)
    requires IsRun(r) && id in Last(r).tokens.requests
    ensures CanRefresh(r, id, Last(r).tokens.requests[id], Last(r).tokens.store)
  {
    assert Continues(r, r);
    assert Last(r).tokens.requests == Last(r).tokens.requests[id := Last(r).tokens.requests[id]];
  }

  /** A refresh request is run to its answer: the answer and the tokens are `RunAlone`'s. */
  lemma BackToBackIsRunAlone(r: Run, id: nat, request: RefreshGrant.Request, freshValue: string)
    requires IsRun(r) && id !in Last(r).tokens.requests && freshValue !in Last(r).tokens.used
    ensures var s := Last(r);
            var (p, store) := RefreshGrant.RunAlone(request, s.tokens.store, s.Clock(), freshValue, s.tokens.ttl);
            CanRefresh(r, id, p, store)
  {
    var s, arrive := Last(r), Refresh(RefreshRotation.Arrive(id, request));
    var (p, store) := RefreshGrant.RunAlone(request, s.tokens.store, s.Clock(), freshValue, s.tokens.ttl);
    ThenContinues(r, arrive);
    if RefreshGrant.Start(request).Finished? {
      RefreshedAlready(Then(r, arrive), id);
    } else {
      LookOn(Then(r, arrive), id, freshValue);
    }
    RefreshThrough(r, arrive, id, p, store);
  }

  lemma LookOn(r: Run, id: nat, freshValue: string)
    requires IsRun(r) && id in Last(r).tokens.requests && Last(r).tokens.requests[id].Looking?
    requires freshValue !in Last(r).tokens.used
    ensures var s := Last(r);
            var found := RefreshGrant.Look(s.tokens.requests[id], s.tokens.store);
            var judged := RefreshGrant.Decide(found, s.Clock(), freshValue, s.tokens.ttl);
            var (p, store) := RefreshGrant.Commit(judged, s.tokens.store);
            CanRefresh(r, id, RefreshGrant.Issue(p), store)
  {
    var s, look := Last(r), Refresh(RefreshRotation.Lookup(id));
    var found := RefreshGrant.Look(s.tokens.requests[id], s.tokens.store);
    var judged := RefreshGrant.Decide(found, s.Clock(), freshValue, s.tokens.ttl);
    var (p, store) := RefreshGrant.Commit(judged, s.tokens.store);
    ThenContinues(r, look);
    if found.Finished? {
      RefreshedAlready(Then(r, look), id);
    } else {
      JudgeOn(Then(r, look), id, freshValue);
    }
    RefreshThrough(r, look, id, RefreshGrant.Issue(p), store);
  }

  lemma JudgeOn(r: Run, id: nat, freshValue: string)
    requires IsRun(r) && id in Last(r).tokens.requests && Last(r).tokens.requests[id].Found?
    requires freshValue !in Last(r).tokens.used
    ensures var s := Last(r);
            var judged := RefreshGrant.Decide(s.tokens.requests[id], s.Clock(), freshValue, s.tokens.ttl);
            var (p, store) := RefreshGrant.Commit(judged, s.tokens.store);
            CanRefresh(r, id, RefreshGrant.Issue(p), store)
  {
    var s, judge := Last(r), Refresh(RefreshRotation.Judge(id, freshValue));
    var judged := RefreshGrant.Decide(s.tokens.requests[id], s.Clock(), freshValue, s.tokens.ttl);
    var (p, store) := RefreshGrant.Commit(judged, s.tokens.store);
    ThenContinues(r, judge);
    if judged.Finished? {
      RefreshedAlready(Then(r, judge), id);
    } else {
      WriteOn(Then(r, judge), id);
    }
    RefreshThrough(r, judge, id, RefreshGrant.Issue(p), store);
  }

  lemma WriteOn(r: Run, id: nat)
    requires IsRun(r) && id in Last(r).tokens.requests
    requires Last(r).tokens.requests[id].Rotating? || Last(r).tokens.requests[id].Revoking?
    ensures var s := Last(r);
            var (p, store) := RefreshGrant.Commit(s.tokens.requests[id], s.tokens.store);
            CanRefresh(r, id, RefreshGrant.Issue(p), store)
  {
    var s, write := Last(r), Refresh(RefreshRotation.Write(id));
    var (p, store) := RefreshGrant.Commit(s.tokens.requests[id], s.tokens.store);
    ThenContinues(r, write);
    var r1 := Then(r, write);
    if p.Issuing? {
      ThenContinues(r1, Respond(id));
      RefreshedAlready(Then(r1, Respond(id)), id);
      RefreshThrough(r1, Respond(id), id, RefreshGrant.Issue(p), store);
    } else {
      RefreshedAlready(r1, id);
    }
    RefreshThrough(r, write, id, RefreshGrant.Issue(p), store);
  }

  // ---------------------------------------------------------------- exchanges

  /** All that has changed is the one exchange and the stores. */
  ghost predicate OnlyExchanged(s: State, s': State, id: nat, x: Exchange, codes: AuthorizationCodes.Store,
                                devices: DeviceCodes.Store, tokens: RefreshTokens.Store)
  {
    && s'.config == s.config && s'.Clock() == s.Clock() && s'.tokens.requests == s.tokens.requests
    && s'.exchanges == s.exchanges[id := x]
    && s'.codes == codes && s'.devices == devices && s'.tokens.store == tokens
  }

  /** Run `r` can go on to a state in which only that has changed. */
  ghost predicate CanReach(r: Run, id: nat, x: Exchange, codes: AuthorizationCodes.Store,
                           devices: DeviceCodes.Store, tokens: RefreshTokens.Store)
    requires r.states != []
  {
    exists longer :: Continues(r, longer) && OnlyExchanged(Last(r), Last(longer), id, x, codes, devices, tokens)
  }

  lemma ReachThrough(r: Run, a: Action, id: nat, x: Exchange, codes: AuthorizationCodes.Store,
                     devices: DeviceCodes.Store, tokens: RefreshTokens.Store)
    requires IsRun(r) && Enabled(Last(r), a) && Moved(Last(r), a).Some? && Moved(Last(r), a).value.0 == id
    requires !a.Tick? && !a.Refresh? && !a.Respond?
    requires CanReach(Then(r, a), id, x, codes, devices, tokens)
    ensures CanReach(r, id, x, codes, devices, tokens)
  {
    ThenContinues(r, a);
    var longer :| Continues(Then(r, a), longer)
                  && OnlyExchanged(Last(Then(r, a)), Last(longer), id, x, codes, devices, tokens);
    assert Continues(r, longer) && OnlyExchanged(Last(r), Last(longer), id, x, codes, devices, tokens);
  }

  /** An exchange that has been answered is where it should be. */
  lemma ReachedAlready(r: Run, id: nat)
    requires IsRun(r) && id in Last(r).exchanges
    ensures CanReach(r, id, Last(r).exchanges[id], Last(r).codes, Last(r).devices, Last(r).tokens.store)
  {
    assert Continues(r, r);
    assert Last(r).exchanges == Last(r).exchanges[id := Last(r).exchanges[id]];
  }

  /** The shared tail: issue, and save a family if the client may refresh. */
  lemma IssueAndSave(r: Run, id: nat, value: string, family: string)
    requires IsRun(r) && id in Last(r).exchanges && (Last(r).exchanges[id].Approved? || Last(r).exchanges[id].Refused?)
    requires value !in Last(r).tokens.used && family !in Last(r).tokens.used
    ensures var s := Last(r);
            var (x, tokens) := SaveRoot(IssueAccess(s.exchanges[id], value, family, s.tokens.ttl), s.tokens.store);
            CanReach(r, id, x, s.codes, s.devices, tokens)
  {
    if Last(r).exchanges[id].Refused? {
      ReachedAlready(r, id);
    } else {
      var s, issue := Last(r), Issue(id, value, family);
      var (x, tokens) := SaveRoot(IssueAccess(s.exchanges[id], value, family, s.tokens.ttl), s.tokens.store);
      ThenContinues(r, issue);
      if Last(Then(r, issue)).exchanges[id].Saving? {
        SaveOn(Then(r, issue), id);
      } else {
        ReachedAlready(Then(r, issue), id);
      }
      ReachThrough(r, issue, id, x, s.codes, s.devices, tokens);
    }
  }

  lemma SaveOn(r: Run, id: nat)
    requires IsRun(r) && id in Last(r).exchanges && Last(r).exchanges[id].Saving?
    ensures var s := Last(r);
            var (x, tokens) := SaveRoot(s.exchanges[id], s.tokens.store);
            CanReach(r, id, x, s.codes, s.devices, tokens)
  {
    var s := Last(r);
    var (x, tokens) := SaveRoot(s.exchanges[id], s.tokens.store);
    ThenContinues(r, SaveFamily(id));
    ReachedAlready(Then(r, SaveFamily(id)), id);
    ReachThrough(r, SaveFamily(id), id, x, s.codes, s.devices, tokens);
  }

  /** A device poll is run to its answer: exchange, device codes and tokens are `PollAlone`'s. */
  lemma BackToBackIsPollAlone(r: Run, id: nat, poll: PollRequest, value: string, family: string)
    requires IsRun(r) && id !in Last(r).exchanges
    requires value !in Last(r).tokens.used && family !in Last(r).tokens.used
    ensures var s := Last(r);
            var (x, devices, tokens) :=
              PollAlone(poll, s.devices, s.tokens.store, s.Clock(), value, family, s.tokens.ttl);
            CanReach(r, id, x, s.codes, devices, tokens)
  {
    var s := Last(r);
    var (x, devices, tokens) := PollAlone(poll, s.devices, s.tokens.store, s.Clock(), value, family, s.tokens.ttl);
    ThenContinues(r, PollDevice(id, poll));
    IssueAndSave(Then(r, PollDevice(id, poll)), id, value, family);
    ReachThrough(r, PollDevice(id, poll), id, x, s.codes, devices, tokens);
  }

  /** A code exchange is run to its answer: exchange, codes and tokens are `CodeAlone`'s, with one
      clock reading throughout. The fresh values are not the code the request presents. */
  lemma BackToBackIsCodeAlone(r: Run, id: nat, request: CodeRequest, value: string, family: string)
    requires IsRun(r) && id !in Last(r).exchanges
    requires value !in Last(r).tokens.used && family !in Last(r).tokens.used
    requires request.code != Some(value) && request.code != Some(family)
    ensures var s := Last(r);
            var (x, codes, tokens) := CodeAlone(s.config.sha256, request, s.codes, s.tokens.store, s.Clock(), s.Clock(),
                                                value, family, s.tokens.ttl);
            CanReach(r, id, x, codes, s.devices, tokens)
  {
    var s, begin := Last(r), Begin(id, request);
    var (x, codes, tokens) := CodeAlone(s.config.sha256, request, s.codes, s.tokens.store, s.Clock(), s.Clock(),
                                        value, family, s.tokens.ttl);
    ThenContinues(r, begin);
    if Last(Then(r, begin)).exchanges[id].Consuming? {
      ConsumeOn(Then(r, begin), id, value, family);
    } else {
      ReachedAlready(Then(r, begin), id);
    }
    ReachThrough(r, begin, id, x, codes, s.devices, tokens);
  }

  lemma ConsumeOn(r: Run, id: nat, value: string, family: string)
    requires IsRun(r) && id in Last(r).exchanges && Last(r).exchanges[id].Consuming?
    requires value !in Last(r).tokens.used && family !in Last(r).tokens.used
    ensures var s := Last(r);
            var (x1, codes) := ConsumeCode(s.exchanges[id], s.codes);
            var x2 := CheckCode(x1, s.config.sha256, s.Clock());
            var (x, tokens) := SaveRoot(IssueAccess(x2, value, family, s.tokens.ttl), s.tokens.store);
            CanReach(r, id, x, codes, s.devices, tokens)
  {
    var s, consume := Last(r), Consume(id);
    var (x1, codes) := ConsumeCode(s.exchanges[id], s.codes);
    var x2 := CheckCode(x1, s.config.sha256, s.Clock());
    var (x, tokens) := SaveRoot(IssueAccess(x2, value, family, s.tokens.ttl), s.tokens.store);
    ThenContinues(r, consume);
    if x1.Checking? {
      CheckOn(Then(r, consume), id, value, family);
    } else {
      ReachedAlready(Then(r, consume), id);
    }
    ReachThrough(r, consume, id, x, codes, s.devices, tokens);
  }

  lemma CheckOn(r: Run, id: nat, value: string, family: string)
    requires IsRun(r) && id in Last(r).exchanges && Last(r).exchanges[id].Checking?
    requires value !in Last(r).tokens.used && family !in Last(r).tokens.used
    ensures var s := Last(r);
            var x1 := CheckCode(s.exchanges[id], s.config.sha256, s.Clock());
            var (x, tokens) := SaveRoot(IssueAccess(x1, value, family, s.tokens.ttl), s.tokens.store);
            CanReach(r, id, x, s.codes, s.devices, tokens)
  {
    var s := Last(r);
    var x1 := CheckCode(s.exchanges[id], s.config.sha256, s.Clock());
    var (x, tokens) := SaveRoot(IssueAccess(x1, value, family, s.tokens.ttl), s.tokens.store);
    ThenContinues(r, Check(id));
    IssueAndSave(Then(r, Check(id)), id, value, family);
    ReachThrough(r, Check(id), id, x, s.codes, s.devices, tokens);
  }
}
