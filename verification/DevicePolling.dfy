/** The device flow as a transition system: device codes are created, decided and polled,
    each use case one atomic step, under a clock that never goes back. */
module DevicePolling {
  import opened DeviceCodes
  import opened DeviceFlow
  import opened Exchanges
  import opened Model
  import opened Outcomes

  datatype State = State(clock: int, clients: Clients, ttl: int, interval: int, devices: Store)

  datatype Action =
    | Tick(now: int)
    | Create(request: DeviceRequest, deviceCode: string, userCode: string)
    | Choose(decision: Decision)
    | Ask(poll: PollRequest)

  ghost predicate Enabled(s: State, a: Action) {
    match a
    case Tick(now) => s.clock <= now
    case Create(_, deviceCode, userCode) => deviceCode !in s.devices.byDeviceCode && userCode !in s.devices.byUserCode
    case Choose(_) => true
    case Ask(_) => true
  }

  ghost function Do(s: State, a: Action): State {
    match a
    case Tick(now) => s.(clock := now)
    case Create(request, deviceCode, userCode) =>
      var r := NewDeviceCode(s.clients, request, s.clock, s.ttl, s.interval, deviceCode, userCode);
      if r.Ok? then s.(devices := Saved(s.devices, r.value)) else s
    case Choose(decision) => s.(devices := Decided(s.devices, decision, s.clock))
    case Ask(poll) => s.(devices := Poll(poll, s.devices, s.clock).1)
  }

  // ---------------------------------------------------------------- invariant

  /** Neither approved nor denied. */
  ghost predicate IsUndecided(row: DeviceCode) { row.userSub.None? && !row.denied }

  ghost predicate RowOk(s: State, row: DeviceCode) {
    && row.issuedAt <= s.clock && row.expiresAt == row.issuedAt + s.ttl && row.interval == s.interval
    && (row.denied ==> row.userSub.None?)
    && (row.redeemedAt.Some? ==> row.userSub.Some? && row.issuedAt <= row.redeemedAt.value < row.expiresAt)
    && (row.lastPolledAt.Some? ==>
          row.issuedAt <= row.lastPolledAt.value <= s.clock && row.lastPolledAt.value < row.expiresAt)
    && row.clientId in s.clients && row.scope <= s.clients[row.clientId].allowedScopes
  }

  ghost predicate RowsOk(s: State) {
    forall d | d in s.devices.byDeviceCode :: RowOk(s, s.devices.byDeviceCode[d])
  }

  ghost predicate Inv(s: State) {
    IsRegistry(s.clients) && InStep(s.devices) && RowsOk(s)
  }

  /** How one row may change: identity fields never; the decision, the approver and the
      redemption are written once; approval and denial exclude each other. */
  ghost predicate RowEvolves(a: DeviceCode, b: DeviceCode) {
    && b.deviceCode == a.deviceCode && b.userCode == a.userCode && b.clientId == a.clientId && b.scope == a.scope
    && b.issuedAt == a.issuedAt && b.expiresAt == a.expiresAt && b.interval == a.interval
    && (a.userSub.Some? ==> b.userSub == a.userSub)
    && (!IsUndecided(a) ==> b.denied == a.denied && b.userSub == a.userSub)
    && (a.redeemedAt.Some? ==> b.redeemedAt == a.redeemedAt)
    && (a.lastPolledAt.Some? ==> b.lastPolledAt.Some? && a.lastPolledAt.value <= b.lastPolledAt.value)
  }

  ghost predicate StoreEvolves(a: Store, b: Store) {
    forall d | d in a.byDeviceCode :: d in b.byDeviceCode && RowEvolves(a.byDeviceCode[d], b.byDeviceCode[d])
  }

  /** Less than one interval after the last recorded poll. */
  ghost predicate IsTooSoon(row: DeviceCode, now: int) {
    row.lastPolledAt.Some? && now < row.lastPolledAt.value + row.interval
  }

  /** What the step does to one stored row, by itself. */
  ghost function RowAfter(s: State, a: Action, row: DeviceCode): DeviceCode {
    match a
    case Choose(decision) =>
      if decision.userCode != row.userCode || s.clock >= row.expiresAt || !IsUndecided(row) then row
      else if decision.approved then row.(userSub := Some(decision.userSub))
      else row.(denied := true)
    case Ask(poll) =>
      if !IsPollOf(poll, row) || s.clock >= row.expiresAt || row.denied then row
      else if IsTooSoon(row, s.clock) || IsUndecided(row) then row.(lastPolledAt := Some(s.clock))
      else if row.redeemedAt.Some? then row
      else row.(redeemedAt := Some(s.clock))
    case _ => row
  }

  ghost predicate IsPollOf(poll: PollRequest, row: DeviceCode) {
    poll.deviceCode == Some(row.deviceCode) && row.deviceCode != ""
    && DeviceCodeGrant in poll.client.allowedGrants && poll.client.id == row.clientId
  }

  /** What a poll of the row is told. */
  ghost function AnswerFor(poll: PollRequest, row: DeviceCode, now: int): Exchange
    requires IsPollOf(poll, row)
  {
    if now >= row.expiresAt then Refused(ExpiredToken)
    else if row.denied then Refused(AccessDenied)
    else if IsTooSoon(row, now) then Refused(SlowDown)
    else if row.userSub.None? then Refused(AuthorizationPending)
    else if row.redeemedAt.Some? then Refused(InvalidGrant(AlreadyUsed))
    else Approved(Device(row.deviceCode), poll.client, row.userSub.value, row.scope, now)
  }

  lemma RowAfterOk(s: State, a: Action, row: DeviceCode)
    requires RowOk(s, row)
    ensures RowOk(s, RowAfter(s, a, row)) && RowEvolves(row, RowAfter(s, a, row))
  {}

  /** Rewriting a stored row under its own two codes leaves the index and the other rows alone. */
  lemma RewriteRow(devices: Store, row: DeviceCode)
    requires InStep(devices) && row.deviceCode in devices.byDeviceCode
    requires row.userCode == devices.byDeviceCode[row.deviceCode].userCode
    ensures Saved(devices, row) == devices.(byDeviceCode := devices.byDeviceCode[row.deviceCode := row])
    ensures InStep(Saved(devices, row))
  {
    SaveKeepsInStep(devices, row);
    assert devices.byUserCode[row.userCode := row.deviceCode] == devices.byUserCode;
  }

  /** A decision or a poll rewrites at most one row, as `RowAfter` says. */
  lemma ChooseOneRow(s: State, decision: Decision)
    requires Inv(s)
    ensures var after := Do(s, Choose(decision)).devices;
            && InStep(after) && after.byDeviceCode.Keys == s.devices.byDeviceCode.Keys
            && forall d | d in s.devices.byDeviceCode ::
                 after.byDeviceCode[d] == RowAfter(s, Choose(decision), s.devices.byDeviceCode[d])
  {
    var found := FindByUserCode(s.devices, decision.userCode);
    if found.Some? && DecisionFault(s.devices, decision, s.clock).None? {
      RewriteRow(s.devices, RowAfter(s, Choose(decision), found.value));
    }
  }

  lemma PollRewrites(s: State, poll: PollRequest)
    requires InStep(s.devices) && poll.deviceCode.Some? && poll.deviceCode.value in s.devices.byDeviceCode
    ensures var d := poll.deviceCode.value;
            var row := s.devices.byDeviceCode[d];
            var (answer, after) := Poll(poll, s.devices, s.clock);
            && after == s.devices.(byDeviceCode := s.devices.byDeviceCode[d := RowAfter(s, Ask(poll), row)])
            && InStep(after)
            && (IsPollOf(poll, row) ==> answer == AnswerFor(poll, row, s.clock))
  {
    var d := poll.deviceCode.value;
    var row := s.devices.byDeviceCode[d];
    assert s.devices.byDeviceCode[d := row] == s.devices.byDeviceCode;
    if IsPollOf(poll, row) && s.clock < row.expiresAt && !row.denied {
      if IsTooSoon(row, s.clock) || IsUndecided(row) {
        RewriteRow(s.devices, row.(lastPolledAt := Some(s.clock)));
      } else {
        RedeemKeepsInStep(s.devices, d, s.clock);
      }
    }
  }

  lemma AskOneRow(s: State, poll: PollRequest)
    requires Inv(s)
    ensures var after := Do(s, Ask(poll)).devices;
            && InStep(after) && after.byDeviceCode.Keys == s.devices.byDeviceCode.Keys
            && forall d | d in s.devices.byDeviceCode ::
                 var row := s.devices.byDeviceCode[d];
                 && after.byDeviceCode[d] == RowAfter(s, Ask(poll), row)
                 && (IsPollOf(poll, row) ==> Poll(poll, s.devices, s.clock).0 == AnswerFor(poll, row, s.clock))
  {
    if poll.deviceCode.Some? && poll.deviceCode.value in s.devices.byDeviceCode {
      PollRewrites(s, poll);
    }
  }

  /** The device code a step creates, if it does. */
  ghost function NewRows(s: State, a: Action): set<string> {
    if a.Create? && NewDeviceCode(s.clients, a.request, s.clock, s.ttl, s.interval, a.deviceCode, a.userCode).Ok?
    then {a.deviceCode} else {}
  }

  /** Every step acts row by row, and only an accepted `Create` adds one: new, undecided and unpolled. */
  lemma StepRows(s: State, a: Action)
    requires Inv(s) && Enabled(s, a)
    ensures var before, after := s.devices.byDeviceCode, Do(s, a).devices.byDeviceCode;
            && InStep(Do(s, a).devices)
            && after.Keys == before.Keys + NewRows(s, a)
            && (forall d | d in before :: d in after && after[d] == RowAfter(s, a, before[d]))
            && (forall d | d in after && d !in before ::
                  && RowOk(s, after[d])
                  && IsUndecided(after[d]) && after[d].lastPolledAt.None? && after[d].redeemedAt.None?)
  {
    match a {
      case Tick(now) =>
      case Create(request, deviceCode, userCode) =>
        var r := NewDeviceCode(s.clients, request, s.clock, s.ttl, s.interval, deviceCode, userCode);
        if r.Ok? { SaveKeepsInStep(s.devices, r.value); }
      case Choose(decision) => ChooseOneRow(s, decision);
      case Ask(poll) => AskOneRow(s, poll);
    }
  }

  lemma StepInv(s: State, a: Action)
    requires Inv(s) && Enabled(s, a)
    ensures Inv(Do(s, a)) && StoreEvolves(s.devices, Do(s, a).devices)
  {
    StepRows(s, a);
    forall d | d in s.devices.byDeviceCode
      ensures RowOk(s, RowAfter(s, a, s.devices.byDeviceCode[d]))
      ensures RowEvolves(s.devices.byDeviceCode[d], RowAfter(s, a, s.devices.byDeviceCode[d]))
    {
      RowAfterOk(s, a, s.devices.byDeviceCode[d]);
    }
  }

  // ---------------------------------------------------------------- runs

  datatype Run = Run(states: seq<State>, actions: seq<Action>)

  ghost predicate IsRun(r: Run) {
    && |r.states| == |r.actions| + 1
    && IsRegistry(r.states[0].clients) && r.states[0].devices == EMPTY
    && forall i {:trigger r.actions[i]} :: 0 <= i < |r.actions| ==>
         Enabled(r.states[i], r.actions[i]) && r.states[i + 1] == Do(r.states[i], r.actions[i])
  }

  lemma {:induction false} Reachable(r: Run, n: nat)
    requires IsRun(r) && n < |r.states|
    ensures Inv(r.states[n]) && r.states[0].clock <= r.states[n].clock
  {
    if n > 0 {
      Reachable(r, n - 1);
      StepInv(r.states[n - 1], r.actions[n - 1]);
    }
  }

  /** Between any two states of a run every row evolves as `RowEvolves` says. */
  lemma {:induction false} RowsOnlyAdvance(r: Run, i: nat, j: nat)
    requires IsRun(r) && i <= j < |r.states|
    ensures StoreEvolves(r.states[i].devices, r.states[j].devices)
    ensures r.states[i].clock <= r.states[j].clock
    decreases j
  {
    if i < j {
      RowsOnlyAdvance(r, i, j - 1);
      Reachable(r, j - 1);
      StepInv(r.states[j - 1], r.actions[j - 1]);
    }
  }

  /** In every reachable state the user-code lookup answers what a scan of the rows answers. */
  lemma LookupIsScan(r: Run, n: nat, userCode: string, found: Option<DeviceCode>)
    requires IsRun(r) && n < |r.states|
    ensures IsScanResult(r.states[n].devices, userCode, found)
            <==> found == FindByUserCode(r.states[n].devices, userCode)
  {
    Reachable(r, n);
    IndexAgreesWithScan(r.states[n].devices, userCode, found);
  }

  /** The facts about step `n` of a run, row by row. */
  lemma RunStep(r: Run, n: nat)
    requires IsRun(r) && n < |r.actions|
    ensures Inv(r.states[n]) && Inv(r.states[n + 1]) && r.states[n].clock <= r.states[n + 1].clock
    ensures var before, after := r.states[n].devices.byDeviceCode, r.states[n + 1].devices.byDeviceCode;
            && (forall d | d in before :: d in after && after[d] == RowAfter(r.states[n], r.actions[n], before[d]))
            && (forall d | d in after && d !in before ::
                  IsUndecided(after[d]) && after[d].lastPolledAt.None? && after[d].redeemedAt.None?)
  {
    Reachable(r, n);
    StepInv(r.states[n], r.actions[n]);
    StepRows(r.states[n], r.actions[n]);
  }

  /** Step `n` seen from one row: it was there and changed as `RowAfter` says, or it is new. */
  lemma RowStep(r: Run, n: nat, d: string)
    requires IsRun(r) && n < |r.actions|
    requires d in r.states[n + 1].devices.byDeviceCode
    ensures r.states[n].clock <= r.states[n + 1].clock
    ensures var after := r.states[n + 1].devices.byDeviceCode[d];
            && RowOk(r.states[n + 1], after)
            && if d in r.states[n].devices.byDeviceCode then
                 var row := r.states[n].devices.byDeviceCode[d];
                 && RowOk(r.states[n], row) && row.deviceCode == d
                 && after == RowAfter(r.states[n], r.actions[n], row) && RowEvolves(row, after)
               else
                 IsUndecided(after) && after.lastPolledAt.None? && after.redeemedAt.None?
  {
    RunStep(r, n);
    if d in r.states[n].devices.byDeviceCode {
      RowAfterOk(r.states[n], r.actions[n], r.states[n].devices.byDeviceCode[d]);
    }
  }

  datatype Phase = IsWaiting | IsGranted | IsSpent | IsRejected

  function PhaseOf(row: DeviceCode): Phase {
    if row.denied then IsRejected
    else if row.userSub.None? then IsWaiting
    else if row.redeemedAt.None? then IsGranted
    else IsSpent
  }

  /** One step of the state machine: waiting to granted or rejected, granted to spent. */
  predicate IsTransition(a: Phase, b: Phase) {
    || (a.IsWaiting? && (b.IsGranted? || b.IsRejected?))
    || (a.IsGranted? && b.IsSpent?)
  }

  /** One step of a run takes a device code at most one transition further, and a new device
      code starts out waiting. */
  lemma PhaseStep(r: Run, n: nat, d: string)
    requires IsRun(r) && n < |r.actions| && d in r.states[n + 1].devices.byDeviceCode
    ensures var after := r.states[n + 1].devices.byDeviceCode[d];
            if d in r.states[n].devices.byDeviceCode then
              var row := r.states[n].devices.byDeviceCode[d];
              && (PhaseOf(row) == PhaseOf(after) || IsTransition(PhaseOf(row), PhaseOf(after)))
              && (row.userSub.Some? ==> after.userSub == row.userSub)
            else PhaseOf(after) == IsWaiting
  {
    RowStep(r, n, d);
  }

  /** In state `k` device code `d` is granted to `user` and unspent. */
  ghost predicate GrantedAt(r: Run, k: nat, d: string, user: Option<string>) {
    && k < |r.states| && d in r.states[k].devices.byDeviceCode
    && PhaseOf(r.states[k].devices.byDeviceCode[d]) == IsGranted && r.states[k].devices.byDeviceCode[d].userSub == user
  }

  /** A spent device code was granted to the same user, and unspent, at some earlier point. */
  lemma {:induction false} SpentWasGranted(r: Run, n: nat, d: string)
    requires IsRun(r) && n < |r.states| && d in r.states[n].devices.byDeviceCode
    requires PhaseOf(r.states[n].devices.byDeviceCode[d]) == IsSpent
    ensures exists k: nat :: k < n && GrantedAt(r, k, d, r.states[n].devices.byDeviceCode[d].userSub)
  {
    PhaseStep(r, n - 1, d);
    var user := r.states[n].devices.byDeviceCode[d].userSub;
    if !GrantedAt(r, n - 1, d, user) {
      SpentWasGranted(r, n - 1, d);
      var k: nat :| k < n - 1 && GrantedAt(r, k, d, user);
      assert k < n;
    }
  }

  /** Over any stretch of a run a device code only goes forwards: a decision is final, the
      approver and the redemption time are written once, and client, scope and user code never
      change; at each end approver, denial and redemption agree with the phase. */
  lemma PhasesOnlyAdvance(r: Run, i: nat, j: nat, d: string)
    requires IsRun(r) && i <= j < |r.states| && d in r.states[i].devices.byDeviceCode
    ensures d in r.states[j].devices.byDeviceCode
    ensures var a, b := r.states[i].devices.byDeviceCode[d], r.states[j].devices.byDeviceCode[d];
            && (PhaseOf(a).IsGranted? ==> (PhaseOf(b).IsGranted? || PhaseOf(b).IsSpent?) && b.userSub == a.userSub)
            && (PhaseOf(a).IsSpent? ==> PhaseOf(b).IsSpent? && b.userSub == a.userSub && b.redeemedAt == a.redeemedAt)
            && (PhaseOf(a).IsRejected? ==> PhaseOf(b).IsRejected?)
            && (PhaseOf(b).IsSpent? <==> b.redeemedAt.Some?)
            && (PhaseOf(b).IsRejected? ==> b.userSub.None? && b.redeemedAt.None?)
            && b.clientId == a.clientId && b.scope == a.scope && b.userCode == a.userCode
  {
    RowsOnlyAdvance(r, i, j);
    Reachable(r, i);
    Reachable(r, j);
    assert RowOk(r.states[i], r.states[i].devices.byDeviceCode[d]);
    assert RowOk(r.states[j], r.states[j].devices.byDeviceCode[d]);
  }

  /** Step `i` is user `user` approving device code `d` through its user code, before it expires. */
  ghost predicate Approves(r: Run, i: int, d: string, user: string) {
    && 0 <= i < |r.actions| && i < |r.states| && r.actions[i].Choose?
    && r.actions[i].decision.approved && r.actions[i].decision.userSub == user
    && d in r.states[i].devices.byDeviceCode
    && var row := r.states[i].devices.byDeviceCode[d];
       row.userCode == r.actions[i].decision.userCode && IsUndecided(row) && r.states[i].clock < row.expiresAt
  }

  /** An approver on a row was put there by that user, through the row's own user code,
      before the row expired. */
  lemma {:induction false} ApprovedByItsUser(r: Run, n: nat, d: string, user: string)
    requires IsRun(r) && n < |r.states|
    requires d in r.states[n].devices.byDeviceCode && r.states[n].devices.byDeviceCode[d].userSub == Some(user)
    ensures exists i :: i < n && Approves(r, i, d, user)
  {
    RowStep(r, n - 1, d);
    var row := r.states[n - 1].devices.byDeviceCode[d];
    if row.userSub == Some(user) {
      ApprovedByItsUser(r, n - 1, d, user);
      var i :| i < n - 1 && Approves(r, i, d, user);
      assert i < n;
    } else {
      assert Approves(r, n - 1, d, user);
    }
  }

  /** Step `i` is a user denying device code `d` through its user code, before it expires. */
  ghost predicate Denies(r: Run, i: int, d: string) {
    && 0 <= i < |r.actions| && i < |r.states| && r.actions[i].Choose? && !r.actions[i].decision.approved
    && d in r.states[i].devices.byDeviceCode
    && var row := r.states[i].devices.byDeviceCode[d];
       row.userCode == r.actions[i].decision.userCode && IsUndecided(row) && r.states[i].clock < row.expiresAt
  }

  /** A row is denied only because a user denied it so. */
  lemma {:induction false} DeniedByAUser(r: Run, n: nat, d: string)
    requires IsRun(r) && n < |r.states|
    requires d in r.states[n].devices.byDeviceCode && r.states[n].devices.byDeviceCode[d].denied
    ensures exists i :: i < n && Denies(r, i, d)
  {
    RowStep(r, n - 1, d);
    if r.states[n - 1].devices.byDeviceCode[d].denied {
      DeniedByAUser(r, n - 1, d);
      var i :| i < n - 1 && Denies(r, i, d);
      assert i < n;
    } else {
      assert Denies(r, n - 1, d);
    }
  }

  /** The row says what was decided. */
  ghost predicate Carries(row: DeviceCode, decision: Decision) {
    && row.denied == !decision.approved
    && row.userSub == if decision.approved then Some(decision.userSub) else None
  }

  lemma DecisionTakesAtOnce(r: Run, i: nat, d: string)
    requires IsRun(r) && (Denies(r, i, d) || exists user :: Approves(r, i, d, user))
    ensures DecisionFault(r.states[i].devices, r.actions[i].decision, r.states[i].clock).None?
    ensures d in r.states[i + 1].devices.byDeviceCode
    ensures Carries(r.states[i + 1].devices.byDeviceCode[d], r.actions[i].decision)
  {
    Reachable(r, i);
    DecisionAnswers(r.states[i].devices, r.actions[i].decision, r.states[i].clock);
  }

  /** Such a decision is accepted, and the row carries it from then on. */
  lemma DecisionsTake(r: Run, i: nat, d: string, n: nat)
    requires IsRun(r) && i < n < |r.states|
    requires Denies(r, i, d) || exists user :: Approves(r, i, d, user)
    ensures DecisionFault(r.states[i].devices, r.actions[i].decision, r.states[i].clock).None?
    ensures d in r.states[n].devices.byDeviceCode && Carries(r.states[n].devices.byDeviceCode[d], r.actions[i].decision)
  {
    DecisionTakesAtOnce(r, i, d);
    RowsOnlyAdvance(r, i + 1, n);
  }

  // ---------------------------------------------------------------- answers

  /** Step `n` is a poll of `d` by the client the code belongs to. */
  ghost predicate Polls(r: Run, n: nat, d: string) {
    && n < |r.actions| && n < |r.states| && r.actions[n].Ask? && d in r.states[n].devices.byDeviceCode
    && r.states[n].devices.byDeviceCode[d].deviceCode == d
    && IsPollOf(r.actions[n].poll, r.states[n].devices.byDeviceCode[d])
  }

  ghost function Answer(r: Run, n: nat): Exchange
    requires n < |r.actions| && n < |r.states| && r.actions[n].Ask?
  {
    Poll(r.actions[n].poll, r.states[n].devices, r.states[n].clock).0
  }

  lemma PollAnswer(r: Run, n: nat, d: string)
    requires IsRun(r) && Polls(r, n, d)
    ensures Answer(r, n) == AnswerFor(r.actions[n].poll, r.states[n].devices.byDeviceCode[d], r.states[n].clock)
  {
    Reachable(r, n);
    AskOneRow(r.states[n], r.actions[n].poll);
  }

  ghost predicate Answers(r: Run, n: nat, d: string, answer: Exchange) {
    Polls(r, n, d) && Answer(r, n) == answer
  }

  /** Pending answers for `d` among the first `n` steps. */
  ghost function Pendings(r: Run, d: string, n: nat): nat {
    if n == 0 then 0
    else Pendings(r, d, n - 1) + if Answers(r, n - 1, d, Refused(AuthorizationPending)) then 1 else 0
  }

  lemma {:induction false} PendingsAreSpaced(r: Run, d: string, n: nat)
    requires IsRun(r) && n < |r.states| && Pendings(r, d, n) > 0
    ensures d in r.states[n].devices.byDeviceCode
    ensures var row := r.states[n].devices.byDeviceCode[d];
            row.lastPolledAt.Some? && row.issuedAt + (Pendings(r, d, n) - 1) * row.interval <= row.lastPolledAt.value
  {
    var k := Pendings(r, d, n - 1);
    if k > 0 {
      PendingsAreSpaced(r, d, n - 1);
      RowStays(r, n - 1, d);
    } else {
      PollAnswer(r, n - 1, d);
      RowStays(r, n - 1, d);
    }
    RowStep(r, n - 1, d);
    if Answers(r, n - 1, d, Refused(AuthorizationPending)) {
      PollAnswer(r, n - 1, d);
      Succ(k, r.states[n].devices.byDeviceCode[d].interval);
    }
  }

  lemma Succ(k: nat, interval: int)
    ensures k * interval == (k - 1) * interval + interval
  {}

  lemma RowStays(r: Run, n: nat, d: string)
    requires IsRun(r) && n < |r.actions| && d in r.states[n].devices.byDeviceCode
    ensures d in r.states[n + 1].devices.byDeviceCode
  {
    RunStep(r, n);
  }

  /** The polling budget: k answers of `authorization_pending` for one device code fit in
      its lifetime, (k - 1) * interval < ttl. */
  lemma PollingBudget(r: Run, d: string, n: nat)
    requires IsRun(r) && n < |r.states| && Pendings(r, d, n) > 0
    ensures (Pendings(r, d, n) - 1) * r.states[n].interval < r.states[n].ttl
  {
    PendingsAreSpaced(r, d, n);
    Reachable(r, n);
    assert RowOk(r.states[n], r.states[n].devices.byDeviceCode[d]);
  }

  /** Tokens are granted only to a poll at least one interval after the last recorded one,
      before expiry, for the user who approved; and for one device code only once in a run. */
  lemma GrantedInTime(r: Run, n: nat, d: string)
    requires IsRun(r) && Polls(r, n, d) && Answer(r, n).Approved?
    ensures var row, now := r.states[n].devices.byDeviceCode[d], r.states[n].clock;
            && (row.lastPolledAt.Some? ==> now >= row.lastPolledAt.value + row.interval)
            && row.issuedAt <= now < row.expiresAt
            && row.userSub.Some?
            && Answer(r, n) == Approved(Device(d), r.actions[n].poll.client, row.userSub.value, row.scope, now)
            && exists k :: k < n && Approves(r, k, d, row.userSub.value)
  {
    Reachable(r, n);
    PollAnswer(r, n, d);
    var row := r.states[n].devices.byDeviceCode[d];
    assert RowOk(r.states[n], row);
    ApprovedByItsUser(r, n, d, row.userSub.value);
  }

  lemma GrantedOnce(r: Run, i: nat, j: nat, d: string)
    requires IsRun(r) && i < j && Polls(r, i, d) && Polls(r, j, d)
    requires Answer(r, i).Approved?
    ensures !Answer(r, j).Approved?
  {
    GrantRedeems(r, i, d);
    RowsOnlyAdvance(r, i + 1, j);
    PollAnswer(r, j, d);
  }

  lemma GrantRedeems(r: Run, i: nat, d: string)
    requires IsRun(r) && Polls(r, i, d) && Answer(r, i).Approved?
    ensures d in r.states[i + 1].devices.byDeviceCode && r.states[i + 1].devices.byDeviceCode[d].redeemedAt.Some?
  {
    PollAnswer(r, i, d);
    RowStays(r, i, d);
    RowStep(r, i, d);
  }

  /** A denial is final: from then on every poll is told so, or that the code has expired. */
  lemma DeniedForGood(r: Run, i: nat, d: string, n: nat)
    requires IsRun(r) && Denies(r, i, d) && i < n && Polls(r, n, d)
    ensures Answer(r, n)
            == Refused(if r.states[n].clock < r.states[n].devices.byDeviceCode[d].expiresAt then AccessDenied
                       else ExpiredToken)
  {
    DecisionsTake(r, i, d, n);
    PollAnswer(r, n, d);
  }

  /** A redemption is the doing of a granted poll. */
  lemma {:induction false} RedeemedByAPoll(r: Run, n: nat, d: string)
    requires IsRun(r) && n < |r.states|
    requires d in r.states[n].devices.byDeviceCode && r.states[n].devices.byDeviceCode[d].redeemedAt.Some?
    ensures exists k: nat :: k < n && Polls(r, k, d) && Answer(r, k).Approved?
  {
    RowStep(r, n - 1, d);
    if r.states[n - 1].devices.byDeviceCode[d].redeemedAt.Some? {
      RedeemedByAPoll(r, n - 1, d);
      var k: nat :| k < n - 1 && Polls(r, k, d) && Answer(r, k).Approved?;
      assert k < n;
    } else {
      assert Polls(r, n - 1, d);
      PollAnswer(r, n - 1, d);
    }
  }

  // ---------------------------------------------------------------- polling discipline

  /** The time of the last poll of `d` among the first `n` steps. */
  ghost function LastPoll(r: Run, d: string, n: nat): Option<int>
    requires n <= |r.states|
  {
    if n == 0 then None
    else if Polls(r, n - 1, d) then Some(r.states[n - 1].clock)
    else LastPoll(r, d, n - 1)
  }

  lemma {:induction false} RecordedIsNoLaterThanLast(r: Run, d: string, n: nat)
    requires IsRun(r) && n < |r.states| && d in r.states[n].devices.byDeviceCode
    requires r.states[n].devices.byDeviceCode[d].lastPolledAt.Some?
    ensures LastPoll(r, d, n).Some?
    ensures r.states[n].devices.byDeviceCode[d].lastPolledAt.value <= LastPoll(r, d, n).value <= r.states[n].clock
  {
    RowStep(r, n - 1, d);
    var row := r.states[n - 1].devices.byDeviceCode[d];
    if !Polls(r, n - 1, d) {
      assert row.lastPolledAt == r.states[n].devices.byDeviceCode[d].lastPolledAt;
    }
    if row.lastPolledAt.Some? { RecordedIsNoLaterThanLast(r, d, n - 1); }
  }

  /** A device whose polls are always at least one interval after its previous one is never
      told to slow down. */
  lemma PatientNeverSlowsDown(r: Run, d: string, n: nat)
    requires IsRun(r) && Polls(r, n, d)
    requires LastPoll(r, d, n).Some? ==> r.states[n].clock >= LastPoll(r, d, n).value + r.states[n].interval
    ensures Answer(r, n) != Refused(SlowDown)
  {
    Reachable(r, n);
    PollAnswer(r, n, d);
    assert RowOk(r.states[n], r.states[n].devices.byDeviceCode[d]);
    if r.states[n].devices.byDeviceCode[d].lastPolledAt.Some? { RecordedIsNoLaterThanLast(r, d, n); }
  }

  /** Approval is honoured: the first poll after it that is in time and not too soon is granted, to
      the user who approved and for the scope of the code. */
  lemma ApprovedIsGranted(r: Run, i: nat, d: string, user: string, n: nat)
    requires IsRun(r) && Approves(r, i, d, user) && i < n && Polls(r, n, d)
    requires r.states[n].clock < r.states[n].devices.byDeviceCode[d].expiresAt
    requires LastPoll(r, d, n).Some? ==> r.states[n].clock >= LastPoll(r, d, n).value + r.states[n].interval
    requires forall k: nat | k < n && Polls(r, k, d) :: !Answer(r, k).Approved?
    ensures Answer(r, n) == Approved(Device(d), r.actions[n].poll.client, user,
                                     r.states[i].devices.byDeviceCode[d].scope, r.states[n].clock)
  {
    DecisionsTake(r, i, d, n);
    PatientNeverSlowsDown(r, d, n);
    PollAnswer(r, n, d);
    RowsOnlyAdvance(r, i, n);
    if r.states[n].devices.byDeviceCode[d].redeemedAt.Some? { RedeemedByAPoll(r, n, d); }
  }

  /** From step `m` on, every poll of `d` comes sooner than one interval after the one before. */
  ghost predicate HastyAfter(r: Run, d: string, m: nat) {
    forall k | m < k < |r.actions| && k < |r.states| && Polls(r, k, d) ::
      LastPoll(r, d, k).Some? && r.states[k].clock < LastPoll(r, d, k).value + r.states[k].interval
  }

  /** The poll at step `m` was recorded in the row. */
  ghost predicate RecordedPoll(r: Run, d: string, m: nat) {
    Answers(r, m, d, Refused(AuthorizationPending)) || Answers(r, m, d, Refused(SlowDown))
  }

  ghost predicate IsRebuff(answer: Exchange) {
    answer in {Refused(SlowDown), Refused(AccessDenied), Refused(ExpiredToken)}
  }

  /** The row can only rebuff a poll that comes too soon after `last`. */
  ghost predicate IsBehind(row: DeviceCode, clock: int, last: Option<int>) {
    row.denied || row.expiresAt <= clock || row.lastPolledAt == last
  }

  lemma BehindStep(s: State, a: Action, row: DeviceCode, last: Option<int>)
    requires IsBehind(row, s.clock, last) && RowOk(s, row)
    requires last.Some? && (a.Ask? && IsPollOf(a.poll, row) ==> s.clock < last.value + row.interval)
    ensures IsBehind(RowAfter(s, a, row), s.clock, if a.Ask? && IsPollOf(a.poll, row) then Some(s.clock) else last)
  {}

  lemma {:induction false} HastyRowStaysBehind(r: Run, d: string, m: nat, n: nat)
    requires IsRun(r) && RecordedPoll(r, d, m) && HastyAfter(r, d, m) && m < n < |r.states|
    ensures d in r.states[n].devices.byDeviceCode && LastPoll(r, d, n).Some?
    ensures IsBehind(r.states[n].devices.byDeviceCode[d], r.states[n].clock, LastPoll(r, d, n))
  {
    if n == m + 1 {
      HastyStart(r, d, m);
    } else {
      HastyRowStaysBehind(r, d, m, n - 1);
      HastyNext(r, d, n - 1);
    }
  }

  lemma HastyStart(r: Run, d: string, m: nat)
    requires IsRun(r) && RecordedPoll(r, d, m)
    ensures d in r.states[m + 1].devices.byDeviceCode && LastPoll(r, d, m + 1) == Some(r.states[m].clock)
    ensures r.states[m + 1].devices.byDeviceCode[d].lastPolledAt == LastPoll(r, d, m + 1)
  {
    PollAnswer(r, m, d);
    RowStays(r, m, d);
    RowStep(r, m, d);
  }

  lemma HastyNext(r: Run, d: string, n: nat)
    requires IsRun(r) && n < |r.actions| && d in r.states[n].devices.byDeviceCode
    requires LastPoll(r, d, n).Some?
    requires IsBehind(r.states[n].devices.byDeviceCode[d], r.states[n].clock, LastPoll(r, d, n))
    requires Polls(r, n, d) ==> r.states[n].clock < LastPoll(r, d, n).value + r.states[n].interval
    ensures d in r.states[n + 1].devices.byDeviceCode && LastPoll(r, d, n + 1).Some?
    ensures IsBehind(r.states[n + 1].devices.byDeviceCode[d], r.states[n + 1].clock, LastPoll(r, d, n + 1))
  {
    RowStays(r, n, d);
    RowStep(r, n, d);
    BehindStep(r.states[n], r.actions[n], r.states[n].devices.byDeviceCode[d], LastPoll(r, d, n));
  }

  /** After a recorded poll, a device that keeps polling too soon is only ever told to slow
      down, that the user denied, or that the code expired, however long it goes on. */
  lemma HastyOnlyRebuffed(r: Run, d: string, m: nat, n: nat)
    requires IsRun(r) && RecordedPoll(r, d, m) && HastyAfter(r, d, m) && m < n && Polls(r, n, d)
    ensures IsRebuff(Answer(r, n))
  {
    HastyRowStaysBehind(r, d, m, n);
    PollAnswer(r, n, d);
    Reachable(r, n);
    assert RowOk(r.states[n], r.states[n].devices.byDeviceCode[d]);
  }
}
