/** Polls and decisions with their read and their write apart, as they run on the database: a
    whole row is read, judged, and later saved whole, with other requests in between. Only the
    redemption is a check-and-set of its own. What the atomic steps of module DevicePolling keep
    is kept here exactly by the runs in which no save is overtaken. */
module SplitPolling {
  import opened DeviceCodes
  import opened DeviceFlow
  import opened Exchanges
  import opened Model
  import opened Outcomes
  import DevicePolling

  /** A poll or a decision between its read and its write, or after it. */
  datatype Task =
    | Storing(copy: DeviceCode, row: DeviceCode, refusal: Option<Error>)
    | Redeeming(client: Client, deviceCode: string, at: int)
    | Told(answer: Exchange)
    | Settled(fault: Option<Error>)

  // ---------------------------------------------------------------- the two halves

  /** What a poll makes of the row it has read. */
  function JudgeCopy(client: Client, copy: DeviceCode, now: int): Task {
    if copy.clientId != client.id then Told(Refused(InvalidGrant(WrongClient)))
    else if copy.IsExpired(now) then Told(Refused(ExpiredToken))
    else if copy.IsDenied() then Told(Refused(AccessDenied))
    else if !copy.CanPollAt(now) then Storing(copy, copy.MarkPolled(now), Some(SlowDown))
    else if copy.IsPending() then Storing(copy, copy.MarkPolled(now), Some(AuthorizationPending))
    else Redeeming(client, copy.deviceCode, now)
  }

  function ReadForPoll(poll: PollRequest, devices: Store, now: int): Task {
    if !poll.client.Supports(DeviceCodeGrant) then Told(Refused(UnauthorizedClient))
    else if Missing(poll.deviceCode) then Told(Refused(InvalidRequest))
    else
      match FindByDeviceCode(devices, poll.deviceCode.value)
      case None => Told(Refused(InvalidGrant(NotFound)))
      case Some(copy) => JudgeCopy(poll.client, copy, now)
  }

  function ReadForDecision(decision: Decision, devices: Store, now: int): Task {
    match FindByUserCode(devices, decision.userCode)
    case None => Settled(Some(InvalidRequest))
    case Some(copy) =>
      if copy.IsExpired(now) then Settled(Some(ExpiredToken))
      else if !copy.IsPending() then Settled(Some(InvalidGrant(AlreadyDecided)))
      else Storing(copy, if decision.approved then copy.Approve(decision.userSub) else copy.Deny(), None)
  }

  function Write(task: Task, devices: Store): (r: (Task, Store)) {
    match task
    case Storing(copy, row, refusal) =>
      (if refusal.Some? then Told(Refused(refusal.value)) else Settled(None), Saved(devices, row))
    case Redeeming(client, d, at) =>
      (match Redemption(devices, d, at)
       case None => Told(Refused(InvalidGrant(AlreadyUsed)))
       case Some(row) => Told(Approved(Device(d), client, row.userSub.value, row.scope, at)),
       Redeemed(devices, d, at))
    case _ => (task, devices)
  }

  /** With nothing in between the two halves are the atomic poll and the atomic decision. */
  lemma HalvesMakeTheWhole(devices: Store, poll: PollRequest, decision: Decision, now: int)
    requires InStep(devices)
    ensures Write(ReadForPoll(poll, devices, now), devices)
            == (Told(Poll(poll, devices, now).0), Poll(poll, devices, now).1)
    ensures Write(ReadForDecision(decision, devices, now), devices)
            == (Settled(DecisionFault(devices, decision, now)), Decided(devices, decision, now))
  {}

  /** Equal but for the time of the last poll. */
  predicate SameButForPolls(a: DeviceCode, b: DeviceCode) {
    a.(lastPolledAt := None) == b.(lastPolledAt := None)
  }

  /** A poll that judges a copy and records itself later answers and writes what one atomic poll
      at the write would, exactly when nothing but poll times has changed since the read and those
      do not change whether the poll comes too soon. */
  lemma SplitPollIsAtomicIff(devices: Store, poll: PollRequest, copy: DeviceCode, now: int)
    requires InStep(devices) && copy.deviceCode in devices.byDeviceCode
    requires DevicePolling.IsPollOf(poll, copy) && JudgeCopy(poll.client, copy, now).Storing?
    requires var current := devices.byDeviceCode[copy.deviceCode];
             current.clientId == copy.clientId && current.userCode == copy.userCode
    ensures var current := devices.byDeviceCode[copy.deviceCode];
            var (answer, after) := Poll(poll, devices, now);
            Write(JudgeCopy(poll.client, copy, now), devices) == (Told(answer), after)
            <==> SameButForPolls(copy, current)
                 && DevicePolling.IsTooSoon(copy, now) == DevicePolling.IsTooSoon(current, now)
  {
    var current := devices.byDeviceCode[copy.deviceCode];
    var (_, after) := Write(JudgeCopy(poll.client, copy, now), devices);
    assert after.byDeviceCode[copy.deviceCode] == copy.MarkPolled(now);
  }

  // ---------------------------------------------------------------- the system

  datatype State = State(
    clock: int, clients: Clients, ttl: int, interval: int, devices: Store, tasks: map<nat, Task>)

  datatype Action =
    | Tick(now: int)
    | Create(request: DeviceRequest, deviceCode: string, userCode: string)
    | ReadPoll(id: nat, poll: PollRequest)
    | ReadDecision(id: nat, decision: Decision)
    | Complete(id: nat)

  ghost predicate Enabled(s: State, a: Action) {
    match a
    case Tick(now) => s.clock <= now
    case Create(_, deviceCode, userCode) => deviceCode !in s.devices.byDeviceCode && userCode !in s.devices.byUserCode
    case ReadPoll(id, _) => id !in s.tasks
    case ReadDecision(id, _) => id !in s.tasks
    case Complete(id) => id in s.tasks
  }

  ghost function Do(s: State, a: Action): State {
    match a
    case Tick(now) => s.(clock := now)
    case Create(request, deviceCode, userCode) =>
      var r := NewDeviceCode(s.clients, request, s.clock, s.ttl, s.interval, deviceCode, userCode);
      if r.Ok? then s.(devices := Saved(s.devices, r.value)) else s
    case ReadPoll(id, poll) => s.(tasks := s.tasks[id := ReadForPoll(poll, s.devices, s.clock)])
    case ReadDecision(id, decision) => s.(tasks := s.tasks[id := ReadForDecision(decision, s.devices, s.clock)])
    case Complete(id) =>
      if id !in s.tasks then s
      else
        var (task, devices) := Write(s.tasks[id], s.devices);
        s.(tasks := s.tasks[id := task], devices := devices)
  }

  datatype Run = Run(states: seq<State>, actions: seq<Action>)

  ghost predicate IsRun(r: Run) {
    && |r.states| == |r.actions| + 1
    && r.states[0].devices == EMPTY && r.states[0].tasks == map[]
    && forall i {:trigger r.actions[i]} :: 0 <= i < |r.actions| ==>
         Enabled(r.states[i], r.actions[i]) && r.states[i + 1] == Do(r.states[i], r.actions[i])
  }

  // ---------------------------------------------------------------- what every run keeps

  /** The part of a row that must not be lost: who approved, a denial, the redemption. */
  function Standing(row: DeviceCode): (Option<string>, bool, Option<int>) {
    (row.userSub, row.denied, row.redeemedAt)
  }

  ghost predicate SameIdentity(a: DeviceCode, b: DeviceCode) {
    && b.deviceCode == a.deviceCode && b.userCode == a.userCode && b.clientId == a.clientId && b.scope == a.scope
    && b.issuedAt == a.issuedAt && b.expiresAt == a.expiresAt && b.interval == a.interval
  }

  ghost predicate RowOk(row: DeviceCode) {
    && (row.denied ==> row.userSub.None?)
    && (row.redeemedAt.Some? ==> row.userSub.Some? && row.redeemedAt.value < row.expiresAt)
  }

  /** The row a task will save is its copy polled, or its pending copy decided. */
  ghost predicate TaskOk(devices: Store, task: Task) {
    task.Storing? ==>
      && RowOk(task.copy) && RowOk(task.row) && SameIdentity(task.copy, task.row)
      && task.copy.deviceCode in devices.byDeviceCode
      && SameIdentity(task.copy, devices.byDeviceCode[task.copy.deviceCode])
      && (Standing(task.row) == Standing(task.copy) ||
          (DevicePolling.IsUndecided(task.copy) && !DevicePolling.IsUndecided(task.row) && task.row.redeemedAt.None?))
  }

  ghost predicate Inv(s: State) {
    && InStep(s.devices)
    && (forall d | d in s.devices.byDeviceCode :: RowOk(s.devices.byDeviceCode[d]))
    && (forall id | id in s.tasks :: TaskOk(s.devices, s.tasks[id]))
  }

  /** Rows are never lost and keep their identity. */
  ghost predicate RowsKept(a: Store, b: Store) {
    forall d | d in a.byDeviceCode :: d in b.byDeviceCode && SameIdentity(a.byDeviceCode[d], b.byDeviceCode[d])
  }

  lemma WriteKeeps(devices: Store, task: Task)
    requires InStep(devices) && TaskOk(devices, task)
    requires forall d | d in devices.byDeviceCode :: RowOk(devices.byDeviceCode[d])
    ensures var after := Write(task, devices).1;
            && InStep(after) && RowsKept(devices, after)
            && forall d | d in after.byDeviceCode :: RowOk(after.byDeviceCode[d])
  {
    match task {
      case Storing(copy, row, _) => SaveKeepsInStep(devices, row);
      case Redeeming(_, d, at) => RedeemKeepsInStep(devices, d, at);
      case _ =>
    }
  }

  lemma StepInv(s: State, a: Action)
    requires Inv(s) && Enabled(s, a)
    ensures Inv(Do(s, a)) && RowsKept(s.devices, Do(s, a).devices)
  {
    match a {
      case Create(request, deviceCode, userCode) =>
        var r := NewDeviceCode(s.clients, request, s.clock, s.ttl, s.interval, deviceCode, userCode);
        if r.Ok? { SaveKeepsInStep(s.devices, r.value); }
      case Complete(id) => WriteKeeps(s.devices, s.tasks[id]);
      case _ =>
    }
  }

  lemma {:induction false} Reachable(r: Run, n: nat)
    requires IsRun(r) && n < |r.states|
    ensures Inv(r.states[n])
  {
    if n > 0 {
      Reachable(r, n - 1);
      StepInv(r.states[n - 1], r.actions[n - 1]);
    }
  }

  // ---------------------------------------------------------------- forward runs

  /** A decision and a redemption are final. */
  ghost predicate IsForward(a: DeviceCode, b: DeviceCode) {
    && (!DevicePolling.IsUndecided(a) ==> b.userSub == a.userSub && b.denied == a.denied)
    && (a.redeemedAt.Some? ==> b.redeemedAt == a.redeemedAt)
  }

  ghost predicate AreForward(a: Store, b: Store) {
    forall d | d in a.byDeviceCode :: d in b.byDeviceCode && IsForward(a.byDeviceCode[d], b.byDeviceCode[d])
  }

  /** The step saves over a row whose standing is neither the one its copy was read with nor the
      one it is about to write: a decision or a redemption has come in between. */
  ghost predicate IsOvertaken(s: State, a: Action) {
    && a.Complete? && a.id in s.tasks && s.tasks[a.id].Storing?
    && var task := s.tasks[a.id];
       && task.copy.deviceCode in s.devices.byDeviceCode
       && var standing := Standing(s.devices.byDeviceCode[task.copy.deviceCode]);
          standing != Standing(task.copy) && standing != Standing(task.row)
  }

  /** Every row is at or past the copies read from it. */
  ghost predicate IsAbreast(s: State) {
    forall id | id in s.tasks && s.tasks[id].Storing? ::
      && s.tasks[id].copy.deviceCode in s.devices.byDeviceCode
      && IsForward(s.tasks[id].copy, s.devices.byDeviceCode[s.tasks[id].copy.deviceCode])
  }

  lemma AbreastStep(s: State, a: Action)
    requires Inv(s) && IsAbreast(s) && Enabled(s, a) && AreForward(s.devices, Do(s, a).devices)
    ensures IsAbreast(Do(s, a))
  {
    forall id | id in Do(s, a).tasks && Do(s, a).tasks[id].Storing?
      ensures Do(s, a).tasks[id].copy.deviceCode in Do(s, a).devices.byDeviceCode
      ensures IsForward(Do(s, a).tasks[id].copy, Do(s, a).devices.byDeviceCode[Do(s, a).tasks[id].copy.deviceCode])
    {
      if id in s.tasks { assert TaskOk(s.devices, s.tasks[id]); }
    }
  }

  lemma ForwardStep(s: State, a: Action)
    requires Inv(s) && IsAbreast(s) && Enabled(s, a)
    ensures AreForward(s.devices, Do(s, a).devices) <==> !IsOvertaken(s, a)
    ensures AreForward(s.devices, Do(s, a).devices) ==> IsAbreast(Do(s, a))
  {
    if AreForward(s.devices, Do(s, a).devices) { AbreastStep(s, a); }
    if a.Complete? && s.tasks[a.id].Storing? {
      var task := s.tasks[a.id];
      var d := task.copy.deviceCode;
      assert TaskOk(s.devices, task);
      assert Do(s, a).devices.byDeviceCode[d] == task.row;
    }
  }

  ghost predicate ForwardAt(r: Run, i: nat) {
    i + 1 < |r.states| && AreForward(r.states[i].devices, r.states[i + 1].devices)
  }

  ghost predicate OvertakenAt(r: Run, i: nat) {
    i < |r.actions| && i < |r.states| && IsOvertaken(r.states[i], r.actions[i])
  }

  lemma RunStep(r: Run, i: nat)
    requires IsRun(r) && i < |r.actions| && IsAbreast(r.states[i])
    ensures ForwardAt(r, i) <==> !OvertakenAt(r, i)
    ensures ForwardAt(r, i) ==> IsAbreast(r.states[i + 1])
  {
    Reachable(r, i);
    ForwardStep(r.states[i], r.actions[i]);
  }

  lemma {:induction false} ForwardSoFar(r: Run, n: nat)
    requires IsRun(r) && n < |r.states|
    ensures (forall i: nat | i < n :: ForwardAt(r, i)) <==> (forall i: nat | i < n :: !OvertakenAt(r, i))
    ensures (forall i: nat | i < n :: ForwardAt(r, i)) ==> IsAbreast(r.states[n])
  {
    if n > 0 {
      ForwardSoFar(r, n - 1);
      if IsAbreast(r.states[n - 1]) { RunStep(r, n - 1); }
    }
  }

  /** Decisions and redemptions are final throughout a run exactly when no save in it is
      overtaken, that is, when no save meets a row decided or redeemed since its read. */
  lemma ForwardIffNeverOvertaken(r: Run)
    requires IsRun(r)
    ensures (forall i: nat | i < |r.actions| :: ForwardAt(r, i))
            <==> (forall i: nat | i < |r.actions| :: !OvertakenAt(r, i))
  {
    ForwardSoFar(r, |r.actions|);
  }

  // ---------------------------------------------------------------- redemption

  /** Step `i` redeems `d`. */
  ghost predicate Redeems(r: Run, i: nat, d: string) {
    && i < |r.actions| && i < |r.states| && r.actions[i].Complete? && r.actions[i].id in r.states[i].tasks
    && var task := r.states[i].tasks[r.actions[i].id];
       task.Redeeming? && task.deviceCode == d && Redemption(r.states[i].devices, d, task.at).Some?
  }

  /** Step `k` saves over `d` although overtaken. */
  ghost predicate OvertakenOn(r: Run, k: nat, d: string) {
    OvertakenAt(r, k) && r.states[k].tasks[r.actions[k].id].copy.deviceCode == d
  }

  ghost predicate IsRedeemedIn(s: State, d: string) {
    d in s.devices.byDeviceCode && s.devices.byDeviceCode[d].redeemedAt.Some?
  }

  lemma RedeemedStays(r: Run, k: nat, d: string)
    requires IsRun(r) && k < |r.actions| && IsRedeemedIn(r.states[k], d)
    ensures IsRedeemedIn(r.states[k + 1], d) || OvertakenOn(r, k, d)
  {
    Reachable(r, k);
    var s, a := r.states[k], r.actions[k];
    if a.Complete? && s.tasks[a.id].Storing? {
      assert TaskOk(s.devices, s.tasks[a.id]);
    }
  }

  lemma {:induction false} RedeemedUntilOvertaken(r: Run, i: nat, j: nat, d: string)
    requires IsRun(r) && i < j < |r.states| && Redeems(r, i, d)
    ensures IsRedeemedIn(r.states[j], d) || exists k: nat :: i < k < j && OvertakenOn(r, k, d)
    decreases j
  {
    if j == i + 1 {
      assert r.states[j].devices == Redeemed(r.states[i].devices, d, r.states[i].tasks[r.actions[i].id].at);
    } else {
      RedeemedUntilOvertaken(r, i, j - 1, d);
      if k: nat :| i < k < j - 1 && OvertakenOn(r, k, d) {
        assert i < k < j;
      } else {
        RedeemedStays(r, j - 1, d);
      }
    }
  }

  /** One device code is redeemed a second time only if, between the two redemptions, a save of
      that code's row was overtaken. */
  lemma RedeemedTwiceMeansOvertaken(r: Run, i: nat, j: nat, d: string)
    requires IsRun(r) && i < j && Redeems(r, i, d) && Redeems(r, j, d)
    ensures exists k: nat :: i < k < j && OvertakenOn(r, k, d)
  {
    RedeemedUntilOvertaken(r, i, j, d);
  }

  // ---------------------------------------------------------------- a save that is overtaken

  ghost function Last(r: Run): State
    requires r.states != []
  {
    r.states[|r.states| - 1]
  }

  ghost function Then(r: Run, a: Action): Run
    requires r.states != []
  {
    Run(r.states + [Do(Last(r), a)], r.actions + [a])
  }

  lemma ThenIsRun(r: Run, a: Action)
    requires IsRun(r) && Enabled(Last(r), a)
    ensures IsRun(Then(r, a)) && Last(Then(r, a)) == Do(Last(r), a)
    ensures r.states <= Then(r, a).states && r.actions <= Then(r, a).actions
  {}

  /** The store with the one device code "d", whose user code is "u". */
  function OneRow(row: DeviceCode): Store {
    Store(map["d" := row], map["u" := "d"])
  }

  /** A user types "u" and approves, with nothing in between. */
  lemma ApproveNow(r: Run, id: nat, user: string, row: DeviceCode) returns (r': Run)
    requires IsRun(r) && id !in Last(r).tasks && Last(r).devices == OneRow(row)
    requires row.deviceCode == "d" && row.userCode == "u"
    requires DevicePolling.IsUndecided(row) && Last(r).clock < row.expiresAt
    ensures IsRun(r') && r.states <= r'.states && r.actions <= r'.actions
    ensures Last(r').devices == OneRow(row.Approve(user)) && Last(r').clock == Last(r).clock
    ensures Last(r').tasks.Keys == Last(r).tasks.Keys + {id}
    ensures forall k | k in Last(r).tasks :: Last(r').tasks[k] == Last(r).tasks[k]
  {
    var read := ReadDecision(id, Decision("u", user, true));
    ThenIsRun(r, read);
    ThenIsRun(Then(r, read), Complete(id));
    r' := Then(Then(r, read), Complete(id));
  }

  /** The device polls "d" and is granted, with nothing in between. */
  lemma RedeemNow(r: Run, id: nat, client: Client, row: DeviceCode) returns (r': Run)
    requires IsRun(r) && id !in Last(r).tasks && Last(r).devices == OneRow(row)
    requires DeviceCodeGrant in client.allowedGrants && row.clientId == client.id && row.deviceCode == "d"
    requires IsRedeemable(row, Last(r).clock) && row.CanPollAt(Last(r).clock)
    ensures IsRun(r') && r.states <= r'.states && r.actions <= r'.actions
    ensures Last(r').devices == OneRow(row.Redeem(Last(r).clock)) && Last(r').clock == Last(r).clock
    ensures Last(r').tasks.Keys == Last(r).tasks.Keys + {id}
    ensures forall k | k in Last(r).tasks :: Last(r').tasks[k] == Last(r).tasks[k]
    ensures GrantedTo(r', |r.actions| + 1, "d", row.userSub)
  {
    var read := ReadPoll(id, PollRequest(client, Some("d")));
    ThenIsRun(r, read);
    ThenIsRun(Then(r, read), Complete(id));
    r' := Then(Then(r, read), Complete(id));
    assert r'.states[|r.actions| + 1] == Last(Then(r, read));
    assert r'.states[|r.actions| + 2] == Last(r');
  }

  /** Step `i` redeems `d` and answers with tokens for `user`. */
  ghost predicate GrantedTo(r: Run, i: nat, d: string, user: Option<string>) {
    && Redeems(r, i, d) && i + 1 < |r.states| && r.actions[i].id in r.states[i + 1].tasks
    && var task := r.states[i + 1].tasks[r.actions[i].id];
       task.Told? && task.answer.Approved? && task.answer.approval == Device(d) && user == Some(task.answer.userSub)
  }

  /** The row that step one of the counterexample creates. */
  function FreshRow(client: Client): DeviceCode {
    DeviceCode("d", "u", client.id, client.allowedScopes, 0, 10, 5, None, None, false, None)
  }

  /** A poll has read the pending row and is about to record itself; meanwhile alice approves. */
  lemma ReadBeforeApproval(client: Client) returns (r: Run)
    requires DeviceCodeGrant in client.allowedGrants && 0 < |client.id| <= 255
    ensures IsRun(r) && Last(r).clock == 0 && Last(r).devices == OneRow(FreshRow(client).Approve("alice"))
    ensures Last(r).tasks.Keys == {0, 1}
    ensures Last(r).tasks[0] == Storing(FreshRow(client), FreshRow(client).MarkPolled(0), Some(AuthorizationPending))
  {
    var create := Create(DeviceRequest(Some(client.id), None), "d", "u");
    var read := ReadPoll(0, PollRequest(client, Some("d")));
    var r0 := Run([State(0, map[client.id := client], 10, 5, EMPTY, map[])], []);
    ThenIsRun(r0, create);
    var r1 := Then(r0, create);
    assert Last(r1).devices == OneRow(FreshRow(client));
    ThenIsRun(r1, read);
    r := ApproveNow(Then(r1, read), 1, "alice", FreshRow(client));
  }

  lemma GrantStays(r: Run, longer: Run, i: nat, d: string, user: Option<string>)
    requires r.states <= longer.states && r.actions <= longer.actions && GrantedTo(r, i, d, user)
    ensures GrantedTo(longer, i, d, user)
  {
    assert longer.states[i] == r.states[i] && longer.states[i + 1] == r.states[i + 1];
    assert longer.actions[i] == r.actions[i];
  }

  /** The first poll's save puts the row it read before the approval over the redeemed one. */
  lemma GrantedThenOverwritten(client: Client) returns (r: Run, i: nat)
    requires DeviceCodeGrant in client.allowedGrants && 0 < |client.id| <= 255
    ensures IsRun(r) && i < |r.actions| && GrantedTo(r, i, "d", Some("alice"))
    ensures Last(r).clock == 0 && Last(r).devices == OneRow(FreshRow(client).MarkPolled(0))
    ensures Last(r).tasks.Keys == {0, 1, 2}
  {
    var r1 := ReadBeforeApproval(client);
    var r2 := RedeemNow(r1, 2, client, FreshRow(client).Approve("alice"));
    ThenIsRun(r2, Complete(0));
    r, i := Then(r2, Complete(0)), |r1.actions| + 1;
    GrantStays(r2, r, i, "d", Some("alice"));
  }

  /** So "benign" is false of a poll racing a decision: a poll reads the pending row, alice
      approves, the device is granted, the first poll's save lands and makes the row pending
      again, bob approves, and the device is granted again, for another user. */
  lemma OvertakenSaveGrantsTwice(client: Client)
    requires DeviceCodeGrant in client.allowedGrants && 0 < |client.id| <= 255
    ensures exists r, i: nat, j: nat :: IsRun(r) && i < j
              && GrantedTo(r, i, "d", Some("alice")) && GrantedTo(r, j, "d", Some("bob"))
  {
    var pending := FreshRow(client).MarkPolled(0);
    var r1, i := GrantedThenOverwritten(client);
    var r2 := ApproveNow(r1, 3, "bob", pending);
    ThenIsRun(r2, Tick(5));
    var r3 := Then(r2, Tick(5));
    var r4 := RedeemNow(r3, 4, client, pending.Approve("bob"));
    GrantStays(r1, r4, i, "d", Some("alice"));
    assert GrantedTo(r4, |r3.actions| + 1, "d", Some("bob"));
  }
}
