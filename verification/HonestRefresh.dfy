/** A client that refreshes properly always succeeds, with any number of other requests in
    flight. Everything is said about requests: which of them get past the lookup with a token of
    the family, when, and which value they present. That the token they present is still live
    when they come to spend it is proved, not assumed. */
module HonestRefresh {
  import opened Model
  import opened Outcomes
  import opened RefreshGrant
  import opened RefreshRotation
  import opened RefreshRuns
  import opened RefreshTokens

  // ---------------------------------------------------------------- proper use of a family

  /** The request has read a token of family `f` and has not answered yet. */
  ghost predicate WorksOn(p: Progress, f: string) {
    match p
    case Found(_, seen) => seen.familyId == f
    case Revoking(_, seen, _) => seen.familyId == f
    case Rotating(_, seen, _) => seen.familyId == f
    case Issuing(t) => t.familyId == f
    case _ => false
  }

  ghost predicate IsIdle(s: State, f: string) {
    forall id | id in s.requests :: !WorksOn(s.requests[id], f)
  }

  /** The refresh token of family `f` last handed to its client in the first `n` steps: the root
      when the family was started, then whatever each response carried. */
  ghost function LastHanded(r: Run, f: string, n: nat): string
    requires n <= |r.actions| && n <= |r.states|
  {
    if n == 0 then ""
    else
      match r.actions[n - 1]
      case StartFamily(root) => if root.familyId == f then root.value else LastHanded(r, f, n - 1)
      case Respond(id) =>
        if id in r.states[n - 1].requests && r.states[n - 1].requests[id].Issuing?
           && r.states[n - 1].requests[id].issue.familyId == f
        then r.states[n - 1].requests[id].issue.value
        else LastHanded(r, f, n - 1)
      case _ => LastHanded(r, f, n - 1)
  }

  /** Step `i` is the lookup of request `id` finding a token of family `f`. */
  ghost predicate Finds(r: Run, i: nat, id: nat, f: string) {
    Reads(r, i, id) && WorksOn(r.states[i + 1].requests[id], f)
  }

  /** What an honest client does and others do not do to family `f` at step `i`: a request that
      finds a token of `f` comes while no other is at work on `f`, presents the value last handed
      out and asks for no scope, and it is judged before that token expires. */
  ghost predicate IsProper(r: Run, i: nat, f: string)
    requires i < |r.actions| && |r.states| == |r.actions| + 1
  {
    && (forall id | Finds(r, i, id, f) ::
          && IsIdle(r.states[i], f)
          && r.states[i].requests[id].attempt.presented == LastHanded(r, f, i)
          && r.states[i].requests[id].attempt.scope == {})
    && (r.actions[i].Judge? && r.actions[i].id in r.states[i].requests ==>
          var p := r.states[i].requests[r.actions[i].id];
          p.Found? && WorksOn(p, f) ==> r.states[i].clock < p.seen.expiresAt)
  }

  /** From step `m` on, family `f` is only used properly. */
  ghost predicate IsProperFrom(r: Run, m: nat, f: string)
    requires |r.states| == |r.actions| + 1
  {
    forall i: nat | m <= i < |r.actions| :: IsProper(r, i, f)
  }

  /** Step `m` starts the family of `root`. */
  ghost predicate Starts(r: Run, m: nat, root: RefreshToken) {
    m < |r.actions| && r.actions[m] == StartFamily(root)
  }

  // ---------------------------------------------------------------- the family's live token

  /** `v` is a live token of the root's family, client, user and scope. */
  ghost predicate IsHeld(store: Store, root: RefreshToken, v: string) {
    && v in store && store[v].consumedAt.None? && store[v].familyId == root.familyId
    && store[v].clientId == root.clientId && store[v].userSub == root.userSub && store[v].scope == root.scope
  }

  /** A request at work on the family can only go forward: what it read is live as it was. */
  ghost predicate WorkerOk(store: Store, root: RefreshToken, last: string, p: Progress) {
    match p
    case Found(attempt, seen) =>
      seen.value == last && IsHeld(store, root, last) && store[last] == seen && attempt.scope == {}
    case Revoking(_, _, _) => false
    case Rotating(_, seen, replacement) =>
      && seen.value == last && IsHeld(store, root, last) && store[last] == seen
      && replacement.scope == root.scope && replacement.issuedAt < seen.expiresAt
    case Issuing(t) => IsHeld(store, root, t.value) && store[t.value] == t
    case _ => true
  }

  /** At most one request is at work on the family, and it can only go forward; while none is,
      the value last handed out is live. */
  ghost predicate IsInHand(s: State, root: RefreshToken, last: string) {
    && (forall i, j | i in s.requests && j in s.requests
                      && WorksOn(s.requests[i], root.familyId) && WorksOn(s.requests[j], root.familyId) :: i == j)
    && (forall id | id in s.requests && WorksOn(s.requests[id], root.familyId) ::
          WorkerOk(s.store, root, last, s.requests[id]))
    && (IsIdle(s, root.familyId) ==> IsHeld(s.store, root, last))
  }

  /** Only a write of a request at work on a family changes that family. */
  lemma OthersLeaveTheFamily(s: State, a: Action, f: string)
    requires Inv(s) && Enabled(s, a)
    requires a.Write? ==> !WorksOn(s.requests[a.id], f)
    ensures forall v | v in s.store && s.store[v].familyId == f ::
              v in Do(s, a).store && Do(s, a).store[v] == s.store[v]
  {
    StepEvolves(s, a);
    if a.Write? { assert ProgressOk(s, s.requests[a.id]); }
  }

  /** A step that works on the family: what becomes of the worker, and of what it holds. */
  lemma WorkerStep(s: State, a: Action, id: nat, root: RefreshToken, last: string)
    requires Inv(s) && Enabled(s, a) && Runs(a, id) && id in s.requests
    requires WorksOn(s.requests[id], root.familyId) && WorkerOk(s.store, root, last, s.requests[id])
    requires a.Judge? && s.requests[id].Found? ==> s.clock < s.requests[id].seen.expiresAt
    ensures var p, p', store' := s.requests[id], Do(s, a).requests[id], Do(s, a).store;
            if a.Respond? && p.Issuing? then IsHeld(store', root, p.issue.value) && p' == Issue(p)
            else WorksOn(p', root.familyId) && WorkerOk(store', root, last, p')
  {
    assert ProgressOk(s, s.requests[id]);
  }

  /** A worker that the step does not run is left as it was, and so is what it holds. */
  lemma BystanderStep(s: State, a: Action, id: nat, root: RefreshToken, last: string)
    requires Inv(s) && Enabled(s, a) && !Runs(a, id) && id in s.requests
    requires WorksOn(s.requests[id], root.familyId) && WorkerOk(s.store, root, last, s.requests[id])
    requires a.Write? ==> !WorksOn(s.requests[a.id], root.familyId)
    ensures id in Do(s, a).requests && Do(s, a).requests[id] == s.requests[id]
    ensures WorkerOk(Do(s, a).store, root, last, s.requests[id])
  {
    OthersLeaveTheFamily(s, a, root.familyId);
  }

  /** A request comes to work on a family only by finding a token of it. */
  lemma NewWorkerFinds(r: Run, n: nat, id: nat, f: string)
    requires IsRun(r) && n < |r.actions| && id in r.states[n + 1].requests
    requires WorksOn(r.states[n + 1].requests[id], f)
    requires id in r.states[n].requests ==> !WorksOn(r.states[n].requests[id], f)
    ensures Finds(r, n, id, f)
  {
    Reachable(r, n);
    var s := r.states[n];
    if id in s.requests { assert ProgressOk(s, s.requests[id]); }
  }

  /** The family is somebody's before a step, so no step starts it again. */
  lemma InHandIsKnown(s: State, root: RefreshToken, last: string)
    requires IsInHand(s, root, last)
    ensures root.familyId in Families(s.store)
  {
    if IsIdle(s, root.familyId) {
      assert s.store[last].familyId == root.familyId;
    } else {
      var id :| id in s.requests && WorksOn(s.requests[id], root.familyId);
      assert WorkerOk(s.store, root, last, s.requests[id]);
      var v := if s.requests[id].Issuing? then s.requests[id].issue.value else last;
      assert s.store[v].familyId == root.familyId;
    }
  }

  lemma LastHandedStep(r: Run, n: nat, f: string)
    requires IsRun(r) && n < |r.actions| && f in Families(r.states[n].store)
    ensures var s, a := r.states[n], r.actions[n];
            LastHanded(r, f, n + 1)
            == if a.Respond? && s.requests[a.id].Issuing? && WorksOn(s.requests[a.id], f)
               then s.requests[a.id].issue.value else LastHanded(r, f, n)
  {}

  /** One proper step keeps the family in hand. */
  lemma InHandStep(r: Run, n: nat, root: RefreshToken)
    requires IsRun(r) && n < |r.actions| && IsProper(r, n, root.familyId)
    requires IsInHand(r.states[n], root, LastHanded(r, root.familyId, n))
    ensures IsInHand(r.states[n + 1], root, LastHanded(r, root.familyId, n + 1))
  {
    Reachable(r, n);
    var s, a, s', f := r.states[n], r.actions[n], r.states[n + 1], root.familyId;
    var last := LastHanded(r, f, n);
    InHandIsKnown(s, root, last);
    LastHandedStep(r, n, f);
    if id :| id in s.requests && WorksOn(s.requests[id], f) {
      BusyStep(r, n, id, root);
    } else {
      IdleStep(r, n, root);
    }
  }

  lemma BusyStep(r: Run, n: nat, id: nat, root: RefreshToken)
    requires IsRun(r) && n < |r.actions| && IsProper(r, n, root.familyId)
    requires IsInHand(r.states[n], root, LastHanded(r, root.familyId, n))
    requires id in r.states[n].requests && WorksOn(r.states[n].requests[id], root.familyId)
    ensures IsInHand(r.states[n + 1], root, LastHanded(r, root.familyId, n + 1))
  {
    Reachable(r, n);
    var s, a, s', f := r.states[n], r.actions[n], r.states[n + 1], root.familyId;
    var last := LastHanded(r, f, n);
    InHandIsKnown(s, root, last);
    LastHandedStep(r, n, f);
    if Runs(a, id) {
      WorkerStep(s, a, id, root, last);
    } else {
      BystanderStep(s, a, id, root, last);
    }
    forall j | j in s'.requests && WorksOn(s'.requests[j], f) ensures j == id {
      if j in s.requests && WorksOn(s.requests[j], f) {
      } else {
        NewWorkerFinds(r, n, j, f);
      }
    }
  }

  lemma IdleStep(r: Run, n: nat, root: RefreshToken)
    requires IsRun(r) && n < |r.actions| && IsProper(r, n, root.familyId)
    requires IsInHand(r.states[n], root, LastHanded(r, root.familyId, n)) && IsIdle(r.states[n], root.familyId)
    ensures IsInHand(r.states[n + 1], root, LastHanded(r, root.familyId, n + 1))
  {
    Reachable(r, n);
    var s, a, s', f := r.states[n], r.actions[n], r.states[n + 1], root.familyId;
    InHandIsKnown(s, root, LastHanded(r, f, n));
    LastHandedStep(r, n, f);
    OthersLeaveTheFamily(s, a, f);
    forall j | j in s'.requests && WorksOn(s'.requests[j], f)
      ensures Runs(a, j) && WorkerOk(s'.store, root, LastHanded(r, f, n), s'.requests[j])
    {
      NewWorkerFinds(r, n, j, f);
    }
  }

  lemma StartsInHand(r: Run, m: nat, root: RefreshToken)
    requires IsRun(r) && Starts(r, m, root)
    ensures IsInHand(r.states[m + 1], root, LastHanded(r, root.familyId, m + 1))
  {
    Reachable(r, m);
    var s := r.states[m];
    assert forall v | v in s.store :: s.store[v].familyId in Families(s.store);
    forall id | id in s.requests ensures !WorksOn(s.requests[id], root.familyId) {
      assert ProgressOk(s, s.requests[id]);
    }
  }

  lemma NextInHand(r: Run, m: nat, root: RefreshToken, n: nat)
    requires IsRun(r) && IsProperFrom(r, m + 1, root.familyId) && m < n < |r.actions|
    requires IsInHand(r.states[n], root, LastHanded(r, root.familyId, n))
    ensures IsInHand(r.states[n + 1], root, LastHanded(r, root.familyId, n + 1))
  {
    assert IsProper(r, n, root.familyId);
    InHandStep(r, n, root);
  }

  /** While a family is used properly its live token is the one last handed out, or the one read
      by the single request at work on it. */
  lemma {:induction false} AlwaysInHand(r: Run, m: nat, root: RefreshToken, n: nat)
    requires IsRun(r) && Starts(r, m, root) && IsProperFrom(r, m + 1, root.familyId) && m < n < |r.states|
    ensures IsInHand(r.states[n], root, LastHanded(r, root.familyId, n))
    decreases n
  {
    if n == m + 1 {
      StartsInHand(r, m, root);
    } else {
      AlwaysInHand(r, m, root, n - 1);
      NextInHand(r, m, root, n - 1);
    }
  }

  // ---------------------------------------------------------------- no proper request fails

  /** The successful response: the root's user, client and scope, and a new refresh token. */
  ghost predicate IsReissue(p: Progress, root: RefreshToken) {
    && p.Finished? && p.outcome.Ok? && p.outcome.value.refreshToken.Some?
    && p.outcome.value == Issued(root.userSub, root.clientId, root.scope, p.outcome.value.refreshToken)
  }

  /** How far a request has come: judged, written, answered. */
  function Stage(p: Progress): nat {
    match p
    case Rotating(_, _, _) => 1
    case Issuing(_) => 2
    case Finished(_) => 3
    case _ => 0
  }

  /** The stages a step of the request's own takes it past. */
  function StageAfter(a: Action, stage: nat): nat {
    match a
    case Judge(_, _) => if stage == 0 then 1 else stage
    case Write(_) => if stage == 1 then 2 else stage
    case Respond(_) => if stage == 2 then 3 else stage
    case _ => stage
  }

  /** The request is at work on the family, not to revoke it, or has been answered with tokens. */
  ghost predicate IsOnItsWay(p: Progress, root: RefreshToken) {
    (WorksOn(p, root.familyId) && !p.Revoking?) || IsReissue(p, root)
  }

  lemma OnItsWayStep(s: State, a: Action, id: nat, root: RefreshToken, last: string)
    requires Inv(s) && Enabled(s, a) && id in s.requests
    requires WorksOn(s.requests[id], root.familyId) ==> WorkerOk(s.store, root, last, s.requests[id])
    requires IsOnItsWay(s.requests[id], root)
    requires a.Judge? && a.id == id && s.requests[id].Found? ==> s.clock < s.requests[id].seen.expiresAt
    ensures id in Do(s, a).requests
    ensures var p, p' := s.requests[id], Do(s, a).requests[id];
            && IsOnItsWay(p', root)
            && Stage(p') == (if Runs(a, id) then StageAfter(a, Stage(p)) else Stage(p))
            && (p'.Finished? && !p.Finished? ==> p.Issuing? && p'.outcome.value.refreshToken == Some(p.issue.value))
  {
    if WorksOn(s.requests[id], root.familyId) && Runs(a, id) { WorkerStep(s, a, id, root, last); }
  }

  lemma OnItsWayRunStep(r: Run, m: nat, root: RefreshToken, n: nat, id: nat)
    requires IsRun(r) && Starts(r, m, root) && IsProperFrom(r, m + 1, root.familyId) && m < n < |r.actions|
    requires id in r.states[n].requests && IsOnItsWay(r.states[n].requests[id], root)
    ensures id in r.states[n + 1].requests
    ensures var p, p' := r.states[n].requests[id], r.states[n + 1].requests[id];
            && IsOnItsWay(p', root)
            && Stage(p') == (if Runs(r.actions[n], id) then StageAfter(r.actions[n], Stage(p)) else Stage(p))
            && (p'.Finished? && !p.Finished? ==>
                  && p.Issuing? && WorksOn(p, root.familyId)
                  && p'.outcome.value.refreshToken == Some(p.issue.value))
  {
    AlwaysInHand(r, m, root, n);
    Reachable(r, n);
    assert IsProper(r, n, root.familyId);
    OnItsWayStep(r.states[n], r.actions[n], id, root, LastHanded(r, root.familyId, n));
  }

  /** No proper request is ever refused: from its lookup on it is at work on the family, and when
      it has been answered the answer is tokens for the root's user, client and scope. */
  lemma {:induction false} NeverRefused(r: Run, m: nat, root: RefreshToken, i: nat, id: nat, j: nat)
    requires IsRun(r) && Starts(r, m, root) && IsProperFrom(r, m + 1, root.familyId)
    requires m < i < j < |r.states| && Finds(r, i, id, root.familyId)
    ensures id in r.states[j].requests && IsOnItsWay(r.states[j].requests[id], root)
    decreases j
  {
    if j > i + 1 {
      NeverRefused(r, m, root, i, id, j - 1);
      OnItsWayRunStep(r, m, root, j - 1, id);
    }
  }

  lemma {:induction false} StagesOnlyGrow(r: Run, m: nat, root: RefreshToken, i: nat, id: nat, j: nat, n: nat)
    requires IsRun(r) && Starts(r, m, root) && IsProperFrom(r, m + 1, root.familyId)
    requires m < i < j <= n < |r.states| && Finds(r, i, id, root.familyId)
    requires id in r.states[j].requests
    ensures id in r.states[n].requests && Stage(r.states[j].requests[id]) <= Stage(r.states[n].requests[id])
    decreases n
  {
    if j < n {
      StagesOnlyGrow(r, m, root, i, id, j, n - 1);
      NeverRefused(r, m, root, i, id, n - 1);
      OnItsWayRunStep(r, m, root, n - 1, id);
    }
  }

  /** A request of the client that presents the value last handed out, while no other is at work
      on the family, finds it. */
  lemma LastHandedIsFound(r: Run, m: nat, root: RefreshToken, i: nat, id: nat)
    requires IsRun(r) && Starts(r, m, root) && IsProperFrom(r, m + 1, root.familyId) && m < i < |r.actions|
    requires r.actions[i] == Lookup(id) && id in r.states[i].requests && r.states[i].requests[id].Looking?
    requires IsIdle(r.states[i], root.familyId)
    requires var attempt := r.states[i].requests[id].attempt;
             attempt.presented == LastHanded(r, root.familyId, i) && attempt.client.id == root.clientId
    ensures Finds(r, i, id, root.familyId)
  {
    AlwaysInHand(r, m, root, i);
    Reachable(r, i);
  }

  /** Its own three further steps, whenever they come, complete it: after them it has been
      answered with tokens for the root's user, client and scope. */
  lemma ProperRequestCompletes(r: Run, m: nat, root: RefreshToken, i: nat, id: nat, a: nat, b: nat, c: nat, j: nat)
    requires IsRun(r) && Starts(r, m, root) && IsProperFrom(r, m + 1, root.familyId)
    requires m < i < a < b < c < j < |r.states| && Finds(r, i, id, root.familyId)
    requires r.actions[a].Judge? && r.actions[a].id == id && r.actions[b] == Write(id) && r.actions[c] == Respond(id)
    ensures id in r.states[j].requests && IsReissue(r.states[j].requests[id], root)
  {
    OwnStep(r, m, root, i, id, a);
    StagesOnlyGrow(r, m, root, i, id, a + 1, b);
    OwnStep(r, m, root, i, id, b);
    StagesOnlyGrow(r, m, root, i, id, b + 1, c);
    OwnStep(r, m, root, i, id, c);
    StagesOnlyGrow(r, m, root, i, id, c + 1, j);
    NeverRefused(r, m, root, i, id, j);
  }

  lemma OwnStep(r: Run, m: nat, root: RefreshToken, i: nat, id: nat, n: nat)
    requires IsRun(r) && Starts(r, m, root) && IsProperFrom(r, m + 1, root.familyId)
    requires m < i < n < |r.actions| && Finds(r, i, id, root.familyId) && Runs(r.actions[n], id)
    ensures id in r.states[n].requests && id in r.states[n + 1].requests
    ensures Stage(r.states[n + 1].requests[id]) == StageAfter(r.actions[n], Stage(r.states[n].requests[id]))
  {
    NeverRefused(r, m, root, i, id, n);
    OnItsWayRunStep(r, m, root, n, id);
  }

  /** And the token it is answered with is the one the next request is to present. */
  lemma AnswerIsHandedOn(r: Run, m: nat, root: RefreshToken, i: nat, id: nat, n: nat)
    requires IsRun(r) && Starts(r, m, root) && IsProperFrom(r, m + 1, root.familyId)
    requires m < i < n < |r.actions| && Finds(r, i, id, root.familyId)
    requires id in r.states[n].requests && !r.states[n].requests[id].Finished?
    requires id in r.states[n + 1].requests && r.states[n + 1].requests[id].Finished?
    ensures IsReissue(r.states[n + 1].requests[id], root)
    ensures r.states[n + 1].requests[id].outcome.value.refreshToken == Some(LastHanded(r, root.familyId, n + 1))
    ensures IsHeld(r.states[n + 1].store, root, LastHanded(r, root.familyId, n + 1))
  {
    NeverRefused(r, m, root, i, id, n);
    OnItsWayRunStep(r, m, root, n, id);
    AlwaysInHand(r, m, root, n);
    AlwaysInHand(r, m, root, n + 1);
    var s, s' := r.states[n], r.states[n + 1];
    assert r.actions[n] == Respond(id);
    forall k | k in s'.requests ensures !WorksOn(s'.requests[k], root.familyId) {
      if k != id { assert s'.requests[k] == s.requests[k]; }
    }
  }
}
