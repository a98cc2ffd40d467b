/** Any number of refresh requests in flight at once, interleaved at the repository
    operations, over a shared store and a clock that never goes back. */
module RefreshRotation {
  import opened Model
  import opened Outcomes
  import opened RefreshGrant
  import opened RefreshTokens

  /** `used` is every string the random source has handed out or must not hand out. */
  datatype State = State(
    clock: int,
    ttl: int,
    store: Store,
    requests: map<nat, Progress>,
    used: set<string>)

  datatype Action =
    | Tick(now: int)
    | Reserve(values: set<string>)
    | StartFamily(root: RefreshToken)
    | Arrive(id: nat, request: Request)
    | Lookup(id: nat)
    | Judge(id: nat, freshValue: string)
    | Write(id: nat)
    | Respond(id: nat)

  // ---------------------------------------------------------------- transitions

  /** The replacement a request has minted but not yet written. */
  ghost predicate IsPending(s: State, v: string) {
    exists id :: id in s.requests && s.requests[id].Rotating? && s.requests[id].replacement.value == v
  }

  ghost predicate Enabled(s: State, a: Action) {
    match a
    case Tick(now) => s.clock <= now
    case Reserve(_) => true
    case StartFamily(root) =>
      && root.value in s.used && root.value !in s.store && !IsPending(s, root.value)
      && root.familyId !in Families(s.store)
      && root.issuedAt <= s.clock && root.expiresAt == root.issuedAt + s.ttl && root.consumedAt.None?
    case Arrive(id, _) => id !in s.requests
    case Judge(id, freshValue) => id in s.requests && freshValue !in s.used
    case Lookup(id) => id in s.requests
    case Write(id) => id in s.requests
    case Respond(id) => id in s.requests
  }

  ghost function Do(s: State, a: Action): State {
    match a
    case Tick(now) => s.(clock := now)
    case Reserve(values) => s.(used := s.used + values)
    case StartFamily(root) => s.(store := s.store[root.value := root])
    case Arrive(id, request) => s.(requests := s.requests[id := Start(request)])
    case Lookup(id) =>
      if id !in s.requests then s else s.(requests := s.requests[id := Look(s.requests[id], s.store)])
    case Judge(id, freshValue) =>
      if id !in s.requests then s
      else s.(requests := s.requests[id := Decide(s.requests[id], s.clock, freshValue, s.ttl)],
              used := s.used + {freshValue})
    case Write(id) =>
      if id !in s.requests then s
      else
        var (p, store) := Commit(s.requests[id], s.store);
        s.(requests := s.requests[id := p], store := store)
    case Respond(id) =>
      if id !in s.requests then s else s.(requests := s.requests[id := Issue(s.requests[id])])
  }

  // ---------------------------------------------------------------- the invariant

  /** `q` replaced `p`. */
  ghost predicate Link(p: RefreshToken, q: RefreshToken) {
    && q.clientId == p.clientId && q.userSub == p.userSub && q.scope <= p.scope
    && p.consumedAt == Some(q.issuedAt)
    && p.issuedAt <= q.issuedAt < p.expiresAt
  }

  /** `chain` lists a family from its root, each token the replacement of the one before. */
  ghost predicate IsLineage(store: Store, family: string, chain: seq<string>) {
    && chain != []
    && (forall i :: 0 <= i < |chain| ==> chain[i] in store && store[chain[i]].familyId == family)
    && (forall i, j :: 0 <= i < j < |chain| ==> chain[i] != chain[j])
    && (forall v | v in store && store[v].familyId == family :: v in chain)
    && (forall i :: 0 < i < |chain| ==> Link(store[chain[i - 1]], store[chain[i]]))
  }

  /** The stored token a copy was read from: the same but for a later consumption. */
  ghost predicate IsCopyOf(seen: RefreshToken, store: Store) {
    && seen.value in store
    && var stored := store[seen.value];
       stored == seen || (seen.consumedAt.None? && stored == seen.(consumedAt := stored.consumedAt))
  }

  ghost predicate ProgressOk(s: State, p: Progress) {
    match p
    case Found(attempt, seen) => IsCopyOf(seen, s.store) && seen.clientId == attempt.client.id
    case Revoking(attempt, seen, at) => IsCopyOf(seen, s.store) && at <= s.clock
    case Rotating(attempt, seen, r) =>
      && IsCopyOf(seen, s.store) && seen.consumedAt.None?
      && r.value in s.used && r.value !in s.store
      && r.familyId == seen.familyId && r.clientId == seen.clientId && r.userSub == seen.userSub
      && r.scope <= seen.scope && r.consumedAt.None?
      && seen.issuedAt <= r.issuedAt <= s.clock && r.expiresAt == r.issuedAt + s.ttl
    case Issuing(t) => t.value in s.store && Same(s.store[t.value], t)
    case _ => true
  }

  /** Equal in everything a token never changes. */
  ghost predicate Same(a: RefreshToken, b: RefreshToken) {
    a.(consumedAt := None) == b.(consumedAt := None)
  }

  ghost predicate TokensOk(s: State) {
    && Keyed(s.store) && s.store.Keys <= s.used
    && forall v | v in s.store :: s.store[v].issuedAt <= s.clock && s.store[v].expiresAt == s.store[v].issuedAt + s.ttl
  }

  ghost predicate PendingDistinct(s: State) {
    forall i, j | i in s.requests && j in s.requests && i != j && s.requests[i].Rotating? && s.requests[j].Rotating? ::
      s.requests[i].replacement.value != s.requests[j].replacement.value
  }

  ghost predicate RequestsOk(s: State) {
    forall id | id in s.requests :: ProgressOk(s, s.requests[id])
  }

  ghost predicate LineagesOk(s: State) {
    forall f | f in Families(s.store) :: exists chain :: IsLineage(s.store, f, chain)
  }

  ghost predicate Inv(s: State) {
    TokensOk(s) && RequestsOk(s) && PendingDistinct(s) && LineagesOk(s)
  }

  ghost predicate Init(s: State) {
    s.store == map[] && s.requests == map[]
  }

  lemma InitInv(s: State)
    requires Init(s)
    ensures Inv(s)
  {}

  // ---------------------------------------------------------------- lineages are kept

  lemma LiveIsLast(store: Store, family: string, chain: seq<string>, v: string)
    requires IsLineage(store, family, chain)
    requires v in Live(store, family)
    ensures v == chain[|chain| - 1]
  {
    forall k | 0 <= k < |chain| - 1 ensures store[chain[k]].consumedAt.Some? {
      var q := k + 1;
      assert Link(store[chain[q - 1]], store[chain[q]]);
    }
    assert v in chain;
  }

  lemma RotationExtends(store: Store, chain: seq<string>, oldValue: string, r: RefreshToken)
    requires oldValue in store && IsLineage(store, r.familyId, chain)
    requires RotationFault(store, oldValue, r.issuedAt).None?
    requires r.value !in store && r.familyId == store[oldValue].familyId
    requires Link(store[oldValue].(consumedAt := Some(r.issuedAt)), r)
    ensures IsLineage(Rotated(store, oldValue, r, r.issuedAt), r.familyId, chain + [r.value])
  {
    LiveIsLast(store, r.familyId, chain, oldValue);
    var after := Rotated(store, oldValue, r, r.issuedAt);
    var longer := chain + [r.value];
    forall i | 0 < i < |longer| ensures Link(after[longer[i - 1]], after[longer[i]]) {
      if i < |chain| {
        assert Link(store[chain[i - 1]], store[chain[i]]);
        assert chain[i - 1] != oldValue;
      }
    }
    forall v | v in after && after[v].familyId == r.familyId ensures v in longer {
      if v != r.value { assert v in store; }
    }
  }

  lemma OtherLineage(store: Store, after: Store, family: string, chain: seq<string>)
    requires IsLineage(store, family, chain)
    requires forall v | v in store && store[v].familyId == family :: v in after && after[v] == store[v]
    requires forall v | v in after && after[v].familyId == family :: v in store && after[v] == store[v]
    ensures IsLineage(after, family, chain)
  {
    forall i | 0 < i < |chain| ensures Link(after[chain[i - 1]], after[chain[i]]) {
      assert Link(store[chain[i - 1]], store[chain[i]]);
    }
  }

  lemma RevocationKeeps(store: Store, family: string, chain: seq<string>, revoked: string, now: int)
    requires IsLineage(store, family, chain)
    ensures IsLineage(Revoked(store, revoked, now), family, chain)
  {
    var after := Revoked(store, revoked, now);
    forall i | 0 < i < |chain| ensures Link(after[chain[i - 1]], after[chain[i]]) {
      assert Link(store[chain[i - 1]], store[chain[i]]);
      assert store[chain[i - 1]].consumedAt.Some?;
    }
  }

  lemma StartKeepsLineages(s: State, root: RefreshToken)
    requires Inv(s) && Enabled(s, StartFamily(root))
    ensures LineagesOk(Do(s, StartFamily(root)))
  {
    var after := s.store[root.value := root];
    forall f | f in Families(after) ensures exists chain :: IsLineage(after, f, chain) {
      if f == root.familyId {
        assert IsLineage(after, f, [root.value]);
      } else {
        var v :| v in after && after[v].familyId == f;
        assert f in Families(s.store) by { assert s.store[v].familyId == f; }
        var chain :| IsLineage(s.store, f, chain);
        OtherLineage(s.store, after, f, chain);
      }
    }
  }

  lemma RotateKeepsLineages(s: State, id: nat)
    requires Inv(s) && id in s.requests && s.requests[id].Rotating?
    ensures LineagesOk(Do(s, Write(id)))
  {
    var Rotating(attempt, seen, r) := s.requests[id];
    assert ProgressOk(s, s.requests[id]);
    var after := Do(s, Write(id)).store;
    forall f | f in Families(after) ensures exists chain :: IsLineage(after, f, chain) {
      var v :| v in after && after[v].familyId == f;
      assert f in Families(s.store) by {
        if v in s.store { assert s.store[v].familyId == f; } else { assert s.store[seen.value].familyId == f; }
      }
      var chain :| IsLineage(s.store, f, chain);
      if after == s.store {
      } else if f == r.familyId {
        RotationExtends(s.store, chain, seen.value, r);
      } else {
        OtherLineage(s.store, after, f, chain);
      }
    }
  }

  lemma RevokeKeepsLineages(s: State, id: nat)
    requires Inv(s) && id in s.requests && s.requests[id].Revoking?
    ensures LineagesOk(Do(s, Write(id)))
  {
    var Revoking(attempt, seen, at) := s.requests[id];
    var after := Do(s, Write(id)).store;
    forall f | f in Families(after) ensures exists chain :: IsLineage(after, f, chain) {
      var v :| v in after && after[v].familyId == f;
      assert f in Families(s.store) by { assert s.store[v].familyId == f; }
      var chain :| IsLineage(s.store, f, chain);
      RevocationKeeps(s.store, f, chain, seen.familyId, at);
    }
  }

  // ---------------------------------------------------------------- requests are kept

  /** What any step may do to the tokens already stored. */
  ghost predicate Evolves(before: Store, after: Store) {
    forall v | v in before ::
      && v in after && Same(after[v], before[v])
      && (before[v].consumedAt.Some? ==> after[v] == before[v])
  }

  lemma StepEvolves(s: State, a: Action)
    requires Inv(s) && Enabled(s, a)
    ensures Evolves(s.store, Do(s, a).store)
  {
    if a.Write? { assert ProgressOk(s, s.requests[a.id]); }
  }

  /** A request the step does not run keeps its facts, unless its pending value was written. */
  lemma BystanderOk(s: State, s': State, p: Progress)
    requires ProgressOk(s, p)
    requires Evolves(s.store, s'.store) && s.clock <= s'.clock && s'.ttl == s.ttl && s.used <= s'.used
    requires p.Rotating? ==> p.replacement.value !in s'.store
    ensures ProgressOk(s', p)
  {}

  /** The request the step runs, in its new state. */
  ghost predicate Runs(a: Action, id: nat) {
    match a
    case Arrive(i, _) => i == id
    case Lookup(i) => i == id
    case Judge(i, _) => i == id
    case Write(i) => i == id
    case Respond(i) => i == id
    case _ => false
  }

  lemma RunnerOk(s: State, a: Action, id: nat)
    requires Inv(s) && Enabled(s, a) && Runs(a, id)
    ensures id in Do(s, a).requests && ProgressOk(Do(s, a), Do(s, a).requests[id])
  {
    if id in s.requests { assert ProgressOk(s, s.requests[id]); }
  }

  lemma PendingStaysUnwritten(s: State, a: Action, id: nat)
    requires Inv(s) && Enabled(s, a) && id in s.requests && s.requests[id].Rotating? && !Runs(a, id)
    ensures s.requests[id].replacement.value !in Do(s, a).store
  {
    assert ProgressOk(s, s.requests[id]);
    if a.Write? { assert ProgressOk(s, s.requests[a.id]); }
  }

  lemma StepKeepsRequests(s: State, a: Action)
    requires Inv(s) && Enabled(s, a)
    ensures RequestsOk(Do(s, a))
  {
    var s' := Do(s, a);
    StepEvolves(s, a);
    forall id | id in s'.requests ensures ProgressOk(s', s'.requests[id]) {
      if Runs(a, id) {
        RunnerOk(s, a, id);
      } else {
        assert ProgressOk(s, s.requests[id]);
        if s.requests[id].Rotating? { PendingStaysUnwritten(s, a, id); }
        BystanderOk(s, s', s.requests[id]);
      }
    }
  }

  lemma StepKeepsPending(s: State, a: Action)
    requires Inv(s) && Enabled(s, a)
    ensures PendingDistinct(Do(s, a))
  {
    forall id | id in s.requests && s.requests[id].Rotating? ensures s.requests[id].replacement.value in s.used {
      assert ProgressOk(s, s.requests[id]);
    }
  }

  lemma StepKeepsTokens(s: State, a: Action)
    requires Inv(s) && Enabled(s, a)
    ensures TokensOk(Do(s, a))
  {
    if a.Write? { assert ProgressOk(s, s.requests[a.id]); }
  }

  lemma StepInv(s: State, a: Action)
    requires Inv(s) && Enabled(s, a)
    ensures Inv(Do(s, a))
  {
    StepKeepsTokens(s, a);
    StepKeepsRequests(s, a);
    StepKeepsPending(s, a);
    match a {
      case StartFamily(root) => StartKeepsLineages(s, root);
      case Write(id) =>
        if s.requests[id].Rotating? { RotateKeepsLineages(s, id); }
        else if s.requests[id].Revoking? { RevokeKeepsLineages(s, id); }
      case _ =>
    }
  }
}
