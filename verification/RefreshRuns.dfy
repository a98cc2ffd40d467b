/** What holds along every run of interleaved refresh requests, however long and
    however many requests are in flight. */
module RefreshRuns {
  import opened Model
  import opened Outcomes
  import opened RefreshGrant
  import opened RefreshRotation
  import opened RefreshTokens

  datatype Run = Run(states: seq<State>, actions: seq<Action>)

  ghost predicate IsRun(r: Run) {
    && |r.states| == |r.actions| + 1
    && Init(r.states[0])
    && forall i {:trigger r.actions[i]} :: 0 <= i < |r.actions| ==>
         Enabled(r.states[i], r.actions[i]) && r.states[i + 1] == Do(r.states[i], r.actions[i])
  }

  lemma {:induction false} Reachable(r: Run, n: nat)
    requires IsRun(r) && n < |r.states|
    ensures Inv(r.states[n])
  {
    if n == 0 {
      InitInv(r.states[0]);
    } else {
      Reachable(r, n - 1);
      StepInv(r.states[n - 1], r.actions[n - 1]);
    }
  }

  lemma {:induction false} RunEvolves(r: Run, i: nat, j: nat)
    requires IsRun(r) && i <= j < |r.states|
    ensures Evolves(r.states[i].store, r.states[j].store)
    decreases j
  {
    if i < j {
      RunEvolves(r, i, j - 1);
      Reachable(r, j - 1);
      StepEvolves(r.states[j - 1], r.actions[j - 1]);
    }
  }

  // ---------------------------------------------------------------- rotation safety

  lemma OneLiveToken(s: State, f: string, v: string, w: string)
    requires Inv(s) && v in Live(s.store, f) && w in Live(s.store, f)
    ensures v == w
  {
    assert f in Families(s.store) by { assert s.store[v].familyId == f; }
    var chain :| IsLineage(s.store, f, chain);
    LiveIsLast(s.store, f, chain, v);
    LiveIsLast(s.store, f, chain, w);
  }

  /** In every reachable state every family has at most one unconsumed token. */
  lemma AtMostOneLive(r: Run, n: nat, f: string)
    requires IsRun(r) && n < |r.states|
    ensures |Live(r.states[n].store, f)| <= 1
  {
    Reachable(r, n);
    var live := Live(r.states[n].store, f);
    if v :| v in live {
      forall w | w in live ensures w == v { OneLiveToken(r.states[n], f, v, w); }
      assert live == {v};
    }
  }

  /** Step `i` is a rotation that the repository accepted. */
  ghost predicate Rotates(r: Run, i: nat) {
    && i < |r.actions| && i < |r.states| && r.actions[i].Write?
    && var s, id := r.states[i], r.actions[i].id;
       && id in s.requests && s.requests[id].Rotating?
       && RotationFault(s.store, s.requests[id].seen.value, s.requests[id].replacement.issuedAt).None?
  }

  ghost function Source(r: Run, i: nat): string
    requires Rotates(r, i)
  {
    r.states[i].requests[r.actions[i].id].seen.value
  }

  /** No token is the source of two accepted rotations, whoever read it and whenever. */
  lemma RotatedAtMostOnce(r: Run, i: nat, j: nat)
    requires IsRun(r) && i < j && Rotates(r, i) && Rotates(r, j)
    ensures Source(r, i) != Source(r, j)
  {
    Reachable(r, i);
    var s := r.states[i];
    assert ProgressOk(s, s.requests[r.actions[i].id]);
    assert r.states[i + 1].store[Source(r, i)].consumedAt.Some?;
    RunEvolves(r, i + 1, j);
  }

  // ---------------------------------------------------------------- revocation is permanent

  /** Step `i` is the replay branch revoking family `f`. */
  ghost predicate Revokes(r: Run, i: nat, f: string) {
    && i < |r.actions| && i < |r.states| && r.actions[i].Write?
    && var s, id := r.states[i], r.actions[i].id;
       id in s.requests && s.requests[id].Revoking? && s.requests[id].seen.familyId == f
  }

  lemma DeadStaysDead(s: State, a: Action, f: string)
    requires Inv(s) && Enabled(s, a)
    requires f in Families(s.store) && Live(s.store, f) == {}
    ensures f in Families(Do(s, a).store) && Live(Do(s, a).store, f) == {}
  {
    var after := Do(s, a).store;
    StepEvolves(s, a);
    var m :| m in s.store && s.store[m].familyId == f;
    assert Same(after[m], s.store[m]);
    assert after[m].familyId == f;
    forall v | v in after ensures v !in Live(after, f) {
      if v in s.store {
        assert v !in Live(s.store, f);
        assert Same(after[v], s.store[v]);
      } else if a.Write? {
        assert ProgressOk(s, s.requests[a.id]);
        var seen := s.requests[a.id].seen;
        assert seen.value !in Live(s.store, f);
      }
    }
  }

  /** Once the replay branch has revoked a family, no later state holds an unconsumed token
      of it, even when requests in flight had read a live token and minted a replacement. */
  lemma {:induction false} RevocationIsPermanent(r: Run, i: nat, f: string, j: nat)
    requires IsRun(r) && Revokes(r, i, f) && i < j < |r.states|
    ensures f in Families(r.states[j].store) && Live(r.states[j].store, f) == {}
    decreases j
  {
    if j == i + 1 {
      Reachable(r, i);
      var s := r.states[i];
      var p := s.requests[r.actions[i].id];
      assert ProgressOk(s, p);
      RevokedTwice(s.store, f, p.at, p.at);
      assert r.states[j].store[p.seen.value].familyId == f;
    } else {
      RevocationIsPermanent(r, i, f, j - 1);
      Reachable(r, j - 1);
      DeadStaysDead(r.states[j - 1], r.actions[j - 1], f);
    }
  }

  // ---------------------------------------------------------------- lineage

  ghost function FamilyOf(r: Run, i: nat): string
    requires Rotates(r, i)
  {
    r.states[i].requests[r.actions[i].id].replacement.familyId
  }

  /** Accepted rotations of family `f` among the first `n` steps. */
  ghost function Rotations(r: Run, f: string, n: nat): nat {
    if n == 0 then 0
    else Rotations(r, f, n - 1) + if Rotates(r, n - 1) && FamilyOf(r, n - 1) == f then 1 else 0
  }

  lemma StepSize(r: Run, n: nat, f: string)
    requires IsRun(r) && n < |r.actions|
    ensures var before, after := r.states[n].store, r.states[n + 1].store;
            |Members(after, f)| - (if f in Families(after) then 1 else 0)
            == |Members(before, f)| - (if f in Families(before) then 1 else 0)
               + (if Rotates(r, n) && FamilyOf(r, n) == f then 1 else 0)
  {
    Reachable(r, n);
    var s, a, s' := r.states[n], r.actions[n], r.states[n + 1];
    FamilyMeansMember(s.store, f);
    FamilyMeansMember(s'.store, f);
    match a {
      case StartFamily(root) =>
        FamilyMeansMember(s.store, root.familyId);
        if f == root.familyId { assert Members(s'.store, f) == {root.value}; }
        else { assert Members(s'.store, f) == Members(s.store, f); }
      case Write(id) =>
        if Rotates(r, n) { RotationSize(s, id, f); }
        else { assert Members(s'.store, f) == Members(s.store, f); }
      case _ =>
    }
  }

  lemma RotationSize(s: State, id: nat, f: string)
    requires Inv(s) && id in s.requests && s.requests[id].Rotating?
    requires RotationFault(s.store, s.requests[id].seen.value, s.requests[id].replacement.issuedAt).None?
    ensures var after := Do(s, Write(id)).store;
            if f == s.requests[id].replacement.familyId then
              |Members(after, f)| == |Members(s.store, f)| + 1 && Members(s.store, f) != {} && Members(after, f) != {}
            else Members(after, f) == Members(s.store, f)
  {
    var p := s.requests[id];
    assert ProgressOk(s, p);
    RotationMovesLiveness(s.store, p.seen.value, p.replacement, p.replacement.issuedAt);
    assert p.seen.value in Members(s.store, p.seen.familyId);
    assert p.replacement.value !in Members(s.store, f);
  }

  lemma FamilyMeansMember(store: Store, f: string)
    ensures f in Families(store) <==> Members(store, f) != {}
  {
    if f in Families(store) {
      var v :| v in store && store[v].familyId == f;
      assert v in Members(store, f);
    }
    if v :| v in Members(store, f) { assert store[v].familyId == f; }
  }

  lemma {:induction false} SizeCountsRotations(r: Run, f: string, n: nat)
    requires IsRun(r) && n < |r.states|
    ensures |Members(r.states[n].store, f)|
            == Rotations(r, f, n) + if f in Families(r.states[n].store) then 1 else 0
  {
    if n == 0 {
      assert Members(r.states[0].store, f) == {};
    } else {
      SizeCountsRotations(r, f, n - 1);
      StepSize(r, n - 1, f);
    }
  }

  lemma {:induction false} DistinctSize(chain: seq<string>)
    requires forall i, j :: 0 <= i < j < |chain| ==> chain[i] != chain[j]
    ensures |set v | v in chain| == |chain|
  {
    if chain != [] {
      var k := |chain| - 1;
      DistinctSize(chain[..k]);
      assert (set v | v in chain) == (set v | v in chain[..k]) + {chain[k]} by {
        assert chain == chain[..k] + [chain[k]];
      }
    }
  }

  /** How far down a chain a token can be and still be alive, and what it keeps. */
  lemma {:induction false} AlongLineage(s: State, f: string, chain: seq<string>, n: nat)
    requires TokensOk(s) && IsLineage(s.store, f, chain) && n < |chain|
    ensures var root, t := s.store[chain[0]], s.store[chain[n]];
            && t.clientId == root.clientId && t.userSub == root.userSub && t.scope <= root.scope
            && root.issuedAt <= t.issuedAt
            && t.expiresAt <= root.issuedAt + (n + 1) * s.ttl
  {
    if n > 0 {
      AlongLineage(s, f, chain, n - 1);
      assert Link(s.store[chain[n - 1]], s.store[chain[n]]);
      assert (n + 1) * s.ttl == n * s.ttl + s.ttl;
    }
  }

  /** What a chain of a family says about the tokens on it. */
  ghost predicate IsFullLineage(s: State, f: string, chain: seq<string>) {
    && IsLineage(s.store, f, chain)
    && Members(s.store, f) == (set v | v in chain)
    && forall k :: 0 <= k < |chain| ==>
         var root, t := s.store[chain[0]], s.store[chain[k]];
         && t.clientId == root.clientId && t.userSub == root.userSub && t.scope <= root.scope
         && t.expiresAt <= root.issuedAt + (k + 1) * s.ttl
  }

  /** In every reachable state a family is one linear chain: as long as it has members, one
      more than its accepted rotations; constant client, user and family; scopes only narrowing;
      each replaced token consumed at its successor's issue time, before its own expiry; and
      the n-th token (the root is 0) expired by root issue + (n + 1) * ttl. */
  lemma Lineage(r: Run, n: nat, f: string)
    requires IsRun(r) && n < |r.states| && f in Families(r.states[n].store)
    ensures exists chain :: IsFullLineage(r.states[n], f, chain) && |chain| == 1 + Rotations(r, f, n)
  {
    Reachable(r, n);
    var s := r.states[n];
    var chain :| IsLineage(s.store, f, chain);
    DistinctSize(chain);
    assert Members(s.store, f) == set v | v in chain;
    SizeCountsRotations(r, f, n);
    forall k | 0 <= k < |chain|
      ensures var root, t := s.store[chain[0]], s.store[chain[k]];
              && t.clientId == root.clientId && t.userSub == root.userSub && t.scope <= root.scope
              && t.expiresAt <= root.issuedAt + (k + 1) * s.ttl
    {
      AlongLineage(s, f, chain, k);
    }
    assert IsFullLineage(s, f, chain);
  }

  // ---------------------------------------------------------------- who may refresh

  /** A request still to be answered is of a client registered to refresh. */
  ghost predicate IsRegisteredFor(p: Progress) {
    p.Looking? || p.Found? || p.Revoking? || p.Rotating? ==> RefreshTokenGrant in p.attempt.client.allowedGrants
  }

  /** No request of a client not registered to refresh ever comes to its lookup. */
  lemma {:induction false} OnlyRegisteredRefreshes(r: Run, n: nat)
    requires IsRun(r) && n < |r.states|
    ensures forall id | id in r.states[n].requests :: IsRegisteredFor(r.states[n].requests[id])
  {
    if n > 0 {
      OnlyRegisteredRefreshes(r, n - 1);
      assert r.states[n] == Do(r.states[n - 1], r.actions[n - 1]);
    }
  }

  // ---------------------------------------------------------------- when a replay is noticed

  /** Step `i` is request `id` reading a token of its own client. */
  ghost predicate Reads(r: Run, i: nat, id: nat) {
    && i < |r.actions| && i + 1 < |r.states| && r.actions[i] == Lookup(id)
    && id in r.states[i].requests && r.states[i].requests[id].Looking?
    && id in r.states[i + 1].requests && r.states[i + 1].requests[id].Found?
  }

  /** From its read on a request either still has that copy, has been judged by it, or is past it. */
  lemma {:induction false} CopyIsKept(r: Run, i: nat, id: nat, j: nat)
    requires IsRun(r) && Reads(r, i, id) && i < j < |r.states|
    ensures id in r.states[j].requests
    ensures var first, p := r.states[i + 1].requests[id], r.states[j].requests[id];
            || p == first
            || (p.Revoking? && p.seen == first.seen && first.seen.consumedAt.Some?)
            || (p.Rotating? && p.seen == first.seen && first.seen.consumedAt.None?)
            || p.Issuing? || p.Finished?
    decreases j
  {
    if j > i + 1 {
      CopyIsKept(r, i, id, j - 1);
      assert r.states[j] == Do(r.states[j - 1], r.actions[j - 1]);
    }
  }

  /** A request is ever about to revoke a family only if the token it presented was already
      consumed in the store when it read it: replay is noticed at the read, never later. */
  lemma ReplayIsNoticedAtTheRead(r: Run, i: nat, id: nat, j: nat)
    requires IsRun(r) && Reads(r, i, id) && i < j < |r.actions|
    requires id in r.states[j].requests && r.states[j].requests[id].Found?
    requires exists freshValue :: r.actions[j] == Judge(id, freshValue)
    ensures var presented := r.states[i].requests[id].attempt.presented;
            && presented in r.states[i].store && id in r.states[j + 1].requests
            && (r.states[j + 1].requests[id].Revoking? <==> r.states[i].store[presented].consumedAt.Some?)
  {
    CopyIsKept(r, i, id, j);
  }

  ghost function Last(r: Run): State
    requires r.states != []
  {
    r.states[|r.states| - 1]
  }

  ghost function Extended(r: Run, a: Action): Run
    requires r.states != []
  {
    Run(r.states + [Do(Last(r), a)], r.actions + [a])
  }

  lemma ExtendedIsRun(r: Run, a: Action)
    requires IsRun(r) && Enabled(Last(r), a)
    ensures IsRun(Extended(r, a)) && Last(Extended(r, a)) == Do(Last(r), a)
  {}

  /** The end of a lost race: the loser presented a consumed token, was refused, and the family
      still has a live token. */
  ghost predicate IsLostRace(s: State, id: nat, presented: string, family: string) {
    && id in s.requests && s.requests[id] == Finished(Err(InvalidGrant(AlreadyUsed)))
    && presented in s.store && s.store[presented].consumedAt.Some? && s.store[presented].familyId == family
    && Live(s.store, family) != {}
  }

  /** Two requests that have both read the live token "t". */
  ghost function BothRead(client: Client, root: RefreshToken): State {
    var copy := Found(Attempt(client, "t", {}), root);
    State(0, 10, map["t" := root], map[0 := copy, 1 := copy], {"t"})
  }

  lemma BothReadIsReachable(client: Client, root: RefreshToken)
    requires RefreshTokenGrant in client.allowedGrants && root.clientId == client.id
    requires root.value == "t" && root.consumedAt.None? && root.issuedAt == 0 && root.expiresAt == 10
    ensures exists r :: IsRun(r) && Last(r) == BothRead(client, root)
  {
    var request := Request(client, Some("t"), {});
    var waiting := Looking(Attempt(client, "t", {}));
    var r0 := Run([State(0, 10, map[], map[], {"t"})], []);
    ExtendedIsRun(r0, StartFamily(root));
    var r1 := Extended(r0, StartFamily(root));
    ExtendedIsRun(r1, Arrive(0, request));
    var r2 := Extended(r1, Arrive(0, request));
    ExtendedIsRun(r2, Arrive(1, request));
    var r3 := Extended(r2, Arrive(1, request));
    assert Last(r3) == State(0, 10, map["t" := root], map[0 := waiting, 1 := waiting], {"t"});
    BothLookUp(r3, client, root);
  }

  lemma BothLookUp(r3: Run, client: Client, root: RefreshToken)
    requires root.clientId == client.id && IsRun(r3)
    requires var waiting := Looking(Attempt(client, "t", {}));
             Last(r3) == State(0, 10, map["t" := root], map[0 := waiting, 1 := waiting], {"t"})
    ensures exists r :: IsRun(r) && Last(r) == BothRead(client, root)
  {
    ExtendedIsRun(r3, Lookup(0));
    var r4 := Extended(r3, Lookup(0));
    ExtendedIsRun(r4, Lookup(1));
    var r5 := Extended(r4, Lookup(1));
    assert Last(r5).requests == BothRead(client, root).requests;
  }

  /** So the documented rule that a consumed token's replay revokes its family does not hold
      under interleaving: two requests present one token, both read it live, one rotates it, the
      other is refused when it commits, and the family lives on. */
  lemma RaceLoserDoesNotRevoke(client: Client, root: RefreshToken)
    requires RefreshTokenGrant in client.allowedGrants && root.clientId == client.id
    requires root.value == "t" && root.consumedAt.None? && root.issuedAt == 0 && root.expiresAt == 10
    ensures exists r :: IsRun(r) && IsLostRace(Last(r), 1, "t", root.familyId)
  {
    BothReadIsReachable(client, root);
    var r5 :| IsRun(r5) && Last(r5) == BothRead(client, root);
    ExtendedIsRun(r5, Judge(0, "u"));
    var r6 := Extended(r5, Judge(0, "u"));
    ExtendedIsRun(r6, Judge(1, "w"));
    var r7 := Extended(r6, Judge(1, "w"));
    BothWrite(r7, client, root);
  }

  lemma BothWrite(r7: Run, client: Client, root: RefreshToken)
    requires root.value == "t" && root.consumedAt.None? && root.expiresAt == 10 && IsRun(r7)
    requires Last(r7).store == map["t" := root] && {0, 1} <= Last(r7).requests.Keys
    requires var first, second := Last(r7).requests[0], Last(r7).requests[1];
             && first.Rotating? && first.seen == root
             && first.replacement.value == "u" && first.replacement.issuedAt == 0
             && first.replacement.familyId == root.familyId && first.replacement.consumedAt.None?
             && second.Rotating? && second.seen == root
    ensures exists r :: IsRun(r) && IsLostRace(Last(r), 1, "t", root.familyId)
  {
    ExtendedIsRun(r7, Write(0));
    var r8 := Extended(r7, Write(0));
    assert Last(r8).store["t"] == root.Consume(0);
    assert "u" in Live(Last(r8).store, root.familyId);
    ExtendedIsRun(r8, Write(1));
    var r9 := Extended(r8, Write(1));
    assert Last(r9).store == Last(r8).store;
  }
}
