/** The in-memory refresh-token repository: a map from token value to token, with
    check-and-set rotation and whole-family revocation. */
module RefreshTokens {
  import opened Model
  import opened Outcomes

  type Store = map<string, RefreshToken>

  // ---------------------------------------------------------------- specification

  ghost predicate Keyed(store: Store) {
    forall v | v in store :: store[v].value == v
  }

  /** Why a rotation of `oldValue` at `now` is refused, if it is. */
  function RotationFault(store: Store, oldValue: string, now: int): Option<GrantFault> {
    if oldValue !in store then Some(NotFound)
    else if store[oldValue].IsConsumed() then Some(AlreadyUsed)
    else if store[oldValue].IsExpired(now) then Some(Expired)
    else None
  }

  function Rotated(store: Store, oldValue: string, newToken: RefreshToken, now: int): Store {
    if RotationFault(store, oldValue, now).Some? then store
    else store[oldValue := store[oldValue].Consume(now)][newToken.value := newToken]
  }

  function RotationResult(store: Store, oldValue: string, newToken: RefreshToken, now: int): Result<RefreshToken> {
    var fault := RotationFault(store, oldValue, now);
    if fault.Some? then Err(InvalidGrant(fault.value)) else Ok(newToken)
  }

  /** The values of the unconsumed tokens of a family. */
  function Live(store: Store, family: string): set<string> {
    set v | v in store && store[v].familyId == family && store[v].consumedAt.None?
  }

  function Members(store: Store, family: string): set<string> {
    set v | v in store && store[v].familyId == family
  }

  function Families(store: Store): set<string> {
    set v | v in store :: store[v].familyId
  }

  /** The state in which exactly the live tokens of the family have been consumed, at `now`. */
  ghost predicate IsRevocation(before: Store, after: Store, family: string, now: int) {
    && after.Keys == before.Keys
    && forall v | v in before ::
         after[v] == if before[v].familyId == family && before[v].consumedAt.None?
                     then before[v].(consumedAt := Some(now)) else before[v]
  }

  function Revoked(store: Store, family: string, now: int): Store {
    map v | v in store :: if v in Live(store, family) then store[v].Consume(now) else store[v]
  }

  /** Revocation leaves no live token, keeps every earlier consumption time, and a
      second revocation finds nothing to do and changes nothing. */
  lemma RevokedTwice(store: Store, family: string, now: int, later: int)
    ensures IsRevocation(store, Revoked(store, family, now), family, now)
    ensures Live(Revoked(store, family, now), family) == {}
    ensures Revoked(Revoked(store, family, now), family, later) == Revoked(store, family, now)
    ensures forall v | v in store && store[v].consumedAt.Some? ::
              Revoked(store, family, now)[v].consumedAt == store[v].consumedAt
    ensures forall f | f != family :: Live(Revoked(store, family, now), f) == Live(store, f)
  {
    var once := Revoked(store, family, now);
    forall v | v in once ensures v !in Live(once, family) {
      if v in Live(store, family) { assert once[v].IsConsumed(); }
    }
    assert Revoked(once, family, later) == once;
    forall f | f != family ensures Live(once, f) == Live(store, f) {
      forall v | v in store ensures v in Live(once, f) <==> v in Live(store, f) {
        assert v in Live(store, family) ==> store[v].familyId == family;
      }
    }
  }

  /** The state of the revocation walk with the keys in `pending` still to visit. */
  ghost function PartlyRevoked(items: Store, family: string, pending: set<string>, now: int): Store {
    map v | v in items :: if v in Live(items, family) && v !in pending then items[v].Consume(now) else items[v]
  }

  lemma RevocationStep(items: Store, family: string, pending: set<string>, v: string, now: int)
    requires v in pending && v in items
    ensures var part := PartlyRevoked(items, family, pending, now);
            PartlyRevoked(items, family, pending - {v}, now)
            == if v in Live(items, family) then part[v := items[v].Consume(now)] else part
    ensures |Live(items, family) - (pending - {v})|
            == |Live(items, family) - pending| + if v in Live(items, family) then 1 else 0
  {
    var live := Live(items, family);
    if v in live {
      assert live - (pending - {v}) == (live - pending) + {v};
    } else {
      assert live - (pending - {v}) == live - pending;
    }
  }

  /** What a rotation answers, in the order of its checks, and what it leaves: both tokens written
      on success, nothing otherwise. */
  lemma RotationOutcomes(store: Store, oldValue: string, newToken: RefreshToken, now: int)
    ensures var r, after := RotationResult(store, oldValue, newToken, now), Rotated(store, oldValue, newToken, now);
            && (r == Err(InvalidGrant(NotFound)) <==> oldValue !in store)
            && (r == Err(InvalidGrant(AlreadyUsed)) <==> oldValue in store && store[oldValue].consumedAt.Some?)
            && (r == Err(InvalidGrant(Expired)) <==>
                  oldValue in store && store[oldValue].consumedAt.None? && now >= store[oldValue].expiresAt)
            && (r.Ok? <==> oldValue in store && store[oldValue].consumedAt.None? && now < store[oldValue].expiresAt)
            && (r.Ok? ==>
                  && r.value == newToken
                  && after == store[oldValue := store[oldValue].(consumedAt := Some(now))][newToken.value := newToken])
            && (r.Err? ==> after == store)
  {}

  /** A successful rotation moves the family's liveness from the old token to the new one. */
  lemma RotationMovesLiveness(store: Store, oldValue: string, newToken: RefreshToken, now: int)
    requires oldValue in store && store[oldValue].consumedAt.None? && now < store[oldValue].expiresAt
    requires newToken.value !in store && newToken.consumedAt.None?
    requires newToken.familyId == store[oldValue].familyId
    ensures forall f :: Live(Rotated(store, oldValue, newToken, now), f)
              == if f == newToken.familyId then Live(store, f) - {oldValue} + {newToken.value} else Live(store, f)
    ensures forall f :: Members(Rotated(store, oldValue, newToken, now), f)
              == if f == newToken.familyId then Members(store, f) + {newToken.value} else Members(store, f)
  {}

  // ---------------------------------------------------------------- the repository

  class Repository {
    var store: Store

    constructor ()
      ensures store == map[]
    {
      store := map[];
    }

    method Save(token: RefreshToken)
      modifies this
      ensures store == old(store)[token.value := token]
    {
      store := store[token.value := token];
    }

    method FindByValue(value: string) returns (token: Option<RefreshToken>)
      ensures token.Some? <==> value in store
      ensures token.Some? ==> token.value == store[value]
    {
      token := if value in store then Some(store[value]) else None;
    }

    method Rotate(oldValue: string, newToken: RefreshToken, now: int) returns (r: Result<RefreshToken>)
      modifies this
      ensures r == RotationResult(old(store), oldValue, newToken, now)
      ensures store == Rotated(old(store), oldValue, newToken, now)
    {
      if oldValue !in store {
        return Err(InvalidGrant(NotFound));
      }
      var current := store[oldValue];
      if current.IsConsumed() {
        return Err(InvalidGrant(AlreadyUsed));
      }
      if current.IsExpired(now) {
        return Err(InvalidGrant(Expired));
      }
      store := store[oldValue := current.Consume(now)];
      store := store[newToken.value := newToken];
      return Ok(newToken);
    }

    /** Walks a snapshot of the items, consuming the family's live tokens one by one. */
    method RevokeFamily(family: string, now: int) returns (count: nat)
      modifies this
      ensures IsRevocation(old(store), store, family, now)
      ensures store == Revoked(old(store), family, now)
      ensures count == |Live(old(store), family)|
    {
      var items := store;
      var pending := items.Keys;
      count := 0;
      assert store == PartlyRevoked(items, family, pending, now);
      while pending != {}
        invariant pending <= items.Keys
        invariant store == PartlyRevoked(items, family, pending, now)
        invariant count == |Live(items, family) - pending|
      {
        var value :| value in pending;
        var token := items[value];
        RevocationStep(items, family, pending, value, now);
        if token.familyId == family && !token.IsConsumed() {
          store := store[value := token.Consume(now)];
          count := count + 1;
        }
        pending := pending - {value};
      }
      assert Live(items, family) - pending == Live(items, family);
      assert store == Revoked(items, family, now);
      RevokedTwice(items, family, now, now);
    }
  }
}
