/** The in-memory authorization-code repository: consumption is a check-and-set. */
module AuthorizationCodes {
  import opened Model
  import opened Outcomes

  type Store = map<string, AuthorizationCode>

  function Consumption(store: Store, value: string, now: int): Result<AuthorizationCode> {
    if value !in store then Err(InvalidGrant(NotFound)) else store[value].Consume(now)
  }

  function Consumed(store: Store, value: string, now: int): Store {
    var r := Consumption(store, value, now);
    if r.Ok? then store[value := r.value] else store
  }

  /** Of any two consumptions of one code the later fails with "already used" and changes
      nothing, whatever the clock says; consuming touches no other code. */
  lemma ConsumedAtMostOnce(store: Store, value: string, now: int, later: int)
    ensures var after := Consumed(store, value, now);
            && (Consumption(store, value, now).Ok? ==>
                  && Consumption(after, value, later) == Err(InvalidGrant(AlreadyUsed))
                  && Consumed(after, value, later) == after
                  && after[value] == store[value].(consumedAt := Some(now))
                  && now < store[value].expiresAt)
            && after.Keys == store.Keys
            && (forall v | v in store && v != value :: after[v] == store[v])
            && (Consumption(store, value, now).Err? ==> after == store)
  {}

  class Repository {
    var store: Store

    constructor ()
      ensures store == map[]
    {
      store := map[];
    }

    method Save(code: AuthorizationCode)
      modifies this
      ensures store == old(store)[code.value := code]
    {
      store := store[code.value := code];
    }

    method FindByValue(value: string) returns (code: Option<AuthorizationCode>)
      ensures code.Some? <==> value in store
      ensures code.Some? ==> code.value == store[value]
    {
      code := if value in store then Some(store[value]) else None;
    }

    method Consume(value: string, now: int) returns (r: Result<AuthorizationCode>)
      modifies this
      ensures r == Consumption(old(store), value, now)
      ensures store == Consumed(old(store), value, now)
    {
      if value !in store {
        return Err(InvalidGrant(NotFound));
      }
      r := store[value].Consume(now);
      if r.Ok? {
        store := store[value := r.value];
      }
    }
  }
}
