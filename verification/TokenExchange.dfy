/** Scope derivation of the token-exchange grant (RFC 8693), along chains of exchanges:
    each exchange's result is the next one's subject token. */
module TokenExchange {
  import opened Model
  import opened Outcomes
  import opened Scopes

  /** All of the request or nothing; an empty request means all that is allowed. */
  function Grantable(requested: ScopeSet, allowed: ScopeSet): Result<ScopeSet> {
    if requested == {} then Ok(allowed)
    else if !(requested <= allowed) then Err(InvalidScope)
    else Ok(requested)
  }

  function DeriveScope(subject: ScopeSet, client: Client, requested: ScopeSet): Result<ScopeSet> {
    var upperBound := subject * client.allowedScopes;
    if requested == {} then Ok(upperBound) else Grantable(requested, upperBound)
  }

  /** What is grantable: a request within what is allowed, or all that is allowed when nothing is
      requested; anything beyond is refused whole. Derivation is that, within what subject and
      client have in common. */
  lemma GrantableIsAllOrNothing(requested: ScopeSet, allowed: ScopeSet, subject: ScopeSet, client: Client)
    ensures Grantable(requested, allowed).Ok? <==> requested <= allowed
    ensures requested <= allowed ==>
              forall x :: x in Grantable(requested, allowed).value <==>
                x in allowed && (requested == {} || x in requested)
    ensures !(requested <= allowed) ==> Grantable(requested, allowed) == Err(InvalidScope)
    ensures DeriveScope(subject, client, requested) == Grantable(requested, subject * client.allowedScopes)
  {}

  datatype Hop = Hop(client: Client, requested: ScopeSet)

  /** The scope at the end of a chain of exchanges, or the first refusal. */
  function ChainScope(subject: ScopeSet, hops: seq<Hop>): Result<ScopeSet> {
    if hops == [] then Ok(subject)
    else
      match DeriveScope(subject, hops[0].client, hops[0].requested)
      case Err(e) => Err(e)
      case Ok(scope) => ChainScope(scope, hops[1..])
  }

  /** A scope passes a hop when the client may have it and the request, if any, names it. */
  predicate Passes(scope: string, hop: Hop) {
    scope in hop.client.allowedScopes && (hop.requested == {} || scope in hop.requested)
  }

  /** Exactly the subject's scopes that pass every hop come out of a chain, of any length and
      through any clients: nothing is ever added, and nothing else is lost. */
  lemma {:induction false} ChainKeepsExactlyWhatPasses(subject: ScopeSet, hops: seq<Hop>)
    requires ChainScope(subject, hops).Ok?
    ensures forall x :: x in ChainScope(subject, hops).value <==>
              x in subject && forall i :: 0 <= i < |hops| ==> Passes(x, hops[i])
  {
    if hops != [] {
      var scope := DeriveScope(subject, hops[0].client, hops[0].requested).value;
      ChainKeepsExactlyWhatPasses(scope, hops[1..]);
      forall x ensures x in ChainScope(subject, hops).value <==>
                         x in subject && forall i :: 0 <= i < |hops| ==> Passes(x, hops[i])
      {
        assert x in scope <==> x in subject && Passes(x, hops[0]);
        assert (forall i :: 0 <= i < |hops[1..]| ==> Passes(x, hops[1..][i]))
               <==> (forall i :: 1 <= i < |hops| ==> Passes(x, hops[i])) by {
          assert forall i :: 1 <= i < |hops| ==> hops[i] == hops[1..][i - 1];
        }
      }
    }
  }

  /** So the result is within the subject's scope and every exchanging client's registration,
      and within every scope on the way. */
  lemma ExchangeNeverWidens(subject: ScopeSet, hops: seq<Hop>, n: nat)
    requires ChainScope(subject, hops).Ok? && n <= |hops|
    ensures ChainScope(subject, hops[..n]).Ok?
    ensures ChainScope(subject, hops).value <= ChainScope(subject, hops[..n]).value <= subject
    ensures n < |hops| ==> ChainScope(subject, hops).value <= hops[n].client.allowedScopes
  {
    PrefixSucceeds(subject, hops, n);
    ChainKeepsExactlyWhatPasses(subject, hops);
    ChainKeepsExactlyWhatPasses(subject, hops[..n]);
    assert forall i :: 0 <= i < n ==> hops[..n][i] == hops[i];
  }

  lemma {:induction false} PrefixSucceeds(subject: ScopeSet, hops: seq<Hop>, n: nat)
    requires ChainScope(subject, hops).Ok? && n <= |hops|
    ensures ChainScope(subject, hops[..n]).Ok?
  {
    if n > 0 {
      PrefixSucceeds(DeriveScope(subject, hops[0].client, hops[0].requested).value, hops[1..], n - 1);
      assert hops[..n][1..] == hops[1..][..n - 1];
    }
  }

  /** A chain is refused exactly when some hop asks for a scope that is not left by then:
      the first such hop follows a chain that succeeds. */
  lemma {:induction false} ChainRefusedIff(subject: ScopeSet, hops: seq<Hop>)
    ensures ChainScope(subject, hops).Err? <==>
              exists n :: 0 <= n < |hops| && ChainScope(subject, hops[..n]).Ok?
                          && !(hops[n].requested <= ChainScope(subject, hops[..n]).value * hops[n].client.allowedScopes)
    ensures ChainScope(subject, hops).Err? ==> ChainScope(subject, hops).error == InvalidScope
  {
    if hops != [] {
      var k := |hops| - 1;
      ChainRefusedIff(subject, hops[..k]);
      SplitLast(subject, hops[..k], hops[k]);
      assert hops == hops[..k] + [hops[k]];
      assert forall n :: 0 <= n < k ==> hops[..k][..n] == hops[..n] && hops[..k][n] == hops[n];
    }
  }

  lemma {:induction false} SplitLast(subject: ScopeSet, hops: seq<Hop>, last: Hop)
    ensures ChainScope(subject, hops + [last]) ==
            match ChainScope(subject, hops)
            case Err(e) => Err(e)
            case Ok(scope) => DeriveScope(scope, last.client, last.requested)
  {
    if hops == [] {
      assert hops + [last] == [last];
    } else {
      assert (hops + [last])[1..] == hops[1..] + [last];
      var first := DeriveScope(subject, hops[0].client, hops[0].requested);
      if first.Ok? { SplitLast(first.value, hops[1..], last); }
    }
  }
}
