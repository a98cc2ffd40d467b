/** Proof Key for Code Exchange, S256 only (sections 4.1 to 4.6 of RFC 7636), with
    the base64url alphabet of section 5 of RFC 4648 written out. */
module Pkce {
  import opened Outcomes

  type Byte = n: int | 0 <= n < 256
  type Sextet = n: int | 0 <= n < 64
  type Bytes32 = b: seq<Byte> | |b| == 32 witness seq(32, i => 0)

  // ---------------------------------------------------------------- base64url

  function ToChar(n: Sextet): char {
    if n < 26 then ('A' as int + n) as char
    else if n < 52 then ('a' as int + n - 26) as char
    else if n < 62 then ('0' as int + n - 52) as char
    else if n == 62 then '-' else '_'
  }

  function FromChar(c: char): Option<Sextet> {
    if 'A' <= c <= 'Z' then Some(c as int - 'A' as int)
    else if 'a' <= c <= 'z' then Some(c as int - 'a' as int + 26)
    else if '0' <= c <= '9' then Some(c as int - '0' as int + 52)
    else if c == '-' then Some(62)
    else if c == '_' then Some(63)
    else None
  }

  /** The library encoder: three bytes to four characters, `=` filling the last group. */
  function UrlsafeB64Encode(b: seq<Byte>): string {
    if |b| == 0 then ""
    else if |b| == 1 then
      [ToChar(b[0] / 4), ToChar(b[0] % 4 * 16), '=', '=']
    else if |b| == 2 then
      [ToChar(b[0] / 4), ToChar(b[0] % 4 * 16 + b[1] / 16), ToChar(b[1] % 16 * 4), '=']
    else
      [ToChar(b[0] / 4), ToChar(b[0] % 4 * 16 + b[1] / 16), ToChar(b[1] % 16 * 4 + b[2] / 64), ToChar(b[2] % 64)]
      + UrlsafeB64Encode(b[3..])
  }

  function RstripPadding(s: string): string {
    if s != "" && s[|s| - 1] == '=' then RstripPadding(s[..|s| - 1]) else s
  }

  function Unpadded(b: seq<Byte>): string { RstripPadding(UrlsafeB64Encode(b)) }

  /** The inverse the source never needs to compute, and the proof does. */
  function Decode(s: string): Option<seq<Byte>> {
    if |s| == 0 then Some([])
    else if |s| == 1 then None
    else
      var a, b := FromChar(s[0]), FromChar(s[1]);
      if a.None? || b.None? then None
      else
        var x: Byte := a.value * 4 + b.value / 16;
        if |s| == 2 then Some([x])
        else
          var c := FromChar(s[2]);
          if c.None? then None
          else
            var y: Byte := b.value % 16 * 16 + c.value / 4;
            if |s| == 3 then Some([x, y])
            else
              var d, rest := FromChar(s[3]), Decode(s[4..]);
              if d.None? || rest.None? then None
              else Some([x, y, c.value % 4 * 64 + d.value] + rest.value)
  }

  predicate IsUnreserved(c: char) {
    'A' <= c <= 'Z' || 'a' <= c <= 'z' || '0' <= c <= '9' || c == '-' || c == '.' || c == '_' || c == '~'
  }

  lemma SextetRoundTrip(n: Sextet)
    ensures FromChar(ToChar(n)) == Some(n)
    ensures IsUnreserved(ToChar(n)) && ToChar(n) != '='
  {}

  /** The encoder's output without its padding, by groups. */
  function Body(b: seq<Byte>): string {
    if |b| == 0 then ""
    else if |b| == 1 then [ToChar(b[0] / 4), ToChar(b[0] % 4 * 16)]
    else if |b| == 2 then [ToChar(b[0] / 4), ToChar(b[0] % 4 * 16 + b[1] / 16), ToChar(b[1] % 16 * 4)]
    else
      [ToChar(b[0] / 4), ToChar(b[0] % 4 * 16 + b[1] / 16), ToChar(b[1] % 16 * 4 + b[2] / 64), ToChar(b[2] % 64)]
      + Body(b[3..])
  }

  ghost predicate AllUnreserved(s: string) {
    forall i :: 0 <= i < |s| ==> IsUnreserved(s[i])
  }

  lemma {:induction false} BodyShape(b: seq<Byte>)
    ensures AllUnreserved(Body(b))
    ensures |Body(b)| == (4 * |b| + 2) / 3
    ensures exists pad :: UrlsafeB64Encode(b) == Body(b) + pad && pad in {"", "=", "=="}
  {
    forall n: Sextet ensures IsUnreserved(ToChar(n)) { SextetRoundTrip(n); }
    if |b| == 0 {
      assert UrlsafeB64Encode(b) == Body(b) + "";
    } else if |b| == 1 {
      assert UrlsafeB64Encode(b) == Body(b) + "==";
    } else if |b| == 2 {
      assert UrlsafeB64Encode(b) == Body(b) + "=";
    } else {
      BodyShape(b[3..]);
      var pad :| UrlsafeB64Encode(b[3..]) == Body(b[3..]) + pad && pad in {"", "=", "=="};
      assert UrlsafeB64Encode(b) == Body(b) + pad;
    }
  }

  lemma {:induction false} StripBody(body: string, pad: string)
    requires AllUnreserved(body)
    requires forall i :: 0 <= i < |pad| ==> pad[i] == '='
    ensures RstripPadding(body + pad) == body
  {
    if pad == "" {
      assert body + pad == body;
    } else {
      assert (body + pad)[..|body + pad| - 1] == body + pad[..|pad| - 1];
      StripBody(body, pad[..|pad| - 1]);
    }
  }

  lemma UnpaddedIsBody(b: seq<Byte>)
    ensures Unpadded(b) == Body(b)
  {
    BodyShape(b);
    var pad :| UrlsafeB64Encode(b) == Body(b) + pad && pad in {"", "=", "=="};
    StripBody(Body(b), pad);
  }

  lemma DecodeGroup(x: Byte, y: Byte, z: Byte)
    ensures x / 4 * 4 + (x % 4 * 16 + y / 16) / 16 == x
    ensures (x % 4 * 16 + y / 16) % 16 * 16 + (y % 16 * 4 + z / 64) / 4 == y
    ensures (y % 16 * 4 + z / 64) % 4 * 64 + z % 64 == z
  {}

  lemma DecodeFullGroup(x: Byte, y: Byte, z: Byte, rest: string, tail: seq<Byte>)
    requires Decode(rest) == Some(tail)
    ensures Decode([ToChar(x / 4), ToChar(x % 4 * 16 + y / 16), ToChar(y % 16 * 4 + z / 64), ToChar(z % 64)] + rest)
            == Some([x, y, z] + tail)
  {
    var s := [ToChar(x / 4), ToChar(x % 4 * 16 + y / 16), ToChar(y % 16 * 4 + z / 64), ToChar(z % 64)] + rest;
    SextetRoundTrip(x / 4);
    SextetRoundTrip(x % 4 * 16 + y / 16);
    SextetRoundTrip(y % 16 * 4 + z / 64);
    SextetRoundTrip(z % 64);
    DecodeGroup(x, y, z);
    assert s[4..] == rest;
  }

  lemma DecodeShortGroup(x: Byte, y: Byte)
    ensures Decode([ToChar(x / 4), ToChar(x % 4 * 16)]) == Some([x])
    ensures Decode([ToChar(x / 4), ToChar(x % 4 * 16 + y / 16), ToChar(y % 16 * 4)]) == Some([x, y])
  {
    SextetRoundTrip(x / 4);
    SextetRoundTrip(x % 4 * 16);
    SextetRoundTrip(x % 4 * 16 + y / 16);
    SextetRoundTrip(y % 16 * 4);
    DecodeGroup(x, y, 0);
    DecodeGroup(x, 0, 0);
  }

  lemma {:induction false} DecodeBody(b: seq<Byte>)
    ensures Decode(Body(b)) == Some(b)
  {
    if |b| >= 3 {
      DecodeBody(b[3..]);
      DecodeFullGroup(b[0], b[1], b[2], Body(b[3..]), b[3..]);
      assert b == [b[0], b[1], b[2]] + b[3..];
    } else if |b| == 2 {
      DecodeShortGroup(b[0], b[1]);
      assert b == [b[0], b[1]];
    } else if |b| == 1 {
      DecodeShortGroup(b[0], 0);
      assert b == [b[0]];
    }
  }

  /** Decoding undoes the unpadded encoding of every byte string, of any length. */
  lemma DecodeUnpadded(b: seq<Byte>)
    ensures Decode(Unpadded(b)) == Some(b)
  {
    UnpaddedIsBody(b);
    DecodeBody(b);
  }

  // ---------------------------------------------------------------- challenges

  /** The shape pattern: unreserved characters, then at most one newline (`$`). */
  predicate MatchesUnreserved(s: string) {
    (s != "" && forall i :: 0 <= i < |s| ==> IsUnreserved(s[i])) ||
    (|s| > 1 && s[|s| - 1] == '\n' && forall i :: 0 <= i < |s| - 1 ==> IsUnreserved(s[i]))
  }

  const MIN_LEN := 43
  const MAX_LEN := 128

  datatype PkceChallenge = PkceChallenge(value: string, challengeMethod: string)

  /** The value object's constructor; every rejection is a ValueError. */
  function MakeChallenge(value: string, challengeMethod: string): Result<PkceChallenge> {
    if challengeMethod != "S256" then Err(BadValue)
    else if !(MIN_LEN <= |value| <= MAX_LEN) then Err(BadValue)
    else if !MatchesUnreserved(value) then Err(BadValue)
    else Ok(PkceChallenge(value, challengeMethod))
  }

  predicate IsValidCodeVerifier(verifier: string) {
    MIN_LEN <= |verifier| <= MAX_LEN && MatchesUnreserved(verifier)
  }

  /** SHA-256 is a parameter: any function to 32 bytes. */
  type Digest = string -> Bytes32

  function Verify(sha256: Digest, verifier: string, challenge: PkceChallenge): bool {
    IsValidCodeVerifier(verifier) && Unpadded(sha256(verifier)) == challenge.value
  }

  /** The challenge a client derives from its verifier. */
  function S256(sha256: Digest, verifier: string): string { Unpadded(sha256(verifier)) }

  /** 43 to 128 letters, digits, `-`, `.`, `_` and `~`; the last place may also be a newline. */
  ghost predicate IsPkceText(s: string) {
    && 43 <= |s| <= 128
    && (forall i :: 0 <= i < |s| - 1 ==> IsPkceChar(s[i]))
    && (IsPkceChar(s[|s| - 1]) || s[|s| - 1] == '\n')
  }

  ghost predicate IsPkceChar(c: char) {
    'a' <= c <= 'z' || 'A' <= c <= 'Z' || '0' <= c <= '9' || c == '-' || c == '.' || c == '_' || c == '~'
  }

  lemma ShapeIsText(s: string)
    ensures IsValidCodeVerifier(s) <==> IsPkceText(s)
  {
    forall c: char ensures IsUnreserved(c) <==> IsPkceChar(c) {}
  }

  /** A challenge is accepted exactly with method S256 and that text, and is kept as it came;
      anything else is a value error. */
  lemma AcceptedChallenges(value: string, challengeMethod: string)
    ensures var r := MakeChallenge(value, challengeMethod);
            && (r.Ok? <==> challengeMethod == "S256" && IsPkceText(value))
            && (r.Ok? ==> r.value == PkceChallenge(value, "S256"))
            && (r.Err? ==> r.error == BadValue)
  {
    ShapeIsText(value);
  }

  /** Every verifier of that text opens its own challenge; no other verifier opens anything. */
  lemma LegalVerifiersOpen(sha256: Digest, verifier: string, challenge: PkceChallenge)
    ensures IsPkceText(verifier) ==> Verify(sha256, verifier, PkceChallenge(S256(sha256, verifier), "S256"))
    ensures !IsPkceText(verifier) ==> !Verify(sha256, verifier, challenge)
  {
    ShapeIsText(verifier);
  }

  /** Every derived challenge has exactly 43 unreserved characters, so the
      authorization endpoint accepts it. */
  lemma ChallengeIsAccepted(sha256: Digest, verifier: string)
    ensures |S256(sha256, verifier)| == 43 && AllUnreserved(S256(sha256, verifier))
    ensures MakeChallenge(S256(sha256, verifier), "S256") == Ok(PkceChallenge(S256(sha256, verifier), "S256"))
  {
    UnpaddedIsBody(sha256(verifier));
    BodyShape(sha256(verifier));
  }

  /** A verifier opens the challenge built from another one exactly when it has the
      legal shape and the two digests are equal. */
  lemma VerifyIffSameDigest(sha256: Digest, verifier: string, other: string)
    ensures Verify(sha256, verifier, PkceChallenge(S256(sha256, other), "S256"))
            <==> IsPkceText(verifier) && sha256(verifier) == sha256(other)
  {
    ShapeIsText(verifier);
    DecodeUnpadded(sha256(verifier));
    DecodeUnpadded(sha256(other));
  }
}
