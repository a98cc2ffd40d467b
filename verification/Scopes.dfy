/** Scope tokens and scope sets (section 3.3 of RFC 6749): the text form used on
    the wire, the text form used in database rows, and how the two relate. */
module Scopes {
  import opened Outcomes

  type ScopeSet = set<string>

  // ---------------------------------------------------------------- tokens

  predicate IsScopeChar(c: char) {
    var n := c as int;
    n == 0x21 || 0x23 <= n <= 0x5B || 0x5D <= n <= 0x7E
  }

  /** The documented grammar: one or more scope characters. */
  predicate IsAbnfToken(s: string) {
    s != "" && forall i :: 0 <= i < |s| ==> IsScopeChar(s[i])
  }

  predicate EndsInNewline(s: string) {
    s != "" && s[|s| - 1] == '\n'
  }

  /** What the constructor accepts: its pattern ends in `$`, which also matches
      just before one trailing newline. */
  predicate IsScopeToken(s: string) {
    IsAbnfToken(s) || (EndsInNewline(s) && IsAbnfToken(s[..|s| - 1]))
  }

  predicate IsScopeSet(ss: ScopeSet) {
    forall s | s in ss :: IsScopeToken(s)
  }

  // ---------------------------------------------------------------- splitting

  predicate IsBlank(c: char) { c == ' ' }

  /** The characters at which Python's argument-less `split` breaks a string. */
  predicate IsPythonSpace(c: char) {
    var n := c as int;
    0x09 <= n <= 0x0D || 0x1C <= n <= 0x20 || n == 0x85 || n == 0xA0 || n == 0x1680 ||
    0x2000 <= n <= 0x200A || n == 0x2028 || n == 0x2029 || n == 0x202F || n == 0x205F || n == 0x3000
  }

  /** Cut at every separator, keeping the empty pieces, as `split(" ")` does. */
  function SplitOn(s: string, sep: char -> bool): (pieces: seq<string>)
    ensures pieces != []
  {
    if s == "" then [""]
    else
      var rest := SplitOn(s[1..], sep);
      if sep(s[0]) then [""] + rest else [[s[0]] + rest[0]] + rest[1..]
  }

  function Words(s: string, sep: char -> bool): set<string> {
    set w | w in SplitOn(s, sep) && w != ""
  }

  ghost predicate Unbroken(s: string, sep: char -> bool) {
    forall i :: 0 <= i < |s| ==> !sep(s[i])
  }

  lemma {:induction false} SplitUnbroken(s: string, sep: char -> bool)
    requires Unbroken(s, sep)
    ensures SplitOn(s, sep) == [s]
  {
    if s != "" {
      assert !sep(s[0]);
      SplitUnbroken(s[1..], sep);
      assert s == [s[0]] + s[1..];
    }
  }

  lemma {:induction false} SplitAtSeparator(a: string, c: char, b: string, sep: char -> bool)
    requires sep(c)
    ensures SplitOn(a + [c] + b, sep) == SplitOn(a, sep) + SplitOn(b, sep)
  {
    var whole := a + [c] + b;
    if a == "" {
      assert whole[1..] == b;
    } else {
      assert whole[1..] == a[1..] + [c] + b;
      SplitAtSeparator(a[1..], c, b, sep);
    }
  }

  /** `w` is a word of `s`: it stands there between separators or the ends, unbroken. Said without
      cutting `s`. */
  ghost predicate IsWordAt(w: string, s: string, i: nat, sep: char -> bool) {
    && w != "" && Unbroken(w, sep) && i + |w| <= |s| && s[i..i + |w|] == w
    && (i == 0 || sep(s[i - 1])) && (i + |w| == |s| || sep(s[i + |w|]))
  }

  ghost predicate IsWordOf(w: string, s: string, sep: char -> bool) {
    exists i: nat :: IsWordAt(w, s, i, sep)
  }

  /** Where the first separator is, or the length. */
  function FirstSeparator(s: string, sep: char -> bool): (k: nat)
    ensures k <= |s| && Unbroken(s[..k], sep) && (k < |s| ==> sep(s[k]))
  {
    if s == "" || sep(s[0]) then 0
    else
      var k := FirstSeparator(s[1..], sep);
      assert s[..k + 1] == [s[0]] + s[1..][..k];
      k + 1
  }

  lemma WordAfter(a: string, c: char, b: string, w: string, i: nat, sep: char -> bool)
    requires sep(c)
    ensures IsWordAt(w, a + [c] + b, |a| + 1 + i, sep) <==> IsWordAt(w, b, i, sep)
  {
    var s := a + [c] + b;
    if i + |w| <= |b| { assert s[|a| + 1 + i..|a| + 1 + i + |w|] == b[i..i + |w|]; }
    assert i > 0 && i <= |b| ==> s[|a| + i] == b[i - 1];
    assert i + |w| < |b| ==> s[|a| + 1 + i + |w|] == b[i + |w|];
  }

  lemma WordUpTo(a: string, c: char, b: string, w: string, i: nat, sep: char -> bool)
    requires Unbroken(a, sep) && sep(c) && i <= |a|
    ensures IsWordAt(w, a + [c] + b, i, sep) <==> i == 0 && w == a && a != ""
  {
    var s := a + [c] + b;
    assert s[0..|a|] == a && s[|a|] == c;
    assert forall k :: 0 <= k < |a| ==> s[k] == a[k];
    if IsWordAt(w, s, i, sep) {
      assert forall k :: 0 <= k < |w| ==> w[k] == s[i..i + |w|][k] == s[i + k];
      assert Unbroken(w, sep);
    }
  }

  lemma WordsAroundSeparator(a: string, c: char, b: string, w: string, sep: char -> bool)
    requires Unbroken(a, sep) && sep(c)
    ensures IsWordOf(w, a + [c] + b, sep) <==> (w == a && a != "") || IsWordOf(w, b, sep)
  {
    var s := a + [c] + b;
    if i: nat :| IsWordAt(w, s, i, sep) {
      if i <= |a| { WordUpTo(a, c, b, w, i, sep); } else { WordAfter(a, c, b, w, i - |a| - 1, sep); }
    }
    WordUpTo(a, c, b, w, 0, sep);
    if i: nat :| IsWordAt(w, b, i, sep) { WordAfter(a, c, b, w, i, sep); }
  }

  /** Cutting yields exactly the words. */
  lemma {:induction false} CutIntoWords(s: string, w: string, sep: char -> bool)
    ensures w in Words(s, sep) <==> IsWordOf(w, s, sep)
    decreases |s|
  {
    var k := FirstSeparator(s, sep);
    if k == |s| {
      assert s[..k] == s;
      SplitUnbroken(s, sep);
      if w == s && w != "" { assert IsWordAt(w, s, 0, sep); }
    } else {
      var a, b := s[..k], s[k + 1..];
      assert s == a + [s[k]] + b;
      SplitUnbroken(a, sep);
      SplitAtSeparator(a, s[k], b, sep);
      CutIntoWords(b, w, sep);
      WordsAroundSeparator(a, s[k], b, w, sep);
    }
  }

  // ---------------------------------------------------------------- printing

  predicate LexLeq(a: string, b: string) {
    a == "" || (b != "" && (a[0] < b[0] || (a[0] == b[0] && LexLeq(a[1..], b[1..]))))
  }

  lemma {:induction false} LexTotal(a: string, b: string)
    ensures LexLeq(a, b) || LexLeq(b, a)
    ensures LexLeq(a, b) && LexLeq(b, a) ==> a == b
  {
    if a != "" && b != "" {
      LexTotal(a[1..], b[1..]);
      assert a == [a[0]] + a[1..] && b == [b[0]] + b[1..];
    }
  }

  lemma {:induction false} LexTransitive(a: string, b: string, c: string)
    requires LexLeq(a, b) && LexLeq(b, c)
    ensures LexLeq(a, c)
  {
    if a != "" && a[0] == b[0] == c[0] {
      LexTransitive(a[1..], b[1..], c[1..]);
    }
  }

  /** Strings `a` and `b` agree up to `k`, where `a` has ended or has the smaller character. */
  ghost predicate PrecedesAt(a: string, b: string, k: nat) {
    k <= |a| && k < |b| && a[..k] == b[..k] && (k == |a| || a[k] < b[k])
  }

  /** By code point. */
  ghost predicate Precedes(a: string, b: string) {
    exists k: nat :: PrecedesAt(a, b, k)
  }

  lemma PrecedesTail(a: string, b: string, k: nat)
    requires a != "" && b != "" && a[0] == b[0]
    ensures PrecedesAt(a, b, k + 1) <==> PrecedesAt(a[1..], b[1..], k)
  {
    if k + 1 <= |a| && k + 1 < |b| {
      assert a[..k + 1] == [a[0]] + a[1..][..k] && b[..k + 1] == [b[0]] + b[1..][..k];
    }
  }

  lemma {:induction false} LexIsByCodePoint(a: string, b: string)
    ensures Precedes(a, b) <==> LexLeq(a, b) && a != b
  {
    if a == "" || b == "" || a[0] != b[0] {
      assert PrecedesAt(a, b, 0) <==> b != "" && (a == "" || a[0] < b[0]);
      assert forall k: nat :: 0 < k <= |a| && k <= |b| ==> a[..k][0] == a[0] && b[..k][0] == b[0];
      assert Precedes(a, b) ==> PrecedesAt(a, b, 0);
    } else {
      LexIsByCodePoint(a[1..], b[1..]);
      assert a == [a[0]] + a[1..] && b == [b[0]] + b[1..];
      if k: nat :| PrecedesAt(a, b, k) { PrecedesTail(a, b, k - 1); }
      if k: nat :| PrecedesAt(a[1..], b[1..], k) { PrecedesTail(a, b, k); }
    }
  }

  predicate IsLeast(m: string, ss: set<string>) {
    m in ss && forall x | x in ss :: LexLeq(m, x)
  }

  lemma {:induction false} LeastExists(ss: set<string>) returns (m: string)
    requires ss != {}
    ensures IsLeast(m, ss)
    decreases |ss|
  {
    var x :| x in ss;
    var rest := ss - {x};
    LexTotal(x, x);
    if rest == {} {
      assert ss == rest + {x};
      m := x;
    } else {
      var n := LeastExists(rest);
      LexTotal(x, n);
      m := if LexLeq(x, n) then x else n;
      forall y | y in ss ensures LexLeq(m, y) {
        if y != x && m == x { LexTransitive(x, n, y); }
      }
    }
  }

  lemma LeastIsUnique(ss: set<string>)
    requires ss != {}
    ensures exists m :: IsLeast(m, ss)
    ensures forall a, b | IsLeast(a, ss) && IsLeast(b, ss) :: a == b
  {
    var m := LeastExists(ss);
    forall a, b | IsLeast(a, ss) && IsLeast(b, ss) ensures a == b { LexTotal(a, b); }
  }

  /** Python's `sorted` on a set of strings: by code point, least first. */
  function Sorted(ss: set<string>): (r: seq<string>)
    ensures Increasing(r)
    ensures forall s :: s in r <==> s in ss
    decreases |ss|
  {
    if ss == {} then []
    else
      LeastIsUnique(ss);
      var m :| IsLeast(m, ss);
      var rest := Sorted(ss - {m});
      assert forall i :: 0 <= i < |rest| ==> Precedes(m, rest[i]) by {
        forall i | 0 <= i < |rest| ensures Precedes(m, rest[i]) {
          assert rest[i] in ss - {m};
          LexIsByCodePoint(m, rest[i]);
        }
      }
      [m] + rest
  }

  ghost predicate Increasing(r: seq<string>) {
    forall i, j :: 0 <= i < j < |r| ==> Precedes(r[i], r[j])
  }

  lemma FirstIsMember(b: seq<string>)
    ensures b == [] || b[0] in b
  {}

  /** An increasing list is determined by its elements. */
  lemma {:induction false} IncreasingUnique(a: seq<string>, b: seq<string>)
    requires Increasing(a) && Increasing(b)
    requires forall s :: s in a <==> s in b
    ensures a == b
  {
    if a == [] {
      FirstIsMember(b);
    } else {
      assert a[0] in b && b != [];
      assert b[0] in a;
      LexTotal(a[0], b[0]);
      assert a[0] == b[0];
      assert forall s :: s in a[1..] <==> s in a && s != a[0] by { Head(a); }
      assert forall s :: s in b[1..] <==> s in b && s != b[0] by { Head(b); }
      IncreasingUnique(a[1..], b[1..]);
      assert a == [a[0]] + a[1..] && b == [b[0]] + b[1..];
    }
  }

  lemma Head(a: seq<string>)
    requires a != [] && Increasing(a)
    ensures forall s :: s in a[1..] <==> s in a && s != a[0]
  {
    forall s | s in a && s != a[0] ensures s in a[1..] {
      var i :| 0 <= i < |a| && a[i] == s;
      assert a[1..][i - 1] == s;
    }
  }

  function Join(ts: seq<string>): string {
    if ts == [] then ""
    else if |ts| == 1 then ts[0]
    else ts[0] + [' '] + Join(ts[1..])
  }

  function ToStr(ss: ScopeSet): string { Join(Sorted(ss)) }

  function Parse(raw: Option<string>): (r: Result<ScopeSet>)
    ensures r.Ok? ==> IsScopeSet(r.value)
    ensures r.Err? ==> r.error == BadValue
  {
    if raw.None? || raw.value == "" then Ok({})
    else
      var toks := Words(raw.value, IsBlank);
      if IsScopeSet(toks) then Ok(toks) else Err(BadValue)
  }

  /** Printable ASCII but for the blank, the double quote and the backslash. */
  ghost predicate IsTokenChar(c: char) {
    '!' <= c <= '~' && c != '"' && c != '\\'
  }

  /** One or more such characters, and perhaps one newline at the end. */
  ghost predicate IsTokenText(w: string) {
    var body := if w != "" && w[|w| - 1] == '\n' then w[..|w| - 1] else w;
    body != "" && forall c | c in body :: IsTokenChar(c)
  }

  lemma TokensAreText(w: string)
    ensures IsScopeToken(w) <==> IsTokenText(w)
  {
    forall c: char ensures IsTokenChar(c) <==> IsScopeChar(c) {}
    var body := if EndsInNewline(w) then w[..|w| - 1] else w;
    assert IsAbnfToken(body) <==> body != "" && forall c | c in body :: IsTokenChar(c);
    assert IsAbnfToken(w) ==> IsScopeChar(w[|w| - 1]);
  }

  /** `w` stands in `text` at `i`, between blanks or the ends, with no blank in it. */
  ghost predicate StandsAt(w: string, text: string, i: nat) {
    && w != "" && ' ' !in w && i + |w| <= |text| && text[i..i + |w|] == w
    && (i == 0 || text[i - 1] == ' ') && (i + |w| == |text| || text[i + |w|] == ' ')
  }

  ghost predicate StandsIn(w: string, text: string) {
    exists i: nat :: StandsAt(w, text, i)
  }

  /** A scope parameter is accepted exactly when all that stands in it between blanks are tokens,
      and then exactly these are the set; otherwise it is a value error. A missing parameter is the
      empty text. */
  lemma ParseTakesTheWords(raw: Option<string>)
    ensures var text := if raw.None? then "" else raw.value;
            && (Parse(raw).Ok? <==> forall w | StandsIn(w, text) :: IsTokenText(w))
            && (Parse(raw).Ok? ==> forall w :: w in Parse(raw).value <==> StandsIn(w, text))
            && (Parse(raw).Err? ==> Parse(raw).error == BadValue)
  {
    var text := if raw.None? then "" else raw.value;
    forall w ensures w in Words(text, IsBlank) <==> StandsIn(w, text) {
      CutIntoWords(text, w, IsBlank);
      forall i: nat ensures IsWordAt(w, text, i, IsBlank) <==> StandsAt(w, text, i) {}
    }
    forall w ensures IsScopeToken(w) <==> IsTokenText(w) { TokensAreText(w); }
  }

  /** Splitting a join yields the pieces of each part, in order. */
  lemma {:induction false} SplitJoin(ts: seq<string>, sep: char -> bool)
    requires ts != [] && sep(' ')
    ensures forall w :: w in SplitOn(Join(ts), sep) <==> exists i :: 0 <= i < |ts| && w in SplitOn(ts[i], sep)
  {
    if |ts| > 1 {
      SplitAtSeparator(ts[0], ' ', Join(ts[1..]), sep);
      SplitJoin(ts[1..], sep);
      forall w ensures w in SplitOn(Join(ts), sep) <==> exists i :: 0 <= i < |ts| && w in SplitOn(ts[i], sep) {
        if i :| 0 <= i < |ts| && w in SplitOn(ts[i], sep) {
          if i > 0 { assert ts[1..][i - 1] == ts[i]; }
        }
        if i :| 0 <= i < |ts[1..]| && w in SplitOn(ts[1..][i], sep) { assert ts[i + 1] == ts[1..][i]; }
      }
    }
  }

  lemma WordsOfPrinted(ss: ScopeSet, sep: char -> bool)
    requires sep(' ')
    ensures forall w :: w in Words(ToStr(ss), sep) <==> exists t :: t in ss && w in Words(t, sep)
  {
    var ts := Sorted(ss);
    if ts == [] {
      assert ss == {} by { if s :| s in ss { assert s in ts; } }
    } else {
      SplitJoin(ts, sep);
      forall w | exists t :: t in ss && w in Words(t, sep) ensures w in Words(ToStr(ss), sep) {
        var t :| t in ss && w in Words(t, sep);
        assert t in ts;
        var i :| 0 <= i < |ts| && ts[i] == t;
        assert w in SplitOn(ts[i], sep);
      }
      forall w | w in Words(ToStr(ss), sep) ensures exists t :: t in ss && w in Words(t, sep) {
        var i :| 0 <= i < |ts| && w in SplitOn(ts[i], sep);
        assert ts[i] in ss && w in Words(ts[i], sep);
      }
    }
  }

  // ---------------------------------------------------------------- the wire form

  /** Printing then parsing gives the set back, for every set of tokens the
      constructor accepts. */
  lemma ParseToStr(ss: ScopeSet)
    requires IsScopeSet(ss)
    ensures Parse(Some(ToStr(ss))) == Ok(ss)
  {
    WordsOfPrinted(ss, IsBlank);
    forall t | t in ss ensures Words(t, IsBlank) == {t} { SplitUnbroken(t, IsBlank); }
    assert Words(ToStr(ss), IsBlank) == ss;
    if ToStr(ss) == "" {
      assert Words("", IsBlank) == {};
    }
  }

  /** Text `r` is the tokens of `ts` in this order with one blank between neighbours. */
  ghost predicate IsLaidOut(r: string, ts: seq<string>)
    decreases |ts|
  {
    if ts == [] then r == ""
    else if |ts| == 1 then r == ts[0]
    else exists rest :: r == ts[0] + " " + rest && IsLaidOut(rest, ts[1..])
  }

  /** The normal form, said without parsing or printing: tokens in strictly increasing order by
      code point, one blank between neighbours. */
  ghost predicate IsNormalForm(r: string) {
    exists ts :: Increasing(ts) && (forall i :: 0 <= i < |ts| ==> IsTokenText(ts[i])) && IsLaidOut(r, ts)
  }

  lemma {:induction false} JoinIsLaidOut(r: string, ts: seq<string>)
    ensures IsLaidOut(r, ts) <==> r == Join(ts)
    decreases |ts|
  {
    if |ts| > 1 {
      JoinIsLaidOut(Join(ts[1..]), ts[1..]);
      if rest :| r == ts[0] + " " + rest && IsLaidOut(rest, ts[1..]) { JoinIsLaidOut(rest, ts[1..]); }
    }
  }

  lemma NormalForm(r: string)
    requires Parse(Some(r)).Ok?
    ensures IsNormalForm(ToStr(Parse(Some(r)).value))
    ensures ToStr(Parse(Some(r)).value) == r <==> IsNormalForm(r)
  {
    var ss := Parse(Some(r)).value;
    forall i | 0 <= i < |Sorted(ss)| ensures IsTokenText(Sorted(ss)[i]) {
      assert Sorted(ss)[i] in ss;
      TokensAreText(Sorted(ss)[i]);
    }
    JoinIsLaidOut(ToStr(ss), Sorted(ss));
    if IsNormalForm(r) {
      var ts :| Increasing(ts) && (forall i :: 0 <= i < |ts| ==> IsTokenText(ts[i])) && IsLaidOut(r, ts);
      JoinIsLaidOut(r, ts);
      var elems := set t | t in ts;
      forall t | t in elems ensures IsScopeToken(t) { TokensAreText(t); }
      assert Sorted(elems) == ts by { IncreasingUnique(Sorted(elems), ts); }
      ParseToStr(elems);
    }
  }

  /** Two requests mean the same scope exactly when their normal forms coincide. */
  lemma SameScopeIffSameNormalForm(r1: string, r2: string)
    requires Parse(Some(r1)).Ok? && Parse(Some(r2)).Ok?
    ensures Parse(Some(r1)) == Parse(Some(r2)) <==> ToStr(Parse(Some(r1)).value) == ToStr(Parse(Some(r2)).value)
  {
    ParseToStr(Parse(Some(r1)).value);
    ParseToStr(Parse(Some(r2)).value);
  }

  // ---------------------------------------------------------------- the row form

  /** How a repository reads the scope column back. */
  function ScopeOfRow(text: string): (r: Result<ScopeSet>) {
    var toks := Words(text, IsPythonSpace);
    if IsScopeSet(toks) then Ok(toks) else Err(BadValue)
  }

  /** No scope in the set ends in a newline. */
  predicate IsRowSafe(ss: ScopeSet) {
    forall s | s in ss :: !EndsInNewline(s)
  }

  function Chomp(s: string): string {
    if EndsInNewline(s) then s[..|s| - 1] else s
  }

  lemma RowWordsOfToken(t: string)
    requires IsScopeToken(t)
    ensures Words(t, IsPythonSpace) == {Chomp(t)} && IsAbnfToken(Chomp(t))
  {
    if IsAbnfToken(t) {
      SplitUnbroken(t, IsPythonSpace);
    } else {
      var body := t[..|t| - 1];
      assert t == body + ['\n'] + "";
      SplitAtSeparator(body, '\n', "", IsPythonSpace);
      SplitUnbroken(body, IsPythonSpace);
      assert SplitOn(t, IsPythonSpace) == [body, ""];
    }
  }

  ghost function Chomped(ss: ScopeSet): ScopeSet {
    set t | t in ss :: Chomp(t)
  }

  lemma RowReadsChomped(ss: ScopeSet)
    requires IsScopeSet(ss)
    ensures ScopeOfRow(ToStr(ss)) == Ok(Chomped(ss))
  {
    WordsOfPrinted(ss, IsPythonSpace);
    var words := Words(ToStr(ss), IsPythonSpace);
    forall t | t in ss ensures Words(t, IsPythonSpace) == {Chomp(t)} && IsAbnfToken(Chomp(t)) {
      RowWordsOfToken(t);
    }
    forall w | w in Chomped(ss) ensures w in words && IsScopeToken(w) {
      var t :| t in ss && w == Chomp(t);
      assert w in Words(t, IsPythonSpace);
    }
    forall w | w in words ensures w in Chomped(ss) {
      var t :| t in ss && w in Words(t, IsPythonSpace);
    }
    assert words == Chomped(ss);
  }

  lemma ChompedIsRowSafe(ss: ScopeSet)
    requires IsScopeSet(ss)
    ensures IsRowSafe(Chomped(ss))
  {
    forall w | w in Chomped(ss) ensures !EndsInNewline(w) {
      var t :| t in ss && w == Chomp(t);
      RowWordsOfToken(t);
      assert IsScopeChar(w[|w| - 1]);
    }
  }

  /** A row always reads back, as the set with trailing newlines removed; it is the
      set that was written exactly when no scope ends in a newline. */
  lemma RowRoundTrip(ss: ScopeSet)
    requires IsScopeSet(ss)
    ensures ScopeOfRow(ToStr(ss)) == Ok(Chomped(ss))
    ensures ScopeOfRow(ToStr(ss)) == Ok(ss) <==> IsRowSafe(ss)
  {
    RowReadsChomped(ss);
    ChompedIsRowSafe(ss);
    if IsRowSafe(ss) {
      forall t | t in ss ensures t in Chomped(ss) { assert Chomp(t) == t; }
      assert Chomped(ss) == ss;
    }
  }

  /** The white space of Unicode, as Python counts it. */
  const WHITE_SPACE: set<char> := {
    '\t', '\n', '\U{0B}', '\U{0C}', '\r', '\U{1C}', '\U{1D}', '\U{1E}', '\U{1F}', ' ', '\U{85}', '\U{A0}',
    '\U{1680}', '\U{2000}', '\U{2001}', '\U{2002}', '\U{2003}', '\U{2004}', '\U{2005}', '\U{2006}', '\U{2007}',
    '\U{2008}', '\U{2009}', '\U{200A}', '\U{2028}', '\U{2029}', '\U{202F}', '\U{205F}', '\U{3000}'}

  lemma PythonSpaces(c: char)
    ensures IsPythonSpace(c) <==> c in WHITE_SPACE
  {}

  /** A scope column is read exactly when all that stands in it between white space are tokens, and
      then exactly these are the set. */
  lemma RowTakesTheWords(text: string)
    ensures ScopeOfRow(text).Ok? <==> forall w | IsWordOf(w, text, c => c in WHITE_SPACE) :: IsTokenText(w)
    ensures ScopeOfRow(text).Ok? ==>
              forall w :: w in ScopeOfRow(text).value <==> IsWordOf(w, text, c => c in WHITE_SPACE)
  {
    var isWhite := (c: char) => c in WHITE_SPACE;
    forall c: char ensures IsPythonSpace(c) <==> isWhite(c) { PythonSpaces(c); }
    forall w ensures w in Words(text, IsPythonSpace) <==> IsWordOf(w, text, isWhite) {
      CutIntoWords(text, w, IsPythonSpace);
      forall i: nat ensures IsWordAt(w, text, i, IsPythonSpace) <==> IsWordAt(w, text, i, isWhite) {}
    }
    forall w ensures IsScopeToken(w) <==> IsTokenText(w) { TokensAreText(w); }
  }

  /** Whatever a scope column holds, the set read from it survives being stored again. */
  lemma ReadScopesAreRowSafe(text: string)
    requires ScopeOfRow(text).Ok?
    ensures IsRowSafe(ScopeOfRow(text).value)
  {
    forall w | w in Words(text, IsPythonSpace) ensures !EndsInNewline(w) {
      CutIntoWords(text, w, IsPythonSpace);
      assert !IsPythonSpace(w[|w| - 1]);
    }
  }

  /** A set the constructor accepts and the database does not preserve. */
  lemma RowRoundTripFails()
    ensures IsScopeSet({"read\n"}) && ScopeOfRow(ToStr({"read\n"})) == Ok({"read"})
  {
    assert IsAbnfToken("read");
    assert "read\n"[..4] == "read";
    assert IsScopeSet({"read\n"});
    RowRoundTrip({"read\n"});
    assert Chomp("read\n") == "read";
    assert Chomped({"read\n"}) == {"read"} by { assert "read\n" in {"read\n"}; }
  }
}
