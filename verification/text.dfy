/** The pieces of Python's `str` API that the nodes use, over `string`
    (a sequence of Unicode code points): whitespace, strip, find, split,
    join, splitlines, whitespace splitting and integer formatting. */
module Text {
  import opened Wrappers

  /** Python's `str.isspace` for a single character. */
  predicate IsSpace(c: char) {
    || c == ' '
    || ('\t' <= c <= '\r')
    || ('\U{1c}' <= c <= '\U{1f}')
    || c == '\U{85}' || c == '\U{a0}' || c == '\U{1680}'
    || ('\U{2000}' <= c <= '\U{200a}')
    || c == '\U{2028}' || c == '\U{2029}' || c == '\U{202f}' || c == '\U{205f}' || c == '\U{3000}'
  }

  /** The line boundaries of Python's `str.splitlines`. */
  predicate IsLineBreak(c: char) {
    || c == '\n' || c == '\r' || c == '\U{0b}' || c == '\U{0c}'
    || ('\U{1c}' <= c <= '\U{1e}')
    || c == '\U{85}' || c == '\U{2028}' || c == '\U{2029}'
  }

  /** ASCII lower-casing; every other character is left as it is. */
  function Lower(c: char): char {
    if 'A' <= c <= 'Z' then (c as int + 32) as char else c
  }

  /** A string that Python's `strip()` reduces to "". */
  predicate IsBlank(s: string) {
    forall i | 0 <= i < |s| :: IsSpace(s[i])
  }

  // ---------------------------------------------------------------- trimming

  /** Drops the longest prefix whose characters all satisfy `drop`. */
  function TrimStart(s: string, drop: char -> bool): (r: string)
    ensures |r| <= |s| && r == s[|s| - |r|..]
    ensures r == "" || !drop(r[0])
  {
    if s != "" && drop(s[0]) then TrimStart(s[1..], drop) else s
  }

  /** What `TrimStart` drops consists of characters satisfying `drop`. */
  lemma {:induction false} TrimStartDrops(s: string, drop: char -> bool)
    ensures forall i | 0 <= i < |s| - |TrimStart(s, drop)| :: drop(s[i])
    decreases |s|
  {
    if s != "" && drop(s[0]) {
      var t := s[1..];
      TrimStartDrops(t, drop);
      forall i | 1 <= i < |s| - |TrimStart(s, drop)| ensures drop(s[i]) {
        assert s[i] == t[i - 1];
      }
    }
  }

  /** Drops the longest suffix whose characters all satisfy `drop`. */
  function TrimEnd(s: string, drop: char -> bool): (r: string)
    ensures |r| <= |s| && r == s[..|r|]
    ensures r == "" || !drop(r[|r| - 1])
    ensures forall i | |r| <= i < |s| :: drop(s[i])
  {
    if s != "" && drop(s[|s| - 1]) then TrimEnd(s[..|s| - 1], drop) else s
  }

  /** Python's `s.strip(chars)`, `drop` telling which characters are in `chars`. */
  function Trim(s: string, drop: char -> bool): (r: string)
    ensures r == "" || (!drop(r[0]) && !drop(r[|r| - 1]))
    ensures var a := |s| - |TrimStart(s, drop)|;
      && a + |r| <= |s| && r == s[a..a + |r|]
      && (forall i | 0 <= i < a :: drop(s[i]))
      && (forall i | a + |r| <= i < |s| :: drop(s[i]))
  {
    TrimStartDrops(s, drop);
    TrimEnd(TrimStart(s, drop), drop)
  }

  /** Python's `s.strip()`. */
  function Strip(s: string): string {
    Trim(s, IsSpace)
  }

  /** Python's `s.strip(chars)` with an explicit character list. */
  function StripChars(s: string, chars: string): string {
    Trim(s, c => c in chars)
  }

  /** Python's `s.rstrip(chars)`. */
  function RStripChars(s: string, chars: string): string {
    TrimEnd(s, c => c in chars)
  }

  /** `strip()` leaves "" exactly when the string is blank. */
  lemma StripEmptyIffBlank(s: string)
    ensures Strip(s) == "" <==> IsBlank(s)
  {
    var a := |s| - |TrimStart(s, IsSpace)|;
    if Strip(s) == "" {
      forall i | 0 <= i < |s| ensures IsSpace(s[i]) {
        if i >= a {
          assert a + |Strip(s)| <= i;
        }
      }
    } else {
      assert !IsSpace(s[a]);
    }
  }

  // ----------------------------------------------------------------- search

  predicate OccursAt(s: string, t: string, i: nat) {
    i + |t| <= |s| && s[i..i + |t|] == t
  }

  /** The first occurrence of `t` in `s` at or after `from`. */
  function FindFrom(s: string, t: string, from: nat): (r: Option<nat>)
    ensures r.Some? ==> from <= r.value && OccursAt(s, t, r.value)
    ensures r.Some? ==> forall q: nat | from <= q < r.value :: !OccursAt(s, t, q)
    ensures r.None? ==> forall q: nat | from <= q :: !OccursAt(s, t, q)
    decreases |s| - from
  {
    if from + |t| > |s| then None
    else if s[from..from + |t|] == t then Some(from)
    else FindFrom(s, t, from + 1)
  }

  /** The last occurrence of `t` in `s` at or before `upto`. */
  function FindLastFrom(s: string, t: string, upto: int): (r: Option<nat>)
    ensures r.Some? ==> r.value <= upto && OccursAt(s, t, r.value)
    ensures r.Some? ==> forall q: nat | r.value < q <= upto :: !OccursAt(s, t, q)
    ensures r.None? ==> forall q: nat | q <= upto :: !OccursAt(s, t, q)
    decreases upto + 1
  {
    if upto < 0 then None
    else if OccursAt(s, t, upto) then Some(upto)
    else FindLastFrom(s, t, upto - 1)
  }

  /** Python's `t in s`. */
  predicate Contains(s: string, t: string) {
    FindFrom(s, t, 0).Some?
  }

  predicate StartsWith(s: string, p: string) {
    |p| <= |s| && s[..|p|] == p
  }

  predicate EndsWith(s: string, p: string) {
    |p| <= |s| && s[|s| - |p|..] == p
  }

  /** Python's `s.count(c)` for a single character. */
  function Count(s: string, c: char): nat {
    if s == "" then 0 else Count(s[..|s| - 1], c) + (if s[|s| - 1] == c then 1 else 0)
  }

  /** An occurrence inside a slice is an occurrence in the whole string. */
  lemma OccursInSlice(s: string, t: string, a: nat, b: nat, q: nat)
    requires a <= b <= |s| && OccursAt(s[a..b], t, q)
    ensures OccursAt(s, t, a + q)
  {
    var u := s[a..b];
    forall i | 0 <= i < |t| ensures s[a + q + i] == t[i] {
      assert t[i] == u[q..q + |t|][i] == u[q + i];
    }
    assert s[a + q..a + q + |t|] == t;
  }

  /** Appending characters none of which ends `t` creates no occurrence of `t`. */
  lemma NoOccurrenceAppended(x: string, y: string, t: string)
    requires t != "" && !Contains(x, t)
    requires forall i | 0 <= i < |y| :: y[i] != t[|t| - 1]
    ensures !Contains(x + y, t)
  {
    var s := x + y;
    if Contains(s, t) {
      var q := FindFrom(s, t, 0).value;
      var e := q + |t| - 1;
      assert s[e] == s[q..q + |t|][|t| - 1] == t[|t| - 1];
      if e < |x| {
        assert s[q..q + |t|] == x[q..q + |t|];
        assert OccursAt(x, t, q);
      }
    }
  }

  /** Prepending characters none of which starts `t` creates no occurrence of `t`. */
  lemma NoOccurrencePrepended(y: string, x: string, t: string)
    requires t != "" && !Contains(x, t)
    requires forall i | 0 <= i < |y| :: y[i] != t[0]
    ensures !Contains(y + x, t)
  {
    var s := y + x;
    if Contains(s, t) {
      var q := FindFrom(s, t, 0).value;
      assert s[q] == s[q..q + |t|][0] == t[0];
      if q >= |y| {
        assert s[q..q + |t|] == x[q - |y|..q - |y| + |t|];
        assert OccursAt(x, t, q - |y|);
      }
    }
  }

  /** In `a + t + b`, `t` is first found right after `a` when `a` followed by
      all of `t` but its last character holds no `t`. */
  lemma FindFirstAt(a: string, t: string, b: string)
    requires t != "" && !Contains(a + t[..|t| - 1], t)
    ensures FindFrom(a + t + b, t, 0) == Some(|a|)
  {
    var s := a + t + b;
    var u := a + t[..|t| - 1];
    assert s[|a|..|a| + |t|] == t;
    forall q: nat | q < |a| ensures !OccursAt(s, t, q) {
      if OccursAt(s, t, q) {
        assert s[q..q + |t|] == u[q..q + |t|];
        assert OccursAt(u, t, q);
      }
    }
    assert OccursAt(s, t, |a|);
    var r := FindFrom(s, t, 0);
    assert r.Some? && !(|a| < r.value) && !(r.value < |a|);
  }

  /** In `a + t + b`, `t` is last found right after `a` when what follows the
      first character of that `t` holds no `t`. */
  lemma FindLastAt(a: string, t: string, b: string)
    requires t != "" && !Contains(t[1..] + b, t)
    ensures FindLastFrom(a + t + b, t, |a + t + b|) == Some(|a|)
  {
    var s := a + t + b;
    var u := t[1..] + b;
    assert s[|a|..|a| + |t|] == t;
    forall q: nat | |a| < q <= |s| ensures !OccursAt(s, t, q) {
      if OccursAt(s, t, q) {
        assert s[q..q + |t|] == u[q - |a| - 1..q - |a| - 1 + |t|];
        assert OccursAt(u, t, q - |a| - 1);
      }
    }
    assert OccursAt(s, t, |a|);
    var r := FindLastFrom(s, t, |s|);
    assert r.Some? && !(|a| < r.value) && !(r.value < |a|);
  }

  // ------------------------------------------------------------ split, join

  /** Python's `sep.join(parts)`. */
  function Join(parts: seq<string>, sep: string): string {
    if |parts| == 0 then ""
    else if |parts| == 1 then parts[0]
    else parts[0] + sep + Join(parts[1..], sep)
  }

  /** Python's `s.split(sep)` for a non-empty separator (an empty one raises). */
  function Split(s: string, sep: string): (r: seq<string>)
    requires sep != ""
    ensures |r| >= 1
    decreases |s|
  {
    match FindFrom(s, sep, 0)
    case None => [s]
    case Some(j) => [s[..j]] + Split(s[j + |sep|..], sep)
  }

  /** Python's `s.split(sep)[0]`. */
  function FirstPiece(s: string, sep: string): string
    requires sep != ""
  {
    Split(s, sep)[0]
  }

  /** Python's `s.split(sep, 1)` unpacked into two names; `None` when the
      unpacking raises because `sep` does not occur. */
  function SplitOnce(s: string, sep: string): Option<(string, string)> {
    match FindFrom(s, sep, 0)
    case None => None
    case Some(j) => Some((s[..j], s[j + |sep|..]))
  }

  /** Python's `s.rsplit(sep, 1)` unpacked into two names. */
  function RSplitOnce(s: string, sep: string): Option<(string, string)> {
    match FindLastFrom(s, sep, |s|)
    case None => None
    case Some(j) => Some((s[..j], s[j + |sep|..]))
  }

  /** Appending text keeps the first occurrence found in the original. */
  lemma FindFromPrefix(a: string, t: string, c: string)
    requires FindFrom(a, t, 0).Some?
    ensures FindFrom(a + c, t, 0) == FindFrom(a, t, 0)
  {
    var j := FindFrom(a, t, 0).value;
    var s := a + c;
    assert s[j..j + |t|] == a[j..j + |t|];
    var r := FindFrom(s, t, 0);
    assert OccursAt(s, t, j);
    if r.value < j {
      assert s[r.value..r.value + |t|] == a[r.value..r.value + |t|];
      assert OccursAt(a, t, r.value);
    }
  }

  /** Concatenation is associative. */
  lemma Associate<T>(a: seq<T>, b: seq<T>, c: seq<T>)
    ensures a + (b + c) == (a + b) + c
  {
  }

  /** When `a` holds no `sep`, the first piece of `a + sep + b` is `a`. */
  lemma SplitAroundFirst(a: string, sep: string, b: string)
    requires |sep| == 2 && sep[0] != sep[1] && FindFrom(a, sep, 0).None?
    ensures Split(a + sep + b, sep) == [a] + Split(b, sep)
  {
    var s := a + sep + b;
    NoOccurrenceAppended(a, sep[..1], sep);
    FindFirstAt(a, sep, b);
    assert s[..|a|] == a && s[|a| + 2..] == b;
  }

  /** When `a` holds `sep` at `j`, so does `a + sep + b`, and the rest after
      it is the rest of `a` glued to `b`. */
  lemma SplitAroundLater(a: string, sep: string, b: string, j: nat)
    requires |sep| == 2 && FindFrom(a, sep, 0) == Some(j)
    ensures Split(a + sep + b, sep) == [a[..j]] + Split(a[j + 2..] + sep + b, sep)
  {
    var s := a + sep + b;
    FindFromPrefix(a, sep, sep + b);
    assert s == a + (sep + b);
    assert s[..j] == a[..j];
    assert s[j + 2..] == a[j + 2..] + sep + b;
  }

  /** Splitting texts glued by a two-character separator whose characters
      differ gives the pieces of each text, one after the other. */
  lemma {:induction false} SplitAround(a: string, sep: string, b: string)
    requires |sep| == 2 && sep[0] != sep[1]
    ensures Split(a + sep + b, sep) == Split(a, sep) + Split(b, sep)
    decreases |a|
  {
    match FindFrom(a, sep, 0)
    case None =>
      SplitAroundFirst(a, sep, b);
      assert Split(a, sep) == [a];
    case Some(j) =>
      var rest := a[j + 2..];
      SplitAroundLater(a, sep, b, j);
      SplitAround(rest, sep, b);
      assert Split(a, sep) == [a[..j]] + Split(rest, sep);
      Associate([a[..j]], Split(rest, sep), Split(b, sep));
  }

  /** Trimming a string that neither starts nor ends with a trimmed
      character leaves it as it is. */
  lemma TrimKeeps(s: string, drop: char -> bool)
    requires s != "" ==> !drop(s[0]) && !drop(s[|s| - 1])
    ensures Trim(s, drop) == s
  {
    assert TrimStart(s, drop) == s;
    assert TrimEnd(s, drop) == s;
  }

  /** Python's `a, b = s.split(sep)`: `None` when the split does not give
      exactly two pieces and the unpacking raises. */
  function SplitPair(s: string, sep: string): Option<(string, string)>
    requires sep != ""
  {
    var pieces := Split(s, sep);
    if |pieces| == 2 then Some((pieces[0], pieces[1])) else None
  }

  /** `a + sep + b` splits back into exactly `a` and `b` when `sep` first
      occurs between them and not at all in `b`. */
  lemma SplitPairAt(a: string, sep: string, b: string)
    requires sep != "" && !Contains(a + sep[..|sep| - 1], sep) && !Contains(b, sep)
    ensures SplitPair(a + sep + b, sep) == Some((a, b))
  {
    var s := a + sep + b;
    FindFirstAt(a, sep, b);
    assert s[..|a|] == a;
    assert s[|a| + |sep|..] == b;
    assert Split(b, sep) == [b];
    assert Split(s, sep) == [a] + [b];
  }

  /** Splitting and joining with the same separator gives the text back. */
  lemma {:induction false} SplitJoin(s: string, sep: string)
    requires sep != ""
    ensures Join(Split(s, sep), sep) == s
    decreases |s|
  {
    var found := FindFrom(s, sep, 0);
    if found.Some? {
      var j := found.value;
      var rest := s[j + |sep|..];
      SplitJoin(rest, sep);
      JoinCons(s[..j], Split(rest, sep), sep);
      Recompose(s, j, j + |sep|);
    }
  }

  lemma Recompose(s: string, j: nat, k: nat)
    requires j <= k <= |s|
    ensures s == s[..j] + s[j..k] + s[k..]
  {
  }

  lemma JoinCons(x: string, rest: seq<string>, sep: string)
    requires |rest| >= 1
    ensures Join([x] + rest, sep) == x + sep + Join(rest, sep)
  {
    assert ([x] + rest)[1..] == rest;
  }

  /** No piece of a split contains the separator. */
  lemma {:induction false} SplitPiecesFree(s: string, sep: string)
    requires sep != ""
    ensures forall k | 0 <= k < |Split(s, sep)| :: !Contains(Split(s, sep)[k], sep)
    decreases |s|
  {
    match FindFrom(s, sep, 0)
    case None =>
    case Some(j) =>
      var rest := s[j + |sep|..];
      SplitPiecesFree(rest, sep);
      if Contains(s[..j], sep) {
        var q := FindFrom(s[..j], sep, 0).value;
        OccursInSlice(s, sep, 0, j, q);
        assert false;
      }
      var r := Split(s, sep);
      assert r == [s[..j]] + Split(rest, sep);
      forall k | 0 <= k < |r| ensures !Contains(r[k], sep) {
        if k > 0 { assert r[k] == Split(rest, sep)[k - 1]; }
      }
  }

  // ------------------------------------------------------------- line split

  /** The first index at or after `from` whose character satisfies `p`, or |s|. */
  function IndexWhere(s: string, from: nat, p: char -> bool): (r: nat)
    requires from <= |s|
    ensures from <= r <= |s|
    ensures r < |s| ==> p(s[r])
    ensures forall q | from <= q < r :: !p(s[q])
    decreases |s| - from
  {
    if from == |s| || p(s[from]) then from else IndexWhere(s, from + 1, p)
  }

  /** Where the line after a boundary at `j` starts: a "\r\n" pair is one
      boundary. */
  function AfterBreak(s: string, j: nat): (r: nat)
    requires j < |s|
    ensures j < r <= |s|
  {
    if s[j] == '\r' && j + 1 < |s| && s[j + 1] == '\n' then j + 2 else j + 1
  }

  /** Python's `s.splitlines()`: a "\r\n" pair is one boundary, and a
      boundary at the very end does not start an extra empty line. */
  function SplitLines(s: string): (r: seq<string>)
    decreases |s|
  {
    if s == "" then []
    else
      var j := IndexWhere(s, 0, IsLineBreak);
      if j == |s| then [s] else [s[..j]] + SplitLines(s[AfterBreak(s, j)..])
  }

  /** `s` holds no line boundary. */
  predicate SingleLine(s: string) {
    forall i | 0 <= i < |s| :: !IsLineBreak(s[i])
  }

  /** What precedes the first line boundary is a single line. */
  lemma FirstLineSingle(s: string)
    ensures SingleLine(s[..IndexWhere(s, 0, IsLineBreak)])
  {
    var j := IndexWhere(s, 0, IsLineBreak);
    forall i | 0 <= i < j ensures !IsLineBreak(s[..j][i]) {
      assert s[..j][i] == s[i];
    }
  }

  /** Putting an element that satisfies `p` in front of elements that all
      do keeps them all satisfying it. */
  lemma EveryCons<T>(x: T, t: seq<T>, p: T -> bool)
    requires p(x) && forall k | 0 <= k < |t| :: p(t[k])
    ensures forall k | 0 <= k < |[x] + t| :: p(([x] + t)[k])
  {
    forall k | 0 <= k < |[x] + t| ensures p(([x] + t)[k]) {
      if k > 0 {
        assert ([x] + t)[k] == t[k - 1];
      }
    }
  }

  /** No line holds a line boundary. */
  lemma {:induction false} SplitLinesNoBreak(s: string)
    ensures forall k | 0 <= k < |SplitLines(s)| :: SingleLine(SplitLines(s)[k])
    decreases |s|
  {
    if s != "" {
      var j := IndexWhere(s, 0, IsLineBreak);
      FirstLineSingle(s);
      if j == |s| {
        assert s[..j] == s;
      } else {
        var rest := s[AfterBreak(s, j)..];
        SplitLinesNoBreak(rest);
        EveryCons(s[..j], SplitLines(rest), SingleLine);
      }
    }
  }

  /** Python's `s.split()` with no argument: the maximal runs of non-whitespace. */
  function Words(s: string): seq<string>
    decreases |s|
  {
    var t := TrimStart(s, IsSpace);
    if t == "" then []
    else
      var n := IndexWhere(t, 0, IsSpace);
      [t[..n]] + Words(t[n..])
  }

  /** Every word is non-empty and holds no whitespace. */
  lemma {:induction false} WordsHaveNoSpace(s: string)
    ensures forall w | w in Words(s) :: w != "" && forall i | 0 <= i < |w| :: !IsSpace(w[i])
    decreases |s|
  {
    var t := TrimStart(s, IsSpace);
    if t != "" {
      var n := IndexWhere(t, 0, IsSpace);
      var first, rest := t[..n], Words(t[n..]);
      WordsHaveNoSpace(t[n..]);
      assert Words(s) == [first] + rest;
      forall w | w in Words(s) ensures w != "" && forall i | 0 <= i < |w| :: !IsSpace(w[i]) {
        if w != first {
          assert w in rest;
        }
      }
    }
  }

  // ------------------------------------------------------------- formatting

  /** Python's `str(n)` for a natural number. */
  function NatToString(n: nat): (r: string)
    ensures r != ""
    ensures forall i | 0 <= i < |r| :: '0' <= r[i] <= '9'
  {
    if n < 10 then [(48 + n) as char]
    else NatToString(n / 10) + [(48 + n % 10) as char]
  }

  /** The value of a string of decimal digits, `int(s)` for such a string. */
  function DigitsValue(s: string): nat {
    if s == "" then 0
    else DigitsValue(s[..|s| - 1]) * 10 + (if '0' <= s[|s| - 1] <= '9' then s[|s| - 1] as int - 48 else 0)
  }

  /** `int(str(n)) == n`. */
  lemma {:induction false} NatToStringValue(n: nat)
    ensures DigitsValue(NatToString(n)) == n
  {
    if n >= 10 {
      NatToStringValue(n / 10);
      var r := NatToString(n);
      assert r[..|r| - 1] == NatToString(n / 10);
    }
  }

  /** Python's `str(i)` for an integer. */
  function IntToString(i: int): string {
    if i < 0 then "-" + NatToString(-i) else NatToString(i)
  }
}
