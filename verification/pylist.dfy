/** The list operations the string nodes borrow from Python: de-duplication
    by `list(dict.fromkeys(xs))`, the ordering of `str` values, and sorting. */
module PyList {

  predicate NoDuplicates<T(==)>(s: seq<T>) {
    forall i, j | 0 <= i < j < |s| :: s[i] != s[j]
  }

  /** `list(dict.fromkeys(s))`: each value once, at its first occurrence. */
  function Dedup<T(==)>(s: seq<T>): seq<T>
    decreases |s|
  {
    if s == [] then []
    else
      var d := Dedup(s[..|s| - 1]);
      if s[|s| - 1] in d then d else d + [s[|s| - 1]]
  }

  /** De-duplication keeps every value, invents none, and repeats none. */
  lemma {:induction false} DedupSpec<T>(s: seq<T>)
    ensures NoDuplicates(Dedup(s))
    ensures forall x :: x in Dedup(s) <==> x in s
    decreases |s|
  {
    if s != [] {
      var init := s[..|s| - 1];
      DedupSpec(init);
      forall x ensures x in s <==> x in init || x == s[|s| - 1] {
        assert s == init + [s[|s| - 1]];
      }
    }
  }

  /** A list without repeats is left as it is. */
  lemma {:induction false} DedupOfDistinct<T>(s: seq<T>)
    requires NoDuplicates(s)
    ensures Dedup(s) == s
    decreases |s|
  {
    if s != [] {
      var init := s[..|s| - 1];
      DedupOfDistinct(init);
      assert s == init + [s[|s| - 1]];
    }
  }

  // ---------------------------------------------------------------- ordering

  /** Python's `a <= b` on `str`: code point by code point, a proper prefix first. */
  predicate StrLe(a: string, b: string)
    decreases |a|
  {
    if a == [] then true
    else if b == [] then false
    else if a[0] != b[0] then a[0] < b[0]
    else StrLe(a[1..], b[1..])
  }

  lemma {:induction false} StrLeTotal(a: string, b: string)
    ensures StrLe(a, b) || StrLe(b, a)
    decreases |a|
  {
    if a != [] && b != [] && a[0] == b[0] {
      StrLeTotal(a[1..], b[1..]);
    }
  }

  lemma {:induction false} StrLeTransitive(a: string, b: string, c: string)
    requires StrLe(a, b) && StrLe(b, c)
    ensures StrLe(a, c)
    decreases |a|
  {
    if a != [] && b != [] && c != [] && a[0] == b[0] && b[0] == c[0] {
      StrLeTransitive(a[1..], b[1..], c[1..]);
    }
  }

  predicate SortedStr(s: seq<string>) {
    forall i, j | 0 <= i < j < |s| :: StrLe(s[i], s[j])
  }

  /** Puts `x` into a sorted list before the first element it does not exceed. */
  function Insert(x: string, s: seq<string>): (r: seq<string>)
    ensures |r| == |s| + 1
    decreases |s|
  {
    if s == [] || StrLe(x, s[0]) then [x] + s else [s[0]] + Insert(x, s[1..])
  }

  /** `sorted(s)` / `s.sort()`. */
  function Sort(s: seq<string>): (r: seq<string>)
    ensures |r| == |s|
    decreases |s|
  {
    if s == [] then [] else Insert(s[0], Sort(s[1..]))
  }

  lemma {:induction false} InsertPermutes(x: string, s: seq<string>)
    ensures multiset(Insert(x, s)) == multiset(s) + multiset{x}
    decreases |s|
  {
    if s != [] && !StrLe(x, s[0]) {
      InsertPermutes(x, s[1..]);
      assert s == [s[0]] + s[1..];
    }
  }

  /** `y` below every element of `s`. */
  predicate Below(y: string, s: seq<string>) {
    forall k | 0 <= k < |s| :: StrLe(y, s[k])
  }

  /** A sorted list stays sorted with a lower bound put in front of it. */
  lemma SortedCons(y: string, t: seq<string>)
    requires SortedStr(t) && Below(y, t)
    ensures SortedStr([y] + t)
  {
    var r := [y] + t;
    forall i, j | 0 <= i < j < |r| ensures StrLe(r[i], r[j]) {
      assert r[j] == t[j - 1];
      if i > 0 {
        assert r[i] == t[i - 1];
      }
    }
  }

  /** A bound below `x` and below every element of `s` stays below after
      inserting `x`. */
  lemma {:induction false} InsertBelow(y: string, x: string, s: seq<string>)
    requires StrLe(y, x) && Below(y, s)
    ensures Below(y, Insert(x, s))
    decreases |s|
  {
    if s != [] && !StrLe(x, s[0]) {
      InsertBelow(y, x, s[1..]);
      assert Below(y, [s[0]] + Insert(x, s[1..])) by {
        assert StrLe(y, s[0]);
      }
    }
  }

  /** Inserting into a sorted list keeps it sorted. */
  lemma {:induction false} InsertSorted(x: string, s: seq<string>)
    requires SortedStr(s)
    ensures SortedStr(Insert(x, s))
    decreases |s|
  {
    if s == [] {
    } else if StrLe(x, s[0]) {
      forall k | 0 <= k < |s| ensures StrLe(x, s[k]) {
        if k > 0 {
          StrLeTransitive(x, s[0], s[k]);
        }
      }
      SortedCons(x, s);
    } else {
      var rest := s[1..];
      InsertSorted(x, rest);
      StrLeTotal(x, s[0]);
      assert Below(s[0], rest) by {
        forall k | 0 <= k < |rest| ensures StrLe(s[0], rest[k]) {
          assert rest[k] == s[k + 1];
        }
      }
      InsertBelow(s[0], x, rest);
      SortedCons(s[0], Insert(x, rest));
    }
  }

  /** Sorting gives an ordered permutation. */
  lemma {:induction false} SortSpec(s: seq<string>)
    ensures SortedStr(Sort(s))
    ensures multiset(Sort(s)) == multiset(s)
    ensures |Sort(s)| == |s|
    decreases |s|
  {
    if s != [] {
      SortSpec(s[1..]);
      InsertSorted(s[0], Sort(s[1..]));
      InsertPermutes(s[0], Sort(s[1..]));
      assert s == [s[0]] + s[1..];
    }
  }
}
