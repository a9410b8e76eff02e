/** The few Python `str` and `list` builtins the command layer relies on:
    `str.isspace`, `str.strip`, `sep.join`, `"c" * n`, `"%-Ns"` padding,
    the ordering of `str` values and `sorted` on a list of them. */
module Text {

  /** Python's `str.isspace` on one character. */
  predicate IsSpace(c: char)
  {
    || c == ' '
    || ('\t' <= c <= '\r')
    || ('\U{1C}' <= c <= '\U{1F}')
    || c == '\U{85}' || c == '\U{A0}' || c == '\U{1680}'
    || ('\U{2000}' <= c <= '\U{200A}')
    || c == '\U{2028}' || c == '\U{2029}' || c == '\U{202F}' || c == '\U{205F}' || c == '\U{3000}'
  }

  predicate SpaceFree(s: string)
  {
    forall i :: 0 <= i < |s| ==> !IsSpace(s[i])
  }

  predicate AllSpace(s: string)
  {
    forall i :: 0 <= i < |s| ==> IsSpace(s[i])
  }

  /** `str.lstrip()`: drops the leading whitespace. */
  function StripLeft(s: string): string
  {
    if s != [] && IsSpace(s[0]) then StripLeft(s[1..]) else s
  }

  /** `str.rstrip()`: drops the trailing whitespace. */
  function StripRight(s: string): string
  {
    if s != [] && IsSpace(s[|s| - 1]) then StripRight(s[..|s| - 1]) else s
  }

  /** What is left after `StripLeft` is a suffix that starts with a
      non-space, and everything removed was whitespace. */
  lemma {:induction false} StripLeftSpec(s: string)
    ensures var r := StripLeft(s);
      && |r| <= |s| && r == s[|s| - |r|..]
      && AllSpace(s[..|s| - |r|])
      && (r == [] || !IsSpace(r[0]))
  {
    if s != [] && IsSpace(s[0]) {
      var tail := s[1..];
      StripLeftSpec(tail);
      var r := StripLeft(tail);
      assert s[..|s| - |r|] == [s[0]] + tail[..|tail| - |r|];
      assert s[|s| - |r|..] == tail[|tail| - |r|..];
    }
  }

  /** What is left after `StripRight` is a prefix that ends with a
      non-space, and everything removed was whitespace. */
  lemma {:induction false} StripRightSpec(s: string)
    ensures var r := StripRight(s);
      && |r| <= |s| && r == s[..|r|]
      && AllSpace(s[|r|..])
      && (r == [] || !IsSpace(r[|r| - 1]))
  {
    if s != [] && IsSpace(s[|s| - 1]) {
      var init := s[..|s| - 1];
      StripRightSpec(init);
      var r := StripRight(init);
      assert s[|r|..] == init[|r|..] + [s[|s| - 1]];
      assert s[..|r|] == init[..|r|];
    }
  }

  /** Python's `s.strip()`. */
  function Strip(s: string): string
  {
    StripRight(StripLeft(s))
  }

  /** A string with no whitespace at either end, followed by whitespace only,
      strips back to itself. */
  lemma StripTrailingSpace(t: string, w: string)
    requires t != [] && !IsSpace(t[0]) && !IsSpace(t[|t| - 1])
    requires AllSpace(w)
    ensures Strip(t + w) == t
  {
    assert (t + w)[0] == t[0];
    StripRightSpace(t, w);
  }

  /** Trailing whitespace after a non-space is what `StripRight` removes. */
  lemma {:induction false} StripRightSpace(t: string, w: string)
    requires t != [] && !IsSpace(t[|t| - 1])
    requires AllSpace(w)
    ensures StripRight(t + w) == t
    decreases |w|
  {
    if w == [] {
      assert t + w == t;
    } else {
      var s := t + w;
      var shorter := w[..|w| - 1];
      assert s[|s| - 1] == w[|w| - 1];
      assert s[..|s| - 1] == t + shorter;
      StripRightSpace(t, shorter);
    }
  }

  /** Python's `sep.join(parts)`. */
  function Join(sep: string, parts: seq<string>): string
  {
    if parts == [] then ""
    else if |parts| == 1 then parts[0]
    else parts[0] + sep + Join(sep, parts[1..])
  }

  lemma {:induction false} JoinSpaceFree(sep: string, parts: seq<string>)
    requires SpaceFree(sep)
    requires forall i :: 0 <= i < |parts| ==> SpaceFree(parts[i])
    ensures SpaceFree(Join(sep, parts))
  {
    if |parts| > 1 {
      JoinSpaceFree(sep, parts[1..]);
    }
  }

  /** The joined string begins with the first part and ends with the last. */
  lemma {:induction false} JoinEnds(sep: string, parts: seq<string>)
    requires parts != []
    ensures |Join(sep, parts)| >= |parts[0]| && Join(sep, parts)[..|parts[0]|] == parts[0]
    ensures |Join(sep, parts)| >= |parts[|parts| - 1]|
    ensures Join(sep, parts)[|Join(sep, parts)| - |parts[|parts| - 1]|..] == parts[|parts| - 1]
  {
    if |parts| > 1 {
      JoinEnds(sep, parts[1..]);
      var rest := Join(sep, parts[1..]);
      assert Join(sep, parts) == (parts[0] + sep) + rest;
    }
  }

  /** Python's `c * n` for a one-character string `c`. */
  function Repeat(c: char, n: nat): (r: string)
  {
    seq(n, _ => c)
  }

  /** Python's `"%-<width>s" % s`: left-justifies `s` in a field of `width`
      characters, padding with spaces and never truncating. */
  function PadRight(s: string, width: nat): (r: string)
    ensures |r| == if |s| < width then width else |s|
    ensures r[..|s|] == s && forall k :: |s| <= k < |r| ==> r[k] == ' '
  {
    if |s| < width then s + Repeat(' ', width - |s|) else s
  }

  /** Python's `a <= b` on `str`: code-point lexicographic order, a proper
      prefix coming first. */
  predicate LessEq(a: string, b: string)
  {
    a == [] || (b != [] && (a[0] < b[0] || (a[0] == b[0] && LessEq(a[1..], b[1..]))))
  }

  lemma {:induction false} LessEqTotal(a: string, b: string)
    ensures LessEq(a, b) || LessEq(b, a)
  {
    if a != [] && b != [] && a[0] == b[0] {
      LessEqTotal(a[1..], b[1..]);
    }
  }

  lemma {:induction false} LessEqAntisymmetric(a: string, b: string)
    requires LessEq(a, b) && LessEq(b, a)
    ensures a == b
  {
    if a != [] && b != [] {
      LessEqAntisymmetric(a[1..], b[1..]);
      assert a == [a[0]] + a[1..] && b == [b[0]] + b[1..];
    }
  }

  lemma {:induction false} LessEqTransitive(a: string, b: string, c: string)
    requires LessEq(a, b) && LessEq(b, c)
    ensures LessEq(a, c)
  {
    if a != [] && a[0] == b[0] && b[0] == c[0] {
      LessEqTransitive(a[1..], b[1..], c[1..]);
    }
  }

  predicate Sorted(s: seq<string>)
  {
    forall i, j :: 0 <= i < j < |s| ==> LessEq(s[i], s[j])
  }

  predicate Distinct(s: seq<string>)
  {
    forall i, j :: 0 <= i < j < |s| ==> s[i] != s[j]
  }

  lemma PrependSorted(y: string, t: seq<string>)
    requires Sorted(t)
    requires forall z :: z in t ==> LessEq(y, z)
    ensures Sorted([y] + t)
  {
  }

  /** Inserts `x` into the sorted list `s` at its place. */
  function Insert(x: string, s: seq<string>): (r: seq<string>)
    requires Sorted(s)
    ensures Sorted(r)
    ensures multiset(r) == multiset(s) + multiset{x}
  {
    if s == [] then [x]
    else if LessEq(x, s[0]) then
      SortedFront(x, s);
      [x] + s
    else
      var r := Insert(x, s[1..]);
      SortedBehind(x, s, r);
      [s[0]] + r
  }

  /** An element no greater than the head of a sorted list can go first. */
  lemma SortedFront(x: string, s: seq<string>)
    requires Sorted(s) && s != [] && LessEq(x, s[0])
    ensures Sorted([x] + s)
  {
    forall z | z in s ensures LessEq(x, z) {
      if z != s[0] {
        LessEqTransitive(x, s[0], z);
      }
    }
    PrependSorted(x, s);
  }

  /** The head of a sorted list can go before the sorted insertion of a
      greater element into its tail. */
  lemma SortedBehind(x: string, s: seq<string>, r: seq<string>)
    requires Sorted(s) && s != [] && !LessEq(x, s[0])
    requires Sorted(r) && multiset(r) == multiset(s[1..]) + multiset{x}
    ensures Sorted([s[0]] + r)
    ensures multiset([s[0]] + r) == multiset(s) + multiset{x}
  {
    LessEqTotal(x, s[0]);
    forall z | z in r ensures LessEq(s[0], z) {
      assert z in multiset(r);
      if z != x {
        assert z in multiset(s[1..]);
      }
    }
    PrependSorted(s[0], r);
    assert s == [s[0]] + s[1..];
  }

  /** Python's `sorted(s)` on a list of `str`. */
  function SortStrings(s: seq<string>): (r: seq<string>)
    ensures Sorted(r)
    ensures multiset(r) == multiset(s)
  {
    if s == [] then []
    else
      assert s == [s[0]] + s[1..];
      Insert(s[0], SortStrings(s[1..]))
  }

  /** Sorting a list that is already sorted leaves it as it is. */
  lemma {:induction false} SortSorted(s: seq<string>)
    requires Sorted(s)
    ensures SortStrings(s) == s
  {
    if s != [] {
      SortSorted(s[1..]);
      assert s == [s[0]] + s[1..];
    }
  }

  /** A list without repetitions holds each of its elements exactly once. */
  lemma {:induction false} DistinctCount(s: seq<string>, x: string)
    requires Distinct(s)
    ensures multiset(s)[x] == if x in s then 1 else 0
  {
    if s != [] {
      DistinctCount(s[1..], x);
      assert s == [s[0]] + s[1..];
    }
  }

  /** A list in which every element occurs at most once has no repetitions. */
  lemma CountDistinct(s: seq<string>)
    requires forall x :: multiset(s)[x] <= 1
    ensures Distinct(s)
  {
    forall i, j | 0 <= i < j < |s| ensures s[i] != s[j] {
      assert s == s[..j] + s[j..];
      assert multiset(s) == multiset(s[..j]) + multiset(s[j..]);
      assert multiset(s)[s[j]] == multiset(s[..j])[s[j]] + multiset(s[j..])[s[j]];
      assert s[i] in multiset(s[..j]) && s[j] in multiset(s[j..]);
    }
  }
}
