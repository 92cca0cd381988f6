/** The few JavaScript built-ins the blog application relies on, stated over
    Dafny sequences: `startsWith`, `trim`, `slice` and `filter`. */
module JsBuiltins {

  datatype Option<T> = None | Some(value: T)

  /** `s.startsWith(p)` */
  predicate StartsWith(s: string, p: string) {
    |p| <= |s| && s[..|p|] == p
  }

  /** A character with an ASCII capital letter lowered; every other
      character stays as it is. */
  function LowerAscii(c: char): (d: char)
    ensures 'A' <= c <= 'Z' ==> 'a' <= d <= 'z' && d as int - c as int == 'a' as int - 'A' as int
    ensures !('A' <= c <= 'Z') ==> d == c
  {
    if 'A' <= c <= 'Z' then (c as int - 'A' as int + 'a' as int) as char else c
  }

  /** `s` with its ASCII capitals lowered. A route's own text, all lower-case
      ASCII here, matches a piece of path under a regular expression's
      case-insensitive flag exactly when it equals that piece lowered this
      way: the flag folds no other character onto an ASCII letter. */
  function AsciiLower(s: string): (r: string)
    ensures |r| == |s|
    ensures forall i :: 0 <= i < |s| ==> r[i] == LowerAscii(s[i])
  {
    seq(|s|, i requires 0 <= i < |s| => LowerAscii(s[i]))
  }

  /** Lowering leaves a string without ASCII capitals as it is, so lowering
      twice is lowering once, and it works character by character, so it
      distributes over concatenation. */
  lemma AsciiLowerFacts(s: string, t: string)
    ensures (forall i :: 0 <= i < |s| ==> !('A' <= s[i] <= 'Z')) ==> AsciiLower(s) == s
    ensures AsciiLower(AsciiLower(s)) == AsciiLower(s)
    ensures AsciiLower(s + t) == AsciiLower(s) + AsciiLower(t)
  {
    assert forall i :: 0 <= i < |s| ==> (s + t)[i] == s[i];
    assert forall i :: |s| <= i < |s| + |t| ==> (s + t)[i] == t[i - |s|];
  }

  /** `lower` is `s` lowered: one character at a time. */
  lemma LowersTo(s: string, lower: string)
    requires |s| == |lower| && forall i :: 0 <= i < |s| ==> LowerAscii(s[i]) == lower[i]
    ensures AsciiLower(s) == lower
  {
  }

  /** The characters `String.prototype.trim` strips: ECMAScript's WhiteSpace
      (including every space separator) and LineTerminator sets. */
  const TrimmableChars: set<char> := {
    '\t', '\n', '\U{000B}', '\U{000C}', '\r', ' ', '\U{00A0}', '\U{1680}',
    '\U{2000}', '\U{2001}', '\U{2002}', '\U{2003}', '\U{2004}', '\U{2005}',
    '\U{2006}', '\U{2007}', '\U{2008}', '\U{2009}', '\U{200A}',
    '\U{2028}', '\U{2029}', '\U{202F}', '\U{205F}', '\U{3000}', '\U{FEFF}'
  }

  predicate IsTrimmable(c: char) {
    c in TrimmableChars
  }

  predicate AllTrimmable(s: string) {
    forall i :: 0 <= i < |s| ==> IsTrimmable(s[i])
  }

  /** `r` is `s` with a blank prefix and a blank suffix cut off. */
  predicate TrimmedFrom(r: string, s: string) {
    exists a, b :: 0 <= a <= b <= |s| && r == s[a..b] && AllTrimmable(s[..a]) && AllTrimmable(s[b..])
  }

  /** A string with no trimmable character at either end. */
  predicate TrimmedForm(t: string) {
    t == [] || (!IsTrimmable(t[0]) && !IsTrimmable(t[|t| - 1]))
  }

  /** What `trim` promises of `r` as the trimmed form of `s`: no longer
      than `s`, cut from it at both ends, empty exactly when `s` is blank,
      and with no trimmable character left at either end. */
  predicate IsTrimOf(r: string, s: string) {
    && |r| <= |s|
    && TrimmedFrom(r, s)
    && (r == [] <==> AllTrimmable(s))
    && TrimmedForm(r)
  }

  /** `s.trim()`: strips trimmable characters from both ends. The result
      is `s` with only trimmable characters cut from its ends, neither
      starts nor ends with one, and is empty exactly when `s` is blank. */
  function Trim(s: string): (r: string)
    ensures IsTrimOf(r, s)
  {
    if |s| > 0 && IsTrimmable(s[0]) then
      var r := Trim(s[1..]);
      TrimFrontStep(r, s);
      r
    else if |s| > 0 && IsTrimmable(s[|s| - 1]) then
      var r := Trim(s[..|s| - 1]);
      TrimBackStep(r, s);
      r
    else
      TrimBase(s);
      s
  }

  /** A string with no trimmable character at either end is its own trim. */
  lemma TrimBase(s: string)
    requires TrimmedForm(s)
    ensures IsTrimOf(s, s)
  {
    assert s == s[0..|s|] && s[..0] == [] && s[|s|..] == [];
  }

  /** The trim of `s[1..]` is the trim of `s` when `s[0]` is trimmable. */
  lemma TrimFrontStep(r: string, s: string)
    requires |s| > 0 && IsTrimmable(s[0])
    requires IsTrimOf(r, s[1..])
    ensures IsTrimOf(r, s)
  {
    assert forall i :: 1 <= i < |s| ==> s[i] == s[1..][i - 1];
    TrimmedFromFront(r, s);
  }

  /** The trim of `s` without its last character is the trim of `s` when
      that character is trimmable. */
  lemma TrimBackStep(r: string, s: string)
    requires |s| > 0 && IsTrimmable(s[|s| - 1])
    requires IsTrimOf(r, s[..|s| - 1])
    ensures IsTrimOf(r, s)
  {
    assert forall i :: 0 <= i < |s| - 1 ==> s[i] == s[..|s| - 1][i];
    TrimmedFromBack(r, s);
  }

  /** Cutting one more blank character off the front keeps the shape. */
  lemma TrimmedFromFront(r: string, s: string)
    requires |s| > 0 && IsTrimmable(s[0])
    requires TrimmedFrom(r, s[1..])
    ensures TrimmedFrom(r, s)
  {
    var a, b :| 0 <= a <= b <= |s| - 1 && r == s[1..][a..b] && AllTrimmable(s[1..][..a]) && AllTrimmable(s[1..][b..]);
    FrontCutAt(r, s, a, b);
  }

  lemma FrontCutAt(r: string, s: string, a: nat, b: nat)
    requires |s| > 0 && IsTrimmable(s[0])
    requires a <= b <= |s| - 1 && r == s[1..][a..b]
    requires AllTrimmable(s[1..][..a]) && AllTrimmable(s[1..][b..])
    ensures r == s[a + 1..b + 1] && AllTrimmable(s[..a + 1]) && AllTrimmable(s[b + 1..])
  {
    var t := s[1..];
    var front := s[..a + 1];
    assert t[a..b] == s[a + 1..b + 1];
    assert front == [s[0]] + t[..a];
    assert s[b + 1..] == t[b..];
    assert AllTrimmable(front) by {
      forall i | 0 <= i < |front| ensures IsTrimmable(front[i]) {
        if i > 0 {
          assert front[i] == t[..a][i - 1];
        }
      }
    }
  }

  /** Cutting one more blank character off the back keeps the shape. */
  lemma TrimmedFromBack(r: string, s: string)
    requires |s| > 0 && IsTrimmable(s[|s| - 1])
    requires TrimmedFrom(r, s[..|s| - 1])
    ensures TrimmedFrom(r, s)
  {
    var a, b :| 0 <= a <= b <= |s| - 1 && r == s[..|s| - 1][a..b]
                && AllTrimmable(s[..|s| - 1][..a]) && AllTrimmable(s[..|s| - 1][b..]);
    BackCutAt(r, s, a, b);
  }

  lemma BackCutAt(r: string, s: string, a: nat, b: nat)
    requires |s| > 0 && IsTrimmable(s[|s| - 1])
    requires a <= b <= |s| - 1 && r == s[..|s| - 1][a..b]
    requires AllTrimmable(s[..|s| - 1][..a]) && AllTrimmable(s[..|s| - 1][b..])
    ensures r == s[a..b] && AllTrimmable(s[..a]) && AllTrimmable(s[b..])
  {
    var t := s[..|s| - 1];
    var back := s[b..];
    assert t[a..b] == s[a..b];
    assert s[..a] == t[..a];
    assert back == t[b..] + [s[|s| - 1]];
    assert AllTrimmable(back) by {
      forall i | 0 <= i < |back| ensures IsTrimmable(back[i]) {
        if i < |t| - b {
          assert back[i] == t[b..][i];
        }
      }
    }
  }

  /** Trimming a trimmed string changes nothing: why a stored (already
      trimmed) title that is assigned again stays the same. */
  lemma TrimIdempotent(s: string)
    ensures Trim(Trim(s)) == Trim(s)
  {
  }

  /** The strings `trim` leaves unchanged are exactly those with no
      trimmable character at either end. */
  lemma TrimFixedPoints(t: string)
    ensures Trim(t) == t <==> TrimmedForm(t)
  {
  }

  /** `s.slice(start, end)`: negative positions count from the end, and
      both positions are clamped to the sequence. */
  function JsSlice<T>(s: seq<T>, start: int, end: int): (r: seq<T>)
    ensures 0 <= start <= end ==>
              r == s[(if start < |s| then start else |s|)..(if end < |s| then end else |s|)]
    ensures |r| <= |s|
  {
    var from := if start < 0 then (if |s| + start < 0 then 0 else |s| + start)
                else if start < |s| then start else |s|;
    var to := if end < 0 then (if |s| + end < 0 then 0 else |s| + end)
              else if end < |s| then end else |s|;
    if from < to then s[from..to] else []
  }

  /** `s.filter((_, i) => i !== index)`: drops position `index`, or nothing
      when `index` is not a position of `s`. */
  function WithoutIndex<T>(s: seq<T>, index: int): (r: seq<T>)
    ensures 0 <= index < |s| ==> |r| == |s| - 1
    ensures 0 <= index < |s| ==>
              forall j :: 0 <= j < |r| ==> r[j] == (if j < index then s[j] else s[j + 1])
    ensures !(0 <= index < |s|) ==> r == s
  {
    if 0 <= index < |s| then s[..index] + s[index + 1..] else s
  }

  /** Dropping a position loses exactly the element there. */
  lemma WithoutIndexMultiset<T>(s: seq<T>, index: int)
    requires 0 <= index < |s|
    ensures multiset(WithoutIndex(s, index)) + multiset{s[index]} == multiset(s)
  {
    assert s == s[..index] + [s[index]] + s[index + 1..];
  }

  /** `a` can be obtained from `b` by deleting elements: order is kept. */
  predicate IsSubsequence<T(==)>(a: seq<T>, b: seq<T>)
    decreases |b|
  {
    a == [] || (b != [] && ((a[0] == b[0] && IsSubsequence(a[1..], b[1..])) || IsSubsequence(a, b[1..])))
  }

  /** `s.filter(p)`: the elements of `s` satisfying `p`, in their order,
      each as often as it occurs in `s`. */
  function Filter<T(==,!new)>(s: seq<T>, p: T -> bool): (r: seq<T>)
    ensures |r| <= |s|
    ensures forall i :: 0 <= i < |r| ==> p(r[i])
    ensures forall x :: x in r <==> x in s && p(x)
    ensures forall x :: multiset(r)[x] == if p(x) then multiset(s)[x] else 0
    ensures IsSubsequence(r, s)
  {
    if s == [] then []
    else
      assert s == [s[0]] + s[1..];
      if p(s[0]) then [s[0]] + Filter(s[1..], p)
      else Filter(s[1..], p)
  }

  /** Filtering by one predicate and then another is filtering by the other
      first: two filters over the same list commute. */
  lemma {:induction false} FilterCommutes<T(!new)>(s: seq<T>, p: T -> bool, q: T -> bool)
    ensures Filter(Filter(s, p), q) == Filter(Filter(s, q), p)
  {
    if s != [] {
      FilterCommutes(s[1..], p, q);
      if p(s[0]) {
        assert Filter(s, p) == [s[0]] + Filter(s[1..], p);
        assert Filter(s, p)[1..] == Filter(s[1..], p);
      }
      if q(s[0]) {
        assert Filter(s, q) == [s[0]] + Filter(s[1..], q);
        assert Filter(s, q)[1..] == Filter(s[1..], q);
      }
    }
  }

  /** When exactly one element fails `p`, filtering by `p` removes exactly one. */
  lemma {:induction false} FilterDropsOne<T(!new)>(s: seq<T>, p: T -> bool, k: nat)
    requires k < |s| && !p(s[k])
    requires forall i :: 0 <= i < |s| && i != k ==> p(s[i])
    ensures |Filter(s, p)| == |s| - 1
  {
    if k == 0 {
      FilterKeepsAll(s[1..], p);
    } else {
      FilterDropsOne(s[1..], p, k - 1);
    }
  }

  lemma {:induction false} FilterKeepsAll<T(!new)>(s: seq<T>, p: T -> bool)
    requires forall i :: 0 <= i < |s| ==> p(s[i])
    ensures Filter(s, p) == s
  {
    if s != [] {
      FilterKeepsAll(s[1..], p);
    }
  }

  lemma {:induction false} FilterKeepsNone<T(!new)>(s: seq<T>, p: T -> bool)
    requires forall i :: 0 <= i < |s| ==> !p(s[i])
    ensures Filter(s, p) == []
  {
    if s != [] {
      FilterKeepsNone(s[1..], p);
    }
  }
}
