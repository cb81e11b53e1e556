/**
 * Root lookup: JavaScript's `filter(p)[0]` over the list of roots, and the
 * longest-first ordering the walker gives that list (its constructor sorts a
 * copy with the comparator `(a, b) => b.length - a.length`). On a list in
 * that order, the first root that matches is a longest one that matches.
 */
module RootLookup {
  import opened Wrappers

  /** `s.filter(p)`. */
  function Filter<T(!new)>(s: seq<T>, p: T -> bool): (r: seq<T>)
    ensures |r| <= |s|
    ensures forall x :: x in r <==> x in s && p(x)
  {
    if s == [] then []
    else if p(s[0]) then [s[0]] + Filter(s[1..], p)
    else Filter(s[1..], p)
  }

  /** `s.filter(p)[0]`: the first element satisfying `p`, or `undefined`. */
  function FirstOf<T(!new)>(s: seq<T>, p: T -> bool): (r: Option<T>)
    ensures r.None? <==> forall i :: 0 <= i < |s| ==> !p(s[i])
    ensures r.Some? ==> exists i :: 0 <= i < |s| && s[i] == r.value && p(s[i]) && forall j :: 0 <= j < i ==> !p(s[j])
  {
    var f := Filter(s, p);
    if |f| > 0 then
      FilterHead(s, p);
      Some(f[0])
    else
      assert forall i :: 0 <= i < |s| ==> s[i] !in f;
      None
  }

  /** The head of a non-empty filter result is the first element that satisfies the predicate. */
  lemma {:induction false} FilterHead<T(!new)>(s: seq<T>, p: T -> bool)
    requires |Filter(s, p)| > 0
    ensures exists i :: 0 <= i < |s| && s[i] == Filter(s, p)[0] && p(s[i]) && forall j :: 0 <= j < i ==> !p(s[j])
  {
    if !p(s[0]) {
      FilterHead(s[1..], p);
      var i :| 0 <= i < |s[1..]| && s[1..][i] == Filter(s[1..], p)[0] && p(s[1..][i]) && forall j :: 0 <= j < i ==> !p(s[1..][j]);
      assert s[i + 1] == Filter(s, p)[0];
      assert forall j :: 0 <= j < i + 1 ==> !p(s[j]) by {
        forall j | 0 <= j < i + 1 ensures !p(s[j]) {
          if j > 0 { assert s[j] == s[1..][j - 1]; }
        }
      }
    } else {
      assert s[0] == Filter(s, p)[0];
    }
  }

  /** The roots are in non-increasing order of length. */
  predicate LongestFirst(s: seq<string>) {
    forall i, j :: 0 <= i < j < |s| ==> |s[i]| >= |s[j]|
  }

  /** Inserts `x` before the first element that is not longer than it, which keeps the sort stable. */
  function InsertByLength(x: string, s: seq<string>): (r: seq<string>)
    requires LongestFirst(s)
    ensures LongestFirst(r)
    ensures multiset(r) == multiset(s) + multiset{x}
  {
    if s == [] || |x| >= |s[0]| then
      LongestInFront(x, s);
      [x] + s
    else
      assert s == [s[0]] + s[1..];
      var t := InsertByLength(x, s[1..]);
      ConsLongestFirst(s[0], t, x, s[1..]);
      [s[0]] + t
  }

  /** An element at least as long as the head of a longest-first list can go in front of it. */
  lemma LongestInFront(x: string, s: seq<string>)
    requires LongestFirst(s) && (s == [] || |x| >= |s[0]|)
    ensures LongestFirst([x] + s)
  {
    forall i, j | 0 <= i < j < |[x] + s| ensures |([x] + s)[i]| >= |([x] + s)[j]| {
      assert ([x] + s)[j] == s[j - 1];
      if i > 0 { assert ([x] + s)[i] == s[i - 1]; }
      if i == 0 { assert |s[0]| >= |s[j - 1]|; }
    }
  }

  /** Putting `h` in front keeps the order when every element after it is no longer. */
  lemma ConsLongestFirst(h: string, t: seq<string>, x: string, rest: seq<string>)
    requires LongestFirst(t) && multiset(t) == multiset(rest) + multiset{x}
    requires |x| <= |h| && forall y :: y in rest ==> |y| <= |h|
    ensures LongestFirst([h] + t)
  {
    forall j | 0 <= j < |t| ensures |t[j]| <= |h| {
      assert t[j] in multiset(t);
      assert t[j] == x || t[j] in multiset(rest);
    }
    forall i, j | 0 <= i < j < |[h] + t| ensures |([h] + t)[i]| >= |([h] + t)[j]| {
      assert ([h] + t)[j] == t[j - 1];
      if i > 0 { assert ([h] + t)[i] == t[i - 1]; }
    }
  }

  /** The walker's sort of its roots: longest first, equal lengths in their input order (`SortIsStable`). */
  function SortLongestFirst(s: seq<string>): (r: seq<string>)
    ensures LongestFirst(r)
    ensures multiset(r) == multiset(s)
  {
    if s == [] then []
    else
      assert s == [s[0]] + s[1..];
      InsertByLength(s[0], SortLongestFirst(s[1..]))
  }

  /**
   * A lookup result read the way the rule reads it: `undefined` (nothing
   * matched) and '' are both falsy, so both become "".
   */
  function OrEmpty(o: Option<string>): string {
    if o.Some? then o.value else ""
  }

  // ---------------------------------------------------------------- lemmas

  /**
   * On a longest-first list, the falsy-or-root result of `filter(p)[0]` is a
   * longest matching element, and it is "" exactly when no non-empty element
   * matches.
   */
  lemma LookupIsLongestMatch(s: seq<string>, p: string -> bool)
    ensures OrEmpty(FirstOf(s, p)) == "" || (OrEmpty(FirstOf(s, p)) in s && p(OrEmpty(FirstOf(s, p))))
    ensures LongestFirst(s) ==> forall x :: x in s && p(x) ==> |x| <= |OrEmpty(FirstOf(s, p))|
    ensures LongestFirst(s) ==> (OrEmpty(FirstOf(s, p)) == "" <==> forall x :: x in s && x != "" ==> !p(x))
  {
    var f := FirstOf(s, p);
    if f.Some? {
      var i :| 0 <= i < |s| && s[i] == f.value && p(s[i]) && forall j :: 0 <= j < i ==> !p(s[j]);
      if LongestFirst(s) {
        FirstOfIsLongest(s, p);
      }
    } else {
      forall x | x in s ensures !p(x) {
        var k :| 0 <= k < |s| && s[k] == x;
      }
    }
  }

  /** On a longest-first list, the first match is at least as long as every other match. */
  lemma FirstOfIsLongest(s: seq<string>, p: string -> bool)
    requires LongestFirst(s) && FirstOf(s, p).Some?
    ensures p(FirstOf(s, p).value)
    ensures forall x :: x in s && p(x) ==> |x| <= |FirstOf(s, p).value|
  {
    var v := FirstOf(s, p).value;
    var i :| 0 <= i < |s| && s[i] == v && p(s[i]) && forall j :: 0 <= j < i ==> !p(s[j]);
    forall x | x in s && p(x) ensures |x| <= |v| {
      var k :| 0 <= k < |s| && s[k] == x;
      assert i <= k;
    }
  }

  /** A predicate that at most one string of each length satisfies. */
  ghost predicate OnePerLength(p: string -> bool) {
    forall x, y :: p(x) && p(y) && |x| == |y| ==> x == y
  }

  /**
   * When no two roots of the same length both match, looking up the sorted
   * roots does not depend on the order in which the roots were given.
   */
  lemma SortedLookupIgnoresOrder(a: seq<string>, b: seq<string>, p: string -> bool)
    requires multiset(a) == multiset(b)
    requires forall x, y :: x in a && y in a && p(x) && p(y) && |x| == |y| ==> x == y
    ensures FirstOf(SortLongestFirst(a), p) == FirstOf(SortLongestFirst(b), p)
  {
    LongestFirstLookupsAgree(SortLongestFirst(a), SortLongestFirst(b), a, p);
  }

  /** Two longest-first arrangements of `a` give the same first match, when no two matches of `a` share a length. */
  lemma LongestFirstLookupsAgree(sa: seq<string>, sb: seq<string>, a: seq<string>, p: string -> bool)
    requires LongestFirst(sa) && LongestFirst(sb)
    requires multiset(sa) == multiset(a) && multiset(sb) == multiset(a)
    requires forall x, y :: x in a && y in a && p(x) && p(y) && |x| == |y| ==> x == y
    ensures FirstOf(sa, p) == FirstOf(sb, p)
  {
    var fa, fb := FirstOf(sa, p), FirstOf(sb, p);
    if fa.Some? {
      var x := fa.value;
      FirstOfIsLongest(sa, p);
      SameElements(sa, sb, x);
      assert fb.Some? by {
        var i :| 0 <= i < |sb| && sb[i] == x;
      }
      var y := fb.value;
      FirstOfIsLongest(sb, p);
      SameElements(sa, sb, y);
      SameElements(sa, a, x);
      SameElements(sa, a, y);
      assert |x| == |y|;
    } else if fb.Some? {
      FirstOfIsLongest(sb, p);
      SameElements(sa, sb, fb.value);
    }
  }

  /** Two lists with the same multiset hold the same elements. */
  lemma SameElements<T>(s: seq<T>, t: seq<T>, x: T)
    requires multiset(s) == multiset(t)
    ensures x in s <==> x in t
  {
    assert x in s <==> x in multiset(s);
    assert x in t <==> x in multiset(t);
  }

  /** `x => x.length == n`. */
  function OfLength(n: nat): string -> bool {
    x => |x| == n
  }

  /** Inserting `x` places it ahead of the elements of its own length and keeps their order. */
  lemma {:induction false} InsertKeepsLengthOrder(x: string, s: seq<string>, n: nat)
    requires LongestFirst(s)
    ensures Filter(InsertByLength(x, s), OfLength(n)) == (if |x| == n then [x] else []) + Filter(s, OfLength(n))
  {
    if s == [] || |x| >= |s[0]| {
      assert ([x] + s)[1..] == s;
    } else {
      var t := InsertByLength(x, s[1..]);
      InsertKeepsLengthOrder(x, s[1..], n);
      assert ([s[0]] + t)[1..] == t;
    }
  }

  /**
   * The sort is stable: the roots of each length keep the order they were
   * given in, as `Array.prototype.sort` guarantees.
   */
  lemma {:induction false} SortIsStable(s: seq<string>, n: nat)
    ensures Filter(SortLongestFirst(s), OfLength(n)) == Filter(s, OfLength(n))
  {
    if s != [] {
      SortIsStable(s[1..], n);
      InsertKeepsLengthOrder(s[0], SortLongestFirst(s[1..]), n);
    }
  }

  /** When nothing matches, the lookup is falsy. */
  lemma NoMatchIsFalsy(s: seq<string>, p: string -> bool)
    requires forall x :: x in s ==> !p(x)
    ensures OrEmpty(FirstOf(s, p)) == ""
  {
    assert forall i :: 0 <= i < |s| ==> !p(s[i]);
  }

  /** `filter(p)[0]` looks at the elements one at a time, from the front. */
  lemma FirstOfCons<T(!new)>(x: T, s: seq<T>, p: T -> bool)
    ensures FirstOf([x] + s, p) == if p(x) then Some(x) else FirstOf(s, p)
  {
    assert ([x] + s)[1..] == s;
  }

  /** Sorting a list that is already longest-first leaves it as it is. */
  lemma {:induction false} SortSortedIdentity(s: seq<string>)
    requires LongestFirst(s)
    ensures SortLongestFirst(s) == s
  {
    if s != [] {
      SortSortedIdentity(s[1..]);
      assert [s[0]] + s[1..] == s;
    }
  }
}
