/**
 * The JavaScript string operations the rule is built from, with their
 * ECMAScript semantics: `startsWith`, `substring` (with its index clamping and
 * swapping), `indexOf` for one character, and `split`/`join` on a
 * one-character separator.
 */
module JsStrings {

  /** `s.startsWith(prefix)`. */
  predicate StartsWith(s: string, prefix: string) {
    |prefix| <= |s| && s[..|prefix|] == prefix
  }

  /** Index clamping of `String.prototype.substring`: below 0 becomes 0, past the end becomes the length. */
  function Clamp(i: int, n: nat): (r: nat)
    ensures r <= n
    ensures 0 <= i <= n ==> r == i
    ensures i < 0 ==> r == 0
    ensures n < i ==> r == n
  {
    if i < 0 then 0 else if i > n then n else i
  }

  /** `s.substring(start, end)`: both indices are clamped, then swapped if out of order. */
  function Substring(s: string, start: int, end: int): (r: string)
    ensures 0 <= start <= end <= |s| ==> r == s[start..end]
    ensures 0 <= end <= start <= |s| ==> r == s[end..start]
    ensures |r| <= |s|
  {
    var a, b := Clamp(start, |s|), Clamp(end, |s|);
    if a <= b then s[a..b] else s[b..a]
  }

  /** `s.substring(start)`. */
  function SubstringFrom(s: string, start: int): (r: string)
    ensures start <= 0 ==> r == s
    ensures 0 <= start <= |s| ==> r == s[start..]
    ensures |s| <= start ==> r == ""
  {
    Substring(s, start, |s|)
  }

  /** `s.indexOf(c)` for a one-character search string: the first position of `c`, or -1. */
  function IndexOf(s: string, c: char): (r: int)
    ensures -1 <= r < |s|
    ensures r == -1 <==> c !in s
    ensures 0 <= r ==> s[r] == c && c !in s[..r]
  {
    if s == [] then -1
    else if s[0] == c then 0
    else
      var k := IndexOf(s[1..], c);
      assert 0 <= k ==> s[..k + 1] == [s[0]] + s[1..][..k];
      if k == -1 then -1 else k + 1
  }

  /** `s.split(c)`: the pieces between occurrences of `c`; there is always at least one. */
  function Split(s: string, c: char): (r: seq<string>)
    ensures |r| >= 1
    ensures forall i :: 0 <= i < |r| ==> c !in r[i]
  {
    if s == [] then [""]
    else if s[0] == c then [""] + Split(s[1..], c)
    else
      var t := Split(s[1..], c);
      [[s[0]] + t[0]] + t[1..]
  }

  /** `parts.join(c)`. */
  function Join(parts: seq<string>, c: char): string {
    if parts == [] then ""
    else if |parts| == 1 then parts[0]
    else parts[0] + [c] + Join(parts[1..], c)
  }

  // ---------------------------------------------------------------- lemmas

  /**
   * Outside the string, `substring` reads its indices clamped: the result is
   * the slice between the two clamped indices, whichever of them is smaller.
   */
  lemma SubstringClamped(s: string, start: int, end: int)
    ensures var a, b := Clamp(start, |s|), Clamp(end, |s|);
      && Substring(s, start, end) == Substring(s, a, b)
      && (a <= b ==> Substring(s, start, end) == s[a..b])
      && (b <= a ==> Substring(s, start, end) == s[b..a])
  {
  }

  lemma StartsWithAppend(p: string, s: string)
    ensures StartsWith(p + s, p)
  {
    assert (p + s)[..|p|] == p;
  }

  /** A prefix is refuted by one position at which the two strings differ. */
  lemma NotStartsWithAt(s: string, p: string, i: nat)
    requires i < |p|
    requires i >= |s| || s[i] != p[i]
    ensures !StartsWith(s, p)
  {
    if |p| <= |s| {
      assert s[..|p|][i] == s[i];
    }
  }

  /** Two prefixes of the same string that have the same length are the same string. */
  lemma PrefixesOfSameLength(s: string, a: string, b: string)
    requires StartsWith(s, a) && StartsWith(s, b) && |a| == |b|
    ensures a == b
  {
  }

  lemma StartsWithFirst(s: string, p: string)
    requires StartsWith(s, p) && p != []
    ensures s != [] && s[0] == p[0]
  {
    assert s[..|p|][0] == s[0];
  }

  /** A prefix of a prefix is a prefix. */
  lemma StartsWithTrans(s: string, p: string, q: string)
    requires StartsWith(s, p) && StartsWith(p, q)
    ensures StartsWith(s, q)
  {
    assert s[..|q|] == s[..|p|][..|q|];
  }

  /** A string with no separator splits into itself. */
  lemma {:induction false} SplitWord(w: string, c: char)
    requires c !in w
    ensures Split(w, c) == [w]
  {
    if w != [] {
      SplitWord(w[1..], c);
      assert [w[0]] + w[1..] == w;
    }
  }

  /** Splitting at a separator puts the pieces on either side next to each other. */
  lemma {:induction false} SplitConcat(a: string, c: char, b: string)
    ensures Split(a + [c] + b, c) == Split(a, c) + Split(b, c)
  {
    if a == [] {
      assert a + [c] + b == [c] + b;
      SplitCons(c, b, c);
    } else {
      assert a + [c] + b == [a[0]] + (a[1..] + [c] + b) && a == [a[0]] + a[1..];
      SplitConcat(a[1..], c, b);
      SplitConcatStep(a[0], a[1..], c, b);
    }
  }

  /** The inductive step of `SplitConcat`: one more character in front of the first part. */
  lemma SplitConcatStep(x: char, a: string, c: char, b: string)
    requires Split(a + [c] + b, c) == Split(a, c) + Split(b, c)
    ensures Split([x] + (a + [c] + b), c) == Split([x] + a, c) + Split(b, c)
  {
    SplitCons(x, a + [c] + b, c);
    SplitCons(x, a, c);
    PrependConcat(x, Split(a, c), Split(b, c), c);
  }

  /** What `split` makes of one more character in front: a new empty piece, or a longer first piece. */
  function Prepend(x: char, pieces: seq<string>, c: char): seq<string>
    requires |pieces| >= 1
  {
    if x == c then [""] + pieces else [[x] + pieces[0]] + pieces[1..]
  }

  /** Prepending a character to `s + t` only touches `s`. */
  lemma PrependConcat(x: char, s: seq<string>, t: seq<string>, c: char)
    requires |s| >= 1
    ensures Prepend(x, s + t, c) == Prepend(x, s, c) + t
  {
    assert (s + t)[0] == s[0] && (s + t)[1..] == s[1..] + t;
  }

  /** `split` on a string with a known first character. */
  lemma SplitCons(x: char, s: string, c: char)
    ensures Split([x] + s, c) == Prepend(x, Split(s, c), c)
  {
    assert ([x] + s)[0] == x && ([x] + s)[1..] == s;
  }

  /** `s.split(c).join(c)` gives back `s`. */
  lemma {:induction false} JoinSplit(s: string, c: char)
    ensures Join(Split(s, c), c) == s
  {
    if s != [] {
      JoinSplit(s[1..], c);
      var t := Split(s[1..], c);
      if s[0] == c {
        JoinEmptyHead(t, c);
      } else {
        JoinCharHead(s[0], t, c);
      }
      assert [s[0]] + s[1..] == s;
    }
  }

  /** An empty first part puts a separator in front of the rest. */
  lemma JoinEmptyHead(t: seq<string>, c: char)
    requires |t| >= 1
    ensures Join([""] + t, c) == [c] + Join(t, c)
  {
    assert ([""] + t)[1..] == t;
  }

  /** A character added to the first part comes first in the joined string. */
  lemma JoinCharHead(x: char, t: seq<string>, c: char)
    requires |t| >= 1
    ensures Join([[x] + t[0]] + t[1..], c) == [x] + Join(t, c)
  {
    var r := [[x] + t[0]] + t[1..];
    if |t| > 1 {
      assert r[1..] == t[1..];
      assert [x] + t[0] + [c] + Join(t[1..], c) == [x] + (t[0] + [c] + Join(t[1..], c));
    }
  }


  /** A joined list starts with its first element. */
  lemma JoinStartsWithFirst(parts: seq<string>, c: char)
    requires |parts| >= 1
    ensures StartsWith(Join(parts, c), parts[0])
  {
    if |parts| >= 2 {
      StartsWithAppend(parts[0], [c] + Join(parts[1..], c));
      assert parts[0] + [c] + Join(parts[1..], c) == parts[0] + ([c] + Join(parts[1..], c));
    }
  }

  /** Joining pieces that hold no separator and splitting again gives back the pieces. */
  lemma {:induction false} SplitJoin(parts: seq<string>, c: char)
    requires |parts| >= 1
    requires forall i :: 0 <= i < |parts| ==> c !in parts[i]
    ensures Split(Join(parts, c), c) == parts
  {
    if |parts| == 1 {
      SplitWord(parts[0], c);
    } else {
      SplitJoin(parts[1..], c);
      SplitConcat(parts[0], c, Join(parts[1..], c));
      SplitWord(parts[0], c);
      assert [parts[0]] + parts[1..] == parts;
    }
  }
}
