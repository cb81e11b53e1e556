/**
 * POSIX path handling as Node's `path` module does it for the rule's line
 * `path.resolve(path.dirname(fileName), imp)`: `Dirname` follows
 * `path.posix.dirname` and `Resolve` follows `path.posix.resolve` with its
 * segment normalisation (empty and `.` segments vanish, `..` removes the last
 * kept segment and does nothing at the root).
 */
module PosixPath {
  import opened JsStrings

  predicate IsAbsolute(p: string) {
    |p| > 0 && p[0] == '/'
  }

  /** A segment that names a directory entry: not empty, not `.` and not `..`. */
  predicate IsName(seg: string) {
    seg != "" && seg != "." && seg != ".."
  }

  predicate AllNames(segs: seq<string>) {
    forall i :: 0 <= i < |segs| ==> IsName(segs[i])
  }

  /** One segment of the normalisation of an absolute path. */
  function Step(kept: seq<string>, seg: string): seq<string> {
    if seg == "" || seg == "." then kept
    else if seg == ".." then (if kept == [] then [] else kept[..|kept| - 1])
    else kept + [seg]
  }

  /** Normalises `segs` on top of the segments already kept, left to right. */
  function NormalizeOnto(kept: seq<string>, segs: seq<string>): seq<string>
    decreases |segs|
  {
    if segs == [] then kept else NormalizeOnto(Step(kept, segs[0]), segs[1..])
  }

  /** The segments of an absolute path after normalisation: only names remain. */
  function Normalize(segs: seq<string>): (r: seq<string>)
    ensures AllNames(r)
  {
    NormalizeOntoKeepsNames([], segs);
    NormalizeOnto([], segs)
  }

  /**
   * `path.posix.resolve(dir, p)` in the working directory `cwd`, which stands
   * for `process.cwd()` and so for an absolute directory: the result is always
   * rooted, as Node's is.
   */
  function Resolve(cwd: string, dir: string, p: string): string {
    var joined :=
      if IsAbsolute(p) then p
      else if IsAbsolute(dir) then dir + "/" + p
      else cwd + "/" + dir + "/" + p;
    "/" + Join(Normalize(Split(joined, '/')), '/')
  }

  /** Node's scan for the separator that ends the directory part of `p`, from position `i` down to 1. */
  function DirEnd(p: string, i: int, matchedSlash: bool): (r: int)
    requires i < |p|
    ensures r == -1 || (1 <= r <= i && p[r] == '/')
    decreases i
  {
    if i < 1 then -1
    else if p[i] == '/' then (if !matchedSlash then i else DirEnd(p, i - 1, true))
    else DirEnd(p, i - 1, false)
  }

  /** `path.posix.dirname(p)`: `p` without its last segment and trailing separators. */
  function Dirname(p: string): (r: string)
    ensures r == "." || r == "/" || r == "//" || (r != [] && |r| < |p| && r == p[..|r|])
  {
    if p == [] then "."
    else
      var end := DirEnd(p, |p| - 1, true);
      if end == -1 then (if p[0] == '/' then "/" else ".")
      else if p[0] == '/' && end == 1 then "//"
      else p[..end]
  }

  // ---------------------------------------------------------------- lemmas

  /** Normalising two runs of segments one after the other is normalising their concatenation. */
  lemma {:induction false} NormalizeOntoAppend(kept: seq<string>, a: seq<string>, b: seq<string>)
    ensures NormalizeOnto(kept, a + b) == NormalizeOnto(NormalizeOnto(kept, a), b)
    decreases |a|
  {
    if a != [] {
      assert (a + b)[0] == a[0] && (a + b)[1..] == a[1..] + b;
      NormalizeOntoAppend(Step(kept, a[0]), a[1..], b);
    } else {
      assert a + b == b;
    }
  }

  /** Plain names are kept as they are. */
  lemma {:induction false} NormalizeOntoNames(kept: seq<string>, names: seq<string>)
    requires AllNames(names)
    ensures NormalizeOnto(kept, names) == kept + names
    decreases |names|
  {
    if names != [] {
      NormalizeOntoNames(kept + [names[0]], names[1..]);
      assert kept + [names[0]] + names[1..] == kept + names;
    } else {
      assert kept + names == kept;
    }
  }

  lemma {:induction false} NormalizeOntoKeepsNames(kept: seq<string>, segs: seq<string>)
    requires AllNames(kept)
    ensures AllNames(NormalizeOnto(kept, segs))
    decreases |segs|
  {
    if segs != [] {
      var k := Step(kept, segs[0]);
      assert AllNames(k);
      NormalizeOntoKeepsNames(k, segs[1..]);
    }
  }

  /** Normalisation is idempotent. */
  lemma NormalizeIdempotent(segs: seq<string>)
    ensures Normalize(Normalize(segs)) == Normalize(segs)
  {
    NormalizeOntoNames([], Normalize(segs));
  }

  /** A run of `k` parent segments climbs `k` directories, and stops at the root. */
  lemma {:induction false} NormalizeOntoUps(kept: seq<string>, ups: seq<string>)
    requires forall i :: 0 <= i < |ups| ==> ups[i] == ".."
    ensures NormalizeOnto(kept, ups) == if |ups| <= |kept| then kept[..|kept| - |ups|] else []
    decreases |ups|
  {
    if ups != [] {
      NormalizeOntoUps(Step(kept, ".."), ups[1..]);
      if |ups| <= |kept| {
        assert kept[..|kept| - 1][..|kept| - 1 - (|ups| - 1)] == kept[..|kept| - |ups|];
      }
    }
  }

  /** With an absolute directory, the working directory plays no part. */
  lemma ResolveAbsoluteDir(cwd: string, dir: string, p: string)
    requires IsAbsolute(dir) && !IsAbsolute(p)
    ensures Resolve(cwd, dir, p) == "/" + Join(Normalize(Split(dir, '/') + Split(p, '/')), '/')
  {
    SplitConcat(dir, '/', p);
    assert dir + "/" + p == dir + ['/'] + p;
  }

  /** The segments of `"/" + names.join("/")` are an empty root segment followed by the names. */
  lemma RootedSegments(names: seq<string>)
    requires AllNames(names)
    requires forall i :: 0 <= i < |names| ==> '/' !in names[i]
    ensures Normalize(Split("/" + Join(names, '/'), '/')) == names
  {
    SplitRooted(names);
    LeadingEmptySegment(if names == [] then [""] else names);
    if names == [] {
      assert Normalize([""]) == [];
    } else {
      NormalizeOntoNames([], names);
    }
  }

  lemma SplitRooted(names: seq<string>)
    requires forall i :: 0 <= i < |names| ==> '/' !in names[i]
    ensures Split("/" + Join(names, '/'), '/') == [""] + (if names == [] then [""] else names)
  {
    var j := Join(names, '/');
    assert "/" + j == "" + ['/'] + j;
    SplitConcat("", '/', j);
    if names != [] {
      SplitJoin(names, '/');
    } else {
      assert Split(j, '/') == [""];
    }
  }

  /** The empty segment before the root separator is dropped. */
  lemma LeadingEmptySegment(segs: seq<string>)
    ensures Normalize([""] + segs) == Normalize(segs)
  {
    assert ([""] + segs)[1..] == segs;
  }

  /**
   * Resolving `../` (k times) followed by names against the absolute
   * directory `/ds` climbs k directories and then descends into the names.
   */
  lemma ResolveBelow(cwd: string, ds: seq<string>, ups: seq<string>, qs: seq<string>)
    requires AllNames(ds) && forall i :: 0 <= i < |ds| ==> '/' !in ds[i]
    requires AllNames(qs) && forall i :: 0 <= i < |qs| ==> '/' !in qs[i]
    requires |qs| >= 1
    requires forall i :: 0 <= i < |ups| ==> ups[i] == ".."
    requires |ups| <= |ds|
    ensures Resolve(cwd, "/" + Join(ds, '/'), Join(ups + qs, '/')) == "/" + Join(ds[..|ds| - |ups|] + qs, '/')
  {
    var parts := ups + qs;
    assert parts[0] != "" by {
      if ups == [] { assert parts[0] == qs[0]; } else { assert parts[0] == ".."; }
    }
    forall i | 0 <= i < |parts| ensures '/' !in parts[i] {
      if i < |ups| { assert parts[i] == ".."; } else { assert parts[i] == qs[i - |ups|]; }
    }
    ResolveJoined(cwd, ds, parts);
    NormalizeOntoAppend(ds, ups, qs);
    NormalizeOntoUps(ds, ups);
    NormalizeOntoNames(ds[..|ds| - |ups|], qs);
  }

  /** Resolving joined segments against the absolute directory `/ds` normalises them on top of `ds`. */
  lemma ResolveJoined(cwd: string, ds: seq<string>, parts: seq<string>)
    requires AllNames(ds) && forall i :: 0 <= i < |ds| ==> '/' !in ds[i]
    requires |parts| >= 1 && parts[0] != ""
    requires forall i :: 0 <= i < |parts| ==> '/' !in parts[i]
    ensures Resolve(cwd, "/" + Join(ds, '/'), Join(parts, '/')) == "/" + Join(NormalizeOnto(ds, parts), '/')
  {
    var dir, p := "/" + Join(ds, '/'), Join(parts, '/');
    JoinStartsWithFirst(parts, '/');
    StartsWithFirst(p, parts[0]);
    ResolveAbsoluteDir(cwd, dir, p);
    SplitJoin(parts, '/');
    RootedPrefix(ds);
    NormalizeOntoAppend([], Split(dir, '/'), parts);
  }

  /** The segments of `/ds` normalise to `ds`. */
  lemma RootedPrefix(ds: seq<string>)
    requires AllNames(ds) && forall i :: 0 <= i < |ds| ==> '/' !in ds[i]
    ensures NormalizeOnto([], Split("/" + Join(ds, '/'), '/')) == ds
  {
    SplitRooted(ds);
    var pre := Split("/" + Join(ds, '/'), '/');
    assert pre[0] == "" && pre[1..] == (if ds == [] then [""] else ds);
    assert NormalizeOnto([], pre) == NormalizeOnto([], pre[1..]);
    if ds == [] {
      assert NormalizeOnto([], [""]) == NormalizeOnto([], [""][1..]);
    } else {
      NormalizeOntoNames([], ds);
    }
  }

  /** A resolved path is already resolved: resolving it again, against anything, gives it back. */
  lemma ResolveIdempotent(cwd: string, dir: string, p: string, cwd': string, dir': string)
    ensures Resolve(cwd', dir', Resolve(cwd, dir, p)) == Resolve(cwd, dir, p)
  {
    var joined :=
      if IsAbsolute(p) then p
      else if IsAbsolute(dir) then dir + "/" + p
      else cwd + "/" + dir + "/" + p;
    var names := Normalize(Split(joined, '/'));
    forall i | 0 <= i < |names| ensures '/' !in names[i] {
      NormalizeOntoMembers([], Split(joined, '/'), names[i]);
    }
    RootedSegments(names);
  }

  /** Every kept segment comes from the input or from what was kept before. */
  lemma {:induction false} NormalizeOntoMembers(kept: seq<string>, segs: seq<string>, x: string)
    requires x in NormalizeOnto(kept, segs)
    ensures x in kept || x in segs
    decreases |segs|
  {
    if segs != [] {
      NormalizeOntoMembers(Step(kept, segs[0]), segs[1..], x);
      if x in Step(kept, segs[0]) && segs[0] == ".." && kept != [] {
        assert x in kept[..|kept| - 1];
      }
    }
  }

  /** Node's scan across the last segment: it stops at the separator just before it. */
  lemma {:induction false} DirEndAcrossName(p: string, k: nat, i: nat, matchedSlash: bool)
    requires 1 <= k <= i < |p| && p[k] == '/'
    requires forall j :: k < j <= i ==> p[j] != '/'
    requires k < i || !matchedSlash
    ensures DirEnd(p, i, matchedSlash) == k
    decreases i
  {
    if i > k {
      DirEndAcrossName(p, k, i - 1, false);
    }
  }

  /** The directory of `dir/name` is `dir`. */
  lemma DirnameChild(dir: string, name: string)
    requires dir != [] && dir[|dir| - 1] != '/'
    requires name != [] && '/' !in name
    ensures Dirname(dir + "/" + name) == dir
  {
    var p := dir + "/" + name;
    assert p[|dir|] == '/';
    forall j | |dir| < j <= |p| - 1 ensures p[j] != '/' {
      assert p[j] == name[j - |dir| - 1];
    }
    if |dir| >= 1 {
      DirEndAcrossName(p, |dir|, |p| - 1, true);
    }
    assert p[..|dir|] == dir;
  }
}
