/**
 * Python 2's `posixpath.join` and `posixpath.basename`, the two path
 * operations the manifest builder relies on. `join` folds its components
 * left to right: a component that starts with '/' discards everything
 * before it; otherwise a '/' is inserted unless the path so far is empty
 * or already ends in '/'.
 */
module PosixPath {

  import opened Format

  predicate IsAbsolute(b: string) {
    |b| > 0 && b[0] == '/'
  }

  predicate EndsWithSep(p: string) {
    |p| > 0 && p[|p| - 1] == '/'
  }

  predicate IsSuffix(b: string, p: string) {
    |b| <= |p| && p[|p| - |b|..] == b
  }

  /** One iteration of the loop in `posixpath.join`. */
  function JoinStep(path: string, b: string): (r: string)
    ensures IsAbsolute(b) ==> r == b
    ensures !IsAbsolute(b) ==> |path| <= |r| && r[..|path|] == path
    ensures IsSuffix(b, r)
  {
    if IsAbsolute(b) then b
    else if path == "" || EndsWithSep(path) then path + b
    else path + "/" + b
  }

  /** `os.path.join(a, *parts)`: `a` alone without parts, otherwise a path ending in the last part. */
  function Join(a: string, parts: seq<string>): (r: string)
    ensures |parts| == 0 ==> r == a
    ensures |parts| > 0 ==> IsSuffix(parts[|parts| - 1], r)
    decreases |parts|
  {
    if |parts| == 0 then a
    else JoinStep(Join(a, parts[..|parts| - 1]), parts[|parts| - 1])
  }

  /** `os.path.basename(p)`: what follows the last '/'. */
  function Basename(p: string): (r: string)
    ensures '/' !in r
    ensures IsSuffix(r, p)
    decreases |p|
  {
    if |p| == 0 || p[|p| - 1] == '/' then ""
    else
      var init := p[..|p| - 1];
      assert p == init + [p[|p| - 1]];
      Basename(init) + [p[|p| - 1]]
  }

  /** The prefix a relative component is appended to: `a`, plus '/' when `a` needs one. */
  function WithSep(a: string): string {
    if a == "" || EndsWithSep(a) then a else a + "/"
  }

  /** A non-empty relative component with no trailing '/'. */
  predicate IsPlain(b: string) {
    |b| > 0 && b[0] != '/' && b[|b| - 1] != '/'
  }

  /** `"/".join(parts)` ends with the last character of its last part. */
  lemma JoinWithLast(parts: seq<string>)
    requires |parts| >= 1 && |parts[|parts| - 1]| > 0
    ensures var s, last := JoinWith(parts, '/'), parts[|parts| - 1];
      |s| > 0 && s[|s| - 1] == last[|last| - 1]
  {
    if |parts| > 1 {
      var s, last := JoinWith(parts, '/'), parts[|parts| - 1];
      assert s == (JoinWith(parts[..|parts| - 1], '/') + "/") + last;
    }
  }

  /** Appending a relative component after a path that does not end in '/' inserts one '/'. */
  lemma JoinStepAfter(w: string, s: string, last: string)
    requires |s| > 0 && s[|s| - 1] != '/' && IsPlain(last)
    ensures JoinStep(w + s, last) == w + (s + "/" + last)
  {
    var p := w + s;
    assert p[|p| - 1] == s[|s| - 1];
  }

  /**
   * Joining plain components puts exactly one '/' between neighbours, and
   * one after the first argument unless it is empty or ends in '/'.
   */
  lemma {:induction false} JoinPlain(a: string, parts: seq<string>)
    requires |parts| >= 1
    requires forall i :: 0 <= i < |parts| ==> IsPlain(parts[i])
    ensures Join(a, parts) == WithSep(a) + JoinWith(parts, '/')
    decreases |parts|
  {
    var init, last := parts[..|parts| - 1], parts[|parts| - 1];
    assert IsPlain(last);
    if |parts| == 1 {
      assert init == [];
    } else {
      JoinPlain(a, init);
      assert IsPlain(init[|init| - 1]);
      JoinWithLast(init);
      JoinStepAfter(WithSep(a), JoinWith(init, '/'), last);
    }
  }

  lemma JoinWithTriple(x: string, y: string, z: string, c: char)
    ensures JoinWith([x, y, z], c) == x + [c] + y + [c] + z
  {
    var parts, pair := [x, y, z], [x, y];
    assert parts[..2] == pair && pair[..1] == [x];
    assert JoinWith(pair, c) == x + [c] + y;
    assert JoinWith(parts, c) == (x + [c] + y) + [c] + z;
  }

  /** The three-component join used for every precal product path. */
  lemma JoinThree(a: string, x: string, y: string, z: string)
    requires IsPlain(x) && IsPlain(y) && IsPlain(z)
    ensures Join(a, [x, y, z]) == WithSep(a) + x + "/" + y + "/" + z
  {
    var parts := [x, y, z];
    assert forall i :: 0 <= i < |parts| ==> IsPlain(parts[i]);
    JoinPlain(a, parts);
    JoinWithTriple(x, y, z, '/');
    SlashAssoc(WithSep(a), x, y, z);
  }

  lemma SlashAssoc(w: string, x: string, y: string, z: string)
    ensures w + (x + "/" + y + "/" + z) == w + x + "/" + y + "/" + z
  {
  }

  /** A character other than '/' appears in a join only if it appears in one of the inputs. */
  lemma {:induction false} JoinHasNo(a: string, parts: seq<string>, d: char)
    requires d != '/' && d !in a
    requires forall i :: 0 <= i < |parts| ==> d !in parts[i]
    ensures d !in Join(a, parts)
    decreases |parts|
  {
    if |parts| > 0 {
      JoinHasNo(a, parts[..|parts| - 1], d);
      assert d !in parts[|parts| - 1];
    }
  }

  /** A component that starts with '/' discards everything joined before it. */
  lemma {:induction false} JoinAbsoluteResets(a: string, parts: seq<string>, i: nat)
    requires i < |parts| && IsAbsolute(parts[i])
    ensures Join(a, parts) == Join(parts[i], parts[i + 1..])
    decreases |parts|
  {
    var init, last := parts[..|parts| - 1], parts[|parts| - 1];
    if i < |parts| - 1 {
      JoinAbsoluteResets(a, init, i);
      assert parts[i + 1..][..|parts[i + 1..]| - 1] == init[i + 1..];
    }
  }

  lemma {:induction false} BasenameAfterSep(x: string, b: string)
    requires x == "" || EndsWithSep(x)
    requires '/' !in b
    ensures Basename(x + b) == b
    decreases |b|
  {
    if |b| == 0 {
      assert x + b == x;
    } else {
      var p, init, c := x + b, b[..|b| - 1], b[|b| - 1];
      assert c != '/' by {
        assert c in b;
      }
      assert Basename(x + init) == init by {
        assert '/' !in init by {
          forall k | 0 <= k < |init| ensures init[k] != '/' { assert init[k] == b[k]; }
        }
        BasenameAfterSep(x, init);
      }
      assert p[|p| - 1] == c && p[..|p| - 1] == x + init;
      assert init + [c] == b;
    }
  }

  /** The last component of a join, when it holds no '/', is the basename of the result. */
  lemma BasenameOfJoin(a: string, parts: seq<string>)
    requires |parts| >= 1
    requires '/' !in parts[|parts| - 1]
    ensures Basename(Join(a, parts)) == parts[|parts| - 1]
  {
    var prev, last := Join(a, parts[..|parts| - 1]), parts[|parts| - 1];
    if prev == "" || EndsWithSep(prev) {
      BasenameAfterSep(prev, last);
    } else {
      assert prev + "/" + last == (prev + "/") + last;
      BasenameAfterSep(prev + "/", last);
    }
  }
}
