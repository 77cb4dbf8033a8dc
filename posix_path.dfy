/** `path.basename` of Node.js with POSIX semantics (`/` is the only separator). */
module PosixPath {
  import opened JsString

  /** `s` without its trailing run of `/`: what is dropped is all `/`, and what is kept does not end in `/`. */
  function StripTrailingSlashes(s: string): (r: string)
    ensures |r| <= |s| && r == s[..|r|]
    ensures forall k :: |r| <= k < |s| ==> s[k] == '/'
    ensures r == [] || r[|r| - 1] != '/'
  {
    if s != [] && s[|s| - 1] == '/' then StripTrailingSlashes(s[..|s| - 1]) else s
  }

  /** The part of `s` after its last `/`: a suffix of `s` that is free of `/` and cannot be extended to the left. */
  function LastSegment(s: string): (r: string)
    ensures '/' !in r
    ensures EndsWith(s, r)
    ensures |r| < |s| ==> s[|s| - |r| - 1] == '/'
  {
    if s == [] || s[|s| - 1] == '/' then []
    else
      var r := LastSegment(s[..|s| - 1]) + [s[|s| - 1]];
      assert s[..|s| - 1][|s| - |r|..] + [s[|s| - 1]] == s[|s| - |r|..];
      r
  }

  /**
   * `path.posix.basename(p)`: trailing separators are ignored, then the last
   * segment is taken. It holds no `/`, it ends the path once trailing `/` are
   * dropped and reaches back to the `/` before it (or to the start), and it is
   * empty exactly when `p` consists of `/` only (or is empty).
   */
  function Basename(p: string): (r: string)
    ensures '/' !in r
    ensures EndsWith(StripTrailingSlashes(p), r)
    ensures var s := StripTrailingSlashes(p); |r| < |s| ==> s[|s| - |r| - 1] == '/'
    ensures r == [] <==> forall k :: 0 <= k < |p| ==> p[k] == '/'
  {
    var s := StripTrailingSlashes(p);
    var r := LastSegment(s);
    assert s != [] ==> r != [];
    r
  }

  /** A name without separators is its own basename. */
  lemma {:induction false} BasenameOfName(name: string)
    requires '/' !in name
    ensures Basename(name) == name
  {
    LastSegmentOfName(name);
  }

  lemma {:induction false} LastSegmentOfName(s: string)
    requires '/' !in s
    ensures LastSegment(s) == s
  {
    if s != [] {
      assert s[|s| - 1] in s;
      LastSegmentOfName(s[..|s| - 1]);
      assert s[..|s| - 1] + [s[|s| - 1]] == s;
    }
  }

  /** `path.basename` is idempotent: renaming an item twice changes nothing the second time. */
  lemma BasenameIdempotent(p: string)
    ensures Basename(Basename(p)) == Basename(p)
  {
    BasenameOfName(Basename(p));
  }
}
