/**
 * The JavaScript string operations the adapters rely on, over `seq<char>`:
 * `trim`, `split`, `join`, `endsWith`, `indexOf` and `replace` with a string pattern.
 */
module JsString {
  import opened Wrappers

  /** The characters `String.prototype.trim` removes: WhiteSpace and LineTerminator of ECMAScript. */
  predicate IsWhitespace(c: char)
  {
    c == ' ' || c == '\t' || c == '\n' || c == '\r' || c == '\U{000B}' || c == '\U{000C}'
    || c == '\U{00A0}' || c == '\U{1680}' || ('\U{2000}' <= c <= '\U{200A}')
    || c == '\U{2028}' || c == '\U{2029}' || c == '\U{202F}' || c == '\U{205F}'
    || c == '\U{3000}' || c == '\U{FEFF}'
  }

  /** Every character of `s` is whitespace. */
  predicate AllWhitespace(s: string)
  {
    forall k :: 0 <= k < |s| ==> IsWhitespace(s[k])
  }

  /** Neither end of `s` is whitespace. */
  predicate IsTrimmed(s: string)
  {
    s == [] || (!IsWhitespace(s[0]) && !IsWhitespace(s[|s| - 1]))
  }

  /** Where the whitespace run starting at `from` ends: the first non-whitespace index at or after `from`, or `|s|`. */
  function SkipWhitespace(s: string, from: nat): (n: nat)
    requires from <= |s|
    ensures from <= n <= |s|
    ensures forall k :: from <= k < n ==> IsWhitespace(s[k])
    ensures n < |s| ==> !IsWhitespace(s[n])
    decreases |s| - from
  {
    if from < |s| && IsWhitespace(s[from]) then SkipWhitespace(s, from + 1) else from
  }

  /** Where the whitespace run ending at `to` starts: the index after the last non-whitespace character before `to`, or 0. */
  function SkipWhitespaceBack(s: string, to: nat): (n: nat)
    requires to <= |s|
    ensures n <= to
    ensures forall k :: n <= k < to ==> IsWhitespace(s[k])
    ensures 0 < n ==> !IsWhitespace(s[n - 1])
  {
    if 0 < to && IsWhitespace(s[to - 1]) then SkipWhitespaceBack(s, to - 1) else to
  }

  /**
   * `s.trim()`: the result is the stretch of `s` that starts after its leading
   * whitespace, with only whitespace after it, and with no whitespace at either
   * of its own ends; it is empty exactly when `s` is all whitespace.
   */
  function Trim(s: string): (r: string)
    ensures |r| <= |s| && IsTrimmed(r)
    ensures var i := SkipWhitespace(s, 0);
      && i + |r| <= |s| && r == s[i..i + |r|]
      && AllWhitespace(s[..i]) && AllWhitespace(s[i + |r|..])
    ensures r == [] <==> AllWhitespace(s)
  {
    var i := SkipWhitespace(s, 0);
    var e := SkipWhitespaceBack(s, |s|);
    if i == |s| then
      assert s[..i] == s;
      []
    else
      assert i < e;
      assert s[i..e][0] == s[i] && s[i..e][e - i - 1] == s[e - 1];
      s[i..e]
  }

  /** Trimming a string that is already trimmed leaves it as it is. */
  lemma {:induction false} TrimOfTrimmed(s: string)
    requires IsTrimmed(s)
    ensures Trim(s) == s
  {
    if s != [] {
      assert SkipWhitespace(s, 0) == 0;
      assert SkipWhitespaceBack(s, |s|) == |s|;
    }
  }

  /** `trim` is idempotent. */
  lemma TrimIdempotent(s: string)
    ensures Trim(Trim(s)) == Trim(s)
  {
    TrimOfTrimmed(Trim(s));
  }

  /** `s.endsWith(suffix)`. */
  predicate EndsWith(s: string, suffix: string)
  {
    |suffix| <= |s| && s[|s| - |suffix|..] == suffix
  }

  /** `s.startsWith(prefix)`. */
  predicate StartsWith(s: string, prefix: string)
  {
    |prefix| <= |s| && s[..|prefix|] == prefix
  }

  /** `s.replace(/x/g, y)` for a one-character pattern `x`: every `x` becomes `y`, nothing else changes. */
  function ReplaceAllChar(s: string, x: char, y: char): (r: string)
    ensures |r| == |s|
    ensures forall k :: 0 <= k < |s| ==> r[k] == if s[k] == x then y else s[k]
  {
    if s == [] then [] else ReplaceAllChar(s[..|s| - 1], x, y) + [if s[|s| - 1] == x then y else s[|s| - 1]]
  }

  /**
   * `ts.join(sep)`: the tokens with `sep` between consecutive ones. The empty
   * list joins to the empty string, the first token opens the result, a
   * separator follows it when more tokens come, and the rest is their join.
   */
  function Join(ts: seq<string>, sep: char): (r: string)
    ensures ts == [] ==> r == []
    ensures ts != [] ==> |ts[0]| <= |r| && r[..|ts[0]|] == ts[0]
    ensures |ts| == 1 ==> r == ts[0]
    ensures |ts| > 1 ==> |r| > |ts[0]| && r[|ts[0]|] == sep && r[|ts[0]| + 1..] == Join(ts[1..], sep)
  {
    if ts == [] then []
    else if |ts| == 1 then ts[0]
    else ts[0] + [sep] + Join(ts[1..], sep)
  }

  /**
   * `s.split(sep)` for a one-character separator: at least one token (the empty
   * string gives `[""]`), no token contains `sep`, every character of a token comes
   * from `s`, and joining the tokens with `sep` gives `s` back.
   */
  function Split(s: string, sep: char): (r: seq<string>)
    ensures |r| >= 1
    ensures forall t :: t in r ==> sep !in t
    ensures forall t, c :: t in r && c in t ==> c in s
    ensures Join(r, sep) == s
  {
    if s == [] then [[]]
    else
      var rest := Split(s[1..], sep);
      if s[0] == sep then
        assert [s[0]] + s[1..] == s;
        [[]] + rest
      else
        var r := [[s[0]] + rest[0]] + rest[1..];
        assert forall t :: t in r ==> t == r[0] || t in rest;
        assert forall c :: c in r[0] ==> c == s[0] || c in rest[0];
        assert forall c :: c in s[1..] ==> c in s;
        JoinExtendFirst(s[0], rest, sep);
        assert [s[0]] + s[1..] == s;
        r
  }

  /** Putting a character in front of the first token puts it in front of the join. */
  lemma JoinExtendFirst(c: char, ts: seq<string>, sep: char)
    requires |ts| >= 1
    ensures Join([[c] + ts[0]] + ts[1..], sep) == [c] + Join(ts, sep)
  {
    if |ts| > 1 {
      assert ([[c] + ts[0]] + ts[1..])[1..] == ts[1..];
    }
  }

  /** The other round trip: splitting the join of separator-free tokens gives the tokens back. */
  lemma {:induction false} SplitJoin(ts: seq<string>, sep: char)
    requires |ts| >= 1
    requires forall t :: t in ts ==> sep !in t
    ensures Split(Join(ts, sep), sep) == ts
  {
    if |ts| == 1 {
      SplitNoSeparator(ts[0], sep);
    } else {
      SplitJoin(ts[1..], sep);
      SplitAfterToken(ts[0], Join(ts[1..], sep), sep);
      assert ts == [ts[0]] + ts[1..];
    }
  }

  /** A string without the separator splits into itself alone. */
  lemma {:induction false} SplitNoSeparator(s: string, sep: char)
    requires sep !in s
    ensures Split(s, sep) == [s]
  {
    if s != [] {
      SplitNoSeparator(s[1..], sep);
      assert [s[0]] + s[1..] == s;
    }
  }

  /** A separator-free token followed by the separator opens the token list. */
  lemma {:induction false} SplitAfterToken(t: string, rest: string, sep: char)
    requires sep !in t
    ensures Split(t + [sep] + rest, sep) == [t] + Split(rest, sep)
  {
    if t == [] {
      assert ([] + [sep] + rest)[1..] == rest;
    } else {
      var tail := t[1..] + [sep] + rest;
      assert t + [sep] + rest == [t[0]] + tail;
      assert t[0] in t;
      SplitAfterToken(t[1..], rest, sep);
      SplitNonSeparator(t[0], tail, sep);
      assert [t[0]] + t[1..] == t;
    }
  }

  /** A character other than the separator joins the first token. */
  lemma SplitNonSeparator(c: char, s: string, sep: char)
    requires c != sep
    ensures Split([c] + s, sep) == [[c] + Split(s, sep)[0]] + Split(s, sep)[1..]
  {
    assert ([c] + s)[1..] == s;
  }

  /** `pat` occurs in `s` at index `i`. */
  predicate OccursAt(s: string, pat: string, i: nat)
  {
    i + |pat| <= |s| && s[i..i + |pat|] == pat
  }

  /** The first occurrence of `pat` in `s` at or after `from`. */
  function IndexOfFrom(s: string, pat: string, from: nat): (r: Option<nat>)
    requires from <= |s|
    ensures r.Some? ==> from <= r.value && OccursAt(s, pat, r.value)
    ensures r.Some? ==> forall j :: from <= j < r.value ==> !OccursAt(s, pat, j)
    ensures r.None? ==> forall j :: from <= j ==> !OccursAt(s, pat, j)
    decreases |s| - from
  {
    if OccursAt(s, pat, from) then Some(from)
    else if from == |s| then None
    else IndexOfFrom(s, pat, from + 1)
  }

  /** `s.indexOf(pat)`, with `None` for JavaScript's `-1`: the first index at which `pat` occurs. */
  function IndexOf(s: string, pat: string): (r: Option<nat>)
    ensures r.Some? <==> exists j :: OccursAt(s, pat, j)
    ensures r.Some? ==> OccursAt(s, pat, r.value) && forall j :: 0 <= j < r.value ==> !OccursAt(s, pat, j)
  {
    IndexOfFrom(s, pat, 0)
  }

  /**
   * `s.replace(pat, rep)` with a string pattern and a replacement without `$`
   * patterns: the FIRST occurrence of `pat` is replaced, and nothing else changes.
   */
  function ReplaceFirst(s: string, pat: string, rep: string): (r: string)
    ensures IndexOf(s, pat).None? ==> r == s
    ensures IndexOf(s, pat).Some? ==>
      var i := IndexOf(s, pat).value;
      r == s[..i] + rep + s[i + |pat|..]
  {
    match IndexOf(s, pat)
    case None => s
    case Some(i) => s[..i] + rep + s[i + |pat|..]
  }

  /** Replacing the first occurrence by nothing cuts it out. */
  lemma RemoveFirstOccurrence(s: string, pat: string)
    requires IndexOf(s, pat).Some?
    ensures var i := IndexOf(s, pat).value; ReplaceFirst(s, pat, "") == s[..i] + s[i + |pat|..]
  {
    var i := IndexOf(s, pat).value;
    assert s[..i] + "" == s[..i];
  }

  /** Removing the first occurrence of a leading `prefix` removes exactly that prefix. */
  lemma RemoveLeadingOccurrence(prefix: string, rest: string)
    ensures ReplaceFirst(prefix + rest, prefix, "") == rest
  {
    assert OccursAt(prefix + rest, prefix, 0);
    assert IndexOf(prefix + rest, prefix) == Some(0);
  }
}
