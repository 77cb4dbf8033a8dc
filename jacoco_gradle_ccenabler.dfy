/**
 * The Jacoco code-coverage enabler for Gradle builds: decoding of the coverage
 * properties, conversion of package-style class filters into Gradle file
 * patterns, and the choice of one of four configuration templates.
 */
module JacocoGradle {
  import opened Wrappers
  import opened JsString
  import opened JsNumber

  /** The four template generators; the generators themselves are not part of this model. */
  datatype GradleEnabler = MultiV1 | MultiV2 | SingleV1 | SingleV2
  {
    predicate IsMultiModule() { MultiV1? || MultiV2? }
    predicate IsV2() { MultiV2? || SingleV2? }
  }

  // ----- Coverage properties -----

  /** The coverage properties read from the string-keyed property map; absent keys are `None`. */
  datatype CoverageProperties = CoverageProperties(
    buildFile: Option<string>,
    classFilter: Option<string>,
    isMultiModule: bool,
    classFileDirs: Option<string>,
    reportDir: Option<string>,
    gradle5xOrHigher: bool,
    gradleMajorVersion: Option<Number>)  // None is JavaScript's `null`

  function Lookup(m: map<string, string>, key: string): Option<string>
  {
    if key in m then Some(m[key]) else None
  }

  /** A flag property holds only when its value is exactly the string "true". */
  predicate IsTrueFlag(value: Option<string>)
  {
    value.Some? && value.value == "true"
  }

  /**
   * Decoding of the property map: each flag is set exactly when its value is
   * "true"; the version is `null` exactly when its value is the string "null",
   * and an absent version is `NaN`.
   */
  function DecodeProperties(ccProps: map<string, string>): (p: CoverageProperties)
    ensures p.isMultiModule <==> "ismultimodule" in ccProps && ccProps["ismultimodule"] == "true"
    ensures p.gradle5xOrHigher <==> "gradle5xOrHigher" in ccProps && ccProps["gradle5xOrHigher"] == "true"
    ensures p.gradleMajorVersion.None? <==>
      "gradleMajorVersion" in ccProps && ccProps["gradleMajorVersion"] == "null"
    ensures "gradleMajorVersion" in ccProps && ccProps["gradleMajorVersion"] != "null" ==>
      p.gradleMajorVersion == Some(ToNumber(Some(ccProps["gradleMajorVersion"])))
    ensures "gradleMajorVersion" !in ccProps ==> p.gradleMajorVersion == Some(NaN)
    ensures p.buildFile == Lookup(ccProps, "buildfile") && p.classFilter == Lookup(ccProps, "classfilter")
    ensures p.classFileDirs == Lookup(ccProps, "classfilesdirectories") && p.reportDir == Lookup(ccProps, "reportdirectory")
  {
    var version := Lookup(ccProps, "gradleMajorVersion");
    CoverageProperties(
      Lookup(ccProps, "buildfile"),
      Lookup(ccProps, "classfilter"),
      IsTrueFlag(Lookup(ccProps, "ismultimodule")),
      Lookup(ccProps, "classfilesdirectories"),
      Lookup(ccProps, "reportdirectory"),
      IsTrueFlag(Lookup(ccProps, "gradle5xOrHigher")),
      if version == Some("null") then None else Some(ToNumber(version)))
  }

  // ----- Filter patterns -----

  /** `util.isNullOrWhitespace`: absent, or nothing but whitespace. */
  predicate IsNullOrWhitespace(s: Option<string>)
    ensures IsNullOrWhitespace(s) <==> s.None? || AllWhitespace(s.value)
  {
    s.None? || Trim(s.value) == []
  }

  /** `util.trimToEmptyString`: absent becomes the empty string, otherwise the trimmed string. */
  function TrimToEmptyString(s: Option<string>): (r: string)
    ensures IsTrimmed(r)
    ensures r == [] <==> IsNullOrWhitespace(s)
    ensures s.Some? ==> |r| <= |s.value|
    ensures s.None? ==> r == []
    ensures s.Some? ==> r == Trim(s.value)
  {
    if s.None? then [] else Trim(s.value)
  }

  /**
   * The pattern for one non-empty token: quoted, with the token itself right
   * after the opening quote, followed by a slash and two stars when the token ends in a star and
   * by `.class` otherwise.
   */
  function FilterEntry(token: string): (e: string)
    ensures |e| > |token| + 1 && e[0] == '\'' && e[|e| - 1] == '\''
    ensures e[1..|token| + 1] == token
    ensures EndsWith(e, if EndsWith(token, "*") then "/**'" else ".class'")
    ensures |e| == |token| + if EndsWith(token, "*") then 5 else 8
  {
    if EndsWith(token, "*") then "'" + token + "/**'" else "'" + token + ".class'"
  }

  /** Different tokens give different patterns. */
  lemma FilterEntryInjective(a: string, b: string)
    requires FilterEntry(a) == FilterEntry(b)
    ensures a == b
  {
    var ea, eb := FilterEntry(a), FilterEntry(b);
    assert ea[|ea| - 2] == eb[|eb| - 2];
    assert |a| == |b|;
  }

  /** A pattern is quoted, and its only `.` (if any) opens its `.class'` suffix. */
  predicate WellFormedEntry(e: string)
  {
    |e| >= 2 && e[0] == '\'' && e[|e| - 1] == '\''
    && ('.' !in e || (EndsWith(e, ".class'") && '.' !in e[..|e| - 7]))
  }

  /** The non-empty tokens of `ts`, in their order: the reference for which tokens produce a pattern. */
  function NonEmptyTokens(ts: seq<string>): (r: seq<string>)
    ensures |r| <= |ts|
    ensures forall t :: t in r ==> t != [] && t in ts
    ensures forall t :: t in ts && t != [] ==> t in r
  {
    if ts == [] then []
    else
      var init, last := ts[..|ts| - 1], ts[|ts| - 1];
      assert forall t :: t in ts ==> t in init || t == last;
      NonEmptyTokens(init) + (if last == [] then [] else [last])
  }

  /** The list the `forEach` loop builds over `ts`: one pattern per non-empty token, in the tokens' order. */
  function FilterEntries(ts: seq<string>): (r: seq<string>)
    ensures |r| == |NonEmptyTokens(ts)|
    ensures forall k :: 0 <= k < |r| ==> r[k] == FilterEntry(NonEmptyTokens(ts)[k])
  {
    if ts == [] then []
    else
      var last := ts[|ts| - 1];
      FilterEntries(ts[..|ts| - 1]) + (if last == [] then [] else [FilterEntry(last)])
  }

  /** One more token adds its pattern at the end, or nothing when it is empty. */
  lemma FilterEntriesStep(ts: seq<string>, i: nat)
    requires i < |ts|
    ensures FilterEntries(ts[..i + 1]) == FilterEntries(ts[..i]) + if ts[i] == [] then [] else [FilterEntry(ts[i])]
  {
    assert ts[..i + 1][..i] == ts[..i];
  }

  /** Tokens without `.` give well-formed patterns. */
  lemma {:induction false} FilterEntriesWellFormed(ts: seq<string>)
    requires forall t :: t in ts ==> '.' !in t
    ensures forall e :: e in FilterEntries(ts) ==> WellFormedEntry(e)
  {
    if ts != [] {
      var init, last := ts[..|ts| - 1], ts[|ts| - 1];
      assert forall t :: t in init ==> t in ts;
      FilterEntriesWellFormed(init);
      if last != [] {
        FilterEntryWellFormed(last);
      }
    }
  }

  /** A non-empty token without `.` gives a well-formed pattern. */
  lemma FilterEntryWellFormed(t: string)
    requires t != [] && '.' !in t
    ensures WellFormedEntry(FilterEntry(t))
  {
    var e := FilterEntry(t);
    if EndsWith(t, "*") {
      assert e == "'" + t + "/**'";
      forall k | 0 <= k < |e| ensures e[k] != '.' {
        if 1 <= k < |t| + 1 {
          assert e[k] == t[k - 1] && t[k - 1] in t;
        } else if k > |t| {
          assert e[k] == "/**'"[k - |t| - 1];
        }
      }
    } else {
      assert e == "'" + t + ".class'";
      assert e[..|e| - 7] == "'" + t;
      forall k | 0 <= k < |e| - 7 ensures e[k] != '.' {
        if 1 <= k {
          assert e[k] == t[k - 1] && t[k - 1] in t;
        }
      }
    }
  }

  /**
   * For a filter that is present and not blank, the patterns correspond one to one,
   * in order, to the non-empty `:`-separated tokens of the trimmed filter in which
   * every `.` has become `/`.
   */
  lemma FilterPatternsCorrespond(filter: string)
    requires Trim(filter) != []
    ensures var ts := NonEmptyTokens(FilterTokens(filter));
      && |FilterPatterns(Some(filter))| == |ts|
      && forall k :: 0 <= k < |ts| ==> FilterPatterns(Some(filter))[k] == FilterEntry(ts[k])
  {
  }

  /** The `:`-separated tokens of the trimmed filter once every `.` has become `/`. */
  function FilterTokens(filter: string): (ts: seq<string>)
    ensures forall t :: t in ts ==> '.' !in t && ':' !in t
    ensures Join(ts, ':') == ReplaceAllChar(Trim(filter), '.', '/')
  {
    var converted := ReplaceAllChar(Trim(filter), '.', '/');
    var ts := Split(converted, ':');
    assert '.' !in converted;
    ts
  }

  /**
   * What `applyFilterPattern` returns: nothing for an absent or blank filter,
   * otherwise one well-formed pattern per non-empty token.
   */
  function FilterPatterns(filter: Option<string>): (r: seq<string>)
    ensures IsNullOrWhitespace(filter) ==> r == []
    ensures forall e :: e in r ==> WellFormedEntry(e)
  {
    if IsNullOrWhitespace(filter) then []
    else
      var ts := FilterTokens(filter.value);
      FilterEntriesWellFormed(ts);
      FilterEntries(ts)
  }

  /** `applyFilterPattern`: the loop over the tokens pushes one pattern per non-empty token. */
  method ApplyFilterPattern(filter: Option<string>) returns (ccfilter: seq<string>)
    ensures ccfilter == FilterPatterns(filter)
  {
    ccfilter := [];
    if !IsNullOrWhitespace(filter) {
      var tokens := Split(ReplaceAllChar(TrimToEmptyString(filter), '.', '/'), ':');
      var i := 0;
      while i < |tokens|
        invariant 0 <= i <= |tokens|
        invariant ccfilter == FilterEntries(tokens[..i])
      {
        var exFilter := tokens[i];
        FilterEntriesStep(tokens, i);
        if exFilter != [] {
          var entry := if EndsWith(exFilter, "*") then "'" + exFilter + "/**'" else "'" + exFilter + ".class'";
          assert entry == FilterEntry(exFilter);
          ccfilter := ccfilter + [entry];
        }
        assert ccfilter == FilterEntries(tokens[..i + 1]);
        i := i + 1;
      }
      assert tokens[..|tokens|] == tokens;
    }
  }

  /** A trimmed filter without `:` gives exactly one pattern, for its dot-converted self. */
  lemma SingleTokenFilter(f: string)
    requires f != [] && IsTrimmed(f) && ':' !in f
    ensures FilterPatterns(Some(f)) == [FilterEntry(ReplaceAllChar(f, '.', '/'))]
  {
    TrimOfTrimmed(f);
    var converted := ReplaceAllChar(f, '.', '/');
    assert ':' !in converted by {
      forall k | 0 <= k < |converted| ensures converted[k] != ':' {
        assert f[k] in f;
      }
    }
    SplitNoSeparator(converted, ':');
    assert FilterTokens(f) == [converted];
    assert FilterEntries([converted]) == [FilterEntry(converted)];
  }

  /** A trailing wildcard keeps its star and gains a recursive glob: `com.foo.*` is not `com/foo/` plus the glob. */
  lemma WildcardFilterExample()
    ensures FilterPatterns(Some("com.foo.*")) == ["'com/foo/*/**'"]
  {
    WildcardTrimmed();
    WildcardConverted();
    WildcardEntry();
    SingleTokenFilter("com.foo.*");
  }

  lemma WildcardTrimmed()
    ensures "com.foo.*" != [] && IsTrimmed("com.foo.*") && ':' !in "com.foo.*"
  {
    assert "com.foo.*"[0] == 'c' && "com.foo.*"[8] == '*';
  }

  lemma WildcardConverted()
    ensures ReplaceAllChar("com.foo.*", '.', '/') == "com/foo/*"
  {
    var converted := ReplaceAllChar("com.foo.*", '.', '/');
    forall k | 0 <= k < 9 ensures converted[k] == "com/foo/*"[k] {}
  }

  lemma WildcardEntry()
    ensures FilterEntry("com/foo/*") == "'com/foo/*/**'"
  {
    assert EndsWith("com/foo/*", "*");
  }

  /** A class name becomes an exact `.class` pattern. */
  lemma ClassFilterExample()
    ensures FilterPatterns(Some("com.foo.Bar")) == ["'com/foo/Bar.class'"]
  {
    ClassNameTrimmed();
    ClassNameConverted();
    ClassNameEntry();
    SingleTokenFilter("com.foo.Bar");
  }

  lemma ClassNameTrimmed()
    ensures "com.foo.Bar" != [] && IsTrimmed("com.foo.Bar") && ':' !in "com.foo.Bar"
  {
    assert "com.foo.Bar"[0] == 'c' && "com.foo.Bar"[10] == 'r';
  }

  lemma ClassNameEntry()
    ensures FilterEntry("com/foo/Bar") == "'com/foo/Bar.class'"
  {
    assert "com/foo/Bar"[10..][0] == 'r';
    assert !EndsWith("com/foo/Bar", "*");
  }

  lemma ClassNameConverted()
    ensures ReplaceAllChar("com.foo.Bar", '.', '/') == "com/foo/Bar"
  {
    var converted := ReplaceAllChar("com.foo.Bar", '.', '/');
    forall k | 0 <= k < 11 ensures converted[k] == "com/foo/Bar"[k] {}
  }

  // ----- Template selection -----

  /** `isMultiModule ? "multi" : "single"`. */
  function ModuleType(isMultiModule: bool): (r: string)
    ensures r == "multi" || r == "single"
    ensures r == "multi" <==> isMultiModule
  {
    if isMultiModule then "multi" else "single"
  }

  /** `gradleMajorVersion >= 6 ? "V2" : "V1"`; `null` compares as 0 and `NaN` as never. */
  function TemplateVersion(gradleMajorVersion: Option<Number>): (r: string)
    ensures r == "V1" || r == "V2"
    ensures r == "V2" <==> gradleMajorVersion.Some? && AtLeast(gradleMajorVersion.value, 6)
    ensures gradleMajorVersion == None || gradleMajorVersion == Some(NaN) ==> r == "V1"
  {
    if gradleMajorVersion.Some? && AtLeast(gradleMajorVersion.value, 6) then "V2" else "V1"
  }

  /**
   * `getJacocoGradleEnablerFunction`: the switch on "<module>-<template>". Its
   * error branch is unreachable, so the choice is total; the enabler is
   * multi-module exactly for multi-module projects and V2 exactly when the
   * version is present and at least 6.
   */
  function GetJacocoGradleEnablerFunction(isMultiModule: bool, gradleMajorVersion: Option<Number>): (r: Result<GradleEnabler>)
    ensures r.Success?
    ensures r.value.IsMultiModule() <==> isMultiModule
    ensures r.value.IsV2() <==> gradleMajorVersion.Some? && AtLeast(gradleMajorVersion.value, 6)
  {
    var key := ModuleType(isMultiModule) + "-" + TemplateVersion(gradleMajorVersion);
    assert |"multi-V1"| != |"single-V1"| && "multi-V1"[7] != "multi-V2"[7] && "single-V1"[8] != "single-V2"[8];
    if key == "multi-V1" then Success(MultiV1)
    else if key == "multi-V2" then Success(MultiV2)
    else if key == "single-V1" then Success(SingleV1)
    else if key == "single-V2" then Success(SingleV2)
    else Failure("Invalid Gradle version or module type.")
  }

  /** The four (module type, template version) combinations reach four different enablers. */
  lemma EnablersDistinct(m1: bool, v1: Option<Number>, m2: bool, v2: Option<Number>)
    requires GetJacocoGradleEnablerFunction(m1, v1) == GetJacocoGradleEnablerFunction(m2, v2)
    ensures m1 == m2
    ensures TemplateVersion(v1) == TemplateVersion(v2)
  {
  }

  /** From the raw property map to the template: multi-module V2 needs "true" and a version of at least 6. */
  lemma SelectionFromProperties(ccProps: map<string, string>)
    ensures var p := DecodeProperties(ccProps);
      GetJacocoGradleEnablerFunction(p.isMultiModule, p.gradleMajorVersion) == Success(MultiV2) <==>
        && "ismultimodule" in ccProps && ccProps["ismultimodule"] == "true"
        && "gradleMajorVersion" in ccProps && ccProps["gradleMajorVersion"] != "null"
        && AtLeast(ToNumber(Some(ccProps["gradleMajorVersion"])), 6)
    ensures var p := DecodeProperties(ccProps);
      GetJacocoGradleEnablerFunction(p.isMultiModule, p.gradleMajorVersion).value.IsV2() <==>
        && "gradleMajorVersion" in ccProps && ccProps["gradleMajorVersion"] != "null"
        && AtLeast(ToNumber(Some(ccProps["gradleMajorVersion"])), 6)
  {
  }

  /** Multi-module with version 6 gives the multi-module V2 template; single-module with 5 or "null" gives V1. */
  lemma SelectionExamples()
    ensures var p := DecodeProperties(map["ismultimodule" := "true", "gradleMajorVersion" := "6"]);
      GetJacocoGradleEnablerFunction(p.isMultiModule, p.gradleMajorVersion) == Success(MultiV2)
    ensures var p := DecodeProperties(map["ismultimodule" := "false", "gradleMajorVersion" := "5"]);
      GetJacocoGradleEnablerFunction(p.isMultiModule, p.gradleMajorVersion) == Success(SingleV1)
    ensures var p := DecodeProperties(map["ismultimodule" := "True", "gradleMajorVersion" := "null"]);
      GetJacocoGradleEnablerFunction(p.isMultiModule, p.gradleMajorVersion) == Success(SingleV1)
  {
    ToNumberOfDecimal(6);
    ToNumberOfDecimal(5);
    assert DecimalString(6) == "6";
    assert DecimalString(5) == "5";
  }

  // ----- The enabler -----

  /** The include and exclude filters the base class extracts from the class filter. */
  datatype ExtractedFilters = ExtractedFilters(includeFilter: Option<string>, excludeFilter: Option<string>)

  /** The arguments handed to the chosen template generator. */
  datatype TemplateCall = TemplateCall(
    enabler: GradleEnabler,
    excludes: string,
    includes: string,
    classFileDirs: Option<string>,
    reportDir: Option<string>,
    gradle5xOrHigher: bool)

  class JacocoGradleCodeCoverageEnabler {
    var buildFile: Option<string>

    constructor ()
      ensures buildFile == None
    {
      buildFile := None;
    }

    /**
     * `enableCodeCoverage`: records the build file, converts both filters,
     * selects the template and appends its text to the build file. The outcome
     * of the append is the parameter `appendSucceeded`; a failed append rejects.
     */
    method EnableCodeCoverage(ccProps: map<string, string>, extractFilters: Option<string> -> ExtractedFilters, appendSucceeded: bool)
      returns (outcome: Result<string>, call: TemplateCall)
      modifies this
      ensures var p := DecodeProperties(ccProps);
        && buildFile == p.buildFile
        && call.enabler == GetJacocoGradleEnablerFunction(p.isMultiModule, p.gradleMajorVersion).value
        && call.excludes == Join(FilterPatterns(extractFilters(p.classFilter).excludeFilter), ',')
        && call.includes == Join(FilterPatterns(extractFilters(p.classFilter).includeFilter), ',')
        && call.classFileDirs == p.classFileDirs
        && call.reportDir == p.reportDir
        && call.gradle5xOrHigher == p.gradle5xOrHigher
      ensures outcome == if appendSucceeded then Success("") else Failure("FailedToAppendCC")
    {
      var p := DecodeProperties(ccProps);
      buildFile := p.buildFile;
      var filter := extractFilters(p.classFilter);
      var jacocoExclude := ApplyFilterPattern(filter.excludeFilter);
      var jacocoInclude := ApplyFilterPattern(filter.includeFilter);
      var enabler := GetJacocoGradleEnablerFunction(p.isMultiModule, p.gradleMajorVersion);
      call := TemplateCall(enabler.value, Join(jacocoExclude, ','), Join(jacocoInclude, ','),
        p.classFileDirs, p.reportDir, p.gradle5xOrHigher);
      if appendSucceeded {
        outcome := Success("");
      } else {
        outcome := Failure("FailedToAppendCC");
      }
    }
  }
}
