/** Wiring a release keystore into a generated build.gradle by rewriting its text. */
module GradleSigning {
  import opened Wrappers
  import opened Search
  import opened Text

  const SIGNING_CONFIGS: string := "signingConfigs {"
  const BUILD_TYPES: string := "buildTypes {"
  const RELEASE_BLOCK: string := "release {"
  const DEBUG_STATEMENT: string := "signingConfig signingConfigs.debug"
  const RELEASE_STATEMENT: string := "signingConfig signingConfigs.release"

  datatype Signing = Signing(storeFile: string, storePassword: string, keyAlias: string, keyPassword: string)

  // ---------- Blocks ----------

  /** The change of brace depth over s[from..to]. */
  function Depth(s: string, from: nat, to: nat): int
    requires from <= to <= |s|
  {
    if from == to then 0
    else Depth(s, from, to - 1) + if s[to - 1] == '{' then 1 else if s[to - 1] == '}' then -1 else 0
  }

  /** The braces of s from open on balance at a closing brace that ends at e. */
  predicate ClosesAt(s: string, open: nat, e: int) {
    open < e <= |s| && s[e - 1] == '}' && Depth(s, open, e) == 0
  }

  /** endOfBlock as a specification: the least balanced end from position i on, or -1. */
  function BlockEnd(s: string, open: nat, i: nat): (end: int)
    requires open <= i <= |s|
    ensures end == -1 || ClosesAt(s, open, end)
    decreases |s| - i
  {
    if i == |s| then -1 else if ClosesAt(s, open, i + 1) then i + 1 else BlockEnd(s, open, i + 1)
  }

  method EndOfBlock(contents: string, openIndex: nat) returns (end: int)
    requires openIndex <= |contents|
    ensures end == BlockEnd(contents, openIndex, openIndex)
  {
    var depth := 0;
    for i := openIndex to |contents|
      invariant depth == Depth(contents, openIndex, i)
      invariant BlockEnd(contents, openIndex, openIndex) == BlockEnd(contents, openIndex, i)
    {
      if contents[i] == '{' {
        depth := depth + 1;
      } else if contents[i] == '}' {
        depth := depth - 1;
        if depth == 0 { return i + 1; }
      }
    }
    return -1;
  }

  // ---------- The release entry of signingConfigs ----------

  function Line(before: string, value: string, after: string): string {
    before + value + after
  }

  function Body(signing: Signing): string {
    Line("\n            storeFile file('", signing.storeFile, "')") +
    (Line("\n            storePassword '", signing.storePassword, "'") +
    (Line("\n            keyAlias '", signing.keyAlias, "'") +
    (Line("\n            keyPassword '", signing.keyPassword, "'") +
    INDENT)))
  }

  const INDENT: string := "\n        "

  function Entry(signing: Signing): string {
    RELEASE_BLOCK + Body(signing) + "}"
  }

  predicate IsWord(c: char) {
    'a' <= c <= 'z' || 'A' <= c <= 'Z' || '0' <= c <= '9' || c == '_'
  }

  /** Only spaces between i and the next brace of s[..end]. */
  predicate BraceFollows(s: string, i: nat, end: nat)
    requires end <= |s|
    decreases end - i
  {
    i < end && (s[i] == '{' || (IsSpace(s[i]) && BraceFollows(s, i + 1, end)))
  }

  const RELEASE: string := "release"

  /** The word `release` at p, then spaces and a brace, all before end. */
  predicate EntryAt(s: string, p: int, end: nat)
    requires end <= |s|
  {
    && OccursAt(s, RELEASE, p)
    && (p == 0 || !IsWord(s[p - 1]))
    && BraceFollows(s, p + |RELEASE|, end)
  }

  /** The first such entry of s[from..end], or -1. */
  function FindEntry(s: string, from: nat, end: nat): (p: int)
    requires end <= |s|
    ensures p == -1 || (from <= p && EntryAt(s, p, end))
    decreases end - from
  {
    if from >= end then -1 else if EntryAt(s, from, end) then from else FindEntry(s, from + 1, end)
  }

  /** Where the search for an existing entry ends. */
  function RegionEnd(contents: string, anchor: nat): (e: nat)
    ensures e <= |contents|
  {
    var b := IndexOf(contents, BUILD_TYPES, anchor);
    if b == -1 then |contents| else b
  }

  /**
   * Writes an entry over the one found, or behind the anchor. The region is searched in place
   * rather than in a copy: it starts with the `s` of the anchor, so no word boundary is lost.
   */
  function WriteEntry(contents: string, entry: string): Option<string> {
    var anchor := IndexOf(contents, SIGNING_CONFIGS, 0);
    if anchor == -1 then None
    else
      var start := FindEntry(contents, anchor, RegionEnd(contents, anchor));
      if start != -1 then
        var open := IndexOf(contents, "{", start);
        if open == -1 then None
        else
          var end := BlockEnd(contents, open, open);
          if end == -1 then None
          else Some(contents[..start] + entry + contents[end..])
      else
        var insertAt := anchor + |SIGNING_CONFIGS|;
        Some(contents[..insertAt] + (INDENT + entry) + contents[insertAt..])
  }

  function AddReleaseSigningConfig(contents: string, signing: Signing): Option<string> {
    WriteEntry(contents, Entry(signing))
  }

  // ---------- The release build type ----------

  /** Where the release build type starts, or -1. */
  function ReleaseIndex(contents: string): (r: int)
    ensures -1 <= r <= |contents|
  {
    var buildTypes := IndexOf(contents, BUILD_TYPES, 0);
    if buildTypes == -1 then -1 else IndexOf(contents, RELEASE_BLOCK, buildTypes)
  }

  /** From the release block on, its own statement comes before any debug statement. */
  predicate AlreadyPointed(contents: string, release: nat) {
    var debug := IndexOf(contents, DEBUG_STATEMENT, release);
    var own := IndexOf(contents, RELEASE_STATEMENT, release);
    own != -1 && (debug == -1 || own < debug)
  }

  function Repoint(contents: string, debug: nat): string
    requires debug + |DEBUG_STATEMENT| <= |contents|
  {
    contents[..debug] + RELEASE_STATEMENT + contents[debug + |DEBUG_STATEMENT|..]
  }

  function PointReleaseAtReleaseKey(contents: string): Option<string> {
    var release := ReleaseIndex(contents);
    if release == -1 then None
    else if AlreadyPointed(contents, release) then Some(contents)
    else
      var debug := IndexOf(contents, DEBUG_STATEMENT, release);
      if debug == -1 then None else Some(Repoint(contents, debug))
  }

  /** The plugin: both rewrites, or nothing. */
  function Rewrite(contents: string, signing: Signing): Option<string> {
    var added := AddReleaseSigningConfig(contents, signing);
    if added.None? then None else PointReleaseAtReleaseKey(added.value)
  }
}
