/** What the conditions on the two rewrites keep out: files and values on which they do not settle. */
module GradleOrderTheorems {
  import opened Wrappers
  import opened Search
  import opened Sequences
  import opened GradleSigning
  import opened GradleSigningTheorems
  import opened GradleBlockTheorems
  import opened GradleRewriteTheorems

  // ---------- A value with a lone brace ----------

  const FILE_LINE: string := "\n            storeFile file('"

  lemma ClosesEarly(entry: string, k: nat)
    requires RELEASE_BLOCK <= entry && |RELEASE_BLOCK| <= k < |entry| - 1 && entry[k] == '}'
    requires NoBraces(entry[|RELEASE_BLOCK|..k])
    ensures !SelfClosed(entry)
  {
    var open := |RELEASE| + 1;
    forall i | open < i < k ensures entry[i] != '{' && entry[i] != '}' {
      assert entry[i] == entry[|RELEASE_BLOCK|..k][i - |RELEASE_BLOCK|];
    }
    FlatDepth(entry, open, k);
    assert ClosesAt(entry, open, k + 1);
    BlockEndIsLeast(entry, open, open, k + 1);
  }

  lemma FileLine(signing: Signing)
    ensures RELEASE_BLOCK + FILE_LINE + signing.storeFile <= Entry(signing) && NoBraces(FILE_LINE)
    ensures |Entry(signing)| > |RELEASE_BLOCK + FILE_LINE + signing.storeFile|
  {
    var rest := Entry(signing)[|RELEASE_BLOCK + FILE_LINE + signing.storeFile|..];
    assert Entry(signing) == RELEASE_BLOCK + FILE_LINE + signing.storeFile + rest;
  }

  lemma MiddleReads(a: string, b: string, c: string, s: string)
    requires a + b + c <= s && c != ""
    ensures s[|a|..|a + b|] == b && s[|a + b|] == c[0]
  {
    assert s[..|a + b + c|] == a + b + c;
    assert s[|a|..|a + b|] == s[..|a + b + c|][|a|..|a + b|];
    assert s[|a + b|] == s[..|a + b + c|][|a + b|];
  }

  /** A store file that opens with a closing brace makes the entry grow with every prebuild. */
  lemma LoneBraceNeverSettles(contents: string, signing: Signing)
    requires signing.storeFile != "" && signing.storeFile[0] == '}'
    requires AddReleaseSigningConfig(contents, signing).Some?
    ensures var added := AddReleaseSigningConfig(contents, signing).value;
      AddReleaseSigningConfig(added, signing) != Some(added)
  {
    var entry, k := Entry(signing), |RELEASE_BLOCK + FILE_LINE|;
    FileLine(signing);
    EntryOpens(signing);
    MiddleReads(RELEASE_BLOCK, FILE_LINE, signing.storeFile, entry);
    ClosesEarly(entry, k);
    AddTwiceIff(contents, signing);
  }

  /** There is such a file: the anchor alone. */
  lemma AnchorIsWritten(signing: Signing)
    ensures AddReleaseSigningConfig(SIGNING_CONFIGS, signing).Some?
  {
    var s := SIGNING_CONFIGS;
    IndexOfIs(s, SIGNING_CONFIGS, 0, 0);
    Literals();
    forall q | 0 <= q < |s| ensures !EntryAt(s, q, RegionEnd(s, 0)) { NotAt(s, RELEASE, q, 0); }
    assert FindEntry(s, 0, RegionEnd(s, 0)) == -1;
  }

  // ---------- Build types before the signing configs ----------

  const HEAD: string := BUILD_TYPES + RELEASE_BLOCK + SIGNING_CONFIGS
  const EMPTY: string := " {}"

  /** A statement in front of the old entry, and a block behind the statement. */
  function Text(statement: string, tail: string): string {
    HEAD + statement + EMPTY + tail
  }

  function OtherOrder(): string {
    Text(DEBUG_STATEMENT, RELEASE_BLOCK + "}")
  }

  predicate Statement(s: string) {
    s in {DEBUG_STATEMENT, RELEASE_STATEMENT}
  }

  lemma HeadReads()
    ensures |HEAD| == 37 && HEAD[..12] == BUILD_TYPES && HEAD[12..21] == RELEASE_BLOCK && HEAD[21..] == SIGNING_CONFIGS
    ensures forall i :: 0 <= i < 36 && HEAD[i] == 's' && HEAD[i + 1] == 'i' ==> i == 21
    ensures HEAD[34] == 's' && HEAD[36] == '{'
    ensures forall i :: 21 <= i < 37 ==> HEAD[i] != 'r' && HEAD[i] != 'b'
  {
  }

  lemma StatementReads(s: string)
    requires Statement(s)
    ensures |s| >= 34 && s[0] == 's' && s[1] == 'i' && s[13] == ' '
    ensures forall i :: 0 <= i < 29 ==> s[i] != 'r' && s[i] != 'b' && s[i] != '{'
    ensures s == DEBUG_STATEMENT ==>
      && |s| == 34 && s[31] == 'b' && s[33] == 'g'
      && (forall i :: 29 <= i < 34 ==> s[i] != 'r' && s[i] != '{' && (s[i] == 'b' ==> i == 31))
    ensures s == RELEASE_STATEMENT ==>
      && |s| == 36 && s[28] == '.' && s[29..] == RELEASE
      && (forall i :: 29 <= i < 36 ==> s[i] != 'b' && s[i] != '{')
  {
  }

  /** The text, position by position. */
  lemma TextReads(statement: string, tail: string)
    requires Statement(statement)
    ensures var s, n := Text(statement, tail), 37 + |statement|;
      && |s| == n + 3 + |tail| && s[..37] == HEAD && s[37..n] == statement && s[n + 3..] == tail
      && (forall i :: 0 <= i < 37 ==> s[i] == HEAD[i])
      && (forall i :: 0 <= i < |statement| ==> s[37 + i] == statement[i])
      && s[n] == ' ' && s[n + 1] == '{' && s[n + 2] == '}'
  {
    HeadReads();
  }

  lemma NotSi(s: string, pattern: string, q: nat)
    requires |pattern| >= 2 && pattern[0] == 's' && pattern[1] == 'i'
    requires q + 1 < |s| && !(s[q] == 's' && s[q + 1] == 'i')
    ensures !OccursAt(s, pattern, q)
  {
    if s[q] != 's' { NotAt(s, pattern, q, 0); } else { NotAt(s, pattern, q, 1); }
  }

  /** The anchor, the build types and the release block are where the head has them. */
  lemma HeadIsFound(statement: string, tail: string)
    requires Statement(statement)
    ensures var s := Text(statement, tail); IndexOf(s, SIGNING_CONFIGS, 0) == 21 && ReleaseIndex(s) == 12
  {
    TextReads(statement, tail);
    HeadReads();
    HeadPlaces(Text(statement, tail));
  }

  lemma HeadPlaces(s: string)
    requires |HEAD| == 37 && HEAD <= s
    requires HEAD[..12] == BUILD_TYPES && HEAD[12..21] == RELEASE_BLOCK && HEAD[21..] == SIGNING_CONFIGS
    requires forall i :: 0 <= i < 36 && HEAD[i] == 's' && HEAD[i + 1] == 'i' ==> i == 21
    ensures IndexOf(s, SIGNING_CONFIGS, 0) == 21 && ReleaseIndex(s) == 12
  {
    assert s[..37] == HEAD && forall i :: 0 <= i < 37 ==> s[i] == HEAD[i];
    assert s[0..12] == s[..37][0..12] && s[12..21] == s[..37][12..21] && s[21..37] == s[..37][21..37];
    IndexOfIs(s, BUILD_TYPES, 0, 0);
    forall q | 0 <= q < 12 ensures !OccursAt(s, RELEASE_BLOCK, q) { NoReleaseInTypes(s, 0, q); }
    IndexOfIs(s, RELEASE_BLOCK, 0, 12);
    forall q | 0 <= q < 21 ensures !OccursAt(s, SIGNING_CONFIGS, q) { NotSi(s, SIGNING_CONFIGS, q); }
    IndexOfIs(s, SIGNING_CONFIGS, 0, 21);
  }

  /** No statement starts in the head: the anchor differs from it at its fourteenth character. */
  lemma NoStatementInHead(statement: string, tail: string, pattern: string, q: nat)
    requires Statement(statement) && Statement(pattern) && q < 37
    ensures !OccursAt(Text(statement, tail), pattern, q)
  {
    var s := Text(statement, tail);
    TextReads(statement, tail);
    HeadReads();
    StatementReads(pattern);
    StatementReads(statement);
    if q == 21 { NotAt(s, pattern, q, 13); } else { NotSi(s, pattern, q); }
  }

  /** The second rewrite turns the debug statement in front of the entry. */
  lemma PointedText(tail: string)
    ensures PointReleaseAtReleaseKey(Text(DEBUG_STATEMENT, tail)) == Some(Text(RELEASE_STATEMENT, tail))
  {
    var s := Text(DEBUG_STATEMENT, tail);
    TextReads(DEBUG_STATEMENT, tail);
    HeadIsFound(DEBUG_STATEMENT, tail);
    StatementReads(DEBUG_STATEMENT);
    StatementReads(RELEASE_STATEMENT);
    forall q | 12 <= q < 37 ensures !OccursAt(s, DEBUG_STATEMENT, q) && !OccursAt(s, RELEASE_STATEMENT, q) {
      NoStatementInHead(DEBUG_STATEMENT, tail, DEBUG_STATEMENT, q);
      NoStatementInHead(DEBUG_STATEMENT, tail, RELEASE_STATEMENT, q);
    }
    IndexOfIs(s, DEBUG_STATEMENT, 12, 37);
    IndexOfMeans(s, RELEASE_STATEMENT, 12);
    assert RELEASE_STATEMENT[29] == RELEASE[0];
    NotAt(s, RELEASE_STATEMENT, 37, 29);
    RepointMiddle(HEAD, EMPTY + tail);
    Assoc(HEAD + DEBUG_STATEMENT, EMPTY, tail);
    Assoc(HEAD + RELEASE_STATEMENT, EMPTY, tail);
  }

  lemma RepointMiddle(pre: string, post: string)
    ensures Repoint(pre + DEBUG_STATEMENT + post, |pre|) == pre + RELEASE_STATEMENT + post
  {
  }

  /** An empty block `{}`. */
  lemma EmptyEnds(s: string, open: nat)
    requires open + 2 <= |s| && s[open] == '{' && s[open + 1] == '}'
    ensures BlockEnd(s, open, open) == open + 2
  {
    assert Depth(s, open, open) == 0;
    assert Depth(s, open, open + 1) == 1;
    assert Depth(s, open, open + 2) == 0;
    BlockEndFirst(s, open, open, open + 2);
  }

  /** An entry found at p, with an empty block, is replaced. */
  lemma Replaced(s: string, entry: string, p: nat)
    requires IndexOf(s, SIGNING_CONFIGS, 0) == 21 && FindEntry(s, 21, RegionEnd(s, 21)) == p
    requires p + 10 <= |s| && IndexOf(s, "{", p) == p + 8 && s[p + 8] == '{' && s[p + 9] == '}'
    ensures WriteEntry(s, entry) == Some(s[..p] + entry + s[p + 10..])
  {
    EmptyEnds(s, p + 8);
  }

  /** Behind the anchor no `r` stands before the old entry, and one `b` in all. */
  lemma OtherOrderReads(s: string)
    requires s == OtherOrder()
    ensures |s| == 84 && s[73] == '}' && s[82] == '{' && s[83] == '}' && s[70] == 'g'
    ensures forall q :: 21 <= q < 74 ==> s[q] != 'r'
    ensures forall q :: 21 <= q < 84 && s[q] == 'b' ==> q == 68
  {
    TextReads(DEBUG_STATEMENT, RELEASE_BLOCK + "}");
    HeadReads();
    StatementReads(DEBUG_STATEMENT);
    TypesRead();
    assert forall q :: 74 <= q < 84 ==> s[q] == s[74..][q - 74];
  }

  lemma OldEntryIsFound(s: string, pre: string)
    requires s == pre + (RELEASE_BLOCK + "}") && |s| == 84 && |pre| == 74 && pre[73] == '}' && s[70] == 'g'
    requires forall q :: 21 <= q < 74 ==> s[q] != 'r'
    requires forall q :: 21 <= q < 84 && s[q] == 'b' ==> q == 68
    ensures FindEntry(s, 21, RegionEnd(s, 21)) == 74 && IndexOf(s, "{", 74) == 82
  {
    TypesRead();
    Literals();
    forall q | 21 <= q ensures !OccursAt(s, BUILD_TYPES, q) {
      if q < 84 { NotAt(s, BUILD_TYPES, q, if q == 68 then 2 else 0); }
    }
    IndexOfMeans(s, BUILD_TYPES, 21);
    ReleaseAt(pre, RELEASE_BLOCK + "}", |s|);
    forall q | 21 <= q < 74 ensures !EntryAt(s, q, |s|) { NotAt(s, RELEASE, q, 0); }
    FindEntryIs(s, 21, |s|, 74);
  }

  lemma OldIsReplaced(pre: string, block: string, entry: string)
    ensures (pre + block)[..|pre|] + entry + (pre + block)[|pre| + |block|..] == pre + entry
  {
  }

  /** The first rewrite replaces the block entry behind the statement. */
  lemma OtherOrderIsWritten(entry: string)
    ensures WriteEntry(OtherOrder(), entry) == Some(Text(DEBUG_STATEMENT, entry))
  {
    var s, pre, block := OtherOrder(), HEAD + DEBUG_STATEMENT + EMPTY, RELEASE_BLOCK + "}";
    HeadIsFound(DEBUG_STATEMENT, block);
    OtherOrderReads(s);
    assert s == pre + block;
    OldEntryIsFound(s, pre);
    Replaced(s, entry, 74);
    OldIsReplaced(pre, block, entry);
  }

  lemma TypesRead()
    ensures BUILD_TYPES[0] == 'b' && BUILD_TYPES[2] == 'i'
    ensures forall i :: 0 <= i < 10 ==> (RELEASE_BLOCK + "}")[i] != 'b'
  {
  }

  /** Behind the anchor neither `r` nor `b` stands before the statement's own word `release`. */
  lemma PointedReads(s: string, entry: string)
    requires s == Text(RELEASE_STATEMENT, entry)
    ensures |s| == 76 + |entry| && s[65] == '.' && s[66..73] == RELEASE && s[73] == ' ' && s[74] == '{' && s[75] == '}'
    ensures forall q :: 21 <= q < 66 ==> s[q] != 'r'
    ensures forall q :: 21 <= q < 76 ==> s[q] != 'b'
    ensures forall q :: 66 <= q < 74 ==> s[q] != '{'
  {
    TextReads(RELEASE_STATEMENT, entry);
    HeadReads();
    StatementReads(RELEASE_STATEMENT);
    assert s[66..73] == s[37..73][29..];
  }

  lemma StatementIsFound(s: string)
    requires |s| >= 76 && s[65] == '.' && s[66..73] == RELEASE && s[73] == ' ' && s[74] == '{'
    requires forall q :: 21 <= q < 66 ==> s[q] != 'r'
    requires forall q :: 21 <= q < 76 ==> s[q] != 'b'
    ensures FindEntry(s, 21, RegionEnd(s, 21)) == 66
  {
    TypesRead();
    Literals();
    forall q | 21 <= q < 76 ensures !OccursAt(s, BUILD_TYPES, q) { NotAt(s, BUILD_TYPES, q, 0); }
    IndexOfMeans(s, BUILD_TYPES, 21);
    var e := RegionEnd(s, 21);
    assert e >= 76;
    BraceFollowsIs(s, 73, 74, e);
    assert EntryAt(s, 66, e);
    forall q | 21 <= q < 66 ensures !EntryAt(s, q, e) { NotAt(s, RELEASE, q, 0); }
    FindEntryIs(s, 21, e, 66);
  }

  lemma BraceIsFound(s: string, from: nat, p: nat)
    requires from <= p < |s| && s[p] == '{' && forall q :: from <= q < p ==> s[q] != '{'
    ensures IndexOf(s, "{", from) == p
  {
    forall q | from <= q < p ensures !OccursAt(s, "{", q) { NotAt(s, "{", q, 0); }
    assert s[p..][..1] == "{";
    IndexOfIs(s, "{", from, p);
  }

  /** Run again, it takes the word `release` of the statement for an entry, and doubles its own. */
  lemma EntryIsDoubled(entry: string)
    ensures var again := WriteEntry(Text(RELEASE_STATEMENT, entry), entry);
      again.Some? && |again.value| == 66 + 2 * |entry|
  {
    var s := Text(RELEASE_STATEMENT, entry);
    HeadIsFound(RELEASE_STATEMENT, entry);
    PointedReads(s, entry);
    StatementIsFound(s);
    BraceIsFound(s, 66, 74);
    Replaced(s, entry, 66);
  }

  /** With build types first, the plugin's own output need not stay as it is, however plain the values. */
  lemma OtherOrderNeverSettles(signing: Signing)
    requires Braceless(signing)
    ensures var once := Rewrite(OtherOrder(), signing);
      once.Some? && Rewrite(once.value, signing) != once
  {
    var entry := Entry(signing);
    OtherOrderIsWritten(entry);
    PointedText(entry);
    EntryIsDoubled(entry);
    var once := Text(RELEASE_STATEMENT, entry);
    var again := WriteEntry(once, entry).value;
    TextReads(RELEASE_STATEMENT, entry);
    StatementReads(RELEASE_STATEMENT);
    FileLine(signing);
    assert |entry| > 10;
    if PointReleaseAtReleaseKey(again).Some? { PointGrows(again); }
  }
}
