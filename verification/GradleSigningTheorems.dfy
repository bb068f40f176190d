/** Rewriting a file that is already rewritten: when it stays as it is. */
module GradleSigningTheorems {
  import opened Wrappers
  import opened Search
  import opened Sequences
  import opened Text
  import opened GradleSigning

  // ---------- Occurrences in texts that share a part ----------

  lemma OccursSame(s: string, t: string, pattern: string, p: nat)
    requires p + |pattern| <= |s| && p + |pattern| <= |t|
    requires s[p..p + |pattern|] == t[p..p + |pattern|]
    ensures OccursAt(s, pattern, p) <==> OccursAt(t, pattern, p)
  {
  }

  lemma OccursChar(s: string, pattern: string, p: int, i: nat)
    requires OccursAt(s, pattern, p) && i < |pattern|
    ensures s[p + i] == pattern[i]
  {
  }

  /** One wrong character rules an occurrence out. */
  lemma NotAt(s: string, pattern: string, p: int, i: nat)
    requires i < |pattern| && 0 <= p && p + i < |s| && s[p + i] != pattern[i]
    ensures !OccursAt(s, pattern, p)
  {
  }

  /** The characters of the literals that keep their occurrences apart. */
  lemma Literals()
    ensures forall i :: 0 <= i < |BUILD_TYPES| ==> BUILD_TYPES[i] != 'r'
    ensures forall i :: 0 <= i < |SIGNING_CONFIGS| ==> SIGNING_CONFIGS[i] != 'r' && SIGNING_CONFIGS[i] != 'b'
    ensures forall i :: 0 <= i < |INDENT| ==> INDENT[i] in {'\n', ' '}
    ensures forall i :: 0 < i < |RELEASE| ==> RELEASE[i] != 'r'
    ensures forall i :: 0 < i < |RELEASE_BLOCK| ==> RELEASE_BLOCK[i] != 'b'
    ensures forall i :: 0 <= i < |RELEASE_BLOCK| && RELEASE_BLOCK[i] == 's' ==> i == 5
    ensures RELEASE_BLOCK[..|RELEASE|] == RELEASE
    ensures RELEASE_BLOCK[6] == 'e' && DEBUG_STATEMENT[1] == 'i'
    ensures BUILD_TYPES[0] == 'b' && RELEASE[0] == 'r' && RELEASE_BLOCK[0] == 'r' && DEBUG_STATEMENT[0] == 's'
  {
  }

  lemma OccursIn(pre: string, pattern: string, post: string)
    ensures OccursAt(pre + pattern + post, pattern, |pre|)
  {
  }

  /** Two texts with a common prefix that holds the first occurrence find the same one. */
  lemma FirstInPrefix(s: string, t: string, pattern: string, from: nat, n: nat)
    requires n <= |s| && n <= |t| && s[..n] == t[..n]
    requires var r := IndexOf(s, pattern, from); r != -1 && r + |pattern| <= n
    ensures IndexOf(t, pattern, from) == IndexOf(s, pattern, from)
  {
    var r := IndexOf(s, pattern, from);
    IndexOfMeans(s, pattern, from);
    forall q | from <= q <= r ensures OccursAt(t, pattern, q) <==> OccursAt(s, pattern, q) {
      assert s[q..q + |pattern|] == s[..n][q..q + |pattern|] && t[q..q + |pattern|] == t[..n][q..q + |pattern|];
      OccursSame(s, t, pattern, q);
    }
    IndexOfIs(t, pattern, from, r);
  }

  // ---------- Block ends ----------

  lemma {:induction false} BlockEndIsLeast(s: string, open: nat, i: nat, e: int)
    requires open <= i <= |s|
    requires i < e && ClosesAt(s, open, e)
    ensures var end := BlockEnd(s, open, i); end != -1 && i < end <= e
    decreases |s| - i
  {
    if !ClosesAt(s, open, i + 1) { BlockEndIsLeast(s, open, i + 1, e); }
  }

  lemma {:induction false} DepthInside(pre: string, s: string, post: string, from: nat, to: nat)
    requires from <= to <= |s|
    ensures Depth(pre + s + post, |pre| + from, |pre| + to) == Depth(s, from, to)
  {
    if from < to {
      DepthInside(pre, s, post, from, to - 1);
      assert (pre + s + post)[|pre| + to - 1] == s[to - 1];
    }
  }

  lemma ClosesInside(pre: string, s: string, post: string, open: nat, e: nat)
    requires open < e <= |s|
    ensures ClosesAt(pre + s + post, |pre| + open, |pre| + e) <==> ClosesAt(s, open, e)
  {
    DepthInside(pre, s, post, open, e);
  }

  /** A block that a text closes at its very end is closed there wherever the text stands. */
  lemma BlockEndInside(pre: string, s: string, post: string, open: nat)
    requires open < |s|
    ensures BlockEnd(pre + s + post, |pre| + open, |pre| + open) == |pre| + |s| <==> BlockEnd(s, open, open) == |s|
  {
    var whole := pre + s + post;
    var inner, outer := BlockEnd(s, open, open), BlockEnd(whole, |pre| + open, |pre| + open);
    if inner == |s| {
      ClosesInside(pre, s, post, open, |s|);
      BlockEndIsLeast(whole, |pre| + open, |pre| + open, |pre| + |s|);
      BlockEndGrows(whole, |pre| + open, |pre| + open);
      ClosesInside(pre, s, post, open, outer - |pre|);
      BlockEndIsLeast(s, open, open, outer - |pre|);
    }
    if outer == |pre| + |s| {
      ClosesInside(pre, s, post, open, |s|);
      BlockEndIsLeast(s, open, open, |s|);
      ClosesInside(pre, s, post, open, inner);
      BlockEndIsLeast(whole, |pre| + open, |pre| + open, |pre| + inner);
    }
  }

  lemma {:induction false} BlockEndGrows(s: string, open: nat, i: nat)
    requires open <= i <= |s|
    ensures BlockEnd(s, open, i) == -1 || BlockEnd(s, open, i) > i
    decreases |s| - i
  {
    if i < |s| && !ClosesAt(s, open, i + 1) { BlockEndGrows(s, open, i + 1); }
  }

  // ---------- Entries ----------

  lemma {:induction false} BraceFollowsMeans(s: string, i: nat, end: nat) returns (k: nat)
    requires end <= |s| && BraceFollows(s, i, end)
    ensures i <= k < end && s[k] == '{' && forall j :: i <= j < k ==> IsSpace(s[j])
    decreases end - i
  {
    if s[i] == '{' { k := i; } else { k := BraceFollowsMeans(s, i + 1, end); }
  }

  lemma {:induction false} BraceFollowsIs(s: string, i: nat, k: nat, end: nat)
    requires i <= k < end <= |s| && s[k] == '{' && forall j :: i <= j < k ==> IsSpace(s[j])
    ensures BraceFollows(s, i, end)
    decreases k - i
  {
    if i < k { BraceFollowsIs(s, i + 1, k, end); }
  }

  lemma {:induction false} FindEntryIs(s: string, from: nat, end: nat, p: nat)
    requires from <= p < end <= |s| && EntryAt(s, p, end)
    requires forall q :: from <= q < p ==> !EntryAt(s, q, end)
    ensures FindEntry(s, from, end) == p
    decreases p - from
  {
    if from < p { FindEntryIs(s, from + 1, end, p); }
  }

  lemma {:induction false} FindEntryMeans(s: string, from: nat, end: nat)
    requires end <= |s|
    ensures var p := FindEntry(s, from, end);
      forall q :: from <= q < end && (p == -1 || q < p) ==> !EntryAt(s, q, end)
    decreases end - from
  {
    if from < end && !EntryAt(s, from, end) { FindEntryMeans(s, from + 1, end); }
  }

  /** An entry that lies in a common prefix is one in both texts. */
  lemma EntrySame(s: string, t: string, n: nat, q: nat, sEnd: nat, tEnd: nat)
    requires n <= |s| && n <= |t| && s[..n] == t[..n] && sEnd <= n <= tEnd <= |t|
    requires EntryAt(s, q, sEnd)
    ensures EntryAt(t, q, tEnd)
  {
    var k := BraceFollowsMeans(s, q + |RELEASE|, sEnd);
    assert forall j :: 0 <= j < n ==> s[j] == s[..n][j] && t[j] == t[..n][j];
    assert s[q..q + |RELEASE|] == t[q..q + |RELEASE|];
    OccursSame(s, t, RELEASE, q);
    BraceFollowsIs(t, q + |RELEASE|, k, tEnd);
  }

  // ---------- Where an entry has been written ----------

  /** The text in front of a written entry: the anchor is its first, and no entry or build type follows it. */
  ghost predicate Site(pre: string, anchor: nat) {
    && OccursAt(pre, SIGNING_CONFIGS, anchor)
    && (forall q :: 0 <= q < anchor ==> !OccursAt(pre, SIGNING_CONFIGS, q))
    && (forall q :: anchor <= q < |pre| ==> !EntryAt(pre, q, |pre|))
    && (forall q :: anchor <= q ==> !OccursAt(pre, BUILD_TYPES, q))
    && !IsWord(pre[|pre| - 1])
  }

  lemma NoEntryStraddles(pre: string, text: string, anchor: nat, end: nat, q: nat)
    requires Site(pre, anchor) && RELEASE_BLOCK <= text && end <= |pre + text|
    requires anchor <= q < |pre|
    ensures !EntryAt(pre + text, q, end)
  {
    var s := pre + text;
    Literals();
    assert s[|pre|] == text[0] == RELEASE_BLOCK[0];
    if |pre| < q + |RELEASE| {
      NotAt(s, RELEASE, q, |pre| - q);
    } else if EntryAt(s, q, end) {
      var k := BraceFollowsMeans(s, q + |RELEASE|, end);
      if k < |pre| {
        assert s[..|pre|] == pre;
        BraceFollowsIs(s, q + |RELEASE|, k, |pre|);
        EntrySame(s, pre, |pre|, q, |pre|, |pre|);
      }
    }
  }

  lemma NoBuildTypesStraddles(pre: string, text: string, anchor: nat, q: nat)
    requires Site(pre, anchor) && RELEASE_BLOCK <= text
    requires anchor <= q < |pre| + |RELEASE_BLOCK|
    ensures !OccursAt(pre + text, BUILD_TYPES, q)
  {
    var s := pre + text;
    Literals();
    assert forall i :: 0 <= i < |RELEASE_BLOCK| ==> s[|pre| + i] == text[i] == RELEASE_BLOCK[i];
    if q + |BUILD_TYPES| <= |pre| {
      assert s[q..q + |BUILD_TYPES|] == pre[q..q + |BUILD_TYPES|];
      OccursSame(s, pre, BUILD_TYPES, q);
    } else if q <= |pre| {
      assert s[|pre| + 0] == 'r';
      NotAt(s, BUILD_TYPES, q, |pre| - q);
    } else {
      assert s[|pre| + (q - |pre|)] != 'b';
      NotAt(s, BUILD_TYPES, q, 0);
    }
  }

  /** Searching a text whose entry stands behind a site finds that entry. */
  lemma SiteIsFound(pre: string, text: string, anchor: nat)
    requires Site(pre, anchor) && RELEASE_BLOCK <= text
    ensures var s := pre + text;
      && IndexOf(s, SIGNING_CONFIGS, 0) == anchor
      && RegionEnd(s, anchor) >= |pre| + |RELEASE_BLOCK|
      && FindEntry(s, anchor, RegionEnd(s, anchor)) == |pre|
      && IndexOf(s, "{", |pre|) == |pre| + |RELEASE|+ 1
  {
    var s := pre + text;
    assert s[..|pre|] == pre;
    IndexOfIs(pre, SIGNING_CONFIGS, 0, anchor);
    FirstInPrefix(pre, s, SIGNING_CONFIGS, 0, |pre|);
    forall q | anchor <= q < |pre| + |RELEASE_BLOCK| ensures !OccursAt(s, BUILD_TYPES, q) {
      NoBuildTypesStraddles(pre, text, anchor, q);
    }
    IndexOfMeans(s, BUILD_TYPES, anchor);
    var e := RegionEnd(s, anchor);
    ReleaseAt(pre, text, e);
    forall q | anchor <= q < |pre| ensures !EntryAt(s, q, e) {
      NoEntryStraddles(pre, text, anchor, e, q);
    }
    FindEntryIs(s, anchor, e, |pre|);
  }

  lemma ReleaseAt(pre: string, text: string, end: nat)
    requires RELEASE_BLOCK <= text && pre != "" && !IsWord(pre[|pre| - 1])
    requires |pre| + |RELEASE_BLOCK| <= end <= |pre + text|
    ensures EntryAt(pre + text, |pre|, end)
    ensures IndexOf(pre + text, "{", |pre|) == |pre| + |RELEASE| + 1
  {
    var s := pre + text;
    assert forall i :: 0 <= i < |RELEASE_BLOCK| ==> s[|pre| + i] == text[i] == RELEASE_BLOCK[i];
    assert s[|pre|..][..|RELEASE|] == RELEASE;
    assert s[|pre| + 7] == ' ' && s[|pre| + 8] == '{' && s[|pre| - 1] == pre[|pre| - 1];
    BraceFollowsIs(s, |pre| + |RELEASE|, |pre| + |RELEASE| + 1, end);
    forall q | |pre| <= q < |pre| + 8 ensures !OccursAt(s, "{", q) {
      if OccursAt(s, "{", q) { OccursChar(s, "{", q, 0); }
    }
    assert OccursAt(s, "{", |pre| + 8) by { assert s[|pre| + 8..][..1] == "{"; }
    IndexOfIs(s, "{", |pre|, |pre| + 8);
  }

  // ---------- addReleaseSigningConfig ----------

  /** What replacing an entry leaves in front of it and behind it. */
  lemma ReplaceSite(contents: string, entry: string) returns (pre: string, post: string, anchor: nat)
    requires WriteEntry(contents, entry).Some?
    requires var a := IndexOf(contents, SIGNING_CONFIGS, 0);
      FindEntry(contents, a, RegionEnd(contents, a)) != -1
    ensures WriteEntry(contents, entry).value == pre + entry + post
    ensures Site(pre, anchor)
    ensures pre <= contents && anchor == IndexOf(contents, SIGNING_CONFIGS, 0) && anchor + |SIGNING_CONFIGS| <= |pre|
  {
    anchor := IndexOf(contents, SIGNING_CONFIGS, 0);
    var e := RegionEnd(contents, anchor);
    var start := FindEntry(contents, anchor, e);
    var open := IndexOf(contents, "{", start);
    pre, post := contents[..start], contents[BlockEnd(contents, open, open)..];
    PrefixIsSite(contents, anchor, start);
  }

  /** What a text and a prefix of it have in common. */
  lemma OccursInPrefix(s: string, n: nat, pattern: string, q: int)
    requires n <= |s| && q + |pattern| <= n
    ensures OccursAt(s[..n], pattern, q) <==> OccursAt(s, pattern, q)
  {
  }

  lemma PrefixIsSite(contents: string, anchor: nat, start: nat)
    requires anchor == IndexOf(contents, SIGNING_CONFIGS, 0)
    requires start == FindEntry(contents, anchor, RegionEnd(contents, anchor))
    ensures Site(contents[..start], anchor)
  {
    var e := RegionEnd(contents, anchor);
    var pre := contents[..start];
    IndexOfMeans(contents, SIGNING_CONFIGS, 0);
    if start < anchor + |SIGNING_CONFIGS| { NoReleaseInAnchor(contents, anchor, start); }
    assert pre[..start] == pre;
    AnchorStaysFirst(contents, pre, start, anchor);
    forall q | anchor <= q < |pre| ensures !EntryAt(pre, q, |pre|) {
      NoEarlierEntry(contents, anchor, start, e, q);
    }
    forall q | anchor <= q ensures !OccursAt(pre, BUILD_TYPES, q) {
      NoBuildTypesBefore(contents, anchor, start, q);
    }
    assert !IsWord(pre[|pre| - 1]);
  }

  lemma NoEarlierEntry(contents: string, anchor: nat, start: nat, e: nat, q: nat)
    requires e <= |contents| && start == FindEntry(contents, anchor, e) && start <= e
    requires anchor <= q < start
    ensures !EntryAt(contents[..start], q, start)
  {
    FindEntryMeans(contents, anchor, e);
    if EntryAt(contents[..start], q, start) { EntrySame(contents[..start], contents, start, q, start, e); }
  }

  lemma NoBuildTypesBefore(contents: string, anchor: nat, start: nat, q: nat)
    requires start <= RegionEnd(contents, anchor) && anchor <= q
    ensures !OccursAt(contents[..start], BUILD_TYPES, q)
  {
    IndexOfMeans(contents, BUILD_TYPES, anchor);
    if q + |BUILD_TYPES| <= start { OccursInPrefix(contents, start, BUILD_TYPES, q); }
  }

  /** The word `release` cannot start inside the anchor. */
  lemma NoReleaseInAnchor(contents: string, anchor: nat, start: nat)
    requires OccursAt(contents, SIGNING_CONFIGS, anchor) && anchor <= start < anchor + |SIGNING_CONFIGS|
    ensures !OccursAt(contents, RELEASE, start)
  {
    Literals();
    OccursChar(contents, SIGNING_CONFIGS, anchor, start - anchor);
    NotAt(contents, RELEASE, start, 0);
  }

  lemma InsertSite(contents: string, anchor: nat)
    requires anchor == IndexOf(contents, SIGNING_CONFIGS, 0)
    ensures Site(contents[..anchor + |SIGNING_CONFIGS|] + INDENT, anchor)
  {
    var n := anchor + |SIGNING_CONFIGS|;
    var pre := contents[..n] + INDENT;
    IndexOfMeans(contents, SIGNING_CONFIGS, 0);
    assert pre[..n] == contents[..n] && pre[n..] == INDENT;
    AnchorStaysFirst(contents, pre, n, anchor);
    NothingBehindAnchor(pre, anchor);
  }

  /** A text that shares the prefix with the anchor has the same first anchor. */
  lemma AnchorStaysFirst(contents: string, pre: string, n: nat, anchor: nat)
    requires anchor == IndexOf(contents, SIGNING_CONFIGS, 0) && anchor + |SIGNING_CONFIGS| <= n
    requires n <= |contents| && n <= |pre| && pre[..n] == contents[..n]
    ensures OccursAt(pre, SIGNING_CONFIGS, anchor)
    ensures forall q :: 0 <= q < anchor ==> !OccursAt(pre, SIGNING_CONFIGS, q)
  {
    IndexOfMeans(contents, SIGNING_CONFIGS, 0);
    forall q | 0 <= q <= anchor ensures OccursAt(pre, SIGNING_CONFIGS, q) <==> OccursAt(contents, SIGNING_CONFIGS, q) {
      OccursInPrefix(contents, n, SIGNING_CONFIGS, q);
      OccursInPrefix(pre, n, SIGNING_CONFIGS, q);
    }
  }

  lemma NothingBehindAnchor(pre: string, anchor: nat)
    requires OccursAt(pre, SIGNING_CONFIGS, anchor) && |pre| == anchor + |SIGNING_CONFIGS| + |INDENT|
    requires pre[anchor + |SIGNING_CONFIGS|..] == INDENT
    ensures forall q :: anchor <= q < |pre| ==> !EntryAt(pre, q, |pre|)
    ensures forall q :: anchor <= q ==> !OccursAt(pre, BUILD_TYPES, q)
    ensures pre[|pre| - 1] == ' '
  {
    Literals();
    forall q | anchor <= q < |pre| ensures !EntryAt(pre, q, |pre|) && !OccursAt(pre, BUILD_TYPES, q) {
      AnchorChar(pre, anchor, q);
      NotAt(pre, RELEASE, q, 0);
      NotAt(pre, BUILD_TYPES, q, 0);
    }
    assert pre[|pre| - 1] == pre[anchor + |SIGNING_CONFIGS|..][|INDENT| - 1];
  }

  lemma AnchorChar(pre: string, anchor: nat, q: nat)
    requires OccursAt(pre, SIGNING_CONFIGS, anchor) && |pre| == anchor + |SIGNING_CONFIGS| + |INDENT|
    requires pre[anchor + |SIGNING_CONFIGS|..] == INDENT
    requires anchor <= q < |pre|
    ensures pre[q] != 'r' && pre[q] != 'b'
  {
  }

  /** The rewritten text, taken apart. */
  lemma WrittenForm(contents: string, entry: string) returns (pre: string, post: string, anchor: nat)
    requires WriteEntry(contents, entry).Some?
    ensures WriteEntry(contents, entry).value == pre + entry + post
    ensures Site(pre, anchor)
    ensures anchor == IndexOf(contents, SIGNING_CONFIGS, 0)
    ensures contents[..anchor + |SIGNING_CONFIGS|] <= pre
  {
    anchor := IndexOf(contents, SIGNING_CONFIGS, 0);
    var n := anchor + |SIGNING_CONFIGS|;
    if FindEntry(contents, anchor, RegionEnd(contents, anchor)) != -1 {
      pre, post, anchor := ReplaceSite(contents, entry);
      assert n <= |pre|;
    } else {
      InsertSite(contents, anchor);
      pre, post := contents[..n] + INDENT, contents[n..];
      Assoc(contents[..n], INDENT, entry);
    }
  }

  /** The entry is closed by its own last brace: what it contains balances. */
  predicate SelfClosed(entry: string) {
    |RELEASE_BLOCK| <= |entry| && BlockEnd(entry, |RELEASE| + 1, |RELEASE| + 1) == |entry|
  }

  lemma SameSizeSame(pre: string, entry: string, post: string, end: nat)
    requires end <= |pre + entry + post|
    ensures var s := pre + entry + post;
      pre + entry + s[end..] == s <==> end == |pre| + |entry|
  {
  }

  /** Writing over an entry at a site replaces it up to the end of its block. */
  lemma WriteAtSite(pre: string, text: string, entry: string, anchor: nat) returns (end: int)
    requires Site(pre, anchor) && RELEASE_BLOCK <= text
    ensures var s, open := pre + text, |pre| + |RELEASE| + 1;
      && open <= |s| && end == BlockEnd(s, open, open) && -1 <= end <= |s|
      && WriteEntry(s, entry) == (if end == -1 then None else Some(pre + entry + s[end..]))
  {
    var s, open := pre + text, |pre| + |RELEASE| + 1;
    SiteIsFound(pre, text, anchor);
    end := BlockEnd(s, open, open);
    assert s[..|pre|] == pre;
  }

  lemma WriteOnEntry(pre: string, entry: string, post: string, anchor: nat)
    requires Site(pre, anchor) && RELEASE_BLOCK <= entry
    ensures var s := pre + entry + post;
      WriteEntry(s, entry) == Some(s) <==> SelfClosed(entry)
  {
    Assoc(pre, entry, post);
    assert RELEASE_BLOCK <= entry + post;
    var end := WriteAtSite(pre, entry + post, entry, anchor);
    SelfClosedInside(pre, entry, post);
    if end != -1 { SameSizeSame(pre, entry, post, end); }
  }

  lemma SelfClosedInside(pre: string, entry: string, post: string)
    requires RELEASE_BLOCK <= entry
    ensures var open := |pre| + |RELEASE| + 1;
      SelfClosed(entry) <==> BlockEnd(pre + entry + post, open, open) == |pre| + |entry|
  {
    BlockEndInside(pre, entry, post, |RELEASE| + 1);
  }

  lemma EntryOpens(signing: Signing)
    ensures RELEASE_BLOCK <= Entry(signing)
  {
  }

  /** Adding the entry to a file that has it changes nothing, exactly when the entry's braces balance. */
  lemma AddTwiceIff(contents: string, signing: Signing)
    requires AddReleaseSigningConfig(contents, signing).Some?
    ensures var added := AddReleaseSigningConfig(contents, signing).value;
      AddReleaseSigningConfig(added, signing) == Some(added) <==> SelfClosed(Entry(signing))
  {
    EntryOpens(signing);
    var pre, post, anchor := WrittenForm(contents, Entry(signing));
    WriteOnEntry(pre, Entry(signing), post, anchor);
  }

  predicate NoBraces(s: string) {
    forall i :: 0 <= i < |s| ==> s[i] != '{' && s[i] != '}'
  }

  predicate Braceless(signing: Signing) {
    NoBraces(signing.storeFile) && NoBraces(signing.storePassword)
    && NoBraces(signing.keyAlias) && NoBraces(signing.keyPassword)
  }

  lemma {:induction false} FlatDepth(s: string, open: nat, to: nat)
    requires open < to <= |s| && s[open] == '{'
    requires forall i :: open < i < to ==> s[i] != '{' && s[i] != '}'
    ensures Depth(s, open, to) == 1
  {
    if to > open + 1 { FlatDepth(s, open, to - 1); } else { assert Depth(s, open, open) == 0; }
  }

  lemma LineHasNoBraces(before: string, value: string, after: string)
    requires NoBraces(before) && NoBraces(value) && NoBraces(after)
    ensures NoBraces(Line(before, value, after))
  {
  }

  lemma NoBracesConcat(a: string, b: string)
    requires NoBraces(a) && NoBraces(b)
    ensures NoBraces(a + b)
  {
  }

  lemma BodyHasNoBraces(signing: Signing)
    requires Braceless(signing)
    ensures NoBraces(Body(signing))
  {
    var a := Line("\n            storeFile file('", signing.storeFile, "')");
    var b := Line("\n            storePassword '", signing.storePassword, "'");
    var c := Line("\n            keyAlias '", signing.keyAlias, "'");
    var d := Line("\n            keyPassword '", signing.keyPassword, "'");
    LineHasNoBraces("\n            storeFile file('", signing.storeFile, "')");
    LineHasNoBraces("\n            storePassword '", signing.storePassword, "'");
    LineHasNoBraces("\n            keyAlias '", signing.keyAlias, "'");
    LineHasNoBraces("\n            keyPassword '", signing.keyPassword, "'");
    NoBracesConcat(d, INDENT);
    NoBracesConcat(c, d + INDENT);
    NoBracesConcat(b, c + (d + INDENT));
    NoBracesConcat(a, b + (c + (d + INDENT)));
  }

  lemma BracelessIsSelfClosed(signing: Signing)
    requires Braceless(signing)
    ensures SelfClosed(Entry(signing))
  {
    BodyHasNoBraces(signing);
    var s, open := Entry(signing), |RELEASE| + 1;
    var n := |s| - 1;
    assert forall i :: open < i < n ==> s[i] == Body(signing)[i - |RELEASE_BLOCK|];
    assert s[open] == RELEASE_BLOCK[open] && s[n] == '}';
    FlatDepth(s, open, n);
    assert ClosesAt(s, open, |s|);
    BlockEndIsLeast(s, open, open, |s|);
    BlockEndGrows(s, open, open);
    var end := BlockEnd(s, open, open);
    if end < |s| { FlatDepth(s, open, end); }
  }

  // ---------- pointReleaseAtReleaseKey ----------

  lemma NoReleaseInTypes(contents: string, b: nat, r: nat)
    requires OccursAt(contents, BUILD_TYPES, b) && b <= r < b + |BUILD_TYPES|
    ensures !OccursAt(contents, RELEASE_BLOCK, r)
  {
    Literals();
    OccursChar(contents, BUILD_TYPES, b, r - b);
    NotAt(contents, RELEASE_BLOCK, r, 0);
  }

  /** The release block opens behind the build types. */
  lemma ReleaseBehindTypes(contents: string)
    requires ReleaseIndex(contents) != -1
    ensures OccursAt(contents, RELEASE_BLOCK, ReleaseIndex(contents))
    ensures IndexOf(contents, BUILD_TYPES, 0) + |BUILD_TYPES| <= ReleaseIndex(contents)
  {
    var b, r := IndexOf(contents, BUILD_TYPES, 0), ReleaseIndex(contents);
    IndexOfMeans(contents, BUILD_TYPES, 0);
    IndexOfMeans(contents, RELEASE_BLOCK, b);
    if r < b + |BUILD_TYPES| { NoReleaseInTypes(contents, b, r); }
  }

  /** A debug statement cannot start inside `release {`. */
  lemma NoDebugInRelease(contents: string, r: nat, debug: nat)
    requires OccursAt(contents, RELEASE_BLOCK, r) && r <= debug < r + |RELEASE_BLOCK|
    ensures !OccursAt(contents, DEBUG_STATEMENT, debug)
  {
    Literals();
    OccursChar(contents, RELEASE_BLOCK, r, debug - r);
    if debug - r == 5 {
      OccursChar(contents, RELEASE_BLOCK, r, 6);
      NotAt(contents, DEBUG_STATEMENT, debug, 1);
    } else {
      NotAt(contents, DEBUG_STATEMENT, debug, 0);
    }
  }

  /** Neither in place of the release statement nor overlapping its beginning does a debug statement fit. */
  lemma Mismatch(o: nat) returns (j: nat)
    requires o < |DEBUG_STATEMENT|
    ensures o + j < |DEBUG_STATEMENT| && j < |RELEASE_STATEMENT| && DEBUG_STATEMENT[o + j] != RELEASE_STATEMENT[j]
  {
    j := if o == 0 then 29 else if o == 14 then 13 else if o == 27 then 1 else 0;
  }

  /** Repointing leaves everything up to its place, and so where the release block is. */
  lemma RepointedIndex(contents: string, debug: nat)
    requires ReleaseIndex(contents) != -1
    requires debug == IndexOf(contents, DEBUG_STATEMENT, ReleaseIndex(contents))
    ensures OccursAt(contents, DEBUG_STATEMENT, debug)
    ensures ReleaseIndex(contents) + |RELEASE_BLOCK| <= debug
    ensures contents[..debug] <= Repoint(contents, debug)
    ensures ReleaseIndex(Repoint(contents, debug)) == ReleaseIndex(contents)
  {
    var b, r := IndexOf(contents, BUILD_TYPES, 0), ReleaseIndex(contents);
    var t := Repoint(contents, debug);
    ReleaseBehindTypes(contents);
    IndexOfMeans(contents, DEBUG_STATEMENT, r);
    if debug < r + |RELEASE_BLOCK| { NoDebugInRelease(contents, r, debug); }
    assert t[..debug] == contents[..debug];
    FirstInPrefix(contents, t, BUILD_TYPES, 0, debug);
    FirstInPrefix(contents, t, RELEASE_BLOCK, b, debug);
  }

  lemma RepointedIsPointed(contents: string, r: nat, debug: nat)
    requires debug == IndexOf(contents, DEBUG_STATEMENT, r)
    ensures AlreadyPointed(Repoint(contents, debug), r)
  {
    var t := Repoint(contents, debug);
    assert t[..debug] == contents[..debug];
    OccursIn(contents[..debug], RELEASE_STATEMENT, contents[debug + |DEBUG_STATEMENT|..]);
    IndexOfMeans(t, RELEASE_STATEMENT, r);
    IndexOfMeans(t, DEBUG_STATEMENT, r);
    forall q | r <= q <= debug ensures !OccursAt(t, DEBUG_STATEMENT, q) {
      NoDebugUpTo(contents, t, debug, q, r);
    }
  }

  lemma NoDebugUpTo(contents: string, t: string, debug: nat, q: nat, r: nat)
    requires debug == IndexOf(contents, DEBUG_STATEMENT, r) && r <= q <= debug
    requires debug <= |t| && t[..debug] == contents[..debug]
    requires OccursAt(t, RELEASE_STATEMENT, debug)
    ensures !OccursAt(t, DEBUG_STATEMENT, q)
  {
    if q + |DEBUG_STATEMENT| <= debug {
      IndexOfMeans(contents, DEBUG_STATEMENT, r);
      OccursInPrefix(t, debug, DEBUG_STATEMENT, q);
      OccursInPrefix(contents, debug, DEBUG_STATEMENT, q);
    } else {
      NoDebugAcross(t, debug, debug - q);
    }
  }

  lemma NoDebugAcross(t: string, debug: nat, o: nat)
    requires OccursAt(t, RELEASE_STATEMENT, debug) && o < |DEBUG_STATEMENT| && o <= debug
    ensures !OccursAt(t, DEBUG_STATEMENT, debug - o)
  {
    var j := Mismatch(o);
    OccursChar(t, RELEASE_STATEMENT, debug, j);
    NotAt(t, DEBUG_STATEMENT, debug - o, o + j);
  }

  /** Pointing the release build at its key again changes nothing, and everything up to the release block stays. */
  lemma PointTwice(contents: string)
    requires PointReleaseAtReleaseKey(contents).Some?
    ensures var pointed := PointReleaseAtReleaseKey(contents).value;
      && PointReleaseAtReleaseKey(pointed) == Some(pointed)
      && ReleaseIndex(contents) + |RELEASE_BLOCK| <= |contents|
      && contents[..ReleaseIndex(contents) + |RELEASE_BLOCK|] <= pointed
  {
    var r := ReleaseIndex(contents);
    ReleaseBehindTypes(contents);
    if !AlreadyPointed(contents, r) {
      var debug := IndexOf(contents, DEBUG_STATEMENT, r);
      PointIsRepoint(contents, r);
      EditedIsPointed(contents, r, debug);
      PointedStays(Repoint(contents, debug));
    } else {
      PointedStays(contents);
    }
  }

  lemma PointedStays(contents: string)
    requires ReleaseIndex(contents) != -1 && AlreadyPointed(contents, ReleaseIndex(contents))
    ensures PointReleaseAtReleaseKey(contents) == Some(contents)
  {
  }

  lemma EditedIsPointed(contents: string, r: nat, debug: nat)
    requires r == ReleaseIndex(contents) && debug == IndexOf(contents, DEBUG_STATEMENT, r)
    ensures var t := Repoint(contents, debug);
      && ReleaseIndex(t) == r && AlreadyPointed(t, r)
      && r + |RELEASE_BLOCK| <= |contents| && contents[..r + |RELEASE_BLOCK|] <= t
  {
    RepointedIndex(contents, debug);
    RepointedIsPointed(contents, r, debug);
    PrefixOfPrefix(contents, Repoint(contents, debug), debug, r + |RELEASE_BLOCK|);
  }

  lemma PrefixOfPrefix(s: string, t: string, n: nat, m: nat)
    requires m <= n <= |s| && s[..n] <= t
    ensures s[..m] <= t
  {
  }

  /** The edit stays out of the text behind the release block. */
  predicate KeepsTheRest(contents: string, pointed: string, end: nat)
    requires end <= |contents|
  {
    |pointed| >= |contents| - end && pointed[|pointed| - (|contents| - end)..] == contents[end..]
  }

  lemma RepointKeepsRest(contents: string, debug: nat, end: nat)
    requires OccursAt(contents, DEBUG_STATEMENT, debug) && end <= |contents|
    requires end <= debug || debug + |DEBUG_STATEMENT| <= end
    ensures KeepsTheRest(contents, Repoint(contents, debug), end) <==> debug < end
  {
    var t := Repoint(contents, debug);
    var k := |t| - (|contents| - end);
    assert k == end + 2;
    if debug < end {
      assert t[k..] == contents[end..];
    } else {
      OccursChar(contents, DEBUG_STATEMENT, debug, 0);
      assert t[k..][debug - end] == RELEASE_STATEMENT[2];
      assert contents[end..][debug - end] == contents[debug];
    }
  }

  lemma PointIsRepoint(contents: string, release: nat)
    requires release == ReleaseIndex(contents) && !AlreadyPointed(contents, release)
    requires PointReleaseAtReleaseKey(contents).Some?
    ensures var debug := IndexOf(contents, DEBUG_STATEMENT, release);
      && OccursAt(contents, DEBUG_STATEMENT, debug)
      && PointReleaseAtReleaseKey(contents) == Some(Repoint(contents, debug))
  {
    IndexOfMeans(contents, DEBUG_STATEMENT, release);
  }

  /**
   * A rewrite leaves what follows the release block alone exactly when the first debug
   * statement from the release block on stands before that block's end.
   */
  lemma PointKeepsToReleaseIff(contents: string, release: nat, end: nat)
    requires release == ReleaseIndex(contents) && !AlreadyPointed(contents, release)
    requires release + |RELEASE_BLOCK| <= |contents|
    requires end == BlockEnd(contents, release + |RELEASE|, release + |RELEASE|)
    requires PointReleaseAtReleaseKey(contents).Some?
    ensures KeepsTheRest(contents, PointReleaseAtReleaseKey(contents).value, end)
      <==> IndexOf(contents, DEBUG_STATEMENT, release) < end
  {
    var debug := IndexOf(contents, DEBUG_STATEMENT, release);
    PointIsRepoint(contents, release);
    if debug < end { BraceOutsideDebug(contents, debug, end - 1); }
    RepointKeepsRest(contents, debug, end);
  }

  lemma BraceOutsideDebug(contents: string, debug: nat, i: nat)
    requires OccursAt(contents, DEBUG_STATEMENT, debug) && i < |contents| && contents[i] == '}' && debug <= i
    ensures debug + |DEBUG_STATEMENT| <= i
  {
    assert NoBraces(DEBUG_STATEMENT);
    forall k | debug <= k < debug + |DEBUG_STATEMENT| ensures contents[k] != '}' {
      OccursChar(contents, DEBUG_STATEMENT, debug, k - debug);
    }
  }

  // ---------- What is written ----------

  lemma Flat(r: string, a: string, b: string, c: string, d: string, i: string, e: string)
    ensures r + (a + (b + (c + (d + i)))) + e == r + a + b + c + d + i + e
  {
    Assoc(c, d, i);
    Assoc(b, c + d, i);
    Assoc(a, b + (c + d), i);
    Assoc(r, a + (b + (c + d)), i);
    Assoc(b, c, d);
    Assoc(a, b + c, d);
    Assoc(a, b, c);
    Assoc(r, a + b + c, d);
    Assoc(r, a + b, c);
    Assoc(r, a, b);
  }

  /** The entry gives each of its four keys its own value, between quotes. */
  lemma EntrySpells(signing: Signing)
    ensures
      var file := "\n            storeFile file('" + signing.storeFile + "')";
      var password := "\n            storePassword '" + signing.storePassword + "'";
      var keyAlias := "\n            keyAlias '" + signing.keyAlias + "'";
      var keyPassword := "\n            keyPassword '" + signing.keyPassword + "'";
      Entry(signing) == "release {" + file + password + keyAlias + keyPassword + "\n        " + "}"
  {
    Flat(
      RELEASE_BLOCK,
      Line("\n            storeFile file('", signing.storeFile, "')"),
      Line("\n            storePassword '", signing.storePassword, "'"),
      Line("\n            keyAlias '", signing.keyAlias, "'"),
      Line("\n            keyPassword '", signing.keyPassword, "'"),
      INDENT, "}");
  }

  /** The characters of a word, as `\b` understands it. */
  lemma WordIff(c: char)
    ensures IsWord(c) <==>
      c in {'a', 'b', 'c', 'd', 'e', 'f', 'g', 'h', 'i', 'j', 'k', 'l', 'm',
           'n', 'o', 'p', 'q', 'r', 's', 't', 'u', 'v', 'w', 'x', 'y', 'z',
           'A', 'B', 'C', 'D', 'E', 'F', 'G', 'H', 'I', 'J', 'K', 'L', 'M',
           'N', 'O', 'P', 'Q', 'R', 'S', 'T', 'U', 'V', 'W', 'X', 'Y', 'Z',
           '0', '1', '2', '3', '4', '5', '6', '7', '8', '9', '_'}
  {
  }
}
