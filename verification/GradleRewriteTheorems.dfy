/** Both rewrites, run again on what they wrote. */
module GradleRewriteTheorems {
  import opened Wrappers
  import opened Search
  import opened Sequences
  import opened GradleSigning
  import opened GradleSigningTheorems

  /** The signing configs stand before the build types, as the template has them. */
  predicate InTemplateOrder(contents: string) {
    var b := IndexOf(contents, BUILD_TYPES, 0);
    b == -1 || IndexOf(contents, SIGNING_CONFIGS, 0) < b
  }

  /** Nothing in the entry reads like build types. */
  predicate TypeFree(entry: string) {
    forall q :: 0 <= q < |entry| ==> !OccursAt(entry, BUILD_TYPES, q)
  }

  lemma EntryForm(signing: Signing)
    ensures var entry := Entry(signing);
      RELEASE_BLOCK <= entry && |RELEASE_BLOCK| < |entry| && entry[|entry| - 1] == '}'
  {
    EntryOpens(signing);
  }

  /** Values without braces leave the entry free of build types. */
  lemma BracelessIsTypeFree(signing: Signing)
    requires Braceless(signing)
    ensures TypeFree(Entry(signing))
  {
    var entry := Entry(signing);
    EntryForm(signing);
    BodyHasNoBraces(signing);
    assert entry[|RELEASE_BLOCK|..|entry| - 1] == Body(signing);
    forall q | 0 <= q < |entry| ensures !OccursAt(entry, BUILD_TYPES, q) {
      BracelessAt(entry, q);
    }
  }

  lemma BracelessAt(entry: string, q: nat)
    requires RELEASE_BLOCK <= entry && |RELEASE_BLOCK| < |entry| && entry[|entry| - 1] == '}'
    requires NoBraces(entry[|RELEASE_BLOCK|..|entry| - 1])
    ensures !OccursAt(entry, BUILD_TYPES, q)
  {
    var brace := q + |BUILD_TYPES| - 1;
    if q < |RELEASE_BLOCK| {
      Literals();
      assert entry[q] == RELEASE_BLOCK[q];
      NotAt(entry, BUILD_TYPES, q, 0);
    } else if brace < |entry| - 1 {
      assert entry[brace] == entry[|RELEASE_BLOCK|..|entry| - 1][brace - |RELEASE_BLOCK|];
      NotAt(entry, BUILD_TYPES, q, |BUILD_TYPES| - 1);
    } else if brace == |entry| - 1 {
      NotAt(entry, BUILD_TYPES, q, |BUILD_TYPES| - 1);
    }
  }

  /** No build types start in an entry free of them, nor run out of it over its closing brace. */
  lemma NoTypesInEntry(pre: string, entry: string, post: string, q: nat)
    requires entry != "" && entry[|entry| - 1] == '}' && TypeFree(entry)
    requires |pre| <= q < |pre| + |entry|
    ensures !OccursAt(pre + entry + post, BUILD_TYPES, q)
  {
    var s := pre + entry + post;
    var n := |BUILD_TYPES|;
    if q + n <= |pre| + |entry| {
      assert s[q..q + n] == entry[q - |pre|..q - |pre| + n];
      assert OccursAt(s, BUILD_TYPES, q) <==> OccursAt(entry, BUILD_TYPES, q - |pre|);
    } else {
      var last := |pre| + |entry| - 1;
      assert s[last] == '}';
      NoClosingBrace(s, q, last);
    }
  }

  lemma NoClosingBrace(s: string, q: nat, i: nat)
    requires q <= i < |s| && i < q + |BUILD_TYPES| && s[i] == '}'
    ensures !OccursAt(s, BUILD_TYPES, q)
  {
  }

  /** The entry stands at a site, nothing that reads like build types up to its end. */
  ghost predicate Placed(pre: string, entry: string, anchor: nat) {
    && Site(pre, anchor)
    && RELEASE_BLOCK <= entry && entry[|entry| - 1] == '}' && TypeFree(entry)
    && (forall q :: 0 <= q < anchor ==> !OccursAt(pre, BUILD_TYPES, q))
  }

  /** So the first build types stand behind it. */
  lemma TypesBehind(pre: string, entry: string, post: string, anchor: nat)
    requires Placed(pre, entry, anchor)
    ensures var b := IndexOf(pre + entry + post, BUILD_TYPES, 0); b == -1 || b >= |pre| + |entry|
  {
    var s := pre + entry + post;
    Assoc(pre, entry, post);
    IndexOfMeans(s, BUILD_TYPES, 0);
    forall q | 0 <= q < |pre| + |entry| ensures !OccursAt(s, BUILD_TYPES, q) {
      if q < anchor {
        assert |SIGNING_CONFIGS| >= |BUILD_TYPES| && q + |BUILD_TYPES| <= |pre|;
        assert s[q..q + |BUILD_TYPES|] == pre[q..q + |BUILD_TYPES|];
        OccursSame(s, pre, BUILD_TYPES, q);
      } else if q < |pre| {
        assert RELEASE_BLOCK <= entry + post;
        NoBuildTypesStraddles(pre, entry + post, anchor, q);
      } else {
        NoTypesInEntry(pre, entry, post, q);
      }
    }
  }

  /** In template order, what the first rewrite writes is placed. */
  lemma WrittenIsPlaced(contents: string, signing: Signing) returns (pre: string, post: string, anchor: nat)
    requires AddReleaseSigningConfig(contents, signing).Some?
    requires InTemplateOrder(contents) && TypeFree(Entry(signing))
    ensures AddReleaseSigningConfig(contents, signing).value == pre + Entry(signing) + post
    ensures Placed(pre, Entry(signing), anchor)
  {
    EntryForm(signing);
    pre, post, anchor := WrittenForm(contents, Entry(signing));
    var n := anchor + |SIGNING_CONFIGS|;
    IndexOfMeans(contents, SIGNING_CONFIGS, 0);
    IndexOfMeans(contents, BUILD_TYPES, 0);
    forall q | 0 <= q < anchor ensures !OccursAt(pre, BUILD_TYPES, q) {
      assert pre[..n] == contents[..n];
      OccursInPrefix(contents, n, BUILD_TYPES, q);
      OccursInPrefix(pre, n, BUILD_TYPES, q);
    }
  }

  /** The second rewrite edits behind what is placed. */
  lemma PointKeepsPlaced(pre: string, entry: string, post: string, anchor: nat) returns (rest: string)
    requires Placed(pre, entry, anchor) && PointReleaseAtReleaseKey(pre + entry + post).Some?
    ensures PointReleaseAtReleaseKey(pre + entry + post).value == pre + entry + rest
  {
    TypesBehind(pre, entry, post, anchor);
    PointKeepsEntry(pre + entry + post, pre + entry);
    var pointed := PointReleaseAtReleaseKey(pre + entry + post).value;
    rest := pointed[|pre + entry|..];
    assert pointed == pre + entry + rest;
  }

  lemma PointKeepsEntry(added: string, head: string)
    requires PointReleaseAtReleaseKey(added).Some? && head <= added
    requires |head| <= IndexOf(added, BUILD_TYPES, 0)
    ensures head <= PointReleaseAtReleaseKey(added).value
  {
  }

  /** Two texts of which one is the other two characters later differ where build types stand. */
  lemma ShiftDiffers(cut: string, s: string, b: nat, debug: nat)
    requires OccursAt(cut, BUILD_TYPES, b) && b + 2 < debug <= |cut| && debug <= |s|
    requires b + 2 < |s| && s[b + 2] == cut[b]
    ensures s[..debug] != cut[..debug]
  {
    OccursChar(cut, BUILD_TYPES, b, 0);
    OccursChar(cut, BUILD_TYPES, b, 2);
    assert s[..debug][b + 2] == 'b' && cut[..debug][b + 2] == 'i';
  }

  /** Where a text that is not yet pointed is edited: behind the whole of its build types. */
  lemma EditStandsBehind(contents: string)
    requires PointReleaseAtReleaseKey(contents).Some? && PointReleaseAtReleaseKey(contents).value != contents
    ensures var b := IndexOf(contents, BUILD_TYPES, 0);
      var debug := IndexOf(contents, DEBUG_STATEMENT, ReleaseIndex(contents));
      var pointed := PointReleaseAtReleaseKey(contents).value;
      && b != -1 && OccursAt(contents, BUILD_TYPES, b) && b + |BUILD_TYPES| <= debug <= |contents|
      && debug <= |pointed| && pointed[..debug] == contents[..debug]
  {
    var r := ReleaseIndex(contents);
    PointIsRepoint(contents, r);
    RepointedIndex(contents, IndexOf(contents, DEBUG_STATEMENT, r));
    ReleaseBehindTypes(contents);
    IndexOfMeans(contents, BUILD_TYPES, 0);
  }

  /** If dropping two characters behind the entry and pointing again restored the text, it would not fit. */
  lemma NoLuckyCut(pre: string, entry: string, rest: string, anchor: nat)
    requires Placed(pre, entry, anchor) && |rest| >= 2
    ensures PointReleaseAtReleaseKey(pre + entry + rest[2..]) != Some(pre + entry + rest)
  {
    var s, cut := pre + entry + rest, pre + entry + rest[2..];
    if PointReleaseAtReleaseKey(cut).Some? && PointReleaseAtReleaseKey(cut).value != cut {
      EditStandsBehind(cut);
      TypesBehind(pre, entry, rest[2..], anchor);
      var b, debug := IndexOf(cut, BUILD_TYPES, 0), IndexOf(cut, DEBUG_STATEMENT, ReleaseIndex(cut));
      var i := b - |pre| - |entry|;
      assert s[b + 2] == rest[i + 2] == rest[2..][i] == cut[b];
      ShiftDiffers(cut, s, b, debug);
    }
  }

  /**
   * prebuild reuses the file: running the plugin on its own output leaves it as it is, exactly when
   * the braces of the entry balance.
   */
  lemma RewriteTwiceIff(contents: string, signing: Signing)
    requires InTemplateOrder(contents) && TypeFree(Entry(signing))
    requires Rewrite(contents, signing).Some?
    ensures Rewrite(Rewrite(contents, signing).value, signing) == Rewrite(contents, signing)
      <==> SelfClosed(Entry(signing))
  {
    var entry := Entry(signing);
    var pre, post, anchor := WrittenIsPlaced(contents, signing);
    var rest := PointKeepsPlaced(pre, entry, post, anchor);
    var s := pre + entry + rest;
    PointTwice(pre + entry + post);
    assert Rewrite(contents, signing) == Some(s) && PointReleaseAtReleaseKey(s) == Some(s);
    WriteOnEntry(pre, entry, rest, anchor);
    if !SelfClosed(entry) {
      Assoc(pre, entry, rest);
      assert RELEASE_BLOCK <= entry + rest;
      var end := WriteAtSite(pre, entry + rest, entry, anchor);
      if end != -1 { CutIsNotRestored(pre, entry, rest, anchor, end); }
    }
  }

  lemma CutIsNotRestored(pre: string, entry: string, rest: string, anchor: nat, end: nat)
    requires Placed(pre, entry, anchor) && end <= |pre + entry + rest| && end != |pre| + |entry|
    ensures var s := pre + entry + rest; PointReleaseAtReleaseKey(pre + entry + s[end..]) != Some(s)
  {
    var s := pre + entry + rest;
    var cut := pre + entry + s[end..];
    if PointReleaseAtReleaseKey(cut).Some? { PointGrows(cut); }
    if end == |pre| + |entry| + 2 {
      assert s[end..] == rest[2..];
      NoLuckyCut(pre, entry, rest, anchor);
    } else {
      assert |cut| == |s| + |pre| + |entry| - end;
    }
  }

  lemma PointGrows(contents: string)
    requires PointReleaseAtReleaseKey(contents).Some?
    ensures |PointReleaseAtReleaseKey(contents).value| in {|contents|, |contents| + 2}
  {
    if !AlreadyPointed(contents, ReleaseIndex(contents)) { PointIsRepoint(contents, ReleaseIndex(contents)); }
  }

  /** In particular values without braces are safe. */
  lemma RewriteTwice(contents: string, signing: Signing)
    requires Braceless(signing) && InTemplateOrder(contents)
    requires Rewrite(contents, signing).Some?
    ensures Rewrite(Rewrite(contents, signing).value, signing) == Rewrite(contents, signing)
  {
    BracelessIsTypeFree(signing);
    BracelessIsSelfClosed(signing);
    RewriteTwiceIff(contents, signing);
  }
}
