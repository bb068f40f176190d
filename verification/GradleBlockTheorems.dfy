/** Whether pointing the release build at its key reaches the release block. */
module GradleBlockTheorems {
  import opened Wrappers
  import opened Search
  import opened GradleSigning
  import opened GradleSigningTheorems

  /** Where the block opened by `release {` at r ends, or -1. */
  function EndOfRelease(contents: string, r: nat): (end: int)
    requires r + |RELEASE_BLOCK| <= |contents|
    ensures -1 <= end <= |contents|
  {
    BlockEnd(contents, r + |RELEASE|, r + |RELEASE|)
  }

  /** The release statement stands inside that block. */
  ghost predicate PointedInBlock(contents: string, r: nat)
    requires r + |RELEASE_BLOCK| <= |contents|
  {
    exists q: nat :: r <= q && OccursAt(contents, RELEASE_STATEMENT, q)
      && q + |RELEASE_STATEMENT| <= EndOfRelease(contents, r)
  }

  /** The first of the two statements from r on, or -1. */
  function FirstStatement(contents: string, r: nat): int {
    IndexOf(contents, if AlreadyPointed(contents, r) then RELEASE_STATEMENT else DEBUG_STATEMENT, r)
  }

  // ---------- Where the block ends after the edit ----------

  lemma StatementsHaveNoBraces()
    ensures NoBraces(DEBUG_STATEMENT) && NoBraces(RELEASE_STATEMENT)
  {
  }

  lemma {:induction false} DepthSame(s: string, t: string, open: nat, to: nat)
    requires open <= to <= |s| && to <= |t| && s[..to] == t[..to]
    ensures Depth(s, open, to) == Depth(t, open, to)
  {
    if open < to {
      assert s[..to - 1] == s[..to][..to - 1] && t[..to - 1] == t[..to][..to - 1];
      assert s[..to][to - 1] == t[..to][to - 1];
      DepthSame(s, t, open, to - 1);
    }
  }

  lemma {:induction false} DepthFlat(s: string, open: nat, from: nat, to: nat)
    requires open <= from <= to <= |s| && forall i :: from <= i < to ==> s[i] != '{' && s[i] != '}'
    ensures Depth(s, open, to) == Depth(s, open, from)
  {
    if from < to { DepthFlat(s, open, from, to - 1); }
  }

  /** Behind the edit everything stands two characters later at the same depth. */
  lemma {:induction false} DepthBehind(s: string, open: nat, debug: nat, to: nat)
    requires OccursAt(s, DEBUG_STATEMENT, debug) && open <= debug && debug + |DEBUG_STATEMENT| <= to <= |s|
    ensures Depth(Repoint(s, debug), open, to + 2) == Depth(s, open, to)
  {
    var t := Repoint(s, debug);
    var behind := debug + |DEBUG_STATEMENT|;
    if to == behind {
      DepthOver(s, t, open, debug);
    } else {
      DepthBehind(s, open, debug, to - 1);
      assert t[to + 1] == s[to - 1];
    }
  }

  /** Neither statement changes the depth. */
  lemma DepthOver(s: string, t: string, open: nat, debug: nat)
    requires OccursAt(s, DEBUG_STATEMENT, debug) && open <= debug && t == Repoint(s, debug)
    ensures Depth(t, open, debug + |DEBUG_STATEMENT| + 2) == Depth(s, open, debug + |DEBUG_STATEMENT|)
  {
    StatementsHaveNoBraces();
    RepointForm(s, debug);
    DepthSame(s, t, open, debug);
    DepthFlatOver(s, DEBUG_STATEMENT, open, debug);
    DepthFlatOver(t, RELEASE_STATEMENT, open, debug);
  }

  lemma DepthFlatOver(s: string, statement: string, open: nat, at: nat)
    requires OccursAt(s, statement, at) && NoBraces(statement) && open <= at
    ensures Depth(s, open, at + |statement|) == Depth(s, open, at)
  {
    forall i | at <= i < at + |statement| ensures s[i] != '{' && s[i] != '}' { OccursChar(s, statement, at, i - at); }
    DepthFlat(s, open, at, at + |statement|);
  }

  lemma ClosesBefore(s: string, t: string, open: nat, debug: nat, e: nat)
    requires e <= debug <= |s| && debug <= |t| && s[..debug] == t[..debug]
    ensures ClosesAt(s, open, e) <==> ClosesAt(t, open, e)
  {
    if open < e {
      assert s[..e] == s[..debug][..e] && t[..e] == t[..debug][..e];
      assert s[e - 1] == s[..debug][e - 1] && t[e - 1] == t[..debug][e - 1];
      DepthSame(s, t, open, e);
    }
  }

  lemma ClosesBehind(s: string, open: nat, debug: nat, e: nat)
    requires OccursAt(s, DEBUG_STATEMENT, debug) && open <= debug && debug + |DEBUG_STATEMENT| < e <= |s|
    ensures ClosesAt(s, open, e) <==> ClosesAt(Repoint(s, debug), open, e + 2)
  {
    DepthBehind(s, open, debug, e);
    assert Repoint(s, debug)[e + 1] == s[e - 1];
  }

  /** Nothing closes inside a statement. */
  lemma NoCloseInside(s: string, statement: string, open: nat, at: nat, e: nat)
    requires OccursAt(s, statement, at) && NoBraces(statement) && at < e <= at + |statement|
    ensures !ClosesAt(s, open, e)
  {
    OccursChar(s, statement, at, e - 1 - at);
  }

  lemma CloseIsBehind(s: string, statement: string, open: nat, at: nat, e: nat)
    requires OccursAt(s, statement, at) && NoBraces(statement) && at < e && ClosesAt(s, open, e)
    ensures at + |statement| < e
  {
    if e <= at + |statement| { NoCloseInside(s, statement, open, at, e); }
  }

  lemma {:induction false} BlockEndNone(s: string, open: nat, i: nat)
    requires open <= i <= |s| && forall e :: i < e <= |s| ==> !ClosesAt(s, open, e)
    ensures BlockEnd(s, open, i) == -1
    decreases |s| - i
  {
    if i < |s| { BlockEndNone(s, open, i + 1); }
  }

  lemma {:induction false} BlockEndFirst(s: string, open: nat, i: nat, e: nat)
    requires open <= i < e <= |s| && ClosesAt(s, open, e) && forall k :: i < k < e ==> !ClosesAt(s, open, k)
    ensures BlockEnd(s, open, i) == e
    decreases e - i
  {
    if i + 1 < e { BlockEndFirst(s, open, i + 1, e); }
  }

  /** Where a position of the edited text stood before. */
  function Before(k: nat, debug: nat): int {
    if k <= debug then k else k - 2
  }

  /** What closes in the edited text closed before. */
  lemma CloseWasThere(s: string, open: nat, debug: nat, k: nat)
    requires OccursAt(s, DEBUG_STATEMENT, debug) && open <= debug
    requires open < k <= |s| + 2 && ClosesAt(Repoint(s, debug), open, k)
    ensures k <= debug || k > debug + |RELEASE_STATEMENT|
    ensures open < Before(k, debug) <= |s| && ClosesAt(s, open, Before(k, debug))
  {
    var t := Repoint(s, debug);
    RepointForm(s, debug);
    StatementsHaveNoBraces();
    if k <= debug {
      ClosesBefore(s, t, open, debug, k);
    } else {
      CloseIsBehind(t, RELEASE_STATEMENT, open, debug, k);
      ClosesBehind(s, open, debug, k - 2);
    }
  }

  /** The block's end closes in the edited text, moved along when the edit stands before it. */
  lemma EndStillCloses(s: string, open: nat, debug: nat, end: nat)
    requires OccursAt(s, DEBUG_STATEMENT, debug) && open <= debug && open < end <= |s| && ClosesAt(s, open, end)
    ensures ClosesAt(Repoint(s, debug), open, if debug < end then end + 2 else end)
  {
    RepointForm(s, debug);
    StatementsHaveNoBraces();
    if debug < end {
      CloseIsBehind(s, DEBUG_STATEMENT, open, debug, end);
      ClosesBehind(s, open, debug, end);
    } else {
      ClosesBefore(s, Repoint(s, debug), open, debug, end);
    }
  }

  /** The edit moves the block's end along when it stands before it, and leaves it otherwise. */
  lemma EditedEnd(s: string, open: nat, debug: nat)
    requires OccursAt(s, DEBUG_STATEMENT, debug) && open <= debug
    ensures var end := BlockEnd(s, open, open);
      BlockEnd(Repoint(s, debug), open, open) == if debug < end then end + 2 else end
  {
    var t, end := Repoint(s, debug), BlockEnd(s, open, open);
    RepointForm(s, debug);
    BlockEndGrows(s, open, open);
    var moved := if debug < end then end + 2 else end;
    forall k | open < k <= |t| && (end == -1 || k < moved) ensures !ClosesAt(t, open, k) {
      if ClosesAt(t, open, k) {
        CloseWasThere(s, open, debug, k);
        BlockEndIsLeast(s, open, open, Before(k, debug));
      }
    }
    if end == -1 {
      BlockEndNone(t, open, open);
    } else {
      EndStillCloses(s, open, debug, end);
      BlockEndFirst(t, open, open, moved);
    }
  }

  // ---------- The release block of the result ----------

  lemma PointedAlready(contents: string, r: nat)
    requires r + |RELEASE_BLOCK| <= |contents| && AlreadyPointed(contents, r)
    ensures PointedInBlock(contents, r) <==> FirstStatement(contents, r) < EndOfRelease(contents, r)
  {
    var own, end := IndexOf(contents, RELEASE_STATEMENT, r), EndOfRelease(contents, r);
    IndexOfMeans(contents, RELEASE_STATEMENT, r);
    if own < end { InsideBlock(contents, r, own); }
  }

  lemma RepointForm(s: string, debug: nat)
    requires OccursAt(s, DEBUG_STATEMENT, debug)
    ensures var t := Repoint(s, debug);
      |t| == |s| + 2 && t[..debug] == s[..debug] && OccursAt(t, RELEASE_STATEMENT, debug)
  {
    var behind := debug + |DEBUG_STATEMENT|;
    OccursIn(s[..debug], RELEASE_STATEMENT, s[behind..]);
    assert Repoint(s, debug) == s[..debug] + RELEASE_STATEMENT + s[behind..];
  }

  /** A statement that stands before the end of the block is inside it. */
  lemma InsideBlock(t: string, r: nat, q: nat)
    requires r + |RELEASE_BLOCK| <= |t| && r <= q && OccursAt(t, RELEASE_STATEMENT, q) && q < EndOfRelease(t, r)
    ensures PointedInBlock(t, r)
  {
    StatementsHaveNoBraces();
    CloseIsBehind(t, RELEASE_STATEMENT, r + |RELEASE|, q, EndOfRelease(t, r));
  }

  /** Without a statement up to the end of the block there is none inside. */
  lemma OutsideBlock(s: string, t: string, r: nat, n: nat)
    requires n <= |s| && n <= |t| && s[..n] == t[..n] && r + |RELEASE_BLOCK| <= |t| && EndOfRelease(t, r) <= n
    requires forall q :: r <= q < n ==> !OccursAt(s, RELEASE_STATEMENT, q)
    ensures !PointedInBlock(t, r)
  {
    forall q | r <= q && q + |RELEASE_STATEMENT| <= EndOfRelease(t, r) ensures !OccursAt(t, RELEASE_STATEMENT, q) {
      OccursInPrefix(t, n, RELEASE_STATEMENT, q);
      OccursInPrefix(s, n, RELEASE_STATEMENT, q);
    }
  }

  lemma PointedByEdit(contents: string, r: nat, debug: nat)
    requires OccursAt(contents, DEBUG_STATEMENT, debug) && r + |RELEASE_BLOCK| <= debug
    requires forall q :: r <= q < debug ==> !OccursAt(contents, RELEASE_STATEMENT, q)
    ensures PointedInBlock(Repoint(contents, debug), r) <==> debug < EndOfRelease(contents, r)
  {
    EditedEnd(contents, r + |RELEASE|, debug);
    RepointForm(contents, debug);
    EditedInBlock(contents, Repoint(contents, debug), r, debug, EndOfRelease(contents, r));
  }

  lemma EditedInBlock(s: string, t: string, r: nat, debug: nat, end: int)
    requires r + |RELEASE_BLOCK| <= debug <= |s| && debug <= |t| && t[..debug] == s[..debug]
    requires OccursAt(t, RELEASE_STATEMENT, debug)
    requires EndOfRelease(t, r) == if debug < end then end + 2 else end
    requires forall q :: r <= q < debug ==> !OccursAt(s, RELEASE_STATEMENT, q)
    ensures PointedInBlock(t, r) <==> debug < end
  {
    if debug < end { InsideBlock(t, r, debug); } else { OutsideBlock(s, t, r, debug); }
  }

  /**
   * On success the release block of the result contains the release statement exactly when the
   * first of the two statements from that block on stands before the block's end.
   */
  lemma PointsItsBlockIff(contents: string)
    requires PointReleaseAtReleaseKey(contents).Some?
    ensures var r := ReleaseIndex(contents); var t := PointReleaseAtReleaseKey(contents).value;
      && ReleaseIndex(t) == r && 0 <= r && r + |RELEASE_BLOCK| <= |contents| && r + |RELEASE_BLOCK| <= |t|
      && (PointedInBlock(t, r) <==> FirstStatement(contents, r) < EndOfRelease(contents, r))
  {
    var r := ReleaseIndex(contents);
    ReleaseBehindTypes(contents);
    if AlreadyPointed(contents, r) {
      PointedAlready(contents, r);
    } else {
      PointIsRepoint(contents, r);
      var debug := IndexOf(contents, DEBUG_STATEMENT, r);
      RepointedIndex(contents, debug);
      IndexOfMeans(contents, RELEASE_STATEMENT, r);
      PointedByEdit(contents, r, debug);
    }
  }

  // ---------- A file that is pointed in the wrong place ----------

  const BETWEEN: string := "} debug {"

  /** A release block without a statement, and a debug block with one. */
  function UnsignedRelease(): string {
    BUILD_TYPES + RELEASE_BLOCK + BETWEEN + DEBUG_STATEMENT + "}}"
  }

  lemma PartsStand(a: string, b: string, c: string, d: string, e: string)
    ensures var s := a + b + c + d + e;
      && OccursAt(s, a, 0) && OccursAt(s, b, |a|) && OccursAt(s, d, |a + b + c|)
      && (forall i :: 0 <= i < |b + c| ==> s[|a| + i] == (b + c)[i])
  {
    var s := a + b + c + d + e;
    assert s == "" + a + (b + c + d + e);
    OccursIn("", a, b + c + d + e);
    assert s == a + b + (c + d + e);
    OccursIn(a, b, c + d + e);
    OccursIn(a + b + c, d, e);
  }

  lemma Between()
    ensures var m := RELEASE_BLOCK + BETWEEN;
      && (forall i :: 0 <= i < |m| - 1 ==> m[i] != 's' || m[i + 1] != 'i')
      && m[|m| - 1] != 's'
      && m[7] == ' ' && m[8] == '{' && m[9] == '}'
    ensures forall statement :: statement in {DEBUG_STATEMENT, RELEASE_STATEMENT} ==>
      |statement| >= 30 && statement[0] == 's' && statement[1] == 'i'
    ensures DEBUG_STATEMENT[29] != RELEASE_STATEMENT[29]
  {
  }

  lemma NoStatementBetween(s: string, b: nat, q: nat)
    requires var m := RELEASE_BLOCK + BETWEEN;
      b + |m| < |s| && b <= q < b + |m| && (forall i :: 0 <= i < |m| ==> s[b + i] == m[i])
    ensures !OccursAt(s, DEBUG_STATEMENT, q) && !OccursAt(s, RELEASE_STATEMENT, q)
  {
    Between();
    var m, i := RELEASE_BLOCK + BETWEEN, q - b;
    assert s[b + i] == m[i];
    if m[i] != 's' {
      NotAt(s, DEBUG_STATEMENT, q, 0);
      NotAt(s, RELEASE_STATEMENT, q, 0);
    } else {
      assert s[b + (i + 1)] == m[i + 1];
      NotAt(s, DEBUG_STATEMENT, q, 1);
      NotAt(s, RELEASE_STATEMENT, q, 1);
    }
  }

  lemma FirstsOfUnsigned(s: string, b: nat, d: nat)
    requires b == |BUILD_TYPES| && d == b + |RELEASE_BLOCK + BETWEEN|
    requires OccursAt(s, BUILD_TYPES, 0) && OccursAt(s, RELEASE_BLOCK, b) && OccursAt(s, DEBUG_STATEMENT, d)
    requires forall i :: 0 <= i < |RELEASE_BLOCK + BETWEEN| ==> s[b + i] == (RELEASE_BLOCK + BETWEEN)[i]
    ensures ReleaseIndex(s) == b && IndexOf(s, DEBUG_STATEMENT, b) == d && !AlreadyPointed(s, b)
  {
    IndexOfIs(s, BUILD_TYPES, 0, 0);
    forall q | 0 <= q < b ensures !OccursAt(s, RELEASE_BLOCK, q) { NoReleaseInTypes(s, 0, q); }
    IndexOfIs(s, RELEASE_BLOCK, 0, b);
    forall q | b <= q < d ensures !OccursAt(s, DEBUG_STATEMENT, q) && !OccursAt(s, RELEASE_STATEMENT, q) {
      NoStatementBetween(s, b, q);
    }
    IndexOfIs(s, DEBUG_STATEMENT, b, d);
    IndexOfMeans(s, RELEASE_STATEMENT, b);
    Between();
    OccursChar(s, DEBUG_STATEMENT, d, 29);
    NotAt(s, RELEASE_STATEMENT, d, 29);
  }

  /** The file is edited, its release block is not pointed, and its debug block is changed. */
  lemma DebugBlockIsEdited()
    ensures var s := UnsignedRelease(); var r := |BUILD_TYPES|;
      && PointReleaseAtReleaseKey(s).Some? && ReleaseIndex(s) == r && r + |RELEASE_BLOCK| <= |s|
      && EndOfRelease(s, r) == r + |RELEASE_BLOCK| + 1
      && var t := PointReleaseAtReleaseKey(s).value;
      && r + |RELEASE_BLOCK| <= |t| && !PointedInBlock(t, r) && !KeepsTheRest(s, t, EndOfRelease(s, r))
  {
    var s, r, d := UnsignedRelease(), |BUILD_TYPES|, |BUILD_TYPES + RELEASE_BLOCK + BETWEEN|;
    PartsStand(BUILD_TYPES, RELEASE_BLOCK, BETWEEN, DEBUG_STATEMENT, "}}");
    FirstsOfUnsigned(s, r, d);
    Between();
    assert s[r + 7] == ' ' && s[r + 8] == '{' && s[r + 9] == '}';
    EmptyBlockEnds(s, r + |RELEASE|);
    PointKeepsToReleaseIff(s, r, EndOfRelease(s, r));
    PointsItsBlockIff(s);
  }

  lemma EmptyBlockEnds(s: string, open: nat)
    requires open + 3 <= |s| && s[open] == ' ' && s[open + 1] == '{' && s[open + 2] == '}'
    ensures BlockEnd(s, open, open) == open + 3
  {
    assert Depth(s, open, open) == 0;
    assert Depth(s, open, open + 1) == 0;
    assert Depth(s, open, open + 2) == 1;
    assert Depth(s, open, open + 3) == 0;
    BlockEndFirst(s, open, open, open + 3);
  }
}
