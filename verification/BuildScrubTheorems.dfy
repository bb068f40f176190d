/** What the scrub changes, what it misses, and when it misses nothing. */
module BuildScrubTheorems {
  import opened Bytes
  import opened Search
  import opened BuildScrub

  /** The account name stands between backslashes at p. */
  predicate Named(s: seq<Byte>, name: seq<Byte>, p: int) {
    OccursAt(s, Needle(name), p)
  }

  /** A name that can be taken out: a path segment that is not already all x. */
  predicate Scrubbable(name: seq<Byte>) {
    BACKSLASH !in name && name != Xs(|name|)
  }

  lemma NamedMeans(s: seq<Byte>, name: seq<Byte>, p: int)
    ensures Named(s, name, p) <==>
      && 0 <= p <= |s| - |name| - 2
      && s[p] == BACKSLASH && s[p + |name| + 1] == BACKSLASH
      && s[p + 1..p + 1 + |name|] == name
  {
  }

  lemma NamedByte(s: seq<Byte>, name: seq<Byte>, p: int, i: int)
    requires Named(s, name, p) && BACKSLASH !in name && p < i <= p + |name|
    ensures s[i] != BACKSLASH
  {
  }

  /** Two occurrences can only share the backslash between them. */
  lemma OverlapsShareBackslash(s: seq<Byte>, name: seq<Byte>, p: int, q: int)
    requires BACKSLASH !in name && Named(s, name, p) && Named(s, name, q) && p < q
    ensures q >= p + |name| + 1
  {
    NamedMeans(s, name, q);
    if q <= p + |name| { NamedByte(s, name, p, q); }
  }

  lemma PatchBytes(s: seq<Byte>, name: seq<Byte>, at: nat)
    requires Named(s, name, at)
    ensures var t := Patch(s, at, Needle(Xs(|name|)));
      forall i :: 0 <= i < |s| ==> t[i] == if at < i <= at + |name| then LETTER_X else s[i]
  {
  }

  /** Overwriting one occurrence removes it and no other, and makes none. */
  lemma PatchRemovesOne(s: seq<Byte>, name: seq<Byte>, at: nat, q: int)
    requires Scrubbable(name) && Named(s, name, at)
    ensures var t := Patch(s, at, Needle(Xs(|name|)));
      Named(t, name, q) <==> Named(s, name, q) && q != at
  {
    var t, n := Patch(s, at, Needle(Xs(|name|))), |name|;
    PatchBytes(s, name, at);
    NamedMeans(s, name, q);
    NamedMeans(t, name, q);
    if 0 <= q <= |s| - n - 2 {
      if q == at {
        assert t[q + 1..q + 1 + n] == Xs(n);
      } else if q <= at - n - 1 || q >= at + n + 1 {
        assert t[q + 1..q + 1 + n] == s[q + 1..q + 1 + n];
      } else if at < q {
        assert t[q] == LETTER_X;
        if Named(s, name, q) { OverlapsShareBackslash(s, name, at, q); }
      } else {
        assert t[q + n + 1] == LETTER_X;
        if Named(s, name, q) { OverlapsShareBackslash(s, name, q, at); }
      }
    }
  }

  // ---------- The scan as the list of positions it overwrites ----------

  function Cover(s: seq<Byte>, name: seq<Byte>, at: nat): (t: seq<Byte>)
    requires at + |name| + 2 <= |s|
    ensures |t| == |s|
  {
    Patch(s, at, Needle(Xs(|name|)))
  }

  ghost predicate NoOccurrence(s: seq<Byte>, needle: seq<Byte>, from: int, to: int) {
    forall q :: from <= q < to ==> !OccursAt(s, needle, q)
  }

  /** Scanning s from a position on overwrites exactly these positions and yields t. */
  ghost predicate Overwrites(
    s: seq<Byte>, needle: seq<Byte>, replacement: seq<Byte>, from: nat, hits: seq<nat>, t: seq<Byte>)
    requires 0 < |needle| == |replacement|
    decreases |hits|
  {
    if hits == [] then t == s && NoOccurrence(s, needle, from, |s|)
    else
      && from <= hits[0] && OccursAt(s, needle, hits[0]) && NoOccurrence(s, needle, from, hits[0])
      && Overwrites(Patch(s, hits[0], replacement), needle, replacement, hits[0] + |needle|, hits[1..], t)
  }

  ghost predicate IsScan(s: seq<Byte>, name: seq<Byte>, from: nat, hits: seq<nat>, t: seq<Byte>) {
    Overwrites(s, Needle(name), Needle(Xs(|name|)), from, hits, t)
  }

  /** at is the first occurrence from a position on, or -1. */
  ghost predicate IsFirst(s: seq<Byte>, needle: seq<Byte>, from: nat, at: int) {
    if at == -1 then NoOccurrence(s, needle, from, |s|)
    else from <= at && OccursAt(s, needle, at) && NoOccurrence(s, needle, from, at)
  }

  lemma FirstFound(s: seq<Byte>, needle: seq<Byte>, from: nat)
    ensures IsFirst(s, needle, from, IndexOf(s, needle, from))
  {
    IndexOfMeans(s, needle, from);
  }

  lemma OverwritesCons(s: seq<Byte>, needle: seq<Byte>, replacement: seq<Byte>, from: nat,
                       at: nat, rest: seq<nat>, t: seq<Byte>)
    requires 0 < |needle| == |replacement| && IsFirst(s, needle, from, at)
    requires Overwrites(Patch(s, at, replacement), needle, replacement, at + |needle|, rest, t)
    ensures Overwrites(s, needle, replacement, from, [at] + rest, t)
  {
  }

  lemma {:induction false} ScanOverwrites(
    s: seq<Byte>, needle: seq<Byte>, replacement: seq<Byte>, from: nat, at: int)
    requires 0 < |needle| == |replacement| && IsFirst(s, needle, from, at)
    ensures Overwrites(s, needle, replacement, from,
      Scan(s, needle, replacement, at).1, Scan(s, needle, replacement, at).0)
    decreases |s| - from
  {
    if at != -1 {
      var later := Patch(s, at, replacement);
      var next := IndexOf(later, needle, at + |needle|);
      FirstFound(later, needle, at + |needle|);
      ScanOverwrites(later, needle, replacement, at + |needle|, next);
      var (t, rest) := Scan(later, needle, replacement, next);
      OverwritesCons(s, needle, replacement, from, at, rest, t);
    }
  }

  /** The survivors are the occurrences of the input that were not overwritten. */
  lemma {:induction false} SurvivorsAreMissed(
    s: seq<Byte>, name: seq<Byte>, from: nat, hits: seq<nat>, t: seq<Byte>, q: int)
    requires Scrubbable(name) && IsScan(s, name, from, hits, t)
    ensures Named(t, name, q) <==> Named(s, name, q) && q !in hits
    decreases |hits|
  {
    if hits == [] {
    } else {
      PatchRemovesOne(s, name, hits[0], q);
      SurvivorsAreMissed(Cover(s, name, hits[0]), name, hits[0] + |name| + 2, hits[1..], t, q);
      assert hits == [hits[0]] + hits[1..];
    }
  }

  /** No two positions overwritten share a backslash, and none lies before the scan. */
  lemma {:induction false} HitsApart(
    s: seq<Byte>, name: seq<Byte>, from: nat, hits: seq<nat>, t: seq<Byte>, h: nat)
    requires IsScan(s, name, from, hits, t)
    requires h in hits
    ensures from <= h && h + |name| + 1 !in hits
    decreases |hits|
  {
    var later := Cover(s, name, hits[0]);
    var next := hits[0] + |name| + 2;
    assert hits == [hits[0]] + hits[1..];
    if h != hits[0] {
      HitsApart(later, name, next, hits[1..], t, h);
    } else if h + |name| + 1 in hits[1..] {
      HitsApart(later, name, next, hits[1..], t, h + |name| + 1);
    }
  }

  /** Every occurrence that the scan passes is overwritten or starts at the closing backslash of one that is. */
  lemma {:induction false} MissedFollowsHit(
    s: seq<Byte>, name: seq<Byte>, from: nat, hits: seq<nat>, t: seq<Byte>, q: int)
    requires Scrubbable(name) && IsScan(s, name, from, hits, t)
    requires Named(s, name, q) && from <= q
    ensures q in hits || q - |name| - 1 in hits
    decreases |hits|
  {
    assert hits != [];
    var at := hits[0];
    assert hits == [at] + hits[1..] && at <= q;
    if at < q {
      OverlapsShareBackslash(s, name, at, q);
      if q > at + |name| + 1 {
        PatchRemovesOne(s, name, at, q);
        MissedFollowsHit(Cover(s, name, at), name, at + |name| + 2, hits[1..], t, q);
      }
    }
  }

  lemma {:induction false} HitsAreNamed(
    s: seq<Byte>, name: seq<Byte>, from: nat, hits: seq<nat>, t: seq<Byte>, h: nat)
    requires Scrubbable(name) && IsScan(s, name, from, hits, t) && h in hits
    ensures Named(s, name, h)
    decreases |hits|
  {
    assert hits == [hits[0]] + hits[1..];
    if h != hits[0] {
      HitsAreNamed(Cover(s, name, hits[0]), name, hits[0] + |name| + 2, hits[1..], t, h);
      PatchRemovesOne(s, name, hits[0], h);
    }
  }

  /** i is a byte of the name at one of these positions. */
  ghost predicate InsideName(name: seq<Byte>, hits: seq<nat>, i: int) {
    exists h :: h in hits && h < i <= h + |name|
  }

  /** Only bytes of a name that was found are changed, each to an x. */
  lemma {:induction false} OnlyNamesChange(
    s: seq<Byte>, name: seq<Byte>, from: nat, hits: seq<nat>, t: seq<Byte>, i: nat)
    requires IsScan(s, name, from, hits, t) && |t| == |s| && i < |s|
    ensures t[i] == if InsideName(name, hits, i) then LETTER_X else s[i]
    decreases |hits|
  {
    if hits == [] {
    } else {
      var at := hits[0];
      PatchBytes(s, name, at);
      OnlyNamesChange(Cover(s, name, at), name, at + |name| + 2, hits[1..], t, i);
      InsideCons(name, hits, i);
    }
  }

  lemma InsideCons(name: seq<Byte>, hits: seq<nat>, i: int)
    requires hits != []
    ensures InsideName(name, hits, i) <==> hits[0] < i <= hits[0] + |name| || InsideName(name, hits[1..], i)
  {
    forall h | h in hits[1..] && h < i <= h + |name| ensures InsideName(name, hits, i) {
      assert h in hits;
    }
    if hits[0] < i <= hits[0] + |name| { assert hits[0] in hits; }
    assert hits == [hits[0]] + hits[1..];
  }

  // ---------- The whole buffer ----------

  ghost predicate Clean(s: seq<Byte>, name: seq<Byte>) {
    forall p :: !Named(s, name, p)
  }

  /** The name as two path segments in a row, sharing the backslash between them. */
  ghost predicate Doubled(s: seq<Byte>, name: seq<Byte>) {
    exists p :: Named(s, name, p) && Named(s, name, p + |name| + 1)
  }

  lemma ScrubIsScan(s: seq<Byte>, name: seq<Byte>)
    requires |name| >= 3
    ensures IsScan(s, name, 0, Scrubbed(s, name).1, Scrubbed(s, name).0)
  {
    FirstFound(s, Needle(name), 0);
    ScanOverwrites(s, Needle(name), Needle(Xs(|name|)), 0, IndexOf(s, Needle(name), 0));
  }

  /** What the scrub changes: the bytes of the names it found, each to an x. */
  lemma ScrubChanges(s: seq<Byte>, name: seq<Byte>, i: nat)
    requires i < |s|
    ensures var (t, hits) := Scrubbed(s, name);
      t[i] == if InsideName(name, hits, i) then LETTER_X else s[i]
  {
    if |name| >= 3 {
      ScrubIsScan(s, name);
      OnlyNamesChange(s, name, 0, Scrubbed(s, name).1, Scrubbed(s, name).0, i);
    }
  }

  lemma ScanLeaves(s: seq<Byte>, name: seq<Byte>, hits: seq<nat>, t: seq<Byte>, q: int)
    requires Scrubbable(name) && IsScan(s, name, 0, hits, t)
    ensures Named(t, name, q) <==> Named(s, name, q) && q !in hits
    ensures Named(t, name, q) ==> q - |name| - 1 in hits
  {
    SurvivorsAreMissed(s, name, 0, hits, t, q);
    if Named(s, name, q) {
      NamedMeans(s, name, q);
      MissedFollowsHit(s, name, 0, hits, t, q);
    }
  }

  lemma SurvivorIsDoubled(s: seq<Byte>, name: seq<Byte>, hits: seq<nat>, t: seq<Byte>, q: int)
    requires Scrubbable(name) && IsScan(s, name, 0, hits, t) && Named(t, name, q)
    ensures Doubled(s, name)
  {
    var d := |name| + 1;
    ScanLeaves(s, name, hits, t, q);
    HitsAreNamed(s, name, 0, hits, t, q - d);
    assert Named(s, name, (q - d) + d);
  }

  lemma DoubledSurvives(s: seq<Byte>, name: seq<Byte>, hits: seq<nat>, t: seq<Byte>, p: int)
    requires Scrubbable(name) && IsScan(s, name, 0, hits, t)
    requires Named(s, name, p) && Named(s, name, p + |name| + 1)
    ensures Named(t, name, p) || Named(t, name, p + |name| + 1)
  {
    SurvivorsAreMissed(s, name, 0, hits, t, p);
    SurvivorsAreMissed(s, name, 0, hits, t, p + |name| + 1);
    if p in hits { HitsApart(s, name, 0, hits, t, p); }
  }

  lemma ScanCleansIff(s: seq<Byte>, name: seq<Byte>, hits: seq<nat>, t: seq<Byte>)
    requires Scrubbable(name) && IsScan(s, name, 0, hits, t)
    ensures Clean(t, name) <==> !Doubled(s, name)
  {
    if Doubled(s, name) {
      var p :| Named(s, name, p) && Named(s, name, p + |name| + 1);
      DoubledSurvives(s, name, hits, t, p);
    } else {
      forall q ensures !Named(t, name, q) {
        if Named(t, name, q) { SurvivorIsDoubled(s, name, hits, t, q); }
      }
    }
  }

  /** What the scrub leaves: exactly the occurrences it did not overwrite, each right behind one that it did. */
  lemma ScrubLeaves(s: seq<Byte>, name: seq<Byte>, q: int)
    requires |name| >= 3 && Scrubbable(name)
    ensures var (t, hits) := Scrubbed(s, name);
      && (Named(t, name, q) <==> Named(s, name, q) && q !in hits)
      && (Named(t, name, q) ==> q - |name| - 1 in hits)
  {
    ScrubIsScan(s, name);
    ScanLeaves(s, name, Scrubbed(s, name).1, Scrubbed(s, name).0, q);
  }

  /** The name is gone exactly when it never stood twice in a row. */
  lemma ScrubCleansIff(s: seq<Byte>, name: seq<Byte>)
    requires |name| >= 3 && Scrubbable(name)
    ensures Clean(Scrubbed(s, name).0, name) <==> !Doubled(s, name)
  {
    ScrubIsScan(s, name);
    ScanCleansIff(s, name, Scrubbed(s, name).1, Scrubbed(s, name).0);
  }

  /** A name that is already all x leaves the buffer as it was. */
  lemma XsChangeNothing(s: seq<Byte>, n: nat)
    requires n >= 3
    ensures Scrubbed(s, Xs(n)).0 == s
  {
    var (t, hits) := Scrubbed(s, Xs(n));
    ScrubIsScan(s, Xs(n));
    XsScanNothing(s, n, 0, hits, t);
  }

  lemma {:induction false} XsScanNothing(s: seq<Byte>, n: nat, from: nat, hits: seq<nat>, t: seq<Byte>)
    requires IsScan(s, Xs(n), from, hits, t)
    ensures t == s
    decreases |hits|
  {
    if hits == [] {
    } else {
      assert Cover(s, Xs(n), hits[0]) == s by {
        assert s[hits[0]..hits[0] + n + 2] == Needle(Xs(n));
      }
      XsScanNothing(s, n, hits[0] + n + 2, hits[1..], t);
    }
  }

  /** `\bob\bob\` keeps its second `bob`. */
  lemma DoubledNameSurvives()
    ensures var bob: seq<Byte> := [0x62, 0x6f, 0x62];
      var path := Needle(bob) + bob + [BACKSLASH];
      !Clean(Scrubbed(path, bob).0, bob)
  {
    var bob: seq<Byte> := [0x62, 0x6f, 0x62];
    var path := Needle(bob) + bob + [BACKSLASH];
    assert bob[0] != Xs(3)[0];
    assert path[0..5] == Needle(bob) && path[4..9] == Needle(bob);
    assert Named(path, bob, 0) && Named(path, bob, 0 + |bob| + 1);
    ScrubCleansIff(path, bob);
  }
}
