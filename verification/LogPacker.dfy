/** Packing recent logs for a report: shrink from the head until the compressed text fits. */
module LogPacker {
  import opened Numbers

  const ATTEMPTS: nat := 5

  datatype Segment = Segment(header: string, content: string)

  /** Every segment under its header, a newline between two segments. */
  function Combined(segments: seq<Segment>): string {
    if segments == [] then ""
    else
      var n := |segments| - 1;
      Combined(segments[..n]) + (if n > 0 then "\n" else "") + segments[n].header + segments[n].content
  }

  /** `s.slice(from)` */
  function Slice(s: string, from: int): string {
    var k := if from < 0 then |s| + from else from;
    if k <= 0 then s else if k >= |s| then "" else s[k..]
  }

  /** How many characters would fit at the current ratio, with a tenth to spare. */
  function Target(length: nat, packed: nat, maxBytes: int): int
    requires packed > 0
  {
    Max(maxBytes * Max(length, 1) * 9 / (packed * 10), 1024)
  }

  function Cut(s: string, packed: nat, maxBytes: int): string
    requires packed > 0
  {
    var target := Target(|s|, packed, maxBytes);
    if |s| <= target then Slice(s, |s| * 3 / 10) else Slice(s, |s| - target)
  }

  /** Compression never yields an empty buffer. */
  type Size = f: string -> nat | forall s :: f(s) > 0 witness ((s: string) => 1)

  /** What is compressed at the k-th time. */
  function Text(whole: string, gzip: Size, maxBytes: int, k: nat): string {
    if k == 0 then whole
    else
      var before := Text(whole, gzip, maxBytes, k - 1);
      Cut(before, gzip(before), maxBytes)
  }

  predicate IsSuffix(t: string, s: string) {
    |t| <= |s| && t == s[|s| - |t|..]
  }

  /** A cut leaves a suffix, drops something of more than three characters, keeps seven tenths or 1024 characters. */
  lemma CutMeans(s: string, packed: nat, maxBytes: int)
    requires packed > 0
    ensures var t := Cut(s, packed, maxBytes);
      && IsSuffix(t, s)
      && (|s| > 3 ==> |t| < |s|)
      && (10 * |t| >= 7 * |s| || |t| >= 1024)
  {
  }

  /** A cut keeps the target, or seven tenths of what is not longer. */
  lemma CutLength(s: string, packed: nat, maxBytes: int)
    requires packed > 0
    ensures var target := Target(|s|, packed, maxBytes);
      |Cut(s, packed, maxBytes)| == if |s| <= target then |s| - |s| * 3 / 10 else target
  {
  }

  /** How many whole times d goes into n. */
  predicate GoesInto(q: int, d: nat, n: int) {
    q * d <= n < (q + 1) * d
  }

  /** The target is the most characters that fill nine tenths of the limit at the current ratio, and at least 1024. */
  lemma TargetIs(length: nat, packed: nat, maxBytes: int)
    requires packed > 0 && length > 0
    ensures exists q ::
      && GoesInto(q, packed * 10, maxBytes * length * 9)
      && Target(length, packed, maxBytes) == if q > 1024 then q else 1024
  {
    var d, n := packed * 10, maxBytes * length * 9;
    assert Max(length, 1) == length;
    DivisionIs(n, d);
    assert GoesInto(n / d, d, n);
  }

  lemma DivisionIs(n: int, d: nat)
    requires d > 0
    ensures GoesInto(n / d, d, n)
  {
  }

  /** Segments are joined in order, headers in front, with one newline between two and none at the ends. */
  lemma {:induction false} CombinedJoins(a: seq<Segment>, b: seq<Segment>)
    requires a != [] && b != []
    ensures Combined(a + b) == Combined(a) + "\n" + Combined(b)
  {
    var n := |b| - 1;
    assert (a + b)[..|a| + n] == a + b[..n];
    assert (a + b)[|a| + n] == b[n];
    var header, content := b[n].header, b[n].content;
    if n == 0 {
      assert a + b[..0] == a && b == [b[0]];
      CombinedOne(b[0]);
      Joined(Combined(a), "\n", "", header, content);
    } else {
      CombinedJoins(a, b[..n]);
      Joined(Combined(a) + "\n", Combined(b[..n]), "\n", header, content);
    }
  }

  lemma Joined(a: string, b: string, c: string, d: string, e: string)
    ensures a + b + c + d + e == a + (b + c + d + e)
    ensures a + b + d + e == a + b + (d + e)
  {
  }

  lemma CombinedOne(segment: Segment)
    ensures Combined([segment]) == segment.header + segment.content
  {
    assert [segment][..0] == [];
  }

  lemma {:induction false} TextIsSuffix(whole: string, gzip: Size, maxBytes: int, k: nat)
    ensures IsSuffix(Text(whole, gzip, maxBytes, k), whole)
  {
    if k == 0 {
    } else {
      var before := Text(whole, gzip, maxBytes, k - 1);
      TextIsSuffix(whole, gzip, maxBytes, k - 1);
      CutMeans(before, gzip(before), maxBytes);
    }
  }

  lemma {:induction false} TextShrinks(whole: string, gzip: Size, maxBytes: int, i: nat, k: nat)
    requires i < k
    ensures |Text(whole, gzip, maxBytes, k)| <= |Text(whole, gzip, maxBytes, i)|
    ensures |Text(whole, gzip, maxBytes, i)| > 3 ==> |Text(whole, gzip, maxBytes, k)| < |Text(whole, gzip, maxBytes, i)|
  {
    if i < k - 1 { TextShrinks(whole, gzip, maxBytes, i, k - 1); }
    var before := Text(whole, gzip, maxBytes, k - 1);
    CutMeans(before, gzip(before), maxBytes);
  }

  /** Too big at the first k compressions. */
  ghost predicate TooBig(whole: string, gzip: Size, maxBytes: int, k: nat) {
    forall i: nat :: i < k ==> gzip(Text(whole, gzip, maxBytes, i)) > maxBytes
  }

  ghost predicate FitsAt(whole: string, gzip: Size, maxBytes: int, k: nat, text: string) {
    TooBig(whole, gzip, maxBytes, k) && text == Text(whole, gzip, maxBytes, k) && gzip(text) <= maxBytes
  }

  /** The last characters of s, half as many as bytes allowed; a limit below two cuts minus its half off the head. */
  predicate LastResort(s: string, maxBytes: int, text: string) {
    && IsSuffix(text, s)
    && |text| == if maxBytes >= 2 then |s| - Max(|s| - maxBytes / 2, 0) else Max(|s| + maxBytes / 2, 0)
  }

  /** The first of the cuts that fits; if none does, the last resort on the last of them. */
  ghost predicate Shortened(whole: string, gzip: Size, maxBytes: int, attempts: nat, text: string) {
    || (exists k: nat :: 0 < k <= attempts && FitsAt(whole, gzip, maxBytes, k, text))
    || (TooBig(whole, gzip, maxBytes, attempts + 1)
        && LastResort(Text(whole, gzip, maxBytes, attempts), maxBytes, text))
  }

  method Combine(segments: seq<Segment>) returns (combined: string)
    ensures combined == Combined(segments)
  {
    combined := "";
    for i := 0 to |segments|
      invariant combined == (Combined(segments[..i]) + if 0 < i < |segments| then "\n" else "")
    {
      assert segments[..i + 1][..i] == segments[..i];
      combined := combined + segments[i].header + segments[i].content;
      if i < |segments| - 1 { combined := combined + "\n"; }
    }
    assert segments[..|segments|] == segments;
  }

  lemma NextCut(whole: string, gzip: Size, maxBytes: int, k: nat, text: string)
    requires text == Text(whole, gzip, maxBytes, k) && TooBig(whole, gzip, maxBytes, k + 1)
    ensures var t := Cut(text, gzip(text), maxBytes);
      && t == Text(whole, gzip, maxBytes, k + 1) && IsSuffix(t, whole)
      && (gzip(t) <= maxBytes ==> FitsAt(whole, gzip, maxBytes, k + 1, t))
      && (gzip(t) > maxBytes ==> TooBig(whole, gzip, maxBytes, k + 2))
  {
    TextIsSuffix(whole, gzip, maxBytes, k + 1);
  }

  /** Returns what is compressed after a first compression that was too big. */
  method Shrink(whole: string, gzip: Size, maxBytes: int, attempts: nat) returns (text: string)
    requires gzip(whole) > maxBytes
    ensures IsSuffix(text, whole) && Shortened(whole, gzip, maxBytes, attempts, text)
  {
    text := whole;
    var packed := gzip(text);
    for attempt := 0 to attempts
      invariant text == Text(whole, gzip, maxBytes, attempt) && packed == gzip(text)
      invariant TooBig(whole, gzip, maxBytes, attempt + 1)
    {
      NextCut(whole, gzip, maxBytes, attempt, text);
      text := Cut(text, packed, maxBytes);
      packed := gzip(text);
      if packed <= maxBytes { return; }
    }
    TextIsSuffix(whole, gzip, maxBytes, attempts);
    LastCut(whole, text, maxBytes);
    text := Slice(text, -(maxBytes / 2));
  }

  /** Returns what is compressed, and whether anything was cut off. */
  method PackAndCap(segments: seq<Segment>, gzip: Size, maxBytes: int) returns (text: string, truncated: bool)
    ensures IsSuffix(text, Combined(segments))
    ensures truncated <==> gzip(Combined(segments)) > maxBytes
    ensures if truncated then Shortened(Combined(segments), gzip, maxBytes, 5, text)
            else text == Combined(segments)
  {
    text := Combine(segments);
    truncated := gzip(text) > maxBytes;
    if truncated { text := Shrink(text, gzip, maxBytes, ATTEMPTS); }
  }

  lemma LastCut(whole: string, text: string, maxBytes: int)
    requires IsSuffix(text, whole)
    ensures var t := Slice(text, -(maxBytes / 2)); IsSuffix(t, whole) && LastResort(text, maxBytes, t)
  {
  }
}
