/** Taking the build account's name out of a staged binary, in place. */
module BuildScrub {
  import opened Bytes
  import opened Search

  const BACKSLASH: Byte := 0x5c
  const LETTER_X: Byte := 0x78

  /** `\name\` */
  function Needle(name: seq<Byte>): seq<Byte> {
    [BACKSLASH] + name + [BACKSLASH]
  }

  function Xs(n: nat): seq<Byte> {
    seq(n, _ => LETTER_X)
  }

  /** Overwrite the bytes from p on. */
  function Patch(s: seq<Byte>, p: nat, r: seq<Byte>): (t: seq<Byte>)
    requires p + |r| <= |s|
    ensures |t| == |s|
  {
    s[..p] + r + s[p + |r|..]
  }

  /**
   * The scan from an occurrence on (-1 when there is none): it is overwritten and the search
   * resumes behind it. The result is the buffer and the positions overwritten.
   */
  function Scan(s: seq<Byte>, needle: seq<Byte>, replacement: seq<Byte>, at: int): (r: (seq<Byte>, seq<nat>))
    requires 0 < |needle| == |replacement|
    requires at == -1 || 0 <= at <= |s| - |needle|
    ensures |r.0| == |s|
    decreases if at == -1 then 0 else |s| - at
  {
    if at == -1 then (s, [])
    else
      var t := Patch(s, at, replacement);
      var (u, hits) := Scan(t, needle, replacement, IndexOf(t, needle, at + |needle|));
      (u, [at] + hits)
  }

  /** Names of one or two bytes would match all over a binary and are left alone. */
  function Scrubbed(s: seq<Byte>, name: seq<Byte>): (r: (seq<Byte>, seq<nat>))
    ensures |r.0| == |s|
  {
    if |name| < 3 then (s, []) else Scan(s, Needle(name), Needle(Xs(|name|)), IndexOf(s, Needle(name), 0))
  }

  method ScrubBuildUser(contents: array<Byte>, name: seq<Byte>) returns (found: nat)
    modifies contents
    ensures contents[..] == Scrubbed(old(contents[..]), name).0
    ensures found == |Scrubbed(old(contents[..]), name).1|
  {
    if |name| < 3 { return 0; }
    found := ReplaceAll(contents, Needle(name), Needle(Xs(|name|)));
  }

  method ReplaceAll(contents: array<Byte>, needle: seq<Byte>, replacement: seq<Byte>) returns (found: nat)
    requires 0 < |needle| == |replacement|
    modifies contents
    ensures var all := Scan(old(contents[..]), needle, replacement, IndexOf(old(contents[..]), needle, 0));
      contents[..] == all.0 && found == |all.1|
  {
    found := 0;
    var at := IndexOf(contents[..], needle, 0);
    ghost var all := Scan(contents[..], needle, replacement, at);
    while at != -1
      invariant at == -1 || 0 <= at <= contents.Length - |needle|
      invariant all.0 == Scan(contents[..], needle, replacement, at).0
      invariant |all.1| == found + |Scan(contents[..], needle, replacement, at).1|
      decreases if at == -1 then 0 else contents.Length - at
    {
      Copy(replacement, contents, at);
      found := found + 1;
      at := IndexOf(contents[..], needle, at + |needle|);
    }
  }

  /** Buffer.copy */
  method Copy(source: seq<Byte>, target: array<Byte>, at: nat)
    requires at + |source| <= target.Length
    modifies target
    ensures target[..] == Patch(old(target[..]), at, source)
  {
    for i := 0 to |source|
      invariant forall k :: 0 <= k < i ==> target[at + k] == source[k]
      invariant forall k :: 0 <= k < target.Length && !(at <= k < at + i) ==> target[k] == old(target[k])
    {
      target[at + i] := source[i];
    }
  }
}
