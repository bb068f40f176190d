/** White space as JavaScript's trim() and `\s` understand it. */
module Text {
  predicate IsSpace(c: char) {
    c in {'\t', '\n', '\U{0B}', '\U{0C}', '\r', ' ', '\U{A0}', '\U{1680}', '\U{2028}', '\U{2029}',
          '\U{202F}', '\U{205F}', '\U{3000}', '\U{FEFF}'}
    || '\U{2000}' <= c <= '\U{200A}'
  }

  function TrimStart(s: string): (r: string)
    ensures |r| <= |s|
  {
    if s != "" && IsSpace(s[0]) then TrimStart(s[1..]) else s
  }

  function TrimEnd(s: string): string {
    if s != "" && IsSpace(s[|s| - 1]) then TrimEnd(s[..|s| - 1]) else s
  }

  function Trim(s: string): string {
    TrimEnd(TrimStart(s))
  }

  predicate AllSpaces(s: string) {
    forall i :: 0 <= i < |s| ==> IsSpace(s[i])
  }

  /** No white space at either end. */
  predicate Trimmed(s: string) {
    s == "" || (!IsSpace(s[0]) && !IsSpace(s[|s| - 1]))
  }

  lemma {:induction false} TrimStartSplits(s: string)
    ensures var r := TrimStart(s);
      && s == s[..|s| - |r|] + r && AllSpaces(s[..|s| - |r|]) && (r == "" || !IsSpace(r[0]))
  {
    if s != "" && IsSpace(s[0]) {
      TrimStartSplits(s[1..]);
      var n := |s| - |TrimStart(s)|;
      assert s[..n] == [s[0]] + s[1..][..n - 1];
    }
  }

  lemma {:induction false} TrimStartOver(a: string, b: string)
    requires AllSpaces(a) && b != "" && !IsSpace(b[0])
    ensures TrimStart(a + b) == b
  {
    if a == "" {
      assert a + b == b;
    } else {
      assert (a + b)[1..] == a[1..] + b;
      TrimStartOver(a[1..], b);
    }
  }

  lemma {:induction false} TrimEndSplits(s: string)
    ensures var r := TrimEnd(s);
      && |r| <= |s| && s == r + s[|r|..] && AllSpaces(s[|r|..]) && (r == "" || !IsSpace(r[|r| - 1]))
  {
    if s != "" && IsSpace(s[|s| - 1]) {
      var init := s[..|s| - 1];
      TrimEndSplits(init);
      var n := |TrimEnd(s)|;
      assert s[n..] == init[n..] + [s[|s| - 1]];
    }
  }

  lemma {:induction false} TrimEndOver(a: string, b: string)
    requires AllSpaces(b) && (a == "" || !IsSpace(a[|a| - 1]))
    ensures TrimEnd(a + b) == a
  {
    if b == "" {
      assert a + b == a;
    } else {
      var init := b[..|b| - 1];
      assert (a + b)[..|a + b| - 1] == a + init && (a + b)[|a + b| - 1] == b[|b| - 1];
      TrimEndOver(a, init);
    }
  }

  /** Trimming takes white space off both ends, and nothing else. */
  lemma TrimSplits(s: string) returns (a: string, c: string)
    ensures s == a + Trim(s) + c && AllSpaces(a) && AllSpaces(c) && Trimmed(Trim(s))
  {
    var r := TrimStart(s);
    TrimStartSplits(s);
    TrimEndSplits(r);
    a, c := s[..|s| - |r|], r[|Trim(s)|..];
    assert Trim(s) != "" ==> Trim(s)[0] == r[0];
  }

  lemma {:induction false} TrimSpaces(s: string)
    requires AllSpaces(s)
    ensures Trim(s) == ""
  {
    if s == "" {
    } else {
      TrimSpaces(s[1..]);
    }
  }

  /** And whatever is left when white space is taken off both ends is what trimming leaves. */
  lemma TrimIs(a: string, x: string, c: string)
    requires AllSpaces(a) && AllSpaces(c) && Trimmed(x)
    ensures Trim(a + x + c) == x
  {
    if x == "" {
      TrimSpaces(a + x + c);
    } else {
      assert a + x + c == a + (x + c);
      TrimStartOver(a, x + c);
      TrimEndOver(x, c);
    }
  }
}
