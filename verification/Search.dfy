/** indexOf over strings and byte buffers. */
module Search {
  predicate OccursAt<T(==)>(s: seq<T>, pattern: seq<T>, p: int) {
    0 <= p <= |s| - |pattern| && pattern <= s[p..]
  }

  /** The first occurrence at or after from, or -1. */
  function IndexOf<T(==)>(s: seq<T>, pattern: seq<T>, from: nat): (r: int)
    ensures r == -1 || from <= r <= |s| - |pattern|
    decreases |s| - from
  {
    if from + |pattern| > |s| then -1
    else if OccursAt(s, pattern, from) then from
    else if from == |s| then -1
    else IndexOf(s, pattern, from + 1)
  }

  lemma {:induction false} IndexOfMeans<T>(s: seq<T>, pattern: seq<T>, from: nat)
    ensures var r := IndexOf(s, pattern, from);
      && (r != -1 ==> OccursAt(s, pattern, r))
      && forall q :: from <= q && (r == -1 || q < r) ==> !OccursAt(s, pattern, q)
    decreases |s| - from
  {
    if from < |s| && from + |pattern| <= |s| && !OccursAt(s, pattern, from) {
      IndexOfMeans(s, pattern, from + 1);
    }
  }

  /** An occurrence with none before it is the one found. */
  lemma {:induction false} IndexOfIs<T>(s: seq<T>, pattern: seq<T>, from: nat, p: int)
    requires from <= p && OccursAt(s, pattern, p)
    requires forall q :: from <= q < p ==> !OccursAt(s, pattern, q)
    ensures IndexOf(s, pattern, from) == p
    decreases p - from
  {
    if from < p { IndexOfIs(s, pattern, from + 1, p); }
  }

  /** The first occurrence of one element, or -1. */
  function IndexOfElement<T(==)>(s: seq<T>, x: T): (r: int)
    ensures -1 <= r < |s|
  {
    if s == [] then -1
    else if s[0] == x then 0
    else
      var rest := IndexOfElement(s[1..], x);
      if rest == -1 then -1 else rest + 1
  }

  lemma {:induction false} IndexOfElementMeans<T>(s: seq<T>, x: T)
    ensures var r := IndexOfElement(s, x);
      if r == -1 then x !in s else s[r] == x && x !in s[..r]
  {
    if s != [] && s[0] != x {
      IndexOfElementMeans(s[1..], x);
      var r := IndexOfElement(s, x);
      if r == -1 {
        assert s == [s[0]] + s[1..];
      } else {
        assert s[..r] == [s[0]] + s[1..][..r - 1];
      }
    }
  }

  /** Text to the right does not move the first occurrence. */
  lemma {:induction false} IndexOfElementAppend<T>(s: seq<T>, t: seq<T>, x: T)
    requires IndexOfElement(s, x) != -1
    ensures IndexOfElement(s + t, x) == IndexOfElement(s, x)
  {
    if s[0] != x {
      assert (s + t)[1..] == s[1..] + t;
      IndexOfElementAppend(s[1..], t, x);
    }
  }

  /** `text.split(separator)` */
  function Split(text: string, separator: char): (pieces: seq<string>)
    ensures |pieces| > 0
  {
    var cut := IndexOfElement(text, separator);
    if cut == -1 then [text] else [text[..cut]] + Split(text[cut + 1..], separator)
  }
}
