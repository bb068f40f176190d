/** Lists as the sidebar builds them: filtering, stable sorting, and insertion-ordered maps of lists. */
module Listing {
  function Filter<T>(s: seq<T>, p: T -> bool): seq<T> {
    if s == [] then []
    else
      var init, last := s[..|s| - 1], s[|s| - 1];
      if p(last) then Filter(init, p) + [last] else Filter(init, p)
  }

  lemma {:induction false} FilterCount<T>(s: seq<T>, p: T -> bool, x: T)
    ensures multiset(Filter(s, p))[x] == if p(x) then multiset(s)[x] else 0
  {
    if s == [] {
    } else {
      var n := |s| - 1;
      FilterCount(s[..n], p, x);
      assert s == s[..n] + [s[n]];
    }
  }

  lemma {:induction false} FilterIn<T>(s: seq<T>, p: T -> bool, x: T)
    ensures x in Filter(s, p) <==> x in s && p(x)
  {
    FilterCount(s, p, x);
    assert x in Filter(s, p) <==> x in multiset(Filter(s, p));
    assert x in s <==> x in multiset(s);
  }

  // ---------- Stable sorting, largest key first ----------

  function Insert<T>(s: seq<T>, x: T, key: T -> int): seq<T> {
    if s == [] then [x]
    else
      var init, last := s[..|s| - 1], s[|s| - 1];
      if key(last) >= key(x) then s + [x] else Insert(init, x, key) + [last]
  }

  function SortDescending<T>(s: seq<T>, key: T -> int): seq<T> {
    if s == [] then [] else Insert(SortDescending(s[..|s| - 1], key), s[|s| - 1], key)
  }

  predicate Descending<T>(s: seq<T>, key: T -> int) {
    forall i, j :: 0 <= i < j < |s| ==> key(s[i]) >= key(s[j])
  }

  lemma {:induction false} InsertMultiset<T>(s: seq<T>, x: T, key: T -> int)
    ensures multiset(Insert(s, x, key)) == multiset(s) + multiset{x}
  {
    if s == [] {
    } else {
      var n := |s| - 1;
      InsertMultiset(s[..n], x, key);
      assert s == s[..n] + [s[n]];
    }
  }

  lemma LastOut<T>(s: seq<T>)
    requires s != []
    ensures multiset(s) == multiset(s[..|s| - 1]) + multiset{s[|s| - 1]}
  {
    assert s == s[..|s| - 1] + [s[|s| - 1]];
  }

  lemma {:induction false} SortMultiset<T>(s: seq<T>, key: T -> int)
    ensures multiset(SortDescending(s, key)) == multiset(s)
  {
    if s == [] {
    } else {
      var init, last := s[..|s| - 1], s[|s| - 1];
      SortMultiset(init, key);
      InsertMultiset(SortDescending(init, key), last, key);
      LastOut(s);
    }
  }

  lemma SortLength<T>(s: seq<T>, key: T -> int)
    ensures |SortDescending(s, key)| == |s|
  {
    SortMultiset(s, key);
    assert |multiset(SortDescending(s, key))| == |multiset(s)|;
  }

  lemma SortIn<T>(s: seq<T>, key: T -> int, x: T)
    ensures x in SortDescending(s, key) <==> x in s
  {
    SortMultiset(s, key);
    assert x in SortDescending(s, key) <==> x in multiset(SortDescending(s, key));
    assert x in s <==> x in multiset(s);
  }

  lemma {:induction false} InsertDescends<T>(s: seq<T>, x: T, key: T -> int)
    requires Descending(s, key)
    ensures Descending(Insert(s, x, key), key)
  {
    if s != [] && key(s[|s| - 1]) < key(x) {
      var init, last := s[..|s| - 1], s[|s| - 1];
      InsertDescends(init, x, key);
      var r := Insert(init, x, key);
      forall i | 0 <= i < |r| ensures key(r[i]) >= key(last) {
        InsertMultiset(init, x, key);
        assert r[i] in multiset(r);
        assert r[i] == x || r[i] in init;
      }
    }
  }

  lemma {:induction false} SortDescends<T>(s: seq<T>, key: T -> int)
    ensures Descending(SortDescending(s, key), key)
  {
    if s == [] {
    } else {
      SortDescends(s[..|s| - 1], key);
      InsertDescends(SortDescending(s[..|s| - 1], key), s[|s| - 1], key);
    }
  }

  function KeyIs<T>(key: T -> int, k: int): T -> bool {
    (x: T) => key(x) == k
  }

  lemma {:induction false} InsertIsStable<T>(s: seq<T>, x: T, key: T -> int, k: int)
    requires Descending(s, key)
    ensures Filter(Insert(s, x, key), KeyIs(key, k)) == Filter(s, KeyIs(key, k)) + if key(x) == k then [x] else []
  {
    if s != [] && key(s[|s| - 1]) < key(x) {
      var n := |s| - 1;
      InsertIsStable(s[..n], x, key, k);
      assert Insert(s, x, key)[..n + 1] == Insert(s[..n], x, key) by { InsertLength(s[..n], x, key); }
    } else if s != [] {
      assert (s + [x])[..|s|] == s;
    }
  }

  lemma {:induction false} InsertLength<T>(s: seq<T>, x: T, key: T -> int)
    ensures |Insert(s, x, key)| == |s| + 1
  {
    if s == [] {
    } else {
      InsertLength(s[..|s| - 1], x, key);
    }
  }

  /** Elements of one key keep their order, so descending order and this determine the sort. */
  lemma {:induction false} SortIsStable<T>(s: seq<T>, key: T -> int, k: int)
    ensures Filter(SortDescending(s, key), KeyIs(key, k)) == Filter(s, KeyIs(key, k))
  {
    if s == [] {
    } else {
      var n := |s| - 1;
      SortIsStable(s[..n], key, k);
      SortDescends(s[..n], key);
      InsertIsStable(SortDescending(s[..n], key), s[n], key, k);
    }
  }

  // ---------- A total over a list ----------

  function Total<T, C>(s: seq<T>, f: T -> multiset<C>): multiset<C> {
    if s == [] then multiset{} else Total(s[..|s| - 1], f) + f(s[|s| - 1])
  }

  lemma {:induction false} TotalAppend<T, C>(a: seq<T>, b: seq<T>, f: T -> multiset<C>)
    ensures Total(a + b, f) == Total(a, f) + Total(b, f)
  {
    if b == [] {
      assert a + b == a;
    } else {
      TotalAppend(a, b[..|b| - 1], f);
      assert (a + b)[..|a + b| - 1] == a + b[..|b| - 1];
    }
  }

  lemma TotalSnoc<T, C>(a: seq<T>, x: T, f: T -> multiset<C>)
    ensures Total(a + [x], f) == Total(a, f) + f(x)
  {
  }

  lemma {:induction false} InsertTotal<T, C>(s: seq<T>, x: T, key: T -> int, f: T -> multiset<C>)
    ensures Total(Insert(s, x, key), f) == Total(s, f) + f(x)
  {
    if s == [] {
      assert Insert(s, x, key)[..0] == [];
    } else if key(s[|s| - 1]) >= key(x) {
      TotalSnoc(s, x, f);
    } else {
      InsertTotal(s[..|s| - 1], x, key, f);
      TotalSnoc(Insert(s[..|s| - 1], x, key), s[|s| - 1], f);
    }
  }

  lemma {:induction false} SortTotal<T, C>(s: seq<T>, key: T -> int, f: T -> multiset<C>)
    ensures Total(SortDescending(s, key), f) == Total(s, f)
  {
    if s == [] {
    } else {
      SortTotal(s[..|s| - 1], key, f);
      InsertTotal(SortDescending(s[..|s| - 1], key), s[|s| - 1], key, f);
    }
  }

  // ---------- Insertion-ordered maps of lists ----------

  datatype Entry<T> = Entry(key: string, values: seq<T>)

  function AddTo<T>(m: seq<Entry<T>>, key: string, x: T): seq<Entry<T>> {
    if m == [] then [Entry(key, [x])]
    else if m[0].key == key then [Entry(key, m[0].values + [x])] + m[1..]
    else [m[0]] + AddTo(m[1..], key, x)
  }

  function Lookup<T>(m: seq<Entry<T>>, key: string): seq<T> {
    if m == [] then [] else if m[0].key == key then m[0].values else Lookup(m[1..], key)
  }

  /** Every element filed under its name, in order. */
  function Index<T>(s: seq<T>, name: T -> string): seq<Entry<T>> {
    if s == [] then [] else AddTo(Index(s[..|s| - 1], name), name(s[|s| - 1]), s[|s| - 1])
  }

  function NameIs<T>(name: T -> string, k: string): T -> bool {
    (x: T) => name(x) == k
  }

  lemma {:induction false} AddToLooksUp<T>(m: seq<Entry<T>>, key: string, x: T, k: string)
    ensures Lookup(AddTo(m, key, x), k) == Lookup(m, k) + if k == key then [x] else []
  {
    if m == [] {
    } else {
      AddToLooksUp(m[1..], key, x, k);
    }
  }

  /** The list under a name is what a filter finds, in the same order. */
  lemma {:induction false} IndexLooksUp<T>(s: seq<T>, name: T -> string, k: string)
    ensures Lookup(Index(s, name), k) == Filter(s, NameIs(name, k))
  {
    if s == [] {
    } else {
      IndexLooksUp(s[..|s| - 1], name, k);
      AddToLooksUp(Index(s[..|s| - 1], name), name(s[|s| - 1]), s[|s| - 1], k);
    }
  }

  /** One entry a key, none of them empty, each what looking up its key gives. */
  predicate Tidy<T>(m: seq<Entry<T>>) {
    && (forall i, j :: 0 <= i < j < |m| ==> m[i].key != m[j].key)
    && (forall i :: 0 <= i < |m| ==> m[i].values != [])
  }

  lemma TidyCons<T>(e: Entry<T>, m: seq<Entry<T>>)
    requires Tidy(m) && e.values != [] && forall i :: 0 <= i < |m| ==> m[i].key != e.key
    ensures Tidy([e] + m)
  {
  }

  lemma TidyTail<T>(m: seq<Entry<T>>)
    requires Tidy(m) && m != []
    ensures Tidy(m[1..]) && forall i :: 0 <= i < |m| - 1 ==> m[1..][i].key != m[0].key
  {
  }

  lemma {:induction false} AddToTidy<T>(m: seq<Entry<T>>, key: string, x: T)
    requires Tidy(m)
    ensures Tidy(AddTo(m, key, x))
    ensures forall e :: e in AddTo(m, key, x) ==> e.key == key || e in m
  {
    if m == [] {
    } else {
      TidyTail(m);
      if m[0].key == key {
        TidyCons(Entry(key, m[0].values + [x]), m[1..]);
      } else {
        AddToTidy(m[1..], key, x);
        TidyCons(m[0], AddTo(m[1..], key, x));
      }
    }
  }

  lemma {:induction false} IndexTidy<T>(s: seq<T>, name: T -> string)
    ensures Tidy(Index(s, name))
  {
    if s == [] {
    } else {
      IndexTidy(s[..|s| - 1], name);
      AddToTidy(Index(s[..|s| - 1], name), name(s[|s| - 1]), s[|s| - 1]);
    }
  }

  lemma {:induction false} EntryIsLookup<T>(m: seq<Entry<T>>, i: nat)
    requires Tidy(m) && i < |m|
    ensures m[i].values == Lookup(m, m[i].key)
  {
    if i == 0 {
    } else {
      EntryIsLookup(m[1..], i - 1);
    }
  }

  lemma {:induction false} LookupFound<T>(m: seq<Entry<T>>, k: string) returns (i: nat)
    requires Lookup(m, k) != []
    ensures i < |m| && m[i].key == k
  {
    if m[0].key == k { return 0; }
    var j := LookupFound(m[1..], k);
    i := j + 1;
  }

  function Held<T>(): Entry<T> -> multiset<T> {
    (e: Entry<T>) => multiset(e.values)
  }

  function KeyOk<T>(p: string -> bool): Entry<T> -> bool {
    (e: Entry<T>) => p(e.key)
  }

  function NameOk<T>(name: T -> string, p: string -> bool): T -> bool {
    (x: T) => p(name(x))
  }

  /** What the entries of some keys hold together. */
  function Kept<T>(m: seq<Entry<T>>, p: string -> bool): multiset<T> {
    Total(Filter(m, KeyOk(p)), Held())
  }

  function If<T>(b: bool, m: multiset<T>): multiset<T> {
    if b then m else multiset{}
  }

  lemma {:induction false} KeptCons<T>(x: Entry<T>, m: seq<Entry<T>>, p: string -> bool)
    ensures Kept([x] + m, p) == If(p(x.key), multiset(x.values)) + Kept(m, p)
  {
    if m == [] {
      assert [x] + m == [x];
      assert [x][..0] == [];
    } else {
      var n := |m| - 1;
      assert ([x] + m)[..n + 1] == [x] + m[..n];
      KeptCons(x, m[..n], p);
      if p(m[n].key) {
        TotalSnoc(Filter([x] + m[..n], KeyOk(p)), m[n], Held());
        TotalSnoc(Filter(m[..n], KeyOk(p)), m[n], Held());
      }
    }
  }

  lemma {:induction false} AddToHolds<T>(m: seq<Entry<T>>, key: string, x: T, p: string -> bool)
    ensures Kept(AddTo(m, key, x), p) == Kept(m, p) + If(p(key), multiset{x})
  {
    if m == [] {
      KeptCons(Entry(key, [x]), [], p);
      assert [Entry(key, [x])] + [] == [Entry(key, [x])];
    } else {
      assert m == [m[0]] + m[1..];
      KeptCons(m[0], m[1..], p);
      if m[0].key == key {
        KeptCons(Entry(key, m[0].values + [x]), m[1..], p);
      } else {
        AddToHolds(m[1..], key, x, p);
        KeptCons(m[0], AddTo(m[1..], key, x), p);
      }
    }
  }

  /** The entries of some keys hold exactly the elements with those names. */
  lemma {:induction false} IndexHolds<T>(s: seq<T>, name: T -> string, p: string -> bool)
    ensures Kept(Index(s, name), p) == multiset(Filter(s, NameOk(name, p)))
  {
    if s == [] {
    } else {
      var n := |s| - 1;
      IndexHolds(s[..n], name, p);
      AddToHolds(Index(s[..n], name), name(s[n]), s[n], p);
    }
  }
}
