/** The stable sort used by host matching (by falling score) and by report series (by rising clock). */
module Ranking {

  function Insert<T>(x: T, sorted: seq<T>, key: T -> int): seq<T> {
    if sorted == [] || key(x) >= key(sorted[0]) then [x] + sorted
    else [sorted[0]] + Insert(x, sorted[1..], key)
  }

  /** Stable sort by falling key: among equal keys the earlier item stays first. */
  function Rank<T>(s: seq<T>, key: T -> int): seq<T> {
    if s == [] then [] else Insert(s[0], Rank(s[1..], key), key)
  }

  ghost predicate Falling<T>(s: seq<T>, key: T -> int) {
    forall i, j :: 0 <= i < j < |s| ==> key(s[i]) >= key(s[j])
  }

  lemma {:induction false} InsertBag<T>(x: T, sorted: seq<T>, key: T -> int)
    ensures multiset(Insert(x, sorted, key)) == multiset{x} + multiset(sorted)
  {
    if sorted != [] && key(x) < key(sorted[0]) {
      InsertBag(x, sorted[1..], key);
      assert sorted == [sorted[0]] + sorted[1..];
    }
  }

  lemma {:induction false} InsertFalls<T>(x: T, sorted: seq<T>, key: T -> int)
    requires Falling(sorted, key)
    ensures Falling(Insert(x, sorted, key), key)
  {
    if sorted != [] && key(x) < key(sorted[0]) {
      var tail := Insert(x, sorted[1..], key);
      InsertFalls(x, sorted[1..], key);
      InsertBag(x, sorted[1..], key);
      forall j | 0 <= j < |tail| ensures key(sorted[0]) >= key(tail[j]) {
        assert tail[j] in multiset(tail);
        assert tail[j] == x || tail[j] in sorted[1..];
      }
    }
  }

  lemma {:induction false} RankFalls<T>(s: seq<T>, key: T -> int)
    ensures Falling(Rank(s, key), key)
    ensures multiset(Rank(s, key)) == multiset(s)
    ensures |Rank(s, key)| == |s|
  {
    if s != [] {
      RankFalls(s[1..], key);
      InsertFalls(s[0], Rank(s[1..], key), key);
      InsertBag(s[0], Rank(s[1..], key), key);
      assert s == [s[0]] + s[1..];
    }
    assert |Rank(s, key)| == |multiset(Rank(s, key))|;
  }

  /** Items with equal keys are equal, so there are no ties to break. */
  ghost predicate TieFree<T>(s: seq<T>, key: T -> int) {
    forall x, y :: x in s && y in s && key(x) == key(y) ==> x == y
  }

  lemma TailBag<T>(s: seq<T>)
    requires s != []
    ensures multiset(s[1..]) == multiset(s) - multiset{s[0]}
    ensures s == [s[0]] + s[1..]
  {
    assert s == [s[0]] + s[1..];
  }

  lemma SameHead<T>(a: seq<T>, b: seq<T>, key: T -> int)
    requires Falling(a, key) && Falling(b, key) && multiset(a) == multiset(b) && TieFree(a, key)
    requires a != [] && b != []
    ensures a[0] == b[0]
  {
    assert a[0] in multiset(b) && b[0] in multiset(a);
    assert key(a[0]) == key(b[0]);
  }

  lemma {:induction false} FallingUnique<T>(a: seq<T>, b: seq<T>, key: T -> int)
    requires Falling(a, key) && Falling(b, key) && multiset(a) == multiset(b) && TieFree(a, key)
    ensures a == b
  {
    assert |a| == |multiset(a)| == |multiset(b)| == |b|;
    if a != [] {
      SameHead(a, b, key);
      TailBag(a);
      TailBag(b);
      assert Falling(a[1..], key) && Falling(b[1..], key) && TieFree(a[1..], key);
      hide Falling, TieFree;
      FallingUnique(a[1..], b[1..], key);
    }
  }

  /** Without ties the sorted list depends only on which items there are, not on their order. */
  lemma RankOrderFree<T>(a: seq<T>, b: seq<T>, key: T -> int)
    requires multiset(a) == multiset(b) && TieFree(a, key)
    ensures Rank(a, key) == Rank(b, key)
  {
    RankFalls(a, key);
    RankFalls(b, key);
    forall x | x in Rank(a, key) ensures x in a {
      assert x in multiset(Rank(a, key));
    }
    FallingUnique(Rank(a, key), Rank(b, key), key);
  }

  /** The item the sort puts first: the earliest of those with the greatest key. */
  function First<T>(s: seq<T>, key: T -> int): T
    requires s != []
  {
    if |s| == 1 then s[0]
    else
      var rest := First(s[1..], key);
      if key(s[0]) >= key(rest) then s[0] else rest
  }

  lemma {:induction false} RankHead<T>(s: seq<T>, key: T -> int)
    requires s != []
    ensures Rank(s, key) != [] && Rank(s, key)[0] == First(s, key)
    ensures First(s, key) in s && forall x :: x in s ==> key(x) <= key(First(s, key))
  {
    if |s| > 1 {
      RankHead(s[1..], key);
      assert s == [s[0]] + s[1..];
    } else {
      assert s[1..] == [];
    }
  }

  lemma {:induction false} FirstConcat<T>(a: seq<T>, b: seq<T>, key: T -> int)
    requires a != [] && b != []
    ensures First(a + b, key) == if key(First(a, key)) >= key(First(b, key)) then First(a, key) else First(b, key)
  {
    assert (a + b)[1..] == a[1..] + b;
    if |a| > 1 {
      FirstConcat(a[1..], b, key);
    } else {
      assert a[1..] + b == b;
    }
  }
}
