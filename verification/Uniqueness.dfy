/** A JavaScript `Set` built from a list and spread again: every item once, in order of first occurrence. */
module Uniqueness {

  predicate Distinct<T(==)>(items: seq<T>) {
    forall i, j :: 0 <= i < j < |items| ==> items[i] != items[j]
  }

  function Unique<T(==)>(items: seq<T>): seq<T> {
    if items == [] then []
    else
      var before, last := Unique(items[..|items| - 1]), items[|items| - 1];
      if last in before then before else before + [last]
  }

  /** The unique items are the items, each once. */
  lemma {:induction false} UniqueSound<T>(items: seq<T>)
    ensures Distinct(Unique(items))
    ensures forall x :: x in Unique(items) <==> x in items
  {
    if items != [] {
      var init, last := items[..|items| - 1], items[|items| - 1];
      UniqueSound(init);
      assert items == init + [last];
    }
  }

  lemma {:induction false} UniqueIdentity<T>(items: seq<T>)
    requires Distinct(items)
    ensures Unique(items) == items
  {
    if items != [] {
      var init, last := items[..|items| - 1], items[|items| - 1];
      UniqueIdentity(init);
      assert items == init + [last];
      assert last !in init;
    }
  }
}
