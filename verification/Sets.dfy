/** Sizes of finite sets, shared by the counting arguments. */
module Sets {

  function Elements<T>(list: seq<T>): set<T> {
    set x | x in list
  }

  lemma {:induction false} DistinctSize<T>(list: seq<T>)
    requires forall i, j | 0 <= i < j < |list| :: list[i] != list[j]
    ensures |Elements(list)| == |list|
  {
    if list != [] {
      var rest, last := list[..|list| - 1], list[|list| - 1];
      DistinctSize(rest);
      assert list == rest + [last];
      assert Elements(list) == Elements(rest) + {last};
    }
  }

  lemma SubsetSize<T>(a: set<T>, b: set<T>)
    requires a <= b
    ensures |a| <= |b|
    ensures |a| == |b| ==> a == b
  {
    assert b == a + (b - a);
  }
}
