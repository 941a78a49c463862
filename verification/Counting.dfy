/** Sizes of finite sets, and small arithmetic. */
module Counting {

  function One(b: bool): nat {
    if b then 1 else 0
  }

  function Max(a: int, b: int): int {
    if a < b then b else a
  }

  lemma SubsetSize<T>(s: set<T>, t: set<T>)
    requires s <= t
    ensures |s| <= |t|
  {
    assert t == s + (t - s);
  }

  lemma CountWithout<T>(s: set<T>, x: T)
    ensures |s| == |s - {x}| + One(x in s)
  {
    if x !in s {
      assert s - {x} == s;
    }
  }
}
