/** Sequences of distinct addresses: what the nextEntry pointers spell out. */
module Chains {
  import opened ListSpec

  ghost predicate Distinct(ch: seq<nat>) {
    forall i, j :: 0 <= i < j < |ch| ==> ch[i] != ch[j]
  }

  function IndexOf(ch: seq<nat>, a: nat): (i: nat)
    ensures i <= |ch|
    ensures i < |ch| ==> ch[i] == a
    ensures a in ch <==> i < |ch|
    ensures forall j :: 0 <= j < i ==> ch[j] != a
  {
    if ch == [] || ch[0] == a then 0 else 1 + IndexOf(ch[1..], a)
  }

  /** The address after `a`, or 0 if `a` is last or absent. */
  function Succ(ch: seq<nat>, a: nat): nat {
    var i := IndexOf(ch, a);
    if i + 1 < |ch| then ch[i + 1] else 0
  }

  lemma IndexAt(ch: seq<nat>, i: nat)
    requires Distinct(ch) && i < |ch|
    ensures IndexOf(ch, ch[i]) == i
    ensures Succ(ch, ch[i]) == if i + 1 < |ch| then ch[i + 1] else 0
  {
  }

  lemma IndexAppend(ch: seq<nat>, x: nat)
    requires Distinct(ch) && x !in ch
    ensures Distinct(ch + [x])
    ensures forall a :: a in ch ==> IndexOf(ch + [x], a) == IndexOf(ch, a)
    ensures IndexOf(ch + [x], x) == |ch|
  {
    var d := ch + [x];
    forall a | a in ch ensures IndexOf(d, a) == IndexOf(ch, a) {
      assert d[IndexOf(ch, a)] == a;
      IndexAt(d, IndexOf(ch, a));
    }
    assert d[|ch|] == x;
    IndexAt(d, |ch|);
  }

  lemma SuccAppend(ch: seq<nat>, x: nat)
    requires Distinct(ch) && x !in ch && ch != []
    ensures Distinct(ch + [x])
    ensures forall a :: a in ch ==> IndexOf(ch + [x], a) == IndexOf(ch, a)
    ensures forall a :: a in ch && a != ch[|ch| - 1] ==> Succ(ch + [x], a) == Succ(ch, a)
    ensures Succ(ch + [x], ch[|ch| - 1]) == x && Succ(ch + [x], x) == 0
  {
    IndexAppend(ch, x);
    IndexAt(ch, |ch| - 1);
    forall a | a in ch && a != ch[|ch| - 1] ensures Succ(ch + [x], a) == Succ(ch, a) {
      assert IndexOf(ch, a) + 1 < |ch|;
    }
  }

  lemma WithoutAt(ch: seq<nat>, k: nat, i: nat)
    requires Distinct(ch) && k < |ch| && i < |ch| && i != k
    ensures var d, j := Without(ch, k), if i < k then i else i - 1;
            j < |d| && d[j] == ch[i] && ch[i] in d
  {
    assert Without(ch, k)[if i < k then i else i - 1] == ch[i];
  }

  lemma WithoutDistinct(ch: seq<nat>, k: nat)
    requires Distinct(ch) && k < |ch|
    ensures Distinct(Without(ch, k)) && ch[k] !in Without(ch, k)
    ensures forall a :: a in Without(ch, k) ==> a in ch
  {}

  lemma IndexWithout(ch: seq<nat>, k: nat)
    requires Distinct(ch) && k < |ch|
    ensures Distinct(Without(ch, k)) && ch[k] !in Without(ch, k)
    ensures forall a :: a in ch && a != ch[k] ==> a in Without(ch, k)
    ensures forall a :: a in Without(ch, k) ==> a in ch
    ensures forall a :: a in ch && a != ch[k] ==>
              IndexOf(Without(ch, k), a) == if IndexOf(ch, a) < k then IndexOf(ch, a) else IndexOf(ch, a) - 1
  {
    WithoutDistinct(ch, k);
    forall a | a in ch && a != ch[k]
      ensures a in Without(ch, k)
      ensures IndexOf(Without(ch, k), a) == if IndexOf(ch, a) < k then IndexOf(ch, a) else IndexOf(ch, a) - 1
    {
      var i := IndexOf(ch, a);
      WithoutAt(ch, k, i);
      IndexAt(Without(ch, k), if i < k then i else i - 1);
    }
  }

  lemma SuccWithoutAt(ch: seq<nat>, k: nat, i: nat)
    requires Distinct(ch) && 0 < k < |ch| && i < |ch| && i != k && i != k - 1
    ensures Succ(Without(ch, k), ch[i]) == Succ(ch, ch[i])
  {
    var d, j := Without(ch, k), if i < k then i else i - 1;
    WithoutDistinct(ch, k);
    assert d[j] == ch[i] by { WithoutAt(ch, k, i); }
    IndexAt(ch, i);
    IndexAt(d, j);
    if i + 1 < |ch| { assert d[j + 1] == ch[i + 1]; }
  }

  lemma SuccWithout(ch: seq<nat>, k: nat)
    requires Distinct(ch) && 0 < k < |ch|
    ensures forall a :: a in ch && a != ch[k] && a != ch[k - 1] ==> Succ(Without(ch, k), a) == Succ(ch, a)
    ensures Succ(Without(ch, k), ch[k - 1]) == Succ(ch, ch[k])
  {
    forall a | a in ch && a != ch[k] && a != ch[k - 1] ensures Succ(Without(ch, k), a) == Succ(ch, a) {
      SuccWithoutAt(ch, k, IndexOf(ch, a));
    }
    WithoutDistinct(ch, k);
    IndexAt(ch, k);
    WithoutAt(ch, k, k - 1);
    IndexAt(Without(ch, k), k - 1);
    if k + 1 < |ch| { WithoutAt(ch, k, k + 1); }
  }

  lemma SuccFacts(ch: seq<nat>, a: nat)
    requires Distinct(ch) && 0 !in ch && a in ch
    ensures Succ(ch, a) != 0 ==> Succ(ch, a) in ch && Succ(ch, a) != a && Succ(ch, a) != ch[0]
    ensures Succ(ch, a) != 0 ==> IndexOf(ch, Succ(ch, a)) == IndexOf(ch, a) + 1
    ensures Succ(ch, a) == 0 ==> a == ch[|ch| - 1] && IndexOf(ch, a) == |ch| - 1
  {
    IndexAt(ch, IndexOf(ch, a));
    if IndexOf(ch, a) + 1 < |ch| {
      IndexAt(ch, IndexOf(ch, a) + 1);
      assert ch[IndexOf(ch, a) + 1] in ch;
    }
  }
}
