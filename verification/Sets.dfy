/** Small facts about finite sets that several models share. */
module Sets {
  lemma Inhabited(s: set<int>)
    ensures s == {} || exists x :: x in s
  {
    if forall x :: x !in s { assert s == {}; }
  }

  lemma SubsetSize<T>(a: set<T>, b: set<T>)
    requires a <= b
    ensures |a| <= |b|
    ensures |a| == |b| ==> a == b
  {
    var rest := b - a;
    assert b == a + rest;
    assert |b| == |a| + |rest|;
  }

  method LeastOf(s: set<int>) returns (least: int)
    requires s != {}
    ensures least in s
    ensures forall x :: x in s ==> least <= x
  {
    Inhabited(s);
    var first :| first in s;
    least := first;
    var rest := s - {least};
    while rest != {}
      invariant rest <= s && least in s
      invariant forall x :: x in s && x !in rest ==> least <= x
      decreases rest
    {
      Inhabited(rest);
      var y :| y in rest;
      rest := rest - {y};
      if y < least { least := y; }
    }
  }
}
