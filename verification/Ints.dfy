/** Integers: the larger and the smaller of two, and the least of a set. */
module Ints {
  function IntMax(a: int, b: int): int { if a >= b then a else b }

  function IntMin(a: int, b: int): int { if a <= b then a else b }

  /** A non-empty finite set of integers has a least member. */
  lemma {:induction false} LeastExists(s: set<int>)
    requires s != {}
    ensures exists k :: k in s && forall j :: j in s ==> k <= j
  {
    assert (forall i :: i !in s) ==> s == {};
    var x :| x in s;
    var rest := s - {x};
    assert forall j :: j in s ==> j == x || j in rest;
    if rest == {} {
      assert forall j :: j in s ==> x <= j;
    } else {
      LeastExists(rest);
      var y :| y in rest && forall j :: j in rest ==> y <= j;
      var least := if x <= y then x else y;
      assert least in s && forall j :: j in s ==> least <= j;
    }
  }
}
