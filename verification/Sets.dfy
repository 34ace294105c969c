/** Finite sets of integers. */
module Sets {

  lemma NoneIsEmpty(s: set<int>)
    ensures (forall i :: i !in s) ==> s == {}
  {
    if forall i :: i !in s { assert s <= {}; }
  }

  lemma NonEmpty(s: set<int>)
    requires s != {}
    ensures exists i :: i in s
  {
    assert s == {} || exists i :: i in s by { NoneIsEmpty(s); }
  }

  predicate IsLowest(s: set<int>, m: int) {
    m in s && forall x <- s :: m <= x
  }

  lemma {:induction false} LowestExists(s: set<int>) returns (m: int)
    requires s != {}
    ensures IsLowest(s, m)
    decreases |s|
  {
    NonEmpty(s);
    var x :| x in s;
    var rest := s - {x};
    m := x;
    if rest != {} {
      var low := LowestExists(rest);
      m := if x < low then x else low;
    }
    forall y <- s ensures m <= y {
      assert y == x || y in rest;
    }
  }

  lemma SomeLowest(s: set<int>)
    requires s != {}
    ensures exists m :: IsLowest(s, m)
  {
    var m := LowestExists(s);
  }

  function Lowest(s: set<int>): (m: int)
    requires s != {}
    ensures m in s && forall x <- s :: m <= x
  {
    SomeLowest(s);
    var m :| IsLowest(s, m);
    m
  }
}
