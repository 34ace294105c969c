/** The stable sort behind Python's `sorted` and `list.sort`, with a (rank, value) key. */
module Sorting {

  datatype Key = Key(rank: int, value: real)

  /** Tuple order. */
  predicate Le(a: Key, b: Key) {
    a.rank < b.rank || (a.rank == b.rank && a.value <= b.value)
  }

  ghost predicate Sorted<T>(xs: seq<T>, key: T -> Key) {
    forall i, j :: 0 <= i < j < |xs| ==> Le(key(xs[i]), key(xs[j]))
  }

  /** Insert before the first element that is not smaller. */
  function Insert<T>(x: T, xs: seq<T>, key: T -> Key): seq<T> {
    if xs == [] || Le(key(x), key(xs[0])) then [x] + xs
    else [xs[0]] + Insert(x, xs[1..], key)
  }

  function StableSort<T>(xs: seq<T>, key: T -> Key): seq<T> {
    if xs == [] then [] else Insert(xs[0], StableSort(xs[1..], key), key)
  }

  lemma {:induction false} InsertPermutes<T>(x: T, xs: seq<T>, key: T -> Key)
    ensures multiset(Insert(x, xs, key)) == multiset([x] + xs)
  {
    if xs == [] || Le(key(x), key(xs[0])) {
    } else {
      InsertPermutes(x, xs[1..], key);
      assert xs == [xs[0]] + xs[1..];
    }
  }

  lemma {:induction false} InsertSorts<T>(x: T, xs: seq<T>, key: T -> Key)
    requires Sorted(xs, key)
    ensures Sorted(Insert(x, xs, key), key)
  {
    if xs == [] || Le(key(x), key(xs[0])) {
    } else {
      var tail := Insert(x, xs[1..], key);
      InsertSorts(x, xs[1..], key);
      InsertPermutes(x, xs[1..], key);
      forall y <- tail ensures Le(key(xs[0]), key(y)) {
        assert y in multiset(tail);
        assert y in multiset([x] + xs[1..]);
      }
    }
  }

  /** Sorting reorders: nothing is lost, invented or duplicated, and keys ascend. */
  lemma {:induction false} StableSortSorts<T>(xs: seq<T>, key: T -> Key)
    ensures multiset(StableSort(xs, key)) == multiset(xs)
    ensures Sorted(StableSort(xs, key), key)
    ensures |StableSort(xs, key)| == |xs|
  {
    if xs != [] {
      StableSortSorts(xs[1..], key);
      InsertPermutes(xs[0], StableSort(xs[1..], key), key);
      InsertSorts(xs[0], StableSort(xs[1..], key), key);
      assert xs == [xs[0]] + xs[1..];
    }
    assert |StableSort(xs, key)| == |multiset(StableSort(xs, key))| == |multiset(xs)| == |xs|;
  }

  /** The elements with one given key. */
  function Having<T>(xs: seq<T>, key: T -> Key, k: Key): seq<T> {
    if xs == [] then []
    else (if key(xs[0]) == k then [xs[0]] else []) + Having(xs[1..], key, k)
  }

  lemma {:induction false} InsertStable<T>(x: T, xs: seq<T>, key: T -> Key, k: Key)
    requires Sorted(xs, key)
    ensures Having(Insert(x, xs, key), key, k) == Having([x] + xs, key, k)
  {
    assert ([x] + xs)[1..] == xs;
    if xs == [] || Le(key(x), key(xs[0])) {
    } else {
      InsertStable(x, xs[1..], key, k);
      assert ([x] + xs[1..])[1..] == xs[1..];
      assert Insert(x, xs, key)[1..] == Insert(x, xs[1..], key);
    }
  }

  /** Equal keys keep their original order. */
  lemma {:induction false} StableSortStable<T>(xs: seq<T>, key: T -> Key, k: Key)
    ensures Having(StableSort(xs, key), key, k) == Having(xs, key, k)
  {
    if xs != [] {
      StableSortStable(xs[1..], key, k);
      StableSortSorts(xs[1..], key);
      InsertStable(xs[0], StableSort(xs[1..], key), key, k);
      assert ([xs[0]] + StableSort(xs[1..], key))[1..] == StableSort(xs[1..], key);
    }
  }

  /** `i` is the first position holding a least key. */
  ghost predicate FirstLeast<T>(xs: seq<T>, key: T -> Key, i: int) {
    && 0 <= i < |xs|
    && (forall j :: 0 <= j < |xs| ==> Le(key(xs[i]), key(xs[j])))
    && (forall j :: 0 <= j < i ==> !Le(key(xs[j]), key(xs[i])))
  }

  /** `sorted(xs, key)[0]` is the first of the least elements. */
  lemma {:induction false} StableSortHead<T>(xs: seq<T>, key: T -> Key) returns (i: int)
    requires xs != []
    ensures StableSort(xs, key) != [] && FirstLeast(xs, key, i) && StableSort(xs, key)[0] == xs[i]
  {
    i := 0;
    if |xs| > 1 {
      var tail := xs[1..];
      i := StableSortHead(tail, key);
      if Le(key(xs[0]), key(tail[i])) {
        i := 0;
        forall j | 0 <= j < |xs| ensures Le(key(xs[0]), key(xs[j])) {
          if j > 0 { assert xs[j] == tail[j - 1]; }
        }
      } else {
        forall j | 0 <= j < |xs| ensures Le(key(tail[i]), key(xs[j])) && (j < i + 1 ==> !Le(key(xs[j]), key(tail[i]))) {
          if j > 0 { assert xs[j] == tail[j - 1]; }
        }
        i := i + 1;
      }
    }
  }

  lemma {:induction false} InMultiset<T>(xs: seq<T>, ys: seq<T>, y: T)
    requires multiset(xs) == multiset(ys)
    ensures y in xs <==> y in ys
  {
    assert y in xs <==> y in multiset(xs);
    assert y in ys <==> y in multiset(ys);
  }

  /** Keys that order the elements alike sort them alike. */
  ghost predicate SameOrder<T>(xs: seq<T>, key: T -> Key, other: T -> Key) {
    forall x <- xs, y <- xs :: Le(key(x), key(y)) <==> Le(other(x), other(y))
  }

  lemma {:induction false} InsertAlike<T>(x: T, xs: seq<T>, all: seq<T>, key: T -> Key, other: T -> Key)
    requires SameOrder(all, key, other) && x in all && forall y <- xs :: y in all
    ensures Insert(x, xs, key) == Insert(x, xs, other)
  {
    if xs != [] && !Le(key(x), key(xs[0])) {
      InsertAlike(x, xs[1..], all, key, other);
    }
  }

  lemma {:induction false} StableSortAlike<T>(xs: seq<T>, key: T -> Key, other: T -> Key)
    requires SameOrder(xs, key, other)
    ensures StableSort(xs, key) == StableSort(xs, other)
  {
    if xs != [] {
      StableSortAlike(xs[1..], key, other);
      var rest := StableSort(xs[1..], key);
      StableSortSorts(xs[1..], key);
      forall y <- rest ensures y in xs {
        assert y in multiset(rest);
      }
      InsertAlike(xs[0], rest, xs, key, other);
    }
  }
}
