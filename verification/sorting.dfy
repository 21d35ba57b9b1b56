/** `sortedWith` over a `Comparator`, as Kotlin's collections library provides it:
    a stable sort driven by an `Int`-valued comparison. */
module Sorting {

  /** The `java.util.Comparator` contract: the sign flips when the arguments are
      swapped, and "not greater" is transitive. */
  ghost predicate ValidComparator<T(!new)>(cmp: (T, T) -> int) {
    && (forall a, b :: cmp(a, b) < 0 <==> cmp(b, a) > 0)
    && (forall a, b, c :: cmp(a, b) <= 0 && cmp(b, c) <= 0 ==> cmp(a, c) <= 0)
  }

  /** Every earlier element compares not greater than every later one. */
  ghost predicate SortedBy<T>(cmp: (T, T) -> int, s: seq<T>) {
    forall i, j :: 0 <= i < j < |s| ==> cmp(s[i], s[j]) <= 0
  }

  /** Places `x` in front of the first element it does not exceed. */
  function Insert<T>(cmp: (T, T) -> int, x: T, s: seq<T>): (r: seq<T>)
    ensures multiset(r) == multiset(s) + multiset{x}
    ensures |r| == |s| + 1
  {
    if |s| == 0 then [x]
    else if cmp(x, s[0]) <= 0 then [x] + s
    else
      assert s == [s[0]] + s[1..];
      [s[0]] + Insert(cmp, x, s[1..])
  }

  /** `list.sortedWith(cmp)`: an insertion sort that keeps equal elements in input order. */
  function SortedWith<T>(cmp: (T, T) -> int, s: seq<T>): (r: seq<T>)
    ensures multiset(r) == multiset(s)
    ensures |r| == |s|
  {
    if |s| == 0 then []
    else
      assert s == [s[0]] + s[1..];
      Insert(cmp, s[0], SortedWith(cmp, s[1..]))
  }

  /** `h` compares not greater than any element of `t`. */
  ghost predicate Below<T>(cmp: (T, T) -> int, h: T, t: seq<T>) {
    forall j :: 0 <= j < |t| ==> cmp(h, t[j]) <= 0
  }

  lemma ConsSorted<T>(cmp: (T, T) -> int, h: T, t: seq<T>)
    requires Below(cmp, h, t) && SortedBy(cmp, t)
    ensures SortedBy(cmp, [h] + t)
  {
    var r := [h] + t;
    forall i, j | 0 <= i < j < |r| ensures cmp(r[i], r[j]) <= 0 {
      if i > 0 {
        assert r[i] == t[i - 1] && r[j] == t[j - 1];
      } else {
        assert r[j] == t[j - 1];
      }
    }
  }

  lemma {:induction false} InsertBelow<T>(cmp: (T, T) -> int, h: T, x: T, t: seq<T>)
    requires Below(cmp, h, t) && cmp(h, x) <= 0
    ensures Below(cmp, h, Insert(cmp, x, t))
  {
    if |t| > 0 && cmp(x, t[0]) > 0 {
      assert Below(cmp, h, t[1..]) by {
        forall j | 0 <= j < |t[1..]| ensures cmp(h, t[1..][j]) <= 0 {
          assert t[1..][j] == t[j + 1];
        }
      }
      InsertBelow(cmp, h, x, t[1..]);
      var r := Insert(cmp, x, t);
      forall j | 0 <= j < |r| ensures cmp(h, r[j]) <= 0 {
        if j > 0 {
          assert r[j] == Insert(cmp, x, t[1..])[j - 1];
        }
      }
    }
  }

  lemma {:induction false} InsertSorted<T(!new)>(cmp: (T, T) -> int, x: T, s: seq<T>)
    requires ValidComparator(cmp)
    requires SortedBy(cmp, s)
    ensures SortedBy(cmp, Insert(cmp, x, s))
  {
    if |s| == 0 {
    } else if cmp(x, s[0]) <= 0 {
      forall j | 0 <= j < |s| ensures cmp(x, s[j]) <= 0 {
        if j > 0 {
          assert cmp(s[0], s[j]) <= 0;
        }
      }
      ConsSorted(cmp, x, s);
    } else {
      var tail := s[1..];
      assert SortedBy(cmp, tail) by {
        forall i, j | 0 <= i < j < |tail| ensures cmp(tail[i], tail[j]) <= 0 {
          assert tail[i] == s[i + 1] && tail[j] == s[j + 1];
        }
      }
      assert Below(cmp, s[0], tail) by {
        forall j | 0 <= j < |tail| ensures cmp(s[0], tail[j]) <= 0 {
          assert tail[j] == s[j + 1];
        }
      }
      InsertSorted(cmp, x, tail);
      InsertBelow(cmp, s[0], x, tail);
      ConsSorted(cmp, s[0], Insert(cmp, x, tail));
    }
  }

  /** The output of `SortedWith` is in comparator order. */
  lemma {:induction false} SortedWithIsSorted<T(!new)>(cmp: (T, T) -> int, s: seq<T>)
    requires ValidComparator(cmp)
    ensures SortedBy(cmp, SortedWith(cmp, s))
  {
    if |s| > 0 {
      SortedWithIsSorted(cmp, s[1..]);
      InsertSorted(cmp, s[0], SortedWith(cmp, s[1..]));
    }
  }

  /** Kotlin's `compareValues` on `Long`/`Int`: the sign of `a - b`. */
  function CompareInts(a: int, b: int): (r: int)
    ensures r < 0 <==> a < b
    ensures r > 0 <==> a > b
  {
    if a < b then -1 else if a > b then 1 else 0
  }

  /** Kotlin's `compareValues` on `Boolean`: `false` sorts before `true`. */
  function CompareBools(a: bool, b: bool): (r: int)
    ensures r < 0 <==> !a && b
    ensures r > 0 <==> a && !b
  {
    if a == b then 0 else if a then 1 else -1
  }

  /** `compareBy(cmp) { key(it) }`: compare the keys. */
  function By<T, U>(cmp: (U, U) -> int, key: T -> U): (T, T) -> int {
    (a: T, b: T) => cmp(key(a), key(b))
  }

  lemma ByValid<T(!new), U(!new)>(cmp: (U, U) -> int, key: T -> U)
    requires ValidComparator(cmp)
    ensures ValidComparator(By(cmp, key))
  {
    var keyed := By(cmp, key);
    forall a, b, c | keyed(a, b) <= 0 && keyed(b, c) <= 0 ensures keyed(a, c) <= 0 {
      assert cmp(key(a), key(b)) <= 0 && cmp(key(b), key(c)) <= 0;
    }
  }

  lemma NaturalOrdersValid()
    ensures ValidComparator(CompareInts)
    ensures ValidComparator(CompareBools)
  {
  }

  /** `Comparator.reversed()`, also written `-cmp(a, b)`. */
  function Reversed<T>(cmp: (T, T) -> int): (T, T) -> int {
    (a: T, b: T) => -cmp(a, b)
  }

  /** `first then second`: the second comparison breaks ties of the first. */
  function ThenBy<T>(first: (T, T) -> int, second: (T, T) -> int): (T, T) -> int {
    (a: T, b: T) => var c := first(a, b); if c != 0 then c else second(a, b)
  }

  lemma ReversedValid<T(!new)>(cmp: (T, T) -> int)
    requires ValidComparator(cmp)
    ensures ValidComparator(Reversed(cmp))
  {
    var rev := Reversed(cmp);
    forall a, b, c | rev(a, b) <= 0 && rev(b, c) <= 0 ensures rev(a, c) <= 0 {
      assert cmp(b, a) <= 0 && cmp(c, b) <= 0;
      assert cmp(c, a) <= 0;
    }
  }

  lemma ThenByValid<T(!new)>(first: (T, T) -> int, second: (T, T) -> int)
    requires ValidComparator(first) && ValidComparator(second)
    ensures ValidComparator(ThenBy(first, second))
  {
  }
}
