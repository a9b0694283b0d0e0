/** The stable sort that `Array.prototype.sort` is required to be. A comparator answers a number:
    negative or zero keeps its arguments in order. */
module Sorting {

  type Comparator<!T> = (T, T) -> real

  /** Puts `x` behind every element that may precede it. */
  function Insert<T>(x: T, s: seq<T>, cmp: Comparator<T>): (r: seq<T>)
    ensures |r| == |s| + 1
  {
    if s == [] || cmp(s[|s| - 1], x) <= 0.0 then s + [x]
    else Insert(x, s[..|s| - 1], cmp) + [s[|s| - 1]]
  }

  function StableSort<T>(s: seq<T>, cmp: Comparator<T>): (r: seq<T>)
    ensures |r| == |s|
  {
    if s == [] then [] else Insert(s[|s| - 1], StableSort(s[..|s| - 1], cmp), cmp)
  }

  /** A total preorder: any two elements compare, consistently both ways round, and transitively. */
  ghost predicate TotalPreorder<T(!new)>(cmp: Comparator<T>) {
    && (forall a, b :: cmp(a, b) <= 0.0 || cmp(b, a) <= 0.0)
    && (forall a, b :: cmp(a, b) < 0.0 <==> cmp(b, a) > 0.0)
    && (forall a, b, c :: cmp(a, b) <= 0.0 && cmp(b, c) <= 0.0 ==> cmp(a, c) <= 0.0)
  }

  ghost predicate SortedBy<T>(s: seq<T>, cmp: Comparator<T>) {
    forall i, j :: 0 <= i < j < |s| ==> cmp(s[i], s[j]) <= 0.0
  }

  lemma {:induction false} InsertKeepsElements<T>(x: T, s: seq<T>, cmp: Comparator<T>)
    ensures multiset(Insert(x, s, cmp)) == multiset(s) + multiset{x}
  {
    if s != [] && cmp(s[|s| - 1], x) > 0.0 {
      InsertKeepsElements(x, s[..|s| - 1], cmp);
      assert s == s[..|s| - 1] + [s[|s| - 1]];
    }
  }

  lemma {:induction false} SortKeepsElements<T>(s: seq<T>, cmp: Comparator<T>)
    ensures multiset(StableSort(s, cmp)) == multiset(s)
  {
    if s != [] {
      SortKeepsElements(s[..|s| - 1], cmp);
      InsertKeepsElements(s[|s| - 1], StableSort(s[..|s| - 1], cmp), cmp);
      assert s == s[..|s| - 1] + [s[|s| - 1]];
    }
  }

  lemma LastFits<T(!new)>(s: seq<T>, y: T, cmp: Comparator<T>)
    requires SortedBy(s, cmp) && forall a :: a in s ==> cmp(a, y) <= 0.0
    ensures SortedBy(s + [y], cmp)
  {
  }

  lemma {:induction false} InsertMembers<T(!new)>(x: T, s: seq<T>, cmp: Comparator<T>)
    ensures forall a :: a in Insert(x, s, cmp) ==> a == x || a in s
  {
    if s != [] && cmp(s[|s| - 1], x) > 0.0 {
      InsertMembers(x, s[..|s| - 1], cmp);
    }
  }

  lemma {:induction false} InsertSorted<T(!new)>(x: T, s: seq<T>, cmp: Comparator<T>)
    requires TotalPreorder(cmp) && SortedBy(s, cmp)
    ensures SortedBy(Insert(x, s, cmp), cmp)
  {
    if s != [] {
      var front, y := s[..|s| - 1], s[|s| - 1];
      assert s == front + [y];
      assert forall a :: a in front ==> cmp(a, y) <= 0.0;
      if cmp(y, x) <= 0.0 {
        LastFits(s, x, cmp);
      } else {
        InsertSorted(x, front, cmp);
        InsertMembers(x, front, cmp);
        LastFits(Insert(x, front, cmp), y, cmp);
      }
    }
  }

  lemma {:induction false} SortSorts<T(!new)>(s: seq<T>, cmp: Comparator<T>)
    requires TotalPreorder(cmp)
    ensures SortedBy(StableSort(s, cmp), cmp)
  {
    if s != [] {
      SortSorts(s[..|s| - 1], cmp);
      InsertSorted(s[|s| - 1], StableSort(s[..|s| - 1], cmp), cmp);
    }
  }

  // ---------------------------------------------------------------- ties keep the order of the list

  type Order<!T> = (T, T) -> bool

  /** Each element stands in the order to every later one. */
  ghost predicate Listed<T>(s: seq<T>, order: Order<T>) {
    forall i, j :: 0 <= i < j < |s| ==> order(s[i], s[j])
  }

  /** First by the comparator, then, where it ties, by an order. */
  function Then<T>(cmp: Comparator<T>, order: Order<T>): Order<T> {
    (a, b) => cmp(a, b) < 0.0 || (cmp(a, b) == 0.0 && order(a, b))
  }

  lemma ListedAppend<T>(s: seq<T>, y: T, order: Order<T>)
    requires Listed(s, order) && forall a :: a in s ==> order(a, y)
    ensures Listed(s + [y], order)
  {
    var r := s + [y];
    forall i, j | 0 <= i < j < |r| ensures order(r[i], r[j]) {
      assert r[i] in s;
    }
  }

  lemma {:induction false} InsertListed<T(!new)>(x: T, s: seq<T>, cmp: Comparator<T>, order: Order<T>)
    requires TotalPreorder(cmp) && Listed(s, Then(cmp, order)) && forall a :: a in s ==> order(a, x)
    ensures Listed(Insert(x, s, cmp), Then(cmp, order))
  {
    if s != [] {
      var front, y := s[..|s| - 1], s[|s| - 1];
      forall a | a in s ensures a == y || Then(cmp, order)(a, y) {
        var i :| 0 <= i < |s| && s[i] == a;
      }
      if cmp(y, x) <= 0.0 {
        forall a | a in s ensures Then(cmp, order)(a, x) {
          assert cmp(a, y) <= 0.0 || a == y;
        }
        ListedAppend(s, x, Then(cmp, order));
      } else {
        InsertListed(x, front, cmp, order);
        InsertMembers(x, front, cmp);
        ListedAppend(Insert(x, front, cmp), y, Then(cmp, order));
      }
    }
  }

  /** A sorted list is in the comparator's order and, among ties, in the order it was in before. */
  lemma {:induction false} SortListed<T(!new)>(s: seq<T>, cmp: Comparator<T>, order: Order<T>)
    requires TotalPreorder(cmp) && Listed(s, order)
    ensures Listed(StableSort(s, cmp), Then(cmp, order))
  {
    if s != [] {
      var front, y := s[..|s| - 1], s[|s| - 1];
      var sorted := StableSort(front, cmp);
      SortListed(front, cmp, order);
      forall a | a in sorted ensures order(a, y) {
        SortKeepsElements(front, cmp);
        assert a in multiset(sorted) && a in multiset(front);
        var i :| 0 <= i < |front| && front[i] == a;
        assert s[i] == a;
      }
      InsertListed(y, sorted, cmp, order);
    }
  }

  function Image<A, B>(f: A -> B, s: seq<A>): (r: seq<B>)
    ensures |r| == |s|
    ensures forall i :: 0 <= i < |s| ==> r[i] == f(s[i])
  {
    seq(|s|, i requires 0 <= i < |s| => f(s[i]))
  }
}
