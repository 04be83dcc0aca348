/** The order of Go strings, and sorting by it. */
module Sorting {

  /** strings.Compare(a, b) <= 0. */
  predicate AtMost(a: string, b: string) {
    a == "" || (b != "" && (a[0] < b[0] || (a[0] == b[0] && AtMost(a[1..], b[1..]))))
  }

  lemma {:induction false} AtMostIsTotal(a: string, b: string)
    ensures AtMost(a, b) || AtMost(b, a)
    ensures AtMost(a, b) && AtMost(b, a) ==> a == b
    ensures AtMost(a, a)
  {
    if a != "" && b != "" && a[0] == b[0] {
      AtMostIsTotal(a[1..], b[1..]);
    } else if a != "" {
      AtMostIsTotal(a[1..], a[1..]);
    }
  }

  lemma {:induction false} AtMostIsTransitive(a: string, b: string, c: string)
    requires AtMost(a, b) && AtMost(b, c)
    ensures AtMost(a, c)
  {
    if a != "" && b != "" && c != "" && a[0] == b[0] == c[0] {
      AtMostIsTransitive(a[1..], b[1..], c[1..]);
    }
  }

  /** The text `a` is a proper prefix of `b`, or at the first difference it has the smaller character. */
  predicate Precedes(a: string, b: string) {
    a < b || exists i :: 0 <= i < |a| && i < |b| && a[i] < b[i] && a[..i] == b[..i]
  }

  lemma {:induction false} AtMostIff(a: string, b: string)
    ensures AtMost(a, b) <==> a == b || Precedes(a, b)
  {
    if a != "" && b != "" && a[0] == b[0] {
      var x, y := a[1..], b[1..];
      AtMostIff(x, y);
      assert a == [a[0]] + x && b == [b[0]] + y;
      if i :| 0 <= i < |x| && i < |y| && x[i] < y[i] && x[..i] == y[..i] {
        assert a[i + 1] < b[i + 1] && a[..i + 1] == [a[0]] + x[..i] == b[..i + 1];
      }
      if i :| 0 <= i < |a| && i < |b| && a[i] < b[i] && a[..i] == b[..i] {
        assert x[i - 1] < y[i - 1] && x[..i - 1] == a[..i][1..] == b[..i][1..] == y[..i - 1];
      }
    } else if a != "" && b != "" {
      assert a[..0] == b[..0];
    }
  }

  function Self(s: string): string {
    s
  }

  /** Items in order of their keys, ascending or descending. */
  ghost predicate Sorted<T>(items: seq<T>, key: T -> string, descending: bool) {
    forall i, j :: 0 <= i < j < |items| ==> InOrder(key(items[i]), key(items[j]), descending)
  }

  predicate InOrder(a: string, b: string, descending: bool) {
    if descending then AtMost(b, a) else AtMost(a, b)
  }

  /** Both orders are by the first difference. */
  lemma InOrderIff(a: string, b: string)
    ensures InOrder(a, b, false) <==> a == b || Precedes(a, b)
    ensures InOrder(a, b, true) <==> a == b || Precedes(b, a)
  {
    AtMostIff(a, b);
    AtMostIff(b, a);
  }

  /** sort.Sort: some ordering of the items by key. */
  method Sort<T>(items: seq<T>, key: T -> string, descending: bool) returns (sorted: seq<T>)
    ensures multiset(sorted) == multiset(items) && Sorted(sorted, key, descending)
  {
    sorted := [];
    for i := 0 to |items|
      invariant multiset(sorted) == multiset(items[..i]) && Sorted(sorted, key, descending)
    {
      sorted := Insert(sorted, items[i], key, descending);
      assert items[..i + 1] == items[..i] + [items[i]];
    }
    assert items[..|items|] == items;
  }

  lemma InOrderIsTransitive(a: string, b: string, c: string, descending: bool)
    requires InOrder(a, b, descending) && InOrder(b, c, descending)
    ensures InOrder(a, c, descending)
  {
    if descending {
      AtMostIsTransitive(c, b, a);
    } else {
      AtMostIsTransitive(a, b, c);
    }
  }

  lemma InsertedIsSorted<T>(left: seq<T>, item: T, right: seq<T>, key: T -> string, descending: bool)
    requires Sorted(left + right, key, descending)
    requires left != [] ==> InOrder(key(left[|left| - 1]), key(item), descending)
    requires forall j :: 0 <= j < |right| ==> InOrder(key(item), key(right[j]), descending)
    ensures Sorted(left + [item] + right, key, descending)
  {
    var all, before := left + [item] + right, left + right;
    forall i, j | 0 <= i < j < |all| ensures InOrder(key(all[i]), key(all[j]), descending) {
      var n := |left|;
      if i == n {
        assert all[j] == right[j - n - 1];
      } else if j == n {
        assert all[i] == before[i] == left[i];
        if i < n - 1 {
          assert InOrder(key(before[i]), key(before[n - 1]), descending);
          InOrderIsTransitive(key(left[i]), key(left[n - 1]), key(item), descending);
        }
      } else {
        assert all[i] == before[if i < n then i else i - 1] && all[j] == before[if j < n then j else j - 1];
      }
    }
  }

  lemma InsertedItems<T>(left: seq<T>, item: T, right: seq<T>)
    ensures multiset(left + [item] + right) == multiset(left + right) + multiset{item}
  {
  }

  method Insert<T>(sorted: seq<T>, item: T, key: T -> string, descending: bool) returns (longer: seq<T>)
    requires Sorted(sorted, key, descending)
    ensures multiset(longer) == multiset(sorted) + multiset{item} && Sorted(longer, key, descending)
  {
    var i := |sorted|;
    while i > 0 && !InOrder(key(sorted[i - 1]), key(item), descending)
      invariant 0 <= i <= |sorted|
      invariant forall j :: i <= j < |sorted| ==> InOrder(key(item), key(sorted[j]), descending)
    {
      AtMostIsTotal(key(sorted[i - 1]), key(item));
      i := i - 1;
    }
    assert sorted == sorted[..i] + sorted[i..];
    InsertedIsSorted(sorted[..i], item, sorted[i..], key, descending);
    InsertedItems(sorted[..i], item, sorted[i..]);
    longer := sorted[..i] + [item] + sorted[i..];
  }

  lemma MinimumFirst(a: seq<string>, b: seq<string>)
    requires multiset(a) == multiset(b) && a != [] && b != []
    requires Sorted(a, Self, false) && Sorted(b, Self, false)
    ensures a[0] == b[0]
  {
    assert a[0] in multiset(b) && b[0] in multiset(a);
    var i :| 0 <= i < |b| && b[i] == a[0];
    var j :| 0 <= j < |a| && a[j] == b[0];
    AtMostIsTotal(a[0], b[0]);
    if i > 0 {
      assert InOrder(b[0], b[i], false);
    }
    if j > 0 {
      assert InOrder(a[0], a[j], false);
    }
  }

  /** Sorting strings has one result, whatever the algorithm and the order they came in. */
  lemma {:induction false} SortedIsUnique(a: seq<string>, b: seq<string>)
    requires multiset(a) == multiset(b)
    requires Sorted(a, Self, false) && Sorted(b, Self, false)
    ensures a == b
  {
    if a == [] {
      assert |multiset(b)| == 0;
    } else {
      assert |multiset(a)| == |a| == |b|;
      MinimumFirst(a, b);
      assert a == [a[0]] + a[1..] && b == [b[0]] + b[1..];
      assert multiset(a[1..]) == multiset(a) - multiset{a[0]};
      assert multiset(b[1..]) == multiset(b) - multiset{b[0]};
      SortedIsUnique(a[1..], b[1..]);
    }
  }

  lemma {:induction false} SortedExists(m: multiset<string>) returns (s: seq<string>)
    ensures multiset(s) == m && Sorted(s, Self, false)
    decreases |m|
  {
    if m == multiset{} {
      s := [];
    } else {
      var x :| x in m;
      var rest := SortedExists(m - multiset{x});
      s := InsertString(rest, x, |rest|);
    }
  }

  lemma {:induction false} InsertString(sorted: seq<string>, x: string, i: nat) returns (longer: seq<string>)
    requires Sorted(sorted, Self, false) && i <= |sorted|
    requires forall j :: i <= j < |sorted| ==> InOrder(x, sorted[j], false)
    ensures multiset(longer) == multiset(sorted) + multiset{x} && Sorted(longer, Self, false)
  {
    hide Sorted, AtMost;
    if i > 0 && !InOrder(sorted[i - 1], x, false) {
      AtMostIsTotal(sorted[i - 1], x);
      longer := InsertString(sorted, x, i - 1);
    } else {
      assert sorted == sorted[..i] + sorted[i..];
      InsertedIsSorted(sorted[..i], x, sorted[i..], Self, false);
      InsertedItems(sorted[..i], x, sorted[i..]);
      longer := sorted[..i] + [x] + sorted[i..];
    }
  }

  lemma SomeSorted(m: multiset<string>)
    ensures exists s :: multiset(s) == m && Sorted(s, Self, false)
  {
    var s := SortedExists(m);
  }

  /** The one sorted sequence of these strings. */
  ghost function SortedStrings(m: multiset<string>): (s: seq<string>)
    ensures multiset(s) == m && Sorted(s, Self, false)
  {
    SomeSorted(m);
    var s :| multiset(s) == m && Sorted(s, Self, false);
    s
  }
}
