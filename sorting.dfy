/**
 * Python's `sorted(...)`: a stable sort. It is modelled as insertion sort in
 * which `before(x, y)` says that `x` must precede `y` (for ascending order
 * `key(x) < key(y)`; for `reverse=True`, `key(x) > key(y)`). An element is
 * inserted in front of the first element it must precede, so elements that
 * compare equal keep their input order.
 */
module Sorting {

  /** `before` is a strict order: asymmetric and transitive. */
  ghost predicate StrictOrder<T(!new)>(before: (T, T) -> bool) {
    && (forall a, b :: before(a, b) ==> !before(b, a))
    && (forall a, b, c :: before(a, b) && before(b, c) ==> before(a, c))
  }

  /**
   * `before` is a strict weak order, as comparing by a key is: a strict
   * order in which `before(a, c)` puts any `b` after `a` or before `c`.
   */
  ghost predicate StrictWeakOrder<T(!new)>(before: (T, T) -> bool) {
    && StrictOrder(before)
    && (forall a, b, c :: before(a, c) ==> before(a, b) || before(b, c))
  }

  /** Neither of `x` and `y` must precede the other: they compare equal. */
  predicate Tied<T>(x: T, y: T, before: (T, T) -> bool) {
    !before(x, y) && !before(y, x)
  }

  /** The elements of `s` that compare equal to `z`, in their order in `s`. */
  function Ties<T>(s: seq<T>, z: T, before: (T, T) -> bool): seq<T> {
    if s == [] then [] else (if Tied(s[0], z, before) then [s[0]] else []) + Ties(s[1..], z, before)
  }

  /** No element must precede an element to its left. */
  predicate Sorted<T>(s: seq<T>, before: (T, T) -> bool) {
    forall i, j :: 0 <= i < j < |s| ==> !before(s[j], s[i])
  }

  function Insert<T>(s: seq<T>, x: T, before: (T, T) -> bool): (r: seq<T>)
    ensures multiset(r) == multiset(s) + multiset{x}
    ensures |r| == |s| + 1
  {
    if s == [] then [x]
    else if before(x, s[0]) then [x] + s
    else
      assert s == [s[0]] + s[1..];
      [s[0]] + Insert(s[1..], x, before)
  }

  function SortBy<T>(s: seq<T>, before: (T, T) -> bool): (r: seq<T>)
    ensures multiset(r) == multiset(s)
    ensures |r| == |s|
  {
    if s == [] then []
    else
      assert s == s[..|s| - 1] + [s[|s| - 1]];
      Insert(SortBy(s[..|s| - 1], before), s[|s| - 1], before)
  }

  lemma {:induction false} InsertSorted<T(!new)>(s: seq<T>, x: T, before: (T, T) -> bool)
    requires StrictOrder(before) && Sorted(s, before)
    ensures Sorted(Insert(s, x, before), before)
  {
    if s != [] && !before(x, s[0]) {
      var tail := s[1..];
      assert Sorted(tail, before) by {
        forall i, j | 0 <= i < j < |tail| ensures !before(tail[j], tail[i]) {
          assert tail[j] == s[j + 1] && tail[i] == s[i + 1];
        }
      }
      InsertSorted(tail, x, before);
      var t := Insert(tail, x, before);
      forall j | 0 <= j < |t| ensures !before(t[j], s[0]) {
        assert t[j] in multiset(t);
        if t[j] != x {
          assert t[j] in multiset(tail);
          var k :| 0 <= k < |tail| && tail[k] == t[j];
          assert tail[k] == s[k + 1];
        }
      }
    }
  }

  /** The result of `SortBy` is sorted whenever `before` is a strict order. */
  lemma {:induction false} SortBySorted<T(!new)>(s: seq<T>, before: (T, T) -> bool)
    requires StrictOrder(before)
    ensures Sorted(SortBy(s, before), before)
  {
    if s != [] {
      SortBySorted(s[..|s| - 1], before);
      InsertSorted(SortBy(s[..|s| - 1], before), s[|s| - 1], before);
    }
  }

  lemma {:induction false} InsertAtEnd<T>(s: seq<T>, x: T, before: (T, T) -> bool)
    requires forall k :: 0 <= k < |s| ==> !before(x, s[k])
    ensures Insert(s, x, before) == s + [x]
  {
    if s != [] {
      InsertAtEnd(s[1..], x, before);
      assert [s[0]] + (s[1..] + [x]) == s + [x];
    }
  }

  /** Sorting an already sorted sequence leaves it as it is (the sort is stable). */
  lemma {:induction false} SortByOfSorted<T>(s: seq<T>, before: (T, T) -> bool)
    requires Sorted(s, before)
    ensures SortBy(s, before) == s
  {
    if s != [] {
      var init := s[..|s| - 1];
      assert Sorted(init, before);
      SortByOfSorted(init, before);
      InsertAtEnd(init, s[|s| - 1], before);
      assert init + [s[|s| - 1]] == s;
    }
  }

  lemma HeadTail<T>(s: seq<T>)
    requires s != []
    ensures s == [s[0]] + s[1..]
  {
  }

  lemma AppendAssoc<T>(a: seq<T>, b: seq<T>, c: seq<T>)
    ensures a + (b + c) == (a + b) + c
  {
  }

  lemma {:induction false} TiesAppend<T>(a: seq<T>, b: seq<T>, z: T, before: (T, T) -> bool)
    ensures Ties(a + b, z, before) == Ties(a, z, before) + Ties(b, z, before)
  {
    if a != [] {
      assert (a + b)[1..] == a[1..] + b;
      TiesAppend(a[1..], b, z, before);
    } else {
      assert a + b == b;
    }
  }

  lemma {:induction false} TiesNone<T>(s: seq<T>, z: T, before: (T, T) -> bool)
    requires forall k :: 0 <= k < |s| ==> !Tied(s[k], z, before)
    ensures Ties(s, z, before) == []
  {
    if s != [] {
      assert forall k :: 0 <= k < |s| - 1 ==> s[1..][k] == s[k + 1];
      TiesNone(s[1..], z, before);
    }
  }

  /** In a sorted sequence whose head must follow `x`, nothing compares equal to anything `x` equals. */
  lemma TiesAfterFront<T(!new)>(s: seq<T>, x: T, z: T, before: (T, T) -> bool)
    requires StrictWeakOrder(before) && Sorted(s, before)
    requires s != [] && before(x, s[0]) && Tied(x, z, before)
    ensures forall k :: 0 <= k < |s| ==> !Tied(s[k], z, before)
  {
    forall k | 0 <= k < |s| ensures before(z, s[k]) {
      if k > 0 {
        assert !before(s[k], s[0]);
      }
      assert before(x, s[k]);
    }
  }

  lemma SortedTail<T>(s: seq<T>, before: (T, T) -> bool)
    requires s != [] && Sorted(s, before)
    ensures Sorted(s[1..], before)
  {
    var tail := s[1..];
    forall i, j | 0 <= i < j < |tail| ensures !before(tail[j], tail[i]) {
      assert tail[j] == s[j + 1] && tail[i] == s[i + 1];
    }
  }

  /** Inserting `x` in front of a sorted sequence whose head must follow it. */
  lemma InsertTiesFront<T(!new)>(s: seq<T>, x: T, z: T, before: (T, T) -> bool)
    requires StrictWeakOrder(before) && Sorted(s, before)
    requires s != [] && before(x, s[0])
    ensures Ties(Insert(s, x, before), z, before) == Ties(s, z, before) + (if Tied(x, z, before) then [x] else [])
  {
    var r := [x] + s;
    assert Insert(s, x, before) == r;
    assert r[0] == x && r[1..] == s;
    if Tied(x, z, before) {
      TiesAfterFront(s, x, z, before);
      TiesNone(s, z, before);
      assert Ties(r, z, before) == [x];
    } else {
      assert Ties(r, z, before) == Ties(s, z, before);
    }
  }

  /** Inserting `x` behind the head of `s`, given the result for the tail. */
  lemma InsertTiesCons<T>(s: seq<T>, x: T, z: T, before: (T, T) -> bool)
    requires s != [] && !before(x, s[0])
    requires Ties(Insert(s[1..], x, before), z, before) == Ties(s[1..], z, before) + (if Tied(x, z, before) then [x] else [])
    ensures Ties(Insert(s, x, before), z, before) == Ties(s, z, before) + (if Tied(x, z, before) then [x] else [])
  {
    var tail := s[1..];
    var it := Insert(tail, x, before);
    var tx := if Tied(x, z, before) then [x] else [];
    assert Insert(s, x, before) == [s[0]] + it;
    HeadTail(s);
    TiesAppend([s[0]], it, z, before);
    TiesAppend([s[0]], tail, z, before);
    var a, b := Ties([s[0]], z, before), Ties(tail, z, before);
    assert Ties(Insert(s, x, before), z, before) == a + (b + tx);
    AppendAssoc(a, b, tx);
    assert Ties(s, z, before) == a + b;
  }

  /** Inserting `x` into a sorted sequence puts it after every element that compares equal to it. */
  lemma {:induction false} InsertTies<T(!new)>(s: seq<T>, x: T, z: T, before: (T, T) -> bool)
    requires StrictWeakOrder(before) && Sorted(s, before)
    ensures Ties(Insert(s, x, before), z, before) == Ties(s, z, before) + (if Tied(x, z, before) then [x] else [])
  {
    if s == [] {
      assert Ties([x], z, before) == (if Tied(x, z, before) then [x] else []) + Ties([x][1..], z, before);
    } else if before(x, s[0]) {
      InsertTiesFront(s, x, z, before);
    } else {
      SortedTail(s, before);
      InsertTies(s[1..], x, z, before);
      InsertTiesCons(s, x, z, before);
    }
  }

  /**
   * The sort is stable: for a strict weak order, the elements that compare
   * equal to any `z` come out in their input order.
   */
  lemma {:induction false} SortByStable<T(!new)>(s: seq<T>, z: T, before: (T, T) -> bool)
    requires StrictWeakOrder(before)
    ensures Ties(SortBy(s, before), z, before) == Ties(s, z, before)
  {
    if s != [] {
      var init, x := s[..|s| - 1], s[|s| - 1];
      var tx := if Tied(x, z, before) then [x] else [];
      calc {
        Ties(SortBy(s, before), z, before);
        Ties(Insert(SortBy(init, before), x, before), z, before);
        { SortBySorted(init, before); InsertTies(SortBy(init, before), x, z, before); }
        Ties(SortBy(init, before), z, before) + tx;
        { SortByStable(init, z, before); }
        Ties(init, z, before) + tx;
        { assert [x][1..] == []; assert Ties([x], z, before) == tx; TiesAppend(init, [x], z, before); }
        Ties(init + [x], z, before);
        { assert init + [x] == s; }
        Ties(s, z, before);
      }
    }
  }
}
