/** `orderBy` in a store query, on one integer key. The store promises only
    that the rows come out ordered by the key; it names no tie-break. The
    model sorts with one fixed insertion sort and claims no more than the
    store does: the output is ordered by the key and is a permutation of the
    input. */
module Ordering {

  import opened Common

  /** Ascending by `key`; equal keys may come in any order. */
  ghost predicate SortedBy<T>(s: seq<T>, key: T -> int)
  {
    forall i, j :: 0 <= i < j < |s| ==> key(s[i]) <= key(s[j])
  }

  /** Putting a row in front of a sorted sequence keeps it sorted when the
      row's key is at most the key of the current head. */
  lemma ConsSorted<T>(a: T, s: seq<T>, key: T -> int)
    requires SortedBy(s, key)
    requires s != [] ==> key(a) <= key(s[0])
    ensures SortedBy([a] + s, key)
  {
    var r := [a] + s;
    forall i, j | 0 <= i < j < |r| ensures key(r[i]) <= key(r[j]) {
      if i == 0 && j > 1 {
        assert key(s[0]) <= key(s[j - 1]);
      }
    }
  }

  function Insert<T(!new)>(x: T, s: seq<T>, key: T -> int): (r: seq<T>)
    requires SortedBy(s, key)
    ensures |r| == |s| + 1
    ensures r[0] == x || (s != [] && r[0] == s[0])
    ensures SortedBy(r, key)
    ensures multiset(r) == multiset(s) + multiset{x}
  {
    if s == [] || key(x) <= key(s[0]) then
      ConsSorted(x, s, key);
      [x] + s
    else
      TailSorted(s, key);
      var rest := Insert(x, s[1..], key);
      ConsSorted(s[0], rest, key);
      assert s == [s[0]] + s[1..];
      [s[0]] + rest
  }

  /** The rows of `s` ordered ascending by `key`. */
  function SortBy<T(!new)>(s: seq<T>, key: T -> int): (r: seq<T>)
    ensures SortedBy(r, key)
    ensures multiset(r) == multiset(s)
    ensures |r| == |s|
  {
    if s == [] then []
    else
      assert s == [s[0]] + s[1..];
      Insert(s[0], SortBy(s[1..], key), key)
  }

  lemma TailSorted<T>(s: seq<T>, key: T -> int)
    requires s != [] && SortedBy(s, key)
    ensures SortedBy(s[1..], key)
  {
    forall i, j | 0 <= i < j < |s[1..]| ensures key(s[1..][i]) <= key(s[1..][j]) {
      assert s[1..][i] == s[i + 1] && s[1..][j] == s[j + 1];
    }
  }

  lemma MapSeqCons<T, U>(f: T -> U, a: T, s: seq<T>)
    ensures MapSeq(f, [a] + s) == [f(a)] + MapSeq(f, s)
  {
  }

  /** Sorting permutes rows, so any column projected from them keeps its multiset. */
  lemma {:induction false} InsertProjection<T(!new), U>(x: T, s: seq<T>, key: T -> int, f: T -> U)
    requires SortedBy(s, key)
    ensures multiset(MapSeq(f, Insert(x, s, key))) == multiset(MapSeq(f, s)) + multiset{f(x)}
    decreases |s|
  {
    var r := Insert(x, s, key);
    if s == [] || key(x) <= key(s[0]) {
      assert r == [x] + s;
      MapSeqCons(f, x, s);
    } else {
      TailSorted(s, key);
      var rest := Insert(x, s[1..], key);
      assert r == [s[0]] + rest;
      InsertProjection(x, s[1..], key, f);
      MapSeqCons(f, s[0], rest);
      assert s == [s[0]] + s[1..];
      MapSeqCons(f, s[0], s[1..]);
    }
  }

  lemma MapSeqHead<T, U>(f: T -> U, s: seq<T>)
    requires s != []
    ensures MapSeq(f, s) == [f(s[0])] + MapSeq(f, s[1..])
  {
  }

  lemma {:induction false} SortByProjection<T(!new), U>(s: seq<T>, key: T -> int, f: T -> U)
    ensures multiset(MapSeq(f, SortBy(s, key))) == multiset(MapSeq(f, s))
  {
    if s != [] {
      var sortedTail := SortBy(s[1..], key);
      calc {
        multiset(MapSeq(f, SortBy(s, key)));
        multiset(MapSeq(f, Insert(s[0], sortedTail, key)));
      == { InsertProjection(s[0], sortedTail, key, f); }
        multiset(MapSeq(f, sortedTail)) + multiset{f(s[0])};
      == { SortByProjection(s[1..], key, f); }
        multiset(MapSeq(f, s[1..])) + multiset{f(s[0])};
      == { MapSeqHead(f, s); }
        multiset(MapSeq(f, s));
      }
    }
  }

  /** The store returns rows that are already in key order as they are. */
  lemma {:induction false} SortByOfSorted<T(!new)>(s: seq<T>, key: T -> int)
    requires forall i :: 0 <= i < |s| - 1 ==> key(s[i]) < key(s[i + 1])
    ensures SortBy(s, key) == s
  {
    if s != [] {
      SortByOfSorted(s[1..], key);
      assert SortBy(s[1..], key) == s[1..];
      assert s == [s[0]] + s[1..];
    }
  }

  /** A projection that carries the key along keeps sorted rows sorted. */
  lemma ProjectionKeepsOrder<T, U>(s: seq<T>, key: T -> int, f: T -> U, projectedKey: U -> int)
    requires SortedBy(s, key)
    requires forall x :: projectedKey(f(x)) == key(x)
    ensures forall i, j :: 0 <= i < j < |s| ==> projectedKey(MapSeq(f, s)[i]) <= projectedKey(MapSeq(f, s)[j])
  {
    forall i, j | 0 <= i < j < |s| ensures projectedKey(MapSeq(f, s)[i]) <= projectedKey(MapSeq(f, s)[j]) {
      assert key(s[i]) <= key(s[j]);
    }
  }
}
