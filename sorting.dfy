/** The stable sort the screens rely on (`Array.prototype.sort`, which the
    language requires to be stable), over items compared by a key: keys are
    ordered by a text and then a number. The sort is written as insertion of
    each item after every earlier one that does not sort after it. */
module Sorting {
  import opened Text
  import opened Lists

  /** A sort key; keys are ordered by name, then by rank. */
  datatype Key = Key(name: string, rank: int)

  predicate KeyLess(a: Key, b: Key) {
    StrLess(a.name, b.name) || (a.name == b.name && a.rank < b.rank)
  }

  lemma KeyLessIrreflexive(a: Key)
    ensures !KeyLess(a, a)
  {
    StrLessIrreflexive(a.name);
  }

  lemma KeyLessTransitive(a: Key, b: Key, c: Key)
    requires KeyLess(a, b) && KeyLess(b, c)
    ensures KeyLess(a, c)
  {
    if StrLess(a.name, b.name) && StrLess(b.name, c.name) {
      StrLessTransitive(a.name, b.name, c.name);
    }
  }

  lemma KeyLessTotal(a: Key, b: Key)
    ensures a == b || KeyLess(a, b) || KeyLess(b, a)
  {
    StrLessTotal(a.name, b.name);
  }

  lemma KeyLessAsymmetric(a: Key, b: Key)
    ensures KeyLess(a, b) ==> !KeyLess(b, a)
  {
    StrLessAsymmetric(a.name, b.name);
    StrLessIrreflexive(a.name);
  }

  /** No item sorts after a later one. */
  predicate SortedOn<T>(key: T -> Key, s: seq<T>) {
    forall i, j :: 0 <= i < j < |s| ==> !KeyLess(key(s[j]), key(s[i]))
  }

  /** Place `x` after every element of `s` that does not sort after it. */
  function Insert<T>(key: T -> Key, s: seq<T>, x: T): (r: seq<T>)
    ensures |r| == |s| + 1
  {
    if |s| == 0 then [x]
    else if KeyLess(key(x), key(s[0])) then [x] + s
    else [s[0]] + Insert(key, s[1..], x)
  }

  /** The stable sort: insert the items one by one, in input order. */
  function SortOn<T>(key: T -> Key, xs: seq<T>): (r: seq<T>)
    ensures |r| == |xs|
  {
    if |xs| == 0 then []
    else Insert(key, SortOn(key, xs[..|xs| - 1]), xs[|xs| - 1])
  }

  /** The items with key `k`. */
  function HasKey<T>(key: T -> Key, k: Key): T -> bool {
    x => key(x) == k
  }

  lemma {:induction false} InsertMultiset<T>(key: T -> Key, s: seq<T>, x: T)
    ensures multiset(Insert(key, s, x)) == multiset(s) + multiset{x}
  {
    if |s| > 0 && !KeyLess(key(x), key(s[0])) {
      InsertMultiset(key, s[1..], x);
      assert s == [s[0]] + s[1..];
    }
  }

  /** The tail of a sorted list is sorted. */
  lemma SortedTail<T>(key: T -> Key, s: seq<T>)
    requires SortedOn(key, s) && |s| > 0
    ensures SortedOn(key, s[1..])
  {
    forall i, j | 0 <= i < j < |s| - 1 ensures !KeyLess(key(s[1..][j]), key(s[1..][i])) {
      assert s[1..][j] == s[j + 1] && s[1..][i] == s[i + 1];
    }
  }

  /** In a sorted list, whatever sorts before the head sorts before everything. */
  lemma BeforeAll<T>(key: T -> Key, s: seq<T>, x: T)
    requires SortedOn(key, s) && |s| > 0 && KeyLess(key(x), key(s[0]))
    ensures forall i :: 0 <= i < |s| ==> KeyLess(key(x), key(s[i]))
  {
    forall i | 0 < i < |s| ensures KeyLess(key(x), key(s[i])) {
      KeyLessTotal(key(s[0]), key(s[i]));
      if key(s[0]) != key(s[i]) {
        KeyLessTransitive(key(x), key(s[0]), key(s[i]));
      }
    }
  }

  lemma {:induction false} InsertSorted<T>(key: T -> Key, s: seq<T>, x: T)
    requires SortedOn(key, s)
    ensures SortedOn(key, Insert(key, s, x))
  {
    if |s| > 0 {
      if KeyLess(key(x), key(s[0])) {
        BeforeAll(key, s, x);
        forall i | 0 <= i < |s| ensures !KeyLess(key(s[i]), key(x)) {
          KeyLessAsymmetric(key(x), key(s[i]));
        }
      } else {
        SortedTail(key, s);
        InsertSorted(key, s[1..], x);
        InsertMultiset(key, s[1..], x);
        var r := Insert(key, s[1..], x);
        forall j | 0 <= j < |r| ensures !KeyLess(key(r[j]), key(s[0])) {
          assert r[j] in multiset(r);
          if r[j] != x {
            var k :| 0 <= k < |s[1..]| && s[1..][k] == r[j];
            assert s[k + 1] == r[j];
          }
        }
      }
    }
  }

  /** Inserting into a sorted list adds `x` after every item with its key. */
  lemma {:induction false} InsertKeepsKeyOrder<T>(key: T -> Key, s: seq<T>, x: T, k: Key)
    requires SortedOn(key, s)
    ensures Filter(Insert(key, s, x), HasKey(key, k)) == Filter(s, HasKey(key, k)) + (if key(x) == k then [x] else [])
  {
    var p := HasKey(key, k);
    var e: seq<T> := if key(x) == k then [x] else [];
    if |s| > 0 {
      if KeyLess(key(x), key(s[0])) {
        FilterCons(x, s, p);
        if key(x) == k {
          BeforeAll(key, s, x);
          forall i | 0 <= i < |s| ensures !p(s[i]) {
            KeyLessIrreflexive(key(x));
          }
          FilterNonePass(s, p);
        }
      } else {
        var t := Insert(key, s[1..], x);
        var h: seq<T> := if p(s[0]) then [s[0]] else [];
        SortedTail(key, s);
        InsertKeepsKeyOrder(key, s[1..], x, k);
        assert Filter(t, p) == Filter(s[1..], p) + e;
        FilterCons(s[0], t, p);
        assert Filter(Insert(key, s, x), p) == h + Filter(t, p);
        FilterCons(s[0], s[1..], p);
        assert [s[0]] + s[1..] == s;
        assert Filter(s, p) == h + Filter(s[1..], p);
      }
    }
  }

  lemma {:induction false} SortSorted<T>(key: T -> Key, xs: seq<T>)
    ensures SortedOn(key, SortOn(key, xs))
  {
    if |xs| > 0 {
      SortSorted(key, xs[..|xs| - 1]);
      InsertSorted(key, SortOn(key, xs[..|xs| - 1]), xs[|xs| - 1]);
    }
  }

  lemma {:induction false} SortPermutes<T>(key: T -> Key, xs: seq<T>)
    ensures multiset(SortOn(key, xs)) == multiset(xs)
  {
    if |xs| > 0 {
      var n := |xs| - 1;
      SortPermutes(key, xs[..n]);
      InsertMultiset(key, SortOn(key, xs[..n]), xs[n]);
      assert xs == xs[..n] + [xs[n]];
    }
  }

  /** Items with equal keys come out in the order they went in. */
  lemma {:induction false} SortStable<T>(key: T -> Key, xs: seq<T>, k: Key)
    ensures Filter(SortOn(key, xs), HasKey(key, k)) == Filter(xs, HasKey(key, k))
  {
    if |xs| > 0 {
      var n := |xs| - 1;
      SortStable(key, xs[..n], k);
      SortSorted(key, xs[..n]);
      InsertKeepsKeyOrder(key, SortOn(key, xs[..n]), xs[n], k);
      assert xs == xs[..n] + [xs[n]];
      FilterAppend(xs[..n], [xs[n]], HasKey(key, k));
    }
  }
}
