/**
 * `Array.prototype.sort` as the dashboard uses it (a stable sort, by a numeric
 * key descending or by a string key ascending) and `slice(0, n)`.
 */
module Sorting {
  import opened Text

  /** `x` placed before the first element whose key does not exceed its own. */
  function InsertDesc<T>(x: T, s: seq<T>, key: T -> real): seq<T>
    decreases |s|
  {
    if s == [] || key(x) >= key(s[0]) then [x] + s
    else [s[0]] + InsertDesc(x, s[1..], key)
  }

  /** `s.sort((a, b) => key(b) - key(a))`: descending by key, ties in input order. */
  function SortDesc<T>(s: seq<T>, key: T -> real): seq<T>
    decreases |s|
  {
    if s == [] then [] else InsertDesc(s[0], SortDesc(s[1..], key), key)
  }

  ghost predicate NonIncreasing<T>(s: seq<T>, key: T -> real) {
    forall i, j :: 0 <= i < j < |s| ==> key(s[i]) >= key(s[j])
  }

  ghost predicate AllAtMost<T>(s: seq<T>, key: T -> real, b: real) {
    forall j :: 0 <= j < |s| ==> key(s[j]) <= b
  }

  /** Inserting keeps the elements. */
  lemma {:induction false} InsertDescPerm<T>(x: T, s: seq<T>, key: T -> real)
    ensures multiset(InsertDesc(x, s, key)) == multiset([x] + s)
    decreases |s|
  {
    if s != [] && key(x) < key(s[0]) {
      InsertDescPerm(x, s[1..], key);
      assert s == [s[0]] + s[1..];
    }
  }

  /** Inserting an element no larger than a bound into elements no larger than it keeps the bound. */
  lemma {:induction false} InsertDescBound<T>(x: T, s: seq<T>, key: T -> real, b: real)
    requires key(x) <= b && AllAtMost(s, key, b)
    ensures AllAtMost(InsertDesc(x, s, key), key, b)
    decreases |s|
  {
    if s != [] && key(x) < key(s[0]) {
      assert AllAtMost(s[1..], key, b) by {
        forall j | 0 <= j < |s[1..]| ensures key(s[1..][j]) <= b { assert s[1..][j] == s[j + 1]; }
      }
      InsertDescBound(x, s[1..], key, b);
    }
  }

  /** Inserting into a non-increasing list keeps it non-increasing. */
  lemma {:induction false} InsertDescOrder<T>(x: T, s: seq<T>, key: T -> real)
    requires NonIncreasing(s, key)
    ensures NonIncreasing(InsertDesc(x, s, key), key)
    decreases |s|
  {
    if s == [] || key(x) >= key(s[0]) {
      var r := [x] + s;
      forall i, j | 0 <= i < j < |r| ensures key(r[i]) >= key(r[j]) {
        if i > 0 { assert r[i] == s[i - 1] && r[j] == s[j - 1]; }
        else { assert r[j] == s[j - 1]; }
      }
    } else {
      var rest := s[1..];
      assert NonIncreasing(rest, key) by {
        forall i, j | 0 <= i < j < |rest| ensures key(rest[i]) >= key(rest[j]) {
          assert rest[i] == s[i + 1] && rest[j] == s[j + 1];
        }
      }
      assert AllAtMost(rest, key, key(s[0])) by {
        forall j | 0 <= j < |rest| ensures key(rest[j]) <= key(s[0]) { assert rest[j] == s[j + 1]; }
      }
      InsertDescOrder(x, rest, key);
      InsertDescBound(x, rest, key, key(s[0]));
      var t := InsertDesc(x, rest, key);
      var r := [s[0]] + t;
      assert InsertDesc(x, s, key) == r;
      forall i, j | 0 <= i < j < |r| ensures key(r[i]) >= key(r[j]) {
        assert r[j] == t[j - 1];
        if i > 0 { assert r[i] == t[i - 1]; }
      }
    }
  }

  lemma {:induction false} SortDescPerm<T>(s: seq<T>, key: T -> real)
    ensures multiset(SortDesc(s, key)) == multiset(s)
    decreases |s|
  {
    if s != [] {
      SortDescPerm(s[1..], key);
      InsertDescPerm(s[0], SortDesc(s[1..], key), key);
      assert s == [s[0]] + s[1..];
    }
  }

  lemma {:induction false} SortDescOrder<T>(s: seq<T>, key: T -> real)
    ensures NonIncreasing(SortDesc(s, key), key)
    decreases |s|
  {
    if s != [] {
      SortDescOrder(s[1..], key);
      InsertDescOrder(s[0], SortDesc(s[1..], key), key);
    }
  }

  /** The sorted copy holds the same elements, in non-increasing key order. */
  lemma SortDescProps<T>(s: seq<T>, key: T -> real)
    ensures multiset(SortDesc(s, key)) == multiset(s)
    ensures NonIncreasing(SortDesc(s, key), key)
    ensures |SortDesc(s, key)| == |s|
  {
    SortDescPerm(s, key);
    SortDescOrder(s, key);
    assert |multiset(SortDesc(s, key))| == |SortDesc(s, key)|;
  }

  /** Sorting a list that is already in non-increasing order leaves it as it is: the sort is stable. */
  lemma {:induction false} SortDescSorted<T>(s: seq<T>, key: T -> real)
    requires NonIncreasing(s, key)
    ensures SortDesc(s, key) == s
    decreases |s|
  {
    if s != [] {
      SortDescSorted(s[1..], key);
      assert s == [s[0]] + s[1..];
    }
  }

  /** `x` placed before the first element whose key is not smaller than its own. */
  function InsertAsc<T>(x: T, s: seq<T>, key: T -> string): seq<T>
    decreases |s|
  {
    if s == [] || !Less(key(s[0]), key(x)) then [x] + s
    else [s[0]] + InsertAsc(x, s[1..], key)
  }

  /** `s.sort((a, b) => key(a) < key(b) ? -1 : 1)`: ascending by the string key. */
  function SortAsc<T>(s: seq<T>, key: T -> string): seq<T>
    decreases |s|
  {
    if s == [] then [] else InsertAsc(s[0], SortAsc(s[1..], key), key)
  }

  ghost predicate NonDecreasing<T>(s: seq<T>, key: T -> string) {
    forall i, j :: 0 <= i < j < |s| ==> !Less(key(s[j]), key(s[i]))
  }

  ghost predicate AllNotBelow<T>(s: seq<T>, key: T -> string, b: string) {
    forall j :: 0 <= j < |s| ==> !Less(key(s[j]), b)
  }

  lemma {:induction false} InsertAscPerm<T>(x: T, s: seq<T>, key: T -> string)
    ensures multiset(InsertAsc(x, s, key)) == multiset([x] + s)
    decreases |s|
  {
    if s != [] && Less(key(s[0]), key(x)) {
      InsertAscPerm(x, s[1..], key);
      assert s == [s[0]] + s[1..];
    }
  }

  lemma {:induction false} InsertAscBound<T>(x: T, s: seq<T>, key: T -> string, b: string)
    requires !Less(key(x), b) && AllNotBelow(s, key, b)
    ensures AllNotBelow(InsertAsc(x, s, key), key, b)
    decreases |s|
  {
    if s != [] && Less(key(s[0]), key(x)) {
      assert AllNotBelow(s[1..], key, b) by {
        forall j | 0 <= j < |s[1..]| ensures !Less(key(s[1..][j]), b) { assert s[1..][j] == s[j + 1]; }
      }
      InsertAscBound(x, s[1..], key, b);
    }
  }

  /** When `x` goes first, no element of a non-decreasing list is below it. */
  lemma AscHead<T>(x: T, s: seq<T>, key: T -> string)
    requires NonDecreasing(s, key) && s != [] && !Less(key(s[0]), key(x))
    ensures AllNotBelow(s, key, key(x))
  {
    forall j | 0 <= j < |s| ensures !Less(key(s[j]), key(x)) {
      if Less(key(s[j]), key(x)) {
        assert j > 0 && !Less(key(s[j]), key(s[0]));
        LessTotal(key(s[j]), key(s[0]));
        if key(s[j]) != key(s[0]) {
          LessTransitive(key(s[0]), key(s[j]), key(x));
        }
      }
    }
  }

  lemma {:induction false} InsertAscOrder<T>(x: T, s: seq<T>, key: T -> string)
    requires NonDecreasing(s, key)
    ensures NonDecreasing(InsertAsc(x, s, key), key)
    decreases |s|
  {
    if s == [] || !Less(key(s[0]), key(x)) {
      if s != [] { AscHead(x, s, key); }
      var r := [x] + s;
      forall i, j | 0 <= i < j < |r| ensures !Less(key(r[j]), key(r[i])) {
        assert r[j] == s[j - 1];
        if i > 0 { assert r[i] == s[i - 1]; }
      }
    } else {
      var rest := s[1..];
      assert NonDecreasing(rest, key) by {
        forall i, j | 0 <= i < j < |rest| ensures !Less(key(rest[j]), key(rest[i])) {
          assert rest[i] == s[i + 1] && rest[j] == s[j + 1];
        }
      }
      assert AllNotBelow(rest, key, key(s[0])) by {
        forall j | 0 <= j < |rest| ensures !Less(key(rest[j]), key(s[0])) { assert rest[j] == s[j + 1]; }
      }
      LessAsymmetric(key(s[0]), key(x));
      InsertAscOrder(x, rest, key);
      InsertAscBound(x, rest, key, key(s[0]));
      var t := InsertAsc(x, rest, key);
      var r := [s[0]] + t;
      assert InsertAsc(x, s, key) == r;
      forall i, j | 0 <= i < j < |r| ensures !Less(key(r[j]), key(r[i])) {
        assert r[j] == t[j - 1];
        if i > 0 { assert r[i] == t[i - 1]; }
      }
    }
  }

  lemma {:induction false} SortAscPerm<T>(s: seq<T>, key: T -> string)
    ensures multiset(SortAsc(s, key)) == multiset(s)
    decreases |s|
  {
    if s != [] {
      SortAscPerm(s[1..], key);
      InsertAscPerm(s[0], SortAsc(s[1..], key), key);
      assert s == [s[0]] + s[1..];
    }
  }

  lemma {:induction false} SortAscOrder<T>(s: seq<T>, key: T -> string)
    ensures NonDecreasing(SortAsc(s, key), key)
    decreases |s|
  {
    if s != [] {
      SortAscOrder(s[1..], key);
      InsertAscOrder(s[0], SortAsc(s[1..], key), key);
    }
  }

  /** The sorted copy holds the same elements, in non-decreasing key order. */
  lemma SortAscProps<T>(s: seq<T>, key: T -> string)
    ensures multiset(SortAsc(s, key)) == multiset(s)
    ensures NonDecreasing(SortAsc(s, key), key)
    ensures |SortAsc(s, key)| == |s|
  {
    SortAscPerm(s, key);
    SortAscOrder(s, key);
    assert |multiset(SortAsc(s, key))| == |SortAsc(s, key)|;
  }

  /** When the keys are pairwise different, the ascending order is strict. */
  lemma StrictWhenDistinct<T>(s: seq<T>, key: T -> string)
    requires NonDecreasing(s, key)
    requires forall i, j :: 0 <= i < j < |s| ==> key(s[i]) != key(s[j])
    ensures forall i, j :: 0 <= i < j < |s| ==> Less(key(s[i]), key(s[j]))
  {
    forall i, j | 0 <= i < j < |s| ensures Less(key(s[i]), key(s[j])) {
      LessTotal(key(s[i]), key(s[j]));
    }
  }

  /** `s.slice(0, n)`: the first `n` elements, or all of them when there are fewer. */
  function Take<T>(s: seq<T>, n: nat): (r: seq<T>)
    ensures |r| <= n && |r| <= |s|
    ensures |s| > n ==> |r| == n
    ensures r == s[..|r|]
    ensures |s| <= n ==> r == s
  {
    if |s| <= n then s else s[..n]
  }

  /** A prefix of a sorted list is sorted. */
  lemma TakeNonIncreasing<T>(s: seq<T>, n: nat, key: T -> real)
    requires NonIncreasing(s, key)
    ensures NonIncreasing(Take(s, n), key)
  {
  }

  lemma TakeNonDecreasing<T>(s: seq<T>, n: nat, key: T -> string)
    requires NonDecreasing(s, key)
    ensures NonDecreasing(Take(s, n), key)
  {
  }

  /** The kept elements are the `n` largest: none left out has a larger key than one kept. */
  lemma TakeTop<T>(s: seq<T>, n: nat, key: T -> real)
    requires NonIncreasing(s, key)
    ensures forall i, j :: 0 <= i < |Take(s, n)| <= j < |s| ==> key(Take(s, n)[i]) >= key(s[j])
  {
  }

  /** No two elements have the same name. */
  ghost predicate DistinctBy<T>(s: seq<T>, name: T -> string) {
    forall i, j :: 0 <= i < j < |s| ==> name(s[i]) != name(s[j])
  }

  lemma {:induction false} DistinctCount<T>(s: seq<T>, name: T -> string, x: T)
    requires DistinctBy(s, name)
    ensures multiset(s)[x] <= 1
    decreases |s|
  {
    if s != [] {
      var init := s[..|s| - 1];
      assert s == init + [s[|s| - 1]];
      DistinctCount(init, name, x);
    }
  }

  lemma TwiceCount<T>(s: seq<T>, i: nat, j: nat)
    requires i < j < |s| && s[i] == s[j]
    ensures multiset(s)[s[i]] >= 2
  {
    assert s == s[..j] + s[j..];
    assert s[i] in s[..j];
    assert s[j] in s[j..];
  }

  /** A reordering of a list with distinct names has distinct names. */
  lemma PermutationDistinct<T>(s: seq<T>, t: seq<T>, name: T -> string)
    requires DistinctBy(s, name) && multiset(t) == multiset(s)
    ensures DistinctBy(t, name)
  {
    forall i, j | 0 <= i < j < |t| ensures name(t[i]) != name(t[j]) {
      if name(t[i]) == name(t[j]) {
        assert t[i] in multiset(s) && t[j] in multiset(s);
        var p :| 0 <= p < |s| && s[p] == t[i];
        var q :| 0 <= q < |s| && s[q] == t[j];
        assert p == q;
        TwiceCount(t, i, j);
        DistinctCount(s, name, t[i]);
        assert false;
      }
    }
  }

  /**
   * `rows.sort(byKeyDescending).slice(0, n)` on rows with distinct names:
   * exactly `n` rows, or all when there are fewer, in non-increasing key order, all from `rows`, still
   * distinct, none left out larger than one kept, and all of them when there
   * are no more than `n`.
   */
  lemma TopRows<T>(rows: seq<T>, key: T -> real, name: T -> string, n: nat)
    requires DistinctBy(rows, name)
    ensures var sorted := SortDesc(rows, key); var r := Take(sorted, n);
      |r| == (if |rows| <= n then |rows| else n) && NonIncreasing(r, key) && DistinctBy(r, name) &&
      (forall x :: x in r ==> x in rows) &&
      (forall i, j :: 0 <= i < |r| <= j < |sorted| ==> key(r[i]) >= key(sorted[j])) &&
      multiset(sorted) == multiset(rows) &&
      (|rows| <= n ==> multiset(r) == multiset(rows))
  {
    var sorted := SortDesc(rows, key);
    SortDescProps(rows, key);
    PermutationDistinct(rows, sorted, name);
    var r := Take(sorted, n);
    forall x | x in r ensures x in rows {
      assert x in multiset(sorted);
    }
  }
}
