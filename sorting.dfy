/**
 * `[...xs].sort((a, b) => compare(key(a), key(b)))` for a comparator that only
 * looks at one key of each element. JavaScript's sort is stable; this is an
 * insertion sort that places each element after every element whose key is not
 * greater, so it is stable too.
 */
module Sorting {
  import opened JsText

  /** `le` is total and transitive: what a sort comparator must be. */
  ghost predicate TotalPreorder<K(!new)>(le: (K, K) -> bool) {
    && (forall a, b :: le(a, b) || le(b, a))
    && (forall a, b, c :: le(a, b) && le(b, c) ==> le(a, c))
  }

  predicate SortedByKey<T, K>(s: seq<T>, key: T -> K, le: (K, K) -> bool) {
    forall i, j :: 0 <= i < j < |s| ==> le(key(s[i]), key(s[j]))
  }

  /** `x` placed into the sorted `s` after every element whose key is not greater than its own. */
  function InsertByKey<T, K(!new)>(s: seq<T>, x: T, key: T -> K, le: (K, K) -> bool): (r: seq<T>)
    requires TotalPreorder(le) && SortedByKey(s, key, le)
    ensures multiset(r) == multiset(s) + multiset{x}
    ensures |r| == |s| + 1
    ensures SortedByKey(r, key, le)
  {
    if s == [] || le(key(s[|s| - 1]), key(x)) then
      s + [x]
    else
      var init, last := s[..|s| - 1], s[|s| - 1];
      assert s == init + [last];
      var r' := InsertByKey(init, x, key, le);
      InsertedBelowLast(s, x, r', key, le);
      r' + [last]
  }

  /** Every element of the recursive insertion has a key not above the last element's. */
  lemma InsertedBelowLast<T, K(!new)>(s: seq<T>, x: T, r': seq<T>, key: T -> K, le: (K, K) -> bool)
    requires TotalPreorder(le) && SortedByKey(s, key, le)
    requires s != [] && !le(key(s[|s| - 1]), key(x))
    requires multiset(r') == multiset(s[..|s| - 1]) + multiset{x}
    requires SortedByKey(r', key, le)
    ensures SortedByKey(r' + [s[|s| - 1]], key, le)
  {
    var init, last := s[..|s| - 1], s[|s| - 1];
    forall i | 0 <= i < |r'| ensures le(key(r'[i]), key(last)) {
      assert r'[i] in multiset(r');
      if r'[i] != x {
        assert r'[i] in multiset(init);
        var k :| 0 <= k < |init| && init[k] == r'[i];
        assert s[k] == init[k];
      }
    }
    var r := r' + [last];
    forall i, j | 0 <= i < j < |r| ensures le(key(r[i]), key(r[j])) {
      if j == |r'| {
        assert r[i] == r'[i];
      } else {
        assert r[i] == r'[i] && r[j] == r'[j];
      }
    }
  }

  /** The stable sort of `s` by `key` under `le`: a permutation of `s`, in order. */
  function SortByKey<T, K(!new)>(s: seq<T>, key: T -> K, le: (K, K) -> bool): (r: seq<T>)
    requires TotalPreorder(le)
    ensures multiset(r) == multiset(s)
    ensures |r| == |s|
    ensures SortedByKey(r, key, le)
  {
    if s == [] then []
    else
      assert s == s[..|s| - 1] + [s[|s| - 1]];
      InsertByKey(SortByKey(s[..|s| - 1], key, le), s[|s| - 1], key, le)
  }

  /** `xs.map(f)`. */
  function MapSeq<A, B>(f: A -> B, s: seq<A>): (r: seq<B>)
    ensures |r| == |s|
    ensures forall i :: 0 <= i < |s| ==> r[i] == f(s[i])
  {
    seq(|s|, i requires 0 <= i < |s| => f(s[i]))
  }

  /** Inserting commutes with a map that keeps the keys. */
  lemma {:induction false} InsertByKeyMap<A, B, K(!new)>(t: seq<A>, x: A, f: A -> B, keyA: A -> K, keyB: B -> K,
                                                         le: (K, K) -> bool)
    requires TotalPreorder(le) && SortedByKey(t, keyA, le)
    requires forall y :: keyB(f(y)) == keyA(y)
    ensures SortedByKey(MapSeq(f, t), keyB, le)
    ensures InsertByKey(MapSeq(f, t), f(x), keyB, le) == MapSeq(f, InsertByKey(t, x, keyA, le))
  {
    var ft := MapSeq(f, t);
    assert SortedByKey(ft, keyB, le) by {
      forall i, j | 0 <= i < j < |ft| ensures le(keyB(ft[i]), keyB(ft[j])) {
        assert keyB(ft[i]) == keyA(t[i]) && keyB(ft[j]) == keyA(t[j]);
      }
    }
    if t == [] || le(keyA(t[|t| - 1]), keyA(x)) {
      assert ft == [] || keyB(ft[|ft| - 1]) == keyA(t[|t| - 1]);
      assert MapSeq(f, t + [x]) == ft + [f(x)];
    } else {
      var init, last := t[..|t| - 1], t[|t| - 1];
      assert SortedByKey(init, keyA, le);
      InsertByKeyMap(init, x, f, keyA, keyB, le);
      assert ft[..|ft| - 1] == MapSeq(f, init) && ft[|ft| - 1] == f(last);
      var r := InsertByKey(init, x, keyA, le);
      assert MapSeq(f, r + [last]) == MapSeq(f, r) + [f(last)];
    }
  }

  /** Sorting commutes with a map that keeps the keys: sorting the mapped list
      is mapping the sorted list. */
  lemma {:induction false} SortByKeyMap<A, B, K(!new)>(s: seq<A>, f: A -> B, keyA: A -> K, keyB: B -> K,
                                                       le: (K, K) -> bool)
    requires TotalPreorder(le)
    requires forall y :: keyB(f(y)) == keyA(y)
    ensures SortByKey(MapSeq(f, s), keyB, le) == MapSeq(f, SortByKey(s, keyA, le))
  {
    if s != [] {
      var fs := MapSeq(f, s);
      var init, last := s[..|s| - 1], s[|s| - 1];
      assert fs[..|fs| - 1] == MapSeq(f, init) && fs[|fs| - 1] == f(last);
      SortByKeyMap(init, f, keyA, keyB, le);
      InsertByKeyMap(SortByKey(init, keyA, le), last, f, keyA, keyB, le);
    }
  }

  predicate NoDuplicates<T(==)>(s: seq<T>) {
    forall i, j :: 0 <= i < j < |s| ==> s[i] != s[j]
  }

  lemma {:induction false} NoDuplicatesCount<T>(s: seq<T>, x: T)
    requires NoDuplicates(s)
    ensures multiset(s)[x] <= 1
  {
    if s != [] {
      assert s == [s[0]] + s[1..];
      assert NoDuplicates(s[1..]) by {
        forall i, j | 0 <= i < j < |s[1..]| ensures s[1..][i] != s[1..][j] {
          assert s[1..][i] == s[i + 1] && s[1..][j] == s[j + 1];
        }
      }
      NoDuplicatesCount(s[1..], x);
      if s[0] == x {
        assert x !in s[1..] by {
          forall k | 0 <= k < |s[1..]| ensures s[1..][k] != x {
            assert s[1..][k] == s[k + 1];
          }
        }
      }
    }
  }

  /** An element at two positions occurs at least twice. */
  lemma RepeatedCountsTwice<T>(s: seq<T>, i: nat, j: nat)
    requires i < j < |s|
    ensures s[i] == s[j] ==> multiset(s)[s[i]] >= 2
  {
    assert s == s[..j] + s[j..];
    assert s[i] in multiset(s[..j]) && s[j] in multiset(s[j..]);
  }

  /** A list in which nothing occurs twice has no duplicates. */
  lemma CountsAtMostOneNoDuplicates<T>(s: seq<T>)
    requires forall x :: multiset(s)[x] <= 1
    ensures NoDuplicates(s)
  {
    forall i, j | 0 <= i < j < |s| ensures s[i] != s[j] {
      RepeatedCountsTwice(s, i, j);
    }
  }

  /** A permutation of a list without duplicates has none either. */
  lemma PermutationKeepsNoDuplicates<T>(p: seq<T>, r: seq<T>)
    requires NoDuplicates(p) && multiset(r) == multiset(p)
    ensures NoDuplicates(r)
  {
    forall x ensures multiset(r)[x] <= 1 {
      NoDuplicatesCount(p, x);
    }
    CountsAtMostOneNoDuplicates(r);
  }

  /** `a >= b` on integers: the order of a descending sort. */
  predicate IntGe(a: int, b: int) {
    a >= b
  }

  lemma IntGeIsTotalPreorder()
    ensures TotalPreorder(IntGe)
  {
  }

  /** Code-unit order on strings is a total preorder. */
  lemma CodePointLeIsTotalPreorder()
    ensures TotalPreorder(CodePointLe)
  {
    forall a, b ensures CodePointLe(a, b) || CodePointLe(b, a) {
      CodePointLeTotal(a, b);
    }
    forall a, b, c | CodePointLe(a, b) && CodePointLe(b, c) ensures CodePointLe(a, c) {
      CodePointLeTransitive(a, b, c);
    }
  }

  /** The string order used for `localeCompare` is a total preorder. */
  lemma LocaleLeIsTotalPreorder()
    ensures TotalPreorder(LocaleLe)
  {
    CodePointLeIsTotalPreorder();
    assert forall a, b :: LocaleLe(a, b) == CodePointLe(a, b);
  }
}
