/**
 * Sorting in descending order of a numeric key, as
 * `array.sort((a, b) => key(b) - key(a))` does for finite keys.
 *
 * Array#sort is stable, and a stable sort's result is determined by its
 * input (StableSortIsSortDesc), so any stable algorithm models it;
 * insertion sort is used here.
 */
module Ordering {

  /** Keys never increase along `s`. */
  predicate SortedDesc<T>(s: seq<T>, key: T -> real) {
    forall i, j :: 0 <= i < j < |s| ==> key(s[i]) >= key(s[j])
  }

  /** Keys strictly decrease along `s`. */
  predicate StrictlyDesc<T>(s: seq<T>, key: T -> real) {
    forall i, j :: 0 <= i < j < |s| ==> key(s[i]) > key(s[j])
  }

  /** No two elements of `s` share a key. */
  predicate DistinctKeys<T>(s: seq<T>, key: T -> real) {
    forall i, j :: 0 <= i < j < |s| ==> key(s[i]) != key(s[j])
  }

  /** The keys occurring in `s`. */
  ghost function Keys<T>(s: seq<T>, key: T -> real): set<real> {
    set x | x in s :: key(x)
  }

  /** The elements of `s` whose key is `v`, in their order in `s`. */
  function WithKey<T>(s: seq<T>, key: T -> real, v: real): (r: seq<T>)
    ensures |r| <= |s|
  {
    if |s| == 0 then [] else (if key(s[0]) == v then [s[0]] else []) + WithKey(s[1..], key, v)
  }

  /**
   * `r` lists the elements of each key in the order `s` does: what a stable
   * sort keeps.
   */
  ghost predicate KeepsEqualKeyOrder<T>(s: seq<T>, r: seq<T>, key: T -> real) {
    forall v :: WithKey(r, key, v) == WithKey(s, key, v)
  }

  lemma {:induction false} WithKeyConcat<T>(a: seq<T>, b: seq<T>, key: T -> real, v: real)
    ensures WithKey(a + b, key, v) == WithKey(a, key, v) + WithKey(b, key, v)
  {
    if |a| > 0 {
      assert (a + b)[0] == a[0];
      assert (a + b)[1..] == a[1..] + b;
      WithKeyConcat(a[1..], b, key, v);
    } else {
      assert a + b == b;
    }
  }

  /** A sequence without the key `v` has no elements of that key. */
  lemma {:induction false} WithKeyNone<T>(s: seq<T>, key: T -> real, v: real)
    requires forall i :: 0 <= i < |s| ==> key(s[i]) != v
    ensures WithKey(s, key, v) == []
  {
    if |s| > 0 {
      WithKeyNone(s[1..], key, v);
    }
  }

  /** `x` inserted after every element whose key is at least its own. */
  function InsertDesc<T>(s: seq<T>, x: T, key: T -> real): (r: seq<T>)
    ensures |r| == |s| + 1
    ensures multiset(r) == multiset(s) + multiset{x}
  {
    if |s| == 0 then [x]
    else if key(x) > key(s[0]) then [x] + s
    else
      assert s == [s[0]] + s[1..];
      [s[0]] + InsertDesc(s[1..], x, key)
  }

  /** Every element of an insertion is the inserted one or an element of the original. */
  lemma InsertElements<T>(s: seq<T>, x: T, key: T -> real)
    ensures forall y :: y in InsertDesc(s, x, key) ==> y == x || y in s
  {
    forall y | y in InsertDesc(s, x, key) ensures y == x || y in s {
      assert y in multiset(InsertDesc(s, x, key));
    }
  }

  /** Insertion keeps a sorted sequence sorted. */
  lemma {:induction false} InsertKeepsSorted<T>(s: seq<T>, x: T, key: T -> real)
    requires SortedDesc(s, key)
    ensures SortedDesc(InsertDesc(s, x, key), key)
  {
    if |s| > 0 && key(x) <= key(s[0]) {
      var rest := InsertDesc(s[1..], x, key);
      InsertKeepsSorted(s[1..], x, key);
      InsertElements(s[1..], x, key);
      forall j | 0 <= j < |rest| ensures key(s[0]) >= key(rest[j]) {
        assert rest[j] in rest;
        if rest[j] != x {
          var k :| 0 <= k < |s[1..]| && s[1..][k] == rest[j];
          assert s[k + 1] == rest[j];
        }
      }
    }
  }

  /**
   * Insertion into a sorted sequence puts `x` after every element of its
   * key and moves no other element relative to the rest of its key.
   */
  lemma {:induction false} InsertWithKey<T>(s: seq<T>, x: T, key: T -> real, v: real)
    requires SortedDesc(s, key)
    ensures WithKey(InsertDesc(s, x, key), key, v) == WithKey(s, key, v) + WithKey([x], key, v)
  {
    if |s| == 0 {
    } else if key(x) > key(s[0]) {
      assert ([x] + s)[1..] == s;
      if key(x) == v {
        NoneAboveHead(s, key, v);
      }
    } else {
      var rest := InsertDesc(s[1..], x, key);
      assert InsertDesc(s, x, key) == [s[0]] + rest;
      WithKeyConcat([s[0]], rest, key, v);
      assert s == [s[0]] + s[1..];
      WithKeyConcat([s[0]], s[1..], key, v);
      SortedTail(s, key);
      InsertWithKey(s[1..], x, key, v);
      assert WithKey([s[0]], key, v) + (WithKey(s[1..], key, v) + WithKey([x], key, v))
          == (WithKey([s[0]], key, v) + WithKey(s[1..], key, v)) + WithKey([x], key, v);
    }
  }

  lemma SortedTail<T>(s: seq<T>, key: T -> real)
    requires |s| > 0 && SortedDesc(s, key)
    ensures SortedDesc(s[1..], key)
  {
    forall i, j | 0 <= i < j < |s| - 1 ensures key(s[1..][i]) >= key(s[1..][j]) {
      assert s[1..][i] == s[i + 1] && s[1..][j] == s[j + 1];
    }
  }

  /** A sorted sequence has no element of a key above its first. */
  lemma NoneAboveHead<T>(s: seq<T>, key: T -> real, v: real)
    requires |s| > 0 && SortedDesc(s, key) && v > key(s[0])
    ensures WithKey(s, key, v) == []
  {
    forall i | 0 <= i < |s| ensures key(s[i]) != v {
      if i > 0 {
        assert key(s[0]) >= key(s[i]);
      }
    }
    WithKeyNone(s, key, v);
  }

  lemma InsertKeepsEqualKeyOrder<T>(s: seq<T>, x: T, key: T -> real)
    requires SortedDesc(s, key)
    ensures forall v :: WithKey(InsertDesc(s, x, key), key, v) == WithKey(s, key, v) + WithKey([x], key, v)
  {
    forall v ensures WithKey(InsertDesc(s, x, key), key, v) == WithKey(s, key, v) + WithKey([x], key, v) {
      InsertWithKey(s, x, key, v);
    }
  }

  lemma AppendWithKey<T>(s: seq<T>, x: T, key: T -> real)
    ensures forall v :: WithKey(s + [x], key, v) == WithKey(s, key, v) + WithKey([x], key, v)
  {
    forall v ensures WithKey(s + [x], key, v) == WithKey(s, key, v) + WithKey([x], key, v) {
      WithKeyConcat(s, [x], key, v);
    }
  }

  /** Insertion of a new key keeps a strictly sorted sequence strictly sorted. */
  lemma {:induction false} InsertKeepsStrict<T>(s: seq<T>, x: T, key: T -> real)
    requires StrictlyDesc(s, key) && key(x) !in Keys(s, key)
    ensures StrictlyDesc(InsertDesc(s, x, key), key)
  {
    if |s| > 0 && key(x) <= key(s[0]) {
      var rest := InsertDesc(s[1..], x, key);
      assert key(x) != key(s[0]) by { assert s[0] in s; }
      assert key(x) !in Keys(s[1..], key) by {
        forall y | y in s[1..] ensures key(y) != key(x) { assert y in s; }
      }
      InsertKeepsStrict(s[1..], x, key);
      InsertElements(s[1..], x, key);
      forall j | 0 <= j < |rest| ensures key(s[0]) > key(rest[j]) {
        assert rest[j] in rest;
        if rest[j] != x {
          var k :| 0 <= k < |s[1..]| && s[1..][k] == rest[j];
          assert s[k + 1] == rest[j];
        }
      }
    }
  }

  /**
   * The stable sorted arrangement of `s`: a permutation of it whose keys
   * never increase, with the elements of each key in their order in `s`.
   */
  function SortDesc<T>(s: seq<T>, key: T -> real): (r: seq<T>)
    ensures |r| == |s|
    ensures multiset(r) == multiset(s)
    ensures SortedDesc(r, key)
    ensures KeepsEqualKeyOrder(s, r, key)
  {
    if |s| == 0 then []
    else
      var init, last := s[..|s| - 1], s[|s| - 1];
      assert s == init + [last];
      var sorted := SortDesc(init, key);
      InsertKeepsSorted(sorted, last, key);
      InsertKeepsEqualKeyOrder(sorted, last, key);
      AppendWithKey(init, last, key);
      InsertDesc(sorted, last, key)
  }

  /** An element's key selects at least that element. */
  lemma {:induction false} WithKeyOfElement<T>(s: seq<T>, key: T -> real, i: nat)
    requires i < |s|
    ensures WithKey(s, key, key(s[i])) != []
  {
    if i > 0 {
      WithKeyOfElement(s[1..], key, i - 1);
    }
  }

  /** A key that selects something is the key of some element. */
  lemma WithKeyWitness<T>(s: seq<T>, key: T -> real, v: real) returns (i: nat)
    requires WithKey(s, key, v) != []
    ensures i < |s| && key(s[i]) == v
  {
    if forall j :: 0 <= j < |s| ==> key(s[j]) != v {
      WithKeyNone(s, key, v);
      assert false;
    }
    i :| 0 <= i < |s| && key(s[i]) == v;
  }

  /** Sequences with the same elements of every key have the same greatest key first. */
  lemma SameLeadingKey<T>(r1: seq<T>, r2: seq<T>, key: T -> real)
    requires |r1| > 0 && SortedDesc(r1, key) && SortedDesc(r2, key)
    requires forall v :: WithKey(r1, key, v) == WithKey(r2, key, v)
    ensures |r2| > 0 && key(r1[0]) == key(r2[0])
  {
    WithKeyOfElement(r1, key, 0);
    var i := WithKeyWitness(r2, key, key(r1[0]));
    WithKeyOfElement(r2, key, 0);
    var j := WithKeyWitness(r1, key, key(r2[0]));
    if i > 0 { assert key(r2[0]) >= key(r2[i]); }
    if j > 0 { assert key(r1[0]) >= key(r1[j]); }
  }

  /**
   * A stable descending order is unique: two sorted sequences with the same
   * elements of every key, in the same order, are equal.
   */
  lemma {:induction false} StableSortUnique<T>(r1: seq<T>, r2: seq<T>, key: T -> real)
    requires SortedDesc(r1, key) && SortedDesc(r2, key)
    requires forall v :: WithKey(r1, key, v) == WithKey(r2, key, v)
    ensures r1 == r2
    decreases |r1| + |r2|
  {
    if |r1| > 0 {
      SameLeadingKey(r1, r2, key);
      assert r1[0] == r2[0] by {
        assert WithKey(r1, key, key(r1[0]))[0] == r1[0];
        assert WithKey(r2, key, key(r2[0]))[0] == r2[0];
      }
      forall v ensures WithKey(r1[1..], key, v) == WithKey(r2[1..], key, v) {
        var h := if key(r1[0]) == v then [r1[0]] else [];
        var t1, t2 := WithKey(r1[1..], key, v), WithKey(r2[1..], key, v);
        assert h + t1 == WithKey(r1, key, v) == WithKey(r2, key, v) == h + t2;
        assert (h + t1)[|h|..] == t1 && (h + t2)[|h|..] == t2;
      }
      SortedTail(r1, key);
      SortedTail(r2, key);
      StableSortUnique(r1[1..], r2[1..], key);
      assert r1 == [r1[0]] + r1[1..] && r2 == [r2[0]] + r2[1..];
    } else if |r2| > 0 {
      SameLeadingKey(r2, r1, key);
    }
  }

  /** Every stable descending sort of `s` gives what SortDesc gives. */
  lemma StableSortIsSortDesc<T>(s: seq<T>, r: seq<T>, key: T -> real)
    requires SortedDesc(r, key) && KeepsEqualKeyOrder(s, r, key)
    ensures r == SortDesc(s, key)
  {
    StableSortUnique(r, SortDesc(s, key), key);
  }

  /** Elements of equal multisets have equal key sets. */
  lemma KeysOfPermutation<T>(a: seq<T>, b: seq<T>, key: T -> real)
    requires multiset(a) == multiset(b)
    ensures Keys(a, key) == Keys(b, key)
  {
    forall x ensures x in a <==> x in b {
      assert x in a <==> x in multiset(a);
      assert x in b <==> x in multiset(b);
    }
  }

  /** Sorting a sequence whose keys are distinct gives strictly decreasing keys. */
  lemma {:induction false} SortDescStrict<T>(s: seq<T>, key: T -> real)
    requires DistinctKeys(s, key)
    ensures StrictlyDesc(SortDesc(s, key), key)
  {
    if |s| > 0 {
      var init, last := s[..|s| - 1], s[|s| - 1];
      assert s == init + [last];
      SortDescStrict(init, key);
      KeysOfPermutation(SortDesc(init, key), init, key);
      assert key(last) !in Keys(init, key) by {
        forall y | y in init ensures key(y) != key(last) {
          var i :| 0 <= i < |init| && init[i] == y;
          assert s[i] == y;
        }
      }
      InsertKeepsStrict(SortDesc(init, key), last, key);
    }
  }

  /** Sorting a sequence that is already in order changes nothing. */
  lemma {:induction false} SortDescOfSorted<T>(s: seq<T>, key: T -> real)
    requires SortedDesc(s, key)
    ensures SortDesc(s, key) == s
  {
    if |s| > 0 {
      var init, last := s[..|s| - 1], s[|s| - 1];
      SortDescOfSorted(init, key);
      InsertAtEnd(init, last, key);
      assert init + [last] == s;
    }
  }

  /** Inserting an element no greater than any other appends it. */
  lemma {:induction false} InsertAtEnd<T>(s: seq<T>, x: T, key: T -> real)
    requires forall i :: 0 <= i < |s| ==> key(s[i]) >= key(x)
    ensures InsertDesc(s, x, key) == s + [x]
  {
    if |s| > 0 {
      InsertAtEnd(s[1..], x, key);
      assert s == [s[0]] + s[1..];
    }
  }
}
