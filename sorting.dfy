/** The two orderings the system relies on: Python's stable
  * `sort(key=..., reverse=True)` on a numeric score, and ascending order of
  * text by code point (Python's `sorted` on strings, SQLite's BINARY
  * collation in `ORDER BY`). Both are insertion sorts on sequences. */
module Sorting {
  import opened Text

  // ------------------------------------------------ descending by a score

  predicate SortedDesc<T>(xs: seq<T>, key: T -> real)
  {
    forall i, j :: 0 <= i < j < |xs| ==> key(xs[i]) >= key(xs[j])
  }

  /** The elements of `xs` whose key is exactly `k`, in order. */
  function WithKey<T>(xs: seq<T>, key: T -> real, k: real): (r: seq<T>)
    ensures |r| <= |xs|
  {
    if |xs| == 0 then []
    else (if key(xs[0]) == k then [xs[0]] else []) + WithKey(xs[1..], key, k)
  }

  /** A head no smaller than the first element keeps a sorted sequence sorted. */
  lemma ConsSortedDesc<T>(h: T, rest: seq<T>, key: T -> real)
    requires SortedDesc(rest, key)
    requires |rest| > 0 ==> key(h) >= key(rest[0])
    ensures SortedDesc([h] + rest, key)
  {
    var r := [h] + rest;
    forall i, j | 0 <= i < j < |r|
      ensures key(r[i]) >= key(r[j])
    {
      if i == 0 {
        assert r[j] == rest[j - 1];
        assert key(rest[0]) >= key(rest[j - 1]) || j - 1 == 0;
      } else {
        assert r[i] == rest[i - 1] && r[j] == rest[j - 1];
      }
    }
  }

  lemma TailSortedDesc<T>(xs: seq<T>, key: T -> real)
    requires |xs| > 0 && SortedDesc(xs, key)
    ensures SortedDesc(xs[1..], key)
  {
    var tail := xs[1..];
    forall i, j | 0 <= i < j < |tail|
      ensures key(tail[i]) >= key(tail[j])
    {
      assert tail[i] == xs[i + 1] && tail[j] == xs[j + 1];
    }
  }

  /** Places `x` after every element whose key is at least its own. */
  function InsertDesc<T>(x: T, xs: seq<T>, key: T -> real): (r: seq<T>)
    ensures |r| == |xs| + 1
    ensures r[0] == x || (|xs| > 0 && r[0] == xs[0])
    decreases |xs|
  {
    if |xs| == 0 then [x]
    else if key(xs[0]) >= key(x) then [xs[0]] + InsertDesc(x, xs[1..], key)
    else [x] + xs
  }

  lemma {:induction false} InsertDescSorted<T>(x: T, xs: seq<T>, key: T -> real)
    requires SortedDesc(xs, key)
    ensures SortedDesc(InsertDesc(x, xs, key), key)
    decreases |xs|
  {
    if |xs| > 0 {
      if key(xs[0]) >= key(x) {
        var tail := xs[1..];
        TailSortedDesc(xs, key);
        InsertDescSorted(x, tail, key);
        var rest := InsertDesc(x, tail, key);
        assert |tail| > 0 ==> key(xs[0]) >= key(tail[0]) by {
          if |tail| > 0 {
            assert tail[0] == xs[1];
          }
        }
        ConsSortedDesc(xs[0], rest, key);
      } else {
        ConsSortedDesc(x, xs, key);
      }
    }
  }

  lemma {:induction false} InsertDescPerm<T>(x: T, xs: seq<T>, key: T -> real)
    ensures multiset(InsertDesc(x, xs, key)) == multiset(xs) + multiset{x}
    decreases |xs|
  {
    if |xs| > 0 {
      if key(xs[0]) >= key(x) {
        var tail := xs[1..];
        InsertDescPerm(x, tail, key);
        assert xs == [xs[0]] + tail;
        assert multiset([xs[0]] + InsertDesc(x, tail, key)) == multiset{xs[0]} + multiset(InsertDesc(x, tail, key));
        assert multiset(xs) == multiset{xs[0]} + multiset(tail);
      } else {
        assert multiset([x] + xs) == multiset{x} + multiset(xs);
      }
    }
  }

  /** `sorted(xs, key=key, reverse=True)`. */
  function SortDesc<T>(xs: seq<T>, key: T -> real): (r: seq<T>)
    ensures SortedDesc(r, key)
    ensures multiset(r) == multiset(xs)
    ensures |r| == |xs|
    decreases |xs|
  {
    if |xs| == 0 then []
    else
      var init := xs[..|xs| - 1];
      var last := xs[|xs| - 1];
      var sorted := SortDesc(init, key);
      InsertDescSorted(last, sorted, key);
      InsertDescPerm(last, sorted, key);
      assert xs == init + [last];
      InsertDesc(last, sorted, key)
  }

  lemma PrefixSorted<T>(s: seq<T>, key: T -> real, m: nat)
    requires m <= |s| && SortedDesc(s, key)
    ensures SortedDesc(s[..m], key)
  {
    var p := s[..m];
    forall i, j | 0 <= i < j < |p|
      ensures key(p[i]) >= key(p[j])
    {
      assert p[i] == s[i] && p[j] == s[j];
    }
  }

  lemma PrefixMultiset<T>(s: seq<T>, m: nat)
    requires m <= |s|
    ensures multiset(s[..m]) <= multiset(s)
  {
    assert s == s[..m] + s[m..];
    assert multiset(s) == multiset(s[..m]) + multiset(s[m..]);
  }

  /** A prefix of the sorted sequence (the best `m`) is sorted and drawn from `xs`. */
  lemma SortedPrefix<T>(xs: seq<T>, key: T -> real, m: nat)
    requires m <= |xs|
    ensures SortedDesc(SortDesc(xs, key)[..m], key)
    ensures multiset(SortDesc(xs, key)[..m]) <= multiset(xs)
  {
    var s := SortDesc(xs, key);
    PrefixSorted(s, key, m);
    PrefixMultiset(s, m);
  }

  /** The best `n` (`sorted(xs, key=key, reverse=True)[:n]`): sorted, drawn
    * from `xs`, and no more than `n` of them. */
  lemma TopOf<T>(xs: seq<T>, key: T -> real, n: int)
    ensures SortedDesc(Take(SortDesc(xs, key), n), key)
    ensures n >= 0 ==> |Take(SortDesc(xs, key), n)| <= n
    ensures n >= |xs| ==> multiset(Take(SortDesc(xs, key), n)) == multiset(xs)
    ensures forall x :: x in Take(SortDesc(xs, key), n) ==> x in xs
  {
    var s := SortDesc(xs, key);
    var r := Take(s, n);
    SortedPrefix(xs, key, |r|);
    if n >= |xs| {
      assert r == s[..|s|] == s;
    }
    forall x | x in r
      ensures x in xs
    {
      assert x in multiset(r);
    }
  }

  lemma {:induction false} WithKeyAppend<T>(a: seq<T>, b: seq<T>, key: T -> real, k: real)
    ensures WithKey(a + b, key, k) == WithKey(a, key, k) + WithKey(b, key, k)
    decreases |a|
  {
    if |a| == 0 {
      assert a + b == b;
    } else {
      var head := if key(a[0]) == k then [a[0]] else [];
      assert (a + b)[0] == a[0] && (a + b)[1..] == a[1..] + b;
      WithKeyAppend(a[1..], b, key, k);
      calc {
        WithKey(a + b, key, k);
        head + WithKey(a[1..] + b, key, k);
        head + (WithKey(a[1..], key, k) + WithKey(b, key, k));
        (head + WithKey(a[1..], key, k)) + WithKey(b, key, k);
      }
    }
  }

  lemma {:induction false} WithKeyInsert<T>(x: T, xs: seq<T>, key: T -> real, k: real)
    requires SortedDesc(xs, key)
    ensures WithKey(InsertDesc(x, xs, key), key, k)
         == WithKey(xs, key, k) + (if key(x) == k then [x] else [])
    decreases |xs|
  {
    if |xs| == 0 {
      WithKeySingle(x, key, k);
    } else if key(xs[0]) >= key(x) {
      var rest := InsertDesc(x, xs[1..], key);
      assert InsertDesc(x, xs, key) == [xs[0]] + rest;
      TailSortedDesc(xs, key);
      WithKeyInsert(x, xs[1..], key, k);
      WithKeyAppend([xs[0]], rest, key, k);
      WithKeyAppend([xs[0]], xs[1..], key, k);
      WithKeySingle(xs[0], key, k);
      assert [xs[0]] + xs[1..] == xs;
    } else {
      assert InsertDesc(x, xs, key) == [x] + xs;
      WithKeyAppend([x], xs, key, k);
      WithKeySingle(x, key, k);
      if key(x) == k {
        forall i | 0 <= i < |xs|
          ensures key(xs[i]) < k
        {
          assert i == 0 || key(xs[0]) >= key(xs[i]);
        }
        WithKeyNone(xs, key, k);
      }
    }
  }

  lemma {:induction false} WithKeyNone<T>(xs: seq<T>, key: T -> real, k: real)
    requires forall i :: 0 <= i < |xs| ==> key(xs[i]) < k
    ensures WithKey(xs, key, k) == []
    decreases |xs|
  {
    if |xs| > 0 {
      WithKeyNone(xs[1..], key, k);
    }
  }

  lemma WithKeySingle<T>(x: T, key: T -> real, k: real)
    ensures WithKey([x], key, k) == if key(x) == k then [x] else []
  {
    assert [x][1..] == [];
  }

  lemma SortDescStep<T>(xs: seq<T>, key: T -> real)
    requires |xs| > 0
    ensures SortDesc(xs, key) == InsertDesc(xs[|xs| - 1], SortDesc(xs[..|xs| - 1], key), key)
  {
  }

  /** Stability: among elements with equal scores the input order is kept. */
  lemma {:induction false} SortDescStable<T>(xs: seq<T>, key: T -> real, k: real)
    ensures WithKey(SortDesc(xs, key), key, k) == WithKey(xs, key, k)
    decreases |xs|
  {
    if |xs| > 0 {
      var init := xs[..|xs| - 1];
      var last := xs[|xs| - 1];
      var sortedInit := SortDesc(init, key);
      calc {
        WithKey(SortDesc(xs, key), key, k);
        == { SortDescStep(xs, key); }
        WithKey(InsertDesc(last, sortedInit, key), key, k);
        == { WithKeyInsert(last, sortedInit, key, k); }
        WithKey(sortedInit, key, k) + (if key(last) == k then [last] else []);
        == { SortDescStable(init, key, k); WithKeySingle(last, key, k); }
        WithKey(init, key, k) + WithKey([last], key, k);
        == { WithKeyAppend(init, [last], key, k); }
        WithKey(init + [last], key, k);
        == { assert xs == init + [last]; }
        WithKey(xs, key, k);
      }
    }
  }

  // ------------------------------------------------- ascending by text

  /** Code-point lexicographic order on strings. */
  predicate TextLe(a: string, b: string)
  {
    |a| == 0 || (|b| > 0 && (a[0] < b[0] || (a[0] == b[0] && TextLe(a[1..], b[1..]))))
  }

  lemma {:induction false} TextLeTotal(a: string, b: string)
    ensures TextLe(a, b) || TextLe(b, a)
  {
    if |a| > 0 && |b| > 0 && a[0] == b[0] {
      TextLeTotal(a[1..], b[1..]);
    }
  }

  lemma {:induction false} TextLeTrans(a: string, b: string, c: string)
    requires TextLe(a, b) && TextLe(b, c)
    ensures TextLe(a, c)
  {
    if |a| > 0 && a[0] == b[0] && b[0] == c[0] {
      TextLeTrans(a[1..], b[1..], c[1..]);
    }
  }

  lemma {:induction false} TextLeAntisym(a: string, b: string)
    requires TextLe(a, b) && TextLe(b, a)
    ensures a == b
  {
    if |a| > 0 {
      TextLeAntisym(a[1..], b[1..]);
      assert a == [a[0]] + a[1..] && b == [b[0]] + b[1..];
    }
  }

  predicate SortedByText<T>(xs: seq<T>, key: T -> string)
  {
    forall i, j :: 0 <= i < j < |xs| ==> TextLe(key(xs[i]), key(xs[j]))
  }

  function InsertByText<T>(x: T, xs: seq<T>, key: T -> string): (r: seq<T>)
    ensures |r| == |xs| + 1
    decreases |xs|
  {
    if |xs| == 0 then [x]
    else if TextLe(key(xs[0]), key(x)) then [xs[0]] + InsertByText(x, xs[1..], key)
    else [x] + xs
  }

  lemma {:induction false} InsertByTextPerm<T>(x: T, xs: seq<T>, key: T -> string)
    ensures multiset(InsertByText(x, xs, key)) == multiset(xs) + multiset{x}
    decreases |xs|
  {
    if |xs| > 0 {
      if TextLe(key(xs[0]), key(x)) {
        var tail := xs[1..];
        InsertByTextPerm(x, tail, key);
        assert xs == [xs[0]] + tail;
        assert multiset([xs[0]] + InsertByText(x, tail, key)) == multiset{xs[0]} + multiset(InsertByText(x, tail, key));
        assert multiset(xs) == multiset{xs[0]} + multiset(tail);
      } else {
        assert multiset([x] + xs) == multiset{x} + multiset(xs);
      }
    }
  }

  /** Every element of the insertion is `x` or an element of `xs`. */
  lemma InsertByTextFrom<T>(x: T, xs: seq<T>, key: T -> string, j: nat)
    requires j < |xs| + 1
    ensures InsertByText(x, xs, key)[j] == x || InsertByText(x, xs, key)[j] in xs
  {
    var r := InsertByText(x, xs, key);
    InsertByTextPerm(x, xs, key);
    assert r[j] in multiset(r);
    if r[j] != x {
      assert r[j] in multiset(xs);
    }
  }

  lemma {:induction false} InsertByTextSorted<T>(x: T, xs: seq<T>, key: T -> string)
    requires SortedByText(xs, key)
    ensures SortedByText(InsertByText(x, xs, key), key)
    decreases |xs|
  {
    if |xs| > 0 {
      var tail := xs[1..];
      if TextLe(key(xs[0]), key(x)) {
        assert SortedByText(tail, key) by {
          forall i, j | 0 <= i < j < |tail|
            ensures TextLe(key(tail[i]), key(tail[j]))
          {
            assert tail[i] == xs[i + 1] && tail[j] == xs[j + 1];
          }
        }
        InsertByTextSorted(x, tail, key);
        var rest := InsertByText(x, tail, key);
        forall i, j | 0 <= i < j < |rest| + 1
          ensures TextLe(key(([xs[0]] + rest)[i]), key(([xs[0]] + rest)[j]))
        {
          if i == 0 {
            InsertByTextFrom(x, tail, key, j - 1);
            if rest[j - 1] != x {
              var m :| 0 <= m < |tail| && tail[m] == rest[j - 1];
              assert xs[1 + m] == rest[j - 1];
            }
          } else {
            assert ([xs[0]] + rest)[i] == rest[i - 1] && ([xs[0]] + rest)[j] == rest[j - 1];
          }
        }
      } else {
        TextLeTotal(key(xs[0]), key(x));
        forall i, j | 0 <= i < j < |xs| + 1
          ensures TextLe(key(([x] + xs)[i]), key(([x] + xs)[j]))
        {
          if i == 0 {
            if j > 1 {
              TextLeTrans(key(x), key(xs[0]), key(xs[j - 1]));
            }
          } else {
            assert ([x] + xs)[i] == xs[i - 1] && ([x] + xs)[j] == xs[j - 1];
          }
        }
      }
    }
  }

  /** Ascending order by the text `key`; equal keys keep their input order. */
  function SortByText<T>(xs: seq<T>, key: T -> string): (r: seq<T>)
    ensures SortedByText(r, key)
    ensures multiset(r) == multiset(xs)
    ensures |r| == |xs|
  {
    if |xs| == 0 then []
    else
      var init := xs[..|xs| - 1];
      var last := xs[|xs| - 1];
      var sorted := SortByText(init, key);
      InsertByTextSorted(last, sorted, key);
      InsertByTextPerm(last, sorted, key);
      assert xs == init + [last];
      InsertByText(last, sorted, key)
  }
}
