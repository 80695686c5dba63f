/** Order-preserving filtering and de-duplication of sequences: the shape of
  * every `for x in xs: if ...: out.append(x)` loop and of the first-occurrence
  * de-duplication the system applies to skill lists. */
module Seqs {

  /** `xs` occurs in `ys` in the same order, possibly with gaps. */
  predicate Subseq<T(==)>(xs: seq<T>, ys: seq<T>)
    decreases |ys|
  {
    if |xs| == 0 then true
    else if |ys| == 0 then false
    else if xs[|xs| - 1] == ys[|ys| - 1] then Subseq(xs[..|xs| - 1], ys[..|ys| - 1])
    else Subseq(xs, ys[..|ys| - 1])
  }

  lemma {:induction false} SubseqDropLast<T>(xs: seq<T>, ys: seq<T>)
    requires |xs| > 0 && Subseq(xs, ys)
    ensures Subseq(xs[..|xs| - 1], ys)
    decreases |ys|, 1
  {
    var xs' := xs[..|xs| - 1];
    var ys' := ys[..|ys| - 1];
    if xs[|xs| - 1] == ys[|ys| - 1] {
      if |xs'| > 0 && xs'[|xs'| - 1] == ys[|ys| - 1] {
        SubseqDropLast(xs', ys');
      }
    } else {
      SubseqDropLast(xs, ys');
      SubseqSnoc(xs', ys', ys[|ys| - 1]);
      assert ys' + [ys[|ys| - 1]] == ys;
    }
  }

  lemma {:induction false} SubseqSnoc<T>(xs: seq<T>, ys: seq<T>, y: T)
    requires Subseq(xs, ys)
    ensures Subseq(xs, ys + [y])
    decreases |ys|, 2
  {
    assert (ys + [y])[..|ys|] == ys;
    if |xs| > 0 && xs[|xs| - 1] == y {
      SubseqDropLast(xs, ys);
    }
  }

  lemma {:induction false} SubseqIn<T>(xs: seq<T>, ys: seq<T>, x: T)
    requires Subseq(xs, ys) && x in xs
    ensures x in ys
    decreases |ys|
  {
    var xs' := xs[..|xs| - 1];
    var ys' := ys[..|ys| - 1];
    assert xs == xs' + [xs[|xs| - 1]];
    if xs[|xs| - 1] == ys[|ys| - 1] {
      if x != xs[|xs| - 1] {
        SubseqIn(xs', ys', x);
      }
    } else {
      SubseqIn(xs, ys', x);
    }
  }

  lemma {:induction false} SubseqRefl<T>(xs: seq<T>)
    ensures Subseq(xs, xs)
    decreases |xs|
  {
    if |xs| > 0 {
      SubseqRefl(xs[..|xs| - 1]);
    }
  }

  /** `[f(x) for x in xs]`. */
  function Map<A, B>(xs: seq<A>, f: A -> B): (r: seq<B>)
    ensures |r| == |xs|
    ensures forall i :: 0 <= i < |xs| ==> r[i] == f(xs[i])
  {
    seq(|xs|, i requires 0 <= i < |xs| => f(xs[i]))
  }

  /** Dropping the head of a concatenation whose left part is not empty. */
  lemma ConsTail<T>(a: seq<T>, b: seq<T>)
    requires |a| > 0
    ensures (a + b)[0] == a[0] && (a + b)[1..] == a[1..] + b
  {
  }

  /** A non-empty sequence is its head followed by its tail. */
  lemma AppendAssoc<T>(a: seq<T>, b: seq<T>, c: seq<T>)
    ensures a + b + c == a + (b + c)
  {
  }

  lemma HeadTail<T>(a: seq<T>)
    requires |a| > 0
    ensures a == [a[0]] + a[1..]
  {
  }

  lemma MapSingle<A, B>(x: A, f: A -> B)
    ensures Map([x], f) == [f(x)]
  {
    assert Map([x], f)[0] == f(x);
  }

  lemma MapAppend<A, B>(xs: seq<A>, ys: seq<A>, f: A -> B)
    ensures Map(xs + ys, f) == Map(xs, f) + Map(ys, f)
  {
    assert forall i :: 0 <= i < |xs| ==> (xs + ys)[i] == xs[i];
    assert forall i :: |xs| <= i < |xs + ys| ==> (xs + ys)[i] == ys[i - |xs|];
  }

  lemma MapSnoc<A, B>(xs: seq<A>, i: nat, f: A -> B)
    requires i < |xs|
    ensures Map(xs[..i + 1], f) == Map(xs[..i], f) + [f(xs[i])]
  {
    var a, b := Map(xs[..i + 1], f), Map(xs[..i], f) + [f(xs[i])];
    forall k | 0 <= k < |a|
      ensures a[k] == b[k]
    {
      if k < i {
        assert a[k] == f(xs[k]) == b[k];
      }
    }
  }

  /** The elements of `xs` that satisfy `p`, in their order. */
  function Filter<T(==,!new)>(xs: seq<T>, p: T -> bool): (r: seq<T>)
    ensures |r| <= |xs|
    ensures forall x :: x in r <==> x in xs && p(x)
    ensures forall i :: 0 <= i < |r| ==> p(r[i])
    ensures Subseq(r, xs)
  {
    if |xs| == 0 then []
    else
      var init := xs[..|xs| - 1];
      var last := xs[|xs| - 1];
      assert xs == init + [last];
      var rest := Filter(init, p);
      SubseqSnoc(rest, init, last);
      if p(last) then
        assert (rest + [last])[..|rest|] == rest;
        rest + [last]
      else rest
  }

  lemma {:induction false} FilterAppend<T(!new)>(xs: seq<T>, ys: seq<T>, p: T -> bool)
    ensures Filter(xs + ys, p) == Filter(xs, p) + Filter(ys, p)
    decreases |ys|
  {
    if |ys| == 0 {
      assert xs + ys == xs;
    } else {
      var ys' := ys[..|ys| - 1];
      assert (xs + ys)[..|xs + ys| - 1] == xs + ys';
      FilterAppend(xs, ys', p);
    }
  }

  lemma {:induction false} FilterAll<T(!new)>(xs: seq<T>, p: T -> bool)
    requires forall x :: x in xs ==> p(x)
    ensures Filter(xs, p) == xs
    decreases |xs|
  {
    if |xs| > 0 {
      FilterAll(xs[..|xs| - 1], p);
      assert xs[..|xs| - 1] + [xs[|xs| - 1]] == xs;
    }
  }

  /** Nothing is filtered out exactly when every element passes. */
  lemma {:induction false} FilterFull<T(!new)>(xs: seq<T>, p: T -> bool)
    ensures |Filter(xs, p)| == |xs| <==> forall x :: x in xs ==> p(x)
    decreases |xs|
  {
    if |xs| > 0 {
      var init := xs[..|xs| - 1];
      var last := xs[|xs| - 1];
      FilterFull(init, p);
      assert xs == init + [last];
      assert forall x :: x in xs <==> x in init || x == last;
    }
  }

  /** One more step of a filtering loop over `xs`. */
  lemma FilterSnoc<T(!new)>(xs: seq<T>, i: nat, p: T -> bool)
    requires i < |xs|
    ensures Filter(xs[..i + 1], p) == Filter(xs[..i], p) + (if p(xs[i]) then [xs[i]] else [])
  {
    assert xs[..i + 1][..i] == xs[..i];
  }

  /** How many elements of `xs` satisfy `p`: the counter of a filtering loop. */
  function Count<T>(xs: seq<T>, p: T -> bool): nat
  {
    if |xs| == 0 then 0 else Count(xs[..|xs| - 1], p) + (if p(xs[|xs| - 1]) then 1 else 0)
  }

  lemma CountSnoc<T>(xs: seq<T>, i: nat, p: T -> bool)
    requires i < |xs|
    ensures Count(xs[..i + 1], p) == Count(xs[..i], p) + (if p(xs[i]) then 1 else 0)
  {
    assert xs[..i + 1][..i] == xs[..i];
  }

  /** The counter ends at the length of the filtered sequence. */
  lemma {:induction false} CountFilter<T(!new)>(xs: seq<T>, p: T -> bool)
    ensures Count(xs, p) == |Filter(xs, p)|
    decreases |xs|
  {
    if |xs| > 0 {
      CountFilter(xs[..|xs| - 1], p);
    }
  }

  /** Every element of `xs` that satisfies `p` has its image under `f` in `s`:
    * what a filtering loop that stores `f(x)` for each accepted `x` keeps. */
  predicate ImagesIn<T, U>(xs: seq<T>, p: T -> bool, f: T -> U, s: set<U>)
  {
    |xs| == 0 ||
    (ImagesIn(xs[..|xs| - 1], p, f, s) && (p(xs[|xs| - 1]) ==> f(xs[|xs| - 1]) in s))
  }

  lemma {:induction false} ImagesInGrow<T, U>(xs: seq<T>, p: T -> bool, f: T -> U, a: set<U>, b: set<U>)
    requires ImagesIn(xs, p, f, a) && a <= b
    ensures ImagesIn(xs, p, f, b)
    decreases |xs|
  {
    if |xs| > 0 {
      ImagesInGrow(xs[..|xs| - 1], p, f, a, b);
    }
  }

  lemma ImagesInSnoc<T, U>(xs: seq<T>, i: nat, p: T -> bool, f: T -> U, s: set<U>)
    requires i < |xs| && ImagesIn(xs[..i], p, f, s)
    requires p(xs[i]) ==> f(xs[i]) in s
    ensures ImagesIn(xs[..i + 1], p, f, s)
  {
    assert xs[..i + 1][..i] == xs[..i];
  }

  lemma {:induction false} ImagesInAll<T, U>(xs: seq<T>, p: T -> bool, f: T -> U, s: set<U>)
    requires ImagesIn(xs, p, f, s)
    ensures forall x :: x in xs && p(x) ==> f(x) in s
    decreases |xs|
  {
    if |xs| > 0 {
      var init := xs[..|xs| - 1];
      ImagesInAll(init, p, f, s);
      assert forall x :: x in xs ==> x in init || x == xs[|xs| - 1];
    }
  }

  /** `[f(x) for x in xs]` filtered by `p` keeps the image of every `x` it accepts. */
  lemma MapFilterComplete<A, B(!new)>(xs: seq<A>, f: A -> B, p: B -> bool)
    ensures forall x :: x in xs && p(f(x)) ==> f(x) in Filter(Map(xs, f), p)
  {
    forall x | x in xs && p(f(x))
      ensures f(x) in Filter(Map(xs, f), p)
    {
      var i :| 0 <= i < |xs| && xs[i] == x;
      assert Map(xs, f)[i] == f(x);
    }
  }

  lemma MapFilterSnoc<A, B(!new)>(xs: seq<A>, i: nat, f: A -> B, p: B -> bool)
    requires i < |xs|
    ensures Filter(Map(xs[..i + 1], f), p) == Filter(Map(xs[..i], f), p) + (if p(f(xs[i])) then [f(xs[i])] else [])
  {
    var ms := Map(xs[..i + 1], f);
    MapSnoc(xs, i, f);
    assert ms[..i] == Map(xs[..i], f) && ms[..i + 1] == ms;
    FilterSnoc(ms, i, p);
  }

  /** A filter whose test implies another's keeps no more elements. */
  lemma {:induction false} FilterStronger<T(!new)>(xs: seq<T>, p: T -> bool, q: T -> bool)
    requires forall x :: q(x) ==> p(x)
    ensures |Filter(xs, q)| <= |Filter(xs, p)|
    decreases |xs|
  {
    if |xs| > 0 {
      FilterStronger(xs[..|xs| - 1], p, q);
    }
  }

  predicate NoDups<T(==)>(xs: seq<T>)
  {
    forall i, j :: 0 <= i < j < |xs| ==> xs[i] != xs[j]
  }

  /** The first occurrence of every element of `xs`, in order. */
  function Dedup<T(==,!new)>(xs: seq<T>): (r: seq<T>)
    ensures NoDups(r)
    ensures forall x :: x in r <==> x in xs
    ensures |r| <= |xs|
    ensures Subseq(r, xs)
  {
    if |xs| == 0 then []
    else
      var init := xs[..|xs| - 1];
      var last := xs[|xs| - 1];
      assert xs == init + [last];
      var rest := Dedup(init);
      SubseqSnoc(rest, init, last);
      if last in init then rest
      else
        assert (rest + [last])[..|rest|] == rest;
        rest + [last]
  }

  lemma {:induction false} DedupOfNoDups<T(!new)>(xs: seq<T>)
    requires NoDups(xs)
    ensures Dedup(xs) == xs
    decreases |xs|
  {
    if |xs| > 0 {
      var init := xs[..|xs| - 1];
      DedupOfNoDups(init);
      assert xs[|xs| - 1] !in init;
      assert init + [xs[|xs| - 1]] == xs;
    }
  }

  /** Appending an element keeps it exactly when it is new. */
  lemma DedupSnoc<T(!new)>(xs: seq<T>, x: T)
    ensures Dedup(xs + [x]) == if x in xs then Dedup(xs) else Dedup(xs) + [x]
  {
    assert (xs + [x])[..|xs|] == xs;
  }
}
