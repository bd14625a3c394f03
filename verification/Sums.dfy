/** Sums over sequences, and their independence of order. */
module Sums {

  function Sum<T(!new)>(xs: seq<T>, f: T -> int): int {
    if xs == [] then 0 else Sum(xs[..|xs| - 1], f) + f(xs[|xs| - 1])
  }

  lemma {:induction false} SumSame<T(!new)>(xs: seq<T>, f: T -> int, g: T -> int)
    requires forall x :: x in xs ==> f(x) == g(x)
    ensures Sum(xs, f) == Sum(xs, g)
  {
    if xs != [] {
      SumSame(xs[..|xs| - 1], f, g);
    }
  }

  lemma {:induction false} SumZero<T(!new)>(xs: seq<T>, f: T -> int)
    requires forall x :: x in xs ==> f(x) == 0
    ensures Sum(xs, f) == 0
  {
    if xs != [] {
      SumZero(xs[..|xs| - 1], f);
    }
  }

  lemma {:induction false} SumPlus<T(!new)>(xs: seq<T>, f: T -> int, g: T -> int, h: T -> int)
    requires forall x :: x in xs ==> h(x) == f(x) + g(x)
    ensures Sum(xs, h) == Sum(xs, f) + Sum(xs, g)
  {
    if xs != [] {
      SumPlus(xs[..|xs| - 1], f, g, h);
    }
  }

  lemma {:induction false} SumConcat<T(!new)>(xs: seq<T>, ys: seq<T>, f: T -> int)
    ensures Sum(xs + ys, f) == Sum(xs, f) + Sum(ys, f)
  {
    if ys == [] {
      assert xs + ys == xs;
    } else {
      var last := |ys| - 1;
      SumConcat(xs, ys[..last], f);
      assert (xs + ys)[..|xs + ys| - 1] == xs + ys[..last];
    }
  }

  lemma SumCons<T(!new)>(x: T, xs: seq<T>, f: T -> int)
    ensures Sum([x] + xs, f) == f(x) + Sum(xs, f)
  {
    SumConcat([x], xs, f);
    assert [x][..0] == [];
  }

  /** A sum does not depend on the order of the sequence. */
  lemma {:induction false} SumPermuted<T(!new)>(xs: seq<T>, ys: seq<T>, f: T -> int)
    requires multiset(xs) == multiset(ys)
    ensures Sum(xs, f) == Sum(ys, f)
  {
    if xs == [] {
      assert |multiset(ys)| == 0;
    } else {
      var last := |xs| - 1;
      var x := xs[last];
      assert xs == xs[..last] + [x];
      assert x in multiset(xs);
      var j :| 0 <= j < |ys| && ys[j] == x;
      var rest := ys[..j] + ys[j + 1..];
      assert ys == ys[..j] + ([x] + ys[j + 1..]);
      assert multiset(rest) == multiset(ys) - multiset{x};
      assert multiset(xs[..last]) == multiset(xs) - multiset{x};
      SumPermuted(xs[..last], rest, f);
      SumConcat(ys[..j], ys[j + 1..], f);
      SumConcat(ys[..j], [x] + ys[j + 1..], f);
      SumCons(x, ys[j + 1..], f);
    }
  }

  function Filter<T(!new)>(xs: seq<T>, p: T -> bool): seq<T> {
    if xs == [] then []
    else Filter(xs[..|xs| - 1], p) + if p(xs[|xs| - 1]) then [xs[|xs| - 1]] else []
  }

  lemma {:induction false} FilterMembers<T(!new)>(xs: seq<T>, p: T -> bool)
    ensures forall x :: x in Filter(xs, p) <==> x in xs && p(x)
  {
    if xs != [] {
      FilterMembers(xs[..|xs| - 1], p);
      assert xs == xs[..|xs| - 1] + [xs[|xs| - 1]];
    }
  }

  lemma {:induction false} FilterSame<T(!new)>(xs: seq<T>, p: T -> bool, q: T -> bool)
    requires forall x :: x in xs ==> p(x) == q(x)
    ensures Filter(xs, p) == Filter(xs, q)
  {
    if xs != [] {
      FilterSame(xs[..|xs| - 1], p, q);
    }
  }

  /** Summing over the selected elements is summing over all of them with the others counting zero. */
  function Masked<T(!new)>(p: T -> bool, f: T -> int): T -> int { x => if p(x) then f(x) else 0 }

  lemma {:induction false} SumFilter<T(!new)>(xs: seq<T>, p: T -> bool, f: T -> int)
    ensures Sum(Filter(xs, p), f) == Sum(xs, Masked(p, f))
  {
    if xs != [] {
      var init, last := xs[..|xs| - 1], xs[|xs| - 1];
      SumFilter(init, p, f);
      if p(last) {
        SumConcat(Filter(init, p), [last], f);
        assert [last][..0] == [];
      } else {
        assert Filter(init, p) + [] == Filter(init, p);
      }
    }
  }

  function One<T(!new)>(): T -> int { x => 1 }

  lemma {:induction false} FilterLength<T(!new)>(xs: seq<T>, p: T -> bool)
    ensures |Filter(xs, p)| == Sum(xs, Masked(p, One()))
  {
    if xs != [] {
      FilterLength(xs[..|xs| - 1], p);
    }
  }

  lemma FilterPermuted<T(!new)>(xs: seq<T>, ys: seq<T>, p: T -> bool)
    requires multiset(xs) == multiset(ys)
    ensures |Filter(xs, p)| == |Filter(ys, p)|
  {
    FilterLength(xs, p);
    FilterLength(ys, p);
    SumPermuted(xs, ys, Masked(p, One()));
  }

  lemma {:induction false} FilterNone<T(!new)>(xs: seq<T>, p: T -> bool)
    requires forall x :: x in xs ==> !p(x)
    ensures Filter(xs, p) == []
  {
    if xs != [] {
      FilterNone(xs[..|xs| - 1], p);
    }
  }

  lemma FilterSnoc<T(!new)>(xs: seq<T>, x: T, p: T -> bool)
    ensures Filter(xs + [x], p) == if p(x) then Filter(xs, p) + [x] else Filter(xs, p)
  {
    assert (xs + [x])[..|xs|] == xs;
  }

  lemma Snoc<T>(xs: seq<T>, x: T)
    ensures multiset(xs + [x]) == multiset(xs) + multiset{x}
  {
  }

  /** Two filters that complement each other part a sequence. */
  lemma {:induction false} Parted<T(!new)>(xs: seq<T>, p: T -> bool, q: T -> bool)
    requires forall x :: p(x) != q(x)
    ensures multiset(Filter(xs, p)) + multiset(Filter(xs, q)) == multiset(xs)
  {
    hide Filter;
    if xs == [] {
      assert Filter(xs, p) == [] == Filter(xs, q) by { FilterNone(xs, p); FilterNone(xs, q); }
    } else {
      var init, last := xs[..|xs| - 1], xs[|xs| - 1];
      Parted(init, p, q);
      FilterSnoc(init, last, p);
      FilterSnoc(init, last, q);
      Snoc(Filter(init, p), last);
      Snoc(Filter(init, q), last);
      Snoc(init, last);
      assert xs == init + [last];
    }
  }

  /** The first element is kept first. */
  lemma {:induction false} FilterCons<T(!new)>(x: T, xs: seq<T>, p: T -> bool)
    ensures Filter([x] + xs, p) == (if p(x) then [x] else []) + Filter(xs, p)
  {
    var all := [x] + xs;
    if xs == [] {
      assert all == [x] && all[..0] == [];
    } else {
      FilterCons(x, xs[..|xs| - 1], p);
      assert all[..|all| - 1] == [x] + xs[..|xs| - 1];
    }
  }

  /** The sum over a set, in whatever order its elements are taken. */
  ghost function SetSum<T(!new)>(s: set<T>, f: T -> int): int {
    if s == {} then 0 else var x :| x in s; f(x) + SetSum(s - {x}, f)
  }

  lemma {:induction false} SetSumAdd<T(!new)>(s: set<T>, x: T, f: T -> int)
    requires x !in s
    ensures SetSum(s + {x}, f) == SetSum(s, f) + f(x)
  {
    var all := s + {x};
    var y :| y in all && SetSum(all, f) == f(y) + SetSum(all - {y}, f);
    if y == x {
      assert all - {y} == s;
    } else {
      assert all - {y} == (s - {y}) + {x} && (s - {y}) + {y} == s;
      SetSumAdd(s - {y}, x, f);
      SetSumAdd(s - {y}, y, f);
    }
  }

  lemma SameMembers<T>(xs: seq<T>, ys: seq<T>)
    requires multiset(xs) == multiset(ys)
    ensures forall x :: x in xs <==> x in ys
  {
    forall x ensures x in xs <==> x in ys {
      assert x in xs <==> x in multiset(xs);
      assert x in ys <==> x in multiset(ys);
    }
  }
}
