/** Options, results, and the few facts about sequences and finite sums that the models share. */
module Prelude {

  datatype Option<+T> = None | Some(value: T) {
    function GetOr(default: T): T {
      match this
      case Some(v) => v
      case None => default
    }
  }

  datatype Result<+T, +E> = Ok(value: T) | Err(error: E)

  function Smaller(a: nat, b: nat): nat { if a < b then a else b }

  function Larger(a: nat, b: nat): nat { if a < b then b else a }

  ghost function Elems<T>(s: seq<T>): set<T> {
    set x | x in s
  }

  ghost predicate Distinct<T>(s: seq<T>) {
    forall i, j :: 0 <= i < j < |s| ==> s[i] != s[j]
  }

  lemma {:induction false} DistinctCount<T>(s: seq<T>)
    requires Distinct(s)
    ensures |Elems(s)| == |s|
  {
    if s != [] {
      var rest, last := s[..|s| - 1], s[|s| - 1];
      DistinctCount(rest);
      ElemsSnoc(rest, last);
      assert s == rest + [last];
      assert last !in Elems(rest);
    }
  }

  lemma ElemsSnoc<T>(s: seq<T>, x: T)
    ensures Elems(s + [x]) == Elems(s) + {x}
  {
  }

  lemma ElemsSwap<T>(a: seq<T>, b: seq<T>, c: seq<T>)
    ensures Elems(a + b + c) == Elems(a + c + b)
  {
  }

  lemma Regroup<T>(a: seq<T>, b: seq<T>, c: seq<T>, d: seq<T>)
    ensures a + b + c + d == a + (b + c + d)
  {
  }

  lemma Middle<T>(a: seq<T>, b: seq<T>, c: seq<T>)
    ensures a <= a + b + c && (a + b + c)[|a + b + c| - |c|..] == c
    ensures (a + b + c)[|a|..|a + b + c| - |c|] == b
  {
  }

  function Map<A, B>(f: A -> B, xs: seq<A>): seq<B> {
    if xs == [] then [] else Map(f, xs[..|xs| - 1]) + [f(xs[|xs| - 1])]
  }

  lemma MapSnoc<A, B>(base: seq<B>, f: A -> B, xs: seq<A>, k: nat)
    requires k < |xs|
    ensures base + Map(f, xs[..k + 1]) == base + Map(f, xs[..k]) + [f(xs[k])]
  {
    assert xs[..k + 1][..k] == xs[..k];
  }

  lemma {:induction false} MapAt<A, B>(f: A -> B, xs: seq<A>)
    ensures |Map(f, xs)| == |xs|
    ensures forall i :: 0 <= i < |xs| ==> Map(f, xs)[i] == f(xs[i])
  {
    if xs != [] {
      MapAt(f, xs[..|xs| - 1]);
    }
  }

  lemma MapMember<A, B>(f: A -> B, xs: seq<A>, y: B)
    ensures y in Map(f, xs) <==> exists x :: x in xs && y == f(x)
  {
  }

  lemma MapSource<A, B>(f: A -> B, xs: seq<A>, ys: seq<B>, y: B) returns (x: A)
    requires multiset(ys) == multiset(Map(f, xs)) && y in ys
    ensures x in xs && y == f(x)
  {
    assert y in multiset(ys);
    assert y in Map(f, xs);
    MapMember(f, xs, y);
    x :| x in xs && y == f(x);
  }

  lemma {:induction false} MapAppend<A, B>(f: A -> B, xs: seq<A>, ys: seq<A>)
    ensures Map(f, xs + ys) == Map(f, xs) + Map(f, ys)
  {
    if ys == [] {
      assert xs + ys == xs;
    } else {
      assert (xs + ys)[..|xs + ys| - 1] == xs + ys[..|ys| - 1];
      MapAppend(f, xs, ys[..|ys| - 1]);
    }
  }

  lemma MapOne<A, B>(f: A -> B, xs: seq<A>, x: A)
    ensures Map(f, xs + [x]) == Map(f, xs) + [f(x)]
  {
    assert (xs + [x])[..|xs|] == xs;
  }

  lemma MapBoth<A, B>(f: A -> B, first: seq<A>, all: seq<A>)
    requires first <= all
    ensures multiset(Map(f, all)) == multiset(Map(f, first)) + multiset(Map(f, all[|first|..]))
  {
    assert all == first + all[|first|..];
    MapAppend(f, first, all[|first|..]);
  }

  function Without<T>(s: seq<T>, i: nat): (r: seq<T>)
    requires i < |s|
  {
    s[..i] + s[i + 1..]
  }

  lemma SplitAt<T>(s: seq<T>, i: nat)
    requires i < |s|
    ensures s == s[..i] + [s[i]] + s[i + 1..]
  {
  }

  lemma WithoutOne<T>(s: seq<T>, i: nat)
    requires i < |s|
    ensures multiset(s) == multiset(Without(s, i)) + multiset{s[i]}
  {
    assert s == s[..i] + [s[i]] + s[i + 1..];
  }

  lemma MapMiddle<A, B>(f: A -> B, a: seq<A>, x: A, b: seq<A>, s: seq<A>, rest: seq<A>)
    requires s == a + [x] + b && rest == a + b
    ensures multiset(Map(f, s)) == multiset(Map(f, rest)) + multiset{f(x)}
  {
    MapAppend(f, a + [x], b);
    MapAppend(f, a, b);
    assert (a + [x])[..|a|] == a;
  }

  lemma MapWithout<A, B>(f: A -> B, s: seq<A>, i: nat)
    requires i < |s|
    ensures multiset(Map(f, s)) == multiset(Map(f, Without(s, i))) + multiset{f(s[i])}
  {
    SplitAt(s, i);
    MapMiddle(f, s[..i], s[i], s[i + 1..], s, Without(s, i));
  }

  function FlatMap<A, B>(f: A -> seq<B>, xs: seq<A>): seq<B> {
    if xs == [] then [] else FlatMap(f, xs[..|xs| - 1]) + f(xs[|xs| - 1])
  }

  lemma FlatMapNext<A, B>(f: A -> seq<B>, xs: seq<A>, k: nat)
    requires k < |xs|
    ensures FlatMap(f, xs[..k + 1]) == FlatMap(f, xs[..k]) + f(xs[k])
  {
    assert xs[..k + 1][..k] == xs[..k];
  }

  lemma FlatMapSnoc<A, B>(base: seq<B>, f: A -> seq<B>, xs: seq<A>, k: nat)
    requires k < |xs|
    ensures base + FlatMap(f, xs[..k + 1]) == base + FlatMap(f, xs[..k]) + f(xs[k])
  {
    FlatMapNext(f, xs, k);
  }

  lemma {:induction false} FlatMapAppend<A, B>(f: A -> seq<B>, xs: seq<A>, ys: seq<A>)
    ensures FlatMap(f, xs + ys) == FlatMap(f, xs) + FlatMap(f, ys)
  {
    if ys == [] {
      assert xs + ys == xs;
    } else {
      var last := |ys| - 1;
      assert (xs + ys)[..|xs + ys| - 1] == xs + ys[..last];
      FlatMapAppend(f, xs, ys[..last]);
    }
  }

  lemma FlatMapNested<A, B, C>(f: B -> seq<C>, g: A -> seq<B>, xs: seq<A>, k: nat, base: seq<C>)
    requires k < |xs|
    ensures base + FlatMap(f, FlatMap(g, xs[..k + 1])) == base + FlatMap(f, FlatMap(g, xs[..k])) + FlatMap(f, g(xs[k]))
  {
    FlatMapNext(g, xs, k);
    FlatMapAppend(f, FlatMap(g, xs[..k]), g(xs[k]));
  }

  lemma {:induction false} FlatMapMember<A, B>(f: A -> seq<B>, xs: seq<A>, y: B)
    ensures y in FlatMap(f, xs) <==> exists x :: x in xs && y in f(x)
  {
    if xs != [] {
      FlatMapMember(f, xs[..|xs| - 1], y);
      assert xs == xs[..|xs| - 1] + [xs[|xs| - 1]];
    }
  }

  /** The elements of `s` that satisfy `keep`, in order. */
  function Filter<T(!new)>(keep: T -> bool, s: seq<T>): (r: seq<T>)
    ensures forall x :: x in r <==> x in s && keep(x)
  {
    if s == [] then [] else
      var r := Filter(keep, s[..|s| - 1]);
      assert s == s[..|s| - 1] + [s[|s| - 1]];
      if keep(s[|s| - 1]) then r + [s[|s| - 1]] else r
  }

  lemma FilterSnoc<T(!new)>(keep: T -> bool, s: seq<T>, k: nat)
    requires k < |s|
    ensures Filter(keep, s[..k + 1]) == Filter(keep, s[..k]) + if keep(s[k]) then [s[k]] else []
  {
    assert s[..k + 1][..k] == s[..k];
  }

  lemma {:induction false} FilterAppend<T(!new)>(keep: T -> bool, a: seq<T>, b: seq<T>)
    ensures Filter(keep, a + b) == Filter(keep, a) + Filter(keep, b)
  {
    if b == [] {
      assert a + b == a;
    } else {
      assert (a + b)[..|a + b| - 1] == a + b[..|b| - 1];
      FilterAppend(keep, a, b[..|b| - 1]);
    }
  }

  /** Filtering is all or nothing on a sequence whose elements agree. */
  lemma {:induction false} FilterUniform<T(!new)>(keep: T -> bool, s: seq<T>, all: bool)
    requires forall x :: x in s ==> keep(x) == all
    ensures Filter(keep, s) == if all then s else []
  {
    if s != [] {
      FilterUniform(keep, s[..|s| - 1], all);
      assert s == s[..|s| - 1] + [s[|s| - 1]];
    }
  }

  lemma TakesNext<T(!new)>(keep: T -> bool, tasks: seq<T>, k: nat)
    requires k < |tasks|
    ensures keep(tasks[k]) ==> Filter(keep, tasks[..k + 1]) == Filter(keep, tasks[..k]) + [tasks[k]]
    ensures !keep(tasks[k]) ==> Filter(keep, tasks[..k + 1]) == Filter(keep, tasks[..k])
  {
    assert tasks[..k + 1][..k] == tasks[..k];
  }

  /** What is kept and what is not make up the whole. */
  lemma {:induction false} FilterPartition<T(!new)>(keep: T -> bool, drop: T -> bool, s: seq<T>)
    requires forall x :: x in s ==> keep(x) != drop(x)
    ensures multiset(s) == multiset(Filter(keep, s)) + multiset(Filter(drop, s))
    ensures |s| == |Filter(keep, s)| + |Filter(drop, s)|
  {
    if s != [] {
      FilterPartition(keep, drop, s[..|s| - 1]);
      assert s == s[..|s| - 1] + [s[|s| - 1]];
    }
  }

  /** The sum of `f` over a finite set, in any order. */
  ghost function Sum<T>(s: set<T>, f: T -> nat): nat {
    if s == {} then 0 else var x :| x in s; f(x) + Sum(s - {x}, f)
  }

  lemma {:induction false} SumPick<T>(s: set<T>, f: T -> nat, y: T)
    requires y in s
    ensures Sum(s, f) == f(y) + Sum(s - {y}, f)
    decreases s
  {
    var x :| x in s && Sum(s, f) == f(x) + Sum(s - {x}, f);
    if x != y {
      SumPick(s - {x}, f, y);
      SumPick(s - {y}, f, x);
      assert s - {x} - {y} == s - {y} - {x};
    }
  }

  lemma SumOne<T>(x: T, f: T -> nat)
    ensures Sum({x}, f) == f(x)
  {
  }

  lemma {:induction false} SumSplit<T>(a: set<T>, b: set<T>, f: T -> nat)
    requires a !! b
    ensures Sum(a + b, f) == Sum(a, f) + Sum(b, f)
    decreases a
  {
    if a == {} {
      assert a + b == b;
    } else {
      var x :| x in a;
      SumSplit(a - {x}, b, f);
      SumPick(a, f, x);
      SumPick(a + b, f, x);
      assert a + b - {x} == (a - {x}) + b;
    }
  }

  lemma {:induction false} SumSame<T>(s: set<T>, f: T -> nat, g: T -> nat)
    requires forall x :: x in s ==> f(x) == g(x)
    ensures Sum(s, f) == Sum(s, g)
    decreases s
  {
    if s != {} {
      var x :| x in s;
      SumPick(s, f, x);
      SumPick(s, g, x);
      SumSame(s - {x}, f, g);
    }
  }

  lemma {:induction false} SumZero<T>(s: set<T>, f: T -> nat)
    ensures Sum(s, f) == 0 <==> forall x :: x in s ==> f(x) == 0
    decreases s
  {
    if s != {} {
      var x :| x in s;
      SumPick(s, f, x);
      SumZero(s - {x}, f);
      assert s == s - {x} + {x};
    }
  }

  lemma {:induction false} AtMostLength<T>(s: seq<T>)
    ensures |Elems(s)| <= |s|
  {
    if s != [] {
      AtMostLength(s[..|s| - 1]);
      assert Elems(s) == Elems(s[..|s| - 1]) + {s[|s| - 1]};
    }
  }

  lemma AtMostUnion<T>(s: set<T>, a: set<T>, b: set<T>)
    requires s <= a + b
    ensures |s| <= |a| + |b|
  {
    assert s == (s * a) + (s - a);
    AtMostSubset(s * a, a);
    AtMostSubset(s - a, b);
  }

  lemma {:induction false} AtMostSubset<T>(s: set<T>, t: set<T>)
    requires s <= t
    ensures |s| <= |t|
    decreases s
  {
    if s != {} {
      var x :| x in s;
      AtMostSubset(s - {x}, t - {x});
    }
  }

  // Joining with a separator.

  function Join<T>(separator: seq<T>, parts: seq<seq<T>>): seq<T> {
    if parts == [] then []
    else if |parts| == 1 then parts[0]
    else Join(separator, parts[..|parts| - 1]) + separator + parts[|parts| - 1]
  }

  lemma JoinSnoc<T>(separator: seq<T>, parts: seq<seq<T>>, last: seq<T>)
    ensures Join(separator, parts + [last]) == if parts == [] then last else Join(separator, parts) + separator + last
  {
    assert (parts + [last])[..|parts|] == parts;
  }

  lemma {:induction false} JoinFront<T>(separator: seq<T>, first: seq<T>, rest: seq<seq<T>>)
    ensures Join(separator, [first] + rest) == if rest == [] then first else first + separator + Join(separator, rest)
  {
    if rest == [] {
      assert [first] + rest == [first];
    } else {
      var init, last := rest[..|rest| - 1], rest[|rest| - 1];
      JoinFront(separator, first, init);
      assert [first] + rest == ([first] + init) + [last] && rest == init + [last];
      JoinSnoc(separator, [first] + init, last);
      JoinSnoc(separator, init, last);
    }
  }

  lemma {:induction false} JoinEmpty<T>(separator: seq<T>, parts: seq<seq<T>>)
    requires forall p :: p in parts ==> p != []
    ensures Join(separator, parts) == [] <==> parts == []
  {
    if |parts| == 1 {
      assert parts[0] in parts;
    } else if parts != [] {
      var last := parts[|parts| - 1];
      assert last in parts;
      assert |Join(separator, parts)| == |Join(separator, parts[..|parts| - 1])| + |separator| + |last|;
    }
  }

  // Multisets of sequences that grow by one element.

  /** One element moves from one sequence to the end of another; the rest stays. */
  lemma Moved<T>(from: seq<T>, fromLeft: seq<T>, to: seq<T>, toNext: seq<T>, rest: multiset<T>, x: T)
    requires multiset(from) == multiset(fromLeft) + multiset{x} && toNext == to + [x]
    ensures multiset(toNext) + multiset(fromLeft) + rest == multiset(to) + multiset(from) + rest
  {
  }

  lemma Grown<T>(a: seq<T>, aNext: seq<T>, b: seq<T>, bNext: seq<T>, rest: multiset<T>, x: T)
    requires multiset(a) == multiset(b) + rest && aNext == a + [x] && bNext == b + [x]
    ensures multiset(aNext) == multiset(bNext) + rest
  {
  }

  lemma BothGrow<T>(rest: multiset<T>, b: seq<T>, a: seq<T>, x: T)
    requires rest + multiset(b) == multiset(a)
    ensures rest + multiset(b + [x]) == multiset(a + [x])
  {
  }

  // Sequences in which each element depends on those before it.

  /** Each element of `ys` past the first `n` is linked to those before it and to its element of `xs`. */
  ghost predicate Linked<A, B>(link: (seq<B>, A, B) -> bool, xs: seq<A>, ys: seq<B>, n: nat) {
    |ys| == n + |xs| && forall i :: 0 <= i < |xs| ==> link(ys[..n + i], xs[i], ys[n + i])
  }

  function Emitted<A, B, C>(emit: (seq<B>, A, B) -> seq<C>, xs: seq<A>, ys: seq<B>, n: nat): seq<C>
    requires |ys| == n + |xs|
  {
    if xs == [] then [] else
      var last := |xs| - 1;
      Emitted(emit, xs[..last], ys[..n + last], n) + emit(ys[..n + last], xs[last], ys[n + last])
  }

  lemma {:induction false} EmittedMember<A, B, C>(emit: (seq<B>, A, B) -> seq<C>, xs: seq<A>, ys: seq<B>, n: nat, z: C)
    returns (i: nat)
    requires |ys| == n + |xs| && z in Emitted(emit, xs, ys, n)
    ensures i < |xs| && z in emit(ys[..n + i], xs[i], ys[n + i])
  {
    var last := |xs| - 1;
    if z in emit(ys[..n + last], xs[last], ys[n + last]) {
      i := last;
    } else {
      i := EmittedMember(emit, xs[..last], ys[..n + last], n, z);
      assert ys[..n + last][..n + i] == ys[..n + i];
    }
  }

  lemma LinkedGrows<A, B>(link: (seq<B>, A, B) -> bool, xs: seq<A>, k: nat, ys: seq<B>, n: nat, y: B)
    requires k < |xs| && Linked(link, xs[..k], ys, n) && link(ys, xs[k], y)
    ensures Linked(link, xs[..k + 1], ys + [y], n)
  {
    var now, all := xs[..k + 1], ys + [y];
    forall i | 0 <= i < |now| ensures link(all[..n + i], now[i], all[n + i]) {
      assert all[..n + i] == ys[..n + i];
      if i < k {
        assert xs[..k][i] == xs[i];
      } else {
        assert ys[..n + k] == ys;
      }
    }
  }

  lemma EmittedGrows<A, B, C>(emit: (seq<B>, A, B) -> seq<C>, xs: seq<A>, k: nat, ys: seq<B>, n: nat, y: B)
    requires k < |xs| && |ys| == n + k
    ensures Emitted(emit, xs[..k + 1], ys + [y], n) == Emitted(emit, xs[..k], ys, n) + emit(ys, xs[k], y)
  {
    assert xs[..k + 1][..k] == xs[..k] && (ys + [y])[..n + k] == ys;
  }

  lemma DropSnoc<T>(s: seq<T>, n: nat)
    requires n < |s|
    ensures s[n..] == s[..|s| - 1][n..] + [s[|s| - 1]]
  {
  }

  /** If each step emits one kept item, made from its own element, filtering leaves exactly those. */
  lemma {:induction false} EmittedOnce<A(!new), B(!new), C(!new)>(
    emit: (seq<B>, A, B) -> seq<C>, keep: C -> bool, item: B -> C, xs: seq<A>, ys: seq<B>, n: nat)
    requires |ys| == n + |xs|
    requires forall before, x, y :: Filter(keep, emit(before, x, y)) == [item(y)]
    ensures Filter(keep, Emitted(emit, xs, ys, n)) == Map(item, ys[n..])
  {
    if xs == [] {
      assert ys[n..] == [];
    } else {
      var last := |xs| - 1;
      EmittedOnce(emit, keep, item, xs[..last], ys[..n + last], n);
      FilterAppend(keep, Emitted(emit, xs[..last], ys[..n + last], n), emit(ys[..n + last], xs[last], ys[n + last]));
      DropSnoc(ys, n);
      MapOne(item, ys[..n + last][n..], ys[n + last]);
    }
  }

  /** A property of what has been emitted so far that each step keeps. */
  lemma {:induction false} EmittedKeeps<A(!new), B(!new), C(!new)>(
    emit: (seq<B>, A, B) -> seq<C>, good: seq<C> -> bool, fits: (A, B) -> bool, first: seq<C>, xs: seq<A>, ys: seq<B>,
    n: nat)
    requires |ys| == n + |xs| && good(first)
    requires forall i :: 0 <= i < |xs| ==> fits(xs[i], ys[n + i])
    requires forall all, before, x, y :: good(all) && fits(x, y) ==> good(all + emit(before, x, y))
    ensures good(first + Emitted(emit, xs, ys, n))
  {
    if xs == [] {
      assert first + [] == first;
    } else {
      var last := |xs| - 1;
      EmittedKeeps(emit, good, fits, first, xs[..last], ys[..n + last], n);
      var done, more := Emitted(emit, xs[..last], ys[..n + last], n), emit(ys[..n + last], xs[last], ys[n + last]);
      assert first + (done + more) == first + done + more;
    }
  }
}
