/** The algebra every row-producing operator is stated in.

Filters, projections, joins and batch concatenation are all one combinator,
`FlatMap`: each input row contributes a (possibly empty) sequence of output
rows. The lemmas say how `FlatMap` composes, and that its result as a multiset
depends on its input only as a multiset.

A lemma about a composite function takes that function as an argument of its own and
requires it to agree, row by row, with what it stands for. */
module Relational {

  function FlatMap<A, B>(f: A -> seq<B>, s: seq<A>): seq<B>
  {
    if s == [] then [] else f(s[0]) + FlatMap(f, s[1..])
  }

  /** The rows of `s` that satisfy `p`, in order. */
  function Select<A>(p: A -> bool, s: seq<A>): seq<A>
  {
    FlatMap(x => if p(x) then [x] else [], s)
  }

  function Map<A, B>(f: A -> B, s: seq<A>): seq<B>
  {
    FlatMap(x => [f(x)], s)
  }

  /** All rows of a sequence of batches. */
  function Flatten<A>(batches: seq<seq<A>>): seq<A>
  {
    FlatMap(b => b, batches)
  }

  lemma {:induction false} FlatMapAppend<A, B>(f: A -> seq<B>, s: seq<A>, t: seq<A>)
    ensures FlatMap(f, s + t) == FlatMap(f, s) + FlatMap(f, t)
  {
    if s == [] {
      assert s + t == t;
    } else {
      assert (s + t)[0] == s[0] && (s + t)[1..] == s[1..] + t;
      FlatMapAppend(f, s[1..], t);
    }
  }

  lemma FlattenPrepend<A>(first: seq<A>, rest: seq<seq<A>>)
    ensures Flatten([first] + rest) == first + Flatten(rest)
  {
    assert ([first] + rest)[1..] == rest;
  }

  lemma FlattenSnoc<A>(before: seq<seq<A>>, last: seq<A>)
    ensures Flatten(before + [last]) == Flatten(before) + last
  {
    FlatMapAppend((b: seq<A>) => b, before, [last]);
    assert FlatMap((b: seq<A>) => b, [last]) == last + FlatMap((b: seq<A>) => b, []);
  }

  lemma {:induction false} FlatMapExt<A, B>(f: A -> seq<B>, g: A -> seq<B>, s: seq<A>)
    requires forall x :: x in s ==> f(x) == g(x)
    ensures FlatMap(f, s) == FlatMap(g, s)
  {
    if s != [] {
      assert s[0] in s;
      FlatMapExt(f, g, s[1..]);
    }
  }

  lemma {:induction false} FlatMapFlatMap<A, B, C>(f: A -> seq<B>, g: B -> seq<C>, h: A -> seq<C>, s: seq<A>)
    requires forall x :: x in s ==> h(x) == FlatMap(g, f(x))
    ensures FlatMap(g, FlatMap(f, s)) == FlatMap(h, s)
  {
    if s != [] {
      assert s[0] in s;
      FlatMapAppend(g, f(s[0]), FlatMap(f, s[1..]));
      FlatMapFlatMap(f, g, h, s[1..]);
    }
  }

  lemma {:induction false} FlatMapMember<A, B>(f: A -> seq<B>, s: seq<A>, y: B)
    ensures y in FlatMap(f, s) <==> exists x :: x in s && y in f(x)
  {
    if s != [] {
      FlatMapMember(f, s[1..], y);
      assert forall x :: x in s <==> x == s[0] || x in s[1..];
    }
  }

  lemma SelectMember<A>(p: A -> bool, s: seq<A>, y: A)
    ensures y in Select(p, s) <==> y in s && p(y)
  {
    FlatMapMember(x => if p(x) then [x] else [], s, y);
  }

  lemma MapMember<A, B>(f: A -> B, s: seq<A>, y: B)
    ensures y in Map(f, s) <==> exists x :: x in s && y == f(x)
  {
    var g := (x: A) => [f(x)];
    FlatMapMember(g, s, y);
    assert forall x :: y in g(x) <==> y == f(x);
  }

  lemma {:induction false} MapIndex<A, B>(f: A -> B, s: seq<A>)
    ensures |Map(f, s)| == |s|
    ensures forall i :: 0 <= i < |s| ==> Map(f, s)[i] == f(s[i])
  {
    if s != [] {
      var g := (x: A) => [f(x)];
      assert Map(f, s) == g(s[0]) + FlatMap(g, s[1..]);
      MapIndex(f, s[1..]);
      assert Map(f, s[1..]) == FlatMap(g, s[1..]);
    }
  }

  /** Selecting twice is selecting once by the conjunction. */
  lemma {:induction false} SelectSelect<A>(p: A -> bool, q: A -> bool, both: A -> bool, s: seq<A>)
    requires forall x :: x in s ==> both(x) == (p(x) && q(x))
    ensures Select(p, Select(q, s)) == Select(both, s)
  {
    if s != [] {
      assert s[0] in s;
      SelectCons(q, s);
      SelectCons(both, s);
      SelectAppend(p, if q(s[0]) then [s[0]] else [], Select(q, s[1..]));
      SelectSelect(p, q, both, s[1..]);
      if q(s[0]) { SelectCons(p, [s[0]]); }
    }
  }

  lemma SelectCons<A>(p: A -> bool, s: seq<A>)
    requires s != []
    ensures Select(p, s) == (if p(s[0]) then [s[0]] else []) + Select(p, s[1..])
  {
  }

  lemma {:induction false} SelectAppend<A>(p: A -> bool, s: seq<A>, t: seq<A>)
    ensures Select(p, s + t) == Select(p, s) + Select(p, t)
  {
    FlatMapAppend(x => if p(x) then [x] else [], s, t);
  }

  lemma {:induction false} SelectOfFlatMap<A, B>(p: B -> bool, f: A -> seq<B>, g: A -> seq<B>, s: seq<A>)
    requires forall x :: x in s ==> g(x) == Select(p, f(x))
    ensures Select(p, FlatMap(f, s)) == FlatMap(g, s)
  {
    if s != [] {
      assert s[0] in s;
      SelectAppend(p, f(s[0]), FlatMap(f, s[1..]));
      SelectOfFlatMap(p, f, g, s[1..]);
    }
  }

  lemma {:induction false} FlatMapOfSelect<A, B>(f: A -> seq<B>, p: A -> bool, g: A -> seq<B>, s: seq<A>)
    requires forall x :: x in s ==> g(x) == if p(x) then f(x) else []
    ensures FlatMap(f, Select(p, s)) == FlatMap(g, s)
  {
    if s != [] {
      assert s[0] in s;
      FlatMapOfSelect(f, p, g, s[1..]);
      SelectCons(p, s);
      FlatMapAppend(f, if p(s[0]) then [s[0]] else [], Select(p, s[1..]));
      assert FlatMap(f, [s[0]]) == f(s[0]);
    }
  }

  lemma {:induction false} SelectOfMap<A, B>(p: B -> bool, f: A -> B, q: A -> bool, s: seq<A>)
    requires forall x :: x in s ==> q(x) == p(f(x))
    ensures Select(p, Map(f, s)) == Map(f, Select(q, s))
  {
    if s != [] {
      assert s[0] in s;
      SelectOfMap(p, f, q, s[1..]);
      SelectCons(q, s);
      SelectCons(p, Map(f, s));
      MapAppend(f, if q(s[0]) then [s[0]] else [], Select(q, s[1..]));
      MapAppend(f, [s[0]], s[1..]);
      assert [s[0]] + s[1..] == s;
    }
  }

  lemma MapAppend<A, B>(f: A -> B, s: seq<A>, t: seq<A>)
    ensures Map(f, s + t) == Map(f, s) + Map(f, t)
    ensures |s| == 1 ==> Map(f, s) == [f(s[0])]
    ensures s == [] ==> Map(f, s) == []
  {
    FlatMapAppend(x => [f(x)], s, t);
  }

  lemma {:induction false} MapMap<A, B, C>(f: B -> C, g: A -> B, h: A -> C, s: seq<A>)
    requires forall x :: x in s ==> h(x) == f(g(x))
    ensures Map(f, Map(g, s)) == Map(h, s)
  {
    MapIndex(g, s);
    MapIndex(f, Map(g, s));
    MapIndex(h, s);
    forall i | 0 <= i < |s| ensures Map(f, Map(g, s))[i] == Map(h, s)[i] {
      assert s[i] in s;
    }
  }

  lemma {:induction false} FlatMapOfMap<A, B, C>(f: B -> seq<C>, g: A -> B, h: A -> seq<C>, s: seq<A>)
    requires forall x :: x in s ==> h(x) == f(g(x))
    ensures FlatMap(f, Map(g, s)) == FlatMap(h, s)
  {
    if s != [] {
      assert s[0] in s;
      assert s == [s[0]] + s[1..];
      MapAppend(g, [s[0]], s[1..]);
      assert Map(g, s)[1..] == Map(g, s[1..]);
      FlatMapOfMap(f, g, h, s[1..]);
    }
  }

  lemma {:induction false} MapOfFlatMap<A, B, C>(g: B -> C, f: A -> seq<B>, h: A -> seq<C>, s: seq<A>)
    requires forall x :: x in s ==> h(x) == Map(g, f(x))
    ensures Map(g, FlatMap(f, s)) == FlatMap(h, s)
  {
    if s != [] {
      assert s[0] in s;
      MapAppend(g, f(s[0]), FlatMap(f, s[1..]));
      MapOfFlatMap(g, f, h, s[1..]);
    }
  }

  lemma {:induction false} MapOfSelect<A, B>(f: A -> B, p: A -> bool, g: A -> seq<B>, s: seq<A>)
    requires forall x :: x in s ==> g(x) == if p(x) then [f(x)] else []
    ensures Map(f, Select(p, s)) == FlatMap(g, s)
  {
    if s != [] {
      assert s[0] in s;
      SelectCons(p, s);
      MapAppend(f, if p(s[0]) then [s[0]] else [], Select(p, s[1..]));
      MapOfSelect(f, p, g, s[1..]);
    }
  }

  lemma SelectAsFlatMap<A>(p: A -> bool, f: A -> seq<A>, s: seq<A>)
    requires forall x :: x in s ==> f(x) == if p(x) then [x] else []
    ensures FlatMap(f, s) == Select(p, s)
  {
    MapOfSelect((x: A) => x, p, f, s);
    MapIndex((x: A) => x, Select(p, s));
  }

  lemma SelectCommute<A>(p: A -> bool, q: A -> bool, s: seq<A>)
    ensures Select(p, Select(q, s)) == Select(q, Select(p, s))
  {
    SelectSelect(p, q, x => p(x) && q(x), s);
    SelectSelect(q, p, x => p(x) && q(x), s);
  }

  lemma SelectExt<A>(p: A -> bool, q: A -> bool, s: seq<A>)
    requires forall x :: x in s ==> p(x) == q(x)
    ensures Select(p, s) == Select(q, s)
  {
    FlatMapExt(x => if p(x) then [x] else [], x => if q(x) then [x] else [], s);
  }

  lemma MapExt<A, B>(f: A -> B, g: A -> B, s: seq<A>)
    requires forall x :: x in s ==> f(x) == g(x)
    ensures Map(f, s) == Map(g, s)
  {
    FlatMapExt(x => [f(x)], x => [g(x)], s);
  }

  lemma {:induction false} SelectAll<A>(p: A -> bool, s: seq<A>)
    requires forall x :: x in s ==> p(x)
    ensures Select(p, s) == s
  {
    if s != [] {
      assert s[0] in s;
      SelectAll(p, s[1..]);
      assert [s[0]] + s[1..] == s;
    }
  }

  lemma {:induction false} SelectNone<A>(p: A -> bool, s: seq<A>)
    requires forall x :: x in s ==> !p(x)
    ensures Select(p, s) == []
  {
    if s != [] {
      assert s[0] in s;
      SelectNone(p, s[1..]);
    }
  }

  // ---------------------------------------------------------------------------
  // Results as multisets
  // ---------------------------------------------------------------------------

  /** Equal as multisets. Named so that a proof can carry it without unfolding `multiset`. */
  ghost predicate SameRows<A>(s: seq<A>, t: seq<A>)
  {
    multiset(s) == multiset(t)
  }

  lemma SameRowsLength<A>(s: seq<A>, t: seq<A>)
    requires SameRows(s, t)
    ensures |s| == |t|
  {
    assert |multiset(s)| == |s| && |multiset(t)| == |t|;
  }

  lemma SameRowsMembers<A>(s: seq<A>, t: seq<A>)
    requires SameRows(s, t)
    ensures |s| == |t| && forall x :: x in s <==> x in t
  {
    SameRowsLength(s, t);
    forall x ensures x in s <==> x in t {
      assert x in s <==> x in multiset(s);
      assert x in t <==> x in multiset(t);
    }
  }

  lemma SameRowsSplit<A>(t: seq<A>, i: nat)
    requires i < |t|
    ensures multiset(t) == multiset{t[i]} + multiset(t[..i] + t[i + 1..])
  {
    assert t == t[..i] + [t[i]] + t[i + 1..];
  }

  lemma SameRowsSym<A>(s: seq<A>, t: seq<A>)
    requires SameRows(s, t)
    ensures SameRows(t, s)
  {
  }

  lemma SameRowsTrans<A>(s: seq<A>, t: seq<A>, u: seq<A>)
    requires SameRows(s, t) && SameRows(t, u)
    ensures SameRows(s, u)
  {
  }

  lemma SameRowsPrefix<A>(s: seq<A>, t: seq<A>, rest: seq<A>)
    requires SameRows(s, t)
    ensures SameRows(s + rest, t + rest)
  {
  }

  /** Emitting `batch` out of `before`, after `rows` were emitted, changes where rows are, not which. */
  lemma SameRowsMove<A>(rows: seq<A>, before: seq<A>, batch: seq<A>, after: seq<A>, all: seq<A>)
    requires SameRows(rows + before, all) && SameRows(before, batch + after)
    ensures SameRows(rows + batch + after, all)
    ensures |after| + |batch| == |before|
  {
    SameRowsLength(before, batch + after);
  }

  lemma SameRowsMiddle<A>(a: seq<A>, b: seq<A>, c: seq<A>)
    ensures SameRows(a + (b + c), b + (a + c))
  {
  }

  /** Taking one row out of the input takes exactly its contribution out of the output. */
  lemma {:induction false} FlatMapSplit<A, B>(f: A -> seq<B>, t: seq<A>, i: nat)
    requires i < |t|
    ensures SameRows(FlatMap(f, t), f(t[i]) + FlatMap(f, t[..i] + t[i + 1..]))
  {
    if i == 0 {
      assert t[..0] + t[1..] == t[1..];
    } else {
      FlatMapSplit(f, t[1..], i - 1);
      var rest := t[1..][..i - 1] + t[1..][i..];
      assert t[..i] + t[i + 1..] == [t[0]] + rest;
      assert FlatMap(f, [t[0]] + rest) == f(t[0]) + FlatMap(f, rest);
      SameRowsMiddle(f(t[0]), f(t[i]), FlatMap(f, rest));
    }
  }

  lemma RowsWithout<A>(s: seq<A>, t: seq<A>) returns (i: nat)
    requires s != [] && SameRows(s, t)
    ensures i < |t| && t[i] == s[0] && SameRows(s[1..], t[..i] + t[i + 1..])
  {
    assert s == [s[0]] + s[1..];
    assert s[0] in multiset(t);
    i :| 0 <= i < |t| && t[i] == s[0];
    SameRowsSplit(t, i);
    assert multiset(s) == multiset{s[0]} + multiset(s[1..]);
    assert multiset(s[1..]) == multiset(s) - multiset{s[0]};
  }

  /** `FlatMap` as a multiset depends on its input only as a multiset. */
  lemma {:induction false} FlatMapSameRows<A, B>(f: A -> seq<B>, s: seq<A>, t: seq<A>)
    requires SameRows(s, t)
    ensures SameRows(FlatMap(f, s), FlatMap(f, t))
    decreases |s|
  {
    if s == [] {
      SameRowsLength(s, t);
    } else {
      var i := RowsWithout(s, t);
      FlatMapSameRows(f, s[1..], t[..i] + t[i + 1..]);
      FlatMapSplit(f, t, i);
    }
  }

  /** Replacing each row's contribution by a rearrangement of it. */
  lemma {:induction false} FlatMapSameRowsEach<A, B>(f: A -> seq<B>, g: A -> seq<B>, s: seq<A>)
    requires forall x :: x in s ==> SameRows(f(x), g(x))
    ensures SameRows(FlatMap(f, s), FlatMap(g, s))
  {
    if s != [] {
      assert s[0] in s;
      FlatMapSameRowsEach(f, g, s[1..]);
    }
  }

  lemma {:induction false} FlatMapPlus<A, B>(f: A -> seq<B>, g: A -> seq<B>, h: A -> seq<B>, s: seq<A>)
    requires forall x :: x in s ==> h(x) == f(x) + g(x)
    ensures SameRows(FlatMap(h, s), FlatMap(f, s) + FlatMap(g, s))
  {
    if s != [] {
      assert s[0] in s;
      FlatMapPlus(f, g, h, s[1..]);
    }
  }

  lemma {:induction false} FlatMapEmpty<A, B>(f: A -> seq<B>, s: seq<A>)
    requires forall x :: x in s ==> f(x) == []
    ensures FlatMap(f, s) == []
  {
    if s != [] {
      assert s[0] in s;
      FlatMapEmpty(f, s[1..]);
    }
  }

  /** The two nesting orders of a double loop give the same rows. */
  lemma {:induction false} FlatMapSwap<A, B, C>(f: A -> B -> seq<C>, g: B -> A -> seq<C>,
                                                fs: A -> seq<C>, gs: B -> seq<C>, s: seq<A>, t: seq<B>)
    requires forall a, b :: a in s && b in t ==> f(a)(b) == g(b)(a)
    requires forall a :: a in s ==> fs(a) == FlatMap(f(a), t)
    requires forall b :: b in t ==> gs(b) == FlatMap(g(b), s)
    ensures SameRows(FlatMap(fs, s), FlatMap(gs, t))
  {
    if s == [] {
      FlatMapEmpty(gs, t);
    } else {
      assert s[0] in s;
      var rest := (b: B) => FlatMap(g(b), s[1..]);
      FlatMapSwap(f, g, fs, rest, s[1..], t);
      FlatMapPlus(f(s[0]), rest, gs, t);
    }
  }

  lemma SelectSameRows<A>(p: A -> bool, s: seq<A>, t: seq<A>)
    requires SameRows(s, t)
    ensures SameRows(Select(p, s), Select(p, t))
  {
    FlatMapSameRows(x => if p(x) then [x] else [], s, t);
  }

  lemma MapSameRows<A, B>(f: A -> B, s: seq<A>, t: seq<A>)
    requires SameRows(s, t)
    ensures SameRows(Map(f, s), Map(f, t))
  {
    FlatMapSameRows(x => [f(x)], s, t);
  }
}
