/** Sequences without repeats, and the distinct elements of a sequence. */
module Distinctness {
  import opened Relational

  ghost predicate Unrepeated<A>(s: seq<A>)
  {
    forall x :: x in s ==> multiset(s)[x] == 1
  }

  lemma UnrepeatedCons<A>(s: seq<A>)
    requires s != []
    ensures Unrepeated(s) <==> s[0] !in s[1..] && Unrepeated(s[1..])
  {
    var rest := s[1..];
    assert s == [s[0]] + rest;
    assert forall x :: x in s <==> x == s[0] || x in rest;
    assert forall x :: multiset(s)[x] == (if x == s[0] then 1 else 0) + multiset(rest)[x];
  }

  /** Without repeats, membership alone determines the rows. */
  lemma UnrepeatedSameRows<A>(s: seq<A>, t: seq<A>)
    requires Unrepeated(s) && Unrepeated(t) && forall x :: x in s <==> x in t
    ensures SameRows(s, t)
  {
    assert forall x :: multiset(s)[x] == multiset(t)[x];
  }

  lemma UnrepeatedOfSameRows<A>(s: seq<A>, t: seq<A>)
    requires SameRows(s, t) && Unrepeated(t)
    ensures Unrepeated(s)
  {
    forall x | x in s ensures multiset(s)[x] == 1 {
      assert x in multiset(t);
    }
  }

  lemma {:induction false} UnrepeatedSize<A>(s: seq<A>)
    requires Unrepeated(s)
    ensures |set x | x in s| == |s|
  {
    if s != [] {
      UnrepeatedCons(s);
      UnrepeatedSize(s[1..]);
      assert (set x | x in s) == {s[0]} + (set x | x in s[1..]);
    }
  }

  lemma {:induction false} MembersSize<A>(s: seq<A>)
    ensures |set x | x in s| <= |s|
  {
    if s != [] {
      MembersSize(s[1..]);
      assert (set x | x in s) == {s[0]} + (set x | x in s[1..]);
    }
  }

  lemma SubsetSize<A>(a: set<A>, b: set<A>)
    requires a <= b
    ensures |a| <= |b|
  {
    assert b == a + (b - a);
  }

  lemma {:induction false} SelectUnrepeated<A>(p: A -> bool, s: seq<A>)
    requires Unrepeated(s)
    ensures Unrepeated(Select(p, s))
  {
    if s != [] {
      UnrepeatedCons(s);
      SelectUnrepeated(p, s[1..]);
      SelectCons(p, s);
      SelectMember(p, s[1..], s[0]);
      if p(s[0]) {
        assert Select(p, s)[1..] == Select(p, s[1..]);
        UnrepeatedCons(Select(p, s));
      } else {
        assert Select(p, s) == Select(p, s[1..]);
      }
    }
  }

  lemma {:induction false} SelectOne<A>(s: seq<A>, only: A -> bool, x: A)
    requires Unrepeated(s) && forall y :: only(y) <==> y == x
    ensures Select(only, s) == if x in s then [x] else []
  {
    if s != [] {
      UnrepeatedCons(s);
      SelectCons(only, s);
      SelectOne(s[1..], only, x);
    }
  }

  /** Distinct elements in order of first appearance. */
  function Distinct<A(==)>(s: seq<A>): seq<A>
  {
    if s == [] then [] else [s[0]] + Select(x => x != s[0], Distinct(s[1..]))
  }

  lemma {:induction false} DistinctMember<A>(s: seq<A>, x: A)
    ensures x in Distinct(s) <==> x in s
  {
    if s != [] {
      DistinctMember(s[1..], x);
      SelectMember(y => y != s[0], Distinct(s[1..]), x);
    }
  }

  lemma {:induction false} DistinctUnrepeated<A>(s: seq<A>)
    ensures Unrepeated(Distinct(s))
  {
    if s != [] {
      var later := Select(y => y != s[0], Distinct(s[1..]));
      DistinctUnrepeated(s[1..]);
      SelectUnrepeated(y => y != s[0], Distinct(s[1..]));
      SelectMember(y => y != s[0], Distinct(s[1..]), s[0]);
      assert Distinct(s)[1..] == later;
      UnrepeatedCons(Distinct(s));
    }
  }

  /** The distinct elements depend on a sequence only through its members. */
  lemma DistinctSameRows<A>(s: seq<A>, t: seq<A>)
    requires forall x :: x in s <==> x in t
    ensures SameRows(Distinct(s), Distinct(t))
  {
    DistinctUnrepeated(s);
    DistinctUnrepeated(t);
    forall x ensures x in Distinct(s) <==> x in Distinct(t) {
      DistinctMember(s, x);
      DistinctMember(t, x);
    }
    UnrepeatedSameRows(Distinct(s), Distinct(t));
  }

  /** Selecting distinct elements is selecting before removing repeats. */
  lemma {:induction false} DistinctOfSelected<A>(p: A -> bool, s: seq<A>)
    ensures Distinct(Select(p, s)) == Select(p, Distinct(s))
  {
    if s != [] {
      var t, rest := Select(p, s), Distinct(s[1..]);
      var later := Select(y => y != s[0], rest);
      DistinctOfSelected(p, s[1..]);
      SelectCons(p, s);
      assert Distinct(s) == [s[0]] + later;
      SelectAppend(p, [s[0]], later);
      SelectCons(p, [s[0]]);
      if p(s[0]) {
        assert t[0] == s[0] && t[1..] == Select(p, s[1..]);
        assert Distinct(t) == [t[0]] + Select(y => y != t[0], Select(p, rest));
        SelectExt(y => y != t[0], y => y != s[0], Select(p, rest));
        SelectCommute(y => y != s[0], p, rest);
      } else {
        assert t == Select(p, s[1..]) && Select(p, Distinct(s)) == Select(p, later);
        SelectSelect(p, y => y != s[0], p, rest);
      }
    }
  }
}
