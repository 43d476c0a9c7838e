/** Matching a list against the values a table holds: each listed value claims
    the first unclaimed key that holds exactly it. */
module Matching {
  import opened Common

  function Values<E>(q: seq<(nat, E)>): (es: seq<E>)
    ensures |es| == |q|
    ensures forall i :: 0 <= i < |q| ==> es[i] == q[i].1
  {
    seq(|q|, i requires 0 <= i < |q| => q[i].1)
  }

  function Keys<E(==)>(q: seq<(nat, E)>): (s: set<nat>) {
    set x | x in q :: x.0
  }

  /** A table as a walk in key order meets it. */
  function Walk<E(!new)>(m: map<nat, E>): (q: seq<(nat, E)>)
    ensures forall x :: x in q <==> x.0 in m && x.1 == m[x.0]
    decreases m.Keys
  {
    if m.Keys == {} then [] else
      var k := Least(m.Keys);
      var q := [(k, m[k])] + Walk(m - {k});
      assert forall x :: x in q <==> x == (k, m[k]) || x in Walk(m - {k});
      q
  }

  /** Where `e` first appears in `q`, or its length. */
  function FirstAt<E(==)>(q: seq<(nat, E)>, e: E): (i: nat)
    ensures i <= |q|
    ensures i < |q| ==> q[i].1 == e
    ensures forall j :: 0 <= j < i ==> q[j].1 != e
  {
    if q == [] || q[0].1 == e then 0 else 1 + FirstAt(q[1..], e)
  }

  function Without<E>(q: seq<(nat, E)>, at: nat): (r: seq<(nat, E)>)
    requires at < |q|
  {
    q[..at] + q[at + 1..]
  }

  /** What no value of the list claimed, and the values that claimed nothing. */
  datatype Outcome<E> = Outcome(left: seq<(nat, E)>, unmatched: seq<E>)

  function Match<E(==)>(table: seq<(nat, E)>, list: seq<E>): (r: Outcome<E>)
    decreases |list|
  {
    if list == [] then Outcome(table, []) else
      Claim(Match(table, list[..|list| - 1]), list[|list| - 1])
  }

  function Claim<E(==)>(o: Outcome<E>, e: E): (r: Outcome<E>) {
    var at := FirstAt(o.left, e);
    if at < |o.left| then Outcome(Without(o.left, at), o.unmatched)
    else Outcome(o.left, o.unmatched + [e])
  }

  lemma WithoutCount<E(!new)>(q: seq<(nat, E)>, at: nat)
    requires at < |q|
    ensures multiset(Values(q)) == multiset(Values(Without(q, at))) + multiset{q[at].1}
  {
    var es := Values(q);
    assert es == es[..at] + [es[at]] + es[at + 1..];
    assert Values(Without(q, at)) == es[..at] + es[at + 1..];
  }

  lemma ClaimCounts<E(!new)>(o: Outcome<E>, e: E, have: multiset<E>, want: multiset<E>)
    requires multiset(Values(o.left)) == have - want && multiset(o.unmatched) == want - have
    ensures multiset(Values(Claim(o, e).left)) == have - (want + multiset{e})
    ensures multiset(Claim(o, e).unmatched) == (want + multiset{e}) - have
  {
    var at := FirstAt(o.left, e);
    if at < |o.left| {
      WithoutCount(o.left, at);
      assert e in multiset(Values(o.left));
      assert multiset(Values(Claim(o, e).left)) == have - want - multiset{e};
    } else {
      assert e !in Values(o.left);
      assert e !in multiset(Values(o.left));
    }
  }

  /** Matching is multiset difference, both ways. */
  lemma {:induction false} MatchIsDifference<E(!new)>(table: seq<(nat, E)>, list: seq<E>)
    ensures multiset(Values(Match(table, list).left)) == multiset(Values(table)) - multiset(list)
    ensures multiset(Match(table, list).unmatched) == multiset(list) - multiset(Values(table))
    decreases |list|
  {
    if list != [] {
      var before, e := list[..|list| - 1], list[|list| - 1];
      assert list == before + [e];
      MatchIsDifference(table, before);
      ClaimCounts(Match(table, before), e, multiset(Values(table)), multiset(before));
    }
  }

  /** What is left keeps the table's order and drops only whole items. */
  lemma {:induction false} LeftIsPart<E(!new)>(table: seq<(nat, E)>, list: seq<E>)
    requires forall i, j :: 0 <= i < j < |table| ==> table[i].0 != table[j].0
    ensures var left := Match(table, list).left;
      && (forall x :: x in left ==> x in table)
      && (forall i, j :: 0 <= i < j < |left| ==> left[i].0 != left[j].0)
    decreases |list|
  {
    if list != [] {
      LeftIsPart(table, list[..|list| - 1]);
    }
  }

  /** The items no value claims: of those holding the same value, the last ones. */
  function Unclaimed<E(==)>(q: seq<(nat, E)>, want: multiset<E>): (r: seq<(nat, E)>) {
    if q == [] then []
    else if q[0].1 in want then Unclaimed(q[1..], want - multiset{q[0].1})
    else [q[0]] + Unclaimed(q[1..], want)
  }

  function Taken<E(==)>(q: seq<(nat, E)>, e: E): (r: seq<(nat, E)>) {
    var at := FirstAt(q, e);
    if at < |q| then Without(q, at) else q
  }

  lemma TakenBehind<E(!new)>(x: (nat, E), rest: seq<(nat, E)>, e: E)
    ensures Taken([x] + rest, e) == if x.1 == e then rest else [x] + Taken(rest, e)
  {
    var q := [x] + rest;
    assert q[1..] == rest;
    if x.1 != e && FirstAt(rest, e) < |rest| {
      var at := FirstAt(rest, e);
      assert Without(q, at + 1) == [x] + Without(rest, at);
    }
  }

  lemma {:induction false} ClaimOneMore<E(!new)>(q: seq<(nat, E)>, want: multiset<E>, e: E)
    ensures Unclaimed(q, want + multiset{e}) == Taken(Unclaimed(q, want), e)
    decreases |q|
  {
    if q != [] {
      var d, rest := q[0].1, q[1..];
      if d in want {
        assert want + multiset{e} - multiset{d} == want - multiset{d} + multiset{e};
        ClaimOneMore(rest, want - multiset{d}, e);
      } else {
        TakenBehind(q[0], Unclaimed(rest, want), e);
        if d == e {
          assert want + multiset{e} - multiset{d} == want;
        } else {
          ClaimOneMore(rest, want, e);
        }
      }
    }
  }

  lemma {:induction false} NothingClaimed<E(!new)>(q: seq<(nat, E)>)
    ensures Unclaimed(q, multiset{}) == q
    decreases |q|
  {
    if q != [] {
      NothingClaimed(q[1..]);
    }
  }

  /** What is left depends on what the list holds, not on its order. */
  lemma {:induction false} MatchIgnoresOrder<E(!new)>(table: seq<(nat, E)>, list: seq<E>)
    ensures Match(table, list).left == Unclaimed(table, multiset(list))
    decreases |list|
  {
    if list == [] {
      NothingClaimed(table);
    } else {
      var before, e := list[..|list| - 1], list[|list| - 1];
      assert list == before + [e];
      assert multiset(list) == multiset(before) + multiset{e};
      MatchIgnoresOrder(table, before);
      ClaimOneMore(table, multiset(before), e);
    }
  }

  lemma {:induction false} WalkIsDistinct<E(!new)>(m: map<nat, E>)
    ensures forall i, j :: 0 <= i < j < |Walk(m)| ==> Walk(m)[i].0 != Walk(m)[j].0
    decreases m.Keys
  {
    if m.Keys != {} {
      var k := Least(m.Keys);
      WalkIsDistinct(m - {k});
      var rest := Walk(m - {k});
      assert forall i :: 0 <= i < |rest| ==> rest[i] in rest;
    }
  }

  /** The keys that hold `e`. */
  ghost function Holding<E(!new)>(m: map<nat, E>, e: E): (s: set<nat>) {
    set k | k in m && m[k] == e
  }

  lemma HoldingLess<E(!new)>(m: map<nat, E>, k: nat, e: E)
    requires k in m
    ensures |Holding(m, e)| == |Holding(m - {k}, e)| + if m[k] == e then 1 else 0
  {
    if m[k] == e {
      assert Holding(m, e) == Holding(m - {k}, e) + {k};
    } else {
      assert Holding(m, e) == Holding(m - {k}, e);
    }
  }

  lemma WalkValues<E(!new)>(m: map<nat, E>)
    requires m.Keys != {}
    ensures var k := Least(m.Keys);
      multiset(Values(Walk(m))) == multiset{m[k]} + multiset(Values(Walk(m - {k})))
  {
    var k := Least(m.Keys);
    assert Values(Walk(m)) == [m[k]] + Values(Walk(m - {k}));
  }

  lemma {:induction false} WalkCounts<E(!new)>(m: map<nat, E>, e: E)
    ensures multiset(Values(Walk(m)))[e] == |Holding(m, e)|
    decreases m.Keys
  {
    if m.Keys != {} {
      var k := Least(m.Keys);
      WalkValues(m);
      WalkCounts(m - {k}, e);
      HoldingLess(m, k, e);
    }
  }

  /** Taking keys out takes exactly their values out. */
  lemma {:induction false} HoldingWithout<E(!new)>(m: map<nat, E>, q: seq<(nat, E)>, e: E)
    requires forall i, j :: 0 <= i < j < |q| ==> q[i].0 != q[j].0
    requires forall i :: 0 <= i < |q| ==> q[i].0 in m && q[i].1 == m[q[i].0]
    ensures |Holding(m, e)| == |Holding(m - Keys(q), e)| + multiset(Values(q))[e]
    decreases |q|
  {
    if q == [] {
      assert m - Keys(q) == m;
    } else {
      var before, last := q[..|q| - 1], q[|q| - 1];
      HoldingWithout(m, before, e);
      assert q == before + [last];
      assert Values(q) == Values(before) + [last.1];
      assert Keys(q) == Keys(before) + {last.0};
      var less := m - Keys(before);
      assert last.0 !in Keys(before);
      assert m - Keys(q) == less - {last.0};
      HoldingLess(less, last.0, e);
    }
  }

  /** Filling the keys from `from` on adds exactly the values filled in. */
  lemma {:induction false} HoldingExtended<E(!new)>(m: map<nat, E>, from: nat, list: seq<E>, r: map<nat, E>, e: E)
    requires forall k :: k in m ==> k < from
    requires forall k :: k in r <==> k in m || from <= k < from + |list|
    requires forall k :: k in m ==> r[k] == m[k]
    requires forall k :: from <= k < from + |list| ==> r[k] == list[k - from]
    ensures |Holding(r, e)| == |Holding(m, e)| + multiset(list)[e]
    decreases |list|
  {
    if list == [] {
      assert r == m;
    } else {
      var before := list[..|list| - 1];
      assert list == before + [list[|list| - 1]];
      HoldingExtended(m, from, before, r - {from + |before|}, e);
      HoldingLess(r, from + |before|, e);
    }
  }
}
