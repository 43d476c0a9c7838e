/** What every part of the model shares: optional values, and the ascending
    order in which the source's ordered maps and sets are walked. */
module Common {

  datatype Option<+T> = None | Some(value: T)

  /** `q` lists each element of `s` once: some order a hash set can be walked in. */
  ghost predicate Lists<T>(q: seq<T>, s: set<T>) {
    multiset(q) == multiset(s)
  }

  ghost predicate StrictlyAscending(q: seq<nat>) {
    forall i, j :: 0 <= i < j < |q| ==> q[i] < q[j]
  }

  lemma {:induction false} LeastExists(s: set<nat>)
    requires s != {}
    ensures exists m :: m in s && forall x :: x in s ==> m <= x
    decreases s
  {
    var x :| x in s;
    var rest := s - {x};
    if rest == {} {
      assert s == {x};
      assert x in s && forall y :: y in s ==> x <= y;
    } else {
      LeastExists(rest);
      var m :| m in rest && forall y :: y in rest ==> m <= y;
      var least := if x < m then x else m;
      assert forall y :: y in s ==> y == x || y in rest;
      assert least in s && forall y :: y in s ==> least <= y;
    }
  }

  /** The least element, as a walk over an ordered map meets it first. */
  function Least(s: set<nat>): (m: nat)
    requires s != {}
    ensures m in s && forall x :: x in s ==> m <= x
  {
    LeastExists(s);
    var m :| m in s && forall x :: x in s ==> m <= x;
    m
  }

  lemma LeastIs(s: set<nat>, m: nat)
    requires m in s && forall x :: x in s ==> m <= x
    ensures Least(s) == m
  {
  }

  /** The elements in the order a walk over an ordered map meets them. */
  function Ascending(s: set<nat>): (q: seq<nat>)
    ensures forall x :: x in q <==> x in s
    ensures StrictlyAscending(q)
    ensures |q| == |s|
    ensures s != {} ==> q[0] == Least(s)
    decreases s
  {
    if s == {} then [] else
      var m := Least(s);
      var q := [m] + Ascending(s - {m});
      assert forall x :: x in q <==> x == m || x in s - {m};
      q
  }
}
