/** What a failed dial learned: which machine its addresses answered as, and
    what of that was proven by a signature. */
module TrustPrompts {
  import opened Common
  import opened Registry

  type Seen = (SocketAddr, Fingerprint)

  datatype TrustPrompt = Nothing | Offer(addr: SocketAddr, fp: Fingerprint) | Conflict

  predicate Agree(seen: seq<Seen>) {
    forall i, j :: 0 <= i < |seen| && 0 <= j < |seen| ==> seen[i].1 == seen[j].1
  }

  function Machines(seen: seq<Seen>): (s: set<Fingerprint>) {
    set x | x in seen :: x.1
  }

  lemma OneMachine(seen: seq<Seen>)
    ensures |Machines(seen)| == 0 <==> seen == []
    ensures seen != [] ==> (|Machines(seen)| == 1 <==> Agree(seen))
  {
    if seen != [] {
      assert seen[0] in seen && seen[0].1 in Machines(seen);
      if Agree(seen) {
        assert Machines(seen) == {seen[0].1};
      } else {
        var i, j :| 0 <= i < |seen| && 0 <= j < |seen| && seen[i].1 != seen[j].1;
        assert seen[i] in seen && seen[j] in seen;
        var rest := Machines(seen) - {seen[i].1};
        assert seen[j].1 in rest;
        assert Machines(seen) == rest + {seen[i].1};
      }
    }
  }

  /** Decide from what the addresses said: nothing when none answered, an offer
      when all that did name one machine, an alarm when they name several. */
  method DecideTrustPrompt(seen: seq<Seen>) returns (r: TrustPrompt)
    ensures r == Decision(seen)
  {
    var distinct: set<Fingerprint> := {};
    for i := 0 to |seen|
      invariant distinct == Machines(seen[..i])
    {
      assert seen[..i + 1] == seen[..i] + [seen[i]];
      distinct := distinct + {seen[i].1};
    }
    assert seen[..|seen|] == seen;
    OneMachine(seen);
    if |distinct| == 0 {
      return Nothing;
    }
    if |distinct| == 1 {
      return Offer(seen[0].0, seen[0].1);
    }
    return Conflict;
  }

  function Decision(seen: seq<Seen>): (r: TrustPrompt) {
    if seen == [] then Nothing
    else if Agree(seen) then Offer(seen[0].0, seen[0].1)
    else Conflict
  }

  /** Which address answered first, or last, decides nothing: any order of the
      same answers gives the same decision, about the same machine. */
  lemma NobodyWinsByAnsweringLate(seen: seq<Seen>, other: seq<Seen>)
    requires multiset(seen) == multiset(other)
    ensures Decision(seen).Nothing? == Decision(other).Nothing?
    ensures Decision(seen).Conflict? == Decision(other).Conflict?
    ensures Decision(seen).Offer? ==> Decision(seen).fp == Decision(other).fp && (Decision(other).addr, Decision(other).fp) in seen
  {
    assert |seen| == |multiset(seen)| == |multiset(other)| == |other|;
    assert forall x :: x in seen <==> x in other by {
      forall x ensures x in seen <==> x in other {
        assert x in multiset(seen) <==> x in multiset(other);
      }
    }
    if Agree(seen) {
      AgreeByMembers(seen, other);
    }
    if Agree(other) {
      AgreeByMembers(other, seen);
    }
    if other != [] {
      assert other[0] in seen;
    }
  }

  lemma AgreeByMembers(seen: seq<Seen>, other: seq<Seen>)
    requires forall x :: x in other ==> x in seen
    requires Agree(seen)
    ensures Agree(other)
  {
    forall i, j | 0 <= i < |other| && 0 <= j < |other| ensures other[i].1 == other[j].1 {
      assert other[i] in seen && other[j] in seen;
    }
  }

  /** The first address that proved `fp` among those allowed. */
  function FirstProof(proven: seq<Seen>, fp: Fingerprint, dials: SocketAddr -> bool): (r: Option<SocketAddr>)
    ensures r.Some? ==> (r.value, fp) in proven && dials(r.value)
    ensures r.None? <==> forall i :: 0 <= i < |proven| && proven[i].1 == fp ==> !dials(proven[i].0)
  {
    if proven == [] then None
    else if proven[0].1 == fp && dials(proven[0].0) then Some(proven[0].0)
    else
      var r := FirstProof(proven[1..], fp, dials);
      assert r.Some? ==> (r.value, fp) in proven;
      assert forall i :: 0 < i < |proven| ==> proven[i] == proven[1..][i - 1];
      r
  }

  /** What a failed dial read of the machine at its device's address. */
  datatype Read = LearnedNothing | NoOneMachine | Machine(at: SocketAddr, fp: Fingerprint)

  function WhatTheDialRead(seen: seq<Seen>, proven: seq<Seen>, dials: SocketAddr -> bool): (r: Read) {
    match Decision(seen)
    case Offer(_, fp) =>
      var at := FirstProof(proven, fp, dials);
      if at.Some? then Machine(at.value, fp) else LearnedNothing
    case Conflict => NoOneMachine
    case Nothing => LearnedNothing
  }

  /** The machine all answers named, if it is in `listed` and signed somewhere. */
  function ListedMachineMeasured(seen: seq<Seen>, proven: seq<Seen>, listed: set<Fingerprint>): (r: Option<Seen>) {
    match Decision(seen)
    case Offer(_, fp) =>
      var at := FirstProof(proven, fp, _ => true);
      if at.Some? && fp in listed then Some((at.value, fp)) else None
    case _ => None
  }

  /** `fp` is read exactly when there were answers, all named it, and it signed at
      an address `dials` allows; what an answer showed unsigned is never enough. */
  lemma OnlyASignatureIsRead(seen: seq<Seen>, proven: seq<Seen>, dials: SocketAddr -> bool, fp: Fingerprint)
    ensures (WhatTheDialRead(seen, proven, dials).Machine? && WhatTheDialRead(seen, proven, dials).fp == fp) <==>
      seen != [] && (forall i :: 0 <= i < |seen| ==> seen[i].1 == fp)
      && exists i :: 0 <= i < |proven| && proven[i].1 == fp && dials(proven[i].0)
    ensures var r := WhatTheDialRead(seen, proven, dials); r.Machine? ==> (r.at, r.fp) in proven && dials(r.at)
  {
    var r := WhatTheDialRead(seen, proven, dials);
    if seen != [] && (forall i :: 0 <= i < |seen| ==> seen[i].1 == fp) {
      assert Decision(seen) == Offer(seen[0].0, fp);
      var at := FirstProof(proven, fp, dials);
      if at.Some? {
        assert r == Machine(at.value, fp);
      }
    }
  }

  /** That no one machine is there is read exactly when two answers named different
      ones; and nothing, when none answered, or none signed where it may be read. */
  lemma ADisagreementIsRead(seen: seq<Seen>, proven: seq<Seen>, dials: SocketAddr -> bool)
    ensures WhatTheDialRead(seen, proven, dials).NoOneMachine? <==>
      exists i, j :: 0 <= i < |seen| && 0 <= j < |seen| && seen[i].1 != seen[j].1
  {
  }

  lemma OnlyAListedSignerIsMeasured(seen: seq<Seen>, proven: seq<Seen>, listed: set<Fingerprint>, fp: Fingerprint)
    ensures (ListedMachineMeasured(seen, proven, listed).Some? && ListedMachineMeasured(seen, proven, listed).value.1 == fp) <==>
      seen != [] && (forall i :: 0 <= i < |seen| ==> seen[i].1 == fp) && fp in listed
      && exists i :: 0 <= i < |proven| && proven[i].1 == fp
    ensures var r := ListedMachineMeasured(seen, proven, listed); r.Some? ==> r.value in proven
  {
    var r := ListedMachineMeasured(seen, proven, listed);
    if seen != [] && (forall i :: 0 <= i < |seen| ==> seen[i].1 == fp) {
      assert Decision(seen) == Offer(seen[0].0, fp);
      var at := FirstProof(proven, fp, _ => true);
      if at.Some? && fp in listed {
        assert r == Some((at.value, fp));
      }
    }
  }
}
