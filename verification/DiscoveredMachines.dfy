/** The list of machines seen, over every run: a map with a time for each entry
    that keeps the machines heard from most recently. */
module DiscoveredMachines {
  import opened Common
  import opened Discovery

  /** What a machine is filed under: what it claims to be, else its name. */
  function PeerKey(p: Peer): (k: Key) {
    if p.claimed.Some? then p.claimed.value else p.name
  }

  function Truncated(p: Peer): (r: Peer) {
    p.(addrs := if |p.addrs| > MAX_ADDRS then p.addrs[..MAX_ADDRS] else p.addrs)
  }

  /** The entry heard from longest ago; the order of a hash map decides a tie. */
  predicate Stalest(l: Peers, k: Key) {
    k in l && forall x :: x in l ==> l[k].heard <= l[x].heard
  }

  predicate MakesRoom(l: Peers, p: Peer) {
    PeerKey(p) !in l && |l| >= MAX_PEERS
  }

  /** The list after `p` is heard of, `gone` making room when room is needed. */
  function AfterFound(l: Peers, p: Peer, now: Time, gone: Key): (r: Peers) {
    var k := PeerKey(p);
    if k in l then l[k := Seen(Merged(l[k].peer, Truncated(p)), now)]
    else (if |l| >= MAX_PEERS then l - {gone} else l)[k := Seen(Truncated(p), now)]
  }

  /** Whether hearing of `p` told anything new. */
  predicate IsNews(l: Peers, p: Peer) {
    PeerKey(p) in l ==> Merged(l[PeerKey(p)].peer, Truncated(p)) != l[PeerKey(p)].peer
  }

  predicate AnsweredBy(l: Peers, name: string, k: Key) {
    k in l && BaseLabel(l[k].peer.name) == BaseLabel(name)
  }

  // ----------------------------------------------------------------- runs

  datatype Event = Heard(peer: Peer, now: Time, gone: Key) | Withdrawn(name: string, key: Key)

  /** Announcements come at strictly increasing times; the hash map's order picks
      among entries that could go. */
  ghost predicate Possible(l: Peers, clock: Time, e: Event) {
    match e
    case Heard(p, now, gone) => now > clock && (MakesRoom(l, p) ==> Stalest(l, gone))
    case Withdrawn(name, key) => AnsweredBy(l, name, key)
  }

  function Next(l: Peers, e: Event): (r: Peers) {
    match e
    case Heard(p, now, gone) => AfterFound(l, p, now, gone)
    case Withdrawn(_, key) => l - {key}
  }

  function Clock(clock: Time, e: Event): (t: Time) {
    if e.Heard? then e.now else clock
  }

  ghost predicate PossibleRun(l: Peers, clock: Time, es: seq<Event>)
    decreases |es|
  {
    es != [] ==> Possible(l, clock, es[0]) && PossibleRun(Next(l, es[0]), Clock(clock, es[0]), es[1..])
  }

  function Run(l: Peers, es: seq<Event>): (r: Peers)
    decreases |es|
  {
    if es == [] then l else Run(Next(l, es[0]), es[1..])
  }

  /** Bounded in machines and in addresses, one time for each machine, and each
      filed under what it claims. */
  ghost predicate Inv(l: Peers, clock: Time) {
    && |l| <= MAX_PEERS
    && (forall k :: k in l ==> Filed(k, l[k].peer))
    && Timed(l, clock)
  }

  predicate Filed(k: Key, p: Peer) {
    |p.addrs| <= MAX_ADDRS && (p.claimed.Some? ==> p.claimed.value == k)
  }

  ghost predicate Timed(l: Peers, clock: Time) {
    && (forall k :: k in l ==> l[k].heard <= clock)
    && (forall j, k :: j in l && k in l && j != k ==> l[j].heard != l[k].heard)
  }

  lemma SizeAfterRemoval(l: Peers, k: Key)
    ensures (l - {k}).Keys == l.Keys - {k}
    ensures |l - {k}| == |l| - if k in l then 1 else 0
  {
    assert (l - {k}).Keys == l.Keys - {k};
  }

  lemma RemovalHolds(l: Peers, clock: Time, k: Key)
    requires Inv(l, clock)
    ensures Inv(l - {k}, clock)
  {
    SizeAfterRemoval(l, k);
  }

  lemma EntryHolds(l: Peers, clock: Time, k: Key, seen: Seen)
    requires Inv(l, clock) && seen.heard > clock && Filed(k, seen.peer)
    requires k in l || |l| < MAX_PEERS
    ensures Inv(l[k := seen], seen.heard)
  {
    EntryTimed(l, clock, k, seen);
    assert l[k := seen].Keys == l.Keys + {k};
    assert k in l ==> l.Keys + {k} == l.Keys;
  }

  lemma EntryTimed(l: Peers, clock: Time, k: Key, seen: Seen)
    requires Timed(l, clock) && seen.heard > clock
    ensures Timed(l[k := seen], seen.heard)
  {
  }

  lemma StepHolds(l: Peers, clock: Time, e: Event)
    requires Inv(l, clock) && Possible(l, clock, e)
    ensures Inv(Next(l, e), Clock(clock, e))
  {
    match e
    case Withdrawn(_, key) => RemovalHolds(l, clock, key);
    case Heard(p, now, gone) =>
      var k := PeerKey(p);
      if k in l {
        MergeKeepsAddresses(l[k].peer, Truncated(p));
        EntryHolds(l, clock, k, Seen(Merged(l[k].peer, Truncated(p)), now));
      } else if |l| >= MAX_PEERS {
        RemovalHolds(l, clock, gone);
        SizeAfterRemoval(l, gone);
        EntryHolds(l - {gone}, clock, k, Seen(Truncated(p), now));
      } else {
        EntryHolds(l, clock, k, Seen(Truncated(p), now));
      }
  }

  lemma {:induction false} RunHolds(l: Peers, clock: Time, es: seq<Event>)
    requires Inv(l, clock) && PossibleRun(l, clock, es)
    ensures |Run(l, es)| <= MAX_PEERS
    ensures forall k :: k in Run(l, es) ==> Filed(k, Run(l, es)[k].peer)
    decreases |es|
  {
    if es != [] {
      StepHolds(l, clock, es[0]);
      RunHolds(Next(l, es[0]), Clock(clock, es[0]), es[1..]);
    }
  }

  // ------------------------------------------------- who makes room, and when

  /** The machines but `k` heard of in these events. */
  function Others(es: seq<Event>, k: Key): (s: set<Key>)
    decreases |es|
  {
    if es == [] then {} else
      Others(es[1..], k) + if es[0].Heard? && PeerKey(es[0].peer) != k then {PeerKey(es[0].peer)} else {}
  }

  function Newer(l: Peers, k: Key): (s: set<Key>)
    requires k in l
  {
    set x | x in l && l[x].heard > l[k].heard
  }

  /** No event hears of `k` again or withdraws it. */
  ghost predicate Silent(es: seq<Event>, k: Key) {
    forall i :: 0 <= i < |es| ==> (es[i].Heard? ==> PeerKey(es[i].peer) != k) && (es[i].Withdrawn? ==> es[i].key != k)
  }

  /** One announcement of another machine: what is newer than `k` grows by it, and
      `k` makes room only when that comes to as many as the list holds. */
  lemma HearingAnother(l: Peers, clock: Time, e: Event, k: Key)
    requires Inv(l, clock) && Possible(l, clock, e) && k in l
    requires e.Heard? && PeerKey(e.peer) != k
    ensures k in Next(l, e) <==> |Newer(l, k) + {PeerKey(e.peer)}| < MAX_PEERS
    ensures k in Next(l, e) ==> Newer(Next(l, e), k) == Newer(l, k) + {PeerKey(e.peer)}
  {
    var x := PeerKey(e.peer);
    assert Newer(l, k) <= l.Keys - {k};
    if x in l {
      SetSizes(Newer(l, k) + {x}, l.Keys - {k});
      assert Next(l, e).Keys == l.Keys;
      NewerWith(l, clock, k, x, Next(l, e)[x]);
    } else if |l| < MAX_PEERS {
      SetSizes(Newer(l, k), l.Keys - {k});
      NewerWith(l, clock, k, x, Next(l, e)[x]);
    } else {
      MakingRoom(l, clock, k, e.gone);
      if e.gone != k {
        RemovalHolds(l, clock, e.gone);
        NewerWith(l - {e.gone}, clock, k, x, Next(l, e)[x]);
      }
    }
  }

  lemma NewerWith(l: Peers, clock: Time, k: Key, x: Key, seen: Seen)
    requires Inv(l, clock) && k in l && x != k && seen.heard > clock
    ensures Newer(l[x := seen], k) == Newer(l, k) + {x}
  {
  }

  /** The stalest of a full list is the one everything else is newer than. */
  lemma MakingRoom(l: Peers, clock: Time, k: Key, gone: Key)
    requires Inv(l, clock) && |l| == MAX_PEERS && Stalest(l, gone) && k in l
    ensures gone == k <==> |Newer(l, k)| == MAX_PEERS - 1
    ensures |Newer(l, k)| <= MAX_PEERS - 1
    ensures gone != k ==> Newer(l - {gone}, k) == Newer(l, k)
  {
    if gone == k {
      assert Newer(l, k) == l.Keys - {k};
    } else {
      assert Newer(l, k) <= l.Keys - {k} - {gone};
      SetSizes(Newer(l, k), l.Keys - {k} - {gone});
    }
  }

  lemma {:induction false} SetSizes(a: set<Key>, b: set<Key>)
    requires a <= b
    ensures |a| <= |b|
    decreases a
  {
    if a != {} {
      var x :| x in a;
      SetSizes(a - {x}, b - {x});
    }
  }

  lemma SilentStep(l: Peers, clock: Time, e: Event, k: Key, since: set<Key>)
    requires Inv(l, clock) && Possible(l, clock, e)
    requires (e.Heard? ==> PeerKey(e.peer) != k) && (e.Withdrawn? ==> e.key != k)
    requires if k in l then Newer(l, k) <= since else |since| >= MAX_PEERS
    ensures var more := since + if e.Heard? then {PeerKey(e.peer)} else {};
      if k in Next(l, e) then Newer(Next(l, e), k) <= more else |more| >= MAX_PEERS
  {
    var more := since + if e.Heard? then {PeerKey(e.peer)} else {};
    SetSizes(since, more);
    if k in l && e.Heard? {
      HearingAnother(l, clock, e, k);
      SetSizes(Newer(l, k) + {PeerKey(e.peer)}, more);
    } else if k in l {
      assert Newer(l - {e.key}, k) <= Newer(l, k);
    }
  }

  lemma OthersSplit(es: seq<Event>, k: Key, since: set<Key>)
    requires es != [] && Silent(es, k)
    ensures since + Others(es, k) == (since + if es[0].Heard? then {PeerKey(es[0].peer)} else {}) + Others(es[1..], k)
    ensures Silent(es[1..], k) && (es[0].Heard? ==> PeerKey(es[0].peer) != k) && (es[0].Withdrawn? ==> es[0].key != k)
  {
  }

  lemma {:induction false} DroppedAfterOthers(l: Peers, clock: Time, es: seq<Event>, k: Key, since: set<Key>)
    requires Inv(l, clock) && PossibleRun(l, clock, es) && Silent(es, k)
    requires if k in l then Newer(l, k) <= since else |since| >= MAX_PEERS
    ensures k !in Run(l, es) ==> |since + Others(es, k)| >= MAX_PEERS
    decreases |es|
  {
    if es == [] {
      assert since + Others(es, k) == since;
    } else {
      OthersSplit(es, k, since);
      StepHolds(l, clock, es[0]);
      SilentStep(l, clock, es[0], k, since);
      DroppedAfterOthers(Next(l, es[0]), Clock(clock, es[0]), es[1..], k,
                         since + if es[0].Heard? then {PeerKey(es[0].peer)} else {});
    }
  }

  /** A machine heard of, and not withdrawn since, is gone from the list only
      once as many other machines as the list holds were heard of after it. */
  lemma OnlyAFloodDropsAMachine(l: Peers, clock: Time, heard: Event, es: seq<Event>)
    requires Inv(l, clock) && heard.Heard? && PossibleRun(l, clock, [heard] + es)
    requires Silent(es, PeerKey(heard.peer))
    ensures var k := PeerKey(heard.peer);
      k !in Run(l, [heard] + es) ==> |Others(es, k)| >= MAX_PEERS
  {
    var all, k := [heard] + es, PeerKey(heard.peer);
    assert all[0] == heard && all[1..] == es;
    StepHolds(l, clock, heard);
    var l' := Next(l, heard);
    assert Newer(l', k) == {};
    DroppedAfterOthers(l', heard.now, es, k, {});
    assert {} + Others(es, k) == Others(es, k);
  }

  lemma {:induction false} KeptExactlyUntil(l: Peers, clock: Time, es: seq<Event>, k: Key, since: set<Key>)
    requires Inv(l, clock) && PossibleRun(l, clock, es) && Silent(es, k)
    requires forall i :: 0 <= i < |es| ==> es[i].Heard?
    requires k in l <==> |since| < MAX_PEERS
    requires k in l ==> Newer(l, k) == since
    ensures k in Run(l, es) <==> |since + Others(es, k)| < MAX_PEERS
    decreases |es|
  {
    if es == [] {
      assert since + Others(es, k) == since;
    } else {
      var e := es[0];
      assert e.Heard? && PeerKey(e.peer) != k;
      StepHolds(l, clock, e);
      var more := since + {PeerKey(e.peer)};
      if k in l {
        HearingAnother(l, clock, e, k);
        assert k in Next(l, e) ==> Newer(Next(l, e), k) == more;
      } else {
        SetSizes(since, more);
      }
      assert Silent(es[1..], k);
      KeptExactlyUntil(Next(l, e), Clock(clock, e), es[1..], k, more);
      assert more + Others(es[1..], k) == since + Others(es, k);
    }
  }

  /** With nothing withdrawn, a machine stays listed exactly while fewer others
      than the list holds were heard of after it: the map of times keeps the
      machines a list ordered by recency would. */
  lemma ListedExactlyWhileRecent(l: Peers, clock: Time, heard: Event, es: seq<Event>)
    requires Inv(l, clock) && heard.Heard? && PossibleRun(l, clock, [heard] + es)
    requires Silent(es, PeerKey(heard.peer)) && forall i :: 0 <= i < |es| ==> es[i].Heard?
    ensures var k := PeerKey(heard.peer);
      k in Run(l, [heard] + es) <==> |Others(es, k)| < MAX_PEERS
  {
    var all, k := [heard] + es, PeerKey(heard.peer);
    assert all[0] == heard && all[1..] == es;
    StepHolds(l, clock, heard);
    var l' := Next(l, heard);
    assert Newer(l', k) == {};
    KeptExactlyUntil(l', heard.now, es, k, {});
    assert {} + Others(es, k) == Others(es, k);
  }

  /** What hearing of a machine leaves of it: heard now, and filed under what it claims
      or its name. One not listed is listed as it announced itself, with no more than
      sixteen addresses, the first of them; one listed has its claim, its name and its
      addresses merged. No other entry changes, but for one that makes room. */
  lemma HeardIsListed(l: Peers, p: Peer, now: Time, gone: Key)
    ensures var r := AfterFound(l, p, now, gone);
      var k := if p.claimed.Some? then p.claimed.value else p.name;
      var first := if |p.addrs| <= 16 then p.addrs else p.addrs[..16];
      && k in r && r[k].heard == now
      && (k !in l ==> r[k].peer == Peer(p.claimed, p.name, first))
      && (k in l ==>
            && (l[k].peer.claimed.Some? ==> r[k].peer.claimed == l[k].peer.claimed)
            && ByteLen(r[k].peer.name) <= ByteLen(l[k].peer.name)
            && (forall a :: a in l[k].peer.addrs ==> a in r[k].peer.addrs)
            && (forall a :: a in r[k].peer.addrs ==> a in l[k].peer.addrs || a in first)
            && (|r[k].peer.addrs| < 16 ==> forall a :: a in first ==> a in r[k].peer.addrs))
      && (forall x :: x in r && x != k ==> x in l && r[x] == l[x])
      && (forall x :: x in l && x !in r ==> x == gone && k !in l && |l| >= 64)
  {
    if PeerKey(p) in l {
      MergeKeepsAddresses(l[PeerKey(p)].peer, Truncated(p));
      MergeKeepsTheShorterName(l[PeerKey(p)].peer, Truncated(p));
    }
  }

  // ---------------------------------------------------- what is news, and not

  /** Hearing of a machine tells something new exactly when it was not listed, or its
      entry comes out another. */
  lemma NewsIsAChange(l: Peers, p: Peer, now: Time, gone: Key)
    ensures var r := AfterFound(l, p, now, gone);
      IsNews(l, p) <==> PeerKey(p) !in l || r[PeerKey(p)].peer != l[PeerKey(p)].peer
  {
  }

  /** Hearing the very same again is news exactly once more, when its machine was
      new and its addresses were not in order or its name was numbered; from then
      on, or when its machine was listed before, never. */
  lemma SameAnnouncementAgain(l: Peers, p: Peer, first: Time, second: Time, third: Time, gone: Key)
    ensures var once := AfterFound(l, p, first, gone);
      && (PeerKey(p) !in l ==> IsNews(l, p))
      && (IsNews(once, p) <==>
            PeerKey(p) !in l && (!Sorted(Truncated(p).addrs) || Numbered(p.name)))
      && !IsNews(AfterFound(once, p, second, gone), p)
  {
    var q := Truncated(p);
    if PeerKey(p) in l {
      MergeTwiceIsOnce(l[PeerKey(p)].peer, q);
    } else {
      GatheredAgain(q.addrs, q.addrs);
      SortedStays(q.addrs);
      ShorterPrefix(BaseLabel(p.name), p.name);
      OnlyNumbersComeOff(p.name);
      MergeTwiceIsOnce(q, q);
    }
  }

  /** A machine whose name was cut to its base is found again by the name it is
      withdrawn under exactly when that base is not itself numbered. */
  lemma WithdrawnUnderItsOwnName(l: Peers, k: Key, name: string)
    requires k in l && l[k].peer.name == BaseLabel(name)
    ensures AnsweredBy(l, name, k) <==> !Numbered(BaseLabel(name))
  {
    OnlyNumbersComeOff(BaseLabel(name));
  }

  /** Not every name's base is its own: two conflicts make one that is not. */
  lemma ABaseCanHaveASuffix(name: string)
    ensures var twice := name + " (2)" + " (3)";
      && BaseLabel(twice) == name + " (2)"
      && BaseLabel(BaseLabel(twice)) == name != BaseLabel(twice)
  {
    var once := name + " (2)";
    assert once == name + " (" + "2" + ")";
    assert once + " (3)" == once + " (" + "3" + ")";
    SuffixComesOff(name, "2");
    SuffixComesOff(once, "3");
  }

  /** Such a machine, from an empty list: heard of twice, cut to its base by the
      second, and withdrawn under the name it announced. No entry answers to that
      name, and the machine stays listed. */
  lemma ListedAfterItsWithdrawal(stem: string, fp: string, addrs: seq<Addr>)
    ensures var p := Peer(Some(fp), stem + " (2)" + " (3)", addrs);
      var es := [Heard(p, 1, fp), Heard(p, 2, fp)];
      && PossibleRun(map[], 0, es) && fp in Run(map[], es)
      && forall k :: !AnsweredBy(Run(map[], es), p.name, k)
  {
    var p := Peer(Some(fp), stem + " (2)" + " (3)", addrs);
    ABaseCanHaveASuffix(stem);
    CutByTheSecond(p, fp);
    HeardTwice(p, fp);
  }

  lemma HeardTwice(p: Peer, fp: string)
    requires p.claimed == Some(fp)
    ensures var es := [Heard(p, 1, fp), Heard(p, 2, fp)];
      PossibleRun(map[], 0, es) && Run(map[], es) == AfterFound(AfterFound(map[], p, 1, fp), p, 2, fp)
  {
    var es := [Heard(p, 1, fp), Heard(p, 2, fp)];
    var once := AfterFound(map[], p, 1, fp);
    var twice := AfterFound(once, p, 2, fp);
    assert es[1..] == [es[1]] && [es[1]][1..] == [];
    assert Run(twice, []) == twice && Run(once, es[1..]) == twice;
    assert PossibleRun(twice, 2, []) && PossibleRun(once, 1, es[1..]);
  }

  lemma CutByTheSecond(p: Peer, fp: string)
    requires p.claimed == Some(fp) && BaseLabel(p.name) != p.name
    ensures var l := AfterFound(AfterFound(map[], p, 1, fp), p, 2, fp);
      l.Keys == {fp} && l[fp].peer.name == BaseLabel(p.name)
  {
    ShorterPrefix(BaseLabel(p.name), p.name);
  }

  // -------------------------------------------------------------- the object

  /** Fold an announcement into what is known of a machine. */
  method MergeInto(known: Peer, news: Peer) returns (r: Peer, changed: bool)
    ensures r == Merged(known, news)
    ensures changed == (r != known)
  {
    var addrs := known.addrs;
    var i := 0;
    while i < |news.addrs| && |addrs| < MAX_ADDRS
      invariant i <= |news.addrs|
      invariant Gathered(known.addrs, news.addrs) == Gathered(addrs, news.addrs[i..])
      decreases |news.addrs| - i
    {
      assert news.addrs[i..][1..] == news.addrs[i + 1..];
      if news.addrs[i] !in addrs {
        addrs := addrs + [news.addrs[i]];
      }
      i := i + 1;
    }
    r := known.(addrs := Sort(addrs));
    var base := BaseLabel(news.name);
    if ByteLen(base) < ByteLen(r.name) {
      r := r.(name := base);
    }
    if r.claimed.None? {
      r := r.(claimed := news.claimed);
    }
    changed := r != known;
  }

  class DiscoveredPeers {
    var peers: Peers

    constructor ()
      ensures peers == map[]
    {
      peers := map[];
    }

    method StalestKey() returns (k: Key)
      requires peers != map[]
      ensures Stalest(peers, k)
    {
      var left := peers.Keys;
      k :| k in left;
      left := left - {k};
      while left != {}
        invariant k in peers && left <= peers.Keys
        invariant forall x :: x in peers && x !in left ==> peers[k].heard <= peers[x].heard
        decreases left
      {
        var x :| x in left;
        if peers[x].heard < peers[k].heard {
          k := x;
        }
        left := left - {x};
      }
    }

    method Found(p: Peer, now: Time) returns (changed: bool)
      modifies this
      ensures changed == IsNews(old(peers), p)
      ensures exists gone :: (MakesRoom(old(peers), p) ==> Stalest(old(peers), gone))
                             && peers == AfterFound(old(peers), p, now, gone)
    {
      var q := Truncated(p);
      var k := PeerKey(q);
      if k in peers {
        var merged, news := MergeInto(peers[k].peer, q);
        peers := peers[k := Seen(merged, now)];
        assert peers == AfterFound(old(peers), p, now, k);
        return news;
      }
      if |peers| >= MAX_PEERS {
        var gone := StalestKey();
        peers := peers - {gone};
        peers := peers[k := Seen(q, now)];
        assert peers == AfterFound(old(peers), p, now, gone);
        return true;
      }
      peers := peers[k := Seen(q, now)];
      assert peers == AfterFound(old(peers), p, now, k);
      changed := true;
    }

    /** Forget one machine withdrawn under `name`, if any is listed by it. */
    method Lost(name: string) returns (was: Option<Peer>)
      modifies this
      ensures was.None? ==> peers == old(peers) && forall k :: !AnsweredBy(old(peers), name, k)
      ensures was.Some? ==> exists k :: AnsweredBy(old(peers), name, k) && was == Some(old(peers)[k].peer)
                                        && peers == old(peers) - {k}
    {
      var left := peers.Keys;
      while left != {}
        invariant peers == old(peers) && left <= peers.Keys
        invariant forall x :: x in peers && x !in left ==> !AnsweredBy(peers, name, x)
        decreases left
      {
        var k :| k in left;
        if BaseLabel(peers[k].peer.name) == BaseLabel(name) {
          was := Some(peers[k].peer);
          assert AnsweredBy(old(peers), name, k);
          peers := peers - {k};
          return;
        }
        left := left - {k};
      }
      was := None;
    }
  }
}
