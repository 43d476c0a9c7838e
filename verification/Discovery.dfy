/** What one announcement says and what two of them come to: names and their
    number suffixes, and lists of at most sixteen addresses. */
module Discovery {
  import opened Common
  import opened Identity

  type Key = string

  /** An address, in the order addresses are sorted. */
  type Addr = nat

  type Time = nat

  const MAX_ADDRS := 16
  const MAX_PEERS := 64

  datatype Peer = Peer(claimed: Option<string>, name: string, addrs: seq<Addr>)

  datatype Seen = Seen(peer: Peer, heard: Time)

  type Peers = map<Key, Seen>

  // ---------------------------------------------------------------- names

  predicate Digits(s: string) {
    forall i :: 0 <= i < |s| ==> '0' <= s[i] <= '9'
  }

  /** Where the last " (" starts at or before `n`. */
  function LastOpen(s: string, n: nat): (r: Option<nat>)
    requires n <= |s|
    ensures r.Some? ==> r.value + 2 <= |s| && s[r.value] == ' ' && s[r.value + 1] == '('
    ensures forall i :: (if r.Some? then r.value < i else 0 <= i) && i < n && i + 2 <= |s| ==> !(s[i] == ' ' && s[i + 1] == '(')
  {
    if n == 0 then None
    else if n + 1 <= |s| && s[n - 1] == ' ' && s[n] == '(' then Some(n - 1)
    else LastOpen(s, n - 1)
  }

  /** A name without the suffix a name conflict adds: "studio-pc (2)" is "studio-pc". */
  function BaseLabel(name: string): (r: string)
    ensures r <= name
  {
    TrimEndStops(name);
    var t := TrimEnd(name);
    var open := LastOpen(t, |t|);
    if open.None? then name else
      var inner := t[open.value + 2..];
      if |inner| > 1 && inner[|inner| - 1] == ')' && Digits(inner[..|inner| - 1]) then t[..open.value] else name
  }

  /** A name that ends, but for spaces, in a number in brackets after a space. */
  ghost predicate Numbered(name: string) {
    exists stem, n :: NumberedAs(name, stem, n)
  }

  predicate NumberedAs(name: string, stem: string, n: string) {
    n != [] && Digits(n) && TrimEnd(name) == stem + " (" + n + ")"
  }

  lemma NumberComesOff(name: string, stem: string, n: string)
    requires NumberedAs(name, stem, n)
    ensures BaseLabel(name) == stem
  {
    var t := TrimEnd(name);
    assert t[|t| - 1] == ')' && t[|stem|] == ' ' && t[|stem| + 1] == '(';
    assert t[|stem| + 2..] == n + ")" && (n + ")")[..|n|] == n;
    forall i | |stem| < i && i + 2 <= |t| ensures !(t[i] == ' ' && t[i + 1] == '(') {
      if i >= |stem| + 2 && i < |t| - 1 {
        assert t[i] == n[i - |stem| - 2];
      }
    }
    assert LastOpen(t, |t|) == Some(|stem|);
  }

  lemma CutNamesAreNumbered(name: string)
    requires BaseLabel(name) != name
    ensures Numbered(name)
  {
    var t := TrimEnd(name);
    var open := LastOpen(t, |t|).value;
    var inner := t[open + 2..];
    var n := inner[..|inner| - 1];
    CutAt(t, open, n);
    assert NumberedAs(name, t[..open], n);
  }

  lemma CutAt(t: string, open: nat, n: string)
    requires open + 2 <= |t| && t[open] == ' ' && t[open + 1] == '(' && t[open + 2..] == n + ")"
    ensures t == t[..open] + " (" + n + ")"
  {
    var u := t[..open] + " (" + n + ")";
    assert |u| == |t| && u[open + 2..] == n + ")";
    forall i | 0 <= i < |t| ensures t[i] == u[i] {
      if i >= open + 2 {
        assert t[i] == t[open + 2..][i - open - 2] == u[open + 2..][i - open - 2];
      }
    }
  }

  /** A name is cut exactly when it is numbered. */
  lemma OnlyNumbersComeOff(name: string)
    ensures BaseLabel(name) != name <==> Numbered(name)
  {
    if Numbered(name) {
      var stem, n :| NumberedAs(name, stem, n);
      NumberComesOff(name, stem, n);
      TrimEndStops(name);
      assert |stem| < |name|;
    }
    if BaseLabel(name) != name {
      CutNamesAreNumbered(name);
    }
  }

  /** Whatever the name, a conflict's suffix comes off it again. */
  lemma SuffixComesOff(name: string, n: string)
    requires n != [] && Digits(n)
    ensures BaseLabel(name + " (" + n + ")") == name
  {
    var s := name + " (" + n + ")";
    assert s[|s| - 1] == ')' && TrimEnd(s) == s;
    NumberComesOff(s, name, n);
  }

  /** A name's length, in bytes. */
  function ByteLen(s: string): (n: nat)
    ensures n >= |s|
  {
    if s == [] then 0 else
      ByteLen(s[..|s| - 1])
      + (var c := s[|s| - 1]; if c < '\U{0080}' then 1 else if c < '\U{0800}' then 2 else if c < '\U{10000}' then 3 else 4)
  }

  lemma {:induction false} ShorterPrefix(a: string, b: string)
    requires a <= b
    ensures ByteLen(a) <= ByteLen(b)
    ensures ByteLen(a) == ByteLen(b) <==> a == b
    decreases |b|
  {
    if a != b {
      assert a <= b[..|b| - 1];
      ShorterPrefix(a, b[..|b| - 1]);
    }
  }

  // ------------------------------------------------------------ addresses

  predicate Sorted(s: seq<Addr>) {
    forall i, j :: 0 <= i < j < |s| ==> s[i] <= s[j]
  }

  function Insert(x: Addr, s: seq<Addr>): (r: seq<Addr>)
    ensures multiset(r) == multiset(s) + multiset{x} && |r| == |s| + 1
  {
    if s == [] || x <= s[0] then assert [x] + s == [x] + s; [x] + s
    else assert s == [s[0]] + s[1..]; [s[0]] + Insert(x, s[1..])
  }

  function Sort(s: seq<Addr>): (r: seq<Addr>)
    ensures multiset(r) == multiset(s) && |r| == |s|
  {
    if s == [] then [] else
      assert s == [s[0]] + s[1..];
      Insert(s[0], Sort(s[1..]))
  }

  lemma {:induction false} InsertSorts(x: Addr, s: seq<Addr>)
    requires Sorted(s)
    ensures Sorted(Insert(x, s))
    decreases |s|
  {
    if s != [] && x > s[0] {
      InsertSorts(x, s[1..]);
      var r := Insert(x, s[1..]);
      forall i | 0 <= i < |r| ensures s[0] <= r[i] {
        assert r[i] in multiset(r);
        assert multiset(r) == multiset(s[1..]) + multiset{x};
        if r[i] != x {
          assert r[i] in multiset(s[1..]);
        }
      }
    }
  }

  lemma {:induction false} SortSorts(s: seq<Addr>)
    ensures Sorted(Sort(s))
  {
    if s != [] {
      SortSorts(s[1..]);
      InsertSorts(s[0], Sort(s[1..]));
    }
  }

  lemma {:induction false} SortedStays(s: seq<Addr>)
    ensures Sort(s) == s <==> Sorted(s)
    decreases |s|
  {
    SortSorts(s);
    if s != [] && Sorted(s) {
      SortedStays(s[1..]);
    }
  }

  lemma InSorted(s: seq<Addr>, a: Addr)
    ensures a in Sort(s) <==> a in s
  {
    assert a in Sort(s) <==> a in multiset(Sort(s));
    assert a in s <==> a in multiset(s);
  }

  /** The addresses heard of so far, those of `new` added at the end while there
      is room. */
  function Gathered(known: seq<Addr>, told: seq<Addr>): (r: seq<Addr>)
    ensures known <= r
    ensures |r| <= (if |known| > MAX_ADDRS then |known| else MAX_ADDRS)
    decreases |told|
  {
    if told == [] || |known| >= MAX_ADDRS then known
    else Gathered(if told[0] in known then known else known + [told[0]], told[1..])
  }

  /** What is gathered is what was known, and of the rest what there was room for. */
  lemma {:induction false} GatheredHolds(known: seq<Addr>, told: seq<Addr>)
    ensures var r := Gathered(known, told);
      && (forall a :: a in r ==> a in known || a in told)
      && (|r| < MAX_ADDRS ==> forall a :: a in told ==> a in r)
    decreases |told|
  {
    if told != [] && |known| < MAX_ADDRS {
      var next := if told[0] in known then known else known + [told[0]];
      GatheredHolds(next, told[1..]);
      assert told[0] in next;
      forall a | a in told ensures a == told[0] || a in told[1..] {
      }
    }
  }

  lemma {:induction false} GatheredAgain(known: seq<Addr>, told: seq<Addr>)
    requires |known| >= MAX_ADDRS || forall a :: a in told ==> a in known
    ensures Gathered(known, told) == known
    decreases |told|
  {
    if told != [] && |known| < MAX_ADDRS {
      GatheredAgain(known, told[1..]);
    }
  }

  // -------------------------------------------------------------- merging

  function Merged(into: Peer, told: Peer): (r: Peer) {
    Peer(if into.claimed.None? then told.claimed else into.claimed,
         if ByteLen(BaseLabel(told.name)) < ByteLen(into.name) then BaseLabel(told.name) else into.name,
         Sort(Gathered(into.addrs, told.addrs)))
  }

  /** Merging drops no address kept, takes in every new one there is room for,
      never passes the bound, and a second time changes nothing. */
  lemma MergeKeepsAddresses(into: Peer, told: Peer)
    ensures var r := Merged(into, told);
      && (forall a :: a in into.addrs ==> a in r.addrs)
      && (forall a :: a in r.addrs ==> a in into.addrs || a in told.addrs)
      && (|r.addrs| < MAX_ADDRS ==> forall a :: a in told.addrs ==> a in r.addrs)
      && (|into.addrs| <= MAX_ADDRS ==> |r.addrs| <= MAX_ADDRS)
      && Sorted(r.addrs)
  {
    var g := Gathered(into.addrs, told.addrs);
    GatheredHolds(into.addrs, told.addrs);
    SortSorts(g);
    forall a ensures a in Sort(g) <==> a in g {
      InSorted(g, a);
    }
  }

  /** Merging keeps a claim made, and takes the first; and keeps the name, but for a
      base that is shorter. */
  lemma MergeKeepsTheShorterName(into: Peer, told: Peer)
    ensures var r := Merged(into, told);
      && (into.claimed.Some? ==> r.claimed == into.claimed) && (into.claimed.None? ==> r.claimed == told.claimed)
      && r.name in {into.name, BaseLabel(told.name)}
      && ByteLen(r.name) <= ByteLen(into.name) && ByteLen(r.name) <= ByteLen(BaseLabel(told.name))
      && (ByteLen(BaseLabel(told.name)) >= ByteLen(into.name) ==> r.name == into.name)
  {
  }

  /** How many characters are at or above this one. */
  function From(s: string, c: char): (n: nat) {
    if s == [] then 0 else From(s[..|s| - 1], c) + if s[|s| - 1] >= c then 1 else 0
  }

  /** A character takes a byte, and one more for each of these it is not below: the
      encoding of section 3 of RFC 3629. */
  lemma {:induction false} BytesOfCharacters(s: string)
    ensures ByteLen(s) == |s| + From(s, '\U{0080}') + From(s, '\U{0800}') + From(s, '\U{10000}')
    decreases |s|
  {
    if s != [] {
      BytesOfCharacters(s[..|s| - 1]);
    }
  }

  lemma MergeTwiceIsOnce(into: Peer, told: Peer)
    ensures Merged(Merged(into, told), told) == Merged(into, told)
  {
    var r := Merged(into, told);
    MergeKeepsAddresses(into, told);
    GatheredAgain(r.addrs, told.addrs);
    SortedStays(r.addrs);
  }

  /** Addresses that all fit end up the same list in whatever order and by
      whatever announcements they came. */
  lemma MergeOrderDoesNotMatter(into: Peer, a: Peer, b: Peer)
    requires Distinct(into.addrs) && Distinct(a.addrs) && Distinct(b.addrs)
    requires |Merged(Merged(into, a), b).addrs| < MAX_ADDRS && |Merged(Merged(into, b), a).addrs| < MAX_ADDRS
    ensures Merged(Merged(into, a), b).addrs == Merged(Merged(into, b), a).addrs
  {
    var ab, ba := Merged(Merged(into, a), b), Merged(Merged(into, b), a);
    MergeKeepsAddresses(into, a);
    MergeKeepsAddresses(into, b);
    MergeKeepsAddresses(Merged(into, a), b);
    MergeKeepsAddresses(Merged(into, b), a);
    MergedDistinct(into, a);
    MergedDistinct(into, b);
    MergedDistinct(Merged(into, a), b);
    MergedDistinct(Merged(into, b), a);
    assert forall x :: x in ab.addrs <==> x in ba.addrs;
    SortedDistinctIsUnique(ab.addrs, ba.addrs);
  }

  predicate Distinct(s: seq<Addr>) {
    forall i, j :: 0 <= i < j < |s| ==> s[i] != s[j]
  }

  lemma {:induction false} GatheredDistinct(known: seq<Addr>, told: seq<Addr>)
    requires Distinct(known)
    ensures Distinct(Gathered(known, told))
    decreases |told|
  {
    if told != [] && |known| < MAX_ADDRS {
      GatheredDistinct(if told[0] in known then known else known + [told[0]], told[1..]);
    }
  }

  lemma {:induction false} CountOne(s: seq<Addr>)
    ensures Distinct(s) <==> forall a :: a in s ==> multiset(s)[a] == 1
    decreases |s|
  {
    if s != [] {
      var rest := s[..|s| - 1];
      CountOne(rest);
      assert s == rest + [s[|s| - 1]];
      if Distinct(s) {
        assert s[|s| - 1] !in rest;
      } else if Distinct(rest) {
        assert s[|s| - 1] in rest;
        assert multiset(s)[s[|s| - 1]] >= 2;
      } else {
        var a :| a in rest && multiset(rest)[a] != 1;
        assert multiset(rest)[a] >= 1;
        assert multiset(s)[a] != 1;
      }
    }
  }

  lemma MergedDistinct(into: Peer, told: Peer)
    requires Distinct(into.addrs)
    ensures Distinct(Merged(into, told).addrs)
  {
    var g := Gathered(into.addrs, told.addrs);
    GatheredDistinct(into.addrs, told.addrs);
    CountOne(g);
    CountOne(Sort(g));
    forall a | a in Sort(g) ensures multiset(Sort(g))[a] == 1 {
      InSorted(g, a);
    }
  }

  lemma {:induction false} SortedDistinctIsUnique(s: seq<Addr>, t: seq<Addr>)
    requires Sorted(s) && Sorted(t) && Distinct(s) && Distinct(t)
    requires forall x :: x in s <==> x in t
    ensures s == t
    decreases |s|
  {
    if s != [] {
      assert s[0] in s && s[0] in t;
    }
    if t != [] {
      assert t[0] in t && t[0] in s;
      assert s[0] == t[0];
      forall x ensures x in s[1..] <==> x in t[1..] {
        if x in s[1..] {
          assert x in s && x != s[0];
        }
        if x in t[1..] {
          assert x in t && x != t[0];
        }
      }
      SortedDistinctIsUnique(s[1..], t[1..]);
    }
  }
}
