/** Dialling out to be driven: which of the things an address can say are
    believed, and which link attempts are made and kept up. */
module DialBack {
  import opened Common
  import opened Registry
  import opened Manager

  // ---------------------------------------------------- what an address says

  /** How a connection ended: a close by the transport, with its error code, a
      close by the program at the other end, or anything else. */
  datatype Ended = ConnectionClosed(code: nat) | ApplicationClosed(reason: string) | Otherwise

  /** The codes of CRYPTO_ERROR, section 20.1 of RFC 9000. */
  const CRYPTO_ERROR_FIRST := 0x100
  const CRYPTO_ERROR_LAST := 0x1ff
  const NO_APPLICATION_PROTOCOL := 0x100 + 120
  const ACCESS_DENIED := 0x100 + 49
  const REMOVED := "removed"

  datatype DialBackError =
    | NoAddress
    | NotAnswered
    | OlderVersion(addr: SocketAddr)
    | Forgotten(addr: SocketAddr)
    | Refused(addr: SocketAddr)
    | NotThePinnedMachine(addr: SocketAddr, seen: string)
    | NotTaken

  /** The failure an ending is read as, once the pin has been checked. */
  function RefusalOf(e: Ended, addr: SocketAddr): (r: DialBackError) {
    match e
    case ConnectionClosed(code) =>
      if code == NO_APPLICATION_PROTOCOL then OlderVersion(addr)
      else if code == ACCESS_DENIED then Forgotten(addr)
      else if CRYPTO_ERROR_FIRST <= code <= CRYPTO_ERROR_LAST then Refused(addr)
      else NotAnswered
    case ApplicationClosed(reason) =>
      if reason == "unauthorized" || reason == "not permitted" then Refused(addr)
      else if reason == REMOVED then Forgotten(addr)
      else NotTaken
    case Otherwise => NotAnswered
  }

  /** The failure an ending is read as before the pin could be checked. */
  function RefusalInHandshake(e: Ended, addr: SocketAddr): (r: DialBackError) {
    if e == ConnectionClosed(NO_APPLICATION_PROTOCOL) then OlderVersion(addr) else NotAnswered
  }

  /** What came of waiting for the first frame on a connection. */
  datatype First = Frame | NoFrame(closed: Option<Ended>) | StreamFailed(e: Ended)

  /** What one address did. */
  datatype Answer =
    | Unreachable
    | HandshakeFailed(e: Ended)
    | Connected(proved: Option<Fingerprint>, first: First)

  datatype Done = Up(fp: Fingerprint, at: SocketAddr) | Fails(e: DialBackError) | Gone

  /** What an attempt at one address comes to, given what that address did. */
  function Attempt(addr: SocketAddr, expected: Fingerprint, a: Answer): (d: Done)
    ensures !d.Gone?
  {
    match a
    case Unreachable => Fails(NotAnswered)
    case HandshakeFailed(e) => Fails(RefusalInHandshake(e, addr))
    case Connected(proved, first) =>
      if proved != Some(expected) then
        Fails(NotThePinnedMachine(addr, if proved.Some? then proved.value else ""))
      else match first
        case Frame => Up(expected, addr)
        case NoFrame(closed) => Fails(if closed.Some? then RefusalOf(closed.value, addr) else NotTaken)
        case StreamFailed(e) => Fails(RefusalOf(e, addr))
  }

  /** The end of a connection that proved the pinned machine. */
  function EndOf(expected: Fingerprint, a: Answer): (e: Option<Ended>) {
    if !(a.Connected? && a.proved == Some(expected)) then None
    else match a.first
      case Frame => None
      case NoFrame(closed) => closed
      case StreamFailed(e) => Some(e)
  }

  predicate SaysRemoved(e: Ended) {
    e == ConnectionClosed(ACCESS_DENIED) || e == ApplicationClosed(REMOVED)
  }

  predicate SaysRefused(e: Ended) {
    || (e.ConnectionClosed? && CRYPTO_ERROR_FIRST <= e.code <= CRYPTO_ERROR_LAST
        && e.code != ACCESS_DENIED && e.code != NO_APPLICATION_PROTOCOL)
    || e == ApplicationClosed("unauthorized") || e == ApplicationClosed("not permitted")
  }

  predicate IsPinned(expected: Fingerprint, a: Answer) {
    a.Connected? && a.proved == Some(expected)
  }

  predicate IsAnother(expected: Fingerprint, a: Answer) {
    a.Connected? && a.proved != Some(expected)
  }

  /** No protocol in common, said in the handshake by whoever answered or after it by
      the pinned machine. */
  predicate SaysOlderVersion(expected: Fingerprint, a: Answer) {
    || (a.HandshakeFailed? && a.e == ConnectionClosed(0x178))
    || EndOf(expected, a) == Some(ConnectionClosed(0x178))
  }

  /** The pinned machine took the connection and sent no frame, or closed it for a
      reason that is no refusal. */
  predicate LeftAlone(expected: Fingerprint, a: Answer) {
    IsPinned(expected, a)
    && (a.first == NoFrame(None)
        || (EndOf(expected, a).Some? && EndOf(expected, a).value.ApplicationClosed?
            && EndOf(expected, a).value.reason !in {"unauthorized", "not permitted", "removed"}))
  }

  /** "It removed this machine" and "it will not drive it" are believed exactly
      when the machine the device is pinned to proved itself and then said so; and
      what every other answer comes to. */
  lemma RefusalsAreProven(addr: SocketAddr, expected: Fingerprint, a: Answer)
    ensures var d := Attempt(addr, expected, a);
      && (d == Fails(Forgotten(addr)) <==> EndOf(expected, a).Some? && SaysRemoved(EndOf(expected, a).value))
      && (d == Fails(Refused(addr)) <==> EndOf(expected, a).Some? && SaysRefused(EndOf(expected, a).value))
      && (d.Fails? && (d.e.Forgotten? || d.e.Refused? || d.e.NotTaken?) ==> a.Connected? && a.proved == Some(expected))
      && (d == Up(expected, addr) <==> IsPinned(expected, a) && a.first.Frame?)
      && (d.Up? ==> d.fp == expected)
      && (d == Fails(OlderVersion(addr)) <==> SaysOlderVersion(expected, a))
      && (d == Fails(NotTaken) <==> LeftAlone(expected, a))
      && (d.Fails? && d.e.NotThePinnedMachine? <==> IsAnother(expected, a))
      && (IsAnother(expected, a) ==>
            d == Fails(NotThePinnedMachine(addr, if a.proved.Some? then a.proved.value else "")))
      && (a.HandshakeFailed? ==> d == Fails(NotAnswered) || d == Fails(OlderVersion(addr)))
  {
  }

  /** A dial is taken to have reached its device's machine, and its addresses are kept,
      exactly when that machine proved itself there and said something of this one. */
  lemma ReachedMeans(addr: SocketAddr, expected: Fingerprint, a: Answer)
    ensures var d := Attempt(addr, expected, a);
      d.Fails? ==> (Reached(d.e) <==>
        LeftAlone(expected, a)
        || (EndOf(expected, a).Some? && (SaysRemoved(EndOf(expected, a).value) || SaysRefused(EndOf(expected, a).value))))
    ensures var d := Attempt(addr, expected, a); d.Fails? && Reached(d.e) ==> IsPinned(expected, a)
  {
  }

  // ------------------------------------------------------ all its addresses

  function Rank(e: DialBackError): (n: nat) {
    match e
    case NoAddress => 0
    case NotAnswered => 0
    case NotTaken => 1
    case OlderVersion(_) => 2
    case Refused(_) => 3
    case Forgotten(_) => 4
    case NotThePinnedMachine(_, _) => 5
  }

  datatype DialResult = Linked(fp: Fingerprint, at: SocketAddr) | NoLink(e: DialBackError)

  /** What may be reported of attempts that completed in this order: the first
      link made, or a failure nothing outranks. */
  ghost predicate Reports(done: seq<Done>, r: DialResult) {
    match r
    case Linked(fp, at) => exists i :: 0 <= i < |done| && done[i] == Up(fp, at) && forall j :: 0 <= j < i ==> !done[j].Up?
    case NoLink(e) =>
      && (forall i :: 0 <= i < |done| ==> !done[i].Up?)
      && (forall i :: 0 <= i < |done| && done[i].Fails? ==> Rank(done[i].e) <= Rank(e))
      && (e == NotAnswered || exists i :: 0 <= i < |done| && done[i] == Fails(e))
  }

  /** Dial every address at once and keep the first link; of failures keep the
      most telling. `done` is in the order the attempts completed. */
  method DialToBeDriven(addrs: seq<SocketAddr>, done: seq<Done>) returns (r: DialResult)
    requires |done| == |addrs|
    ensures addrs == [] ==> r == NoLink(NoAddress)
    ensures addrs != [] ==> Reports(done, r)
  {
    if addrs == [] {
      return NoLink(NoAddress);
    }
    var worst := NotAnswered;
    for i := 0 to |done|
      invariant Reports(done[..i], NoLink(worst))
    {
      assert done[..i + 1][..i] == done[..i];
      match done[i] {
        case Up(fp, at) =>
          assert forall j :: 0 <= j < i ==> done[j] == done[..i][j];
          return Linked(fp, at);
        case Fails(e) =>
          if Rank(e) > Rank(worst) {
            worst := e;
            assert done[..i + 1][i] == Fails(worst);
          } else if worst != NotAnswered {
            var k :| 0 <= k < i && done[..i][k] == Fails(worst);
            assert done[..i + 1][k] == Fails(worst);
          }
        case Gone =>
          if worst != NotAnswered {
            var k :| 0 <= k < i && done[..i][k] == Fails(worst);
            assert done[..i + 1][k] == Fails(worst);
          }
      }
    }
    assert done[..|done|] == done;
    r := NoLink(worst);
  }

  predicate SameKind(a: DialBackError, b: DialBackError) {
    && a.NotThePinnedMachine? == b.NotThePinnedMachine? && a.Forgotten? == b.Forgotten? && a.Refused? == b.Refused?
    && a.OlderVersion? == b.OlderVersion? && a.NotTaken? == b.NotTaken?
  }

  lemma InBoth(d: Done, one: seq<Done>, other: seq<Done>)
    requires multiset(one) == multiset(other) && d in one
    ensures d in other
  {
    assert d in multiset(one);
    assert d in multiset(other);
  }

  lemma NothingOutranks(one: seq<Done>, other: seq<Done>, e: DialBackError, f: DialBackError)
    requires multiset(one) == multiset(other)
    requires Reports(one, NoLink(e)) && Reports(other, NoLink(f))
    ensures Rank(e) <= Rank(f)
  {
    if e != NotAnswered {
      InBoth(Fails(e), one, other);
    }
  }

  /** In whatever order the attempts complete, a link is reported or the same
      kind of failure is. */
  lemma OrderDoesNotMatter(one: seq<Done>, other: seq<Done>, r: DialResult, q: DialResult)
    requires multiset(one) == multiset(other)
    requires forall i :: 0 <= i < |one| && one[i].Fails? ==> !one[i].e.NoAddress?
    requires Reports(one, r) && Reports(other, q)
    ensures r.Linked? <==> q.Linked?
    ensures r.NoLink? ==> SameKind(r.e, q.e)
  {
    if r.Linked? {
      InBoth(Up(r.fp, r.at), one, other);
    } else if q.Linked? {
      InBoth(Up(q.fp, q.at), other, one);
    } else {
      NothingOutranks(one, other, r.e, q.e);
      NothingOutranks(other, one, q.e, r.e);
    }
  }

  /** A dial is reported as refused, removed or not taken, or makes a link, only
      when at one of its addresses the handshake completed with the pinned
      fingerprint. Nothing else at an address or on the path can bring it about. */
  lemma RefusalComesFromThePinnedMachine(addrs: seq<SocketAddr>, answers: seq<Answer>, expected: Fingerprint,
                                         done: seq<Done>, r: DialResult)
    requires |answers| == |addrs|
    requires forall d :: d in done ==> d.Gone? || exists i :: 0 <= i < |addrs| && d == Attempt(addrs[i], expected, answers[i])
    requires Reports(done, r)
    requires r.Linked? || r.e.Refused? || r.e.Forgotten? || r.e.NotTaken?
    ensures exists i :: 0 <= i < |addrs| && answers[i].Connected? && answers[i].proved == Some(expected)
                        && Attempt(addrs[i], expected, answers[i]) == (if r.Linked? then Up(r.fp, r.at) else Fails(r.e))
  {
    var d := if r.Linked? then Up(r.fp, r.at) else Fails(r.e);
    assert d in done;
    var i :| 0 <= i < |addrs| && d == Attempt(addrs[i], expected, answers[i]);
    RefusalsAreProven(addrs[i], expected, answers[i]);
  }

  datatype DialRefusal =
    | SaysOlder(h: Handle, addr: SocketAddr)
    | SaysForgotten(h: Handle, fp: Fingerprint, addr: SocketAddr)
    | WontDrive(h: Handle, fp: Fingerprint, addr: SocketAddr)
    | SaysOther(h: Handle, addr: SocketAddr, seen: string)

  /** What is passed on of a failure: nothing of silence, or of a link not taken. */
  function Told(h: Handle, fp: Fingerprint, e: DialBackError): (r: Option<DialRefusal>) {
    match e
    case OlderVersion(addr) => Some(SaysOlder(h, addr))
    case Forgotten(addr) => Some(SaysForgotten(h, fp, addr))
    case Refused(addr) => Some(WontDrive(h, fp, addr))
    case NotThePinnedMachine(addr, seen) => Some(SaysOther(h, addr, seen))
    case _ => None
  }

  /** The pinned machine proved itself, and then said it removed this one, or
      refused it. */
  predicate ProvedAndSaid(expected: Fingerprint, a: Answer, removed: bool) {
    EndOf(expected, a).Some? && (if removed then SaysRemoved(EndOf(expected, a).value) else SaysRefused(EndOf(expected, a).value))
  }

  ghost predicate SomeFails(done: seq<Done>, e: DialBackError) {
    Fails(e) in done
  }

  /** The failure kept is the most telling of all: another machine, then a removal,
      a refusal, an older version, a link not taken, and silence. */
  lemma MostTelling(done: seq<Done>, e: DialBackError)
    requires Reports(done, NoLink(e))
    ensures forall f :: SomeFails(done, f) ==>
      && (f.NotThePinnedMachine? ==> e.NotThePinnedMachine?)
      && (f.Forgotten? ==> e.NotThePinnedMachine? || e.Forgotten?)
      && (f.Refused? ==> e.NotThePinnedMachine? || e.Forgotten? || e.Refused?)
      && (f.OlderVersion? ==> !e.NotTaken? && !e.NotAnswered? && !e.NoAddress?)
      && (f.NotTaken? ==> !e.NotAnswered? && !e.NoAddress?)
    ensures e != NotAnswered ==> SomeFails(done, e)
  {
    forall f | SomeFails(done, f) ensures Rank(f) <= Rank(e) {
      var i :| 0 <= i < |done| && done[i] == Fails(f);
    }
  }

  /** Every attempt completed, and nothing else. */
  ghost predicate AllTried(addrs: seq<SocketAddr>, answers: seq<Answer>, expected: Fingerprint, done: seq<Done>)
    requires |answers| == |addrs|
  {
    && (forall i :: 0 <= i < |addrs| ==> Attempt(addrs[i], expected, answers[i]) in done)
    && (forall d :: d in done ==> d.Gone? || exists i :: 0 <= i < |addrs| && d == Attempt(addrs[i], expected, answers[i]))
  }

  datatype Word = SaidOther | SaidRemoved | SaidRefused | SaidOlder

  predicate Said(w: Word, expected: Fingerprint, a: Answer) {
    match w
    case SaidOther => IsAnother(expected, a)
    case SaidRemoved => ProvedAndSaid(expected, a, true)
    case SaidRefused => ProvedAndSaid(expected, a, false)
    case SaidOlder => SaysOlderVersion(expected, a)
  }

  ghost predicate SomeSaid(w: Word, expected: Fingerprint, answers: seq<Answer>) {
    exists i :: 0 <= i < |answers| && Said(w, expected, answers[i])
  }

  lemma SaidIsTold(addrs: seq<SocketAddr>, answers: seq<Answer>, expected: Fingerprint, done: seq<Done>, e: DialBackError, w: Word)
    requires |answers| == |addrs| && AllTried(addrs, answers, expected, done) && Reports(done, NoLink(e))
    requires SomeSaid(w, expected, answers)
    ensures match w
      case SaidOther => e.NotThePinnedMachine?
      case SaidRemoved => e.NotThePinnedMachine? || e.Forgotten?
      case SaidRefused => e.NotThePinnedMachine? || e.Forgotten? || e.Refused?
      case SaidOlder => e.NotThePinnedMachine? || e.Forgotten? || e.Refused? || e.OlderVersion?
  {
    var i :| 0 <= i < |answers| && Said(w, expected, answers[i]);
    RefusalsAreProven(addrs[i], expected, answers[i]);
    MostTelling(done, e);
    var d := Attempt(addrs[i], expected, answers[i]);
    assert SomeFails(done, d.e);
  }

  /** What a failure kept goes back to: the address it names, and what that said. */
  lemma ToldWasSaid(addrs: seq<SocketAddr>, answers: seq<Answer>, expected: Fingerprint, done: seq<Done>, e: DialBackError) returns (i: nat)
    requires |answers| == |addrs| && AllTried(addrs, answers, expected, done) && Reports(done, NoLink(e))
    requires e.NotThePinnedMachine? || e.Forgotten? || e.Refused? || e.OlderVersion?
    ensures i < |addrs| && e.addr == addrs[i]
    ensures match e
      case NotThePinnedMachine(_, seen) =>
        Said(SaidOther, expected, answers[i]) && seen == (if answers[i].proved.Some? then answers[i].proved.value else "")
      case Forgotten(_) => Said(SaidRemoved, expected, answers[i])
      case Refused(_) => Said(SaidRefused, expected, answers[i])
      case _ => Said(SaidOlder, expected, answers[i])
  {
    MostTelling(done, e);
    assert Fails(e) in done;
    i :| 0 <= i < |addrs| && Fails(e) == Attempt(addrs[i], expected, answers[i]);
    RefusalsAreProven(addrs[i], expected, answers[i]);
  }

  /** What a person is told of a dial that made no link, exactly: that another machine
      answered, if one did at any address; else that the pinned machine removed this
      one, or will not drive it, if it proved itself somewhere and said so; else that
      an older version answered; else nothing. */
  lemma PeopleAreToldWhatWasProven(addrs: seq<SocketAddr>, answers: seq<Answer>, expected: Fingerprint,
                                   done: seq<Done>, e: DialBackError, h: Handle)
    requires |answers| == |addrs| && AllTried(addrs, answers, expected, done) && Reports(done, NoLink(e))
    ensures var told := Told(h, expected, e);
      var other, removed := SomeSaid(SaidOther, expected, answers), SomeSaid(SaidRemoved, expected, answers);
      var refused, older := SomeSaid(SaidRefused, expected, answers), SomeSaid(SaidOlder, expected, answers);
      if other then told.Some? && told.value.SaysOther? && told.value.h == h
        && exists i :: 0 <= i < |addrs| && told.value.addr == addrs[i] && IsAnother(expected, answers[i])
                       && told.value.seen == if answers[i].proved.Some? then answers[i].proved.value else ""
      else if removed then exists i :: 0 <= i < |addrs| && told == Some(SaysForgotten(h, expected, addrs[i])) && ProvedAndSaid(expected, answers[i], true)
      else if refused then exists i :: 0 <= i < |addrs| && told == Some(WontDrive(h, expected, addrs[i])) && ProvedAndSaid(expected, answers[i], false)
      else if older then exists i :: 0 <= i < |addrs| && told == Some(SaysOlder(h, addrs[i])) && SaysOlderVersion(expected, answers[i])
      else told.None?
  {
    forall w | SomeSaid(w, expected, answers)
      ensures e.NotThePinnedMachine? || e.Forgotten? || e.Refused? || e.OlderVersion?
    {
      SaidIsTold(addrs, answers, expected, done, e, w);
    }
    if e.NotThePinnedMachine? || e.Forgotten? || e.Refused? || e.OlderVersion? {
      var i := ToldWasSaid(addrs, answers, expected, done, e);
      assert Said(SaidOther, expected, answers[i]) || Said(SaidRemoved, expected, answers[i])
          || Said(SaidRefused, expected, answers[i]) || Said(SaidOlder, expected, answers[i]);
      if SomeSaid(SaidOther, expected, answers) { SaidIsTold(addrs, answers, expected, done, e, SaidOther); }
      if SomeSaid(SaidRemoved, expected, answers) { SaidIsTold(addrs, answers, expected, done, e, SaidRemoved); }
      if SomeSaid(SaidRefused, expected, answers) { SaidIsTold(addrs, answers, expected, done, e, SaidRefused); }
    }
  }

  // ------------------------------------------------- the links held that way

  const FIRST_RETRY: nat := 1
  const LAST_RETRY: nat := 30

  /** One pass of the loop that holds a link: the machine's own link is up, the
      dial made a link that stood so long, or it failed. */
  datatype Pass = ItsLinkIsUp | Stood(seconds: nat) | Failed(e: DialBackError)

  function Starts(wait: nat, p: Pass): (w: nat) {
    if p.ItsLinkIsUp? || (p.Stood? && p.seconds >= LAST_RETRY) then FIRST_RETRY else wait
  }

  function Doubled(wait: nat): (w: nat) {
    if wait * 2 < LAST_RETRY then wait * 2 else LAST_RETRY
  }

  /** How long a pass sleeps, and the wait it leaves for the next. */
  function Paced(wait: nat, p: Pass): (r: (nat, nat)) {
    (Starts(wait, p), if p.ItsLinkIsUp? then FIRST_RETRY else Doubled(Starts(wait, p)))
  }

  /** A device's addresses are looked up again only when the dial did not reach
      its machine. */
  predicate Reached(e: DialBackError) {
    e.Forgotten? || e.Refused? || e.NotTaken?
  }

  function PowerOf2(n: nat): (r: nat)
    ensures r > 0
  {
    if n == 0 then 1 else 2 * PowerOf2(n - 1)
  }

  function WaitAfter(n: nat): (w: nat) {
    if PowerOf2(n) < LAST_RETRY then PowerOf2(n) else LAST_RETRY
  }

  function WaitLeft(wait: nat, ps: seq<Pass>): (w: nat)
    decreases |ps|
  {
    if ps == [] then wait else WaitLeft(Paced(wait, ps[0]).1, ps[1..])
  }

  predicate Resets(p: Pass) {
    p.ItsLinkIsUp? || (p.Stood? && p.seconds >= LAST_RETRY)
  }

  /** How many passes there were since the wait last started over. */
  function Streak(n: nat, ps: seq<Pass>): (m: nat)
    decreases |ps|
  {
    if ps == [] then n
    else Streak(if ps[0].ItsLinkIsUp? then 0 else if Resets(ps[0]) then 1 else n + 1, ps[1..])
  }

  /** The wait is a second doubled for each pass since it last started over, and
      never more than the longest. */
  lemma {:induction false} WaitIsDoubledSinceReset(n: nat, ps: seq<Pass>)
    ensures WaitLeft(WaitAfter(n), ps) == WaitAfter(Streak(n, ps))
    ensures FIRST_RETRY <= WaitLeft(WaitAfter(n), ps) <= LAST_RETRY
    decreases |ps|
  {
    if ps != [] {
      var m := if ps[0].ItsLinkIsUp? then 0 else if Resets(ps[0]) then 1 else n + 1;
      assert PowerOf2(1) == 2 * PowerOf2(0);
      assert Paced(WaitAfter(n), ps[0]).1 == WaitAfter(m);
      WaitIsDoubledSinceReset(m, ps[1..]);
    }
  }

  /** Each pass sleeps that wait: the shortest when it starts over, and else doubled
      for each pass since. */
  lemma EachSleepIsDoubled(n: nat, ps: seq<Pass>, p: Pass)
    ensures Paced(WaitLeft(WaitAfter(n), ps), p).0 == WaitAfter(if Resets(p) then 0 else Streak(n, ps))
    ensures 1 <= Paced(WaitLeft(WaitAfter(n), ps), p).0 <= 30
  {
    WaitIsDoubledSinceReset(n, ps);
  }

  /** The pace of one held link, its wait kept between passes. */
  class Holder {
    var wait: nat

    constructor ()
      ensures wait == WaitAfter(0)
    {
      wait := FIRST_RETRY;
    }

    /** How long to sleep after this pass. */
    method After(p: Pass) returns (sleep: nat)
      modifies this
      ensures (sleep, wait) == Paced(old(wait), p)
    {
      if p.ItsLinkIsUp? {
        wait := FIRST_RETRY;
        return FIRST_RETRY;
      }
      if p.Stood? && p.seconds >= LAST_RETRY {
        wait := FIRST_RETRY;
      }
      sleep := wait;
      wait := if wait * 2 < LAST_RETRY then wait * 2 else LAST_RETRY;
    }
  }

  // ------------------------------------------------------------- reconciling

  datatype Held = Held(fp: Fingerprint, task: nat, finished: bool, link: Option<nat>)

  /** For each device that is on, has an address or a hostname, and is pinned to a
      machine in `drives`: that machine. */
  function Wanted(devices: map<Handle, Device>, drives: set<Fingerprint>): (w: map<Handle, Fingerprint>) {
    map h | h in devices && devices[h].state.pin.Some? && devices[h].state.active
            && (devices[h].config.hostname.Some? || devices[h].config.fixIps != [])
            && devices[h].state.pin.value in drives
      :: devices[h].state.pin.value
  }

  /** A link held for a device stays as it is exactly when it is still wanted for
      that machine and its task still runs. */
  predicate Stays(h: Handle, held: map<Handle, Held>, wanted: map<Handle, Fingerprint>) {
    h in held && h in wanted && wanted[h] == held[h].fp && !held[h].finished
  }

  datatype Close = Close(link: nat, fp: Fingerprint, reason: string)

  /** The close a stopped link gets: "bye" to a machine in `known`, else `REMOVED`. */
  function Closing(was: Held, known: set<Fingerprint>): (c: Close)
    requires was.link.Some?
  {
    Close(was.link.value, was.fp, if was.fp in known then "bye" else REMOVED)
  }

  /** The devices held that do not stay. */
  function Stale(held: map<Handle, Held>, wanted: map<Handle, Fingerprint>): (s: set<Handle>) {
    set h | h in held && !Stays(h, held, wanted)
  }

  /** `order` lists each of these devices once, all of them held. */
  ghost predicate Orders(order: seq<Handle>, s: set<Handle>, held: map<Handle, Held>) {
    Lists(order, s) && forall h :: h in order ==> h in held
  }

  lemma OrderedOneMore(order: seq<Handle>, s: set<Handle>, h: Handle, held: map<Handle, Held>)
    requires Orders(order, s, held) && h !in s && h in held
    ensures Orders(order + [h], s + {h}, held)
  {
  }

  /** Each of these with a link is closed once, as gone for good if no pairing with its
      machine is known, and nothing else is closed. */
  lemma {:induction false} EachIsClosedOnce(order: seq<Handle>, was: map<Handle, Held>, known: set<Fingerprint>, h: Handle)
    requires (forall x :: x in order ==> x in was) && h in was && was[h].link.Some?
    requires forall i, j :: 0 <= i < j < |order| ==> order[i] != order[j]
    requires forall x :: x in was && was[x].link == was[h].link ==> x == h
    ensures multiset(Closings(order, was, known))[Close(was[h].link.value, was[h].fp, if was[h].fp in known then "bye" else "removed")]
         == if h in order then 1 else 0
    decreases |order|
  {
    if order != [] {
      EachIsClosedOnce(order[..|order| - 1], was, known, h);
      assert order == order[..|order| - 1] + [order[|order| - 1]];
    }
  }

  /** Of the devices `left` to look at, `h` stays or goes as it would have at first. */
  lemma OneLeft(was: map<Handle, Held>, now: map<Handle, Held>, gone: set<Handle>, left: set<Handle>, h: Handle,
                wanted: map<Handle, Fingerprint>)
    requires now == was - gone && gone == Stale(was, wanted) - left && h in left && left <= now.Keys
    ensures Stays(h, now, wanted) == Stays(h, was, wanted) && h in was && now[h] == was[h] && h !in gone
    ensures (if Stays(h, was, wanted) then gone else gone + {h}) == Stale(was, wanted) - (left - {h})
    ensures now - {h} == was - (gone + {h})
  {
  }

  /** The closes these devices' links get, in order; a device with no link gets none. */
  function Closings(order: seq<Handle>, was: map<Handle, Held>, known: set<Fingerprint>): (q: seq<Close>)
    requires forall h :: h in order ==> h in was
    decreases |order|
  {
    if order == [] then [] else
      var rest, h := order[..|order| - 1], order[|order| - 1];
      Closings(rest, was, known) + if was[h].link.Some? then [Closing(was[h], known)] else []
  }

  lemma ClosingOneMore(order: seq<Handle>, h: Handle, was: map<Handle, Held>, known: set<Fingerprint>)
    requires h in was && forall x :: x in order ==> x in was
    ensures Closings(order + [h], was, known) ==
      Closings(order, was, known) + if was[h].link.Some? then [Closing(was[h], known)] else []
  {
    assert (order + [h])[..|order|] == order;
  }

  class DialBack {
    const clients: ClientManager
    var drives: set<Fingerprint>
    var known: set<Fingerprint>
    var held: map<Handle, Held>
    var nextTask: nat
    /** The links closed here, and the reason each was given. */
    var closes: seq<Close>

    constructor (clients: ClientManager)
      ensures this.clients == clients && held == map[] && closes == []
    {
      this.clients := clients;
      drives, known, held, nextTask, closes := {}, {}, map[], 0, [];
    }

    ghost predicate Valid()
      reads this
    {
      forall h :: h in held ==> held[h].task < nextTask
    }

    /** `h` is no longer held, and the link it held, if any, got the close `Closing`
        gives it. */
    method Stop(h: Handle)
      requires Valid()
      modifies `held, `closes
      ensures Valid() && held == old(held) - {h}
      ensures closes == old(closes) +
        if h in old(held) && old(held)[h].link.Some? then
          [Close(old(held)[h].link.value, old(held)[h].fp, if old(held)[h].fp in known then "bye" else "removed")] else []
    {
      if h in held {
        var was := held[h];
        held := held - {h};
        if was.link.Some? {
          closes := closes + [Close(was.link.value, was.fp, if was.fp in known then "bye" else REMOVED)];
        }
      } else {
        assert held - {h} == held;
      }
    }

    method Start(h: Handle, fp: Fingerprint)
      requires Valid() && h !in held
      modifies `held, `nextTask
      ensures Valid() && nextTask == old(nextTask) + 1
      ensures held == old(held)[h := Held(fp, old(nextTask), false, None)]
    {
      held := held[h := Held(fp, nextTask, false, None)];
      nextTask := nextTask + 1;
    }

    /** One more stopped after those in `order`. */
    method StopNext(h: Handle, ghost order: seq<Handle>, ghost was: map<Handle, Held>, ghost first: seq<Close>)
      requires Valid() && h in held && h in was && held[h] == was[h] && (forall x :: x in order ==> x in was)
      requires closes == first + Closings(order, was, known)
      modifies `held, `closes
      ensures Valid() && held == old(held) - {h}
      ensures closes == first + Closings(order + [h], was, known)
    {
      ClosingOneMore(order, h, was, known);
      Stop(h);
    }

    /** Stop every held link but those that stay, each once, in some order, with the
        close `Closing` gives it. */
    method StopStale(wanted: map<Handle, Fingerprint>) returns (ghost order: seq<Handle>)
      requires Valid()
      modifies `held, `closes
      ensures Valid() && held == old(held) - Stale(old(held), wanted)
      ensures Orders(order, Stale(old(held), wanted), old(held))
      ensures closes == old(closes) + Closings(order, old(held), known)
    {
      ghost var was, first := held, closes;
      var left := held.Keys;
      order := [];
      ghost var gone: set<Handle> := {};
      assert was - gone == was && first + [] == first;
      while left != {}
        invariant Valid() && left <= held.Keys && held == was - gone
        invariant gone == Stale(was, wanted) - left
        invariant Orders(order, gone, was)
        invariant closes == first + Closings(order, was, known)
        decreases left
      {
        var h :| h in left;
        OneLeft(was, held, gone, left, h, wanted);
        left := left - {h};
        if !Stays(h, held, wanted) {
          OrderedOneMore(order, gone, h, was);
          StopNext(h, order, was, first);
          order, gone := order + [h], gone + {h};
        }
      }
    }

    method StartMissing(wanted: map<Handle, Fingerprint>)
      requires Valid() && held.Keys <= wanted.Keys
      modifies `held, `nextTask
      ensures Valid() && held.Keys == wanted.Keys
      ensures forall h :: h in old(held) ==> held[h] == old(held)[h]
      ensures forall h :: h in held && h !in old(held) ==>
        held[h] == Held(wanted[h], held[h].task, false, None) && old(nextTask) <= held[h].task
    {
      var todo := wanted.Keys - held.Keys;
      while todo != {}
        invariant Valid() && todo !! held.Keys && todo + held.Keys == wanted.Keys && nextTask >= old(nextTask)
        invariant forall h :: h in old(held) ==> h in held && held[h] == old(held)[h]
        invariant forall h :: h in held && h !in old(held) ==>
          held[h] == Held(wanted[h], held[h].task, false, None) && old(nextTask) <= held[h].task
        decreases todo
      {
        var h :| h in todo;
        todo := todo - {h};
        Start(h, wanted[h]);
      }
    }

    /** Afterwards exactly these devices are held: those that are on, have a hostname or
        an address given, and are pinned to a machine this one lets drive it; each for
        that machine by a task that runs. One that was right already is left alone,
        every other one is held by a task started now, and every link that went
        was closed once, and no other. */
    method Reconcile() returns (ghost order: seq<Handle>)
      requires Valid()
      modifies `held, `nextTask, `closes
      ensures Valid()
      ensures forall h :: h in held <==>
        h in clients.devices && clients.devices[h].state.active
        && (clients.devices[h].config.hostname.Some? || clients.devices[h].config.fixIps != [])
        && clients.devices[h].state.pin.Some? && clients.devices[h].state.pin.value in drives
      ensures forall h :: h in held ==> Some(held[h].fp) == clients.devices[h].state.pin && !held[h].finished
      ensures forall h :: h in held ==>
        if h in old(held) && old(held)[h].fp == held[h].fp && !old(held)[h].finished then held[h] == old(held)[h]
        else old(nextTask) <= held[h].task && held[h].link.None?
      ensures Lists(order, set h | h in old(held) && !(h in held && held[h] == old(held)[h]))
      ensures forall h :: h in order ==> h in old(held)
      ensures closes == old(closes) + Closings(order, old(held), known)
    {
      var wanted := Wanted(clients.devices, drives);
      order := StopStale(wanted);
      StartMissing(wanted);
    }
  }
}
