/** The clipboard poller: what it makes of a system clipboard on which copies
    and marks land at any moment, also between the looks of one read. */
module Clipboard {
  import opened Common

  // --------------------------------------------------------- the poll itself

  datatype Copied = Text(text: string, at: Option<nat>) | Private | Nothing | Changing

  /** What the four looks of a read make: the count before, the mark, the text,
      and the count after. */
  function ReadOf(before: Option<nat>, private: Option<bool>, text: Option<string>, after: Option<nat>): (c: Copied) {
    if private == Some(true) then Private
    else if private.None? || after != before then Changing
    else if text.None? then Nothing
    else Text(text.value, before)
  }

  datatype Poller = Poller(
    /** The text the clipboard is last known to hold. */
    last: Option<string>,
    /** Whether the last poll read it at all. */
    reading: bool,
    /** A text one poll away from being sent, with the count it was read at. */
    settling: Option<(Option<nat>, string)>)

  const ASLEEP := Poller(None, false, None)

  function Unwanted(p: Poller): (r: Poller) {
    p.(reading := false, settling := None)
  }

  /** A wanted poll that found `c`: what the poller keeps, and what it sends. */
  function Handled(p: Poller, c: Copied): (r: (Poller, Option<string>)) {
    if !p.reading then
      if c.Changing? then (p, None)
      else (p.(reading := true, last := if c.Text? then Some(c.text) else None), None)
    else match c
      case Text(text, at) =>
        if p.last == Some(text) then (p.(settling := None), None)
        else if p.settling != Some((at, text)) then (p.(settling := Some((at, text))), None)
        else (p.(settling := None, last := Some(text)), Some(text))
      case Private => (p.(last := None, settling := None), None)
      case Nothing => (p.(last := None, settling := None), None)
      case Changing => (p.(settling := None), None)
  }

  // ------------------------------------------------ one machine's clipboard

  /** What was put on the clipboard: by the user, or by this machine for a peer. */
  datatype Copy = Copy(text: Option<string>, byUser: bool, marked: bool)

  /** Where a read in progress is; other programs act between its looks. */
  datatype Phase =
    | Between
    | Counted(before: Option<nat>)
    /** The copy was found unmarked. */
    | Checked(before: Option<nat>, copy: nat)
    | Looked(before: Option<nat>, copy: nat, read: nat, text: Option<string>)

  /** What one poll did: which copy it found unmarked, which copy's text it read, the
      count it read it at, and what it sent; and what the poller was before it: whether
      it was reading, and what it knew the clipboard to hold. */
  datatype Poll = Poll(wanted: bool, unmarked: Option<nat>, read: Option<nat>, found: Option<string>, sent: Option<string>,
                       at: Option<nat>, reading: bool, known: Option<string>)

  datatype Machine = Machine(
    /** Everything that was on the clipboard, the last of it now. */
    copies: seq<Copy>,
    /** Whether this platform keeps a count of copies. */
    counts: bool,
    poller: Poller,
    phase: Phase,
    incoming: Option<string>,
    polls: seq<Poll>,
    /** No copy up to this one is to be sent from here on. */
    spent: int)
  {
    function Now(): (n: int) {
      |copies| - 1
    }

    function Count(): (c: Option<nat>)
      requires copies != []
    {
      if counts then Some(|copies| - 1) else None
    }
  }

  datatype Event =
    /** The user copies, or an app marks what is there. */
    | UserCopies(copied: Option<string>, marked: bool)
    | MarkAdded
    | Tick(wanted: bool)
    /** The mark is looked at; `busy`, it cannot be told now. */
    | LooksAtMark(busy: bool)
    | LooksAtText
    | LooksAgain
    | Arrives(text: string)
    | Applies(works: bool)

  predicate Possible(m: Machine, e: Event) {
    && m.copies != []
    && match e
       case Tick(_) => m.phase.Between?
       case LooksAtMark(_) => m.phase.Counted?
       case LooksAtText => m.phase.Checked?
       case LooksAgain => m.phase.Looked?
       case Applies(_) => m.phase.Between? && m.incoming.Some?
       case _ => true
  }

  function Finish(m: Machine, c: Copied, unmarked: Option<nat>, read: Option<nat>): (r: Machine) {
    var (p, sent) := Handled(m.poller, c);
    m.(poller := p, phase := Between,
       polls := m.polls + [Poll(true, unmarked, read, if c.Text? then Some(c.text) else None, sent,
                                if c.Text? then c.at else None, m.poller.reading, m.poller.last)],
       spent := if sent.Some? && read.Some? then read.value
                else if p.reading && !m.poller.reading then
                  if read.Some? then read.value else m.Now()
                else m.spent)
  }

  function Next(m: Machine, e: Event): (r: Machine)
    requires Possible(m, e)
  {
    match e
    case UserCopies(text, marked) => m.(copies := m.copies + [Copy(text, true, marked)])
    case MarkAdded => m.(copies := m.copies[|m.copies| - 1 := m.copies[|m.copies| - 1].(marked := true)])
    case Tick(wanted) =>
      if wanted then m.(phase := Counted(m.Count()))
      else m.(poller := Unwanted(m.poller), polls := m.polls + [Poll(false, None, None, None, None, None, m.poller.reading, m.poller.last)])
    case LooksAtMark(busy) =>
      var private := if busy then None else Some(m.copies[m.Now()].marked);
      if private == Some(false) then m.(phase := Checked(m.phase.before, m.Now()))
      else Finish(m, ReadOf(m.phase.before, private, None, None), None, None)
    case LooksAtText => m.(phase := Looked(m.phase.before, m.phase.copy, m.Now(), m.copies[m.Now()].text))
    case LooksAgain =>
      Finish(m, ReadOf(m.phase.before, Some(false), m.phase.text, m.Count()), Some(m.phase.copy), Some(m.phase.read))
    case Arrives(text) => m.(incoming := Some(text))
    case Applies(works) =>
      if !works then m.(incoming := None)
      else m.(incoming := None, copies := m.copies + [Copy(m.incoming, false, false)],
              poller := m.poller.(last := m.incoming), spent := |m.copies|)
  }

  function Start(text: Option<string>, marked: bool, counts: bool): (m: Machine) {
    Machine([Copy(text, false, marked)], counts, ASLEEP, Between, None, [], -1)
  }

  // ----------------------------------------------------- what always holds

  /** The poller's own part: what it knows of the copy there now, when that one
      is not to be sent. */
  ghost predicate Remembers(m: Machine)
    requires m.copies != []
  {
    m.poller.reading && m.Now() == m.spent ==>
      m.copies[m.Now()].text.None? || m.copies[m.Now()].marked || m.poller.last == m.copies[m.Now()].text
  }

  ghost predicate PhaseAgrees(m: Machine) {
    && m.copies != []
    && (m.phase.Counted? ==> m.phase.before.Some? == m.counts && (m.counts ==> m.phase.before.value < |m.copies|))
    && (m.phase.Checked? || m.phase.Looked? ==>
          && m.phase.before.Some? == m.counts && (m.counts ==> m.phase.before.value <= m.phase.copy)
          && m.spent <= m.phase.copy < |m.copies|
          && (m.poller.reading && m.phase.copy == m.spent ==>
                m.copies[m.phase.copy].text.None? || m.poller.last == m.copies[m.phase.copy].text)
          && forall i :: 0 <= i < |m.polls| && m.polls[i].read.Some? ==> m.polls[i].read.value <= m.phase.copy)
    && (m.phase.Looked? ==> m.phase.copy <= m.phase.read < |m.copies| && m.phase.text == m.copies[m.phase.read].text)
  }

  ghost predicate SettlingAgrees(m: Machine) {
    m.poller.settling.Some? ==>
      var (at, text) := m.poller.settling.value;
      && m.poller.reading && m.polls != []
      && var p := m.polls[|m.polls| - 1];
      && p.wanted && p.found == Some(text)
      && (m.counts ==> at == p.read)
  }

  /** What a poll that found a text says of the copies. */
  ghost predicate PollAgrees(p: Poll, copies: seq<Copy>, counts: bool, spent: int) {
    && (p.found.Some? ==> p.wanted && p.unmarked.Some? && p.read.Some? && (counts ==> p.unmarked == p.read))
    && (p.read.Some? ==> p.unmarked.Some? && p.unmarked.value <= p.read.value < |copies|)
    && (p.found.Some? ==> copies[p.read.value].text == p.found)
    && (p.sent.Some? ==> p.found == p.sent && p.read.value <= spent && copies[p.read.value].byUser)
  }

  /** Copies come and go in order, and each text sent is a later copy's. */
  ghost predicate Precedes(p: Poll, q: Poll) {
    && (p.read.Some? && q.unmarked.Some? ==> p.read.value <= q.unmarked.value)
    && (p.sent.Some? && q.sent.Some? && p.read.Some? && q.read.Some? ==> p.read.value < q.read.value)
  }

  /** A poll sends only what the one before it found too. */
  ghost predicate Confirms(p: Poll, q: Poll, counts: bool) {
    q.sent.Some? ==> p.wanted && q.wanted && p.found == q.sent && (counts ==> p.read == q.read)
  }

  ghost predicate PollsAgree(polls: seq<Poll>, copies: seq<Copy>, counts: bool, spent: int) {
    && (forall i :: 0 <= i < |polls| ==> PollAgrees(polls[i], copies, counts, spent))
    && (forall i, j :: 0 <= i < j < |polls| ==> Precedes(polls[i], polls[j]))
    && (forall i :: 0 < i < |polls| ==> Confirms(polls[i - 1], polls[i], counts))
    && (polls != [] ==> polls[0].sent.None?)
  }

  ghost predicate SpentAgrees(m: Machine) {
    && m.spent < |m.copies|
    && (m.poller.reading ==> m.spent >= 0)
    && (forall k :: 0 < k < |m.copies| && k > m.spent ==> m.copies[k].byUser)
  }

  ghost predicate Inv(m: Machine) {
    && PhaseAgrees(m) && Remembers(m) && SettlingAgrees(m) && SpentAgrees(m)
    && PollsAgree(m.polls, m.copies, m.counts, m.spent)
  }

  lemma StartHolds(text: Option<string>, marked: bool, counts: bool)
    ensures Inv(Start(text, marked, counts))
  {
  }

  /** The polls made stay in agreement as copies are added and marked. */
  lemma PollsStayAgreed(polls: seq<Poll>, copies: seq<Copy>, counts: bool, spent: int, later: seq<Copy>, more: int)
    requires PollsAgree(polls, copies, counts, spent)
    requires |copies| <= |later| && spent <= more
    requires forall k :: 0 <= k < |copies| ==> later[k].text == copies[k].text && later[k].byUser == copies[k].byUser
    ensures PollsAgree(polls, later, counts, more)
  {
    forall i | 0 <= i < |polls| ensures PollAgrees(polls[i], later, counts, more) {
      assert PollAgrees(polls[i], copies, counts, spent);
    }
  }

  lemma PollAdded(polls: seq<Poll>, copies: seq<Copy>, counts: bool, spent: int, p: Poll)
    requires PollsAgree(polls, copies, counts, spent)
    requires PollAgrees(p, copies, counts, spent)
    requires forall i :: 0 <= i < |polls| ==> Precedes(polls[i], p)
    requires if polls == [] then p.sent.None? else Confirms(polls[|polls| - 1], p, counts)
    ensures PollsAgree(polls + [p], copies, counts, spent)
  {
    var all := polls + [p];
    assert forall i :: 0 <= i < |polls| ==> all[i] == polls[i];
    assert all[|polls|] == p;
  }

  lemma MarkLookHolds(m: Machine, busy: bool)
    requires Inv(m) && Possible(m, LooksAtMark(busy))
    ensures Inv(Next(m, LooksAtMark(busy)))
  {
    var r := Next(m, LooksAtMark(busy));
    if r.phase.Between? {
      PollsStayAgreed(m.polls, m.copies, m.counts, m.spent, m.copies, r.spent);
      PollAdded(m.polls, m.copies, m.counts, r.spent, r.polls[|m.polls|]);
    } else {
      forall i | 0 <= i < |m.polls| && m.polls[i].read.Some? ensures m.polls[i].read.value <= m.Now() {
        assert PollAgrees(m.polls[i], m.copies, m.counts, m.spent);
      }
    }
  }

  lemma SecondCountHolds(m: Machine)
    requires Inv(m) && Possible(m, LooksAgain)
    ensures var r := Next(m, LooksAgain); PhaseAgrees(r) && Remembers(r) && SettlingAgrees(r) && SpentAgrees(r)
  {
  }

  lemma PollIsRecorded(m: Machine)
    requires Inv(m) && Possible(m, LooksAgain)
    ensures var r := Next(m, LooksAgain); PollsAgree(r.polls, r.copies, r.counts, r.spent)
  {
    var r := Next(m, LooksAgain);
    var p := r.polls[|m.polls|];
    assert m.spent <= r.spent;
    PollsStayAgreed(m.polls, m.copies, m.counts, m.spent, m.copies, r.spent);
    if p.sent.Some? {
      assert m.phase.read > m.spent;
    }
    forall i | 0 <= i < |m.polls| ensures Precedes(m.polls[i], p) {
      assert PollAgrees(m.polls[i], m.copies, m.counts, m.spent);
    }
    PollAdded(m.polls, m.copies, m.counts, r.spent, p);
  }

  lemma TickHolds(m: Machine, wanted: bool)
    requires Inv(m) && Possible(m, Tick(wanted))
    ensures Inv(Next(m, Tick(wanted)))
  {
    if !wanted {
      PollAdded(m.polls, m.copies, m.counts, m.spent, Poll(false, None, None, None, None, None, m.poller.reading, m.poller.last));
    }
  }

  lemma CopyingHolds(m: Machine, e: Event)
    requires Inv(m) && Possible(m, e) && (e.UserCopies? || e.MarkAdded?)
    ensures Inv(Next(m, e))
  {
    var r := Next(m, e);
    PollsStayAgreed(m.polls, m.copies, m.counts, m.spent, r.copies, r.spent);
  }

  lemma ApplyingHolds(m: Machine, works: bool)
    requires Inv(m) && Possible(m, Applies(works))
    ensures Inv(Next(m, Applies(works)))
  {
    var r := Next(m, Applies(works));
    PollsStayAgreed(m.polls, m.copies, m.counts, m.spent, r.copies, r.spent);
  }

  lemma StepHolds(m: Machine, e: Event)
    requires Inv(m) && Possible(m, e)
    ensures Inv(Next(m, e))
  {
    match e
    case LooksAtMark(busy) => MarkLookHolds(m, busy);
    case Tick(wanted) => TickHolds(m, wanted);
    case LooksAgain =>
      SecondCountHolds(m);
      PollIsRecorded(m);
    case UserCopies(_, _) => CopyingHolds(m, e);
    case MarkAdded => CopyingHolds(m, e);
    case Applies(works) => ApplyingHolds(m, works);
    case _ =>
  }

  // ----------------------------------------------------------- over a run

  ghost predicate PossibleRun(m: Machine, es: seq<Event>)
    decreases |es|
  {
    es != [] ==> Possible(m, es[0]) && PossibleRun(Next(m, es[0]), es[1..])
  }

  ghost function Run(m: Machine, es: seq<Event>): (r: Machine)
    requires PossibleRun(m, es)
    decreases |es|
  {
    if es == [] then m else Run(Next(m, es[0]), es[1..])
  }

  lemma {:induction false} RunHolds(m: Machine, es: seq<Event>)
    requires Inv(m) && PossibleRun(m, es)
    ensures Inv(Run(m, es))
    ensures m.polls <= Run(m, es).polls && Run(m, es).counts == m.counts
    decreases |es|
  {
    if es != [] {
      StepHolds(m, es[0]);
      RunHolds(Next(m, es[0]), es[1..]);
    }
  }

  /** Text goes out only when two polls in a row, both wanted, found it on a copy
      unmarked at their check. It is one and the same copy exactly when nothing
      else was copied from the first check to the second read; where the
      platform keeps a count, it always is. */
  lemma SentOnlyIfFoundTwice(text: Option<string>, marked: bool, counts: bool, es: seq<Event>, i: nat)
    requires PossibleRun(Start(text, marked, counts), es)
    requires var r := Run(Start(text, marked, counts), es); i < |r.polls| && r.polls[i].sent.Some?
    ensures var r := Run(Start(text, marked, counts), es);
      && i > 0
      && var p, q := r.polls[i - 1], r.polls[i];
      && p.wanted && q.wanted && p.found == q.found == q.sent
      && p.unmarked.Some? && p.read.Some? && q.unmarked.Some? && q.read.Some?
      && p.unmarked.value <= p.read.value <= q.unmarked.value <= q.read.value
      && (p.unmarked == p.read == q.unmarked == q.read <==> p.unmarked == q.read)
      && (counts ==> p.unmarked == p.read == q.unmarked == q.read)
  {
    var m := Start(text, marked, counts);
    StartHolds(text, marked, counts);
    RunHolds(m, es);
    var r := Run(m, es);
    assert Confirms(r.polls[i - 1], r.polls[i], counts);
    assert PollAgrees(r.polls[i - 1], r.copies, counts, r.spent);
    assert PollAgrees(r.polls[i], r.copies, counts, r.spent);
    assert Precedes(r.polls[i - 1], r.polls[i]);
  }

  // ------------------------------------------------- and exactly when it is sent

  /** The poll, of a poller that reads, found this text new, and was not the one to
      send it: it is left to settle. */
  predicate Settles(p: Poll, t: string) {
    p.wanted && p.reading && p.found == Some(t) && p.known != Some(t) && p.sent.None?
  }

  /** Two polls in a row, of a poller that reads, found the text at one count, not
      knowing it; and the first of them did not send it. */
  predicate ToSend(polls: seq<Poll>, i: nat, t: string)
    requires i < |polls|
  {
    && i > 0 && polls[i].wanted && polls[i].reading && polls[i].found == Some(t) && polls[i].known != Some(t)
    && Settles(polls[i - 1], t) && polls[i - 1].at == polls[i].at
  }

  ghost predicate SendsExactly(polls: seq<Poll>) {
    forall i, t :: 0 <= i < |polls| ==> (polls[i].sent == Some(t) <==> ToSend(polls, i, t))
  }

  /** What is settling is what the last poll left to settle. */
  ghost predicate SettlingIsTheLast(m: Machine) {
    && (m.poller.settling.Some? ==> m.poller.reading)
    && forall at, t :: m.poller.settling == Some((at, t)) <==>
      m.polls != [] && Settles(m.polls[|m.polls| - 1], t) && m.polls[|m.polls| - 1].at == at
  }

  lemma PollSends(polls: seq<Poll>, p: Poll)
    requires SendsExactly(polls) && forall t :: p.sent == Some(t) <==> ToSend(polls + [p], |polls|, t)
    ensures SendsExactly(polls + [p])
  {
    var all := polls + [p];
    forall i, t | 0 <= i < |all| ensures all[i].sent == Some(t) <==> ToSend(all, i, t) {
      if i < |polls| {
        assert polls[i].sent == Some(t) <==> ToSend(polls, i, t);
      }
    }
  }

  lemma FinishSends(m: Machine, c: Copied, unmarked: Option<nat>, read: Option<nat>)
    requires SendsExactly(m.polls) && SettlingIsTheLast(m)
    ensures var r := Finish(m, c, unmarked, read); SendsExactly(r.polls) && SettlingIsTheLast(r)
  {
    var r := Finish(m, c, unmarked, read);
    var p := r.polls[|m.polls|];
    forall t ensures p.sent == Some(t) <==> ToSend(m.polls + [p], |m.polls|, t) {
      if c.Text? {
        assert m.poller.settling == Some((c.at, t)) <==>
          m.polls != [] && Settles(m.polls[|m.polls| - 1], t) && m.polls[|m.polls| - 1].at == c.at;
      }
    }
    PollSends(m.polls, p);
  }

  lemma StepSends(m: Machine, e: Event)
    requires Possible(m, e) && SendsExactly(m.polls) && SettlingIsTheLast(m)
    ensures SendsExactly(Next(m, e).polls) && SettlingIsTheLast(Next(m, e))
  {
    match e
    case LooksAtMark(busy) =>
      var private := if busy then None else Some(m.copies[m.Now()].marked);
      if private != Some(false) {
        FinishSends(m, ReadOf(m.phase.before, private, None, None), None, None);
      }
    case LooksAgain =>
      FinishSends(m, ReadOf(m.phase.before, Some(false), m.phase.text, m.Count()), Some(m.phase.copy), Some(m.phase.read));
    case Tick(wanted) =>
      if !wanted {
        PollSends(m.polls, Next(m, e).polls[|m.polls|]);
      }
    case _ =>
  }

  lemma {:induction false} RunSends(m: Machine, es: seq<Event>)
    requires PossibleRun(m, es) && SendsExactly(m.polls) && SettlingIsTheLast(m)
    ensures SendsExactly(Run(m, es).polls)
    decreases |es|
  {
    if es != [] {
      StepSends(m, es[0]);
      RunSends(Next(m, es[0]), es[1..]);
    }
  }

  /** Over any run, a poll sends a text exactly when it and the poll before it, both
      wanted and of a poller that read already, found that text at one count, neither
      knowing the clipboard to hold it, and the first did not send it. */
  lemma SentExactlyWhen(text: Option<string>, marked: bool, counts: bool, es: seq<Event>, i: nat, t: string)
    requires PossibleRun(Start(text, marked, counts), es) && i < |Run(Start(text, marked, counts), es).polls|
    ensures var polls := Run(Start(text, marked, counts), es).polls;
      polls[i].sent == Some(t) <==> ToSend(polls, i, t)
  {
    RunSends(Start(text, marked, counts), es);
  }

  /** A poll that finds a marked copy, or one with no text, sends nothing and forgets
      what the clipboard held, so that a copy after it is new whatever its text. One
      whose marks cannot be told now, or that finds the count moved on, forgets nothing,
      but starts settling over. */
  lemma WhatAPollForgets(m: Machine, busy: bool)
    requires m.copies != [] && m.phase.Between? && m.poller.reading
    ensures var checked := Next(Next(m, Tick(true)), LooksAtMark(busy));
      && (busy ==> checked.phase.Between? && checked.poller == Poller(m.poller.last, true, None))
      && (!busy && m.copies[m.Now()].marked ==> checked.phase.Between? && checked.poller == Poller(None, true, None))
      && (!busy && !m.copies[m.Now()].marked ==>
            && (m.copies[m.Now()].text.None? ==> Undisturbed(m).poller == Poller(None, true, None))
            && forall c: Copy :: m.counts ==>
                 Next(Next(Next(checked, LooksAtText), UserCopies(c.text, c.marked)), LooksAgain).poller == Poller(m.poller.last, true, None))
  {
  }

  /** Once nobody takes the clipboard the poller no longer reads: nothing is settling,
      and the first poll after is one that begins to read, and sends nothing. */
  lemma UnwantedStops(m: Machine)
    requires m.copies != [] && m.phase.Between?
    ensures var n := Next(m, Tick(false));
      && !n.poller.reading && n.poller.settling.None? && n.polls[|m.polls|].sent.None?
      && (!n.copies[n.Now()].marked ==>
            && Undisturbed(n).polls[|n.polls|].sent.None?
            && Undisturbed(n).poller == Poller(n.copies[n.Now()].text, true, None))
  {
  }

  /** A poll nothing disturbs. */
  function Undisturbed(m: Machine): (r: Machine)
    requires m.copies != [] && m.phase.Between? && !m.copies[m.Now()].marked
  {
    Next(Next(Next(Next(m, Tick(true)), LooksAtMark(false)), LooksAtText), LooksAgain)
  }

  /** On any platform: an unmarked copy of a text the clipboard was not known to hold,
      left alone for two wanted polls of a poller that reads, is sent by the second of
      them, unless it was settling already and is by the first; and is then what the
      clipboard is known to hold. */
  lemma AQuietCopyIsSent(m: Machine, t: string)
    requires m.copies != [] && m.phase.Between? && m.poller.reading
    requires !m.copies[m.Now()].marked && m.copies[m.Now()].text == Some(t) && m.poller.last != Some(t)
    ensures var once := Undisturbed(m);
      && once.phase.Between? && once.copies == m.copies && |once.polls| == |m.polls| + 1
      && var twice := Undisturbed(once);
      && |twice.polls| == |m.polls| + 2 && twice.poller == Poller(Some(t), true, None)
      && (if m.poller.settling == Some((m.Count(), t)) then once.polls[|m.polls|].sent == Some(t) && twice.polls[|m.polls| + 1].sent.None?
          else once.polls[|m.polls|].sent.None? && twice.polls[|m.polls| + 1].sent == Some(t))
  {
  }

  /** Each text sent is that of a copy the user made here, a different one each
      time, made after reading began; text applied for a peer never is. */
  lemma SentIsADistinctUserCopy(text: Option<string>, marked: bool, counts: bool, es: seq<Event>)
    requires PossibleRun(Start(text, marked, counts), es)
    ensures var r := Run(Start(text, marked, counts), es);
      && (forall i :: 0 <= i < |r.polls| && r.polls[i].sent.Some? ==>
            && r.polls[i].read.Some? && 0 <= r.polls[i].read.value < |r.copies|
            && r.copies[r.polls[i].read.value].byUser && r.copies[r.polls[i].read.value].text == r.polls[i].sent)
      && (forall i, j :: 0 <= i < j < |r.polls| && r.polls[i].sent.Some? && r.polls[j].sent.Some? ==>
            r.polls[i].read.value < r.polls[j].read.value)
      && Sends(r.polls) <= CopiesByUser(r.copies)
  {
    var m := Start(text, marked, counts);
    StartHolds(text, marked, counts);
    RunHolds(m, es);
    var r := Run(m, es);
    forall i | 0 <= i < |r.polls| && r.polls[i].sent.Some?
      ensures r.polls[i].read.Some? && r.polls[i].read.value < |r.copies|
    {
      assert PollAgrees(r.polls[i], r.copies, counts, r.spent);
    }
    forall i, j | 0 <= i < j < |r.polls| && r.polls[i].sent.Some? && r.polls[j].sent.Some?
      ensures r.polls[i].read.value < r.polls[j].read.value
    {
      assert Precedes(r.polls[i], r.polls[j]);
    }
    SendsAreFew(r, |r.polls|, |r.copies|);
    assert r.polls[..|r.polls|] == r.polls && r.copies[..|r.copies|] == r.copies;
  }

  function Sends(polls: seq<Poll>): (n: nat) {
    if polls == [] then 0 else Sends(polls[..|polls| - 1]) + if polls[|polls| - 1].sent.Some? then 1 else 0
  }

  function CopiesByUser(copies: seq<Copy>): (n: nat) {
    if copies == [] then 0 else CopiesByUser(copies[..|copies| - 1]) + if copies[|copies| - 1].byUser then 1 else 0
  }

  lemma {:induction false} MoreCopies(copies: seq<Copy>, a: nat, b: nat)
    requires a <= b <= |copies|
    ensures CopiesByUser(copies[..a]) <= CopiesByUser(copies[..b])
    decreases b - a
  {
    if a < b {
      MoreCopies(copies, a, b - 1);
      assert copies[..b][..b - 1] == copies[..b - 1];
    }
  }

  lemma {:induction false} SendsAreFew(m: Machine, i: nat, b: nat)
    requires Inv(m) && i <= |m.polls| && b <= |m.copies|
    requires forall k :: 0 <= k < i && m.polls[k].sent.Some? ==> m.polls[k].read.Some? && m.polls[k].read.value < b
    ensures Sends(m.polls[..i]) <= CopiesByUser(m.copies[..b])
    decreases i
  {
    if i > 0 {
      var p := m.polls[i - 1];
      assert m.polls[..i][..i - 1] == m.polls[..i - 1];
      if p.sent.Some? {
        var c := p.read.value;
        forall k | 0 <= k < i - 1 && m.polls[k].sent.Some? ensures m.polls[k].read.Some? && m.polls[k].read.value < c {
          assert Precedes(m.polls[k], m.polls[i - 1]);
        }
        SendsAreFew(m, i - 1, c);
        assert PollAgrees(p, m.copies, m.counts, m.spent);
        assert m.copies[..c + 1][..c] == m.copies[..c];
        MoreCopies(m.copies, c + 1, b);
      } else {
        SendsAreFew(m, i - 1, b);
      }
    }
  }

  lemma StepSendsNothingSpent(m: Machine, e: Event)
    requires Inv(m) && Possible(m, e)
    ensures var n := Next(m, e);
      && m.spent <= n.spent && |m.polls| <= |n.polls| <= |m.polls| + 1
      && (|n.polls| > |m.polls| && n.polls[|m.polls|].sent.Some? ==>
            n.polls[|m.polls|].read.Some? && n.polls[|m.polls|].read.value > m.spent)
  {
  }

  lemma {:induction false} SpentStaysUnsent(m: Machine, es: seq<Event>, i: nat)
    requires Inv(m) && PossibleRun(m, es)
    requires |m.polls| <= i < |Run(m, es).polls| && Run(m, es).polls[i].sent.Some?
    ensures Run(m, es).polls[i].read.Some? && Run(m, es).polls[i].read.value > m.spent
    decreases |es|
  {
    var n := Next(m, es[0]);
    StepHolds(m, es[0]);
    StepSendsNothingSpent(m, es[0]);
    RunHolds(n, es[1..]);
    if i < |n.polls| {
      assert Run(m, es).polls[i] == n.polls[i];
    } else {
      SpentStaysUnsent(n, es[1..], i);
    }
  }

  /** The copy there when reading starts, and every one before it, is never sent:
      not by the poll that starts it nor by any later one. */
  lemma PresentCopyIsNeverSent(m: Machine, e: Event, es: seq<Event>, i: nat)
    requires Inv(m) && Possible(m, e) && !m.poller.reading && Next(m, e).poller.reading
    requires PossibleRun(Next(m, e), es)
    requires |m.polls| <= i < |Run(Next(m, e), es).polls| && Run(Next(m, e), es).polls[i].sent.Some?
    ensures var present := if m.phase.Looked? then m.phase.read else m.Now();
      Run(Next(m, e), es).polls[i].read.Some? && Run(Next(m, e), es).polls[i].read.value > present
  {
    var n := Next(m, e);
    StepHolds(m, e);
    RunHolds(n, es);
    assert n.polls[|m.polls|].sent.None? && |n.polls| == |m.polls| + 1;
    assert Run(n, es).polls[|m.polls|] == n.polls[|m.polls|];
    SpentStaysUnsent(n, es, i);
  }

  ghost predicate MarkedAndUnchecked(m: Machine, c: nat) {
    && c < |m.copies| && m.copies[c].marked
    && (m.phase.Checked? || m.phase.Looked? ==> m.phase.copy != c)
  }

  lemma StepFindsNothingMarked(m: Machine, e: Event, c: nat)
    requires Inv(m) && Possible(m, e) && MarkedAndUnchecked(m, c)
    ensures var n := Next(m, e);
      && MarkedAndUnchecked(n, c) && |m.polls| <= |n.polls| <= |m.polls| + 1
      && (|n.polls| > |m.polls| ==> n.polls[|m.polls|].unmarked != Some(c))
  {
  }

  /** A copy an app marked before a poll checks it is found unmarked by no later
      poll; with a count it is therefore never sent. */
  lemma {:induction false} MarkedIsNeverSent(m: Machine, es: seq<Event>, c: nat, i: nat)
    requires Inv(m) && PossibleRun(m, es) && MarkedAndUnchecked(m, c)
    requires |m.polls| <= i < |Run(m, es).polls|
    ensures Run(m, es).polls[i].unmarked != Some(c)
    ensures m.counts && Run(m, es).polls[i].sent.Some? ==> Run(m, es).polls[i].read != Some(c)
    decreases |es|
  {
    var n := Next(m, es[0]);
    StepHolds(m, es[0]);
    StepFindsNothingMarked(m, es[0], c);
    RunHolds(n, es[1..]);
    if i < |n.polls| {
      assert Run(m, es).polls[i] == n.polls[i];
      assert PollAgrees(n.polls[i], n.copies, n.counts, n.spent);
    } else {
      MarkedIsNeverSent(n, es[1..], c, i);
    }
  }

  // ------------------------------------- what only a count protects against

  /** Whatever is on the clipboard with this text was marked as it was copied. */
  ghost predicate HeldMarked(m: Machine, secret: string) {
    && m.incoming != Some(secret)
    && forall c :: 0 <= c < |m.copies| && m.copies[c].text == Some(secret) ==> MarkedAndUnchecked(m, c)
  }

  /** The text is copied only with a mark, and no peer sends it. */
  predicate CopiesMarked(e: Event, secret: string) {
    match e
    case UserCopies(text, marked) => text == Some(secret) ==> marked
    case Arrives(text) => text != secret
    case _ => true
  }

  lemma StepStaysMarked(m: Machine, e: Event, secret: string)
    requires Inv(m) && Possible(m, e) && HeldMarked(m, secret) && CopiesMarked(e, secret)
    ensures HeldMarked(Next(m, e), secret)
  {
    var n := Next(m, e);
    forall c | 0 <= c < |n.copies| && n.copies[c].text == Some(secret) ensures MarkedAndUnchecked(n, c) {
      if c < |m.copies| {
        StepFindsNothingMarked(m, e, c);
      }
    }
  }

  /** A poll that found a text only ever copied with a mark read a copy that landed
      after its check. */
  ghost predicate FoundUnchecked(p: Poll) {
    p.unmarked.Some? && p.read.Some? && p.unmarked.value < p.read.value
  }

  lemma StepFindsItUnchecked(m: Machine, e: Event, secret: string)
    requires Inv(m) && Possible(m, e) && HeldMarked(m, secret)
    ensures var n := Next(m, e);
      |n.polls| > |m.polls| && n.polls[|m.polls|].found == Some(secret) ==> FoundUnchecked(n.polls[|m.polls|])
  {
    StepHolds(m, e);
    var n := Next(m, e);
    if |n.polls| > |m.polls| && n.polls[|m.polls|].found == Some(secret) {
      assert PollAgrees(n.polls[|m.polls|], n.copies, n.counts, n.spent);
      StepFindsNothingMarked(m, e, n.polls[|m.polls|].read.value);
    }
  }

  lemma {:induction false} FoundOnlyUnchecked(m: Machine, es: seq<Event>, secret: string, i: nat)
    requires Inv(m) && PossibleRun(m, es) && HeldMarked(m, secret)
    requires forall k :: 0 <= k < |es| ==> CopiesMarked(es[k], secret)
    requires |m.polls| <= i < |Run(m, es).polls| && Run(m, es).polls[i].found == Some(secret)
    ensures FoundUnchecked(Run(m, es).polls[i])
    decreases |es|
  {
    var n := Next(m, es[0]);
    StepHolds(m, es[0]);
    StepStaysMarked(m, es[0], secret);
    StepFindsItUnchecked(m, es[0], secret);
    StepFindsNothing(m, es[0]);
    RunHolds(n, es[1..]);
    if i < |n.polls| {
      assert Run(m, es).polls[i] == n.polls[i];
    } else {
      FoundOnlyUnchecked(n, es[1..], secret, i);
    }
  }

  lemma StepFindsNothing(m: Machine, e: Event)
    requires Possible(m, e)
    ensures |m.polls| <= |Next(m, e).polls| <= |m.polls| + 1
  {
  }

  /** In a run from the start in which a text is only ever copied with a mark, it is
      sent only where the platform keeps no count, by a poll after another, in each
      of which a copy of it landed after that poll's check and before its read. */
  lemma MarkedTextIsSentOnlyUnchecked(text: Option<string>, marked: bool, counts: bool, es: seq<Event>, secret: string, i: nat)
    requires PossibleRun(Start(text, marked, counts), es) && text != Some(secret)
    requires forall k :: 0 <= k < |es| ==> CopiesMarked(es[k], secret)
    requires var r := Run(Start(text, marked, counts), es); i < |r.polls| && r.polls[i].sent == Some(secret)
    ensures var polls := Run(Start(text, marked, counts), es).polls;
      !counts && i > 0 && FoundUnchecked(polls[i - 1]) && FoundUnchecked(polls[i])
  {
    var m := Start(text, marked, counts);
    StartHolds(text, marked, counts);
    SentOnlyIfFoundTwice(text, marked, counts, es, i);
    FoundOnlyUnchecked(m, es, secret, i);
    FoundOnlyUnchecked(m, es, secret, i - 1);
  }

  /** A wanted poll during which a copy lands between its check and its read. */
  function PollWithLanding(m: Machine, text: string): (r: Machine)
    requires m.copies != [] && m.phase.Between? && !m.copies[m.Now()].marked
  {
    var checked := Next(Next(m, Tick(true)), LooksAtMark(false));
    Next(Next(Next(checked, UserCopies(Some(text), true)), LooksAtText), LooksAgain)
  }

  /** With no count, from any poller that reads and waits for nothing: two polls in
      a row, a marked copy landing in each after its check, send the text of those
      marked copies. */
  lemma MarkedTextCanSlipThrough(m: Machine, secret: string, other: string)
    requires Inv(m) && m.phase.Between? && m.poller.reading && !m.counts
    requires !m.copies[m.Now()].marked && m.poller.last != Some(secret) && m.poller.settling.None?
    ensures var once := PollWithLanding(m, secret);
      && once.phase.Between?
      && var between := Next(once, UserCopies(Some(other), false));
      && var twice := PollWithLanding(between, secret);
      && twice.polls[|twice.polls| - 1].sent == Some(secret)
      && twice.copies == m.copies + [Copy(Some(secret), true, true), Copy(Some(other), true, false), Copy(Some(secret), true, true)]
  {
    var once := PollWithLanding(m, secret);
    assert once.copies == m.copies + [Copy(Some(secret), true, true)];
    assert once.poller.settling == Some((None, secret));
  }

  lemma {:induction false} RunOn(m: Machine, first: seq<Event>, rest: seq<Event>)
    ensures PossibleRun(m, first + rest) <==> PossibleRun(m, first) && PossibleRun(Run(m, first), rest)
    ensures PossibleRun(m, first + rest) ==> Run(m, first + rest) == Run(Run(m, first), rest)
    decreases |first|
  {
    if first == [] {
      assert first + rest == rest;
    } else {
      assert (first + rest)[0] == first[0] && (first + rest)[1..] == first[1..] + rest;
      if Possible(m, first[0]) {
        RunOn(Next(m, first[0]), first[1..], rest);
      }
    }
  }

  lemma OneEvent(m: Machine, e: Event, rest: seq<Event>)
    ensures PossibleRun(m, [e] + rest) <==> Possible(m, e) && PossibleRun(Next(m, e), rest)
    ensures PossibleRun(m, [e] + rest) ==> Run(m, [e] + rest) == Run(Next(m, e), rest)
  {
    assert ([e] + rest)[1..] == rest;
  }

  function Reading(): (es: seq<Event>) {
    [Tick(true), LooksAtMark(false), LooksAtText, LooksAgain]
  }

  function Slipping(text: string): (es: seq<Event>) {
    [Tick(true), LooksAtMark(false), UserCopies(Some(text), true), LooksAtText, LooksAgain]
  }

  lemma ReadingStarts(shown: string)
    ensures var m := Start(Some(shown), false, false);
      && PossibleRun(m, Reading())
      && var r := Run(m, Reading());
      && r.phase.Between? && r.poller == Poller(Some(shown), true, None) && r.counts == m.counts && r.copies == m.copies
  {
    var m := Start(Some(shown), false, false);
    var m1 := Next(m, Tick(true));
    var m2 := Next(m1, LooksAtMark(false));
    var m3 := Next(m2, LooksAtText);
    assert Reading() == [Tick(true)] + [LooksAtMark(false), LooksAtText, LooksAgain];
    assert [LooksAtMark(false), LooksAtText, LooksAgain] == [LooksAtMark(false)] + [LooksAtText, LooksAgain];
    assert [LooksAtText, LooksAgain] == [LooksAtText] + [LooksAgain] && [LooksAgain] == [LooksAgain] + [];
    OneEvent(m3, LooksAgain, []);
    OneEvent(m2, LooksAtText, [LooksAgain]);
    OneEvent(m1, LooksAtMark(false), [LooksAtText, LooksAgain]);
    OneEvent(m, Tick(true), [LooksAtMark(false), LooksAtText, LooksAgain]);
  }

  lemma SlippingIsAPoll(m: Machine, text: string)
    requires m.copies != [] && m.phase.Between? && !m.copies[m.Now()].marked
    ensures PossibleRun(m, Slipping(text)) && Run(m, Slipping(text)) == PollWithLanding(m, text)
  {
    var m1 := Next(m, Tick(true));
    var m2 := Next(m1, LooksAtMark(false));
    var m3 := Next(m2, UserCopies(Some(text), true));
    var m4 := Next(m3, LooksAtText);
    var es := Slipping(text);
    assert es == [es[0]] + es[1..] && es[1..] == [es[1]] + es[2..] && es[2..] == [es[2]] + es[3..];
    assert es[3..] == [es[3]] + es[4..] && es[4..] == [es[4]] + [];
    OneEvent(m4, es[4], []);
    OneEvent(m3, es[3], es[4..]);
    OneEvent(m2, es[2], es[3..]);
    OneEvent(m1, es[1], es[2..]);
    OneEvent(m, es[0], es[1..]);
  }

  function SlippingTwice(secret: string, other: string): (es: seq<Event>) {
    Slipping(secret) + [UserCopies(Some(other), false)] + Slipping(secret)
  }

  lemma SlippingTwiceIs(m: Machine, secret: string, other: string)
    requires m.copies != [] && m.phase.Between? && !m.copies[m.Now()].marked
    ensures var between := Next(PollWithLanding(m, secret), UserCopies(Some(other), false));
      PossibleRun(m, SlippingTwice(secret, other)) && Run(m, SlippingTwice(secret, other)) == PollWithLanding(between, secret)
  {
    var once := PollWithLanding(m, secret);
    var copied := UserCopies(Some(other), false);
    SlippingIsAPoll(m, secret);
    assert [copied] == [copied] + [];
    OneEvent(once, copied, []);
    SlippingIsAPoll(Next(once, copied), secret);
    RunOn(m, Slipping(secret), [copied]);
    RunOn(m, Slipping(secret) + [copied], Slipping(secret));
  }

  /** From the start, on a platform that keeps no count: one poll that begins to
      read, one in which a marked copy lands unchecked, an ordinary copy, and one
      more in which a marked copy lands. The text of the marked copies is sent. */
  lemma MarkedTextIsSent(shown: string, secret: string, other: string)
    requires secret != shown
    ensures var m := Start(Some(shown), false, false);
      var es := Reading() + SlippingTwice(secret, other);
      && PossibleRun(m, es)
      && var r := Run(m, es);
      && |r.polls| > 0 && r.polls[|r.polls| - 1].sent == Some(secret)
      && forall k :: 0 <= k < |r.copies| && r.copies[k].text == Some(secret) && secret != other ==> r.copies[k].marked
  {
    var m := Start(Some(shown), false, false);
    StartHolds(Some(shown), false, false);
    ReadingStarts(shown);
    RunHolds(m, Reading());
    var reading := Run(m, Reading());
    MarkedTextCanSlipThrough(reading, secret, other);
    SlippingTwiceIs(reading, secret, other);
    RunOn(m, Reading(), SlippingTwice(secret, other));
  }
}
