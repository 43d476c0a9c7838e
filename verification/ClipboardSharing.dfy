/** Any number of machines sharing their clipboards, and the objects that poll
    one and let text in. */
module ClipboardSharing {
  import opened Common
  import opened Clipboard
  import opened Registry
  import opened Manager

  // --------------------------------------------------- all machines together

  type Room = seq<Machine>

  /** Whether some machine sent this text: only such text reaches another. */
  ghost predicate WasSent(room: Room, text: string) {
    exists j, i :: 0 <= j < |room| && 0 <= i < |room[j].polls| && room[j].polls[i].sent == Some(text)
  }

  ghost predicate WasCopied(room: Room, text: string) {
    exists j, c :: 0 <= j < |room| && 0 <= c < |room[j].copies|
                   && room[j].copies[c].byUser && room[j].copies[c].text == Some(text)
  }

  ghost predicate CanHappen(room: Room, who: nat, e: Event) {
    && who < |room| && Possible(room[who], e)
    && (e.Arrives? ==> WasSent(room, e.text))
  }

  ghost function Happens(room: Room, who: nat, e: Event): (r: Room)
    requires CanHappen(room, who, e)
  {
    room[who := Next(room[who], e)]
  }

  /** Text on its way to a clipboard, and text put there for a peer. */
  ghost predicate ComesFromAUser(room: Room, m: Machine) {
    && (m.incoming.Some? ==> WasCopied(room, m.incoming.value))
    && (forall c :: 0 < c < |m.copies| && !m.copies[c].byUser ==>
          m.copies[c].text.Some? && WasCopied(room, m.copies[c].text.value))
  }

  ghost predicate RoomInv(room: Room) {
    && (forall k :: 0 <= k < |room| ==> Inv(room[k]))
    && (forall k :: 0 <= k < |room| ==> ComesFromAUser(room, room[k]))
  }

  lemma SentWasCopied(room: Room, text: string)
    requires RoomInv(room) && WasSent(room, text)
    ensures WasCopied(room, text)
  {
    var j, i :| 0 <= j < |room| && 0 <= i < |room[j].polls| && room[j].polls[i].sent == Some(text);
    assert Inv(room[j]);
    assert PollAgrees(room[j].polls[i], room[j].copies, room[j].counts, room[j].spent);
    var c := room[j].polls[i].read.value;
    assert room[j].copies[c].byUser && room[j].copies[c].text == Some(text);
  }

  lemma StillCopied(room: Room, who: nat, e: Event, text: string)
    requires CanHappen(room, who, e) && WasCopied(room, text)
    ensures WasCopied(Happens(room, who, e), text)
  {
    var j, c :| 0 <= j < |room| && 0 <= c < |room[j].copies|
                && room[j].copies[c].byUser && room[j].copies[c].text == Some(text);
    var r := Happens(room, who, e);
    assert r[j].copies[c].byUser && r[j].copies[c].text == Some(text);
  }

  lemma StepComesFromAUser(room: Room, who: nat, e: Event, k: nat)
    requires RoomInv(room) && CanHappen(room, who, e) && k < |room|
    ensures ComesFromAUser(Happens(room, who, e), Happens(room, who, e)[k])
  {
    var r := Happens(room, who, e);
    var m, n := room[k], r[k];
    assert ComesFromAUser(room, m);
    if e.Arrives? {
      SentWasCopied(room, e.text);
      StillCopied(room, who, e, e.text);
    }
    if m.incoming.Some? {
      StillCopied(room, who, e, m.incoming.value);
    }
    forall c | 0 < c < |n.copies| && !n.copies[c].byUser
      ensures n.copies[c].text.Some? && WasCopied(r, n.copies[c].text.value)
    {
      if c < |m.copies| {
        assert !m.copies[c].byUser && n.copies[c].text == m.copies[c].text;
        StillCopied(room, who, e, m.copies[c].text.value);
      }
    }
  }

  lemma RoomStepHolds(room: Room, who: nat, e: Event)
    requires RoomInv(room) && CanHappen(room, who, e)
    ensures RoomInv(Happens(room, who, e))
  {
    StepHolds(room[who], e);
    forall k | 0 <= k < |room| ensures ComesFromAUser(Happens(room, who, e), Happens(room, who, e)[k]) {
      StepComesFromAUser(room, who, e, k);
    }
  }

  ghost predicate CanRun(room: Room, es: seq<(nat, Event)>)
    decreases |es|
  {
    es != [] ==> CanHappen(room, es[0].0, es[0].1) && CanRun(Happens(room, es[0].0, es[0].1), es[1..])
  }

  ghost function RunRoom(room: Room, es: seq<(nat, Event)>): (r: Room)
    requires CanRun(room, es)
    decreases |es|
  {
    if es == [] then room else RunRoom(Happens(room, es[0].0, es[0].1), es[1..])
  }

  lemma {:induction false} RoomRunHolds(room: Room, es: seq<(nat, Event)>)
    requires RoomInv(room) && CanRun(room, es)
    ensures RoomInv(RunRoom(room, es)) && |RunRoom(room, es)| == |room|
    decreases |es|
  {
    if es != [] {
      RoomStepHolds(room, es[0].0, es[0].1);
      RoomRunHolds(Happens(room, es[0].0, es[0].1), es[1..]);
    }
  }

  function AllSends(room: Room): (n: nat) {
    if room == [] then 0 else Sends(room[0].polls) + AllSends(room[1..])
  }

  function AllUserCopies(room: Room): (n: nat) {
    if room == [] then 0 else CopiesByUser(room[0].copies) + AllUserCopies(room[1..])
  }

  lemma {:induction false} FewSends(room: Room)
    requires forall k :: 0 <= k < |room| ==> Inv(room[k])
    ensures AllSends(room) <= AllUserCopies(room)
  {
    if room != [] {
      var m := room[0];
      forall k | 0 <= k < |m.polls| && m.polls[k].sent.Some? ensures m.polls[k].read.Some? && m.polls[k].read.value < |m.copies| {
        assert PollAgrees(m.polls[k], m.copies, m.counts, m.spent);
      }
      SendsAreFew(m, |m.polls|, |m.copies|);
      assert m.polls[..|m.polls|] == m.polls && m.copies[..|m.copies|] == m.copies;
      FewSends(room[1..]);
    }
  }

  /** However many machines share, and in whatever order and however often text
      reaches them: there are never more sends than the users made copies, and
      whatever is put on a clipboard for a peer is text some user copied. */
  lemma NothingGoesRoundInCircles(room: Room, es: seq<(nat, Event)>)
    requires forall k :: 0 <= k < |room| ==> exists text, marked, counts :: room[k] == Clipboard.Start(text, marked, counts)
    requires CanRun(room, es)
    ensures var r := RunRoom(room, es);
      && AllSends(r) <= AllUserCopies(r)
      && forall k, c :: 0 <= k < |r| && 0 < c < |r[k].copies| && !r[k].copies[c].byUser ==>
           r[k].copies[c].text.Some? && WasCopied(r, r[k].copies[c].text.value)
  {
    forall k | 0 <= k < |room| ensures Inv(room[k]) && ComesFromAUser(room, room[k]) {
      var text, marked, counts :| room[k] == Clipboard.Start(text, marked, counts);
      StartHolds(text, marked, counts);
    }
    RoomRunHolds(room, es);
    FewSends(RunRoom(room, es));
    forall k | 0 <= k < |RunRoom(room, es)| ensures ComesFromAUser(RunRoom(room, es), RunRoom(room, es)[k]) {
    }
  }

  // ------------------------------------------------------------ the objects

  class ClipboardTask {
    var last: Option<string>
    var reading: bool
    var settling: Option<(Option<nat>, string)>
    var incoming: Option<string>

    ghost function View(): (p: Poller)
      reads this
    {
      Poller(last, reading, settling)
    }

    constructor ()
      ensures View() == ASLEEP && incoming == None
    {
      last, reading, settling, incoming := None, false, None, None;
    }

    /** One tick of the poll; what the read's four looks find is the system's. */
    method PollOnce(wanted: bool, before: Option<nat>, private: Option<bool>, text: Option<string>, after: Option<nat>)
      returns (sent: Option<string>)
      modifies `last, `reading, `settling
      ensures !wanted ==> View() == Unwanted(old(View())) && sent.None?
      ensures wanted ==> (View(), sent) == Handled(old(View()), ReadOf(before, private, text, after))
    {
      sent := None;
      if !wanted {
        reading, settling := false, None;
        return;
      }
      var copied := ReadOf(before, private, text, after);
      if !reading {
        if copied != Changing {
          reading := true;
          last := if copied.Text? then Some(copied.text) else None;
        }
        return;
      }
      match copied {
        case Text(t, at) =>
          if last == Some(t) {
            settling := None;
          } else if settling != Some((at, t)) {
            settling := Some((at, t));
          } else {
            settling, last, sent := None, Some(t), Some(t);
          }
        case Private => last, settling := None, None;
        case Nothing => last, settling := None, None;
        case Changing => settling := None;
      }
    }

    /** Text a peer sent: the latest wins. */
    method Apply(text: string)
      modifies `incoming
      ensures incoming == Some(text)
    {
      incoming := Some(text);
    }

    /** Write what waits; only a write that worked is what the clipboard holds. */
    method WriteIncoming(works: bool) returns (wrote: Option<string>)
      modifies `incoming, `last
      ensures incoming == None
      ensures wrote == if works then old(incoming) else None
      ensures last == if wrote.Some? then wrote else old(last)
    {
      wrote := None;
      if incoming.Some? && works {
        wrote, last := incoming, incoming;
      }
      incoming := None;
    }
  }

  datatype PeerClipboard = PeerClipboard(from: Fingerprint, dialledFor: Option<Handle>, text: string)

  /** Whether a text may be applied now: the switch of its sender and the pairing
      both allow it. */
  predicate Admitted(c: Clients, takesFrom: set<Fingerprint>, p: PeerClipboard) {
    c.SwitchAllowsClipboard(p.from, p.dialledFor) && p.from in takesFrom
  }

  /** A text is let in exactly when the pairing takes text from its sender, the device
      its link was made for is on, and so is every device pinned to that machine. */
  lemma AdmittedExactly(c: Clients, takesFrom: set<Fingerprint>, p: PeerClipboard)
    ensures Admitted(c, takesFrom, p) <==>
      && p.from in takesFrom
      && (p.dialledFor.Some? ==> p.dialledFor.value in c.devices && c.devices[p.dialledFor.value].state.active)
      && forall h :: h in c.devices && c.devices[h].state.pin == Some(p.from) ==> c.devices[h].state.active
  {
    ClipboardNeedsEverySwitch(c, p.from, p.dialledFor);
  }

  class ClipboardInbox {
    const clients: ClientManager
    var waiting: seq<PeerClipboard>

    constructor (clients: ClientManager)
      ensures this.clients == clients && waiting == []
    {
      this.clients, waiting := clients, [];
    }

    /** The first text in the queue that is admitted; what was before it is dropped
        and what was behind it is left. */
    method NextText(takesFrom: set<Fingerprint>) returns (text: Option<string>)
      modifies `waiting
      ensures text.None? ==> waiting == [] && forall p :: p in old(waiting) ==> !Admitted(clients.View(), takesFrom, p)
      ensures text.Some? ==>
        exists k :: 0 <= k < |old(waiting)|
          && Admitted(clients.View(), takesFrom, old(waiting)[k]) && text == Some(old(waiting)[k].text)
          && waiting == old(waiting)[k + 1..]
          && forall i :: 0 <= i < k ==> !Admitted(clients.View(), takesFrom, old(waiting)[i])
    {
      ghost var k := 0;
      while waiting != []
        invariant 0 <= k <= |old(waiting)| && waiting == old(waiting)[k..]
        invariant forall i :: 0 <= i < k ==> !Admitted(clients.View(), takesFrom, old(waiting)[i])
        decreases |waiting|
      {
        var received := waiting[0];
        waiting := waiting[1..];
        var allowed := clients.SwitchAllowsClipboard(received.from, received.dialledFor);
        if allowed && received.from in takesFrom {
          return Some(received.text);
        }
        k := k + 1;
      }
      text := None;
    }
  }

  /** Whether some pairing takes the clipboard and has no device switched off. */
  method ClipboardIsTaken(pairings: seq<(Fingerprint, bool)>, clients: ClientManager) returns (taken: bool)
    ensures taken <==> exists i :: (
      && 0 <= i < |pairings| && pairings[i].1
      && forall h :: h in clients.devices && clients.devices[h].state.pin == Some(pairings[i].0) ==> clients.devices[h].state.active)
  {
    for i := 0 to |pairings|
      invariant forall j :: 0 <= j < i && pairings[j].1 ==>
        exists h :: h in clients.devices && clients.devices[h].state.pin == Some(pairings[j].0) && !clients.devices[h].state.active
    {
      ClipboardNeedsEverySwitch(clients.View(), pairings[i].0, None);
      var allowed := clients.SwitchAllowsClipboard(pairings[i].0, None);
      if pairings[i].1 && allowed {
        return true;
      }
    }
    return false;
  }
}
