/** What an onlooker makes of the log alone: whose visit it is, which links it
    was acknowledged on, what the peer holds, how far its pointer was moved,
    and every rule of a crossing the log breaks. */
module Watcher {
  import opened Common
  import opened Registry
  import opened Proto
  import opened Crossing

  datatype Fault =
    /** A visit began while another was under way. */
    | Replaced
    /** A frame went to a device that is not being visited. */
    | Stray
    /** The first frame of a visit was not an Enter. */
    | NotEntered
    /** A pressing frame went out on a link no Ack of this visit came on. */
    | Unacked
    /** An Enter went out with the pointer moved since the anchor. */
    | EnteredMoved
    /** A visit ended with a button still down. */
    | LeftHolding
    /** A visit did not end with an up for each button held, then key-ups, then
        a zero modifier mask, then Leave. */
    | BadEnding
    /** A frame went to a device within the backoff after a give-up on it. */
    | TooSoon
    /** A position was not numbered one above the last since the anchor. */
    | OutOfTurn
    /** A frame that does not let go went out after one of the visit was refused. */
    | AfterRefusal

  datatype Seen = Seen(
    visiting: Option<Handle>,
    entered: bool,
    acked: set<nat>,
    held: set<nat>,
    /** What was held as the visit began, and its frames so far. */
    start: set<nat>,
    frames: seq<Frame>,
    caught: Vec,
    relative: Vec,
    absolute: Vec,
    /** How many positions went out since the anchor. */
    turn: nat,
    /** Whether a frame of the visit was not taken by a link. */
    refused: bool,
    gaveUp: map<Handle, Time>,
    faults: set<Fault>)

  const NOTHING_SEEN := Seen(None, false, {}, {}, {}, [], ORIGIN, ORIGIN, ORIGIN, 0, false, map[], {})

  predicate Presses(f: Frame) {
    !f.Enter? && !OnlyLetsGo(f)
  }

  function If(c: bool, f: Fault): (r: set<Fault>) {
    if c then {f} else {}
  }

  function HeldAfter(held: set<nat>, fs: seq<Frame>): (r: set<nat>)
    decreases |fs|
  {
    if fs == [] then held else ButtonsAfter(HeldAfter(held, fs[..|fs| - 1]), fs[|fs| - 1])
  }

  /** From the `k`-th on, these frames and Leave let go of what is held by then,
      starting from `start`, and of the keys pressed. */
  ghost predicate EndsFrom(start: set<nat>, frames: seq<Frame>, k: nat, buttons: seq<nat>, keys: seq<nat>, pressed: set<nat>) {
    && k <= |frames| && Lists(buttons, HeldAfter(start, frames[..k])) && Lists(keys, pressed)
    && frames[k..] + [Leave] == EndFrames(buttons, keys)
  }

  /** These frames, then Leave, end a visit that began holding `start`. */
  ghost predicate EndsProperly(start: set<nat>, frames: seq<Frame>) {
    exists k: nat, buttons, keys, pressed :: EndsFrom(start, frames, k, buttons, keys, pressed)
  }

  ghost function OutFaults(m: Seen, h: Handle, f: Frame, on: Option<nat>, at: Time): (r: set<Fault>) {
    If(m.visiting != Some(h), Stray)
    + If(!m.entered && !f.Enter?, NotEntered)
    + If(Presses(f) && on.Some? && on.value !in m.acked, Unacked)
    + If(f.Enter? && m.relative.Plus(m.absolute) != ORIGIN, EnteredMoved)
    + If(f.Leave? && m.held != {}, LeftHolding)
    + If(f.Leave? && !EndsProperly(m.start, m.frames), BadEnding)
    + If(h in m.gaveUp && at < m.gaveUp[h] + UNANSWERED_BACKOFF, TooSoon)
    + If(f.MotionAbsolute? && f.seqno != m.turn + 1, OutOfTurn)
    + If(m.refused && !OnlyLetsGo(f), AfterRefusal)
  }

  ghost function Observe(m: Seen, i: Item): (r: Seen) {
    match i
    case Begun(h) =>
      m.(visiting := Some(h), entered := false, acked := {}, start := m.held, frames := [], refused := false,
         faults := m.faults + If(m.visiting.Some?, Replaced))
    case Anchored => m.(caught := ORIGIN, relative := ORIGIN, absolute := ORIGIN, turn := 0)
    case Acked(link) => m.(acked := m.acked + {link})
    case Moved(v) => m.(caught := m.caught.Plus(v))
    case GaveUp(h, at) => m.(gaveUp := m.gaveUp[h := at])
    case Destroyed(h) => m.(gaveUp := m.gaveUp - {h})
    case Out(h, f, on, at) =>
      m.(visiting := if f.Leave? then None else m.visiting,
         entered := m.entered || f.Enter?,
         held := ButtonsAfter(m.held, f),
         frames := m.frames + [f],
         relative := if f.Input? && f.e.Motion? then m.relative.Plus(Vec(f.e.dx, f.e.dy)) else m.relative,
         absolute := if f.MotionAbsolute? then Vec(f.vx, f.vy) else m.absolute,
         turn := if f.MotionAbsolute? then m.turn + 1 else m.turn,
         refused := m.refused || on.None?,
         faults := m.faults + OutFaults(m, h, f, on, at))
  }

  ghost function Scan(log: seq<Item>): (m: Seen) {
    if log == [] then NOTHING_SEEN else Observe(Scan(log[..|log| - 1]), log[|log| - 1])
  }

  lemma ScanNote(log: seq<Item>, i: Item)
    ensures Scan(log + [i]) == Observe(Scan(log), i)
  {
    assert (log + [i])[..|log|] == log;
  }

  /** What is held is what the visit began with and its frames left. */
  lemma {:induction false} HeldMeans(log: seq<Item>)
    ensures HeldAfter(Scan(log).start, Scan(log).frames) == Scan(log).held
    decreases |log|
  {
    if log != [] {
      var m := Scan(log[..|log| - 1]);
      HeldMeans(log[..|log| - 1]);
      if log[|log| - 1].Out? {
        assert (m.frames + [log[|log| - 1].f])[..|m.frames|] == m.frames;
      }
    }
  }

  predicate IsDown(f: Frame, b: nat) {
    f.Input? && f.e.Button? && f.e.button == b && f.e.state != 0
  }

  predicate IsUp(f: Frame, b: nat) {
    f == Input(Button(b, 0))
  }

  /** The button went down in these frames, and not up after. */
  ghost predicate LastDown(fs: seq<Frame>, b: nat) {
    exists i :: 0 <= i < |fs| && IsDown(fs[i], b) && forall j :: i < j < |fs| ==> !IsUp(fs[j], b)
  }

  ghost predicate NeverUp(fs: seq<Frame>, b: nat) {
    forall j :: 0 <= j < |fs| ==> !IsUp(fs[j], b)
  }

  /** What is held after frames is what went down last, and what was held before
      and never went up. */
  lemma {:induction false} HeldAfterMeans(held: set<nat>, fs: seq<Frame>, b: nat)
    ensures b in HeldAfter(held, fs) <==> LastDown(fs, b) || (b in held && NeverUp(fs, b))
    decreases |fs|
  {
    if fs != [] {
      var before, f := fs[..|fs| - 1], fs[|fs| - 1];
      HeldAfterMeans(held, before, b);
      LastDownNote(before, f, b);
      assert fs == before + [f];
    }
  }

  lemma LastDownNote(fs: seq<Frame>, f: Frame, b: nat)
    ensures LastDown(fs + [f], b) <==> IsDown(f, b) || (LastDown(fs, b) && !IsUp(f, b))
    ensures NeverUp(fs + [f], b) <==> NeverUp(fs, b) && !IsUp(f, b)
  {
    var all := fs + [f];
    if IsDown(f, b) {
      assert IsDown(all[|fs|], b);
    }
    if LastDown(fs, b) && !IsUp(f, b) {
      var i :| 0 <= i < |fs| && IsDown(fs[i], b) && forall j :: i < j < |fs| ==> !IsUp(fs[j], b);
      assert IsDown(all[i], b);
    }
    if LastDown(all, b) && !IsDown(f, b) {
      var i :| 0 <= i < |all| && IsDown(all[i], b) && forall j :: i < j < |all| ==> !IsUp(all[j], b);
      assert IsDown(fs[i], b) && !IsUp(all[|fs|], b);
      assert forall j :: i < j < |fs| ==> fs[j] == all[j];
    }
    if NeverUp(all, b) {
      assert !IsUp(all[|fs|], b);
      assert forall j :: 0 <= j < |fs| ==> fs[j] == all[j];
    }
  }

  /** The buttons the onlooker takes as held are those that went down last of all
      frames logged. */
  lemma HeldWentDownLast(log: seq<Item>, b: nat)
    ensures b in Scan(log).held <==> LastDown(FramesOf(log), b)
  {
    HeldIsAllFrames(log);
    HeldAfterMeans({}, FramesOf(log), b);
  }

  lemma HeldNote(held: set<nat>, fs: seq<Frame>, f: Frame)
    ensures HeldAfter(held, fs + [f]) == ButtonsAfter(HeldAfter(held, fs), f)
  {
    assert (fs + [f])[..|fs|] == fs;
  }

  lemma {:induction false} HeldIsAllFrames(log: seq<Item>)
    ensures Scan(log).held == HeldAfter({}, FramesOf(log))
    decreases |log|
  {
    if log != [] {
      var before, last := log[..|log| - 1], log[|log| - 1];
      HeldIsAllFrames(before);
      assert log == before + [last];
      ScanNote(before, last);
      FramesNote(before, last);
      if last.Out? {
        HeldNote({}, FramesOf(before), last.f);
      } else {
        assert FramesOf(before) + [] == FramesOf(before);
      }
    }
  }

  /** Faults are never forgotten, so a log without one never broke that rule. */
  lemma {:induction false} FaultsStay(log: seq<Item>, i: nat)
    requires i <= |log|
    ensures Scan(log[..i]).faults <= Scan(log).faults
    decreases |log|
  {
    if i < |log| {
      var before := log[..|log| - 1];
      FaultsStay(before, i);
      assert before[..i] == log[..i];
    } else {
      assert log[..i] == log;
    }
  }

  /** What "acknowledged" means: an Ack came on that link, and no visit began since. */
  lemma {:induction false} AckedMeans(log: seq<Item>, link: nat)
    requires link in Scan(log).acked
    ensures exists j :: 0 <= j < |log| && log[j] == Acked(link) && forall k :: j < k < |log| ==> !log[k].Begun?
    decreases |log|
  {
    var before, last := log[..|log| - 1], log[|log| - 1];
    if last == Acked(link) {
      assert log[|log| - 1] == Acked(link);
    } else {
      AckedMeans(before, link);
      var j :| 0 <= j < |before| && before[j] == Acked(link) && forall k :: j < k < |before| ==> !before[k].Begun?;
      assert log[j] == Acked(link);
      assert forall k :: j < k < |log| ==> if k < |before| then log[k] == before[k] else log[k] == last;
    }
  }

  /** What "visiting" means: a visit to that device began, and no Leave went
      out and no other visit began since. */
  lemma {:induction false} VisitingMeans(log: seq<Item>, h: Handle)
    requires Scan(log).visiting == Some(h)
    ensures exists j :: 0 <= j < |log| && log[j] == Begun(h)
                     && forall k :: j < k < |log| ==> !log[k].Begun? && !(log[k].Out? && log[k].f.Leave?)
    decreases |log|
  {
    var before, last := log[..|log| - 1], log[|log| - 1];
    if last == Begun(h) {
      assert log[|log| - 1] == Begun(h);
    } else {
      VisitingMeans(before, h);
      var j :| 0 <= j < |before| && before[j] == Begun(h)
               && forall k :: j < k < |before| ==> !before[k].Begun? && !(before[k].Out? && before[k].f.Leave?);
      assert log[j] == Begun(h);
      assert forall k :: j < k < |log| ==> if k < |before| then log[k] == before[k] else log[k] == last;
    }
  }

  /** The frames that went out, in order. */
  function FramesOf(log: seq<Item>): (fs: seq<Frame>)
    decreases |log|
  {
    if log == [] then [] else
      var last := log[|log| - 1];
      FramesOf(log[..|log| - 1]) + if last.Out? then [last.f] else []
  }

  /** What a visit began with, and its frames so far: what was held as its Begin
      was logged, and all that went out since. */
  ghost predicate VisitFrom(log: seq<Item>, h: Handle, b: nat) {
    && b < |log| && log[b] == Begun(h)
    && (forall k :: b < k < |log| ==> !log[k].Begun? && !(log[k].Out? && log[k].f.Leave?))
    && Scan(log).start == Scan(log[..b]).held && Scan(log).frames == FramesOf(log[b + 1..])
  }

  lemma FramesNote(log: seq<Item>, i: Item)
    ensures FramesOf(log + [i]) == FramesOf(log) + if i.Out? then [i.f] else []
  {
    assert (log + [i])[..|log|] == log;
  }

  lemma VisitGoesOn(log: seq<Item>, i: Item, h: Handle, b: nat)
    requires VisitFrom(log, h, b) && !i.Begun? && !(i.Out? && i.f.Leave?)
    ensures VisitFrom(log + [i], h, b)
  {
    ScanNote(log, i);
    FramesNote(log[b + 1..], i);
    assert (log + [i])[..b] == log[..b] && (log + [i])[b + 1..] == log[b + 1..] + [i];
  }

  lemma {:induction false} VisitMeans(log: seq<Item>, h: Handle) returns (b: nat)
    requires Scan(log).visiting == Some(h)
    ensures VisitFrom(log, h, b)
    decreases |log|
  {
    var before, last := log[..|log| - 1], log[|log| - 1];
    assert log == before + [last];
    if last == Begun(h) {
      b := |log| - 1;
      assert log[b + 1..] == [];
    } else {
      b := VisitMeans(before, h);
      VisitGoesOn(before, last, h, b);
    }
  }

  /** Outside a visit nothing is held, in a log with no stray frame and no Leave
      while holding. */
  lemma {:induction false} HeldOnlyInAVisit(log: seq<Item>)
    requires Stray !in Scan(log).faults && LeftHolding !in Scan(log).faults && Scan(log).visiting.None?
    ensures Scan(log).held == {}
    decreases |log|
  {
    if log != [] {
      var before, last := log[..|log| - 1], log[|log| - 1];
      var m := Scan(before);
      if last.Out? {
        assert OutFaults(m, last.h, last.f, last.on, last.at) <= Scan(log).faults;
        assert Stray !in OutFaults(m, last.h, last.f, last.on, last.at);
        assert LeftHolding !in OutFaults(m, last.h, last.f, last.on, last.at);
      } else {
        HeldOnlyInAVisit(before);
      }
    }
  }

  /** What "entered" means: an Enter went out, and no visit began since. */
  lemma {:induction false} EnteredMeans(log: seq<Item>)
    requires Scan(log).entered
    ensures exists j :: 0 <= j < |log| && log[j].Out? && log[j].f.Enter? && forall k :: j < k < |log| ==> !log[k].Begun?
    decreases |log|
  {
    var before, last := log[..|log| - 1], log[|log| - 1];
    if last.Out? && last.f.Enter? {
      assert log[|log| - 1].f.Enter?;
    } else {
      EnteredMeans(before);
      var j :| 0 <= j < |before| && before[j].Out? && before[j].f.Enter? && forall k :: j < k < |before| ==> !before[k].Begun?;
      assert log[j].f.Enter?;
      assert forall k :: j < k < |log| ==> if k < |before| then log[k] == before[k] else log[k] == last;
    }
  }

  ghost function Judged(m: Seen, i: Item): (r: set<Fault>) {
    if i.Out? then OutFaults(m, i.h, i.f, i.on, i.at) else {}
  }

  lemma JudgedAsItGoes(log: seq<Item>, i: Item)
    ensures Judged(Scan(log), i) <= Scan(log + [i]).faults
  {
    ScanNote(log, i);
  }

  /** Every frame was judged against what the log showed before it. */
  lemma EachFrameWasJudged(log: seq<Item>, i: nat)
    requires i < |log| && log[i].Out?
    ensures OutFaults(Scan(log[..i]), log[i].h, log[i].f, log[i].on, log[i].at) <= Scan(log).faults
  {
    FaultsStay(log, i + 1);
    JudgedAsItGoes(log[..i], log[i]);
    assert log[..i + 1] == log[..i] + [log[i]];
  }
}
