/** Coalescing motion changes how often the peer is told: while a visit lasts it
    is shown the same clicks and keys, in the same order, each at the same place.
    A visit that ends at a Begin elsewhere goes on so to its end; however else one
    ends, motion still held back is dropped, and the frames that end it find the
    pointer short by exactly that. */
module Coalescing {
  import opened Common
  import opened Registry
  import opened Proto
  import opened Links
  import opened Crossing
  import opened Watcher
  import opened CrossingSafety

  predicate IsPointerMove(f: Frame) {
    f.MotionAbsolute? || (f.Input? && f.e.Motion?)
  }

  ghost function Shown(m: Seen): (v: Vec) {
    m.relative.Plus(m.absolute)
  }

  /** Each frame that is not motion, with how far the peer's pointer had been
      moved since the anchor when it went out. */
  ghost function Marks(log: seq<Item>): (q: seq<(Frame, Vec)>)
    decreases |log|
  {
    if log == [] then [] else
      var before, last := log[..|log| - 1], log[|log| - 1];
      Marks(before) + if last.Out? && !IsPointerMove(last.f) then [(last.f, Shown(Scan(before)))] else []
  }

  lemma MarksNote(log: seq<Item>, i: Item)
    ensures Marks(log + [i]) ==
      Marks(log) + if i.Out? && !IsPointerMove(i.f) then [(i.f, Shown(Scan(log)))] else []
  {
    assert (log + [i])[..|log|] == log;
  }

  /** A visit to `h` that was acknowledged, over a link that carries every frame. */
  ghost predicate Steady(s: Sys, h: Handle) {
    && s.t.active == Some(h) && s.t.state == Sending && s.t.ackedLink == s.net.SerialOf(h)
    && s.net.SendAnswer(h).Sent? && TypeOf(s.t, h) == Default
  }

  ghost predicate Carries(s: Sys, env: Env) {
    ValidEnv(env) && env.now == s.clock && !(s.t.releaseBind <= env.pressed) && forall n :: !env.fails(n)
  }

  /** What happens during the visit: input, a flush, another Begin at the same
      edge, the Ack it is answered with, something of another device's, or a change
      of what the peer says it can take. */
  datatype Beat = Got(e: InputEvent) | Flush | BeginAgain | AckAgain | Elsewhere(x: Happening) | CapsChange(on: bool)

  /** Captured or heard of another device, and no Begin at an edge that crosses. */
  predicate IsElsewhere(t: Task, h: Handle, x: Happening) {
    match x
    case Captured(g, ev) => g != h && (ev.Got? || TypeOf(t, g).EnterOnly?)
    case HeardAck(g, _) => g != h
    case HeardPong(g, _) => g != h
    case HeardLeave(g) => g != h
    case _ => false
  }

  function Beaten(s: Sys, h: Handle, b: Beat, env: Env): (r: Sys) {
    var s := s.(clock := env.now);
    match b
    case Got(e) => HandleEvent(s, h, Event.Got(e), env)
    case Flush => if s.t.coalesce && s.t.pending.Some? then FlushPending(s, env) else s
    case BeginAgain => HandleEvent(s, h, Begin, env)
    case AckAgain => if s.net.SerialOf(h).Some? then HearAck(s, h, s.net.SerialOf(h).value) else s
    case Elsewhere(x) => React(s, x, env)
    case CapsChange(on) => s.(net := s.net.Edited(Op.SetCaps(h, on)))
  }

  /** The motion captured and not yet sent. */
  function HeldBack(s: Sys): (v: Vec) {
    if s.t.pending.Some? then s.t.pending.value else ORIGIN
  }

  /** What a beat leaves held back by a task that coalesces. */
  function HeldAfterBeat(v: Vec, b: Beat): (r: Vec) {
    match b
    case Got(Motion(dx, dy)) => v.Plus(Vec(dx, dy))
    case CapsChange(_) => v
    case AckAgain => v
    case Elsewhere(x) => if x.Captured? then ORIGIN else v
    case _ => ORIGIN
  }

  /** The same but for what was written. */
  ghost predicate SameNet(n: Net, r: Net) {
    r == n.(wire := r.wire)
  }

  /** The two tasks saw the same input and showed the same marks. */
  ghost predicate Alike(c: Sys, p: Sys, h: Handle) {
    && Inv(c) && Inv(p) && Steady(c, h) && Steady(p, h)
    && c.t.coalesce && !p.t.coalesce && p.clock <= c.clock
    && c.t.heldLocks == p.t.heldLocks && c.t.releaseBind == p.t.releaseBind
    && c.t.captures == p.t.captures && c.t.buttons == p.t.buttons
    && c.t.unanswered == p.t.unanswered && SameNet(c.net, p.net)
    && Scan(c.log).caught == Scan(p.log).caught
    && Marks(c.log) == Marks(p.log)
  }

  /** A frame over a steady link stays a visit over a steady link. */
  lemma SteadyGive(s: Sys, to: Task, f: Frame, h: Handle, env: Env)
    requires Steady(s, h) && forall n :: !env.fails(n)
    requires to.active == s.t.active && to.state == s.t.state && to.ackedLink == s.t.ackedLink
    requires to.captures == s.t.captures
    ensures var r := Give(s.(t := to), f, h, env);
      Steady(r, h) && r.t == to && SameNet(s.net, r.net) && r.log == s.log + [Out(h, f, s.net.SerialOf(h), env.now)]
  {
  }

  lemma MotionIsNoMark(log: seq<Item>, i: Item)
    requires i.Out? && IsPointerMove(i.f)
    ensures Marks(log + [i]) == Marks(log) && Scan(log + [i]).caught == Scan(log).caught
  {
    ScanNote(log, i);
    MarksNote(log, i);
  }

  /** Motion taken from a steady visit adds no mark. */
  lemma SteadyMotion(s: Sys, h: Handle, v: Vec, env: Env)
    requires Steady(s, h) && forall n :: !env.fails(n)
    ensures var r := SendMotion(s, h, v, env);
      && Steady(r, h) && Marks(r.log) == Marks(s.log) && Scan(r.log).caught == Scan(s.log).caught
      && r.t == s.t.(abs := r.t.abs, absSeq := r.t.absSeq) && r.clock == s.clock && SameNet(s.net, r.net)
  {
    var absolute := h in s.net.clients.devices && s.net.clients.devices[h].state.caps;
    var to := s.t.abs.Plus(v);
    var t := if absolute then s.t.(abs := to, absSeq := s.t.absSeq + 1) else s.t;
    var f := if absolute then MotionAbsolute(s.t.absSeq + 1, to.x, to.y) else Input(Motion(v.x, v.y));
    SteadyGive(s, t, f, h, env);
    MotionIsNoMark(s.log, Out(h, f, s.net.SerialOf(h), env.now));
  }

  lemma SteadyFlush(s: Sys, h: Handle, env: Env)
    requires Steady(s, h) && Inv(s) && Carries(s, env)
    ensures var r := FlushPending(s, env);
      && Steady(r, h) && Inv(r) && r.t.pending.None? && Marks(r.log) == Marks(s.log)
      && Scan(r.log).caught == Scan(s.log).caught && r.clock == s.clock
      && r.t == s.t.(pending := None, abs := r.t.abs, absSeq := r.t.absSeq) && SameNet(s.net, r.net)
  {
    FlushingHolds(s, env);
    if s.t.pending.Some? {
      SteadyMotion(s.(t := s.t.(pending := None)), h, s.t.pending.value, env);
    }
  }

  /** Input other than motion leaves one mark, at what was captured so far. */
  lemma SteadyInput(s: Sys, h: Handle, e: InputEvent, env: Env)
    requires Steady(s, h) && Inv(s) && Carries(s, env) && s.t.pending.None? && !e.Motion?
    ensures var r := Forward(s, h, Event.Got(e), env);
      && Steady(r, h) && Inv(r) && r.clock == s.clock && r.t.pending.None?
      && r.t.coalesce == s.t.coalesce && r.t.releaseBind == s.t.releaseBind && r.t.captures == s.t.captures
      && r.t.unanswered == s.t.unanswered && SameNet(s.net, r.net)
      && Scan(r.log).caught == Scan(s.log).caught
      && (LockRepeat(s.t, Event.Got(e)) ==> r == s)
      && (!LockRepeat(s.t, Event.Got(e)) ==>
            && r.t.heldLocks == LocksAfter(s.t, Event.Got(e))
            && r.t.buttons == ButtonsAfter(s.t.buttons, Input(e))
            && Marks(r.log) == Marks(s.log) + [(Input(e), Scan(s.log).caught)])
  {
    var ev, f := Event.Got(e), Input(e);
    if !LockRepeat(s.t, ev) {
      InputtingHolds(s, h, ev, env);
      var to := s.t.(heldLocks := LocksAfter(s.t, ev), enterWaits := false, buttons := ButtonsAfter(s.t.buttons, f));
      SteadyGive(s, to, f, h, env);
      ScanNote(s.log, Out(h, f, s.net.SerialOf(h), env.now));
      MarksNote(s.log, Out(h, f, s.net.SerialOf(h), env.now));
    }
  }

  lemma PlainBeat(p: Sys, h: Handle, e: InputEvent, env: Env)
    requires Steady(p, h) && Inv(p) && Carries(p, env) && !p.t.coalesce
    ensures HandleEvent(p, h, Event.Got(e), env) ==
      if e.Motion? then SendMotion(Note(p, Moved(Vec(e.dx, e.dy))), h, Vec(e.dx, e.dy), env)
      else Forward(p, h, Event.Got(e), env)
  {
  }

  lemma CoalescedBeat(c: Sys, h: Handle, e: InputEvent, env: Env)
    requires Steady(c, h) && Inv(c) && Carries(c, env) && c.t.coalesce
    ensures HandleEvent(c, h, Event.Got(e), env) ==
      if e.Motion? then
        var p := if c.t.pending.Some? then c.t.pending.value else ORIGIN;
        Note(c.(t := c.t.(pending := Some(p.Plus(Vec(e.dx, e.dy))))), Moved(Vec(e.dx, e.dy)))
      else Forward(FlushPending(c, env), h, Event.Got(e), env)
  {
    if !e.Motion? {
      SteadyFlush(c, h, env);
    }
  }

  /** Captured motion is caught and leaves no mark, sent or not. */
  ghost predicate OnlyCaught(s: Sys, r: Sys, h: Handle, v: Vec) {
    && Inv(r) && Steady(r, h) && r.clock == s.clock
    && r.t.coalesce == s.t.coalesce && r.t.heldLocks == s.t.heldLocks && r.t.releaseBind == s.t.releaseBind
    && r.t.captures == s.t.captures && r.t.buttons == s.t.buttons
    && r.t.unanswered == s.t.unanswered && SameNet(s.net, r.net)
    && Scan(r.log).caught == Scan(s.log).caught.Plus(v) && Marks(r.log) == Marks(s.log)
  }

  lemma PlainMotion(p: Sys, h: Handle, e: InputEvent, env: Env)
    requires Steady(p, h) && Inv(p) && Carries(p, env) && !p.t.coalesce && e.Motion?
    ensures OnlyCaught(p, HandleEvent(p, h, Event.Got(e), env), h, Vec(e.dx, e.dy))
  {
    var v := Vec(e.dx, e.dy);
    var r := HandleEvent(p, h, Event.Got(e), env);
    assert Inv(r) by {
      HandlingHolds(p, h, Event.Got(e), env);
    }
    assert r == SendMotion(Note(p, Moved(v)), h, v, env) by {
      PlainBeat(p, h, e, env);
    }
    MotionIsCaught(p.log, v);
    SteadyMotion(Note(p, Moved(v)), h, v, env);
  }

  lemma MotionIsCaught(log: seq<Item>, v: Vec)
    ensures Scan(log + [Moved(v)]).caught == Scan(log).caught.Plus(v)
    ensures Marks(log + [Moved(v)]) == Marks(log)
  {
    ScanNote(log, Moved(v));
    MarksNote(log, Moved(v));
  }

  lemma CoalescedMotion(c: Sys, h: Handle, e: InputEvent, env: Env)
    requires Steady(c, h) && Inv(c) && Carries(c, env) && c.t.coalesce && e.Motion?
    ensures OnlyCaught(c, HandleEvent(c, h, Event.Got(e), env), h, Vec(e.dx, e.dy))
  {
    assert Inv(HandleEvent(c, h, Event.Got(e), env)) by {
      HandlingHolds(c, h, Event.Got(e), env);
    }
    CoalescedBeat(c, h, e, env);
    MotionIsCaught(c.log, Vec(e.dx, e.dy));
  }

  lemma MotionStaysAlike(c: Sys, p: Sys, h: Handle, e: InputEvent, env: Env)
    requires Alike(c, p, h) && Carries(c, env) && Carries(p, env) && e.Motion?
    ensures Alike(HandleEvent(c, h, Event.Got(e), env), HandleEvent(p, h, Event.Got(e), env), h)
    ensures HeldBack(HandleEvent(c, h, Event.Got(e), env)) == HeldBack(c).Plus(Vec(e.dx, e.dy))
  {
    CoalescedBeat(c, h, e, env);
    CoalescedMotion(c, h, e, env);
    PlainMotion(p, h, e, env);
  }

  lemma InputStaysAlike(c: Sys, p: Sys, h: Handle, e: InputEvent, env: Env)
    requires Alike(c, p, h) && Carries(c, env) && Carries(p, env) && !e.Motion?
    ensures Alike(HandleEvent(c, h, Event.Got(e), env), HandleEvent(p, h, Event.Got(e), env), h)
    ensures HandleEvent(c, h, Event.Got(e), env).t.pending.None?
  {
    CoalescedBeat(c, h, e, env);
    PlainBeat(p, h, e, env);
    SteadyFlush(c, h, env);
    SteadyInput(FlushPending(c, env), h, e, env);
    SteadyInput(p, h, e, env);
  }

  /** A Begin at the edge of a visit under way shows the peer one more Enter,
      with its pointer at the origin again. */
  lemma SteadyBegin(s: Sys, h: Handle, env: Env)
    requires Steady(s, h) && Inv(s) && Carries(s, env) && s.t.pending.None?
    ensures var r := BeginAt(s, h, env);
      && Steady(r, h) && r.clock == s.clock && SameNet(s.net, r.net)
      && r.t == s.t.(abs := ORIGIN, absSeq := 0, enterWaits := false)
      && Scan(r.log).caught == ORIGIN && Marks(r.log) == Marks(s.log) + [(EnterTo(s.t, h), ORIGIN)]
  {
    var a := ToOrigin(s);
    ScanNote(s.log, Anchored);
    MarksNote(s.log, Anchored);
    SteadyGive(a, a.t.(enterWaits := false), EnterTo(s.t, h), h, env);
    ScanNote(a.log, Out(h, EnterTo(s.t, h), s.net.SerialOf(h), env.now));
    MarksNote(a.log, Out(h, EnterTo(s.t, h), s.net.SerialOf(h), env.now));
  }

  lemma BeginIsHandled(s: Sys, h: Handle, env: Env)
    requires Steady(s, h) && Inv(s) && Carries(s, env)
    ensures HandleEvent(s, h, Begin, env) == BeginAt(if s.t.coalesce then FlushPending(s, env) else s, h, env)
  {
    if s.t.coalesce {
      SteadyFlush(s, h, env);
    }
  }

  lemma BeginStaysAlike(c: Sys, p: Sys, h: Handle, env: Env)
    requires Alike(c, p, h) && Carries(c, env) && Carries(p, env)
    ensures Alike(HandleEvent(c, h, Begin, env), HandleEvent(p, h, Begin, env), h)
    ensures HandleEvent(c, h, Begin, env).t.pending.None?
  {
    assert Inv(HandleEvent(c, h, Begin, env)) && Inv(HandleEvent(p, h, Begin, env)) by {
      HandlingHolds(c, h, Begin, env);
      HandlingHolds(p, h, Begin, env);
    }
    BeginIsHandled(c, h, env);
    BeginIsHandled(p, h, env);
    SteadyFlush(c, h, env);
    SteadyBegin(FlushPending(c, env), h, env);
    SteadyBegin(p, h, env);
  }

  lemma CapsKeepLink(n: Net, h: Handle, on: bool)
    ensures var r := n.Edited(Op.SetCaps(h, on)); r.SerialOf(h) == n.SerialOf(h) && r.SendAnswer(h) == n.SendAnswer(h)
  {
  }

  lemma CapsKeepSteady(s: Sys, h: Handle, on: bool, env: Env)
    requires Inv(s) && Steady(s, h)
    ensures var r := s.(net := s.net.Edited(Op.SetCaps(h, on))); Inv(r) && Steady(r, h)
  {
    CapsKeepLink(s.net, h, on);
    PlainStepHolds(s, World(s.net.Edited(Op.SetCaps(h, on))), env);
  }

  lemma CapsStaySame(n: Net, r: Net, h: Handle, on: bool)
    requires SameNet(n, r)
    ensures SameNet(n.Edited(Op.SetCaps(h, on)), r.Edited(Op.SetCaps(h, on)))
  {
  }

  lemma CapsStayAlike(c: Sys, p: Sys, h: Handle, on: bool, env: Env)
    requires Alike(c, p, h)
    ensures Alike(c.(net := c.net.Edited(Op.SetCaps(h, on))), p.(net := p.net.Edited(Op.SetCaps(h, on))), h)
  {
    CapsKeepSteady(c, h, on, env);
    CapsKeepSteady(p, h, on, env);
    CapsStaySame(c.net, p.net, h, on);
  }

  /** Another Ack, on the link the visit is on. */
  lemma AckKeepsSteady(s: Sys, h: Handle, env: Env)
    requires Inv(s) && Steady(s, h) && ValidEnv(env) && env.now == s.clock
    ensures var r := Beaten(s, h, AckAgain, env);
      && Inv(r) && Steady(r, h) && r.clock == s.clock && r.net == s.net
      && Scan(r.log).caught == Scan(s.log).caught && Marks(r.log) == Marks(s.log)
      && r.t == s.t.(unanswered := s.t.unanswered - {h}, awaiting := r.t.awaiting, ackedAt := r.t.ackedAt)
  {
    var link := s.net.SerialOf(h).value;
    HearingAckHolds(s, h, link);
    ScanNote(s.log, Acked(link));
    MarksNote(s.log, Acked(link));
  }

  lemma AckStaysAlike(c: Sys, p: Sys, h: Handle, env: Env)
    requires Alike(c, p, h) && ValidEnv(env) && env.now == c.clock && p.clock == c.clock
    ensures Alike(Beaten(c, h, AckAgain, env), Beaten(p, h, AckAgain, env), h)
    ensures HeldBack(Beaten(c, h, AckAgain, env)) == HeldBack(c)
  {
    AckKeepsSteady(c, h, env);
    AckKeepsSteady(p, h, env);
  }

  /** What is another device's has a coalescing task send what it holds back, if it
      was captured, and does nothing else. */
  lemma ElsewhereIs(s: Sys, h: Handle, x: Happening, env: Env)
    requires Inv(s) && Steady(s, h) && Carries(s, env) && IsElsewhere(s.t, h, x)
    ensures React(s, x, env) == if x.Captured? && s.t.coalesce then FlushPending(s, env) else s
  {
    if x.Captured? && s.t.coalesce {
      SteadyFlush(s, h, env);
    }
  }

  lemma ElsewhereStaysAlike(c: Sys, p: Sys, h: Handle, x: Happening, env: Env)
    requires Alike(c, p, h) && Carries(c, env) && Carries(p, env) && IsElsewhere(c.t, h, x)
    ensures Alike(React(c, x, env), React(p, x, env), h)
    ensures HeldBack(React(c, x, env)) == if x.Captured? then ORIGIN else HeldBack(c)
  {
    ElsewhereIs(c, h, x, env);
    ElsewhereIs(p, h, x, env);
    if x.Captured? {
      SteadyFlush(c, h, env);
    }
  }

  lemma ClockStaysAlike(c: Sys, p: Sys, h: Handle, now: Time)
    requires Alike(c, p, h) && c.clock <= now
    ensures Alike(c.(clock := now), p.(clock := now), h) && Alike(c.(clock := now), p, h)
  {
    ClockHolds(c, now);
    ClockHolds(p, now);
  }

  /** A beat both tasks hear, or a flush only the coalescing one does. */
  lemma BeatStaysAlike(c: Sys, p: Sys, h: Handle, b: Beat, env: Env)
    requires Alike(c, p, h) && CanCarry(c, env) && (b.Elsewhere? ==> IsElsewhere(c.t, h, b.x))
    ensures Alike(Beaten(c, h, b, env), if b.Flush? then p else Beaten(p, h, b, env), h)
    ensures HeldBack(Beaten(c, h, b, env)) == HeldAfterBeat(HeldBack(c), b)
  {
    ClockStaysAlike(c, p, h, env.now);
    var c, p' := c.(clock := env.now), p.(clock := env.now);
    match b
    case Got(e) =>
      if e.Motion? { MotionStaysAlike(c, p', h, e, env); } else { InputStaysAlike(c, p', h, e, env); }
    case Flush => SteadyFlush(c, h, env);
    case BeginAgain => BeginStaysAlike(c, p', h, env);
    case AckAgain => AckStaysAlike(c, p', h, env);
    case Elsewhere(x) => ElsewhereStaysAlike(c, p', h, x, env);
    case CapsChange(on) => CapsStayAlike(c, p', h, on, env);
  }

  ghost predicate CanCarry(s: Sys, env: Env) {
    ValidEnv(env) && s.clock <= env.now && !(s.t.releaseBind <= env.pressed) && forall n :: !env.fails(n)
  }

  datatype Timed = Timed(b: Beat, env: Env)

  function Played(s: Sys, h: Handle, beats: seq<Timed>): (r: Sys)
    decreases |beats|
  {
    if beats == [] then s else Played(Beaten(s, h, beats[0].b, beats[0].env), h, beats[1..])
  }

  ghost predicate AllCarried(s: Sys, h: Handle, beats: seq<Timed>)
    decreases |beats|
  {
    beats != [] ==>
      && CanCarry(s, beats[0].env) && (beats[0].b.Elsewhere? ==> IsElsewhere(s.t, h, beats[0].b.x))
      && AllCarried(Beaten(s, h, beats[0].b, beats[0].env), h, beats[1..])
  }

  /** The same input with the flushes taken out: what a task that does not
      coalesce hears. */
  function Unflushed(beats: seq<Timed>): (r: seq<Timed>) {
    if beats == [] then [] else (if beats[0].b.Flush? then [] else [beats[0]]) + Unflushed(beats[1..])
  }

  /** The motion captured since the last beat that had it sent. */
  function Unsent(v: Vec, beats: seq<Timed>): (r: Vec)
    decreases |beats|
  {
    if beats == [] then v else Unsent(HeldAfterBeat(v, beats[0].b), beats[1..])
  }

  lemma {:induction false} PlayedAlike(c: Sys, p: Sys, h: Handle, beats: seq<Timed>)
    requires Alike(c, p, h) && AllCarried(c, h, beats)
    ensures Alike(Played(c, h, beats), Played(p, h, Unflushed(beats)), h)
    ensures HeldBack(Played(c, h, beats)) == Unsent(HeldBack(c), beats)
    decreases |beats|
  {
    if beats != [] {
      var b, env, rest := beats[0].b, beats[0].env, beats[1..];
      BeatStaysAlike(c, p, h, b, env);
      var p' := if b.Flush? then p else Beaten(p, h, b, env);
      PlayedAlike(Beaten(c, h, b, env), p', h, rest);
      UnflushedPlays(p, h, beats);
    }
  }

  lemma UnflushedPlays(p: Sys, h: Handle, beats: seq<Timed>)
    requires beats != []
    ensures var p' := if beats[0].b.Flush? then p else Beaten(p, h, beats[0].b, beats[0].env);
      Played(p, h, Unflushed(beats)) == Played(p', h, Unflushed(beats[1..]))
  {
    if beats[0].b.Flush? {
      assert Unflushed(beats) == Unflushed(beats[1..]);
    } else {
      assert Unflushed(beats)[0] == beats[0] && Unflushed(beats)[1..] == Unflushed(beats[1..]);
    }
  }

  /** With nothing pending, the same moment with coalescing switched off is alike. */
  lemma SwitchedOffIsAlike(c: Sys, h: Handle)
    requires Inv(c) && Steady(c, h) && c.t.coalesce && c.t.pending.None?
    ensures Alike(c, c.(t := c.t.(coalesce := false)), h)
  {
    SwitchedOffKeepsInv(c);
  }

  lemma SwitchedOffKeepsInv(c: Sys)
    requires Inv(c) && c.t.pending.None?
    ensures Inv(c.(t := c.t.(coalesce := false)))
  {
    var p := c.(t := c.t.(coalesce := false));
    assert VisitAgrees(p);
    assert MotionAgrees(p);
    assert BackoffAgrees(p);
  }

  // -------------------------------------------------------- how visits end

  /** What ends the visit under way before anything held back is sent: the release
      bind, the peer leaving, a request to let go, the capture destroyed, or the
      session over. */
  predicate DropsMotion(s: Sys, h: Handle, x: Happening, env: Env) {
    || (x.Captured? && s.t.releaseBind <= env.pressed)
    || x == HeardLeave(h) || x == DestroyAsked(h) || x.ReleaseAsked? || x.SessionEnds?
  }

  /** A Begin at the edge of another device that is crossed to: turned away or let
      through, it ends the visit, once motion held back was sent. */
  ghost predicate BeginsElsewhere(s: Sys, h: Handle, x: Happening, env: Env) {
    x.Captured? && x.ev.Begin? && x.h != h && TypeOf(s.t, x.h).Default? && CanCarry(s, env)
  }

  ghost predicate EndsVisit(s: Sys, h: Handle, x: Happening, env: Env) {
    DropsMotion(s, h, x, env) || BeginsElsewhere(s, h, x, env)
  }

  function At(fs: seq<Frame>, v: Vec): (q: seq<(Frame, Vec)>) {
    seq(|fs|, i requires 0 <= i < |fs| => (fs[i], v))
  }

  lemma AtOneMore(fs: seq<Frame>, v: Vec)
    requires fs != []
    ensures At(fs, v) == At(fs[..|fs| - 1], v) + [(fs[|fs| - 1], v)]
  {
  }

  lemma GivenOneMore(s: Sys, q: Sys, fs: seq<Frame>, v: Vec, h: Handle, addr: Option<SocketAddr>, env: Env)
    requires fs != [] && !IsPointerMove(fs[|fs| - 1])
    requires Marks(q.log) == Marks(s.log) + At(fs[..|fs| - 1], v) && Shown(Scan(q.log)) == v
    ensures var r := GiveLeaving(q, fs[|fs| - 1], h, addr, env);
      Marks(r.log) == Marks(s.log) + At(fs, v) && Shown(Scan(r.log)) == v
  {
    GivenMark(q, fs[|fs| - 1], h, addr, env);
    AtOneMore(fs, v);
  }

  lemma {:induction false} GivenMarks(s: Sys, fs: seq<Frame>, v: Vec, h: Handle, addr: Option<SocketAddr>, env: Env)
    requires forall i :: 0 <= i < |fs| ==> !IsPointerMove(fs[i])
    requires Shown(Scan(s.log)) == v
    ensures var r := GiveAll(s, fs, h, addr, env);
      Marks(r.log) == Marks(s.log) + At(fs, v) && Shown(Scan(r.log)) == v
    decreases |fs|
  {
    if fs == [] {
      assert At(fs, v) == [];
    } else {
      var before := fs[..|fs| - 1];
      GivenMarks(s, before, v, h, addr, env);
      GivenOneMore(s, GiveAll(s, before, h, addr, env), fs, v, h, addr, env);
    }
  }

  lemma GivenMark(s: Sys, f: Frame, h: Handle, addr: Option<SocketAddr>, env: Env)
    requires !IsPointerMove(f)
    ensures var r := GiveLeaving(s, f, h, addr, env);
      Marks(r.log) == Marks(s.log) + [(f, Shown(Scan(s.log)))] && Shown(Scan(r.log)) == Shown(Scan(s.log))
  {
    var on := if addr.Some? then On(s.net.SendToAnswer(f, addr.value)) else On(s.net.SendAnswer(h));
    assert GiveLeaving(s, f, h, addr, env).log == s.log + [Out(h, f, on, env.now)];
    ScanNote(s.log, Out(h, f, on, env.now));
    MarksNote(s.log, Out(h, f, on, env.now));
  }

  lemma EndFramesAreNoMotion(buttons: seq<nat>, keys: seq<nat>)
    ensures forall i :: 0 <= i < |EndFrames(buttons, keys)| ==> !IsPointerMove(EndFrames(buttons, keys)[i])
    ensures |EndFrames(buttons, keys)| > 0
  {
  }

  /** Leaving adds one mark for each ending frame, all at the same place. */
  lemma LeavingMarks(s: Sys, h: Handle, env: Env)
    requires s.t.active == Some(h)
    ensures Marks(LeaveActive(s, env).log) ==
      Marks(s.log) + At(EndFrames(env.order(s.t.buttons), env.order(env.pressed)), Shown(Scan(s.log)))
  {
    EndFramesAreNoMotion(env.order(s.t.buttons), env.order(env.pressed));
    GivenMarks(s.(t := Idle(s.t)), EndFrames(env.order(s.t.buttons), env.order(env.pressed)), Shown(Scan(s.log)),
               h, AckedAddr(s.t, h), env);
  }

  lemma EndingMarks(s: Sys, h: Handle, x: Happening, env: Env)
    requires s.t.active == Some(h) && DropsMotion(s, h, x, env)
    ensures Marks(Advance(s, x, env).log) ==
      Marks(s.log) + At(EndFrames(env.order(s.t.buttons), env.order(env.pressed)), Shown(Scan(s.log)))
  {
    var s := s.(clock := env.now);
    LeavingMarks(s, h, env);
    if x.DestroyAsked? {
      MarksNote(LeaveActive(s, env).log, Destroyed(h));
    }
  }

  function Short(v: Vec, gap: Vec): (r: Vec)
    ensures r == v <==> gap == ORIGIN
  {
    Vec(v.x - gap.x, v.y - gap.y)
  }

  /** When the visit ends so, both tasks send the same frames; the coalescing one
      sends them with the pointer short by exactly what it still held back. */
  lemma EndsShortOfWhatIsHeldBack(c: Sys, p: Sys, h: Handle, x: Happening, env: Env)
    requires Alike(c, p, h) && DropsMotion(c, h, x, env)
    ensures var fs := EndFrames(env.order(c.t.buttons), env.order(env.pressed));
      var v := Scan(p.log).caught;
      && Marks(Advance(p, x, env).log) == Marks(p.log) + At(fs, v)
      && Marks(Advance(c, x, env).log) == Marks(p.log) + At(fs, Short(v, HeldBack(c)))
      && (Marks(Advance(c, x, env).log) == Marks(Advance(p, x, env).log) <==> HeldBack(c) == ORIGIN)
  {
    EndingMarks(c, h, x, env);
    EndingMarks(p, h, x, env);
    var fs, v := EndFrames(env.order(c.t.buttons), env.order(env.pressed)), Scan(p.log).caught;
    EndFramesAreNoMotion(env.order(c.t.buttons), env.order(env.pressed));
    assert Shown(Scan(p.log)) == v && Shown(Scan(c.log)) == Short(v, HeldBack(c));
    AtDiffers(Marks(p.log), fs, v, Short(v, HeldBack(c)));
  }

  lemma AtDiffers(marks: seq<(Frame, Vec)>, fs: seq<Frame>, v: Vec, w: Vec)
    requires fs != []
    ensures marks + At(fs, v) == marks + At(fs, w) <==> v == w
  {
    assert (marks + At(fs, v))[|marks|] == (fs[0], v);
    assert (marks + At(fs, w))[|marks|] == (fs[0], w);
  }

  lemma SameNetAnswers(n: Net, r: Net, g: Handle)
    requires SameNet(n, r)
    ensures r.MayNotDriveIt(g) == n.MayNotDriveIt(g) && r.SendAnswer(g) == n.SendAnswer(g)
  {
  }

  /** An ending's marks, with the pointer at the origin. */
  function EndingAtOrigin(buttons: set<nat>, env: Env): (q: seq<(Frame, Vec)>) {
    At(EndFrames(env.order(buttons), env.order(env.pressed)), ORIGIN)
  }

  /** These marks, an Enter's at the origin, and those of an ending if it could not
      be sent. */
  function EnterMarks(marks: seq<(Frame, Vec)>, f: Frame, sent: bool, buttons: set<nat>, env: Env): (q: seq<(Frame, Vec)>) {
    var entered := marks + [(f, ORIGIN)];
    if sent then entered else entered + EndingAtOrigin(buttons, env)
  }

  /** These marks, and those a Begin at `g`'s edge leaves: the ending of the visit
      under way if it is turned away; else an Enter's. */
  function BeginMarks(marks: seq<(Frame, Vec)>, s: Sys, g: Handle, env: Env): (q: seq<(Frame, Vec)>) {
    if CannotCross(s, g, env).Some? then marks + EndingAtOrigin(s.t.buttons, env)
    else EnterMarks(marks, EnterTo(s.t, g), s.net.SendAnswer(g).Sent?, s.t.buttons, env)
  }

  lemma AnchoredMarks(s: Sys)
    ensures var a := ToOrigin(s);
      && Marks(a.log) == Marks(s.log) && Shown(Scan(a.log)) == ORIGIN && a.net == s.net
      && a.t == s.t.(abs := ORIGIN, absSeq := 0)
  {
    ScanNote(s.log, Anchored);
    MarksNote(s.log, Anchored);
  }

  lemma RefusedBeginIs(s: Sys, h: Handle, g: Handle, env: Env)
    requires s.t.active == Some(h) && g != h && CannotCross(s, g, env).Some?
    ensures BeginAt(s, g, env) ==
      LeaveActive(if CannotCross(s, g, env) == Some(NoLink) then Dial(ToOrigin(s), g) else ToOrigin(s), env)
  {
  }

  lemma TakenBeginIs(s: Sys, h: Handle, g: Handle, env: Env)
    requires s.t.active == Some(h) && g != h && CannotCross(s, g, env).None?
    ensures BeginAt(s, g, env) == Forward(Start(ToOrigin(s), g, env), g, Begin, env)
    ensures g in s.net.clients.answered
  {
  }

  lemma RefusedBeginMarks(s: Sys, h: Handle, g: Handle, env: Env)
    requires s.t.active == Some(h) && g != h && CannotCross(s, g, env).Some?
    ensures Marks(BeginAt(s, g, env).log) == BeginMarks(Marks(s.log), s, g, env)
  {
    var a := ToOrigin(s);
    AnchoredMarks(s);
    RefusedBeginIs(s, h, g, env);
    var b := if CannotCross(s, g, env) == Some(NoLink) then Dial(a, g) else a;
    assert b.log == a.log && b.t == a.t;
    LeavingAtOrigin(b, h, env);
  }

  lemma EnterIsGiven(s: Sys, g: Handle, env: Env)
    requires s.t.state == WaitingForAck && g in s.net.clients.answered
    ensures var given := Give(s.(t := s.t.(enterWaits := false)), EnterTo(s.t, g), g, env);
      Forward(s, g, Begin, env) == if s.net.SendAnswer(g).Sent? then given else LeaveActive(given, env)
  {
  }

  lemma EnterGivenMarks(s: Sys, g: Handle, env: Env)
    requires Shown(Scan(s.log)) == ORIGIN
    ensures var given := Give(s.(t := s.t.(enterWaits := false)), EnterTo(s.t, g), g, env);
      && given.t == s.t.(enterWaits := false)
      && Marks(given.log) == Marks(s.log) + [(EnterTo(s.t, g), ORIGIN)] && Shown(Scan(given.log)) == ORIGIN
  {
    ScanNote(s.log, Out(g, EnterTo(s.t, g), On(s.net.SendAnswer(g)), env.now));
    MarksNote(s.log, Out(g, EnterTo(s.t, g), On(s.net.SendAnswer(g)), env.now));
  }

  lemma LeavingAtOrigin(s: Sys, g: Handle, env: Env)
    requires s.t.active == Some(g) && Shown(Scan(s.log)) == ORIGIN
    ensures Marks(LeaveActive(s, env).log) == Marks(s.log) + EndingAtOrigin(s.t.buttons, env)
  {
    LeavingMarks(s, g, env);
  }

  lemma EnteringMarks(s: Sys, g: Handle, env: Env)
    requires s.t.active == Some(g) && s.t.state == WaitingForAck && g in s.net.clients.answered
    requires Shown(Scan(s.log)) == ORIGIN
    ensures Marks(Forward(s, g, Begin, env).log) ==
      EnterMarks(Marks(s.log), EnterTo(s.t, g), s.net.SendAnswer(g).Sent?, s.t.buttons, env)
  {
    EnterIsGiven(s, g, env);
    EnterGivenMarks(s, g, env);
    if !s.net.SendAnswer(g).Sent? {
      LeavingAtOrigin(Give(s.(t := s.t.(enterWaits := false)), EnterTo(s.t, g), g, env), g, env);
    }
  }

  lemma StartedMarks(a: Sys, g: Handle, env: Env)
    ensures var b := Start(a, g, env);
      && Marks(b.log) == Marks(a.log) && Shown(Scan(b.log)) == Shown(Scan(a.log)) && b.net == a.net
      && b.t.active == Some(g) && b.t.state == WaitingForAck && b.t.buttons == a.t.buttons && b.t.captures == a.t.captures
  {
    ScanNote(a.log, Begun(g));
    MarksNote(a.log, Begun(g));
  }

  lemma TakenBeginMarks(s: Sys, h: Handle, g: Handle, env: Env)
    requires s.t.active == Some(h) && g != h && CannotCross(s, g, env).None?
    ensures Marks(BeginAt(s, g, env).log) == BeginMarks(Marks(s.log), s, g, env)
  {
    AnchoredMarks(s);
    TakenBeginIs(s, h, g, env);
    StartedMarks(ToOrigin(s), g, env);
    EnteringMarks(Start(ToOrigin(s), g, env), g, env);
  }

  lemma BeginLeavesMarks(s: Sys, h: Handle, g: Handle, env: Env)
    requires s.t.active == Some(h) && g != h
    ensures Marks(BeginAt(s, g, env).log) == BeginMarks(Marks(s.log), s, g, env)
  {
    if CannotCross(s, g, env).Some? {
      RefusedBeginMarks(s, h, g, env);
    } else {
      TakenBeginMarks(s, h, g, env);
    }
  }

  lemma BeginElsewhereIs(s: Sys, h: Handle, g: Handle, env: Env)
    requires Inv(s) && Steady(s, h) && Carries(s, env) && g != h && TypeOf(s.t, g).Default?
    ensures HandleEvent(s, g, Begin, env) == BeginAt(if s.t.coalesce then FlushPending(s, env) else s, g, env)
  {
    if s.t.coalesce {
      SteadyFlush(s, h, env);
    }
  }

  lemma SameBeginMarks(marks: seq<(Frame, Vec)>, c: Sys, p: Sys, g: Handle, env: Env)
    requires SameNet(c.net, p.net) && c.t.buttons == p.t.buttons && c.t.captures == p.t.captures
    requires c.t.unanswered == p.t.unanswered
    ensures BeginMarks(marks, c, g, env) == BeginMarks(marks, p, g, env)
  {
    SameNetAnswers(c.net, p.net, g);
  }

  /** A visit that ends at another device's edge ends alike in both tasks. */
  lemma BeginElsewhereShowsTheSame(c: Sys, p: Sys, h: Handle, x: Happening, env: Env)
    requires Alike(c, p, h) && BeginsElsewhere(c, h, x, env)
    ensures Marks(Advance(c, x, env).log) == Marks(Advance(p, x, env).log)
  {
    ClockStaysAlike(c, p, h, env.now);
    BeginElsewhereMarks(c.(clock := env.now), p.(clock := env.now), h, x.h, env);
  }

  lemma BeginElsewhereMarks(c: Sys, p: Sys, h: Handle, g: Handle, env: Env)
    requires Alike(c, p, h) && Carries(c, env) && Carries(p, env) && g != h && TypeOf(c.t, g).Default?
    ensures Marks(HandleEvent(c, g, Begin, env).log) == Marks(HandleEvent(p, g, Begin, env).log)
  {
    BeginElsewhereIs(c, h, g, env);
    BeginElsewhereIs(p, h, g, env);
    SteadyFlush(c, h, env);
    var f := FlushPending(c, env);
    BeginLeavesMarks(f, h, g, env);
    BeginLeavesMarks(p, h, g, env);
    SameBeginMarks(Marks(p.log), f, p, g, env);
  }

  /** A Begin at another device's edge leaves the visit under way behind. */
  lemma BeginMovesOn(s: Sys, h: Handle, g: Handle, env: Env)
    requires s.t.active == Some(h) && g != h
    ensures BeginAt(s, g, env).t.active != Some(h)
  {
    var a := ToOrigin(s);
    if CannotCross(s, g, env).Some? {
      LeavingIdles(if CannotCross(s, g, env) == Some(NoLink) then Dial(a, g) else a, env);
    } else {
      TakenBeginIs(s, h, g, env);
      var b := Start(a, g, env);
      EnterIsGiven(b, g, env);
      LeavingIdles(Give(b.(t := b.t.(enterWaits := false)), EnterTo(b.t, g), g, env), env);
    }
  }

  lemma InputStays(s: Sys, h: Handle, ev: Event, env: Env)
    requires Inv(s) && Steady(s, h) && Carries(s, env)
    ensures HandleEvent(s, h, ev, env).t.active == Some(h)
  {
    SteadyFlush(s, h, env);
    var f := if s.t.coalesce then FlushPending(s, env) else s;
    if ev.Begin? {
      BeginIsHandled(s, h, env);
      SteadyBegin(f, h, env);
    } else if s.t.coalesce {
      CoalescedBeat(s, h, ev.e, env);
      if !ev.e.Motion? {
        SteadyInput(f, h, ev.e, env);
      }
    } else {
      PlainBeat(s, h, ev.e, env);
      if ev.e.Motion? {
        PlainMotion(s, h, ev.e, env);
      } else {
        SteadyInput(s, h, ev.e, env);
      }
    }
  }

  lemma CapturedEnds(s: Sys, h: Handle, x: Happening, env: Env)
    requires Inv(s) && Steady(s, h) && Carries(s, env) && x.Captured?
    ensures React(s, x, env).t.active != Some(h) <==> BeginsElsewhere(s, h, x, env)
  {
    if x.h == h {
      InputStays(s, h, x.ev, env);
    } else if IsElsewhere(s.t, h, x) {
      ElsewhereIs(s, h, x, env);
      SteadyFlush(s, h, env);
    } else {
      SteadyFlush(s, h, env);
      BeginElsewhereIs(s, h, x.h, env);
      BeginMovesOn(if s.t.coalesce then FlushPending(s, env) else s, h, x.h, env);
    }
  }

  /** While its link carries every frame, these are the only steps of the task that
      end a visit. */
  lemma OnlyTheseEndAVisit(s: Sys, h: Handle, x: Happening, env: Env)
    requires Inv(s) && Steady(s, h) && Enabled(s, x, env) && !x.World? && forall n :: !env.fails(n)
    ensures Advance(s, x, env).t.active != Some(h) <==> EndsVisit(s, h, x, env)
  {
    ClockHolds(s, env.now);
    var s' := s.(clock := env.now);
    LeavingIdles(s', env);
    if x.FlushTick? {
      FlushKeepsVisit(s', h, env);
    } else if x.Captured? && !(s.t.releaseBind <= env.pressed) {
      CapturedEnds(s', h, x, env);
    }
  }

  lemma FlushKeepsVisit(s: Sys, h: Handle, env: Env)
    requires Steady(s, h) && forall n :: !env.fails(n)
    ensures FlushPending(s, env).t.active == Some(h)
  {
    if s.t.pending.Some? {
      SteadyMotion(s.(t := s.t.(pending := None)), h, s.t.pending.value, env);
    }
  }

  /** From any moment a run reaches in a steady visit with nothing held back,
      under any schedule of input, flushes, Begins at the same edge and their Acks,
      other devices' events and changes of capability: a coalescing task and a plain
      one hand over the same frames that are not motion, in the same order, each with
      the peer's pointer moved equally far. When the visit then ends, that goes on
      exactly if it ends at another device's edge, or the motion captured since the
      last flush comes to nothing. */
  lemma CoalescingShowsTheSame(bind: set<nat>, net: Net, now: Time, run: seq<Moment>, h: Handle, beats: seq<Timed>,
                               x: Happening, env: Env)
    requires CrossingSafety.PossibleRun(Initial(true, bind, net, now), run)
    requires var c := CrossingSafety.Run(Initial(true, bind, net, now), run);
      Steady(c, h) && c.t.coalesce && c.t.pending.None? && AllCarried(c, h, beats)
    requires EndsVisit(Played(CrossingSafety.Run(Initial(true, bind, net, now), run), h, beats), h, x, env)
    ensures var c := CrossingSafety.Run(Initial(true, bind, net, now), run);
      var p := c.(t := c.t.(coalesce := false));
      var cs, ps := Played(c, h, beats), Played(p, h, Unflushed(beats));
      && Marks(cs.log) == Marks(ps.log)
      && (Marks(Advance(cs, x, env).log) == Marks(Advance(ps, x, env).log) <==>
            !DropsMotion(cs, h, x, env) || Unsent(ORIGIN, beats) == ORIGIN)
  {
    InitialHolds(true, bind, net, now);
    RunHolds(Initial(true, bind, net, now), run);
    var c := CrossingSafety.Run(Initial(true, bind, net, now), run);
    var p := c.(t := c.t.(coalesce := false));
    SwitchedOffIsAlike(c, h);
    PlayedAlike(c, p, h, beats);
    if DropsMotion(Played(c, h, beats), h, x, env) {
      EndsShortOfWhatIsHeldBack(Played(c, h, beats), Played(p, h, Unflushed(beats)), h, x, env);
    } else {
      BeginElsewhereShowsTheSame(Played(c, h, beats), Played(p, h, Unflushed(beats)), h, x, env);
    }
  }

  /** A visit begun and answered is steady. */
  lemma AnsweredVisitIsSteady(s: Sys, h: Handle, env: Env)
    requires s.t.active.None? && s.t.pending.None? && s.t.state == WaitingForAck && s.t.unanswered == map[]
    requires !(s.t.releaseBind <= env.pressed) && TypeOf(s.t, h) == Default
    requires CanBeCrossedTo(s.net, h) && !env.fails(|s.log| + 2)
    ensures var entered := Advance(s, Captured(h, Begin), env);
      var r := Advance(entered, HeardAck(h, s.net.LinkOf(h).value.serial), env);
      && entered.clock == env.now && r.clock == env.now
      && Steady(r, h) && r.t.pending.None? && r.t.coalesce == s.t.coalesce && r.t.releaseBind == s.t.releaseBind
  {
    FirstBeginEnters(s.(clock := env.now), h, env);
  }

  lemma ThreeMoments(s: Sys, x0: Happening, x1: Happening, x2: Happening, env: Env)
    ensures var run := [Moment(x0, env), Moment(x1, env), Moment(x2, env)];
      var s1 := Advance(s, x0, env);
      var s2 := Advance(s1, x1, env);
      && CrossingSafety.Run(s, run) == Advance(s2, x2, env)
      && (CrossingSafety.PossibleRun(s, run) <==> Enabled(s, x0, env) && Enabled(s1, x1, env) && Enabled(s2, x2, env))
  {
    var run := [Moment(x0, env), Moment(x1, env), Moment(x2, env)];
    var s1 := Advance(s, x0, env);
    var s2 := Advance(s1, x1, env);
    assert run[1..][1..] == run[2..] && run[2..][1..] == [];
    assert CrossingSafety.Run(s2, run[2..]) == Advance(s2, x2, env);
    assert CrossingSafety.Run(s1, run[1..]) == CrossingSafety.Run(s2, run[2..]);
    assert CrossingSafety.PossibleRun(s2, run[2..]) <==> Enabled(s2, x2, env);
    assert CrossingSafety.PossibleRun(s1, run[1..]) <==> Enabled(s1, x1, env) && CrossingSafety.PossibleRun(s2, run[2..]);
  }

  const STEP_RIGHT := Motion(1.0, 0.0)

  lemma OneStepIsHeldBack(c: Sys, h: Handle, env: Env)
    requires CanCarry(c, env)
    ensures AllCarried(c, h, [Timed(Beat.Got(STEP_RIGHT), env)])
    ensures Unsent(ORIGIN, [Timed(Beat.Got(STEP_RIGHT), env)]) != ORIGIN
  {
    var beats := [Timed(Beat.Got(STEP_RIGHT), env)];
    assert beats[1..] == [];
    assert Unsent(Vec(1.0, 0.0), []) == Vec(1.0, 0.0);
  }

  /** The case where it does not go on: a device that can be crossed to, a Begin,
      its Ack, one step of motion, and a request to let go before any flush. The
      Leave of the coalescing task finds the pointer a step short. */
  lemma LettingGoDropsMotion(net: Net, h: Handle, order: set<nat> -> seq<nat>, now: Time, key: nat)
    requires CanBeCrossedTo(net, h)
    requires forall s: set<nat> :: Lists(order(s), s)
    ensures var env := Env(now, {}, order, _ => false);
      var s := Initial(true, {key}, net, now);
      var run := [Moment(Create(Capture(h, Left, Default)), env), Moment(Captured(h, Begin), env),
                  Moment(HeardAck(h, net.LinkOf(h).value.serial), env)];
      var beats := [Timed(Beat.Got(STEP_RIGHT), env)];
      && CrossingSafety.PossibleRun(s, run)
      && var c := CrossingSafety.Run(s, run);
      && var p := c.(t := c.t.(coalesce := false));
      && Steady(c, h)
      && Marks(Advance(Played(c, h, beats), ReleaseAsked, env).log)
         != Marks(Advance(Played(p, h, Unflushed(beats)), ReleaseAsked, env).log)
  {
    var env := Env(now, {}, order, _ => false);
    var s := Initial(true, {key}, net, now);
    var made, ack := Create(Capture(h, Left, Default)), HeardAck(h, net.LinkOf(h).value.serial);
    var s1 := Advance(s, made, env);
    assert s1.t.captures == [Capture(h, Left, Default)];
    AnsweredVisitIsSteady(s1, h, env);
    ThreeMoments(s, made, Captured(h, Begin), ack, env);
    var run := [Moment(made, env), Moment(Captured(h, Begin), env), Moment(ack, env)];
    OneStepIsHeldBack(CrossingSafety.Run(s, run), h, env);
    CoalescingShowsTheSame({key}, net, now, run, h, [Timed(Beat.Got(STEP_RIGHT), env)], ReleaseAsked, env);
  }
}
