/** What capture answers each thing it hears or captures with: which crossings it
    lets through and which it refuses, what it sends and where, and what it keeps. */
module CrossingAnswers {
  import opened Common
  import opened Registry
  import opened Proto
  import opened Links
  import opened Crossing
  import opened Watcher
  import opened CrossingSafety
  import opened Coalescing

  // ------------------------------------------------------- refused, or not

  /** The machine at the end of the device's link, or, with none, the one it is pinned
      to, may not be driven. */
  predicate Barred(n: Net, h: Handle) {
    && h in n.clients.devices
    && var d := n.clients.devices[h];
    && (if d.state.activeAddr.Some? && d.state.activeAddr.value in n.links
        then n.links[d.state.activeAddr.value].fp !in n.trust
        else d.state.pin.Some? && d.state.pin.value !in n.trust)
  }

  /** The device shows a link, and has answered on it. */
  predicate AnsweredOnIt(n: Net, h: Handle) {
    h in n.clients.devices && n.clients.devices[h].state.activeAddr.Some? && h in n.clients.answered
  }

  predicate SaysItTakesInput(n: Net, h: Handle) {
    h in n.clients.devices && n.clients.devices[h].state.alive
  }

  predicate GivenUpOnLately(t: Task, h: Handle, now: Time) {
    h in t.unanswered && now < t.unanswered[h] + 5000
  }

  /** Why a crossing cannot land now, in the order it is asked: the machine may not be
      driven; no link is up and answered on; its peer takes no input; it left a
      crossing unanswered within five seconds. */
  lemma WhyACrossingIsRefused(s: Sys, h: Handle, env: Env)
    ensures var why := CannotCross(s, h, env);
      && (why == Some(NotLetDrive) <==> Barred(s.net, h))
      && (why == Some(NoLink) <==> !Barred(s.net, h) && !AnsweredOnIt(s.net, h))
      && (why == Some(NotAccepting) <==>
            !Barred(s.net, h) && AnsweredOnIt(s.net, h) && !SaysItTakesInput(s.net, h))
      && (why == Some(Unanswered) <==>
            !Barred(s.net, h) && AnsweredOnIt(s.net, h) && SaysItTakesInput(s.net, h) && GivenUpOnLately(s.t, h, env.now))
  {
  }

  /** A crossing can land: nothing of the above. */
  predicate CanLand(s: Sys, h: Handle, now: Time) {
    && !Barred(s.net, h) && AnsweredOnIt(s.net, h) && SaysItTakesInput(s.net, h)
    && !GivenUpOnLately(s.t, h, now)
  }

  // ------------------------------------------------------------ the edges

  /** The `i`-th capture is the first of `h`'s. */
  predicate FirstOf(cs: seq<Capture>, h: Handle, i: nat) {
    i < |cs| && cs[i].h == h && forall j :: 0 <= j < i ==> cs[j].h != h
  }

  lemma {:induction false} FirstIsFound(cs: seq<Capture>, h: Handle, i: nat)
    requires FirstOf(cs, h, i)
    ensures FirstCapture(cs, h) == Some(cs[i])
    decreases |cs|
  {
    if i > 0 {
      assert cs[0].h != h;
      FirstIsFound(cs[1..], h, i - 1);
    }
  }

  lemma {:induction false} NoneIsFound(cs: seq<Capture>, h: Handle)
    requires forall i :: 0 <= i < |cs| ==> cs[i].h != h
    ensures FirstCapture(cs, h).None?
    decreases |cs|
  {
    if cs != [] {
      assert cs[0].h != h;
      NoneIsFound(cs[1..], h);
    }
  }

  /** The pointer enters a device at the edge opposite the one its first capture is at,
      and leaves by: left for right, and top for bottom. */
  lemma EntersAtTheOppositeEdge(t: Task, h: Handle, i: nat)
    requires FirstOf(t.captures, h, i)
    ensures TypeOf(t, h) == t.captures[i].ty
    ensures EnterTo(t, h) == Enter(match t.captures[i].pos
                                   case Left => Right
                                   case Right => Left
                                   case Top => Bottom
                                   case Bottom => Top)
  {
    FirstIsFound(t.captures, h, i);
  }

  // ------------------------------------------------------------------ Begin

  /** What a crossing let through sends and keeps: the motion anchored, the visit
      begun, an Enter out, the deadline a second away; and the visit goes on only if a
      link took that Enter. */
  ghost predicate LetThrough(s: Sys, r: Sys, h: Handle, env: Env) {
    && |s.log| + 3 <= |r.log| && s.log <= r.log
    && r.log[|s.log|] == Anchored && r.log[|s.log| + 1] == Begun(h)
    && r.log[|s.log| + 2].Out? && r.log[|s.log| + 2].h == h && r.log[|s.log| + 2].f == EnterTo(s.t, h)
    && (r.log[|s.log| + 2].on.Some? ==>
          && |r.log| == |s.log| + 3
          && r.t == s.t.(active := Some(h), state := WaitingForAck, awaiting := Some(env.now + 1000), enterWaits := false,
                         abs := ORIGIN, absSeq := 0))
    && (r.log[|s.log| + 2].on.None? ==> r.t.active.None?)
  }

  lemma StartGoesThrough(s: Sys, h: Handle, env: Env)
    requires CanLand(s, h, env.now)
    ensures LetThrough(s, Forward(Start(ToOrigin(s), h, env), h, Begin, env), h, env)
  {
    var b := Start(ToOrigin(s), h, env);
    var given := Give(b.(t := b.t.(enterWaits := false)), EnterTo(b.t, h), h, env);
    EnterIsGiven(b, h, env);
    assert EnterTo(b.t, h) == EnterTo(s.t, h);
    if !b.net.SendAnswer(h).Sent? {
      LeavingIdles(given, env);
      LeavingBeginsNothing(given, env);
    }
  }

  /** A Begin at the edge of a device that is crossed to, with no visit to it under way:
      let through exactly when a crossing can land, ending any other visit by taking it
      over; else refused, ending it with a Leave, and a device with no link dialled. */
  lemma ABeginIsAnswered(s: Sys, h: Handle, env: Env)
    requires s.t.active != Some(h) && TypeOf(s.t, h).Default? && !(s.t.releaseBind <= env.pressed)
    requires !s.t.coalesce || s.t.pending.None?
    ensures var r := HandleEvent(s, h, Begin, env);
      if CanLand(s, h, env.now) then LetThrough(s, r, h, env)
      else
        && r.t.active.None? && s.log <= r.log && (forall i :: |s.log| <= i < |r.log| ==> !r.log[i].Begun?)
        && (s.t.active.None? ==>
              if !Barred(s.net, h) && !(h in s.net.clients.devices && s.net.clients.devices[h].state.activeAddr.Some?)
              then h in r.net.connecting && r.net == s.net.(connecting := r.net.connecting)
              else r.net == s.net)
  {
    WhyACrossingIsRefused(s, h, env);
    BeginIs(s, h, env);
    BeginHandled(s, h, env);
    if CanLand(s, h, env.now) {
      StartGoesThrough(s, h, env);
    } else {
      var a := ToOrigin(s);
      var d := if CannotCross(s, h, env) == Some(NoLink) then Dial(a, h) else a;
      LeavingIdles(d, env);
      LeavingBeginsNothing(d, env);
    }
  }

  lemma BeginHandled(s: Sys, h: Handle, env: Env)
    requires s.t.active != Some(h) && TypeOf(s.t, h).Default? && !(s.t.releaseBind <= env.pressed)
    requires !s.t.coalesce || s.t.pending.None?
    ensures HandleEvent(s, h, Begin, env) == BeginAt(s, h, env)
  {
  }

  lemma LeavingBeginsNothing(s: Sys, env: Env)
    ensures s.log <= LeaveActive(s, env).log
    ensures forall i :: |s.log| <= i < |LeaveActive(s, env).log| ==> LeaveActive(s, env).log[i].Out?
  {
    if s.t.active.Some? {
      GivenFrames(s.(t := Idle(s.t)), EndFrames(env.order(s.t.buttons), env.order(env.pressed)), s.t.active.value,
                  AckedAddr(s.t, s.t.active.value), env);
    }
  }

  // ------------------------------------------------------------ the deadline

  /** The task is waiting on another crossing than it was, or on one made again. */
  predicate WaitsAnew(s: Sys, r: Sys) {
    && r.t.active.Some? && r.t.state == WaitingForAck
    && !(r.t.active == s.t.active && s.t.state == WaitingForAck)
  }

  /** A crossing's deadline is a second after it is made, or made again. */
  lemma DeadlineIsASecondAway(s: Sys, x: Happening, env: Env)
    requires Inv(s) && Enabled(s, x, env)
    requires WaitsAnew(s, Advance(s, x, env))
    ensures Advance(s, x, env).t.awaiting == Some(env.now + 1000)
  {
    var s' := s.(clock := env.now);
    LeavingIdles(s', env);
    match x
    case Captured(h, ev) => EventSetsDeadline(s', h, ev, env);
    case FlushTick => FlushSetsDeadline(s', env);
    case HeardPong(h, link) => LeavingIdles(Give(s'.(t := s'.t.(enterWaits := false)), EnterTo(s'.t, h), h, env), env);
    case AckTimeout =>
      if s.t.active.Some? {
        LeavingIdles(s'.(t := s'.t.(awaiting := None, unanswered := s'.t.unanswered[s'.t.active.value := env.now])), env);
      }
    case _ =>
  }

  lemma FlushSetsDeadline(s: Sys, env: Env)
    ensures var r := FlushPending(s, env);
      r.t.active.Some? && r.t.state == WaitingForAck ==>
        || (r.t.active == s.t.active && s.t.state == WaitingForAck && r.t.awaiting == s.t.awaiting)
        || r.t.awaiting == Some(env.now + 1000)
  {
    if s.t.pending.Some? && s.t.active.Some? {
      SendingSetsNoDeadline(s.(t := s.t.(pending := None)), s.t.active.value, s.t.pending.value, env);
    }
  }

  lemma SendingSetsNoDeadline(s: Sys, h: Handle, v: Vec, env: Env)
    ensures var r := SendMotion(s, h, v, env);
      r.t.active.None? || (r.t.active == s.t.active && r.t.state == s.t.state && r.t.awaiting == s.t.awaiting)
  {
    var absolute := h in s.net.clients.devices && s.net.clients.devices[h].state.caps;
    var at := s.t.abs.Plus(v);
    var to := if absolute then s.t.(abs := at, absSeq := s.t.absSeq + 1) else s.t;
    var f := if absolute then MotionAbsolute(s.t.absSeq + 1, at.x, at.y) else Input(Motion(v.x, v.y));
    MotionIs(s, h, v, to, f, env);
    LeavingIdles(Give(s.(t := to), f, h, env), env);
  }

  lemma ForwardSetsNoDeadline(s: Sys, h: Handle, ev: Event, env: Env)
    ensures var r := Forward(s, h, ev, env);
      r.t.active.None? || (r.t.active == s.t.active && r.t.state == s.t.state && r.t.awaiting == s.t.awaiting)
  {
    if !LockRepeat(s.t, ev) {
      var f := if ev.Begin? || s.t.state == WaitingForAck then EnterTo(s.t, h) else Input(ev.e);
      var ready := s.(t := s.t.(heldLocks := LocksAfter(s.t, ev), enterWaits := false, buttons := ButtonsAfter(s.t.buttons, f)));
      LeavingIdles(Give(ready, f, h, env), env);
    }
  }

  lemma EventSetsDeadline(s: Sys, h: Handle, ev: Event, env: Env)
    requires Inv(s)
    ensures var r := HandleEvent(s, h, ev, env);
      r.t.active.Some? && r.t.state == WaitingForAck && !(r.t.active == s.t.active && s.t.state == WaitingForAck) ==>
        r.t.awaiting == Some(env.now + 1000)
  {
    if s.t.releaseBind <= env.pressed {
      LeavingIdles(s, env);
    } else {
      var s1 := if Relinked(s, h) then CrossAgain(s, env) else s;
      FlushSetsDeadline(s1, env);
      var s2 := if s1.t.coalesce then FlushPending(s1, env) else s1;
      if ev.Begin? {
        BeginSetsDeadline(s2, h, env);
      } else {
        DeliverSetsNoDeadline(s2, h, ev, env);
      }
    }
  }

  lemma DeliverSetsNoDeadline(s: Sys, h: Handle, ev: Event, env: Env)
    ensures var r := Deliver(s, h, ev, env);
      r.t.active.None? || (r.t.active == s.t.active && r.t.state == s.t.state && r.t.awaiting == s.t.awaiting)
  {
    if s.t.active == Some(h) {
      ForwardSetsNoDeadline(s, h, ev, env);
      if IsMotion(ev) {
        SendingSetsNoDeadline(Note(s, Moved(Vec(ev.e.dx, ev.e.dy))), h, Vec(ev.e.dx, ev.e.dy), env);
      }
    }
  }

  lemma BeginSetsDeadline(s: Sys, h: Handle, env: Env)
    ensures var r := BeginAt(s, h, env);
      || r.t.active.None? || r.t.awaiting == Some(env.now + 1000)
      || (r.t.active == s.t.active && r.t.state == s.t.state && r.t.awaiting == s.t.awaiting)
  {
    var a := ToOrigin(s);
    BeginIs(s, h, env);
    ForwardSetsNoDeadline(a, h, Begin, env);
    LeavingIdles(if CannotCross(s, h, env) == Some(NoLink) then Dial(a, h) else a, env);
    ForwardSetsNoDeadline(Start(a, h, env), h, Begin, env);
  }

  // ---------------------------------------------------- what it hears of a peer

  /** An Ack counts for the device crossed to alone: the visit is sending, no deadline is
      set, its last give-up is forgiven, and where and on which link it was taken is
      kept. One of another device changes nothing, while any is crossed to. */
  lemma AnAckIsHeard(s: Sys, h: Handle, link: nat, env: Env)
    ensures var r := Advance(s, HeardAck(h, link), env);
      && (s.t.active == Some(h) ==>
            && r.log == s.log + [Acked(link)] && r.net == s.net
            && r.t == s.t.(state := Sending, awaiting := None, ackedLink := Some(link), ackedAt := r.t.ackedAt,
                           unanswered := s.t.unanswered - {h})
            && (h in s.net.clients.devices && s.net.clients.devices[h].state.activeAddr.Some? ==>
                  r.t.ackedAt == Some((h, s.net.clients.devices[h].state.activeAddr.value)))
            && (h !in s.net.clients.devices ==> r.t.ackedAt.None?))
      && (s.t.active.Some? && s.t.active != Some(h) ==> r == s.(clock := env.now))
      && (s.t.active.None? ==> r == s.(clock := env.now, t := s.t.(state := Sending)))
  {
  }

  /** A Pong has a waiting Enter go out exactly when it came on the link its device is on
      now, and then once. */
  lemma APongIsHeard(s: Sys, h: Handle, link: nat, env: Env)
    ensures var r := Advance(s, HeardPong(h, link), env);
      if s.t.enterWaits && s.t.active == Some(h) && s.t.state == WaitingForAck
         && s.net.LinkOf(h).Some? && s.net.LinkOf(h).value.serial == link then
        && |r.log| > |s.log| && s.log <= r.log && !r.t.enterWaits
        && r.log[|s.log|].Out? && r.log[|s.log|].h == h && r.log[|s.log|].f == EnterTo(s.t, h)
        && (r.log[|s.log|].on.Some? ==> |r.log| == |s.log| + 1 && r.t == s.t.(enterWaits := false))
        && (r.log[|s.log|].on.None? ==> r.t.active.None?)
      else r == s.(clock := env.now)
  {
    var given := Give(s.(clock := env.now, t := s.t.(enterWaits := false)), EnterTo(s.t, h), h, env);
    LeavingIdles(given, env);
    LeavingBeginsNothing(given, env);
  }

  /** A peer's Leave, a release, a session's end, a deadline passed and a capture's end
      each end the visit under way, if it is theirs to end; and nothing else does. */
  lemma WhatEndsAVisit(s: Sys, x: Happening, env: Env)
    requires s.t.active.Some? && (x.HeardLeave? || x.ReleaseAsked? || x.SessionEnds? || x.AckTimeout? || x.DestroyAsked?)
    ensures var r := Advance(s, x, env);
      if (x.HeardLeave? || x.DestroyAsked?) && s.t.active != Some(x.h) then r.t.active == s.t.active && FramesOf(r.log) == FramesOf(s.log)
      else r.t.active.None? && r.t.ackedAt.None? && r.t.ackedLink.None? && r.t.awaiting.None? && !r.t.enterWaits
  {
    var s' := s.(clock := env.now);
    LeavingIdles(s', env);
    LeavingIdles(s'.(t := s'.t.(awaiting := None, unanswered := s'.t.unanswered[s'.t.active.value := env.now])), env);
    if x.DestroyAsked? {
      FramesNote(s.log, Destroyed(x.h));
    }
  }

  /** A crossing left unanswered is noted as given up on, at this time; and its
      capture's end is what forgets that before its backoff is over. */
  lemma AGiveUpIsKept(s: Sys, env: Env)
    requires s.t.active.Some?
    ensures var h := s.t.active.value;
      var r := Advance(s, AckTimeout, env);
      && r.t.unanswered == s.t.unanswered[h := env.now] && r.log[|r.log| - 1] == GaveUp(h, env.now)
  {
    var h := s.t.active.value;
    LeavingIdles(s.(clock := env.now, t := s.t.(awaiting := None, unanswered := s.t.unanswered[h := env.now])), env);
  }

  // ------------------------------------------------------------- the captures

  lemma {:induction false} OthersAreKept(cs: seq<Capture>, h: Handle, c: Capture)
    ensures multiset(Others(cs, h))[c] == if c.h == h then 0 else multiset(cs)[c]
    decreases |cs|
  {
    if cs != [] {
      assert cs == [cs[0]] + cs[1..];
      OthersAreKept(cs[1..], h, c);
    }
  }

  /** Destroying a device's captures, while capture runs or not, removes all of them and
      no other; and only a running one forgets the give-up on it. */
  lemma DestroyRemovesCaptures(s: Sys, h: Handle, env: Env, c: Capture)
    ensures var r, q := Advance(s, DestroyAsked(h), env).t, Advance(s, DestroyedWhileStopped(h), env).t;
      && multiset(r.captures)[c] == (if c.h == h then 0 else multiset(s.t.captures)[c])
      && multiset(q.captures)[c] == (if c.h == h then 0 else multiset(s.t.captures)[c])
      && r.unanswered == s.t.unanswered - {h} && q == s.t.(captures := q.captures)
  {
    DestroyLeaves(s.(clock := env.now), h, env);
    OthersAreKept(s.t.captures, h, c);
  }

  lemma DestroyLeaves(s: Sys, h: Handle, env: Env)
    ensures Destroy(s, h, env).t.captures == Others(s.t.captures, h) && Destroy(s, h, env).t.unanswered == s.t.unanswered - {h}
  {
    LeavingIdles(s, env);
  }

  /** A capture made is the last of all, and a release bind set is the one asked for; and
      neither does anything else. */
  lemma CapturesAreAdded(s: Sys, c: Capture, bind: set<nat>, env: Env)
    ensures Advance(s, Create(c), env) == s.(clock := env.now, t := s.t.(captures := s.t.captures + [c]))
    ensures Advance(s, NewReleaseBind(bind), env) == s.(clock := env.now, t := s.t.(releaseBind := bind))
  {
  }

  // ----------------------------------------------------------- what is sent

  /** Motion as its device takes it: the position reached since the anchor, numbered one
      above the last, or the step itself. */
  function MotionFrame(s: Sys, h: Handle, v: Vec): (f: Frame) {
    if h in s.net.clients.devices && s.net.clients.devices[h].state.caps
    then MotionAbsolute(s.t.absSeq + 1, s.t.abs.x + v.x, s.t.abs.y + v.y) else Input(Motion(v.x, v.y))
  }

  lemma MotionGoesOut(s: Sys, h: Handle, v: Vec, env: Env)
    requires s.net.SendAnswer(h).Sent?
    ensures var r := SendMotion(s, h, v, env);
      && r.log == s.log + [Out(h, MotionFrame(s, h, v), s.net.SerialOf(h), env.now)]
      && (if MotionFrame(s, h, v).MotionAbsolute? then r.t == s.t.(abs := s.t.abs.Plus(v), absSeq := s.t.absSeq + 1) else r.t == s.t)
  {
  }

  /** Motion in a visit that was acknowledged goes out as it comes, on the visit's link;
      or, coalesced, is added to what is held back. */
  lemma MotionIsSent(s: Sys, h: Handle, dx: real, dy: real, env: Env)
    requires Inv(s) && Steady(s, h) && CanCarry(s, env)
    ensures var v := Vec(dx, dy);
      var r := Advance(s, Captured(h, Event.Got(Motion(dx, dy))), env);
      && (!s.t.coalesce ==> r.log == s.log + [Moved(v), Out(h, MotionFrame(s, h, v), s.net.SerialOf(h), env.now)])
      && (s.t.coalesce ==> r.log == s.log + [Moved(v)] && r.t == s.t.(pending := Some(HeldBack(s).Plus(v))))
  {
    var v, s' := Vec(dx, dy), s.(clock := env.now);
    ClockHolds(s, env.now);
    if s.t.coalesce {
      CoalescedBeat(s', h, Motion(dx, dy), env);
    } else {
      PlainBeat(s', h, Motion(dx, dy), env);
      MotionGoesOut(Note(s', Moved(v)), h, v, env);
    }
  }

  /** What was held back goes out whole with the flush, unless it comes to nothing. */
  lemma FlushIsSent(s: Sys, h: Handle, env: Env)
    requires Steady(s, h) && s.t.pending.Some?
    ensures var r, v := Advance(s, FlushTick, env), s.t.pending.value;
      && r.t.pending.None?
      && r.log == s.log + if v == ORIGIN then [] else [Out(h, MotionFrame(s, h, v), s.net.SerialOf(h), env.now)]
  {
    MotionGoesOut(s.(clock := env.now, t := s.t.(pending := None)), h, s.t.pending.value, env);
  }

  /** Any other input goes out once, on the visit's link; but a lock key down again, that
      capture saw no up of, goes out not at all. */
  lemma InputIsSent(s: Sys, h: Handle, e: InputEvent, env: Env)
    requires Inv(s) && Steady(s, h) && CanCarry(s, env) && s.t.pending.None? && !e.Motion?
    ensures var r := Advance(s, Captured(h, Event.Got(e)), env);
      var again := e.Key? && e.key in {58, 69, 70} && e.state != 0 && e.key in s.t.heldLocks;
      && r.log == (if again then s.log else s.log + [Out(h, Input(e), s.net.SerialOf(h), env.now)])
      && (forall k :: k in r.t.heldLocks <==>
            if e.Key? && e.key == k && k in {58, 69, 70} then e.state != 0 else k in s.t.heldLocks)
      && Steady(r, h) && Inv(r) && r.t.pending.None? && r.t.releaseBind == s.t.releaseBind && r.clock == env.now
  {
    var s' := s.(clock := env.now);
    ClockHolds(s, env.now);
    if s.t.coalesce {
      CoalescedBeat(s', h, e, env);
    } else {
      PlainBeat(s', h, e, env);
    }
    SteadyInput(s', h, e, env);
    if !LockRepeat(s'.t, Event.Got(e)) {
      var f := Input(e);
      var to := s'.t.(heldLocks := LocksAfter(s'.t, Event.Got(e)), enterWaits := false, buttons := ButtonsAfter(s'.t.buttons, f));
      SteadyGive(s', to, f, h, env);
    }
  }

  predicate LockDown(e: InputEvent, k: nat) {
    e.Key? && e.key == k && e.state != 0
  }

  predicate LockUp(e: InputEvent, k: nat) {
    e.Key? && e.key == k && e.state == 0
  }

  /** The key is down after these events: it went down with no up since, or was down and
      never went up. */
  ghost predicate DownAfter(was: bool, es: seq<InputEvent>, k: nat) {
    || (exists i :: 0 <= i < |es| && LockDown(es[i], k) && forall j :: i < j < |es| ==> !LockUp(es[j], k))
    || (was && forall j :: 0 <= j < |es| ==> !LockUp(es[j], k))
  }

  lemma DownAfterOne(was: bool, es: seq<InputEvent>, e: InputEvent, k: nat)
    ensures DownAfter(was, [e] + es, k) <==> DownAfter(if LockUp(e, k) then false else was || LockDown(e, k), es, k)
  {
    var all := [e] + es;
    assert forall j :: 0 <= j < |es| ==> es[j] == all[j + 1];
    assert all[0] == e;
    if DownAfter(was, all, k) {
      if i :| 0 <= i < |all| && LockDown(all[i], k) && forall j :: i < j < |all| ==> !LockUp(all[j], k) {
        if i > 0 {
          assert LockDown(es[i - 1], k);
        }
      }
    }
    var now := if LockUp(e, k) then false else was || LockDown(e, k);
    if DownAfter(now, es, k) {
      if i :| 0 <= i < |es| && LockDown(es[i], k) && forall j :: i < j < |es| ==> !LockUp(es[j], k) {
        assert LockDown(all[i + 1], k);
      } else if LockDown(e, k) {
        assert LockDown(all[0], k);
      }
    }
  }

  function Typed(s: Sys, h: Handle, es: seq<InputEvent>, env: Env): (r: Sys)
    decreases |es|
  {
    if es == [] then s else Typed(Advance(s, Captured(h, Event.Got(es[0])), env), h, es[1..], env)
  }

  /** However input comes in an acknowledged visit: a lock key's down goes out exactly when
      that key was not down already, and every up of it does. Its repeats never do. */
  lemma {:induction false} LockRepeatsAreSwallowed(s: Sys, h: Handle, es: seq<InputEvent>, e: InputEvent, env: Env)
    requires Inv(s) && Steady(s, h) && CanCarry(s, env) && s.t.pending.None?
    requires (forall i :: 0 <= i < |es| ==> !es[i].Motion?) && e.Key? && e.key in {58, 69, 70}
    ensures var m := Typed(s, h, es, env);
      var r := Advance(m, Captured(h, Event.Got(e)), env);
      r.log == if e.state != 0 && DownAfter(e.key in s.t.heldLocks, es, e.key) then m.log
               else m.log + [Out(h, Input(e), m.net.SerialOf(h), env.now)]
    decreases |es|
  {
    if es == [] {
      InputIsSent(s, h, e, env);
    } else {
      var n := Advance(s, Captured(h, Event.Got(es[0])), env);
      assert !es[0].Motion?;
      assert forall i :: 0 <= i < |es[1..]| ==> es[1..][i] == es[i + 1];
      InputIsSent(s, h, es[0], env);
      LockRepeatsAreSwallowed(n, h, es[1..], e, env);
      DownAfterOne(e.key in s.t.heldLocks, es[1..], es[0], e.key);
      assert [es[0]] + es[1..] == es;
    }
  }

  /** Input before the crossing is acknowledged is an Enter again; or waits, with nothing
      sent, while the link that is up has not been answered on and may be driven. */
  lemma InputBeforeTheAck(s: Sys, h: Handle, e: InputEvent, env: Env)
    requires Inv(s) && s.t.active == Some(h) && s.t.state == WaitingForAck && TypeOf(s.t, h).Default?
    requires !(s.t.releaseBind <= env.pressed) && !(e.Key? && e.key in {58, 69, 70})
    ensures var r := Advance(s, Captured(h, Event.Got(e)), env);
      if h in s.net.clients.devices && s.net.clients.devices[h].state.activeAddr.Some?
         && h !in s.net.clients.answered && !Barred(s.net, h) then
        r.log == s.log && r.t == s.t.(enterWaits := true)
      else
        && |r.log| > |s.log| && s.log <= r.log
        && r.log[|s.log|].Out? && r.log[|s.log|].h == h && r.log[|s.log|].f == EnterTo(s.t, h)
        && (r.log[|s.log|].on.Some? ==> |r.log| == |s.log| + 1 && r.t == s.t.(enterWaits := false))
        && (r.log[|s.log|].on.None? ==> r.t.active.None?)
  {
    var s', ev := s.(clock := env.now), Event.Got(e);
    assert HandleEvent(s', h, ev, env) == Forward(s', h, ev, env);
    ForwardIsEnter(s', h, ev, env);
    var given := Give(s'.(t := s'.t.(enterWaits := false)), EnterTo(s'.t, h), h, env);
    LeavingIdles(given, env);
    LeavingBeginsNothing(given, env);
  }

  /** With the release bind held, whatever is captured ends the visit, and sends nothing
      but what lets go. */
  lemma TheReleaseBindEndsIt(s: Sys, h: Handle, ev: Event, env: Env)
    requires s.t.releaseBind <= env.pressed
    ensures var r := Advance(s, Captured(h, ev), env);
      && r.t.active.None? && s.log <= r.log
      && (forall i :: |s.log| <= i < |r.log| ==> r.log[i].Out? && Some(r.log[i].h) == s.t.active)
      && (s.t.active.None? ==> r.log == s.log && r.net == s.net)
  {
    var s' := s.(clock := env.now);
    LeavingIdles(s', env);
    if s.t.active.Some? {
      GivenFrames(s'.(t := Idle(s'.t)), EndFrames(env.order(s'.t.buttons), env.order(env.pressed)), s.t.active.value,
                  AckedAddr(s'.t, s.t.active.value), env);
    }
  }

  /** Nothing comes of input at the edge of a device that is not crossed to, nor of
      anything at an edge watched only for pointers coming in. */
  lemma OtherEdgesAreSilent(s: Sys, h: Handle, ev: Event, env: Env)
    requires s.t.active != Some(h) && !(s.t.releaseBind <= env.pressed) && (!s.t.coalesce || s.t.pending.None?)
    requires ev.Got? || TypeOf(s.t, h).EnterOnly?
    ensures Advance(s, Captured(h, ev), env) == s.(clock := env.now)
  {
  }

  /** A visit whose device is on another link than the one its Ack came on is crossed
      again before anything more is sent of it: anchored first, and nothing but Enters,
      or the frames that end it, sent. */
  lemma ARelinkIsCrossedAgain(s: Sys, h: Handle, ev: Event, env: Env)
    requires Inv(s) && s.t.active == Some(h) && s.t.state == Sending && TypeOf(s.t, h).Default?
    requires s.net.LinkOf(h).Some? && s.t.ackedLink != Some(s.net.LinkOf(h).value.serial)
    requires !(s.t.releaseBind <= env.pressed)
    ensures var r := Advance(s, Captured(h, ev), env);
      && |r.log| > |s.log| && s.log <= r.log && r.log[|s.log|] == Anchored
      && (r.t.active.Some? ==>
            && r.t.active == Some(h) && r.t.state == WaitingForAck && r.t.awaiting == Some(env.now + 1000) && r.t.ackedLink.None?
            && forall i :: |s.log| <= i < |r.log| && r.log[i].Out? ==> r.log[i].f.Enter?)
  {
    var s' := s.(clock := env.now);
    var a := CrossAgain(s', env);
    if ev.Begin? {
      BeginIs(a, h, env);
      EntersOnly(ToOrigin(a), h, ev, env);
    } else {
      EntersOnly(a, h, ev, env);
    }
  }

  lemma EntersOnly(s: Sys, h: Handle, ev: Event, env: Env)
    requires s.t.active == Some(h) && s.t.state == WaitingForAck
    ensures var r := Forward(s, h, ev, env);
      && s.log <= r.log
      && (r.t.active.Some? ==>
            && r.t.active == s.t.active && r.t.state == s.t.state && r.t.awaiting == s.t.awaiting && r.t.ackedLink == s.t.ackedLink
            && forall i :: |s.log| <= i < |r.log| && r.log[i].Out? ==> r.log[i].f.Enter?)
  {
    if !LockRepeat(s.t, ev) {
      ForwardIsEnter(s, h, ev, env);
      var given := Give(s.(t := s.t.(enterWaits := false, heldLocks := LocksAfter(s.t, ev))), EnterTo(s.t, h), h, env);
      LeavingIdles(given, env);
      LeavingBeginsNothing(given, env);
    }
  }

  // ------------------------------------------------------ where an ending goes

  lemma {:induction false} GivenOnTheLink(s: Sys, fs: seq<Frame>, h: Handle, a: SocketAddr, env: Env)
    requires a in s.net.links && (forall i :: 0 <= i < |fs| ==> OnlyLetsGo(fs[i])) && forall n :: !env.fails(n)
    ensures var r := GiveAll(s, fs, h, Some(a), env);
      && |r.log| == |s.log| + |fs| && s.log <= r.log && r.net.links == s.net.links
      && (forall i :: |s.log| <= i < |r.log| ==> r.log[i].Out? && r.log[i].on == Some(s.net.links[a].serial))
      && |r.net.wire| == |s.net.wire| + |fs| && s.net.wire <= r.net.wire
      && forall i :: 0 <= i < |fs| ==> r.net.wire[|s.net.wire| + i] == Write(fs[i], s.net.links[a].fp)
    decreases |fs|
  {
    if fs != [] {
      var before := fs[..|fs| - 1];
      GivenOnTheLink(s, before, h, a, env);
      LastIsGiven(s, fs, h, Some(a), env);
      OneOnTheLink(GiveAll(s, before, h, Some(a), env), fs[|fs| - 1], h, a, env);
    }
  }

  lemma OneOnTheLink(s: Sys, f: Frame, h: Handle, a: SocketAddr, env: Env)
    requires a in s.net.links && OnlyLetsGo(f) && !env.fails(|s.log|)
    ensures var r := GiveLeaving(s, f, h, Some(a), env);
      && r.log == s.log + [Out(h, f, Some(s.net.links[a].serial), env.now)] && r.net.links == s.net.links
      && r.net.wire == s.net.wire + [Write(f, s.net.links[a].fp)]
  {
  }

  /** A visit that ends while the link it was acknowledged on is still in the table, has
      its ending written on that link, frame by frame, whatever has become of its
      device or of trust. */
  lemma EndingGoesToItsLink(s: Sys, h: Handle, a: SocketAddr, env: Env)
    requires s.t.active == Some(h) && s.t.ackedAt == Some((h, a)) && a in s.net.links
    requires ValidEnv(env) && forall n :: !env.fails(n)
    ensures var r := LeaveActive(s, env);
      var fs := EndFrames(env.order(s.t.buttons), env.order(env.pressed));
      && (forall i :: |s.log| <= i < |r.log| ==> r.log[i].Out? && r.log[i].on == Some(s.net.links[a].serial))
      && |r.net.wire| == |s.net.wire| + |fs| && s.net.wire <= r.net.wire
      && forall i :: 0 <= i < |fs| ==> r.net.wire[|s.net.wire| + i] == Write(fs[i], s.net.links[a].fp)
  {
    EndFramesLetGo(s.t.buttons, env.order(s.t.buttons), env.order(env.pressed));
    GivenOnTheLink(s.(t := Idle(s.t)), EndFrames(env.order(s.t.buttons), env.order(env.pressed)), h, a, env);
  }

  lemma {:induction false} GivenOnItsOwnLink(s: Sys, fs: seq<Frame>, h: Handle, env: Env)
    ensures var r := GiveAll(s, fs, h, None, env);
      && |r.log| == |s.log| + |fs| && s.log <= r.log
      && (r.net.SerialOf(h) == s.net.SerialOf(h) || r.net.SerialOf(h).None?)
      && forall i :: |s.log| <= i < |r.log| ==> r.log[i].Out? && (r.log[i].on.None? || r.log[i].on == s.net.SerialOf(h))
    decreases |fs|
  {
    if fs != [] {
      var before := fs[..|fs| - 1];
      GivenOnItsOwnLink(s, before, h, env);
      LastIsGiven(s, fs, h, None, env);
      var m := GiveAll(s, before, h, None, env);
      SendKeepsSerial(m.net, fs[|fs| - 1], h, env.fails(|m.log|));
    }
  }

  /** A visit not acknowledged, or that took over one that was, has its ending written on
      its own device's link, or on none: never on another device's. */
  lemma EndingGoesToNoOther(s: Sys, h: Handle, env: Env)
    requires s.t.active == Some(h) && (s.t.ackedAt.None? || s.t.ackedAt.value.0 != h)
    ensures var r := LeaveActive(s, env);
      forall i :: |s.log| <= i < |r.log| ==> r.log[i].Out? && r.log[i].h == h && (r.log[i].on.None? || r.log[i].on == s.net.SerialOf(h))
  {
    GivenOnItsOwnLink(s.(t := Idle(s.t)), EndFrames(env.order(s.t.buttons), env.order(env.pressed)), h, env);
    GivenFrames(s.(t := Idle(s.t)), EndFrames(env.order(s.t.buttons), env.order(env.pressed)), h, None, env);
  }

  // ------------------------------------------------- where it was acknowledged

  predicate KeptOrNone(s: Sys, r: Sys) {
    r.t.ackedAt == s.t.ackedAt || r.t.ackedAt.None?
  }

  lemma ForwardKeepsPlace(s: Sys, h: Handle, ev: Event, env: Env)
    ensures var r := Forward(s, h, ev, env); KeptOrNone(s, r)
  {
    if !LockRepeat(s.t, ev) {
      var f := if ev.Begin? || s.t.state == WaitingForAck then EnterTo(s.t, h) else Input(ev.e);
      var ready := s.(t := s.t.(heldLocks := LocksAfter(s.t, ev), enterWaits := false, buttons := ButtonsAfter(s.t.buttons, f)));
      LeavingIdles(Give(ready, f, h, env), env);
    }
  }

  lemma SendingKeepsPlace(s: Sys, h: Handle, v: Vec, env: Env)
    ensures var r := SendMotion(s, h, v, env); KeptOrNone(s, r)
  {
    var absolute := h in s.net.clients.devices && s.net.clients.devices[h].state.caps;
    var at := s.t.abs.Plus(v);
    var to := if absolute then s.t.(abs := at, absSeq := s.t.absSeq + 1) else s.t;
    var f := if absolute then MotionAbsolute(s.t.absSeq + 1, at.x, at.y) else Input(Motion(v.x, v.y));
    MotionIs(s, h, v, to, f, env);
    LeavingIdles(Give(s.(t := to), f, h, env), env);
  }

  lemma FlushKeepsPlace(s: Sys, env: Env)
    ensures var r := FlushPending(s, env); KeptOrNone(s, r)
  {
    if s.t.pending.Some? && s.t.active.Some? {
      SendingKeepsPlace(s.(t := s.t.(pending := None)), s.t.active.value, s.t.pending.value, env);
    }
  }

  lemma EventKeepsPlace(s: Sys, h: Handle, ev: Event, env: Env)
    ensures var r := HandleEvent(s, h, ev, env);
      KeptOrNone(s, r)
  {
    if s.t.releaseBind <= env.pressed {
      LeavingIdles(s, env);
    } else {
      var s1 := if Relinked(s, h) then CrossAgain(s, env) else s;
      FlushKeepsPlace(s1, env);
      var s2 := if s1.t.coalesce then FlushPending(s1, env) else s1;
      PassedOnKeepsPlace(s2, h, ev, env);
    }
  }

  lemma PassedOnKeepsPlace(s: Sys, h: Handle, ev: Event, env: Env)
    ensures var r := if TypeOf(s.t, h) == EnterOnly then s else if ev.Begin? then BeginAt(s, h, env) else Deliver(s, h, ev, env);
      KeptOrNone(s, r)
  {
    if ev.Begin? {
      BeginIs(s, h, env);
      ForwardKeepsPlace(ToOrigin(s), h, ev, env);
      ForwardKeepsPlace(Start(ToOrigin(s), h, env), h, ev, env);
      LeavingIdles(if CannotCross(s, h, env) == Some(NoLink) then Dial(ToOrigin(s), h) else ToOrigin(s), env);
    } else if s.t.active == Some(h) {
      ForwardKeepsPlace(s, h, ev, env);
      if IsMotion(ev) {
        SendingKeepsPlace(Note(s, Moved(Vec(ev.e.dx, ev.e.dy))), h, Vec(ev.e.dx, ev.e.dy), env);
      }
    }
  }

  /** Where a visit was acknowledged changes only with another Ack of its device; else it
      stays, or is forgotten as the visit ends. */
  lemma PlaceIsKept(s: Sys, x: Happening, env: Env)
    requires !(x.HeardAck? && s.t.active == Some(x.h))
    ensures KeptOrNone(s, Advance(s, x, env))
  {
    var s' := s.(clock := env.now);
    LeavingIdles(s', env);
    match x
    case Captured(h, ev) => EventKeepsPlace(s', h, ev, env);
    case HeardPong(h, link) => LeavingIdles(Give(s'.(t := s'.t.(enterWaits := false)), EnterTo(s'.t, h), h, env), env);
    case FlushTick => FlushKeepsPlace(s', env);
    case AckTimeout =>
      if s.t.active.Some? {
        LeavingIdles(s'.(t := s'.t.(awaiting := None, unanswered := s'.t.unanswered[s'.t.active.value := env.now])), env);
      }
    case _ =>
  }
}
