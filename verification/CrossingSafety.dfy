/** What every run of the capture task keeps. */
module CrossingSafety {
  import opened Common
  import opened Registry
  import opened Proto
  import opened Links
  import opened Crossing
  import opened Watcher

  /** The task's own bookkeeping agrees with what the log shows of the visit. */
  ghost predicate VisitAgrees(s: Sys) {
    var m, t := Scan(s.log), s.t;
    && m.visiting == t.active
    && m.held == t.buttons
    && (t.active.None? ==>
          && t.buttons == {} && t.awaiting.None? && t.pending.None?
          && t.ackedAt.None? && t.ackedLink.None? && !t.enterWaits)
    && (t.active.Some? ==> (t.state == WaitingForAck <==> t.awaiting.Some?))
    && (t.active.Some? && t.state == Sending ==> t.ackedLink.Some? && t.ackedLink.value in m.acked)
  }

  /** While a visit is under way, what was captured is what the peer was shown
      and what is still pending; before its Ack all of that is nothing. */
  ghost predicate MotionAgrees(s: Sys) {
    var m, t := Scan(s.log), s.t;
    && (t.pending.Some? ==> t.active.Some? && t.state == Sending && t.coalesce)
    && (t.active.Some? && t.state == Sending ==>
          m.caught == m.relative.Plus(m.absolute).Plus(if t.pending.Some? then t.pending.value else ORIGIN))
    && (t.active.Some? && t.state == WaitingForAck ==>
          m.caught == ORIGIN && m.relative == ORIGIN && m.absolute == ORIGIN)
    && (t.active.Some? ==> m.absolute == t.abs && m.turn == t.absSeq)
  }

  /** A device given up on is one capture refuses, or one whose backoff is over. */
  ghost predicate BackoffAgrees(s: Sys) {
    var m, t := Scan(s.log), s.t;
    forall h :: h in m.gaveUp ==>
      || (h in t.unanswered && t.unanswered[h] == m.gaveUp[h] && t.active != Some(h))
      || m.gaveUp[h] + UNANSWERED_BACKOFF <= s.clock
  }

  ghost predicate Inv(s: Sys) {
    && VisitAgrees(s) && MotionAgrees(s) && BackoffAgrees(s)
    && (s.t.active.Some? ==> Scan(s.log).entered && !Scan(s.log).refused)
    && Scan(s.log).faults <= {Replaced}
  }

  lemma InitialHolds(coalesce: bool, bind: set<nat>, net: Net, now: Time)
    ensures Inv(Initial(coalesce, bind, net, now))
  {
  }

  /** As much of the invariant as leaving needs. */
  ghost predicate Leaveable(s: Sys) {
    var m, t := Scan(s.log), s.t;
    && m.visiting == t.active && m.held == t.buttons
    && (t.active.None? ==> t.buttons == {})
    && (t.active.Some? ==> m.entered)
    && m.faults <= {Replaced}
    && BackoffAgrees(s)
  }

  /** A frame that only lets go, sent to the device being visited, changes what
      the log shows in nothing but the buttons held, and breaks no rule. */
  lemma LettingGoOnce(s: Sys, f: Frame, h: Handle, addr: Option<SocketAddr>, env: Env)
    requires OnlyLetsGo(f) && !f.Leave?
    requires var m := Scan(s.log);
      m.visiting == Some(h) && m.entered && (h in m.gaveUp ==> m.gaveUp[h] + UNANSWERED_BACKOFF <= env.now)
    ensures var r := GiveLeaving(s, f, h, addr, env);
      && r.t == s.t && r.clock == s.clock
      && Scan(r.log) == Scan(s.log).(held := ButtonsAfter(Scan(s.log).held, f), frames := Scan(s.log).frames + [f],
                                     refused := Scan(r.log).refused)
  {
    var on := if addr.Some? then On(s.net.SendToAnswer(f, addr.value)) else On(s.net.SendAnswer(h));
    assert GiveLeaving(s, f, h, addr, env).log == s.log + [Out(h, f, on, env.now)];
    ScanNote(s.log, Out(h, f, on, env.now));
    assert OutFaults(Scan(s.log), h, f, on, env.now) == {};
  }

  lemma {:induction false} LettingGo(s: Sys, fs: seq<Frame>, h: Handle, addr: Option<SocketAddr>, env: Env)
    requires forall i :: 0 <= i < |fs| ==> OnlyLetsGo(fs[i]) && !fs[i].Leave?
    requires var m := Scan(s.log);
      m.visiting == Some(h) && m.entered && (h in m.gaveUp ==> m.gaveUp[h] + UNANSWERED_BACKOFF <= env.now)
    ensures var r := GiveAll(s, fs, h, addr, env);
      && r.t == s.t && r.clock == s.clock
      && Scan(r.log) == Scan(s.log).(held := HeldAfter(Scan(s.log).held, fs), frames := Scan(s.log).frames + fs,
                                     refused := Scan(r.log).refused)
    decreases |fs|
  {
    if fs != [] {
      var before, f := fs[..|fs| - 1], fs[|fs| - 1];
      assert fs == before + [f];
      LettingGo(s, before, h, addr, env);
      var p := GiveAll(s, before, h, addr, env);
      LettingGoOnce(p, f, h, addr, env);
      assert Scan(s.log).frames + fs == Scan(s.log).frames + before + [f];
    } else {
      assert Scan(s.log).frames + fs == Scan(s.log).frames;
    }
  }

  lemma {:induction false} UpsLetGo(held: set<nat>, buttons: seq<nat>)
    ensures HeldAfter(held, ButtonUps(buttons)) == held - set b | b in buttons
    decreases |buttons|
  {
    if buttons != [] {
      UpsLetGo(held, buttons[..|buttons| - 1]);
      assert ButtonUps(buttons)[..|buttons| - 1] == ButtonUps(buttons[..|buttons| - 1]);
      assert buttons == buttons[..|buttons| - 1] + [buttons[|buttons| - 1]];
    }
  }

  lemma {:induction false} OthersLetGoOfNoButton(held: set<nat>, ups: seq<Frame>, rest: seq<Frame>)
    requires forall i :: 0 <= i < |rest| ==> !(rest[i].Input? && rest[i].e.Button?)
    ensures HeldAfter(held, ups + rest) == HeldAfter(held, ups)
    decreases |rest|
  {
    if rest == [] {
      assert ups + rest == ups;
    } else {
      assert (ups + rest)[..|ups + rest| - 1] == ups + rest[..|rest| - 1];
      OthersLetGoOfNoButton(held, ups, rest[..|rest| - 1]);
    }
  }

  lemma EndFramesLetGo(held: set<nat>, buttons: seq<nat>, keys: seq<nat>)
    requires Lists(buttons, held)
    ensures var fs := EndFrames(buttons, keys);
      && fs[|fs| - 1] == Leave
      && (forall i :: 0 <= i < |fs| - 1 ==> OnlyLetsGo(fs[i]) && !fs[i].Leave?)
      && HeldAfter(held, fs[..|fs| - 1]) == {}
  {
    var fs, ups, rest := EndFrames(buttons, keys), ButtonUps(buttons), KeyUps(keys) + [NO_MODIFIERS];
    assert fs[..|fs| - 1] == ups + rest;
    UpsLetGo(held, buttons);
    forall b ensures b in held ==> b in buttons {
      assert b in held ==> b in multiset(held);
      assert b in multiset(buttons) ==> b in buttons;
    }
    OthersLetGoOfNoButton(held, ups, rest);
  }

  /** An up for each of `q`, a key-up for each of `r`, no modifiers, and Leave. */
  predicate ReleasesInTurn(fs: seq<Frame>, q: seq<nat>, r: seq<nat>) {
    && |fs| == |q| + |r| + 2
    && (forall i :: 0 <= i < |q| ==> fs[i] == Input(Button(q[i], 0)))
    && (forall i :: 0 <= i < |r| ==> fs[|q| + i] == Input(Key(r[i], 0)))
    && fs[|fs| - 2] == Input(Modifiers(0, 0, 0, 0)) && fs[|fs| - 1] == Leave
  }

  /** These frames let go of exactly these buttons and keys, each once. */
  ghost predicate Releases(fs: seq<Frame>, buttons: set<nat>, keys: set<nat>) {
    exists q, r :: Lists(q, buttons) && Lists(r, keys) && ReleasesInTurn(fs, q, r)
  }

  lemma EndFramesRelease(buttons: seq<nat>, keys: seq<nat>)
    ensures ReleasesInTurn(EndFrames(buttons, keys), buttons, keys)
  {
  }

  /** A visit that ends has its device sent an up for exactly each button whose last
      frame was a down, a key-up for exactly each key capture holds as pressed, no
      modifiers and Leave, and nothing else; and capture is idle. */
  lemma LeavingReleases(s: Sys, h: Handle, env: Env) returns (down: set<nat>, fs: seq<Frame>)
    requires Inv(s) && ValidEnv(env) && s.t.active == Some(h)
    ensures forall b :: b in down <==> LastDown(FramesOf(s.log), b)
    ensures Releases(fs, down, env.pressed)
    ensures Grew(s.log, LeaveActive(s, env).log, fs, h) && LeaveActive(s, env).t.active.None?
  {
    down, fs := s.t.buttons, EndFrames(env.order(s.t.buttons), env.order(env.pressed));
    forall b ensures b in down <==> LastDown(FramesOf(s.log), b) {
      HeldWentDownLast(s.log, b);
    }
    EndFramesRelease(env.order(s.t.buttons), env.order(env.pressed));
    assert Lists(env.order(down), down) && Lists(env.order(env.pressed), env.pressed);
    GivenFrames(s.(t := Idle(s.t)), fs, h, AckedAddr(s.t, h), env);
    LeavingIdles(s, env);
  }

  /** The log grew by these frames, all to `h`. */
  ghost predicate Grew(log: seq<Item>, more: seq<Item>, fs: seq<Frame>, h: Handle) {
    && |more| == |log| + |fs| && log <= more && FramesOf(more) == FramesOf(log) + fs
    && forall i :: |log| <= i < |more| ==> more[i].Out? && more[i].h == h
  }

  lemma GrewMore(log: seq<Item>, more: seq<Item>, most: seq<Item>, fs: seq<Frame>, f: Frame, h: Handle)
    requires Grew(log, more, fs, h) && Grew(more, most, [f], h)
    ensures Grew(log, most, fs + [f], h)
  {
    assert FramesOf(log) + (fs + [f]) == FramesOf(log) + fs + [f];
    forall i | |log| <= i < |most| ensures most[i].Out? && most[i].h == h {
      if i < |more| {
        assert most[i] == more[i];
      }
    }
  }

  lemma GrewByNothing(log: seq<Item>, h: Handle)
    ensures Grew(log, log, [], h)
  {
    assert FramesOf(log) + [] == FramesOf(log);
  }

  lemma {:induction false} GivenFrames(s: Sys, fs: seq<Frame>, h: Handle, addr: Option<SocketAddr>, env: Env)
    ensures Grew(s.log, GiveAll(s, fs, h, addr, env).log, fs, h)
    decreases |fs|
  {
    if fs == [] {
      GrewByNothing(s.log, h);
    } else {
      var before, f := fs[..|fs| - 1], fs[|fs| - 1];
      var p := GiveAll(s, before, h, addr, env);
      assert before + [f] == fs;
      GivenFrames(s, before, h, addr, env);
      OneGiven(p, f, h, addr, env);
      LastIsGiven(s, fs, h, addr, env);
      GrewMore(s.log, p.log, GiveLeaving(p, f, h, addr, env).log, before, f, h);
    }
  }

  lemma OneGiven(s: Sys, f: Frame, h: Handle, addr: Option<SocketAddr>, env: Env)
    ensures Grew(s.log, GiveLeaving(s, f, h, addr, env).log, [f], h)
  {
    var on := if addr.Some? then On(s.net.SendToAnswer(f, addr.value)) else On(s.net.SendAnswer(h));
    assert GiveLeaving(s, f, h, addr, env).log == s.log + [Out(h, f, on, env.now)];
    FramesNote(s.log, Out(h, f, on, env.now));
  }

  /** So no frame that ends a visit is refused on the link the crossing was taken
      on for want of trust: the last a peer hears always lets go. */
  lemma EndingIsNeverRefused(net: Net, held: set<nat>, buttons: seq<nat>, keys: seq<nat>, addr: SocketAddr)
    requires Lists(buttons, held) && addr in net.links
    ensures forall i :: 0 <= i < |EndFrames(buttons, keys)| ==>
      net.SendToAnswer(EndFrames(buttons, keys)[i], addr) == Sent(net.links[addr].serial)
  {
    EndFramesLetGo(held, buttons, keys);
  }

  lemma LeaveOnce(s: Sys, h: Handle, addr: Option<SocketAddr>, env: Env)
    requires var m := Scan(s.log);
      && m.visiting == Some(h) && m.entered && m.held == {} && EndsProperly(m.start, m.frames)
      && (h in m.gaveUp ==> m.gaveUp[h] + UNANSWERED_BACKOFF <= env.now)
    ensures var r := GiveLeaving(s, Leave, h, addr, env);
      && r.t == s.t && r.clock == s.clock
      && Scan(r.log) == Scan(s.log).(visiting := None, frames := Scan(s.log).frames + [Leave], refused := Scan(r.log).refused)
  {
    var on := if addr.Some? then On(s.net.SendToAnswer(Leave, addr.value)) else On(s.net.SendAnswer(h));
    assert GiveLeaving(s, Leave, h, addr, env).log == s.log + [Out(h, Leave, on, env.now)];
    ScanNote(s.log, Out(h, Leave, on, env.now));
    assert OutFaults(Scan(s.log), h, Leave, on, env.now) == {};
  }

  lemma ProperEnding(start: set<nat>, frames: seq<Frame>, buttons: seq<nat>, keys: seq<nat>, pressed: set<nat>)
    requires Lists(buttons, HeldAfter(start, frames)) && Lists(keys, pressed)
    ensures var fs := EndFrames(buttons, keys); EndsProperly(start, frames + fs[..|fs| - 1])
  {
    var fs := EndFrames(buttons, keys);
    var before := fs[..|fs| - 1];
    assert (frames + before)[..|frames|] == frames && (frames + before)[|frames|..] == before;
    assert before + [Leave] == fs;
    assert EndsFrom(start, frames + before, |frames|, buttons, keys, pressed);
  }

  lemma EndingVisit(s: Sys, h: Handle, addr: Option<SocketAddr>, buttons: seq<nat>, keys: seq<nat>, pressed: set<nat>, env: Env)
    requires var m := Scan(s.log);
      && m.visiting == Some(h) && m.entered && Lists(buttons, m.held) && Lists(keys, pressed)
      && (h in m.gaveUp ==> m.gaveUp[h] + UNANSWERED_BACKOFF <= env.now)
    ensures var r := GiveAll(s, EndFrames(buttons, keys), h, addr, env);
      && r.t == s.t && r.clock == s.clock
      && Scan(r.log) == Scan(s.log).(visiting := None, held := {},
                                     frames := Scan(s.log).frames + EndFrames(buttons, keys), refused := Scan(r.log).refused)
  {
    var fs, m := EndFrames(buttons, keys), Scan(s.log);
    var before := fs[..|fs| - 1];
    EndFramesLetGo(m.held, buttons, keys);
    LettingGo(s, before, h, addr, env);
    HeldMeans(s.log);
    ProperEnding(m.start, m.frames, buttons, keys, pressed);
    LeaveOnce(GiveAll(s, before, h, addr, env), h, addr, env);
    LastIsGiven(s, fs, h, addr, env);
    assert m.frames + fs == m.frames + before + [Leave];
  }

  lemma LastIsGiven(s: Sys, fs: seq<Frame>, h: Handle, addr: Option<SocketAddr>, env: Env)
    requires fs != []
    ensures GiveAll(s, fs, h, addr, env) ==
      GiveLeaving(GiveAll(s, fs[..|fs| - 1], h, addr, env), fs[|fs| - 1], h, addr, env)
  {
  }

  /** What the log shows once a visit, if one was under way, has ended. */
  ghost function Ended(s: Sys, env: Env): (m: Seen) {
    var m := Scan(s.log);
    if s.t.active.None? then m else
      m.(visiting := None, held := {},
         frames := m.frames + EndFrames(env.order(s.t.buttons), env.order(env.pressed)))
  }

  /** However a visit ends, the peer is sent an up for exactly what it holds,
      the key-ups, a zero modifier mask and one Leave, and capture is idle. */
  lemma LeavingHolds(s: Sys, env: Env)
    requires Leaveable(s) && ValidEnv(env) && s.clock == env.now
    ensures var r := LeaveActive(s, env);
      Inv(r) && r.t == Idle(s.t) && r.clock == s.clock && Scan(r.log) == Ended(s, env).(refused := Scan(r.log).refused)
  {
    if s.t.active.Some? {
      var h := s.t.active.value;
      EndingVisit(s.(t := Idle(s.t)), h, AckedAddr(s.t, h), env.order(s.t.buttons), env.order(env.pressed), env.pressed, env);
    }
  }

  lemma CrossingAgainHolds(s: Sys, h: Handle, env: Env)
    requires VisitAgrees(s) && BackoffAgrees(s) && Scan(s.log).entered && Scan(s.log).faults <= {Replaced}
    requires Relinked(s, h) && !Scan(s.log).refused
    ensures Inv(CrossAgain(s, env)) && Scan(CrossAgain(s, env).log).faults == Scan(s.log).faults
  {
    ScanNote(s.log, Anchored);
  }

  /** A send leaves its device on the link it was on, or on none. */
  lemma SendKeepsSerial(n: Net, f: Frame, h: Handle, fails: bool)
    ensures n.Send(f, h, fails).SerialOf(h) == n.SerialOf(h) || n.Send(f, h, fails).SerialOf(h) == None
  {
  }

  lemma GiveObserved(s: Sys, f: Frame, h: Handle, env: Env)
    ensures var r := Give(s, f, h, env);
      && r.t == s.t && r.clock == s.clock
      && Scan(r.log) == Observe(Scan(s.log), Out(h, f, On(s.net.SendAnswer(h)), env.now))
      && (r.net.SerialOf(h) == s.net.SerialOf(h) || r.net.SerialOf(h) == None)
  {
    ScanNote(s.log, Out(h, f, On(s.net.SendAnswer(h)), env.now));
    SendKeepsSerial(s.net, f, h, env.fails(|s.log|));
  }

  /** What the invariant needs of a task about to hand motion to `h`. */
  ghost predicate ReadyToMove(s: Sys, h: Handle) {
    && VisitAgrees(s) && BackoffAgrees(s) && Scan(s.log).entered && Scan(s.log).faults <= {Replaced}
    && !Scan(s.log).refused && Scan(s.log).turn == s.t.absSeq
    && s.t.active == Some(h) && s.t.state == Sending && s.t.pending.None? && !Relinked(s, h)
  }

  lemma FrameBreaksNothing(s: Sys, f: Frame, h: Handle, env: Env)
    requires VisitAgrees(s) && BackoffAgrees(s) && s.t.active == Some(h) && s.clock == env.now && !f.Leave?
    requires !Scan(s.log).refused && (f.MotionAbsolute? ==> f.seqno == Scan(s.log).turn + 1)
    requires f.Enter? ==> Scan(s.log).relative.Plus(Scan(s.log).absolute) == ORIGIN
    requires !f.Enter? ==> Scan(s.log).entered && s.t.state == Sending && !Relinked(s, h)
    ensures OutFaults(Scan(s.log), h, f, On(s.net.SendAnswer(h)), env.now) == {}
  {
    if s.net.SendAnswer(h).Sent? {
      assert s.net.SerialOf(h) == On(s.net.SendAnswer(h));
    }
  }

  lemma MotionGiven(s: Sys, h: Handle, v: Vec, to: Task, f: Frame, env: Env)
    requires ReadyToMove(s, h) && s.clock == env.now
    requires var m := Scan(s.log); m.absolute == s.t.abs && m.caught == m.relative.Plus(m.absolute).Plus(v)
    requires || (f == Input(Motion(v.x, v.y)) && to == s.t)
             || (f == MotionAbsolute(s.t.absSeq + 1, s.t.abs.Plus(v).x, s.t.abs.Plus(v).y)
                 && to == s.t.(abs := s.t.abs.Plus(v), absSeq := s.t.absSeq + 1))
    ensures var r := Give(s.(t := to), f, h, env);
      && (s.net.SendAnswer(h).Sent? ==> Inv(r)) && Leaveable(r) && Scan(r.log).faults == Scan(s.log).faults && r.t == to && r.clock == s.clock && !Relinked(r, h)
  {
    GiveObserved(s.(t := to), f, h, env);
    FrameBreaksNothing(s, f, h, env);
  }

  /** Motion handed over is motion the peer is shown. */
  lemma SendingMotionHolds(s: Sys, h: Handle, v: Vec, env: Env)
    requires ReadyToMove(s, h) && ValidEnv(env) && s.clock == env.now
    requires var m := Scan(s.log); m.absolute == s.t.abs && m.caught == m.relative.Plus(m.absolute).Plus(v)
    ensures var r := SendMotion(s, h, v, env);
      && Inv(r) && Scan(r.log).faults == Scan(s.log).faults && r.t.pending.None? && r.clock == s.clock
      && (r.t.active == s.t.active || r.t.active == None) && r.t.coalesce == s.t.coalesce
      && !Relinked(r, h)
  {
    var absolute := h in s.net.clients.devices && s.net.clients.devices[h].state.caps;
    var to := s.t.abs.Plus(v);
    var t := if absolute then s.t.(abs := to, absSeq := s.t.absSeq + 1) else s.t;
    var f := if absolute then MotionAbsolute(s.t.absSeq + 1, to.x, to.y) else Input(Motion(v.x, v.y));
    var given := Give(s.(t := t), f, h, env);
    MotionGiven(s, h, v, t, f, env);
    MotionIs(s, h, v, t, f, env);
    if !s.net.SendAnswer(h).Sent? {
      LeavingHolds(given, env);
      LeavingRelinksNothing(given, env, h);
    }
  }

  lemma MotionIs(s: Sys, h: Handle, v: Vec, to: Task, f: Frame, env: Env)
    requires var absolute := h in s.net.clients.devices && s.net.clients.devices[h].state.caps;
      var at := s.t.abs.Plus(v);
      && to == (if absolute then s.t.(abs := at, absSeq := s.t.absSeq + 1) else s.t)
      && f == if absolute then MotionAbsolute(s.t.absSeq + 1, at.x, at.y) else Input(Motion(v.x, v.y))
    ensures var given := Give(s.(t := to), f, h, env);
      SendMotion(s, h, v, env) == if s.net.SendAnswer(h).Sent? then given else LeaveActive(given, env)
  {
  }

  lemma LeavingRelinksNothing(s: Sys, env: Env, h: Handle)
    requires LeaveActive(s, env).t.active.None?
    ensures !Relinked(LeaveActive(s, env), h)
  {
  }

  lemma FlushingHolds(s: Sys, env: Env)
    requires Inv(s) && ValidEnv(env) && s.clock == env.now
    ensures var r := FlushPending(s, env);
      && Inv(r) && Scan(r.log).faults == Scan(s.log).faults && r.t.pending.None? && r.clock == s.clock
      && (r.t.active == s.t.active || r.t.active == None) && r.t.coalesce == s.t.coalesce
      && forall h :: !Relinked(s, h) ==> !Relinked(r, h)
  {
    if s.t.pending.Some? && s.t.pending.value != ORIGIN {
      var taken := s.(t := s.t.(pending := None));
      var h := s.t.active.value;
      if Relinked(taken, h) {
        CrossingAgainHolds(taken, h, env);
      } else {
        SendingMotionHolds(taken, h, s.t.pending.value, env);
      }
    }
  }

  /** What the invariant needs of a task about to hand `h` an Enter. */
  ghost predicate ReadyToEnter(s: Sys, h: Handle) {
    && VisitAgrees(s) && MotionAgrees(s) && BackoffAgrees(s) && Scan(s.log).faults <= {Replaced}
    && s.t.active == Some(h) && s.t.pending.None?
    && Scan(s.log).relative.Plus(Scan(s.log).absolute) == ORIGIN && !Scan(s.log).refused
  }

  ghost predicate ReadyToInput(s: Sys, h: Handle, f: Frame) {
    && Inv(s) && s.t.active == Some(h) && s.t.state == Sending && !Relinked(s, h)
    && f.Input? && !f.e.Motion?
  }

  lemma EnterObserved(m: Seen, h: Handle, f: Frame, on: Option<nat>, at: Time)
    requires f.Enter? && OutFaults(m, h, f, on, at) == {}
    ensures Observe(m, Out(h, f, on, at)) == m.(entered := true, frames := m.frames + [f], refused := m.refused || on.None?)
  {
  }

  lemma EnterGiven(s: Sys, h: Handle, f: Frame, locks: set<nat>, env: Env)
    requires s.clock == env.now && f.Enter? && ReadyToEnter(s, h)
    ensures var r := Give(s.(t := s.t.(enterWaits := false, heldLocks := locks)), f, h, env);
      && (s.net.SendAnswer(h).Sent? ==> Inv(r)) && Leaveable(r) && r.clock == s.clock
      && Scan(r.log) == Scan(s.log).(entered := true, frames := Scan(r.log).frames, refused := Scan(r.log).refused)
  {
    var to := s.t.(enterWaits := false, heldLocks := locks);
    GiveObserved(s.(t := to), f, h, env);
    FrameBreaksNothing(s, f, h, env);
    EnterObserved(Scan(s.log), h, f, On(s.net.SendAnswer(h)), env.now);
  }

  lemma InputGiven(s: Sys, h: Handle, f: Frame, locks: set<nat>, env: Env)
    requires s.clock == env.now && ReadyToInput(s, h, f)
    ensures var to := s.t.(enterWaits := false, heldLocks := locks, buttons := ButtonsAfter(s.t.buttons, f));
            var r := Give(s.(t := to), f, h, env);
      && (s.net.SendAnswer(h).Sent? ==> Inv(r)) && Leaveable(r)
      && Scan(r.log).faults == Scan(s.log).faults && r.clock == s.clock
  {
    var to := s.t.(enterWaits := false, heldLocks := locks, buttons := ButtonsAfter(s.t.buttons, f));
    GiveObserved(s.(t := to), f, h, env);
    FrameBreaksNothing(s, f, h, env);
    assert Scan(Give(s.(t := to), f, h, env).log) ==
           Scan(s.log).(held := ButtonsAfter(Scan(s.log).held, f), frames := Scan(s.log).frames + [f],
                        refused := On(s.net.SendAnswer(h)).None?);
  }

  /** An event that comes to an Enter, in the state it is in. */
  lemma ForwardIsEnter(s: Sys, h: Handle, ev: Event, env: Env)
    requires ev.Begin? || s.t.state == WaitingForAck
    requires !LockRepeat(s.t, ev)
    ensures var locks := LocksAfter(s.t, ev);
            var given := Give(s.(t := s.t.(enterWaits := false, heldLocks := locks)), EnterTo(s.t, h), h, env);
      Forward(s, h, ev, env) ==
        if EnterMustWait(s, h) then s.(t := s.t.(enterWaits := true, heldLocks := locks))
        else if s.net.SendAnswer(h).Sent? then given else LeaveActive(given, env)
  {
    assert s.t.(heldLocks := LocksAfter(s.t, ev)).(enterWaits := false, buttons := s.t.buttons)
        == s.t.(enterWaits := false, heldLocks := LocksAfter(s.t, ev));
  }

  lemma WaitingHolds(s: Sys, locks: set<nat>)
    requires Inv(s) && s.t.active.Some?
    ensures Inv(s.(t := s.t.(enterWaits := true, heldLocks := locks)))
  {
    var r := s.(t := s.t.(enterWaits := true, heldLocks := locks));
    assert VisitAgrees(r);
    assert MotionAgrees(r);
    assert BackoffAgrees(r);
  }

  lemma EnteringHolds(s: Sys, h: Handle, ev: Event, env: Env)
    requires ValidEnv(env) && s.clock == env.now
    requires ev.Begin? || s.t.state == WaitingForAck
    requires ReadyToEnter(s, h) && (Inv(s) || (ev.Begin? && !EnterMustWait(s, h)))
    ensures var r := Forward(s, h, ev, env);
      Inv(r) && Scan(r.log).faults == Scan(s.log).faults && r.clock == s.clock
  {
    if !LockRepeat(s.t, ev) {
      ForwardIsEnter(s, h, ev, env);
      if EnterMustWait(s, h) {
        WaitingHolds(s, LocksAfter(s.t, ev));
      } else {
        EnterGiven(s, h, EnterTo(s.t, h), LocksAfter(s.t, ev), env);
        var given := Give(s.(t := s.t.(enterWaits := false, heldLocks := LocksAfter(s.t, ev))), EnterTo(s.t, h), h, env);
        LeavingHolds(given, env);
      }
    }
  }

  lemma InputtingHolds(s: Sys, h: Handle, ev: Event, env: Env)
    requires ValidEnv(env) && s.clock == env.now
    requires ev.Got? && ReadyToInput(s, h, Input(ev.e))
    ensures var r := Forward(s, h, ev, env);
      Inv(r) && Scan(r.log).faults == Scan(s.log).faults && r.clock == s.clock
  {
    var f, locks := Input(ev.e), LocksAfter(s.t, ev);
    if !LockRepeat(s.t, ev) {
      InputGiven(s, h, f, locks, env);
      var to := s.t.(enterWaits := false, heldLocks := locks, buttons := ButtonsAfter(s.t.buttons, f));
      if !s.net.SendAnswer(h).Sent? {
        LeavingHolds(Give(s.(t := to), f, h, env), env);
      }
    }
  }

  lemma DeliveringHolds(s: Sys, h: Handle, ev: Event, env: Env)
    requires Inv(s) && ValidEnv(env) && s.clock == env.now && !Relinked(s, h) && ev.Got?
    requires s.t.pending.None?
    ensures var r := Deliver(s, h, ev, env);
      Inv(r) && Scan(r.log).faults == Scan(s.log).faults && r.clock == s.clock
  {
    if s.t.active == Some(h) {
      if s.t.state == Sending && IsMotion(ev) {
        var v := Vec(ev.e.dx, ev.e.dy);
        ScanNote(s.log, Moved(v));
        SendingMotionHolds(Note(s, Moved(v)), h, v, env);
      } else if s.t.state == Sending {
        InputtingHolds(s, h, ev, env);
      } else {
        EnteringHolds(s, h, ev, env);
      }
    }
  }

  lemma AnchoringHolds(s: Sys)
    requires Inv(s) && s.t.pending.None?
    ensures Inv(ToOrigin(s)) && Scan(ToOrigin(s).log) == Scan(s.log).(caught := ORIGIN, relative := ORIGIN, absolute := ORIGIN, turn := 0)
  {
    ScanNote(s.log, Anchored);
  }

  lemma DiallingHolds(s: Sys, h: Handle)
    requires Inv(s)
    ensures Inv(Dial(s, h)) && Dial(s, h).log == s.log && Dial(s, h).t == s.t
  {
  }

  /** A crossing let through: the only way a visit is taken over by another. */
  lemma StartingHolds(s: Sys, h: Handle, env: Env)
    requires Inv(s) && s.t.pending.None? && s.clock == env.now && s.t.active != Some(h)
    requires CannotCross(s, h, env).None?
    requires var m := Scan(s.log); m.caught == m.relative == m.absolute == s.t.abs == ORIGIN && m.turn == s.t.absSeq
    ensures var r := Start(s, h, env);
      && ReadyToEnter(r, h) && !EnterMustWait(r, h) && r.clock == s.clock
      && Scan(r.log).faults == Scan(s.log).faults + If(s.t.active.Some?, Replaced)
  {
    ScanNote(s.log, Begun(h));
  }

  /** What a Begin comes to: an Enter again, a refusal, or a crossing started. */
  lemma BeginIs(s: Sys, h: Handle, env: Env)
    ensures var a := ToOrigin(s);
      BeginAt(s, h, env) ==
        if s.t.active == Some(h) then Forward(a, h, Begin, env)
        else if CannotCross(s, h, env).Some? then
          LeaveActive(if CannotCross(s, h, env) == Some(NoLink) then Dial(a, h) else a, env)
        else Forward(Start(a, h, env), h, Begin, env)
  {
  }

  lemma AnchoredCannotCross(s: Sys, h: Handle, env: Env)
    ensures CannotCross(ToOrigin(s), h, env) == CannotCross(s, h, env)
  {
  }

  lemma BeginningHolds(s: Sys, h: Handle, env: Env)
    requires Inv(s) && s.t.pending.None? && ValidEnv(env) && s.clock == env.now
    ensures var r := BeginAt(s, h, env);
      && Inv(r) && r.clock == s.clock
      && Scan(r.log).faults == Scan(s.log).faults
           + If(s.t.active.Some? && s.t.active != Some(h) && CannotCross(s, h, env).None?, Replaced)
  {
    var a := ToOrigin(s);
    BeginIs(s, h, env);
    AnchoringHolds(s);
    AnchoredCannotCross(s, h, env);
    if s.t.active == Some(h) {
      EnteringHolds(a, h, Begin, env);
    } else if CannotCross(s, h, env).Some? {
      var d := if CannotCross(s, h, env) == Some(NoLink) then Dial(a, h) else a;
      DiallingHolds(a, h);
      LeavingHolds(d, env);
    } else {
      StartingHolds(a, h, env);
      EnteringHolds(Start(a, h, env), h, Begin, env);
    }
  }

  /** The task as a Begin at `h` finds it, if it comes to a crossing at all. */
  function AtBegin(s: Sys, h: Handle, env: Env): (r: Sys) {
    var s1 := if Relinked(s, h) then CrossAgain(s, env) else s;
    if s1.t.coalesce then FlushPending(s1, env) else s1
  }

  /** A Begin for another device, let through while one is active. */
  predicate TakesOver(s: Sys, x: Happening, env: Env) {
    && x.Captured? && x.ev.Begin? && !(s.t.releaseBind <= env.pressed)
    && var a := AtBegin(s, x.h, env);
    && TypeOf(a.t, x.h) == Default
    && a.t.active.Some? && a.t.active != Some(x.h) && CannotCross(a, x.h, env).None?
  }

  lemma AtBeginHolds(s: Sys, h: Handle, env: Env)
    requires Inv(s) && ValidEnv(env) && s.clock == env.now
    ensures var r := AtBegin(s, h, env);
      && Inv(r) && r.t.pending.None? && r.clock == s.clock && !Relinked(r, h)
      && Scan(r.log).faults == Scan(s.log).faults
  {
    var s1 := if Relinked(s, h) then CrossAgain(s, env) else s;
    if Relinked(s, h) {
      CrossingAgainHolds(s, h, env);
    }
    if s1.t.coalesce {
      FlushingHolds(s1, env);
    }
  }

  lemma AccumulatingHolds(s: Sys, v: Vec)
    requires Inv(s) && s.t.coalesce && s.t.state == Sending && s.t.active.Some?
    ensures var p := if s.t.pending.Some? then s.t.pending.value else ORIGIN;
            var r := Note(s.(t := s.t.(pending := Some(p.Plus(v)))), Moved(v));
      Inv(r) && Scan(r.log).faults == Scan(s.log).faults
  {
    ScanNote(s.log, Moved(v));
  }

  lemma PassingOnHolds(s: Sys, h: Handle, ev: Event, env: Env)
    requires Inv(s) && s.t.pending.None? && ValidEnv(env) && s.clock == env.now && !Relinked(s, h)
    ensures var r := if TypeOf(s.t, h) == EnterOnly then s
                     else if ev.Begin? then BeginAt(s, h, env) else Deliver(s, h, ev, env);
      && Inv(r) && r.clock == s.clock
      && Scan(r.log).faults == Scan(s.log).faults
           + If(ev.Begin? && TypeOf(s.t, h) == Default && s.t.active.Some? && s.t.active != Some(h)
                && CannotCross(s, h, env).None?, Replaced)
  {
    if TypeOf(s.t, h) == Default {
      if ev.Begin? {
        BeginningHolds(s, h, env);
      } else {
        DeliveringHolds(s, h, ev, env);
      }
    }
  }

  lemma HandlingHolds(s: Sys, h: Handle, ev: Event, env: Env)
    requires Inv(s) && ValidEnv(env) && s.clock == env.now
    ensures var r := HandleEvent(s, h, ev, env);
      && Inv(r) && r.clock == s.clock
      && Scan(r.log).faults == Scan(s.log).faults + If(TakesOver(s, Captured(h, ev), env), Replaced)
  {
    if s.t.releaseBind <= env.pressed {
      LeavingHolds(s, env);
    } else {
      var s1 := if Relinked(s, h) then CrossAgain(s, env) else s;
      if Relinked(s, h) {
        CrossingAgainHolds(s, h, env);
      }
      if s1.t.coalesce && IsMotion(ev) && s1.t.state == Sending && s1.t.active == Some(h) {
        AccumulatingHolds(s1, Vec(ev.e.dx, ev.e.dy));
      } else {
        AtBeginHolds(s, h, env);
        PassingOnHolds(AtBegin(s, h, env), h, ev, env);
      }
    }
  }

  // ------------------------------------------------------------- all steps

  lemma HearingAckHolds(s: Sys, h: Handle, link: nat)
    requires Inv(s)
    ensures var r := HearAck(s, h, link); Inv(r) && Scan(r.log).faults == Scan(s.log).faults
  {
    var r := HearAck(s, h, link);
    if s.t.active == Some(h) {
      ScanNote(s.log, Acked(link));
      assert Scan(r.log) == Scan(s.log).(acked := Scan(s.log).acked + {link});
      assert VisitAgrees(r);
      assert BackoffAgrees(r);
      if s.t.state == WaitingForAck {
        assert r.t.pending.None? && r.t.abs == ORIGIN;
      }
      assert MotionAgrees(r);
    } else {
      assert Scan(r.log) == Scan(s.log);
    }
  }

  lemma HearingPongHolds(s: Sys, h: Handle, link: nat, env: Env)
    requires Inv(s) && ValidEnv(env) && s.clock == env.now
    ensures var r := HearPong(s, h, link, env); Inv(r) && Scan(r.log).faults == Scan(s.log).faults
  {
    if s.t.active == Some(h) && s.t.state == WaitingForAck {
      EnterGiven(s, h, EnterTo(s.t, h), s.t.heldLocks, env);
      var ready := s.(t := s.t.(enterWaits := false));
      assert ready == s.(t := s.t.(enterWaits := false, heldLocks := s.t.heldLocks));
      LeavingHolds(Give(ready, EnterTo(s.t, h), h, env), env);
    }
  }

  lemma MarkingHolds(s: Sys, h: Handle, env: Env)
    requires Inv(s) && s.t.active.None? && h in s.t.unanswered && s.t.unanswered[h] == env.now
    ensures var r := Note(s, GaveUp(h, env.now)); Inv(r) && Scan(r.log).faults == Scan(s.log).faults
  {
    ScanNote(s.log, GaveUp(h, env.now));
    var r := Note(s, GaveUp(h, env.now));
    assert VisitAgrees(r);
    assert MotionAgrees(r);
  }

  lemma GivingUpHolds(s: Sys, env: Env)
    requires Inv(s) && ValidEnv(env) && s.clock == env.now
    ensures var r := GiveUp(s, env); Inv(r) && Scan(r.log).faults == Scan(s.log).faults
  {
    if s.t.active.Some? {
      var h := s.t.active.value;
      var marked := s.(t := s.t.(awaiting := None, unanswered := s.t.unanswered[h := env.now]));
      LeavingHolds(marked, env);
      var left := LeaveActive(marked, env);
      MarkingHolds(left, h, env);
    }
  }

  lemma DestroyingHolds(s: Sys, h: Handle, env: Env)
    requires Inv(s) && ValidEnv(env) && s.clock == env.now
    ensures var r := Destroy(s, h, env); Inv(r) && Scan(r.log).faults == Scan(s.log).faults
  {
    LeavingHolds(s, env);
    var left := if s.t.active == Some(h) then LeaveActive(s, env) else s;
    LeavingIdles(s, env);
    ForgettingHolds(left, h);
  }

  lemma ForgettingHolds(s: Sys, h: Handle)
    requires Inv(s)
    ensures var r := Note(s.(t := s.t.(captures := Others(s.t.captures, h), unanswered := s.t.unanswered - {h})), Destroyed(h));
      Inv(r) && Scan(r.log).faults == Scan(s.log).faults
  {
    ScanNote(s.log, Destroyed(h));
    var r := Note(s.(t := s.t.(captures := Others(s.t.captures, h), unanswered := s.t.unanswered - {h})), Destroyed(h));
    assert VisitAgrees(r);
    assert MotionAgrees(r);
    assert BackoffAgrees(r);
  }

  /** Every step keeps the invariant, and breaks one rule only: a Begin for
      another device, let through while one is active, takes its visit over
      with no Leave. */
  lemma ReactingHolds(s: Sys, x: Happening, env: Env)
    requires Inv(s) && Enabled(s, x, env) && s.clock == env.now
    ensures Inv(React(s, x, env))
    ensures Scan(React(s, x, env).log).faults == Scan(s.log).faults + If(TakesOver(s, x, env), Replaced)
  {
    match x
    case Captured(h, ev) => HandlingHolds(s, h, ev, env);
    case HeardAck(h, link) => HearingAckHolds(s, h, link);
    case HeardPong(h, link) => HearingPongHolds(s, h, link, env);
    case FlushTick => FlushingHolds(s, env);
    case AckTimeout => GivingUpHolds(s, env);
    case DestroyAsked(h) => DestroyingHolds(s, h, env);
    case _ => if x.HeardLeave? || x.ReleaseAsked? || x.SessionEnds? { LeavingHolds(s, env); } else { PlainStepHolds(s, x, env); }
  }

  /** Steps that send nothing and keep the visit as it is. */
  lemma PlainStepHolds(s: Sys, x: Happening, env: Env)
    requires Inv(s)
    requires x.Create? || x.DestroyedWhileStopped? || x.NewReleaseBind? || x.World?
    ensures Inv(React(s, x, env)) && React(s, x, env).log == s.log
  {
    var r := React(s, x, env);
    assert VisitAgrees(r);
    assert MotionAgrees(r);
    assert BackoffAgrees(r);
  }

  lemma ClockHolds(s: Sys, now: Time)
    requires Inv(s) && s.clock <= now
    ensures Inv(s.(clock := now))
  {
    var r := s.(clock := now);
    assert VisitAgrees(r);
    assert MotionAgrees(r);
    assert BackoffAgrees(r);
  }

  lemma StepHolds(s: Sys, x: Happening, env: Env)
    requires Inv(s) && Enabled(s, x, env)
    ensures Inv(Advance(s, x, env))
    ensures Scan(Advance(s, x, env).log).faults ==
            Scan(s.log).faults + If(TakesOver(s.(clock := env.now), x, env), Replaced)
  {
    ClockHolds(s, env.now);
    ReactingHolds(s.(clock := env.now), x, env);
  }

  datatype Moment = Moment(x: Happening, env: Env)

  function Run(s: Sys, run: seq<Moment>): (r: Sys)
    decreases |run|
  {
    if run == [] then s else Run(Advance(s, run[0].x, run[0].env), run[1..])
  }

  ghost predicate PossibleRun(s: Sys, run: seq<Moment>)
    decreases |run|
  {
    run != [] ==> Enabled(s, run[0].x, run[0].env) && PossibleRun(Advance(s, run[0].x, run[0].env), run[1..])
  }

  ghost predicate NoTakeover(s: Sys, run: seq<Moment>)
    decreases |run|
  {
    run != [] ==>
      && !TakesOver(s.(clock := run[0].env.now), run[0].x, run[0].env)
      && NoTakeover(Advance(s, run[0].x, run[0].env), run[1..])
  }

  lemma {:induction false} RunHolds(s: Sys, run: seq<Moment>)
    requires Inv(s) && PossibleRun(s, run)
    ensures Inv(Run(s, run))
    ensures NoTakeover(s, run) ==> Scan(Run(s, run).log).faults == Scan(s.log).faults
    decreases |run|
  {
    if run != [] {
      StepHolds(s, run[0].x, run[0].env);
      RunHolds(Advance(s, run[0].x, run[0].env), run[1..]);
    }
  }

  /** In every run from the start, whatever the links and devices do between
      the steps, the log breaks no rule of a crossing, but that a visit can be
      taken over; and not even that when no Begin does so. */
  lemma EveryRunKeepsTheRules(coalesce: bool, bind: set<nat>, net: Net, now: Time, run: seq<Moment>)
    requires PossibleRun(Initial(coalesce, bind, net, now), run)
    ensures var s := Run(Initial(coalesce, bind, net, now), run);
      && Scan(s.log).faults <= {Replaced}
      && (NoTakeover(Initial(coalesce, bind, net, now), run) ==> Scan(s.log).faults == {})
  {
    InitialHolds(coalesce, bind, net, now);
    RunHolds(Initial(coalesce, bind, net, now), run);
  }

  /** Whether a crossing to `h` can land on this table. */
  predicate CanBeCrossedTo(net: Net, h: Handle) {
    && net.clients.ActiveAddr(h).Some? && h in net.clients.answered && net.clients.Alive(h)
    && net.LinkOf(h).Some? && net.LinkOf(h).value.fp in net.trust
  }

  lemma FirstBeginEnters(s: Sys, h: Handle, env: Env)
    requires s.t.active.None? && s.t.pending.None? && s.t.state == WaitingForAck
    requires !(s.t.releaseBind <= env.pressed) && TypeOf(s.t, h) == Default && h !in s.t.unanswered
    requires CanBeCrossedTo(s.net, h) && !env.fails(|s.log| + 2)
    ensures var r := HandleEvent(s, h, Begin, env);
      && r.t.active == Some(h) && r.t.state == WaitingForAck && r.t.captures == s.t.captures
      && r.t.unanswered == s.t.unanswered && r.t.releaseBind == s.t.releaseBind
      && r.t.coalesce == s.t.coalesce && r.t.pending.None?
      && r.net == s.net.(wire := r.net.wire) && r.clock == s.clock
  {
    var started := Start(ToOrigin(s), h, env);
    assert |started.log| == |s.log| + 2;
    assert HandleEvent(s, h, Begin, env) == Forward(started, h, Begin, env);
  }

  lemma SecondBeginTakesOver(s: Sys, h: Handle, env: Env)
    requires s.t.active.Some? && s.t.active != Some(h) && s.t.state == WaitingForAck && !s.t.coalesce
    requires !(s.t.releaseBind <= env.pressed) && TypeOf(s.t, h) == Default && h !in s.t.unanswered
    requires CanBeCrossedTo(s.net, h)
    ensures TakesOver(s, Captured(h, Begin), env)
  {
  }

  lemma TwoBegins(s: Sys, first: Handle, second: Handle, env: Env)
    requires first != second && CanBeCrossedTo(s.net, first) && CanBeCrossedTo(s.net, second)
    requires s.t.captures == [Capture(first, Left, Default), Capture(second, Right, Default)]
    requires s.t.active.None? && s.t.pending.None? && s.t.state == WaitingForAck && !s.t.coalesce
    requires !(s.t.releaseBind <= env.pressed) && s.t.unanswered == map[] && !env.fails(|s.log| + 2)
    ensures var r := Advance(s, Captured(first, Begin), env);
      r.clock == env.now && TakesOver(r.(clock := env.now), Captured(second, Begin), env)
  {
    var cs := s.t.captures;
    assert cs[1..] == [Capture(second, Right, Default)];
    assert FirstCapture(cs, second) == FirstCapture(cs[1..], second) == Some(cs[1]);
    FirstBeginEnters(s.(clock := env.now), first, env);
    SecondBeginTakesOver(Advance(s, Captured(first, Begin), env).(clock := env.now), second, env);
  }

  lemma TakingOverShows(s: Sys, x: Happening, env: Env)
    requires Inv(s) && Enabled(s, x, env) && TakesOver(s.(clock := env.now), x, env)
    ensures Replaced in Scan(Advance(s, x, env).log).faults
  {
    StepHolds(s, x, env);
  }

  lemma SecondVisitReplaces(s: Sys, first: Handle, second: Handle, env: Env)
    requires Inv(s) && ValidEnv(env) && s.clock <= env.now
    requires var r := Advance(s, Captured(first, Begin), env);
      r.clock == env.now && TakesOver(r.(clock := env.now), Captured(second, Begin), env)
    ensures Replaced in Scan(Advance(Advance(s, Captured(first, Begin), env), Captured(second, Begin), env).log).faults
  {
    StepHolds(s, Captured(first, Begin), env);
    TakingOverShows(Advance(s, Captured(first, Begin), env), Captured(second, Begin), env);
  }

  /** The rule that can be broken is: two devices that can both be crossed to, a
      Begin for the one and then for the other, and the second visit begins with
      no Leave sent to the first. */
  lemma ABeginTakesOver(net: Net, first: Handle, second: Handle, order: set<nat> -> seq<nat>, now: Time, key: nat)
    requires first != second && CanBeCrossedTo(net, first) && CanBeCrossedTo(net, second)
    requires forall s: set<nat> :: Lists(order(s), s)
    ensures var env := Env(now, {}, order, _ => false);
      var s := Initial(false, {key}, net, now);
      var run := [Moment(Create(Capture(first, Left, Default)), env), Moment(Create(Capture(second, Right, Default)), env),
                  Moment(Captured(first, Begin), env), Moment(Captured(second, Begin), env)];
      PossibleRun(s, run) && Replaced in Scan(Run(s, run).log).faults
  {
    var env := Env(now, {}, order, _ => false);
    var s := Initial(false, {key}, net, now);
    var one, other := Create(Capture(first, Left, Default)), Create(Capture(second, Right, Default));
    InitialHolds(false, {key}, net, now);
    PlainStepHolds(s, one, env);
    var s1 := Advance(s, one, env);
    PlainStepHolds(s1, other, env);
    var s2 := Advance(s1, other, env);
    TwoBegins(s2, first, second, env);
    SecondVisitReplaces(s2, first, second, env);
    FourMoments(s, one, other, Captured(first, Begin), Captured(second, Begin), env);
  }

  lemma FourMoments(s: Sys, x0: Happening, x1: Happening, x2: Happening, x3: Happening, env: Env)
    ensures var run := [Moment(x0, env), Moment(x1, env), Moment(x2, env), Moment(x3, env)];
      var s1 := Advance(s, x0, env);
      var s2 := Advance(s1, x1, env);
      var s3 := Advance(s2, x2, env);
      && Run(s, run) == Advance(s3, x3, env)
      && (PossibleRun(s, run) <==> Enabled(s, x0, env) && Enabled(s1, x1, env) && Enabled(s2, x2, env) && Enabled(s3, x3, env))
  {
    var run := [Moment(x0, env), Moment(x1, env), Moment(x2, env), Moment(x3, env)];
    var s1 := Advance(s, x0, env);
    var s2 := Advance(s1, x1, env);
    var s3 := Advance(s2, x2, env);
    assert run[1..][1..] == run[2..] && run[2..][1..] == run[3..] && run[3..][1..] == [];
    assert Run(s3, run[3..]) == Advance(s3, x3, env);
    assert Run(s2, run[2..]) == Run(s3, run[3..]);
    assert Run(s1, run[1..]) == Run(s2, run[2..]);
    assert PossibleRun(s3, run[3..]) <==> Enabled(s3, x3, env);
    assert PossibleRun(s2, run[2..]) <==> Enabled(s2, x2, env) && PossibleRun(s3, run[3..]);
    assert PossibleRun(s1, run[1..]) <==> Enabled(s1, x1, env) && PossibleRun(s2, run[2..]);
  }

  // ------------------------------------------------- what the log says of it

  /** Any pressing frame capture wrote went to the device being visited, on a
      link on which an Ack came since that visit began. */
  lemma PressesOnlyWhereAcked(log: seq<Item>, i: nat)
    requires Unacked !in Scan(log).faults && Stray !in Scan(log).faults
    requires i < |log| && log[i].Out? && Presses(log[i].f) && log[i].on.Some?
    ensures exists j, b ::
      && 0 <= b < i && log[b] == Begun(log[i].h) && 0 <= j < i && log[j] == Acked(log[i].on.value)
      && (forall k :: j < k < i ==> !log[k].Begun?)
      && (forall k :: b < k < i ==> !log[k].Begun? && !(log[k].Out? && log[k].f.Leave?))
  {
    EachFrameWasJudged(log, i);
    AckedMeans(log[..i], log[i].on.value);
    VisitingMeans(log[..i], log[i].h);
    var j :| 0 <= j < i && log[..i][j] == Acked(log[i].on.value) && forall k :: j < k < i ==> !log[..i][k].Begun?;
    var b :| 0 <= b < i && log[..i][b] == Begun(log[i].h)
             && forall k :: b < k < i ==> !log[..i][k].Begun? && !(log[..i][k].Out? && log[..i][k].f.Leave?);
    assert forall k :: 0 <= k < i ==> log[..i][k] == log[k];
  }

  /** These are the buttons that went down last in the frames. */
  ghost predicate AreDown(fs: seq<Frame>, downs: set<nat>) {
    forall b :: b in downs <==> LastDown(fs, b)
  }

  /** The last of these frames, and the Leave after them, let go of exactly the
      buttons that, with `before`, went down last, and of some keys; and with them no
      button is down. */
  ghost predicate LetsGoOfThem(before: seq<Frame>, frames: seq<Frame>) {
    && (exists k: nat, downs, keys ::
          && k <= |frames| && AreDown(before + frames[..k], downs)
          && Releases(frames[k..] + [Leave], downs, keys))
    && AreDown(before + frames, {})
  }

  /** A Leave that lets go of everything its device was sent as held. The visit to
      it began at `b`, with no other and no Leave since, and its frames end by
      letting go. A visit that began with none under way began with no button down,
      so the ups are for its own downs; one that took another over began with that
      one's. */
  ghost predicate LetsGo(log: seq<Item>, i: nat, b: nat)
    requires i < |log| && log[i].Out?
  {
    && b < i && log[b] == Begun(log[i].h)
    && (forall k :: b < k < i ==> !log[k].Begun? && !(log[k].Out? && log[k].f.Leave?))
    && LetsGoOfThem(FramesOf(log[..b]), FramesOf(log[b + 1..i]))
    && (Scan(log[..b]).visiting.None? ==> AreDown(FramesOf(log[..b]), {}))
  }

  lemma EveryLeaveLetsGo(log: seq<Item>, i: nat) returns (b: nat)
    requires Stray !in Scan(log).faults && LeftHolding !in Scan(log).faults && BadEnding !in Scan(log).faults
    requires i < |log| && log[i].Out? && log[i].f.Leave?
    ensures LetsGo(log, i, b)
  {
    var past := log[..i];
    var m := Scan(past);
    EachFrameWasJudged(log, i);
    assert Stray !in OutFaults(m, log[i].h, log[i].f, log[i].on, log[i].at);
    assert LeftHolding !in OutFaults(m, log[i].h, log[i].f, log[i].on, log[i].at);
    assert BadEnding !in OutFaults(m, log[i].h, log[i].f, log[i].on, log[i].at);
    b := VisitMeans(past, log[i].h);
    assert past[..b] == log[..b] && past[b + 1..] == log[b + 1..i];
    assert forall k :: 0 <= k < i ==> past[k] == log[k];
    HeldMeans(past);
    EndsByLettingGo(log[..b], m.frames);
    FaultsStay(log, b);
    forall x ensures Scan(log[..b]).visiting.None? ==> !LastDown(FramesOf(log[..b]), x) {
      if Scan(log[..b]).visiting.None? {
        HeldOnlyInAVisit(log[..b]);
      }
      HeldWentDownLast(log[..b], x);
    }
  }

  lemma EndsByLettingGo(log: seq<Item>, frames: seq<Frame>)
    requires EndsProperly(Scan(log).held, frames) && HeldAfter(Scan(log).held, frames) == {}
    ensures LetsGoOfThem(FramesOf(log), frames)
  {
    var held := Scan(log).held;
    var k: nat, buttons, keys, pressed :| EndsFrom(held, frames, k, buttons, keys, pressed);
    HeldAreDown(log, frames[..k]);
    HeldAreDown(log, frames);
    EndFramesRelease(buttons, keys);
    assert AreDown(FramesOf(log) + frames[..k], HeldAfter(held, frames[..k]));
    assert Releases(frames[k..] + [Leave], HeldAfter(held, frames[..k]), pressed);
  }

  lemma HeldAreDown(log: seq<Item>, frames: seq<Frame>)
    ensures AreDown(FramesOf(log) + frames, HeldAfter(Scan(log).held, frames))
  {
    forall b ensures b in HeldAfter(Scan(log).held, frames) <==> LastDown(FramesOf(log) + frames, b) {
      HeldWithBefore(log, frames, b);
    }
  }

  lemma HeldWithBefore(log: seq<Item>, frames: seq<Frame>, b: nat)
    ensures b in HeldAfter(Scan(log).held, frames) <==> LastDown(FramesOf(log) + frames, b)
  {
    HeldIsAllFrames(log);
    HeldInParts({}, FramesOf(log), frames);
    HeldAfterMeans({}, FramesOf(log) + frames, b);
  }

  lemma {:induction false} HeldInParts(held: set<nat>, first: seq<Frame>, rest: seq<Frame>)
    ensures HeldAfter(held, first + rest) == HeldAfter(HeldAfter(held, first), rest)
    decreases |rest|
  {
    if rest == [] {
      assert first + rest == first;
    } else {
      assert (first + rest)[..|first + rest| - 1] == first + rest[..|rest| - 1];
      HeldInParts(held, first, rest[..|rest| - 1]);
    }
  }

  /** A frame goes to a device only in a visit to it. */
  lemma EachFrameIsOfItsVisit(log: seq<Item>, j: nat)
    requires Stray !in Scan(log).faults && j < |log| && log[j].Out?
    ensures exists b :: 0 <= b < j && log[b] == Begun(log[j].h)
                        && forall k :: b < k < j ==> !log[k].Begun? && !(log[k].Out? && log[k].f.Leave?)
  {
    EachFrameWasJudged(log, j);
    assert Stray !in OutFaults(Scan(log[..j]), log[j].h, log[j].f, log[j].on, log[j].at);
    VisitingMeans(log[..j], log[j].h);
    var b :| 0 <= b < j && log[..j][b] == Begun(log[j].h)
             && forall k :: b < k < j ==> !log[..j][k].Begun? && !(log[..j][k].Out? && log[..j][k].f.Leave?);
    assert forall k :: 0 <= k < j ==> log[..j][k] == log[k];
  }

  lemma EachFrameFollowsAnEnter(log: seq<Item>, j: nat)
    requires NotEntered !in Scan(log).faults && j < |log| && log[j].Out?
    ensures exists e :: 0 <= e <= j && log[e].Out? && log[e].f.Enter? && forall k :: e < k < j ==> !log[k].Begun?
  {
    EachFrameWasJudged(log, j);
    assert NotEntered !in OutFaults(Scan(log[..j]), log[j].h, log[j].f, log[j].on, log[j].at);
    if !log[j].f.Enter? {
      EnteredMeans(log[..j]);
      var e :| 0 <= e < j && log[..j][e].Out? && log[..j][e].f.Enter? && forall k :: e < k < j ==> !log[..j][k].Begun?;
      assert forall k :: 0 <= k < j ==> log[..j][k] == log[k];
    } else {
      assert log[j].f.Enter?;
    }
  }

  /** After a Leave nothing goes to that device before a new visit to it begins,
      and then an Enter comes first. */
  lemma NothingBeforeANewEnter(log: seq<Item>, i: nat, j: nat)
    requires Stray !in Scan(log).faults && NotEntered !in Scan(log).faults && i < j < |log|
    requires log[i].Out? && log[i].f.Leave? && log[j].Out? && log[j].h == log[i].h
    ensures exists b, e :: i < b < e <= j && log[b] == Begun(log[j].h) && log[e].Out? && log[e].f.Enter?
  {
    EachFrameIsOfItsVisit(log, j);
    EachFrameFollowsAnEnter(log, j);
    var b :| 0 <= b < j && log[b] == Begun(log[j].h)
             && forall k :: b < k < j ==> !log[k].Begun? && !(log[k].Out? && log[k].f.Leave?);
    var e :| 0 <= e <= j && log[e].Out? && log[e].f.Enter? && forall k :: e < k < j ==> !log[k].Begun?;
    LeaveIsBehind(log, i, j, b, e);
  }

  lemma LeaveIsBehind(log: seq<Item>, i: nat, j: nat, b: nat, e: nat)
    requires i < j < |log| && log[i].Out? && log[i].f.Leave?
    requires b < j && log[b].Begun? && forall k :: b < k < j ==> !log[k].Begun? && !(log[k].Out? && log[k].f.Leave?)
    requires e <= j && log[e].Out? && log[e].f.Enter? && forall k :: e < k < j ==> !log[k].Begun?
    ensures i < b < e
  {
    assert log[i].f.Leave? && log[b].Begun?;
  }

  /** How many positions went out since the anchor was last set. */
  function Positions(log: seq<Item>): (n: nat)
    decreases |log|
  {
    if log == [] then 0 else
      var before, last := log[..|log| - 1], log[|log| - 1];
      if last.Anchored? then 0 else Positions(before) + if last.Out? && last.f.MotionAbsolute? then 1 else 0
  }

  lemma {:induction false} TurnIsPositions(log: seq<Item>)
    ensures Scan(log).turn == Positions(log)
    decreases |log|
  {
    if log != [] {
      TurnIsPositions(log[..|log| - 1]);
    }
  }

  /** Whether a frame of the visit under way went out that no link took. */
  ghost predicate RefusedSince(log: seq<Item>) {
    exists j :: 0 <= j < |log| && log[j].Out? && log[j].on.None? && forall k :: j < k < |log| ==> !log[k].Begun?
  }

  lemma {:induction false} RefusedMeans(log: seq<Item>)
    ensures RefusedSince(log) ==> Scan(log).refused
    decreases |log|
  {
    if RefusedSince(log) {
      var before, last := log[..|log| - 1], log[|log| - 1];
      var j :| 0 <= j < |log| && log[j].Out? && log[j].on.None? && forall k :: j < k < |log| ==> !log[k].Begun?;
      if j < |before| {
        assert before[j] == log[j] && forall k :: j < k < |before| ==> before[k] == log[k];
        RefusedMeans(before);
        assert !last.Begun?;
      }
    }
  }

  // ------------------------------------------- the same, of every run at all

  /** In every run, positions are numbered from one, in order, from each anchor. */
  lemma EveryRunNumbersPositions(coalesce: bool, bind: set<nat>, net: Net, now: Time, run: seq<Moment>, i: nat)
    requires PossibleRun(Initial(coalesce, bind, net, now), run)
    requires var log := Run(Initial(coalesce, bind, net, now), run).log; i < |log| && log[i].Out? && log[i].f.MotionAbsolute?
    ensures var log := Run(Initial(coalesce, bind, net, now), run).log;
      log[i].f.seqno == Positions(log[..i]) + 1
  {
    var log := Run(Initial(coalesce, bind, net, now), run).log;
    EveryRunKeepsTheRules(coalesce, bind, net, now, run);
    EachFrameWasJudged(log, i);
    TurnIsPositions(log[..i]);
    assert OutOfTurn !in OutFaults(Scan(log[..i]), log[i].h, log[i].f, log[i].on, log[i].at);
  }

  /** In every run, once a link did not take a frame of a visit, nothing of that visit
      follows but what lets go; and the step that gave it ends the visit. */
  lemma EveryRunStopsAtARefusal(coalesce: bool, bind: set<nat>, net: Net, now: Time, run: seq<Moment>, i: nat)
    requires PossibleRun(Initial(coalesce, bind, net, now), run)
    requires var log := Run(Initial(coalesce, bind, net, now), run).log; i < |log| && log[i].Out?
    ensures var s := Run(Initial(coalesce, bind, net, now), run);
      && (RefusedSince(s.log[..i]) ==> OnlyLetsGo(s.log[i].f))
      && (s.t.active.Some? ==> !RefusedSince(s.log))
  {
    var log := Run(Initial(coalesce, bind, net, now), run).log;
    EveryRunKeepsTheRules(coalesce, bind, net, now, run);
    InitialHolds(coalesce, bind, net, now);
    RunHolds(Initial(coalesce, bind, net, now), run);
    EachFrameWasJudged(log, i);
    RefusedMeans(log[..i]);
    RefusedMeans(log);
    assert AfterRefusal !in OutFaults(Scan(log[..i]), log[i].h, log[i].f, log[i].on, log[i].at);
  }

  /** In every run each Leave lets go so; and where no Begin took a visit over, of
      what was sent down in its own visit and nothing else. */
  lemma EveryRunLetsGo(coalesce: bool, bind: set<nat>, net: Net, now: Time, run: seq<Moment>, i: nat) returns (b: nat)
    requires PossibleRun(Initial(coalesce, bind, net, now), run)
    requires var log := Run(Initial(coalesce, bind, net, now), run).log; i < |log| && log[i].Out? && log[i].f.Leave?
    ensures var log := Run(Initial(coalesce, bind, net, now), run).log;
      && LetsGo(log, i, b)
      && (NoTakeover(Initial(coalesce, bind, net, now), run) ==>
            LetsGoOfThem([], FramesOf(log[b + 1..i])))
  {
    var log := Run(Initial(coalesce, bind, net, now), run).log;
    EveryRunKeepsTheRules(coalesce, bind, net, now, run);
    b := EveryLeaveLetsGo(log, i);
    BeganAlone(log, b);
    if NoTakeover(Initial(coalesce, bind, net, now), run) {
      FaultsStay(log, b);
      HeldOnlyInAVisit(log[..b]);
      LetsGoOfItsOwn(log, i, b);
    }
  }

  /** A visit that began with nothing held lets go of what its own frames sent down. */
  lemma LetsGoOfItsOwn(log: seq<Item>, i: nat, b: nat)
    requires i < |log| && log[i].Out? && LetsGo(log, i, b) && Scan(log[..b]).held == {}
    ensures LetsGoOfThem([], FramesOf(log[b + 1..i]))
  {
    var before, frames := FramesOf(log[..b]), FramesOf(log[b + 1..i]);
    assert FramesOf([]) == [] && Scan([]).held == {};
    forall k: nat, x | k <= |frames| ensures LastDown([] + frames[..k], x) <==> LastDown(before + frames[..k], x) {
      HeldWithBefore(log[..b], frames[..k], x);
      HeldWithBefore([], frames[..k], x);
    }
    assert frames[..|frames|] == frames;
    var k: nat, downs, keys :| k <= |frames| && AreDown(before + frames[..k], downs)
      && Releases(frames[k..] + [Leave], downs, keys);
    assert AreDown([] + frames[..k], downs);
  }

  /** A Begin that takes no visit over is logged with none under way. */
  lemma BeganAlone(log: seq<Item>, b: nat)
    requires b < |log| && log[b].Begun?
    ensures Replaced !in Scan(log).faults ==> Scan(log[..b]).visiting.None?
  {
    FaultsStay(log, b + 1);
    assert log[..b + 1] == log[..b] + [log[b]];
    ScanNote(log[..b], log[b]);
  }

  /** In every run, after a Leave nothing goes to that device before a new visit to
      it begins and an Enter goes out. */
  lemma EveryRunEntersAnew(coalesce: bool, bind: set<nat>, net: Net, now: Time, run: seq<Moment>, i: nat, j: nat)
    requires PossibleRun(Initial(coalesce, bind, net, now), run)
    requires var log := Run(Initial(coalesce, bind, net, now), run).log;
      i < j < |log| && log[i].Out? && log[i].f.Leave? && log[j].Out? && log[j].h == log[i].h
    ensures var log := Run(Initial(coalesce, bind, net, now), run).log;
      exists b, e :: i < b < e <= j && log[b] == Begun(log[j].h) && log[e].Out? && log[e].f.Enter?
  {
    EveryRunKeepsTheRules(coalesce, bind, net, now, run);
    NothingBeforeANewEnter(Run(Initial(coalesce, bind, net, now), run).log, i, j);
  }

  /** In every run, a pressing frame written went to the device then visited, on a
      link on which an Ack came since that visit began. */
  lemma EveryRunPressesWhereAcked(coalesce: bool, bind: set<nat>, net: Net, now: Time, run: seq<Moment>, i: nat)
    requires PossibleRun(Initial(coalesce, bind, net, now), run)
    requires var log := Run(Initial(coalesce, bind, net, now), run).log;
      i < |log| && log[i].Out? && Presses(log[i].f) && log[i].on.Some?
    ensures var log := Run(Initial(coalesce, bind, net, now), run).log;
      exists j, b :: 0 <= b < i && log[b] == Begun(log[i].h) && 0 <= j < i && log[j] == Acked(log[i].on.value)
        && (forall k :: j < k < i ==> !log[k].Begun?)
        && (forall k :: b < k < i ==> !log[k].Begun? && !(log[k].Out? && log[k].f.Leave?))
  {
    EveryRunKeepsTheRules(coalesce, bind, net, now, run);
    PressesOnlyWhereAcked(Run(Initial(coalesce, bind, net, now), run).log, i);
  }

  /** At every moment of every run: motion captured while a visit is acknowledged
      is what the peer was sent, as deltas and as a position, and what is still
      to be sent; while it is not, the peer was shown none. */
  lemma MotionIsConserved(coalesce: bool, bind: set<nat>, net: Net, now: Time, run: seq<Moment>)
    requires PossibleRun(Initial(coalesce, bind, net, now), run)
    ensures var s := Run(Initial(coalesce, bind, net, now), run);
      var m := Scan(s.log);
      && (s.t.active.Some? && s.t.state == Sending ==>
            m.caught == m.relative.Plus(m.absolute).Plus(if s.t.pending.Some? then s.t.pending.value else ORIGIN))
      && (s.t.active.Some? && s.t.state == WaitingForAck ==>
            m.caught == ORIGIN && m.relative == ORIGIN && m.absolute == ORIGIN && s.t.pending.None?)
  {
    InitialHolds(coalesce, bind, net, now);
    RunHolds(Initial(coalesce, bind, net, now), run);
  }

  /** A visit waits for an Ack exactly while a deadline is set, and its record of
      the buttons down on the peer is what the frames sent left down. */
  lemma WaitsExactlyWithADeadline(coalesce: bool, bind: set<nat>, net: Net, now: Time, run: seq<Moment>)
    requires PossibleRun(Initial(coalesce, bind, net, now), run)
    ensures var s := Run(Initial(coalesce, bind, net, now), run);
      && (s.t.active.Some? ==> (s.t.state == WaitingForAck <==> s.t.awaiting.Some?))
      && (s.t.active.None? ==> s.t.awaiting.None?)
      && s.t.active == Scan(s.log).visiting
      && (forall b :: b in s.t.buttons <==> LastDown(FramesOf(s.log), b))
  {
    InitialHolds(coalesce, bind, net, now);
    RunHolds(Initial(coalesce, bind, net, now), run);
    var log := Run(Initial(coalesce, bind, net, now), run).log;
    forall b ensures b in Scan(log).held <==> LastDown(FramesOf(log), b) {
      HeldWentDownLast(log, b);
    }
  }

  lemma {:induction false} GaveUpMeans(log: seq<Item>, h: Handle, i: nat)
    requires i < |log| && log[i].GaveUp? && log[i].h == h
    requires forall k :: i < k < |log| ==> log[k] != Destroyed(h) && !(log[k].GaveUp? && log[k].h == h)
    ensures h in Scan(log).gaveUp && Scan(log).gaveUp[h] == log[i].at
    decreases |log|
  {
    if i < |log| - 1 {
      var before := log[..|log| - 1];
      assert forall k :: 0 <= k < |before| ==> before[k] == log[k];
      GaveUpMeans(before, h, i);
    }
  }

  /** After the last give-up on a device, at time `t`, nothing at all goes to it
      before `t` plus the backoff, unless its capture is destroyed. */
  lemma NothingWithinTheBackoff(log: seq<Item>, h: Handle, i: nat, j: nat)
    requires TooSoon !in Scan(log).faults
    requires i < j < |log| && log[i].GaveUp? && log[i].h == h && log[j].Out? && log[j].h == h
    requires forall k :: i < k < j ==> log[k] != Destroyed(h) && !(log[k].GaveUp? && log[k].h == h)
    ensures log[i].at + UNANSWERED_BACKOFF <= log[j].at
  {
    EachFrameWasJudged(log, j);
    GaveUpMeans(log[..j], h, i);
  }

  lemma {:induction false} GivingKeepsTask(s: Sys, fs: seq<Frame>, h: Handle, addr: Option<SocketAddr>, env: Env)
    ensures GiveAll(s, fs, h, addr, env).t == s.t
    decreases |fs|
  {
    if fs != [] {
      GivingKeepsTask(s, fs[..|fs| - 1], h, addr, env);
    }
  }

  lemma LeavingIdles(s: Sys, env: Env)
    ensures LeaveActive(s, env).t == Idle(s.t)
  {
    if s.t.active.Some? {
      GivingKeepsTask(s.(t := Idle(s.t)), EndFrames(env.order(s.t.buttons), env.order(env.pressed)),
                      s.t.active.value, AckedAddr(s.t, s.t.active.value), env);
    }
  }

  /** Waiting on one crossing, its deadline never moves. */
  lemma DeadlineNeverMoves(s: Sys, x: Happening, env: Env)
    requires Inv(s) && Enabled(s, x, env)
    requires s.t.active.Some? && s.t.state == WaitingForAck
    requires Advance(s, x, env).t.active == s.t.active && Advance(s, x, env).t.state == WaitingForAck
    ensures Advance(s, x, env).t.awaiting == s.t.awaiting
  {
    var s := s.(clock := env.now);
    LeavingIdles(s, env);
    match x
    case Captured(h, ev) => EventLeavesDeadline(s, h, ev, env);
    case HeardPong(h, link) =>
      LeavingIdles(Give(s.(t := s.t.(enterWaits := false)), EnterTo(s.t, h), h, env), env);
    case AckTimeout =>
      LeavingIdles(s.(t := s.t.(awaiting := None, unanswered := s.t.unanswered[s.t.active.value := env.now])), env);
    case _ =>
  }

  lemma EventLeavesDeadline(s: Sys, h: Handle, ev: Event, env: Env)
    requires Inv(s) && s.t.active.Some? && s.t.state == WaitingForAck
    requires HandleEvent(s, h, ev, env).t.active == s.t.active
    ensures HandleEvent(s, h, ev, env).t.awaiting == s.t.awaiting
  {
    LeavingIdles(s, env);
    if ev.Begin? && !(s.t.releaseBind <= env.pressed) && TypeOf(s.t, h) == Default && s.t.active != Some(h) {
      var a := ToOrigin(s);
      LeavingIdles(a, env);
      LeavingIdles(Dial(a, h), env);
      StartMovesOn(a, h, env);
    } else {
      ForwardLeavesDeadline(s, h, ev, env);
      ForwardLeavesDeadline(ToOrigin(s), h, ev, env);
    }
  }

  lemma ForwardLeavesDeadline(s: Sys, h: Handle, ev: Event, env: Env)
    ensures var r := Forward(s, h, ev, env);
      r.t.active == None || (r.t.active == s.t.active && r.t.awaiting == s.t.awaiting)
  {
    var f := if ev.Begin? || s.t.state == WaitingForAck then EnterTo(s.t, h) else Input(ev.e);
    var to := s.t.(heldLocks := LocksAfter(s.t, ev), enterWaits := false, buttons := ButtonsAfter(s.t.buttons, f));
    LeavingIdles(Give(s.(t := to), f, h, env), env);
  }

  lemma StartMovesOn(s: Sys, h: Handle, env: Env)
    ensures Deliver(Start(s, h, env), h, Begin, env).t.active in {None, Some(h)}
  {
    ForwardLeavesDeadline(Start(s, h, env), h, Begin, env);
  }
}
