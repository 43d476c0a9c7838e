/** The capture task as it runs: one object whose fields its event loop changes
    in place, driving the shared connection. */
module CaptureTasks {
  import opened Common
  import opened Registry
  import opened Manager
  import opened Proto
  import opened Links
  import opened Connection
  import opened Crossing

  lemma {:induction false} GiveAllTwice(
      s: Sys, fs: seq<Frame>, more: seq<Frame>, h: Handle, addr: Option<SocketAddr>, env: Env)
    ensures GiveAll(GiveAll(s, fs, h, addr, env), more, h, addr, env) == GiveAll(s, fs + more, h, addr, env)
    decreases |more|
  {
    if more == [] {
      assert fs + more == fs;
    } else {
      GiveAllTwice(s, fs, more[..|more| - 1], h, addr, env);
      assert (fs + more)[..|fs + more| - 1] == fs + more[..|more| - 1];
    }
  }

  /** The visit after `f` is recorded and sent; a send that fails ends it. */
  function HandedOver(s: Sys, f: Frame, h: Handle, env: Env): (r: Sys) {
    var given := Give(s.(t := s.t.(buttons := ButtonsAfter(s.t.buttons, f))), f, h, env);
    if s.net.SendAnswer(h).Sent? then given else LeaveActive(given, env)
  }

  lemma OthersFrom(cs: seq<Capture>, h: Handle, i: nat)
    requires i < |cs|
    ensures Others(cs[i..], h) == (if cs[i].h == h then [] else [cs[i]]) + Others(cs[i + 1..], h)
  {
    assert cs[i..][1..] == cs[i + 1..];
  }

  class CaptureTask {
    const conn: LanMouseConnection
    var active: Option<Handle>
    var ackedAt: Option<(Handle, SocketAddr)>
    var ackedLink: Option<nat>
    var awaiting: Option<Time>
    var enterWaits: bool
    var unanswered: map<Handle, Time>
    var captures: seq<Capture>
    var releaseBind: set<nat>
    var state: CrossState
    var heldLocks: set<nat>
    var buttons: set<nat>
    var coalesce: bool
    var pending: Option<Vec>
    var abs: Vec
    var absSeq: nat
    /** What capture handed over and decided, in order. */
    var log: seq<Item>

    ghost function TaskView(): (t: Task)
      reads this
    {
      Task(active, ackedAt, ackedLink, awaiting, enterWaits, unanswered, captures, releaseBind, state,
           heldLocks, buttons, coalesce, pending, abs, absSeq)
    }

    ghost function View(now: Time): (s: Sys)
      reads this, conn, conn.clients
    {
      Sys(TaskView(), conn.View(), log, now)
    }

    constructor (conn: LanMouseConnection, bind: set<nat>, coalesce: bool)
      ensures this.conn == conn
      ensures forall now :: View(now) == Initial(coalesce, bind, conn.View(), now)
    {
      this.conn := conn;
      active, ackedAt, ackedLink, awaiting, enterWaits := None, None, None, None, false;
      unanswered, captures, releaseBind, state := map[], [], bind, WaitingForAck;
      heldLocks, buttons, this.coalesce, pending, abs, absSeq, log := {}, {}, coalesce, None, ORIGIN, 0, [];
    }

    method Send(f: Frame, h: Handle, env: Env) returns (ok: bool)
      modifies this`log, conn, conn.clients
      ensures View(env.now) == Give(old(View(env.now)), f, h, env)
      ensures ok == old(conn.View()).SendAnswer(h).Sent?
    {
      var r := conn.Send(f, h, env.fails(|log|));
      log := log + [Out(h, f, On(r), env.now)];
      ok := r.Sent?;
    }

    method SendLeaving(f: Frame, h: Handle, addr: Option<SocketAddr>, env: Env)
      modifies this`log, conn, conn.clients
      ensures View(env.now) == GiveLeaving(old(View(env.now)), f, h, addr, env)
    {
      if addr.Some? {
        var r := conn.SendTo(f, h, addr.value, env.fails(|log|));
        log := log + [Out(h, f, On(r), env.now)];
      } else {
        var _ := Send(f, h, env);
      }
    }

    method SendEach(fs: seq<Frame>, h: Handle, addr: Option<SocketAddr>, env: Env)
      modifies this`log, conn, conn.clients
      ensures View(env.now) == GiveAll(old(View(env.now)), fs, h, addr, env)
    {
      ghost var start := View(env.now);
      for i := 0 to |fs|
        invariant View(env.now) == GiveAll(start, fs[..i], h, addr, env)
      {
        assert fs[..i + 1][..i] == fs[..i];
        SendLeaving(fs[i], h, addr, env);
      }
      assert fs[..|fs|] == fs;
    }

    method GoIdle()
      modifies `pending, `awaiting, `enterWaits, `buttons, `ackedAt, `ackedLink, `active
      ensures TaskView() == Idle(old(TaskView())) && log == old(log)
    {
      pending, awaiting, enterWaits := None, None, false;
      buttons, ackedAt, ackedLink, active := {}, None, None, None;
    }

    /** Idle, with the ending frames of the visit, if one was under way, handed
        over in the order `EndFrames` lists them. */
    method LeaveActiveClient(env: Env)
      modifies this, conn, conn.clients
      ensures View(env.now) == LeaveActive(old(View(env.now)), env)
    {
      var down, acked, was := buttons, ackedAt, active;
      GoIdle();
      ghost var left := View(env.now);
      if was.Some? {
        var h := was.value;
        var addr := if acked.Some? && acked.value.0 == h then Some(acked.value.1) else None;
        var ups, keyUps := ButtonUps(env.order(down)), KeyUps(env.order(env.pressed));
        SendEach(ups, h, addr, env);
        SendEach(keyUps, h, addr, env);
        SendEach([NO_MODIFIERS, Leave], h, addr, env);
        GiveAllTwice(left, ups, keyUps, h, addr, env);
        GiveAllTwice(left, ups + keyUps, [NO_MODIFIERS, Leave], h, addr, env);
      }
    }

    method CrossAgainIfRelinked(h: Handle, env: Env) returns (again: bool)
      modifies this
      ensures again == Relinked(old(View(env.now)), h)
      ensures View(env.now) == if again then CrossAgain(old(View(env.now)), env) else old(View(env.now))
    {
      if state != Sending || active != Some(h) {
        return false;
      }
      var link := conn.LinkOf(h);
      again := link.Some? && ackedLink != Some(link.value.1.serial);
      if again {
        CrossFromOrigin(env.now);
      }
    }

    method CrossFromOrigin(now: Time)
      modifies `state, `awaiting, `ackedLink, `pending, `abs, `absSeq, `log
      ensures TaskView() == old(TaskView()).(state := WaitingForAck, awaiting := Some(now + ACK_DEADLINE),
                                             ackedLink := None, pending := None, abs := ORIGIN, absSeq := 0)
      ensures log == old(log) + [Anchored]
    {
      state, awaiting, ackedLink := WaitingForAck, Some(now + ACK_DEADLINE), None;
      pending, abs, absSeq := None, ORIGIN, 0;
      log := log + [Anchored];
    }

    method SendMotionTo(h: Handle, v: Vec, env: Env)
      modifies this, conn, conn.clients
      ensures View(env.now) == SendMotion(old(View(env.now)), h, v, env)
    {
      var f := Input(Motion(v.x, v.y));
      if h in conn.clients.devices && conn.clients.devices[h].state.caps {
        abs := abs.Plus(v);
        absSeq := absSeq + 1;
        f := MotionAbsolute(absSeq, abs.x, abs.y);
      }
      var ok := Send(f, h, env);
      if !ok {
        LeaveActiveClient(env);
      }
    }

    method FlushPendingMotion(env: Env)
      modifies this, conn, conn.clients
      ensures View(env.now) == FlushPending(old(View(env.now)), env)
    {
      if pending.None? {
        return;
      }
      var v := pending.value;
      pending := None;
      if v == ORIGIN || active.None? {
        return;
      }
      var h := active.value;
      var again := CrossAgainIfRelinked(h, env);
      if !again {
        SendMotionTo(h, v, env);
      }
    }

    /** The first capture registered under `h`. */
    method FindCapture(h: Handle) returns (r: Option<Capture>)
      ensures r == FirstCapture(captures, h)
    {
      for i := 0 to |captures|
        invariant FirstCapture(captures, h) == FirstCapture(captures[i..], h)
      {
        assert captures[i..][1..] == captures[i + 1..];
        if captures[i].h == h {
          return Some(captures[i]);
        }
      }
      return None;
    }

    /** The first refusal that applies, in `CannotCross`'s order; `NoLink` starts a
        dial, and nothing else changes. */
    method CannotCrossTo(h: Handle, env: Env) returns (why: Option<Refusal>)
      modifies conn`connecting
      ensures why == CannotCross(old(View(env.now)), h, env)
      ensures View(env.now) == if why == Some(NoLink) then Dial(old(View(env.now)), h) else old(View(env.now))
    {
      var barred := MayNotDrive(h);
      if barred {
        return Some(NotLetDrive);
      }
      var linked := h in conn.clients.devices && conn.clients.devices[h].state.activeAddr.Some?;
      if !linked || h !in conn.clients.answered {
        if !linked {
          conn.StartDial(h);
        }
        return Some(NoLink);
      }
      if !conn.clients.devices[h].state.alive {
        return Some(NotAccepting);
      }
      if h in unanswered && env.now < unanswered[h] + UNANSWERED_BACKOFF {
        return Some(Unanswered);
      }
      return None;
    }

    method MayNotDrive(h: Handle) returns (b: bool)
      ensures b == conn.View().MayNotDriveIt(h)
    {
      var link := conn.LinkOf(h);
      if link.Some? {
        return link.value.1.fp !in conn.trust;
      }
      return h in conn.clients.devices && conn.clients.devices[h].state.pin.Some?
             && conn.clients.devices[h].state.pin.value !in conn.trust;
    }

    /** Whether a lock key's auto-repeat is swallowed; which of them are down. */
    method SwallowsRepeat(ev: Event) returns (repeated: bool)
      modifies this`heldLocks
      ensures repeated == LockRepeat(old(TaskView()), ev)
      ensures heldLocks == LocksAfter(old(TaskView()), ev)
    {
      repeated := false;
      if ev.Got? && ev.e.Key? && ev.e.key in LOCK_KEYS {
        if ev.e.state == 0 {
          heldLocks := heldLocks - {ev.e.key};
        } else {
          repeated := ev.e.key in heldLocks;
          heldLocks := heldLocks + {ev.e.key};
        }
      }
    }

    method EnterHasToWait(h: Handle, ghost now: Time) returns (waits: bool)
      ensures waits == EnterMustWait(View(now), h)
    {
      if awaiting.None? || h !in conn.clients.devices || conn.clients.devices[h].state.activeAddr.None?
         || h in conn.clients.answered {
        return false;
      }
      var barred := MayNotDrive(h);
      return !barred;
    }

    /** What an event comes to once `h` is known to be the active client. */
    method ForwardTo(h: Handle, ev: Event, env: Env)
      modifies this, conn, conn.clients
      ensures View(env.now) == Forward(old(View(env.now)), h, ev, env)
    {
      var repeated := SwallowsRepeat(ev);
      if repeated {
        return;
      }
      var at := FindCapture(h);
      var f := if ev.Begin? || state == WaitingForAck then Enter(Opposite(if at.Some? then at.value.pos else Left))
               else Input(ev.e);
      HandOverOrWait(f, h, env);
    }

    /** Send, unless this is an Enter the peer cannot answer yet. */
    method HandOverOrWait(f: Frame, h: Handle, env: Env)
      modifies this, conn, conn.clients
      ensures var s := old(View(env.now));
              var waits := f.Enter? && EnterMustWait(s, h);
              var ready := s.(t := s.t.(enterWaits := waits));
        View(env.now) == if waits then ready else HandedOver(ready, f, h, env)
    {
      enterWaits := false;
      if f.Enter? {
        enterWaits := EnterHasToWait(h, env.now);
      }
      if !enterWaits {
        HandOver(f, h, env);
      }
    }

    /** The button set follows the frame before the frame is handed over; a frame
        not taken ends the visit with that button among those let go. */
    method HandOver(f: Frame, h: Handle, env: Env)
      modifies this, conn, conn.clients
      ensures View(env.now) == HandedOver(old(View(env.now)), f, h, env)
    {
      if f.Input? && f.e.Button? {
        buttons := if f.e.state == 0 then buttons - {f.e.button} else buttons + {f.e.button};
      }
      var ok := Send(f, h, env);
      if !ok {
        LeaveActiveClient(env);
      }
    }

    method DeliverTo(h: Handle, ev: Event, env: Env)
      modifies this, conn, conn.clients
      ensures View(env.now) == Deliver(old(View(env.now)), h, ev, env)
    {
      if active != Some(h) {
        return;
      }
      if state == Sending && ev.Got? && ev.e.Motion? {
        var v := Vec(ev.e.dx, ev.e.dy);
        log := log + [Moved(v)];
        SendMotionTo(h, v, env);
      } else {
        ForwardTo(h, ev, env);
      }
    }

    method BeginCrossing(h: Handle, env: Env)
      modifies this, conn, conn.clients
      ensures View(env.now) == BeginAt(old(View(env.now)), h, env)
    {
      MoveToOrigin(env.now);
      if active != Some(h) {
        var why := CannotCrossTo(h, env);
        if why.Some? {
          LeaveActiveClient(env);
          return;
        }
        StartCrossing(h, env);
      }
      DeliverTo(h, Begin, env);
    }

    method StartCrossing(h: Handle, env: Env)
      modifies this
      ensures View(env.now) == Start(old(View(env.now)), h, env)
    {
      state, active, awaiting := WaitingForAck, Some(h), Some(env.now + ACK_DEADLINE);
      log := log + [Begun(h)];
    }

    method MoveToOrigin(ghost now: Time)
      modifies this
      ensures View(now) == ToOrigin(old(View(now)))
    {
      abs, absSeq := ORIGIN, 0;
      log := log + [Anchored];
    }

    method HandleCaptureEvent(h: Handle, ev: Event, env: Env)
      modifies this, conn, conn.clients
      ensures View(env.now) == HandleEvent(old(View(env.now)), h, ev, env)
    {
      if releaseBind <= env.pressed {
        LeaveActiveClient(env);
        return;
      }
      var _ := CrossAgainIfRelinked(h, env);
      if coalesce {
        if ev.Got? && ev.e.Motion? && state == Sending && active == Some(h) {
          var v := Vec(ev.e.dx, ev.e.dy);
          pending := Some((if pending.Some? then pending.value else ORIGIN).Plus(v));
          log := log + [Moved(v)];
          return;
        }
        FlushPendingMotion(env);
      }
      var at := FindCapture(h);
      if at.Some? && at.value.ty == EnterOnly {
        return;
      }
      if ev.Begin? {
        BeginCrossing(h, env);
      } else {
        DeliverTo(h, ev, env);
      }
    }

    method HeardAck(h: Handle, link: nat, ghost now: Time)
      modifies this
      ensures View(now) == HearAck(old(View(now)), h, link)
    {
      if active.Some? && active != Some(h) {
        return;
      }
      if active == Some(h) {
        TakeAck(h, link, if h in conn.clients.devices then conn.clients.devices[h].state.activeAddr else None);
      } else {
        state := Sending;
      }
    }

    /** The crossing to `h` is answered, on the link `link` to `at`. */
    method TakeAck(h: Handle, link: nat, at: Option<SocketAddr>)
      modifies this
      ensures TaskView() == old(TaskView()).(state := Sending, awaiting := None, unanswered := old(unanswered) - {h},
                                             ackedAt := if at.Some? then Some((h, at.value)) else None,
                                             ackedLink := Some(link))
      ensures log == old(log) + [Acked(link)]
    {
      state, awaiting, unanswered := Sending, None, unanswered - {h};
      ackedAt := if at.Some? then Some((h, at.value)) else None;
      ackedLink := Some(link);
      log := log + [Acked(link)];
    }

    method SendWaitingEnter(h: Handle, link: nat, env: Env)
      modifies this, conn, conn.clients
      ensures View(env.now) == HearPong(old(View(env.now)), h, link, env)
    {
      if (active.Some? && active != Some(h)) || !enterWaits || active != Some(h) || state != WaitingForAck {
        return;
      }
      var current := conn.LinkOf(h);
      if current.None? || current.value.1.serial != link {
        return;
      }
      enterWaits := false;
      var at := FindCapture(h);
      var ok := Send(Enter(Opposite(if at.Some? then at.value.pos else Left)), h, env);
      if !ok {
        LeaveActiveClient(env);
      }
    }

    method GiveUpOnCrossing(env: Env)
      modifies this, conn, conn.clients
      ensures View(env.now) == GiveUp(old(View(env.now)), env)
    {
      awaiting := None;
      if active.None? {
        return;
      }
      var h := active.value;
      unanswered := unanswered[h := env.now];
      LeaveActiveClient(env);
      log := log + [GaveUp(h, env.now)];
    }

    method DestroyCapture(h: Handle, env: Env)
      modifies this, conn, conn.clients
      ensures View(env.now) == Destroy(old(View(env.now)), h, env)
    {
      if active == Some(h) {
        LeaveActiveClient(env);
      }
      RemoveCapture(h);
      unanswered := unanswered - {h};
      log := log + [Destroyed(h)];
    }

    method RemoveCapture(h: Handle)
      modifies this`captures
      ensures captures == Others(old(captures), h)
    {
      var kept := [];
      for i := 0 to |captures|
        invariant captures == old(captures)
        invariant Others(captures, h) == kept + Others(captures[i..], h)
      {
        OthersFrom(captures, h, i);
        if captures[i].h != h {
          kept := kept + [captures[i]];
        }
      }
      captures := kept;
    }

    method HeardLeave(h: Handle, env: Env)
      modifies this, conn, conn.clients
      ensures View(env.now) == HearLeave(old(View(env.now)), h, env)
    {
      if active.None? || active == Some(h) {
        LeaveActiveClient(env);
      }
    }

    /** One turn of capture's loop. What the world does to the links in
        between is not capture's. */
    method Turn(x: Happening, env: Env)
      requires !x.World?
      modifies this, conn, conn.clients
      ensures View(env.now) == React(old(View(env.now)), x, env)
    {
      match x
      case Captured(h, ev) => HandleCaptureEvent(h, ev, env);
      case HeardAck(h, link) => HeardAck(h, link, env.now);
      case HeardPong(h, link) => SendWaitingEnter(h, link, env);
      case HeardLeave(h) => HeardLeave(h, env);
      case FlushTick => FlushPendingMotion(env);
      case AckTimeout => GiveUpOnCrossing(env);
      case ReleaseAsked => LeaveActiveClient(env);
      case Create(c) => captures := captures + [c];
      case DestroyAsked(h) => DestroyCapture(h, env);
      case DestroyedWhileStopped(h) => RemoveCapture(h);
      case NewReleaseBind(bind) => releaseBind := bind;
      case SessionEnds => LeaveActiveClient(env);
    }
  }
}
