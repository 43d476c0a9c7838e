/** The capture task's crossings: what it does with each captured event, each
    frame it hears and each deadline, as steps over its state, the link table
    and the log of what it handed to its links. */
module Crossing {
  import opened Common
  import opened Registry
  import opened Proto
  import opened Links

  /** Milliseconds. */
  type Time = nat

  const ACK_DEADLINE: Time := 1000
  const UNANSWERED_BACKOFF: Time := 5000

  datatype Vec = Vec(x: real, y: real)
  {
    function Plus(v: Vec): (r: Vec) {
      Vec(x + v.x, y + v.y)
    }
  }

  const ORIGIN := Vec(0.0, 0.0)

  datatype CaptureType = Default | EnterOnly
  datatype CrossState = WaitingForAck | Sending
  datatype Event = Begin | Got(e: InputEvent)
  datatype Capture = Capture(h: Handle, pos: Position, ty: CaptureType)

  datatype Task = Task(
    active: Option<Handle>,
    ackedAt: Option<(Handle, SocketAddr)>,
    ackedLink: Option<nat>,
    awaiting: Option<Time>,
    enterWaits: bool,
    unanswered: map<Handle, Time>,
    captures: seq<Capture>,
    releaseBind: set<nat>,
    state: CrossState,
    heldLocks: set<nat>,
    buttons: set<nat>,
    coalesce: bool,
    pending: Option<Vec>,
    abs: Vec,
    absSeq: nat)

  /** What a step finds: the time, the keys capture holds as pressed, the order
      its hash sets are walked in, and which writes fail (by place in the log). */
  datatype Env = Env(now: Time, pressed: set<nat>, order: set<nat> -> seq<nat>, fails: nat -> bool)

  ghost predicate ValidEnv(env: Env) {
    forall s: set<nat> :: Lists(env.order(s), s)
  }

  datatype Item =
    | Begun(h: Handle)
    | Anchored
    | Acked(link: nat)
    | Moved(v: Vec)
    | Out(h: Handle, f: Frame, on: Option<nat>, at: Time)
    | GaveUp(h: Handle, at: Time)
    | Destroyed(h: Handle)

  datatype Sys = Sys(t: Task, net: Net, log: seq<Item>, clock: Time)

  function Note(s: Sys, i: Item): (r: Sys) {
    s.(log := s.log + [i])
  }

  // -------------------------------------------------------------- sending

  function On(r: SendResult): (on: Option<nat>) {
    if r.Sent? then Some(r.on) else None
  }

  function Give(s: Sys, f: Frame, h: Handle, env: Env): (r: Sys) {
    Note(s.(net := s.net.Send(f, h, env.fails(|s.log|))), Out(h, f, On(s.net.SendAnswer(h)), env.now))
  }

  function GiveTo(s: Sys, f: Frame, h: Handle, addr: SocketAddr, env: Env): (r: Sys) {
    Note(s.(net := s.net.SendTo(f, h, addr, env.fails(|s.log|))), Out(h, f, On(s.net.SendToAnswer(f, addr)), env.now))
  }

  /** To `addr` when there is one, past the device's own state; else by `Give`. */
  function GiveLeaving(s: Sys, f: Frame, h: Handle, addr: Option<SocketAddr>, env: Env): (r: Sys) {
    if addr.Some? then GiveTo(s, f, h, addr.value, env) else Give(s, f, h, env)
  }

  function GiveAll(s: Sys, fs: seq<Frame>, h: Handle, addr: Option<SocketAddr>, env: Env): (r: Sys)
    decreases |fs|
  {
    if fs == [] then s else
      GiveLeaving(GiveAll(s, fs[..|fs| - 1], h, addr, env), fs[|fs| - 1], h, addr, env)
  }

  const NO_MODIFIERS := Input(Modifiers(0, 0, 0, 0))

  function ButtonUps(buttons: seq<nat>): (fs: seq<Frame>)
    ensures |fs| == |buttons|
    ensures forall i :: 0 <= i < |fs| ==> fs[i] == Input(Button(buttons[i], 0))
  {
    seq(|buttons|, i requires 0 <= i < |buttons| => Input(Button(buttons[i], 0)))
  }

  function KeyUps(keys: seq<nat>): (fs: seq<Frame>)
    ensures |fs| == |keys|
    ensures forall i :: 0 <= i < |fs| ==> fs[i] == Input(Key(keys[i], 0))
  {
    seq(|keys|, i requires 0 <= i < |keys| => Input(Key(keys[i], 0)))
  }

  /** An up for each button, an up for each key, no modifiers, and Leave. */
  function EndFrames(buttons: seq<nat>, keys: seq<nat>): (fs: seq<Frame>) {
    ButtonUps(buttons) + KeyUps(keys) + [NO_MODIFIERS, Leave]
  }

  function AckedAddr(t: Task, h: Handle): (r: Option<SocketAddr>) {
    if t.ackedAt.Some? && t.ackedAt.value.0 == h then Some(t.ackedAt.value.1) else None
  }

  function Idle(t: Task): (r: Task) {
    t.(active := None, ackedAt := None, ackedLink := None, awaiting := None, enterWaits := false,
       buttons := {}, pending := None)
  }

  /** Idle, with the ending frames of the visit, if one is under way, given to its
      device after the task's fields are cleared. */
  function LeaveActive(s: Sys, env: Env): (r: Sys) {
    var left := s.(t := Idle(s.t));
    if s.t.active.None? then left else
      GiveAll(left, EndFrames(env.order(s.t.buttons), env.order(env.pressed)),
              s.t.active.value, AckedAddr(s.t, s.t.active.value), env)
  }

  // --------------------------------------------------------------- motion

  predicate Relinked(s: Sys, h: Handle) {
    && s.t.state == Sending && s.t.active == Some(h)
    && s.net.SerialOf(h).Some? && s.t.ackedLink != s.net.SerialOf(h)
  }

  /** Make the crossing again on the link the device is on now. */
  function CrossAgain(s: Sys, env: Env): (r: Sys) {
    Note(s.(t := s.t.(state := WaitingForAck, awaiting := Some(env.now + ACK_DEADLINE), ackedLink := None,
                      pending := None, abs := ORIGIN, absSeq := 0)), Anchored)
  }

  function SendMotion(s: Sys, h: Handle, v: Vec, env: Env): (r: Sys) {
    var absolute := h in s.net.clients.devices && s.net.clients.devices[h].state.caps;
    var to := s.t.abs.Plus(v);
    var told := if absolute then s.(t := s.t.(abs := to, absSeq := s.t.absSeq + 1)) else s;
    var f := if absolute then MotionAbsolute(s.t.absSeq + 1, to.x, to.y) else Input(Motion(v.x, v.y));
    var given := Give(told, f, h, env);
    if s.net.SendAnswer(h).Sent? then given else LeaveActive(given, env)
  }

  function FlushPending(s: Sys, env: Env): (r: Sys) {
    if s.t.pending.None? then s else
      var v := s.t.pending.value;
      var taken := s.(t := s.t.(pending := None));
      if v == ORIGIN || s.t.active.None? then taken
      else if Relinked(taken, s.t.active.value) then CrossAgain(taken, env)
      else SendMotion(taken, s.t.active.value, v, env)
  }

  // --------------------------------------------------------------- events

  function CaptureOf(t: Task, h: Handle): (r: Option<Capture>) {
    FirstCapture(t.captures, h)
  }

  function FirstCapture(cs: seq<Capture>, h: Handle): (r: Option<Capture>) {
    if cs == [] then None else if cs[0].h == h then Some(cs[0]) else FirstCapture(cs[1..], h)
  }

  function PosOf(t: Task, h: Handle): (p: Position) {
    if CaptureOf(t, h).Some? then CaptureOf(t, h).value.pos else Left
  }

  function TypeOf(t: Task, h: Handle): (r: CaptureType) {
    if CaptureOf(t, h).Some? then CaptureOf(t, h).value.ty else Default
  }

  function EnterTo(t: Task, h: Handle): (f: Frame) {
    Enter(Opposite(PosOf(t, h)))
  }

  /** What a Begin can be turned away for. */
  datatype Refusal = NotLetDrive | NoLink | NotAccepting | Unanswered

  function CannotCross(s: Sys, h: Handle, env: Env): (r: Option<Refusal>) {
    if s.net.MayNotDriveIt(h) then Some(NotLetDrive)
    else if s.net.clients.ActiveAddr(h).None? || h !in s.net.clients.answered then Some(NoLink)
    else if !s.net.clients.Alive(h) then Some(NotAccepting)
    else if h in s.t.unanswered && env.now < s.t.unanswered[h] + UNANSWERED_BACKOFF then Some(Unanswered)
    else None
  }

  function Dial(s: Sys, h: Handle): (r: Sys) {
    if s.net.clients.ActiveAddr(h).None? then s.(net := s.net.Dialling(h)) else s
  }

  function ToOrigin(s: Sys): (r: Sys) {
    Note(s.(t := s.t.(abs := ORIGIN, absSeq := 0)), Anchored)
  }

  function Start(s: Sys, h: Handle, env: Env): (r: Sys) {
    Note(s.(t := s.t.(state := WaitingForAck, active := Some(h), awaiting := Some(env.now + ACK_DEADLINE))), Begun(h))
  }

  predicate IsMotion(ev: Event) {
    ev.Got? && ev.e.Motion?
  }

  const LOCK_KEYS: set<nat> := {58, 69, 70}

  predicate LockRepeat(t: Task, ev: Event) {
    ev.Got? && ev.e.Key? && ev.e.key in LOCK_KEYS && ev.e.state != 0 && ev.e.key in t.heldLocks
  }

  function LocksAfter(t: Task, ev: Event): (r: set<nat>) {
    if ev.Got? && ev.e.Key? && ev.e.key in LOCK_KEYS then
      if ev.e.state == 0 then t.heldLocks - {ev.e.key} else t.heldLocks + {ev.e.key}
    else t.heldLocks
  }

  function ButtonsAfter(buttons: set<nat>, f: Frame): (r: set<nat>) {
    match f
    case Input(Button(b, state)) => if state == 0 then buttons - {b} else buttons + {b}
    case _ => buttons
  }

  /** The device shows a link, has answered no ping on it, and may be driven, while
      a deadline is set. */
  predicate EnterMustWait(s: Sys, h: Handle) {
    && s.t.awaiting.Some? && s.net.clients.ActiveAddr(h).Some?
    && h !in s.net.clients.answered && !s.net.MayNotDriveIt(h)
  }

  /** Hand the active client `h` what an event comes to, in the state it is in. */
  function Forward(s: Sys, h: Handle, ev: Event, env: Env): (r: Sys) {
    if LockRepeat(s.t, ev) then s else
      var f := if ev.Begin? || s.t.state == WaitingForAck then EnterTo(s.t, h) else Input(ev.e);
      var locked := s.(t := s.t.(heldLocks := LocksAfter(s.t, ev)));
      if f.Enter? && EnterMustWait(s, h) then locked.(t := locked.t.(enterWaits := true)) else
        var ready := locked.(t := locked.t.(enterWaits := false, buttons := ButtonsAfter(s.t.buttons, f)));
        var given := Give(ready, f, h, env);
        if s.net.SendAnswer(h).Sent? then given else LeaveActive(given, env)
  }

  /** The part of an event that only the active client can hear of. */
  function Deliver(s: Sys, h: Handle, ev: Event, env: Env): (r: Sys) {
    if s.t.active != Some(h) then s
    else if s.t.state == Sending && IsMotion(ev) then
      SendMotion(Note(s, Moved(Vec(ev.e.dx, ev.e.dy))), h, Vec(ev.e.dx, ev.e.dy), env)
    else Forward(s, h, ev, env)
  }

  function BeginAt(s: Sys, h: Handle, env: Env): (r: Sys) {
    var a := ToOrigin(s);
    if s.t.active == Some(h) then Deliver(a, h, Begin, env)
    else if CannotCross(s, h, env).Some? then
      LeaveActive(if CannotCross(s, h, env) == Some(NoLink) then Dial(a, h) else a, env)
    else Deliver(Start(a, h, env), h, Begin, env)
  }

  function HandleEvent(s: Sys, h: Handle, ev: Event, env: Env): (r: Sys) {
    if s.t.releaseBind <= env.pressed then LeaveActive(s, env) else
      var s1 := if Relinked(s, h) then CrossAgain(s, env) else s;
      if s1.t.coalesce && IsMotion(ev) && s1.t.state == Sending && s1.t.active == Some(h) then
        var v := Vec(ev.e.dx, ev.e.dy);
        var p := if s1.t.pending.Some? then s1.t.pending.value else ORIGIN;
        Note(s1.(t := s1.t.(pending := Some(p.Plus(v)))), Moved(v))
      else
        var s2 := if s1.t.coalesce then FlushPending(s1, env) else s1;
        if TypeOf(s2.t, h) == EnterOnly then s2
        else if ev.Begin? then BeginAt(s2, h, env)
        else Deliver(s2, h, ev, env)
  }

  // ------------------------------------------------------- what it hears

  predicate Heeds(t: Task, h: Handle) {
    t.active.None? || t.active == Some(h)
  }

  function HearAck(s: Sys, h: Handle, link: nat): (r: Sys) {
    if !Heeds(s.t, h) then s else
      var sending := s.(t := s.t.(state := Sending));
      if s.t.active != Some(h) then sending else
        var at := s.net.clients.ActiveAddr(h);
        Note(sending.(t := sending.t.(awaiting := None, unanswered := s.t.unanswered - {h},
                                      ackedAt := if at.Some? then Some((h, at.value)) else None,
                                      ackedLink := Some(link))), Acked(link))
  }

  /** A Pong: it lets a waiting Enter go, if it came on the device's own link. */
  function HearPong(s: Sys, h: Handle, link: nat, env: Env): (r: Sys) {
    if !Heeds(s.t, h) || !s.t.enterWaits || s.t.active != Some(h) || s.t.state != WaitingForAck
       || s.net.SerialOf(h) != Some(link) then s
    else
      var given := Give(s.(t := s.t.(enterWaits := false)), EnterTo(s.t, h), h, env);
      if s.net.SendAnswer(h).Sent? then given else LeaveActive(given, env)
  }

  function HearLeave(s: Sys, h: Handle, env: Env): (r: Sys) {
    if Heeds(s.t, h) then LeaveActive(s, env) else s
  }

  function GiveUp(s: Sys, env: Env): (r: Sys) {
    if s.t.active.None? then s.(t := s.t.(awaiting := None)) else
      var h := s.t.active.value;
      Note(LeaveActive(s.(t := s.t.(awaiting := None, unanswered := s.t.unanswered[h := env.now])), env),
           GaveUp(h, env.now))
  }

  function Others(cs: seq<Capture>, h: Handle): (r: seq<Capture>) {
    if cs == [] then [] else (if cs[0].h == h then [] else [cs[0]]) + Others(cs[1..], h)
  }

  function Destroy(s: Sys, h: Handle, env: Env): (r: Sys) {
    var left := if s.t.active == Some(h) then LeaveActive(s, env) else s;
    Note(left.(t := left.t.(captures := Others(left.t.captures, h), unanswered := left.t.unanswered - {h})), Destroyed(h))
  }

  datatype Happening =
    | Captured(h: Handle, ev: Event)
    | HeardAck(h: Handle, link: nat)
    | HeardPong(h: Handle, link: nat)
    | HeardLeave(h: Handle)
    | FlushTick
    | AckTimeout
    | ReleaseAsked
    | Create(c: Capture)
    | DestroyAsked(h: Handle)
    | DestroyedWhileStopped(h: Handle)
    | NewReleaseBind(bind: set<nat>)
    | SessionEnds
    /** Anything at all happens to the links and the devices. */
    | World(net: Net)

  /** A timer fires only when its deadline is set and past. */
  ghost predicate Enabled(s: Sys, x: Happening, env: Env) {
    && ValidEnv(env) && s.clock <= env.now
    && (x.AckTimeout? ==> s.t.awaiting.Some? && s.t.awaiting.value <= env.now)
    && (x.FlushTick? ==> s.t.coalesce && s.t.pending.Some?)
    && (x.DestroyedWhileStopped? ==> s.t.active.None?)
  }

  function React(s: Sys, x: Happening, env: Env): (r: Sys) {
    match x
    case Captured(h, ev) => HandleEvent(s, h, ev, env)
    case HeardAck(h, link) => HearAck(s, h, link)
    case HeardPong(h, link) => HearPong(s, h, link, env)
    case HeardLeave(h) => HearLeave(s, h, env)
    case FlushTick => FlushPending(s, env)
    case AckTimeout => GiveUp(s, env)
    case ReleaseAsked => LeaveActive(s, env)
    case Create(c) => s.(t := s.t.(captures := s.t.captures + [c]))
    case DestroyAsked(h) => Destroy(s, h, env)
    case DestroyedWhileStopped(h) => s.(t := s.t.(captures := Others(s.t.captures, h)))
    case NewReleaseBind(bind) => s.(t := s.t.(releaseBind := bind))
    case SessionEnds => LeaveActive(s, env)
    case World(net) => s.(net := net)
  }

  function Advance(s: Sys, x: Happening, env: Env): (r: Sys) {
    React(s.(clock := env.now), x, env)
  }

  function Initial(coalesce: bool, bind: set<nat>, net: Net, now: Time): (s: Sys) {
    Sys(Task(None, None, None, None, false, map[], [], bind, WaitingForAck, {}, {}, coalesce, None, ORIGIN, 0),
        net, [], now)
  }
}
