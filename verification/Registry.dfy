/** The registry of devices: a map from handles, a counter the next handle comes
    from, and three side tables.

    Fingerprints are in canonical form throughout, so comparing two of them
    ignoring case and comparing them exactly are the same question. */
module Registry {
  import opened Common
  import opened Identity

  type Handle = nat
  type Ip = nat
  type Fingerprint = string

  const DEFAULT_PORT: nat := 4722

  datatype SocketAddr = SocketAddr(ip: Ip, port: nat)
  datatype Position = Left | Right | Top | Bottom
  datatype Geometry = Geometry(x: int, y: int, w: int, h: int)

  /** What a person chose for a device. */
  datatype Config = Config(
    name: Option<string>, hostname: Option<string>, fixIps: seq<Ip>, port: nat,
    pos: Position, cmd: Option<string>, geometry: Option<Geometry>)

  /** What the daemon knows about it. */
  datatype State = State(
    active: bool, activeAddr: Option<SocketAddr>, alive: bool, dnsIps: seq<Ip>, ips: set<Ip>,
    caps: bool, pin: Option<Fingerprint>, removedByPeer: bool, dialsUs: bool)

  datatype Device = Device(config: Config, state: State)
  {
    function Unpinned(fp: Fingerprint): (d: Device) {
      if state.pin == Some(fp) then this.(state := state.(pin := None)) else this
    }
  }

  /** A device as its entry in the config file reads. */
  datatype Entry = Entry(
    name: Option<string>, ips: set<Ip>, hostname: Option<string>, port: nat, pos: Position,
    active: bool, hook: Option<string>, fingerprint: Option<Fingerprint>, geometry: Option<Geometry>)

  const NEW_DEVICE := Device(
    Config(None, None, [], DEFAULT_PORT, Left, None, None),
    State(false, None, false, [], {}, false, None, false, false))

  function Elements(q: seq<Ip>): (s: set<Ip>) {
    set x | x in q
  }

  /** The entry a save writes for a device, and a reload compares. */
  function ConfigEntry(d: Device): (e: Entry) {
    Entry(d.config.name, Elements(d.config.fixIps), d.config.hostname, d.config.port, d.config.pos,
          d.state.active, d.config.cmd, d.state.pin, d.config.geometry)
  }

  /** The device an entry is started as. */
  function FromEntry(e: Entry): (d: Device)
    ensures ConfigEntry(d) == e
  {
    var fixed := Ascending(e.ips);
    assert Elements(fixed) == e.ips;
    Device(
      Config(e.name, e.hostname, fixed, e.port, e.pos, e.hook, e.geometry),
      State(e.active, None, false, [], e.ips, false, e.fingerprint, false,
            e.hostname.None? && fixed == [] && e.fingerprint.Some?))
  }

  datatype PinResult = Pinned(isNew: bool) | Dialled(other: Handle) | PinnedElsewhere(pin: Fingerprint)

  datatype Clients = Clients(
    next: Handle,
    devices: map<Handle, Device>,
    answered: set<Handle>,
    refusedAs: map<Handle, Fingerprint>,
    answeredAs: map<Handle, (SocketAddr, Fingerprint)>)
  {
    /** What every operation keeps: handles still to come are unused, and the
        side tables name only devices that exist. */
    ghost predicate Valid() {
      && (forall h :: h in devices ==> h < next)
      && answered <= devices.Keys
      && refusedAs.Keys <= devices.Keys
      && answeredAs.Keys <= devices.Keys
      && forall h :: h in devices && devices[h].state.pin.Some? ==> ValidFingerprint(devices[h].state.pin.value)
    }

    function PinOf(h: Handle): (r: Option<Fingerprint>) {
      if h in devices then devices[h].state.pin else None
    }

    function ActiveAddr(h: Handle): (r: Option<SocketAddr>) {
      if h in devices then devices[h].state.activeAddr else None
    }

    predicate IsOn(h: Handle) {
      h in devices && devices[h].state.active
    }

    predicate Alive(h: Handle) {
      h in devices && devices[h].state.alive
    }

    /** `addr` is one of `h`'s addresses at its port. */
    predicate Targets(h: Handle, addr: SocketAddr) {
      h in devices && devices[h].config.port == addr.port && addr.ip in devices[h].state.ips
    }

    function PinnedTo(fp: Fingerprint): (s: set<Handle>) {
      set h | h in devices && devices[h].state.pin == Some(fp)
    }

    function HandlesAt(addr: SocketAddr): (s: set<Handle>) {
      set h | h in devices && devices[h].state.activeAddr == Some(addr)
    }

    /** Unpinned devices recorded as having read `fp` at an address that is still
        one of theirs. */
    function Reached(fp: Fingerprint): (s: set<Handle>) {
      set h | h in answeredAs && answeredAs[h].1 == fp && PinOf(h).None? && Targets(h, answeredAs[h].0)
    }

    /** No device that is off is pinned to `fp`, and the one dialled for, if any, is
        on. */
    predicate SwitchAllowsClipboard(fp: Fingerprint, dialledFor: Option<Handle>) {
      && (dialledFor.Some? ==> IsOn(dialledFor.value))
      && !exists h :: h in devices && !devices[h].state.active && devices[h].state.pin == Some(fp)
    }

    function With(h: Handle, d: Device): (c: Clients) {
      if h in devices then this.(devices := devices[h := d]) else this
    }

    function Insert(d: Device): (c: Clients) {
      this.(next := next + 1, devices := devices[next := d])
    }

    function Remove(h: Handle): (c: Clients) {
      this.(devices := devices - {h}, answered := answered - {h}, refusedAs := refusedAs - {h},
            answeredAs := answeredAs - {h})
    }

    /** What pinning `h` to the machine that proved `fp` answers. */
    function PinAnswer(h: Handle, fp: Fingerprint): (r: PinResult) {
      if PinOf(h).Some? && PinOf(h).value != fp then PinnedElsewhere(PinOf(h).value)
      else if PinnedTo(fp) != {} && Least(PinnedTo(fp)) != h then Dialled(Least(PinnedTo(fp)))
      else Pinned(h in devices && PinOf(h) != Some(fp))
    }

    function Pin(h: Handle, fp: Fingerprint): (c: Clients) {
      match PinAnswer(h, fp)
      case PinnedElsewhere(_) => this
      case Dialled(_) => if h in devices then this.(refusedAs := refusedAs[h := fp]) else this
      case Pinned(_) =>
        var c := this.(refusedAs := refusedAs - {h}, answeredAs := answeredAs - {h});
        if h in devices then c.With(h, devices[h].(state := devices[h].state.(pin := Some(fp)))) else c
    }

    function SetAnsweredAs(h: Handle, read: Option<(SocketAddr, Fingerprint)>): (c: Clients) {
      if read.Some? && h in devices then this.(answeredAs := answeredAs[h := read.value])
      else this.(answeredAs := answeredAs - {h})
    }

    /** The least device pinned to `fp`, as not new; else the least that reached it,
        if it can be pinned, as new; else none. */
    function ClaimAnswer(fp: Fingerprint): (r: Option<(Handle, bool)>) {
      if PinnedTo(fp) != {} then Some((Least(PinnedTo(fp)), false))
      else if Reached(fp) != {} && PinAnswer(Least(Reached(fp)), fp).Pinned? then
        Some((Least(Reached(fp)), PinAnswer(Least(Reached(fp)), fp).isNew))
      else None
    }

    function Claim(fp: Fingerprint): (c: Clients) {
      if PinnedTo(fp) == {} && Reached(fp) != {} then Pin(Least(Reached(fp)), fp) else this
    }

    function ClearPins(fp: Fingerprint): (c: Clients) {
      this.(devices := map h | h in devices :: devices[h].Unpinned(fp))
    }
  }

  const EMPTY := Clients(0, map[], {}, map[], map[])

  /** One request to the registry. */
  datatype Op =
    | Add
    | AddWithConfig(entry: Entry)
    | Remove(h: Handle)
    | SetActive(h: Handle, on: bool)
    | SetFixIps(h: Handle, fixIps: seq<Ip>)
    | SetDnsIps(h: Handle, dnsIps: seq<Ip>)
    | SetHostname(h: Handle, hostname: Option<string>)
    | SetName(h: Handle, name: Option<string>)
    | SetPort(h: Handle, port: nat)
    | SetActiveAddr(h: Handle, addr: Option<SocketAddr>)
    | SetAlive(h: Handle, alive: bool)
    | AnsweredPing(h: Handle, alive: bool)
    | SetCaps(h: Handle, caps: bool)
    | SetRemovedByPeer(h: Handle, removed: bool)
    | SetDialsUs(h: Handle, dialsUs: bool)
    | Pin(h: Handle, fp: Fingerprint)
    | SetAnsweredAs(h: Handle, read: Option<(SocketAddr, Fingerprint)>)
    | Claim(fp: Fingerprint)
    | ClearPins(fp: Fingerprint)
  {
    /** The fingerprints a request brings in are ones a certificate, or a
        checked config value, was read as. */
    ghost predicate Wellformed() {
      && (AddWithConfig? && entry.fingerprint.Some? ==> ValidFingerprint(entry.fingerprint.value))
      && (Pin? || Claim? || ClearPins? ==> ValidFingerprint(fp))
    }

    /** The handle this request writes through, if it names one. */
    function Through(): (r: Option<Handle>) {
      if Add? || AddWithConfig? || Claim? || ClearPins? then None else Some(h)
    }

    /** Whether this request only edits the device it names. */
    predicate IsEdit() {
      Through().Some? && !Remove? && !Pin? && !SetAnsweredAs?
    }
  }

  /** The addresses a device is dialled at: the ones given and the ones found. */
  function Resolved(d: Device): (r: Device) {
    d.(state := d.state.(ips := Elements(d.config.fixIps) + Elements(d.state.dnsIps)))
  }

  function OnPort(addr: Option<SocketAddr>, port: nat): (r: Option<SocketAddr>) {
    match addr
    case None => None
    case Some(a) => Some(SocketAddr(a.ip, port))
  }

  /** The device an edit leaves. */
  function Edited(d: Device, op: Op): (r: Device)
    requires op.IsEdit()
  {
    match op
    case SetActive(_, on) => d.(state := d.state.(active := on))
    case SetFixIps(_, ips) => Resolved(d.(config := d.config.(fixIps := ips)))
    case SetDnsIps(_, ips) => Resolved(d.(state := d.state.(dnsIps := ips)))
    case SetHostname(_, n) =>
      if d.config.hostname == n then d else
        Resolved(Device(d.config.(hostname := n), d.state.(activeAddr := None, dnsIps := [])))
    case SetName(_, n) => d.(config := d.config.(name := StoredLabel(n)))
    case SetPort(_, p) =>
      if d.config.port == p then d else
        Device(d.config.(port := p), d.state.(activeAddr := OnPort(d.state.activeAddr, p)))
    case SetActiveAddr(_, a) => d.(state := d.state.(activeAddr := a))
    case SetAlive(_, a) => d.(state := d.state.(alive := a))
    case AnsweredPing(_, a) => d.(state := d.state.(alive := a))
    case SetCaps(_, k) => d.(state := d.state.(caps := k))
    case SetRemovedByPeer(_, r) => d.(state := d.state.(removedByPeer := r))
    case SetDialsUs(_, u) => d.(state := d.state.(dialsUs := u))
  }

  /** Whether an edit points the device elsewhere, which forgets what its own
      dial was refused as. */
  predicate PointsElsewhere(d: Device, op: Op) {
    || (op.SetFixIps? && d.config.fixIps != op.fixIps)
    || (op.SetHostname? && d.config.hostname != op.hostname)
  }

  /** The answered set after an edit: cleared with the address, set by a ping. */
  function AnsweredAfter(c: Clients, op: Op): (s: set<Handle>)
    requires op.IsEdit()
  {
    if op.SetActiveAddr? && op.addr.None? then c.answered - {op.h}
    else if op.AnsweredPing? && op.h in c.devices then c.answered + {op.h}
    else c.answered
  }

  function Edit(c: Clients, op: Op): (r: Clients)
    requires op.IsEdit()
  {
    var told := c.(answered := AnsweredAfter(c, op));
    if op.h !in c.devices then told else
      var d := c.devices[op.h];
      told.(devices := c.devices[op.h := Edited(d, op)],
            refusedAs := if PointsElsewhere(d, op) then c.refusedAs - {op.h} else c.refusedAs)
  }

  function Apply(c: Clients, op: Op): (r: Clients) {
    match op
    case Add => c.Insert(NEW_DEVICE)
    case AddWithConfig(e) => c.Insert(FromEntry(e))
    case Remove(h) => c.Remove(h)
    case Pin(h, fp) => c.Pin(h, fp)
    case SetAnsweredAs(h, r) => c.SetAnsweredAs(h, r)
    case Claim(fp) => c.Claim(fp)
    case ClearPins(fp) => c.ClearPins(fp)
    case _ => Edit(c, op)
  }

  function Run(c: Clients, ops: seq<Op>): (r: Clients)
    decreases |ops|
  {
    if ops == [] then c else Run(Apply(c, ops[0]), ops[1..])
  }

  ghost predicate AllWellformed(ops: seq<Op>) {
    forall i :: 0 <= i < |ops| ==> ops[i].Wellformed()
  }

  /** Clipboard text may go to and come from a machine exactly when the device its link
      was made for is on, if there is one, and so is every device pinned to it. */
  lemma ClipboardNeedsEverySwitch(c: Clients, fp: Fingerprint, dialledFor: Option<Handle>)
    ensures c.SwitchAllowsClipboard(fp, dialledFor) <==>
      && (dialledFor.Some? ==> dialledFor.value in c.devices && c.devices[dialledFor.value].state.active)
      && forall h :: h in c.devices && c.devices[h].state.pin == Some(fp) ==> c.devices[h].state.active
  {
  }

  /** An edit leaves the device's pin alone, and its switch unless that is
      what it edits. */
  lemma EditKeepsPin(d: Device, op: Op)
    requires op.IsEdit()
    ensures Edited(d, op).state.pin == d.state.pin
    ensures !op.SetActive? ==> Edited(d, op).state.active == d.state.active
  {
  }

  /** An entry lists what a person chose, the switch and the pin, whatever else is
      known of the device: of its addresses, those given for it and no other. */
  lemma EntryIsWhatWasChosen(d: Device)
    ensures var e := ConfigEntry(d);
      && (forall ip :: ip in e.ips <==> ip in d.config.fixIps)
      && e.name == d.config.name && e.hostname == d.config.hostname && e.port == d.config.port
      && e.pos == d.config.pos && e.hook == d.config.cmd && e.geometry == d.config.geometry
      && e.active == d.state.active && e.fingerprint == d.state.pin
  {
  }

  /** A request of what the daemon learns of itself: lookups, links, pings and what
      peers say. */
  predicate IsLearned(op: Op) {
    || op.SetDnsIps? || op.SetActiveAddr? || op.SetAlive? || op.AnsweredPing? || op.SetCaps?
    || op.SetRemovedByPeer? || op.SetDialsUs? || op.SetAnsweredAs?
  }

  /** What an edit makes of a device's entry: the one key that a person edits, and
      nothing for what is learned. */
  lemma EditedEntry(d: Device, op: Op)
    requires op.IsEdit()
    ensures ConfigEntry(Edited(d, op)) ==
      match op
      case SetActive(_, on) => ConfigEntry(d).(active := on)
      case SetFixIps(_, ips) => ConfigEntry(d).(ips := set ip | ip in ips)
      case SetHostname(_, n) => ConfigEntry(d).(hostname := n)
      case SetName(_, n) => ConfigEntry(d).(name := StoredLabel(n))
      case SetPort(_, p) => ConfigEntry(d).(port := p)
      case _ => ConfigEntry(d)
  {
  }

  /** What an edit makes of all the daemon knows of a device: the one thing it sets; and,
      with another name to look up, nothing found under the old one and no link shown;
      with another port, the link shown at that; and with other addresses, those dialled. */
  lemma EditedState(d: Device, op: Op)
    requires op.IsEdit()
    ensures var r := Edited(d, op);
      match op
      case SetActive(_, on) => r.state == d.state.(active := on)
      case SetFixIps(_, ips) => r.state == d.state.(ips := r.state.ips) && forall ip :: ip in r.state.ips <==> ip in ips || ip in d.state.dnsIps
      case SetDnsIps(_, ips) => r.state == d.state.(dnsIps := ips, ips := r.state.ips) && forall ip :: ip in r.state.ips <==> ip in d.config.fixIps || ip in ips
      case SetHostname(_, n) =>
        if n == d.config.hostname then r == d
        else r.state == d.state.(activeAddr := None, dnsIps := [], ips := r.state.ips) && forall ip :: ip in r.state.ips <==> ip in d.config.fixIps
      case SetPort(_, p) =>
        if d.state.activeAddr.None? then r.state == d.state
        else p != d.config.port ==> r.state == d.state.(activeAddr := Some(SocketAddr(d.state.activeAddr.value.ip, p)))
      case SetName(_, _) => r.state == d.state
      case SetActiveAddr(_, addr) => r.state == d.state.(activeAddr := addr)
      case SetAlive(_, alive) => r.state == d.state.(alive := alive)
      case AnsweredPing(_, alive) => r.state == d.state.(alive := alive)
      case SetCaps(_, caps) => r.state == d.state.(caps := caps)
      case SetRemovedByPeer(_, removed) => r.state == d.state.(removedByPeer := removed)
      case SetDialsUs(_, dialsUs) => r.state == d.state.(dialsUs := dialsUs)
  {
  }

  /** What an edit leaves on record beside the device: that it answered goes with its
      link's address and comes with a ping; what its dial was refused as goes once it is
      pointed elsewhere, by other addresses or another name; and no other device, and
      nothing else, changes. */
  lemma EditedRecords(c: Clients, op: Op)
    requires op.IsEdit() && op.h in c.devices
    ensures var r, d := Apply(c, op), c.devices[op.h];
      && r.devices == c.devices[op.h := Edited(d, op)] && r.next == c.next && r.answeredAs == c.answeredAs
      && (forall h :: h in r.answered <==>
            if h == op.h && op.AnsweredPing? then true
            else if h == op.h && op.SetActiveAddr? && op.addr.None? then false
            else h in c.answered)
      && (forall h :: h in r.refusedAs <==>
            h in c.refusedAs && !(h == op.h && ((op.SetFixIps? && op.fixIps != d.config.fixIps)
                                                || (op.SetHostname? && op.hostname != d.config.hostname))))
      && (forall h :: h in r.refusedAs ==> r.refusedAs[h] == c.refusedAs[h])
  {
  }

  /** Removing a device removes it and every record of it, and nothing else. */
  lemma RemovedLeavesNoTrace(c: Clients, h: Handle)
    ensures var r := Apply(c, Op.Remove(h));
      && h !in r.devices && h !in r.answered && h !in r.refusedAs && h !in r.answeredAs && r.next == c.next
      && (forall x :: x != h ==>
            && (x in r.devices <==> x in c.devices) && (x in c.devices ==> r.devices[x] == c.devices[x])
            && (x in r.answered <==> x in c.answered)
            && (x in r.refusedAs <==> x in c.refusedAs) && (x in c.refusedAs ==> r.refusedAs[x] == c.refusedAs[x])
            && (x in r.answeredAs <==> x in c.answeredAs) && (x in c.answeredAs ==> r.answeredAs[x] == c.answeredAs[x]))
  {
  }

  /** `h` is the first of the devices pinned to the machine. */
  predicate FirstPinned(c: Clients, fp: Fingerprint, h: Handle) {
    && h in c.devices && c.devices[h].state.pin == Some(fp)
    && forall x :: x in c.devices && c.devices[x].state.pin == Some(fp) ==> h <= x
  }

  /** What pinning a device comes to: refused if it is pinned to another machine; noted
      as refused, with that machine, if another device is the machine's; and else pinned,
      newly or again, with nothing on record of refusals. No other device changes. */
  lemma PinExactly(c: Clients, h: Handle, fp: Fingerprint)
    requires h in c.devices
    ensures var r, pin := Apply(c, Op.Pin(h, fp)), c.devices[h].state.pin;
      && (pin.Some? && pin.value != fp ==> c.PinAnswer(h, fp) == PinnedElsewhere(pin.value) && r == c)
      && (forall x: Handle :: pin in {None, Some(fp)} && FirstPinned(c, fp, x) && x != h ==>
            c.PinAnswer(h, fp) == Dialled(x) && r == c.(refusedAs := c.refusedAs[h := fp]))
      && (pin in {None, Some(fp)} && (forall x: Handle :: FirstPinned(c, fp, x) ==> x == h) ==>
            && c.PinAnswer(h, fp) == Pinned(pin.None?)
            && r.devices == c.devices[h := c.devices[h].(state := c.devices[h].state.(pin := Some(fp)))]
            && r.refusedAs == c.refusedAs - {h} && r.answeredAs == c.answeredAs - {h}
            && r.answered == c.answered && r.next == c.next)
  {
    LeastIsFirst(c, fp);
  }

  lemma LeastIsFirst(c: Clients, fp: Fingerprint)
    ensures c.PinnedTo(fp) != {} ==> FirstPinned(c, fp, Least(c.PinnedTo(fp)))
    ensures forall h: Handle :: FirstPinned(c, fp, h) ==> c.PinnedTo(fp) != {} && Least(c.PinnedTo(fp)) == h
  {
    forall x ensures x in c.PinnedTo(fp) <==> x in c.devices && c.devices[x].state.pin == Some(fp) {
    }
    forall h: Handle | FirstPinned(c, fp, h) ensures c.PinnedTo(fp) != {} && Least(c.PinnedTo(fp)) == h {
      assert h in c.PinnedTo(fp);
    }
  }

  /** The device, pinned to none, is on record as having reached the machine at an
      address it still has. */
  predicate HasReached(c: Clients, fp: Fingerprint, h: Handle) {
    && h in c.answeredAs && c.answeredAs[h].1 == fp
    && h in c.devices && c.devices[h].state.pin.None?
    && c.devices[h].config.port == c.answeredAs[h].0.port && c.answeredAs[h].0.ip in c.devices[h].state.ips
  }

  predicate FirstReached(c: Clients, fp: Fingerprint, h: Handle) {
    HasReached(c, fp, h) && forall x :: HasReached(c, fp, x) ==> h <= x
  }

  /** Which device a machine that dials in is taken for: the first pinned to it; else the
      first that reached it, which is then pinned to it; else none. */
  lemma ClaimExactly(c: Clients, fp: Fingerprint)
    ensures var r := Apply(c, Op.Claim(fp));
      && (forall h: Handle :: FirstPinned(c, fp, h) ==> c.ClaimAnswer(fp) == Some((h, false)) && r == c)
      && ((forall h: Handle :: !FirstPinned(c, fp, h)) ==>
            && (forall h: Handle :: FirstReached(c, fp, h) ==> c.ClaimAnswer(fp) == Some((h, true)) && r == Apply(c, Op.Pin(h, fp)))
            && ((forall h: Handle :: !FirstReached(c, fp, h)) ==> c.ClaimAnswer(fp).None? && r == c))
  {
    LeastIsFirst(c, fp);
    LeastReachedIsFirst(c, fp);
    if c.PinnedTo(fp) == {} && c.Reached(fp) != {} {
      PinExactly(c, Least(c.Reached(fp)), fp);
    }
  }

  lemma LeastReachedIsFirst(c: Clients, fp: Fingerprint)
    ensures c.Reached(fp) != {} ==> FirstReached(c, fp, Least(c.Reached(fp)))
    ensures forall h: Handle :: FirstReached(c, fp, h) ==> c.Reached(fp) != {} && Least(c.Reached(fp)) == h
  {
    forall h: Handle ensures h in c.Reached(fp) <==> HasReached(c, fp, h) {
    }
    forall h: Handle | FirstReached(c, fp, h) ensures c.Reached(fp) != {} && Least(c.Reached(fp)) == h {
      assert h in c.Reached(fp);
    }
  }

  /** Revoking a machine unpins every device of it, and does nothing else. */
  lemma ClearPinsExactly(c: Clients, fp: Fingerprint)
    ensures var r := Apply(c, Op.ClearPins(fp));
      && r == c.(devices := r.devices) && r.devices.Keys == c.devices.Keys
      && forall h :: h in c.devices ==>
           r.devices[h] == if c.devices[h].state.pin == Some(fp) then c.devices[h].(state := c.devices[h].state.(pin := None)) else c.devices[h]
  {
  }

  /** What a dial read is kept for a device that is there, and forgotten otherwise. */
  lemma AnsweredAsExactly(c: Clients, h: Handle, read: Option<(SocketAddr, Fingerprint)>)
    ensures var r := Apply(c, Op.SetAnsweredAs(h, read));
      && r == c.(answeredAs := r.answeredAs)
      && (h in r.answeredAs <==> read.Some? && h in c.devices) && (h in r.answeredAs ==> r.answeredAs[h] == read.value)
      && forall x :: x != h ==> (x in r.answeredAs <==> x in c.answeredAs) && (x in c.answeredAs ==> r.answeredAs[x] == c.answeredAs[x])
  {
  }

  /** A device started from an entry shows no link, has found no address and answered
      nothing; and takes its machine to dial this one exactly when it is pinned and there
      is no name and no address to dial it at. */
  lemma AddedDevice(c: Clients, e: Entry)
    ensures var r := Apply(c, AddWithConfig(e));
      && r.next == c.next + 1 && r == c.(next := r.next, devices := c.devices[c.next := FromEntry(e)])
      && var d := FromEntry(e).state;
      && d.activeAddr.None? && !d.alive && !d.caps && d.dnsIps == [] && !d.removedByPeer && d.ips == e.ips
      && (d.dialsUs <==> e.fingerprint.Some? && e.hostname.None? && e.ips == {})
  {
    assert (Ascending(e.ips) == []) <==> e.ips == {};
  }

  lemma ApplyKeepsValid(c: Clients, op: Op)
    requires c.Valid() && op.Wellformed()
    ensures Apply(c, op).Valid()
    ensures c.next <= Apply(c, op).next
  {
    if op.IsEdit() {
      EditKeepsValid(c, op);
    } else if op.Pin? {
      PinKeepsValid(c, op.h, op.fp);
    } else if op.Claim? && c.PinnedTo(op.fp) == {} && c.Reached(op.fp) != {} {
      PinKeepsValid(c, Least(c.Reached(op.fp)), op.fp);
    }
  }

  lemma EditKeepsValid(c: Clients, op: Op)
    requires c.Valid() && op.IsEdit()
    ensures Edit(c, op).Valid() && Edit(c, op).next == c.next
  {
    if op.h in c.devices {
      EditKeepsPin(c.devices[op.h], op);
    }
  }

  lemma PinKeepsValid(c: Clients, h: Handle, fp: Fingerprint)
    requires c.Valid() && ValidFingerprint(fp)
    ensures c.Pin(h, fp).Valid() && c.Pin(h, fp).next == c.next
  {
  }

  /** Every run of requests keeps the registry valid, and never takes a
      handle back into circulation. */
  lemma {:induction false} RunKeepsValid(c: Clients, ops: seq<Op>)
    requires c.Valid() && AllWellformed(ops)
    ensures Run(c, ops).Valid()
    ensures c.next <= Run(c, ops).next
    decreases |ops|
  {
    if ops != [] {
      ApplyKeepsValid(c, ops[0]);
      RunKeepsValid(Apply(c, ops[0]), ops[1..]);
    }
  }

  /** A device is dialled at exactly the addresses given for it and found for it. */
  predicate KnowsItsAddresses(d: Device) {
    d.state.ips == Elements(d.config.fixIps) + Elements(d.state.dnsIps)
  }

  ghost predicate AddressesKnown(c: Clients) {
    forall h :: h in c.devices ==> KnowsItsAddresses(c.devices[h])
  }

  lemma EditKeepsAddresses(d: Device, op: Op)
    requires op.IsEdit() && KnowsItsAddresses(d)
    ensures KnowsItsAddresses(Edited(d, op))
  {
  }

  lemma EntryKnowsItsAddresses(e: Entry)
    ensures KnowsItsAddresses(FromEntry(e))
  {
    assert Elements(Ascending(e.ips)) == e.ips;
  }

  lemma PinKeepsAddresses(c: Clients, h: Handle, fp: Fingerprint)
    requires AddressesKnown(c)
    ensures AddressesKnown(c.Pin(h, fp))
  {
  }

  lemma ApplyKeepsAddresses(c: Clients, op: Op)
    requires AddressesKnown(c)
    ensures AddressesKnown(Apply(c, op))
  {
    if op.IsEdit() {
      if op.h in c.devices {
        EditKeepsAddresses(c.devices[op.h], op);
      }
    } else if op.Pin? {
      PinKeepsAddresses(c, op.h, op.fp);
    } else if op.Claim? && c.PinnedTo(op.fp) == {} && c.Reached(op.fp) != {} {
      PinKeepsAddresses(c, Least(c.Reached(op.fp)), op.fp);
    } else if !op.Claim? {
      OthersKeepAddresses(c, op);
    }
  }

  lemma OthersKeepAddresses(c: Clients, op: Op)
    requires AddressesKnown(c) && !op.IsEdit() && !op.Pin? && !op.Claim?
    ensures AddressesKnown(Apply(c, op))
  {
    if op.AddWithConfig? {
      EntryKnowsItsAddresses(op.entry);
    } else if op.ClearPins? {
      ClearingKeepsAddresses(c, op.fp);
    }
  }

  lemma ClearingKeepsAddresses(c: Clients, fp: Fingerprint)
    requires AddressesKnown(c)
    ensures AddressesKnown(c.ClearPins(fp))
  {
    forall h | h in c.devices ensures KnowsItsAddresses(c.ClearPins(fp).devices[h]) {
      assert KnowsItsAddresses(c.devices[h]);
    }
  }

  /** Whatever is asked, in whatever order: no address a person took away, or a
      lookup no longer finds, is dialled, and none given or found is forgotten. */
  lemma {:induction false} RunKeepsAddresses(c: Clients, ops: seq<Op>)
    requires AddressesKnown(c)
    ensures AddressesKnown(Run(c, ops))
    decreases |ops|
  {
    if ops != [] {
      ApplyKeepsAddresses(c, ops[0]);
      RunKeepsAddresses(Apply(c, ops[0]), ops[1..]);
    }
  }

  /** The handles a run hands out, in the order it does. */
  ghost function Issued(c: Clients, ops: seq<Op>): (q: seq<Handle>)
    decreases |ops|
  {
    if ops == [] then [] else
      (if ops[0].Add? || ops[0].AddWithConfig? then [c.next] else [])
      + Issued(Apply(c, ops[0]), ops[1..])
  }

  /** A handle is handed out once in the life of the daemon: every one a run
      issues is above every one before it, and none was in use at its start. */
  lemma {:induction false} HandlesNeverReissued(c: Clients, ops: seq<Op>)
    requires c.Valid() && AllWellformed(ops)
    ensures StrictlyAscending(Issued(c, ops))
    ensures forall h :: h in Issued(c, ops) ==> c.next <= h && h !in c.devices
    decreases |ops|
  {
    if ops != [] {
      ApplyKeepsValid(c, ops[0]);
      HandlesNeverReissued(Apply(c, ops[0]), ops[1..]);
      var later := Issued(Apply(c, ops[0]), ops[1..]);
      assert forall j :: 0 <= j < |later| ==> later[j] in later;
      if ops[0].Add? || ops[0].AddWithConfig? {
        assert Issued(c, ops) == [c.next] + later;
      } else {
        assert Issued(c, ops) == later;
      }
    }
  }

  lemma WriteThroughAbsent(c: Clients, op: Op)
    requires c.Valid() && op.Through().Some? && op.Through().value !in c.devices
    ensures Apply(c, op) == c
  {
    var h := op.h;
    assert c.answered - {h} == c.answered;
    assert c.refusedAs - {h} == c.refusedAs;
    assert c.answeredAs - {h} == c.answeredAs;
    assert c.devices - {h} == c.devices;
  }

  /** A removed device stays removed, whatever runs after, so a late write
      through its handle never lands on anything. */
  lemma {:induction false} RemovedHandleIsDead(c: Clients, h: Handle, ops: seq<Op>, late: Op)
    requires c.Valid() && AllWellformed(ops) && late.Through() == Some(h)
    requires h < c.next
    ensures var after := Run(c.Remove(h), ops);
            h !in after.devices && Apply(after, late) == after
    decreases |ops|
  {
    ApplyKeepsValid(c, Op.Remove(h));
    StaysRemoved(c.Remove(h), h, ops);
    RunKeepsValid(c.Remove(h), ops);
    WriteThroughAbsent(Run(c.Remove(h), ops), late);
  }

  lemma {:induction false} StaysRemoved(c: Clients, h: Handle, ops: seq<Op>)
    requires c.Valid() && AllWellformed(ops) && h < c.next && h !in c.devices
    ensures h !in Run(c, ops).devices
    decreases |ops|
  {
    if ops != [] {
      ApplyKeepsValid(c, ops[0]);
      AbsentStaysAbsent(c, h, ops[0]);
      StaysRemoved(Apply(c, ops[0]), h, ops[1..]);
    }
  }

  lemma AbsentStaysAbsent(c: Clients, h: Handle, op: Op)
    requires h < c.next && h !in c.devices
    ensures h !in Apply(c, op).devices
  {
  }

  /** No two devices are the same machine's. */
  ghost predicate OnePerMachine(c: Clients) {
    forall a, b :: a in c.devices && b in c.devices && c.PinOf(a).Some? && c.PinOf(a) == c.PinOf(b) ==> a == b
  }

  /** Pinning, by a dial or for a machine that dialled in, never adds a device
      to a machine that has one, adds at most one to a machine that has none,
      and never puts one machine's pin in another's place. */
  lemma PinningAddsNoSecondDevice(c: Clients, op: Op, fp: Fingerprint)
    requires op.Pin? || op.Claim?
    ensures var r := Apply(c, op);
      && (c.PinnedTo(fp) != {} ==> r.PinnedTo(fp) == c.PinnedTo(fp))
      && (c.PinnedTo(fp) == {} ==> forall a, b :: a in r.PinnedTo(fp) && b in r.PinnedTo(fp) ==> a == b)
      && (forall h :: c.PinOf(h).Some? ==> r.PinOf(h) == c.PinOf(h))
      && (forall h :: r.PinOf(h) != c.PinOf(h) ==> r.PinOf(h) == Some(op.fp))
  {
    if op.Claim? && c.PinnedTo(op.fp) == {} && c.Reached(op.fp) != {} {
      PinOneDevice(c, Least(c.Reached(op.fp)), op.fp, fp);
    } else if op.Pin? {
      PinOneDevice(c, op.h, op.fp, fp);
    }
  }

  lemma PinOneDevice(c: Clients, h: Handle, proved: Fingerprint, fp: Fingerprint)
    ensures var r := c.Pin(h, proved);
      && (forall x :: x != h ==> r.PinOf(x) == c.PinOf(x))
      && (r.PinOf(h) == c.PinOf(h) || (c.PinOf(h).None? && r.PinOf(h) == Some(proved) && c.PinnedTo(proved) == {}))
      && (c.PinnedTo(fp) != {} ==> r.PinnedTo(fp) == c.PinnedTo(fp))
      && r.PinnedTo(fp) <= c.PinnedTo(fp) + {h}
  {
    var r := c.Pin(h, proved);
    if r.PinOf(h) == c.PinOf(h) {
      assert r.PinnedTo(fp) == c.PinnedTo(fp) by {
        assert forall x :: x in r.PinnedTo(fp) <==> x in r.devices && r.PinOf(x) == Some(fp);
      }
    }
  }

  lemma PinningKeepsOnePerMachine(c: Clients, op: Op)
    requires c.Valid() && OnePerMachine(c) && (op.Pin? || op.Claim?)
    ensures OnePerMachine(Apply(c, op))
  {
    var r := Apply(c, op);
    forall a, b | a in r.devices && b in r.devices && r.PinOf(a).Some? && r.PinOf(a) == r.PinOf(b)
      ensures a == b
    {
      var fp := r.PinOf(a).value;
      PinningAddsNoSecondDevice(c, op, fp);
      assert a in r.PinnedTo(fp) && b in r.PinnedTo(fp);
      if c.PinnedTo(fp) != {} {
        assert a in c.PinnedTo(fp) && b in c.PinnedTo(fp);
      }
    }
  }

  lemma AddingAnEntry(c: Clients, d: Device)
    requires c.Valid() && OnePerMachine(c)
    ensures OnePerMachine(c.Insert(d)) <==> !(d.state.pin.Some? && c.PinnedTo(d.state.pin.value) != {})
  {
    var r := c.Insert(d);
    assert r.PinOf(c.next) == d.state.pin;
    assert forall h :: h in c.devices && c.PinOf(h).Some? ==> h in c.PinnedTo(c.PinOf(h).value);
    if d.state.pin.Some? && c.PinnedTo(d.state.pin.value) != {} {
      var other := Least(c.PinnedTo(d.state.pin.value));
      assert r.PinOf(other) == r.PinOf(c.next) && other != c.next;
    }
  }

  /** Every other request leaves a device's pin as it was, or drops it. */
  lemma OtherRequestsPinNothing(c: Clients, op: Op, h: Handle)
    requires !op.Pin? && !op.Claim? && !op.Add? && !op.AddWithConfig?
    ensures Apply(c, op).PinOf(h) == c.PinOf(h) || Apply(c, op).PinOf(h) == None
    ensures h in Apply(c, op).devices ==> h in c.devices
  {
    if op.IsEdit() && op.h in c.devices {
      EditKeepsPin(c.devices[op.h], op);
    }
  }

  /** A machine gets a second device in one way only: an entry naming it,
      added while it has one. */
  lemma OnePerMachineKept(c: Clients, op: Op)
    requires c.Valid() && OnePerMachine(c)
    ensures OnePerMachine(Apply(c, op)) <==>
      !(op.AddWithConfig? && op.entry.fingerprint.Some? && c.PinnedTo(op.entry.fingerprint.value) != {})
  {
    if op.Pin? || op.Claim? {
      PinningKeepsOnePerMachine(c, op);
    } else if op.AddWithConfig? {
      AddingAnEntry(c, FromEntry(op.entry));
    } else if op.Add? {
      AddingAnEntry(c, NEW_DEVICE);
    } else {
      forall h {
        OtherRequestsPinNothing(c, op, h);
      }
    }
  }

  /** Nothing but revoking that machine takes a device's pin away, and no run
      puts another machine's in its place. */
  lemma {:induction false} PinIsKept(c: Clients, h: Handle, fp: Fingerprint, ops: seq<Op>)
    requires c.Valid() && AllWellformed(ops) && c.PinOf(h) == Some(fp)
    requires forall i :: 0 <= i < |ops| ==> ops[i] != Op.ClearPins(fp) && ops[i] != Op.Remove(h)
    ensures Run(c, ops).PinOf(h) == Some(fp)
    decreases |ops|
  {
    if ops != [] {
      var op := ops[0];
      ApplyKeepsValid(c, op);
      if op.Pin? || op.Claim? {
        PinningAddsNoSecondDevice(c, op, fp);
      } else if op.IsEdit() && op.h in c.devices {
        EditKeepsPin(c.devices[op.h], op);
      }
      assert Apply(c, op).PinOf(h) == Some(fp);
      PinIsKept(Apply(c, op), h, fp, ops[1..]);
    }
  }
}
