/** The link table: the one connection each device is driven over, raced for by
    dials, dial-ins, edits and the tasks of links that already ended. */
module Links {
  import opened Common
  import opened Registry
  import opened Proto

  /** One connection: what it proved, the device it was made for, who dialled, and
      the number it alone has. */
  datatype Link = Link(fp: Fingerprint, handle: Handle, dialledIn: bool, serial: nat)

  datatype SendResult = Sent(on: nat) | NotPermitted | TargetEmulationDisabled | NotConnected

  /** A frame as it was handed to a link, and the machine that link proved. */
  datatype Write = Write(frame: Frame, fp: Fingerprint)

  datatype DialAnswer =
    | Linked | StaleDial | SwitchedOffMeanwhile | LinkedMeanwhile
    | OtherMachine(pin: Fingerprint) | AlreadyAdded(other: Handle) | PairedOnly

  /** How far a dial is: its task spawned; racing these addresses for this pin;
      holding the connection that won, to be paired on first or not; or with its
      result recorded. */
  datatype DialStage =
    | Spawned
    | Racing(pin: Option<Fingerprint>, addrs: set<SocketAddr>)
    | Landing(addr: SocketAddr, fp: Fingerprint, pairing: bool)
    | Settled

  datatype AdoptAnswer = Opening | Taken | MayNotDrive | PinnedElse | DeviceOff | NoStream | OwnLinkUp

  /** A machine's dial-in that passed the checks and waits for its stream to open. */
  datatype DialledIn = DialledIn(h: Handle, fp: Fingerprint, addr: SocketAddr)

  datatype Net = Net(
    clients: Clients,
    links: map<SocketAddr, Link>,
    trust: set<Fingerprint>,
    /** Devices being dialled, and how far each dial is. */
    connecting: map<Handle, DialStage>,
    adopting: multiset<DialledIn>,
    nextSerial: nat,
    /** The links this machine closed. */
    closed: set<nat>,
    wire: seq<Write>)
  {
    /** The link at the device's active address. */
    function LinkOf(h: Handle): (r: Option<Link>) {
      match clients.ActiveAddr(h)
      case None => None
      case Some(a) => if a in links then Some(links[a]) else None
    }

    function SerialOf(h: Handle): (r: Option<nat>) {
      if LinkOf(h).Some? then Some(LinkOf(h).value.serial) else None
    }

    /** What the device's link proved; with no link, its pin. */
    function MachineOf(h: Handle): (r: Option<Fingerprint>) {
      if LinkOf(h).Some? then Some(LinkOf(h).value.fp) else clients.PinOf(h)
    }

    predicate MayNotDriveIt(h: Handle) {
      MachineOf(h).Some? && MachineOf(h).value !in trust
    }

    function Edited(op: Op): (n: Net) {
      this.(clients := Apply(clients, op))
    }

    /** What the device shows about a link, cleared. */
    function Cleared(h: Handle): (n: Net) {
      Edited(Op.SetActiveAddr(h, None)).Edited(Op.SetAlive(h, false)).Edited(Op.SetCaps(h, false))
    }

    function Unregister(addr: SocketAddr): (n: Net) {
      if addr in links then this.(links := links - {addr}, closed := closed + {links[addr].serial}) else this
    }

    /** The device's own state goes down with the link at `addr`, unless its
        link is at another address by now. */
    function Forgotten(h: Handle, addr: SocketAddr): (n: Net) {
      if clients.ActiveAddr(h).Some? && clients.ActiveAddr(h).value != addr then this else Cleared(h)
    }

    /** End `h`'s link at `addr`: the link `ended` alone, when a task of it asks. */
    function Disconnect(h: Handle, addr: SocketAddr, ended: Option<nat>): (n: Net) {
      if addr in links && ended.Some? && links[addr].serial != ended.value then
        var n := this.(closed := closed + {ended.value});
        if links[addr].handle == h then n else n.Forgotten(h, addr)
      else
        Unregister(addr).Forgotten(h, addr)
    }

    function Dialling(h: Handle): (n: Net) {
      if h in connecting then this else this.(connecting := connecting[h := Spawned])
    }

    /** A device's addresses, at its port. */
    function AddrsOf(h: Handle): (s: set<SocketAddr>)
      ensures forall a :: a in s <==> clients.Targets(h, a)
    {
      if h !in clients.devices then {} else
        var port := clients.devices[h].config.port;
        set ip | ip in clients.devices[h].state.ips :: SocketAddr(ip, port)
    }

    /** The dial's task begins: what the device is pinned to, and its addresses,
        are read once. */
    function DialReads(h: Handle): (n: Net) {
      if h in connecting && connecting[h].Spawned?
      then this.(connecting := connecting[h := Racing(clients.PinOf(h), AddrsOf(h))]) else this
    }

    function DialReaches(h: Handle, addr: SocketAddr, fp: Fingerprint, pairing: bool): (n: Net) {
      if h in connecting && connecting[h].Racing?
      then this.(connecting := connecting[h := Landing(addr, fp, pairing)]) else this
    }

    /** A dial failed, or its task is done: the device can be dialled again. */
    function DialEnds(h: Handle): (n: Net) {
      this.(connecting := connecting - {h})
    }

    /** A frame handed to the link at `addr`; a write that fails ends the link. */
    function Written(f: Frame, h: Handle, addr: SocketAddr, fails: bool): (n: Net)
      requires addr in links
    {
      var n := this.(wire := wire + [Write(f, links[addr].fp)]);
      if fails then n.Disconnect(h, addr, Some(links[addr].serial)) else n
    }

    function SendAnswer(h: Handle): (r: SendResult) {
      if LinkOf(h).None? then NotConnected
      else if LinkOf(h).value.fp !in trust then NotPermitted
      else if !clients.Alive(h) then TargetEmulationDisabled
      else Sent(LinkOf(h).value.serial)
    }

    function Send(f: Frame, h: Handle, fails: bool): (n: Net) {
      match SendAnswer(h)
      case NotConnected => Dialling(h)
      case NotPermitted => Disconnect(h, clients.ActiveAddr(h).value, Some(LinkOf(h).value.serial))
      case TargetEmulationDisabled => this
      case Sent(_) => Written(f, h, clients.ActiveAddr(h).value, fails)
    }

    function SendToAnswer(f: Frame, addr: SocketAddr): (r: SendResult) {
      if addr !in links then NotConnected
      else if !OnlyLetsGo(f) && links[addr].fp !in trust then NotPermitted
      else Sent(links[addr].serial)
    }

    function SendTo(f: Frame, h: Handle, addr: SocketAddr, fails: bool): (n: Net) {
      if SendToAnswer(f, addr).Sent? then Written(f, h, addr, fails) else this
    }

    /** What becomes of a dial for `h` that reached the machine `fp` at `addr`, and
        paired with it on that connection or found it paired. */
    function DialOutcome(h: Handle, addr: SocketAddr, fp: Fingerprint, paired: bool): (r: DialAnswer) {
      if !clients.Targets(h, addr) then StaleDial
      else if !clients.IsOn(h) then SwitchedOffMeanwhile
      else if LinkOf(h).Some? then LinkedMeanwhile
      else match clients.PinAnswer(h, fp)
        case PinnedElsewhere(pin) => OtherMachine(pin)
        case Dialled(other) => AlreadyAdded(other)
        case Pinned(_) => if paired && fp !in trust then PairedOnly else Linked
    }

    function Refuse(): (n: Net) {
      this.(nextSerial := nextSerial + 1, closed := closed + {nextSerial})
    }

    function Register(addr: SocketAddr, fp: Fingerprint, h: Handle, dialledIn: bool): (n: Net) {
      this.(nextSerial := nextSerial + 1, links := links[addr := Link(fp, h, dialledIn, nextSerial)])
    }

    function Settling(h: Handle): (n: Net) {
      if h in connecting then this.(connecting := connecting[h := Settled]) else this
    }

    function DialLands(h: Handle, addr: SocketAddr, fp: Fingerprint, paired: bool): (n: Net) {
      match DialOutcome(h, addr, fp, paired)
      case Linked =>
        Settling(h).Edited(Op.Pin(h, fp)).Edited(Op.SetActiveAddr(h, Some(addr)))
        .Edited(Op.SetRemovedByPeer(h, false)).Register(addr, fp, h, false)
      case AlreadyAdded(_) => Settling(h).Edited(Op.Pin(h, fp)).Refuse()
      case PairedOnly => Settling(h).Edited(Op.Pin(h, fp)).Refuse()
      case _ => Settling(h).Refuse()
    }

    /** Whether a dial-in as `h` is let open its stream. */
    function DialInAnswer(h: Handle, fp: Fingerprint): (r: AdoptAnswer) {
      if fp !in trust then MayNotDrive
      else if clients.PinOf(h) != Some(fp) then PinnedElse
      else if !clients.IsOn(h) then DeviceOff
      else Opening
    }

    function DialIn(h: Handle, fp: Fingerprint, addr: SocketAddr): (n: Net) {
      if DialInAnswer(h, fp).Opening? then this.(adopting := adopting + multiset{DialledIn(h, fp, addr)}) else Refuse()
    }

    /** What becomes of one let in, once its stream opened or did not: nothing of
        what was checked before is checked again. */
    function AdoptOutcome(h: Handle, streamOpen: bool): (r: AdoptAnswer) {
      if !streamOpen then NoStream
      else if LinkOf(h).Some? && !LinkOf(h).value.dialledIn then OwnLinkUp
      else Taken
    }

    function Freed(h: Handle): (n: Net) {
      if LinkOf(h).Some? then Unregister(clients.ActiveAddr(h).value) else this
    }

    /** When taken: the link at `h`'s address goes, and a dialled-in one is
        registered for `h` at `addr`. */
    function Adopt(h: Handle, fp: Fingerprint, addr: SocketAddr, streamOpen: bool): (n: Net) {
      var done := this.(adopting := adopting - multiset{DialledIn(h, fp, addr)});
      if AdoptOutcome(h, streamOpen) != Taken then done.Refuse() else
        done.Freed(h)
        .Edited(Op.SetActiveAddr(h, Some(addr))).Edited(Op.SetRemovedByPeer(h, false))
        .Edited(Op.SetDialsUs(h, true)).Register(addr, fp, h, true)
    }

    /** A Pong heard for `h` at `addr`: `h` is recorded there and as answered. */
    function Pong(h: Handle, addr: SocketAddr, alive: bool): (n: Net) {
      Edited(Op.SetActiveAddr(h, Some(addr))).Edited(Op.AnsweredPing(h, alive))
    }

    function DisconnectEach(addr: SocketAddr, hs: seq<Handle>): (n: Net)
      decreases |hs|
    {
      if hs == [] then this else Disconnect(hs[0], addr, None).DisconnectEach(addr, hs[1..])
    }

    function CloseAddr(addr: SocketAddr): (n: Net) {
      Unregister(addr).DisconnectEach(addr, Ascending(clients.HandlesAt(addr)))
    }

    function CloseEach(addrs: seq<SocketAddr>): (n: Net)
      decreases |addrs|
    {
      if addrs == [] then this else CloseAddr(addrs[0]).CloseEach(addrs[1..])
    }

    /** Every link made and not closed is one the table still holds, each under
        one serial, so closing what the table holds closes everything. */
    ghost predicate Tracked() {
      && (forall a :: a in links ==> links[a].serial < nextSerial && links[a].serial !in closed)
      && (forall s :: s in closed ==> s < nextSerial)
      && (forall a, b :: a in links && b in links && links[a].serial == links[b].serial ==> a == b)
      && (forall s :: 0 <= s < nextSerial && s !in closed ==> exists a :: a in links && links[a].serial == s)
    }
  }

  // ---------------------------------------------------------------- dials

  /** When a dial's link is registered, of its device as it is at that moment: it
      exists, is on, still dials that address, has no other link, is pinned to no
      other machine, and no device before it is that machine's; and a machine just
      paired with is one this machine may drive. */
  lemma DialIsLinkedWhen(n: Net, h: Handle, addr: SocketAddr, fp: Fingerprint, paired: bool)
    ensures n.DialOutcome(h, addr, fp, paired).Linked? <==>
            && n.clients.Targets(h, addr) && n.clients.IsOn(h) && n.LinkOf(h).None?
            && n.clients.PinOf(h) in {None, Some(fp)}
            && (n.clients.PinnedTo(fp) == {} || Least(n.clients.PinnedTo(fp)) == h)
            && (paired ==> fp in n.trust)
  {
  }

  /** A link registered is its device's, pinned to the machine it proved, and no
      other device changes. */
  lemma DialRegistersOnlyItsDevice(n: Net, h: Handle, addr: SocketAddr, fp: Fingerprint, paired: bool)
    requires n.DialOutcome(h, addr, fp, paired).Linked?
    ensures var r := n.DialLands(h, addr, fp, paired);
      && r.links == n.links[addr := Link(fp, h, false, n.nextSerial)]
      && r.clients.PinOf(h) == Some(fp) && r.clients.ActiveAddr(h) == Some(addr)
      && forall x :: x != h && x in n.clients.devices ==> x in r.clients.devices && r.clients.devices[x] == n.clients.devices[x]
  {
  }

  /** A dial that fails any of the checks changes no link and closes its own, and
      changes no device, but that one just paired with pins the device dialled. */
  lemma RefusedDialChangesNothing(n: Net, h: Handle, addr: SocketAddr, fp: Fingerprint, paired: bool)
    requires !n.DialOutcome(h, addr, fp, paired).Linked?
    ensures var r := n.DialLands(h, addr, fp, paired);
      && r.links == n.links && r.closed == n.closed + {n.nextSerial}
      && r.clients.devices == if n.DialOutcome(h, addr, fp, paired).PairedOnly? then n.clients.Pin(h, fp).devices
                              else n.clients.devices
  {
  }

  lemma SettlingDecidesNothing(n: Net, h: Handle, addr: SocketAddr, fp: Fingerprint, paired: bool)
    ensures n.Settling(h).DialOutcome(h, addr, fp, paired) == n.DialOutcome(h, addr, fp, paired)
    ensures var done, answer := n.Settling(h), n.DialOutcome(h, addr, fp, paired);
      n.DialLands(h, addr, fp, paired) ==
        if answer.Linked? then
          done.Edited(Op.Pin(h, fp)).Edited(Op.SetActiveAddr(h, Some(addr)))
          .Edited(Op.SetRemovedByPeer(h, false)).Register(addr, fp, h, false)
        else if answer.AlreadyAdded? || answer.PairedOnly? then done.Edited(Op.Pin(h, fp)).Refuse()
        else done.Refuse()
  {
  }

  // ------------------------------------------------------------- teardown

  /** The late task of a link that ended never unregisters or closes another
      link, and never touches what a device shows while that device's link is
      another one, registered under its own handle. */
  lemma LateTaskTouchesOnlyItsLink(n: Net, h: Handle, addr: SocketAddr, ended: nat)
    ensures var r := n.Disconnect(h, addr, Some(ended));
      && (forall a :: a in n.links && n.links[a].serial != ended ==> a in r.links && r.links[a] == n.links[a])
      && r.links.Keys <= n.links.Keys
      && r.closed <= n.closed + {ended}
      && (forall x :: x != h ==> r.clients.PinOf(x) == n.clients.PinOf(x) && r.clients.ActiveAddr(x) == n.clients.ActiveAddr(x))
      && (n.LinkOf(h).Some? && n.LinkOf(h).value.handle == h && n.LinkOf(h).value.serial != ended ==>
            r.clients == n.clients)
  {
    LateTaskTouchesNoOtherLink(n, h, addr, ended);
    var closing := n.(closed := n.closed + {ended});
    ClearingTouchesOneDevice(closing, h);
    ClearingTouchesOneDevice(n.Unregister(addr), h);
  }

  lemma ClearingTouchesOneDevice(n: Net, h: Handle)
    ensures forall x :: n.Cleared(h).clients.PinOf(x) == n.clients.PinOf(x)
    ensures forall x :: x != h ==> n.Cleared(h).clients.ActiveAddr(x) == n.clients.ActiveAddr(x)
  {
  }

  lemma LateTaskTouchesNoOtherLink(n: Net, h: Handle, addr: SocketAddr, ended: nat)
    ensures var r := n.Disconnect(h, addr, Some(ended));
      && (forall a :: a in n.links && n.links[a].serial != ended ==> a in r.links && r.links[a] == n.links[a])
      && r.links.Keys <= n.links.Keys
      && r.closed <= n.closed + {ended}
  {
    ClearedKeepsTable(n.(closed := n.closed + {ended}), h);
    ClearedKeepsTable(n.Unregister(addr), h);
  }

  // --------------------------------------------------------- displacement

  /** Two devices whose addresses come to name one place: the first's dialled link is
      up there, and another machine answers the second's dial there. */
  lemma TwoDevicesAtOneAddress(n: Net, first: Handle, second: Handle, addr: SocketAddr, fp: Fingerprint)
    requires n.Tracked() && first != second
    requires n.clients.ActiveAddr(first) == Some(addr) && addr in n.links && n.links[addr].handle == first
    requires n.DialOutcome(second, addr, fp, false).Linked?
    ensures var r := n.DialLands(second, addr, fp, false);
      && r.LinkOf(first).Some? && r.LinkOf(first).value.handle == second
      && n.links[addr].serial !in r.closed
      && !r.Tracked()
  {
    var r := n.DialLands(second, addr, fp, false);
    var lost := n.links[addr].serial;
    forall a | a in r.links ensures r.links[a].serial != lost {
    }
  }

  // ------------------------------------------------------------ revoking

  lemma ClearedKeepsTable(n: Net, h: Handle)
    ensures var r := n.Cleared(h); r.links == n.links && r.closed == n.closed && r.nextSerial == n.nextSerial
  {
  }

  lemma UnregisterKeepsTracked(n: Net, addr: SocketAddr)
    requires n.Tracked()
    ensures n.Unregister(addr).Tracked()
  {
    var r := n.Unregister(addr);
    forall s | 0 <= s < r.nextSerial && s !in r.closed ensures exists a :: a in r.links && r.links[a].serial == s {
      var a :| a in n.links && n.links[a].serial == s;
      assert a in r.links;
    }
  }

  lemma DisconnectKeepsTracked(n: Net, h: Handle, addr: SocketAddr, ended: Option<nat>)
    requires n.Tracked()
    requires ended.Some? ==> ended.value < n.nextSerial
    requires ended.Some? ==> forall a :: a in n.links && n.links[a].serial == ended.value ==> a == addr
    ensures n.Disconnect(h, addr, ended).Tracked()
  {
    if addr in n.links && ended.Some? && n.links[addr].serial != ended.value {
      ClosingAnEndedLink(n, ended.value);
      ForgettingKeepsTracked(n.(closed := n.closed + {ended.value}), h, addr);
    } else {
      UnregisterKeepsTracked(n, addr);
      ForgettingKeepsTracked(n.Unregister(addr), h, addr);
    }
  }

  lemma ClosingAnEndedLink(n: Net, ended: nat)
    requires n.Tracked() && ended < n.nextSerial
    requires forall a :: a in n.links ==> n.links[a].serial != ended
    ensures n.(closed := n.closed + {ended}).Tracked()
  {
    var r := n.(closed := n.closed + {ended});
    forall s | 0 <= s < r.nextSerial && s !in r.closed ensures exists a :: a in r.links && r.links[a].serial == s {
    }
  }

  lemma ForgettingKeepsTracked(n: Net, h: Handle, addr: SocketAddr)
    requires n.Tracked()
    ensures n.Forgotten(h, addr).Tracked()
  {
    ClearedKeepsTable(n, h);
    SameTableSameTracked(n, n.Forgotten(h, addr));
  }

  lemma SameTableSameTracked(n: Net, r: Net)
    requires r.links == n.links && r.closed == n.closed && r.nextSerial == n.nextSerial
    ensures r.Tracked() <==> n.Tracked()
  {
  }

  /** Registering a link keeps every open link in the table exactly when no
      other link was at its address. */
  lemma RegisterKeepsTracked(n: Net, addr: SocketAddr, fp: Fingerprint, h: Handle, dialledIn: bool)
    requires n.Tracked()
    ensures n.Register(addr, fp, h, dialledIn).Tracked() <==> addr !in n.links
  {
    if addr in n.links {
      OverwritingLosesALink(n, addr, fp, h, dialledIn);
    } else {
      RegisterAtAFreeAddress(n, addr, fp, h, dialledIn);
    }
  }

  lemma OverwritingLosesALink(n: Net, addr: SocketAddr, fp: Fingerprint, h: Handle, dialledIn: bool)
    requires n.Tracked() && addr in n.links
    ensures !n.Register(addr, fp, h, dialledIn).Tracked()
  {
    var r := n.Register(addr, fp, h, dialledIn);
    forall a | a in r.links ensures r.links[a].serial != n.links[addr].serial {
    }
    assert n.links[addr].serial !in r.closed;
  }

  lemma RegisterAtAFreeAddress(n: Net, addr: SocketAddr, fp: Fingerprint, h: Handle, dialledIn: bool)
    requires n.Tracked() && addr !in n.links
    ensures n.Register(addr, fp, h, dialledIn).Tracked()
  {
    var r := n.Register(addr, fp, h, dialledIn);
    assert r.links[addr].serial == n.nextSerial;
    assert forall a :: a in n.links ==> a in r.links && r.links[a] == n.links[a];
    forall s | 0 <= s < r.nextSerial && s !in r.closed && s != n.nextSerial
      ensures exists a :: a in r.links && r.links[a].serial == s
    {
      var a :| a in n.links && n.links[a].serial == s;
      assert r.links[a].serial == s;
    }
  }

  lemma RefuseKeepsTracked(n: Net)
    requires n.Tracked()
    ensures n.Refuse().Tracked()
  {
    forall s | 0 <= s < n.Refuse().nextSerial && s !in n.Refuse().closed
      ensures exists a :: a in n.links && n.links[a].serial == s
    {
    }
  }

  // ----------------------------------------------------------------- runs

  /** What can happen to the table, in any order. */
  datatype Step =
    | Edit(op: Op)
    | Trust(drivable: set<Fingerprint>)
    | StartDial(h: Handle)
    | DialReads(h: Handle)
    | DialReaches(h: Handle, addr: SocketAddr, fp: Fingerprint, pairing: bool)
    | DialLands(h: Handle, addr: SocketAddr, fp: Fingerprint, paired: bool)
    | DialEnds(h: Handle)
    | DialIn(h: Handle, addr: SocketAddr, fp: Fingerprint)
    | DialInLands(h: Handle, addr: SocketAddr, fp: Fingerprint, streamOpen: bool)
    | TaskEnds(h: Handle, addr: SocketAddr, ended: nat)
    | Pong(h: Handle, addr: SocketAddr, alive: bool)
    | CloseAddr(addr: SocketAddr)
    | Send(f: Frame, h: Handle, fails: bool)
    | SendTo(f: Frame, h: Handle, addr: SocketAddr, fails: bool)

  function Next(n: Net, s: Step): (r: Net) {
    match s
    case Edit(op) => n.Edited(op)
    case Trust(t) => n.(trust := t)
    case StartDial(h) => n.Dialling(h)
    case DialReads(h) => n.DialReads(h)
    case DialReaches(h, addr, fp, pairing) => n.DialReaches(h, addr, fp, pairing)
    case DialLands(h, addr, fp, paired) => n.DialLands(h, addr, fp, paired)
    case DialEnds(h) => n.DialEnds(h)
    case DialIn(h, addr, fp) => n.DialIn(h, fp, addr)
    case DialInLands(h, addr, fp, open) => n.Adopt(h, fp, addr, open)
    case TaskEnds(h, addr, ended) => n.Disconnect(h, addr, Some(ended))
    case Pong(h, addr, alive) => n.Pong(h, addr, alive)
    case CloseAddr(addr) => n.CloseAddr(addr)
    case Send(f, h, fails) => n.Send(f, h, fails)
    case SendTo(f, h, addr, fails) => n.SendTo(f, h, addr, fails)
  }

  /** What the world keeps to. A dial reaches a machine at an address it races, the
      one it is pinned to if it is to one, and to be paired with first when this
      machine may not drive it; what lands is what was reached, and what was let
      in; a task that ends holds a link once made, at the address it was made at. */
  ghost predicate Possible(n: Net, s: Step) {
    match s
    case DialReaches(h, addr, fp, pairing) =>
      && h in n.connecting && n.connecting[h].Racing? && addr in n.connecting[h].addrs
      && n.connecting[h].pin in {None, Some(fp)} && (pairing <==> fp !in n.trust)
    case DialLands(h, addr, fp, paired) => h in n.connecting && n.connecting[h] == Landing(addr, fp, paired)
    case DialInLands(h, addr, fp, _) => DialledIn(h, fp, addr) in n.adopting
    case TaskEnds(_, addr, ended) =>
      ended < n.nextSerial && forall a :: a in n.links && n.links[a].serial == ended ==> a == addr
    case _ => true
  }

  /** Whether a dial of `h` that lands overwrites a link. */
  predicate LandingOverwrites(n: Net, h: Handle, addr: SocketAddr, fp: Fingerprint, paired: bool) {
    n.DialOutcome(h, addr, fp, paired).Linked? && addr in n.links
  }

  predicate AdoptingOverwrites(n: Net, h: Handle, addr: SocketAddr, streamOpen: bool) {
    && n.AdoptOutcome(h, streamOpen).Taken? && addr in n.links
    && !(n.LinkOf(h).Some? && n.clients.ActiveAddr(h) == Some(addr))
  }

  /** Whether a step puts a link where the table still holds another one. */
  predicate Overwrites(n: Net, s: Step) {
    match s
    case DialLands(h, addr, fp, paired) => LandingOverwrites(n, h, addr, fp, paired)
    case DialInLands(h, addr, _, open) => AdoptingOverwrites(n, h, addr, open)
    case _ => false
  }

  lemma {:induction false} DisconnectEachKeepsTracked(n: Net, addr: SocketAddr, hs: seq<Handle>)
    requires n.Tracked()
    ensures n.DisconnectEach(addr, hs).Tracked()
    decreases |hs|
  {
    if hs != [] {
      DisconnectKeepsTracked(n, hs[0], addr, None);
      DisconnectEachKeepsTracked(n.Disconnect(hs[0], addr, None), addr, hs[1..]);
    }
  }

  lemma WrittenKeepsTracked(n: Net, f: Frame, h: Handle, addr: SocketAddr, fails: bool)
    requires n.Tracked() && addr in n.links
    ensures n.Written(f, h, addr, fails).Tracked()
  {
    var w := n.(wire := n.wire + [Write(f, n.links[addr].fp)]);
    SameTableSameTracked(n, w);
    DisconnectKeepsTracked(w, h, addr, Some(n.links[addr].serial));
  }

  lemma SendKeepsTracked(n: Net, f: Frame, h: Handle, fails: bool)
    requires n.Tracked()
    ensures n.Send(f, h, fails).Tracked()
  {
    match n.SendAnswer(h)
    case NotConnected => SameTableSameTracked(n, n.Dialling(h));
    case NotPermitted =>
      var addr := n.clients.ActiveAddr(h).value;
      DisconnectKeepsTracked(n, h, addr, Some(n.links[addr].serial));
    case TargetEmulationDisabled =>
    case Sent(_) => WrittenKeepsTracked(n, f, h, n.clients.ActiveAddr(h).value, fails);
  }

  lemma SendToKeepsTracked(n: Net, f: Frame, h: Handle, addr: SocketAddr, fails: bool)
    requires n.Tracked()
    ensures n.SendTo(f, h, addr, fails).Tracked()
  {
    if n.SendToAnswer(f, addr).Sent? {
      WrittenKeepsTracked(n, f, h, addr, fails);
    }
  }

  lemma FreedKeepsTracked(n: Net, h: Handle)
    requires n.Tracked()
    ensures n.Freed(h).Tracked()
  {
    if n.LinkOf(h).Some? {
      UnregisterKeepsTracked(n, n.clients.ActiveAddr(h).value);
    }
  }

  lemma AdoptKeepsTracked(n: Net, h: Handle, fp: Fingerprint, addr: SocketAddr, open: bool)
    requires n.Tracked()
    ensures n.Adopt(h, fp, addr, open).Tracked() <==> !AdoptingOverwrites(n, h, addr, open)
  {
    var done := n.(adopting := n.adopting - multiset{DialledIn(h, fp, addr)});
    SameTableSameTracked(n, done);
    if n.AdoptOutcome(h, open) != Taken {
      RefuseKeepsTracked(done);
    } else {
      var freed := done.Freed(h);
      FreedKeepsTracked(done, h);
      var edited := freed.Edited(Op.SetActiveAddr(h, Some(addr))).Edited(Op.SetRemovedByPeer(h, false))
                    .Edited(Op.SetDialsUs(h, true));
      SameTableSameTracked(freed, edited);
      RegisterKeepsTracked(edited, addr, fp, h, true);
    }
  }

  lemma DialLandsKeepsTracked(n: Net, h: Handle, addr: SocketAddr, fp: Fingerprint, paired: bool)
    requires n.Tracked()
    ensures n.DialLands(h, addr, fp, paired).Tracked() <==> !LandingOverwrites(n, h, addr, fp, paired)
  {
    var done := n.Settling(h);
    var pinned := done.Edited(Op.Pin(h, fp));
    SameTableSameTracked(n, done);
    SameTableSameTracked(done, pinned);
    match n.DialOutcome(h, addr, fp, paired)
    case Linked =>
      var edited := pinned.Edited(Op.SetActiveAddr(h, Some(addr))).Edited(Op.SetRemovedByPeer(h, false));
      SameTableSameTracked(pinned, edited);
      RegisterKeepsTracked(edited, addr, fp, h, false);
    case AlreadyAdded(_) => RefuseKeepsTracked(pinned);
    case PairedOnly => RefuseKeepsTracked(pinned);
    case _ => RefuseKeepsTracked(done);
  }

  lemma DialInKeepsTracked(n: Net, h: Handle, fp: Fingerprint, addr: SocketAddr)
    requires n.Tracked()
    ensures n.DialIn(h, fp, addr).Tracked()
  {
    if n.DialInAnswer(h, fp).Opening? {
      SameTableSameTracked(n, n.DialIn(h, fp, addr));
    } else {
      RefuseKeepsTracked(n);
    }
  }

  /** No link this machine made and did not close ever drops out of the table,
      at any step, but for one: a link registered at an address the table still
      holds another link for. */
  lemma StepKeepsTracked(n: Net, s: Step)
    requires n.Tracked() && Possible(n, s)
    ensures Next(n, s).Tracked() <==> !Overwrites(n, s)
  {
    match s
    case DialLands(h, addr, fp, paired) => DialLandsKeepsTracked(n, h, addr, fp, paired);
    case DialIn(h, addr, fp) => DialInKeepsTracked(n, h, fp, addr);
    case DialInLands(h, addr, fp, open) => AdoptKeepsTracked(n, h, fp, addr, open);
    case TaskEnds(h, addr, ended) => DisconnectKeepsTracked(n, h, addr, Some(ended));
    case CloseAddr(addr) => CloseAddrKeepsTracked(n, addr);
    case Send(f, h, fails) => SendKeepsTracked(n, f, h, fails);
    case SendTo(f, h, addr, fails) => SendToKeepsTracked(n, f, h, addr, fails);
    case _ => SameTableSameTracked(n, Next(n, s));
  }

  lemma CloseAddrKeepsTracked(n: Net, addr: SocketAddr)
    requires n.Tracked()
    ensures n.CloseAddr(addr).Tracked()
  {
    UnregisterKeepsTracked(n, addr);
    DisconnectEachKeepsTracked(n.Unregister(addr), addr, Ascending(n.clients.HandlesAt(addr)));
  }

  function Run(n: Net, steps: seq<Step>): (r: Net)
    decreases |steps|
  {
    if steps == [] then n else Run(Next(n, steps[0]), steps[1..])
  }

  ghost predicate PossibleRun(n: Net, steps: seq<Step>)
    decreases |steps|
  {
    steps != [] ==> Possible(n, steps[0]) && PossibleRun(Next(n, steps[0]), steps[1..])
  }

  ghost predicate NeverOverwrites(n: Net, steps: seq<Step>)
    decreases |steps|
  {
    steps != [] ==> !Overwrites(n, steps[0]) && NeverOverwrites(Next(n, steps[0]), steps[1..])
  }

  lemma {:induction false} RunKeepsTracked(n: Net, steps: seq<Step>)
    requires n.Tracked() && PossibleRun(n, steps) && NeverOverwrites(n, steps)
    ensures Run(n, steps).Tracked()
    decreases |steps|
  {
    if steps != [] {
      StepKeepsTracked(n, steps[0]);
      RunKeepsTracked(Next(n, steps[0]), steps[1..]);
    }
  }

  // -------------------------------------------------------------- closing

  lemma {:induction false} DisconnectEachGone(n: Net, addr: SocketAddr, hs: seq<Handle>)
    requires addr !in n.links
    ensures var r := n.DisconnectEach(addr, hs);
      r.links == n.links && r.closed == n.closed && r.nextSerial == n.nextSerial
    decreases |hs|
  {
    if hs != [] {
      ClearedKeepsTable(n, hs[0]);
      DisconnectEachGone(n.Disconnect(hs[0], addr, None), addr, hs[1..]);
    }
  }

  lemma {:induction false} CloseEachCloses(n: Net, addrs: seq<SocketAddr>)
    ensures var r := n.CloseEach(addrs);
      && (forall a :: a in r.links <==> a in n.links && a !in addrs)
      && (forall a :: a in r.links ==> r.links[a] == n.links[a])
      && n.closed <= r.closed && r.nextSerial == n.nextSerial
      && (forall a :: a in addrs && a in n.links ==> n.links[a].serial in r.closed)
    decreases |addrs|
  {
    if addrs != [] {
      var a := addrs[0];
      var u := n.Unregister(a);
      DisconnectEachGone(u, a, Ascending(n.clients.HandlesAt(a)));
      CloseEachCloses(n.CloseAddr(a), addrs[1..]);
    }
  }

  /** Closing every link whose receiver proved `fp`, in whatever order the table
      lists them, leaves no open link of any kind that proved it. */
  lemma RevokingClosesEveryLink(n: Net, fp: Fingerprint, addrs: seq<SocketAddr>)
    requires n.Tracked()
    requires forall a :: a in addrs <==> a in n.links && n.links[a].fp == fp
    ensures var r := n.CloseEach(addrs);
      && (forall a :: a in r.links ==> r.links[a].fp != fp)
      && (forall a :: a in n.links && n.links[a].fp != fp ==> a in r.links && r.links[a] == n.links[a])
      && (forall s :: 0 <= s < r.nextSerial && s !in r.closed ==>
            exists a :: a in r.links && r.links[a].serial == s && r.links[a].fp != fp)
  {
    CloseEachCloses(n, addrs);
    var r := n.CloseEach(addrs);
    forall s | 0 <= s < r.nextSerial && s !in r.closed
      ensures exists a :: a in r.links && r.links[a].serial == s && r.links[a].fp != fp
    {
      var a :| a in n.links && n.links[a].serial == s;
      assert a in r.links;
    }
  }

  // ------------------------------------------------------ trust withdrawn

  lemma {:induction false} DisconnectEachWritesNothing(n: Net, addr: SocketAddr, hs: seq<Handle>)
    ensures n.DisconnectEach(addr, hs).wire == n.wire && n.DisconnectEach(addr, hs).trust == n.trust
    decreases |hs|
  {
    if hs != [] {
      DisconnectEachWritesNothing(n.Disconnect(hs[0], addr, None), addr, hs[1..]);
    }
  }

  ghost predicate WritesAllowed(n: Net, r: Net) {
    && r.trust == n.trust
    && (r.wire == n.wire
        || exists w: Write :: r.wire == n.wire + [w] && (w.fp in n.trust || OnlyLetsGo(w.frame)))
  }

  lemma WrittenIsAllowed(n: Net, f: Frame, h: Handle, addr: SocketAddr, fails: bool)
    requires addr in n.links && (n.links[addr].fp in n.trust || OnlyLetsGo(f))
    ensures WritesAllowed(n, n.Written(f, h, addr, fails))
  {
    assert n.Written(f, h, addr, fails).wire == n.wire + [Write(f, n.links[addr].fp)];
  }

  lemma SendIsAllowed(n: Net, f: Frame, h: Handle, fails: bool)
    ensures WritesAllowed(n, n.Send(f, h, fails))
  {
    if n.SendAnswer(h).Sent? {
      WrittenIsAllowed(n, f, h, n.clients.ActiveAddr(h).value, fails);
    }
  }

  lemma SendToIsAllowed(n: Net, f: Frame, h: Handle, addr: SocketAddr, fails: bool)
    ensures WritesAllowed(n, n.SendTo(f, h, addr, fails))
  {
    if n.SendToAnswer(f, addr).Sent? {
      WrittenIsAllowed(n, f, h, addr, fails);
    }
  }

  lemma LandingWritesNothing(n: Net, h: Handle, addr: SocketAddr, fp: Fingerprint, paired: bool)
    ensures n.DialLands(h, addr, fp, paired).wire == n.wire && n.DialLands(h, addr, fp, paired).trust == n.trust
  {
  }

  lemma AdoptingWritesNothing(n: Net, h: Handle, addr: SocketAddr, fp: Fingerprint, open: bool)
    ensures n.Adopt(h, fp, addr, open).wire == n.wire && n.Adopt(h, fp, addr, open).trust == n.trust
  {
  }

  lemma StepWritesOnlyWhatIsAllowed(n: Net, s: Step)
    requires !s.Trust?
    ensures WritesAllowed(n, Next(n, s))
  {
    match s
    case CloseAddr(addr) =>
      DisconnectEachWritesNothing(n.Unregister(addr), addr, Ascending(n.clients.HandlesAt(addr)));
    case SendTo(f, h, addr, fails) => SendToIsAllowed(n, f, h, addr, fails);
    case Send(f, h, fails) => SendIsAllowed(n, f, h, fails);
    case DialLands(h, addr, fp, paired) => LandingWritesNothing(n, h, addr, fp, paired);
    case DialInLands(h, addr, fp, open) => AdoptingWritesNothing(n, h, addr, fp, open);
    case _ =>
  }

  /** From the moment trust to drive a machine is withdrawn until it returns,
      nothing is written on any link that proved that machine but frames that
      let go. */
  lemma {:induction false} WithdrawnTrustWritesNoPress(n: Net, fp: Fingerprint, steps: seq<Step>)
    requires fp !in n.trust
    requires forall i :: 0 <= i < |steps| && steps[i].Trust? ==> fp !in steps[i].drivable
    ensures n.wire <= Run(n, steps).wire
    ensures forall i :: |n.wire| <= i < |Run(n, steps).wire| && Run(n, steps).wire[i].fp == fp ==>
      OnlyLetsGo(Run(n, steps).wire[i].frame)
    decreases |steps|
  {
    if steps != [] {
      var m := Next(n, steps[0]);
      if !steps[0].Trust? {
        StepWritesOnlyWhatIsAllowed(n, steps[0]);
      }
      WithdrawnTrustWritesNoPress(m, fp, steps[1..]);
      if |m.wire| > |n.wire| {
        assert Run(n, steps).wire[|n.wire|] == m.wire[|n.wire|];
      }
    }
  }
}
