/** The link table over whole runs: which steps end a link, which take a device
    off its link, what a dial lands on, and which machine a write reaches. */
module LinkRuns {
  import opened Common
  import opened Registry
  import opened Proto
  import opened Links

  // -------------------------------------------------------- moments of a run

  /** The table before the `i`-th step. */
  function At(n: Net, steps: seq<Step>, i: nat): (r: Net)
    requires i <= |steps|
  {
    Links.Run(n, steps[..i])
  }

  lemma {:induction false} OneStepLater(n: Net, steps: seq<Step>, i: nat)
    requires i < |steps|
    ensures At(n, steps, i + 1) == Next(At(n, steps, i), steps[i])
    decreases |steps|
  {
    if i == 0 {
      assert steps[..0] == [] && steps[..1][1..] == [];
      assert Links.Run(Next(n, steps[0]), []) == Next(n, steps[0]);
    } else {
      OneStepLater(Next(n, steps[0]), steps[1..], i - 1);
      assert steps[..i + 1][1..] == steps[1..][..i];
      assert steps[..i][1..] == steps[1..][..i - 1];
    }
  }

  lemma {:induction false} EachStepIsPossible(n: Net, steps: seq<Step>, i: nat)
    requires PossibleRun(n, steps) && i < |steps|
    ensures Possible(At(n, steps, i), steps[i])
    decreases |steps|
  {
    if i > 0 {
      EachStepIsPossible(Next(n, steps[0]), steps[1..], i - 1);
      assert steps[..i][1..] == steps[1..][..i - 1];
    }
  }

  // ------------------------------------------------------- how a link ends

  /** No serial is given twice, and every device's handle is one handed out. */
  ghost predicate Ordered(n: Net) {
    && (forall a :: a in n.links ==> n.links[a].serial < n.nextSerial)
    && (forall a, b :: a in n.links && b in n.links && n.links[a].serial == n.links[b].serial ==> a == b)
    && (forall h :: h in n.clients.devices ==> h < n.clients.next)
  }

  /** The steps that end the link at `a`: its own task ends, it is closed, a write
      on it fails, its device is sent to without trust, or a link is registered
      where it is; or its device's machine dialled in again. */
  predicate Ends(n: Net, s: Step, a: SocketAddr)
    requires a in n.links
  {
    match s
    case DialLands(h, addr, fp, paired) => addr == a && n.DialOutcome(h, addr, fp, paired).Linked?
    case DialInLands(h, addr, _, open) =>
      n.AdoptOutcome(h, open).Taken? && (addr == a || n.clients.ActiveAddr(h) == Some(a))
    case TaskEnds(_, addr, ended) => addr == a && n.links[a].serial == ended
    case CloseAddr(addr) => addr == a
    case Send(_, h, fails) =>
      n.clients.ActiveAddr(h) == Some(a) && (n.SendAnswer(h).NotPermitted? || (n.SendAnswer(h).Sent? && fails))
    case SendTo(f, _, addr, fails) => addr == a && n.SendToAnswer(f, addr).Sent? && fails
    case _ => false
  }

  predicate Holds(n: Net, a: SocketAddr, l: Link) {
    a in n.links && n.links[a] == l
  }

  lemma DisconnectTable(n: Net, h: Handle, addr: SocketAddr, ended: Option<nat>)
    ensures var r := n.Disconnect(h, addr, ended);
      && r.nextSerial == n.nextSerial && r.connecting == n.connecting && r.clients.next == n.clients.next
      && r.clients.devices.Keys == n.clients.devices.Keys
      && r.links == (if addr in n.links && (ended.None? || n.links[addr].serial == ended.value)
                     then n.links - {addr} else n.links)
  {
    ClearedRest(n.(closed := n.closed + if ended.Some? then {ended.value} else {}), h);
    ClearedRest(n.Unregister(addr), h);
  }

  lemma ClearedRest(n: Net, h: Handle)
    ensures var r := n.Cleared(h);
      && r.links == n.links && r.nextSerial == n.nextSerial && r.connecting == n.connecting
      && r.clients.next == n.clients.next && r.clients.devices.Keys == n.clients.devices.Keys
  {
  }

  lemma {:induction false} DisconnectEachTable(n: Net, addr: SocketAddr, hs: seq<Handle>)
    requires addr !in n.links
    ensures var r := n.DisconnectEach(addr, hs);
      && r.links == n.links && r.nextSerial == n.nextSerial && r.connecting == n.connecting
      && r.clients.next == n.clients.next && r.clients.devices.Keys == n.clients.devices.Keys
    decreases |hs|
  {
    if hs != [] {
      DisconnectTable(n, hs[0], addr, None);
      DisconnectEachTable(n.Disconnect(hs[0], addr, None), addr, hs[1..]);
    }
  }

  lemma SendTable(n: Net, f: Frame, h: Handle, fails: bool)
    ensures var r := n.Send(f, h, fails);
      && r.nextSerial == n.nextSerial && r.clients.next == n.clients.next
      && r.clients.devices.Keys == n.clients.devices.Keys
      && r.links == (if n.SendAnswer(h).NotPermitted? || (n.SendAnswer(h).Sent? && fails)
                     then n.links - {n.clients.ActiveAddr(h).value} else n.links)
  {
    if n.LinkOf(h).Some? {
      var a := n.clients.ActiveAddr(h).value;
      DisconnectTable(n, h, a, Some(n.links[a].serial));
      DisconnectTable(n.(wire := n.wire + [Write(f, n.links[a].fp)]), h, a, Some(n.links[a].serial));
    }
  }

  lemma SendToTable(n: Net, f: Frame, h: Handle, addr: SocketAddr, fails: bool)
    ensures var r := n.SendTo(f, h, addr, fails);
      && r.nextSerial == n.nextSerial && r.clients.next == n.clients.next
      && r.clients.devices.Keys == n.clients.devices.Keys
      && r.links == (if n.SendToAnswer(f, addr).Sent? && fails then n.links - {addr} else n.links)
  {
    if addr in n.links {
      DisconnectTable(n.(wire := n.wire + [Write(f, n.links[addr].fp)]), h, addr, Some(n.links[addr].serial));
    }
  }

  lemma CloseTable(n: Net, addr: SocketAddr)
    ensures var r := n.CloseAddr(addr);
      && r.links == n.links - {addr} && r.nextSerial == n.nextSerial && r.connecting == n.connecting
      && r.clients.next == n.clients.next && r.clients.devices.Keys == n.clients.devices.Keys
  {
    DisconnectEachTable(n.Unregister(addr), addr, Ascending(n.clients.HandlesAt(addr)));
  }

  ghost predicate HandedOut(c: Clients) {
    forall h :: h in c.devices ==> h < c.next
  }

  lemma EditsHandOut(c: Clients, op: Op)
    requires HandedOut(c)
    ensures HandedOut(Apply(c, op))
  {
  }

  /** `r` has the devices and the serials of `n`. */
  ghost predicate SameShape(n: Net, r: Net) {
    r.nextSerial == n.nextSerial && r.clients.next == n.clients.next && r.clients.devices.Keys == n.clients.devices.Keys
  }

  lemma EditKeepsShape(n: Net, op: Op)
    requires op.IsEdit()
    ensures SameShape(n, n.Edited(op)) && n.Edited(op).links == n.links
  {
  }

  lemma EditShowsAddr(n: Net, op: Op, h: Handle)
    requires op.IsEdit() && !op.SetHostname? && !op.SetPort?
    ensures n.Edited(op).clients.PinOf(h) == n.clients.PinOf(h)
    ensures n.Edited(op).clients.ActiveAddr(h) ==
      if op.SetActiveAddr? && op.h == h && h in n.clients.devices then op.addr else n.clients.ActiveAddr(h)
  {
  }

  lemma PinKeepsShape(n: Net, h: Handle, fp: Fingerprint)
    ensures SameShape(n, n.Edited(Op.Pin(h, fp))) && n.Edited(Op.Pin(h, fp)).links == n.links
  {
  }

  lemma LandingTable(n: Net, h: Handle, addr: SocketAddr, fp: Fingerprint, paired: bool)
    ensures var r := n.DialLands(h, addr, fp, paired);
      && r.nextSerial == n.nextSerial + 1 && r.clients.next == n.clients.next
      && r.clients.devices.Keys == n.clients.devices.Keys
      && r.links == (if n.DialOutcome(h, addr, fp, paired).Linked? then n.links[addr := Link(fp, h, false, n.nextSerial)] else n.links)
  {
    var pinned := n.Settling(h).Edited(Op.Pin(h, fp));
    SettlingDecidesNothing(n, h, addr, fp, paired);
    PinKeepsShape(n.Settling(h), h, fp);
    EditKeepsShape(pinned, Op.SetActiveAddr(h, Some(addr)));
    EditKeepsShape(pinned.Edited(Op.SetActiveAddr(h, Some(addr))), Op.SetRemovedByPeer(h, false));
  }

  /** The device as a dial-in leaves it, before its link is in the table. */
  function Adopted(n: Net, h: Handle, addr: SocketAddr): (r: Net) {
    n.Edited(Op.SetActiveAddr(h, Some(addr))).Edited(Op.SetRemovedByPeer(h, false)).Edited(Op.SetDialsUs(h, true))
  }

  lemma AdoptedShape(n: Net, h: Handle, addr: SocketAddr)
    ensures SameShape(n, Adopted(n, h, addr)) && Adopted(n, h, addr).links == n.links
  {
    var at := n.Edited(Op.SetActiveAddr(h, Some(addr)));
    EditKeepsShape(n, Op.SetActiveAddr(h, Some(addr)));
    EditKeepsShape(at, Op.SetRemovedByPeer(h, false));
    EditKeepsShape(at.Edited(Op.SetRemovedByPeer(h, false)), Op.SetDialsUs(h, true));
  }

  lemma AdoptedShows(n: Net, h: Handle, addr: SocketAddr, x: Handle)
    ensures Adopted(n, h, addr).clients.PinOf(x) == n.clients.PinOf(x)
    ensures Adopted(n, h, addr).clients.ActiveAddr(x) ==
      if x == h && h in n.clients.devices then Some(addr) else n.clients.ActiveAddr(x)
  {
    var at := n.Edited(Op.SetActiveAddr(h, Some(addr)));
    EditShowsAddr(n, Op.SetActiveAddr(h, Some(addr)), x);
    EditShowsAddr(at, Op.SetRemovedByPeer(h, false), x);
    EditShowsAddr(at.Edited(Op.SetRemovedByPeer(h, false)), Op.SetDialsUs(h, true), x);
  }

  lemma AdoptingTable(n: Net, h: Handle, fp: Fingerprint, addr: SocketAddr, open: bool)
    ensures var r := n.Adopt(h, fp, addr, open);
      var freed := if n.LinkOf(h).Some? then n.links - {n.clients.ActiveAddr(h).value} else n.links;
      && r.nextSerial == n.nextSerial + 1 && r.clients.next == n.clients.next
      && r.clients.devices.Keys == n.clients.devices.Keys
      && r.links == (if n.AdoptOutcome(h, open).Taken? then freed[addr := Link(fp, h, true, n.nextSerial)] else n.links)
  {
    AdoptedShape(n.(adopting := n.adopting - multiset{DialledIn(h, fp, addr)}).Freed(h), h, addr);
  }

  lemma LandingEnds(n: Net, h: Handle, addr: SocketAddr, fp: Fingerprint, paired: bool, a: SocketAddr)
    requires Ordered(n) && a in n.links
    ensures Holds(n.DialLands(h, addr, fp, paired), a, n.links[a]) <==>
      !(addr == a && n.DialOutcome(h, addr, fp, paired).Linked?)
  {
    LandingTable(n, h, addr, fp, paired);
  }

  lemma AdoptingEnds(n: Net, h: Handle, fp: Fingerprint, addr: SocketAddr, open: bool, a: SocketAddr)
    requires Ordered(n) && a in n.links
    ensures Holds(n.Adopt(h, fp, addr, open), a, n.links[a]) <==>
      !(n.AdoptOutcome(h, open).Taken? && (addr == a || n.clients.ActiveAddr(h) == Some(a)))
  {
    AdoptingTable(n, h, fp, addr, open);
  }

  lemma TeardownEnds(n: Net, s: Step, a: SocketAddr)
    requires a in n.links && (s.TaskEnds? || s.CloseAddr? || s.Send? || s.SendTo?)
    ensures Holds(Next(n, s), a, n.links[a]) <==> !Ends(n, s, a)
  {
    match s
    case TaskEnds(h, addr, ended) => DisconnectTable(n, h, addr, Some(ended));
    case CloseAddr(addr) => CloseTable(n, addr);
    case Send(f, h, fails) => SendTable(n, f, h, fails);
    case SendTo(f, h, addr, fails) => SendToTable(n, f, h, addr, fails);
  }

  /** A link in the table is out of it after a step exactly when the step ends it. */
  lemma StepEnds(n: Net, s: Step, a: SocketAddr)
    requires Ordered(n) && a in n.links
    ensures Holds(Next(n, s), a, n.links[a]) <==> !Ends(n, s, a)
  {
    match s
    case TaskEnds(_, _, _) => TeardownEnds(n, s, a);
    case CloseAddr(_) => TeardownEnds(n, s, a);
    case Send(_, _, _) => TeardownEnds(n, s, a);
    case SendTo(_, _, _, _) => TeardownEnds(n, s, a);
    case DialLands(h, addr, fp, paired) => LandingEnds(n, h, addr, fp, paired, a);
    case DialInLands(h, addr, fp, open) => AdoptingEnds(n, h, fp, addr, open, a);
    case _ =>
  }

  /** What a step can make of the table: fewer links, or one more under a new serial. */
  ghost predicate Shrinks(n: Net, r: Net) {
    && n.nextSerial <= r.nextSerial && (forall a :: a in r.links ==> Holds(n, a, r.links[a]))
  }

  lemma StepShrinksOrAdds(n: Net, s: Step)
    requires !s.DialLands? && !s.DialInLands?
    ensures Shrinks(n, Next(n, s))
  {
    match s
    case TaskEnds(h, addr, ended) => DisconnectTable(n, h, addr, Some(ended));
    case CloseAddr(addr) => CloseTable(n, addr);
    case Send(f, h, fails) => SendTable(n, f, h, fails);
    case SendTo(f, h, addr, fails) => SendToTable(n, f, h, addr, fails);
    case _ =>
  }

  lemma StepHandsOut(n: Net, s: Step)
    requires HandedOut(n.clients)
    ensures HandedOut(Next(n, s).clients)
  {
    match s
    case Edit(op) => EditsHandOut(n.clients, op);
    case TaskEnds(h, addr, ended) => DisconnectTable(n, h, addr, Some(ended));
    case CloseAddr(addr) => CloseTable(n, addr);
    case Send(f, h, fails) => SendTable(n, f, h, fails);
    case SendTo(f, h, addr, fails) => SendToTable(n, f, h, addr, fails);
    case DialLands(h, addr, fp, paired) => LandingTable(n, h, addr, fp, paired);
    case DialInLands(h, addr, fp, open) => AdoptingTable(n, h, fp, addr, open);
    case _ =>
  }

  lemma StepStaysOrdered(n: Net, s: Step)
    requires Ordered(n)
    ensures Ordered(Next(n, s)) && n.nextSerial <= Next(n, s).nextSerial
    ensures forall a :: a in Next(n, s).links ==>
      Holds(n, a, Next(n, s).links[a]) || Next(n, s).links[a].serial == n.nextSerial
  {
    StepHandsOut(n, s);
    match s
    case DialLands(h, addr, fp, paired) =>
      LandingTable(n, h, addr, fp, paired);
      AddingStaysOrdered(n, Next(n, s), addr);
    case DialInLands(h, addr, fp, open) =>
      AdoptingTable(n, h, fp, addr, open);
      AddingStaysOrdered(n, Next(n, s), addr);
    case _ =>
      StepShrinksOrAdds(n, s);
      ShrinkingStaysOrdered(n, Next(n, s));
  }

  lemma ShrinkingStaysOrdered(n: Net, r: Net)
    requires Ordered(n) && Shrinks(n, r) && HandedOut(r.clients)
    ensures Ordered(r)
  {
  }

  lemma AddingStaysOrdered(n: Net, r: Net, addr: SocketAddr)
    requires Ordered(n) && HandedOut(r.clients) && r.nextSerial == n.nextSerial + 1
    requires forall a :: a in r.links ==> Holds(n, a, r.links[a]) || (a == addr && r.links[a].serial == n.nextSerial)
    ensures Ordered(r)
  {
  }

  // ---------------------------------------------- a link's life, over a run

  ghost predicate EndedBy(n: Net, steps: seq<Step>, a: SocketAddr)
    requires a in n.links
    decreases |steps|
  {
    steps != [] && (Ends(n, steps[0], a) || (Holds(Next(n, steps[0]), a, n.links[a]) && EndedBy(Next(n, steps[0]), steps[1..], a)))
  }

  predicate Gone(n: Net, serial: nat) {
    forall a :: a in n.links ==> n.links[a].serial != serial
  }

  /** A link out of the table never comes back into it. */
  lemma {:induction false} GoneStaysGone(n: Net, steps: seq<Step>, serial: nat)
    requires Ordered(n) && serial < n.nextSerial && Gone(n, serial)
    ensures Gone(Links.Run(n, steps), serial)
    decreases |steps|
  {
    if steps != [] {
      StepStaysOrdered(n, steps[0]);
      GoneStaysGone(Next(n, steps[0]), steps[1..], serial);
    }
  }

  /** Over any run at all, a link is still in the table exactly when no step of
      the run ended it. */
  lemma {:induction false} LinkLastsUntilEnded(n: Net, steps: seq<Step>, a: SocketAddr)
    requires Ordered(n) && a in n.links
    ensures Holds(Links.Run(n, steps), a, n.links[a]) <==> !EndedBy(n, steps, a)
    ensures EndedBy(n, steps, a) ==> Gone(Links.Run(n, steps), n.links[a].serial)
    decreases |steps|
  {
    if steps != [] {
      var m := Next(n, steps[0]);
      StepEnds(n, steps[0], a);
      StepStaysOrdered(n, steps[0]);
      if Ends(n, steps[0], a) {
        assert Gone(m, n.links[a].serial);
        GoneStaysGone(m, steps[1..], n.links[a].serial);
      } else {
        LinkLastsUntilEnded(m, steps[1..], a);
      }
    }
  }

  // --------------------------------------------- what a device shows, once down

  /** The device shows no link: recorded nowhere, not alive, with no capability; and
      is otherwise as it was. */
  predicate WentDark(d: Device, r: Device) {
    && r.config == d.config
    && r.state.activeAddr.None? && !r.state.alive && !r.state.caps
    && r.state.active == d.state.active && r.state.pin == d.state.pin
    && r.state.ips == d.state.ips && r.state.dnsIps == d.state.dnsIps
    && r.state.removedByPeer == d.state.removedByPeer && r.state.dialsUs == d.state.dialsUs
  }

  /** These devices went dark and have answered no ping; no other changed. */
  ghost predicate OnlyTheseDark(c: Clients, r: Clients, hs: set<Handle>) {
    && r.devices.Keys == c.devices.Keys && r.next == c.next
    && (forall h :: h in c.devices ==> if h in hs then WentDark(c.devices[h], r.devices[h]) else r.devices[h] == c.devices[h])
    && r.answered == c.answered - hs && r.refusedAs == c.refusedAs && r.answeredAs == c.answeredAs
  }

  lemma ClearingGoesDark(n: Net, h: Handle)
    ensures OnlyTheseDark(n.clients, n.Cleared(h).clients, {h})
  {
  }

  /** Whether the task of `ended`, or whoever closes what is at `addr`, leaves `h`
      with no link to show: it is recorded there or nowhere, and no newer link of
      its own is there. */
  predicate LeavesDark(n: Net, h: Handle, addr: SocketAddr, ended: Option<nat>) {
    && (n.clients.ActiveAddr(h).None? || n.clients.ActiveAddr(h) == Some(addr))
    && !(addr in n.links && ended.Some? && n.links[addr].serial != ended.value && n.links[addr].handle == h)
  }

  /** A link that ends leaves its device dark, exactly when that shows it; and changes
      no other device. */
  lemma DisconnectGoesDark(n: Net, h: Handle, addr: SocketAddr, ended: Option<nat>)
    ensures var r := n.Disconnect(h, addr, ended).clients;
      if LeavesDark(n, h, addr, ended) then OnlyTheseDark(n.clients, r, {h}) else r == n.clients
  {
    ClearingGoesDark(n.(closed := n.closed + if ended.Some? then {ended.value} else {}), h);
    ClearingGoesDark(n.Unregister(addr), h);
  }

  /** A write that fails on a device's own link, and one refused for want of trust,
      leave it dark. */
  lemma LostLinkGoesDark(n: Net, f: Frame, h: Handle, fails: bool)
    requires n.SendAnswer(h).NotPermitted? || (n.SendAnswer(h).Sent? && fails)
    ensures OnlyTheseDark(n.clients, n.Send(f, h, fails).clients, {h})
  {
    var a := n.clients.ActiveAddr(h).value;
    DisconnectGoesDark(n, h, a, Some(n.links[a].serial));
    DisconnectGoesDark(n.(wire := n.wire + [Write(f, n.links[a].fp)]), h, a, Some(n.links[a].serial));
  }

  /** What sending to a device comes to. With no link it is dialled, unless it is being
      dialled; with one to a machine that may not be driven the link is closed; with one
      whose peer takes no input nothing happens; and else the frame is written on it, and
      a write that fails ends it. Only in that last case is anything written. */
  lemma SendExactly(n: Net, f: Frame, h: Handle, fails: bool)
    ensures var r := n.Send(f, h, fails);
      match n.LinkOf(h)
      case None =>
        n.SendAnswer(h) == NotConnected && h in r.connecting
        && r == n.(connecting := r.connecting) && (h in n.connecting ==> r == n)
        && forall x :: x != h ==> (x in r.connecting <==> x in n.connecting)
      case Some(l) =>
        && r.connecting == n.connecting
        && (l.fp !in n.trust ==>
              && n.SendAnswer(h) == NotPermitted && r.wire == n.wire && l.serial in r.closed
              && r.links == n.links - {n.clients.ActiveAddr(h).value})
        && (l.fp in n.trust && !n.clients.devices[h].state.alive ==> n.SendAnswer(h) == TargetEmulationDisabled && r == n)
        && (l.fp in n.trust && n.clients.devices[h].state.alive ==>
              && n.SendAnswer(h) == Sent(l.serial) && r.wire == n.wire + [Write(f, l.fp)]
              && (fails ==> r.links == n.links - {n.clients.ActiveAddr(h).value} && l.serial in r.closed)
              && (!fails ==> r == n.(wire := r.wire)))
  {
    if n.LinkOf(h).Some? {
      var a := n.clients.ActiveAddr(h).value;
      DisconnectTable(n, h, a, Some(n.links[a].serial));
      DisconnectTable(n.(wire := n.wire + [Write(f, n.links[a].fp)]), h, a, Some(n.links[a].serial));
      DisconnectWrites(n, h, a, Some(n.links[a].serial));
      DisconnectWrites(n.(wire := n.wire + [Write(f, n.links[a].fp)]), h, a, Some(n.links[a].serial));
    }
  }

  lemma DisconnectWrites(n: Net, h: Handle, addr: SocketAddr, ended: Option<nat>)
    ensures var r := n.Disconnect(h, addr, ended);
      && r.wire == n.wire && r.trust == n.trust && n.closed <= r.closed
      && (ended.Some? && addr in n.links ==> ended.value in r.closed)
      && r.closed <= n.closed + (if ended.Some? then {ended.value} else if addr in n.links then {n.links[addr].serial} else {})
  {
  }

  /** What sending to a place comes to, whoever is there: with no link, nothing; a frame
      that can press, without trust, nothing; and else the frame is written on the link
      there, and a write that fails ends it. */
  lemma SendToExactly(n: Net, f: Frame, h: Handle, addr: SocketAddr, fails: bool)
    ensures var r := n.SendTo(f, h, addr, fails);
      if addr !in n.links then n.SendToAnswer(f, addr) == NotConnected && r == n
      else if !OnlyLetsGo(f) && n.links[addr].fp !in n.trust then n.SendToAnswer(f, addr) == NotPermitted && r == n
      else
        && n.SendToAnswer(f, addr) == Sent(n.links[addr].serial) && r.wire == n.wire + [Write(f, n.links[addr].fp)]
        && (fails ==> r.links == n.links - {addr} && n.links[addr].serial in r.closed)
        && (!fails ==> r == n.(wire := r.wire))
  {
    if addr in n.links {
      var w := n.(wire := n.wire + [Write(f, n.links[addr].fp)]);
      DisconnectTable(w, h, addr, Some(n.links[addr].serial));
      DisconnectWrites(w, h, addr, Some(n.links[addr].serial));
    }
  }

  /** `h` alone changed, and of it what it shows of its link. */
  ghost predicate OnlyItsState(c: Clients, r: Clients, h: Handle) {
    && r.devices.Keys == c.devices.Keys && r.next == c.next
    && (forall x :: x in c.devices && x != h ==> r.devices[x] == c.devices[x])
    && (h in c.devices ==> r.devices[h].config == c.devices[h].config
                           && r.devices[h].state.active == c.devices[h].state.active
                           && r.devices[h].state.ips == c.devices[h].state.ips
                           && r.devices[h].state.dnsIps == c.devices[h].state.dnsIps)
  }

  /** A Pong records where its device is up, that it answered there, and whether its peer
      takes input; and nothing else. */
  lemma PongExactly(n: Net, h: Handle, addr: SocketAddr, alive: bool)
    ensures var r := n.Pong(h, addr, alive);
      && r == n.(clients := r.clients) && OnlyItsState(n.clients, r.clients, h)
      && r.clients.answered == n.clients.answered + (if h in n.clients.devices then {h} else {})
      && (h in n.clients.devices ==>
            var d, e := n.clients.devices[h].state, r.clients.devices[h].state;
            && e.activeAddr == Some(addr) && e.alive == alive && e.pin == d.pin && e.caps == d.caps
            && e.removedByPeer == d.removedByPeer && e.dialsUs == d.dialsUs)
  {
  }

  /** What a dial-in that is taken leaves of its device: up where it came from, not
      removed by its peer, and known to dial here. */
  lemma AdoptedDevice(n: Net, h: Handle, addr: SocketAddr)
    ensures var r := Adopted(n, h, addr);
      && OnlyItsState(n.clients, r.clients, h)
      && (h in n.clients.devices ==>
            var d, e := n.clients.devices[h].state, r.clients.devices[h].state;
            && e.activeAddr == Some(addr) && !e.removedByPeer && e.dialsUs && e.pin == d.pin && e.alive == d.alive && e.caps == d.caps)
  {
  }

  /** The same of the whole step, whether or not it is taken. */
  lemma AdoptingDevice(n: Net, h: Handle, fp: Fingerprint, addr: SocketAddr, open: bool)
    ensures var r := n.Adopt(h, fp, addr, open);
      if n.AdoptOutcome(h, open).Taken? then
        && OnlyItsState(n.clients, r.clients, h)
        && (h in n.clients.devices ==>
              var d, e := n.clients.devices[h].state, r.clients.devices[h].state;
              && e.activeAddr == Some(addr) && !e.removedByPeer && e.dialsUs && e.pin == d.pin && e.alive == d.alive && e.caps == d.caps)
      else r.clients == n.clients
  {
    AdoptedDevice(n.(adopting := n.adopting - multiset{DialledIn(h, fp, addr)}).Freed(h), h, addr);
  }

  lemma PinnedDevice(c: Clients, h: Handle, fp: Fingerprint)
    requires h in c.devices && c.PinAnswer(h, fp).Pinned?
    ensures var r := c.Pin(h, fp);
      && OnlyItsState(c, r, h) && h !in r.refusedAs && h !in r.answeredAs
      && r.devices[h].state == c.devices[h].state.(pin := Some(fp))
  {
  }

  /** The device as a dial that is linked leaves it, before its link is in the table. */
  function LandedAt(n: Net, h: Handle, addr: SocketAddr): (r: Net) {
    n.Edited(Op.SetActiveAddr(h, Some(addr))).Edited(Op.SetRemovedByPeer(h, false))
  }

  lemma LandedAtDevice(n: Net, h: Handle, addr: SocketAddr)
    requires h in n.clients.devices
    ensures var r := LandedAt(n, h, addr);
      && OnlyItsState(n.clients, r.clients, h)
      && r.clients.devices[h].state == n.clients.devices[h].state.(activeAddr := Some(addr), removedByPeer := false)
      && r.clients.refusedAs == n.clients.refusedAs && r.clients.answeredAs == n.clients.answeredAs
  {
  }

  /** What a dial that is linked leaves of its device: up where it landed, pinned to the
      machine it reached, not removed by its peer, and with no refusal or other machine
      on record. One whose machine another device has records that machine as what it
      was refused as. */
  lemma LandedDevice(n: Net, h: Handle, addr: SocketAddr, fp: Fingerprint, paired: bool)
    ensures var r, answer := n.DialLands(h, addr, fp, paired).clients, n.DialOutcome(h, addr, fp, paired);
      && (answer.Linked? ==>
            && OnlyItsState(n.clients, r, h) && h in n.clients.devices && h !in r.refusedAs && h !in r.answeredAs
            && r.devices[h].state == n.clients.devices[h].state.(pin := Some(fp), activeAddr := Some(addr), removedByPeer := false))
      && (answer.AlreadyAdded? ==> r == n.clients.(refusedAs := n.clients.refusedAs[h := fp]))
      && (answer.PairedOnly? ==>
            && OnlyItsState(n.clients, r, h) && h in n.clients.devices && h !in r.refusedAs && h !in r.answeredAs
            && r.devices[h].state == n.clients.devices[h].state.(pin := Some(fp)))
      && (answer.StaleDial? || answer.SwitchedOffMeanwhile? || answer.LinkedMeanwhile? || answer.OtherMachine? ==> r == n.clients)
  {
    SettlingDecidesNothing(n, h, addr, fp, paired);
    var answer := n.DialOutcome(h, addr, fp, paired);
    if answer.Linked? || answer.PairedOnly? {
      PinnedDevice(n.clients, h, fp);
      LandedAtDevice(n.Settling(h).Edited(Op.Pin(h, fp)), h, addr);
    }
  }

  lemma {:induction false} EachGoesDark(n: Net, addr: SocketAddr, hs: seq<Handle>)
    requires forall h :: h in hs ==> n.clients.ActiveAddr(h) == Some(addr)
    requires forall i, j :: 0 <= i < j < |hs| ==> hs[i] != hs[j]
    ensures OnlyTheseDark(n.clients, n.DisconnectEach(addr, hs).clients, set h | h in hs)
    decreases |hs|
  {
    if hs != [] {
      var m := n.Disconnect(hs[0], addr, None);
      DisconnectGoesDark(n, hs[0], addr, None);
      forall h | h in hs[1..] ensures m.clients.ActiveAddr(h) == Some(addr) {
        assert h in hs && h != hs[0];
      }
      EachGoesDark(m, addr, hs[1..]);
      assert (set h | h in hs) == (set h | h in hs[1..]) + {hs[0]};
    }
  }

  lemma ListedThere(c: Clients, addr: SocketAddr, there: set<Handle>)
    requires forall h :: h in there <==> h in c.devices && c.ActiveAddr(h) == Some(addr)
    ensures var hs := Ascending(c.HandlesAt(addr));
      (set h | h in hs) == there && forall i, j :: 0 <= i < j < |hs| ==> hs[i] != hs[j]
  {
    assert c.HandlesAt(addr) == there;
  }

  /** Closing what is at an address leaves every device recorded there dark, and no
      other changed. */
  lemma CloseGoesDark(n: Net, addr: SocketAddr, there: set<Handle>)
    requires forall h :: h in there <==> h in n.clients.devices && n.clients.ActiveAddr(h) == Some(addr)
    ensures OnlyTheseDark(n.clients, n.CloseAddr(addr).clients, there)
  {
    var u, hs := n.Unregister(addr), Ascending(n.clients.HandlesAt(addr));
    assert u.clients == n.clients;
    ListedThere(n.clients, addr, there);
    forall h | h in hs ensures u.clients.ActiveAddr(h) == Some(addr) {
      assert h in there;
    }
    EachGoesDark(u, addr, hs);
  }

  /** The device is recorded at another address, or has a link of its own there. */
  predicate StillUp(m: Net, h: Handle, addr: SocketAddr) {
    || (m.clients.ActiveAddr(h).Some? && m.clients.ActiveAddr(h).value != addr)
    || (addr in m.links && m.links[addr].handle == h)
  }

  /** When a link has ended, by whatever step of a run, its own task's late end
      changes nothing in the table, closes nothing else, touches no other device,
      and leaves its device alone exactly when that is recorded elsewhere or a link
      of its own is at the address by then; otherwise what it shows is cleared. A
      device that stayed up through a rename is recorded nowhere until its peer
      next answers, so an older link's late task does clear it. */
  lemma LateTaskChangesNoLink(n: Net, steps: seq<Step>, a: SocketAddr, i: nat)
    requires Ordered(n) && a in n.links && i < |steps| && EndedBy(n, steps[..i], a)
    requires steps[i].TaskEnds? && steps[i].ended == n.links[a].serial
    ensures var m, r, h := At(n, steps, i), At(n, steps, i + 1), steps[i].h;
      && r.links == m.links && r.closed <= m.closed + {steps[i].ended}
      && (forall x :: x != h ==> r.clients.PinOf(x) == m.clients.PinOf(x) && r.clients.ActiveAddr(x) == m.clients.ActiveAddr(x))
      && (m.LinkOf(h).Some? && m.LinkOf(h).value.handle == h ==> r.clients == m.clients)
      && (if StillUp(m, h, steps[i].addr) then r.clients == m.clients else OnlyTheseDark(m.clients, r.clients, {h}))
  {
    LinkLastsUntilEnded(n, steps[..i], a);
    OneStepLater(n, steps, i);
    LateTaskTouchesOnlyItsLink(At(n, steps, i), steps[i].h, steps[i].addr, steps[i].ended);
    DisconnectTable(At(n, steps, i), steps[i].h, steps[i].addr, Some(steps[i].ended));
    DisconnectGoesDark(At(n, steps, i), steps[i].h, steps[i].addr, Some(steps[i].ended));
  }

  /** Of dials and dial-ins, the only ones that end a link this machine dialled,
      while it is its device's, are another device's, registered where it is. */
  lemma DialledLinkGivesWayToAnotherDevice(n: Net, s: Step, h: Handle)
    requires n.LinkOf(h).Some? && !n.LinkOf(h).value.dialledIn
    requires (s.DialLands? || s.DialInLands?) && Ends(n, s, n.clients.ActiveAddr(h).value)
    ensures s.h != h && Some(s.addr) == n.clients.ActiveAddr(h)
  {
  }

  /** A link that was dialled in gives way also to a newer dial-in of its device. */
  lemma DialledInLinkGivesWay(n: Net, s: Step, h: Handle)
    requires n.LinkOf(h).Some? && n.LinkOf(h).value.dialledIn
    requires (s.DialLands? || s.DialInLands?) && Ends(n, s, n.clients.ActiveAddr(h).value)
    ensures s.DialInLands? || (s.h != h && Some(s.addr) == n.clients.ActiveAddr(h))
  {
  }

  // ------------------------------------------- a device's link, over a run

  /** The steps that take `h` off its link without ending it: it is recorded
      elsewhere or nowhere, or the late task of another device's link, at the
      address it is recorded at, clears it. */
  predicate MovesOff(n: Net, s: Step, h: Handle)
    requires n.LinkOf(h).Some?
  {
    var a := n.clients.ActiveAddr(h).value;
    match s
    case Edit(SetActiveAddr(x, addr)) => x == h && addr != Some(a)
    case Edit(SetHostname(x, name)) => x == h && n.clients.devices[h].config.hostname != name
    case Edit(SetPort(x, port)) => x == h && n.clients.devices[h].config.port != port && a.port != port
    case Edit(Remove(x)) => x == h
    case Pong(x, addr, _) => x == h && addr != a
    case TaskEnds(x, addr, ended) => x == h && addr == a && n.links[a].serial != ended && n.links[a].handle != h
    case _ => false
  }

  predicate Leaves(n: Net, s: Step, h: Handle)
    requires n.LinkOf(h).Some?
  {
    Ends(n, s, n.clients.ActiveAddr(h).value) || MovesOff(n, s, h)
  }

  lemma DisconnectShows(n: Net, x: Handle, addr: SocketAddr, ended: Option<nat>, h: Handle)
    ensures n.Disconnect(x, addr, ended).clients.ActiveAddr(h) ==
      if x == h && (n.clients.ActiveAddr(h).None? || n.clients.ActiveAddr(h) == Some(addr))
         && !(addr in n.links && ended.Some? && n.links[addr].serial != ended.value && n.links[addr].handle == x)
      then None else n.clients.ActiveAddr(h)
    ensures n.Disconnect(x, addr, ended).clients.PinOf(h) == n.clients.PinOf(h)
  {
    ClearedShows(n.(closed := n.closed + if ended.Some? then {ended.value} else {}), x, h);
    ClearedShows(n.Unregister(addr), x, h);
  }

  lemma ClearedShows(n: Net, x: Handle, h: Handle)
    ensures n.Cleared(x).clients.ActiveAddr(h) == if x == h then None else n.clients.ActiveAddr(h)
    ensures n.Cleared(x).clients.PinOf(h) == n.clients.PinOf(h)
  {
  }

  lemma {:induction false} DisconnectEachShows(n: Net, addr: SocketAddr, hs: seq<Handle>, h: Handle)
    ensures n.DisconnectEach(addr, hs).clients.ActiveAddr(h).None?
         || n.DisconnectEach(addr, hs).clients.ActiveAddr(h) == n.clients.ActiveAddr(h)
    ensures h !in hs ==> n.DisconnectEach(addr, hs).clients.ActiveAddr(h) == n.clients.ActiveAddr(h)
    ensures n.DisconnectEach(addr, hs).clients.PinOf(h) == n.clients.PinOf(h)
    decreases |hs|
  {
    if hs != [] {
      DisconnectShows(n, hs[0], addr, None, h);
      DisconnectEachShows(n.Disconnect(hs[0], addr, None), addr, hs[1..], h);
    }
  }

  lemma CloseShows(n: Net, addr: SocketAddr, h: Handle)
    ensures n.CloseAddr(addr).clients.ActiveAddr(h).None?
         || n.CloseAddr(addr).clients.ActiveAddr(h) == n.clients.ActiveAddr(h)
    ensures n.clients.ActiveAddr(h) != Some(addr) ==> n.CloseAddr(addr).clients.ActiveAddr(h) == n.clients.ActiveAddr(h)
    ensures n.CloseAddr(addr).clients.PinOf(h) == n.clients.PinOf(h)
  {
    DisconnectEachShows(n.Unregister(addr), addr, Ascending(n.clients.HandlesAt(addr)), h);
  }

  lemma WrittenShows(n: Net, f: Frame, x: Handle, addr: SocketAddr, fails: bool, h: Handle)
    requires addr in n.links
    ensures n.Written(f, x, addr, fails).clients.ActiveAddr(h) ==
      if fails && x == h && (n.clients.ActiveAddr(h).None? || n.clients.ActiveAddr(h) == Some(addr)) then None else n.clients.ActiveAddr(h)
    ensures n.Written(f, x, addr, fails).clients.PinOf(h) == n.clients.PinOf(h)
  {
    DisconnectShows(n.(wire := n.wire + [Write(f, n.links[addr].fp)]), x, addr, Some(n.links[addr].serial), h);
  }

  lemma SendShows(n: Net, f: Frame, x: Handle, fails: bool, h: Handle)
    ensures n.Send(f, x, fails).clients.ActiveAddr(h) ==
      if x == h && (n.SendAnswer(h).NotPermitted? || (n.SendAnswer(h).Sent? && fails)) then None
      else n.clients.ActiveAddr(h)
    ensures n.Send(f, x, fails).clients.PinOf(h) == n.clients.PinOf(h)
  {
    match n.SendAnswer(x)
    case NotPermitted =>
      DisconnectShows(n, x, n.clients.ActiveAddr(x).value, Some(n.LinkOf(x).value.serial), h);
    case Sent(_) => WrittenShows(n, f, x, n.clients.ActiveAddr(x).value, fails, h);
    case _ =>
  }

  lemma SendToShows(n: Net, f: Frame, x: Handle, addr: SocketAddr, fails: bool, h: Handle)
    ensures n.SendTo(f, x, addr, fails).clients.ActiveAddr(h) ==
      if n.SendToAnswer(f, addr).Sent? && fails && x == h && (n.clients.ActiveAddr(h).None? || n.clients.ActiveAddr(h) == Some(addr)) then None
      else n.clients.ActiveAddr(h)
    ensures n.SendTo(f, x, addr, fails).clients.PinOf(h) == n.clients.PinOf(h)
  {
    if n.SendToAnswer(f, addr).Sent? {
      WrittenShows(n, f, x, addr, fails, h);
    }
  }

  lemma EditMovesOff(n: Net, op: Op, h: Handle)
    requires Ordered(n) && n.LinkOf(h).Some?
    ensures n.Edited(op).clients.ActiveAddr(h) == n.clients.ActiveAddr(h) <==> !MovesOff(n, Edit(op), h)
  {
  }

  lemma RegisteringKeepsOthers(n: Net, s: Step, h: Handle)
    requires n.LinkOf(h).Some? && (s.DialLands? || s.DialInLands?)
    requires !Ends(n, s, n.clients.ActiveAddr(h).value)
    ensures Next(n, s).clients.ActiveAddr(h) == n.clients.ActiveAddr(h)
  {
    match s
    case DialLands(x, addr, fp, paired) => LandingShows(n, x, addr, fp, paired, h);
    case DialInLands(x, addr, fp, open) => AdoptingShows(n, x, fp, addr, open, h);
  }

  lemma LandingShows(n: Net, x: Handle, addr: SocketAddr, fp: Fingerprint, paired: bool, h: Handle)
    ensures n.DialLands(x, addr, fp, paired).clients.ActiveAddr(h) ==
      if x == h && n.DialOutcome(x, addr, fp, paired).Linked? then Some(addr) else n.clients.ActiveAddr(h)
  {
    LandingTable(n, x, addr, fp, paired);
    if n.DialOutcome(x, addr, fp, paired).Linked? {
      DialRegistersOnlyItsDevice(n, x, addr, fp, paired);
    } else {
      RefusedDialChangesNothing(n, x, addr, fp, paired);
    }
  }

  lemma AdoptingShows(n: Net, x: Handle, fp: Fingerprint, addr: SocketAddr, open: bool, h: Handle)
    ensures n.Adopt(x, fp, addr, open).clients.ActiveAddr(h) ==
      if x == h && h in n.clients.devices && n.AdoptOutcome(x, open).Taken? then Some(addr) else n.clients.ActiveAddr(h)
    ensures n.Adopt(x, fp, addr, open).clients.PinOf(h) == n.clients.PinOf(h)
  {
    AdoptedShows(n.(adopting := n.adopting - multiset{DialledIn(x, fp, addr)}).Freed(x), x, addr, h);
  }

  lemma TeardownMovesOff(n: Net, s: Step, h: Handle)
    requires n.LinkOf(h).Some? && (s.TaskEnds? || s.CloseAddr? || s.Send? || s.SendTo?)
    requires !Ends(n, s, n.clients.ActiveAddr(h).value)
    ensures Next(n, s).clients.ActiveAddr(h) == (if MovesOff(n, s, h) then None else n.clients.ActiveAddr(h))
  {
    match s
    case TaskEnds(x, addr, ended) => DisconnectShows(n, x, addr, Some(ended), h);
    case CloseAddr(addr) => CloseShows(n, addr, h);
    case Send(f, x, fails) => SendShows(n, f, x, fails, h);
    case SendTo(f, x, addr, fails) => SendToShows(n, f, x, addr, fails, h);
  }

  /** A device's link is another one, or none, after a step exactly when the step
      ends that link or takes the device off it. */
  lemma StepLeaves(n: Net, s: Step, h: Handle)
    requires Ordered(n) && n.LinkOf(h).Some?
    ensures Next(n, s).LinkOf(h) == n.LinkOf(h) <==> !Leaves(n, s, h)
  {
    var a := n.clients.ActiveAddr(h).value;
    StepEnds(n, s, a);
    StepStaysOrdered(n, s);
    if !Ends(n, s, a) {
      StepMovesOff(n, s, h);
    }
  }

  lemma StepMovesOff(n: Net, s: Step, h: Handle)
    requires Ordered(n) && n.LinkOf(h).Some? && !Ends(n, s, n.clients.ActiveAddr(h).value)
    ensures Next(n, s).clients.ActiveAddr(h) == n.clients.ActiveAddr(h) <==> !MovesOff(n, s, h)
  {
    match s
    case Edit(op) => EditMovesOff(n, op, h);
    case DialLands(_, _, _, _) => RegisteringKeepsOthers(n, s, h);
    case DialInLands(_, _, _, _) => RegisteringKeepsOthers(n, s, h);
    case TaskEnds(_, _, _) => TeardownMovesOff(n, s, h);
    case CloseAddr(_) => TeardownMovesOff(n, s, h);
    case Send(_, _, _) => TeardownMovesOff(n, s, h);
    case SendTo(_, _, _, _) => TeardownMovesOff(n, s, h);
    case _ =>
  }

  ghost predicate LeftBy(n: Net, steps: seq<Step>, h: Handle)
    requires n.LinkOf(h).Some?
    decreases |steps|
  {
    steps != [] && (Leaves(n, steps[0], h)
                    || (Next(n, steps[0]).LinkOf(h) == n.LinkOf(h) && LeftBy(Next(n, steps[0]), steps[1..], h)))
  }

  lemma LaterMoments(n: Net, steps: seq<Step>)
    requires steps != []
    ensures At(n, steps, 0) == n
    ensures forall i :: 0 <= i < |steps| ==> At(Next(n, steps[0]), steps[1..], i) == At(n, steps, i + 1)
  {
    forall i | 0 <= i < |steps| ensures At(Next(n, steps[0]), steps[1..], i) == At(n, steps, i + 1) {
      assert steps[..i + 1][1..] == steps[1..][..i];
    }
  }

  /** Over any run at all, a device is on the same link at every moment exactly when
      no step ended that link or took the device off it. */
  lemma {:induction false} DeviceKeepsItsLink(n: Net, steps: seq<Step>, h: Handle)
    requires Ordered(n) && n.LinkOf(h).Some?
    ensures !LeftBy(n, steps, h) <==> forall i :: 0 <= i <= |steps| ==> At(n, steps, i).LinkOf(h) == n.LinkOf(h)
    decreases |steps|
  {
    if steps == [] {
      assert At(n, steps, 0) == n;
    } else {
      var m, rest := Next(n, steps[0]), steps[1..];
      StepLeaves(n, steps[0], h);
      StepStaysOrdered(n, steps[0]);
      LaterMoments(n, steps);
      assert At(m, rest, 0) == m;
      assert At(n, steps, 1) == m;
      if m.LinkOf(h) == n.LinkOf(h) {
        DeviceKeepsItsLink(m, rest, h);
        forall i | 0 <= i <= |rest| ensures At(m, rest, i) == At(n, steps, i + 1) {
        }
        if forall i :: 0 <= i <= |rest| ==> At(m, rest, i).LinkOf(h) == m.LinkOf(h) {
          forall i | 0 <= i <= |steps| ensures At(n, steps, i).LinkOf(h) == n.LinkOf(h) {
            if i > 0 {
              assert At(m, rest, i - 1).LinkOf(h) == m.LinkOf(h);
            }
          }
        }
      }
    }
  }

  /** A dial or dial-in for the device itself, a dial or dial-in that has not landed,
      or the late task of a link other than the one with this serial. */
  predicate OwnOrLate(s: Step, h: Handle, serial: nat) {
    match s
    case DialLands(x, _, _, _) => x == h
    case DialInLands(x, _, _, _) => x == h
    case TaskEnds(_, _, ended) => ended != serial
    case StartDial(_) => true
    case DialReads(_) => true
    case DialReaches(_, _, _, _) => true
    case DialEnds(_) => true
    case DialIn(_, _, _) => true
    case _ => false
  }

  /** However many dials for a device land, machines dial in as it and tasks of
      older links end late, it keeps the link this machine dialled for it. */
  lemma {:induction false} DialledLinkOutlivesItsOwn(n: Net, steps: seq<Step>, h: Handle)
    requires Ordered(n) && n.LinkOf(h).Some?
    requires !n.LinkOf(h).value.dialledIn && n.LinkOf(h).value.handle == h
    requires forall i :: 0 <= i < |steps| ==> OwnOrLate(steps[i], h, n.LinkOf(h).value.serial)
    ensures Links.Run(n, steps).LinkOf(h) == n.LinkOf(h)
    ensures Holds(Links.Run(n, steps), n.clients.ActiveAddr(h).value, n.LinkOf(h).value)
    decreases |steps|
  {
    if steps != [] {
      var s := steps[0];
      assert OwnOrLate(s, h, n.LinkOf(h).value.serial);
      StepLeaves(n, s, h);
      StepEnds(n, s, n.clients.ActiveAddr(h).value);
      StepStaysOrdered(n, s);
      OwnOrLateKeepsAddress(n, s, h);
      assert forall i :: 0 <= i < |steps[1..]| ==> steps[1..][i] == steps[i + 1];
      DialledLinkOutlivesItsOwn(Next(n, s), steps[1..], h);
    }
  }

  lemma OwnOrLateKeepsAddress(n: Net, s: Step, h: Handle)
    requires n.LinkOf(h).Some? && OwnOrLate(s, h, n.LinkOf(h).value.serial)
    requires !n.LinkOf(h).value.dialledIn && n.LinkOf(h).value.handle == h
    ensures !Leaves(n, s, h) && Next(n, s).clients.ActiveAddr(h) == n.clients.ActiveAddr(h)
  {
    if s.TaskEnds? {
      TeardownMovesOff(n, s, h);
    } else if s.DialLands? || s.DialInLands? {
      RegisteringKeepsOthers(n, s, h);
    }
  }
}
