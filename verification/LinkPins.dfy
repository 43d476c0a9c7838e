/** Which machine a device's link is of, over whole runs: what a dial lands on,
    and which steps put a device on a link its pin does not name. */
module LinkPins {
  import opened Common
  import opened Registry
  import opened Proto
  import opened Links
  import opened LinkRuns

  // ------------------------------------------------- links and their device

  /** For each link in the table, its device's pin is what the link proved. */
  ghost predicate OwnPins(n: Net) {
    forall a :: a in n.links ==> n.clients.PinOf(n.links[a].handle) == Some(n.links[a].fp)
  }

  /** The steps after which some link's device is not pinned to the machine that
      link proved: its device is removed, or its machine's pins are cleared, while
      the link is in the table; or a dial-in lands for a device whose pin went
      while its stream opened. */
  ghost predicate Unpins(n: Net, s: Step) {
    match s
    case Edit(Remove(h)) => exists a :: a in n.links && n.links[a].handle == h
    case Edit(ClearPins(fp)) => exists a :: a in n.links && n.links[a].fp == fp
    case DialInLands(h, _, fp, open) => n.AdoptOutcome(h, open).Taken? && n.clients.PinOf(h) != Some(fp)
    case _ => false
  }

  /** `h` is pinned as it was, and recorded where it was or nowhere. */
  ghost predicate SameOrNone(n: Net, r: Net, h: Handle) {
    && r.clients.PinOf(h) == n.clients.PinOf(h)
    && (r.clients.ActiveAddr(h).None? || r.clients.ActiveAddr(h) == n.clients.ActiveAddr(h))
  }

  /** Links are only taken out, and devices only off them. */
  ghost predicate TornDown(n: Net, r: Net) {
    Shrinks(n, r) && forall h :: SameOrNone(n, r, h)
  }

  /** Whatever links and devices were their machine's still are. */
  ghost predicate StillKept(n: Net, r: Net) {
    (OwnPins(n) ==> OwnPins(r)) && (AllOnTheirMachines(n) ==> AllOnTheirMachines(r))
  }

  lemma TornDownKeeps(n: Net, r: Net)
    requires TornDown(n, r)
    ensures StillKept(n, r)
  {
    if OwnPins(n) {
      forall a | a in r.links ensures r.clients.PinOf(r.links[a].handle) == Some(r.links[a].fp) {
        assert Holds(n, a, r.links[a]) && SameOrNone(n, r, r.links[a].handle);
      }
    }
    if AllOnTheirMachines(n) {
      forall h ensures OnItsMachine(r, h) {
        assert OnItsMachine(n, h) && SameOrNone(n, r, h);
      }
    }
  }

  lemma EndingTearsDown(n: Net, x: Handle, addr: SocketAddr, ended: nat)
    ensures StillKept(n, n.Disconnect(x, addr, Some(ended)))
  {
    DisconnectTable(n, x, addr, Some(ended));
    forall h ensures SameOrNone(n, n.Disconnect(x, addr, Some(ended)), h) {
      DisconnectShows(n, x, addr, Some(ended), h);
    }
    TornDownKeeps(n, n.Disconnect(x, addr, Some(ended)));
  }

  lemma ClosingTearsDown(n: Net, addr: SocketAddr)
    ensures StillKept(n, n.CloseAddr(addr))
  {
    CloseTable(n, addr);
    forall h ensures SameOrNone(n, n.CloseAddr(addr), h) {
      CloseShows(n, addr, h);
    }
    TornDownKeeps(n, n.CloseAddr(addr));
  }

  lemma SendTearsDown(n: Net, f: Frame, x: Handle, fails: bool)
    ensures StillKept(n, n.Send(f, x, fails))
  {
    SendTable(n, f, x, fails);
    forall h ensures SameOrNone(n, n.Send(f, x, fails), h) {
      SendShows(n, f, x, fails, h);
    }
    TornDownKeeps(n, n.Send(f, x, fails));
  }

  lemma SendToTearsDown(n: Net, f: Frame, x: Handle, addr: SocketAddr, fails: bool)
    ensures StillKept(n, n.SendTo(f, x, addr, fails))
  {
    SendToTable(n, f, x, addr, fails);
    forall h ensures SameOrNone(n, n.SendTo(f, x, addr, fails), h) {
      SendToShows(n, f, x, addr, fails, h);
    }
    TornDownKeeps(n, n.SendTo(f, x, addr, fails));
  }

  /** A request that neither removes a device nor clears pins keeps every pin. */
  lemma EditPins(c: Clients, op: Op, h: Handle)
    requires HandedOut(c) && c.PinOf(h).Some?
    ensures Apply(c, op).PinOf(h) ==
      if op == Op.Remove(h) || op == Op.ClearPins(c.PinOf(h).value) then None else c.PinOf(h)
  {
    if op.Pin? || op.Claim? {
      PinningAddsNoSecondDevice(c, op, c.PinOf(h).value);
    } else if op.IsEdit() && op.h in c.devices {
      EditKeepsPin(c.devices[op.h], op);
    }
  }

  lemma LandingPins(n: Net, h: Handle, addr: SocketAddr, fp: Fingerprint, paired: bool, x: Handle)
    ensures var r, answer := n.DialLands(h, addr, fp, paired), n.DialOutcome(h, addr, fp, paired);
      && (n.clients.PinOf(x).Some? ==> r.clients.PinOf(x) == n.clients.PinOf(x))
      && (answer.Linked? ==> r.clients.PinOf(h) == Some(fp))
      && (x != h || !(answer.Linked? || answer.PairedOnly?) ==> r.clients.PinOf(x) == n.clients.PinOf(x))
  {
    if n.DialOutcome(h, addr, fp, paired).Linked? {
      DialIsLinkedWhen(n, h, addr, fp, paired);
      DialRegistersOnlyItsDevice(n, h, addr, fp, paired);
      LandingTable(n, h, addr, fp, paired);
    } else {
      RefusedDialChangesNothing(n, h, addr, fp, paired);
    }
  }

  lemma EditKeepsOwnPins(n: Net, op: Op)
    requires Ordered(n) && OwnPins(n)
    ensures OwnPins(n.Edited(op)) <==> !Unpins(n, Edit(op))
  {
    forall a | a in n.links
      ensures n.Edited(op).clients.PinOf(n.links[a].handle) ==
        if op == Op.Remove(n.links[a].handle) || op == Op.ClearPins(n.links[a].fp) then None else Some(n.links[a].fp)
    {
      EditPins(n.clients, op, n.links[a].handle);
    }
  }

  lemma LandingKeepsOwnPins(n: Net, h: Handle, addr: SocketAddr, fp: Fingerprint, paired: bool)
    requires OwnPins(n)
    ensures OwnPins(n.DialLands(h, addr, fp, paired))
  {
    var r := n.DialLands(h, addr, fp, paired);
    LandingTable(n, h, addr, fp, paired);
    forall a | a in r.links ensures r.clients.PinOf(r.links[a].handle) == Some(r.links[a].fp) {
      LandingPins(n, h, addr, fp, paired, r.links[a].handle);
    }
  }

  lemma AdoptingKeepsOwnPins(n: Net, h: Handle, fp: Fingerprint, addr: SocketAddr, open: bool)
    requires OwnPins(n)
    ensures OwnPins(n.Adopt(h, fp, addr, open)) <==> !(n.AdoptOutcome(h, open).Taken? && n.clients.PinOf(h) != Some(fp))
  {
    var r := n.Adopt(h, fp, addr, open);
    AdoptingTable(n, h, fp, addr, open);
    forall a | a in r.links ensures r.clients.PinOf(r.links[a].handle) == n.clients.PinOf(r.links[a].handle) {
      AdoptingShows(n, h, fp, addr, open, r.links[a].handle);
    }
    if n.AdoptOutcome(h, open).Taken? {
      assert addr in r.links && r.links[addr].handle == h;
    }
  }

  /** Every link is its device's machine's at every step, but for exactly the steps
      that take the device or its pin from under it, or put it there without. */
  lemma StepKeepsOwnPins(n: Net, s: Step)
    requires Ordered(n) && OwnPins(n)
    ensures OwnPins(Next(n, s)) <==> !Unpins(n, s)
  {
    match s
    case TaskEnds(x, addr, ended) => EndingTearsDown(n, x, addr, ended);
    case CloseAddr(addr) => ClosingTearsDown(n, addr);
    case Send(f, x, fails) => SendTearsDown(n, f, x, fails);
    case SendTo(f, x, addr, fails) => SendToTearsDown(n, f, x, addr, fails);
    case Edit(op) => EditKeepsOwnPins(n, op);
    case DialLands(h, addr, fp, paired) => LandingKeepsOwnPins(n, h, addr, fp, paired);
    case DialInLands(h, addr, fp, open) => AdoptingKeepsOwnPins(n, h, fp, addr, open);
    case Pong(h, addr, alive) => PongKeepsOwnPins(n, h, addr, alive);
    case _ =>
  }

  lemma PongKeepsOwnPins(n: Net, h: Handle, addr: SocketAddr, alive: bool)
    requires OwnPins(n)
    ensures OwnPins(n.Pong(h, addr, alive))
  {
    forall a | a in n.links ensures n.Pong(h, addr, alive).clients.PinOf(n.links[a].handle) == Some(n.links[a].fp) {
    }
  }

  ghost predicate NeverUnpins(n: Net, steps: seq<Step>)
    decreases |steps|
  {
    steps != [] ==> !Unpins(n, steps[0]) && NeverUnpins(Next(n, steps[0]), steps[1..])
  }

  /** Over any run, `OwnPins` holds at every moment exactly when no step unpins. */
  lemma {:induction false} LinksStayTheirDevices(n: Net, steps: seq<Step>)
    requires Ordered(n) && OwnPins(n)
    ensures NeverUnpins(n, steps) <==> forall i :: 0 <= i <= |steps| ==> OwnPins(At(n, steps, i))
    decreases |steps|
  {
    if steps == [] {
      assert At(n, steps, 0) == n;
    } else {
      var m, rest := Next(n, steps[0]), steps[1..];
      StepKeepsOwnPins(n, steps[0]);
      StepStaysOrdered(n, steps[0]);
      LaterMoments(n, steps);
      assert At(m, rest, 0) == m && At(n, steps, 1) == m;
      if OwnPins(m) {
        LinksStayTheirDevices(m, rest);
        forall i | 0 <= i <= |rest| ensures At(m, rest, i) == At(n, steps, i + 1) {
        }
        if forall i :: 0 <= i <= |rest| ==> OwnPins(At(m, rest, i)) {
          forall i | 0 <= i <= |steps| ensures OwnPins(At(n, steps, i)) {
            if i > 0 {
              assert OwnPins(At(m, rest, i - 1));
            }
          }
        }
      }
    }
  }

  // ------------------------------------------------ the machine a device is on

  /** If `h` has a link, its pin is what that link proved. */
  ghost predicate OnItsMachine(n: Net, h: Handle) {
    n.LinkOf(h).Some? ==> n.clients.PinOf(h) == Some(n.LinkOf(h).value.fp)
  }

  ghost predicate AllOnTheirMachines(n: Net) {
    forall h :: OnItsMachine(n, h)
  }

  /** Whether recording `h` at `a` puts it on a link its pin does not name. */
  predicate Foreign(n: Net, h: Handle, a: SocketAddr) {
    h in n.clients.devices && a in n.links && n.clients.PinOf(h) != Some(n.links[a].fp)
  }

  /** Whether a dial-in as `h` taken at `addr` puts `x` on a link its pin does not
      name: another device recorded there, or `h` itself. */
  predicate Adrift(n: Net, h: Handle, addr: SocketAddr, fp: Fingerprint, x: Handle) {
    && (if x == h then h in n.clients.devices else n.clients.ActiveAddr(x) == Some(addr))
    && n.clients.PinOf(x) != Some(fp)
  }

  /** The steps that put a device on another machine's link: an address or a port
      written over its active one, a ping answered at one, a link registered where
      a device of another machine is recorded, or a dial-in for a device whose pin
      went while its stream opened; and pins cleared under a device that is up. */
  ghost predicate Strays(n: Net, s: Step) {
    match s
    case Edit(ClearPins(fp)) => exists h :: n.LinkOf(h).Some? && n.clients.PinOf(h) == Some(fp)
    case Edit(SetActiveAddr(h, addr)) => addr.Some? && Foreign(n, h, addr.value)
    case Edit(SetPort(h, port)) =>
      h in n.clients.devices && n.clients.devices[h].config.port != port
      && n.clients.ActiveAddr(h).Some? && Foreign(n, h, SocketAddr(n.clients.ActiveAddr(h).value.ip, port))
    case Pong(h, addr, _) => Foreign(n, h, addr)
    case DialLands(h, addr, fp, paired) =>
      n.DialOutcome(h, addr, fp, paired).Linked?
      && exists x :: x != h && n.clients.ActiveAddr(x) == Some(addr) && n.clients.PinOf(x) != Some(fp)
    case DialInLands(h, addr, fp, open) => n.AdoptOutcome(h, open).Taken? && exists x :: Adrift(n, h, addr, fp, x)
    case _ => false
  }

  /** What a request makes of one device's address. */
  lemma EditShows(c: Clients, op: Op, h: Handle)
    requires HandedOut(c)
    ensures Apply(c, op).ActiveAddr(h) ==
      if h !in c.devices then None
      else match op
        case SetActiveAddr(x, addr) => if x == h then addr else c.ActiveAddr(h)
        case SetHostname(x, name) => if x == h && c.devices[h].config.hostname != name then None else c.ActiveAddr(h)
        case SetPort(x, port) =>
          if x == h && c.devices[h].config.port != port then OnPort(c.ActiveAddr(h), port) else c.ActiveAddr(h)
        case Remove(x) => if x == h then None else c.ActiveAddr(h)
        case _ => c.ActiveAddr(h)
  {
  }

  /** A request pins a device that was pinned to none only when it has no link, and
      leaves a device it does not unpin on the machine it was on. */
  lemma EditStrays(n: Net, op: Op)
    requires Ordered(n) && AllOnTheirMachines(n)
    ensures AllOnTheirMachines(n.Edited(op)) <==> !Strays(n, Edit(op))
  {
    var r := n.Edited(op);
    forall h ensures OnItsMachine(r, h) <==> !StrayedBy(n, op, h) {
      EditOne(n, op, h);
    }
    if Strays(n, Edit(op)) {
      match op
      case ClearPins(fp) =>
        var h :| n.LinkOf(h).Some? && n.clients.PinOf(h) == Some(fp);
        assert StrayedBy(n, op, h) && !OnItsMachine(r, h);
      case SetActiveAddr(h, _) => assert StrayedBy(n, op, h) && !OnItsMachine(r, h);
      case SetPort(h, _) => assert StrayedBy(n, op, h) && !OnItsMachine(r, h);
    } else {
      forall h ensures OnItsMachine(r, h) {
        assert !StrayedBy(n, op, h);
      }
    }
  }

  /** Whether a request puts this device off its machine. */
  predicate StrayedBy(n: Net, op: Op, h: Handle) {
    match op
    case ClearPins(fp) => n.LinkOf(h).Some? && n.clients.PinOf(h) == Some(fp)
    case SetActiveAddr(x, addr) => x == h && addr.Some? && Foreign(n, h, addr.value)
    case SetPort(x, port) =>
      x == h && h in n.clients.devices && n.clients.devices[h].config.port != port
      && n.clients.ActiveAddr(h).Some? && Foreign(n, h, SocketAddr(n.clients.ActiveAddr(h).value.ip, port))
    case _ => false
  }

  lemma EditOne(n: Net, op: Op, h: Handle)
    requires Ordered(n) && OnItsMachine(n, h)
    ensures OnItsMachine(n.Edited(op), h) <==> !StrayedBy(n, op, h)
  {
    EditShows(n.clients, op, h);
    if n.clients.PinOf(h).Some? {
      EditPins(n.clients, op, h);
    } else if !op.Pin? && !op.Claim? && !op.Add? && !op.AddWithConfig? {
      OtherRequestsPinNothing(n.clients, op, h);
    }
  }

  lemma LandingStrays(n: Net, h: Handle, addr: SocketAddr, fp: Fingerprint, paired: bool)
    requires AllOnTheirMachines(n)
    ensures AllOnTheirMachines(n.DialLands(h, addr, fp, paired)) <==> !Strays(n, DialLands(h, addr, fp, paired))
  {
    var r := n.DialLands(h, addr, fp, paired);
    forall x ensures OnItsMachine(r, x) <==>
      !(n.DialOutcome(h, addr, fp, paired).Linked? && x != h && n.clients.ActiveAddr(x) == Some(addr)
        && n.clients.PinOf(x) != Some(fp))
    {
      assert OnItsMachine(n, x);
      LandingOne(n, h, addr, fp, paired, x);
    }
  }

  lemma LandingOne(n: Net, h: Handle, addr: SocketAddr, fp: Fingerprint, paired: bool, x: Handle)
    requires OnItsMachine(n, x)
    ensures OnItsMachine(n.DialLands(h, addr, fp, paired), x) <==>
      !(n.DialOutcome(h, addr, fp, paired).Linked? && x != h && n.clients.ActiveAddr(x) == Some(addr)
        && n.clients.PinOf(x) != Some(fp))
  {
    LandingTable(n, h, addr, fp, paired);
    LandingShows(n, h, addr, fp, paired, x);
    LandingPins(n, h, addr, fp, paired, x);
    if n.DialOutcome(h, addr, fp, paired).PairedOnly? {
      assert n.LinkOf(h).None?;
    }
  }

  lemma AdoptingStrays(n: Net, h: Handle, fp: Fingerprint, addr: SocketAddr, open: bool)
    requires AllOnTheirMachines(n)
    ensures AllOnTheirMachines(n.Adopt(h, fp, addr, open)) <==> !Strays(n, DialInLands(h, addr, fp, open))
  {
    var r := n.Adopt(h, fp, addr, open);
    forall x ensures OnItsMachine(r, x) <==> !(n.AdoptOutcome(h, open).Taken? && Adrift(n, h, addr, fp, x)) {
      assert OnItsMachine(n, x);
      AdoptingOne(n, h, fp, addr, open, x);
    }
  }

  lemma AdoptingOne(n: Net, h: Handle, fp: Fingerprint, addr: SocketAddr, open: bool, x: Handle)
    requires OnItsMachine(n, x)
    ensures OnItsMachine(n.Adopt(h, fp, addr, open), x) <==>
      !(n.AdoptOutcome(h, open).Taken? && Adrift(n, h, addr, fp, x))
  {
    AdoptingTable(n, h, fp, addr, open);
    AdoptingShows(n, h, fp, addr, open, x);
  }

  lemma PongStrays(n: Net, h: Handle, addr: SocketAddr, alive: bool)
    requires AllOnTheirMachines(n)
    ensures AllOnTheirMachines(n.Pong(h, addr, alive)) <==> !Foreign(n, h, addr)
  {
    var r := n.Pong(h, addr, alive);
    forall x ensures x != h || x !in n.clients.devices ==> OnItsMachine(r, x) {
      assert OnItsMachine(n, x);
    }
    assert h in n.clients.devices ==> (OnItsMachine(r, h) <==> !Foreign(n, h, addr));
  }

  /** Every device is on its own machine's link at every step, but for exactly the
      steps that put one on another's. */
  lemma StepKeepsMachines(n: Net, s: Step)
    requires Ordered(n) && AllOnTheirMachines(n)
    ensures AllOnTheirMachines(Next(n, s)) <==> !Strays(n, s)
  {
    match s
    case TaskEnds(x, addr, ended) => EndingTearsDown(n, x, addr, ended);
    case CloseAddr(addr) => ClosingTearsDown(n, addr);
    case Send(f, x, fails) => SendTearsDown(n, f, x, fails);
    case SendTo(f, x, addr, fails) => SendToTearsDown(n, f, x, addr, fails);
    case Edit(op) => EditStrays(n, op);
    case Pong(h, addr, alive) => PongStrays(n, h, addr, alive);
    case DialLands(h, addr, fp, paired) => LandingStrays(n, h, addr, fp, paired);
    case DialInLands(h, addr, fp, open) => AdoptingStrays(n, h, fp, addr, open);
    case _ => SameLinks(n, Next(n, s));
  }

  lemma SameLinks(n: Net, r: Net)
    requires AllOnTheirMachines(n) && r.links == n.links && r.clients == n.clients
    ensures AllOnTheirMachines(r)
  {
    forall h ensures OnItsMachine(r, h) {
      assert OnItsMachine(n, h);
    }
  }

  ghost predicate NeverStrays(n: Net, steps: seq<Step>)
    decreases |steps|
  {
    steps != [] ==> !Strays(n, steps[0]) && NeverStrays(Next(n, steps[0]), steps[1..])
  }

  /** Over any run with no such step, a frame sent to a device is written only on a
      link of the machine the device is pinned to at that moment, or nowhere. */
  lemma {:induction false} SendsReachThePinnedMachine(n: Net, steps: seq<Step>, i: nat)
    requires Ordered(n) && AllOnTheirMachines(n) && NeverStrays(n, steps)
    requires i < |steps| && steps[i].Send?
    ensures var m, r := At(n, steps, i), At(n, steps, i + 1);
      r.wire == m.wire
      || (m.clients.PinOf(steps[i].h).Some? && r.wire == m.wire + [Write(steps[i].f, m.clients.PinOf(steps[i].h).value)])
    decreases |steps|
  {
    if i == 0 {
      LaterMoments(n, steps);
      OneStepLater(n, steps, 0);
      assert OnItsMachine(n, steps[0].h);
    } else {
      StepKeepsMachines(n, steps[0]);
      StepStaysOrdered(n, steps[0]);
      LaterMoments(n, steps);
      assert At(Next(n, steps[0]), steps[1..], i - 1) == At(n, steps, i);
      assert At(Next(n, steps[0]), steps[1..], i - 1 + 1) == At(n, steps, i + 1);
      SendsReachThePinnedMachine(Next(n, steps[0]), steps[1..], i - 1);
    }
  }

  // ---------------------------------------------------- from start to landing

  function DialOf(n: Net, h: Handle): (r: Option<DialStage>) {
    if h in n.connecting then Some(n.connecting[h]) else None
  }

  /** A dial of `h` begins. */
  predicate BeginsDial(n: Net, s: Step, h: Handle) {
    h !in n.connecting && ((s.StartDial? && s.h == h) || (s.Send? && s.h == h && n.LinkOf(h).None?))
  }

  /** How far the dial of `h` is after a step. */
  function DialAfter(n: Net, s: Step, h: Handle): (r: Option<DialStage>) {
    var d := DialOf(n, h);
    if BeginsDial(n, s, h) then Some(Spawned) else
      match s
      case DialReads(x) => if x == h && d == Some(Spawned) then Some(Racing(n.clients.PinOf(h), n.AddrsOf(h))) else d
      case DialReaches(x, addr, fp, pairing) =>
        if x == h && d.Some? && d.value.Racing? then Some(Landing(addr, fp, pairing)) else d
      case DialLands(x, _, _, _) => if x == h && d.Some? then Some(Settled) else d
      case DialEnds(x) => if x == h then None else d
      case _ => d
  }

  lemma LandingSettles(n: Net, x: Handle, addr: SocketAddr, fp: Fingerprint, paired: bool)
    ensures n.DialLands(x, addr, fp, paired).connecting == n.Settling(x).connecting
  {
    SettlingDecidesNothing(n, x, addr, fp, paired);
  }

  lemma AdoptingDialsNothing(n: Net, x: Handle, fp: Fingerprint, addr: SocketAddr, open: bool)
    ensures n.Adopt(x, fp, addr, open).connecting == n.connecting
  {
  }

  lemma WrittenDialsNothing(n: Net, f: Frame, x: Handle, addr: SocketAddr, fails: bool)
    requires addr in n.links
    ensures n.Written(f, x, addr, fails).connecting == n.connecting
  {
    DisconnectTable(n.(wire := n.wire + [Write(f, n.links[addr].fp)]), x, addr, Some(n.links[addr].serial));
  }

  lemma SendDials(n: Net, f: Frame, x: Handle, fails: bool)
    ensures n.Send(f, x, fails).connecting == if n.LinkOf(x).None? then n.Dialling(x).connecting else n.connecting
  {
    match n.SendAnswer(x)
    case NotPermitted => DisconnectTable(n, x, n.clients.ActiveAddr(x).value, Some(n.LinkOf(x).value.serial));
    case Sent(_) => WrittenDialsNothing(n, f, x, n.clients.ActiveAddr(x).value, fails);
    case _ =>
  }

  lemma SendToDialsNothing(n: Net, f: Frame, x: Handle, addr: SocketAddr, fails: bool)
    ensures n.SendTo(f, x, addr, fails).connecting == n.connecting
  {
    if n.SendToAnswer(f, addr).Sent? {
      WrittenDialsNothing(n, f, x, addr, fails);
    }
  }

  /** The steps that are no part of a dial. */
  predicate OffTheDial(s: Step) {
    !s.StartDial? && !s.DialReads? && !s.DialReaches? && !s.DialLands? && !s.DialEnds? && !s.Send?
  }

  lemma OffTheDialStays(n: Net, s: Step)
    requires OffTheDial(s)
    ensures Next(n, s).connecting == n.connecting
  {
    match s
    case TaskEnds(x, addr, ended) => DisconnectTable(n, x, addr, Some(ended));
    case CloseAddr(addr) => CloseTable(n, addr);
    case SendTo(f, x, addr, fails) => SendToDialsNothing(n, f, x, addr, fails);
    case DialInLands(x, addr, fp, open) => AdoptingDialsNothing(n, x, fp, addr, open);
    case _ =>
  }

  lemma StepDials(n: Net, s: Step, h: Handle)
    ensures DialOf(Next(n, s), h) == DialAfter(n, s, h)
  {
    if OffTheDial(s) {
      OffTheDialStays(n, s);
    } else if s.Send? {
      SendDials(n, s.f, s.h, s.fails);
    } else if s.DialLands? {
      LandingSettles(n, s.h, s.addr, s.fp, s.paired);
    }
  }

  /** The step at which the dial of `h` came to be as it is before the `i`-th, with
      no other change to it since. */
  lemma {:induction false} LastMoved(n: Net, steps: seq<Step>, h: Handle, i: nat) returns (j: nat)
    requires i <= |steps| && h !in n.connecting && DialOf(At(n, steps, i), h).Some?
    ensures j < i && DialOf(At(n, steps, j), h) != DialOf(At(n, steps, i), h)
    ensures DialAfter(At(n, steps, j), steps[j], h) == DialOf(At(n, steps, i), h)
    ensures forall m :: j < m <= i ==> DialOf(At(n, steps, m), h) == DialOf(At(n, steps, i), h)
    decreases i
  {
    assert i > 0 by {
      assert steps[..0] == [];
    }
    OneStepLater(n, steps, i - 1);
    StepDials(At(n, steps, i - 1), steps[i - 1], h);
    if DialOf(At(n, steps, i - 1), h) == DialOf(At(n, steps, i), h) {
      j := LastMoved(n, steps, h, i - 1);
    } else {
      j := i - 1;
    }
  }

  predicate EndsDial(s: Step, h: Handle) {
    (s.DialLands? || s.DialEnds?) && s.h == h
  }

  /** While a dial is racing or still to begin, no step of its own landed or ended it. */
  lemma NotEndedWhile(n: Net, steps: seq<Step>, h: Handle, m: nat)
    requires m < |steps| && DialOf(At(n, steps, m + 1), h).Some? && !DialOf(At(n, steps, m + 1), h).value.Settled?
    ensures !EndsDial(steps[m], h)
  {
    OneStepLater(n, steps, m);
    StepDials(At(n, steps, m), steps[m], h);
  }

  /** The one dial a landing belongs to: begun at the `j`-th step, its device read at
      the `k`-th, the machine reached at the `l`-th, and not ended or landed since. */
  ghost predicate LandsFrom(n: Net, steps: seq<Step>, i: nat, j: nat, k: nat, l: nat)
    requires i < |steps| && steps[i].DialLands?
  {
    var (h, addr, fp, paired) := (steps[i].h, steps[i].addr, steps[i].fp, steps[i].paired);
    && j < k < l < i && BeginsDial(At(n, steps, j), steps[j], h)
    && steps[k] == DialReads(h)
    && At(n, steps, k).clients.Targets(h, addr) && At(n, steps, k).clients.PinOf(h) in {None, Some(fp)}
    && steps[l] == DialReaches(h, addr, fp, paired) && (paired <==> fp !in At(n, steps, l).trust)
    && forall m :: j <= m < i ==> !EndsDial(steps[m], h)
  }

  lemma EachLandingHasOneDial(n: Net, steps: seq<Step>, i: nat) returns (j: nat, k: nat, l: nat)
    requires PossibleRun(n, steps) && i < |steps| && steps[i].DialLands? && steps[i].h !in n.connecting
    ensures LandsFrom(n, steps, i, j, k, l)
  {
    var h := steps[i].h;
    EachStepIsPossible(n, steps, i);
    l := LastMoved(n, steps, h, i);
    EachStepIsPossible(n, steps, l);
    k := LastMoved(n, steps, h, l);
    j := LastMoved(n, steps, h, k);
    forall m | j <= m < i ensures !EndsDial(steps[m], h) {
      NotEndedWhile(n, steps, h, m);
    }
  }

  lemma {:induction false} MomentsAreOrdered(n: Net, steps: seq<Step>, i: nat)
    requires Ordered(n) && i <= |steps|
    ensures Ordered(At(n, steps, i))
    decreases i
  {
    if i == 0 {
      assert steps[..0] == [];
    } else {
      MomentsAreOrdered(n, steps, i - 1);
      OneStepLater(n, steps, i - 1);
      StepStaysOrdered(At(n, steps, i - 1), steps[i - 1]);
    }
  }

  /** Whether a machine just dialled is its device's to be pinned to. */
  predicate Fits(m: Net, h: Handle, addr: SocketAddr, fp: Fingerprint) {
    && m.clients.Targets(h, addr) && m.clients.IsOn(h) && m.LinkOf(h).None?
    && m.clients.PinOf(h) in {None, Some(fp)}
    && (m.clients.PinnedTo(fp) == {} || Least(m.clients.PinnedTo(fp)) == h)
  }

  /** What a landing leaves, exactly: the link registered if the machine fits and,
      had it to be paired with, may be driven; else closed, and at most its device
      pinned. */
  ghost predicate LandsExactly(m: Net, r: Net, h: Handle, addr: SocketAddr, fp: Fingerprint, paired: bool) {
    var l := Link(fp, h, false, m.nextSerial);
    && (Holds(r, addr, l) <==> Fits(m, h, addr, fp) && (paired ==> fp in m.trust))
    && (Holds(r, addr, l) ==> r.clients.PinOf(h) == Some(fp) && r.LinkOf(h) == Some(l))
    && (!Holds(r, addr, l) ==> r.links == m.links && m.nextSerial in r.closed)
    && (!Fits(m, h, addr, fp) ==> r.clients.devices == m.clients.devices)
    && (Fits(m, h, addr, fp) && !Holds(r, addr, l) ==> r.clients.devices == m.clients.Pin(h, fp).devices)
  }

  lemma LandingExactly(m: Net, h: Handle, addr: SocketAddr, fp: Fingerprint, paired: bool)
    requires Ordered(m)
    ensures LandsExactly(m, m.DialLands(h, addr, fp, paired), h, addr, fp, paired)
  {
    LandingTable(m, h, addr, fp, paired);
    DialIsLinkedWhen(m, h, addr, fp, paired);
    DialIsLinkedWhen(m, h, addr, fp, false);
    if m.DialOutcome(h, addr, fp, paired).Linked? {
      DialRegistersOnlyItsDevice(m, h, addr, fp, paired);
    } else {
      RefusedDialChangesNothing(m, h, addr, fp, paired);
    }
  }

  /** However the device was edited, switched, pinned or linked, and trust given or
      withdrawn, between a dial's start and its landing: the landing belongs to one
      dial, not ended since; the machine reached is the one the device was pinned to
      when the dial read it, if any, at an address it then had, and one this machine
      could drive when it was reached, or had to pair with; and the link is
      registered exactly when the device, as it is by now, still fits. */
  lemma DialFromStartToLanding(n: Net, steps: seq<Step>, i: nat) returns (j: nat, k: nat, l: nat)
    requires Ordered(n) && PossibleRun(n, steps)
    requires i < |steps| && steps[i].DialLands? && steps[i].h !in n.connecting
    ensures LandsFrom(n, steps, i, j, k, l)
    ensures LandsExactly(At(n, steps, i), At(n, steps, i + 1), steps[i].h, steps[i].addr, steps[i].fp, steps[i].paired)
  {
    OneStepLater(n, steps, i);
    MomentsAreOrdered(n, steps, i);
    j, k, l := EachLandingHasOneDial(n, steps, i);
    LandingExactly(At(n, steps, i), steps[i].h, steps[i].addr, steps[i].fp, steps[i].paired);
  }

  // ---------------------------------------------- from dial-in to landing

  /** What a dial-in is let in for: trust, the device's pin and its switch. */
  predicate LetIn(n: Net, h: Handle, fp: Fingerprint) {
    fp in n.trust && n.clients.PinOf(h) == Some(fp) && n.clients.IsOn(h)
  }

  lemma LandingAdopts(n: Net, h: Handle, addr: SocketAddr, fp: Fingerprint, paired: bool)
    ensures n.DialLands(h, addr, fp, paired).adopting == n.adopting
  {
    SettlingDecidesNothing(n, h, addr, fp, paired);
  }

  lemma DisconnectAdopts(n: Net, h: Handle, addr: SocketAddr, ended: Option<nat>)
    ensures n.Disconnect(h, addr, ended).adopting == n.adopting
  {
  }

  lemma {:induction false} DisconnectEachAdopts(n: Net, addr: SocketAddr, hs: seq<Handle>)
    ensures n.DisconnectEach(addr, hs).adopting == n.adopting
    decreases |hs|
  {
    if hs != [] {
      DisconnectAdopts(n, hs[0], addr, None);
      DisconnectEachAdopts(n.Disconnect(hs[0], addr, None), addr, hs[1..]);
    }
  }

  lemma WrittenAdopts(n: Net, f: Frame, h: Handle, addr: SocketAddr, fails: bool)
    requires addr in n.links
    ensures n.Written(f, h, addr, fails).adopting == n.adopting
  {
    DisconnectAdopts(n.(wire := n.wire + [Write(f, n.links[addr].fp)]), h, addr, Some(n.links[addr].serial));
  }

  lemma SendAdopts(n: Net, f: Frame, h: Handle, fails: bool)
    ensures n.Send(f, h, fails).adopting == n.adopting
  {
    match n.SendAnswer(h)
    case NotPermitted => DisconnectAdopts(n, h, n.clients.ActiveAddr(h).value, Some(n.LinkOf(h).value.serial));
    case Sent(_) => WrittenAdopts(n, f, h, n.clients.ActiveAddr(h).value, fails);
    case _ =>
  }

  /** Only a dial-in let in comes to wait for its stream. */
  lemma StepLetsIn(n: Net, s: Step, d: DialledIn)
    requires d !in n.adopting && d in Next(n, s).adopting
    ensures s == DialIn(d.h, d.addr, d.fp) && LetIn(n, d.h, d.fp)
  {
    match s
    case TaskEnds(h, addr, ended) => DisconnectAdopts(n, h, addr, Some(ended));
    case CloseAddr(addr) => DisconnectEachAdopts(n.Unregister(addr), addr, Ascending(n.clients.HandlesAt(addr)));
    case Send(f, h, fails) => SendAdopts(n, f, h, fails);
    case SendTo(f, h, addr, fails) =>
      if n.SendToAnswer(f, addr).Sent? {
        WrittenAdopts(n, f, h, addr, fails);
      }
    case DialLands(h, addr, fp, paired) => LandingAdopts(n, h, addr, fp, paired);
    case _ =>
  }

  lemma {:induction false} WhenLetIn(n: Net, steps: seq<Step>, d: DialledIn, i: nat) returns (j: nat)
    requires i <= |steps| && d !in n.adopting && d in At(n, steps, i).adopting
    ensures j < i && steps[j] == DialIn(d.h, d.addr, d.fp) && LetIn(At(n, steps, j), d.h, d.fp)
    decreases i
  {
    assert i > 0 by {
      assert steps[..0] == [];
    }
    OneStepLater(n, steps, i - 1);
    if d in At(n, steps, i - 1).adopting {
      j := WhenLetIn(n, steps, d, i - 1);
    } else {
      StepLetsIn(At(n, steps, i - 1), steps[i - 1], d);
      j := i - 1;
    }
  }

  /** A dial-in that lands was let in at one earlier step, by the trust, pin and
      switch of that moment; it is taken exactly when its stream opened and no link
      this machine dialled for the device is up by now, and then the device, if it
      is still there, is on it, whatever has become of that trust, pin and switch. */
  lemma DialInFromCheckToLanding(n: Net, steps: seq<Step>, i: nat) returns (j: nat)
    requires Ordered(n) && PossibleRun(n, steps)
    requires i < |steps| && steps[i].DialInLands?
    requires DialledIn(steps[i].h, steps[i].fp, steps[i].addr) !in n.adopting
    ensures var (h, addr, fp) := (steps[i].h, steps[i].addr, steps[i].fp);
      var m, r := At(n, steps, i), At(n, steps, i + 1);
      var l := Link(fp, h, true, m.nextSerial);
      && j < i && steps[j] == DialIn(h, addr, fp) && LetIn(At(n, steps, j), h, fp)
      && (Holds(r, addr, l) <==> steps[i].streamOpen && (m.LinkOf(h).None? || m.LinkOf(h).value.dialledIn))
      && (Holds(r, addr, l) && h in m.clients.devices ==> r.LinkOf(h) == Some(l))
      && r.clients.PinOf(h) == m.clients.PinOf(h) && r.trust == m.trust
      && (!Holds(r, addr, l) ==> r.links == m.links && m.nextSerial in r.closed)
  {
    var (h, addr, fp) := (steps[i].h, steps[i].addr, steps[i].fp);
    EachStepIsPossible(n, steps, i);
    OneStepLater(n, steps, i);
    MomentsAreOrdered(n, steps, i);
    j := WhenLetIn(n, steps, DialledIn(h, fp, addr), i);
    AdoptingExactly(At(n, steps, i), h, fp, addr, steps[i].streamOpen);
  }

  lemma AdoptingExactly(m: Net, h: Handle, fp: Fingerprint, addr: SocketAddr, open: bool)
    requires Ordered(m)
    ensures var r, l := m.Adopt(h, fp, addr, open), Link(fp, h, true, m.nextSerial);
      && (Holds(r, addr, l) <==> open && (m.LinkOf(h).None? || m.LinkOf(h).value.dialledIn))
      && (Holds(r, addr, l) && h in m.clients.devices ==> r.LinkOf(h) == Some(l))
      && r.clients.PinOf(h) == m.clients.PinOf(h) && r.trust == m.trust
      && (!Holds(r, addr, l) ==> r.links == m.links && m.nextSerial in r.closed)
  {
    AdoptingTable(m, h, fp, addr, open);
    AdoptingShows(m, h, fp, addr, open, h);
    AdoptingWritesNothing(m, h, addr, fp, open);
  }

  // ------------------------------------------- one place, and two devices

  const NOTHING_YET := Net(EMPTY, map[], {}, map[], multiset{}, 0, {}, [])

  function DeviceAt(ip: Ip, pos: Position, pin: Option<Fingerprint>): (e: Entry) {
    Entry(None, {ip}, None, DEFAULT_PORT, pos, true, None, pin, None)
  }

  lemma OneMore(n: Net, s: seq<Step>)
    requires s != []
    ensures Links.Run(n, s) == Links.Run(Next(n, s[0]), s[1..])
    ensures PossibleRun(n, s) <==> Possible(n, s[0]) && PossibleRun(Next(n, s[0]), s[1..])
  {
  }

  lemma {:induction false} RunOn(n: Net, first: seq<Step>, rest: seq<Step>)
    ensures Links.Run(n, first + rest) == Links.Run(Links.Run(n, first), rest)
    ensures PossibleRun(n, first + rest) <==> PossibleRun(n, first) && PossibleRun(Links.Run(n, first), rest)
    decreases |first|
  {
    if first == [] {
      assert first + rest == rest;
    } else {
      assert (first + rest)[0] == first[0] && (first + rest)[1..] == first[1..] + rest;
      RunOn(Next(n, first[0]), first[1..], rest);
    }
  }

  lemma TwoSteps(n: Net, x: Step, y: Step)
    ensures Links.Run(n, [x, y]) == Next(Next(n, x), y)
    ensures PossibleRun(n, [x, y]) <==> Possible(n, x) && Possible(Next(n, x), y)
  {
    assert [x, y][1..] == [y] && [y][1..] == [];
    OneMore(n, [x, y]);
    OneMore(Next(n, x), [y]);
  }

  lemma ThreeSteps(n: Net, x: Step, y: Step, z: Step)
    ensures Links.Run(n, [x, y, z]) == Next(Next(Next(n, x), y), z)
    ensures PossibleRun(n, [x, y, z]) <==> Possible(n, x) && Possible(Next(n, x), y) && Possible(Next(Next(n, x), y), z)
  {
    assert [x, y, z][1..] == [y, z];
    OneMore(n, [x, y, z]);
    TwoSteps(Next(n, x), y, z);
  }

  /** A dial of `h` from its start until it reaches a machine that may be driven. */
  function DialUpTo(h: Handle, addr: SocketAddr, fp: Fingerprint): (steps: seq<Step>) {
    [StartDial(h), DialReads(h), DialReaches(h, addr, fp, false)]
  }

  lemma DialledUpTo(n: Net, h: Handle, addr: SocketAddr, fp: Fingerprint)
    requires h !in n.connecting && n.clients.Targets(h, addr) && n.clients.PinOf(h).None? && fp in n.trust
    ensures PossibleRun(n, DialUpTo(h, addr, fp))
    ensures Links.Run(n, DialUpTo(h, addr, fp)) == n.(connecting := n.connecting[h := Landing(addr, fp, false)])
  {
    var begun := n.Dialling(h);
    var racing := begun.DialReads(h);
    ThreeSteps(n, StartDial(h), DialReads(h), DialReaches(h, addr, fp, false));
    assert racing.connecting[h] == Racing(None, begun.AddrsOf(h)) && addr in begun.AddrsOf(h);
    assert racing.DialReaches(h, addr, fp, false).connecting == n.connecting[h := Landing(addr, fp, false)];
  }

  /** Two devices just added, at one place, each on and pinned to no machine. */
  ghost predicate TwoAdded(n: Net, ip: Ip) {
    && n.clients.devices == map[0 := FromEntry(DeviceAt(ip, Left, None)), 1 := FromEntry(DeviceAt(ip, Right, None))]
    && n.clients.next == 2 && n.links == map[] && n.closed == {} && n.nextSerial == 0
  }

  lemma AddingTwo(ip: Ip)
    ensures var one := NOTHING_YET.Edited(AddWithConfig(DeviceAt(ip, Left, None)));
      TwoAdded(one.Edited(AddWithConfig(DeviceAt(ip, Right, None))), ip)
  {
    var one := NOTHING_YET.Edited(AddWithConfig(DeviceAt(ip, Left, None)));
    assert one.clients.devices == map[0 := FromEntry(DeviceAt(ip, Left, None))];
  }

  lemma FreshDevice(ip: Ip, pos: Position, pin: Option<Fingerprint>)
    ensures var d := FromEntry(DeviceAt(ip, pos, pin));
      && d.state.ips == {ip} && d.state.active && d.state.activeAddr.None? && d.state.pin == pin
      && d.config.port == DEFAULT_PORT
  {
  }

  /** The first of the two is up, on a link of `fp`; the second is as it was. */
  ghost predicate OneUp(n: Net, ip: Ip, fp: Fingerprint) {
    var addr := SocketAddr(ip, DEFAULT_PORT);
    && n.links == map[addr := Link(fp, 0, false, 0)] && n.nextSerial == 1 && n.closed == {}
    && n.clients.PinOf(0) == Some(fp) && n.clients.ActiveAddr(0) == Some(addr)
    && n.clients.devices.Keys == {0, 1} && n.clients.devices[1] == FromEntry(DeviceAt(ip, Right, None))
  }

  /** The first is on the second's link, and its own is open and in no table. */
  ghost predicate SharingAPlace(n: Net, first: Fingerprint, second: Fingerprint) {
    && n.LinkOf(0) == Some(Link(second, 1, false, 1)) && n.clients.PinOf(0) == Some(first)
    && 0 !in n.closed && Gone(n, 0) && !n.Tracked()
  }

  lemma FirstLanding(n: Net, ip: Ip, fp: Fingerprint)
    requires TwoAdded(n, ip)
    ensures var addr := SocketAddr(ip, DEFAULT_PORT);
      var r := n.DialLands(0, addr, fp, false);
      OneUp(r, ip, fp) && r.connecting == n.Settling(0).connecting
  {
    var addr := SocketAddr(ip, DEFAULT_PORT);
    FreshDevice(ip, Left, None);
    FreshDevice(ip, Right, None);
    assert n.clients.PinnedTo(fp) == {};
    DialIsLinkedWhen(n, 0, addr, fp, false);
    DialRegistersOnlyItsDevice(n, 0, addr, fp, false);
    LandingTable(n, 0, addr, fp, false);
    LandingSettles(n, 0, addr, fp, false);
    LinkedClosesNothing(n, 0, addr, fp, false);
  }

  lemma LinkedClosesNothing(n: Net, h: Handle, addr: SocketAddr, fp: Fingerprint, paired: bool)
    requires n.DialOutcome(h, addr, fp, paired).Linked?
    ensures n.DialLands(h, addr, fp, paired).closed == n.closed
  {
    SettlingDecidesNothing(n, h, addr, fp, paired);
  }

  lemma SecondLanding(n: Net, ip: Ip, first: Fingerprint, fp: Fingerprint)
    requires OneUp(n, ip, first) && first != fp
    ensures SharingAPlace(n.DialLands(1, SocketAddr(ip, DEFAULT_PORT), fp, false), first, fp)
  {
    var addr := SocketAddr(ip, DEFAULT_PORT);
    FreshDevice(ip, Right, None);
    assert n.clients.PinnedTo(fp) == {};
    DialIsLinkedWhen(n, 1, addr, fp, false);
    LandingTable(n, 1, addr, fp, false);
    LandingPins(n, 1, addr, fp, false, 0);
    LandingShows(n, 1, addr, fp, false, 0);
    var r := n.DialLands(1, addr, fp, false);
    assert Gone(r, 0);
    assert n.Tracked() by {
      assert n.links[addr].serial == 0;
    }
    TwoDevicesAtOneAddress(n, 0, 1, addr, fp);
  }

  function AddBoth(ip: Ip, trust: set<Fingerprint>): (steps: seq<Step>) {
    [Step.Edit(AddWithConfig(DeviceAt(ip, Left, None))), Step.Edit(AddWithConfig(DeviceAt(ip, Right, None))), Trust(trust)]
  }

  lemma BothAdded(ip: Ip, trust: set<Fingerprint>)
    ensures var r := Links.Run(NOTHING_YET, AddBoth(ip, trust));
      TwoAdded(r, ip) && r.trust == trust && r.connecting == map[] && PossibleRun(NOTHING_YET, AddBoth(ip, trust))
  {
    var s := AddBoth(ip, trust);
    AddingTwo(ip);
    ThreeSteps(NOTHING_YET, s[0], s[1], s[2]);
  }

  lemma BothDialled(n: Net, ip: Ip, first: Fingerprint, second: Fingerprint)
    requires TwoAdded(n, ip) && n.connecting == map[] && first in n.trust && second in n.trust
    ensures var addr := SocketAddr(ip, DEFAULT_PORT);
      var steps := DialUpTo(0, addr, first) + DialUpTo(1, addr, second);
      var r := Links.Run(n, steps);
      && TwoAdded(r, ip) && r.connecting == map[0 := Landing(addr, first, false), 1 := Landing(addr, second, false)]
      && PossibleRun(n, steps)
  {
    var addr := SocketAddr(ip, DEFAULT_PORT);
    FreshDevice(ip, Left, None);
    FreshDevice(ip, Right, None);
    DialledUpTo(n, 0, addr, first);
    var one := Links.Run(n, DialUpTo(0, addr, first));
    DialledUpTo(one, 1, addr, second);
    RunOn(n, DialUpTo(0, addr, first), DialUpTo(1, addr, second));
  }

  lemma BothLand(n: Net, ip: Ip, first: Fingerprint, second: Fingerprint)
    requires var addr := SocketAddr(ip, DEFAULT_PORT);
      TwoAdded(n, ip) && n.connecting == map[0 := Landing(addr, first, false), 1 := Landing(addr, second, false)]
    requires first != second
    ensures var addr := SocketAddr(ip, DEFAULT_PORT);
      var steps := [DialLands(0, addr, first, false), DialLands(1, addr, second, false)];
      PossibleRun(n, steps) && SharingAPlace(Links.Run(n, steps), first, second)
  {
    var addr := SocketAddr(ip, DEFAULT_PORT);
    FirstLanding(n, ip, first);
    SecondLanding(n.DialLands(0, addr, first, false), ip, first, second);
    TwoSteps(n, DialLands(0, addr, first, false), DialLands(1, addr, second, false));
  }

  /** From nothing: two devices added at one place, both dialled, and two machines
      answering there. The first device is then on the second's link, which proved
      another machine than its pin, and its own link is open and in no table. */
  lemma TwoDevicesShareAPlace(ip: Ip, first: Fingerprint, second: Fingerprint)
    requires first != second
    ensures var addr := SocketAddr(ip, DEFAULT_PORT);
      var steps := AddBoth(ip, {first, second}) + (DialUpTo(0, addr, first) + DialUpTo(1, addr, second))
                   + [DialLands(0, addr, first, false), DialLands(1, addr, second, false)];
      PossibleRun(NOTHING_YET, steps) && SharingAPlace(Links.Run(NOTHING_YET, steps), first, second)
  {
    var addr := SocketAddr(ip, DEFAULT_PORT);
    var dials := DialUpTo(0, addr, first) + DialUpTo(1, addr, second);
    var landings := [DialLands(0, addr, first, false), DialLands(1, addr, second, false)];
    BothAdded(ip, {first, second});
    var added := Links.Run(NOTHING_YET, AddBoth(ip, {first, second}));
    BothDialled(added, ip, first, second);
    BothLand(Links.Run(added, dials), ip, first, second);
    RunOn(NOTHING_YET, AddBoth(ip, {first, second}), dials);
    RunOn(NOTHING_YET, AddBoth(ip, {first, second}) + dials, landings);
  }

  // ------------------------------------------ trust and pin gone meanwhile

  function LetInThenRevoked(addr: SocketAddr, fp: Fingerprint): (steps: seq<Step>) {
    [DialIn(0, addr, fp), Trust({}), Step.Edit(ClearPins(fp))]
  }

  /** The device of `fp`, on and with no link, and `fp` trusted. */
  ghost predicate OneTrusted(n: Net, fp: Fingerprint) {
    && n.clients.devices.Keys == {0} && n.clients.PinOf(0) == Some(fp) && n.clients.IsOn(0)
    && n.clients.ActiveAddr(0).None? && n.links == map[] && n.nextSerial == 0 && n.trust == {fp} && n.adopting == multiset{}
  }

  /** The same, its pin cleared and trust withdrawn, and the dial-in still opening. */
  ghost predicate RevokedMeanwhile(n: Net, addr: SocketAddr, fp: Fingerprint) {
    && n.clients.devices.Keys == {0} && n.clients.PinOf(0).None? && n.clients.ActiveAddr(0).None?
    && n.links == map[] && n.nextSerial == 0 && n.trust == {} && n.adopting == multiset{DialledIn(0, fp, addr)}
  }

  lemma OneIsTrusted(ip: Ip, fp: Fingerprint)
    ensures var steps := [Step.Edit(AddWithConfig(DeviceAt(ip, Left, Some(fp)))), Trust({fp})];
      PossibleRun(NOTHING_YET, steps) && OneTrusted(Links.Run(NOTHING_YET, steps), fp)
  {
    FreshDevice(ip, Left, Some(fp));
    TwoSteps(NOTHING_YET, Step.Edit(AddWithConfig(DeviceAt(ip, Left, Some(fp)))), Trust({fp}));
  }

  lemma RevokingMeanwhile(n: Net, addr: SocketAddr, fp: Fingerprint)
    requires OneTrusted(n, fp)
    ensures PossibleRun(n, LetInThenRevoked(addr, fp))
    ensures RevokedMeanwhile(Links.Run(n, LetInThenRevoked(addr, fp)), addr, fp)
  {
    var s := LetInThenRevoked(addr, fp);
    ThreeSteps(n, s[0], s[1], s[2]);
  }

  lemma LandsAnyway(n: Net, addr: SocketAddr, fp: Fingerprint)
    requires RevokedMeanwhile(n, addr, fp)
    ensures var s := DialInLands(0, addr, fp, true);
      var r := Next(n, s);
      Possible(n, s) && r.LinkOf(0) == Some(Link(fp, 0, true, 0)) && r.clients.PinOf(0).None? && fp !in r.trust
  {
    AdoptingTable(n, 0, fp, addr, true);
    AdoptingShows(n, 0, fp, addr, true, 0);
    AdoptingWritesNothing(n, 0, addr, fp, true);
  }

  /** From nothing: a machine that is trusted and pinned dials in, and both go while
      its stream opens. It is taken all the same: the device, pinned to no machine
      by then, is on the link of one this machine may not drive. */
  lemma DialInOutlivesRevoking(ip: Ip, addr: SocketAddr, fp: Fingerprint)
    ensures var steps := [Step.Edit(AddWithConfig(DeviceAt(ip, Left, Some(fp)))), Trust({fp})]
                         + LetInThenRevoked(addr, fp) + [DialInLands(0, addr, fp, true)];
      var r := Links.Run(NOTHING_YET, steps);
      && PossibleRun(NOTHING_YET, steps)
      && r.LinkOf(0) == Some(Link(fp, 0, true, 0)) && r.clients.PinOf(0).None? && fp !in r.trust
  {
    var first := [Step.Edit(AddWithConfig(DeviceAt(ip, Left, Some(fp)))), Trust({fp})];
    OneIsTrusted(ip, fp);
    var one := Links.Run(NOTHING_YET, first);
    RevokingMeanwhile(one, addr, fp);
    var revoked := Links.Run(one, LetInThenRevoked(addr, fp));
    LandsAnyway(revoked, addr, fp);
    var last := [DialInLands(0, addr, fp, true)];
    assert last[1..] == [];
    OneMore(revoked, last);
    RunOn(NOTHING_YET, first, LetInThenRevoked(addr, fp));
    RunOn(NOTHING_YET, first + LetInThenRevoked(addr, fp), last);
  }
}
