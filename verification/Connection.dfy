/** The connection object the capture task, the dials and the revoker share:
    its methods change the table and the devices in place. */
module Connection {
  import opened Common
  import opened Registry
  import opened Manager
  import opened Proto
  import opened Links

  class LanMouseConnection {
    const clients: ClientManager
    var links: map<SocketAddr, Link>
    var trust: set<Fingerprint>
    var connecting: map<Handle, DialStage>
    var adopting: multiset<DialledIn>
    var nextSerial: nat
    ghost var closed: set<nat>
    ghost var wire: seq<Write>

    ghost function View(): (n: Net)
      reads this, clients
    {
      Net(clients.View(), links, trust, connecting, adopting, nextSerial, closed, wire)
    }

    constructor (clients: ClientManager)
      ensures this.clients == clients
      ensures View() == Net(clients.View(), map[], {}, map[], multiset{}, 0, {}, [])
    {
      this.clients := clients;
      links, trust, connecting, adopting, nextSerial, closed, wire := map[], {}, map[], multiset{}, 0, {}, [];
    }

    method LinkOf(h: Handle) returns (r: Option<(SocketAddr, Link)>)
      ensures r.Some? <==> View().LinkOf(h).Some?
      ensures r.Some? ==> clients.View().ActiveAddr(h) == Some(r.value.0) && View().LinkOf(h) == Some(r.value.1)
      ensures r.Some? ==> r.value.0 in links && links[r.value.0] == r.value.1
    {
      if h in clients.devices && clients.devices[h].state.activeAddr.Some? {
        var addr := clients.devices[h].state.activeAddr.value;
        if addr in links {
          return Some((addr, links[addr]));
        }
      }
      return None;
    }

    method ClearShown(h: Handle)
      modifies clients
      ensures View() == old(View()).Cleared(h)
    {
      clients.SetActiveAddr(h, None);
      var _ := clients.SetAlive(h, false);
      clients.SetCaps(h, false);
    }

    /** End `h`'s link at `addr`, or only the link `ended` when a task of it asks. */
    method Disconnect(h: Handle, addr: SocketAddr, ended: Option<nat>)
      modifies this, clients
      ensures View() == old(View()).Disconnect(h, addr, ended)
    {
      if addr in links && ended.Some? && links[addr].serial != ended.value {
        closed := closed + {ended.value};
        if links[addr].handle == h {
          return;
        }
      } else if addr in links {
        closed := closed + {links[addr].serial};
        links := links - {addr};
      }
      if h in clients.devices && clients.devices[h].state.activeAddr.Some?
         && clients.devices[h].state.activeAddr.value != addr {
        return;
      }
      ClearShown(h);
    }

    method StartDial(h: Handle)
      modifies this`connecting
      ensures View() == old(View()).Dialling(h)
    {
      if h !in connecting {
        connecting := connecting[h := Spawned];
      }
    }

    /** The dial's task reads the device once, before it races its addresses. */
    method DialReads(h: Handle)
      modifies this`connecting
      ensures View() == old(View()).DialReads(h)
    {
      if h in connecting && connecting[h].Spawned? {
        var pin, addrs := None, {};
        if h in clients.devices {
          var port := clients.devices[h].config.port;
          pin, addrs := clients.devices[h].state.pin, set ip | ip in clients.devices[h].state.ips :: SocketAddr(ip, port);
        }
        connecting := connecting[h := Racing(pin, addrs)];
      }
    }

    method DialEnds(h: Handle)
      modifies this`connecting
      ensures View() == old(View()).DialEnds(h)
    {
      connecting := connecting - {h};
    }

    method Send(f: Frame, h: Handle, fails: bool) returns (r: SendResult)
      modifies this, clients
      ensures View() == old(View()).Send(f, h, fails)
      ensures r == old(View()).SendAnswer(h)
    {
      var current := LinkOf(h);
      if current.Some? {
        var (addr, link) := current.value;
        if link.fp !in trust {
          Disconnect(h, addr, Some(link.serial));
          return NotPermitted;
        }
        if !(h in clients.devices && clients.devices[h].state.alive) {
          return TargetEmulationDisabled;
        }
        wire := wire + [Write(f, link.fp)];
        if fails {
          Disconnect(h, addr, Some(link.serial));
        }
        return Sent(link.serial);
      }
      StartDial(h);
      return NotConnected;
    }

    method SendTo(f: Frame, h: Handle, addr: SocketAddr, fails: bool) returns (r: SendResult)
      modifies this, clients
      ensures View() == old(View()).SendTo(f, h, addr, fails)
      ensures r == old(View()).SendToAnswer(f, addr)
    {
      if addr !in links {
        return NotConnected;
      }
      var link := links[addr];
      if !OnlyLetsGo(f) && link.fp !in trust {
        return NotPermitted;
      }
      wire := wire + [Write(f, link.fp)];
      if fails {
        Disconnect(h, addr, Some(link.serial));
      }
      return Sent(link.serial);
    }

    /** A dial's result, checked and recorded in one step under the table's lock. */
    method DialLands(h: Handle, addr: SocketAddr, fp: Fingerprint, paired: bool) returns (r: DialAnswer)
      modifies this, clients
      ensures View() == old(View()).DialLands(h, addr, fp, paired)
      ensures r == old(View()).DialOutcome(h, addr, fp, paired)
    {
      SettlingDecidesNothing(View(), h, addr, fp, paired);
      Settle(h);
      r := Checked(h, addr, fp, paired);
      if r == Linked {
        Register(h, addr, fp, false);
      } else {
        Refuse();
      }
    }

    method Settle(h: Handle)
      modifies this`connecting
      ensures View() == old(View()).Settling(h)
    {
      if h in connecting {
        connecting := connecting[h := Settled];
      }
    }

    /** What becomes of a dial that landed; the device is pinned when it gets so far. */
    method Checked(h: Handle, addr: SocketAddr, fp: Fingerprint, paired: bool) returns (r: DialAnswer)
      modifies clients
      ensures r == old(View()).DialOutcome(h, addr, fp, paired)
      ensures View() == if r.Linked? || r.PairedOnly? || r.AlreadyAdded? then old(View()).Edited(Op.Pin(h, fp)) else old(View())
    {
      var current := LinkOf(h);
      if !(h in clients.devices && clients.devices[h].config.port == addr.port && addr.ip in clients.devices[h].state.ips) {
        r := StaleDial;
      } else if !clients.devices[h].state.active {
        r := SwitchedOffMeanwhile;
      } else if current.Some? {
        r := LinkedMeanwhile;
      } else {
        r := PinTo(h, fp);
        if r == Linked && paired && fp !in trust {
          r := PairedOnly;
        }
      }
    }

    method PinTo(h: Handle, fp: Fingerprint) returns (r: DialAnswer)
      modifies clients
      ensures View() == old(View()).Edited(Op.Pin(h, fp))
      ensures r == match old(View()).clients.PinAnswer(h, fp)
                   case PinnedElsewhere(pin) => OtherMachine(pin)
                   case Dialled(other) => AlreadyAdded(other)
                   case Pinned(_) => Linked
    {
      var pinned := clients.Pin(h, fp);
      match pinned
      case PinnedElsewhere(pin) => r := OtherMachine(pin);
      case Dialled(other) => r := AlreadyAdded(other);
      case Pinned(_) => r := Linked;
    }

    /** The device's link is the new one, at `addr`. */
    method Register(h: Handle, addr: SocketAddr, fp: Fingerprint, dialledIn: bool)
      modifies this`links, this`nextSerial, clients
      ensures View() == old(View()).Edited(Op.SetActiveAddr(h, Some(addr)))
                        .Edited(Op.SetRemovedByPeer(h, false)).Register(addr, fp, h, dialledIn)
    {
      clients.SetActiveAddr(h, Some(addr));
      clients.SetRemovedByPeer(h, false);
      links := links[addr := Link(fp, h, dialledIn, nextSerial)];
      nextSerial := nextSerial + 1;
    }

    method Refuse()
      modifies this`nextSerial, this`closed
      ensures View() == old(View()).Refuse()
    {
      closed := closed + {nextSerial};
      nextSerial := nextSerial + 1;
    }

    /** A dial-in, checked before its stream is opened. */
    method DialIn(h: Handle, fp: Fingerprint, addr: SocketAddr) returns (r: AdoptAnswer)
      modifies this`adopting, this`nextSerial, this`closed
      ensures View() == old(View()).DialIn(h, fp, addr)
      ensures r == old(View()).DialInAnswer(h, fp)
    {
      if fp !in trust {
        r := MayNotDrive;
      } else if !(h in clients.devices && clients.devices[h].state.pin == Some(fp)) {
        r := PinnedElse;
      } else if !clients.devices[h].state.active {
        r := DeviceOff;
      } else {
        r := Opening;
        adopting := adopting + multiset{DialledIn(h, fp, addr)};
        return;
      }
      Refuse();
    }

    /** The dial-in again, once its stream opened or did not, under the table's lock. */
    method Adopt(h: Handle, fp: Fingerprint, addr: SocketAddr, streamOpen: bool) returns (r: AdoptAnswer)
      modifies this, clients
      ensures View() == old(View()).Adopt(h, fp, addr, streamOpen)
      ensures r == old(View()).AdoptOutcome(h, streamOpen)
    {
      adopting := adopting - multiset{DialledIn(h, fp, addr)};
      var current := LinkOf(h);
      if !streamOpen {
        Refuse();
        return NoStream;
      }
      if current.Some? && !current.value.1.dialledIn {
        Refuse();
        return OwnLinkUp;
      }
      Free(h);
      RegisterDialIn(h, addr, fp);
      return Taken;
    }

    /** The device's link, if it has one, closed and out of the table. */
    method Free(h: Handle)
      modifies this`closed, this`links
      ensures View() == old(View()).Freed(h)
    {
      var current := LinkOf(h);
      if current.Some? {
        closed := closed + {current.value.1.serial};
        links := links - {current.value.0};
      }
    }

    method RegisterDialIn(h: Handle, addr: SocketAddr, fp: Fingerprint)
      modifies this`links, this`nextSerial, clients
      ensures View() == old(View()).Edited(Op.SetActiveAddr(h, Some(addr))).Edited(Op.SetRemovedByPeer(h, false))
                        .Edited(Op.SetDialsUs(h, true)).Register(addr, fp, h, true)
    {
      clients.SetActiveAddr(h, Some(addr));
      clients.SetRemovedByPeer(h, false);
      clients.SetDialsUs(h, true);
      links := links[addr := Link(fp, h, true, nextSerial)];
      nextSerial := nextSerial + 1;
    }

    /** Afterwards nothing is in the table at `addr`, and no device that was recorded
        there shows a link. */
    method CloseAddr(addr: SocketAddr) returns (was: bool)
      modifies this, clients
      ensures View() == old(View()).CloseAddr(addr)
      ensures was <==> addr in old(links)
    {
      was := addr in links;
      var at := set h | h in clients.devices && clients.devices[h].state.activeAddr == Some(addr);
      var handles := Ascending(at);
      assert at == clients.View().HandlesAt(addr);
      if addr in links {
        closed := closed + {links[addr].serial};
        links := links - {addr};
      }
      DisconnectEach(addr, handles);
    }

    method DisconnectEach(addr: SocketAddr, handles: seq<Handle>)
      modifies this, clients
      ensures View() == old(View()).DisconnectEach(addr, handles)
    {
      for i := 0 to |handles|
        invariant old(View()).DisconnectEach(addr, handles) == View().DisconnectEach(addr, handles[i..])
      {
        Disconnect(handles[i], addr, None);
        assert handles[i..][1..] == handles[i + 1..];
      }
    }
  }
}
