/** The registry as the daemon holds it: one object whose methods change it in
    place, each proved to do what the registry's own functions say. */
module Manager {
  import opened Common
  import opened Identity
  import opened Registry
  import opened Matching
  import opened Reload

  class ClientManager {
    var next: Handle
    var devices: map<Handle, Device>
    var answered: set<Handle>
    var refusedAs: map<Handle, Fingerprint>
    var answeredAs: map<Handle, (SocketAddr, Fingerprint)>

    ghost function View(): (c: Clients)
      reads this
    {
      Clients(next, devices, answered, refusedAs, answeredAs)
    }

    constructor ()
      ensures View() == EMPTY
    {
      next, devices, answered, refusedAs, answeredAs := 0, map[], {}, map[], map[];
    }

    method AddClient() returns (h: Handle)
      modifies this
      ensures View() == Apply(old(View()), Op.Add) && h == old(next)
    {
      h := next;
      next := next + 1;
      devices := devices[h := NEW_DEVICE];
    }

    method AddWithConfig(e: Entry) returns (h: Handle)
      modifies this
      ensures View() == Apply(old(View()), Op.AddWithConfig(e)) && h == old(next)
    {
      h := AddClient();
      devices := devices[h := FromEntry(e)];
    }

    method RemoveClient(h: Handle) returns (gone: Option<Device>)
      modifies this
      ensures View() == Apply(old(View()), Op.Remove(h))
      ensures gone == if h in old(devices) then Some(old(devices)[h]) else None
    {
      gone := if h in devices then Some(devices[h]) else None;
      answered := answered - {h};
      refusedAs := refusedAs - {h};
      answeredAs := answeredAs - {h};
      devices := devices - {h};
    }

    /** Switch the device on or off; whether that changed anything. */
    method SetActive(h: Handle, on: bool) returns (changed: bool)
      modifies this
      ensures View() == Apply(old(View()), Op.SetActive(h, on))
      ensures changed <==> h in old(devices) && old(devices)[h].state.active != on
    {
      changed := h in devices && devices[h].state.active != on;
      if h in devices {
        devices := devices[h := devices[h].(state := devices[h].state.(active := on))];
      }
    }

    method SetFixIps(h: Handle, ips: seq<Ip>)
      modifies this
      ensures View() == Apply(old(View()), Op.SetFixIps(h, ips))
    {
      if h in devices {
        if devices[h].config.fixIps != ips {
          devices := devices[h := devices[h].(config := devices[h].config.(fixIps := ips))];
          refusedAs := refusedAs - {h};
        }
        UpdateIps(h);
      }
    }

    method SetDnsIps(h: Handle, ips: seq<Ip>)
      modifies this
      ensures View() == Apply(old(View()), Op.SetDnsIps(h, ips))
    {
      if h in devices {
        devices := devices[h := devices[h].(state := devices[h].state.(dnsIps := ips))];
        UpdateIps(h);
      }
    }

    method UpdateIps(h: Handle)
      requires h in devices
      modifies this`devices
      ensures devices == old(devices)[h := Resolved(old(devices)[h])]
    {
      var d := devices[h];
      var ips := {};
      for i := 0 to |d.config.fixIps|
        invariant ips == Elements(d.config.fixIps[..i])
      {
        ips := ips + {d.config.fixIps[i]};
      }
      assert d.config.fixIps[..|d.config.fixIps|] == d.config.fixIps;
      for i := 0 to |d.state.dnsIps|
        invariant ips == Elements(d.config.fixIps) + Elements(d.state.dnsIps[..i])
      {
        ips := ips + {d.state.dnsIps[i]};
      }
      assert d.state.dnsIps[..|d.state.dnsIps|] == d.state.dnsIps;
      devices := devices[h := d.(state := d.state.(ips := ips))];
    }

    method SetHostname(h: Handle, hostname: Option<string>) returns (changed: bool)
      modifies this
      ensures View() == Apply(old(View()), Op.SetHostname(h, hostname))
      ensures changed <==> h in old(devices) && old(devices)[h].config.hostname != hostname
    {
      changed := h in devices && devices[h].config.hostname != hostname;
      if changed {
        var d := devices[h];
        devices := devices[h := Device(d.config.(hostname := hostname), d.state.(activeAddr := None, dnsIps := []))];
        refusedAs := refusedAs - {h};
        UpdateIps(h);
      }
    }

    method SetPort(h: Handle, port: nat)
      modifies this
      ensures View() == Apply(old(View()), Op.SetPort(h, port))
    {
      if h in devices && devices[h].config.port != port {
        var d := devices[h];
        devices := devices[h := Device(d.config.(port := port), d.state.(activeAddr := OnPort(d.state.activeAddr, port)))];
      }
    }

    method SetActiveAddr(h: Handle, addr: Option<SocketAddr>)
      modifies this
      ensures View() == Apply(old(View()), Op.SetActiveAddr(h, addr))
    {
      if addr.None? {
        answered := answered - {h};
      }
      if h in devices {
        devices := devices[h := devices[h].(state := devices[h].state.(activeAddr := addr))];
      }
    }

    method AnsweredPing(h: Handle, alive: bool) returns (changed: bool)
      modifies this
      ensures View() == Apply(old(View()), Op.AnsweredPing(h, alive))
      ensures changed <==> h in old(devices) && old(devices)[h].state.alive != alive
    {
      if h in devices {
        answered := answered + {h};
      }
      changed := SetAlive(h, alive);
    }

    method SetAlive(h: Handle, alive: bool) returns (changed: bool)
      modifies this`devices
      ensures View() == Apply(old(View()), Op.SetAlive(h, alive))
      ensures changed <==> h in old(devices) && old(devices)[h].state.alive != alive
    {
      changed := h in devices && devices[h].state.alive != alive;
      if h in devices {
        devices := devices[h := devices[h].(state := devices[h].state.(alive := alive))];
      }
    }

    method SetCaps(h: Handle, caps: bool)
      modifies this`devices
      ensures View() == Apply(old(View()), Op.SetCaps(h, caps))
    {
      if h in devices {
        devices := devices[h := devices[h].(state := devices[h].state.(caps := caps))];
      }
    }

    method SetRemovedByPeer(h: Handle, removed: bool)
      modifies this`devices
      ensures View() == Apply(old(View()), Op.SetRemovedByPeer(h, removed))
    {
      if h in devices {
        devices := devices[h := devices[h].(state := devices[h].state.(removedByPeer := removed))];
      }
    }

    method SetDialsUs(h: Handle, dialsUs: bool)
      modifies this`devices
      ensures View() == Apply(old(View()), Op.SetDialsUs(h, dialsUs))
    {
      if h in devices {
        devices := devices[h := devices[h].(state := devices[h].state.(dialsUs := dialsUs))];
      }
    }

    /** The first device added of those pinned to `fp`. */
    method DiallerOf(fp: Fingerprint) returns (r: Option<Handle>)
      ensures r == if View().PinnedTo(fp) == {} then None else Some(Least(View().PinnedTo(fp)))
    {
      var order := Ascending(devices.Keys);
      for i := 0 to |order|
        invariant forall j :: 0 <= j < i ==> order[j] !in View().PinnedTo(fp)
      {
        assert order[i] in order;
        if devices[order[i]].state.pin == Some(fp) {
          forall h | h in View().PinnedTo(fp) ensures order[i] <= h {
            assert h in order;
          }
          LeastIs(View().PinnedTo(fp), order[i]);
          return Some(order[i]);
        }
      }
      forall h ensures h !in View().PinnedTo(fp) {
        assert h in devices ==> h in order;
      }
      return None;
    }

    method Pin(h: Handle, fp: Fingerprint) returns (r: PinResult)
      modifies this
      ensures View() == Apply(old(View()), Op.Pin(h, fp))
      ensures r == old(View()).PinAnswer(h, fp)
    {
      if h in devices && devices[h].state.pin.Some? && devices[h].state.pin.value != fp {
        return PinnedElsewhere(devices[h].state.pin.value);
      }
      var first := DiallerOf(fp);
      if first.Some? && first.value != h {
        if h in devices {
          refusedAs := refusedAs[h := fp];
        }
        return Dialled(first.value);
      }
      refusedAs := refusedAs - {h};
      answeredAs := answeredAs - {h};
      r := Pinned(h in devices && devices[h].state.pin != Some(fp));
      if h in devices {
        devices := devices[h := devices[h].(state := devices[h].state.(pin := Some(fp)))];
      }
    }

    method IsReached(h: Handle, fp: Fingerprint) returns (r: bool)
      requires h in answeredAs
      ensures r == (h in View().Reached(fp))
    {
      var (at, read) := answeredAs[h];
      return read == fp && !(h in devices && devices[h].state.pin.Some?)
             && h in devices && devices[h].config.port == at.port && at.ip in devices[h].state.ips;
    }

    /** The first device added whose own dial reached the machine `fp`, and
        which is pinned to none. */
    method FirstReached(fp: Fingerprint) returns (r: Option<Handle>)
      ensures r == if View().Reached(fp) == {} then None else Some(Least(View().Reached(fp)))
    {
      var order := Ascending(answeredAs.Keys);
      for i := 0 to |order|
        invariant forall j :: 0 <= j < i ==> order[j] !in View().Reached(fp)
      {
        assert order[i] in order;
        var h := order[i];
        var reached := IsReached(h, fp);
        if reached {
          forall x | x in View().Reached(fp) ensures h <= x {
            assert x in order;
          }
          LeastIs(View().Reached(fp), h);
          return Some(h);
        }
      }
      forall h ensures h !in View().Reached(fp) {
        assert h in answeredAs ==> h in order;
      }
      return None;
    }

    /** The first device pinned to `fp`; with none, the first that reached it, which
        is pinned now. */
    method ClaimForDialIn(fp: Fingerprint) returns (r: Option<(Handle, bool)>)
      modifies this
      ensures View() == Apply(old(View()), Op.Claim(fp))
      ensures r == old(View()).ClaimAnswer(fp)
    {
      var pinned := DiallerOf(fp);
      if pinned.Some? {
        return Some((pinned.value, false));
      }
      var reached := FirstReached(fp);
      if reached.None? {
        return None;
      }
      var answer := Pin(reached.value, fp);
      return if answer.Pinned? then Some((reached.value, answer.isNew)) else None;
    }

    method ClearPinsMatching(fp: Fingerprint) returns (cleared: seq<Handle>)
      modifies this`devices
      ensures View() == Apply(old(View()), Op.ClearPins(fp))
      ensures forall h :: h in cleared <==> h in old(View()).PinnedTo(fp)
    {
      cleared := [];
      var left := devices.Keys;
      ghost var before := devices;
      while left != {}
        invariant left <= before.Keys == devices.Keys
        invariant forall h :: h in left ==> devices[h] == before[h]
        invariant forall h :: h in before && h !in left ==> devices[h] == before[h].Unpinned(fp)
        invariant forall h :: h in cleared <==> h in before && h !in left && before[h].state.pin == Some(fp)
        decreases left
      {
        var h := Least(left);
        left := left - {h};
        if devices[h].state.pin == Some(fp) {
          devices := devices[h := devices[h].(state := devices[h].state.(pin := None))];
          cleared := cleared + [h];
        }
      }
    }

    /** Whether no device switched off is that machine's, and the device the
        link was dialled for, if one was, is on. */
    method SwitchAllowsClipboard(fp: Fingerprint, dialledFor: Option<Handle>) returns (allowed: bool)
      ensures allowed == View().SwitchAllowsClipboard(fp, dialledFor)
    {
      if dialledFor.Some? && !(dialledFor.value in devices && devices[dialledFor.value].state.active) {
        return false;
      }
      var left := devices.Keys;
      while left != {}
        invariant left <= devices.Keys
        invariant forall h :: h in devices && h !in left ==> devices[h].state.active || devices[h].state.pin != Some(fp)
        decreases left
      {
        var h :| h in left;
        if !devices[h].state.active && devices[h].state.pin == Some(fp) {
          return false;
        }
        left := left - {h};
      }
      return true;
    }

    /** Match a reloaded file against the devices here. */
    method PlanReload(file: seq<Entry>) returns (stale: seq<(Handle, Entry)>, added: seq<Entry>)
      ensures Outcome(stale, added) == Reload.PlanReload(View(), file)
    {
      stale := Walk(EntriesOf(Clients(next, devices, answered, refusedAs, answeredAs)));
      added := [];
      ghost var table := stale;
      for i := 0 to |file|
        invariant Outcome(stale, added) == Match(table, file[..i])
      {
        assert file[..i + 1][..i] == file[..i];
        stale, added := ClaimOne(stale, added, file[i]);
      }
      assert file[..|file|] == file;
    }

    /** Take the first device whose entry is `e` out of those not found in the
        file, or note that `e` is new. */
    static method ClaimOne(stale: seq<(Handle, Entry)>, added: seq<Entry>, e: Entry)
      returns (left: seq<(Handle, Entry)>, more: seq<Entry>)
      ensures Outcome(left, more) == Matching.Claim(Outcome(stale, added), e)
    {
      var at := 0;
      while at < |stale| && stale[at].1 != e
        invariant at <= |stale|
        invariant forall j :: 0 <= j < at ==> stale[j].1 != e
      {
        at := at + 1;
      }
      assert at == FirstAt(stale, e);
      left, more := stale, added;
      if at < |stale| {
        left := stale[..at] + stale[at + 1..];
      } else {
        more := added + [e];
      }
    }
  }
}
