/** The two objects that keep the config file: the daemon's config, which
    reads and saves it, and the thread the watcher is kept on. */
module ConfigDaemon {
  import opened Common
  import opened ConfigWatch

  class Config {
    const fmt: Format
    var toml: Option<Toml>
    var synced: Devices
    var seen: Option<string>
    /** What the watcher passed on and the daemon has not received. */
    var received: seq<Notice>
    /** Every order handed to the watcher's thread. */
    var orders: seq<Arm>

    ghost function View(): (st: Store)
      reads this
    {
      Store(toml, synced, seen)
    }

    constructor (fmt: Format, text: string, toml: Toml)
      requires fmt.parse(text) == Some(toml)
      ensures this.fmt == fmt && View() == Start(text, toml, fmt).store && received == [] && orders == []
    {
      this.fmt := fmt;
      this.toml, synced, seen := Some(toml), fmt.clients(Some(toml)), Some(text);
      received, orders := [], [];
    }

    /** A usable text becomes the config and the text seen; any other changes
        nothing. */
    method TakeIn(text: string) returns (changed: bool)
      modifies `toml, `synced, `seen
      ensures View() == TakenIn(old(View()), text, fmt)
      ensures changed <==> Usable(text, fmt) && old(toml) != fmt.parse(text)
    {
      if Blank(text) {
        return false;
      }
      var current := fmt.parse(text);
      if current.None? {
        return false;
      }
      changed := toml != current;
      toml := current;
      synced := fmt.clients(toml);
      seen := Some(text);
    }

    method ReadIfEdited(d: Disk) returns (a: ReadAnswer)
      modifies `toml, `synced, `seen
      ensures View() == AfterRead(old(View()), d, fmt)
      ensures a == ReadAnswerOf(old(View()), d, fmt)
    {
      if !d.Text? {
        return Failed;
      }
      if seen == Some(d.t) {
        return Unchanged;
      }
      var changed := TakeIn(d.t);
      a := if changed then ReadAnswer.Changed else Unchanged;
    }

    /** What `Prepared` makes of the file is written; the text seen is then that one,
        or none when the file's was not the one seen. Without a write nothing
        changes. */
    method WriteConfigFile(d: Disk, writes: bool) returns (wrote: Option<string>)
      requires toml.Some?
      modifies `synced, `seen
      ensures var p := Prepared(old(View()), d, fmt);
        if p.Some? && writes then
          wrote == Some(p.value.0) && View() == AfterSave(old(View()), p.value.0, p.value.1, fmt)
        else wrote.None? && View() == old(View())
    {
      var unread := false;
      var text: Option<string>;
      match d {
        case Text(t) =>
          unread := seen != Some(t);
          text := fmt.merge(t, synced, toml.value);
        case Absent => text := fmt.render(toml.value);
        case Unreadable => text := None;
      }
      if text.None? || !writes {
        return None;
      }
      synced := fmt.clients(toml);
      seen := if unread then None else text;
      wrote := text;
    }

    /** Save, between an order to disarm the watcher and one to arm it again:
        whatever the write does, both are given, and nothing at all happens
        when there is no config to save. */
    method WriteBack(d: Disk, writes: bool) returns (wrote: Option<string>)
      modifies `synced, `seen, `orders
      ensures old(toml).None? ==> wrote.None? && View() == old(View()) && orders == old(orders)
      ensures old(toml).Some? ==> orders == old(orders) + [Off, On]
      ensures old(toml).Some? ==>
        var p := Prepared(old(View()), d, fmt);
        if p.Some? && writes then
          wrote == Some(p.value.0) && View() == AfterSave(old(View()), p.value.0, p.value.1, fmt)
        else wrote.None? && View() == old(View())
    {
      if toml.None? {
        return None;
      }
      orders := orders + [Off];
      wrote := WriteConfigFile(d, writes);
      orders := orders + [On];
    }

    /** Receive notices until one has the file read as changed, or none is left;
        `looks[i]` is what the file holds when the i-th read finds it. */
    method Changed(looks: nat -> Disk) returns (reported: bool, looked: nat)
      modifies `toml, `synced, `seen, `received
      ensures ReadsThrough(old(View()), old(received), looks, 0, fmt) == (View(), received, reported, looked)
    {
      looked := 0;
      while received != []
        invariant ReadsThrough(old(View()), old(received), looks, 0, fmt)
               == ReadsThrough(View(), received, looks, looked, fmt)
        decreases |received|
      {
        var n := received[0];
        received := received[1..];
        if n.Happened? && ChangesConfig(n.e) {
          var a := ReadIfEdited(looks(looked));
          looked := looked + 1;
          if a == ReadAnswer.Changed {
            return true, looked;
          }
        }
      }
      reported := false;
    }
  }

  /** The daemon's loop over queued notices: where it stops, what it then knows,
      and how often it read the file. */
  ghost function ReadsThrough(st: Store, queue: seq<Notice>, looks: nat -> Disk, k: nat, fmt: Format)
    : (r: (Store, seq<Notice>, bool, nat))
    decreases |queue|
  {
    if queue == [] then (st, [], false, k)
    else if queue[0].Happened? && ChangesConfig(queue[0].e) then
      if ReadAnswerOf(st, looks(k), fmt).Changed? then (AfterRead(st, looks(k), fmt), queue[1..], true, k + 1)
      else ReadsThrough(AfterRead(st, looks(k), fmt), queue[1..], looks, k + 1, fmt)
    else ReadsThrough(st, queue[1..], looks, k, fmt)
  }

  /** A change is reported only for a text that differs from what was last read
      or written, parses, and parses to another config than the daemon has, which
      becomes the config; when none is reported the config is as it was, everything
      queued was received, and every notice had the file read. */
  lemma {:induction false} ReportsOnlyAChange(st: Store, queue: seq<Notice>, looks: nat -> Disk, k: nat, fmt: Format)
    ensures var (end, left, reported, looked) := ReadsThrough(st, queue, looks, k, fmt);
      && k <= looked <= k + |queue|
      && (reported ==> looked > k && looks(looked - 1).Text? && ChangedBy(st, looks(looked - 1).t, end, fmt))
      && (!reported ==> left == [] && end.toml == st.toml)
      && (!reported && AllTold(queue) ==> looked == k + |queue|)
    decreases |queue|
  {
    if queue != [] {
      if queue[0].Happened? && ChangesConfig(queue[0].e) {
        ReportsOnlyAChange(AfterRead(st, looks(k), fmt), queue[1..], looks, k + 1, fmt);
        if ReadAnswerOf(st, looks(k), fmt).Changed? {
          assert TakesOver(st, st, looks(k).t, AfterRead(st, looks(k), fmt), fmt);
        } else {
          var next := AfterRead(st, looks(k), fmt);
          var (end, _, reported, looked) := ReadsThrough(next, queue[1..], looks, k + 1, fmt);
          assert next.toml == st.toml;
          if reported {
            var before :| TakesOver(next, before, looks(looked - 1).t, end, fmt);
            assert TakesOver(st, before, looks(looked - 1).t, end, fmt);
          }
        }
      } else {
        ReportsOnlyAChange(st, queue[1..], looks, k, fmt);
      }
    }
  }

  /** From what the daemon knew just before it, the text is new and says otherwise. */
  ghost predicate TakesOver(st: Store, before: Store, text: string, end: Store, fmt: Format) {
    && before.toml == st.toml && before.seen != Some(text)
    && Usable(text, fmt) && st.toml != fmt.parse(text)
    && end == Store(fmt.parse(text), fmt.clients(fmt.parse(text)), Some(text))
  }

  ghost predicate ChangedBy(st: Store, text: string, end: Store, fmt: Format) {
    exists before :: TakesOver(st, before, text, end, fmt)
  }

  predicate AllTold(queue: seq<Notice>) {
    forall i :: 0 <= i < |queue| ==> queue[i].Happened? && ChangesConfig(queue[i].e)
  }

  class Watching {
    var orders: seq<Arm>
    var armed: bool
    /** The bounded channel to the daemon's loop. */
    var channel: seq<Notice>

    constructor ()
      ensures orders == [] && armed && channel == []
    {
      orders, armed, channel := [], true, [];
    }

    /** Pass a watcher event on without ever waiting for room. */
    method ForwardWatchEvent(n: Notice)
      modifies `channel
      ensures channel == Forwarded(old(channel), n)
      ensures |old(channel)| <= CHANNEL_SIZE ==> |channel| <= CHANNEL_SIZE
    {
      if n.Happened? && !ChangesConfig(n.e) {
        return;
      }
      if |channel| < CHANNEL_SIZE {
        channel := channel + [n];
      }
    }

    /** Carry out the orders in turn; `works(i)` is whether the i-th arming does. */
    method CarryOut(works: nat -> bool)
      modifies this
      ensures orders == []
      ensures (armed, channel) == Carried(old(orders), old(armed), old(channel), works, 0)
    {
      var k := 0;
      while orders != []
        invariant Carried(old(orders), old(armed), old(channel), works, 0) == Carried(orders, armed, channel, works, k)
        decreases |orders|
      {
        var arm := orders[0];
        orders := orders[1..];
        if arm == On {
          armed := armed || works(k);
          k := k + 1;
          ForwardWatchEvent(Happened(READ_AGAIN));
        } else {
          armed := false;
        }
      }
    }
  }

  ghost function Carried(orders: seq<Arm>, armed: bool, channel: seq<Notice>, works: nat -> bool, k: nat)
    : (r: (bool, seq<Notice>))
    decreases |orders|
  {
    if orders == [] then (armed, channel)
    else if orders[0].Off? then Carried(orders[1..], false, channel, works, k)
    else Carried(orders[1..], armed || works(k), Offered(channel, Happened(READ_AGAIN)), works, k + 1)
  }

  /** Whatever saves ordered, a thread that arms when told to ends up armed, and
      a notice to read the file is queued unless the channel is full. */
  lemma {:induction false} SavesEndArmed(saves: nat, armed: bool, channel: seq<Notice>, works: nat -> bool, k: nat)
    requires forall i: nat :: works(i)
    requires saves > 0 && |channel| <= CHANNEL_SIZE
    ensures var (end, notices) := Carried(Bracketed(saves), armed, channel, works, k);
      && end
      && |notices| == (if |channel| + saves < CHANNEL_SIZE then |channel| + saves else CHANNEL_SIZE)
      && channel <= notices
      && (|channel| < CHANNEL_SIZE ==> AnyNotice(notices))
    decreases saves
  {
    var orders := Bracketed(saves);
    assert orders[1..] == [On] + Bracketed(saves - 1);
    assert orders[1..][1..] == Bracketed(saves - 1);
    var once := Offered(channel, Happened(READ_AGAIN));
    assert Carried(orders, armed, channel, works, k) == Carried(orders[1..], false, channel, works, k);
    assert Carried(orders[1..], false, channel, works, k) == Carried(Bracketed(saves - 1), true, once, works, k + 1);
    if saves > 1 {
      SavesEndArmed(saves - 1, true, once, works, k + 1);
    }
    var notices := Carried(orders, armed, channel, works, k).1;
    assert once <= notices;
    if |channel| < CHANNEL_SIZE {
      assert once[|channel|] == Happened(READ_AGAIN) && notices[|channel|] == once[|channel|];
    }
  }

  /** The orders so many saves give. */
  function Bracketed(saves: nat): (r: seq<Arm>) {
    if saves == 0 then [] else [Off, On] + Bracketed(saves - 1)
  }

  /** The watcher's thread takes an order as the object above carries one out: disarming
      leaves nothing to report, and arming is followed by a notice to read the file. */
  lemma AnOrderIsCarriedOut(s: Sys, works: bool, fmt: Format)
    requires Possible(s, TakeOrder(works))
    ensures var taken := Next(s, TakeOrder(works), fmt);
      var done := if s.orders[0].On? then Next(taken, Rearmed, fmt) else taken;
      && (done.armed, done.queue) == Carried([s.orders[0]], s.armed, s.queue, _ => works, 0)
      && done.orders == s.orders[1..] && !done.rearming && done.file == s.file && done.store == s.store
      && (s.orders[0].Off? ==> done.inFlight == []) && (s.orders[0].On? ==> done.inFlight == s.inFlight)
  {
    var one := [s.orders[0]];
    assert one[1..] == [];
    assert Carried([], false, s.queue, _ => works, 0) == (false, s.queue);
  }

  /** A save that ends, whatever it came to, gave an order to disarm and one to arm. */
  lemma ASaveIsBracketed(s: Sys, read: bool, works: bool, told: FsEvent, fmt: Format)
    requires s.doing.Waiting? && s.store.toml.Some? && (s.armed ==> ChangesConfig(told))
    ensures var r := Next(Next(s, StartSave, fmt), ReadForSave(read), fmt);
      var w := if r.doing.SaveWrites? then Next(r, WriteSave(works, told), fmt) else r;
      var e := Next(w, EndSave, fmt);
      e.doing.Waiting? && e.orders == s.orders + [Off, On] && e.queue == s.queue
  {
  }
}
