/** A device's entry in `config.toml`: what a save writes, what a load reads
    back, and what a switch thrown before a restart still does after it. */
module ConfigFile {
  import opened Common
  import opened Identity
  import opened Registry

  /** One `[[clients]]` table: every key may be absent. */
  datatype TomlClient = TomlClient(
    name: Option<string>, hostname: Option<string>, ips: Option<seq<Ip>>, port: Option<nat>,
    position: Option<Position>, activateOnStartup: Option<bool>, hook: Option<string>,
    fingerprint: Option<string>, geometry: Option<Geometry>)

  function Or<T>(o: Option<T>, default: T): (r: T) {
    if o.Some? then o.value else default
  }

  function FromToml(t: TomlClient): (e: Entry) {
    Entry(StoredLabel(t.name), Elements(Or(t.ips, [])), t.hostname, Or(t.port, DEFAULT_PORT),
          Or(t.position, Left), Or(t.activateOnStartup, false), t.hook,
          if t.fingerprint.Some? && ValidFingerprint(t.fingerprint.value) then t.fingerprint else None,
          t.geometry)
  }

  function ToToml(e: Entry): (t: TomlClient) {
    TomlClient(e.name, e.hostname, Some(Ascending(e.ips)),
               if e.port == DEFAULT_PORT then None else Some(e.port), Some(e.pos),
               if e.active then Some(true) else None, e.hook, e.fingerprint, e.geometry)
  }

  /** A saved entry reads back as itself exactly when it has no name or a plain
      one, and its fingerprint is well formed. */
  lemma TomlRoundTrip(e: Entry)
    ensures FromToml(ToToml(e)) == e <==>
      && (e.name.Some? ==> PlainName(e.name.value))
      && (e.fingerprint.Some? ==> ValidFingerprint(e.fingerprint.value))
  {
    assert Elements(Ascending(e.ips)) == e.ips;
    if e.name.Some? {
      PlainNamesAreKept(e.name.value);
    }
  }

  /** A table with no key in it reads as a device with no name and no address, at the
      default port and the left edge, and off. */
  lemma AnEmptyTableReads()
    ensures FromToml(TomlClient(None, None, None, None, None, None, None, None, None))
         == Entry(None, {}, None, 4722, Left, false, None, None, None)
  {
  }

  /** What a save leaves out: a port that is the default, and a switch that is off; and
      what it always writes: the position, and the addresses in ascending order. */
  lemma DefaultsAreLeftOut(e: Entry)
    ensures var t := ToToml(e);
      && (t.port.None? <==> e.port == DEFAULT_PORT) && (t.activateOnStartup == if e.active then Some(true) else None)
      && t.position == Some(e.pos) && t.ips.Some? && StrictlyAscending(t.ips.value)
      && (forall ip :: ip in t.ips.value <==> ip in e.ips)
  {
  }

  /** Cleaning a name once is not always enough: a name whose hidden leading
      character is dropped keeps the space behind it, and loses that too the
      next time it is read. */
  lemma NameCleanedTwiceCanDiffer()
    ensures StoredLabel(Some("\U{200B} a")) == Some(" a")
    ensures StoredLabel(Some(" a")) == Some("a")
  {
    assert TrimStart("\U{200B} a") == "\U{200B} a";
    assert TrimEnd("\U{200B} a") == "\U{200B} a";
    assert OnlyRendered("\U{200B} a") == " a";
    assert TrimStart(" a") == "a" && TrimEnd("a") == "a";
    assert OnlyRendered("a") == "a";
  }

  /** What a save writes: every device's entry, in handle order. */
  function Save(c: Clients): (q: seq<TomlClient>)
    ensures |q| == |c.devices|
    ensures forall i :: 0 <= i < |q| ==>
      && Ascending(c.devices.Keys)[i] in c.devices
      && q[i] == ToToml(ConfigEntry(c.devices[Ascending(c.devices.Keys)[i]]))
  {
    var order := Ascending(c.devices.Keys);
    assert forall i :: 0 <= i < |order| ==> order[i] in order;
    seq(|order|, i requires 0 <= i < |order| => ToToml(ConfigEntry(c.devices[order[i]])))
  }

  function Read(q: seq<TomlClient>): (entries: seq<Entry>)
    ensures |entries| == |q|
    ensures forall i :: 0 <= i < |q| ==> entries[i] == FromToml(q[i])
  {
    seq(|q|, i requires 0 <= i < |q| => FromToml(q[i]))
  }

  function Started(entries: seq<Entry>): (ds: seq<Device>)
    ensures |ds| == |entries|
    ensures forall i :: 0 <= i < |ds| ==> ds[i] == FromEntry(entries[i])
  {
    seq(|entries|, i requires 0 <= i < |entries| => FromEntry(entries[i]))
  }

  function InsertAll(c: Clients, ds: seq<Device>): (r: Clients)
    decreases |ds|
  {
    if ds == [] then c else InsertAll(c, ds[..|ds| - 1]).Insert(ds[|ds| - 1])
  }

  /** Devices added one by one get the handles from `next` on. */
  lemma {:induction false} InsertAllExtends(c: Clients, ds: seq<Device>)
    requires forall h :: h in c.devices ==> h < c.next
    ensures var r := InsertAll(c, ds);
      && r.next == c.next + |ds|
      && (forall h :: h in r.devices <==> h in c.devices || c.next <= h < c.next + |ds|)
      && (forall h :: h in c.devices ==> r.devices[h] == c.devices[h])
      && (forall h :: c.next <= h < c.next + |ds| ==> r.devices[h] == ds[h - c.next])
      && r.answered == c.answered && r.refusedAs == c.refusedAs && r.answeredAs == c.answeredAs
    decreases |ds|
  {
    if ds != [] {
      InsertAllExtends(c, ds[..|ds| - 1]);
    }
  }

  function Load(q: seq<TomlClient>): (c: Clients) {
    InsertAll(EMPTY, Started(Read(q)))
  }

  /** The daemon stops after a save and starts from what it wrote. */
  function Restart(c: Clients): (r: Clients) {
    Load(Save(c))
  }

  /** Where a device's handle goes over a restart: its place in the file. */
  function Place(c: Clients, h: Handle): (i: nat)
    requires h in c.devices
    ensures i < |Ascending(c.devices.Keys)| && Ascending(c.devices.Keys)[i] == h
  {
    var order := Ascending(c.devices.Keys);
    assert h in order;
    var i :| 0 <= i < |order| && order[i] == h;
    i
  }

  lemma RestartedDevice(c: Clients, i: nat)
    requires i < |Ascending(c.devices.Keys)|
    ensures Ascending(c.devices.Keys)[i] in c.devices
    ensures i in Restart(c).devices
    ensures Restart(c).devices[i] ==
            FromEntry(FromToml(ToToml(ConfigEntry(c.devices[Ascending(c.devices.Keys)[i]]))))
  {
    InsertAllExtends(EMPTY, Started(Read(Save(c))));
  }

  /** A restart brings every device back at its place in the file, switched as
      it was and pinned as it was, and every other key as it reads back. */
  lemma RestartKeepsDevices(c: Clients, h: Handle)
    requires c.Valid() && h in c.devices
    ensures var r := Restart(c);
      && Place(c, h) in r.devices
      && ConfigEntry(r.devices[Place(c, h)]) == FromToml(ToToml(ConfigEntry(c.devices[h])))
      && r.devices[Place(c, h)].state.active == c.devices[h].state.active
      && r.devices[Place(c, h)].state.pin == c.devices[h].state.pin
  {
    RestartedDevice(c, Place(c, h));
  }

  lemma ReadPinsAreValid(q: seq<TomlClient>, i: nat)
    requires i < |q|
    ensures var pin := Started(Read(q))[i].state.pin; pin.Some? ==> ValidFingerprint(pin.value)
  {
  }

  lemma RestartIsValid(c: Clients)
    ensures Restart(c).Valid()
  {
    var q := Save(c);
    var ds := Started(Read(q));
    forall i | 0 <= i < |ds| ensures ds[i].state.pin.Some? ==> ValidFingerprint(ds[i].state.pin.value) {
      ReadPinsAreValid(q, i);
    }
    InsertAllExtends(EMPTY, ds);
  }

  /** What happens to the registry over the days: a request, or a restart. */
  datatype Life = Request(op: Op) | Restarted

  function LiveStep(c: Clients, s: Life): (r: Clients) {
    match s
    case Request(op) => Apply(c, op)
    case Restarted => Restart(c)
  }

  /** The handle the device `h` has after a step it survives. */
  function Followed(c: Clients, h: Handle, s: Life): (r: Handle) {
    if s.Restarted? && h in c.devices then Place(c, h) else h
  }

  function Live(c: Clients, life: seq<Life>): (r: Clients)
    decreases |life|
  {
    if life == [] then c else Live(LiveStep(c, life[0]), life[1..])
  }

  /** The device `h` is off and pinned to the machine `fp`. */
  ghost predicate SwitchedOff(c: Clients, h: Handle, fp: Fingerprint) {
    h in c.devices && !c.devices[h].state.active && c.devices[h].state.pin == Some(fp)
  }

  /** The step neither switches the device on, removes it nor unpins its machine. */
  ghost predicate LeavesAlone(h: Handle, fp: Fingerprint, s: Life) {
    s.Request? ==>
      && s.op.Wellformed() && s.op != Op.SetActive(h, true)
      && s.op != Op.Remove(h) && s.op != Op.ClearPins(fp)
  }

  ghost predicate LeftAlone(c: Clients, h: Handle, fp: Fingerprint, life: seq<Life>)
    decreases |life|
  {
    life != [] ==>
      && LeavesAlone(h, fp, life[0])
      && LeftAlone(LiveStep(c, life[0]), Followed(c, h, life[0]), fp, life[1..])
  }

  lemma StaysOffOneStep(c: Clients, h: Handle, fp: Fingerprint, s: Life)
    requires c.Valid() && SwitchedOff(c, h, fp) && LeavesAlone(h, fp, s)
    ensures LiveStep(c, s).Valid() && SwitchedOff(LiveStep(c, s), Followed(c, h, s), fp)
  {
    match s
    case Restarted =>
      RestartKeepsDevices(c, h);
      RestartIsValid(c);
    case Request(op) =>
      ApplyKeepsValid(c, op);
      StaysOffOnRequest(c, h, fp, op);
  }

  lemma StaysOffOnRequest(c: Clients, h: Handle, fp: Fingerprint, op: Op)
    requires c.Valid() && SwitchedOff(c, h, fp)
    requires op != Op.SetActive(h, true) && op != Op.Remove(h) && op != Op.ClearPins(fp)
    ensures SwitchedOff(Apply(c, op), h, fp)
  {
    if op.IsEdit() {
      StaysOffOnEdit(c, h, fp, op);
    } else if op.Pin? {
      StaysOffOnPin(c, h, fp, op.h, op.fp);
    } else if op.Claim? && c.PinnedTo(op.fp) == {} && c.Reached(op.fp) != {} {
      StaysOffOnPin(c, h, fp, Least(c.Reached(op.fp)), op.fp);
    }
  }

  lemma StaysOffOnEdit(c: Clients, h: Handle, fp: Fingerprint, op: Op)
    requires SwitchedOff(c, h, fp) && op.IsEdit() && op != Op.SetActive(h, true)
    ensures SwitchedOff(Edit(c, op), h, fp)
  {
    if op.h in c.devices {
      EditKeepsPin(c.devices[op.h], op);
    }
  }

  lemma StaysOffOnPin(c: Clients, h: Handle, fp: Fingerprint, pinned: Handle, proved: Fingerprint)
    requires SwitchedOff(c, h, fp)
    ensures SwitchedOff(c.Pin(pinned, proved), h, fp)
  {
  }

  /** Once a device pinned to a machine is switched off, clipboard text with
      that machine stays refused through renames, new addresses, lookups,
      other devices and restarts, until that device is switched on, removed
      or unpinned. */
  lemma {:induction false} SwitchedOffMachineGetsNoClipboard(c: Clients, h: Handle, fp: Fingerprint, life: seq<Life>)
    requires c.Valid() && SwitchedOff(c, h, fp) && LeftAlone(c, h, fp, life)
    ensures forall over :: !Live(c, life).SwitchAllowsClipboard(fp, over)
    decreases |life|
  {
    if life == [] {
      assert SwitchedOff(Live(c, life), h, fp);
    } else {
      var after, h' := LiveStep(c, life[0]), Followed(c, h, life[0]);
      StaysOffOneStep(c, h, fp, life[0]);
      SwitchedOffMachineGetsNoClipboard(after, h', fp, life[1..]);
    }
  }
}
