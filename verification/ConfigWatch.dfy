/** How the config file and the daemon keep up with each other: the daemon
    saves it, people edit it, and a second thread passes on what it hears of
    the file over a channel of sixteen places, dropping the rest. */
module ConfigWatch {
  import opened Common
  import opened Identity

  /** The parsed config, and the devices a config lists. */
  type Toml(==, !new)
  type Devices(==, !new)

  /** The document format: what a text parses to, what a save makes of the text
      on disk, and what it writes where there is none. */
  datatype Format = Format(
    parse: string -> Option<Toml>,
    merge: (string, Devices, Toml) -> Option<string>,
    render: Toml -> Option<string>,
    clients: Option<Toml> -> Devices)

  // ------------------------------------------------------- the daemon's side

  /** What the daemon knows of the file: its config, the devices it last read or
      wrote, and the text it last read or wrote. */
  datatype Store = Store(toml: Option<Toml>, synced: Devices, seen: Option<string>)

  datatype Disk = Text(t: string) | Absent | Unreadable

  datatype ReadAnswer = Changed | Unchanged | Failed

  predicate Blank(text: string) {
    Trim(text) == ""
  }

  /** Whether a text is taken in: an empty one is a save in progress. */
  predicate Usable(text: string, fmt: Format) {
    !Blank(text) && fmt.parse(text).Some?
  }

  function TakenIn(st: Store, text: string, fmt: Format): (r: Store) {
    if !Usable(text, fmt) then st else Store(fmt.parse(text), fmt.clients(fmt.parse(text)), Some(text))
  }

  function ReadAnswerOf(st: Store, d: Disk, fmt: Format): (r: ReadAnswer) {
    if !d.Text? then Failed
    else if st.seen != Some(d.t) && Usable(d.t, fmt) && st.toml != fmt.parse(d.t) then Changed
    else Unchanged
  }

  function AfterRead(st: Store, d: Disk, fmt: Format): (r: Store) {
    if !d.Text? || st.seen == Some(d.t) then st else TakenIn(st, d.t, fmt)
  }

  /** The text a save comes to, and whether the one it was made from was not the
      one seen; none when it cannot be made. */
  function Prepared(st: Store, d: Disk, fmt: Format): (r: Option<(string, bool)>)
    requires st.toml.Some?
  {
    match d
    case Text(t) =>
      var merged := fmt.merge(t, st.synced, st.toml.value);
      if merged.Some? then Some((merged.value, st.seen != Some(t))) else None
    case Absent =>
      var rendered := fmt.render(st.toml.value);
      if rendered.Some? then Some((rendered.value, false)) else None
    case Unreadable => None
  }

  function AfterSave(st: Store, text: string, unread: bool, fmt: Format): (r: Store) {
    st.(synced := fmt.clients(st.toml), seen := if unread then None else Some(text))
  }

  // ------------------------------------------------------ the watcher's side

  datatype Arm = On | Off

  datatype EventKind = Creation | ModifyData | ModifyName | ModifyOther | Removal | Access | Unnamed

  /** A file event: whether it asks for a rescan, and whether it names the config. */
  datatype FsEvent = FsEvent(rescan: bool, namesConfig: bool, kind: EventKind)

  const READ_AGAIN := FsEvent(true, false, Unnamed)

  predicate ChangesConfig(e: FsEvent) {
    e.rescan || (e.namesConfig && (e.kind.Creation? || e.kind.ModifyData? || e.kind.ModifyName? || e.kind.Removal?))
  }

  datatype Notice = Happened(e: FsEvent) | WatchError

  const CHANNEL_SIZE := 16

  /** A notice takes a slot of the channel, or is dropped when there is none. */
  function Offered(queue: seq<Notice>, n: Notice): (q: seq<Notice>) {
    if |queue| < CHANNEL_SIZE then queue + [n] else queue
  }

  /** What becomes of a watcher event: one that cannot change the config takes
      no slot; an error takes one like any event that can. */
  function Forwarded(queue: seq<Notice>, n: Notice): (q: seq<Notice>) {
    if n.Happened? && !ChangesConfig(n.e) then queue else Offered(queue, n)
  }

  // --------------------------------------------------------- the two at once

  datatype Doing =
    | Waiting
    /** A notice was received; the file is about to be read for it. */
    | Reading
    | SaveReads
    | SaveWrites(text: string, unread: bool)
    | SaveEnds

  datatype Sys = Sys(
    file: Option<string>,
    store: Store,
    doing: Doing,
    queue: seq<Notice>,
    orders: seq<Arm>,
    armed: bool,
    /** Armed, with the notice to read the file once more still to come. */
    rearming: bool,
    /** What the operating system is yet to report. */
    inFlight: seq<FsEvent>,
    /** The texts read and refused. */
    refused: set<string>)

  datatype Step =
    | HandEdit(to: Option<string>, told: FsEvent)
    | OsReports(e: FsEvent)
    | OsFails
    | Deliver
    | TakeOrder(works: bool)
    | Rearmed
    | Receive
    | Read(works: bool)
    | DaemonEdits(toml: Toml)
    | StartSave
    | ReadForSave(works: bool)
    | WriteSave(works: bool, told: FsEvent)
    | EndSave

  predicate Saving(s: Sys) {
    s.doing.SaveReads? || s.doing.SaveWrites? || s.doing.SaveEnds?
  }

  /** When a step can be taken. A change to the file while the watcher is armed
      has the system report it. */
  predicate Possible(s: Sys, x: Step) {
    match x
    case HandEdit(_, told) => s.armed ==> ChangesConfig(told)
    case Deliver => s.inFlight != []
    case TakeOrder(_) => s.orders != [] && !s.rearming
    case Rearmed => s.rearming
    case Receive => s.doing.Waiting? && s.queue != []
    case Read(_) => s.doing.Reading?
    case DaemonEdits(_) => s.doing.Waiting?
    case StartSave => s.doing.Waiting?
    case ReadForSave(_) => s.doing.SaveReads? && s.store.toml.Some?
    case WriteSave(_, told) => s.doing.SaveWrites? && (s.armed ==> ChangesConfig(told))
    case EndSave => s.doing.SaveEnds?
    case _ => true
  }

  function Look(s: Sys, works: bool): (d: Disk) {
    if !works then Unreadable else if s.file.None? then Absent else Text(s.file.value)
  }

  function Touched(s: Sys, to: Option<string>, told: FsEvent): (r: Sys) {
    s.(file := to, inFlight := if s.armed then s.inFlight + [told] else s.inFlight)
  }

  function Next(s: Sys, x: Step, fmt: Format): (r: Sys)
    requires Possible(s, x)
  {
    match x
    case HandEdit(to, told) => Touched(s, to, told)
    case OsReports(e) => s.(inFlight := s.inFlight + [e])
    case OsFails => s.(queue := Forwarded(s.queue, WatchError))
    case Deliver => s.(inFlight := s.inFlight[1..], queue := Forwarded(s.queue, Happened(s.inFlight[0])))
    case TakeOrder(works) =>
      if s.orders[0].Off? then s.(orders := s.orders[1..], armed := false, inFlight := [])
      else s.(orders := s.orders[1..], armed := s.armed || works, rearming := true)
    case Rearmed => s.(rearming := false, queue := Offered(s.queue, Happened(READ_AGAIN)))
    case Receive =>
      var n := s.queue[0];
      s.(queue := s.queue[1..], doing := if n.Happened? && ChangesConfig(n.e) then Reading else Waiting)
    case Read(works) =>
      var d := Look(s, works);
      s.(doing := Waiting, store := AfterRead(s.store, d, fmt),
         refused := if d.Text? && !Usable(d.t, fmt) then s.refused + {d.t} else s.refused)
    case DaemonEdits(toml) => s.(store := s.store.(toml := Some(toml)))
    case StartSave => if s.store.toml.None? then s else s.(orders := s.orders + [Off], doing := SaveReads)
    case ReadForSave(works) =>
      var p := Prepared(s.store, Look(s, works), fmt);
      s.(doing := if p.Some? then SaveWrites(p.value.0, p.value.1) else SaveEnds)
    case WriteSave(works, told) =>
      if !works then s.(doing := SaveEnds) else
        Touched(s, Some(s.doing.text), told)
        .(store := AfterSave(s.store, s.doing.text, s.doing.unread, fmt), doing := SaveEnds)
    case EndSave => s.(orders := s.orders + [On], doing := Waiting)
  }

  /** What a read of the file for a notice reports to the daemon's loop. */
  predicate Reports(s: Sys, fmt: Format) {
    s.doing.Reading? && ReadAnswerOf(s.store, Look(s, true), fmt).Changed?
  }

  function Start(text: string, toml: Toml, fmt: Format): (s: Sys) {
    Sys(Some(text), Store(Some(toml), fmt.clients(Some(toml)), Some(text)), Waiting, [], [], true, false, [], {})
  }

  // ------------------------------------------------- no edit stays unread

  predicate AnyNotice(queue: seq<Notice>) {
    exists i :: 0 <= i < |queue| && queue[i].Happened?
  }

  predicate AnyChange(events: seq<FsEvent>) {
    exists i :: 0 <= i < |events| && ChangesConfig(events[i])
  }

  /** The file reads as the daemon last read or wrote it, or was read just as it
      is and refused. */
  predicate Settled(s: Sys) {
    s.file.None? || s.file == s.store.seen || s.file.value in s.refused
  }

  /** The daemon's thread or the watcher's still holds a reason to read the file. */
  predicate Owed(s: Sys) {
    || Saving(s) || s.doing.Reading? || s.rearming || On in s.orders
    || AnyNotice(s.queue) || AnyChange(s.inFlight)
  }

  predicate Covered(s: Sys) {
    Settled(s) || Owed(s)
  }

  /** What holds of the two threads in every run. */
  ghost predicate Inv(s: Sys) {
    && |s.queue| <= CHANNEL_SIZE
    && (forall i :: 0 <= i < |s.queue| && s.queue[i].Happened? ==> ChangesConfig(s.queue[i].e))
    && (s.orders != [] && s.orders[|s.orders| - 1].Off? ==> Saving(s))
    && (Saving(s) ==> s.store.toml.Some?)
  }

  predicate Full(s: Sys) {
    |s.queue| >= CHANNEL_SIZE
  }

  /** Whether anything but the event being delivered, the read being made or the
      notice being passed on still has the file read. */
  predicate OwedBesides(s: Sys, x: Step) {
    || Saving(s) || On in s.orders || AnyNotice(s.queue)
    || (s.rearming && !x.Rearmed?)
    || (s.doing.Reading? && !x.Read?)
    || AnyChange(if x.Deliver? && s.inFlight != [] then s.inFlight[1..] else s.inFlight)
  }

  /** The steps at which an edit is lost sight of: the channel is full of errors
      when its notice comes, its read fails, or it is made while the watcher is
      not armed and nothing will arm it. */
  predicate LosesSight(s: Sys, x: Step) {
    match x
    case HandEdit(to, _) =>
      to.Some? && to != s.store.seen && to.value !in s.refused && !s.armed && !OwedBesides(s, x)
    case Deliver => !Settled(s) && Full(s) && !OwedBesides(s, x)
    case Rearmed => !Settled(s) && Full(s) && !OwedBesides(s, x)
    case Read(works) => !Settled(s) && !works && !OwedBesides(s, x)
    case _ => false
  }

  lemma AnyNoticeAfter(q: seq<Notice>, n: Notice)
    ensures AnyNotice(q + [n]) <==> AnyNotice(q) || n.Happened?
    ensures q != [] ==> (AnyNotice(q) <==> q[0].Happened? || AnyNotice(q[1..]))
  {
    if AnyNotice(q) {
      var i :| 0 <= i < |q| && q[i].Happened?;
      assert (q + [n])[i].Happened?;
      if i > 0 {
        assert q[1..][i - 1].Happened?;
      }
    }
    if n.Happened? {
      assert (q + [n])[|q|].Happened?;
    }
    if q != [] && AnyNotice(q[1..]) {
      var i :| 0 <= i < |q[1..]| && q[1..][i].Happened?;
      assert q[i + 1].Happened?;
    }
  }

  lemma AnyChangeAfter(q: seq<FsEvent>, e: FsEvent)
    ensures AnyChange(q + [e]) <==> AnyChange(q) || ChangesConfig(e)
    ensures q != [] ==> (AnyChange(q) <==> ChangesConfig(q[0]) || AnyChange(q[1..]))
  {
    if AnyChange(q) {
      var i :| 0 <= i < |q| && ChangesConfig(q[i]);
      assert ChangesConfig((q + [e])[i]);
      if i > 0 {
        assert ChangesConfig(q[1..][i - 1]);
      }
    }
    if ChangesConfig(e) {
      assert ChangesConfig((q + [e])[|q|]);
    }
    if q != [] && AnyChange(q[1..]) {
      var i :| 0 <= i < |q[1..]| && ChangesConfig(q[1..][i]);
      assert ChangesConfig(q[i + 1]);
    }
  }

  lemma InvHolds(s: Sys, x: Step, fmt: Format)
    requires Inv(s) && Possible(s, x)
    ensures Inv(Next(s, x, fmt))
  {
  }

  /** Exactly when a step leaves a text on disk that nothing will have read. */
  lemma StepLosesSight(s: Sys, x: Step, fmt: Format)
    requires Inv(s) && Covered(s) && Possible(s, x)
    ensures Covered(Next(s, x, fmt)) <==> !LosesSight(s, x)
  {
    var r := Next(s, x, fmt);
    match x
    case HandEdit(_, told) => AnyChangeAfter(s.inFlight, told);
    case OsReports(e) => AnyChangeAfter(s.inFlight, e);
    case OsFails => AnyNoticeAfter(s.queue, WatchError);
    case Deliver =>
      AnyChangeAfter(s.inFlight, s.inFlight[0]);
      AnyNoticeAfter(s.queue, Happened(s.inFlight[0]));
    case TakeOrder(_) =>
      assert s.orders == [s.orders[0]] + s.orders[1..];
      if s.orders[0].Off? && !Saving(s) {
        assert s.orders[|s.orders| - 1] in s.orders[1..];
      }
    case Rearmed => AnyNoticeAfter(s.queue, Happened(READ_AGAIN));
    case Receive => AnyNoticeAfter(s.queue, s.queue[0]);
    case _ =>
  }

  // ----------------------------------------------------------------- runs

  ghost predicate PossibleRun(s: Sys, xs: seq<Step>, fmt: Format)
    decreases |xs|
  {
    xs != [] ==> Possible(s, xs[0]) && PossibleRun(Next(s, xs[0], fmt), xs[1..], fmt)
  }

  ghost function Run(s: Sys, xs: seq<Step>, fmt: Format): (r: Sys)
    requires PossibleRun(s, xs, fmt)
    decreases |xs|
  {
    if xs == [] then s else Run(Next(s, xs[0], fmt), xs[1..], fmt)
  }

  ghost predicate NeverLosesSight(s: Sys, xs: seq<Step>, fmt: Format)
    requires PossibleRun(s, xs, fmt)
    decreases |xs|
  {
    xs != [] ==> !LosesSight(s, xs[0]) && NeverLosesSight(Next(s, xs[0], fmt), xs[1..], fmt)
  }

  /** However edits, saves, orders, notices and reads interleave, the text on
      disk is settled or something still has it read; so once nothing does, the
      daemon has read that very text. */
  lemma {:induction false} NoEditStaysUnread(s: Sys, xs: seq<Step>, fmt: Format)
    requires Inv(s) && Covered(s) && PossibleRun(s, xs, fmt) && NeverLosesSight(s, xs, fmt)
    ensures Inv(Run(s, xs, fmt)) && Covered(Run(s, xs, fmt))
    ensures !Owed(Run(s, xs, fmt)) ==> Settled(Run(s, xs, fmt))
    decreases |xs|
  {
    if xs != [] {
      InvHolds(s, xs[0], fmt);
      StepLosesSight(s, xs[0], fmt);
      NoEditStaysUnread(Next(s, xs[0], fmt), xs[1..], fmt);
    }
  }

  /** A run in which the watcher reports no error of its own, arms when it is
      told to, and a read for a notice finds the file; saves may still fail. */
  predicate Faultless(x: Step) {
    && !x.OsFails?
    && (x.TakeOrder? ==> x.works)
    && (x.Read? ==> x.works)
  }

  predicate Healthy(s: Sys) {
    && (forall i :: 0 <= i < |s.queue| ==> s.queue[i].Happened?)
    && (s.armed || On in s.orders || Saving(s))
  }

  lemma HealthyStep(s: Sys, x: Step, fmt: Format)
    requires Inv(s) && Healthy(s) && Possible(s, x) && Faultless(x)
    ensures Healthy(Next(s, x, fmt)) && !LosesSight(s, x)
  {
    if Full(s) {
      assert s.queue[0].Happened?;
    }
    if x.TakeOrder? {
      assert s.orders == [s.orders[0]] + s.orders[1..];
      if s.orders[0].Off? && !Saving(s) {
        assert s.orders[|s.orders| - 1] in s.orders[1..];
      }
    }
  }

  lemma {:induction false} EveryEditIsRead(s: Sys, xs: seq<Step>, fmt: Format)
    requires Inv(s) && Healthy(s) && Covered(s) && PossibleRun(s, xs, fmt)
    requires forall i :: 0 <= i < |xs| ==> Faultless(xs[i])
    ensures Inv(Run(s, xs, fmt)) && Covered(Run(s, xs, fmt))
    decreases |xs|
  {
    if xs != [] {
      InvHolds(s, xs[0], fmt);
      HealthyStep(s, xs[0], fmt);
      StepLosesSight(s, xs[0], fmt);
      assert forall i :: 0 <= i < |xs[1..]| ==> xs[1..][i] == xs[i + 1];
      EveryEditIsRead(Next(s, xs[0], fmt), xs[1..], fmt);
    }
  }

  /** The daemon starts settled, armed and with nothing queued. */
  lemma StartIsCovered(text: string, toml: Toml, fmt: Format)
    ensures var s := Start(text, toml, fmt); Inv(s) && Healthy(s) && Settled(s) && !Owed(s) && InStep(s)
  {
  }

  /** So from the start, in every run without such faults: whenever nothing is left
      to have the file read, its text was read as it is. */
  lemma EveryEditSinceTheStartIsRead(text: string, toml: Toml, xs: seq<Step>, fmt: Format)
    requires PossibleRun(Start(text, toml, fmt), xs, fmt)
    requires forall i :: 0 <= i < |xs| ==> Faultless(xs[i])
    ensures var r := Run(Start(text, toml, fmt), xs, fmt); !Owed(r) ==> Settled(r)
  {
    StartIsCovered(text, toml, fmt);
    EveryEditIsRead(Start(text, toml, fmt), xs, fmt);
  }

  // -------------------------------------------- a save is no edit to report

  /** The file reads as the daemon last read or wrote it, and no save is about to
      write an edit it has not read. */
  predicate InStep(s: Sys) {
    && s.file.Some? && s.file == s.store.seen
    && (s.doing.SaveWrites? ==> !s.doing.unread)
  }

  /** Until the next hand edit, no save, re-arming, error or notice has a read
      report the file as changed. */
  lemma {:induction false} SavesAreNoEdits(s: Sys, xs: seq<Step>, fmt: Format)
    requires InStep(s) && PossibleRun(s, xs, fmt)
    requires forall i :: 0 <= i < |xs| ==> !xs[i].HandEdit?
    ensures InStep(Run(s, xs, fmt)) && !Reports(Run(s, xs, fmt), fmt)
    decreases |xs|
  {
    if xs != [] {
      assert !xs[0].HandEdit?;
      assert forall i :: 0 <= i < |xs[1..]| ==> xs[1..][i] == xs[i + 1];
      SavesAreNoEdits(Next(s, xs[0], fmt), xs[1..], fmt);
    }
  }

  /** What a read makes of the file: a text that is new, not blank and parses becomes
      the config, with its devices, and the text seen; any other new one is noted as
      refused and changes nothing, and so does a text already seen, or none. */
  lemma ReadTakesItIn(s: Sys, fmt: Format)
    requires s.doing.Reading?
    ensures var r := Next(s, Read(true), fmt);
      && r.file == s.file
      && (if s.file.Some? && s.file != s.store.seen && Trim(s.file.value) != "" && fmt.parse(s.file.value).Some? then
            r.store == Store(fmt.parse(s.file.value), fmt.clients(fmt.parse(s.file.value)), s.file)
          else r.store == s.store)
      && (r.refused == s.refused
          || (s.file.Some? && r.refused == s.refused + {s.file.value}
              && (Trim(s.file.value) == "" || fmt.parse(s.file.value).None?)))
      && Next(s, Read(false), fmt).store == s.store
  {
  }

  /** A save over an edit not yet read leaves what it wrote to be read. */
  lemma UnreadEditIsReadAfterSave(s: Sys, works: bool, told: FsEvent, fmt: Format)
    requires Inv(s) && s.doing.SaveReads? && s.file.Some? && s.file != s.store.seen
    requires Possible(s, ReadForSave(works))
    requires Possible(Next(s, ReadForSave(works), fmt), WriteSave(true, told))
    ensures var r := Next(Next(s, ReadForSave(works), fmt), WriteSave(true, told), fmt);
      && r.file == fmt.merge(s.file.value, s.store.synced, s.store.toml.value)
      && !InStep(r) && Owed(r)
      && (Usable(r.file.value, fmt) ==> AfterRead(r.store, Text(r.file.value), fmt).seen == r.file)
  {
  }

  // ------------------------------------------------------ what a save writes

  /** A save that works writes what the format makes of the config the daemon holds:
      merged into the text on disk, seen or not, with the devices it last knew of, or
      rendered where there is no file. That text is then the one seen, unless it was
      merged into one that was not. When none can be made, the file cannot be read or
      the write fails, the file and all the daemon knows are as they were. */
  lemma SaveWritesTheConfig(s: Sys, read: bool, works: bool, told: FsEvent, fmt: Format)
    requires s.doing.SaveReads? && s.store.toml.Some? && (s.armed ==> ChangesConfig(told))
    ensures var toml := s.store.toml.value;
      var made := if s.file.Some? then fmt.merge(s.file.value, s.store.synced, toml) else fmt.render(toml);
      var r := Next(s, ReadForSave(read), fmt);
      && r.file == s.file && r.store == s.store
      && (if read && made.Some? then
            var w := Next(r, WriteSave(works, told), fmt);
            && r.doing.SaveWrites? && w.doing.SaveEnds?
            && (if works then
                  && w.file == made
                  && w.store == Store(Some(toml), fmt.clients(Some(toml)), if s.file.None? || s.file == s.store.seen then made else None)
                else w.file == s.file && w.store == s.store)
          else r.doing.SaveEnds?)
  {
  }

  lemma {:induction false} OneStepMore(s: Sys, xs: seq<Step>, x: Step, fmt: Format)
    ensures PossibleRun(s, xs + [x], fmt) <==> PossibleRun(s, xs, fmt) && Possible(Run(s, xs, fmt), x)
    ensures PossibleRun(s, xs + [x], fmt) ==> Run(s, xs + [x], fmt) == Next(Run(s, xs, fmt), x, fmt)
    decreases |xs|
  {
    var all := xs + [x];
    if xs == [] {
      assert all[1..] == [];
    } else {
      assert all[0] == xs[0] && all[1..] == xs[1..] + [x];
      if Possible(s, xs[0]) {
        OneStepMore(Next(s, xs[0], fmt), xs[1..], x, fmt);
      }
    }
  }

  /** The text about to be written was made by the last step that read the file for a
      save, of the config held then; and nothing the daemon knows changed since. */
  lemma {:induction false} AboutToWrite(s: Sys, xs: seq<Step>, fmt: Format) returns (j: nat)
    requires !s.doing.SaveWrites? && PossibleRun(s, xs, fmt) && Run(s, xs, fmt).doing.SaveWrites?
    ensures j < |xs| && xs[j] == ReadForSave(true) && PossibleRun(s, xs[..j], fmt)
    ensures var m, r := Run(s, xs[..j], fmt), Run(s, xs, fmt);
      && m.store.toml.Some? && r.store == m.store
      && Some(r.doing.text) == if m.file.Some? then fmt.merge(m.file.value, m.store.synced, m.store.toml.value)
                               else fmt.render(m.store.toml.value)
    decreases |xs|
  {
    assert xs != [];
    var before, x := xs[..|xs| - 1], xs[|xs| - 1];
    assert xs == before + [x];
    OneStepMore(s, before, x, fmt);
    if Run(s, before, fmt).doing.SaveWrites? {
      j := AboutToWrite(s, before, fmt);
      assert before[..j] == xs[..j];
    } else {
      j := |xs| - 1;
    }
  }

  /** The config changes only as the daemon edits it or reads the file. */
  lemma {:induction false} ConfigStays(s: Sys, xs: seq<Step>, fmt: Format)
    requires PossibleRun(s, xs, fmt) && forall i :: 0 <= i < |xs| ==> !xs[i].DaemonEdits? && !xs[i].Read?
    ensures Run(s, xs, fmt).store.toml == s.store.toml
    decreases |xs|
  {
    if xs != [] {
      assert !xs[0].DaemonEdits? && !xs[0].Read?;
      assert forall i :: 0 <= i < |xs[1..]| ==> xs[1..][i] == xs[i + 1];
      ConfigStays(Next(s, xs[0], fmt), xs[1..], fmt);
    }
  }

  /** Over any run, with any hand edits, saves and failures in it: once the daemon
      has edited its config, and until it edits it again or reads the file, every
      write that works leaves on disk what the format makes of that config, of the
      text the save read, and of the devices known then. */
  lemma EveryWriteCarriesTheConfig(s: Sys, toml: Toml, xs: seq<Step>, told: FsEvent, fmt: Format) returns (j: nat)
    requires s.doing.Waiting? && forall i :: 0 <= i < |xs| ==> !xs[i].DaemonEdits? && !xs[i].Read?
    requires var m := Next(s, DaemonEdits(toml), fmt);
      PossibleRun(m, xs, fmt) && Possible(Run(m, xs, fmt), WriteSave(true, told))
    ensures var m := Next(s, DaemonEdits(toml), fmt);
      && j < |xs| && xs[j] == ReadForSave(true) && PossibleRun(m, xs[..j], fmt)
      && var at, r := Run(m, xs[..j], fmt), Next(Run(m, xs, fmt), WriteSave(true, told), fmt);
      && r.file == (if at.file.Some? then fmt.merge(at.file.value, at.store.synced, toml) else fmt.render(toml))
      && r.store.toml == Some(toml) && r.store.synced == fmt.clients(Some(toml))
  {
    var m := Next(s, DaemonEdits(toml), fmt);
    j := AboutToWrite(m, xs, fmt);
    ConfigStays(m, xs[..j], fmt);
    ConfigStays(m, xs, fmt);
  }

  // -------------------------------------------------------------- catching up

  /** What the two threads do next when nobody touches the file. */
  function OwnStep(s: Sys): (x: Option<Step>) {
    match s.doing
    case Reading => Some(Read(true))
    case SaveReads => Some(ReadForSave(true))
    case SaveWrites(_, _) => Some(WriteSave(true, FsEvent(false, true, ModifyName)))
    case SaveEnds => Some(EndSave)
    case Waiting =>
      if s.queue != [] then Some(Receive)
      else if s.rearming then Some(Rearmed)
      else if s.orders != [] then Some(TakeOrder(true))
      else if s.inFlight != [] then Some(Deliver)
      else None
  }

  function Work(s: Sys): (n: nat) {
    (match s.doing
     case Waiting => 0
     case Reading => 1
     case SaveReads => 30
     case SaveWrites(_, _) => 20
     case SaveEnds => 10)
    + 2 * |s.queue| + (if s.rearming then 3 else 0) + 4 * |s.orders| + 3 * |s.inFlight|
  }

  ghost function CatchUp(s: Sys, fmt: Format): (r: Sys)
    requires Inv(s)
    decreases Work(s)
  {
    if OwnStep(s).None? then s else
      InvHolds(s, OwnStep(s).value, fmt);
      CatchUp(Next(s, OwnStep(s).value, fmt), fmt)
  }

  /** Left alone, and even with errors in the channel, the two threads can come to
      rest with the text on disk read: it is enough that the daemon receives what is
      queued before more is delivered. */
  lemma {:induction false} CatchingUpReadsTheFile(s: Sys, fmt: Format)
    requires Inv(s) && Covered(s)
    ensures var r := CatchUp(s, fmt);
      && Settled(r) && !Owed(r)
      && (!Saving(s) ==> r.file == s.file)
    decreases Work(s)
  {
    if OwnStep(s).Some? {
      var x := OwnStep(s).value;
      InvHolds(s, x, fmt);
      StepLosesSight(s, x, fmt);
      CatchingUpReadsTheFile(Next(s, x, fmt), fmt);
    }
  }

  // ------------------------------------------------------- in any order at all

  /** What the two threads do of themselves: nobody edits the file or the config,
      no save starts, and what is tried for a notice or an order works. */
  predicate Own(x: Step) {
    && !x.HandEdit? && !x.OsReports? && !x.OsFails? && !x.DaemonEdits? && !x.StartSave?
    && (x.Read? ==> x.works) && (x.TakeOrder? ==> x.works)
  }

  lemma OwnStepsRunDown(s: Sys, x: Step, fmt: Format)
    requires Inv(s) && Possible(s, x) && Own(x)
    ensures Work(Next(s, x, fmt)) < Work(s)
    ensures !Saving(s) ==> !Saving(Next(s, x, fmt)) && Next(s, x, fmt).file == s.file
  {
  }

  /** Nothing is left for the two threads to do. */
  ghost predicate AtRest(s: Sys) {
    forall x :: Possible(s, x) ==> !Own(x)
  }

  lemma AtRestOwesNothing(s: Sys)
    requires Inv(s) && AtRest(s)
    ensures !Owed(s)
  {
    assert s.doing.Waiting? by {
      assert Own(Read(true)) && Own(ReadForSave(true)) && Own(EndSave);
      assert Own(WriteSave(true, READ_AGAIN)) && ChangesConfig(READ_AGAIN);
      assert Possible(s, Read(true)) || Possible(s, ReadForSave(true)) || Possible(s, EndSave)
          || Possible(s, WriteSave(true, READ_AGAIN)) || s.doing.Waiting?;
    }
    assert Own(Receive) && Own(Rearmed) && Own(TakeOrder(true)) && Own(Deliver);
    assert !Possible(s, Receive) && !Possible(s, Rearmed) && !Possible(s, TakeOrder(true)) && !Possible(s, Deliver);
  }

  /** Whatever order the two threads take their steps in, with no error in the
      channel: they come to rest within as many steps as there is work, and then the
      text on disk has been read, and with no save under way is the one there was. */
  lemma {:induction false} AnyScheduleReadsTheFile(s: Sys, xs: seq<Step>, fmt: Format)
    requires Inv(s) && Healthy(s) && Covered(s) && PossibleRun(s, xs, fmt)
    requires forall i :: 0 <= i < |xs| ==> Own(xs[i])
    ensures |xs| + Work(Run(s, xs, fmt)) <= Work(s)
    ensures AtRest(Run(s, xs, fmt)) ==> Settled(Run(s, xs, fmt)) && !Owed(Run(s, xs, fmt))
    ensures !Saving(s) ==> Run(s, xs, fmt).file == s.file
    decreases |xs|
  {
    if xs == [] {
      if AtRest(s) {
        AtRestOwesNothing(s);
      }
    } else {
      assert Own(xs[0]);
      InvHolds(s, xs[0], fmt);
      HealthyStep(s, xs[0], fmt);
      StepLosesSight(s, xs[0], fmt);
      OwnStepsRunDown(s, xs[0], fmt);
      assert forall i :: 0 <= i < |xs[1..]| ==> xs[1..][i] == xs[i + 1];
      AnyScheduleReadsTheFile(Next(s, xs[0], fmt), xs[1..], fmt);
    }
  }

  // ------------------------------------------------- errors can hide an edit

  lemma {:induction false} ErrorsFillTheChannel(s: Sys, k: nat, xs: seq<Step>, fmt: Format)
    requires |s.queue| + k <= CHANNEL_SIZE
    ensures var full := s.(queue := s.queue + seq(k, _ => WatchError));
      && (PossibleRun(s, seq(k, _ => OsFails) + xs, fmt) <==> PossibleRun(full, xs, fmt))
      && (PossibleRun(full, xs, fmt) ==> Run(s, seq(k, _ => OsFails) + xs, fmt) == Run(full, xs, fmt))
    decreases k
  {
    if k == 0 {
      assert seq(k, _ => OsFails) + xs == xs;
      assert s.queue + seq(k, _ => WatchError) == s.queue;
    } else {
      var all := seq(k, _ => OsFails) + xs;
      assert all[0] == OsFails && all[1..] == seq(k - 1, _ => OsFails) + xs;
      var n := Next(s, OsFails, fmt);
      assert n.queue + seq(k - 1, _ => WatchError) == s.queue + seq(k, _ => WatchError);
      ErrorsFillTheChannel(n, k - 1, xs, fmt);
    }
  }

  /** Errors take a slot of the channel as notices do, and an error has nothing
      read: with the channel full of them the notice of an edit is dropped and
      that edit stays unread. */
  lemma ErrorsHideAnEdit(text: string, edited: string, toml: Toml, fmt: Format)
    requires edited != text
    ensures var saved := FsEvent(false, true, ModifyName);
      var xs := seq(CHANNEL_SIZE, _ => OsFails) + [HandEdit(Some(edited), saved), Deliver];
      var s := Start(text, toml, fmt);
      && PossibleRun(s, xs, fmt)
      && Run(s, xs, fmt).file == Some(edited) && !Covered(Run(s, xs, fmt))
  {
    var s := Start(text, toml, fmt);
    var e := FsEvent(false, true, ModifyName);
    var full := s.(queue := s.queue + seq(CHANNEL_SIZE, _ => WatchError));
    var told := Next(full, HandEdit(Some(edited), e), fmt);
    var end := Next(told, Deliver, fmt);
    var two := [HandEdit(Some(edited), e), Deliver];
    assert two[1..] == [Deliver] && two[1..][1..] == [];
    assert PossibleRun(end, [], fmt) && Run(end, [], fmt) == end;
    assert [Deliver][1..] == [];
    assert PossibleRun(told, [Deliver], fmt) && Run(told, [Deliver], fmt) == end;
    assert PossibleRun(full, two, fmt) && Run(full, two, fmt) == end;
    ErrorsFillTheChannel(s, CHANNEL_SIZE, two, fmt);
    assert Full(told);
    assert end.queue == full.queue && !AnyNotice(end.queue);
    assert end.inFlight == [] && !AnyChange(end.inFlight);
  }
}
