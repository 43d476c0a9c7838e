/** The record of the devices the trust cache has listed: kept in memory and in
    a file, so that a line deleted from the cache reads as a removal even after
    a restart. */
module CacheListed {
  import opened Common
  import opened Identity

  // ------------------------------------------------- fingerprints and lines

  function LowerChar(c: char): (r: char) {
    if 'A' <= c <= 'Z' then c - 'A' + 'a' else c
  }

  function Lower(s: string): (r: string)
    ensures |r| == |s| && forall i :: 0 <= i < |s| ==> r[i] == LowerChar(s[i])
  {
    seq(|s|, i requires 0 <= i < |s| => LowerChar(s[i]))
  }

  /** Trimmed, with its ASCII letters in lower case. */
  function Canonical(fp: string): (r: string) {
    Lower(Trim(fp))
  }

  function LineEnd(s: string): (n: nat)
    ensures n <= |s| && '\n' !in s[..n] && (n < |s| ==> s[n] == '\n')
  {
    if s == [] || s[0] == '\n' then 0 else
      var n := 1 + LineEnd(s[1..]);
      assert s[..n] == [s[0]] + s[1..][..n - 1];
      n
  }

  function Lines(s: string): (ls: seq<string>)
    ensures forall l :: l in ls ==> '\n' !in l
    decreases |s|
  {
    if s == [] then [] else
      [s[..LineEnd(s)]] + if LineEnd(s) < |s| then Lines(s[LineEnd(s) + 1..]) else []
  }

  /** What a file of the record says. */
  function Parse(text: string): (r: set<string>) {
    set l | l in Lines(text) && Trim(l) != "" :: Canonical(Trim(l))
  }

  /** One line for each entry, in the order given. */
  function Render(q: seq<string>): (text: string) {
    if q == [] then "" else q[0] + "\n" + Render(q[1..])
  }

  function OnDisk(file: Option<string>): (r: set<string>) {
    if file.None? then {} else Parse(file.value)
  }

  function AllCanonical(fps: seq<string>): (r: set<string>) {
    set fp | fp in fps :: Canonical(fp)
  }

  /** An entry that can stand on a line of its own. */
  predicate Clean(e: string) {
    e != "" && '\n' !in e
  }

  predicate CanonicalSet(s: set<string>) {
    forall e :: e in s ==> Canonical(e) == e
  }

  // ----------------------------------------------------- canonical is stable

  lemma CanonicalTwice(s: string)
    ensures Canonical(Canonical(s)) == Canonical(s)
    ensures Trim(Canonical(s)) == Canonical(s)
    ensures Canonical(Trim(s)) == Canonical(s)
    ensures Canonical(s) == "" <==> Trim(s) == ""
    ensures '\n' !in s ==> '\n' !in Canonical(s)
  {
    TrimStops(s);
    TrimmedStays(Trim(s));
    TrimmedStays(Canonical(s));
    assert Lower(Canonical(s)) == Canonical(s);
    if '\n' in Canonical(s) {
      var i :| 0 <= i < |Canonical(s)| && Canonical(s)[i] == '\n';
      assert Trim(s)[i] == '\n' && '\n' in s;
    }
  }

  // ------------------------------------------------------------ round trips

  lemma LineEndIs(e: string, rest: string)
    requires '\n' !in e
    ensures LineEnd(e + "\n" + rest) == |e|
  {
    var s := e + "\n" + rest;
    assert forall i :: 0 <= i < |e| ==> s[i] == e[i] && e[i] in e;
    assert forall k :: |e| < k <= |s| ==> s[..k][|e|] == '\n';
  }

  lemma {:induction false} LinesOfRender(q: seq<string>)
    requires forall e :: e in q ==> '\n' !in e
    ensures Lines(Render(q)) == q
    decreases |q|
  {
    if q != [] {
      LineEndIs(q[0], Render(q[1..]));
      var s := q[0] + "\n" + Render(q[1..]);
      assert s[..|q[0]|] == q[0] && s[|q[0]| + 1..] == Render(q[1..]);
      LinesOfRender(q[1..]);
    }
  }

  lemma ParsedIsClean(text: string)
    ensures CanonicalSet(Parse(text)) && forall e :: e in Parse(text) ==> Clean(e)
  {
    forall e | e in Parse(text) ensures Canonical(e) == e && Clean(e) {
      var l :| l in Lines(text) && Trim(l) != "" && e == Canonical(Trim(l));
      CanonicalTwice(Trim(l));
      CanonicalTwice(l);
      TrimStops(l);
    }
  }

  lemma CleanReadsBack(q: seq<string>)
    requires forall e :: e in q ==> Clean(e) && Canonical(e) == e
    ensures Parse(Render(q)) == set e | e in q
  {
    LinesOfRender(q);
    forall e ensures e in Parse(Render(q)) <==> e in q {
      if e in q {
        CanonicalTwice(e);
        assert e in Lines(Render(q)) && Canonical(Trim(e)) == e;
      }
      if e in Parse(Render(q)) {
        var l :| l in q && Trim(l) != "" && e == Canonical(Trim(l));
        CanonicalTwice(l);
      }
    }
  }

  /** What is written reads back as what was recorded exactly when every entry
      can stand on a line: none empty, none holding a line break. */
  lemma WrittenReadsBack(s: set<string>, q: seq<string>)
    requires CanonicalSet(s) && Lists(q, s)
    ensures Parse(Render(q)) == s <==> forall e :: e in s ==> Clean(e)
  {
    ListsMembers(q, s);
    ParsedIsClean(Render(q));
    if forall e :: e in s ==> Clean(e) {
      CleanReadsBack(q);
    }
  }

  lemma ListsMembers(q: seq<string>, s: set<string>)
    requires Lists(q, s)
    ensures (set e | e in q) == s
  {
    forall e ensures e in q <==> e in s {
      assert e in multiset(q) <==> e in multiset(s);
    }
  }

  // ------------------------------------------------- the record over a life

  datatype Record = Record(memory: set<string>, file: Option<string>)

  /** What happens to it; a write can fail, and is in some order `q`; a start can
      fail to read the file. */
  datatype Step =
    | Keeping(listed: seq<string>, keep: bool, writes: bool, q: seq<string>)
    | Unrecording(fps: seq<string>, writes: bool, q: seq<string>)
    | Restart(readable: bool)

  /** What a step means to record. */
  function Meant(r: Record, x: Step): (s: set<string>) {
    match x
    case Keeping(listed, keep, _, _) => AllCanonical(listed) + if keep then r.memory else {}
    case Unrecording(fps, _, _) => r.memory - AllCanonical(fps)
    case Restart(readable) => if readable then OnDisk(r.file) else {}
  }

  ghost predicate Possible(r: Record, x: Step) {
    !x.Restart? ==> Lists(x.q, Meant(r, x))
  }

  function Next(r: Record, x: Step): (n: Record) {
    if x.Restart? then r.(memory := Meant(r, x)) else Wrote(r, Meant(r, x), x.writes, x.q)
  }

  /** Only a change is written, and memory follows only a write that worked. */
  function Wrote(r: Record, next: set<string>, writes: bool, q: seq<string>): (n: Record) {
    if next == r.memory || !writes then r else Record(next, Some(Render(q)))
  }

  /** Whether a step replaces the file. */
  predicate Lands(r: Record, x: Step) {
    !x.Restart? && x.writes && Meant(r, x) != r.memory
  }

  /** Everything in memory could have been read from a file. */
  ghost predicate Sound(r: Record) {
    forall e :: e in r.memory ==> Canonical(e) == e && Clean(e)
  }

  /** Memory is what the file says. */
  ghost predicate InStep(r: Record) {
    r.memory == OnDisk(r.file)
  }

  /** Every device a step names can stand on a line. */
  predicate Legible(x: Step) {
    x.Keeping? ==> forall fp :: fp in x.listed ==> Clean(Canonical(fp))
  }

  lemma MeantIsCanonical(r: Record, x: Step)
    requires CanonicalSet(r.memory)
    ensures CanonicalSet(Meant(r, x))
  {
    if x.Restart? && r.file.Some? {
      ParsedIsClean(r.file.value);
    } else if x.Keeping? {
      forall fp | fp in x.listed ensures Canonical(Canonical(fp)) == Canonical(fp) {
        CanonicalTwice(fp);
      }
    }
  }

  /** Memory is what the file says after a step exactly when nothing was written
      and it was so before, all that was written can stand on a line, the file
      was read, or it was not read and says nothing. */
  lemma StepKeepsMemoryOnDisk(r: Record, x: Step)
    requires CanonicalSet(r.memory) && Possible(r, x)
    ensures InStep(Next(r, x)) <==>
      if x.Restart? then x.readable || OnDisk(r.file) == {}
      else if Lands(r, x) then forall e :: e in Meant(r, x) ==> Clean(e)
      else InStep(r)
  {
    MeantIsCanonical(r, x);
    if !x.Restart? {
      WrittenReadsBack(Meant(r, x), x.q);
    }
  }

  lemma StepStaysSound(r: Record, x: Step)
    requires Sound(r) && Possible(r, x) && Legible(x)
    ensures Sound(Next(r, x))
  {
    MeantIsCanonical(r, x);
    if x.Restart? && r.file.Some? {
      ParsedIsClean(r.file.value);
    }
  }

  /** What a legible step leaves on disk: what it meant to record when it lands,
      else what was there. */
  lemma LandedIsOnDisk(r: Record, x: Step)
    requires Sound(r) && Possible(r, x) && Legible(x)
    ensures OnDisk(Next(r, x).file) == if Lands(r, x) then Meant(r, x) else OnDisk(r.file)
  {
    StepStaysSound(r, x);
    if Lands(r, x) {
      MeantIsCanonical(r, x);
      WrittenReadsBack(Meant(r, x), x.q);
      assert forall e :: e in Next(r, x).memory ==> Clean(e);
    }
  }

  ghost predicate PossibleRun(r: Record, xs: seq<Step>)
    decreases |xs|
  {
    xs != [] ==> Possible(r, xs[0]) && PossibleRun(Next(r, xs[0]), xs[1..])
  }

  function Run(r: Record, xs: seq<Step>): (n: Record)
    decreases |xs|
  {
    if xs == [] then r else Run(Next(r, xs[0]), xs[1..])
  }

  predicate AllLegible(xs: seq<Step>) {
    forall i :: 0 <= i < |xs| ==> Legible(xs[i])
  }

  /** Whether memory follows the file at the end of a run: it does from a write
      that lands or a start that reads, and not from a start that does not read
      until one of those. */
  ghost predicate Follows(now: bool, r: Record, xs: seq<Step>)
    decreases |xs|
  {
    if xs == [] then now
    else
      var x := xs[0];
      Follows(if x.Restart? then x.readable || OnDisk(r.file) == {} else now || Lands(r, x), Next(r, x), xs[1..])
  }

  /** Through any mix of records, unrecords, failed writes, and starts that read
      the file or do not: memory is what the file says exactly when it follows it. */
  lemma {:induction false} MemoryIsOnDisk(r: Record, xs: seq<Step>)
    requires Sound(r) && PossibleRun(r, xs) && AllLegible(xs)
    ensures Sound(Run(r, xs))
    ensures InStep(Run(r, xs)) <==> Follows(InStep(r), r, xs)
    decreases |xs|
  {
    if xs != [] {
      var x := xs[0];
      assert Legible(x);
      StepKeepsMemoryOnDisk(r, x);
      StepStaysSound(r, x);
      assert Lands(r, x) ==> forall e :: e in Next(r, x).memory ==> Clean(e);
      assert forall i :: 0 <= i < |xs[1..]| ==> xs[1..][i] == xs[i + 1];
      MemoryIsOnDisk(Next(r, x), xs[1..]);
    }
  }

  /** A record made with `keep`, or a start. */
  predicate OnlyKeeps(x: Step) {
    (x.Keeping? && x.keep) || x.Restart?
  }

  ghost predicate KeepingRun(r: Record, xs: seq<Step>) {
    Sound(r) && PossibleRun(r, xs) && AllLegible(xs) && forall i :: 0 <= i < |xs| ==> OnlyKeeps(xs[i])
  }

  /** A record that lands while memory lacks something the file says, and does not
      list it itself: the file loses it. */
  ghost predicate Overwrites(r: Record, x: Step) {
    Lands(r, x) && !(OnDisk(r.file) <= Meant(r, x))
  }

  ghost predicate NeverOverwrites(r: Record, xs: seq<Step>)
    decreases |xs|
  {
    xs != [] ==> !Overwrites(r, xs[0]) && NeverOverwrites(Next(r, xs[0]), xs[1..])
  }

  lemma StepOnlyGrows(r: Record, x: Step)
    requires Sound(r) && Possible(r, x) && Legible(x)
    ensures OnDisk(r.file) <= OnDisk(Next(r, x).file) <==> !Overwrites(r, x)
    ensures OnlyKeeps(x) && InStep(r) ==> !Overwrites(r, x)
  {
    LandedIsOnDisk(r, x);
  }

  lemma KeepingStep(r: Record, xs: seq<Step>)
    requires KeepingRun(r, xs) && xs != []
    ensures Possible(r, xs[0]) && Legible(xs[0]) && OnlyKeeps(xs[0]) && KeepingRun(Next(r, xs[0]), xs[1..])
  {
    assert Legible(xs[0]) && OnlyKeeps(xs[0]);
    StepStaysSound(r, xs[0]);
    assert forall i :: 0 <= i < |xs[1..]| ==> xs[1..][i] == xs[i + 1];
  }

  /** The record after the first `i` steps. */
  function Moment(r: Record, xs: seq<Step>, i: nat): (n: Record)
    requires i <= |xs|
  {
    Run(r, xs[..i])
  }

  lemma MomentsFollow(r: Record, xs: seq<Step>)
    requires xs != []
    ensures Moment(r, xs, 0) == r
    ensures forall i :: 0 <= i < |xs| ==> Moment(Next(r, xs[0]), xs[1..], i) == Moment(r, xs, i + 1)
  {
    forall i | 0 <= i < |xs| ensures Moment(Next(r, xs[0]), xs[1..], i) == Moment(r, xs, i + 1) {
      assert xs[..i + 1][1..] == xs[1..][..i];
    }
  }

  /** What the file says has grown, if it changed at all, by the `i`-th step. */
  ghost predicate GrowsAt(r: Record, xs: seq<Step>, i: nat)
    requires i < |xs|
  {
    OnDisk(Moment(r, xs, i).file) <= OnDisk(Moment(r, xs, i + 1).file)
  }

  /** While only keeping goes on, what the file says grows at every step exactly
      when no record lands over something memory lacks. */
  lemma {:induction false} KeepingOnlyGrows(r: Record, xs: seq<Step>)
    requires KeepingRun(r, xs)
    ensures NeverOverwrites(r, xs) <==> forall i :: 0 <= i < |xs| ==> GrowsAt(r, xs, i)
    ensures NeverOverwrites(r, xs) ==> OnDisk(r.file) <= OnDisk(Run(r, xs).file)
    decreases |xs|
  {
    if xs != [] {
      KeepingStep(r, xs);
      StepOnlyGrows(r, xs[0]);
      KeepingOnlyGrows(Next(r, xs[0]), xs[1..]);
      MomentsFollow(r, xs);
      assert GrowsAt(r, xs, 0) <==> OnDisk(r.file) <= OnDisk(Next(r, xs[0]).file) by {
        assert Moment(Next(r, xs[0]), xs[1..], 0) == Next(r, xs[0]);
      }
      GrowthFollows(r, xs);
    }
  }

  lemma GrowthFollows(r: Record, xs: seq<Step>)
    requires xs != []
    ensures (forall i :: 0 <= i < |xs| ==> GrowsAt(r, xs, i)) <==>
      GrowsAt(r, xs, 0) && forall i :: 0 <= i < |xs[1..]| ==> GrowsAt(Next(r, xs[0]), xs[1..], i)
  {
    MomentsFollow(r, xs);
    forall i | 0 <= i < |xs[1..]| ensures GrowsAt(Next(r, xs[0]), xs[1..], i) <==> GrowsAt(r, xs, i + 1) {
      assert Moment(Next(r, xs[0]), xs[1..], i + 1) == Moment(r, xs, i + 2);
    }
    if GrowsAt(r, xs, 0) && forall i :: 0 <= i < |xs[1..]| ==> GrowsAt(Next(r, xs[0]), xs[1..], i) {
      forall i | 0 <= i < |xs| ensures GrowsAt(r, xs, i) {
        if i > 0 {
          assert GrowsAt(Next(r, xs[0]), xs[1..], i - 1);
        }
      }
    }
  }

  /** As long as every start reads the file, nothing ever is overwritten. */
  lemma {:induction false} ReadableStartsNeverOverwrite(r: Record, xs: seq<Step>)
    requires KeepingRun(r, xs) && InStep(r)
    requires forall i :: 0 <= i < |xs| && xs[i].Restart? ==> xs[i].readable
    ensures NeverOverwrites(r, xs) && InStep(Run(r, xs)) && r.memory <= Run(r, xs).memory
    decreases |xs|
  {
    if xs != [] {
      KeepingStep(r, xs);
      StepOnlyGrows(r, xs[0]);
      LandedIsOnDisk(r, xs[0]);
      assert forall i :: 0 <= i < |xs[1..]| ==> xs[1..][i] == xs[i + 1];
      ReadableStartsNeverOverwrite(Next(r, xs[0]), xs[1..]);
    }
  }

  // ------------------------------------------------------------- removals

  /** Granted, in memory, and not in the table; nothing without a table. */
  function Removed(memory: set<string>, granted: seq<string>, table: Option<seq<string>>): (gone: set<string>) {
    if table.None? then {} else AllCanonical(granted) * memory - AllCanonical(table.value)
  }

  /** Of those, what a second read does not list either. */
  function Confirmed(removed: set<string>, again: Option<seq<string>>): (gone: set<string>) {
    if again.None? then {} else set fp | fp in removed && Canonical(fp) !in AllCanonical(again.value)
  }

  /** A record that lands without naming `fp`, while memory lacks it. */
  ghost predicate LosesDevice(r: Record, x: Step, fp: string) {
    Lands(r, x) && fp !in r.memory && (x.Keeping? ==> fp !in AllCanonical(x.listed))
  }

  ghost predicate NeverLost(r: Record, xs: seq<Step>, fp: string)
    decreases |xs|
  {
    xs != [] ==> !LosesDevice(r, xs[0], fp) && NeverLost(Next(r, xs[0]), xs[1..], fp)
  }

  /** Whether `fp` is in memory whenever a start has read the file since the last
      that did not: memory lacks a recorded device only between a start that could
      not read the file and the next that does, or a record that names it. */
  ghost predicate Missed(missed: bool, r: Record, xs: seq<Step>, fp: string)
    decreases |xs|
  {
    if xs == [] then missed
    else
      var x := xs[0];
      Missed(if x.Restart? then !x.readable else missed && !(Lands(r, x) && fp in Meant(r, x)), Next(r, x), xs[1..], fp)
  }

  /** While only keeping goes on, a device on disk stays there as long as no record
      loses it, and memory lacks it exactly when its last start missed it. */
  lemma {:induction false} RecordedStaysOnDisk(r: Record, xs: seq<Step>, fp: string)
    requires KeepingRun(r, xs) && fp in OnDisk(r.file) && NeverLost(r, xs, fp)
    ensures fp in OnDisk(Run(r, xs).file)
    ensures fp !in Run(r, xs).memory <==> Missed(fp !in r.memory, r, xs, fp)
    decreases |xs|
  {
    if xs != [] {
      KeepingStep(r, xs);
      LandedIsOnDisk(r, xs[0]);
      RecordedStaysOnDisk(Next(r, xs[0]), xs[1..], fp);
    }
  }

  /** What a start that reads the file, after the first `i` steps, finds removed. */
  function RemovedAt(r: Record, xs: seq<Step>, i: nat, granted: seq<string>, table: seq<string>): (gone: set<string>)
    requires i <= |xs|
  {
    Removed(Next(Moment(r, xs, i), Restart(true)).memory, granted, Some(table))
  }

  /** A device recorded on disk, still granted and missing from the table reads as
      removed at a start that reads the file, wherever in the run that comes,
      exactly when no record loses the device. */
  lemma {:induction false} StillReadsAsRemoved(r: Record, xs: seq<Step>, fp: string, granted: seq<string>, table: seq<string>)
    requires KeepingRun(r, xs) && Canonical(fp) in OnDisk(r.file)
    requires fp in granted && Canonical(fp) !in AllCanonical(table)
    ensures NeverLost(r, xs, Canonical(fp)) <==>
      forall i :: 0 <= i <= |xs| ==> Canonical(fp) in RemovedAt(r, xs, i, granted, table)
    decreases |xs|
  {
    var c := Canonical(fp);
    if xs == [] {
      assert Moment(r, xs, 0) == r;
    } else {
      KeepingStep(r, xs);
      LandedIsOnDisk(r, xs[0]);
      MomentsFollow(r, xs);
      var n, rest := Next(r, xs[0]), xs[1..];
      assert Moment(n, rest, 0) == n == Moment(r, xs, 1);
      if LosesDevice(r, xs[0], c) {
        assert c !in RemovedAt(r, xs, 1, granted, table);
      } else {
        StillReadsAsRemoved(n, rest, fp, granted, table);
        RemovalsFollow(r, xs, c, granted, table);
      }
    }
  }

  lemma RemovalsFollow(r: Record, xs: seq<Step>, c: string, granted: seq<string>, table: seq<string>)
    requires xs != [] && c in RemovedAt(r, xs, 0, granted, table)
    ensures (forall i :: 0 <= i <= |xs| ==> c in RemovedAt(r, xs, i, granted, table)) <==>
      forall i :: 0 <= i <= |xs[1..]| ==> c in RemovedAt(Next(r, xs[0]), xs[1..], i, granted, table)
  {
    MomentsFollow(r, xs);
    forall i | 0 <= i <= |xs[1..]|
      ensures RemovedAt(Next(r, xs[0]), xs[1..], i, granted, table) == RemovedAt(r, xs, i + 1, granted, table)
    {
    }
    if forall i :: 0 <= i <= |xs[1..]| ==> c in RemovedAt(Next(r, xs[0]), xs[1..], i, granted, table) {
      forall i | 0 <= i <= |xs| ensures c in RemovedAt(r, xs, i, granted, table) {
        if i > 0 {
          assert c in RemovedAt(Next(r, xs[0]), xs[1..], i - 1, granted, table);
        }
      }
    }
  }

  /** A start that cannot read the file, and then a record of other devices: the
      file names only those, and no later start sees the first as removed. */
  lemma UnreadableStartThenRecord(r: Record, fp: string, listed: seq<string>, q: seq<string>)
    requires Sound(r) && fp in OnDisk(r.file)
    requires listed != [] && fp !in AllCanonical(listed) && Legible(Keeping(listed, true, true, q))
    requires Lists(q, AllCanonical(listed))
    ensures var xs := [Restart(false), Keeping(listed, true, true, q)];
      && KeepingRun(r, xs) && Run(r, xs) == Record(AllCanonical(listed), Some(Render(q)))
      && fp !in OnDisk(Run(r, xs).file)
  {
    var x0, x1 := Restart(false), Keeping(listed, true, true, q);
    var blind := Next(r, x0);
    assert Canonical(listed[0]) in AllCanonical(listed);
    assert Meant(blind, x1) == AllCanonical(listed);
    var xs := [x0, x1];
    assert xs[1..] == [x1] && [x1][1..] == [];
    assert Run(blind, [x1]) == Next(blind, x1) && PossibleRun(blind, [x1]);
    assert forall i :: 0 <= i < |xs| ==> Legible(xs[i]) && OnlyKeeps(xs[i]);
    LandedIsOnDisk(blind, x1);
  }

  /** One such run: a file that lists "a", an unreadable start, and "b" recorded. */
  lemma AnUnreadableStartCanForget(granted: seq<string>, table: seq<string>)
    ensures var r := Record({"a"}, Some(Render(["a"])));
      var xs := [Restart(false), Keeping(["b"], true, true, ["b"])];
      && InStep(r) && KeepingRun(r, xs)
      && "a" !in Removed(Next(Run(r, xs), Restart(true)).memory, granted, Some(table))
  {
    OneLetter("a");
    OneLetter("b");
    OneForAnother("a", "b", granted, table);
  }

  lemma OneForAnother(a: string, b: string, granted: seq<string>, table: seq<string>)
    requires a != b && Plain(a) && Plain(b)
    ensures var r := Record({a}, Some(Render([a])));
      var xs := [Restart(false), Keeping([b], true, true, [b])];
      && InStep(r) && KeepingRun(r, xs)
      && a !in Removed(Next(Run(r, xs), Restart(true)).memory, granted, Some(table))
  {
    assert AllCanonical([b]) == {b};
    UnreadableStartThenRecord(Record({a}, Some(Render([a]))), a, [b], [b]);
  }

  /** Recorded as it stands, and read back alone. */
  ghost predicate Plain(e: string) {
    Canonical(e) == e && Clean(e) && Parse(Render([e])) == {e}
  }

  lemma OneLetter(e: string)
    requires e == "a" || e == "b"
    ensures Plain(e)
  {
    TrimmedStays(e);
    assert Lower(e) == e;
    CleanReadsBack([e]);
  }

  predicate Names(x: Step, fp: string) {
    x.Keeping? && fp in AllCanonical(x.listed)
  }

  /** A device no save listed never reads as removed, at any start: deleting its
      line, or never having had one, forgets nothing. */
  lemma {:induction false} NeverListedNeverRemoved(r: Record, xs: seq<Step>, fp: string, granted: seq<string>, table: Option<seq<string>>)
    requires Sound(r) && PossibleRun(r, xs) && AllLegible(xs)
    requires forall i :: 0 <= i < |xs| ==> !Names(xs[i], fp)
    requires fp !in r.memory && fp !in OnDisk(r.file)
    ensures fp !in Removed(Run(r, xs).memory, granted, table)
    decreases |xs|
  {
    if xs != [] {
      var x := xs[0];
      assert Legible(x) && !Names(x, fp);
      StepStaysSound(r, x);
      LandedIsOnDisk(r, x);
      assert forall i :: 0 <= i < |xs[1..]| ==> xs[1..][i] == xs[i + 1];
      NeverListedNeverRemoved(Next(r, x), xs[1..], fp, granted, table);
    }
  }

  /** Recording keeps what was in memory when told to, and unrecording drops exactly the
      devices named; and a write that works has the file say so. */
  lemma WhatARecordHolds(r: Record, x: Step)
    requires !x.Restart? && Possible(r, x) && Sound(r) && Legible(x) && x.writes
    ensures var n := Next(r, x);
      && (forall fp :: fp in n.memory <==>
            if x.Keeping? then fp in AllCanonical(x.listed) || (x.keep && fp in r.memory)
            else fp in r.memory && fp !in AllCanonical(x.fps))
      && (n.memory != r.memory ==> OnDisk(n.file) == n.memory) && (n.memory == r.memory ==> n == r)
  {
    LandedIsOnDisk(r, x);
  }

  /** The same letter, whatever its case. */
  predicate SameLetter(a: char, b: char) {
    a == b || ('A' <= a <= 'Z' && b as int == a as int + 32) || ('A' <= b <= 'Z' && a as int == b as int + 32)
  }

  /** Two spellings of a fingerprint that differ in case, or in the space around them,
      are one entry; and no entry has a capital in it. */
  lemma SpellingsAreOneEntry(a: string, b: string)
    requires |Trim(a)| == |Trim(b)| && forall i :: 0 <= i < |Trim(a)| ==> SameLetter(Trim(a)[i], Trim(b)[i])
    ensures Canonical(a) == Canonical(b)
    ensures forall i :: 0 <= i < |Canonical(a)| ==> !('A' <= Canonical(a)[i] <= 'Z')
  {
  }

  /** Only what two reads of the table agree on is confirmed as removed. */
  lemma TwoReadsMustAgree(r: Record, granted: seq<string>, table: Option<seq<string>>, again: Option<seq<string>>, fp: string)
    requires CanonicalSet(r.memory)
    ensures fp in Confirmed(Removed(r.memory, granted, table), again) <==>
      table.Some? && again.Some? && fp in r.memory && fp in AllCanonical(granted)
      && fp !in AllCanonical(table.value) && fp !in AllCanonical(again.value)
  {
  }

  // ------------------------------------------------------------ the object

  class Listed {
    var fingerprints: set<string>
    /** The file beside the config. */
    var file: Option<string>

    ghost function View(): (r: Record)
      reads this
    {
      Record(fingerprints, file)
    }

    /** A start: memory is what the file parses to, or empty when `readable` is
        false; the file is left as it is. */
    constructor Read(file: Option<string>, readable: bool)
      ensures View() == Record(if readable then OnDisk(file) else {}, file)
    {
      this.file := file;
      fingerprints := if readable then OnDisk(file) else {};
    }

    /** Afterwards the object is what `Wrote` makes of it, for some order of `next`;
        `ok` is false only for a change whose write failed. */
    method Save(next: set<string>, writes: bool) returns (ok: bool)
      modifies this
      ensures ok <==> next == old(fingerprints) || writes
      ensures exists q :: Lists(q, next) && View() == Wrote(old(View()), next, writes, q)
    {
      if next == fingerprints {
        SomeListing(next);
        return true;
      }
      var text := "";
      var left := next;
      ghost var q: seq<string> := [];
      while left != {}
        invariant left <= next && Lists(q, next - left) && text == Render(q)
        invariant View() == old(View())
        decreases left
      {
        var fp :| fp in left;
        left := left - {fp};
        assert next - left == (next - left - {fp}) + {fp};
        RenderOneMore(q, fp);
        q := q + [fp];
        text := text + fp + "\n";
      }
      assert next - left == next && Lists(q, next);
      if !writes {
        return false;
      }
      file := Some(text);
      fingerprints := next;
      ok := true;
    }

    method RecordKeeping(listed: seq<string>, keep: bool, writes: bool) returns (ok: bool)
      modifies this
      ensures exists q :: Saved(old(View()), Keeping(listed, keep, writes, q), View())
    {
      var next := AllCanonical(listed) + if keep then fingerprints else {};
      ok := Save(next, writes);
      ghost var q :| Lists(q, next) && View() == Wrote(old(View()), next, writes, q);
      assert Saved(old(View()), Keeping(listed, keep, writes, q), View());
    }

    method Unrecord(fps: seq<string>, writes: bool) returns (ok: bool)
      modifies this
      ensures exists q :: Saved(old(View()), Unrecording(fps, writes, q), View())
    {
      var next := fingerprints - AllCanonical(fps);
      ok := Save(next, writes);
      ghost var q :| Lists(q, next) && View() == Wrote(old(View()), next, writes, q);
      assert Saved(old(View()), Unrecording(fps, writes, q), View());
    }
  }

  ghost predicate Saved(r: Record, x: Step, n: Record) {
    Possible(r, x) && n == Next(r, x)
  }

  lemma {:induction false} RenderOneMore(q: seq<string>, e: string)
    ensures Render(q + [e]) == Render(q) + e + "\n"
    decreases |q|
  {
    if q == [] {
      assert [] + [e] == [e] && [e][1..] == [];
      assert Render([e]) == e + "\n" + Render([]);
    } else {
      RenderOneMore(q[1..], e);
      assert (q + [e])[1..] == q[1..] + [e];
    }
  }

  lemma {:induction false} SomeListing(s: set<string>)
    ensures exists q :: Lists(q, s)
    decreases s
  {
    if s == {} {
      assert Lists([], s);
    } else {
      var e :| e in s;
      SomeListing(s - {e});
      var q :| Lists(q, s - {e});
      assert multiset(s) == multiset(s - {e}) + multiset{e};
      assert Lists(q + [e], s);
    }
  }
}
