/** Matching a reloaded config file against the devices already here. */
module Reload {
  import opened Common
  import opened Registry
  import opened ConfigFile
  import opened Matching

  /** Every device's entry. */
  function EntriesOf(c: Clients): (m: map<Handle, Entry>)
    ensures m.Keys == c.devices.Keys
    ensures forall h :: h in m ==> m[h] == ConfigEntry(c.devices[h])
  {
    map h | h in c.devices :: ConfigEntry(c.devices[h])
  }

  /** The devices no line of the file matched, and the lines no device did. */
  function PlanReload(c: Clients, file: seq<Entry>): (r: Outcome<Entry>) {
    Match(Walk(EntriesOf(c)), file)
  }

  function Drop(c: Clients, stale: set<Handle>): (r: Clients) {
    c.(devices := c.devices - stale, answered := c.answered - stale,
       refusedAs := c.refusedAs - stale, answeredAs := c.answeredAs - stale)
  }

  /** What applying a plan leaves: the stale devices removed, then the new
      entries added under handles never used before. */
  function Reloaded(c: Clients, file: seq<Entry>): (r: Clients) {
    var plan := PlanReload(c, file);
    InsertAll(Drop(c, Keys(plan.left)), Started(plan.unmatched))
  }

  lemma ReorderingTheFileChangesNothing(c: Clients, file: seq<Entry>, reordered: seq<Entry>)
    requires multiset(file) == multiset(reordered)
    ensures PlanReload(c, file).left == PlanReload(c, reordered).left
    ensures multiset(PlanReload(c, file).unmatched) == multiset(PlanReload(c, reordered).unmatched)
  {
    var table := Walk(EntriesOf(c));
    MatchIgnoresOrder(table, file);
    MatchIgnoresOrder(table, reordered);
    MatchIsDifference(table, file);
    MatchIsDifference(table, reordered);
  }

  lemma StartedEntries(entries: seq<Entry>)
    ensures forall i :: 0 <= i < |entries| ==> ConfigEntry(Started(entries)[i]) == entries[i]
  {
  }

  lemma DropThenInsert(c: Clients, stale: set<Handle>, ds: seq<Device>)
    requires c.Valid()
    ensures var r := InsertAll(Drop(c, stale), ds);
      && r.next == c.next + |ds|
      && (forall h :: h in r.devices <==> (h in c.devices && h !in stale) || c.next <= h < r.next)
      && (forall h :: h in c.devices && h !in stale ==> r.devices[h] == c.devices[h])
      && (forall h :: c.next <= h < r.next ==> r.devices[h] == ds[h - c.next])
  {
    InsertAllExtends(Drop(c, stale), ds);
  }

  lemma PlanCounts(have: map<Handle, Entry>, file: seq<Entry>, e: Entry)
    ensures var plan := Match(Walk(have), file);
      |Holding(have - Keys(plan.left), e)| + multiset(plan.unmatched)[e] == multiset(file)[e]
  {
    var plan := Match(Walk(have), file);
    LeftOfThem(have, file);
    MatchIsDifference(Walk(have), file);
    WalkCounts(have, e);
    HoldingWithout(have, plan.left, e);
  }

  lemma LeftOfThem(have: map<Handle, Entry>, file: seq<Entry>)
    ensures var q := Match(Walk(have), file).left;
      && (forall i, j :: 0 <= i < j < |q| ==> q[i].0 != q[j].0)
      && (forall i :: 0 <= i < |q| ==> q[i].0 in have && q[i].1 == have[q[i].0])
  {
    WalkIsDistinct(have);
    LeftIsPart(Walk(have), file);
    var q := Match(Walk(have), file).left;
    assert forall i :: 0 <= i < |q| ==> q[i] in q;
  }

  function Less(a: nat, b: nat): (r: nat) {
    if a < b then a else b
  }

  /** Of the devices whose entry reads `e`, as many keep it as the file has lines
      that do. */
  lemma AsManyAreKept(have: map<Handle, Entry>, file: seq<Entry>, e: Entry)
    ensures |Holding(have - Keys(Match(Walk(have), file).left), e)| == Less(|Holding(have, e)|, multiset(file)[e])
  {
    PlanCounts(have, file, e);
    MatchIsDifference(Walk(have), file);
    WalkCounts(have, e);
  }

  /** An unchanged entry keeps its device, under its handle and with all that is
      known of it: of the devices that read `e` as many stay as lines of the file
      do. Every other device goes, and every other line is a new device under a
      handle never used before. */
  lemma ReloadKeepsHandles(c: Clients, file: seq<Entry>)
    requires c.Valid()
    ensures var r := Reloaded(c, file);
            var plan := PlanReload(c, file);
      && r.next == c.next + |plan.unmatched|
      && (forall h :: h in r.devices <==> (h in c.devices && h !in Keys(plan.left)) || c.next <= h < r.next)
      && (forall h :: h in c.devices && h !in Keys(plan.left) ==> r.devices[h] == c.devices[h])
      && (forall h :: c.next <= h < r.next ==> r.devices[h] == Started(plan.unmatched)[h - c.next])
    ensures forall e :: |Holding(EntriesOf(c) - Keys(PlanReload(c, file).left), e)|
                        == Less(|Holding(EntriesOf(c), e)|, multiset(file)[e])
  {
    var plan := PlanReload(c, file);
    DropThenInsert(c, Keys(plan.left), Started(plan.unmatched));
    forall e ensures |Holding(EntriesOf(c) - Keys(plan.left), e)| == Less(|Holding(EntriesOf(c), e)|, multiset(file)[e]) {
      AsManyAreKept(EntriesOf(c), file, e);
    }
  }

  /** The entries of what drops some devices and adds others after them. */
  lemma EntriesAfter(c: Clients, stale: set<Handle>, ds: seq<Device>, added: seq<Entry>)
    requires c.Valid()
    requires |ds| == |added| && forall i :: 0 <= i < |ds| ==> ConfigEntry(ds[i]) == added[i]
    ensures var r := EntriesOf(InsertAll(Drop(c, stale), ds));
            var kept := EntriesOf(c) - stale;
      && (forall h :: h in r <==> h in kept || c.next <= h < c.next + |added|)
      && (forall h :: h in kept ==> r[h] == kept[h] && h < c.next)
      && (forall h :: c.next <= h < c.next + |added| ==> r[h] == added[h - c.next])
  {
    DropThenInsert(c, stale, ds);
  }

  lemma HoldingAfter(c: Clients, stale: set<Handle>, ds: seq<Device>, added: seq<Entry>, e: Entry)
    requires c.Valid()
    requires |ds| == |added| && forall i :: 0 <= i < |ds| ==> ConfigEntry(ds[i]) == added[i]
    ensures |Holding(EntriesOf(InsertAll(Drop(c, stale), ds)), e)| == |Holding(EntriesOf(c) - stale, e)| + multiset(added)[e]
  {
    EntriesAfter(c, stale, ds, added);
    HoldingExtended(EntriesOf(c) - stale, c.next, added, EntriesOf(InsertAll(Drop(c, stale), ds)), e);
  }

  /** After a reload the devices' entries are exactly the file's: as many
      devices read `e` as lines of the file do. */
  lemma ReloadMatchesFile(c: Clients, file: seq<Entry>, e: Entry)
    requires c.Valid()
    ensures |Holding(EntriesOf(Reloaded(c, file)), e)| == multiset(file)[e]
  {
    var have, plan := EntriesOf(c), PlanReload(c, file);
    PlanCounts(have, file, e);
    StartedEntries(plan.unmatched);
    HoldingAfter(c, Keys(plan.left), Started(plan.unmatched), plan.unmatched, e);
  }

  /** Planning again finds nothing left to do. */
  lemma ReloadTwiceIsOnce(c: Clients, file: seq<Entry>)
    requires c.Valid()
    ensures PlanReload(Reloaded(c, file), file) == Outcome([], [])
  {
    var have := EntriesOf(Reloaded(c, file));
    forall e ensures multiset(Values(Walk(have)))[e] == multiset(file)[e] {
      ReloadMatchesFile(c, file, e);
      WalkCounts(have, e);
    }
    EqualLeavesNothing(have, file);
  }

  // ------------------------------------------------- a reload, as requests

  function Removals(q: seq<(Handle, Entry)>): (ops: seq<Op>)
    ensures |ops| == |q|
  {
    seq(|q|, i requires 0 <= i < |q| => Op.Remove(q[i].0))
  }

  function Additions(q: seq<Entry>): (ops: seq<Op>)
    ensures |ops| == |q|
  {
    seq(|q|, i requires 0 <= i < |q| => AddWithConfig(q[i]))
  }

  lemma {:induction false} RunInParts(c: Clients, first: seq<Op>, rest: seq<Op>)
    ensures Registry.Run(c, first + rest) == Registry.Run(Registry.Run(c, first), rest)
    decreases |first|
  {
    if first == [] {
      assert first + rest == rest;
    } else {
      assert (first + rest)[1..] == first[1..] + rest;
      RunInParts(Apply(c, first[0]), first[1..], rest);
    }
  }

  lemma {:induction false} DroppingIsRemoving(c: Clients, q: seq<(Handle, Entry)>)
    ensures Registry.Run(c, Removals(q)) == Drop(c, Keys(q))
    decreases |q|
  {
    if q == [] {
      assert Keys(q) == {};
      assert Drop(c, {}) == c;
    } else {
      assert Removals(q)[1..] == Removals(q[1..]);
      DroppingIsRemoving(c.Remove(q[0].0), q[1..]);
      DropOneMore(c, q);
    }
  }

  lemma DropOneMore(c: Clients, q: seq<(Handle, Entry)>)
    requires q != []
    ensures Drop(c.Remove(q[0].0), Keys(q[1..])) == Drop(c, Keys(q))
  {
    assert Keys(q) == Keys(q[1..]) + {q[0].0};
  }

  lemma OneAdded(c: Clients, e: Entry)
    ensures Registry.Run(c, [AddWithConfig(e)]) == c.Insert(FromEntry(e))
  {
    assert [AddWithConfig(e)][1..] == [];
  }

  lemma OneMoreStarted(q: seq<Entry>)
    requires q != []
    ensures Started(q) == Started(q[..|q| - 1]) + [FromEntry(q[|q| - 1])]
    ensures Additions(q) == Additions(q[..|q| - 1]) + [AddWithConfig(q[|q| - 1])]
  {
  }

  lemma OneMoreInserted(c: Clients, ds: seq<Device>, d: Device)
    ensures InsertAll(c, ds + [d]) == InsertAll(c, ds).Insert(d)
  {
    assert (ds + [d])[..|ds|] == ds;
  }

  lemma {:induction false} StartingIsAdding(c: Clients, q: seq<Entry>)
    ensures Registry.Run(c, Additions(q)) == InsertAll(c, Started(q))
    decreases |q|
  {
    if q != [] {
      var before, e := q[..|q| - 1], q[|q| - 1];
      StartingIsAdding(c, before);
      OneMoreStarted(q);
      RunInParts(c, Additions(before), [AddWithConfig(e)]);
      OneAdded(Registry.Run(c, Additions(before)), e);
      OneMoreInserted(c, Started(before), FromEntry(e));
    }
  }

  /** A reload is a run of requests: a removal for each device no line matches, and an
      entry added for each line no device does. So all that every run of requests keeps,
      a reload keeps. */
  lemma AReloadIsRequests(c: Clients, file: seq<Entry>)
    ensures var plan := PlanReload(c, file);
      Reloaded(c, file) == Registry.Run(c, Removals(plan.left) + Additions(plan.unmatched))
  {
    var plan := PlanReload(c, file);
    RunInParts(c, Removals(plan.left), Additions(plan.unmatched));
    DroppingIsRemoving(c, plan.left);
    StartingIsAdding(Drop(c, Keys(plan.left)), plan.unmatched);
  }

  // ---------------------------------------------- what a file does not know of

  lemma LearningKeepsEntries(c: Clients, op: Op)
    requires IsLearned(op)
    ensures EntriesOf(Apply(c, op)) == EntriesOf(c)
  {
    assert Apply(c, op).devices.Keys == c.devices.Keys by {
      SameDevices(c, op);
    }
    forall h | h in c.devices ensures ConfigEntry(Apply(c, op).devices[h]) == ConfigEntry(c.devices[h]) {
      LearningKeepsEntry(c, op, h);
    }
    SameEntries(c, Apply(c, op));
  }

  lemma LearningKeepsEntry(c: Clients, op: Op, h: Handle)
    requires IsLearned(op) && h in c.devices
    ensures Apply(c, op).devices.Keys == c.devices.Keys
    ensures ConfigEntry(Apply(c, op).devices[h]) == ConfigEntry(c.devices[h])
  {
    if op.IsEdit() && op.h == h {
      EditedEntry(c.devices[h], op);
    }
  }

  lemma SameDevices(c: Clients, op: Op)
    requires IsLearned(op)
    ensures Apply(c, op).devices.Keys == c.devices.Keys
  {
  }

  lemma SameEntries(c: Clients, r: Clients)
    requires r.devices.Keys == c.devices.Keys
    requires forall h :: h in c.devices ==> ConfigEntry(r.devices[h]) == ConfigEntry(c.devices[h])
    ensures EntriesOf(r) == EntriesOf(c)
  {
  }

  lemma {:induction false} LearnedRunKeepsEntries(c: Clients, ops: seq<Op>)
    requires forall i :: 0 <= i < |ops| ==> IsLearned(ops[i])
    ensures EntriesOf(Registry.Run(c, ops)) == EntriesOf(c)
    decreases |ops|
  {
    if ops != [] {
      assert IsLearned(ops[0]);
      LearningKeepsEntries(c, ops[0]);
      assert forall i :: 0 <= i < |ops[1..]| ==> ops[1..][i] == ops[i + 1];
      LearnedRunKeepsEntries(Apply(c, ops[0]), ops[1..]);
    }
  }

  lemma StartedCounts(file: seq<Entry>, e: Entry)
    ensures multiset(Values(Walk(EntriesOf(InsertAll(EMPTY, Started(file))))))[e] == multiset(file)[e]
  {
    StartedEntries(file);
    HoldingAfter(EMPTY, {}, Started(file), file, e);
    assert Drop(EMPTY, {}) == EMPTY;
    assert EntriesOf(EMPTY) - {} == map[];
    WalkCounts(EntriesOf(InsertAll(EMPTY, Started(file))), e);
  }

  /** Entries the table and the list hold equally often leave nothing over. */
  lemma EqualLeavesNothing(have: map<Handle, Entry>, list: seq<Entry>)
    requires forall e :: multiset(Values(Walk(have)))[e] == multiset(list)[e]
    ensures Match(Walk(have), list) == Outcome([], [])
  {
    var plan := Match(Walk(have), list);
    MatchIsDifference(Walk(have), list);
    assert |Values(plan.left)| == |multiset(Values(plan.left))|;
    assert |plan.unmatched| == |multiset(plan.unmatched)|;
  }

  /** Devices started from a file, and any run of lookups, links, pings and what peers
      say after: reloading that file, its lines in whatever order, plans nothing. */
  lemma UnchangedFileReloadsToNothing(file: seq<Entry>, ops: seq<Op>, again: seq<Entry>)
    requires forall i :: 0 <= i < |ops| ==> IsLearned(ops[i])
    requires multiset(again) == multiset(file)
    ensures PlanReload(Registry.Run(InsertAll(EMPTY, Started(file)), ops), again) == Outcome([], [])
  {
    var c := InsertAll(EMPTY, Started(file));
    LearnedRunKeepsEntries(c, ops);
    forall e ensures multiset(Values(Walk(EntriesOf(c))))[e] == multiset(again)[e] {
      StartedCounts(file, e);
    }
    EqualLeavesNothing(EntriesOf(c), again);
  }
}
