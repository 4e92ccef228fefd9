/**
 What a batch means for the skills it names: the order of plans does not matter, a batch equals its
 members done one after the other, content is replaced only for a sole owner, and a directory stays
 exactly while some owner remains.
 */
module Batches {
  import opened Options
  import opened Lockfile
  import opened Order
  import opened Paths
  import opened SkillTree
  import opened BundleFormat
  import opened Transaction
  import opened CrashSafety
  import opened RecoverySafety
  import opened Changes
  import opened Planning

  // ---------------------------------------------------------------- the order of changes

  lemma AffectsIgnoresOrder(cs: seq<Change>, ds: seq<Change>, p: Path)
    requires forall c :: c in cs <==> c in ds
    ensures Affects(cs, p) <==> Affects(ds, p)
  {
    if Affects(cs, p) {
      var k :| 0 <= k < |cs| && cs[k].op.destination == p;
      assert cs[k] in cs && cs[k] in ds;
      var m :| 0 <= m < |ds| && ds[m] == cs[k];
    }
    if Affects(ds, p) {
      var k :| 0 <= k < |ds| && ds[k].op.destination == p;
      assert ds[k] in ds && ds[k] in cs;
      var m :| 0 <= m < |cs| && cs[m] == ds[k];
    }
  }

  lemma {:induction false} SurvivorsIgnoreOrder(entries: seq<Entry>, cs: seq<Change>, ds: seq<Change>)
    requires forall c :: c in cs <==> c in ds
    ensures Survivors(entries, cs) == Survivors(entries, ds)
  {
    if entries != [] {
      SurvivorsIgnoreOrder(entries[1..], cs, ds);
      AffectsIgnoresOrder(cs, ds, entries[0].destination);
    }
  }

  lemma MembersOfAdditions(cs: seq<Change>, ds: seq<Change>)
    requires forall c :: c in cs ==> c in ds
    ensures forall e :: e in Additions(cs) ==> e in Additions(ds)
  {
    AdditionsSpec(cs);
    AdditionsSpec(ds);
    forall e | e in Additions(cs)
      ensures e in Additions(ds)
    {
      var k :| 0 <= k < |cs| && cs[k].entry == Some(e);
      assert cs[k] in cs && cs[k] in ds;
      var m :| 0 <= m < |ds| && ds[m] == cs[k];
      assert ds[m].entry == Some(e);
    }
  }

  /** The same changes in another order make the same transaction. */
  lemma TxIgnoresOrder(d: Disk, cs: seq<Change>, ds: seq<Change>, stage: Path, oldLock: Option<LockFile>, newLock: Option<LockFile>)
    requires JournalTidy(ReadJournal(d)) && ChangesFit(d, cs) && ChangesFit(d, ds)
    requires forall c :: c in cs <==> c in ds
    ensures TxOf(d, cs, stage, oldLock, newLock) == TxOf(d, ds, stage, oldLock, newLock)
  {
    hide JournalTidy, ChangeFits, ChangesFit;
    var entries := ReadJournal(d).entries;
    SurvivorsIgnoreOrder(entries, cs, ds);
    MembersOfAdditions(cs, ds);
    MembersOfAdditions(ds, cs);
    CombinedDistinct(d, cs);
    CombinedDistinct(d, ds);
    SortByIgnoresOrder(Survivors(entries, cs) + Additions(cs), Survivors(entries, ds) + Additions(ds), EntryOrder);
    OpsIgnoreOrder(d, cs, ds);
  }

  lemma OpsIgnoreOrder(d: Disk, cs: seq<Change>, ds: seq<Change>)
    requires ChangesFit(d, cs) && ChangesFit(d, ds)
    requires forall c :: c in cs <==> c in ds
    ensures SortBy(OpsOf(cs), OperationOrder) == SortBy(OpsOf(ds), OperationOrder)
  {
    hide ChangeFits, ChangesFit;
    var a, b := SortBy(OpsOf(cs), OperationOrder), SortBy(OpsOf(ds), OperationOrder);
    OpsSpec(d, cs);
    OpsSpec(d, ds);
    OpsSorted(d, cs);
    OpsSorted(d, ds);
    forall o
      ensures o in a <==> o in b
    {
      if o in a {
        var k :| 0 <= k < |cs| && cs[k].op == o;
        assert cs[k] in cs && cs[k] in ds;
        var m :| 0 <= m < |ds| && ds[m] == cs[k];
        assert ds[m].op == o;
      }
      if o in b {
        var k :| 0 <= k < |ds| && ds[k].op == o;
        assert ds[k] in ds && ds[k] in cs;
        var m :| 0 <= m < |cs| && cs[m] == ds[k];
        assert cs[m].op == o;
      }
    }
    StrictlySortedUnique(a, b, OperationOrder);
  }

  lemma OpsSorted(d: Disk, cs: seq<Change>)
    requires ChangesFit(d, cs)
    ensures StrictlySorted(SortBy(OpsOf(cs), OperationOrder), OperationOrder)
  {
    hide Extract, Check, EntryTidy;
    var raw := OpsOf(cs);
    forall i, j | 0 <= i < j < |raw|
      ensures OperationOrder(raw[i]) != OperationOrder(raw[j])
    {
      assert ChangeFits(d, cs[i]) && ChangeFits(d, cs[j]);
      if OperationOrder(raw[i]) == OperationOrder(raw[j]) {
        TopLevelTexts(raw[i].destination, raw[j].destination);
      }
    }
    SortByStrict(raw, OperationOrder);
  }

  /** Plan order does not matter: every order of the same plans makes the same transaction. */
  lemma BatchIgnoresPlanOrder(
      d: Disk, a: Alloc, ps: seq<Plan>, qs: seq<Plan>, oldLock: Option<LockFile>, newLock: Option<LockFile>)
    requires Sound(d) && AllocOk(a)
    requires (forall p :: p in ps ==> PlanSafe(p)) && (forall p :: p in ps <==> p in qs)
    requires forall i, j :: 0 <= i < j < |ps| ==> ps[i].skillName != ps[j].skillName
    requires forall i, j :: 0 <= i < j < |qs| ==> qs[i].skillName != qs[j].skillName
    ensures NoConflict(d, a, ps) <==> NoConflict(d, a, qs)
    ensures TxOf(d, InstallChanges(d, a, ps), a.stage, oldLock, newLock) == TxOf(d, InstallChanges(d, a, qs), a.stage, oldLock, newLock)
  {
    hide PlanSafe, ChangeFits, ChangesFit, ChangesOk, Decide;
    InstallChangesOk(d, a, ps);
    InstallChangesOk(d, a, qs);
    InstallChangesSpec(d, a, ps);
    InstallChangesSpec(d, a, qs);
    TxIgnoresOrder(d, InstallChanges(d, a, ps), InstallChanges(d, a, qs), a.stage, oldLock, newLock);
  }

  // ---------------------------------------------------------------- one by one

  /** Directories and journal after a set of proper changes, whatever its order. */
  ghost function Applying(d: Disk, cs: seq<Change>): Disk {
    NewDisk(d, TxOf(d, cs, Child(Root, STAGE_PREFIX), None, None))
  }

  ghost predicate TouchedBy(cs: seq<Change>, q: Path) {
    exists k :: 0 <= k < |cs| && (cs[k].op.destination == q || cs[k].op.backup == Some(q))
  }

  lemma TouchedByOps(cs: seq<Change>, ops: seq<Operation>, q: Path)
    requires forall o :: o in ops <==> exists k :: 0 <= k < |cs| && cs[k].op == o
    requires Touched(ops, q)
    ensures TouchedBy(cs, q)
  {
    var i :| 0 <= i < |ops| && (ops[i].destination == q || ops[i].backup == Some(q));
    assert ops[i] in ops;
    var k :| 0 <= k < |cs| && cs[k].op == ops[i];
  }

  ghost predicate NewEntryOf(cs: seq<Change>, e: Entry) {
    exists k :: 0 <= k < |cs| && cs[k].entry == Some(e)
  }

  /** What `Applying` leaves at every path, and in the journal. */
  ghost predicate ResultOf(d: Disk, cs: seq<Change>, r: Disk) {
    && (forall k :: 0 <= k < |cs| ==> Settled(d.dirs, cs[k].op, r.dirs))
    && (forall q :: !TouchedBy(cs, q) ==> Same(r.dirs, d.dirs, q))
    && (forall e :: e in ReadJournal(r).entries <==>
         (e in ReadJournal(d).entries && !Affects(cs, e.destination)) || NewEntryOf(cs, e))
    && JournalTidy(ReadJournal(r)) && ReadLock(r) == ReadLock(d) && r.marker.None? && r.home == d.home
  }

  lemma ApplyingSpec(d: Disk, cs: seq<Change>)
    requires Sound(d) && ChangesFit(d, cs)
    ensures ResultOf(d, cs, Applying(d, cs))
  {
    hide ChangeFits, Settled, EntryTidy;
    var ops := SortBy(OpsOf(cs), OperationOrder);
    OpsSpec(d, cs);
    NewJournalSpec(d, cs);
    AfterOpsSpec(d.dirs, ops, |ops|);
    var r := Applying(d, cs);
    forall k | 0 <= k < |cs|
      ensures Settled(d.dirs, cs[k].op, r.dirs)
    {
      assert cs[k].op in ops;
      var i :| 0 <= i < |ops| && ops[i] == cs[k].op;
    }
    forall q | !TouchedBy(cs, q)
      ensures Same(r.dirs, d.dirs, q)
    {
      if Touched(ops, q) { TouchedByOps(cs, ops, q); }
    }
  }

  /** A settled operation fixes its own paths, given the base at its destination. */
  lemma SettledDetermines(base: Dirs, base': Dirs, o: Operation, x: Dirs, y: Dirs)
    requires OperationOk(base, o) && Same(base', base, o.destination)
    requires Settled(base, o, x) && Settled(base', o, y)
    ensures Same(y, x, o.destination)
    ensures o.backup.Some? ==> Same(y, x, o.backup.value)
  {
  }

  lemma Untouched(d: Disk, c: Change, cs: seq<Change>, k: nat)
    requires ChangesFit(d, [c] + cs) && k < |cs|
    ensures !TouchedBy([c], cs[k].op.destination)
    ensures cs[k].op.backup.Some? ==> !TouchedBy([c], cs[k].op.backup.value)
    ensures !TouchedBy(cs, c.op.destination)
    ensures c.op.backup.Some? ==> !TouchedBy(cs, c.op.backup.value)
  {
    hide Extract, Check, EntryTidy;
    var all := [c] + cs;
    assert all[0] == c && all[k + 1] == cs[k];
    assert ChangeFits(d, all[0]) && ChangeFits(d, all[k + 1]);
    KindsAreApart(c.op.destination);
    KindsAreApart(cs[k].op.destination);
    if c.op.backup.Some? { KindsAreApart(c.op.backup.value); }
    if cs[k].op.backup.Some? { KindsAreApart(cs[k].op.backup.value); }
    forall m | 0 <= m < |cs|
      ensures cs[m].op.destination != c.op.destination && cs[m].op.backup != Some(c.op.destination)
      ensures c.op.backup.Some? ==> cs[m].op.destination != c.op.backup.value && cs[m].op.backup != c.op.backup
    {
      assert all[m + 1] == cs[m] && ChangeFits(d, all[m + 1]);
      KindsAreApart(cs[m].op.destination);
    }
  }

  lemma ComposeDirectories(d: Disk, c: Change, cs: seq<Change>, r1: Disk, r2: Disk, r: Disk)
    requires ChangesFit(d, [c] + cs)
    requires ResultOf(d, [c], r1) && ResultOf(r1, cs, r2) && ResultOf(d, [c] + cs, r)
    ensures r2.dirs == r.dirs
  {
    hide ChangeFits, Settled, JournalTidy;
    var all := [c] + cs;
    forall q
      ensures Same(r2.dirs, r.dirs, q)
    {
      if TouchedBy(all, q) {
        var k :| 0 <= k < |all| && (all[k].op.destination == q || all[k].op.backup == Some(q));
        if k == 0 {
          ComposeAtFirst(d, c, cs, r1, r2, r, q);
        } else {
          ComposeAtRest(d, c, cs, r1, r2, r, k - 1, q);
        }
      } else {
        TouchedSplits(c, cs, q);
        assert Same(r1.dirs, d.dirs, q) && Same(r2.dirs, r1.dirs, q) && Same(r.dirs, d.dirs, q);
      }
    }
    SameEverywhere(r2.dirs, r.dirs);
  }

  lemma TouchedSplits(c: Change, cs: seq<Change>, q: Path)
    ensures TouchedBy([c] + cs, q) <==> TouchedBy([c], q) || TouchedBy(cs, q)
  {
    var all := [c] + cs;
    if TouchedBy([c], q) { assert all[0] == c; }
    if TouchedBy(cs, q) {
      var k :| 0 <= k < |cs| && (cs[k].op.destination == q || cs[k].op.backup == Some(q));
      assert all[k + 1] == cs[k];
    }
    if TouchedBy(all, q) {
      var k :| 0 <= k < |all| && (all[k].op.destination == q || all[k].op.backup == Some(q));
      if k > 0 { assert cs[k - 1] == all[k]; } else { assert [c][0] == all[0]; }
    }
  }

  lemma ComposeAtFirst(d: Disk, c: Change, cs: seq<Change>, r1: Disk, r2: Disk, r: Disk, q: Path)
    requires ChangesFit(d, [c] + cs)
    requires ResultOf(d, [c], r1) && ResultOf(r1, cs, r2) && ResultOf(d, [c] + cs, r)
    requires c.op.destination == q || c.op.backup == Some(q)
    ensures Same(r2.dirs, r.dirs, q)
  {
    hide Settled, JournalTidy, Extract, Check, EntryTidy;
    var all := [c] + cs;
    assert all[0] == c && [c][0] == c && ChangeFits(d, all[0]);
    assert Settled(d.dirs, [c][0].op, r1.dirs) && Settled(d.dirs, all[0].op, r.dirs);
    SettledDetermines(d.dirs, d.dirs, c.op, r1.dirs, r.dirs);
    if cs != [] { Untouched(d, c, cs, 0); }
    assert !TouchedBy(cs, q);
    assert Same(r2.dirs, r1.dirs, q);
  }

  lemma ComposeAtRest(d: Disk, c: Change, cs: seq<Change>, r1: Disk, r2: Disk, r: Disk, k: nat, q: Path)
    requires ChangesFit(d, [c] + cs) && k < |cs|
    requires ResultOf(d, [c], r1) && ResultOf(r1, cs, r2) && ResultOf(d, [c] + cs, r)
    requires cs[k].op.destination == q || cs[k].op.backup == Some(q)
    ensures Same(r2.dirs, r.dirs, q)
  {
    hide Settled, JournalTidy, Extract, Check, EntryTidy;
    var all := [c] + cs;
    assert all[k + 1] == cs[k] && ChangeFits(d, all[k + 1]);
    Untouched(d, c, cs, k);
    assert Same(r1.dirs, d.dirs, cs[k].op.destination);
    assert Settled(r1.dirs, cs[k].op, r2.dirs) && Settled(d.dirs, all[k + 1].op, r.dirs);
    SettledDetermines(d.dirs, r1.dirs, cs[k].op, r.dirs, r2.dirs);
  }

  lemma ComposeJournals(d: Disk, c: Change, cs: seq<Change>, r1: Disk, r2: Disk, r: Disk)
    requires ChangesFit(d, [c] + cs)
    requires ResultOf(d, [c], r1) && ResultOf(r1, cs, r2) && ResultOf(d, [c] + cs, r)
    ensures ReadJournal(r2).entries == ReadJournal(r).entries
  {
    hide Settled, EntryTidy, Extract, Check, OperationOk, Same;
    var all := [c] + cs;
    forall e
      ensures e in ReadJournal(r2).entries <==> e in ReadJournal(r).entries
    {
      assert Affects([c], e.destination) <==> c.op.destination == e.destination by {
        if c.op.destination == e.destination { assert [c][0].op.destination == e.destination; }
      }
      AffectsSplits(c, cs, e.destination);
      NewEntrySplits(c, cs, e);
      if c.entry == Some(e) {
        assert all[0] == c && ChangeFits(d, all[0]);
        if Affects(cs, e.destination) { SharedTarget(d, c, cs); }
      }
    }
    StrictlySortedUnique(ReadJournal(r2).entries, ReadJournal(r).entries, EntryOrder);
  }

  lemma SharedTarget(d: Disk, c: Change, cs: seq<Change>)
    requires ChangesFit(d, [c] + cs)
    ensures !Affects(cs, c.op.destination)
  {
    hide ChangeFits;
    var all := [c] + cs;
    forall k | 0 <= k < |cs|
      ensures cs[k].op.destination != c.op.destination
    {
      assert all[0] == c && all[k + 1] == cs[k];
    }
  }

  lemma AffectsSplits(c: Change, cs: seq<Change>, p: Path)
    ensures Affects([c] + cs, p) <==> c.op.destination == p || Affects(cs, p)
  {
    var all := [c] + cs;
    if c.op.destination == p { assert all[0].op.destination == p; }
    if Affects(cs, p) {
      var k :| 0 <= k < |cs| && cs[k].op.destination == p;
      assert all[k + 1].op.destination == p;
    }
    if Affects(all, p) {
      var k :| 0 <= k < |all| && all[k].op.destination == p;
      if k > 0 { assert cs[k - 1].op.destination == p; }
    }
  }

  lemma NewEntrySplits(c: Change, cs: seq<Change>, e: Entry)
    ensures NewEntryOf([c] + cs, e) <==> c.entry == Some(e) || NewEntryOf(cs, e)
    ensures NewEntryOf([c], e) <==> c.entry == Some(e)
  {
    var all := [c] + cs;
    if c.entry == Some(e) { assert all[0].entry == Some(e) && [c][0].entry == Some(e); }
    if NewEntryOf(cs, e) {
      var k :| 0 <= k < |cs| && cs[k].entry == Some(e);
      assert all[k + 1].entry == Some(e);
    }
    if NewEntryOf(all, e) {
      var k :| 0 <= k < |all| && all[k].entry == Some(e);
      if k > 0 { assert cs[k - 1].entry == Some(e); }
    }
  }

  // ---------------------------------------------------------------- later plans do not notice

  lemma FindEntryKept(a: seq<Entry>, b: seq<Entry>, p: Path)
    requires StrictlySorted(a, EntryOrder) && StrictlySorted(b, EntryOrder)
    requires forall e: Entry :: e.destination == p ==> (e in a <==> e in b)
    ensures FindEntry(a, p) == FindEntry(b, p)
  {
    FindEntrySpec(a, p);
    FindEntrySpec(b, p);
    if FindEntry(a, p).Some? && FindEntry(b, p).Some? {
      var e, f := FindEntry(a, p).value, FindEntry(b, p).value;
      var i :| 0 <= i < |b| && b[i] == e;
      var k :| 0 <= k < |b| && b[k] == f;
      DistinctFromSorted(b);
      assert EntryOrder(b[i]) == EntryOrder(b[k]);
    }
  }

  /** A change at another destination does not affect the verdict on a plan. */
  lemma DecideUnaffected(d: Disk, a: Alloc, c: Change, r: Disk, q: Plan)
    requires Sound(d) && AllocOk(a) && ChangeFits(d, c)
    requires ResultOf(d, [c], r)
    requires c.op.destination != Destination(q.skillName)
    requires c.op.backup.Some? ==> c.op.destination in a.backups && c.op.backup.value == a.backups[c.op.destination]
    requires PublicName(q.skillName)
    ensures Decide(r, a, q) == Decide(d, a, q)
  {
    hide Settled, Extract, Check, EntryTidy, BuildEntry, Decide, JournalVerifies, OperationOk, Quiet;
    var dest := Destination(q.skillName);
    KindsAreApart(dest);
    if c.op.backup.Some? { KindsAreApart(c.op.backup.value); }
    assert !TouchedBy([c], dest);
    assert Same(r.dirs, d.dirs, dest);
    if dest in a.backups {
      KindsAreApart(a.backups[dest]);
      assert !TouchedBy([c], a.backups[dest]);
      assert Same(r.dirs, d.dirs, a.backups[dest]);
    }
    forall e: Entry | e.destination == dest
      ensures e in ReadJournal(r).entries <==> e in ReadJournal(d).entries
    {
      assert !Affects([c], dest);
      NewEntrySplits(c, [], e);
    }
    FindEntryKept(ReadJournal(r).entries, ReadJournal(d).entries, dest);
    SameVerdict(d, r, a, q);
  }

  lemma SameVerdict(d: Disk, r: Disk, a: Alloc, q: Plan)
    requires
      var dest := Destination(q.skillName);
      && Same(r.dirs, d.dirs, dest)
      && FindEntry(ReadJournal(r).entries, dest) == FindEntry(ReadJournal(d).entries, dest)
      && (dest in a.backups ==> Same(r.dirs, d.dirs, a.backups[dest]))
    requires PublicName(q.skillName)
    ensures Decide(r, a, q) == Decide(d, a, q)
  {
    hide Check, BuildEntry, IsFile, StateName;
    PlainIsNoFile(d, Destination(q.skillName));
    PlainIsNoFile(r, Destination(q.skillName));
    FindEntrySpec(ReadJournal(d).entries, Destination(q.skillName));
  }

  lemma {:induction false} ChangesUnaffected(d: Disk, a: Alloc, c: Change, r: Disk, qs: seq<Plan>)
    requires Sound(d) && AllocOk(a) && ChangeFits(d, c)
    requires ResultOf(d, [c], r)
    requires c.op.backup.Some? ==> c.op.destination in a.backups && c.op.backup.value == a.backups[c.op.destination]
    requires forall q :: q in qs ==> PublicName(q.skillName) && c.op.destination != Destination(q.skillName)
    ensures InstallChanges(r, a, qs) == InstallChanges(d, a, qs)
    ensures NoConflict(r, a, qs) <==> NoConflict(d, a, qs)
  {
    hide Sound, ChangeFits, ResultOf, Decide;
    if qs != [] {
      assert qs[0] in qs;
      DecideUnaffected(d, a, c, r, qs[0]);
      ChangesUnaffected(d, a, c, r, qs[1..]);
      assert qs == [qs[0]] + qs[1..];
      assert NoConflict(d, a, qs) <==> Decide(d, a, qs[0]) != Refusal && NoConflict(d, a, qs[1..]);
      assert NoConflict(r, a, qs) <==> Decide(r, a, qs[0]) != Refusal && NoConflict(r, a, qs[1..]);
    }
  }

  // ---------------------------------------------------------------- a batch is its members in sequence

  ghost function AfterOne(d: Disk, a: Alloc, p: Plan): Disk {
    match Decide(d, a, p)
    case Changing(c) => Applying(d, [c])
    case _ => d
  }

  ghost function OneByOne(d: Disk, a: Alloc, ps: seq<Plan>): Disk
    decreases ps
  {
    if ps == [] then d else OneByOne(AfterOne(d, a, ps[0]), a, ps[1..])
  }

  ghost predicate OneByOneSucceeds(d: Disk, a: Alloc, ps: seq<Plan>)
    decreases ps
  {
    ps == [] || (Decide(d, a, ps[0]) != Refusal && OneByOneSucceeds(AfterOne(d, a, ps[0]), a, ps[1..]))
  }

  ghost predicate Batch(ps: seq<Plan>) {
    && (forall p :: p in ps ==> PlanSafe(p) && Extract(map[], p.bundle).Extracted?)
    && (forall i, j :: 0 <= i < j < |ps| ==> ps[i].skillName != ps[j].skillName)
  }

  lemma NothingApplied(d: Disk)
    requires Sound(d)
    ensures Alike(Applying(d, []), d)
  {
    ApplyingSpec(d, []);
    var r := Applying(d, []);
    forall q
      ensures Same(r.dirs, d.dirs, q)
    {
      assert !TouchedBy([], q);
    }
    SameEverywhere(r.dirs, d.dirs);
    forall e
      ensures e in ReadJournal(r).entries <==> e in ReadJournal(d).entries
    {
      assert !Affects([], e.destination) && !NewEntryOf([], e);
    }
    StrictlySortedUnique(ReadJournal(r).entries, ReadJournal(d).entries, EntryOrder);
  }

  lemma SingleChange(d: Disk, a: Alloc, p: Plan)
    requires Sound(d) && AllocOk(a) && PlanSafe(p) && Extract(map[], p.bundle).Extracted?
    requires Decide(d, a, p).Changing?
    ensures ChangesFit(d, [Decide(d, a, p).change])
    ensures Sound(Applying(d, [Decide(d, a, p).change]))
  {
    hide Sound, ChangeOk, ChangeFits, Decide, PlanSafe, Extract, NewDisk;
    var c := Decide(d, a, p).change;
    DecideIsProper(d, a, p);
    assert ChangesOk(d, [c]);
    OpsSpec(d, [c]);
    var ops := SortBy(OpsOf([c]), OperationOrder);
    assert Stageable(ops) by {
      forall i | 0 <= i < |ops| && ops[i].kind == Replace
        ensures ops[i].bundle.Some? && Extract(map[], ops[i].bundle.value).Extracted?
      {
        assert ops[i] in ops;
        DecideBundle(d, a, p);
      }
    }
    StageName();
    NewDiskIsSound(d, [c], Child(Root, STAGE_PREFIX), None, None);
  }

  lemma StageName()
    ensures IsStage(Child(Root, STAGE_PREFIX))
  {
  }

  lemma DecideBundle(d: Disk, a: Alloc, p: Plan)
    requires Decide(d, a, p).Changing? && Decide(d, a, p).change.op.kind == Replace
    ensures Decide(d, a, p).change.op.bundle == Some(p.bundle)
  {
  }

  /**
   A batch over distinct destinations is its members done one by one: it is accepted exactly when
   each of them is in turn, and it ends in the same installation.
   */
  lemma {:induction false} BatchIsOneByOne(d: Disk, a: Alloc, ps: seq<Plan>)
    requires Sound(d) && AllocOk(a) && Batch(ps)
    ensures OneByOneSucceeds(d, a, ps) <==> NoConflict(d, a, ps)
    ensures NoConflict(d, a, ps) ==> Alike(OneByOne(d, a, ps), Applying(d, InstallChanges(d, a, ps)))
    decreases ps
  {
    hide Sound, AllocOk, PlanSafe, Decide, Applying, Extract, ChangesFit;
    if ps == [] {
      NothingApplied(d);
    } else {
      var rest := ps[1..];
      assert ps == [ps[0]] + rest;
      assert ps[0] in ps && Batch(rest);
      assert NoConflict(d, a, ps) <==> Decide(d, a, ps[0]) != Refusal && NoConflict(d, a, rest);
      match Decide(d, a, ps[0])
      case Refusal =>
      case Unchanged =>
        BatchIsOneByOne(d, a, rest);
        assert InstallChanges(d, a, ps) == InstallChanges(d, a, rest);
      case Changing(c) =>
        BatchStep(d, a, ps, c);
        BatchIsOneByOne(Applying(d, [c]), a, rest);
    }
  }

  lemma BatchStep(d: Disk, a: Alloc, ps: seq<Plan>, c: Change)
    requires Sound(d) && AllocOk(a) && Batch(ps) && ps != []
    requires Decide(d, a, ps[0]) == Changing(c)
    ensures
      var d1 := Applying(d, [c]);
      && Sound(d1)
      && InstallChanges(d1, a, ps[1..]) == InstallChanges(d, a, ps[1..])
      && (NoConflict(d1, a, ps[1..]) <==> NoConflict(d, a, ps[1..]))
      && Alike(Applying(d1, InstallChanges(d1, a, ps[1..])), Applying(d, InstallChanges(d, a, ps)))
  {
    hide Sound, PlanSafe, Decide, Applying, Extract, ChangesFit, ChangesOk, ChangeOk, ChangeFits, ResultOf, AllocOk, PublicName;
    var rest := ps[1..];
    var d1 := Applying(d, [c]);
    assert ps[0] in ps;
    SingleChange(d, a, ps[0]);
    DecideIsProper(d, a, ps[0]);
    ApplyingSpec(d, [c]);
    forall q | q in rest
      ensures PublicName(q.skillName) && c.op.destination != Destination(q.skillName)
    {
      var k :| 0 <= k < |rest| && rest[k] == q;
      assert ps[k + 1] == q && q in ps;
      SafeIsPublic(q);
    }
    ChangesUnaffected(d, a, c, d1, rest);
    var cs := InstallChanges(d, a, rest);
    assert InstallChanges(d, a, ps) == [c] + cs;
    InstallChangesOk(d, a, ps);
    assert forall q :: q in rest ==> q in ps;
    InstallChangesOk(d1, a, rest);
    ApplyingSpec(d1, cs);
    ApplyingSpec(d, [c] + cs);
    ComposeDirectories(d, c, cs, d1, Applying(d1, cs), Applying(d, [c] + cs));
    ComposeJournals(d, c, cs, d1, Applying(d1, cs), Applying(d, [c] + cs));
    ComposeAlike(d, c, cs, d1, Applying(d1, cs), Applying(d, [c] + cs));
  }

  lemma SafeIsPublic(p: Plan)
    requires PlanSafe(p)
    ensures PublicName(p.skillName)
  {
  }

  lemma ComposeAlike(d: Disk, c: Change, cs: seq<Change>, r1: Disk, r2: Disk, r: Disk)
    requires ResultOf(d, [c], r1) && ResultOf(r1, cs, r2) && ResultOf(d, [c] + cs, r)
    requires r2.dirs == r.dirs && ReadJournal(r2).entries == ReadJournal(r).entries
    ensures Alike(r2, r)
  {
  }

  // ---------------------------------------------------------------- what a batch leaves behind

  /** The directory of a journaled skill holds exactly the files of any bundle with its digest. */
  lemma JournaledTreeIsBundle(d: Disk, e: Entry, b: Bundle)
    requires Sound(d) && e in ReadJournal(d).entries
    requires DistinctPaths(b) && BundleDigest(b) == e.digest
    ensures e.destination in d.dirs && Holds(d.dirs[e.destination], b)
  {
    hide EntryShape, BundleDigest, StrictlySorted;
    assert EntryTidy(e);
    assert VerifyEntry(d.dirs, e) == Verified;
    VerifiedIsPresent(d.dirs, e);
    var c :| Describes(e, c);
    BundleDigestHasNoBar(c);
    CheckPassesIff(e.skillName, e.digest, c, d.dirs[e.destination]);
    HoldsIffSameContents(d.dirs[e.destination], c);
    DigestDecidesFiles(b, c);
    HoldsSameFiles(d.dirs[e.destination], c, b);
  }

  lemma HoldsSameFiles(t: Tree, b: Bundle, c: Bundle)
    requires Holds(t, b) && forall f :: f in b <==> f in c
    ensures Holds(t, c)
  {
    forall q | q in t.Keys
      ensures exists i :: 0 <= i < |c| && c[i].path == q
    {
      var i :| 0 <= i < |b| && b[i].path == q;
      assert b[i] in b && b[i] in c;
      var j :| 0 <= j < |c| && c[j] == b[i];
    }
    forall i | 0 <= i < |c|
      ensures c[i].path in t.Keys && t[c[i].path] == c[i].content
    {
      assert c[i] in c && c[i] in b;
      var j :| 0 <= j < |b| && b[j] == c[i];
    }
  }

  /** A conflict-free batch of extractable plans leaves a settled installation. */
  lemma BatchIsSettled(d: Disk, a: Alloc, ps: seq<Plan>)
    requires Sound(d) && AllocOk(a) && Batch(ps)
    ensures Sound(Applying(d, InstallChanges(d, a, ps)))
  {
    hide Sound, ChangesOk, ChangesFit, Decide, PlanSafe, Extract, NewDisk, AllocOk;
    var cs := InstallChanges(d, a, ps);
    InstallChangesOk(d, a, ps);
    InstallChangesSpec(d, a, ps);
    OpsSpec(d, cs);
    var ops := SortBy(OpsOf(cs), OperationOrder);
    forall i | 0 <= i < |ops| && ops[i].kind == Replace
      ensures ops[i].bundle.Some? && Extract(map[], ops[i].bundle.value).Extracted?
    {
      assert ops[i] in ops;
      var k :| 0 <= k < |cs| && cs[k].op == ops[i];
      assert cs[k] in cs;
      var p :| p in ps && Decide(d, a, p) == Changing(cs[k]);
      DecideBundle(d, a, p);
    }
    StageName();
    NewDiskIsSound(d, cs, Child(Root, STAGE_PREFIX), None, None);
  }

  /**
   After a batch, every plan's skill is journaled under its digest with the plan's owner, and its
   directory holds exactly the files of the plan's bundle, whether they were written or shared.
   */
  lemma InstallEffect(d: Disk, a: Alloc, ps: seq<Plan>, p: Plan)
    requires Sound(d) && AllocOk(a) && Batch(ps) && p in ps && NoConflict(d, a, ps)
    ensures
      var r := Applying(d, InstallChanges(d, a, ps));
      var dest := Destination(p.skillName);
      && (exists e :: e in ReadJournal(r).entries && e.destination == dest && e.digest == p.artifactDigest && p.owner in e.owners)
      && dest in r.dirs && Holds(r.dirs[dest], p.bundle)
  {
    hide Sound, ChangeFits, ChangesFit, ChangesOk, Applying, Extract, ResultOf, Accepted, JournalTidy;
    var cs := InstallChanges(d, a, ps);
    var r := Applying(d, cs);
    InstallChangesOk(d, a, ps);
    ApplyingSpec(d, cs);
    BatchIsSettled(d, a, ps);
    var e := InstalledEntry(d, a, ps, p, r);
    SafeIsDistinct(p);
    JournaledTreeIsBundle(r, e, p.bundle);
  }

  lemma SafeIsDistinct(p: Plan)
    requires PlanSafe(p)
    ensures DistinctPaths(p.bundle) && BundleDigest(p.bundle) == p.artifactDigest
  {
  }

  lemma InstalledEntry(d: Disk, a: Alloc, ps: seq<Plan>, p: Plan, r: Disk) returns (e: Entry)
    requires Sound(d) && AllocOk(a) && Batch(ps) && p in ps && NoConflict(d, a, ps)
    requires ResultOf(d, InstallChanges(d, a, ps), r)
    ensures e in ReadJournal(r).entries && e.destination == Destination(p.skillName)
    ensures e.digest == p.artifactDigest && p.owner in e.owners
  {
    hide Sound, ChangeFits, PlanSafe, Extract, EntryTidy, Settled, JournalTidy, VerifyEntry;
    var cs := InstallChanges(d, a, ps);
    InstallChangesSpec(d, a, ps);
    FindEntrySpec(ReadJournal(d).entries, Destination(p.skillName));
    match Decide(d, a, p)
    case Changing(c) =>
      e := c.entry.value;
      assert c in cs;
      var k :| 0 <= k < |cs| && cs[k] == c;
      assert NewEntryOf(cs, e);
      UniqueSortedSpec(e.owners);
      ChangedEntry(d, a, p);
    case Unchanged =>
      e := FindEntry(ReadJournal(d).entries, Destination(p.skillName)).value;
      if Affects(cs, e.destination) {
        var k :| 0 <= k < |cs| && cs[k].op.destination == e.destination;
        assert cs[k] in cs;
        var q :| q in ps && Decide(d, a, q) == Changing(cs[k]);
        DecideIsProper(d, a, q);
        SamePlan(ps, p, q);
      }
  }

  lemma SamePlan(ps: seq<Plan>, p: Plan, q: Plan)
    requires forall i, j :: 0 <= i < j < |ps| ==> ps[i].skillName != ps[j].skillName
    requires p in ps && q in ps && p.skillName == q.skillName
    ensures p == q
  {
    var i :| 0 <= i < |ps| && ps[i] == p;
    var j :| 0 <= j < |ps| && ps[j] == q;
  }

  lemma ChangedEntry(d: Disk, a: Alloc, p: Plan)
    requires Decide(d, a, p).Changing?
    ensures
      var e := Decide(d, a, p).change.entry;
      && e.Some? && e.value.destination == Destination(p.skillName)
      && e.value.digest == p.artifactDigest && p.owner in e.value.owners
  {
    hide VerifyEntry;
    FindEntrySpec(ReadJournal(d).entries, Destination(p.skillName));
    match FindEntry(ReadJournal(d).entries, Destination(p.skillName))
    case None =>
    case Some(e) => UniqueSortedSpec(e.owners + [p.owner]);
  }

  /** Content of a journaled skill is replaced only when its sole owner asks. */
  lemma ReplacedOnlyForSoleOwner(d: Disk, a: Alloc, ps: seq<Plan>, e: Entry)
    requires Sound(d) && AllocOk(a) && Batch(ps)
    requires e in ReadJournal(d).entries
    requires !Same(Applying(d, InstallChanges(d, a, ps)).dirs, d.dirs, e.destination)
    ensures exists p :: p in ps && Destination(p.skillName) == e.destination && e.owners == [p.owner]
  {
    hide Sound, ChangeFits, ChangesFit, ChangesOk, Applying, Extract, JournalTidy;
    var cs := InstallChanges(d, a, ps);
    var r := Applying(d, cs);
    InstallChangesOk(d, a, ps);
    InstallChangesSpec(d, a, ps);
    ApplyingSpec(d, cs);
    assert TouchedBy(cs, e.destination);
    var k :| 0 <= k < |cs| && (cs[k].op.destination == e.destination || cs[k].op.backup == Some(e.destination));
    assert cs[k] in cs;
    var p :| p in ps && Decide(d, a, p) == Changing(cs[k]);
    DecideIsProper(d, a, p);
    SettledHere(d, a, p, cs[k], r, e);
  }

  lemma SettledHere(d: Disk, a: Alloc, p: Plan, c: Change, r: Disk, e: Entry)
    requires Sound(d) && e in ReadJournal(d).entries
    requires ChangeFits(d, c) && Decide(d, a, p) == Changing(c) && c.op.destination == Destination(p.skillName)
    requires c.op.destination == e.destination || c.op.backup == Some(e.destination)
    requires Settled(d.dirs, c.op, r.dirs)
    requires !Same(r.dirs, d.dirs, e.destination)
    ensures Destination(p.skillName) == e.destination && e.owners == [p.owner]
  {
    hide Extract, Check, Describes;
    assert EntryTidy(e) && VerifyEntry(d.dirs, e) == Verified;
    VerifiedIsPresent(d.dirs, e);
    FindEntrySpec(ReadJournal(d).entries, e.destination);
    var f := FindEntry(ReadJournal(d).entries, e.destination).value;
    SameDestination(ReadJournal(d), e, f);
    assert !AnotherOwner(e.owners, p.owner);
    SoleOwner(e.owners, p.owner);
  }

  lemma SoleOwner(owners: seq<string>, owner: string)
    requires owners != [] && StrictlySorted(owners, Id) && !AnotherOwner(owners, owner)
    ensures owners == [owner]
  {
    assert owners[0] in owners;
    StrictlySortedUnique(owners, [owner], Id);
  }

  /** A removal keeps the directory exactly while some other owner remains. */
  lemma RemovalEffect(d: Disk, a: Alloc, owner: string, es: seq<Entry>, e: Entry)
    requires Sound(d) && AllocOk(a) && Selection(ReadJournal(d), owner, es) && e in es
    requires NoRemovalConflict(d, a, owner, es)
    ensures
      var r := Applying(d, RemovalChanges(d, a, owner, es));
      if AnotherOwner(e.owners, owner) then
        && Same(r.dirs, d.dirs, e.destination)
        && exists f :: f in ReadJournal(r).entries && f.destination == e.destination && f.digest == e.digest
                       && forall o :: o in f.owners <==> o in e.owners && o != owner
      else
        e.destination !in r.dirs && !Journaled(ReadJournal(r), e.destination)
  {
    hide Sound, ChangesFit, ChangesOk, Applying, Extract, JournalTidy, EntryTidy, VerifyEntry, OperationOk, ChangeFits;
    var cs := RemovalChanges(d, a, owner, es);
    var r := Applying(d, cs);
    RemovalChangesOk(d, a, owner, es);
    RemovalChangesSpec(d, a, owner, es);
    ApplyingSpec(d, cs);
    assert DecideRemoval(d, a, owner, e) != Refusal;
    var c := DecideRemoval(d, a, owner, e).change;
    assert c in cs;
    var k :| 0 <= k < |cs| && cs[k] == c;
    assert Settled(d.dirs, cs[k].op, r.dirs);
    WithoutSpec(e.owners, owner);
    UniqueSortedSpec(Without(e.owners, owner));
    DecideRemovalIsProper(d, a, owner, e);
    if AnotherOwner(e.owners, owner) {
      assert NewEntryOf(cs, c.entry.value);
    } else {
      assert Affects(cs, e.destination);
      DroppedIsGone(d, cs, k, e.destination);
    }
  }

  lemma DroppedIsGone(d: Disk, cs: seq<Change>, k: nat, p: Path)
    requires ChangesFit(d, cs) && k < |cs| && cs[k].entry.None? && cs[k].op.destination == p
    ensures forall f :: NewEntryOf(cs, f) ==> f.destination != p
  {
    hide Extract, Check, EntryTidy, OperationOk;
    forall f | NewEntryOf(cs, f)
      ensures f.destination != p
    {
      var m :| 0 <= m < |cs| && cs[m].entry == Some(f);
      assert ChangeFits(d, cs[m]);
      if m < k { } else { assert k < m; }
    }
  }
}
