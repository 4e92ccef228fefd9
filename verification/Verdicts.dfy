/**
 Which installs and removals are accepted, and what they leave behind, said of the journal and the
 directories alone.
 */
module Verdicts {
  import opened Options
  import opened Lockfile
  import opened Order
  import opened Paths
  import opened SkillTree
  import opened BundleFormat
  import opened Transaction
  import opened CrashSafety
  import opened RecoverySafety
  import opened CommitSafety
  import opened Changes
  import opened Planning
  import opened Runs
  import opened Batches
  import opened Progress
  import opened Settling

  // ---------------------------------------------------------------- accepting a plan

  /** A document of the installation lies where a skill of this name would go. */
  predicate DocumentNamed(d: Disk, name: string) {
    || name == ".pskills-install.lock"
    || (name == ".pskills-journal.json" && d.journal.Some?)
    || (name == ".pskills-transaction.json" && d.marker.Some?)
    || (name == "pskills.lock.json" && d.home.Custom? && d.lock.Some?)
    || (name == ".pskills.lock.json" && d.home.Global? && d.lock.Some?)
  }

  /** The journal says that this skill is installed under the name. */
  ghost predicate InstalledUnder(d: Disk, name: string, e: Entry) {
    e in ReadJournal(d).entries && e.destination == Child(Root, name)
  }

  ghost predicate Vacant(d: Disk, name: string) {
    Child(Root, name) !in d.dirs && forall e :: e in ReadJournal(d).entries ==> e.destination != Child(Root, name)
  }

  /** The skill is there with the very content of the plan. */
  ghost predicate Shares(d: Disk, p: Plan, e: Entry) {
    InstalledUnder(d, p.skillName, e) && VerifyEntry(d.dirs, e) == Verified && e.digest == p.artifactDigest
  }

  /** The skill is there with other content, the plan's owner is its only one, and there is room for a backup. */
  ghost predicate Replaces(d: Disk, a: Alloc, p: Plan, e: Entry) {
    && InstalledUnder(d, p.skillName, e) && VerifyEntry(d.dirs, e) == Verified && e.digest != p.artifactDigest
    && (forall o :: o in e.owners ==> o == p.owner)
    && e.destination in a.backups && a.backups[e.destination] !in d.dirs
  }

  ghost predicate Installable(d: Disk, a: Alloc, p: Plan) {
    && !DocumentNamed(d, p.skillName)
    && (|| Vacant(d, p.skillName)
        || (exists e :: Shares(d, p, e))
        || (exists e :: Replaces(d, a, p, e)))
  }

  lemma DocumentNamedIff(d: Disk, name: string)
    ensures DocumentNamed(d, name) <==> IsFile(d, Destination(name))
  {
  }

  /** A well-shaped journal has one entry for a place. */
  lemma OneEntryPerPlace(j: Journal, e: Entry, f: Entry)
    requires JournalShape(j) && e in j.entries && f in j.entries && e.destination == f.destination
    ensures e == f
  {
    hide EntryShape;
    var i :| 0 <= i < |j.entries| && j.entries[i] == e;
    var k :| 0 <= k < |j.entries| && j.entries[k] == f;
    assert !(i < k) && !(k < i);
  }

  lemma PlaceNames(j: Journal, e: Entry, name: string)
    requires JournalShape(j) && e in j.entries && e.destination == Child(Root, name)
    ensures e.skillName == name && e.owners != []
  {
    hide ValidSkillName, TreeFromKey;
    assert EntryShape(e);
  }

  /** The verdict on a plan, said of the journal and the directories alone. */
  lemma PlanAcceptedIff(d: Disk, a: Alloc, p: Plan)
    requires JournalShape(ReadJournal(d))
    ensures Decide(d, a, p) != Refusal <==> Installable(d, a, p)
  {
    hide JournalShape, VerifyEntry, IsFile, BuildEntry, DocumentNamed;
    var j, dest := ReadJournal(d), Destination(p.skillName);
    DocumentNamedIff(d, p.skillName);
    FindEntrySpec(j.entries, dest);
    match FindEntry(j.entries, dest)
    case None =>
      assert forall e :: e in j.entries ==> e.destination != dest;
    case Some(e) =>
      PlaceNames(j, e, p.skillName);
      forall f | InstalledUnder(d, p.skillName, f)
        ensures f == e
      {
        OneEntryPerPlace(j, e, f);
      }
      assert InstalledUnder(d, p.skillName, e) && !Vacant(d, p.skillName);
      assert (exists f :: Shares(d, p, f)) <==> Shares(d, p, e);
      assert (exists f :: Replaces(d, a, p, f)) <==> Replaces(d, a, p, e);
  }

  /** A batch is accepted exactly when each of its plans can be installed. */
  lemma BatchAcceptedIff(d: Disk, a: Alloc, ps: seq<Plan>)
    requires JournalShape(ReadJournal(d))
    ensures NoConflict(d, a, ps) <==> forall p :: p in ps ==> Installable(d, a, p)
  {
    hide JournalShape, Decide, Installable;
    forall p | p in ps
      ensures Decide(d, a, p) != Refusal <==> Installable(d, a, p)
    {
      PlanAcceptedIff(d, a, p);
    }
  }

  // ---------------------------------------------------------------- what an accepted plan leaves

  /** Sharing adds the owner and leaves everything else about the skill as it was. */
  ghost predicate Shared(d: Disk, r: Disk, p: Plan, e: Entry) {
    && Same(r.dirs, d.dirs, e.destination)
    && exists f :: InstalledUnder(r, p.skillName, f) && f == e.(owners := f.owners)
                   && forall o :: o in f.owners <==> o in e.owners || o == p.owner
  }

  /** The plan's own files are in place, for the plan's owner alone. */
  ghost predicate Written(r: Disk, p: Plan) {
    && Child(Root, p.skillName) in r.dirs && Holds(r.dirs[Child(Root, p.skillName)], p.bundle)
    && exists f :: InstalledUnder(r, p.skillName, f) && f.skillName == p.skillName && f.digest == p.artifactDigest
                   && f.owners == [p.owner]
  }

  /** The directory that was replaced is kept in the backup. */
  ghost predicate Retained(d: Disk, r: Disk, a: Alloc, e: Entry) {
    && e.destination in a.backups && e.destination in d.dirs
    && a.backups[e.destination] in r.dirs && r.dirs[a.backups[e.destination]] == d.dirs[e.destination]
  }

  ghost predicate Installed(d: Disk, r: Disk, a: Alloc, p: Plan) {
    && (Vacant(d, p.skillName) ==> Written(r, p))
    && (forall e :: Shares(d, p, e) ==> Shared(d, r, p, e))
    && (forall e :: Replaces(d, a, p, e) ==> Written(r, p) && Retained(d, r, a, e))
  }

  lemma FoundEntry(d: Disk, name: string, e: Entry)
    requires JournalShape(ReadJournal(d)) && InstalledUnder(d, name, e)
    ensures FindEntry(ReadJournal(d).entries, Destination(name)) == Some(e) && e.skillName == name && e.owners != []
  {
    hide JournalShape;
    FindEntrySpec(ReadJournal(d).entries, Destination(name));
    OneEntryPerPlace(ReadJournal(d), e, FindEntry(ReadJournal(d).entries, Destination(name)).value);
    PlaceNames(ReadJournal(d), e, name);
  }

  lemma PlanSharing(d: Disk, a: Alloc, ps: seq<Plan>, p: Plan, e: Entry)
    requires Sound(d) && AllocOk(a) && Batch(ps) && p in ps && Installable(d, a, p) && Shares(d, p, e)
    ensures Shared(d, Applying(d, InstallChanges(d, a, ps)), p, e)
  {
    hide Sound, ChangesFit, ChangesOk, ChangeFits, ChangeOk, Applying, PlanSafe, Extract, JournalTidy, Settled, JournalShape,
      VerifyEntry, Decide;
    var cs := InstallChanges(d, a, ps);
    var r := Applying(d, cs);
    SoundShape(d);
    FoundEntry(d, p.skillName, e);
    InstallChangesOk(d, a, ps);
    InstallChangesSpec(d, a, ps);
    ApplyingSpec(d, cs);
    SharingVerdict(d, a, p, e);
    if p.owner in e.owners {
      forall k | 0 <= k < |cs|
        ensures cs[k].op.destination != e.destination && cs[k].op.backup != Some(e.destination)
      {
        assert cs[k] in cs;
        var q :| q in ps && Decide(d, a, q) == Changing(cs[k]);
        DecideIsProper(d, a, q);
        BackupIsElsewhere(d, cs[k], e);
        if q.skillName == p.skillName { SamePlan(ps, p, q); }
      }
      assert !TouchedBy(cs, e.destination) && !Affects(cs, e.destination);
      assert InstalledUnder(r, p.skillName, e) && e == e.(owners := e.owners);
    } else {
      var c := Decide(d, a, p).change;
      assert c in cs;
      var k :| 0 <= k < |cs| && cs[k] == c;
      assert Settled(d.dirs, cs[k].op, r.dirs);
      UniqueSortedSpec(e.owners + [p.owner]);
      var f := c.entry.value;
      assert NewEntryOf(cs, f) && InstalledUnder(r, p.skillName, f) && f == e.(owners := f.owners);
      MetadataKeeps(d.dirs, c.op, r.dirs);
    }
  }

  lemma SoundShape(d: Disk)
    requires Sound(d)
    ensures JournalShape(ReadJournal(d))
  {
    TidyJournalShape(ReadJournal(d));
  }

  lemma SharingVerdict(d: Disk, a: Alloc, p: Plan, e: Entry)
    requires JournalShape(ReadJournal(d)) && Shares(d, p, e) && !DocumentNamed(d, p.skillName)
    ensures p.owner in e.owners ==> Decide(d, a, p) == Unchanged
    ensures p.owner !in e.owners ==>
      Decide(d, a, p) == Changing(Change(Some(e.(owners := UniqueSorted(e.owners + [p.owner]))),
                                         Operation(e.destination, None, None, Metadata, false, None)))
  {
    hide JournalShape, VerifyEntry, IsFile, DocumentNamed;
    DocumentNamedIff(d, p.skillName);
    FoundEntry(d, p.skillName, e);
  }

  lemma MetadataKeeps(base: Dirs, o: Operation, dirs: Dirs)
    requires o.kind == Metadata && Settled(base, o, dirs)
    ensures Same(dirs, base, o.destination)
  {
  }

  /** No backup name is that of a journaled skill. */
  lemma BackupIsElsewhere(d: Disk, c: Change, e: Entry)
    requires Sound(d) && ChangeFits(d, c) && e in ReadJournal(d).entries
    ensures c.op.backup != Some(e.destination)
  {
    hide EntryShape, Check, Describes, StrictlySorted, StateName;
    assert EntryTidy(e);
  }

  lemma PlanWriting(d: Disk, a: Alloc, ps: seq<Plan>, p: Plan)
    requires Sound(d) && AllocOk(a) && Batch(ps) && p in ps && Installable(d, a, p) && NoConflict(d, a, ps)
    requires Vacant(d, p.skillName) || exists e :: Replaces(d, a, p, e)
    ensures Written(Applying(d, InstallChanges(d, a, ps)), p)
    ensures forall e :: Replaces(d, a, p, e) ==> Retained(d, Applying(d, InstallChanges(d, a, ps)), a, e)
  {
    hide Sound, ChangesFit, ChangesOk, ChangeFits, ChangeOk, Applying, PlanSafe, Extract, JournalTidy, Settled, JournalShape,
      VerifyEntry, Decide, BuildEntry;
    var cs := InstallChanges(d, a, ps);
    var r := Applying(d, cs);
    SoundShape(d);
    InstallChangesOk(d, a, ps);
    InstallChangesSpec(d, a, ps);
    ApplyingSpec(d, cs);
    WritingVerdict(d, a, p);
    var c := Decide(d, a, p).change;
    assert c in cs;
    var k :| 0 <= k < |cs| && cs[k] == c;
    assert cs[k].entry == Some(BuildEntry(p));
    assert Settled(d.dirs, cs[k].op, r.dirs);
    BuiltFields(p);
    assert NewEntryOf(cs, BuildEntry(p)) && InstalledUnder(r, p.skillName, BuildEntry(p));
    InstallEffect(d, a, ps, p);
    forall e | Replaces(d, a, p, e)
      ensures Retained(d, r, a, e)
    {
      FoundEntry(d, p.skillName, e);
      VerifiedIsPresent(d.dirs, e);
      SwapRetains(d.dirs, c.op, r.dirs);
    }
  }

  lemma BuiltFields(p: Plan)
    ensures
      var e := BuildEntry(p);
      e.destination == Child(Root, p.skillName) && e.skillName == p.skillName && e.digest == p.artifactDigest && e.owners == [p.owner]
  {
  }

  lemma WritingVerdict(d: Disk, a: Alloc, p: Plan)
    requires JournalShape(ReadJournal(d)) && !DocumentNamed(d, p.skillName)
    requires Vacant(d, p.skillName) || exists e :: Replaces(d, a, p, e)
    ensures Decide(d, a, p).Changing?
    ensures
      var c := Decide(d, a, p).change;
      && c.entry == Some(BuildEntry(p)) && c.op.kind == Replace
      && c.op.destination == Destination(p.skillName)
      && (forall e :: Replaces(d, a, p, e) ==> c.op.backup == Some(a.backups[e.destination]) && c.op.retainBackup)
  {
    hide JournalShape, VerifyEntry, IsFile, DocumentNamed, BuildEntry;
    DocumentNamedIff(d, p.skillName);
    FindEntrySpec(ReadJournal(d).entries, Destination(p.skillName));
    forall e | Replaces(d, a, p, e)
      ensures FindEntry(ReadJournal(d).entries, Destination(p.skillName)) == Some(e) && e.skillName == p.skillName
    {
      FoundEntry(d, p.skillName, e);
    }
  }

  lemma SwapRetains(base: Dirs, o: Operation, dirs: Dirs)
    requires Settled(base, o, dirs) && o.kind == Replace && o.backup.Some? && o.retainBackup && o.destination in base
    ensures o.backup.value in dirs && dirs[o.backup.value] == base[o.destination]
  {
  }

  // ---------------------------------------------------------------- selecting entries to remove

  /** Distinct valid names, each of an installed skill that carries the owner. */
  ghost predicate Selectable(j: Journal, owner: string, names: seq<string>) {
    && (forall i, k :: 0 <= i < k < |names| ==> names[i] != names[k])
    && (forall n :: n in names ==> ValidSkillName(n) && exists e :: Carries(j.entries, owner, n, e))
  }

  ghost predicate Carries(entries: seq<Entry>, owner: string, name: string, e: Entry) {
    e in entries && e.skillName == name && owner in e.owners
  }

  ghost predicate NamedOnce(entries: seq<Entry>) {
    forall i, k :: 0 <= i < k < |entries| ==> entries[i].skillName != entries[k].skillName
  }

  lemma OneEntryPerName(entries: seq<Entry>, e: Entry, f: Entry)
    requires NamedOnce(entries) && e in entries && f in entries && e.skillName == f.skillName
    ensures e == f
  {
    var i :| 0 <= i < |entries| && entries[i] == e;
    var k :| 0 <= k < |entries| && entries[k] == f;
  }

  lemma {:induction false} EntriesNamedIff(j: Journal, owner: string, names: seq<string>)
    requires NamedOnce(j.entries)
    ensures EntriesNamed(j.entries, owner, names).Some? <==> Selectable(j, owner, names)
  {
    hide ValidSkillName;
    if names != [] {
      var rest := names[1..];
      EntriesNamedIff(j, owner, rest);
      FindSkillSpec(j.entries, names[0]);
      assert names == [names[0]] + rest;
      var first := FindSkill(j.entries, names[0]);
      if exists e :: Carries(j.entries, owner, names[0], e) {
        var e :| Carries(j.entries, owner, names[0], e);
        OneEntryPerName(j.entries, e, first.value);
      }
      if first.Some? && owner in first.value.owners {
        assert Carries(j.entries, owner, names[0], first.value);
      }
      assert Selectable(j, owner, names) <==>
        ValidSkillName(names[0]) && names[0] !in rest && (exists e :: Carries(j.entries, owner, names[0], e)) && Selectable(j, owner, rest)
      by {
        SelectableSplits(j, owner, names);
      }
    }
  }

  lemma SelectableSplits(j: Journal, owner: string, names: seq<string>)
    requires names != []
    ensures Selectable(j, owner, names) <==>
      && ValidSkillName(names[0]) && names[0] !in names[1..]
      && (exists e :: Carries(j.entries, owner, names[0], e)) && Selectable(j, owner, names[1..])
  {
    hide ValidSkillName, Carries;
    var rest := names[1..];
    assert names == [names[0]] + rest;
    if Selectable(j, owner, names) {
      assert names[0] in names;
      forall k | 0 <= k < |rest|
        ensures rest[k] != names[0]
      {
        assert names[k + 1] == rest[k];
      }
      forall i, k | 0 <= i < k < |rest|
        ensures rest[i] != rest[k]
      {
        assert names[i + 1] != names[k + 1];
      }
      assert forall n :: n in rest ==> n in names;
    }
  }

  /** A selection is possible exactly for such names, and holds the owner's entries, of those names or all. */
  lemma SelectedIff(j: Journal, owner: string, names: seq<string>)
    requires JournalShape(j)
    ensures Selected(j, owner, names).Some? <==> Selectable(j, owner, names)
    ensures Selected(j, owner, names).Some? ==>
      forall e :: e in Selected(j, owner, names).value <==>
        e in j.entries && owner in e.owners && (names == [] || e.skillName in names)
  {
    hide EntryShape, ValidSkillName;
    assert NamedOnce(j.entries);
    EntriesOfSpec(j.entries, owner);
    EntriesNamedIff(j, owner, names);
    if names != [] && Selected(j, owner, names).Some? {
      EntriesNamedSpec(j.entries, owner, names);
      var es := Selected(j, owner, names).value;
      forall e
        ensures e in es <==> e in j.entries && owner in e.owners && e.skillName in names
      {
        if e in es {
          var i :| 0 <= i < |es| && es[i] == e;
          assert names[i] in names;
        }
        if e in j.entries && e.skillName in names {
          var i :| 0 <= i < |names| && names[i] == e.skillName;
          OneEntryPerName(j.entries, e, es[i]);
        }
      }
    }
  }

  // ---------------------------------------------------------------- accepting a removal

  /** The entry is intact, and some other owner stays or there is room to set the directory aside. */
  ghost predicate Releasable(d: Disk, a: Alloc, owner: string, e: Entry) {
    && VerifyEntry(d.dirs, e) == Verified
    && (|| (exists o :: o in e.owners && o != owner)
        || (e.destination in a.backups && a.backups[e.destination] !in d.dirs))
  }

  lemma EntryReleasedIff(d: Disk, a: Alloc, owner: string, e: Entry)
    ensures DecideRemoval(d, a, owner, e) != Refusal <==> Releasable(d, a, owner, e)
  {
    hide VerifyEntry, Without, UniqueSorted;
    var left := UniqueSorted(Without(e.owners, owner));
    WithoutSpec(e.owners, owner);
    UniqueSortedSpec(Without(e.owners, owner));
    if left != [] {
      assert left[0] in left;
    }
    if o :| o in e.owners && o != owner {
      assert o in left;
    }
  }

  /** A removal is accepted exactly when each selected entry can be released. */
  lemma RemovalAcceptedIff(d: Disk, a: Alloc, owner: string, es: seq<Entry>)
    ensures NoRemovalConflict(d, a, owner, es) <==> forall e :: e in es ==> Releasable(d, a, owner, e)
  {
    hide DecideRemoval, Releasable;
    forall e | e in es
      ensures DecideRemoval(d, a, owner, e) != Refusal <==> Releasable(d, a, owner, e)
    {
      EntryReleasedIff(d, a, owner, e);
    }
  }

  /** The owner leaves; the last one takes the skill along. */
  ghost predicate Released(d: Disk, r: Disk, owner: string, e: Entry) {
    if exists o :: o in e.owners && o != owner then
      && Same(r.dirs, d.dirs, e.destination)
      && exists f :: f in ReadJournal(r).entries && f == e.(owners := f.owners)
                     && forall o :: o in f.owners <==> o in e.owners && o != owner
    else
      e.destination !in r.dirs && forall f :: f in ReadJournal(r).entries ==> f.destination != e.destination
  }

  /** Nothing about the skill changes. */
  ghost predicate Kept(d: Disk, r: Disk, e: Entry) {
    Same(r.dirs, d.dirs, e.destination) && e in ReadJournal(r).entries
  }

  lemma ReleaseVerdict(d: Disk, a: Alloc, owner: string, e: Entry) returns (f: Entry)
    requires DecideRemoval(d, a, owner, e) != Refusal && AnotherOwner(e.owners, owner)
    ensures DecideRemoval(d, a, owner, e).Changing? && DecideRemoval(d, a, owner, e).change.entry == Some(f)
    ensures f == e.(owners := f.owners) && forall o :: o in f.owners <==> o in e.owners && o != owner
  {
    hide VerifyEntry, Without, UniqueSorted;
    var left := UniqueSorted(Without(e.owners, owner));
    WithoutSpec(e.owners, owner);
    UniqueSortedSpec(Without(e.owners, owner));
    var o :| o in e.owners && o != owner;
    assert o in left;
    f := e.(owners := left);
  }

  lemma RemovalReleases(d: Disk, a: Alloc, owner: string, es: seq<Entry>, e: Entry)
    requires Sound(d) && AllocOk(a) && Selection(ReadJournal(d), owner, es) && e in es && NoRemovalConflict(d, a, owner, es)
    ensures Released(d, Applying(d, RemovalChanges(d, a, owner, es)), owner, e)
  {
    hide Sound, ChangesFit, ChangesOk, Applying, DecideRemoval, JournalTidy, Settled, Same, Affects, TouchedBy;
    var cs := RemovalChanges(d, a, owner, es);
    RemovalEffect(d, a, owner, es, e);
    if AnotherOwner(e.owners, owner) {
      RemovalChangesOk(d, a, owner, es);
      RemovalChangesSpec(d, a, owner, es);
      ApplyingSpec(d, cs);
      var f := ReleaseVerdict(d, a, owner, e);
      var c := DecideRemoval(d, a, owner, e).change;
      assert DecideRemoval(d, a, owner, e) == Changing(c) && c in cs;
      var k :| 0 <= k < |cs| && cs[k] == c;
      assert NewEntryOf(cs, f) && f in ReadJournal(Applying(d, cs)).entries;
    }
  }

  /** An entry at which no change aims stays as it is. */
  lemma UnaffectedIsKept(d: Disk, cs: seq<Change>, r: Disk, e: Entry)
    requires Sound(d) && ChangesFit(d, cs) && ResultOf(d, cs, r) && e in ReadJournal(d).entries
    requires forall k :: 0 <= k < |cs| ==> cs[k].op.destination != e.destination
    ensures Kept(d, r, e)
  {
    hide Sound, ChangeFits, Settled, JournalTidy;
    forall k | 0 <= k < |cs|
      ensures cs[k].op.backup != Some(e.destination)
    {
      BackupIsElsewhere(d, cs[k], e);
    }
    assert !TouchedBy(cs, e.destination) && !Affects(cs, e.destination);
  }
}
