/**
 What `install_many_with_lock` and `remove_owner_with_lock` decide before they commit: one verdict
 per skill, from the journal and the directories as they are, and the changes those verdicts ask
 for.
 */
module Planning {
  import opened Options
  import opened Lockfile
  import opened Order
  import opened Digest
  import opened Paths
  import opened SkillTree
  import opened BundleFormat
  import opened Transaction
  import opened CrashSafety
  import opened RecoverySafety
  import opened Changes

  datatype Plan = Plan(skillName: string, bundle: Bundle, artifactDigest: string, owner: string)

  /** The private names handed out to one call: a stage, and a backup for each destination. */
  datatype Alloc = Alloc(stage: Path, backups: map<Path, Path>)

  /** Allocated names have their prefixes, and two destinations never share a backup. */
  ghost predicate AllocOk(a: Alloc) {
    && IsStage(a.stage)
    && (forall p :: p in a.backups ==> IsBackup(a.backups[p]))
    && (forall p, q :: p in a.backups && q in a.backups && a.backups[p] == a.backups[q] ==> p == q)
  }

  function Destination(name: string): Path { Child(Root, name) }

  /** `build_journal_entry`. */
  function BuildEntry(p: Plan): Entry {
    Entry(EntryKey(p.skillName, p.artifactDigest, TreeDigest(p.bundle)), Destination(p.skillName), p.skillName,
          p.artifactDigest, [p.owner], Manifest(BundleContents(p.bundle)))
  }

  // ---------------------------------------------------------------- installing

  /** What is checked of a plan before anything else is looked at. */
  ghost predicate PlanValid(p: Plan) {
    && ValidSkillName(p.skillName)
    && ValidOwner(p.owner)
    && Accepted(p.bundle)
    && p.artifactDigest == BundleDigest(p.bundle)
  }

  datatype Decision = Refusal | Unchanged | Changing(change: Change)

  predicate AnotherOwner(owners: seq<string>, owner: string) {
    exists o :: o in owners && o != owner
  }

  /** The verdict on one plan. */
  function Decide(d: Disk, a: Alloc, p: Plan): Decision {
    var dest := Destination(p.skillName);
    if IsFile(d, dest) then Refusal else
    match FindEntry(ReadJournal(d).entries, dest)
    case None =>
      if dest in d.dirs then Refusal
      else Changing(Change(Some(BuildEntry(p)), Operation(dest, None, None, Replace, false, Some(p.bundle))))
    case Some(e) =>
      if VerifyEntry(d.dirs, e) != Verified || e.skillName != p.skillName then Refusal
      else if e.digest != p.artifactDigest then
        if AnotherOwner(e.owners, p.owner) then Refusal
        else if dest !in a.backups || a.backups[dest] in d.dirs then Refusal
        else
          Changing(Change(Some(BuildEntry(p)),
                          Operation(dest, None, Some(a.backups[dest]), Replace, true, Some(p.bundle))))
      else if p.owner in e.owners then Unchanged
      else
        Changing(Change(Some(e.(owners := UniqueSorted(e.owners + [p.owner]))),
                        Operation(dest, None, None, Metadata, false, None)))
  }

  ghost predicate PlansValid(ps: seq<Plan>) {
    && (forall p :: p in ps ==> PlanValid(p))
    && (forall i, j :: 0 <= i < j < |ps| ==> ps[i].skillName != ps[j].skillName)
  }

  predicate NoConflict(d: Disk, a: Alloc, ps: seq<Plan>) {
    forall p :: p in ps ==> Decide(d, a, p) != Refusal
  }

  /** The changes of a batch, in plan order. */
  function InstallChanges(d: Disk, a: Alloc, ps: seq<Plan>): seq<Change> {
    if ps == [] then []
    else
      (match Decide(d, a, ps[0]) case Changing(c) => [c] case _ => []) + InstallChanges(d, a, ps[1..])
  }

  // ---------------------------------------------------------------- removing

  /** The verdict on one selected entry that carries the owner. */
  function DecideRemoval(d: Disk, a: Alloc, owner: string, e: Entry): Decision {
    var left := UniqueSorted(Without(e.owners, owner));
    if VerifyEntry(d.dirs, e) != Verified then Refusal
    else if left != [] then
      Changing(Change(Some(e.(owners := left)), Operation(e.destination, None, None, Metadata, false, None)))
    else if e.destination !in a.backups || a.backups[e.destination] in d.dirs then Refusal
    else
      Changing(Change(None, Operation(e.destination, None, Some(a.backups[e.destination]), Remove, false, None)))
  }

  function RemovalChanges(d: Disk, a: Alloc, owner: string, es: seq<Entry>): seq<Change> {
    if es == [] then []
    else
      (match DecideRemoval(d, a, owner, es[0]) case Changing(c) => [c] case _ => []) +
      RemovalChanges(d, a, owner, es[1..])
  }

  /** Without names: every entry carrying the owner. */
  function EntriesOf(entries: seq<Entry>, owner: string): seq<Entry> {
    if entries == [] then []
    else (if owner in entries[0].owners then [entries[0]] else []) + EntriesOf(entries[1..], owner)
  }

  function FindSkill(entries: seq<Entry>, name: string): Option<Entry> {
    if entries == [] then None
    else if entries[0].skillName == name then Some(entries[0])
    else FindSkill(entries[1..], name)
  }

  /** With names: each must be valid, named once, installed and carry the owner. */
  function EntriesNamed(entries: seq<Entry>, owner: string, names: seq<string>): Option<seq<Entry>> {
    if names == [] then Some([])
    else
      match FindSkill(entries, names[0])
      case None => None
      case Some(e) =>
        if !ValidSkillName(names[0]) || names[0] in names[1..] || owner !in e.owners then None
        else
          match EntriesNamed(entries, owner, names[1..])
          case None => None
          case Some(rest) => Some([e] + rest)
  }

  function Selected(j: Journal, owner: string, names: seq<string>): Option<seq<Entry>> {
    if names == [] then Some(EntriesOf(j.entries, owner)) else EntriesNamed(j.entries, owner, names)
  }

  predicate NoRemovalConflict(d: Disk, a: Alloc, owner: string, es: seq<Entry>) {
    forall e :: e in es ==> DecideRemoval(d, a, owner, e) != Refusal
  }

  // ---------------------------------------------------------------- entries built from bundles

  lemma BundleDigestHasNoBar(b: Bundle)
    ensures '|' !in BundleDigest(b)
  {
    DigestHasNoBar(Utf8(WireText(SortBy(b, PathKey))));
  }

  /** Skill names that are not confused with a stage, a backup or a document of the installation. */
  predicate PublicName(name: string) {
    IsPlain(Destination(name))
  }

  /** A new entry is tidy. */
  lemma BuiltEntryIsTidy(p: Plan)
    requires PlanValid(p) && PublicName(p.skillName)
    ensures EntryTidy(BuildEntry(p))
  {
    hide ValidSkillName, ValidPath, FileOk;
    var e := BuildEntry(p);
    SkillNameHasNoBar(p.skillName);
    BundleDigestHasNoBar(p.bundle);
    TreeFromEntryKey(p.skillName, p.artifactDigest, TreeDigest(p.bundle));
    assert TreeDigest(p.bundle)[0] == 's';
    BundleContentsSpec(p.bundle);
    var cs := BundleContents(p.bundle);
    forall i, j | 0 <= i < j < |e.files|
      ensures Less(FileKey(e.files[i]), FileKey(e.files[j]))
    {
      assert Less(ContentKey(cs[i]), ContentKey(cs[j]));
    }
    assert Describes(e, p.bundle);
  }

  /** The entry built for a bundle verifies its extracted tree exactly when no `.` hides in a path. */
  lemma BuiltEntryVerifiesIff(p: Plan)
    requires PlanValid(p) && Extract(map[], p.bundle).Extracted?
    ensures Check(BuildEntry(p).key, BuildEntry(p).files, true, Extract(map[], p.bundle).tree) == Verified <==> Plain(p.bundle)
  {
    hide ValidSkillName, ValidPath, Check, Extract, Plain;
    SkillNameHasNoBar(p.skillName);
    BundleDigestHasNoBar(p.bundle);
    assert Acceptable(p.bundle) by {
      forall f | f in p.bundle ensures ValidPath(f.path) { assert FileOk(f); }
    }
    ExtractionVerifiesIff(p.skillName, p.artifactDigest, p.bundle);
  }

  // ---------------------------------------------------------------- installing yields proper changes

  /** The plans a maintainer may hand in: public names and bundles that hide no `.` component. */
  ghost predicate PlanSafe(p: Plan) {
    PlanNamed(p) && Plain(p.bundle)
  }

  ghost predicate PlanNamed(p: Plan) {
    PlanValid(p) && PublicName(p.skillName)
  }

  lemma OwnerAdded(e: Entry, owner: string)
    requires EntryTidy(e) && ValidOwner(owner) && owner !in e.owners
    ensures EntryTidy(e.(owners := UniqueSorted(e.owners + [owner])))
    ensures e.(owners := UniqueSorted(e.owners + [owner])) != e
  {
    hide ValidSkillName, TreeFromKey, EntryKey, BundleDigest;
    UniqueSortedSpec(e.owners + [owner]);
    assert owner in UniqueSorted(e.owners + [owner]);
    var b :| Describes(e, b);
    assert Describes(e.(owners := UniqueSorted(e.owners + [owner])), b);
  }

  lemma SameDestination(j: Journal, e: Entry, f: Entry)
    requires JournalTidy(j) && e in j.entries && f in j.entries && e.destination == f.destination
    ensures e == f
  {
    var i :| 0 <= i < |j.entries| && j.entries[i] == e;
    var k :| 0 <= k < |j.entries| && j.entries[k] == f;
    DistinctFromSorted(j.entries);
    assert EntryOrder(j.entries[i]) == EntryOrder(j.entries[k]);
  }

  lemma VerifiedIsPresent(dirs: Dirs, e: Entry)
    requires VerifyEntry(dirs, e) == Verified
    ensures e.destination in dirs
  {
  }

  lemma FreshFits(d: Disk, p: Plan)
    requires Sound(d) && PlanNamed(p)
    requires Destination(p.skillName) !in d.dirs
    ensures
      ChangeFits(d, Change(Some(BuildEntry(p)),
                         Operation(Destination(p.skillName), None, None, Replace, false, Some(p.bundle))))
  {
    hide EntryShape, PlanValid, Plain, Check, Extract, StrictlySorted, BuildEntry, Quiet, StateName;
    var dest := Destination(p.skillName);
    BuiltEntryIsTidy(p);
    assert BuildEntry(p).destination == dest by { BuiltEntryPlace(p); }
    assert BuildEntry(p) !in ReadJournal(d).entries by {
      if BuildEntry(p) in ReadJournal(d).entries { VerifiedIsPresent(d.dirs, BuildEntry(p)); }
    }
  }

  lemma BuiltEntryPlace(p: Plan)
    ensures BuildEntry(p).destination == Destination(p.skillName)
    ensures BuildEntry(p).digest == p.artifactDigest
  {
  }

  lemma SwapFits(d: Disk, p: Plan, e: Entry, backup: Path)
    requires Sound(d) && PlanNamed(p)
    requires e in ReadJournal(d).entries && e.destination == Destination(p.skillName)
    requires e.digest != p.artifactDigest
    requires IsBackup(backup) && backup !in d.dirs
    ensures
      ChangeFits(d, Change(Some(BuildEntry(p)),
                         Operation(Destination(p.skillName), None, Some(backup), Replace, true, Some(p.bundle))))
  {
    hide EntryShape, PlanValid, Plain, Check, Extract, StrictlySorted, BuildEntry, Quiet, StateName;
    BuiltEntryIsTidy(p);
    BuiltEntryPlace(p);
    assert VerifyEntry(d.dirs, e) == Verified;
    VerifiedIsPresent(d.dirs, e);
    assert BuildEntry(p) !in ReadJournal(d).entries by {
      if BuildEntry(p) in ReadJournal(d).entries { SameDestination(ReadJournal(d), e, BuildEntry(p)); }
    }
  }

  lemma ShareFits(d: Disk, e: Entry, owner: string)
    requires Sound(d) && e in ReadJournal(d).entries && ValidOwner(owner) && owner !in e.owners
    ensures
      ChangeFits(d, Change(Some(e.(owners := UniqueSorted(e.owners + [owner]))),
                         Operation(e.destination, None, None, Metadata, false, None)))
  {
    hide EntryShape, Check, StrictlySorted;
    var f := e.(owners := UniqueSorted(e.owners + [owner]));
    OwnerAdded(e, owner);
    assert f !in ReadJournal(d).entries by {
      if f in ReadJournal(d).entries { SameDestination(ReadJournal(d), e, f); }
    }
  }

  /** Every change an install decides on fits the disk. */
  lemma DecideFits(d: Disk, a: Alloc, p: Plan)
    requires Sound(d) && AllocOk(a) && PlanNamed(p)
    requires Decide(d, a, p).Changing?
    ensures ChangeFits(d, Decide(d, a, p).change)
    ensures Decide(d, a, p).change.op.destination == Destination(p.skillName)
    ensures
      var o := Decide(d, a, p).change.op;
      o.backup.Some? ==> o.destination in a.backups && o.backup.value == a.backups[o.destination]
  {
    hide EntryShape, Accepted, Plain, ValidSkillName, Check, Extract, ChangeFits, VerifyEntry, Sound, BuildEntry, BundleDigest;
    var dest := Destination(p.skillName);
    FindEntrySpec(ReadJournal(d).entries, dest);
    match FindEntry(ReadJournal(d).entries, dest)
    case None =>
      FreshFits(d, p);
    case Some(e) =>
      if e.digest != p.artifactDigest {
        SwapFits(d, p, e, a.backups[dest]);
      } else {
        ShareFits(d, e, p.owner);
      }
  }

  /** With a bundle that hides no `.` it is proper. */
  lemma DecideIsProper(d: Disk, a: Alloc, p: Plan)
    requires Sound(d) && AllocOk(a) && PlanSafe(p)
    requires Decide(d, a, p).Changing?
    ensures ChangeOk(d, Decide(d, a, p).change) && ChangeFits(d, Decide(d, a, p).change)
    ensures Decide(d, a, p).change.op.destination == Destination(p.skillName)
    ensures
      var o := Decide(d, a, p).change.op;
      o.backup.Some? ==> o.destination in a.backups && o.backup.value == a.backups[o.destination]
  {
    hide PlanValid, PublicName, Plain, Check, Extract, ChangeFits, VerifyEntry, Sound, BuildEntry;
    DecideFits(d, a, p);
    if Extract(map[], p.bundle).Extracted? { BuiltEntryVerifiesIff(p); }
  }

  ghost predicate DistinctTargets(cs: seq<Change>) {
    forall i, j :: 0 <= i < j < |cs| ==> cs[i].op.destination != cs[j].op.destination
  }

  lemma ConsApart(c: Change, cs: seq<Change>)
    requires DistinctTargets(cs)
    requires forall j :: 0 <= j < |cs| ==> cs[j].op.destination != c.op.destination
    ensures DistinctTargets([c] + cs)
  {
  }

  /** Changes of a batch come one per changing plan. */
  lemma {:induction false} InstallChangesSpec(d: Disk, a: Alloc, ps: seq<Plan>)
    ensures forall c :: c in InstallChanges(d, a, ps) <==> exists p :: p in ps && Decide(d, a, p) == Changing(c)
  {
    if ps != [] {
      InstallChangesSpec(d, a, ps[1..]);
      assert ps == [ps[0]] + ps[1..];
    }
  }

  lemma {:induction false} InstallChangesDistinct(d: Disk, a: Alloc, ps: seq<Plan>)
    requires Sound(d) && AllocOk(a)
    requires forall p :: p in ps ==> PlanNamed(p)
    requires forall i, j :: 0 <= i < j < |ps| ==> ps[i].skillName != ps[j].skillName
    ensures DistinctTargets(InstallChanges(d, a, ps))
  {
    hide Decide, PlanNamed, Sound, ChangeFits;
    if ps != [] {
      var rest := ps[1..];
      InstallChangesDistinct(d, a, rest);
      InstallChangesSpec(d, a, rest);
      var tail := InstallChanges(d, a, rest);
      if Decide(d, a, ps[0]).Changing? {
        assert ps[0] in ps;
        DecideFits(d, a, ps[0]);
        forall j | 0 <= j < |tail|
          ensures tail[j].op.destination != Decide(d, a, ps[0]).change.op.destination
        {
          assert tail[j] in tail;
          var q :| q in rest && Decide(d, a, q) == Changing(tail[j]);
          var k :| 0 <= k < |rest| && rest[k] == q;
          assert ps[k + 1] == q && q in ps;
          DecideFits(d, a, q);
        }
        ConsApart(Decide(d, a, ps[0]).change, tail);
        assert InstallChanges(d, a, ps) == [Decide(d, a, ps[0]).change] + tail;
      } else {
        assert InstallChanges(d, a, ps) == tail;
      }
    }
  }

  /** A batch asks for changes that fit, at distinct destinations. */
  lemma InstallChangesFit(d: Disk, a: Alloc, ps: seq<Plan>)
    requires Sound(d) && AllocOk(a)
    requires forall p :: p in ps ==> PlanNamed(p)
    requires forall i, j :: 0 <= i < j < |ps| ==> ps[i].skillName != ps[j].skillName
    ensures ChangesFit(d, InstallChanges(d, a, ps))
  {
    hide Decide, PlanNamed, Sound, ChangeFits;
    var cs := InstallChanges(d, a, ps);
    InstallChangesSpec(d, a, ps);
    InstallChangesDistinct(d, a, ps);
    forall i | 0 <= i < |cs|
      ensures ChangeFits(d, cs[i])
      ensures cs[i].op.backup.Some? ==>
        cs[i].op.destination in a.backups && cs[i].op.backup.value == a.backups[cs[i].op.destination]
    {
      assert cs[i] in cs;
      var p :| p in ps && Decide(d, a, p) == Changing(cs[i]);
      DecideFits(d, a, p);
    }
  }

  /** Without hidden `.` components they are proper. */
  lemma InstallChangesOk(d: Disk, a: Alloc, ps: seq<Plan>)
    requires Sound(d) && AllocOk(a)
    requires forall p :: p in ps ==> PlanSafe(p)
    requires forall i, j :: 0 <= i < j < |ps| ==> ps[i].skillName != ps[j].skillName
    ensures ChangesOk(d, InstallChanges(d, a, ps)) && ChangesFit(d, InstallChanges(d, a, ps))
  {
    hide Decide, PlanNamed, Plain, Sound, ChangeOk, ChangesFit;
    var cs := InstallChanges(d, a, ps);
    InstallChangesSpec(d, a, ps);
    InstallChangesFit(d, a, ps);
    forall i | 0 <= i < |cs|
      ensures ChangeOk(d, cs[i])
    {
      assert cs[i] in cs;
      var p :| p in ps && Decide(d, a, p) == Changing(cs[i]);
      DecideIsProper(d, a, p);
    }
  }

  // ---------------------------------------------------------------- removing yields proper changes

  lemma OwnerRemoved(e: Entry, owner: string)
    requires EntryTidy(e) && owner in e.owners
    requires UniqueSorted(Without(e.owners, owner)) != []
    ensures EntryTidy(e.(owners := UniqueSorted(Without(e.owners, owner))))
    ensures e.(owners := UniqueSorted(Without(e.owners, owner))) != e
  {
    hide ValidSkillName, TreeFromKey, EntryKey, BundleDigest;
    WithoutSpec(e.owners, owner);
    UniqueSortedSpec(Without(e.owners, owner));
    assert owner !in UniqueSorted(Without(e.owners, owner));
    var b :| Describes(e, b);
    assert Describes(e.(owners := UniqueSorted(Without(e.owners, owner))), b);
  }

  lemma UnshareIsProper(d: Disk, e: Entry, owner: string)
    requires Sound(d) && e in ReadJournal(d).entries && owner in e.owners
    requires UniqueSorted(Without(e.owners, owner)) != []
    ensures
      ChangeOk(d, Change(Some(e.(owners := UniqueSorted(Without(e.owners, owner)))),
                         Operation(e.destination, None, None, Metadata, false, None)))
  {
    hide EntryShape, Check, StrictlySorted, Describes;
    var f := e.(owners := UniqueSorted(Without(e.owners, owner)));
    OwnerRemoved(e, owner);
    assert f !in ReadJournal(d).entries by {
      if f in ReadJournal(d).entries { SameDestination(ReadJournal(d), e, f); }
    }
  }

  lemma DropIsProper(d: Disk, e: Entry, backup: Path)
    requires Sound(d) && e in ReadJournal(d).entries
    requires IsBackup(backup) && backup !in d.dirs
    ensures ChangeOk(d, Change(None, Operation(e.destination, None, Some(backup), Remove, false, None)))
  {
    hide EntryShape, Check, StrictlySorted, Describes;
    assert EntryTidy(e) && VerifyEntry(d.dirs, e) == Verified;
    VerifiedIsPresent(d.dirs, e);
  }

  /** Every change a removal decides on is proper; it drops the skill exactly when no owner is left. */
  lemma DecideRemovalIsProper(d: Disk, a: Alloc, owner: string, e: Entry)
    requires Sound(d) && AllocOk(a)
    requires e in ReadJournal(d).entries && owner in e.owners
    requires DecideRemoval(d, a, owner, e).Changing?
    ensures
      var c := DecideRemoval(d, a, owner, e).change;
      && ChangeOk(d, c)
      && c.op.destination == e.destination
      && (c.op.backup.Some? ==> e.destination in a.backups && c.op.backup.value == a.backups[e.destination])
      && (c.entry.None? <==> forall o :: o in e.owners ==> o == owner)
  {
    hide Sound, ChangeOk, VerifyEntry;
    var left := UniqueSorted(Without(e.owners, owner));
    WithoutSpec(e.owners, owner);
    UniqueSortedSpec(Without(e.owners, owner));
    if left != [] {
      assert left[0] in left;
      UnshareIsProper(d, e, owner);
    } else {
      DropIsProper(d, e, a.backups[e.destination]);
    }
  }

  lemma {:induction false} RemovalChangesSpec(d: Disk, a: Alloc, owner: string, es: seq<Entry>)
    ensures forall c :: c in RemovalChanges(d, a, owner, es) <==>
      exists e :: e in es && DecideRemoval(d, a, owner, e) == Changing(c)
  {
    if es != [] {
      RemovalChangesSpec(d, a, owner, es[1..]);
      assert es == [es[0]] + es[1..];
    }
  }

  ghost predicate Selection(j: Journal, owner: string, es: seq<Entry>) {
    && (forall e :: e in es ==> e in j.entries && owner in e.owners)
    && (forall i, k :: 0 <= i < k < |es| ==> es[i].destination != es[k].destination)
  }

  lemma {:induction false} RemovalChangesDistinct(d: Disk, a: Alloc, owner: string, es: seq<Entry>)
    requires Sound(d) && AllocOk(a) && Selection(ReadJournal(d), owner, es)
    ensures DistinctTargets(RemovalChanges(d, a, owner, es))
  {
    hide DecideRemoval, Sound, ChangeOk;
    if es != [] {
      var rest := es[1..];
      RemovalChangesDistinct(d, a, owner, rest);
      RemovalChangesSpec(d, a, owner, rest);
      var tail := RemovalChanges(d, a, owner, rest);
      if DecideRemoval(d, a, owner, es[0]).Changing? {
        assert es[0] in es;
        DecideRemovalIsProper(d, a, owner, es[0]);
        forall j | 0 <= j < |tail|
          ensures tail[j].op.destination != DecideRemoval(d, a, owner, es[0]).change.op.destination
        {
          assert tail[j] in tail;
          var q :| q in rest && DecideRemoval(d, a, owner, q) == Changing(tail[j]);
          var k :| 0 <= k < |rest| && rest[k] == q;
          assert es[k + 1] == q && q in es;
          DecideRemovalIsProper(d, a, owner, q);
        }
        ConsApart(DecideRemoval(d, a, owner, es[0]).change, tail);
        assert RemovalChanges(d, a, owner, es) == [DecideRemoval(d, a, owner, es[0]).change] + tail;
      } else {
        assert RemovalChanges(d, a, owner, es) == tail;
      }
    }
  }

  lemma RemovalChangesOk(d: Disk, a: Alloc, owner: string, es: seq<Entry>)
    requires Sound(d) && AllocOk(a) && Selection(ReadJournal(d), owner, es)
    ensures ChangesOk(d, RemovalChanges(d, a, owner, es)) && ChangesFit(d, RemovalChanges(d, a, owner, es))
  {
    hide DecideRemoval, Sound, ChangeOk, ChangeFits;
    var cs := RemovalChanges(d, a, owner, es);
    RemovalChangesSpec(d, a, owner, es);
    RemovalChangesDistinct(d, a, owner, es);
    forall i | 0 <= i < |cs|
      ensures ChangeOk(d, cs[i]) && ChangeFits(d, cs[i])
      ensures cs[i].op.backup.Some? ==>
        cs[i].op.destination in a.backups && cs[i].op.backup.value == a.backups[cs[i].op.destination]
    {
      assert cs[i] in cs;
      var e :| e in es && DecideRemoval(d, a, owner, e) == Changing(cs[i]);
      DecideRemovalIsProper(d, a, owner, e);
      OkFits(d, cs[i]);
    }
  }

  // ---------------------------------------------------------------- selections

  lemma {:induction false} EntriesOfSpec(entries: seq<Entry>, owner: string)
    ensures forall e :: e in EntriesOf(entries, owner) <==> e in entries && owner in e.owners
  {
    if entries != [] {
      EntriesOfSpec(entries[1..], owner);
      assert entries == [entries[0]] + entries[1..];
    }
  }

  ghost predicate DistinctDestinations(es: seq<Entry>) {
    forall i, k :: 0 <= i < k < |es| ==> es[i].destination != es[k].destination
  }

  lemma {:induction false} EntriesOfDistinct(entries: seq<Entry>, owner: string)
    requires DistinctDestinations(entries)
    ensures DistinctDestinations(EntriesOf(entries, owner))
  {
    if entries != [] {
      EntriesOfDistinct(entries[1..], owner);
      EntriesOfSpec(entries[1..], owner);
      var rest := EntriesOf(entries[1..], owner);
      forall k | 0 <= k < |rest|
        ensures rest[k].destination != entries[0].destination
      {
        assert rest[k] in rest && rest[k] in entries[1..];
        var m :| 0 <= m < |entries[1..]| && entries[1..][m] == rest[k];
        assert entries[m + 1] == rest[k];
      }
    }
  }

  lemma {:induction false} FindSkillSpec(entries: seq<Entry>, name: string)
    ensures FindSkill(entries, name).Some? <==> exists e :: e in entries && e.skillName == name
    ensures FindSkill(entries, name).Some? ==>
      FindSkill(entries, name).value in entries && FindSkill(entries, name).value.skillName == name
  {
    if entries != [] {
      FindSkillSpec(entries[1..], name);
      assert entries == [entries[0]] + entries[1..];
    }
  }

  /** A named selection holds exactly the named skills, each carrying the owner. */
  lemma {:induction false} EntriesNamedSpec(entries: seq<Entry>, owner: string, names: seq<string>)
    requires EntriesNamed(entries, owner, names).Some?
    ensures
      var es := EntriesNamed(entries, owner, names).value;
      && |es| == |names|
      && (forall i :: 0 <= i < |es| ==> es[i] in entries && owner in es[i].owners && es[i].skillName == names[i])
      && (forall i, k :: 0 <= i < k < |names| ==> names[i] != names[k])
  {
    hide ValidSkillName;
    if names != [] {
      FindSkillSpec(entries, names[0]);
      EntriesNamedSpec(entries, owner, names[1..]);
    }
  }

  lemma SelectedSpec(j: Journal, owner: string, names: seq<string>)
    requires JournalTidy(j) && Selected(j, owner, names).Some?
    ensures Selection(j, owner, Selected(j, owner, names).value)
  {
    hide ValidSkillName;
    var es := Selected(j, owner, names).value;
    if names == [] {
      EntriesOfSpec(j.entries, owner);
      TidyJournalShape(j);
      EntriesOfDistinct(j.entries, owner);
    } else {
      EntriesNamedSpec(j.entries, owner, names);
      forall i, k | 0 <= i < k < |es|
        ensures es[i].destination != es[k].destination
      {
        assert EntryTidy(es[i]) && EntryTidy(es[k]);
        assert es[i].skillName == names[i] && es[k].skillName == names[k];
      }
    }
  }
}
