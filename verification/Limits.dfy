/**
 Where the guarantees end. Each result gives the exact condition under which a routine does what
 the rest of the model relies on, and an input on the other side of it.
 */
module Limits {
  import opened Options
  import opened Lockfile
  import opened Order
  import opened Digest
  import opened Paths
  import opened SkillTree
  import opened BundleFormat
  import opened Transaction
  import opened CrashSafety
  import opened RecoverySafety
  import opened Changes
  import opened Planning
  import opened Runs
  import opened Progress
  import opened StateFiles
  import Acceptance
  import Documents
  import Frontmatter
  import Scalars

  // ---------------------------------------------------------------- names that look like a stage

  /** Opening an installation removes exactly the top-level directories named like a stage. */
  lemma {:induction false} OpeningKeepsIff(d: Disk, listing: seq<Path>, env: Env, p: Path)
    requires d.marker.None? && Lists(listing, d.dirs)
    requires Recover(d, listing, env).status == Done
    requires TopLevel(p) && p in d.dirs
    ensures p in Recover(d, listing, env).disk.dirs <==> !IsStage(p)
    decreases listing
  {
    if listing != [] {
      assert listing == [listing[0]] + listing[1..];
      if IsStage(listing[0]) && listing[0] in d.dirs {
        var o := RemoveTree(d, listing[0], env);
        if p != listing[0] {
          OpeningKeepsIff(o.disk, listing[1..], o.env, p);
        } else {
          OrphanStaysGone(o.disk, listing[1..], o.env, p);
        }
      } else {
        OpeningKeepsIff(d, listing[1..], env, p);
      }
    }
  }

  lemma {:induction false} OrphanStaysGone(d: Disk, listing: seq<Path>, env: Env, p: Path)
    requires p !in d.dirs
    ensures p !in DropOrphans(d, listing, env).disk.dirs
    decreases listing
  {
    if listing != [] {
      if IsStage(listing[0]) && listing[0] in d.dirs {
        var o := RemoveTree(d, listing[0], env);
        if o.status == Done { OrphanStaysGone(o.disk, listing[1..], o.env, p); }
      } else {
        OrphanStaysGone(d, listing[1..], env, p);
      }
    }
  }

  /**
   A skill whose name looks like a stage is installed like any other, and deleted by the next opening
   although its entry stays in the journal.
   */
  lemma StageLikeSkillIsLost(h: Home, p: Plan, stage: Path, power: nat, listing: seq<Path>, env: Env)
    requires FirstOk(p, stage, power) && IsStage(Destination(p.skillName))
    requires Lists(listing, OneSkill(h, p, None).dirs) && env.power >= |listing|
    ensures Perform(Fresh(h), FirstEvent(p, stage, power, None)).status == Done
    ensures Perform(Fresh(h), FirstEvent(p, stage, power, None)).disk == OneSkill(h, p, None)
    ensures
      var o := Recover(OneSkill(h, p, None), listing, env);
      && o.status == Done
      && Destination(p.skillName) !in o.disk.dirs
      && Journaled(ReadJournal(o.disk), Destination(p.skillName))
  {
    hide Perform, PlanValid, Extract, JournalOf, Lists, BuildEntry, StateName;
    var d := OneSkill(h, p, None);
    KindsAreApart(Destination(p.skillName));
    ReservedIsState(h, Destination(p.skillName));
    FirstInstall(h, p, stage, power, None);
    DropOrphansCost(d, listing, env);
    OpeningKeepsIff(d, listing, env, Destination(p.skillName));
    OrphansKeepDocuments(d, listing, env);
    OneEntry(p);
  }

  lemma ReservedIsState(h: Home, p: Path)
    requires TopLevel(p)
    ensures Reserved(h, p) ==> IsState(p)
  {
  }

  lemma {:induction false} OrphansKeepDocuments(d: Disk, listing: seq<Path>, env: Env)
    ensures
      var o := DropOrphans(d, listing, env).disk;
      o.journal == d.journal && o.lock == d.lock && o.marker == d.marker
    decreases listing
  {
    if listing != [] {
      if IsStage(listing[0]) && listing[0] in d.dirs {
        var o := RemoveTree(d, listing[0], env);
        if o.status == Done { OrphansKeepDocuments(o.disk, listing[1..], o.env); }
      } else {
        OrphansKeepDocuments(d, listing[1..], env);
      }
    }
  }

  /** Such a name is accepted. */
  lemma StageLikeNameIsAccepted()
    ensures ValidSkillName(".pskills-stage-x") && IsStage(Destination(".pskills-stage-x"))
  {
    NotAgentReserved();
    DottedNameIsValid(".pskills-stage-x");
  }

  /** So are the names of the documents, in every scope. */
  lemma StateNamesAreAccepted(name: string)
    requires StateName(name)
    ensures ValidSkillName(name)
  {
    hide ValidSkillName, AgentReserved;
    if name == CUSTOM_LOCK_NAME {
      CustomLockNameIsValid();
    } else {
      StateNameLetters(name);
      StateNameIsFree(name);
      DottedNameIsValid(name);
    }
  }

  lemma StateNameLetters(name: string)
    requires StateName(name) && name != CUSTOM_LOCK_NAME
    ensures 2 <= |name| <= 255 && name[0] == '.' && name[|name| - 1] != '.' && name != ".."
    ensures forall c :: c in name ==> 'a' <= c <= 'z' || c == '-' || c == '.'
  {
    assert |JOURNAL_NAME| == 21 && |MARKER_NAME| == 25 && |MUTEX_NAME| == 21 && |GLOBAL_LOCK_NAME| == 18;
  }

  lemma StateNameIsFree(name: string)
    requires StateName(name) && name != CUSTOM_LOCK_NAME
    ensures !AgentReserved(name)
  {
    assert |AsciiLower(name)| == |name|;
    assert |JOURNAL_NAME| == 21 && |MARKER_NAME| == 25 && |MUTEX_NAME| == 21 && |GLOBAL_LOCK_NAME| == 18;
  }

  lemma CustomLockNameIsValid()
    ensures ValidSkillName(CUSTOM_LOCK_NAME)
  {
    hide ValidPath, FreeStem, Split;
    CustomLockLetters();
    SplitPrefix("pskills", "lock.json", '.');
    Acceptance.LongStemIsFree(CUSTOM_LOCK_NAME);
    Acceptance.LetterNameIsPath(CUSTOM_LOCK_NAME);
  }

  lemma CustomLockLetters()
    ensures CUSTOM_LOCK_NAME == "pskills" + ['.'] + "lock.json" && |"pskills"| == 7 && '.' !in "pskills"
    ensures 0 < |CUSTOM_LOCK_NAME| <= 60 && CUSTOM_LOCK_NAME[0] != '.' && CUSTOM_LOCK_NAME[|CUSTOM_LOCK_NAME| - 1] != '.'
    ensures CUSTOM_LOCK_NAME != "." && CUSTOM_LOCK_NAME != ".." && '/' !in CUSTOM_LOCK_NAME && '\\' !in CUSTOM_LOCK_NAME
    ensures forall c :: c in CUSTOM_LOCK_NAME ==> Acceptance.NameLetter(c)
  {
  }

  /** Lower-case names that start with a dot are accepted. */
  lemma DottedNameIsValid(name: string)
    requires 2 <= |name| <= 255 && name[0] == '.' && name[|name| - 1] != '.'
    requires forall c :: c in name ==> 'a' <= c <= 'z' || c == '-' || c == '.'
    requires name != ".." && !AgentReserved(name)
    ensures ValidSkillName(name)
  {
    hide ValidComponent, AgentReserved, Utf8;
    SplitFree(name, '/');
    WithoutDotsSpec([name]);
    assert WithoutDots([name]) == [name];
    assert name[|name| - 1] in name && Split(name, '/') == [name];
    Utf16Bound(name);
    DottedComponentIsValid(name);
  }

  lemma DottedComponentIsValid(name: string)
    requires 2 <= |name| <= 255 && name[0] == '.' && name[|name| - 1] != '.'
    requires forall c :: c in name ==> 'a' <= c <= 'z' || c == '-' || c == '.'
    ensures ValidComponent(name)
  {
    hide Utf8, FreeStem;
    AsciiLength(name);
    assert name[|name| - 1] in name && name[1] in name;
    EmptyStem(name);
  }

  lemma EmptyStem(name: string)
    requires name != "" && name[0] == '.'
    ensures FreeStem(name)
  {
    assert Split(name, '.')[0] == "";
    assert |AsciiLower("")| == 0;
  }

  lemma {:induction false} AsciiLength(s: string)
    requires forall c :: c in s ==> c as int < 0x80
    ensures |Utf8(s)| == |s|
  {
    if s != "" {
      assert s[0] in s && forall c :: c in s[1..] ==> c in s;
      AsciiLength(s[1..]);
    }
  }

  lemma NotAgentReserved()
    ensures !AgentReserved(".pskills-stage-x")
  {
    assert |AsciiLower(".pskills-stage-x")| == 16;
  }

  // ---------------------------------------------------------------- half-removed directories

  /**
   Undoing an activated replacement succeeds exactly when the directory at the destination still
   verifies against its new entry. A removal that is cut off half-way leaves one that does not,
   and then rollback stops or leaves it in place.
   */
  lemma UndoSucceedsIff(base: Dirs, o: Operation, j: Journal, d: Disk, env: Env)
    requires OperationOk(base, o) && o.kind == Replace && env.power >= 2
    requires o.destination in d.dirs
    requires o.backup.Some? ==>
      o.backup.value in d.dirs && o.backup.value != o.destination && d.dirs[o.backup.value] == base[o.destination]
    requires forall q :: q in d.dirs && q != o.destination ==> q in WithoutTree(d.dirs, o.destination)
    ensures
      var r := RollbackOne(d, o, j, env);
      r.status == Done && Restored(base, o, r.disk.dirs) <==> DestinationMatches(d.dirs, o.destination, j) == Matches
  {
  }

  /** The operation that put `p` in place of an older skill, or of none. */
  function Replacement(p: Plan, backup: Option<Path>): Operation {
    Operation(Destination(p.skillName), None, backup, Replace, backup.Some?, None)
  }

  /** A directory that does not hold exactly the bundle's files does not match its entry. */
  lemma DamagedDiffers(p: Plan, dirs: Dirs)
    requires PlanValid(p) && Destination(p.skillName) in dirs && !Holds(dirs[Destination(p.skillName)], p.bundle)
    ensures DestinationMatches(dirs, Destination(p.skillName), Journal(1, [BuildEntry(p)])) == Differs
  {
    hide ValidSkillName, ValidPath, FileOk, Manifest, BundleContents, DirectoryContents, TreeDigest, BundleDigest;
    var t := dirs[Destination(p.skillName)];
    SkillNameHasNoBar(p.skillName);
    BundleDigestHasNoBar(p.bundle);
    CheckPassesIff(p.skillName, p.artifactDigest, p.bundle, t);
    HoldsIffSameContents(t, p.bundle);
    TreeFromEntryKey(p.skillName, p.artifactDigest, TreeDigest(p.bundle));
    assert TreeDigest(p.bundle) != "" by { DigestIsText(p.bundle); }
    BuiltEntryPlace(p);
    assert [BuildEntry(p)][0].destination == Destination(p.skillName);
  }

  lemma DigestIsText(b: Bundle)
    ensures TreeDigest(b) != ""
  {
  }

  /**
   A new directory that lost any of its files, as a removal cut off half-way leaves it, stops the
   rollback: the old directory stays in its backup.
   */
  lemma HalfRemovedStopsRollback(p: Plan, backup: Path, d: Disk, env: Env)
    requires PlanValid(p) && Destination(p.skillName) in d.dirs && !Holds(d.dirs[Destination(p.skillName)], p.bundle)
    requires backup in d.dirs
    ensures RollbackOne(d, Replacement(p, Some(backup)), Journal(1, [BuildEntry(p)]), env) == Out(d, env, Refused)
  {
    hide PlanValid, Holds;
    DamagedDiffers(p, d.dirs);
  }

  /** Where nothing was replaced, rollback reports success and leaves what is left of the new directory in place. */
  lemma HalfRemovedIsLeftBehind(p: Plan, d: Disk, env: Env)
    requires PlanValid(p) && Destination(p.skillName) in d.dirs && !Holds(d.dirs[Destination(p.skillName)], p.bundle)
    requires !IsFile(d, Destination(p.skillName))
    ensures RollbackOne(d, Replacement(p, None), Journal(1, [BuildEntry(p)]), env) == Out(d, env, Done)
    ensures !Restored(map[], Replacement(p, None), d.dirs)
  {
    hide PlanValid, Holds;
    DamagedDiffers(p, d.dirs);
  }

  // ---------------------------------------------------------------- bundles beside a skill file

  /** A small accepted bundle: a skill file and the given files. */
  function Sample(extra: Bundle): Bundle {
    [Acceptance.PlainSkill("demo", "d")] + extra
  }

  ghost predicate OrdinaryFields(lex: Acceptance.Lexicon) {
    !lex.dangerous("name") && !lex.dangerous("description")
  }

  lemma SampleIsAccepted(lex: Acceptance.Lexicon, extra: Bundle)
    requires OrdinaryFields(lex) && Acceptance.SmallExtras(extra)
    ensures Acceptance.FullyAccepted(lex, Sample(extra)) && Accepted(Sample(extra))
  {
    hide Acceptance.SmallExtras, Acceptance.SkillReads, Accepted;
    SampleTexts();
    Acceptance.SmallBundleIsAccepted(lex, "demo", "d", extra);
  }

  lemma SampleTexts()
    ensures Frontmatter.ValidName("demo") && Frontmatter.ValidDescription("d") && Documents.Printable("d")
  {
    assert Frontmatter.ValidName("demo");
  }

  lemma SkillFileOnDisk()
    ensures OnDisk(Acceptance.SKILL_FILE) == Acceptance.SKILL_FILE
  {
    SplitFree(Acceptance.SKILL_FILE, '/');
    assert [Acceptance.SKILL_FILE][1..] == [] && WithoutDots([Acceptance.SKILL_FILE][1..]) == [];
    assert WithoutDots([Acceptance.SKILL_FILE]) == [Acceptance.SKILL_FILE];
  }

  /** A lexicon that refuses no field name. */
  const PERMISSIVE := Scalars.Lexicon(_ => None, _ => Scalars.Plain, _ => false)

  /**
   A rollback that meets an emptied directory: the sample skill was being taken away again when the
   power failed after its one file, and the skill it had replaced still waits in the backup.
   */
  lemma EmptiedSampleStopsRollback(p: Plan, backup: Path, was: Tree, r: Record, env: Env)
    requires p.bundle == Sample([]) && ValidSkillName(p.skillName) && ValidOwner(p.owner)
    requires p.artifactDigest == BundleDigest(p.bundle)
    requires IsBackup(backup) && backup != Destination(p.skillName)
    requires r.operations == [Replacement(p, Some(backup))] && r.newJournal == Journal(1, [BuildEntry(p)])
    ensures
      var d := Disk(map[Destination(p.skillName) := map[], backup := was], Some(r.oldJournal), None, Some(r), Project);
      && Rollback(d, r, 1, env) == Out(d, env, Refused)
      && !Restored(map[Destination(p.skillName) := was], r.operations[0], d.dirs)
  {
    hide Accepted, ValidSkillName, Sample, BuildEntry;
    var d := Disk(map[Destination(p.skillName) := map[], backup := was], Some(r.oldJournal), None, Some(r), Project);
    SampleIsAccepted(PERMISSIVE, []);
    SampleIsNotEmpty(p.bundle, []);
    HalfRemovedStopsRollback(p, backup, d, env);
  }

  lemma SampleIsNotEmpty(b: Bundle, extra: Bundle)
    requires b == Sample(extra)
    ensures !Holds(map[], b)
  {
    var none: Tree := map[];
    assert b[0].path !in none.Keys;
  }

  // ---------------------------------------------------------------- a skill in the place of the lockfile

  lemma SampleExtracts()
    ensures Extract(map[], Sample([])).Extracted? && |Sample([])| == 1
  {
    hide OnDisk, Extract;
    ExtractSucceedsIff(map[], Sample([]));
  }

  /**
   An accepted skill named like the global lockfile: the first call that installs it and writes the
   lockfile fails half-way, and from then on every call is refused.
   */
  lemma LockNamedSkillSticks(lex: Acceptance.Lexicon, p: Plan, stage: Path, power: nat, lock: LockFile, later: Event)
    requires OrdinaryFields(lex) && p.bundle == Sample([]) && p.skillName == GLOBAL_LOCK_NAME
    requires ValidOwner(p.owner) && p.artifactDigest == BundleDigest(p.bundle) && IsStage(stage) && power >= 21
    ensures Acceptance.FullyAccepted(lex, p.bundle) && PlanValid(p)
    ensures
      var o := Perform(Fresh(Global), FirstEvent(p, stage, power, Some(lock)));
      && o.status == Refused && o.disk != Fresh(Global)
      && Perform(o.disk, later).status == Refused && Perform(o.disk, later).disk == o.disk
  {
    hide Perform, Acceptance.FullyAccepted, Accepted, ValidSkillName, Extract, Sample, Stuck;
    StateNamesAreAccepted(GLOBAL_LOCK_NAME);
    SampleIsAccepted(lex, []);
    SampleExtracts();
    KindsAreApart(stage);
    KindsAreApart(LockPath(Global));
    LockNameSticks(Global, p, stage, power, Some(lock));
    var o := Perform(Fresh(Global), FirstEvent(p, stage, power, Some(lock)));
    StuckStays(o.disk, later);
    FreshIsNotStuck(Global);
  }

  lemma FreshIsNotStuck(h: Home)
    ensures !Stuck(Fresh(h))
  {
    hide Recover;
    var env := Env(0, 0);
    FreshRecovers(h, env);
    assert Recover(Fresh(h), [], env).status == Done;
  }

  // ---------------------------------------------------------------- a dot inside a path

  const HIDDEN_DOT := [BundleFile("a/./b", [], None)]

  lemma HiddenDotIsSmall()
    ensures Acceptance.SmallExtras(HIDDEN_DOT)
  {
    hide ValidPath;
    HiddenDotIsValid();
    assert |AsciiLower("a/./b")| == 5 && |"skill.md"| == 8;
  }

  lemma HiddenDotExtracts()
    ensures Extract(map[], Sample(HIDDEN_DOT)).Extracted? && !Plain(Sample(HIDDEN_DOT))
  {
    hide OnDisk, Extract;
    var b := Sample(HIDDEN_DOT);
    HiddenDotParts();
    SkillFileOnDisk();
    ExtractSucceedsIff(map[], b);
    assert |b| == 2 && b[0].path == Acceptance.SKILL_FILE && b[1] == HIDDEN_DOT[0] && b[1] in b;
    assert Compatible("SKILL.md", "a/b") by { assert "SKILL.md"[0] == 'S' && "a/b"[0] == 'a'; }
  }

  /**
   An accepted bundle whose installed copy never verifies: the call that installs it into an empty
   root reports success and leaves a root that is not settled.
   */
  lemma HiddenDotIsAccepted(lex: Acceptance.Lexicon, h: Home, p: Plan, stage: Path, power: nat)
    requires OrdinaryFields(lex)
    requires p.bundle == Sample(HIDDEN_DOT) && ValidSkillName(p.skillName) && ValidOwner(p.owner)
    requires p.artifactDigest == BundleDigest(p.bundle)
    requires PublicName(p.skillName) && IsStage(stage) && power >= 22
    ensures Acceptance.FullyAccepted(lex, p.bundle) && PlanValid(p)
    ensures Extract(map[], p.bundle).Extracted?
    ensures Check(BuildEntry(p).key, BuildEntry(p).files, true, Extract(map[], p.bundle).tree) != Verified
    ensures Perform(Fresh(h), FirstEvent(p, stage, power, None)).status == Done
    ensures !JournalVerifies(OneSkill(h, p, None).dirs, ReadJournal(OneSkill(h, p, None)))
    ensures Perform(Fresh(h), FirstEvent(p, stage, power, None)).disk == OneSkill(h, p, None)
  {
    hide Perform, Acceptance.FullyAccepted, Accepted, ValidSkillName, Check, Extract, Plain, BuildEntry, Sample, JournalVerifies,
      StateName, JournalOf;
    HiddenDotIsSmall();
    SampleIsAccepted(lex, HIDDEN_DOT);
    HiddenDotExtracts();
    assert |p.bundle| == 2 by { SampleSize(HIDDEN_DOT); }
    BuiltEntryVerifiesIff(p);
    KindsAreApart(Destination(p.skillName));
    KindsAreApart(stage);
    ReservedIsState(h, Destination(p.skillName));
    FirstInstall(h, p, stage, power, None);
    OneSkillVerifiesIff(h, p, None);
  }

  lemma SampleSize(extra: Bundle)
    ensures |Sample(extra)| == 1 + |extra|
  {
  }

  /** Nothing in flight, no directory that the next opening deletes, every document readable, every skill as journaled. */
  ghost predicate Healthy(d: Disk) {
    && d.marker.None?
    && (forall q :: q in d.dirs ==> !IsStage(q) && !Reserved(d.home, q))
    && JournalVerifies(d.dirs, ReadJournal(d))
  }

  /** What a skill name must not be: like a stage, or that of a document of this installation. */
  predicate SoundName(h: Home, name: string) {
    !IsStage(Destination(name)) && !Reserved(h, Destination(name))
  }

  /**
   The first installation of any valid, extractable plan, with or without a lockfile to write, reports
   success and leaves a healthy root exactly when the name is neither like a stage nor that of a document
   of the installation, and no `.` hides in a path.
   */
  lemma FirstInstallSettlesIff(h: Home, p: Plan, stage: Path, power: nat, lock: Option<LockFile>)
    requires FirstOk(p, stage, power)
    ensures
      var o := Perform(Fresh(h), FirstEvent(p, stage, power, lock));
      o.status == Done && Healthy(o.disk) <==> SoundName(h, p.skillName) && Plain(p.bundle)
  {
    hide Perform, PlanValid, Extract, Plain, JournalVerifies, Stuck, JournalOf, BuildEntry, StateName;
    var dest := Destination(p.skillName);
    LockIsNotMutex(h);
    if dest == MUTEX_PATH {
      MutexNameIsRefused(h, p, stage, power, lock);
    } else if dest == MARKER_PATH {
      MarkerNameSticks(h, p, stage, power, lock);
    } else if dest == JOURNAL_PATH {
      JournalNameSticks(h, p, stage, power, lock);
    } else if dest == LockPath(h) && lock.Some? {
      LockNameSticks(h, p, stage, power, lock);
    } else {
      FirstInstall(h, p, stage, power, lock);
      OneSkillVerifiesIff(h, p, lock);
      assert OneSkill(h, p, lock).dirs.Keys == {dest};
    }
  }

  lemma OneSkillVerifiesIff(h: Home, p: Plan, lock: Option<LockFile>)
    requires PlanValid(p) && Extract(map[], p.bundle).Extracted?
    ensures JournalVerifies(OneSkill(h, p, lock).dirs, ReadJournal(OneSkill(h, p, lock))) <==> Plain(p.bundle)
  {
    hide PlanValid, Extract, Plain, Check, BuildEntry, StateName;
    var d := OneSkill(h, p, lock);
    OneEntry(p);
    BuiltEntryVerifiesIff(p);
    BuiltEntryPlace(p);
    var e := TidyEntry(BuildEntry(p));
    assert ReadJournal(d).entries == [e];
    assert e in [e] && e.destination in d.dirs;
    SortByIdempotent(BuildEntry(p).files, FileKey);
    CheckSortsFiles(p, e);
    assert VerifyEntry(d.dirs, e) == Verified <==> Plain(p.bundle);
  }

  lemma CheckSortsFiles(p: Plan, e: Entry)
    requires e.key == BuildEntry(p).key && SortBy(e.files, FileKey) == SortBy(BuildEntry(p).files, FileKey)
    ensures forall t: Tree :: Check(e.key, e.files, true, t) == Check(BuildEntry(p).key, BuildEntry(p).files, true, t)
  {
    hide BuildEntry;
  }

  // ---------------------------------------------------------------- files and directories of one name

  /** Two accepted paths of which one is a directory of the other never extract together. */
  lemma FileUnderFileIsRefused(b: Bundle, i: nat, j: nat)
    requires i < |b| && j < |b|
    requires OnDisk(b[i].path) + "/" <= OnDisk(b[j].path)
    ensures Extract(map[], b).Conflict?
  {
    var p, q := OnDisk(b[i].path), OnDisk(b[j].path);
    ExtractSucceedsIff(map[], b);
    assert |p| < |q|;
    assert i != j;
    if i < j { assert !Compatible(p, q); } else { assert !Compatible(q, p); }
  }

  const FILE_AND_DIRECTORY := [BundleFile("a", [], None), BundleFile("a/b", [], None)]

  lemma SlashPathIsValid()
    ensures ValidPath("a") && ValidPath("a/b") && OnDisk("a") == "a" && OnDisk("a/b") == "a/b"
  {
    hide ValidComponent, AgentReserved;
    SplitFree("a", '/');
    SplitFree("b", '/');
    SplitPrefix("a", "b", '/');
    assert "a/b" == "a" + ['/'] + "b";
    SingleLetterIsValid('a');
    SingleLetterIsValid('b');
    ShortIsNotReserved("a");
    ShortIsNotReserved("b");
    Utf16Bound("a");
    Utf16Bound("a/b");
    var one, two := ["a"], ["a", "b"];
    assert one[1..] == [] && two[1..] == ["b"] && two[1..][1..] == [];
    assert WithoutDots(two[1..]) == ["b"];
    assert WithoutDots(one) == one && WithoutDots(two) == two;
    assert Join(two[1..], '/') == "b";
    assert Join(one, '/') == "a" && Join(two, '/') == "a/b";
  }

  /** An accepted bundle that cannot be extracted. */
  lemma FileAndDirectoryIsAccepted(lex: Acceptance.Lexicon)
    requires OrdinaryFields(lex)
    ensures Acceptance.FullyAccepted(lex, Sample(FILE_AND_DIRECTORY))
    ensures Extract(map[], Sample(FILE_AND_DIRECTORY)).Conflict?
  {
    hide Acceptance.FullyAccepted, Accepted, Extract, ValidPath;
    SlashPathIsValid();
    FileAndDirectoryIsSmall();
    SampleIsAccepted(lex, FILE_AND_DIRECTORY);
    var b := Sample(FILE_AND_DIRECTORY);
    assert b[1].path == "a" && b[2].path == "a/b";
    assert "a" + "/" <= "a/b";
    FileUnderFileIsRefused(b, 1, 2);
  }

  lemma FileAndDirectoryIsSmall()
    requires ValidPath("a") && ValidPath("a/b")
    ensures Acceptance.SmallExtras(FILE_AND_DIRECTORY)
  {
    hide ValidPath;
    assert |AsciiLower("a")| == 1 && |AsciiLower("a/b")| == 3 && |"skill.md"| == 8;
  }
}
