/**
 Where the installer may change directories at all: whatever the marker, the journal and the directories
 are, even forged ones, a call changes only its private places and the places of skills by valid names.
 */
module Containment {
  import opened Options
  import opened Lockfile
  import opened Order
  import opened Paths
  import opened PathRules
  import opened SkillTree
  import opened Transaction
  import opened CrashSafety
  import opened Changes
  import opened Planning
  import opened Runs

  // ---------------------------------------------------------------- the region

  /** A stage or a backup of the root. */
  predicate PrivateRoot(p: Path) {
    p.Child? && p.parent == Root && (".pskills-stage-" <= p.name || ".pskills-backup-" <= p.name)
  }

  /** A place of one of the skills. */
  ghost predicate SkillRoot(names: set<string>, p: Path) {
    p.Child? && p.parent == Root && p.name in names
  }

  ghost predicate InRegion(names: set<string>, p: Path) {
    || PrivateRoot(p) || SkillRoot(names, p)
    || (p.Child? && (PrivateRoot(p.parent) || SkillRoot(names, p.parent)))
  }

  /** Directories outside the region are as they were. */
  ghost predicate OnlyIn(names: set<string>, before: Dirs, after: Dirs) {
    forall q :: !InRegion(names, q) ==> Same(after, before, q)
  }

  lemma OnlyInThen(names: set<string>, a: Dirs, b: Dirs, c: Dirs)
    requires OnlyIn(names, a, b) && OnlyIn(names, b, c)
    ensures OnlyIn(names, a, c)
  {
    hide InRegion;
    forall q | !InRegion(names, q)
      ensures Same(c, a, q)
    {
      assert Same(b, a, q) && Same(c, b, q);
    }
  }

  lemma RemovalInRegion(names: set<string>, dirs: Dirs, p: Path)
    requires PrivateRoot(p) || SkillRoot(names, p)
    ensures OnlyIn(names, dirs, WithoutTree(dirs, p))
  {
    hide PrivateRoot, SkillRoot;
  }

  lemma MoveInRegion(names: set<string>, dirs: Dirs, from: Path, to: Path)
    requires from in dirs && InRegion(names, from) && InRegion(names, to)
    ensures OnlyIn(names, dirs, MoveTree(dirs, from, to))
  {
    hide InRegion;
  }

  /** An operation within the region of a stage. */
  ghost predicate OpIn(names: set<string>, stageRoot: Path, o: Operation) {
    && SkillRoot(names, o.destination)
    && (o.backup.Some? ==> PrivateRoot(o.backup.value))
    && (o.stage.Some? ==> o.stage.value.Child? && o.stage.value.parent == stageRoot)
  }

  ghost predicate OpsIn(names: set<string>, stageRoot: Path, ops: seq<Operation>) {
    PrivateRoot(stageRoot) && forall i :: 0 <= i < |ops| ==> OpIn(names, stageRoot, ops[i])
  }

  // ---------------------------------------------------------------- rollback and cleanup

  lemma UndoInRegion(names: set<string>, stageRoot: Path, d: Disk, o: Operation, j: Journal, env: Env)
    requires OpIn(names, stageRoot, o)
    ensures OnlyIn(names, d.dirs, RollbackOne(d, o, j, env).disk.dirs)
  {
    hide PrivateRoot, SkillRoot, DestinationMatches, IsFile, OnlyIn;
    NothingChanges(names, d.dirs);
    RemovalInRegion(names, d.dirs, o.destination);
    if o.backup.Some? && o.backup.value in d.dirs {
      MoveInRegion(names, d.dirs, o.backup.value, o.destination);
      var gone := WithoutTree(d.dirs, o.destination);
      if o.backup.value in gone {
        MoveInRegion(names, gone, o.backup.value, o.destination);
        OnlyInThen(names, d.dirs, gone, MoveTree(gone, o.backup.value, o.destination));
      }
    }
  }

  lemma NothingChanges(names: set<string>, dirs: Dirs)
    ensures OnlyIn(names, dirs, dirs)
  {
  }

  lemma DropStageInRegion(names: set<string>, d: Disk, r: Record, env: Env)
    requires PrivateRoot(r.stageRoot)
    ensures OnlyIn(names, d.dirs, DropStage(d, r, env).disk.dirs)
  {
    hide PrivateRoot, OnlyIn;
    NothingChanges(names, d.dirs);
    RemovalInRegion(names, d.dirs, r.stageRoot);
  }

  lemma {:induction false} RollbackInRegion(names: set<string>, d: Disk, r: Record, n: nat, env: Env)
    requires n <= |r.operations| && OpsIn(names, r.stageRoot, r.operations)
    ensures OnlyIn(names, d.dirs, Rollback(d, r, n, env).disk.dirs)
    decreases n
  {
    hide OnlyIn, OpIn, PrivateRoot, RollbackOne;
    if n == 0 {
      DropStageInRegion(names, d, r, env);
    } else {
      UndoInRegion(names, r.stageRoot, d, r.operations[n - 1], r.newJournal, env);
      var o := RollbackOne(d, r.operations[n - 1], r.newJournal, env);
      if o.status == Done {
        RollbackInRegion(names, o.disk, r, n - 1, o.env);
        OnlyInThen(names, d.dirs, o.disk.dirs, Rollback(o.disk, r, n - 1, o.env).disk.dirs);
      }
    }
  }

  lemma {:induction false} BackupsInRegion(names: set<string>, stageRoot: Path, d: Disk, ops: seq<Operation>, i: nat, env: Env)
    requires i <= |ops| && OpsIn(names, stageRoot, ops)
    ensures OnlyIn(names, d.dirs, DropBackups(d, ops, i, env).disk.dirs)
    decreases |ops| - i
  {
    hide OnlyIn, PrivateRoot, SkillRoot;
    NothingChanges(names, d.dirs);
    if i < |ops| {
      assert OpIn(names, stageRoot, ops[i]);
      if !ops[i].retainBackup && ops[i].backup.Some? && ops[i].backup.value in d.dirs {
        RemovalInRegion(names, d.dirs, ops[i].backup.value);
        var o := RemoveTree(d, ops[i].backup.value, env);
        if o.status == Done {
          BackupsInRegion(names, stageRoot, o.disk, ops, i + 1, o.env);
          OnlyInThen(names, d.dirs, o.disk.dirs, DropBackups(o.disk, ops, i + 1, o.env).disk.dirs);
        }
      } else {
        BackupsInRegion(names, stageRoot, d, ops, i + 1, env);
      }
    }
  }

  lemma FinishInRegion(names: set<string>, d: Disk, r: Record, env: Env)
    requires OpsIn(names, r.stageRoot, r.operations)
    ensures OnlyIn(names, d.dirs, Finish(d, r, env).disk.dirs)
  {
    hide OnlyIn, OpIn, PrivateRoot, DropStage, DropBackups;
    DropStageInRegion(names, d, r, env);
    var o := DropStage(d, r, env);
    BackupsInRegion(names, r.stageRoot, o.disk, r.operations, 0, o.env);
    OnlyInThen(names, d.dirs, o.disk.dirs, DropBackups(o.disk, r.operations, 0, o.env).disk.dirs);
  }

  // ---------------------------------------------------------------- recovery

  /** The names of the skills in a journal. */
  ghost function NamesIn(j: Journal): set<string> {
    set e | e in j.entries :: e.skillName
  }

  /** Every name is one piece of an acceptable path. */
  ghost predicate GoodNames(names: set<string>) {
    forall n :: n in names ==> !BadPath(n) && '/' !in n
  }

  ghost function MarkerNames(d: Disk): set<string> {
    if d.marker.Some? then NamesIn(d.marker.value.oldJournal) + NamesIn(d.marker.value.newJournal) else {}
  }

  lemma ShapedPlaces(j: Journal, p: Path)
    requires JournalShape(j) && Journaled(j, p)
    ensures SkillRoot(NamesIn(j), p)
  {
    hide ValidSkillName, TreeFromKey;
    var e :| e in j.entries && e.destination == p;
    assert EntryShape(e) && e.skillName in NamesIn(j);
  }

  lemma ShapedNames(j: Journal)
    requires JournalShape(j)
    ensures GoodNames(NamesIn(j))
  {
    hide TreeFromKey, BadPath, ValidSkillName;
    forall n | n in NamesIn(j)
      ensures !BadPath(n) && '/' !in n
    {
      var e :| e in j.entries && e.skillName == n;
      assert EntryShape(e);
      SkillNameIff(n);
    }
  }

  lemma RecordInRegion(r: Record)
    requires ValidRecord(r)
    ensures OpsIn(NamesIn(r.oldJournal) + NamesIn(r.newJournal), r.stageRoot, r.operations)
  {
    hide JournalShape, Journaled;
    var names := NamesIn(r.oldJournal) + NamesIn(r.newJournal);
    forall i | 0 <= i < |r.operations|
      ensures OpIn(names, r.stageRoot, r.operations[i])
    {
      var o := r.operations[i];
      assert o in r.operations && OperationShape(r, o);
      if Journaled(r.oldJournal, o.destination) {
        ShapedPlaces(r.oldJournal, o.destination);
      } else {
        ShapedPlaces(r.newJournal, o.destination);
      }
    }
  }

  lemma {:induction false} OrphansInRegion(d: Disk, listing: seq<Path>, env: Env)
    ensures OnlyIn({}, d.dirs, DropOrphans(d, listing, env).disk.dirs)
    decreases listing
  {
    hide OnlyIn;
    NothingChanges({}, d.dirs);
    if listing != [] {
      if IsStage(listing[0]) && listing[0] in d.dirs {
        RemovalInRegion({}, d.dirs, listing[0]);
        var o := RemoveTree(d, listing[0], env);
        if o.status == Done {
          OrphansInRegion(o.disk, listing[1..], o.env);
          OnlyInThen({}, d.dirs, o.disk.dirs, DropOrphans(o.disk, listing[1..], o.env).disk.dirs);
        }
      } else {
        OrphansInRegion(d, listing[1..], env);
      }
    }
  }

  /**
   Whatever is on disk, recovery changes only stages, backups and the directories of skills that the marker's
   journals name; if it changes anything at a marker, those names are valid.
   */
  lemma RecoveryStaysInside(d: Disk, listing: seq<Path>, env: Env)
    ensures OnlyIn(MarkerNames(d), d.dirs, Recover(d, listing, env).disk.dirs)
    ensures Recover(d, listing, env).disk != d && d.marker.Some? ==> GoodNames(MarkerNames(d))
  {
    hide OnlyIn, OpsIn, ValidRecord, NoFileAt, CanRead, JournalVerifies, Finish, Rollback, GoodNames;
    NothingChanges(MarkerNames(d), d.dirs);
    if d.marker.None? {
      OrphansInRegion(d, listing, env);
    } else {
      var r := d.marker.value;
      if ValidRecord(r) {
        RecordInRegion(r);
        FinishInRegion(MarkerNames(d), d, r, env);
        RollbackInRegion(MarkerNames(d), d, r, |r.operations|, env);
        RecordNames(r);
      }
    }
  }

  lemma RecordNames(r: Record)
    requires ValidRecord(r)
    ensures GoodNames(NamesIn(r.oldJournal) + NamesIn(r.newJournal))
  {
    hide JournalShape, BadPath;
    ShapedNames(r.oldJournal);
    ShapedNames(r.newJournal);
  }

  // ---------------------------------------------------------------- markers that are refused

  /** An entry that no call writes. */
  ghost predicate StrangeEntry(e: Entry) {
    || BadPath(e.skillName) || '/' in e.skillName
    || e.destination != Child(Root, e.skillName)
    || e.owners == [] || (exists o :: o in e.owners && (o == "" || '\0' in o))
    || TreeFromKey(e.key) == ""
  }

  predicate SamePlace(e: Entry, f: Entry) {
    e.destination == f.destination || e.skillName == f.skillName
  }

  ghost predicate StrangeJournal(j: Journal) {
    || (exists e :: e in j.entries && StrangeEntry(e))
    || (exists i, k :: 0 <= i < k < |j.entries| && SamePlace(j.entries[i], j.entries[k]))
  }

  ghost predicate StrangeOperation(r: Record, o: Operation) {
    || !(o.destination.Child? && o.destination.parent == Root)
    || (forall e :: e in r.oldJournal.entries + r.newJournal.entries ==> e.destination != o.destination)
    || (o.stage.Some? && !(o.stage.value.Child? && o.stage.value.parent == r.stageRoot && "member-" <= o.stage.value.name))
    || (o.backup.Some? && !(o.backup.value.Child? && o.backup.value.parent == Root && ".pskills-backup-" <= o.backup.value.name))
  }

  /** A marker that no call writes. */
  ghost predicate StrangeRecord(r: Record) {
    || r.version != 1
    || (r.oldLock.Some? != r.newLock.Some?) || (r.oldLock.Some? && !r.locksOwn)
    || !(r.stageRoot.Child? && r.stageRoot.parent == Root && ".pskills-stage-" <= r.stageRoot.name)
    || StrangeJournal(r.oldJournal) || StrangeJournal(r.newJournal)
    || exists o :: o in r.operations && StrangeOperation(r, o)
  }

  lemma StrangeEntryIff(e: Entry)
    ensures StrangeEntry(e) <==> !EntryShape(e)
  {
    hide BadPath, ValidSkillName, TreeFromKey;
    SkillNameIff(e.skillName);
  }

  lemma StrangeJournalIff(j: Journal)
    ensures StrangeJournal(j) <==> !JournalShape(j)
  {
    hide StrangeEntry, EntryShape;
    forall e | e in j.entries
      ensures StrangeEntry(e) <==> !EntryShape(e)
    {
      StrangeEntryIff(e);
    }
  }

  lemma StrangeOperationIff(r: Record, o: Operation)
    ensures StrangeOperation(r, o) <==> !OperationShape(r, o)
  {
    var all := r.oldJournal.entries + r.newJournal.entries;
    assert forall e :: e in all <==> e in r.oldJournal.entries || e in r.newJournal.entries;
  }

  /** Recovery accepts a marker exactly when it is not strange; a strange one stops it with nothing changed. */
  lemma StrangeMarkerIsRefused(d: Disk, listing: seq<Path>, env: Env)
    requires d.marker.Some?
    ensures StrangeRecord(d.marker.value) <==> !ValidRecord(d.marker.value)
    ensures StrangeRecord(d.marker.value) ==> Recover(d, listing, env) == Out(d, env, Refused)
  {
    hide StrangeJournal, JournalShape, StrangeOperation, OperationShape;
    var r := d.marker.value;
    StrangeJournalIff(r.oldJournal);
    StrangeJournalIff(r.newJournal);
    forall o | o in r.operations
      ensures StrangeOperation(r, o) <==> !OperationShape(r, o)
    {
      StrangeOperationIff(r, o);
    }
  }

  /**
   Recovery touches nothing when the journal on disk is neither of the marker's, when the lockfile is neither, or
   when both are new and a journaled skill is not as the journal says.
   */
  lemma UnknownDocumentsAreRefused(d: Disk, listing: seq<Path>, env: Env)
    requires d.marker.Some?
    requires
      var r, journal, lock := d.marker.value, ReadJournal(d), ReadLock(d);
      || (journal != r.oldJournal && journal != r.newJournal)
      || (r.oldLock.Some? && r.newLock.Some? && lock != r.oldLock.value && lock != r.newLock.value)
      || (journal == r.newJournal && (r.newLock.None? || lock == r.newLock.value)
          && exists e :: e in r.newJournal.entries && VerifyEntry(d.dirs, e) != Verified)
    ensures Recover(d, listing, env) == Out(d, env, Refused)
  {
    hide ValidRecord, NoFileAt, CanRead, VerifyEntry, Finish, RollBackward;
  }

  /** A strange journal stops every install and removal, with nothing changed after recovery. */
  lemma StrangeJournalIsRefused(d: Disk, ev: Event, env: Env)
    requires StrangeJournal(ReadJournal(d)) && !ev.request.Open?
    ensures Proceed(d, ev, env) == Out(d, env, Refused)
  {
    hide StrangeJournal, JournalShape, Commit, ChangesFor;
    StrangeJournalIff(ReadJournal(d));
  }

  // ---------------------------------------------------------------- staging and activation

  lemma WriteInRegion(names: set<string>, dirs: Dirs, p: Path, t: Tree)
    requires InRegion(names, p)
    ensures OnlyIn(names, dirs, dirs[p := t])
  {
    hide InRegion;
  }

  lemma {:induction false} StageFilesInRegion(names: set<string>, d: Disk, member: Path, files: Bundle, env: Env)
    requires member in d.dirs && InRegion(names, member)
    ensures OnlyIn(names, d.dirs, StageFiles(d, member, files, env).disk.dirs)
    decreases files
  {
    hide OnlyIn, InRegion, Blocked, OnDisk;
    NothingChanges(names, d.dirs);
    if files != [] && !Blocked(d.dirs[member], OnDisk(files[0].path)) {
      var t := d.dirs[member][OnDisk(files[0].path) := files[0].content];
      var o := Durable(d, d.(dirs := d.dirs[member := t]), env);
      if o.status == Done {
        WriteInRegion(names, d.dirs, member, t);
        StageFilesInRegion(names, o.disk, member, files[1..], o.env);
        OnlyInThen(names, d.dirs, o.disk.dirs, StageFiles(o.disk, member, files[1..], o.env).disk.dirs);
      }
    }
  }

  lemma {:induction false} StageOpsInRegion(names: set<string>, d: Disk, tx: Tx, i: nat, env: Env)
    requires i <= |tx.ops| && PrivateRoot(tx.stageRoot)
    ensures OnlyIn(names, d.dirs, StageOps(d, tx, i, env).disk.dirs)
    decreases |tx.ops| - i
  {
    hide OnlyIn, PrivateRoot, StageFiles;
    NothingChanges(names, d.dirs);
    if i < |tx.ops| {
      if tx.ops[i].kind != Replace {
        StageOpsInRegion(names, d, tx, i + 1, env);
      } else if tx.ops[i].bundle.Some? {
        var member := Member(tx.stageRoot, i);
        assert InRegion(names, member);
        var o := Durable(d, d.(dirs := d.dirs[member := map[]]), env);
        if o.status == Done {
          WriteInRegion(names, d.dirs, member, map[]);
          StageFilesInRegion(names, o.disk, member, tx.ops[i].bundle.value, o.env);
          var e := StageFiles(o.disk, member, tx.ops[i].bundle.value, o.env);
          OnlyInThen(names, d.dirs, o.disk.dirs, e.disk.dirs);
          if e.status == Done {
            StageOpsInRegion(names, e.disk, tx, i + 1, e.env);
            OnlyInThen(names, d.dirs, e.disk.dirs, StageOps(e.disk, tx, i + 1, e.env).disk.dirs);
          }
        }
      }
    }
  }

  lemma StageInRegion(names: set<string>, d: Disk, tx: Tx, env: Env)
    requires PrivateRoot(tx.stageRoot)
    ensures OnlyIn(names, d.dirs, Stage(d, tx, env).disk.dirs)
  {
    hide OnlyIn, PrivateRoot, StageOps;
    NothingChanges(names, d.dirs);
    var made := Durable(d, d.(dirs := d.dirs[tx.stageRoot := map[]]), env);
    WriteInRegion(names, d.dirs, tx.stageRoot, map[]);
    StageOpsInRegion(names, made.disk, tx, 0, made.env);
    var o := StageOps(made.disk, tx, 0, made.env);
    OnlyInThen(names, d.dirs, made.disk.dirs, o.disk.dirs);
    RemovalInRegion(names, o.disk.dirs, tx.stageRoot);
    OnlyInThen(names, d.dirs, o.disk.dirs, WithoutTree(o.disk.dirs, tx.stageRoot));
  }

  lemma RenameInRegion(names: set<string>, d: Disk, from: Path, to: Path, env: Env)
    requires InRegion(names, from) && InRegion(names, to)
    ensures OnlyIn(names, d.dirs, Rename(d, from, to, env).disk.dirs)
  {
    hide OnlyIn, InRegion;
    NothingChanges(names, d.dirs);
    if from in d.dirs { MoveInRegion(names, d.dirs, from, to); }
  }

  lemma ActivateOneInRegion(names: set<string>, stageRoot: Path, d: Disk, o: Operation, env: Env)
    requires PrivateRoot(stageRoot) && OpIn(names, stageRoot, o)
    ensures OnlyIn(names, d.dirs, ActivateOne(d, o, env).disk.dirs)
  {
    hide OnlyIn, PrivateRoot, SkillRoot, IsFile, Rename;
    NothingChanges(names, d.dirs);
    if o.backup.Some? { RenameInRegion(names, d, o.destination, o.backup.value, env); }
    var aside :=
      if o.backup.Some? && o.destination in d.dirs then Rename(d, o.destination, o.backup.value, env) else Out(d, env, Done);
    if o.stage.Some? {
      assert InRegion(names, o.stage.value);
      RenameInRegion(names, aside.disk, o.stage.value, o.destination, aside.env);
      OnlyInThen(names, d.dirs, aside.disk.dirs, Rename(aside.disk, o.stage.value, o.destination, aside.env).disk.dirs);
    }
  }

  lemma {:induction false} ActivateInRegion(names: set<string>, stageRoot: Path, d: Disk, ops: seq<Operation>, i: nat, env: Env)
    requires i <= |ops| && OpsIn(names, stageRoot, ops)
    ensures OnlyIn(names, d.dirs, Activate(d, ops, i, env).disk.dirs)
    decreases |ops| - i
  {
    hide OnlyIn, OpIn, PrivateRoot, ActivateOne;
    NothingChanges(names, d.dirs);
    if i < |ops| {
      ActivateOneInRegion(names, stageRoot, d, ops[i], env);
      var o := ActivateOne(d, ops[i], env);
      if o.status == Done {
        ActivateInRegion(names, stageRoot, o.disk, ops, i + 1, o.env);
        OnlyInThen(names, d.dirs, o.disk.dirs, Activate(o.disk, ops, i + 1, o.env).disk.dirs);
      }
    }
  }

  /** A transaction whose operations aim into the region. */
  ghost predicate TxIn(names: set<string>, tx: Tx) {
    && PrivateRoot(tx.stageRoot)
    && forall i :: 0 <= i < |tx.ops| ==> tx.ops[i].stage.None? && OpIn(names, tx.stageRoot, tx.ops[i])
  }

  lemma StagedOpsIn(names: set<string>, tx: Tx)
    requires TxIn(names, tx)
    ensures OpsIn(names, tx.stageRoot, StagedOps(tx.ops, tx.stageRoot))
  {
    hide PrivateRoot, SkillRoot;
    forall i | 0 <= i < |tx.ops|
      ensures OpIn(names, tx.stageRoot, StagedOps(tx.ops, tx.stageRoot)[i])
    {
      assert OpIn(names, tx.stageRoot, tx.ops[i]);
    }
  }

  lemma PublishKeepsDirs(d: Disk, tx: Tx, env: Env)
    ensures Publish(d, tx, env).disk.dirs == d.dirs
  {
  }

  lemma CommitInRegion(names: set<string>, d: Disk, tx: Tx, env: Env)
    requires TxIn(names, tx)
    ensures OnlyIn(names, d.dirs, Commit(d, tx, env).disk.dirs)
  {
    hide OnlyIn, OpsIn, OpIn, PrivateRoot, Stage, Activate, Publish, Finish, Rollback;
    var ops, prepared := StagedOps(tx.ops, tx.stageRoot), RecordOf(tx, Prepared);
    StagedOpsIn(names, tx);
    StageInRegion(names, d, tx, env);
    var s := Stage(d, tx, env);
    RemovalInRegion(names, s.disk.dirs, tx.stageRoot);
    OnlyInThen(names, d.dirs, s.disk.dirs, WithoutTree(s.disk.dirs, tx.stageRoot));
    var m := WriteMarker(s.disk, prepared, s.env);
    ActivateInRegion(names, tx.stageRoot, m.disk, ops, 0, m.env);
    var a := Activate(m.disk, ops, 0, m.env);
    OnlyInThen(names, d.dirs, m.disk.dirs, a.disk.dirs);
    RollbackInRegion(names, a.disk, prepared, |ops|, a.env);
    OnlyInThen(names, d.dirs, a.disk.dirs, Rollback(a.disk, prepared, |ops|, a.env).disk.dirs);
    var p := Publish(a.disk, tx, a.env);
    PublishKeepsDirs(a.disk, tx, a.env);
    FinishInRegion(names, p.disk, RecordOf(tx, JournalWritten), p.env);
    OnlyInThen(names, d.dirs, a.disk.dirs, Finish(p.disk, RecordOf(tx, JournalWritten), p.env).disk.dirs);
  }

  // ---------------------------------------------------------------- whole calls

  /** The names a request asks for. */
  ghost function AskedNames(ev: Event): set<string> {
    if ev.request.Install? then set p | p in ev.request.plans && PlanValid(p) :: p.skillName else {}
  }

  /** Changes that aim into the region. */
  ghost predicate ChangesIn(names: set<string>, cs: seq<Change>) {
    forall c :: c in cs ==> c.op.stage.None? && SkillRoot(names, c.op.destination) && (c.op.backup.Some? ==> PrivateRoot(c.op.backup.value))
  }

  lemma InstallChangesIn(d: Disk, a: Alloc, ps: seq<Plan>, names: set<string>)
    requires AllocOk(a) && forall p :: p in ps ==> p.skillName in names
    ensures ChangesIn(names, InstallChanges(d, a, ps))
  {
    hide BuildEntry, VerifyEntry, IsFile, JournalShape;
    InstallChangesSpec(d, a, ps);
    forall c | c in InstallChanges(d, a, ps)
      ensures c.op.stage.None? && SkillRoot(names, c.op.destination) && (c.op.backup.Some? ==> PrivateRoot(c.op.backup.value))
    {
      var p :| p in ps && Decide(d, a, p) == Changing(c);
      PlanAims(d, a, p);
    }
  }

  lemma PlanAims(d: Disk, a: Alloc, p: Plan)
    requires Decide(d, a, p).Changing?
    ensures
      var o := Decide(d, a, p).change.op;
      o.stage.None? && o.destination == Destination(p.skillName) && (o.backup.Some? ==> o.destination in a.backups && o.backup.value == a.backups[o.destination])
  {
    hide BuildEntry, VerifyEntry, IsFile;
  }

  lemma RemovalChangesIn(d: Disk, a: Alloc, owner: string, es: seq<Entry>, names: set<string>)
    requires AllocOk(a) && forall e :: e in es ==> SkillRoot(names, e.destination)
    ensures ChangesIn(names, RemovalChanges(d, a, owner, es))
  {
    hide VerifyEntry, UniqueSorted;
    RemovalChangesSpec(d, a, owner, es);
  }

  lemma TxOfIsIn(d: Disk, cs: seq<Change>, ev: Event, names: set<string>)
    requires AllocOk(ev.alloc) && ChangesIn(names, cs)
    ensures TxIn(names, TxOf(d, cs, ev.alloc.stage, ev.expected, ev.newLock))
  {
    hide PrivateRoot, SkillRoot, JournalOf;
    var raw := OpsOf(cs);
    var ops := SortBy(raw, OperationOrder);
    SortByMembers(raw, OperationOrder);
    StageIsPrivate(ev.alloc);
    forall i | 0 <= i < |ops|
      ensures ops[i].stage.None? && OpIn(names, ev.alloc.stage, ops[i])
    {
      assert ops[i] in raw;
      var k :| 0 <= k < |raw| && raw[k] == ops[i];
      assert cs[k] in cs;
    }
  }

  lemma StageIsPrivate(a: Alloc)
    requires AllocOk(a)
    ensures PrivateRoot(a.stage)
  {
  }

  lemma ChangesForIn(d: Disk, ev: Event)
    requires AllocOk(ev.alloc) && JournalShape(ReadJournal(d)) && ChangesFor(d, ev).Some?
    ensures ChangesIn(NamesIn(ReadJournal(d)) + AskedNames(ev), ChangesFor(d, ev).value)
  {
    hide PlanValid, JournalShape, SkillRoot, InstallChanges, RemovalChanges, NoConflict, NoRemovalConflict, AllocOk, ValidSkillName;
    var names := NamesIn(ReadJournal(d)) + AskedNames(ev);
    match ev.request
    case Open =>
    case Install(plans) => InstallChangesIn(d, ev.alloc, plans, names);
    case Removal(owner, who) =>
      var es := Selected(ReadJournal(d), owner, who).value;
      forall e | e in es
        ensures SkillRoot(names, e.destination)
      {
        assert e in ReadJournal(d).entries by { SelectedAreEntries(ReadJournal(d), owner, who); }
        assert Journaled(ReadJournal(d), e.destination);
        ShapedPlaces(ReadJournal(d), e.destination);
        MoreNames(NamesIn(ReadJournal(d)), names, e.destination);
      }
      RemovalChangesIn(d, ev.alloc, owner, es, names);
  }

  lemma SelectedAreEntries(j: Journal, owner: string, names: seq<string>)
    requires Selected(j, owner, names).Some?
    ensures forall e :: e in Selected(j, owner, names).value ==> e in j.entries
  {
    hide ValidSkillName;
    if names == [] {
      EntriesOfSpec(j.entries, owner);
    } else {
      EntriesNamedSpec(j.entries, owner, names);
      var es := Selected(j, owner, names).value;
      assert forall e :: e in es ==> exists i :: 0 <= i < |es| && es[i] == e;
    }
  }

  lemma MoreNames(some: set<string>, all: set<string>, p: Path)
    requires some <= all && SkillRoot(some, p)
    ensures SkillRoot(all, p)
  {
  }

  lemma MoreIsIn(some: set<string>, all: set<string>, before: Dirs, after: Dirs)
    requires some <= all && OnlyIn(some, before, after)
    ensures OnlyIn(all, before, after)
  {
    forall q | !InRegion(all, q)
      ensures Same(after, before, q)
    {
      assert !InRegion(some, q);
    }
  }

  /** The journal that recovery leaves is the one on disk, or the marker's old one. */
  lemma RecoveredJournal(d: Disk, listing: seq<Path>, env: Env)
    ensures
      var r := Recover(d, listing, env).disk;
      r.journal == d.journal || (d.marker.Some? && r.journal == Some(d.marker.value.oldJournal))
  {
    hide ValidRecord, NoFileAt, CanRead, JournalVerifies, Rollback, DropBackups, DropOrphans;
    if d.marker.Some? {
      var r := d.marker.value;
      RollbackKeepsJournal(d, r, |r.operations|, env);
      var o := DropStage(d, r, env);
      BackupsKeepDocument(o.disk, r.operations, 0, o.env);
    } else {
      OrphansKeepJournal(d, listing, env);
    }
  }

  lemma {:induction false} RollbackKeepsJournal(d: Disk, r: Record, n: nat, env: Env)
    requires n <= |r.operations|
    ensures Rollback(d, r, n, env).disk.journal == d.journal
    decreases n
  {
    hide DestinationMatches, IsFile;
    if n > 0 {
      var o := RollbackOne(d, r.operations[n - 1], r.newJournal, env);
      if o.status == Done { RollbackKeepsJournal(o.disk, r, n - 1, o.env); }
    }
  }

  lemma {:induction false} BackupsKeepDocument(d: Disk, ops: seq<Operation>, i: nat, env: Env)
    requires i <= |ops|
    ensures DropBackups(d, ops, i, env).disk.journal == d.journal
    decreases |ops| - i
  {
    if i < |ops| {
      if !ops[i].retainBackup && ops[i].backup.Some? && ops[i].backup.value in d.dirs {
        var o := RemoveTree(d, ops[i].backup.value, env);
        if o.status == Done { BackupsKeepDocument(o.disk, ops, i + 1, o.env); }
      } else {
        BackupsKeepDocument(d, ops, i + 1, env);
      }
    }
  }

  lemma {:induction false} OrphansKeepJournal(d: Disk, listing: seq<Path>, env: Env)
    ensures DropOrphans(d, listing, env).disk.journal == d.journal
    decreases listing
  {
    if listing != [] {
      if IsStage(listing[0]) && listing[0] in d.dirs {
        var o := RemoveTree(d, listing[0], env);
        if o.status == Done { OrphansKeepJournal(o.disk, listing[1..], o.env); }
      } else {
        OrphansKeepJournal(d, listing[1..], env);
      }
    }
  }

  /** Everything a call may be about: the marker's skills, the journal's, and those it asks for. */
  ghost function CallNames(d: Disk, ev: Event): set<string> {
    MarkerNames(d) + NamesIn(ReadJournal(d)) + AskedNames(ev)
  }

  lemma ProceedInRegion(d: Disk, ev: Event, env: Env)
    requires AllocOk(ev.alloc)
    ensures OnlyIn(NamesIn(ReadJournal(d)) + AskedNames(ev), d.dirs, Proceed(d, ev, env).disk.dirs)
  {
    hide OnlyIn, ChangesFor, Commit, LockAccepted, AllocOk, ChangesIn, TxIn, JournalShape, NoFileAt;
    var names := NamesIn(ReadJournal(d)) + AskedNames(ev);
    NothingChanges(names, d.dirs);
    if !ev.request.Open? && JournalAccepted(d) && ChangesFor(d, ev).Some? {
      var cs := ChangesFor(d, ev).value;
      ChangesForIn(d, ev);
      TxOfIsIn(d, cs, ev, names);
      CommitInRegion(names, d, TxOf(d, cs, ev.alloc.stage, ev.expected, ev.newLock), env);
    }
  }

  /**
   Whatever is on disk and wherever the call stops, it changes only its own stages and backups, and the
   directories of skills that the marker or the journal names or that the call asks for by a valid name.
   */
  lemma CallStaysInside(d: Disk, ev: Event)
    requires AllocOk(ev.alloc)
    ensures OnlyIn(CallNames(d, ev), d.dirs, Perform(d, ev).disk.dirs)
  {
    hide OnlyIn, Recover, Proceed, AllocOk, MarkerNames, NamesIn, AskedNames;
    var names := CallNames(d, ev);
    NothingChanges(names, d.dirs);
    var r := Recover(d, ev.listing, ev.env);
    RecoveryStaysInside(d, ev.listing, ev.env);
    MoreIsIn(MarkerNames(d), names, d.dirs, r.disk.dirs);
    if r.status == Done {
      ProceedInRegion(r.disk, ev, r.env);
      RecoveredNames(d, ev.listing, ev.env);
      MoreIsIn(NamesIn(ReadJournal(r.disk)) + AskedNames(ev), names, r.disk.dirs, Proceed(r.disk, ev, r.env).disk.dirs);
      OnlyInThen(names, d.dirs, r.disk.dirs, Proceed(r.disk, ev, r.env).disk.dirs);
    }
  }

  lemma RecoveredNames(d: Disk, listing: seq<Path>, env: Env)
    ensures NamesIn(ReadJournal(Recover(d, listing, env).disk)) <= MarkerNames(d) + NamesIn(ReadJournal(d))
  {
    hide Recover;
    RecoveredJournal(d, listing, env);
  }
}
