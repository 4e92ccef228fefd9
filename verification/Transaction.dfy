/**
 The durable actions of the installer, one function per routine.

 A `Disk` is everything under one installation root that survives a crash: the directories, the
 journal, the lockfile and the transaction marker. Every routine takes an `Env` and spends one
 unit of `power` per durable action; when the power is gone the routine stops where it is. A
 statement about every `Env` is therefore a statement about every crash point. `renames` counts
 the renames that succeed before one fails while the process stays alive.
 */
module Transaction {
  import opened Options
  import opened Lockfile
  import opened Order
  import opened Digest
  import opened Numerals
  import opened Paths
  import opened SkillTree

  // ---------------------------------------------------------------- paths under the root

  datatype Path = Root | Elsewhere(text: string) | Child(parent: Path, name: string)

  const STAGE_PREFIX := ".pskills-stage-"
  const BACKUP_PREFIX := ".pskills-backup-"

  /** Where the lockfile lies: beside a default project root, or inside a custom or a global one. */
  datatype Home = Project | Custom | Global

  const JOURNAL_NAME := ".pskills-journal.json"
  const MARKER_NAME := ".pskills-transaction.json"
  const MUTEX_NAME := ".pskills-install.lock"
  const CUSTOM_LOCK_NAME := "pskills.lock.json"
  const GLOBAL_LOCK_NAME := ".pskills.lock.json"

  const JOURNAL_PATH := Child(Root, JOURNAL_NAME)
  const MARKER_PATH := Child(Root, MARKER_NAME)
  const MUTEX_PATH := Child(Root, MUTEX_NAME)

  function LockPath(h: Home): Path {
    match h
    case Project => Child(Elsewhere("project"), CUSTOM_LOCK_NAME)
    case Custom => Child(Root, CUSTOM_LOCK_NAME)
    case Global => Child(Root, GLOBAL_LOCK_NAME)
  }

  /** The name of a document that lies in a root, in one scope or another. */
  predicate StateName(name: string) {
    || name == JOURNAL_NAME || name == MARKER_NAME || name == MUTEX_NAME
    || name == CUSTOM_LOCK_NAME || name == GLOBAL_LOCK_NAME
  }

  predicate TopLevel(p: Path) { p.Child? && p.parent == Root }
  predicate IsStage(p: Path) { TopLevel(p) && STAGE_PREFIX <= p.name }
  predicate IsBackup(p: Path) { TopLevel(p) && BACKUP_PREFIX <= p.name }
  predicate IsState(p: Path) { TopLevel(p) && StateName(p.name) }
  predicate IsPlain(p: Path) { TopLevel(p) && !IsStage(p) && !IsBackup(p) && !IsState(p) }
  predicate InStage(p: Path) { p.Child? && IsStage(p.parent) }
  predicate StageKind(p: Path) { IsStage(p) || InStage(p) }

  // ---------------------------------------------------------------- documents

  datatype Entry = Entry(
    key: string,
    destination: Path,
    skillName: string,
    digest: string,
    owners: seq<string>,
    files: seq<JournalFile>)

  datatype Journal = Journal(version: nat, entries: seq<Entry>)

  datatype OperationKind = Replace | Remove | Metadata

  datatype Operation = Operation(
    destination: Path,
    stage: Option<Path>,
    backup: Option<Path>,
    kind: OperationKind,
    retainBackup: bool,
    bundle: Option<Bundle>)

  datatype Phase = Prepared | Activated | JournalWritten

  datatype Record = Record(
    version: nat,
    phase: Phase,
    oldJournal: Journal,
    newJournal: Journal,
    operations: seq<Operation>,
    stageRoot: Path,
    /** The record names the installation's own lockfile; a record that names another is refused. */
    locksOwn: bool,
    oldLock: Option<LockFile>,
    newLock: Option<LockFile>)

  datatype Disk = Disk(
    dirs: map<Path, Tree>,
    journal: Option<Journal>,
    lock: Option<LockFile>,
    marker: Option<Record>,
    home: Home)

  /** A document lies at this path. The mutex file is there whenever the root is worked on. */
  predicate IsFile(d: Disk, p: Path) {
    || (p == JOURNAL_PATH && d.journal.Some?)
    || (p == MARKER_PATH && d.marker.Some?)
    || p == MUTEX_PATH
    || (p == LockPath(d.home) && d.lock.Some?)
  }

  /** An absent journal reads as empty; the version is normalised on every read. */
  function ReadJournal(d: Disk): Journal {
    if d.journal.Some? then d.journal.value.(version := 1) else Journal(1, [])
  }

  function ReadLock(d: Disk): LockFile {
    if d.lock.Some? then d.lock.value else EMPTY_LOCK
  }

  // ---------------------------------------------------------------- one durable action

  datatype Env = Env(power: nat, renames: nat)

  datatype Status = Done | Crashed | IoFault | Refused

  datatype Out = Out(disk: Disk, env: Env, status: Status)

  function Durable(before: Disk, after: Disk, env: Env): Out {
    if env.power == 0 then Out(before, env, Crashed) else Out(after, env.(power := env.power - 1), Done)
  }

  function WithoutTree(dirs: map<Path, Tree>, p: Path): map<Path, Tree> {
    map q | q in dirs && q != p && !(q.Child? && q.parent == p) :: dirs[q]
  }

  /** `remove_dir_all`: the directory and everything below it, as one action. */
  function RemoveTree(d: Disk, p: Path, env: Env): Out {
    Durable(d, d.(dirs := WithoutTree(d.dirs, p)), env)
  }

  function MoveTree(dirs: map<Path, Tree>, from: Path, to: Path): map<Path, Tree>
    requires from in dirs
  {
    (dirs - {from})[to := dirs[from]]
  }

  function RemoveMarker(d: Disk, env: Env): Out {
    Durable(d, d.(marker := None), env)
  }

  /** `atomic_write_json`: a document never replaces a directory. */
  function WriteMarker(d: Disk, r: Record, env: Env): Out {
    if MARKER_PATH in d.dirs then Out(d, env, Refused) else Durable(d, d.(marker := Some(r)), env)
  }

  function WriteJournal(d: Disk, j: Journal, env: Env): Out {
    if JOURNAL_PATH in d.dirs then Out(d, env, Refused) else Durable(d, d.(journal := Some(j)), env)
  }

  function WriteLock(d: Disk, l: Option<LockFile>, env: Env): Out {
    if l.None? then Out(d, env, Done)
    else if LockPath(d.home) in d.dirs then Out(d, env, Refused)
    else Durable(d, d.(lock := l), env)
  }

  // ---------------------------------------------------------------- staging

  /** What one batch asks `commit_transaction` to do. */
  datatype Tx = Tx(
    oldJournal: Journal,
    newJournal: Journal,
    ops: seq<Operation>,
    stageRoot: Path,
    oldLock: Option<LockFile>,
    newLock: Option<LockFile>)

  function Member(stageRoot: Path, index: nat): Path {
    Child(stageRoot, "member-" + Decimal(index))
  }

  function StagedOp(o: Operation, stageRoot: Path, index: nat): Operation {
    if o.kind == Replace then o.(stage := Some(Member(stageRoot, index)), bundle := None) else o
  }

  function StagedOps(ops: seq<Operation>, stageRoot: Path): (r: seq<Operation>)
    ensures |r| == |ops|
  {
    seq(|ops|, i requires 0 <= i < |ops| => StagedOp(ops[i], stageRoot, i))
  }

  function RecordOf(tx: Tx, phase: Phase): Record {
    Record(1, phase, tx.oldJournal, tx.newJournal, StagedOps(tx.ops, tx.stageRoot), tx.stageRoot,
           tx.newLock.Some?, tx.oldLock, tx.newLock)
  }

  /** `extract_bundle` into a stage member: one action per file. */
  function StageFiles(d: Disk, member: Path, files: Bundle, env: Env): Out
    requires member in d.dirs
    decreases files
  {
    if files == [] then Out(d, env, Done)
    else
      var target := OnDisk(files[0].path);
      if Blocked(d.dirs[member], target) then Out(d, env, Refused)
      else
        var o := Durable(d, d.(dirs := d.dirs[member := d.dirs[member][target := files[0].content]]), env);
        if o.status != Done then o else StageFiles(o.disk, member, files[1..], o.env)
  }

  function StageOps(d: Disk, tx: Tx, i: nat, env: Env): Out
    requires i <= |tx.ops|
    decreases |tx.ops| - i
  {
    if i == |tx.ops| then Out(d, env, Done)
    else if tx.ops[i].kind != Replace then StageOps(d, tx, i + 1, env)
    else if tx.ops[i].bundle.None? then Out(d, env, Refused)
    else
      var member := Member(tx.stageRoot, i);
      var o := Durable(d, d.(dirs := d.dirs[member := map[]]), env);
      if o.status != Done then o
      else
        var e := StageFiles(o.disk, member, tx.ops[i].bundle.value, o.env);
        if e.status != Done then e else StageOps(e.disk, tx, i + 1, e.env)
  }

  /** Everything before the first marker: a failed extraction takes the stage away again. */
  function Stage(d: Disk, tx: Tx, env: Env): Out {
    if tx.stageRoot in d.dirs then Out(d, env, Refused)
    else
      var made := Durable(d, d.(dirs := d.dirs[tx.stageRoot := map[]]), env);
      if made.status != Done then made
      else
        var o := StageOps(made.disk, tx, 0, made.env);
        if o.status == Done || o.status == Crashed then o
        else
          var gone := RemoveTree(o.disk, tx.stageRoot, o.env);
          if gone.status != Done then gone else Out(gone.disk, gone.env, Refused)
  }

  // ---------------------------------------------------------------- activation

  /** `fs::rename` during activation: it may fail, and it never lands on an existing directory. */
  function Rename(d: Disk, from: Path, to: Path, env: Env): Out {
    if env.power == 0 then Out(d, env, Crashed)
    else if env.renames == 0 || from !in d.dirs || to in d.dirs then Out(d, env, IoFault)
    else Out(d.(dirs := MoveTree(d.dirs, from, to)), Env(env.power - 1, env.renames - 1), Done)
  }

  function ActivateOne(d: Disk, o: Operation, env: Env): Out {
    if o.kind == Metadata then Out(d, env, Done)
    else if IsFile(d, o.destination) || (o.backup.None? && o.kind == Remove) then Out(d, env, IoFault)
    else
      var aside :=
        if o.backup.Some? && o.destination in d.dirs
        then Rename(d, o.destination, o.backup.value, env)
        else Out(d, env, Done);
      if aside.status != Done || o.kind != Replace then aside
      else if o.stage.None? then Out(aside.disk, aside.env, IoFault)
      else Rename(aside.disk, o.stage.value, o.destination, aside.env)
  }

  function Activate(d: Disk, ops: seq<Operation>, i: nat, env: Env): Out
    requires i <= |ops|
    decreases |ops| - i
  {
    if i == |ops| then Out(d, env, Done)
    else
      var o := ActivateOne(d, ops[i], env);
      if o.status != Done then o else Activate(o.disk, ops, i + 1, o.env)
  }

  // ---------------------------------------------------------------- verification on disk

  function VerifyEntry(dirs: map<Path, Tree>, e: Entry): Verdict {
    if e.destination in dirs then Check(e.key, e.files, true, dirs[e.destination])
    else Check(e.key, e.files, false, map[])
  }

  predicate JournalVerifies(dirs: map<Path, Tree>, j: Journal) {
    forall e :: e in j.entries ==> VerifyEntry(dirs, e) == Verified
  }

  datatype Match = Matches | Differs | Unreadable

  function FindEntry(entries: seq<Entry>, p: Path): Option<Entry> {
    if entries == [] then None
    else if entries[0].destination == p then Some(entries[0])
    else FindEntry(entries[1..], p)
  }

  function DestinationMatches(dirs: map<Path, Tree>, p: Path, j: Journal): Match {
    match FindEntry(j.entries, p)
    case None => Differs
    case Some(e) =>
      match VerifyEntry(dirs, e)
      case Verified => Matches
      case TreeMismatch => Differs
      case LocalEdits => Differs
      case _ => Unreadable
  }

  // ---------------------------------------------------------------- rollback

  /** Undo one operation. */
  function RollbackOne(d: Disk, o: Operation, newJournal: Journal, env: Env): Out {
    if o.kind == Metadata then Out(d, env, Done)
    else if o.backup.Some? then
      if o.backup.value !in d.dirs then Out(d, env, Done)
      else if IsFile(d, o.destination) then Out(d, env, Refused)
      else if o.destination !in d.dirs then Restore(d, o, env)
      else if DestinationMatches(d.dirs, o.destination, newJournal) != Matches then Out(d, env, Refused)
      else
        var gone := RemoveTree(d, o.destination, env);
        if gone.status != Done then gone
        else if o.backup.value !in gone.disk.dirs then Out(gone.disk, gone.env, Refused)
        else Restore(gone.disk, o, gone.env)
    else if o.kind == Replace && IsFile(d, o.destination) then Out(d, env, Refused)
    else if o.kind == Replace && o.destination in d.dirs then
      match DestinationMatches(d.dirs, o.destination, newJournal)
      case Matches => RemoveTree(d, o.destination, env)
      case Differs => Out(d, env, Done)
      case Unreadable => Out(d, env, Refused)
    else Out(d, env, Done)
  }

  function Restore(d: Disk, o: Operation, env: Env): Out
    requires o.backup.Some? && o.backup.value in d.dirs
  {
    Durable(d, d.(dirs := MoveTree(d.dirs, o.backup.value, o.destination)), env)
  }

  /** `rollback_transaction`: the first `n` operations in reverse order, then the stage. */
  function Rollback(d: Disk, r: Record, n: nat, env: Env): Out
    requires n <= |r.operations|
    decreases n
  {
    if n == 0 then DropStage(d, r, env)
    else
      var o := RollbackOne(d, r.operations[n - 1], r.newJournal, env);
      if o.status != Done then o else Rollback(o.disk, r, n - 1, o.env)
  }

  function DropStage(d: Disk, r: Record, env: Env): Out {
    if r.stageRoot in d.dirs then RemoveTree(d, r.stageRoot, env) else Out(d, env, Done)
  }

  // ---------------------------------------------------------------- cleanup

  function DropBackups(d: Disk, ops: seq<Operation>, i: nat, env: Env): Out
    requires i <= |ops|
    decreases |ops| - i
  {
    if i == |ops| then Out(d, env, Done)
    else if !ops[i].retainBackup && ops[i].backup.Some? && ops[i].backup.value in d.dirs then
      var o := RemoveTree(d, ops[i].backup.value, env);
      if o.status != Done then o else DropBackups(o.disk, ops, i + 1, o.env)
    else DropBackups(d, ops, i + 1, env)
  }

  /** `cleanup_transaction_artifacts` and the marker's removal. */
  function Finish(d: Disk, r: Record, env: Env): Out {
    var o := DropStage(d, r, env);
    if o.status != Done then o
    else
      var b := DropBackups(o.disk, r.operations, 0, o.env);
      if b.status != Done then b else RemoveMarker(b.disk, b.env)
  }

  // ---------------------------------------------------------------- commit

  /** The writes between activation and cleanup. */
  function Publish(d: Disk, tx: Tx, env: Env): Out {
    var a := WriteMarker(d, RecordOf(tx, Activated), env);
    if a.status != Done then a
    else
      var j := WriteJournal(a.disk, tx.newJournal, a.env);
      if j.status != Done then j
      else
        var l := WriteLock(j.disk, tx.newLock, j.env);
        if l.status != Done then l
        else WriteMarker(l.disk, RecordOf(tx, JournalWritten), l.env)
  }

  /** Undoing an activation that failed while the process stayed alive. */
  function Abandon(d: Disk, r: Record, env: Env): Out {
    var o := Rollback(d, r, |r.operations|, env);
    if o.status != Done then o
    else
      var m := RemoveMarker(o.disk, o.env);
      if m.status != Done then m else Out(m.disk, m.env, IoFault)
  }

  /** `commit_transaction`. */
  function Commit(d: Disk, tx: Tx, env: Env): Out {
    var s := Stage(d, tx, env);
    if s.status != Done then s
    else
      var m := WriteMarker(s.disk, RecordOf(tx, Prepared), s.env);
      if m.status == Refused then
        var gone := RemoveTree(s.disk, tx.stageRoot, s.env);
        if gone.status != Done then gone else Out(gone.disk, gone.env, Refused)
      else if m.status != Done then m
      else
        var a := Activate(m.disk, StagedOps(tx.ops, tx.stageRoot), 0, m.env);
        if a.status == IoFault then Abandon(a.disk, RecordOf(tx, Prepared), a.env)
        else if a.status != Done then a
        else
          var p := Publish(a.disk, tx, a.env);
          if p.status != Done then p else Finish(p.disk, RecordOf(tx, JournalWritten), p.env)
  }

  // ---------------------------------------------------------------- recovery

  predicate ValidOwner(owner: string) {
    owner != "" && '\0' !in owner
  }

  predicate EntryShape(e: Entry) {
    && ValidSkillName(e.skillName)
    && e.destination == Child(Root, e.skillName)
    && e.owners != []
    && (forall o :: o in e.owners ==> ValidOwner(o))
    && TreeFromKey(e.key) != ""
  }

  /** `validate_journal_shape`. */
  predicate JournalShape(j: Journal) {
    && (forall e :: e in j.entries ==> EntryShape(e))
    && (forall i, k :: 0 <= i < k < |j.entries| ==>
        j.entries[i].destination != j.entries[k].destination && j.entries[i].skillName != j.entries[k].skillName)
  }

  predicate Journaled(j: Journal, p: Path) {
    exists e :: e in j.entries && e.destination == p
  }

  predicate OperationShape(r: Record, o: Operation) {
    && TopLevel(o.destination)
    && (Journaled(r.oldJournal, o.destination) || Journaled(r.newJournal, o.destination))
    && (o.stage.Some? ==>
        o.stage.value.Child? && o.stage.value.parent == r.stageRoot && "member-" <= o.stage.value.name)
    && (o.backup.Some? ==> IsBackup(o.backup.value))
  }

  /** `validate_transaction_record`. */
  predicate ValidRecord(r: Record) {
    && r.version == 1
    && (r.oldLock.Some? <==> r.newLock.Some?)
    && (r.oldLock.Some? ==> r.locksOwn)
    && IsStage(r.stageRoot)
    && JournalShape(r.oldJournal)
    && JournalShape(r.newJournal)
    && (forall o :: o in r.operations ==> OperationShape(r, o))
  }

  /** `cleanup_orphan_stages`: `listing` is the order in which the root's entries are reported. */
  function DropOrphans(d: Disk, listing: seq<Path>, env: Env): Out
    decreases listing
  {
    if listing == [] then Out(d, env, Done)
    else if IsStage(listing[0]) && listing[0] in d.dirs then
      var o := RemoveTree(d, listing[0], env);
      if o.status != Done then o else DropOrphans(o.disk, listing[1..], o.env)
    else DropOrphans(d, listing[1..], env)
  }

  predicate LockIs(d: Disk, l: Option<LockFile>) {
    l.None? || ReadLock(d) == l.value
  }

  /** The only facts the recovery decision looks at; the recorded phase is not among them. */
  predicate Forward(d: Disk, r: Record) {
    ReadJournal(d) == r.newJournal && LockIs(d, r.newLock)
  }

  function RollBackward(d: Disk, r: Record, env: Env): Out {
    var o := Rollback(d, r, |r.operations|, env);
    if o.status != Done then o
    else
      var j := WriteJournal(o.disk, r.oldJournal, o.env);
      if j.status != Done then j
      else
        var l := WriteLock(j.disk, r.oldLock, j.env);
        if l.status != Done then l else RemoveMarker(l.disk, l.env)
  }

  /** No document lies where an entry of the journal says that a skill is. */
  predicate NoFileAt(d: Disk, j: Journal) {
    forall e :: e in j.entries ==> !IsFile(d, e.destination)
  }

  /** Both documents of a transaction can be read. */
  predicate CanRead(d: Disk, r: Record) {
    JOURNAL_PATH !in d.dirs && (r.newLock.Some? || r.oldLock.Some? ==> LockPath(d.home) !in d.dirs)
  }

  /** `recover_locked`. */
  function Recover(d: Disk, listing: seq<Path>, env: Env): Out {
    if MARKER_PATH in d.dirs then Out(d, env, Refused) else
    match d.marker
    case None => DropOrphans(d, listing, env)
    case Some(r) =>
      if !ValidRecord(r) || !NoFileAt(d, r.oldJournal) || !NoFileAt(d, r.newJournal) || !CanRead(d, r) then Out(d, env, Refused)
      else if Forward(d, r) then
        if JournalVerifies(d.dirs, r.newJournal) then Finish(d, r, env) else Out(d, env, Refused)
      else if ReadJournal(d) != r.oldJournal && ReadJournal(d) != r.newJournal then Out(d, env, Refused)
      else if !LockIs(d, r.oldLock) && !LockIs(d, r.newLock) then Out(d, env, Refused)
      else RollBackward(d, r, env)
  }
}
