/** Progress: with enough power and no failing rename, what was asked for is done. */
module Progress {
  import opened Options
  import opened Lockfile
  import opened Order
  import opened Paths
  import opened SkillTree
  import opened Transaction
  import opened CrashSafety
  import opened RecoverySafety
  import opened CommitSafety
  import opened Changes
  import opened Planning
  import opened Runs

  lemma {:induction false} StageFilesCost(d: Disk, member: Path, files: Bundle, env: Env)
    requires member in d.dirs && env.power >= |files|
    ensures
      var o := StageFiles(d, member, files, env);
      o.status != Crashed && o.env.power >= env.power - |files| && o.env.renames == env.renames
    decreases files
  {
    hide Blocked, OnDisk;
    if files != [] && !Blocked(d.dirs[member], OnDisk(files[0].path)) {
      var o := Durable(d, d.(dirs := d.dirs[member := d.dirs[member][OnDisk(files[0].path) := files[0].content]]), env);
      StageFilesCost(o.disk, member, files[1..], o.env);
    }
  }

  /** Actions needed to stage the operations from `i` on: a directory each, and one per file. */
  function StageWork(ops: seq<Operation>, i: nat): nat
    requires i <= |ops|
    decreases |ops| - i
  {
    if i == |ops| then 0
    else (if ops[i].kind == Replace && ops[i].bundle.Some? then 1 + |ops[i].bundle.value| else 0) + StageWork(ops, i + 1)
  }

  lemma {:induction false} StageOpsCost(d: Disk, tx: Tx, i: nat, env: Env)
    requires i <= |tx.ops| && env.power >= StageWork(tx.ops, i)
    ensures
      var o := StageOps(d, tx, i, env);
      o.status != Crashed && o.env.power >= env.power - StageWork(tx.ops, i) && o.env.renames == env.renames
    decreases |tx.ops| - i
  {
    hide StageFiles;
    if i < |tx.ops| {
      if tx.ops[i].kind == Replace && tx.ops[i].bundle.Some? {
        var member := Member(tx.stageRoot, i);
        var o := Durable(d, d.(dirs := d.dirs[member := map[]]), env);
        StageFilesCost(o.disk, member, tx.ops[i].bundle.value, o.env);
        var e := StageFiles(o.disk, member, tx.ops[i].bundle.value, o.env);
        if e.status == Done { StageOpsCost(e.disk, tx, i + 1, e.env); }
      } else if tx.ops[i].kind != Replace {
        StageOpsCost(d, tx, i + 1, env);
      }
    }
  }

  /** The number of durable actions that is enough for a commit. */
  function Work(tx: Tx): nat {
    StageWork(tx.ops, 0) + 3 * |tx.ops| + 9
  }

  lemma StageSucceeds(base: Disk, tx: Tx, env: Env)
    requires TxFits(base, tx) && Stageable(tx.ops) && env.power >= StageWork(tx.ops, 0) + 2
    ensures
      var o := Stage(base, tx, env);
      && o.status == Done
      && Staging(base, tx, o.disk) && MembersReady(tx, |tx.ops|, o.disk.dirs)
      && o.env.power >= env.power - StageWork(tx.ops, 0) - 1 && o.env.renames == env.renames
  {
    hide StageOps, OpsOk, JournalsOk, DocumentsOk, Stageable, JournalVerifies, StageWork, Staging, MembersReady;
    StageIsSafe(base, tx, env);
    var made := Durable(base, base.(dirs := base.dirs[tx.stageRoot := map[]]), env);
    StageOpsCost(made.disk, tx, 0, made.env);
  }

  lemma FinishSucceeds(d: Disk, r: Record, env: Env)
    requires env.power >= |r.operations| + 2
    ensures Finish(d, r, env).status == Done
  {
    hide DropBackups;
    var o := DropStage(d, r, env);
    DropBackupsCost(o.disk, r.operations, 0, o.env);
  }

  lemma PublishCost(d: Disk, tx: Tx, env: Env)
    requires env.power >= 4
    ensures Publish(d, tx, env).status != Crashed && Publish(d, tx, env).env.power >= env.power - 4
  {
  }

  /** A commit with enough power and renames reaches the intended disk. */
  lemma CommitSucceeds(base: Disk, tx: Tx, env: Env)
    requires TxFits(base, tx) && Stageable(tx.ops)
    requires env.power >= Work(tx) && env.renames >= 2 * |tx.ops|
    ensures Commit(base, tx, env).status == Done
    ensures Alike(Commit(base, tx, env).disk, NewDisk(base, tx))
  {
    hide Stage, Activate, Publish, Finish, Abandon, OpsOk, JournalsOk, DocumentsOk, Stageable, JournalVerifies, OwnStage, MembersReady,
      Activating, Undoing, StageWork, NewDisk, Interrupted, Bracketed, AfterOps, StateName;
    StageSucceeds(base, tx, env);
    var s := Stage(base, tx, env);
    StagedIsActivating(base, tx, s.disk);
    UnmarkedIsFree(base, s.disk);
    var m := WriteMarker(s.disk, RecordOf(tx, Prepared), s.env);
    ActivateIsSafe(base, tx, m.disk, 0, m.env);
    var a := Activate(m.disk, StagedOps(tx.ops, tx.stageRoot), 0, m.env);
    CommitTail(base, tx, a.disk, a.env);
    PublishCost(a.disk, tx, a.env);
    var p := Publish(a.disk, tx, a.env);
    FinishSucceeds(p.disk, RecordOf(tx, JournalWritten), p.env);
  }

  lemma OkTxFits(base: Disk, tx: Tx)
    requires TxOk(base, tx)
    ensures TxFits(base, tx)
  {
  }

  /**
   A call that asks for a transaction on the installation behind the disk, with enough power and no
   failing rename, recovers, commits and reports success; the disk then holds the new installation.
   */
  lemma CallSucceeds(l: Disk, d: Disk, ev: Event)
    requires Represents(l, d) && EventOk(ev) && Lists(ev.listing, d.dirs)
    requires TxFor(l, ev).Some? && Stageable(TxFor(l, ev).value.ops)
    requires ev.request.Removal? ==> ValidOwner(ev.request.owner)
    requires ev.env.power >= Enough(d, ev.listing) + Work(TxFor(l, ev).value)
    requires ev.env.renames >= 2 * |TxFor(l, ev).value.ops|
    ensures Perform(d, ev).status == Done
    ensures Alike(Perform(d, ev).disk, NewDisk(l, TxFor(l, ev).value))
  {
    hide Recover, TxOk, TxFits, Sound, Interrupted, Target, EventOk, Lists, Enough, Work, Stageable, Commit, NewDisk, ChangesFor, JournalAccepted;
    var base, tx :| Explains(base, tx, d) && Alike(Target(base, tx, d), l);
    RecoverIsSafe(base, tx, d, ev.listing, ev.env);
    RecoveryFinishes(d, ev.listing, ev.env);
    RecoverKeepsInstallation(l, d, ev.listing, ev.env);
    var r := Recover(d, ev.listing, ev.env);
    SoundIsObserved(l, r.disk);
    AlikeSameChanges(r.disk, l, ev);
    TxForIsOk(r.disk, ev);
    OkTxFits(r.disk, TxFor(l, ev).value);
    SoundJournal(r.disk);
    CommitSucceeds(r.disk, TxFor(l, ev).value, r.env);
    AlikeNewDisk(r.disk, l, TxFor(l, ev).value);
  }

  // ---------------------------------------------------------------- a first installation

  /** An empty root, with the lockfile at one place or another. */
  function Fresh(h: Home): Disk {
    Disk(map[], None, None, None, h)
  }

  /** The empty installation is settled, so every theorem about runs has a start. */
  lemma FreshIsSettled(h: Home)
    ensures Sound(Fresh(h)) && Represents(Fresh(h), Fresh(h))
  {
    SoundRepresentsItself(Fresh(h), Fresh(h));
  }

  lemma FirstChange(p: Plan, stage: Path, h: Home) returns (c: Change)
    requires Destination(p.skillName) != MUTEX_PATH
    ensures InstallChanges(Fresh(h), Alloc(stage, map[]), [p]) == [c]
    ensures NoConflict(Fresh(h), Alloc(stage, map[]), [p])
    ensures c.op == Operation(Destination(p.skillName), None, None, Replace, false, Some(p.bundle))
    ensures c.entry == Some(BuildEntry(p))
  {
    hide BuildEntry;
    c := Change(Some(BuildEntry(p)), Operation(Destination(p.skillName), None, None, Replace, false, Some(p.bundle)));
    var a := Alloc(stage, map[]);
    assert Decide(Fresh(h), a, p) == Changing(c);
    assert [p][1..] == [] && InstallChanges(Fresh(h), a, [p][1..]) == [];
  }

  lemma OneOperation(c: Change)
    ensures SortBy(OpsOf([c]), OperationOrder) == [c.op]
  {
    var one := OpsOf([c]);
    assert one == [c.op] && one[1..] == [];
    assert SortBy(one[1..], OperationOrder) == [];
  }

  /** What a commit of one new skill writes, whatever its name and its files. */
  ghost predicate OneNewSkill(tx: Tx, o: Operation) {
    && tx.ops == [o] && IsStage(tx.stageRoot)
    && o.kind == Replace && o.stage.None? && o.backup.None? && o.bundle.Some?
    && TopLevel(o.destination) && o.destination != tx.stageRoot
    && Extract(map[], o.bundle.value).Extracted?
  }

  lemma StageOne(h: Home, tx: Tx, o: Operation, env: Env)
    requires OneNewSkill(tx, o) && env.power >= |o.bundle.value| + 2
    ensures
      var r := Stage(Fresh(h), tx, env);
      && r.status == Done
      && r.disk == Fresh(h).(dirs := map[tx.stageRoot := map[], Member(tx.stageRoot, 0) := NewTree(o)])
      && r.env.power >= env.power - |o.bundle.value| - 2 && r.env.renames == env.renames
  {
    hide StageFiles, Extract;
    var stage, member, b, d0 := tx.stageRoot, Member(tx.stageRoot, 0), o.bundle.value, Fresh(h);
    var made := Durable(d0, d0.(dirs := d0.dirs[stage := map[]]), env);
    var d := made.disk.(dirs := made.disk.dirs[member := map[]]);
    var e0 := made.env.(power := made.env.power - 1);
    StageFilesExtracts(d, member, b, e0);
    StageFilesCost(d, member, b, e0);
    var e := StageFiles(d, member, b, e0);
    assert StageOps(e.disk, tx, 1, e.env) == Out(e.disk, e.env, Done);
    assert StageOps(made.disk, tx, 0, made.env) == e;
    assert e.disk.dirs == map[stage := map[], member := NewTree(o)];
  }

  /** The disk once the stage is filled and the marker written. */
  function StagedDisk(h: Home, tx: Tx, o: Operation): Disk {
    Fresh(h).(dirs := map[tx.stageRoot := map[], Member(tx.stageRoot, 0) := NewTree(o)], marker := Some(RecordOf(tx, Prepared)))
  }

  /** The disk once the new directory is in place and the marker says so. */
  function ActivatedDisk(h: Home, tx: Tx, o: Operation): Disk {
    Fresh(h).(dirs := map[tx.stageRoot := map[], o.destination := NewTree(o)], marker := Some(RecordOf(tx, Activated)))
  }

  lemma PrepareOne(h: Home, tx: Tx, o: Operation, env: Env) returns (e: Env)
    requires OneNewSkill(tx, o) && env.power >= |o.bundle.value| + 10
    ensures e.power >= env.power - |o.bundle.value| - 3 && e.renames == env.renames
    ensures
      var s := Stage(Fresh(h), tx, env);
      s.status == Done && WriteMarker(s.disk, RecordOf(tx, Prepared), s.env) == Out(StagedDisk(h, tx, o), e, Done)
  {
    hide Stage, NewTree, Extract, OneNewSkill;
    StageOne(h, tx, o, env);
    MarkerIsNoStage(tx, o);
    var s := Stage(Fresh(h), tx, env);
    e := s.env.(power := s.env.power - 1);
  }

  lemma MarkerIsNoStage(tx: Tx, o: Operation)
    requires OneNewSkill(tx, o)
    ensures tx.stageRoot != MARKER_PATH && tx.stageRoot != JOURNAL_PATH && forall h :: LockPath(h) != tx.stageRoot
    ensures Member(tx.stageRoot, 0).parent == tx.stageRoot && tx.stageRoot != Root
    ensures forall h :: LockPath(h) != Member(tx.stageRoot, 0)
  {
    hide Extract;
    KindsAreApart(tx.stageRoot);
  }

  /** Activation puts the directory in place unless a document lies there. */
  lemma ActivateOneNew(h: Home, tx: Tx, o: Operation, env: Env)
    requires OneNewSkill(tx, o) && env.power >= 7 && env.renames >= 1 && !IsFile(StagedDisk(h, tx, o), o.destination)
    ensures
      var a := Activate(StagedDisk(h, tx, o), StagedOps(tx.ops, tx.stageRoot), 0, env);
      && a.status == Done && a.env.power == env.power - 1
      && a.disk == StagedDisk(h, tx, o).(dirs := ActivatedDisk(h, tx, o).dirs)
  {
    hide NewTree, Extract, IsFile;
    var stage, member, dest, d := tx.stageRoot, Member(tx.stageRoot, 0), o.destination, StagedDisk(h, tx, o);
    var staged := StagedOps(tx.ops, stage);
    assert staged == [StagedOp(o, stage, 0)];
    var a := ActivateOne(d, staged[0], env);
    assert a.status == Done;
    assert a.disk.dirs == map[stage := map[], dest := NewTree(o)];
    assert Activate(a.disk, staged, 1, a.env) == a;
  }

  /** The disk that holds one skill and what its transaction wrote. */
  function FinishedDisk(h: Home, tx: Tx, o: Operation): Disk {
    Disk(map[o.destination := NewTree(o)], Some(tx.newJournal), tx.newLock, None, h)
  }

  /** Names at which the documents of a first transaction are written. */
  ghost predicate InTheWay(h: Home, tx: Tx, p: Path) {
    p == MUTEX_PATH || p == MARKER_PATH || p == JOURNAL_PATH || (tx.newLock.Some? && p == LockPath(h))
  }

  /** A commit of one new skill succeeds when its directory is not in the way of a document. */
  lemma CommitOne(h: Home, tx: Tx, o: Operation, env: Env)
    requires OneNewSkill(tx, o) && env.power >= |o.bundle.value| + 10 && env.renames >= 1 && !InTheWay(h, tx, o.destination)
    ensures Commit(Fresh(h), tx, env).status == Done && Commit(Fresh(h), tx, env).disk == FinishedDisk(h, tx, o)
  {
    hide Stage, NewTree, Extract, Activate;
    var e := PrepareOne(h, tx, o, env);
    ActivateOneNew(h, tx, o, e);
    MarkerIsNoStage(tx, o);
    var staged := StagedOps(tx.ops, tx.stageRoot);
    assert staged == [StagedOp(o, tx.stageRoot, 0)];
    var a := Activate(StagedDisk(h, tx, o), staged, 0, e);
    var p := Publish(a.disk, tx, a.env);
    assert p.status == Done;
    assert p.disk == a.disk.(marker := Some(RecordOf(tx, JournalWritten)), journal := Some(tx.newJournal), lock := tx.newLock);
    var f := DropStage(p.disk, RecordOf(tx, JournalWritten), p.env);
    assert f.disk.dirs == map[o.destination := NewTree(o)];
    assert DropBackups(f.disk, staged, 1, f.env) == Out(f.disk, f.env, Done);
    assert DropBackups(f.disk, staged, 0, f.env) == Out(f.disk, f.env, Done);
  }

  /** A first request to install one skill, with or without a lockfile to write. */
  function FirstEvent(p: Plan, stage: Path, power: nat, lock: Option<LockFile>): Event {
    Event(Install([p]), if lock.Some? then Some(EMPTY_LOCK) else None, lock, false, Alloc(stage, map[]), [], Env(power, 2))
  }

  function FirstTx(p: Plan, stage: Path, lock: Option<LockFile>): Tx {
    Tx(Journal(1, []), JournalOf([BuildEntry(p)]),
       [Operation(Destination(p.skillName), None, None, Replace, false, Some(p.bundle))], stage,
       if lock.Some? then Some(EMPTY_LOCK) else None, lock)
  }

  ghost predicate FirstOk(p: Plan, stage: Path, power: nat) {
    && PlanValid(p) && Extract(map[], p.bundle).Extracted?
    && IsStage(stage) && Destination(p.skillName) != stage && power >= |p.bundle| + 20
  }

  /** A first request commits its transaction, unless the name is that of the mutex file. */
  lemma FirstCallCommits(h: Home, p: Plan, stage: Path, power: nat, lock: Option<LockFile>)
    requires FirstOk(p, stage, power) && Destination(p.skillName) != MUTEX_PATH
    ensures Perform(Fresh(h), FirstEvent(p, stage, power, lock)) == Commit(Fresh(h), FirstTx(p, stage, lock), Env(power, 2))
    ensures OneNewSkill(FirstTx(p, stage, lock), FirstTx(p, stage, lock).ops[0])
  {
    hide Decide, InstallChanges, NoConflict, JournalOf, SortBy, OpsOf, Extract, PlanValid, Commit, Recover, BuildEntry, StateName;
    var d, ev := Fresh(h), FirstEvent(p, stage, power, lock);
    var c := FirstChange(p, stage, h);
    OneOperation(c);
    assert PlansValid([p]);
    var tx := TxOf(d, [c], stage, ev.expected, lock);
    assert tx.newJournal == JournalOf([BuildEntry(p)]) by { FirstJournal(h, BuildEntry(p), c); }
    assert tx == FirstTx(p, stage, lock);
    assert Recover(d, [], ev.env) == Out(d, ev.env, Done) by { FreshRecovers(h, ev.env); }
    assert JournalAccepted(d) && LockAccepted(d, ev);
    assert Proceed(d, ev, ev.env) == Commit(d, tx, ev.env);
  }

  /** The disk that holds one skill and its journal entry. */
  function OneSkill(h: Home, p: Plan, lock: Option<LockFile>): Disk
    requires Extract(map[], p.bundle).Extracted?
  {
    Disk(map[Destination(p.skillName) := Extract(map[], p.bundle).tree], Some(JournalOf([BuildEntry(p)])), lock, None, h)
  }

  /**
   Any valid, extractable plan can be installed first, whatever its name and paths, unless its directory
   would be in the way of a document: the call reports success, and its extracted files, its entry and
   the lockfile are then on disk.
   */
  lemma FirstInstall(h: Home, p: Plan, stage: Path, power: nat, lock: Option<LockFile>)
    requires FirstOk(p, stage, power) && !InTheWay(h, FirstTx(p, stage, lock), Destination(p.skillName))
    ensures Perform(Fresh(h), FirstEvent(p, stage, power, lock)).status == Done
    ensures Perform(Fresh(h), FirstEvent(p, stage, power, lock)).disk == OneSkill(h, p, lock)
  {
    hide JournalOf, Extract, PlanValid, Commit, Perform, BuildEntry, StateName;
    FirstCallCommits(h, p, stage, power, lock);
    var tx := FirstTx(p, stage, lock);
    CommitOne(h, tx, tx.ops[0], Env(power, 2));
  }

  lemma FreshRecovers(h: Home, env: Env)
    ensures Recover(Fresh(h), [], env) == Out(Fresh(h), env, Done)
  {
  }

  lemma FirstJournal(h: Home, e: Entry, c: Change)
    requires c.entry == Some(e)
    ensures Survivors(ReadJournal(Fresh(h)).entries, [c]) + Additions([c]) == [e]
  {
    assert [c][1..] == [] && Additions([c][1..]) == [];
    assert Additions([c]) == [e];
  }
}
