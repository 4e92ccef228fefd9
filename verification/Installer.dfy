/**
 The installer as it runs: one object whose fields are the directories, the journal, the lockfile
 and the transaction marker, and methods that change them action by action. Each method is proved
 equal to the function that the safety theorems are about.
 */
module Installer {
  import opened Options
  import opened Lockfile
  import opened Order
  import opened Paths
  import opened SkillTree
  import opened BundleFormat
  import opened Transaction
  import opened Changes
  import opened Planning
  import opened Edits
  import opened Runs
  import Verdicts

  class LocalState {
    var dirs: map<Path, Tree>
    var journal: Option<Journal>
    var lock: Option<LockFile>
    var marker: Option<Record>
    const home: Home
    /** What is left of the power and of the luck with renames. */
    var env: Env

    constructor (d: Disk, e: Env)
      ensures State() == d && env == e
    {
      dirs, journal, lock, marker, env := d.dirs, d.journal, d.lock, d.marker, e;
      home := d.home;
    }

    function State(): Disk
      reads this
    {
      Disk(dirs, journal, lock, marker, home)
    }

    // -------------------------------------------------------------- single actions

    /** Take one unit of power; false when there is none. */
    method Spend() returns (alive: bool)
      modifies this`env
      ensures alive == (old(env).power > 0)
      ensures env == if alive then old(env).(power := old(env).power - 1) else old(env)
    {
      alive := env.power > 0;
      if alive { env := env.(power := env.power - 1); }
    }

    method RemoveDirectory(p: Path) returns (status: Status)
      modifies this
      ensures Out(State(), env, status) == RemoveTree(old(State()), p, old(env))
    {
      var alive := Spend();
      if !alive { return Crashed; }
      dirs := WithoutTree(dirs, p);
      return Done;
    }

    method RenameDirectory(from: Path, to: Path) returns (status: Status)
      modifies this
      ensures Out(State(), env, status) == Rename(old(State()), from, to, old(env))
    {
      if env.power == 0 { return Crashed; }
      if env.renames == 0 || from !in dirs || to in dirs { return IoFault; }
      dirs := MoveTree(dirs, from, to);
      env := Env(env.power - 1, env.renames - 1);
      return Done;
    }

    method StoreMarker(r: Record) returns (status: Status)
      modifies this
      ensures Out(State(), env, status) == WriteMarker(old(State()), r, old(env))
    {
      if MARKER_PATH in dirs { return Refused; }
      var alive := Spend();
      if !alive { return Crashed; }
      marker := Some(r);
      return Done;
    }

    method EraseMarker() returns (status: Status)
      modifies this
      ensures Out(State(), env, status) == RemoveMarker(old(State()), old(env))
    {
      var alive := Spend();
      if !alive { return Crashed; }
      marker := None;
      return Done;
    }

    method StoreJournal(j: Journal) returns (status: Status)
      modifies this
      ensures Out(State(), env, status) == WriteJournal(old(State()), j, old(env))
    {
      if JOURNAL_PATH in dirs { return Refused; }
      var alive := Spend();
      if !alive { return Crashed; }
      journal := Some(j);
      return Done;
    }

    method StoreLock(l: Option<LockFile>) returns (status: Status)
      modifies this
      ensures Out(State(), env, status) == WriteLock(old(State()), l, old(env))
    {
      if l.None? { return Done; }
      if LockPath(home) in dirs { return Refused; }
      var alive := Spend();
      if !alive { return Crashed; }
      lock := l;
      return Done;
    }

    // -------------------------------------------------------------- staging

    method ExtractInto(member: Path, files: Bundle) returns (status: Status)
      requires member in dirs
      modifies this
      ensures Out(State(), env, status) == StageFiles(old(State()), member, files, old(env))
    {
      var i := 0;
      while i < |files|
        invariant 0 <= i <= |files| && member in dirs
        invariant StageFiles(State(), member, files[i..], env) == StageFiles(old(State()), member, files, old(env))
      {
        var target := OnDisk(files[i].path);
        assert files[i..][1..] == files[i + 1..];
        if Blocked(dirs[member], target) { return Refused; }
        var alive := Spend();
        if !alive { return Crashed; }
        dirs := dirs[member := dirs[member][target := files[i].content]];
        i := i + 1;
      }
      return Done;
    }

    method StageAll(tx: Tx) returns (status: Status)
      modifies this
      ensures Out(State(), env, status) == StageOps(old(State()), tx, 0, old(env))
    {
      var i := 0;
      while i < |tx.ops|
        invariant 0 <= i <= |tx.ops|
        invariant StageOps(State(), tx, i, env) == StageOps(old(State()), tx, 0, old(env))
      {
        if tx.ops[i].kind == Replace {
          if tx.ops[i].bundle.None? { return Refused; }
          var member := Member(tx.stageRoot, i);
          var alive := Spend();
          if !alive { return Crashed; }
          dirs := dirs[member := map[]];
          status := ExtractInto(member, tx.ops[i].bundle.value);
          if status != Done { return; }
        }
        i := i + 1;
      }
      return Done;
    }

    method PrepareStage(tx: Tx) returns (status: Status)
      modifies this
      ensures Out(State(), env, status) == Stage(old(State()), tx, old(env))
    {
      if tx.stageRoot in dirs { return Refused; }
      var alive := Spend();
      if !alive { return Crashed; }
      dirs := dirs[tx.stageRoot := map[]];
      status := StageAll(tx);
      if status == Done || status == Crashed { return; }
      status := RemoveDirectory(tx.stageRoot);
      if status == Done { return Refused; }
    }

    // -------------------------------------------------------------- activation

    /** `activate_operations`: set aside, then move in, in operation order. */
    method ActivateOperations(ops: seq<Operation>) returns (status: Status)
      modifies this
      ensures Out(State(), env, status) == Activate(old(State()), ops, 0, old(env))
    {
      var i := 0;
      while i < |ops|
        invariant 0 <= i <= |ops|
        invariant Activate(State(), ops, i, env) == Activate(old(State()), ops, 0, old(env))
      {
        var o := ops[i];
        if o.kind != Metadata {
          if IsFile(State(), o.destination) { return IoFault; }
          if o.backup.Some? {
            if o.destination in dirs {
              status := RenameDirectory(o.destination, o.backup.value);
              if status != Done { return; }
            }
          } else if o.kind == Remove {
            return IoFault;
          }
          if o.kind == Replace {
            if o.stage.None? { return IoFault; }
            status := RenameDirectory(o.stage.value, o.destination);
            if status != Done { return; }
          }
        }
        i := i + 1;
      }
      return Done;
    }

    // -------------------------------------------------------------- rollback

    method UndoOperation(o: Operation, newJournal: Journal) returns (status: Status)
      modifies this
      ensures Out(State(), env, status) == RollbackOne(old(State()), o, newJournal, old(env))
    {
      if o.kind == Metadata { return Done; }
      if o.backup.Some? {
        if o.backup.value !in dirs { return Done; }
        if IsFile(State(), o.destination) { return Refused; }
        if o.destination in dirs {
          if DestinationMatches(dirs, o.destination, newJournal) != Matches { return Refused; }
          status := RemoveDirectory(o.destination);
          if status != Done { return; }
          if o.backup.value !in dirs { return Refused; }
        }
        var alive := Spend();
        if !alive { return Crashed; }
        dirs := MoveTree(dirs, o.backup.value, o.destination);
        return Done;
      }
      if o.kind == Replace && IsFile(State(), o.destination) { return Refused; }
      if o.kind == Replace && o.destination in dirs {
        match DestinationMatches(dirs, o.destination, newJournal) {
          case Matches => status := RemoveDirectory(o.destination); return;
          case Differs => return Done;
          case Unreadable => return Refused;
        }
      }
      return Done;
    }

    /** `rollback_transaction`: the operations in reverse, then the stage. */
    method RollbackTransaction(r: Record) returns (status: Status)
      modifies this
      ensures Out(State(), env, status) == Rollback(old(State()), r, |r.operations|, old(env))
    {
      var n := |r.operations|;
      while n > 0
        invariant 0 <= n <= |r.operations|
        invariant Rollback(State(), r, n, env) == Rollback(old(State()), r, |r.operations|, old(env))
      {
        status := UndoOperation(r.operations[n - 1], r.newJournal);
        if status != Done { return; }
        n := n - 1;
      }
      status := DiscardStage(r);
    }

    method DiscardStage(r: Record) returns (status: Status)
      modifies this
      ensures Out(State(), env, status) == DropStage(old(State()), r, old(env))
    {
      if r.stageRoot !in dirs { return Done; }
      status := RemoveDirectory(r.stageRoot);
    }

    // -------------------------------------------------------------- cleanup and commit

    method DiscardBackups(ops: seq<Operation>) returns (status: Status)
      modifies this
      ensures Out(State(), env, status) == DropBackups(old(State()), ops, 0, old(env))
    {
      var i := 0;
      while i < |ops|
        invariant 0 <= i <= |ops|
        invariant DropBackups(State(), ops, i, env) == DropBackups(old(State()), ops, 0, old(env))
      {
        if !ops[i].retainBackup && ops[i].backup.Some? && ops[i].backup.value in dirs {
          status := RemoveDirectory(ops[i].backup.value);
          if status != Done { return; }
        }
        i := i + 1;
      }
      return Done;
    }

    /** `cleanup_transaction_artifacts`, then the marker. */
    method FinishTransaction(r: Record) returns (status: Status)
      modifies this
      ensures Out(State(), env, status) == Finish(old(State()), r, old(env))
    {
      status := DiscardStage(r);
      if status != Done { return; }
      status := DiscardBackups(r.operations);
      if status != Done { return; }
      status := EraseMarker();
    }

    /** `commit_transaction`. */
    method CommitTransaction(tx: Tx) returns (status: Status)
      modifies this
      ensures Out(State(), env, status) == Commit(old(State()), tx, old(env))
    {
      status := PrepareStage(tx);
      if status != Done { return; }
      var record := RecordOf(tx, Prepared);
      status := StoreMarker(record);
      if status == Refused {
        status := RemoveDirectory(tx.stageRoot);
        if status == Done { status := Refused; }
        return;
      }
      if status != Done { return; }
      status := ActivateOperations(record.operations);
      if status == IoFault {
        status := RollbackTransaction(record);
        if status != Done { return; }
        status := EraseMarker();
        if status == Done { status := IoFault; }
        return;
      }
      if status != Done { return; }
      status := StoreMarker(record.(phase := Activated));
      if status != Done { return; }
      status := StoreJournal(tx.newJournal);
      if status != Done { return; }
      status := StoreLock(tx.newLock);
      if status != Done { return; }
      status := StoreMarker(record.(phase := JournalWritten));
      if status != Done { return; }
      status := FinishTransaction(record.(phase := JournalWritten));
    }

    // -------------------------------------------------------------- recovery

    method DiscardOrphans(listing: seq<Path>) returns (status: Status)
      modifies this
      ensures Out(State(), env, status) == DropOrphans(old(State()), listing, old(env))
    {
      var i := 0;
      while i < |listing|
        invariant 0 <= i <= |listing|
        invariant DropOrphans(State(), listing[i..], env) == DropOrphans(old(State()), listing, old(env))
      {
        assert listing[i..][1..] == listing[i + 1..];
        if IsStage(listing[i]) && listing[i] in dirs {
          status := RemoveDirectory(listing[i]);
          if status != Done { return; }
        }
        i := i + 1;
      }
      return Done;
    }

    /** `recover_locked`. */
    method RecoverLocked(listing: seq<Path>) returns (status: Status)
      modifies this
      ensures Out(State(), env, status) == Recover(old(State()), listing, old(env))
    {
      if MARKER_PATH in dirs { return Refused; }
      if marker.None? {
        status := DiscardOrphans(listing);
        return;
      }
      var record := marker.value;
      if !ValidRecord(record) || !NoFileAt(State(), record.oldJournal) || !NoFileAt(State(), record.newJournal) {
        return Refused;
      }
      if !CanRead(State(), record) { return Refused; }
      var current := ReadJournal(State());
      var journalIsNew := current == record.newJournal;
      var journalIsOld := current == record.oldJournal;
      var lockIsNew := LockIs(State(), record.newLock);
      var lockIsOld := LockIs(State(), record.oldLock);
      if journalIsNew && lockIsNew {
        if !JournalVerifies(dirs, record.newJournal) { return Refused; }
        status := FinishTransaction(record);
        return;
      }
      if !journalIsOld && !journalIsNew { return Refused; }
      if !lockIsOld && !lockIsNew { return Refused; }
      status := RollbackTransaction(record);
      if status != Done { return; }
      status := StoreJournal(record.oldJournal);
      if status != Done { return; }
      status := StoreLock(record.oldLock);
      if status != Done { return; }
      status := EraseMarker();
    }

    // -------------------------------------------------------------- the public calls

    /** Preflight of a batch: valid plans at distinct destinations. */
    method PlansAreValid(plans: seq<Plan>) returns (ok: bool)
      ensures ok <==> PlansValid(plans)
    {
      hide ValidSkillName, ValidOwner, Accepted, BundleDigest;
      var seen: set<string> := {};
      var i := 0;
      while i < |plans|
        invariant 0 <= i <= |plans|
        invariant forall k :: 0 <= k < i ==> PlanValid(plans[k])
        invariant forall n :: n in seen <==> exists k :: 0 <= k < i && plans[k].skillName == n
        invariant forall k, l :: 0 <= k < l < i ==> plans[k].skillName != plans[l].skillName
      {
        var plan := plans[i];
        assert plan in plans;
        var bundle := ValidateBundle(plan.bundle);
        if !ValidSkillName(plan.skillName) || !ValidOwner(plan.owner) || bundle.Invalid?
           || plan.artifactDigest != BundleDigest(plan.bundle) {
          assert !PlanValid(plan);
          return false;
        }
        if plan.skillName in seen { return false; }
        seen := seen + {plan.skillName};
        i := i + 1;
      }
      return true;
    }

    /** `prepare_lock_change`. */
    method LockChangeAllowed(expected: Option<LockFile>, newLock: Option<LockFile>) returns (ok: bool)
      ensures ok <==>
        && (expected.Some? <==> newLock.Some?)
        && (expected.Some? ==> LockPath(home) !in dirs && expected.value == ReadLock(State()))
    {
      if expected.None? && newLock.None? { return true; }
      if expected.None? || newLock.None? { return false; }
      return LockPath(home) !in dirs && ReadLock(State()) == expected.value;
    }

    /** `install_many_with_lock`: recover, preflight every plan, then commit all of them or none. */
    method InstallMany(plans: seq<Plan>, expected: Option<LockFile>, newLock: Option<LockFile>, dryRun: bool,
                       alloc: Alloc, listing: seq<Path>)
      returns (status: Status)
      modifies this
      ensures Out(State(), env, status) ==
        Perform(old(State()), Event(Install(plans), expected, newLock, dryRun, alloc, listing, old(env)))
    {
      hide Recover, Commit, JournalShape, PlanValid, Decide, JournalOf, Edited, Placed;
      status := RecoverLocked(listing);
      if status != Done { return; }
      var allowed := LockChangeAllowed(expected, newLock);
      if !allowed || !JournalAccepted(State()) { return Refused; }
      if plans == [] { return Done; }
      var valid := PlansAreValid(plans);
      if !valid { return Refused; }
      var accepted, tx := PlanInstall(plans, expected, newLock, alloc);
      if !accepted { return Refused; }
      if dryRun || (tx.ops == [] && newLock.None?) { return Done; }
      status := CommitTransaction(tx);
    }

    /** The planning loop of an install: entries are replaced or appended in place. */
    method PlanInstall(plans: seq<Plan>, expected: Option<LockFile>, newLock: Option<LockFile>, alloc: Alloc)
      returns (accepted: bool, tx: Tx)
      requires PlansValid(plans) && JournalShape(ReadJournal(State()))
      ensures accepted <==> NoConflict(State(), alloc, plans)
      ensures accepted <==> forall p :: p in plans ==> Verdicts.Installable(State(), alloc, p)
      ensures accepted ==> tx == TxOf(State(), InstallChanges(State(), alloc, plans), alloc.stage, expected, newLock)
      ensures accepted ==> (tx.ops == [] <==> InstallChanges(State(), alloc, plans) == [])
    {
      hide JournalShape, PlanValid, Decide, JournalOf, Edited, Placed, Edit, Verdicts.Installable;
      var d := State();
      Verdicts.BatchAcceptedIff(d, alloc, plans);
      var entries := ReadJournal(d).entries;
      var ops: seq<Operation> := [];
      var i := 0;
      tx := Tx(ReadJournal(d), ReadJournal(d), [], alloc.stage, None, None);
      assert plans[..0] == [];
      ShapeIsDistinctTop(ReadJournal(d));
      EditedNothing(entries);
      PlacedNothing();
      while i < |plans|
        invariant 0 <= i <= |plans|
        invariant forall k :: 0 <= k < i ==> Decide(d, alloc, plans[k]) != Refusal
        invariant ops == OpsOf(InstallChanges(d, alloc, plans[..i]))
        invariant Placed(InstallChanges(d, alloc, plans[..i]))
        invariant Edited(ReadJournal(d).entries, InstallChanges(d, alloc, plans[..i]), entries)
      {
        match Decide(d, alloc, plans[i]) {
          case Refusal =>
            assert plans[i] in plans;
            return false, tx;
          case Unchanged =>
            assert plans[..i + 1] == plans[..i] + [plans[i]];
            InstallChangesExtend(d, alloc, plans[..i], plans[i]);
            assert InstallChanges(d, alloc, plans[..i + 1]) == InstallChanges(d, alloc, plans[..i]);
          case Changing(c) =>
            InstallLoopStep(d, alloc, plans, i, entries);
            entries := Edit(entries, c);
            ops := ops + [c.op];
        }
        i := i + 1;
      }
      assert plans[..|plans|] == plans;
      EditedJournal(ReadJournal(d).entries, InstallChanges(d, alloc, plans), entries);
      tx := Tx(ReadJournal(d), JournalOf(entries), SortBy(ops, OperationOrder), alloc.stage, expected, newLock);
      accepted := true;
    }

    /** The planning loop of a removal. */
    method PlanRemoval(owner: string, es: seq<Entry>, expected: Option<LockFile>, newLock: Option<LockFile>, alloc: Alloc)
      returns (accepted: bool, tx: Tx)
      requires DistinctTop(es) && DistinctTop(ReadJournal(State()).entries)
      ensures accepted <==> NoRemovalConflict(State(), alloc, owner, es)
      ensures accepted <==> forall e :: e in es ==> Verdicts.Releasable(State(), alloc, owner, e)
      ensures accepted ==>
        tx == TxOf(State(), RemovalChanges(State(), alloc, owner, es), alloc.stage, expected, newLock)
      ensures accepted ==> (tx.ops == [] <==> RemovalChanges(State(), alloc, owner, es) == [])
    {
      hide DecideRemoval, JournalOf, Edited, Placed, Edit, Verdicts.Releasable;
      var d := State();
      Verdicts.RemovalAcceptedIff(d, alloc, owner, es);
      var entries := ReadJournal(d).entries;
      var ops: seq<Operation> := [];
      var i := 0;
      tx := Tx(ReadJournal(d), ReadJournal(d), [], alloc.stage, None, None);
      assert es[..0] == [];
      EditedNothing(entries);
      PlacedNothing();
      while i < |es|
        invariant 0 <= i <= |es|
        invariant forall k :: 0 <= k < i ==> DecideRemoval(d, alloc, owner, es[k]) != Refusal
        invariant ops == OpsOf(RemovalChanges(d, alloc, owner, es[..i]))
        invariant Placed(RemovalChanges(d, alloc, owner, es[..i]))
        invariant Edited(ReadJournal(d).entries, RemovalChanges(d, alloc, owner, es[..i]), entries)
      {
        match DecideRemoval(d, alloc, owner, es[i]) {
          case Refusal =>
            assert es[i] in es;
            return false, tx;
          case Unchanged =>
            assert es[..i + 1] == es[..i] + [es[i]];
            RemovalChangesExtend(d, alloc, owner, es[..i], es[i]);
            assert RemovalChanges(d, alloc, owner, es[..i + 1]) == RemovalChanges(d, alloc, owner, es[..i]);
          case Changing(c) =>
            RemovalLoopStep(d, alloc, owner, es, i, entries);
            entries := Edit(entries, c);
            ops := ops + [c.op];
        }
        i := i + 1;
      }
      assert es[..|es|] == es;
      EditedJournal(ReadJournal(d).entries, RemovalChanges(d, alloc, owner, es), entries);
      tx := Tx(ReadJournal(d), JournalOf(entries), SortBy(ops, OperationOrder), alloc.stage, expected, newLock);
      accepted := true;
    }

    /** `remove_owner_with_lock`. */
    method RemoveOwner(owner: string, names: seq<string>, expected: Option<LockFile>, newLock: Option<LockFile>,
                       dryRun: bool, alloc: Alloc, listing: seq<Path>)
      returns (status: Status)
      modifies this
      ensures Out(State(), env, status) ==
        Perform(old(State()), Event(Removal(owner, names), expected, newLock, dryRun, alloc, listing, old(env)))
    {
      hide Recover, Commit, JournalShape, DecideRemoval, JournalOf, DistinctTop, Selected;
      if !ValidOwner(owner) { return Refused; }
      status := RecoverLocked(listing);
      if status != Done { return; }
      var allowed := LockChangeAllowed(expected, newLock);
      if !allowed || !JournalAccepted(State()) { return Refused; }
      var selected := Selected(ReadJournal(State()), owner, names);
      if selected.None? { return Refused; }
      ShapeIsDistinctTop(ReadJournal(State()));
      SelectedIsDistinct(ReadJournal(State()), owner, names);
      var accepted, tx := PlanRemoval(owner, selected.value, expected, newLock, alloc);
      if !accepted { return Refused; }
      if dryRun || (tx.ops == [] && newLock.None?) { return Done; }
      status := CommitTransaction(tx);
    }
  }

  lemma PlacedNothing()
    ensures Placed([])
  {
  }
}
