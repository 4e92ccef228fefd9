/**
 Recovery from any interrupted disk: it never refuses, it ends at the target fixed by journal and
 lock, and crashing it changes nothing but how much of it is left to do.
 */
module RecoverySafety {
  import opened Options
  import opened Lockfile
  import opened Paths
  import opened SkillTree
  import opened Transaction
  import opened CrashSafety

  // ---------------------------------------------------------------- local changes

  ghost predicate OnlyAt(o: Operation, before: Dirs, after: Dirs) {
    forall x :: x != o.destination && o.backup != Some(x) ==> Same(after, before, x)
  }

  /** A change to one operation's paths keeps the frame. */
  lemma LocalKeepsFrame(base: Dirs, tx: Tx, k: nat, before: Dirs, after: Dirs)
    requires OpsOk(base, tx.ops) && k < |tx.ops| && IsStage(tx.stageRoot)
    requires OnlyAt(tx.ops[k], before, after)
    requires Bracketed(base, tx, before)
    ensures Bracketed(base, tx, after)
  {
    PathsAreApart(base, tx.ops, k, k);
    forall q | !Touched(tx.ops, q) && !StageKind(q)
      ensures Same(after, base, q)
    {
      assert Same(after, before, q);
      assert Same(before, base, q);
    }
    assert Same(after, before, tx.stageRoot);
    forall q | q in after && StageKind(q)
      ensures (q == tx.stageRoot || q.parent == tx.stageRoot) && tx.stageRoot in after
    {
      assert Same(after, before, q);
    }
  }

  /** A change to one operation's paths leaves every other operation as it was. */
  lemma LocalKeepsOthers(base: Dirs, ops: seq<Operation>, k: nat, i: nat, before: Dirs, after: Dirs)
    requires OpsOk(base, ops) && k < |ops| && i < |ops| && i != k
    requires OnlyAt(ops[k], before, after)
    ensures Undoable(base, ops[i], before) ==> Undoable(base, ops[i], after)
    ensures Restored(base, ops[i], before) ==> Restored(base, ops[i], after)
    ensures Applied(base, ops[i], before) ==> Applied(base, ops[i], after)
    ensures Switched(base, ops[i], before) ==> Switched(base, ops[i], after)
    ensures Settled(base, ops[i], before) ==> Settled(base, ops[i], after)
  {
    PathsAreApart(base, ops, k, i);
    PathsAreApart(base, ops, i, k);
    assert Same(after, before, ops[i].destination);
    if ops[i].backup.Some? {
      assert Same(after, before, ops[i].backup.value);
    }
  }

  /** Taking the stage away touches nothing else. */
  lemma StageRemovalKeeps(base: Dirs, tx: Tx, dirs: Dirs)
    requires OpsOk(base, tx.ops) && IsStage(tx.stageRoot) && Bracketed(base, tx, dirs)
    ensures
      var after := WithoutTree(dirs, tx.stageRoot);
      && Bracketed(base, tx, after)
      && tx.stageRoot !in after
      && forall i :: 0 <= i < |tx.ops| ==>
           && (Undoable(base, tx.ops[i], dirs) ==> Undoable(base, tx.ops[i], after))
           && (Restored(base, tx.ops[i], dirs) ==> Restored(base, tx.ops[i], after))
           && (Applied(base, tx.ops[i], dirs) ==> Applied(base, tx.ops[i], after))
           && (Settled(base, tx.ops[i], dirs) ==> Settled(base, tx.ops[i], after))
  {
    var after := WithoutTree(dirs, tx.stageRoot);
    forall q | !StageKind(q)
      ensures Same(after, dirs, q)
    {
    }
    forall q | !Touched(tx.ops, q) && !StageKind(q)
      ensures Same(after, base, q)
    {
      assert Same(after, dirs, q) && Same(dirs, base, q);
    }
    forall i | 0 <= i < |tx.ops|
      ensures Undoable(base, tx.ops[i], dirs) ==> Undoable(base, tx.ops[i], after)
      ensures Restored(base, tx.ops[i], dirs) ==> Restored(base, tx.ops[i], after)
      ensures Applied(base, tx.ops[i], dirs) ==> Applied(base, tx.ops[i], after)
      ensures Settled(base, tx.ops[i], dirs) ==> Settled(base, tx.ops[i], after)
    {
      PathsAreApart(base, tx.ops, i, i);
      assert Same(after, dirs, tx.ops[i].destination);
      if tx.ops[i].backup.Some? {
        assert Same(after, dirs, tx.ops[i].backup.value);
      }
    }
  }

  // ---------------------------------------------------------------- the new tree verifies

  lemma {:induction false} FindEntrySpec(entries: seq<Entry>, p: Path)
    ensures FindEntry(entries, p).Some? <==> exists e :: e in entries && e.destination == p
    ensures FindEntry(entries, p).Some? ==>
      FindEntry(entries, p).value in entries && FindEntry(entries, p).value.destination == p
  {
    if entries != [] {
      FindEntrySpec(entries[1..], p);
      assert entries == [entries[0]] + entries[1..];
    }
  }

  lemma NewTreeMatches(base: Disk, tx: Tx, i: nat, dirs: Dirs)
    requires TxOk(base, tx) && Stageable(tx.ops) && i < |tx.ops| && tx.ops[i].kind == Replace
    requires tx.ops[i].destination in dirs && dirs[tx.ops[i].destination] == NewTree(tx.ops[i])
    ensures DestinationMatches(dirs, tx.ops[i].destination, tx.newJournal) == Matches
  {
    var p := tx.ops[i].destination;
    FindEntrySpec(tx.newJournal.entries, p);
    assert Journaled(tx.newJournal, p);
    var e := FindEntry(tx.newJournal.entries, p).value;
    AfterOpsSpec(base.dirs, tx.ops, |tx.ops|);
    var want := AfterOps(base.dirs, tx.ops, |tx.ops|);
    assert Settled(base.dirs, tx.ops[i], want);
    assert VerifyEntry(want, e) == Verified;
  }

  // ---------------------------------------------------------------- rollback

  /** All directory facts a rollback keeps. */
  ghost predicate Undoing(base: Disk, tx: Tx, dirs: Dirs) {
    && Bracketed(base.dirs, tx, dirs)
    && forall i :: 0 <= i < |tx.ops| ==> Undoable(base.dirs, tx.ops[i], dirs)
  }

  lemma RollbackOneCore(base: Dirs, op: Operation, staged: Operation, j: Journal, d: Disk, env: Env)
    requires OperationOk(base, op) && Undoable(base, op, d.dirs)
    requires staged.destination == op.destination && staged.backup == op.backup && staged.kind == op.kind
    requires op.backup.Some? ==> op.backup.value != op.destination
    requires forall q :: q in d.dirs && q != op.destination ==> q in WithoutTree(d.dirs, op.destination)
    requires op.kind == Replace && op.destination in d.dirs && d.dirs[op.destination] == NewTree(op) ==>
      DestinationMatches(d.dirs, op.destination, j) == Matches
    ensures
      var o := RollbackOne(d, staged, j, env);
      && (o.status == Done || o.status == Crashed)
      && o.disk == d.(dirs := o.disk.dirs)
      && OnlyAt(op, d.dirs, o.disk.dirs)
      && Undoable(base, op, o.disk.dirs)
      && (o.status == Done ==> Restored(base, op, o.disk.dirs))
  {
    hide IsFile, StateName;
    PlainIsNoFile(d, op.destination);
  }

  lemma RollbackOneUndoes(base: Disk, tx: Tx, k: nat, d: Disk, env: Env)
    requires TxOk(base, tx) && Stageable(tx.ops) && k < |tx.ops|
    requires Undoing(base, tx, d.dirs)
    ensures
      var o := RollbackOne(d, StagedOp(tx.ops[k], tx.stageRoot, k), tx.newJournal, env);
      && (o.status == Done || o.status == Crashed)
      && o.disk == d.(dirs := o.disk.dirs)
      && OnlyAt(tx.ops[k], d.dirs, o.disk.dirs)
      && Undoable(base.dirs, tx.ops[k], o.disk.dirs)
      && (o.status == Done ==> Restored(base.dirs, tx.ops[k], o.disk.dirs))
  {
    var op := tx.ops[k];
    PathsAreApart(base.dirs, tx.ops, k, k);
    NothingBelow(base.dirs, tx, d.dirs, op.destination);
    if op.kind == Replace && op.destination in d.dirs && d.dirs[op.destination] == NewTree(op) {
      NewTreeMatches(base, tx, k, d.dirs);
    }
    RollbackOneCore(base.dirs, op, StagedOp(op, tx.stageRoot, k), tx.newJournal, d, env);
  }

  lemma {:induction false} RollbackUndoes(base: Disk, tx: Tx, phase: Phase, d: Disk, n: nat, env: Env)
    requires TxOk(base, tx) && Stageable(tx.ops) && n <= |tx.ops|
    requires Undoing(base, tx, d.dirs)
    requires forall i :: n <= i < |tx.ops| ==> Restored(base.dirs, tx.ops[i], d.dirs)
    ensures
      var o := Rollback(d, RecordOf(tx, phase), n, env);
      && (o.status == Done || o.status == Crashed)
      && o.disk == d.(dirs := o.disk.dirs)
      && Undoing(base, tx, o.disk.dirs)
      && (o.status == Done ==> o.disk.dirs == base.dirs)
    decreases n
  {
    hide RollbackOne, Undoable, Restored, Bracketed, OnlyAt, JournalsOk, OpsOk, DocumentsOk, JournalVerifies;
    var r := RecordOf(tx, phase);
    if n == 0 {
      if tx.stageRoot in d.dirs {
        StageRemovalKeeps(base.dirs, tx, d.dirs);
      }
      if DropStage(d, r, env).status == Done {
        RestoredIsOld(base.dirs, tx, DropStage(d, r, env).disk.dirs);
      }
    } else {
      var k := n - 1;
      RollbackOneUndoes(base, tx, k, d, env);
      assert r.operations[k] == StagedOp(tx.ops[k], tx.stageRoot, k);
      var o := RollbackOne(d, r.operations[k], r.newJournal, env);
      LocalKeepsFrame(base.dirs, tx, k, d.dirs, o.disk.dirs);
      forall i | 0 <= i < |tx.ops|
        ensures Undoable(base.dirs, tx.ops[i], o.disk.dirs)
        ensures n <= i ==> Restored(base.dirs, tx.ops[i], o.disk.dirs)
      {
        if i != k {
          LocalKeepsOthers(base.dirs, tx.ops, k, i, d.dirs, o.disk.dirs);
        }
      }
      if o.status == Done {
        RollbackUndoes(base, tx, phase, o.disk, k, o.env);
      }
    }
  }

  lemma BaseIsUndoable(base: Disk, tx: Tx)
    requires TxFits(base, tx)
    ensures Undoing(base, tx, base.dirs)
  {
    forall i | 0 <= i < |tx.ops|
      ensures Undoable(base.dirs, tx.ops[i], base.dirs)
    {
      assert OperationOk(base.dirs, tx.ops[i]);
    }
    forall q | StageKind(q)
      ensures q !in base.dirs
    {
      StageIsAbsent(base.dirs, q);
    }
  }

  /** Writing the old documents back never turns the decision around. */
  lemma BackwardNeverFlips(base: Disk, tx: Tx, d: Disk, r: Record)
    requires DocumentsOk(base, tx) && Documents(base, tx, d)
    requires r.newJournal == tx.newJournal && r.newLock == tx.newLock
    requires !Forward(d, r)
    ensures
      var j := d.(journal := Some(tx.oldJournal));
      var l := if tx.oldLock.Some? then j.(lock := tx.oldLock) else j;
      && Documents(base, tx, j) && !Forward(j, r)
      && Documents(base, tx, l) && !Forward(l, r)
      && ReadJournal(l) == ReadJournal(base) && ReadLock(l) == ReadLock(base)
  {
  }

  /** Rolling back restores the base; crashing it leaves a disk that still rolls back. */
  lemma RollBackwardIsSafe(base: Disk, tx: Tx, d: Disk, env: Env)
    requires TxOk(base, tx) && InFlight(base, tx, d) && CanUndo(base, tx, d)
    ensures
      var o := RollBackward(d, d.marker.value, env);
      && (o.status == Done || o.status == Crashed)
      && (o.status == Done ==> Alike(o.disk, base))
      && (o.status == Crashed ==> InFlight(base, tx, o.disk) && CanUndo(base, tx, o.disk))
  {
    hide Rollback, JournalsOk, OpsOk, JournalVerifies, Undoable, Applied, Bracketed;
    var r := d.marker.value;
    assert r == RecordOf(tx, r.phase);
    RollbackUndoes(base, tx, r.phase, d, |tx.ops|, env);
    BaseIsUndoable(base, tx);
    var o := Rollback(d, r, |tx.ops|, env);
    BackwardNeverFlips(base, tx, o.disk, r);
    RollBackwardSteps(base, tx, o.disk, r, o.env);
  }

  /** The writes after the directories are restored. */
  lemma RollBackwardSteps(base: Disk, tx: Tx, d: Disk, r: Record, env: Env)
    requires Undoing(base, tx, base.dirs) && Quiet(base.dirs) && d.home == base.home
    requires Stageable(tx.ops) && base.marker.None?
    requires d.marker == Some(r) && r == RecordOf(tx, r.phase)
    requires Documents(base, tx, d) && !Forward(d, r)
    requires
      var j := d.(journal := Some(tx.oldJournal));
      var l := if tx.oldLock.Some? then j.(lock := tx.oldLock) else j;
      && Documents(base, tx, j) && !Forward(j, r)
      && Documents(base, tx, l) && !Forward(l, r)
      && ReadJournal(l) == ReadJournal(base) && ReadLock(l) == ReadLock(base)
    ensures d.dirs == base.dirs ==>
      var j := WriteJournal(d, r.oldJournal, env);
      && (j.status == Done || j.status == Crashed)
      && (j.status == Crashed ==> InFlight(base, tx, j.disk) && CanUndo(base, tx, j.disk))
      && (j.status == Done ==>
          var l := WriteLock(j.disk, r.oldLock, j.env);
          && (l.status == Done || l.status == Crashed)
          && (l.status == Crashed ==> InFlight(base, tx, l.disk) && CanUndo(base, tx, l.disk))
          && (l.status == Done ==>
              var m := RemoveMarker(l.disk, l.env);
              && (m.status == Crashed ==> InFlight(base, tx, m.disk) && CanUndo(base, tx, m.disk))
              && (m.status == Done ==> Alike(m.disk, base))))
  {
    hide Quiet, Undoable, Bracketed, Applied, StateName;
    if d.dirs == base.dirs { QuietIsFree(base.dirs); }
  }

  // ---------------------------------------------------------------- finishing

  lemma {:induction false} DropBackupsKeeps(base: Disk, tx: Tx, d: Disk, i: nat, env: Env)
    requires Quiet(base.dirs) && OpsOk(base.dirs, tx.ops) && IsStage(tx.stageRoot) && i <= |tx.ops|
    requires Bracketed(base.dirs, tx, d.dirs)
    requires forall k :: 0 <= k < |tx.ops| ==> Applied(base.dirs, tx.ops[k], d.dirs)
    requires forall k :: 0 <= k < i ==> Settled(base.dirs, tx.ops[k], d.dirs)
    ensures
      var o := DropBackups(d, StagedOps(tx.ops, tx.stageRoot), i, env);
      && (o.status == Done || o.status == Crashed)
      && o.disk == d.(dirs := o.disk.dirs)
      && Bracketed(base.dirs, tx, o.disk.dirs)
      && (tx.stageRoot !in d.dirs ==> tx.stageRoot !in o.disk.dirs)
      && (forall k :: 0 <= k < |tx.ops| ==> Applied(base.dirs, tx.ops[k], o.disk.dirs))
      && (o.status == Done ==> forall k :: 0 <= k < |tx.ops| ==> Settled(base.dirs, tx.ops[k], o.disk.dirs))
    decreases |tx.ops| - i
  {
    hide Framed, OwnStage, NewTree;
    if i < |tx.ops| {
      var op := tx.ops[i];
      assert OperationOk(base.dirs, op);
      assert Applied(base.dirs, op, d.dirs);
      if !op.retainBackup && op.backup.Some? && op.backup.value in d.dirs {
        PathsAreApart(base.dirs, tx.ops, i, i);
        NothingBelow(base.dirs, tx, d.dirs, op.backup.value);
        var o := RemoveTree(d, op.backup.value, env);
        assert OnlyAt(op, d.dirs, o.disk.dirs);
        LocalKeepsFrame(base.dirs, tx, i, d.dirs, o.disk.dirs);
        forall k | 0 <= k < |tx.ops|
          ensures Applied(base.dirs, tx.ops[k], o.disk.dirs)
          ensures k < i ==> Settled(base.dirs, tx.ops[k], o.disk.dirs)
        {
          if k != i {
            LocalKeepsOthers(base.dirs, tx.ops, i, k, d.dirs, o.disk.dirs);
          }
        }
        if o.status == Done {
          DropBackupsKeeps(base, tx, o.disk, i + 1, o.env);
        }
      } else {
        DropBackupsKeeps(base, tx, d, i + 1, env);
      }
    }
  }

  /** Finishing reaches the intended disk; crashing it leaves a disk that still finishes. */
  lemma FinishIsSafe(base: Disk, tx: Tx, d: Disk, env: Env)
    requires TxFits(base, tx) && InFlight(base, tx, d) && MustKeep(base, tx, d)
    ensures
      var o := Finish(d, d.marker.value, env);
      && (o.status == Done || o.status == Crashed)
      && (o.status == Done ==> Alike(o.disk, NewDisk(base, tx)))
      && (o.status == Crashed ==> InFlight(base, tx, o.disk) && MustKeep(base, tx, o.disk))
  {
    hide Finish, JournalsOk, JournalVerifies, Undoable, AfterOps;
    FinishKeepsDirectories(base, tx, d, d.marker.value, env);
    var o := Finish(d, d.marker.value, env);
    KeepingIsStable(base, tx, d, o.disk);
  }

  lemma FinishKeepsDirectories(base: Disk, tx: Tx, d: Disk, r: Record, env: Env)
    requires Quiet(base.dirs) && OpsOk(base.dirs, tx.ops) && IsStage(tx.stageRoot)
    requires Bracketed(base.dirs, tx, d.dirs)
    requires forall i :: 0 <= i < |tx.ops| ==> Applied(base.dirs, tx.ops[i], d.dirs)
    requires r == RecordOf(tx, r.phase)
    ensures
      var o := Finish(d, r, env);
      && (o.status == Done || o.status == Crashed)
      && (o.status == Done ==> o.disk == d.(dirs := AfterOps(base.dirs, tx.ops, |tx.ops|), marker := None))
      && (o.status == Crashed ==>
          && o.disk == d.(dirs := o.disk.dirs)
          && Bracketed(base.dirs, tx, o.disk.dirs)
          && forall i :: 0 <= i < |tx.ops| ==> Applied(base.dirs, tx.ops[i], o.disk.dirs))
  {
    if tx.stageRoot in d.dirs {
      StageRemovalKeeps(base.dirs, tx, d.dirs);
    }
    var o := DropStage(d, r, env);
    if o.status == Done {
      DropBackupsKeeps(base, tx, o.disk, 0, o.env);
      var b := DropBackups(o.disk, r.operations, 0, o.env);
      if b.status == Done {
        SettledIsNew(base.dirs, tx, b.disk.dirs);
      }
    }
  }

  lemma KeepingIsStable(base: Disk, tx: Tx, d: Disk, d': Disk)
    requires DocumentsOk(base, tx) && InFlight(base, tx, d) && MustKeep(base, tx, d)
    ensures d' == d.(dirs := AfterOps(base.dirs, tx.ops, |tx.ops|), marker := None) ==> Alike(d', NewDisk(base, tx))
    ensures
      && d' == d.(dirs := d'.dirs)
      && Bracketed(base.dirs, tx, d'.dirs)
      && (forall i :: 0 <= i < |tx.ops| ==> Applied(base.dirs, tx.ops[i], d'.dirs))
      ==> InFlight(base, tx, d') && MustKeep(base, tx, d')
  {
  }

  // ---------------------------------------------------------------- the decision

  /** Recovery accepts every marker that a commit can write. */
  lemma OwnRecordIsValid(base: Disk, tx: Tx, phase: Phase)
    requires TxFits(base, tx)
    ensures ValidRecord(RecordOf(tx, phase))
  {
    var r := RecordOf(tx, phase);
    forall o | o in r.operations
      ensures OperationShape(r, o)
    {
      var i :| 0 <= i < |r.operations| && r.operations[i] == o;
      assert OperationOk(base.dirs, tx.ops[i]);
      assert o.destination == tx.ops[i].destination;
      assert "member-" <= Member(tx.stageRoot, i).name;
    }
  }

  /** Once the decision is to keep, every journaled skill verifies on disk. */
  lemma KeptDiskVerifies(base: Disk, tx: Tx, d: Disk)
    requires TxOk(base, tx) && InFlight(base, tx, d) && MustKeep(base, tx, d)
    ensures JournalVerifies(d.dirs, tx.newJournal)
  {
    hide JournalsOk, DocumentsOk, Documents, Undoable, AfterOps, Forward;
    var want := AfterOps(base.dirs, tx.ops, |tx.ops|);
    AfterOpsSpec(base.dirs, tx.ops, |tx.ops|);
    forall e | e in tx.newJournal.entries
      ensures VerifyEntry(d.dirs, e) == Verified
    {
      var q := e.destination;
      assert VerifyEntry(want, e) == Verified;
      assert q in want;
      if Touched(tx.ops, q) {
        var i :| 0 <= i < |tx.ops| && (tx.ops[i].destination == q || tx.ops[i].backup == Some(q));
        assert OperationOk(base.dirs, tx.ops[i]);
        assert Settled(base.dirs, tx.ops[i], want);
        assert Applied(base.dirs, tx.ops[i], d.dirs);
      } else {
        assert Same(want, base.dirs, q);
        assert !StageKind(q) by { if StageKind(q) { StageIsAbsent(base.dirs, q); } }
        assert Same(d.dirs, base.dirs, q);
      }
      assert Same(d.dirs, want, q);
    }
  }

  // ---------------------------------------------------------------- orphan stages

  /** `listing` reports every stage directory of the root. */
  ghost predicate Lists(listing: seq<Path>, dirs: Dirs) {
    forall q :: q in dirs && IsStage(q) ==> q in listing
  }

  lemma UnmarkedRemoval(base: Disk, d: Disk, p: Path)
    requires Quiet(base.dirs) && Unmarked(base, d) && IsStage(p)
    ensures Unmarked(base, d.(dirs := WithoutTree(d.dirs, p)))
  {
    var after := WithoutTree(d.dirs, p);
    forall q | !StageKind(q)
      ensures Same(after, base.dirs, q)
    {
      assert Same(d.dirs, base.dirs, q);
    }
    forall q | q in after && InStage(q)
      ensures q.parent in after
    {
      KindsAreApart(q.parent);
    }
  }

  lemma {:induction false} DropOrphansIsSafe(base: Disk, d: Disk, listing: seq<Path>, env: Env)
    requires Quiet(base.dirs) && base.marker.None? && Unmarked(base, d)
    requires Lists(listing, d.dirs)
    ensures
      var o := DropOrphans(d, listing, env);
      && (o.status == Done || o.status == Crashed)
      && Unmarked(base, o.disk)
      && (o.status == Done ==> o.disk == base)
    decreases listing
  {
    if listing == [] {
      forall q
        ensures Same(d.dirs, base.dirs, q)
      {
        if StageKind(q) {
          StageIsAbsent(base.dirs, q);
        }
      }
      SameEverywhere(d.dirs, base.dirs);
    } else {
      assert listing == [listing[0]] + listing[1..];
      if IsStage(listing[0]) && listing[0] in d.dirs {
        UnmarkedRemoval(base, d, listing[0]);
        var o := RemoveTree(d, listing[0], env);
        if o.status == Done {
          DropOrphansIsSafe(base, o.disk, listing[1..], o.env);
        }
      } else {
        DropOrphansIsSafe(base, d, listing[1..], env);
      }
    }
  }

  // ---------------------------------------------------------------- recovery

  lemma UnmarkedIsFree(base: Disk, d: Disk)
    requires Quiet(base.dirs) && Unmarked(base, d)
    ensures MARKER_PATH !in d.dirs
  {
    hide StateName;
    KindsAreApart(MARKER_PATH);
    assert IsState(MARKER_PATH) by { MarkerIsState(); }
    assert Same(d.dirs, base.dirs, MARKER_PATH);
  }

  lemma MarkerIsState()
    ensures IsState(MARKER_PATH)
  {
  }

  /** Both documents of a transaction in flight can be read, and no document lies at a journaled place. */
  lemma RecordIsReadable(base: Disk, tx: Tx, d: Disk)
    requires TxOk(base, tx) && InFlight(base, tx, d)
    ensures MARKER_PATH !in d.dirs && CanRead(d, d.marker.value)
    ensures NoFileAt(d, d.marker.value.oldJournal) && NoFileAt(d, d.marker.value.newJournal)
  {
    hide OpsOk, JournalShape, Framed, OwnStage, CanUndo, MustKeep, Stageable, JournalVerifies, NoFileAt, Quiet;
    DocumentsAreFree(base.dirs, tx.ops, d.dirs);
    NoFilesAtEntries(d, tx.oldJournal);
    NoFilesAtEntries(d, tx.newJournal);
  }

  /**
   Recovery from every interrupted disk. It never refuses; when it ends, the disk is the target,
   which is the new disk exactly when journal and lock both read as new; when it crashes, the disk
   is interrupted in the same way with the same target.
   */
  lemma RecoverIsSafe(base: Disk, tx: Tx, d: Disk, listing: seq<Path>, env: Env)
    requires TxOk(base, tx) && Interrupted(base, tx, d)
    requires Lists(listing, d.dirs)
    ensures
      var o := Recover(d, listing, env);
      && (o.status == Done || o.status == Crashed)
      && (o.status == Done ==> Alike(o.disk, Target(base, tx, d)))
      && (o.status == Crashed ==> Interrupted(base, tx, o.disk) && Target(base, tx, o.disk) == Target(base, tx, d))
  {
    hide Finish, RollBackward, DropOrphans, ValidRecord, JournalsOk, OpsOk, Bracketed, Undoable, Applied, JournalVerifies, Stageable, NoFileAt, CanRead, Quiet;
    if d.marker.None? {
      UnmarkedIsFree(base, d);
      DropOrphansIsSafe(base, d, listing, env);
    } else {
      assert InFlight(base, tx, d);
      var r := d.marker.value;
      OwnRecordIsValid(base, tx, r.phase);
      RecordIsReadable(base, tx, d);
      if Forward(d, r) {
        KeptDiskVerifies(base, tx, d);
        FinishIsSafe(base, tx, d, env);
      } else {
        RollBackwardIsSafe(base, tx, d, env);
      }
    }
  }
}
