/**
 Every way a commit can end: it installs the intended disk, it fails and leaves the base, or it
 crashes and leaves an interrupted disk.
 */
module CommitSafety {
  import opened Options
  import opened Numerals
  import opened Lockfile
  import opened Paths
  import opened SkillTree
  import opened Transaction
  import opened CrashSafety
  import opened RecoverySafety

  // ---------------------------------------------------------------- member names

  lemma MembersAreApart(stageRoot: Path, i: nat, j: nat)
    requires i != j
    ensures Member(stageRoot, i) != Member(stageRoot, j)
  {
    if Member(stageRoot, i) == Member(stageRoot, j) {
      assert Decimal(i) == ("member-" + Decimal(i))[7..] == ("member-" + Decimal(j))[7..] == Decimal(j);
      DecimalInjective(i, j);
    }
  }

  // ---------------------------------------------------------------- staging

  /** Staging one bundle is extraction into its member directory, and nothing else. */
  lemma {:induction false} StageFilesExtracts(d: Disk, member: Path, files: Bundle, env: Env)
    requires member in d.dirs
    ensures
      var o := StageFiles(d, member, files, env);
      && o.status != IoFault
      && member in o.disk.dirs
      && o.disk == d.(dirs := d.dirs[member := o.disk.dirs[member]])
      && (o.status == Done ==> Extract(d.dirs[member], files) == Extracted(o.disk.dirs[member]))
      && (o.status == Refused ==> Extract(d.dirs[member], files).Conflict?)
    decreases files
  {
    if files == [] {
      assert d.dirs == d.dirs[member := d.dirs[member]];
    } else {
      var target := OnDisk(files[0].path);
      if Blocked(d.dirs[member], target) {
        assert d.dirs == d.dirs[member := d.dirs[member]];
      } else {
        var tree := d.dirs[member][target := files[0].content];
        var o := Durable(d, d.(dirs := d.dirs[member := tree]), env);
        if o.status == Done {
          StageFilesExtracts(o.disk, member, files[1..], o.env);
          var e := StageFiles(o.disk, member, files[1..], o.env);
          assert o.disk.dirs[member := e.disk.dirs[member]] == d.dirs[member := e.disk.dirs[member]];
        } else {
          assert d.dirs == d.dirs[member := d.dirs[member]];
        }
      }
    }
  }

  /** The first `n` members hold their extracted trees. */
  ghost predicate MembersReady(tx: Tx, n: int, dirs: Dirs) {
    forall k :: 0 <= k < n <= |tx.ops| && tx.ops[k].kind == Replace ==>
      && tx.ops[k].bundle.Some?
      && Extract(map[], tx.ops[k].bundle.value).Extracted?
      && Member(tx.stageRoot, k) in dirs
      && dirs[Member(tx.stageRoot, k)] == NewTree(tx.ops[k])
  }

  /** The base plus this transaction's stage. */
  ghost predicate Staging(base: Disk, tx: Tx, d: Disk) {
    && Unmarked(base, d)
    && tx.stageRoot in d.dirs
    && OwnStage(tx.stageRoot, d.dirs)
  }

  lemma StagingMember(base: Disk, tx: Tx, d: Disk, k: nat, t: Tree)
    requires IsStage(tx.stageRoot) && Staging(base, tx, d)
    ensures Staging(base, tx, d.(dirs := d.dirs[Member(tx.stageRoot, k) := t]))
    ensures forall n :: 0 <= n <= k && n <= |tx.ops| && MembersReady(tx, n, d.dirs) ==>
      MembersReady(tx, n, d.dirs[Member(tx.stageRoot, k) := t])
  {
    var m := Member(tx.stageRoot, k);
    var after := d.dirs[m := t];
    assert InStage(m) && m.parent == tx.stageRoot;
    KindsAreApart(tx.stageRoot);
    forall q | !StageKind(q)
      ensures Same(after, base.dirs, q)
    {
      assert Same(d.dirs, base.dirs, q);
    }
    forall i: nat | i < k
      ensures Member(tx.stageRoot, i) != m
    {
      MembersAreApart(tx.stageRoot, i, k);
    }
  }

  lemma {:induction false} StageOpsIsSafe(base: Disk, tx: Tx, d: Disk, i: nat, env: Env)
    requires IsStage(tx.stageRoot) && i <= |tx.ops|
    requires OpsOk(base.dirs, tx.ops)
    requires Staging(base, tx, d) && MembersReady(tx, i, d.dirs)
    ensures
      var o := StageOps(d, tx, i, env);
      && o.status != IoFault
      && Staging(base, tx, o.disk)
      && (o.status == Done ==> MembersReady(tx, |tx.ops|, o.disk.dirs))
      && (o.status == Refused ==> !Stageable(tx.ops))
    decreases |tx.ops| - i
  {
    hide StageFiles, Unmarked, OwnStage;
    if i < |tx.ops| {
      if tx.ops[i].kind != Replace {
        StageOpsIsSafe(base, tx, d, i + 1, env);
      } else {
        assert OperationOk(base.dirs, tx.ops[i]);
        var member := Member(tx.stageRoot, i);
        var o := Durable(d, d.(dirs := d.dirs[member := map[]]), env);
        if o.status == Done {
          var b := tx.ops[i].bundle.value;
          StageFilesExtracts(o.disk, member, b, o.env);
          var e := StageFiles(o.disk, member, b, o.env);
          assert e.disk == d.(dirs := d.dirs[member := e.disk.dirs[member]]);
          StagingMember(base, tx, d, i, e.disk.dirs[member]);
          assert MembersReady(tx, i, e.disk.dirs);
          if e.status == Done {
            assert MembersReady(tx, i + 1, e.disk.dirs);
            StageOpsIsSafe(base, tx, e.disk, i + 1, e.env);
          }
        }
      }
    }
  }

  lemma MembersReadyStageable(tx: Tx, dirs: Dirs)
    requires MembersReady(tx, |tx.ops|, dirs)
    ensures Stageable(tx.ops)
  {
  }

  lemma StageRemovedIsBase(base: Disk, tx: Tx, d: Disk)
    requires Quiet(base.dirs) && base.marker.None? && IsStage(tx.stageRoot) && Staging(base, tx, d)
    ensures d.(dirs := WithoutTree(d.dirs, tx.stageRoot)) == base
  {
    var after := WithoutTree(d.dirs, tx.stageRoot);
    forall q
      ensures Same(after, base.dirs, q)
    {
      if StageKind(q) {
        StageIsAbsent(base.dirs, q);
      } else {
        assert Same(d.dirs, base.dirs, q);
      }
    }
    SameEverywhere(after, base.dirs);
  }

  lemma StageIsSafe(base: Disk, tx: Tx, env: Env)
    requires Quiet(base.dirs) && base.marker.None? && IsStage(tx.stageRoot) && OpsOk(base.dirs, tx.ops)
    ensures
      var o := Stage(base, tx, env);
      && o.status != IoFault
      && (o.status == Done ==> Staging(base, tx, o.disk) && MembersReady(tx, |tx.ops|, o.disk.dirs))
      && (o.status == Crashed ==> Unmarked(base, o.disk))
      && (o.status == Refused ==> o.disk == base && !Stageable(tx.ops))
  {
    StageIsAbsent(base.dirs, tx.stageRoot);
    forall q | StageKind(q)
      ensures q !in base.dirs
    {
      StageIsAbsent(base.dirs, q);
    }
    KindsAreApart(tx.stageRoot);
    var made := Durable(base, base.(dirs := base.dirs[tx.stageRoot := map[]]), env);
    if made.status == Done {
      assert Staging(base, tx, made.disk);
      StageOpsIsSafe(base, tx, made.disk, 0, made.env);
      var o := StageOps(made.disk, tx, 0, made.env);
      if o.status == Refused {
        StageRemovedIsBase(base, tx, o.disk);
      }
    }
  }

  // ---------------------------------------------------------------- activation

  /** The first `i` operations are switched, the others still pending. */
  ghost predicate Activating(base: Dirs, tx: Tx, i: int, dirs: Dirs) {
    && Bracketed(base, tx, dirs)
    && (forall k :: 0 <= k < |tx.ops| && k < i ==> Switched(base, tx.ops[k], dirs))
    && (forall k :: 0 <= k < |tx.ops| && i <= k ==> Pending(base, tx.ops[k], dirs, Member(tx.stageRoot, k)))
  }

  ghost predicate OnlyAtStaged(o: Operation, member: Path, before: Dirs, after: Dirs) {
    && (forall x :: x != o.destination && o.backup != Some(x) && x != member ==> Same(after, before, x))
    && (member in after ==> member in before)
  }

  lemma ActivateOneSwitches(base: Dirs, o: Operation, member: Path, d: Disk, env: Env)
    requires OperationOk(base, o) && Pending(base, o, d.dirs, member)
    requires o.backup.Some? ==> o.backup.value != o.destination && o.backup.value != member
    requires member != o.destination
    ensures
      var staged := if o.kind == Replace then o.(stage := Some(member), bundle := None) else o;
      var r := ActivateOne(d, staged, env);
      && r.status != Refused
      && r.disk == d.(dirs := r.disk.dirs)
      && OnlyAtStaged(o, member, d.dirs, r.disk.dirs)
      && Undoable(base, o, r.disk.dirs)
      && (r.status == Done ==> Switched(base, o, r.disk.dirs))
      && (r.status == IoFault ==> o.kind != Metadata)
      && (env.power >= 2 && env.renames >= 2 ==>
          r.status == Done && r.env.power >= env.power - 2 && r.env.renames >= env.renames - 2)
  {
  }

  lemma StagedKeepsFrame(base: Dirs, tx: Tx, k: nat, before: Dirs, after: Dirs)
    requires OpsOk(base, tx.ops) && k < |tx.ops| && IsStage(tx.stageRoot)
    requires OnlyAtStaged(tx.ops[k], Member(tx.stageRoot, k), before, after)
    requires Bracketed(base, tx, before)
    ensures Bracketed(base, tx, after)
  {
    var m := Member(tx.stageRoot, k);
    assert InStage(m);
    KindsAreApart(tx.stageRoot);
    assert m != tx.stageRoot;
    PathsAreApart(base, tx.ops, k, k);
    forall q | !Touched(tx.ops, q) && !StageKind(q)
      ensures Same(after, base, q)
    {
      assert Same(after, before, q);
      assert Same(before, base, q);
    }
    assert Same(after, before, tx.stageRoot);
    forall q | q in after && StageKind(q)
      ensures (q == tx.stageRoot || q.parent == tx.stageRoot) && tx.stageRoot in after
    {
      if q != m { assert Same(after, before, q); }
    }
  }

  lemma StagedKeepsOthers(base: Dirs, tx: Tx, k: nat, i: nat, before: Dirs, after: Dirs)
    requires OpsOk(base, tx.ops) && k < |tx.ops| && i < |tx.ops| && i != k && IsStage(tx.stageRoot)
    requires OnlyAtStaged(tx.ops[k], Member(tx.stageRoot, k), before, after)
    ensures Undoable(base, tx.ops[i], before) ==> Undoable(base, tx.ops[i], after)
    ensures Switched(base, tx.ops[i], before) ==> Switched(base, tx.ops[i], after)
    ensures Pending(base, tx.ops[i], before, Member(tx.stageRoot, i)) ==>
      Pending(base, tx.ops[i], after, Member(tx.stageRoot, i))
  {
    var m := Member(tx.stageRoot, k);
    PathsAreApart(base, tx.ops, k, i);
    PathsAreApart(base, tx.ops, i, k);
    MembersAreApart(tx.stageRoot, i, k);
    assert InStage(m) && InStage(Member(tx.stageRoot, i));
    assert Same(after, before, tx.ops[i].destination);
    assert Same(after, before, Member(tx.stageRoot, i));
    if tx.ops[i].backup.Some? {
      assert Same(after, before, tx.ops[i].backup.value);
    }
  }

  lemma SwitchedIsUndoable(base: Dirs, o: Operation, dirs: Dirs)
    requires OperationOk(base, o)
    ensures Switched(base, o, dirs) ==> Undoable(base, o, dirs)
    ensures Restored(base, o, dirs) ==> Undoable(base, o, dirs)
  {
  }

  lemma ActivatingIsUndoing(base: Disk, tx: Tx, i: nat, dirs: Dirs)
    requires OpsOk(base.dirs, tx.ops) && Activating(base.dirs, tx, i, dirs)
    ensures Undoing(base, tx, dirs)
  {
    forall k | 0 <= k < |tx.ops|
      ensures Undoable(base.dirs, tx.ops[k], dirs)
    {
      assert OperationOk(base.dirs, tx.ops[k]);
      SwitchedIsUndoable(base.dirs, tx.ops[k], dirs);
      if k >= i { assert Pending(base.dirs, tx.ops[k], dirs, Member(tx.stageRoot, k)); }
    }
  }

  lemma {:induction false} ActivateIsSafe(base: Disk, tx: Tx, d: Disk, i: nat, env: Env)
    requires OpsOk(base.dirs, tx.ops) && IsStage(tx.stageRoot) && i <= |tx.ops|
    requires Activating(base.dirs, tx, i, d.dirs)
    ensures
      var o := Activate(d, StagedOps(tx.ops, tx.stageRoot), i, env);
      && o.status != Refused
      && o.disk == d.(dirs := o.disk.dirs)
      && Undoing(base, tx, o.disk.dirs)
      && (o.status == Done ==> Activating(base.dirs, tx, |tx.ops|, o.disk.dirs))
      && (o.status == IoFault ==> tx.ops != [])
      && (env.power >= 2 * (|tx.ops| - i) && env.renames >= 2 * (|tx.ops| - i) ==>
          o.status == Done && o.env.power >= env.power - 2 * (|tx.ops| - i))
    decreases |tx.ops| - i
  {
    hide ActivateOne, Undoable, Switched, Pending, Bracketed, OnlyAtStaged, OperationOk;
    ActivatingIsUndoing(base, tx, i, d.dirs);
    if i < |tx.ops| {
      var op := tx.ops[i];
      var m := Member(tx.stageRoot, i);
      var staged := StagedOps(tx.ops, tx.stageRoot);
      PathsAreApart(base.dirs, tx.ops, i, i);
      assert InStage(m);
      assert Pending(base.dirs, op, d.dirs, m);
      ActivateOneSwitches(base.dirs, op, m, d, env);
      var o := ActivateOne(d, staged[i], env);
      StagedKeepsFrame(base.dirs, tx, i, d.dirs, o.disk.dirs);
      forall k | 0 <= k < |tx.ops|
        ensures Undoable(base.dirs, tx.ops[k], o.disk.dirs)
        ensures k < i ==> Switched(base.dirs, tx.ops[k], o.disk.dirs)
        ensures i < k ==> Pending(base.dirs, tx.ops[k], o.disk.dirs, Member(tx.stageRoot, k))
      {
        if k != i {
          StagedKeepsOthers(base.dirs, tx, i, k, d.dirs, o.disk.dirs);
        }
      }
      if o.status == Done {
        ActivateIsSafe(base, tx, o.disk, i + 1, o.env);
      }
    }
  }

  /** The staged base, once marked, is ready to activate. */
  lemma StagedIsActivating(base: Disk, tx: Tx, d: Disk)
    requires OpsOk(base.dirs, tx.ops) && IsStage(tx.stageRoot)
    requires Staging(base, tx, d) && MembersReady(tx, |tx.ops|, d.dirs)
    ensures Activating(base.dirs, tx, 0, d.dirs)
  {
    forall k | 0 <= k < |tx.ops|
      ensures Pending(base.dirs, tx.ops[k], d.dirs, Member(tx.stageRoot, k))
    {
      assert OperationOk(base.dirs, tx.ops[k]);
      PathsAreApart(base.dirs, tx.ops, k, k);
      assert Same(d.dirs, base.dirs, tx.ops[k].destination);
      if tx.ops[k].backup.Some? {
        assert Same(d.dirs, base.dirs, tx.ops[k].backup.value);
      }
    }
  }

  // ---------------------------------------------------------------- in flight

  /** Before the journal is written, undoing is right unless there is nothing to undo. */
  lemma UndoingIsInFlight(base: Disk, tx: Tx, d: Disk)
    requires DocumentsOk(base, tx) && Stageable(tx.ops)
    requires Marked(tx, d) && d.journal == base.journal && d.lock == base.lock && d.home == base.home
    requires Undoing(base, tx, d.dirs)
    ensures InFlight(base, tx, d)
    ensures tx.ops != [] ==> CanUndo(base, tx, d)
  {
  }

  /** After activation, either decision is right. */
  lemma SwitchedIsInFlight(base: Disk, tx: Tx, d: Disk)
    requires OpsOk(base.dirs, tx.ops) && Stageable(tx.ops)
    requires Marked(tx, d) && Documents(base, tx, d) && d.home == base.home
    requires Activating(base.dirs, tx, |tx.ops|, d.dirs)
    ensures InFlight(base, tx, d)
    ensures Forward(d, RecordOf(tx, Prepared)) ==> MustKeep(base, tx, d)
  {
    ActivatingIsUndoing(base, tx, |tx.ops|, d.dirs);
  }

  /** The writes of a publication, where no directory is in the way of a document. */
  lemma PublishWrites(base: Disk, tx: Tx, d: Disk, env: Env)
    requires DocumentsOk(base, tx) && Marked(tx, d) && d.journal == base.journal && d.lock == base.lock && d.home == base.home
    requires JOURNAL_PATH !in d.dirs && MARKER_PATH !in d.dirs && LockPath(d.home) !in d.dirs
    ensures
      var o := Publish(d, tx, env);
      && (o.status == Done || o.status == Crashed)
      && o.disk.dirs == d.dirs && o.disk.home == base.home && Marked(tx, o.disk) && Documents(base, tx, o.disk)
      && (o.status == Done ==> Forward(o.disk, RecordOf(tx, Prepared)))
  {
  }

  lemma PublishIsSafe(base: Disk, tx: Tx, d: Disk, env: Env)
    requires Quiet(base.dirs) && OpsOk(base.dirs, tx.ops) && Stageable(tx.ops) && DocumentsOk(base, tx)
    requires Marked(tx, d) && d.journal == base.journal && d.lock == base.lock && d.home == base.home
    requires Activating(base.dirs, tx, |tx.ops|, d.dirs)
    ensures
      var o := Publish(d, tx, env);
      && (o.status == Done || o.status == Crashed)
      && InFlight(base, tx, o.disk)
      && (o.status == Done ==> MustKeep(base, tx, o.disk))
  {
    hide Quiet, OpsOk, OwnStage, CanUndo, MustKeep, Undoable, Switched, Pending, Applied, StateName, Publish, Documents, DocumentsOk,
      Marked, Forward, InFlight, Stageable;
    var o := Publish(d, tx, env);
    DocumentsAreFree(base.dirs, tx.ops, d.dirs);
    PublishWrites(base, tx, d, env);
    SwitchedIsInFlight(base, tx, o.disk);
  }

  lemma AbandonIsSafe(base: Disk, tx: Tx, d: Disk, env: Env)
    requires TxOk(base, tx) && Stageable(tx.ops) && tx.ops != []
    requires d.marker == Some(RecordOf(tx, Prepared)) && d.journal == base.journal && d.lock == base.lock && d.home == base.home
    requires Undoing(base, tx, d.dirs)
    ensures
      var o := Abandon(d, RecordOf(tx, Prepared), env);
      && (o.status == IoFault || o.status == Crashed)
      && (o.status == IoFault ==> o.disk == base)
      && (o.status == Crashed ==> InFlight(base, tx, o.disk))
  {
    hide Rollback, JournalsOk, OpsOk, JournalVerifies, Bracketed, Undoable, Applied;
    RollbackUndoes(base, tx, Prepared, d, |tx.ops|, env);
    var o := Rollback(d, RecordOf(tx, Prepared), |tx.ops|, env);
    UndoingIsInFlight(base, tx, o.disk);
  }

  // ---------------------------------------------------------------- commit

  /**
   Every end of a commit, for every crash point and every failing rename: the intended disk, the
   base itself, or an interrupted disk. A bundle that cannot be extracted never gets as far as
   the marker.
   */
  lemma CommitIsSafe(base: Disk, tx: Tx, env: Env)
    requires TxOk(base, tx)
    ensures
      var o := Commit(base, tx, env);
      && (o.status == Done ==> Stageable(tx.ops) && Alike(o.disk, NewDisk(base, tx)))
      && (o.status == IoFault ==> o.disk == base)
      && (o.status == Refused ==> o.disk == base && !Stageable(tx.ops))
      && (o.status == Crashed ==> Interrupted(base, tx, o.disk))
      && (!Stageable(tx.ops) ==> o.status == Refused || (o.status == Crashed && Unmarked(base, o.disk)))
  {
    hide Stage, Activate, Publish, Finish, Abandon, OwnStage, Bracketed, JournalsOk, OpsOk, DocumentsOk, JournalVerifies, MembersReady, Activating, Undoing, CanUndo, MustKeep, AfterOps;
    StageIsSafe(base, tx, env);
    var s := Stage(base, tx, env);
    if s.status == Done {
      MembersReadyStageable(tx, s.disk.dirs);
      StagedIsActivating(base, tx, s.disk);
      UnmarkedIsFree(base, s.disk);
      var m := WriteMarker(s.disk, RecordOf(tx, Prepared), s.env);
      if m.status == Done {
        ActivateIsSafe(base, tx, m.disk, 0, m.env);
        var a := Activate(m.disk, StagedOps(tx.ops, tx.stageRoot), 0, m.env);
        if a.status == IoFault {
          AbandonIsSafe(base, tx, a.disk, a.env);
        } else if a.status == Crashed {
          UndoingIsInFlight(base, tx, a.disk);
        } else {
          CommitTail(base, tx, a.disk, a.env);
        }
      }
    }
  }

  lemma CommitTail(base: Disk, tx: Tx, d: Disk, env: Env)
    requires TxFits(base, tx) && Stageable(tx.ops)
    requires Marked(tx, d) && d.journal == base.journal && d.lock == base.lock && d.home == base.home
    requires Activating(base.dirs, tx, |tx.ops|, d.dirs)
    ensures
      var p := Publish(d, tx, env);
      && (p.status == Done || p.status == Crashed)
      && (p.status == Crashed ==> InFlight(base, tx, p.disk))
      && (p.status == Done ==>
          var f := Finish(p.disk, RecordOf(tx, JournalWritten), p.env);
          && (f.status == Done || f.status == Crashed)
          && (f.status == Done ==> Alike(f.disk, NewDisk(base, tx)))
          && (f.status == Crashed ==> InFlight(base, tx, f.disk)))
  {
    hide Finish, JournalsOk, JournalVerifies, Bracketed, AfterOps;
    PublishIsSafe(base, tx, d, env);
    var p := Publish(d, tx, env);
    if p.status == Done {
      FinishIsSafe(base, tx, p.disk, p.env);
    }
  }
}
