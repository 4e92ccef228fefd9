/**
 Crash atomicity of the transaction protocol.

 `base` is the disk before a transaction and `tx` the transaction. The invariant of every
 intermediate disk says of each operation whether it can still be undone or is fully applied, and
 that the recovery decision agrees with it.
 */
module CrashSafety {
  import opened Options
  import opened Lockfile
  import opened Paths
  import opened SkillTree
  import opened Transaction

  type Dirs = map<Path, Tree>

  // ---------------------------------------------------------------- what a transaction means

  ghost predicate Same(a: Dirs, b: Dirs, q: Path) {
    && (q in a <==> q in b)
    && (q in a ==> a[q] == b[q])
  }

  function NewTree(o: Operation): Tree {
    if o.bundle.Some? && Extract(map[], o.bundle.value).Extracted?
    then Extract(map[], o.bundle.value).tree
    else map[]
  }

  function Effect(dirs: Dirs, o: Operation): Dirs {
    match o.kind
    case Metadata => dirs
    case Remove => dirs - {o.destination}
    case Replace =>
      if o.backup.Some? && o.destination in dirs
      then dirs[o.backup.value := dirs[o.destination]][o.destination := NewTree(o)]
      else dirs[o.destination := NewTree(o)]
  }

  /** The directories after the first `n` operations, with nothing left behind by the protocol. */
  function AfterOps(dirs: Dirs, ops: seq<Operation>, n: nat): Dirs
    requires n <= |ops|
  {
    if n == 0 then dirs else Effect(AfterOps(dirs, ops, n - 1), ops[n - 1])
  }

  /** The disk a transaction is meant to produce. */
  function NewDisk(base: Disk, tx: Tx): Disk {
    Disk(AfterOps(base.dirs, tx.ops, |tx.ops|), Some(tx.newJournal),
         if tx.newLock.Some? then tx.newLock else base.lock, None, base.home)
  }

  /** Equal as far as any reader can tell: an absent document reads as its default. */
  ghost predicate Alike(a: Disk, b: Disk) {
    && a.dirs == b.dirs
    && ReadJournal(a) == ReadJournal(b)
    && ReadLock(a) == ReadLock(b)
    && a.marker == b.marker && a.home == b.home
  }

  // ---------------------------------------------------------------- well-formed transactions

  /** What holds of one operation by itself. */
  ghost predicate OperationOk(base: Dirs, o: Operation) {
    && IsPlain(o.destination)
    && o.stage.None?
    && (o.backup.Some? ==> IsBackup(o.backup.value) && o.backup.value !in base && o.destination in base)
    && (o.kind == Replace ==>
        && o.bundle.Some?
        && (o.backup.None? ==> o.destination !in base)
        && o.retainBackup == o.backup.Some?)
    && (o.kind == Remove ==> o.backup.Some? && !o.retainBackup)
    && (o.kind == Metadata ==> o.backup.None?)
  }

  ghost predicate Apart(ops: seq<Operation>) {
    && (forall i, j :: 0 <= i < j < |ops| ==> ops[i].destination != ops[j].destination)
    && (forall i, j :: 0 <= i < j < |ops| && ops[i].backup.Some? && ops[j].backup.Some? ==>
        ops[i].backup != ops[j].backup)
  }

  ghost predicate OpsOk(base: Dirs, ops: seq<Operation>) {
    && (forall i :: 0 <= i < |ops| ==> OperationOk(base, ops[i]))
    && Apart(ops)
  }

  /** Every new skill can be extracted. */
  ghost predicate Stageable(ops: seq<Operation>) {
    forall i :: 0 <= i < |ops| && ops[i].kind == Replace ==>
      ops[i].bundle.Some? && Extract(map[], ops[i].bundle.value).Extracted?
  }

  /** Only top-level directories, no stage among them, and none where a document belongs. */
  ghost predicate Quiet(dirs: Dirs) {
    forall q :: q in dirs ==> TopLevel(q) && !IsStage(q) && !IsState(q)
  }

  /** The journals and locks of a transaction fit the base and the operations. */
  ghost predicate DocumentsOk(base: Disk, tx: Tx) {
    && tx.oldJournal == ReadJournal(base)
    && tx.newJournal.version == 1
    && (tx.oldLock.Some? <==> tx.newLock.Some?)
    && (tx.oldLock.Some? ==> tx.oldLock.value == ReadLock(base))
    && (tx.ops != [] ==> tx.oldJournal != tx.newJournal)
  }

  /** Every journaled skill sits at a name of its own. */
  ghost predicate PlainEntries(j: Journal) {
    forall e :: e in j.entries ==> IsPlain(e.destination)
  }

  ghost predicate JournalsOk(tx: Tx) {
    && JournalShape(tx.oldJournal) && PlainEntries(tx.oldJournal)
    && JournalShape(tx.newJournal) && PlainEntries(tx.newJournal)
    && (forall i :: 0 <= i < |tx.ops| ==>
        Journaled(tx.oldJournal, tx.ops[i].destination) || Journaled(tx.newJournal, tx.ops[i].destination))
    && (forall i :: 0 <= i < |tx.ops| && tx.ops[i].kind == Replace ==>
        Journaled(tx.newJournal, tx.ops[i].destination))
  }

  /** A transaction that fits the disk, whatever its bundles turn into. */
  ghost predicate TxFits(base: Disk, tx: Tx) {
    && base.marker.None?
    && Quiet(base.dirs)
    && IsStage(tx.stageRoot)
    && OpsOk(base.dirs, tx.ops)
    && DocumentsOk(base, tx)
    && JournalsOk(tx)
  }

  /** One whose new journal also describes what its bundles extract to. */
  ghost predicate TxOk(base: Disk, tx: Tx) {
    && TxFits(base, tx)
    && (Stageable(tx.ops) ==> JournalVerifies(AfterOps(base.dirs, tx.ops, |tx.ops|), tx.newJournal))
  }

  // ---------------------------------------------------------------- one operation's directories

  /** The old tree can still be put back. */
  ghost predicate Undoable(base: Dirs, o: Operation, dirs: Dirs) {
    if o.kind == Metadata then Same(dirs, base, o.destination)
    else if o.backup.Some? then
      || (o.backup.value !in dirs && Same(dirs, base, o.destination))
      || (&& o.backup.value in dirs && o.destination in base && dirs[o.backup.value] == base[o.destination]
          && (o.destination in dirs ==> o.kind == Replace && dirs[o.destination] == NewTree(o)))
    else o.destination in dirs ==> dirs[o.destination] == NewTree(o)
  }

  /** The new tree is in place; a backup that is not retained may or may not be there. */
  ghost predicate Applied(base: Dirs, o: Operation, dirs: Dirs) {
    match o.kind
    case Metadata => Same(dirs, base, o.destination)
    case Remove => o.destination !in dirs
    case Replace =>
      && o.destination in dirs && dirs[o.destination] == NewTree(o)
      && (o.backup.Some? ==>
          o.backup.value in dirs && o.destination in base && dirs[o.backup.value] == base[o.destination])
  }

  /** Applied, with every backup still there. */
  ghost predicate Switched(base: Dirs, o: Operation, dirs: Dirs) {
    && Applied(base, o, dirs)
    && (o.backup.Some? ==>
        o.backup.value in dirs && o.destination in base && dirs[o.backup.value] == base[o.destination])
  }

  /** Applied, with nothing left over. */
  ghost predicate Settled(base: Dirs, o: Operation, dirs: Dirs) {
    && Applied(base, o, dirs)
    && (o.kind == Remove && o.backup.Some? ==> o.backup.value !in dirs)
  }

  ghost predicate Restored(base: Dirs, o: Operation, dirs: Dirs) {
    && Same(dirs, base, o.destination)
    && (o.backup.Some? ==> o.backup.value !in dirs)
  }

  ghost predicate Pending(base: Dirs, o: Operation, dirs: Dirs, member: Path) {
    && Restored(base, o, dirs)
    && (o.kind == Replace ==> member in dirs && dirs[member] == NewTree(o))
  }

  /** `q` is a destination or a backup of some operation. */
  ghost predicate Touched(ops: seq<Operation>, q: Path) {
    exists i :: 0 <= i < |ops| && (ops[i].destination == q || ops[i].backup == Some(q))
  }

  /** Paths that are neither touched nor private to the stage are as before. */
  ghost predicate Framed(base: Dirs, ops: seq<Operation>, dirs: Dirs) {
    forall q :: !Touched(ops, q) && !StageKind(q) ==> Same(dirs, base, q)
  }

  /** Stage paths all belong to this transaction's stage. */
  ghost predicate OwnStage(stageRoot: Path, dirs: Dirs) {
    forall q :: q in dirs && StageKind(q) ==> (q == stageRoot || q.parent == stageRoot) && stageRoot in dirs
  }

  ghost predicate Bracketed(base: Dirs, tx: Tx, dirs: Dirs) {
    Framed(base, tx.ops, dirs) && OwnStage(tx.stageRoot, dirs)
  }

  // ---------------------------------------------------------------- interrupted disks

  /** Before the marker: only stage directories differ from the base. */
  ghost predicate Unmarked(base: Disk, d: Disk) {
    && d.marker.None? && d.journal == base.journal && d.lock == base.lock && d.home == base.home
    && (forall q :: !StageKind(q) ==> Same(d.dirs, base.dirs, q))
    && (forall q :: q in d.dirs && InStage(q) ==> q.parent in d.dirs)
  }

  ghost predicate Documents(base: Disk, tx: Tx, d: Disk) {
    && (d.journal == base.journal || d.journal == Some(tx.oldJournal) || d.journal == Some(tx.newJournal))
    && (d.lock == base.lock || (tx.newLock.Some? && (d.lock == tx.oldLock || d.lock == tx.newLock)))
  }

  ghost predicate Marked(tx: Tx, d: Disk) {
    d.marker.Some? && d.marker.value == RecordOf(tx, d.marker.value.phase)
  }

  ghost predicate CanUndo(base: Disk, tx: Tx, d: Disk) {
    && !Forward(d, RecordOf(tx, Prepared))
    && forall i :: 0 <= i < |tx.ops| ==> Undoable(base.dirs, tx.ops[i], d.dirs)
  }

  ghost predicate MustKeep(base: Disk, tx: Tx, d: Disk) {
    && Forward(d, RecordOf(tx, Prepared))
    && forall i :: 0 <= i < |tx.ops| ==> Applied(base.dirs, tx.ops[i], d.dirs)
  }

  ghost predicate InFlight(base: Disk, tx: Tx, d: Disk) {
    && Marked(tx, d) && d.home == base.home
    && Documents(base, tx, d)
    && Bracketed(base.dirs, tx, d.dirs)
    && Stageable(tx.ops)
    && (CanUndo(base, tx, d) || MustKeep(base, tx, d))
  }

  /** Every disk a crash can leave behind. */
  ghost predicate Interrupted(base: Disk, tx: Tx, d: Disk) {
    Unmarked(base, d) || InFlight(base, tx, d)
  }

  /** What recovery owes: the new disk exactly when journal and lock both read as new. */
  function Target(base: Disk, tx: Tx, d: Disk): Disk {
    if d.marker.Some? && Forward(d, RecordOf(tx, Prepared)) then NewDisk(base, tx) else base
  }

  // ---------------------------------------------------------------- names never collide

  lemma KindsAreApart(p: Path)
    ensures IsStage(p) ==> !IsBackup(p) && !IsPlain(p)
    ensures IsBackup(p) ==> !IsPlain(p)
    ensures TopLevel(p) ==> !InStage(p)
    ensures IsState(p) ==> !IsStage(p) && !IsBackup(p) && !IsPlain(p)
  {
    assert IsStage(p) ==> p.name[0] == '.' && p.name[8] == '-' && p.name[9] == STAGE_PREFIX[9];
    assert IsBackup(p) ==> p.name[0] == '.' && p.name[8] == '-' && p.name[9] == BACKUP_PREFIX[9];
    if IsState(p) { StateNamesDiffer(p.name); }
  }

  lemma StateNamesDiffer(name: string)
    requires StateName(name)
    ensures !(STAGE_PREFIX <= name) && !(BACKUP_PREFIX <= name)
  {
    assert STAGE_PREFIX[0] == '.' && STAGE_PREFIX[8] == '-' && STAGE_PREFIX[9] == 's';
    assert BACKUP_PREFIX[0] == '.' && BACKUP_PREFIX[8] == '-' && BACKUP_PREFIX[9] == 'b';
    assert JOURNAL_NAME[9] == 'j' && MARKER_NAME[9] == 't' && MUTEX_NAME[9] == 'i';
    assert CUSTOM_LOCK_NAME[0] == 'p' && GLOBAL_LOCK_NAME[8] == '.';
  }

  /** A skill's own directory is never the place of a document. */
  lemma PlainIsNoFile(d: Disk, p: Path)
    requires IsPlain(p)
    ensures !IsFile(d, p)
  {
  }

  lemma NoFilesAtEntries(d: Disk, j: Journal)
    requires PlainEntries(j)
    ensures NoFileAt(d, j)
  {
    hide IsFile, IsPlain;
    forall e | e in j.entries
      ensures !IsFile(d, e.destination)
    {
      PlainIsNoFile(d, e.destination);
    }
  }

  /** No directory sits where a document belongs, at any point of a well-formed transaction. */
  lemma DocumentsAreFree(base: Dirs, ops: seq<Operation>, dirs: Dirs)
    requires Quiet(base) && OpsOk(base, ops) && Framed(base, ops, dirs)
    ensures JOURNAL_PATH !in dirs && MARKER_PATH !in dirs && forall h :: LockPath(h) !in dirs
  {
    hide Framed, Quiet, OpsOk;
    PlaceIsFree(base, ops, dirs, JOURNAL_PATH);
    PlaceIsFree(base, ops, dirs, MARKER_PATH);
    forall h
      ensures LockPath(h) !in dirs
    {
      PlaceIsFree(base, ops, dirs, LockPath(h));
    }
  }

  lemma PlaceIsFree(base: Dirs, ops: seq<Operation>, dirs: Dirs, p: Path)
    requires Quiet(base) && OpsOk(base, ops) && Framed(base, ops, dirs)
    requires IsState(p) || (p.Child? && p.parent.Elsewhere?)
    ensures p !in dirs
  {
    hide StateName;
    KindsAreApart(p);
    if Touched(ops, p) {
      var i :| 0 <= i < |ops| && (ops[i].destination == p || ops[i].backup == Some(p));
      assert OperationOk(base, ops[i]);
    }
    assert Same(dirs, base, p);
  }

  /** Nor on a quiet disk. */
  lemma QuietIsFree(dirs: Dirs)
    requires Quiet(dirs)
    ensures JOURNAL_PATH !in dirs && MARKER_PATH !in dirs && forall h :: LockPath(h) !in dirs
  {
    DocumentsAreFree(dirs, [], dirs);
  }

  /** The paths of distinct operations are distinct, and none is private to the stage. */
  lemma PathsAreApart(base: Dirs, ops: seq<Operation>, i: nat, j: nat)
    requires OpsOk(base, ops) && i < |ops| && j < |ops|
    ensures TopLevel(ops[i].destination) && !StageKind(ops[i].destination)
    ensures ops[i].backup.Some? ==>
      TopLevel(ops[i].backup.value) && !StageKind(ops[i].backup.value) && ops[i].backup.value != ops[j].destination
    ensures i != j ==> ops[i].destination != ops[j].destination
    ensures i != j && ops[i].backup.Some? && ops[j].backup.Some? ==> ops[i].backup.value != ops[j].backup.value
  {
    assert OperationOk(base, ops[i]) && OperationOk(base, ops[j]);
    KindsAreApart(ops[i].destination);
    KindsAreApart(ops[j].destination);
    if ops[i].backup.Some? { KindsAreApart(ops[i].backup.value); }
  }

  lemma TouchedIsTopLevel(base: Dirs, ops: seq<Operation>, q: Path)
    requires OpsOk(base, ops) && Touched(ops, q)
    ensures TopLevel(q) && !StageKind(q)
  {
    var i :| 0 <= i < |ops| && (ops[i].destination == q || ops[i].backup == Some(q));
    PathsAreApart(base, ops, i, i);
  }

  /** No directory of the model lies below a destination or a backup. */
  lemma NothingBelow(base: Dirs, tx: Tx, dirs: Dirs, p: Path)
    requires Quiet(base) && OpsOk(base, tx.ops) && Bracketed(base, tx, dirs)
    requires TopLevel(p) && !StageKind(p)
    ensures forall q :: q in dirs && q != p ==> q in WithoutTree(dirs, p)
  {
    forall q | q in dirs && q != p
      ensures q in WithoutTree(dirs, p)
    {
      if Touched(tx.ops, q) {
        TouchedIsTopLevel(base, tx.ops, q);
      } else if !StageKind(q) {
        assert Same(dirs, base, q);
      }
      assert TopLevel(q) || StageKind(q);
    }
  }

  // ---------------------------------------------------------------- the meaning, pointwise

  lemma {:induction false} AfterOpsSpec(base: Dirs, ops: seq<Operation>, n: nat)
    requires OpsOk(base, ops) && n <= |ops|
    ensures
      var dirs := AfterOps(base, ops, n);
      && (forall i :: 0 <= i < n ==> Settled(base, ops[i], dirs))
      && (forall i :: n <= i < |ops| ==> Restored(base, ops[i], dirs))
      && (forall q :: !Touched(ops, q) ==> Same(dirs, base, q))
  {
    if n == 0 {
      forall i | 0 <= i < |ops|
        ensures Restored(base, ops[i], base)
      {
        assert OperationOk(base, ops[i]);
      }
    } else {
      AfterOpsSpec(base, ops, n - 1);
      var before := AfterOps(base, ops, n - 1);
      var after := AfterOps(base, ops, n);
      var o := ops[n - 1];
      assert OperationOk(base, o);
      assert Restored(base, o, before);
      forall i | 0 <= i < |ops|
        ensures i < n ==> Settled(base, ops[i], after)
        ensures n <= i ==> Restored(base, ops[i], after)
      {
        EffectOnOther(base, ops, n - 1, i, before);
      }
      forall q | !Touched(ops, q)
        ensures Same(after, base, q)
      {
        assert q != o.destination && o.backup != Some(q);
        assert Same(before, base, q);
      }
    }
  }

  lemma EffectOnOther(base: Dirs, ops: seq<Operation>, n: nat, i: nat, before: Dirs)
    requires OpsOk(base, ops) && n < |ops| && i < |ops|
    requires Restored(base, ops[n], before)
    ensures i == n ==> Settled(base, ops[n], Effect(before, ops[n]))
    ensures i != n && Settled(base, ops[i], before) ==> Settled(base, ops[i], Effect(before, ops[n]))
    ensures i != n && Restored(base, ops[i], before) ==> Restored(base, ops[i], Effect(before, ops[n]))
  {
    assert OperationOk(base, ops[n]);
    PathsAreApart(base, ops, i, n);
    PathsAreApart(base, ops, n, i);
  }

  /** Directories are equal when they agree everywhere. */
  lemma SameEverywhere(a: Dirs, b: Dirs)
    requires forall q :: Same(a, b, q)
    ensures a == b
  {
    forall q
      ensures q in a.Keys <==> q in b.Keys
    {
      assert Same(a, b, q);
    }
    assert a.Keys == b.Keys;
    forall q | q in a
      ensures a[q] == b[q]
    {
      assert Same(a, b, q);
    }
  }

  lemma StageIsAbsent(base: Dirs, q: Path)
    requires Quiet(base) && StageKind(q)
    ensures q !in base
  {
    KindsAreApart(q);
  }

  /** Directories whose operations are all settled and whose stage is gone are the intended ones. */
  lemma SettledIsNew(base: Dirs, tx: Tx, dirs: Dirs)
    requires Quiet(base) && OpsOk(base, tx.ops) && Bracketed(base, tx, dirs)
    requires tx.stageRoot !in dirs
    requires forall i :: 0 <= i < |tx.ops| ==> Settled(base, tx.ops[i], dirs)
    ensures dirs == AfterOps(base, tx.ops, |tx.ops|)
  {
    AfterOpsSpec(base, tx.ops, |tx.ops|);
    var want := AfterOps(base, tx.ops, |tx.ops|);
    forall q
      ensures Same(dirs, want, q)
    {
      if Touched(tx.ops, q) {
        var i :| 0 <= i < |tx.ops| && (tx.ops[i].destination == q || tx.ops[i].backup == Some(q));
        assert Settled(base, tx.ops[i], dirs) && Settled(base, tx.ops[i], want);
        assert OperationOk(base, tx.ops[i]);
      } else if StageKind(q) {
        assert Same(want, base, q);
        StageIsAbsent(base, q);
      } else {
        assert Same(dirs, base, q) && Same(want, base, q);
      }
    }
    SameEverywhere(dirs, want);
  }

  /** Directories whose operations are all restored and whose stage is gone are the base. */
  lemma RestoredIsOld(base: Dirs, tx: Tx, dirs: Dirs)
    requires Quiet(base) && OpsOk(base, tx.ops) && Bracketed(base, tx, dirs)
    requires tx.stageRoot !in dirs
    requires forall i :: 0 <= i < |tx.ops| ==> Restored(base, tx.ops[i], dirs)
    ensures dirs == base
  {
    forall q
      ensures Same(dirs, base, q)
    {
      if Touched(tx.ops, q) {
        var i :| 0 <= i < |tx.ops| && (tx.ops[i].destination == q || tx.ops[i].backup == Some(q));
        assert Restored(base, tx.ops[i], dirs);
        assert OperationOk(base, tx.ops[i]);
      } else if StageKind(q) {
        StageIsAbsent(base, q);
      } else {
        assert Same(dirs, base, q);
      }
    }
    SameEverywhere(dirs, base);
  }
}
