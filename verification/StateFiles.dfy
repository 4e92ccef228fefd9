/** Skills named like a document of the installation: refused, stuck for good, or in the lockfile's way. */
module StateFiles {
  import opened Options
  import opened Lockfile
  import opened Order
  import opened Paths
  import opened SkillTree
  import opened Transaction
  import opened CrashSafety
  import opened RecoverySafety
  import opened CommitSafety
  import opened Changes
  import opened Planning
  import opened Runs
  import opened Progress

  /** No recovery ever gets anywhere on this disk, and so no call does. */
  ghost predicate Stuck(d: Disk) {
    forall listing: seq<Path>, env: Env :: Recover(d, listing, env) == Out(d, env, Refused)
  }

  /** Every call on a stuck disk is refused and changes nothing. */
  lemma StuckStays(d: Disk, ev: Event)
    requires Stuck(d)
    ensures Perform(d, ev).status == Refused && Perform(d, ev).disk == d
  {
    hide Recover, Proceed;
    assert Recover(d, ev.listing, ev.env) == Out(d, ev.env, Refused);
  }

  /** A place where a document of the installation belongs. */
  predicate Reserved(h: Home, p: Path) {
    p == MUTEX_PATH || p == MARKER_PATH || p == JOURNAL_PATH || p == LockPath(h)
  }

  // ---------------------------------------------------------------- the mutex file

  /** The mutex file is there before anything is planned. */
  lemma MutexNameIsRefused(h: Home, p: Plan, stage: Path, power: nat, lock: Option<LockFile>)
    requires Destination(p.skillName) == MUTEX_PATH
    ensures
      var o := Perform(Fresh(h), FirstEvent(p, stage, power, lock));
      o.status == Refused && o.disk == Fresh(h)
  {
    hide PlanValid, StateName, Recover, JournalShape;
    var d, ev := Fresh(h), FirstEvent(p, stage, power, lock);
    FreshRecovers(h, ev.env);
    assert Decide(d, ev.alloc, p) == Refusal;
    assert p in [p] && !NoConflict(d, ev.alloc, [p]);
    assert ChangesFor(d, ev).None?;
  }

  // ---------------------------------------------------------------- the journal and the lockfile

  /** A directory in place of the journal: the journal write fails, and recovery cannot read it either. */
  lemma JournalNameSticks(h: Home, p: Plan, stage: Path, power: nat, lock: Option<LockFile>)
    requires FirstOk(p, stage, power) && Destination(p.skillName) == JOURNAL_PATH
    ensures
      var o := Perform(Fresh(h), FirstEvent(p, stage, power, lock));
      o.status == Refused && Stuck(o.disk)
  {
    hide Perform, Commit, PlanValid, Extract, JournalOf, BuildEntry, Stuck, IsStage;
    FirstCallCommits(h, p, stage, power, lock);
    var tx := FirstTx(p, stage, lock);
    CommitBlocked(h, tx, tx.ops[0], Env(power, 2));
    UnreadableSticks(Commit(Fresh(h), tx, Env(power, 2)).disk);
  }

  /** A directory in place of the lockfile, in a call that writes the lockfile. */
  lemma LockNameSticks(h: Home, p: Plan, stage: Path, power: nat, lock: Option<LockFile>)
    requires FirstOk(p, stage, power) && Destination(p.skillName) == LockPath(h) && lock.Some?
    ensures
      var o := Perform(Fresh(h), FirstEvent(p, stage, power, lock));
      o.status == Refused && Stuck(o.disk)
  {
    hide Perform, Commit, PlanValid, Extract, JournalOf, BuildEntry, Stuck, IsStage;
    LockIsNotMutex(h);
    FirstCallCommits(h, p, stage, power, lock);
    var tx := FirstTx(p, stage, lock);
    CommitBlocked(h, tx, tx.ops[0], Env(power, 2));
    UnreadableSticks(Commit(Fresh(h), tx, Env(power, 2)).disk);
  }

  lemma LockIsNotMutex(h: Home)
    ensures LockPath(h) != MUTEX_PATH && LockPath(h) != MARKER_PATH && LockPath(h) != JOURNAL_PATH
    ensures JOURNAL_PATH != MARKER_PATH && JOURNAL_PATH != MUTEX_PATH && MARKER_PATH != MUTEX_PATH
  {
    assert |CUSTOM_LOCK_NAME| == 17 && |GLOBAL_LOCK_NAME| == 18;
    assert |JOURNAL_NAME| == 21 && |MARKER_NAME| == 25 && |MUTEX_NAME| == 21;
    assert JOURNAL_NAME[9] == 'j' && MUTEX_NAME[9] == 'i';
  }

  /** The commit stops at the document its directory is in the way of, with the marker written. */
  lemma CommitBlocked(h: Home, tx: Tx, o: Operation, env: Env)
    requires OneNewSkill(tx, o) && env.power >= |o.bundle.value| + 10 && env.renames >= 1
    requires o.destination == JOURNAL_PATH || (tx.newLock.Some? && o.destination == LockPath(h))
    ensures
      var r := Commit(Fresh(h), tx, env);
      && r.status == Refused && r.disk.home == h
      && r.disk.marker == Some(RecordOf(tx, Activated)) && o.destination in r.disk.dirs && MARKER_PATH !in r.disk.dirs
  {
    hide Stage, NewTree, Extract, Activate;
    LockIsNotMutex(h);
    var e := PrepareOne(h, tx, o, env);
    ActivateOneNew(h, tx, o, e);
    MarkerIsNoStage(tx, o);
    var a := Activate(StagedDisk(h, tx, o), StagedOps(tx.ops, tx.stageRoot), 0, e);
    var p := Publish(a.disk, tx, a.env);
    assert p.status == Refused;
  }

  /** With a marker and a document that cannot be read, nothing recovers. */
  lemma UnreadableSticks(d: Disk)
    requires MARKER_PATH !in d.dirs && d.marker.Some? && !CanRead(d, d.marker.value)
    ensures Stuck(d)
  {
    hide ValidRecord, NoFileAt, CanRead;
  }

  // ---------------------------------------------------------------- the marker

  /** The marker is written where the skill was to go: activation and its rollback both fail, and so does recovery. */
  lemma MarkerNameSticks(h: Home, p: Plan, stage: Path, power: nat, lock: Option<LockFile>)
    requires FirstOk(p, stage, power) && Destination(p.skillName) == MARKER_PATH
    ensures
      var o := Perform(Fresh(h), FirstEvent(p, stage, power, lock));
      o.status == Refused && Stuck(o.disk)
  {
    hide Perform, PlanValid, Extract, JournalOf, BuildEntry, Stage, NewTree;
    LockIsNotMutex(h);
    FirstCallCommits(h, p, stage, power, lock);
    var tx, env := FirstTx(p, stage, lock), Env(power, 2);
    var o := tx.ops[0];
    var e := PrepareOne(h, tx, o, env);
    var d := StagedDisk(h, tx, o);
    var staged := StagedOps(tx.ops, stage);
    assert staged == [StagedOp(o, stage, 0)];
    assert Activate(d, staged, 0, e) == Out(d, e, IoFault);
    assert RollbackOne(d, staged[0], tx.newJournal, e) == Out(d, e, Refused);
    assert Rollback(d, RecordOf(tx, Prepared), 1, e) == Out(d, e, Refused);
    assert Commit(Fresh(h), tx, env) == Out(d, e, Refused);
    OneEntry(p);
    FileAtEntrySticks(d, Destination(p.skillName));
  }

  lemma FileAtEntrySticks(d: Disk, p: Path)
    requires d.marker.Some? && IsFile(d, p) && Journaled(d.marker.value.newJournal, p)
    ensures Stuck(d)
  {
    hide ValidRecord, CanRead, IsFile;
    assert !NoFileAt(d, d.marker.value.newJournal);
  }

  lemma OneEntry(p: Plan)
    ensures JournalOf([BuildEntry(p)]) == Journal(1, [TidyEntry(BuildEntry(p))])
    ensures Journaled(JournalOf([BuildEntry(p)]), Destination(p.skillName))
  {
    hide BuildEntry;
    var one := [BuildEntry(p)];
    assert one[1..] == [] && SortBy(one[1..], EntryOrder) == [];
    assert SortBy(one, EntryOrder) == one;
    assert TidyEntries(one) == [TidyEntry(BuildEntry(p))];
    BuiltEntryPlace(p);
    assert TidyEntry(BuildEntry(p)) in JournalOf(one).entries;
  }

  // ---------------------------------------------------------------- a lockfile that is not written yet

  /**
   Without a lock change the call succeeds, and from then on the directory is in the lockfile's place:
   every later call that presents a lock value is refused.
   */
  lemma LockNameBlocksLater(h: Home, p: Plan, stage: Path, power: nat, ev: Event)
    requires FirstOk(p, stage, power) && Destination(p.skillName) == LockPath(h)
    requires ev.expected.Some? && !ev.request.Open?
    ensures Perform(Fresh(h), FirstEvent(p, stage, power, None)).status == Done
    ensures
      var d := Perform(Fresh(h), FirstEvent(p, stage, power, None)).disk;
      d == OneSkill(h, p, None) && forall env :: Proceed(d, ev, env) == Out(d, env, Refused)
  {
    hide Perform, PlanValid, Extract, JournalOf, BuildEntry, JournalAccepted, ChangesFor, Commit;
    LockIsNotMutex(h);
    FirstInstall(h, p, stage, power, None);
  }
}
