/** Exactly which batches leave a healthy installation behind, from any settled one. */
module Settling {
  import opened Options
  import opened Lockfile
  import opened Order
  import opened Paths
  import opened SkillTree
  import opened BundleFormat
  import opened Transaction
  import opened CrashSafety
  import opened RecoverySafety
  import opened CommitSafety
  import opened Changes
  import opened Planning
  import opened Runs
  import opened Batches
  import opened Progress
  import opened StateFiles
  import opened Limits

  ghost function BatchChanges(d: Disk, ev: Event): seq<Change>
    requires ev.request.Install?
  {
    InstallChanges(d, ev.alloc, ev.request.plans)
  }

  ghost function BatchTx(d: Disk, ev: Event): Tx
    requires ev.request.Install?
  {
    TxOf(d, BatchChanges(d, ev), ev.alloc.stage, ev.expected, ev.newLock)
  }

  /** A conflict-free batch of valid, extractable plans, with enough power and no failing rename. */
  ghost predicate BatchOk(d: Disk, ev: Event) {
    && ev.request.Install? && !ev.dryRun && AllocOk(ev.alloc) && LockAccepted(d, ev)
    && PlansValid(ev.request.plans) && NoConflict(d, ev.alloc, ev.request.plans)
    && (forall p :: p in ev.request.plans ==> Extract(map[], p.bundle).Extracted?)
    && ev.env.power >= Work(BatchTx(d, ev)) && ev.env.renames >= 2 * |BatchTx(d, ev).ops|
  }

  /** The plan puts its own files in place, new or instead of others. */
  predicate PutsFiles(d: Disk, a: Alloc, p: Plan) {
    Decide(d, a, p).Changing? && Decide(d, a, p).change.op.kind == Replace
  }

  /** Every plan that puts files in place has a sound name and a bundle that hides no `.`. */
  ghost predicate BatchSound(d: Disk, ev: Event)
    requires ev.request.Install?
  {
    forall p :: p in ev.request.plans && PutsFiles(d, ev.alloc, p) ==> SoundName(d.home, p.skillName) && Plain(p.bundle)
  }

  // ---------------------------------------------------------------- what the call does

  lemma {:induction false} NothingToDrop(d: Disk, listing: seq<Path>, env: Env)
    requires forall q :: q in d.dirs ==> !IsStage(q)
    ensures DropOrphans(d, listing, env) == Out(d, env, Done)
    decreases listing
  {
    if listing != [] { NothingToDrop(d, listing[1..], env); }
  }

  lemma SoundRecovers(d: Disk, listing: seq<Path>, env: Env)
    requires Sound(d)
    ensures Recover(d, listing, env) == Out(d, env, Done)
  {
    hide JournalTidy, JournalVerifies;
    QuietIsFree(d.dirs);
    NothingToDrop(d, listing, env);
  }

  /** The call commits the batch's transaction, unless there is nothing to do. */
  lemma BatchPerforms(d: Disk, ev: Event)
    requires Sound(d) && BatchOk(d, ev)
    ensures
      Perform(d, ev) ==
        if ev.request.plans == [] || (BatchChanges(d, ev) == [] && ev.newLock.None?) then Out(d, ev.env, Done)
        else Commit(d, BatchTx(d, ev), ev.env)
  {
    hide Sound, Recover, Commit, JournalAccepted, PlanValid, Decide, Extract, Work, AllocOk;
    SoundRecovers(d, ev.listing, ev.env);
    SoundJournal(d);
  }

  lemma {:induction false} BackupsKeepJournal(d: Disk, ops: seq<Operation>, i: nat, env: Env)
    requires i <= |ops|
    ensures DropBackups(d, ops, i, env).disk.journal == d.journal && DropBackups(d, ops, i, env).disk.home == d.home
    decreases |ops| - i
  {
    if i < |ops| {
      if !ops[i].retainBackup && ops[i].backup.Some? && ops[i].backup.value in d.dirs {
        var o := RemoveTree(d, ops[i].backup.value, env);
        BackupsKeepJournal(o.disk, ops, i + 1, o.env);
      } else {
        BackupsKeepJournal(d, ops, i + 1, env);
      }
    }
  }

  lemma FinishKeepsJournal(d: Disk, r: Record, env: Env)
    ensures Finish(d, r, env).disk.journal == d.journal && Finish(d, r, env).disk.home == d.home
  {
    hide DropBackups;
    var o := DropStage(d, r, env);
    BackupsKeepJournal(o.disk, r.operations, 0, o.env);
  }

  lemma {:induction false} StageFilesKeepsHome(d: Disk, member: Path, files: Bundle, env: Env)
    requires member in d.dirs
    ensures StageFiles(d, member, files, env).disk.home == d.home
    decreases files
  {
    hide Blocked, OnDisk;
    if files != [] && !Blocked(d.dirs[member], OnDisk(files[0].path)) {
      var o := Durable(d, d.(dirs := d.dirs[member := d.dirs[member][OnDisk(files[0].path) := files[0].content]]), env);
      if o.status == Done { StageFilesKeepsHome(o.disk, member, files[1..], o.env); }
    }
  }

  lemma {:induction false} StageOpsKeepsHome(d: Disk, tx: Tx, i: nat, env: Env)
    requires i <= |tx.ops|
    ensures StageOps(d, tx, i, env).disk.home == d.home
    decreases |tx.ops| - i
  {
    hide StageFiles;
    if i < |tx.ops| {
      if tx.ops[i].kind != Replace {
        StageOpsKeepsHome(d, tx, i + 1, env);
      } else if tx.ops[i].bundle.Some? {
        var member := Member(tx.stageRoot, i);
        var o := Durable(d, d.(dirs := d.dirs[member := map[]]), env);
        if o.status == Done {
          StageFilesKeepsHome(o.disk, member, tx.ops[i].bundle.value, o.env);
          var e := StageFiles(o.disk, member, tx.ops[i].bundle.value, o.env);
          if e.status == Done { StageOpsKeepsHome(e.disk, tx, i + 1, e.env); }
        }
      }
    }
  }

  lemma {:induction false} ActivateKeepsHome(d: Disk, ops: seq<Operation>, i: nat, env: Env)
    requires i <= |ops|
    ensures Activate(d, ops, i, env).disk.home == d.home
    decreases |ops| - i
  {
    hide IsFile;
    if i < |ops| {
      var o := ActivateOne(d, ops[i], env);
      if o.status == Done { ActivateKeepsHome(o.disk, ops, i + 1, o.env); }
    }
  }

  /** Whatever the transaction, a commit that reports success has written its journal. */
  lemma CommitWritesJournal(d: Disk, tx: Tx, env: Env)
    requires Commit(d, tx, env).status == Done
    ensures Commit(d, tx, env).disk.journal == Some(tx.newJournal) && Commit(d, tx, env).disk.home == d.home
  {
    hide StageOps, Activate, Abandon, Finish;
    var s := Stage(d, tx, env);
    var made := Durable(d, d.(dirs := d.dirs[tx.stageRoot := map[]]), env);
    if made.status == Done { StageOpsKeepsHome(made.disk, tx, 0, made.env); }
    var m := WriteMarker(s.disk, RecordOf(tx, Prepared), s.env);
    var a := Activate(m.disk, StagedOps(tx.ops, tx.stageRoot), 0, m.env);
    ActivateKeepsHome(m.disk, StagedOps(tx.ops, tx.stageRoot), 0, m.env);
    AbandonIsNotDone(a.disk, RecordOf(tx, Prepared), a.env);
    var p := Publish(a.disk, tx, a.env);
    FinishKeepsJournal(p.disk, RecordOf(tx, JournalWritten), p.env);
  }

  lemma AbandonIsNotDone(d: Disk, r: Record, env: Env)
    ensures Abandon(d, r, env).status != Done
  {
    hide Rollback;
  }

  // ---------------------------------------------------------------- names

  lemma JournalOfHas(entries: seq<Entry>, e: Entry)
    requires e in entries
    ensures exists f :: f in JournalOf(entries).entries && f.destination == e.destination
  {
    var s := SortBy(entries, EntryOrder);
    SortByMembers(entries, EntryOrder);
    var i :| 0 <= i < |s| && s[i] == e;
    var f := TidyEntries(s)[i];
    assert f in TidyEntries(s) && f.destination == e.destination;
  }

  /** A plan that puts files in place asks for its own entry. */
  lemma PutsEntry(d: Disk, a: Alloc, p: Plan)
    requires PutsFiles(d, a, p)
    ensures
      var c := Decide(d, a, p).change;
      && c.entry == Some(BuildEntry(p)) && c.op.bundle == Some(p.bundle)
      && c.op.destination == Destination(p.skillName)
  {
    hide BuildEntry, VerifyEntry;
  }

  /** After success every such plan is journaled at its destination. */
  lemma PutsIsJournaled(d: Disk, ev: Event, p: Plan)
    requires Sound(d) && BatchOk(d, ev) && p in ev.request.plans && PutsFiles(d, ev.alloc, p)
    requires Perform(d, ev).status == Done
    ensures Journaled(ReadJournal(Perform(d, ev).disk), Destination(p.skillName))
    ensures Perform(d, ev).disk.home == d.home
  {
    hide Sound, Perform, Commit, Decide, BuildEntry, JournalOf, PlansValid, NoConflict, AllocOk, LockAccepted, Extract, Work;
    var cs, c := BatchChanges(d, ev), Decide(d, ev.alloc, p).change;
    InstallChangesSpec(d, ev.alloc, ev.request.plans);
    assert Decide(d, ev.alloc, p) == Changing(c);
    assert c in cs;
    BatchPerforms(d, ev);
    CommitWritesJournal(d, BatchTx(d, ev), ev.env);
    PutsEntry(d, ev.alloc, p);
    AdditionsSpec(cs);
    var k :| 0 <= k < |cs| && cs[k] == c;
    assert cs[k].entry == Some(BuildEntry(p));
    assert BuildEntry(p) in Survivors(ReadJournal(d).entries, cs) + Additions(cs);
    JournalOfHas(Survivors(ReadJournal(d).entries, cs) + Additions(cs), BuildEntry(p));
    BuiltEntryPlace(p);
  }

  /** A healthy result has no skill in a place where it cannot stay. */
  lemma HealthyNamesAreSound(d: Disk, ev: Event, p: Plan)
    requires Sound(d) && BatchOk(d, ev) && p in ev.request.plans && PutsFiles(d, ev.alloc, p)
    requires Perform(d, ev).status == Done && Healthy(Perform(d, ev).disk)
    ensures SoundName(d.home, p.skillName)
  {
    hide Sound, BatchOk, Perform, PutsFiles, VerifyEntry, Reserved, IsStage;
    PutsIsJournaled(d, ev, p);
    var after := Perform(d, ev).disk;
    var e :| e in ReadJournal(after).entries && e.destination == Destination(p.skillName);
    VerifiedIsPresent(after.dirs, e);
  }

  /** A plan for a skill that stays in place names a journaled one. */
  lemma OthersAreNamed(d: Disk, a: Alloc, p: Plan)
    requires Sound(d) && PlanValid(p) && Decide(d, a, p) != Refusal && !PutsFiles(d, a, p)
    ensures PlanNamed(p)
  {
    hide PlanValid, BuildEntry, VerifyEntry, IsFile, IsPlain, Quiet, EntryShape, Check;
    FindEntrySpec(ReadJournal(d).entries, Destination(p.skillName));
  }

  // ---------------------------------------------------------------- batches with usable names

  ghost predicate AllNamed(ev: Event)
    requires ev.request.Install?
  {
    forall p :: p in ev.request.plans ==> PlanNamed(p)
  }

  lemma BatchFits(d: Disk, ev: Event)
    requires Sound(d) && BatchOk(d, ev) && AllNamed(ev)
    ensures ChangesFit(d, BatchChanges(d, ev)) && TxFits(d, BatchTx(d, ev)) && Stageable(BatchTx(d, ev).ops)
    ensures forall o :: o in BatchTx(d, ev).ops <==> exists k :: 0 <= k < |BatchChanges(d, ev)| && BatchChanges(d, ev)[k].op == o
  {
    hide Sound, PlanNamed, PlanValid, Decide, Extract, Work, ChangesFit, TxFits, NoConflict, OpsOk, JournalOf;
    var cs := BatchChanges(d, ev);
    InstallChangesFit(d, ev.alloc, ev.request.plans);
    TxOfFits(d, cs, ev.alloc.stage, ev.expected, ev.newLock);
    OpsSpec(d, cs);
    InstallChangesSpec(d, ev.alloc, ev.request.plans);
    var ops := BatchTx(d, ev).ops;
    forall i | 0 <= i < |ops| && ops[i].kind == Replace
      ensures ops[i].bundle.Some? && Extract(map[], ops[i].bundle.value).Extracted?
    {
      assert ops[i] in ops;
      var k :| 0 <= k < |cs| && cs[k].op == ops[i];
      assert cs[k] in cs;
      var p :| p in ev.request.plans && Decide(d, ev.alloc, p) == Changing(cs[k]);
      DecideBundle(d, ev.alloc, p);
    }
  }

  /** The changes are proper exactly when every bundle that is put in place hides no `.`. */
  lemma SoundBatchIsOk(d: Disk, ev: Event)
    requires Sound(d) && BatchOk(d, ev) && AllNamed(ev) && BatchSound(d, ev)
    ensures ChangesOk(d, BatchChanges(d, ev))
  {
    hide Sound, Decide, Extract, Work, ChangesFit, ChangeFits, TxFits, NoConflict, Plain, BuildEntry, Check, SoundName, Stageable;
    var cs := BatchChanges(d, ev);
    BatchFits(d, ev);
    InstallChangesSpec(d, ev.alloc, ev.request.plans);
    forall i | 0 <= i < |cs|
      ensures ChangeOk(d, cs[i])
    {
      assert cs[i] in cs;
      var p :| p in ev.request.plans && Decide(d, ev.alloc, p) == Changing(cs[i]);
      PlanChangeIsOk(d, ev.alloc, p);
    }
  }

  lemma PlanChangeIsOk(d: Disk, a: Alloc, p: Plan)
    requires Sound(d) && AllocOk(a) && PlanNamed(p) && Extract(map[], p.bundle).Extracted?
    requires Decide(d, a, p).Changing? && (PutsFiles(d, a, p) ==> Plain(p.bundle))
    ensures ChangeOk(d, Decide(d, a, p).change)
  {
    hide Sound, Decide, Extract, ChangeFits, Plain, BuildEntry, Check, PlanValid, PublicName;
    DecideFits(d, a, p);
    if PutsFiles(d, a, p) {
      PutsEntry(d, a, p);
      BuiltEntryVerifiesIff(p);
    }
  }

  /** A plan whose files are in place and whose journal verifies had a bundle that hides no `.`. */
  lemma VerifiedBatchIsPlain(d: Disk, ev: Event, p: Plan)
    requires Sound(d) && BatchOk(d, ev) && AllNamed(ev) && p in ev.request.plans && PutsFiles(d, ev.alloc, p)
    requires JournalVerifies(NewDisk(d, BatchTx(d, ev)).dirs, BatchTx(d, ev).newJournal)
    ensures Plain(p.bundle)
  {
    hide Decide, Extract, Work, ChangesFit, NoConflict, Plain, BuildEntry, Check, JournalOf, Stageable, PlanValid, PublicName,
      JournalTidy, Quiet, OperationOk, JournalsOk, DocumentsOk;
    var cs, tx := BatchChanges(d, ev), BatchTx(d, ev);
    var c := Decide(d, ev.alloc, p).change;
    BatchFits(d, ev);
    InstallChangesSpec(d, ev.alloc, ev.request.plans);
    PutsEntry(d, ev.alloc, p);
    BuiltEntryPlace(p);
    assert Decide(d, ev.alloc, p) == Changing(c) && c in cs;
    var k :| 0 <= k < |cs| && cs[k] == c;
    NewJournalSpec(d, cs);
    assert cs[k].entry == Some(BuildEntry(p)) && BuildEntry(p) in tx.newJournal.entries;
    AfterOpsSpec(d.dirs, tx.ops, |tx.ops|);
    assert c.op in tx.ops;
    var i :| 0 <= i < |tx.ops| && tx.ops[i] == c.op;
    var want := AfterOps(d.dirs, tx.ops, |tx.ops|);
    assert Settled(d.dirs, tx.ops[i], want);
    assert VerifyEntry(want, BuildEntry(p)) == Verified;
    BuiltEntryVerifiesIff(p);
  }

  lemma QuietIsHealthy(d: Disk)
    requires d.marker.None? && Quiet(d.dirs) && JournalVerifies(d.dirs, ReadJournal(d))
    ensures Healthy(d)
  {
    hide VerifyEntry, Reserved, StateName;
    forall q | q in d.dirs
      ensures !Reserved(d.home, q)
    {
      ReservedIsState(d.home, q);
    }
  }

  /** With usable names the call succeeds, and its result is healthy exactly when the batch is sound. */
  lemma NamedBatchSettlesIff(d: Disk, ev: Event)
    requires Sound(d) && BatchOk(d, ev) && AllNamed(ev)
    requires ev.request.plans != [] && (BatchChanges(d, ev) != [] || ev.newLock.Some?)
    ensures Perform(d, ev).status == Done
    ensures Healthy(Perform(d, ev).disk) <==>
      forall p :: p in ev.request.plans && PutsFiles(d, ev.alloc, p) ==> Plain(p.bundle)
  {
    hide Perform, Commit, Decide, Extract, Work, ChangesFit, NoConflict, Plain, BuildEntry, Check, JournalOf, Stageable, PlanValid,
      PublicName, JournalTidy, Reserved, JournalsOk, DocumentsOk, PutsFiles, StateName, VerifyEntry, OperationOk, AfterOps;
    var tx := BatchTx(d, ev);
    BatchPerforms(d, ev);
    BatchFits(d, ev);
    CommitSucceeds(d, tx, ev.env);
    AfterOpsIsQuiet(d.dirs, tx.ops);
    var after := Perform(d, ev).disk;
    assert after.dirs == NewDisk(d, tx).dirs && ReadJournal(after) == ReadJournal(NewDisk(d, tx));
    if forall p :: p in ev.request.plans && PutsFiles(d, ev.alloc, p) ==> Plain(p.bundle) {
      assert BatchSound(d, ev) by { NamesAreSound(d, ev); }
      SoundBatchIsOk(d, ev);
      NewJournalVerifies(d, BatchChanges(d, ev), tx);
      QuietIsHealthy(after);
    }
    if Healthy(after) {
      forall p | p in ev.request.plans && PutsFiles(d, ev.alloc, p)
        ensures Plain(p.bundle)
      {
        VerifiedBatchIsPlain(d, ev, p);
      }
    }
  }

  lemma NamesAreSound(d: Disk, ev: Event)
    requires ev.request.Install? && AllNamed(ev)
    ensures forall p :: p in ev.request.plans ==> SoundName(d.home, p.skillName)
  {
    hide PlanValid, StateName, Reserved, IsStage;
    forall p | p in ev.request.plans
      ensures SoundName(d.home, p.skillName)
    {
      assert PlanNamed(p);
      ReservedIsState(d.home, Destination(p.skillName));
    }
  }

  // ---------------------------------------------------------------- every batch

  /**
   From any settled installation, a conflict-free batch of valid, extractable plans, with enough power
   and no failing rename, reports success and leaves a healthy installation exactly when every plan that
   puts files in place has a name that is neither like a stage nor that of a document of the
   installation, and a bundle that hides no `.`. Names like a backup, or like a document of another
   scope, are left aside.
   */
  lemma BatchSettlesIff(d: Disk, ev: Event)
    requires Sound(d) && BatchOk(d, ev)
    requires forall p :: p in ev.request.plans && PutsFiles(d, ev.alloc, p) ==>
      PublicName(p.skillName) || !SoundName(d.home, p.skillName)
    ensures Perform(d, ev).status == Done && Healthy(Perform(d, ev).disk) <==> BatchSound(d, ev)
  {
    hide Perform, Decide, Extract, Work, Plain, PlanValid, PublicName, SoundName, PutsFiles, Healthy, Sound;
    var plans := ev.request.plans;
    if p :| p in plans && PutsFiles(d, ev.alloc, p) && !SoundName(d.home, p.skillName) {
      if Perform(d, ev).status == Done && Healthy(Perform(d, ev).disk) { HealthyNamesAreSound(d, ev, p); }
    } else {
      forall p | p in plans
        ensures PlanNamed(p)
      {
        assert PlanValid(p) && Decide(d, ev.alloc, p) != Refusal;
        if !PutsFiles(d, ev.alloc, p) { OthersAreNamed(d, ev.alloc, p); }
      }
      BatchPerforms(d, ev);
      if plans == [] || (BatchChanges(d, ev) == [] && ev.newLock.None?) {
        SoundIsHealthy(d);
        NothingIsPut(d, ev);
      } else {
        NamedBatchSettlesIff(d, ev);
      }
    }
  }

  lemma SoundIsHealthy(d: Disk)
    requires Sound(d)
    ensures Healthy(d)
  {
    hide JournalTidy, VerifyEntry, Quiet, Reserved;
    QuietIsHealthy(d);
  }

  lemma NothingIsPut(d: Disk, ev: Event)
    requires ev.request.Install? && (ev.request.plans == [] || BatchChanges(d, ev) == [])
    ensures forall p :: p in ev.request.plans ==> !PutsFiles(d, ev.alloc, p)
  {
    hide Decide;
    InstallChangesSpec(d, ev.alloc, ev.request.plans);
  }
}
