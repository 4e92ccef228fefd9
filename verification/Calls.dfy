/** Whole calls on a settled installation: exactly which are refused, and what an accepted one leaves. */
module Calls {
  import opened Options
  import opened Lockfile
  import opened Order
  import opened Paths
  import opened SkillTree
  import opened BundleFormat
  import opened Transaction
  import opened CrashSafety
  import opened RecoverySafety
  import opened CommitSafety
  import opened Changes
  import opened Planning
  import opened Runs
  import opened Batches
  import opened Progress
  import opened Settling
  import opened Verdicts

  /** Both lock values or none, and the one the caller saw is the one on disk. */
  predicate LockFits(d: Disk, ev: Event) {
    && (ev.expected.Some? <==> ev.newLock.Some?)
    && (ev.expected.Some? ==> ev.expected.value == ReadLock(d))
  }

  lemma LockFitsIff(d: Disk, ev: Event)
    requires Sound(d)
    ensures LockFits(d, ev) <==> LockAccepted(d, ev)
  {
    hide JournalTidy, JournalVerifies;
    QuietIsFree(d.dirs);
  }

  /** The call commits these changes, unless there is nothing to do. */
  lemma CallProceeds(d: Disk, ev: Event)
    requires Sound(d) && !ev.request.Open? && ev.request != Install([])
    requires ev.request.Removal? ==> ValidOwner(ev.request.owner)
    ensures
      Perform(d, ev) ==
        if !LockFits(d, ev) || ChangesFor(d, ev).None? then Out(d, ev.env, Refused)
        else if ev.dryRun || (ChangesFor(d, ev) == Some([]) && ev.newLock.None?) then Out(d, ev.env, Done)
        else Commit(d, TxOf(d, ChangesFor(d, ev).value, ev.alloc.stage, ev.expected, ev.newLock), ev.env)
  {
    hide Sound, Recover, Commit, JournalAccepted, ChangesFor, LockAccepted, LockFits, ValidOwner;
    SoundRecovers(d, ev.listing, ev.env);
    SoundJournal(d);
    LockFitsIff(d, ev);
  }

  // ---------------------------------------------------------------- refusals

  /** The changes can be staged. */
  ghost predicate CanStage(d: Disk, cs: seq<Change>) {
    Stageable(SortBy(OpsOf(cs), OperationOrder))
  }

  lemma CommitIsNotRefused(d: Disk, ev: Event)
    requires Sound(d) && EventOk(ev) && LockFits(d, ev) && ChangesFor(d, ev).Some? && CanStage(d, ChangesFor(d, ev).value)
    ensures Commit(d, TxOf(d, ChangesFor(d, ev).value, ev.alloc.stage, ev.expected, ev.newLock), ev.env).status != Refused
  {
    hide Sound, Commit, ChangesFor, ChangesOk, TxOk, AllocOk, PlanSafe, PlanValid;
    var cs := ChangesFor(d, ev).value;
    ChangesForOk(d, ev);
    assert IsStage(ev.alloc.stage) by { AllocHasStage(ev.alloc); }
    TxOfIsOk(d, cs, ev.alloc.stage, ev.expected, ev.newLock);
    CommitIsSafe(d, TxOf(d, cs, ev.alloc.stage, ev.expected, ev.newLock), ev.env);
  }

  lemma AllocHasStage(a: Alloc)
    requires AllocOk(a)
    ensures IsStage(a.stage)
  {
  }

  ghost predicate AllExtract(ps: seq<Plan>) {
    forall p :: p in ps ==> Extract(map[], p.bundle).Extracted?
  }

  lemma InstallCanStage(d: Disk, a: Alloc, ps: seq<Plan>)
    requires Sound(d) && AllocOk(a) && AllExtract(ps)
    requires forall p :: p in ps ==> PlanSafe(p)
    requires forall i, j :: 0 <= i < j < |ps| ==> ps[i].skillName != ps[j].skillName
    ensures CanStage(d, InstallChanges(d, a, ps))
  {
    hide Sound, AllocOk, PlanSafe, Decide, Extract, ChangesFit, ChangesOk;
    var cs := InstallChanges(d, a, ps);
    InstallChangesOk(d, a, ps);
    InstallChangesSpec(d, a, ps);
    OpsSpec(d, cs);
    var ops := SortBy(OpsOf(cs), OperationOrder);
    forall i | 0 <= i < |ops| && ops[i].kind == Replace
      ensures ops[i].bundle.Some? && Extract(map[], ops[i].bundle.value).Extracted?
    {
      assert ops[i] in ops;
      var k :| 0 <= k < |cs| && cs[k].op == ops[i];
      assert cs[k] in cs;
      var p :| p in ps && Decide(d, a, p) == Changing(cs[k]);
      DecideBundle(d, a, p);
    }
  }

  /**
   An install on a settled installation is refused exactly when the lock does not fit, or some plan is
   invalid, aims at another's destination, or cannot be installed.
   */
  lemma InstallRefusedIff(d: Disk, ev: Event)
    requires Sound(d) && EventOk(ev) && ev.request.Install? && AllExtract(ev.request.plans)
    ensures Perform(d, ev).status == Refused <==>
      || !LockFits(d, ev)
      || !PlansValid(ev.request.plans)
      || exists p :: p in ev.request.plans && !Installable(d, ev.alloc, p)
  {
    hide Sound, Commit, Perform, Installable, PlanValid, PlanSafe, AllocOk, CanStage, LockFits, Extract;
    var ps := ev.request.plans;
    if ps == [] {
      NoPlans(d, ev);
    } else {
      CallProceeds(d, ev);
      SoundShape(d);
      BatchAcceptedIff(d, ev.alloc, ps);
      if LockFits(d, ev) && ChangesFor(d, ev).Some? {
        forall p | p in ps
          ensures PlanSafe(p)
        {
          assert PlanValid(p);
        }
        InstallCanStage(d, ev.alloc, ps);
        CommitIsNotRefused(d, ev);
      }
    }
  }

  lemma NoPlans(d: Disk, ev: Event)
    requires Sound(d) && ev.request == Install([])
    ensures Perform(d, ev) == Out(d, ev.env, if LockFits(d, ev) then Done else Refused)
  {
    hide Sound, Recover, Commit, JournalAccepted, LockAccepted, LockFits;
    SoundRecovers(d, ev.listing, ev.env);
    SoundJournal(d);
    LockFitsIff(d, ev);
  }

  lemma RemovalCanStage(d: Disk, a: Alloc, owner: string, es: seq<Entry>)
    requires Sound(d) && AllocOk(a) && Selection(ReadJournal(d), owner, es)
    ensures CanStage(d, RemovalChanges(d, a, owner, es))
  {
    hide Sound, AllocOk, DecideRemoval, ChangesFit, ChangesOk;
    var cs := RemovalChanges(d, a, owner, es);
    RemovalChangesOk(d, a, owner, es);
    RemovalChangesSpec(d, a, owner, es);
    OpsSpec(d, cs);
    var ops := SortBy(OpsOf(cs), OperationOrder);
    forall i | 0 <= i < |ops|
      ensures ops[i].kind != Replace
    {
      assert ops[i] in ops;
      var k :| 0 <= k < |cs| && cs[k].op == ops[i];
      assert cs[k] in cs;
      var e :| e in es && DecideRemoval(d, a, owner, e) == Changing(cs[k]);
      RemovalKinds(d, a, owner, e);
    }
  }

  lemma RemovalKinds(d: Disk, a: Alloc, owner: string, e: Entry)
    requires DecideRemoval(d, a, owner, e).Changing?
    ensures DecideRemoval(d, a, owner, e).change.op.kind != Replace
  {
    hide VerifyEntry, UniqueSorted;
  }

  /** The entries a removal is about: the owner's, of the given names or all. */
  ghost predicate Meant(d: Disk, owner: string, names: seq<string>, e: Entry) {
    e in ReadJournal(d).entries && owner in e.owners && (names == [] || e.skillName in names)
  }

  /**
   A removal on a settled installation is refused exactly when the owner is no owner, the lock does not fit,
   the names cannot be selected, or some entry that is meant cannot be released.
   */
  lemma RemovalRefusedIff(d: Disk, ev: Event)
    requires Sound(d) && EventOk(ev) && ev.request.Removal?
    ensures
      var owner, names := ev.request.owner, ev.request.names;
      Perform(d, ev).status == Refused <==>
        || owner == "" || '\0' in owner
        || !LockFits(d, ev)
        || !Selectable(ReadJournal(d), owner, names)
        || exists e :: Meant(d, owner, names, e) && !Releasable(d, ev.alloc, owner, e)
  {
    hide Sound, Commit, Perform, Releasable, AllocOk, CanStage, LockFits, Selectable, JournalTidy;
    var owner, names := ev.request.owner, ev.request.names;
    if !ValidOwner(owner) {
      BadOwner(d, ev);
    } else {
      CallProceeds(d, ev);
      SoundShape(d);
      SelectedIff(ReadJournal(d), owner, names);
      if Selected(ReadJournal(d), owner, names).Some? {
        var es := Selected(ReadJournal(d), owner, names).value;
        RemovalAcceptedIff(d, ev.alloc, owner, es);
        assert JournalTidy(ReadJournal(d)) by { SoundJournal(d); }
        SelectedSpec(ReadJournal(d), owner, names);
        if LockFits(d, ev) && ChangesFor(d, ev).Some? {
          RemovalCanStage(d, ev.alloc, owner, es);
          CommitIsNotRefused(d, ev);
        }
      }
    }
  }

  lemma BadOwner(d: Disk, ev: Event)
    requires ev.request.Removal? && !ValidOwner(ev.request.owner)
    ensures Perform(d, ev) == Out(d, ev.env, Refused)
  {
  }

  // ---------------------------------------------------------------- what an accepted call leaves

  /** Power for the call, and no failing rename. */
  ghost predicate Powered(d: Disk, ev: Event, cs: seq<Change>) {
    var tx := TxOf(d, cs, ev.alloc.stage, ev.expected, ev.newLock);
    ev.env.power >= Work(tx) && ev.env.renames >= 2 * |tx.ops|
  }

  /** The same directories, the same journal, the lock value that was asked for, and nothing in flight. */
  ghost predicate Reached(d: Disk, ev: Event, want: Disk, r: Disk) {
    && r.dirs == want.dirs && ReadJournal(r) == ReadJournal(want) && r.marker.None?
    && ReadLock(r) == if ev.newLock.Some? then ev.newLock.value else ReadLock(d)
  }

  lemma CallReaches(d: Disk, ev: Event)
    requires Sound(d) && EventOk(ev) && !ev.request.Open? && ev.request != Install([]) && !ev.dryRun && LockFits(d, ev)
    requires ev.request.Removal? ==> ValidOwner(ev.request.owner)
    requires ChangesFor(d, ev).Some? && CanStage(d, ChangesFor(d, ev).value) && Powered(d, ev, ChangesFor(d, ev).value)
    ensures Perform(d, ev).status == Done
    ensures Reached(d, ev, Applying(d, ChangesFor(d, ev).value), Perform(d, ev).disk)
  {
    hide Sound, Commit, Perform, ChangesFor, ChangesOk, TxOk, TxFits, AllocOk, PlanSafe, PlanValid, Work, AfterOps, JournalOf, ValidOwner;
    var cs := ChangesFor(d, ev).value;
    CallProceeds(d, ev);
    if cs == [] && ev.newLock.None? {
      NothingApplied(d);
      SoundHasNoMarker(d);
    } else {
      var tx := TxOf(d, cs, ev.alloc.stage, ev.expected, ev.newLock);
      ChangesForOk(d, ev);
      AllocHasStage(ev.alloc);
      TxOfIsOk(d, cs, ev.alloc.stage, ev.expected, ev.newLock);
      OkTxFits(d, tx);
      CommitSucceeds(d, tx, ev.env);
    }
  }

  lemma SoundHasNoMarker(d: Disk)
    requires Sound(d)
    ensures d.marker.None?
  {
  }

  /**
   An install whose plans can all be installed succeeds and leaves each plan as the journal and the
   directories before it say: new, shared with its owners, or replaced with a backup. Skills that no plan
   names stay as they were.
   */
  lemma InstallLeaves(d: Disk, ev: Event)
    requires Sound(d) && EventOk(ev) && ev.request.Install? && ev.request.plans != [] && !ev.dryRun && LockFits(d, ev)
    requires PlansValid(ev.request.plans) && AllExtract(ev.request.plans)
    requires forall p :: p in ev.request.plans ==> Installable(d, ev.alloc, p)
    requires Powered(d, ev, InstallChanges(d, ev.alloc, ev.request.plans))
    ensures Perform(d, ev).status == Done
    ensures
      var r := Perform(d, ev).disk;
      && (forall p :: p in ev.request.plans ==> Installed(d, r, ev.alloc, p))
      && (forall e :: e in ReadJournal(d).entries && (forall p :: p in ev.request.plans ==> p.skillName != e.skillName) ==> Kept(d, r, e))
  {
    hide Sound, Perform, Installable, PlanValid, PlanSafe, AllocOk, CanStage, LockFits, Extract, Powered, Decide, Applying, Installed,
      Kept, JournalShape, ChangesFit, ChangesOk;
    var ps, a := ev.request.plans, ev.alloc;
    var want := Applying(d, InstallChanges(d, a, ps));
    SoundShape(d);
    BatchAcceptedIff(d, a, ps);
    forall p | p in ps
      ensures PlanSafe(p)
    {
      assert PlanValid(p);
    }
    InstallCanStage(d, a, ps);
    assert ChangesFor(d, ev) == Some(InstallChanges(d, a, ps));
    CallReaches(d, ev);
    var r := Perform(d, ev).disk;
    forall p | p in ps
      ensures Installed(d, r, a, p)
    {
      PlanIsInstalled(d, a, ps, p);
      InstalledIsRead(d, want, r, a, p);
    }
    forall e | e in ReadJournal(d).entries && forall p :: p in ps ==> p.skillName != e.skillName
      ensures Kept(d, r, e)
    {
      OtherSkillIsKept(d, a, ps, e);
      KeptIsRead(d, want, r, e);
    }
  }

  lemma PlanIsInstalled(d: Disk, a: Alloc, ps: seq<Plan>, p: Plan)
    requires Sound(d) && AllocOk(a) && Batch(ps) && p in ps && NoConflict(d, a, ps) && Installable(d, a, p)
    ensures Installed(d, Applying(d, InstallChanges(d, a, ps)), a, p)
  {
    hide Sound, AllocOk, Batch, Applying, Shares, Replaces, Vacant, Written, Shared, Retained, NoConflict, Installable;
    if Vacant(d, p.skillName) || exists e :: Replaces(d, a, p, e) { PlanWriting(d, a, ps, p); }
    forall e | Shares(d, p, e)
      ensures Shared(d, Applying(d, InstallChanges(d, a, ps)), p, e)
    {
      PlanSharing(d, a, ps, p, e);
    }
  }

  lemma InstalledIsRead(d: Disk, want: Disk, r: Disk, a: Alloc, p: Plan)
    requires Installed(d, want, a, p) && r.dirs == want.dirs && ReadJournal(r) == ReadJournal(want)
    ensures Installed(d, r, a, p)
  {
    hide Vacant, Shares, Replaces, Holds;
    if Written(want, p) {
      var f :| InstalledUnder(want, p.skillName, f) && f.skillName == p.skillName && f.digest == p.artifactDigest && f.owners == [p.owner];
      assert InstalledUnder(r, p.skillName, f);
    }
    forall e | Shared(d, want, p, e)
      ensures Shared(d, r, p, e)
    {
      var f :| InstalledUnder(want, p.skillName, f) && f == e.(owners := f.owners)
               && forall o :: o in f.owners <==> o in e.owners || o == p.owner;
      assert InstalledUnder(r, p.skillName, f);
    }
  }

  lemma KeptIsRead(d: Disk, want: Disk, r: Disk, e: Entry)
    requires Kept(d, want, e) && r.dirs == want.dirs && ReadJournal(r) == ReadJournal(want)
    ensures Kept(d, r, e)
  {
  }

  lemma OtherSkillIsKept(d: Disk, a: Alloc, ps: seq<Plan>, e: Entry)
    requires Sound(d) && AllocOk(a) && Batch(ps) && e in ReadJournal(d).entries
    requires forall p :: p in ps ==> p.skillName != e.skillName
    ensures Kept(d, Applying(d, InstallChanges(d, a, ps)), e)
  {
    hide Sound, AllocOk, Applying, PlanSafe, Extract, Decide, ChangesFit, ChangesOk, ChangeOk, ChangeFits, ResultOf, Kept, JournalShape;
    var cs := InstallChanges(d, a, ps);
    InstallChangesOk(d, a, ps);
    InstallChangesSpec(d, a, ps);
    ApplyingSpec(d, cs);
    SoundShape(d);
    forall k | 0 <= k < |cs|
      ensures cs[k].op.destination != e.destination
    {
      assert cs[k] in cs;
      var p :| p in ps && Decide(d, a, p) == Changing(cs[k]);
      DecideIsProper(d, a, p);
      if e.destination == Child(Root, p.skillName) { PlaceNames(ReadJournal(d), e, p.skillName); }
    }
    UnaffectedIsKept(d, cs, Applying(d, cs), e);
  }

  /**
   A removal whose entries can all be released succeeds: the owner leaves every entry that is meant, the last
   owner takes the skill along, and every other skill stays as it was.
   */
  lemma RemovalLeaves(d: Disk, ev: Event)
    requires Sound(d) && EventOk(ev) && ev.request.Removal? && !ev.dryRun && LockFits(d, ev) && ValidOwner(ev.request.owner)
    requires Selectable(ReadJournal(d), ev.request.owner, ev.request.names)
    requires forall e :: Meant(d, ev.request.owner, ev.request.names, e) ==> Releasable(d, ev.alloc, ev.request.owner, e)
    requires ChangesFor(d, ev).Some? ==> Powered(d, ev, ChangesFor(d, ev).value)
    ensures Perform(d, ev).status == Done
    ensures
      var r, owner, names := Perform(d, ev).disk, ev.request.owner, ev.request.names;
      forall e :: e in ReadJournal(d).entries ==>
        if Meant(d, owner, names, e) then Verdicts.Released(d, r, owner, e) else Kept(d, r, e)
  {
    hide Sound, Perform, Releasable, AllocOk, CanStage, LockFits, Selectable, JournalTidy, ValidOwner, Powered, DecideRemoval, Applying,
      Kept, Verdicts.Released, JournalShape, ValidSkillName;
    var owner, names, a := ev.request.owner, ev.request.names, ev.alloc;
    SoundShape(d);
    SelectedIff(ReadJournal(d), owner, names);
    var es := Selected(ReadJournal(d), owner, names).value;
    RemovalAcceptedIff(d, a, owner, es);
    assert JournalTidy(ReadJournal(d)) by { SoundJournal(d); }
    SelectedSpec(ReadJournal(d), owner, names);
    RemovalCanStage(d, a, owner, es);
    assert ChangesFor(d, ev) == Some(RemovalChanges(d, a, owner, es));
    CallReaches(d, ev);
    var want, r := Applying(d, RemovalChanges(d, a, owner, es)), Perform(d, ev).disk;
    forall e | e in ReadJournal(d).entries
      ensures if Meant(d, owner, names, e) then Verdicts.Released(d, r, owner, e) else Kept(d, r, e)
    {
      if Meant(d, owner, names, e) {
        assert e in es;
        RemovalReleases(d, a, owner, es, e);
        ReleasedIsRead(d, want, r, owner, e);
      } else {
        OtherEntryIsKept(d, a, owner, es, e);
        KeptIsRead(d, want, r, e);
      }
    }
  }

  lemma ReleasedIsRead(d: Disk, want: Disk, r: Disk, owner: string, e: Entry)
    requires Verdicts.Released(d, want, owner, e) && r.dirs == want.dirs && ReadJournal(r) == ReadJournal(want)
    ensures Verdicts.Released(d, r, owner, e)
  {
  }

  lemma OtherEntryIsKept(d: Disk, a: Alloc, owner: string, es: seq<Entry>, e: Entry)
    requires Sound(d) && AllocOk(a) && Selection(ReadJournal(d), owner, es) && e in ReadJournal(d).entries && e !in es
    ensures Kept(d, Applying(d, RemovalChanges(d, a, owner, es)), e)
  {
    hide Sound, AllocOk, Applying, DecideRemoval, ChangesFit, ChangesOk, ChangeOk, ChangeFits, ResultOf, Kept, JournalShape;
    var cs := RemovalChanges(d, a, owner, es);
    RemovalChangesOk(d, a, owner, es);
    RemovalChangesSpec(d, a, owner, es);
    ApplyingSpec(d, cs);
    SoundShape(d);
    forall k | 0 <= k < |cs|
      ensures cs[k].op.destination != e.destination
    {
      assert cs[k] in cs;
      var f :| f in es && DecideRemoval(d, a, owner, f) == Changing(cs[k]);
      DecideRemovalIsProper(d, a, owner, f);
      if e.destination == f.destination { OneEntryPerPlace(ReadJournal(d), e, f); }
    }
    UnaffectedIsKept(d, cs, Applying(d, cs), e);
  }
}
