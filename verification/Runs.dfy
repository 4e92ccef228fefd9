/**
 Whole runs of the installer: any sequence of installs, removals and openings, each cut off at any
 durable action.

 `Represents(l, d)` says that the disk `d`, whatever a crash left on it, stands for the settled
 installation `l`. Every event takes the installation it found to itself or to the result of its
 own transaction, never to anything in between.
 */
module Runs {
  import opened Options
  import opened Lockfile
  import opened Paths
  import opened SkillTree
  import opened BundleFormat
  import opened Transaction
  import opened CrashSafety
  import opened RecoverySafety
  import opened CommitSafety
  import opened Changes
  import opened Planning

  // ---------------------------------------------------------------- events

  datatype Request =
    | Install(plans: seq<Plan>)
    | Removal(owner: string, names: seq<string>)
    | Open

  /** One call of the library, with its private names and its share of luck. */
  datatype Event = Event(
    request: Request,
    expected: Option<LockFile>,
    newLock: Option<LockFile>,
    dryRun: bool,
    alloc: Alloc,
    listing: seq<Path>,
    env: Env)

  /** `prepare_lock_change`: both values or none, and the expected one must be current. */
  predicate LockAccepted(d: Disk, ev: Event) {
    && (ev.expected.Some? <==> ev.newLock.Some?)
    && (ev.expected.Some? ==> LockPath(d.home) !in d.dirs && ev.expected.value == ReadLock(d))
  }

  /** `read_checked_journal`: the journal can be read and every entry has its own place. */
  predicate JournalAccepted(d: Disk) {
    JOURNAL_PATH !in d.dirs && JournalShape(ReadJournal(d)) && NoFileAt(d, ReadJournal(d))
  }

  /** The changes a request asks of a disk; `None` when it is turned down. */
  ghost function ChangesFor(d: Disk, ev: Event): Option<seq<Change>> {
    match ev.request
    case Open => Some([])
    case Install(plans) =>
      if PlansValid(plans) && NoConflict(d, ev.alloc, plans) then Some(InstallChanges(d, ev.alloc, plans)) else None
    case Removal(owner, names) =>
      match Selected(ReadJournal(d), owner, names)
      case None => None
      case Some(es) =>
        if NoRemovalConflict(d, ev.alloc, owner, es) then Some(RemovalChanges(d, ev.alloc, owner, es)) else None
  }

  /** The transaction an event commits on a settled disk, if any. */
  ghost function TxFor(d: Disk, ev: Event): Option<Tx> {
    if ev.request.Open? || !LockAccepted(d, ev) || ev.dryRun then None
    else if ev.request == Install([]) then None
    else
      match ChangesFor(d, ev)
      case None => None
      case Some(cs) =>
        if cs == [] && ev.newLock.None? then None
        else Some(TxOf(d, cs, ev.alloc.stage, ev.expected, ev.newLock))
  }

  /** What a call does on a recovered disk: plan, then commit. */
  ghost function Proceed(d: Disk, ev: Event, env: Env): Out {
    if ev.request.Open? then Out(d, env, Done)
    else if !LockAccepted(d, ev) || !JournalAccepted(d) then Out(d, env, Refused)
    else if ev.request == Install([]) then Out(d, env, Done)
    else
      match ChangesFor(d, ev)
      case None => Out(d, env, Refused)
      case Some(cs) =>
        if ev.dryRun || (cs == [] && ev.newLock.None?) then Out(d, env, Done)
        else Commit(d, TxOf(d, cs, ev.alloc.stage, ev.expected, ev.newLock), env)
  }

  /** One call: recover first, whatever the last call left behind. */
  ghost function Perform(d: Disk, ev: Event): Out {
    if ev.request.Removal? && !ValidOwner(ev.request.owner) then Out(d, ev.env, Refused)
    else
      var r := Recover(d, ev.listing, ev.env);
      if r.status != Done then r else Proceed(r.disk, ev, r.env)
  }

  /** What the model asks of an event: allocated names, and plans with public names and plain bundles. */
  ghost predicate EventOk(ev: Event) {
    && AllocOk(ev.alloc)
    && (ev.request.Install? ==> forall p :: p in ev.request.plans && PlanValid(p) ==> PlanSafe(p))
  }

  // ---------------------------------------------------------------- the settled disk behind a disk

  /** `base` and `tx` account for `d`. */
  ghost predicate Explains(base: Disk, tx: Tx, d: Disk) {
    && Sound(base)
    && TxOk(base, tx)
    && (Stageable(tx.ops) ==> Sound(NewDisk(base, tx)))
    && Interrupted(base, tx, d)
  }

  ghost predicate Represents(l: Disk, d: Disk) {
    Sound(l) && exists base, tx :: Explains(base, tx, d) && Alike(Target(base, tx, d), l)
  }

  /** The atomic machine: an event changes nothing, or commits its own transaction. */
  ghost predicate AtomicStep(l: Disk, ev: Event, l': Disk) {
    || Alike(l', l)
    || (TxFor(l, ev).Some? && Alike(l', NewDisk(l, TxFor(l, ev).value)))
  }

  // ---------------------------------------------------------------- settled disks represent themselves

  function IdleTx(d: Disk): Tx {
    Tx(ReadJournal(d), ReadJournal(d), [], Child(Root, STAGE_PREFIX), None, None)
  }

  lemma IdleTxIsOk(d: Disk)
    requires Sound(d)
    ensures TxOk(d, IdleTx(d)) && Sound(NewDisk(d, IdleTx(d)))
  {
    TidyIsPlain(ReadJournal(d));
    TidyJournalShape(ReadJournal(d));
  }

  lemma IdleExplains(d: Disk)
    requires Sound(d)
    ensures Explains(d, IdleTx(d), d) && Target(d, IdleTx(d), d) == d
  {
    IdleTxIsOk(d);
    forall q | InStage(q)
      ensures q !in d.dirs
    {
      StageIsAbsent(d.dirs, q);
    }
    assert Unmarked(d, d);
  }

  lemma SoundRepresentsItself(d: Disk, l: Disk)
    requires Sound(d) && Alike(d, l)
    ensures Represents(l, d)
  {
    hide Explains, Sound, Target;
    IdleExplains(d);
    SoundIsObserved(d, l);
  }

  // ---------------------------------------------------------------- readers cannot tell alike disks apart

  lemma AlikeSameVerdict(a: Disk, b: Disk, alloc: Alloc, p: Plan)
    requires Alike(a, b) && PublicName(p.skillName)
    ensures Decide(a, alloc, p) == Decide(b, alloc, p)
  {
    hide IsFile, StateName, VerifyEntry;
    PlainIsNoFile(a, Destination(p.skillName));
    PlainIsNoFile(b, Destination(p.skillName));
  }

  lemma AlikeSameChanges(a: Disk, b: Disk, ev: Event)
    requires Alike(a, b) && EventOk(ev)
    ensures ChangesFor(a, ev) == ChangesFor(b, ev)
    ensures TxFor(a, ev) == TxFor(b, ev)
  {
    hide AllocOk, PlanValid, Plain, Decide, PublicName;
    match ev.request
    case Open =>
    case Install(plans) =>
      if PlansValid(plans) {
        forall p | p in plans
          ensures PublicName(p.skillName) && Decide(a, ev.alloc, p) == Decide(b, ev.alloc, p)
        {
          assert PlanValid(p) && PlanSafe(p);
          AlikeSameVerdict(a, b, ev.alloc, p);
        }
        AlikeSameInstall(a, b, ev.alloc, plans);
      }
    case Removal(owner, names) =>
      forall e: Entry
        ensures DecideRemoval(a, ev.alloc, owner, e) == DecideRemoval(b, ev.alloc, owner, e)
      {
      }
      if Selected(ReadJournal(a), owner, names).Some? {
        AlikeSameRemoval(a, b, ev.alloc, owner, Selected(ReadJournal(a), owner, names).value);
      }
  }

  lemma {:induction false} AlikeSameInstall(a: Disk, b: Disk, alloc: Alloc, ps: seq<Plan>)
    requires forall p :: p in ps ==> Decide(a, alloc, p) == Decide(b, alloc, p)
    ensures InstallChanges(a, alloc, ps) == InstallChanges(b, alloc, ps)
  {
    if ps != [] { AlikeSameInstall(a, b, alloc, ps[1..]); }
  }

  lemma {:induction false} AlikeSameRemoval(a: Disk, b: Disk, alloc: Alloc, owner: string, es: seq<Entry>)
    requires Alike(a, b)
    ensures RemovalChanges(a, alloc, owner, es) == RemovalChanges(b, alloc, owner, es)
  {
    if es != [] { AlikeSameRemoval(a, b, alloc, owner, es[1..]); }
  }

  // ---------------------------------------------------------------- events on settled disks

  lemma ChangesForOk(d: Disk, ev: Event)
    requires Sound(d) && EventOk(ev) && ChangesFor(d, ev).Some?
    ensures ChangesOk(d, ChangesFor(d, ev).value)
  {
    hide Sound, ChangeOk, PlanSafe, PlanValid, NoConflict, NoRemovalConflict;
    match ev.request
    case Open =>
    case Install(plans) =>
      forall p | p in plans
        ensures PlanSafe(p)
      {
        assert PlanValid(p);
      }
      InstallChangesOk(d, ev.alloc, plans);
    case Removal(owner, names) =>
      assert JournalTidy(ReadJournal(d)) by { SoundJournal(d); }
      SelectedSpec(ReadJournal(d), owner, names);
      RemovalChangesOk(d, ev.alloc, owner, Selected(ReadJournal(d), owner, names).value);
  }

  lemma SoundJournal(d: Disk)
    requires Sound(d)
    ensures JournalTidy(ReadJournal(d)) && JournalAccepted(d)
  {
    hide EntryTidy, IsFile, StateName;
    TidyJournalShape(ReadJournal(d));
    TidyIsPlain(ReadJournal(d));
    NoFilesAtEntries(d, ReadJournal(d));
    QuietIsFree(d.dirs);
  }

  lemma TxForIsOk(d: Disk, ev: Event)
    requires Sound(d) && EventOk(ev) && TxFor(d, ev).Some?
    ensures TxOk(d, TxFor(d, ev).value)
    ensures Stageable(TxFor(d, ev).value.ops) ==> Sound(NewDisk(d, TxFor(d, ev).value))
  {
    hide Sound, TxOk, ChangesFor, ChangesOk;
    ChangesForOk(d, ev);
    var cs := ChangesFor(d, ev).value;
    TxOfIsOk(d, cs, ev.alloc.stage, ev.expected, ev.newLock);
    if Stageable(TxFor(d, ev).value.ops) {
      NewDiskIsSound(d, cs, ev.alloc.stage, ev.expected, ev.newLock);
    }
  }

  /** A commit on a settled disk is atomic for every crash point and every failing rename. */
  lemma CommitIsAtomic(d: Disk, ev: Event, env: Env) returns (l: Disk)
    requires Sound(d) && EventOk(ev) && TxFor(d, ev).Some?
    ensures Represents(l, Commit(d, TxFor(d, ev).value, env).disk)
    ensures Alike(l, d) || Alike(l, NewDisk(d, TxFor(d, ev).value))
    ensures Commit(d, TxFor(d, ev).value, env).status == Done ==> Alike(l, NewDisk(d, TxFor(d, ev).value))
  {
    hide Commit, TxOk, Sound, TxFor, Stageable, Unmarked, InFlight;
    var tx := TxFor(d, ev).value;
    TxForIsOk(d, ev);
    CommitIsSafe(d, tx, env);
    var o := Commit(d, tx, env);
    match o.status
    case Done =>
      l := NewDisk(d, tx);
      SoundIsObserved(l, o.disk);
      SoundRepresentsItself(o.disk, l);
    case Crashed =>
      l := Target(d, tx, o.disk);
      assert Explains(d, tx, o.disk);
      TargetIsSound(d, tx, o.disk);
    case IoFault =>
      l := d;
      SoundRepresentsItself(d, d);
    case Refused =>
      l := d;
      SoundRepresentsItself(d, d);
  }

  lemma TargetIsSound(base: Disk, tx: Tx, d: Disk)
    requires Explains(base, tx, d)
    ensures Sound(Target(base, tx, d))
  {
  }

  // ---------------------------------------------------------------- one event

  lemma ProceedIsAtomic(d: Disk, ev: Event, env: Env) returns (l: Disk)
    requires Sound(d) && EventOk(ev)
    ensures Represents(l, Proceed(d, ev, env).disk)
    ensures AtomicStep(d, ev, l)
    ensures Proceed(d, ev, env).status == Done && TxFor(d, ev).Some? ==> Alike(l, NewDisk(d, TxFor(d, ev).value))
  {
    hide Commit, Sound, Represents, EventOk, JournalAccepted, ChangesFor, NewDisk;
    if TxFor(d, ev).Some? && JournalAccepted(d) {
      l := CommitIsAtomic(d, ev, env);
    } else {
      l := d;
      SoundRepresentsItself(d, d);
      SoundJournal(d);
    }
  }

  lemma AlikeNewDisk(a: Disk, b: Disk, tx: Tx)
    requires Alike(a, b)
    ensures Alike(NewDisk(a, tx), NewDisk(b, tx))
  {
  }

  lemma AlikeTransitive(a: Disk, b: Disk, c: Disk)
    requires Alike(a, b) && Alike(b, c)
    ensures Alike(a, c)
  {
  }

  /**
   One event from any disk: it leaves a disk that stands for the installation before the event or
   for the result of the event's own transaction. A successful commit stands for the latter.
   */
  lemma StepIsAtomic(l: Disk, d: Disk, ev: Event) returns (l': Disk)
    requires Represents(l, d) && EventOk(ev) && Lists(ev.listing, d.dirs)
    ensures Represents(l', Perform(d, ev).disk)
    ensures AtomicStep(l, ev, l')
    ensures Perform(d, ev).status == Done && TxFor(l, ev).Some? ==> Alike(l', NewDisk(l, TxFor(l, ev).value))
  {
    hide Recover, Proceed, TxOk, Sound, Interrupted, TxFor, NewDisk, Target, EventOk, Lists;
    var base, tx :| Explains(base, tx, d) && Alike(Target(base, tx, d), l);
    RecoverIsSafe(base, tx, d, ev.listing, ev.env);
    var r := Recover(d, ev.listing, ev.env);
    if ev.request.Removal? && !ValidOwner(ev.request.owner) {
      l' := l;
    } else if r.status == Crashed {
      l' := l;
      assert Explains(base, tx, r.disk);
    } else {
      AlikeTransitive(r.disk, Target(base, tx, d), l);
      SoundIsObserved(l, r.disk);
      l' := ProceedIsAtomic(r.disk, ev, r.env);
      AlikeSameChanges(r.disk, l, ev);
      if TxFor(l, ev).Some? {
        AlikeNewDisk(r.disk, l, TxFor(l, ev).value);
      }
    }
  }

  // ---------------------------------------------------------------- runs

  ghost function Run(d: Disk, evs: seq<Event>, n: nat): Disk
    requires n <= |evs|
  {
    if n == 0 then d else Perform(Run(d, evs, n - 1), evs[n - 1]).disk
  }

  /** Every event is admissible where it happens. */
  ghost predicate RunOk(d: Disk, evs: seq<Event>) {
    forall i :: 0 <= i < |evs| ==> EventOk(evs[i]) && Lists(evs[i].listing, Run(d, evs, i).dirs)
  }

  /** `ls` is the history of settled installations behind the first `n` events of a run. */
  ghost predicate History(d: Disk, evs: seq<Event>, n: nat, ls: seq<Disk>)
    requires n <= |evs|
  {
    && |ls| == n + 1
    && (forall i :: 0 <= i <= n ==> Represents(ls[i], Run(d, evs, i)))
    && (forall i :: 0 <= i < n ==> AtomicStep(ls[i], evs[i], ls[i + 1]))
  }

  /**
   Safety over all runs. From a settled installation, whatever is requested and wherever the power
   fails, there is a history of settled installations: each disk of the run stands for one, and
   each event leads from one to itself or to the result of its own transaction.
   */
  lemma {:induction false} RunsAreAtomic(d: Disk, evs: seq<Event>, n: nat) returns (ls: seq<Disk>)
    requires Sound(d) && RunOk(d, evs) && n <= |evs|
    ensures History(d, evs, n, ls) && ls[0] == d
    decreases n
  {
    hide Represents, AtomicStep, Perform, Sound, EventOk, Lists;
    if n == 0 {
      SoundRepresentsItself(d, d);
      ls := [d];
    } else {
      var before := RunsAreAtomic(d, evs, n - 1);
      var l' := StepIsAtomic(before[n - 1], Run(d, evs, n - 1), evs[n - 1]);
      ls := before + [l'];
      HistoryGrows(d, evs, n, before, l');
    }
  }

  lemma HistoryGrows(d: Disk, evs: seq<Event>, n: nat, before: seq<Disk>, l': Disk)
    requires 0 < n <= |evs| && History(d, evs, n - 1, before)
    requires Represents(l', Run(d, evs, n)) && AtomicStep(before[n - 1], evs[n - 1], l')
    ensures History(d, evs, n, before + [l'])
  {
    hide Represents, AtomicStep, Run;
    var ls := before + [l'];
    forall i | 0 <= i <= n
      ensures Represents(ls[i], Run(d, evs, i))
    {
      if i < n { assert ls[i] == before[i]; }
    }
    forall i | 0 <= i < n
      ensures AtomicStep(ls[i], evs[i], ls[i + 1])
    {
      assert ls[i] == before[i];
      if i + 1 < n { assert ls[i + 1] == before[i + 1]; }
    }
  }

  // ---------------------------------------------------------------- what histories keep

  /** A lock value changes only from the value its writer had read to the value it wrote. */
  lemma LockStep(l: Disk, ev: Event, l': Disk)
    requires AtomicStep(l, ev, l')
    ensures
      || ReadLock(l') == ReadLock(l)
      || (ev.expected == Some(ReadLock(l)) && ev.newLock == Some(ReadLock(l')))
  {
  }

  /**
   No lost lock updates. Along any run, the committed lock values form a chain: whenever the value
   changes, the caller had presented the current value as its own reading.
   */
  lemma NoLostUpdates(d: Disk, evs: seq<Event>, ls: seq<Disk>, i: nat)
    requires i < |evs| && History(d, evs, |evs|, ls)
    ensures ReadLock(ls[i + 1]) != ReadLock(ls[i]) ==>
      evs[i].expected == Some(ReadLock(ls[i])) && evs[i].newLock == Some(ReadLock(ls[i + 1]))
  {
    LockStep(ls[i], evs[i], ls[i + 1]);
  }

  lemma OutsideAfterOps(base: Disk, tx: Tx, p: Path)
    requires TxOk(base, tx)
    requires IsPlain(p) && !Journaled(tx.oldJournal, p) && !Journaled(tx.newJournal, p)
    ensures Same(AfterOps(base.dirs, tx.ops, |tx.ops|), base.dirs, p)
  {
    hide JournalShape, JournalVerifies;
    AfterOpsSpec(base.dirs, tx.ops, |tx.ops|);
    if Touched(tx.ops, p) { TouchedIsJournaled(base, tx, p); }
  }

  lemma TouchedIsJournaled(base: Disk, tx: Tx, p: Path)
    requires TxOk(base, tx) && IsPlain(p) && Touched(tx.ops, p)
    ensures Journaled(tx.oldJournal, p) || Journaled(tx.newJournal, p)
  {
    hide JournalShape, JournalVerifies;
    var i :| 0 <= i < |tx.ops| && (tx.ops[i].destination == p || tx.ops[i].backup == Some(p));
    assert OperationOk(base.dirs, tx.ops[i]);
    KindsAreApart(p);
  }

  // ---------------------------------------------------------------- one disk, one installation

  /** A power budget that is enough for any recovery of `d`. */
  function Enough(d: Disk, listing: seq<Path>): nat {
    |listing| + 4 + if d.marker.Some? then 2 * |d.marker.value.operations| else 0
  }

  lemma {:induction false} RollbackCost(d: Disk, r: Record, n: nat, env: Env)
    requires n <= |r.operations|
    requires env.power >= 2 * n + 1
    ensures
      var o := Rollback(d, r, n, env);
      && o.status != Crashed
      && (o.status == Done ==> o.env.power >= env.power - 2 * n - 1 && o.env.renames == env.renames)
    decreases n
  {
    if n > 0 {
      var o := RollbackOne(d, r.operations[n - 1], r.newJournal, env);
      RollbackOneCost(d, r.operations[n - 1], r.newJournal, env);
      if o.status == Done { RollbackCost(o.disk, r, n - 1, o.env); }
    }
  }

  lemma RollbackOneCost(d: Disk, o: Operation, j: Journal, env: Env)
    requires env.power >= 2
    ensures
      var r := RollbackOne(d, o, j, env);
      r.status != Crashed && r.env.power >= env.power - 2 && r.env.renames == env.renames
  {
    hide DestinationMatches;
  }

  lemma {:induction false} DropBackupsCost(d: Disk, ops: seq<Operation>, i: nat, env: Env)
    requires i <= |ops| && env.power >= |ops| - i
    ensures
      var o := DropBackups(d, ops, i, env);
      o.status == Done && o.env.power >= env.power - (|ops| - i) && o.env.renames == env.renames
    decreases |ops| - i
  {
    if i < |ops| {
      if !ops[i].retainBackup && ops[i].backup.Some? && ops[i].backup.value in d.dirs {
        var o := RemoveTree(d, ops[i].backup.value, env);
        DropBackupsCost(o.disk, ops, i + 1, o.env);
      } else {
        DropBackupsCost(d, ops, i + 1, env);
      }
    }
  }

  lemma {:induction false} DropOrphansCost(d: Disk, listing: seq<Path>, env: Env)
    requires env.power >= |listing|
    ensures
      var o := DropOrphans(d, listing, env);
      o.status == Done && o.env.power >= env.power - |listing| && o.env.renames == env.renames
    decreases listing
  {
    if listing != [] {
      if IsStage(listing[0]) && listing[0] in d.dirs {
        var o := RemoveTree(d, listing[0], env);
        DropOrphansCost(o.disk, listing[1..], o.env);
      } else {
        DropOrphansCost(d, listing[1..], env);
      }
    }
  }

  /** Recovery finishes when the power holds long enough, and takes no more than that. */
  lemma RecoveryFinishes(d: Disk, listing: seq<Path>, env: Env)
    requires env.power >= Enough(d, listing)
    ensures
      var o := Recover(d, listing, env);
      && o.status != Crashed
      && (o.status == Done ==> o.env.power >= env.power - Enough(d, listing) && o.env.renames == env.renames)
  {
    hide ValidRecord, JournalVerifies, RollbackOne, Forward;
    if d.marker.None? {
      DropOrphansCost(d, listing, env);
    } else {
      var r := d.marker.value;
      RollbackCost(d, r, |r.operations|, env);
      var o := DropStage(d, r, env);
      if o.status == Done { DropBackupsCost(o.disk, r.operations, 0, o.env); }
    }
  }

  /** A disk stands for one installation only: what recovery makes of it. */
  lemma RepresentationIsUnique(l: Disk, m: Disk, d: Disk, listing: seq<Path>)
    requires Represents(l, d) && Represents(m, d) && Lists(listing, d.dirs)
    ensures Alike(l, m)
  {
    hide Recover, TxOk, Sound, Interrupted, Target, Enough;
    var env := Env(Enough(d, listing), 0);
    RecoveryFinishes(d, listing, env);
    var b1, t1 :| Explains(b1, t1, d) && Alike(Target(b1, t1, d), l);
    var b2, t2 :| Explains(b2, t2, d) && Alike(Target(b2, t2, d), m);
    RecoverIsSafe(b1, t1, d, listing, env);
    RecoverIsSafe(b2, t2, d, listing, env);
  }

  // ---------------------------------------------------------------- restarted recovery

  /** Recovery attempted once per element, each with its own crash point. */
  ghost function Attempts(d: Disk, tries: seq<(seq<Path>, Env)>): Disk
    decreases tries
  {
    if tries == [] then d else Attempts(Recover(d, tries[0].0, tries[0].1).disk, tries[1..])
  }

  ghost predicate AttemptsListed(d: Disk, tries: seq<(seq<Path>, Env)>)
    decreases tries
  {
    tries == [] ||
    (Lists(tries[0].0, d.dirs) && AttemptsListed(Recover(d, tries[0].0, tries[0].1).disk, tries[1..]))
  }

  /**
   Restartable recovery. Crashing recovery any number of times at any of its steps never changes
   the installation the disk stands for, so the next recovery that finishes ends where an
   uninterrupted one would have.
   */
  lemma {:induction false} RecoveryIsRestartable(l: Disk, d: Disk, tries: seq<(seq<Path>, Env)>, listing: seq<Path>, env: Env)
    requires Represents(l, d) && AttemptsListed(d, tries)
    requires Lists(listing, Attempts(d, tries).dirs)
    ensures Represents(l, Attempts(d, tries))
    ensures
      var o := Recover(Attempts(d, tries), listing, env);
      o.status == Done ==> Alike(o.disk, l)
    decreases tries
  {
    hide Recover, Lists;
    if tries == [] {
      RecoverKeepsInstallation(l, d, listing, env);
    } else {
      RecoverKeepsInstallation(l, d, tries[0].0, tries[0].1);
      RecoveryIsRestartable(l, Recover(d, tries[0].0, tries[0].1).disk, tries[1..], listing, env);
    }
  }

  lemma RecoverKeepsInstallation(l: Disk, d: Disk, listing: seq<Path>, env: Env)
    requires Represents(l, d) && Lists(listing, d.dirs)
    ensures Represents(l, Recover(d, listing, env).disk)
    ensures Recover(d, listing, env).status == Done ==> Alike(Recover(d, listing, env).disk, l)
  {
    hide Recover, TxOk, Sound, Interrupted, Target, Lists;
    var base, tx :| Explains(base, tx, d) && Alike(Target(base, tx, d), l);
    RecoverIsSafe(base, tx, d, listing, env);
    var r := Recover(d, listing, env);
    if r.status == Done {
      SoundIsObserved(l, r.disk);
      SoundRepresentsItself(r.disk, l);
    } else {
      assert Explains(base, tx, r.disk);
    }
  }

  /**
   Wherever a run stops, the next opening with enough power settles the disk: no transaction in
   flight, every journaled directory present and verifying, every entry with sorted, distinct owners.
   */
  lemma RunsEndSettled(d: Disk, evs: seq<Event>, listing: seq<Path>, env: Env)
    requires Sound(d) && RunOk(d, evs)
    requires Lists(listing, Run(d, evs, |evs|).dirs) && env.power >= Enough(Run(d, evs, |evs|), listing)
    ensures Recover(Run(d, evs, |evs|), listing, env).status == Done
    ensures Sound(Recover(Run(d, evs, |evs|), listing, env).disk)
  {
    hide Recover, TxOk, Sound, Interrupted, Target, Lists, Run, RunOk, AtomicStep, Enough;
    var ls := RunsAreAtomic(d, evs, |evs|);
    var x := Run(d, evs, |evs|);
    var l := ls[|evs|];
    assert Represents(l, x);
    var base, tx :| Explains(base, tx, x) && Alike(Target(base, tx, x), l);
    RecoverIsSafe(base, tx, x, listing, env);
    RecoveryFinishes(x, listing, env);
    RecoverKeepsInstallation(l, x, listing, env);
    SoundIsObserved(l, Recover(x, listing, env).disk);
  }
}
