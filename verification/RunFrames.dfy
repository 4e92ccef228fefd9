/** What runs say of the disk itself: the paths they leave alone, and the documents between transactions. */
module RunFrames {
  import opened Options
  import opened Lockfile
  import opened SkillTree
  import opened Transaction
  import opened CrashSafety
  import opened RecoverySafety
  import opened CommitSafety
  import opened Changes
  import opened Planning
  import opened Edits
  import opened Runs

  // ---------------------------------------------------------------- paths nobody asked for

  /** The event is a request to install a skill at this path. */
  ghost predicate Installs(ev: Event, p: Path) {
    ev.request.Install? && exists q :: q in ev.request.plans && Destination(q.skillName) == p
  }

  /** A transaction accounts for the disk, and neither it nor the installations beside it know the path. */
  ghost predicate Avoids(base: Disk, tx: Tx, d: Disk, p: Path, t: Dirs) {
    && Explains(base, tx, d)
    && !Journaled(tx.oldJournal, p) && !Journaled(tx.newJournal, p)
    && Same(base.dirs, t, p)
  }

  ghost predicate Avoided(d: Disk, p: Path, t: Dirs) {
    exists base, tx :: Avoids(base, tx, d, p, t)
  }

  /** On such a disk, crashed or not, the path is as it was. */
  lemma AvoidedIsSame(d: Disk, p: Path, t: Dirs)
    requires Avoided(d, p, t) && IsPlain(p)
    ensures Same(d.dirs, t, p)
  {
    hide TxOk, Sound, Stageable, CanUndo, MustKeep, OwnStage;
    var base, tx :| Avoids(base, tx, d, p, t);
    KindsAreApart(p);
    if Touched(tx.ops, p) { TouchedIsJournaled(base, tx, p); }
    assert Same(d.dirs, base.dirs, p);
  }

  lemma TargetAvoids(base: Disk, tx: Tx, d: Disk, p: Path, t: Dirs)
    requires Avoids(base, tx, d, p, t) && IsPlain(p)
    ensures Same(Target(base, tx, d).dirs, t, p) && !Journaled(ReadJournal(Target(base, tx, d)), p)
  {
    hide Sound, Stageable, Interrupted, JournalsOk, OpsOk, JournalVerifies, AfterOps;
    OutsideAfterOps(base, tx, p);
    assert tx.oldJournal == ReadJournal(base);
    assert ReadJournal(NewDisk(base, tx)).entries == tx.newJournal.entries;
  }

  lemma SettledAvoids(d: Disk, p: Path, t: Dirs)
    requires Sound(d) && Same(d.dirs, t, p) && !Journaled(ReadJournal(d), p)
    ensures Avoided(d, p, t)
  {
    hide Explains, Sound, Journaled;
    IdleExplains(d);
    assert Avoids(d, IdleTx(d), d, p, t);
  }

  /** Changes that do not aim at a path do not journal it. */
  lemma NotAimedNotJournaled(d: Disk, cs: seq<Change>, p: Path)
    requires Sound(d) && ChangesOk(d, cs) && !Journaled(ReadJournal(d), p) && !Affects(cs, p)
    ensures !Journaled(JournalOf(Survivors(ReadJournal(d).entries, cs) + Additions(cs)), p)
  {
    hide JournalOf, EntryTidy, OperationOk, JournalVerifies, Quiet;
    NewJournalSpec(d, cs);
    var j := JournalOf(Survivors(ReadJournal(d).entries, cs) + Additions(cs));
    forall e | e in j.entries
      ensures e.destination != p
    {
      if k :| 0 <= k < |cs| && cs[k].entry == Some(e) {
        assert ChangeOk(d, cs[k]);
      }
    }
  }

  lemma RequestDoesNotAim(d: Disk, ev: Event, p: Path)
    requires Sound(d) && IsPlain(p) && !Installs(ev, p) && !Journaled(ReadJournal(d), p) && ChangesFor(d, ev).Some?
    ensures !Affects(ChangesFor(d, ev).value, p)
  {
    hide Sound, NoConflict, NoRemovalConflict, PlansValid, InstallChanges, RemovalChanges, Selected, JournalTidy;
    match ev.request
    case Open =>
    case Install(plans) =>
      assert Destination(p.name) == p;
      forall q | q in plans
        ensures q.skillName != p.name
      {
        assert Destination(q.skillName) != p;
      }
      InstallNotAffected(d, ev.alloc, plans, p.name);
    case Removal(owner, names) =>
      SoundJournal(d);
      SelectedSpec(ReadJournal(d), owner, names);
      RemovalNotAffected(d, ev.alloc, owner, Selected(ReadJournal(d), owner, names).value, p);
  }

  lemma TransactionAvoids(d: Disk, ev: Event, p: Path)
    requires Sound(d) && EventOk(ev) && IsPlain(p) && !Installs(ev, p) && !Journaled(ReadJournal(d), p) && TxFor(d, ev).Some?
    ensures !Journaled(TxFor(d, ev).value.oldJournal, p) && !Journaled(TxFor(d, ev).value.newJournal, p)
  {
    hide Sound, ChangesFor, ChangesOk, EventOk, Journaled, JournalOf, Affects, Installs;
    ChangesForOk(d, ev);
    RequestDoesNotAim(d, ev, p);
    NotAimedNotJournaled(d, ChangesFor(d, ev).value, p);
  }

  lemma ProceedAvoids(d: Disk, ev: Event, env: Env, p: Path, t: Dirs)
    requires Sound(d) && EventOk(ev) && IsPlain(p) && !Installs(ev, p)
    requires Same(d.dirs, t, p) && !Journaled(ReadJournal(d), p)
    ensures Avoided(Proceed(d, ev, env).disk, p, t)
  {
    hide Commit, Sound, EventOk, JournalAccepted, ChangesFor, Journaled, Same, Installs, Avoided, TxFor;
    SettledAvoids(d, p, t);
    ProceedCommits(d, ev, env);
    if TxFor(d, ev).Some? {
      CommitAvoids(d, ev, env, p, t);
    }
  }

  /** A call on a settled disk leaves it alone or commits its transaction. */
  lemma ProceedCommits(d: Disk, ev: Event, env: Env)
    ensures
      || Proceed(d, ev, env).disk == d
      || (TxFor(d, ev).Some? && Proceed(d, ev, env) == Commit(d, TxFor(d, ev).value, env))
  {
    hide Commit, ChangesFor, JournalAccepted;
  }

  lemma CommitAvoids(d: Disk, ev: Event, env: Env, p: Path, t: Dirs)
    requires Sound(d) && EventOk(ev) && IsPlain(p) && !Installs(ev, p) && TxFor(d, ev).Some?
    requires Same(d.dirs, t, p) && !Journaled(ReadJournal(d), p)
    ensures Avoided(Commit(d, TxFor(d, ev).value, env).disk, p, t)
  {
    hide Commit, Sound, EventOk, Journaled, TxOk, Interrupted, Stageable, TxFor, Installs, Unmarked;
    var tx := TxFor(d, ev).value;
    var o := Commit(d, tx, env);
    TxForIsOk(d, ev);
    TransactionAvoids(d, ev, p);
    CommitIsSafe(d, tx, env);
    match o.status
    case Crashed =>
      assert Avoids(d, tx, o.disk, p, t);
    case Done =>
      CommittedAvoids(d, tx, o.disk, p, t);
    case _ =>
      SettledAvoids(d, p, t);
  }

  lemma CommittedAvoids(d: Disk, tx: Tx, after: Disk, p: Path, t: Dirs)
    requires TxOk(d, tx) && Sound(NewDisk(d, tx)) && Alike(after, NewDisk(d, tx)) && IsPlain(p)
    requires !Journaled(tx.oldJournal, p) && !Journaled(tx.newJournal, p) && Same(d.dirs, t, p)
    ensures Avoided(after, p, t)
  {
    hide Sound, JournalsOk, OpsOk, JournalVerifies, AfterOps, Stageable, Quiet, Avoided;
    OutsideAfterOps(d, tx, p);
    SoundIsObserved(NewDisk(d, tx), after);
    assert ReadJournal(NewDisk(d, tx)).entries == tx.newJournal.entries;
    SettledAvoids(after, p, t);
  }

  lemma StepAvoids(d: Disk, ev: Event, p: Path, t: Dirs)
    requires Avoided(d, p, t) && EventOk(ev) && Lists(ev.listing, d.dirs) && IsPlain(p) && !Installs(ev, p)
    ensures Avoided(Perform(d, ev).disk, p, t)
  {
    hide Recover, Proceed, TxOk, Sound, Interrupted, Target, EventOk, Lists, Journaled, Same, Installs, NewDisk, Stageable;
    var base, tx :| Avoids(base, tx, d, p, t);
    RecoverIsSafe(base, tx, d, ev.listing, ev.env);
    var r := Recover(d, ev.listing, ev.env);
    if ev.request.Removal? && !ValidOwner(ev.request.owner) {
    } else if r.status == Crashed {
      assert Avoids(base, tx, r.disk, p, t);
    } else {
      TargetIsSound(base, tx, d);
      SoundIsObserved(Target(base, tx, d), r.disk);
      TargetAvoids(base, tx, d, p, t);
      AlikeAt(r.disk, Target(base, tx, d), p, t);
      ProceedAvoids(r.disk, ev, r.env, p, t);
    }
  }

  lemma AlikeAt(a: Disk, b: Disk, p: Path, t: Dirs)
    requires Alike(a, b) && Same(b.dirs, t, p) && !Journaled(ReadJournal(b), p)
    ensures Same(a.dirs, t, p) && !Journaled(ReadJournal(a), p)
  {
  }

  /**
   Over any run, a path that is neither private nor journaled at the start, and that no event asks to
   install, is as it was at every point: after every crash, in the middle of every transaction.
   */
  lemma OutsidePathsAreKept(d: Disk, evs: seq<Event>, n: nat, p: Path)
    requires Sound(d) && RunOk(d, evs) && n <= |evs| && IsPlain(p)
    requires !Journaled(ReadJournal(d), p) && forall k :: 0 <= k < n ==> !Installs(evs[k], p)
    ensures Same(Run(d, evs, n).dirs, d.dirs, p)
  {
    hide Sound, RunOk, Journaled, Installs, Run, Avoided;
    RunAvoids(d, evs, n, p);
    AvoidedIsSame(Run(d, evs, n), p, d.dirs);
  }

  lemma {:induction false} RunAvoids(d: Disk, evs: seq<Event>, n: nat, p: Path)
    requires Sound(d) && RunOk(d, evs) && n <= |evs| && IsPlain(p)
    requires !Journaled(ReadJournal(d), p) && forall k :: 0 <= k < n ==> !Installs(evs[k], p)
    ensures Avoided(Run(d, evs, n), p, d.dirs)
  {
    hide Sound, Journaled, Installs, Avoided, Perform, EventOk, Lists;
    if n == 0 {
      SettledAvoids(d, p, d.dirs);
    } else {
      RunAvoids(d, evs, n - 1, p);
      StepAvoids(Run(d, evs, n - 1), evs[n - 1], p, d.dirs);
    }
  }

  // ---------------------------------------------------------------- documents between transactions

  /** With no transaction in flight the documents are those of the installation behind the disk. */
  lemma DocumentsOfSettled(l: Disk, d: Disk)
    requires Represents(l, d) && d.marker.None?
    ensures ReadJournal(d) == ReadJournal(l) && ReadLock(d) == ReadLock(l)
  {
    hide TxOk, Sound, Stageable, CanUndo, MustKeep;
    var base, tx :| Explains(base, tx, d) && Alike(Target(base, tx, d), l);
  }

  /** The documents of a disk are those of another, or both those of a transaction. */
  ghost predicate MovedTogether(before: Disk, after: Disk, tx: Option<Tx>) {
    || (ReadJournal(after) == ReadJournal(before) && ReadLock(after) == ReadLock(before))
    || (&& tx.Some?
        && ReadJournal(after).entries == tx.value.newJournal.entries
        && ReadLock(after) == if tx.value.newLock.Some? then tx.value.newLock.value else ReadLock(before))
  }

  /**
   Journal and lock change together. Along any run, between two points with no transaction in flight,
   one event leaves both documents on disk as they were or writes both as its transaction has them.
   */
  lemma DocumentsMoveTogether(d: Disk, evs: seq<Event>, ls: seq<Disk>, i: nat)
    requires i < |evs| && History(d, evs, |evs|, ls)
    requires Run(d, evs, i).marker.None? && Run(d, evs, i + 1).marker.None?
    ensures MovedTogether(Run(d, evs, i), Run(d, evs, i + 1), TxFor(ls[i], evs[i]))
  {
    hide Run, Represents, TxFor, AfterOps;
    DocumentsOfSettled(ls[i], Run(d, evs, i));
    DocumentsOfSettled(ls[i + 1], Run(d, evs, i + 1));
    assert AtomicStep(ls[i], evs[i], ls[i + 1]);
  }
}
