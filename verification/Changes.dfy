/**
 From a set of per-skill changes to a transaction, and the invariant of a settled installation.

 `install_many` and `remove_owner` both come down to at most one change per destination. The new
 journal and the operations are the changes in destination order, whatever order they came in.
 */
module Changes {
  import opened Options
  import opened Lockfile
  import opened Order
  import opened Digest
  import opened Paths
  import opened SkillTree
  import opened BundleFormat
  import opened Transaction
  import opened CrashSafety

  // ---------------------------------------------------------------- order of destinations

  function PathText(p: Path): string {
    match p
    case Root => "root"
    case Elsewhere(text) => text
    case Child(parent, name) => PathText(parent) + "/" + name
  }

  function EntryOrder(e: Entry): string { PathText(e.destination) }
  function OperationOrder(o: Operation): string { PathText(o.destination) }

  lemma TopLevelTexts(p: Path, q: Path)
    requires TopLevel(p) && TopLevel(q) && PathText(p) == PathText(q)
    ensures p == q
  {
    assert PathText(p)[5..] == p.name && PathText(q)[5..] == q.name;
  }

  // ---------------------------------------------------------------- changes

  /** One destination's new entry, or its removal, and the operation that brings it about. */
  datatype Change = Change(entry: Option<Entry>, op: Operation)

  predicate Affects(cs: seq<Change>, p: Path) {
    exists k :: 0 <= k < |cs| && cs[k].op.destination == p
  }

  function Survivors(entries: seq<Entry>, cs: seq<Change>): seq<Entry> {
    if entries == [] then []
    else (if Affects(cs, entries[0].destination) then [] else [entries[0]]) + Survivors(entries[1..], cs)
  }

  function Additions(cs: seq<Change>): seq<Entry> {
    if cs == [] then []
    else (if cs[0].entry.Some? then [cs[0].entry.value] else []) + Additions(cs[1..])
  }

  function TidyEntry(e: Entry): Entry {
    e.(owners := UniqueSorted(e.owners), files := SortBy(e.files, FileKey))
  }

  function TidyEntries(entries: seq<Entry>): (r: seq<Entry>)
    ensures |r| == |entries|
  {
    seq(|entries|, i requires 0 <= i < |entries| => TidyEntry(entries[i]))
  }

  /** The journal that `commit_transaction` writes: tidied entries in destination order. */
  function JournalOf(entries: seq<Entry>): Journal {
    Journal(1, TidyEntries(SortBy(entries, EntryOrder)))
  }

  function OpsOf(cs: seq<Change>): (r: seq<Operation>)
    ensures |r| == |cs|
  {
    seq(|cs|, i requires 0 <= i < |cs| => cs[i].op)
  }

  function TxOf(d: Disk, cs: seq<Change>, stage: Path, oldLock: Option<LockFile>, newLock: Option<LockFile>): Tx {
    Tx(ReadJournal(d),
       JournalOf(Survivors(ReadJournal(d).entries, cs) + Additions(cs)),
       SortBy(OpsOf(cs), OperationOrder), stage, oldLock, newLock)
  }

  // ---------------------------------------------------------------- settled installations

  /** The entry describes the files of a bundle with the entry's digest. */
  ghost predicate Describes(e: Entry, b: Bundle) {
    && DistinctPaths(b)
    && '|' !in e.skillName
    && e.digest == BundleDigest(b)
    && e.key == EntryKey(e.skillName, e.digest, TreeDigest(b))
    && e.files == Manifest(BundleContents(b))
  }

  ghost predicate EntryTidy(e: Entry) {
    && EntryShape(e)
    && IsPlain(e.destination)
    && StrictlySorted(e.owners, Id)
    && StrictlySorted(e.files, FileKey)
    && exists b :: Describes(e, b)
  }

  /** The journal's own invariant: well-shaped, tidy, in strict destination order. */
  ghost predicate JournalTidy(j: Journal) {
    && (forall e :: e in j.entries ==> EntryTidy(e))
    && StrictlySorted(j.entries, EntryOrder)
  }

  /**
   A settled installation: nothing in flight, every journaled destination exists and verifies,
   its owners are non-empty, sorted and unique.
   */
  ghost predicate Sound(d: Disk) {
    && d.marker.None?
    && Quiet(d.dirs)
    && JournalTidy(ReadJournal(d))
    && JournalVerifies(d.dirs, ReadJournal(d))
  }

  // ---------------------------------------------------------------- proper changes

  ghost predicate InstallsFresh(d: Disk, c: Change) {
    && c.entry.Some? && c.op.kind == Replace && c.op.backup.None?
    && c.op.destination !in d.dirs
  }

  ghost predicate SwapsContent(d: Disk, c: Change) {
    && c.entry.Some? && c.op.kind == Replace && c.op.backup.Some?
    && c.op.destination in d.dirs
  }

  ghost predicate EditsOwners(d: Disk, c: Change) {
    && c.entry.Some? && c.op.kind == Metadata && c.op.backup.None?
    && exists e :: e in ReadJournal(d).entries && e.destination == c.op.destination
                   && c.entry.value.key == e.key && c.entry.value.files == e.files
  }

  ghost predicate Drops(d: Disk, c: Change) {
    c.entry.None? && c.op.kind == Remove && c.op.backup.Some? && Journaled(ReadJournal(d), c.op.destination)
  }

  /** A change that fits the disk and really changes the journal. */
  ghost predicate ChangeFits(d: Disk, c: Change) {
    && IsPlain(c.op.destination)
    && OperationOk(d.dirs, c.op)
    && (InstallsFresh(d, c) || SwapsContent(d, c) || EditsOwners(d, c) || Drops(d, c))
    && (c.entry.Some? ==>
        && EntryTidy(c.entry.value)
        && c.entry.value.destination == c.op.destination
        && c.entry.value !in ReadJournal(d).entries)
  }

  /** One whose entry also describes what its bundle extracts to. */
  ghost predicate ChangeOk(d: Disk, c: Change) {
    && ChangeFits(d, c)
    && (c.op.kind == Replace && Extract(map[], c.op.bundle.value).Extracted? ==>
        Check(c.entry.value.key, c.entry.value.files, true, NewTree(c.op)) == Verified)
  }

  ghost predicate ChangesFit(d: Disk, cs: seq<Change>) {
    && (forall i :: 0 <= i < |cs| ==> ChangeFits(d, cs[i]))
    && (forall i, j :: 0 <= i < j < |cs| ==> cs[i].op.destination != cs[j].op.destination)
    && (forall i, j :: 0 <= i < j < |cs| && cs[i].op.backup.Some? && cs[j].op.backup.Some? ==>
        cs[i].op.backup != cs[j].op.backup)
  }

  ghost predicate ChangesOk(d: Disk, cs: seq<Change>) {
    ChangesFit(d, cs) && forall i :: 0 <= i < |cs| ==> ChangeOk(d, cs[i])
  }

  lemma OkFits(d: Disk, c: Change)
    requires ChangeOk(d, c)
    ensures ChangeFits(d, c)
  {
  }

  lemma OkChangesFit(d: Disk, cs: seq<Change>)
    requires ChangesOk(d, cs)
    ensures ChangesFit(d, cs)
  {
  }

  // ---------------------------------------------------------------- membership of the new journal

  lemma {:induction false} SurvivorsSpec(entries: seq<Entry>, cs: seq<Change>)
    ensures forall e :: e in Survivors(entries, cs) <==> e in entries && !Affects(cs, e.destination)
  {
    if entries != [] {
      SurvivorsSpec(entries[1..], cs);
      assert entries == [entries[0]] + entries[1..];
    }
  }

  lemma {:induction false} AdditionsSpec(cs: seq<Change>)
    ensures forall e :: e in Additions(cs) <==> exists k :: 0 <= k < |cs| && cs[k].entry == Some(e)
  {
    if cs != [] {
      AdditionsSpec(cs[1..]);
      forall e
        ensures e in Additions(cs) <==> exists k :: 0 <= k < |cs| && cs[k].entry == Some(e)
      {
        if k :| 0 <= k < |cs| && cs[k].entry == Some(e) {
          if k > 0 { assert cs[1..][k - 1].entry == Some(e); }
        }
        if e in Additions(cs[1..]) {
          var k :| 0 <= k < |cs[1..]| && cs[1..][k].entry == Some(e);
          assert cs[k + 1].entry == Some(e);
        }
      }
    }
  }

  lemma {:induction false} SurvivorsDistinct(entries: seq<Entry>, cs: seq<Change>)
    requires DistinctKeys(entries, EntryOrder)
    ensures DistinctKeys(Survivors(entries, cs), EntryOrder)
  {
    if entries != [] {
      SurvivorsDistinct(entries[1..], cs);
      SurvivorsSpec(entries[1..], cs);
      var rest := Survivors(entries[1..], cs);
      forall j | 0 <= j < |rest|
        ensures EntryOrder(entries[0]) != EntryOrder(rest[j])
      {
        assert rest[j] in rest && rest[j] in entries[1..];
        var k :| 0 <= k < |entries[1..]| && entries[1..][k] == rest[j];
        assert entries[k + 1] == rest[j];
      }
    }
  }

  lemma {:induction false} AdditionsDistinct(d: Disk, cs: seq<Change>)
    requires ChangesFit(d, cs)
    ensures DistinctKeys(Additions(cs), EntryOrder)
  {
    hide ChangeFits;
    if cs != [] {
      assert ChangesFit(d, cs[1..]);
      AdditionsDistinct(d, cs[1..]);
      if cs[0].entry.Some? {
        AdditionsSpec(cs[1..]);
        var rest := Additions(cs[1..]);
        forall j | 0 <= j < |rest|
          ensures EntryOrder(cs[0].entry.value) != EntryOrder(rest[j])
        {
          assert rest[j] in rest;
          var k :| 0 <= k < |cs[1..]| && cs[1..][k].entry == Some(rest[j]);
          assert cs[k + 1].entry == Some(rest[j]);
          OtherEntryOtherOrder(d, cs[0], cs[k + 1]);
        }
      }
    }
  }

  lemma OtherEntryOtherOrder(d: Disk, a: Change, b: Change)
    requires ChangeFits(d, a) && ChangeFits(d, b) && a.entry.Some? && b.entry.Some? && a.op.destination != b.op.destination
    ensures EntryOrder(a.entry.value) != EntryOrder(b.entry.value)
  {
    hide EntryShape, Check, Extract, NewTree, StateName;
    if EntryOrder(a.entry.value) == EntryOrder(b.entry.value) {
      TopLevelTexts(a.op.destination, b.op.destination);
    }
  }

  /** Entries of the journal before tidying: one per destination. */
  lemma CombinedDistinct(d: Disk, cs: seq<Change>)
    requires JournalTidy(ReadJournal(d)) && ChangesFit(d, cs)
    ensures DistinctKeys(Survivors(ReadJournal(d).entries, cs) + Additions(cs), EntryOrder)
  {
    hide EntryShape, Check, Extract, NewTree, OperationOk, JournalVerifies;
    var entries := ReadJournal(d).entries;
    var a, b := Survivors(entries, cs), Additions(cs);
    StrictlySortedDistinct(entries, EntryOrder);
    DistinctFromSorted(entries);
    SurvivorsDistinct(entries, cs);
    SurvivorsSpec(entries, cs);
    AdditionsDistinct(d, cs);
    AdditionsSpec(cs);
    forall i, j | 0 <= i < |a| && 0 <= j < |b|
      ensures EntryOrder(a[i]) != EntryOrder(b[j])
    {
      assert a[i] in a && b[j] in b;
      var k :| 0 <= k < |cs| && cs[k].entry == Some(b[j]);
      assert ChangeFits(d, cs[k]) && EntryTidy(a[i]);
      if EntryOrder(a[i]) == EntryOrder(b[j]) {
        SameOrderIsAffected(cs, k, a[i]);
      }
    }
    ConcatDistinct(a, b);
  }

  lemma ConcatDistinct(a: seq<Entry>, b: seq<Entry>)
    requires DistinctKeys(a, EntryOrder) && DistinctKeys(b, EntryOrder)
    requires forall i, j :: 0 <= i < |a| && 0 <= j < |b| ==> EntryOrder(a[i]) != EntryOrder(b[j])
    ensures DistinctKeys(a + b, EntryOrder)
  {
  }

  lemma SameOrderIsAffected(cs: seq<Change>, k: nat, e: Entry)
    requires k < |cs| && cs[k].entry.Some?
    requires TopLevel(e.destination) && TopLevel(cs[k].op.destination)
    requires cs[k].entry.value.destination == cs[k].op.destination
    requires EntryOrder(e) == EntryOrder(cs[k].entry.value)
    ensures Affects(cs, e.destination)
  {
    TopLevelTexts(e.destination, cs[k].op.destination);
  }

  lemma DistinctFromSorted(entries: seq<Entry>)
    requires StrictlySorted(entries, EntryOrder)
    ensures DistinctKeys(entries, EntryOrder)
  {
    StrictlySortedDistinct(entries, EntryOrder);
  }

  lemma TidyIsIdentity(e: Entry)
    requires EntryTidy(e)
    ensures TidyEntry(e) == e
  {
    UniqueSortedFixpoint(e.owners);
    StrictlySortedDistinct(e.files, FileKey);
    SortByStrict(e.files, FileKey);
    SortByMembers(e.files, FileKey);
    StrictlySortedUnique(SortBy(e.files, FileKey), e.files, FileKey);
  }

  /** The new journal holds the untouched entries and the new ones, tidy and in order. */
  lemma NewJournalSpec(d: Disk, cs: seq<Change>)
    requires JournalTidy(ReadJournal(d)) && ChangesFit(d, cs)
    ensures
      var j := JournalOf(Survivors(ReadJournal(d).entries, cs) + Additions(cs));
      && JournalTidy(j)
      && (forall e :: e in j.entries <==>
           || (e in ReadJournal(d).entries && !Affects(cs, e.destination))
           || (exists k :: 0 <= k < |cs| && cs[k].entry == Some(e)))
  {
    hide EntryTidy, Check, Extract, OperationOk, JournalOf, StrictlySorted, DistinctKeys;
    var entries := ReadJournal(d).entries;
    var c := Survivors(entries, cs) + Additions(cs);
    SurvivorsSpec(entries, cs);
    AdditionsSpec(cs);
    CombinedDistinct(d, cs);
    forall e | e in c
      ensures EntryTidy(e)
    {
      if e !in Survivors(entries, cs) {
        var k :| 0 <= k < |cs| && cs[k].entry == Some(e);
        assert ChangeFits(d, cs[k]);
      }
    }
    TidyJournalOf(c);
  }

  lemma TidyJournalOf(c: seq<Entry>)
    requires DistinctKeys(c, EntryOrder) && forall e :: e in c ==> EntryTidy(e)
    ensures JournalTidy(JournalOf(c))
    ensures forall e :: e in JournalOf(c).entries <==> e in c
  {
    hide EntryTidy, TidyEntry;
    var s := SortBy(c, EntryOrder);
    SortByStrict(c, EntryOrder);
    SortByMembers(c, EntryOrder);
    forall i | 0 <= i < |s|
      ensures TidyEntries(s)[i] == s[i]
    {
      assert s[i] in s;
      TidyIsIdentity(s[i]);
    }
    assert TidyEntries(s) == s;
  }

  lemma TidyJournalShape(j: Journal)
    requires JournalTidy(j)
    ensures JournalShape(j)
  {
    forall i, k | 0 <= i < k < |j.entries|
      ensures j.entries[i].destination != j.entries[k].destination && j.entries[i].skillName != j.entries[k].skillName
    {
      assert Less(EntryOrder(j.entries[i]), EntryOrder(j.entries[k]));
      assert j.entries[i] in j.entries && j.entries[k] in j.entries;
    }
  }

  // ---------------------------------------------------------------- the operations

  lemma OpsSpec(d: Disk, cs: seq<Change>)
    requires ChangesFit(d, cs)
    ensures
      var ops := SortBy(OpsOf(cs), OperationOrder);
      && OpsOk(d.dirs, ops)
      && (forall o :: o in ops <==> exists k :: 0 <= k < |cs| && cs[k].op == o)
  {
    var raw := OpsOf(cs);
    var ops := SortBy(raw, OperationOrder);
    forall i, j | 0 <= i < j < |raw|
      ensures OperationOrder(raw[i]) != OperationOrder(raw[j])
    {
      assert ChangeFits(d, cs[i]) && ChangeFits(d, cs[j]);
      if OperationOrder(raw[i]) == OperationOrder(raw[j]) {
        TopLevelTexts(raw[i].destination, raw[j].destination);
      }
    }
    SortByStrict(raw, OperationOrder);
    SortByMembers(raw, OperationOrder);
    forall o
      ensures o in ops <==> exists k :: 0 <= k < |cs| && cs[k].op == o
    {
      if o in ops {
        assert o in raw;
        var k :| 0 <= k < |raw| && raw[k] == o;
        assert cs[k].op == o;
      }
      if k :| 0 <= k < |cs| && cs[k].op == o {
        assert raw[k] == o;
      }
    }
    OpsApart(d, cs, ops);
  }

  lemma OpsApart(d: Disk, cs: seq<Change>, ops: seq<Operation>)
    requires ChangesFit(d, cs)
    requires StrictlySorted(ops, OperationOrder)
    requires forall o :: o in ops <==> exists k :: 0 <= k < |cs| && cs[k].op == o
    ensures OpsOk(d.dirs, ops)
  {
    forall i | 0 <= i < |ops|
      ensures OperationOk(d.dirs, ops[i])
    {
      assert ops[i] in ops;
      var k :| 0 <= k < |cs| && cs[k].op == ops[i];
      assert ChangeFits(d, cs[k]);
    }
    forall i, j | 0 <= i < j < |ops|
      ensures ops[i].destination != ops[j].destination
      ensures ops[i].backup.Some? && ops[j].backup.Some? ==> ops[i].backup != ops[j].backup
    {
      assert ops[i] in ops && ops[j] in ops;
      var k :| 0 <= k < |cs| && cs[k].op == ops[i];
      var l :| 0 <= l < |cs| && cs[l].op == ops[j];
      assert Less(OperationOrder(ops[i]), OperationOrder(ops[j]));
      assert k != l;
      if k < l { } else { assert l < k; }
    }
  }

  // ---------------------------------------------------------------- the transaction

  lemma UntouchedVerifies(d: Disk, cs: seq<Change>, ops: seq<Operation>, e: Entry)
    requires Sound(d) && ChangesFit(d, cs) && OpsOk(d.dirs, ops)
    requires forall o :: o in ops <==> exists k :: 0 <= k < |cs| && cs[k].op == o
    requires e in ReadJournal(d).entries && !Affects(cs, e.destination)
    ensures VerifyEntry(AfterOps(d.dirs, ops, |ops|), e) == Verified
  {
    hide EntryShape, Extract, EntryTidy, ChangeFits;
    var want := AfterOps(d.dirs, ops, |ops|);
    AfterOpsSpec(d.dirs, ops, |ops|);
    assert VerifyEntry(d.dirs, e) == Verified;
    assert e.destination in d.dirs;
    if Touched(ops, e.destination) {
      TouchedIsAffected(d, cs, ops, e.destination);
    }
    assert Same(want, d.dirs, e.destination);
  }

  lemma TouchedIsAffected(d: Disk, cs: seq<Change>, ops: seq<Operation>, p: Path)
    requires OpsOk(d.dirs, ops) && Touched(ops, p) && p in d.dirs
    requires forall o :: o in ops <==> exists k :: 0 <= k < |cs| && cs[k].op == o
    ensures Affects(cs, p)
  {
    var i :| 0 <= i < |ops| && (ops[i].destination == p || ops[i].backup == Some(p));
    assert ops[i] in ops;
    var k :| 0 <= k < |cs| && cs[k].op == ops[i];
    assert OperationOk(d.dirs, ops[i]);
    assert cs[k].op.destination == p;
  }

  lemma ChangedVerifies(d: Disk, cs: seq<Change>, ops: seq<Operation>, k: nat)
    requires Sound(d) && ChangesOk(d, cs) && OpsOk(d.dirs, ops) && Stageable(ops)
    requires forall o :: o in ops <==> exists k :: 0 <= k < |cs| && cs[k].op == o
    requires k < |cs| && cs[k].entry.Some?
    ensures VerifyEntry(AfterOps(d.dirs, ops, |ops|), cs[k].entry.value) == Verified
  {
    hide EntryTidy, Extract, StrictlySorted, OperationOk, StateName;
    var want := AfterOps(d.dirs, ops, |ops|);
    AfterOpsSpec(d.dirs, ops, |ops|);
    assert ChangeOk(d, cs[k]);
    assert cs[k].op in ops;
    var i :| 0 <= i < |ops| && ops[i] == cs[k].op;
    assert Settled(d.dirs, ops[i], want);
    if ops[i].kind == Metadata {
      var e :| e in ReadJournal(d).entries && e.destination == cs[k].op.destination
               && cs[k].entry.value.key == e.key && cs[k].entry.value.files == e.files;
      assert VerifyEntry(d.dirs, e) == Verified;
    }
  }

  /** A batch of proper changes really changes the journal. */
  lemma JournalDiffers(d: Disk, cs: seq<Change>)
    requires JournalTidy(ReadJournal(d)) && ChangesFit(d, cs) && cs != []
    ensures JournalOf(Survivors(ReadJournal(d).entries, cs) + Additions(cs)) != ReadJournal(d)
  {
    NewJournalSpec(d, cs);
    assert ChangeFits(d, cs[0]);
    if cs[0].entry.Some? {
      assert cs[0].entry == Some(cs[0].entry.value);
    } else {
      var e :| e in ReadJournal(d).entries && e.destination == cs[0].op.destination;
      assert Affects(cs, e.destination);
      if k :| 0 <= k < |cs| && cs[k].entry == Some(e) {
        assert ChangeFits(d, cs[k]);
      }
    }
  }

  /** Lock values travel together, and the old one is what the disk holds. */
  ghost predicate LocksOk(d: Disk, oldLock: Option<LockFile>, newLock: Option<LockFile>) {
    && (oldLock.Some? <==> newLock.Some?)
    && (oldLock.Some? ==> oldLock.value == ReadLock(d))
  }

  lemma TidyIsPlain(j: Journal)
    requires JournalTidy(j)
    ensures PlainEntries(j)
  {
    hide IsPlain;
  }

  lemma TxJournals(d: Disk, cs: seq<Change>, tx: Tx)
    requires JournalTidy(ReadJournal(d)) && ChangesFit(d, cs)
    requires tx.oldJournal == ReadJournal(d)
    requires tx.newJournal == JournalOf(Survivors(ReadJournal(d).entries, cs) + Additions(cs))
    requires forall o :: o in tx.ops <==> exists k :: 0 <= k < |cs| && cs[k].op == o
    ensures JournalsOk(tx)
  {
    hide EntryShape, Check, Extract, NewTree, OperationOk, EntryTidy, JournalOf, StrictlySorted, JournalShape, PlainEntries, IsPlain;
    NewJournalSpec(d, cs);
    TidyJournalShape(tx.oldJournal);
    TidyJournalShape(tx.newJournal);
    TidyIsPlain(tx.oldJournal);
    TidyIsPlain(tx.newJournal);
    forall i | 0 <= i < |tx.ops|
      ensures Journaled(tx.oldJournal, tx.ops[i].destination) || Journaled(tx.newJournal, tx.ops[i].destination)
      ensures tx.ops[i].kind == Replace ==> Journaled(tx.newJournal, tx.ops[i].destination)
    {
      assert tx.ops[i] in tx.ops;
      var k :| 0 <= k < |cs| && cs[k].op == tx.ops[i];
      assert ChangeFits(d, cs[k]);
      if cs[k].entry.Some? {
        assert cs[k].entry == Some(cs[k].entry.value);
        assert cs[k].entry.value in tx.newJournal.entries;
      }
    }
  }

  /** Changes that fit a settled installation make a transaction that fits it. */
  lemma TxOfFits(d: Disk, cs: seq<Change>, stage: Path, oldLock: Option<LockFile>, newLock: Option<LockFile>)
    requires Sound(d) && ChangesFit(d, cs) && IsStage(stage) && LocksOk(d, oldLock, newLock)
    ensures TxFits(d, TxOf(d, cs, stage, oldLock, newLock))
  {
    hide OpsOk, JournalsOk, JournalTidy, ChangesFit, JournalVerifies, Quiet, Stageable;
    var tx := TxOf(d, cs, stage, oldLock, newLock);
    OpsSpec(d, cs);
    if cs != [] { JournalDiffers(d, cs); }
    TxJournals(d, cs, tx);
  }

  /** Proper changes to a settled installation make a well-formed transaction. */
  lemma TxOfIsOk(d: Disk, cs: seq<Change>, stage: Path, oldLock: Option<LockFile>, newLock: Option<LockFile>)
    requires Sound(d) && ChangesOk(d, cs) && IsStage(stage) && LocksOk(d, oldLock, newLock)
    ensures TxOk(d, TxOf(d, cs, stage, oldLock, newLock))
  {
    hide OpsOk, JournalsOk, JournalTidy, ChangesOk, ChangesFit, JournalVerifies, Quiet, Stageable;
    var tx := TxOf(d, cs, stage, oldLock, newLock);
    OkChangesFit(d, cs);
    TxOfFits(d, cs, stage, oldLock, newLock);
    OpsSpec(d, cs);
    if Stageable(tx.ops) {
      NewJournalVerifies(d, cs, tx);
    }
  }

  lemma NewJournalVerifies(d: Disk, cs: seq<Change>, tx: Tx)
    requires Sound(d) && ChangesOk(d, cs) && OpsOk(d.dirs, tx.ops) && Stageable(tx.ops)
    requires forall o :: o in tx.ops <==> exists k :: 0 <= k < |cs| && cs[k].op == o
    requires tx.newJournal == JournalOf(Survivors(ReadJournal(d).entries, cs) + Additions(cs))
    ensures JournalVerifies(AfterOps(d.dirs, tx.ops, |tx.ops|), tx.newJournal)
  {
    hide EntryShape, Check, Extract, NewTree, EntryTidy, VerifyEntry;
    NewJournalSpec(d, cs);
    forall e | e in tx.newJournal.entries
      ensures VerifyEntry(AfterOps(d.dirs, tx.ops, |tx.ops|), e) == Verified
    {
      if e in ReadJournal(d).entries && !Affects(cs, e.destination) {
        UntouchedVerifies(d, cs, tx.ops, e);
      } else {
        var k :| 0 <= k < |cs| && cs[k].entry == Some(e);
        ChangedVerifies(d, cs, tx.ops, k);
      }
    }
  }

  lemma AfterOpsIsQuiet(base: Dirs, ops: seq<Operation>)
    requires Quiet(base) && OpsOk(base, ops)
    ensures Quiet(AfterOps(base, ops, |ops|))
  {
    hide StateName;
    var want := AfterOps(base, ops, |ops|);
    AfterOpsSpec(base, ops, |ops|);
    forall q | q in want
      ensures TopLevel(q) && !IsStage(q) && !IsState(q)
    {
      if Touched(ops, q) {
        TouchedIsTopLevel(base, ops, q);
        KindsAreApart(q);
        var i :| 0 <= i < |ops| && (ops[i].destination == q || ops[i].backup == Some(q));
        assert OperationOk(base, ops[i]);
      } else {
        assert Same(want, base, q);
      }
    }
  }

  /** The disk that a batch of proper changes produces is settled again. */
  lemma NewDiskIsSound(d: Disk, cs: seq<Change>, stage: Path, oldLock: Option<LockFile>, newLock: Option<LockFile>)
    requires Sound(d) && ChangesOk(d, cs) && IsStage(stage) && LocksOk(d, oldLock, newLock)
    requires Stageable(SortBy(OpsOf(cs), OperationOrder))
    ensures Sound(NewDisk(d, TxOf(d, cs, stage, oldLock, newLock)))
  {
    var tx := TxOf(d, cs, stage, oldLock, newLock);
    TxOfIsOk(d, cs, stage, oldLock, newLock);
    NewJournalSpec(d, cs);
    AfterOpsIsQuiet(d.dirs, tx.ops);
  }

  /** Soundness only depends on what readers see. */
  lemma SoundIsObserved(a: Disk, b: Disk)
    requires Sound(a) && Alike(a, b)
    ensures Sound(b)
  {
  }
}
