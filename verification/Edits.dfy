/** Editing the journal in place, entry by entry, against the set of changes it stands for. */
module Edits {
  import opened Options
  import opened Order
  import opened Paths
  import opened SkillTree
  import opened Transaction
  import opened RecoverySafety
  import opened Changes
  import opened Planning

  ghost predicate DistinctTop(entries: seq<Entry>) {
    && (forall e :: e in entries ==> TopLevel(e.destination))
    && (forall i, j :: 0 <= i < j < |entries| ==> entries[i].destination != entries[j].destination)
  }

  lemma ShapeIsDistinctTop(j: Journal)
    requires JournalShape(j)
    ensures DistinctTop(j.entries)
  {
    hide ValidSkillName;
  }

  lemma DistinctTopKeys(entries: seq<Entry>)
    requires DistinctTop(entries)
    ensures DistinctKeys(entries, EntryOrder)
  {
    forall i, j | 0 <= i < j < |entries|
      ensures EntryOrder(entries[i]) != EntryOrder(entries[j])
    {
      assert entries[i] in entries && entries[j] in entries;
      if EntryOrder(entries[i]) == EntryOrder(entries[j]) {
        TopLevelTexts(entries[i].destination, entries[j].destination);
      }
    }
  }

  /** Replace the entry of a destination, or append it. */
  function Upsert(entries: seq<Entry>, e: Entry): seq<Entry> {
    if entries == [] then [e]
    else if entries[0].destination == e.destination then [e] + entries[1..]
    else [entries[0]] + Upsert(entries[1..], e)
  }

  function Erase(entries: seq<Entry>, p: Path): seq<Entry> {
    if entries == [] then []
    else (if entries[0].destination == p then [] else [entries[0]]) + Erase(entries[1..], p)
  }

  lemma TailIsDistinct(entries: seq<Entry>)
    requires DistinctTop(entries) && entries != []
    ensures DistinctTop(entries[1..])
    ensures forall e :: e in entries[1..] ==> e.destination != entries[0].destination
  {
    var rest := entries[1..];
    assert forall e :: e in rest ==> e in entries;
    forall e | e in rest
      ensures e.destination != entries[0].destination
    {
      var k :| 0 <= k < |rest| && rest[k] == e;
      assert entries[k + 1] == e;
    }
    forall i, j | 0 <= i < j < |rest|
      ensures rest[i].destination != rest[j].destination
    {
      assert entries[i + 1] == rest[i] && entries[j + 1] == rest[j];
    }
  }

  lemma ConsIsDistinct(e: Entry, rest: seq<Entry>)
    requires DistinctTop(rest) && TopLevel(e.destination)
    requires forall f :: f in rest ==> f.destination != e.destination
    ensures DistinctTop([e] + rest)
  {
    var all := [e] + rest;
    forall i, j | 0 <= i < j < |all|
      ensures all[i].destination != all[j].destination
    {
      assert all[j] == rest[j - 1] && rest[j - 1] in rest;
      if i > 0 { assert all[i] == rest[i - 1]; }
    }
  }

  lemma {:induction false} UpsertSpec(entries: seq<Entry>, e: Entry)
    requires DistinctTop(entries) && TopLevel(e.destination)
    ensures DistinctTop(Upsert(entries, e))
    ensures forall x :: x in Upsert(entries, e) <==> x == e || (x in entries && x.destination != e.destination)
  {
    if entries != [] {
      TailIsDistinct(entries);
      assert entries == [entries[0]] + entries[1..];
      if entries[0].destination == e.destination {
        ConsIsDistinct(e, entries[1..]);
      } else {
        UpsertSpec(entries[1..], e);
        assert entries[0] in entries;
        ConsIsDistinct(entries[0], Upsert(entries[1..], e));
      }
    }
  }

  lemma {:induction false} EraseSpec(entries: seq<Entry>, p: Path)
    requires DistinctTop(entries)
    ensures DistinctTop(Erase(entries, p))
    ensures forall x :: x in Erase(entries, p) <==> x in entries && x.destination != p
  {
    if entries != [] {
      TailIsDistinct(entries);
      EraseSpec(entries[1..], p);
      assert entries == [entries[0]] + entries[1..];
      assert entries[0] in entries;
      if entries[0].destination != p {
        ConsIsDistinct(entries[0], Erase(entries[1..], p));
      } else {
        assert Erase(entries, p) == Erase(entries[1..], p);
      }
    }
  }

  /** Apply one change to the entries. */
  function Edit(entries: seq<Entry>, c: Change): seq<Entry> {
    if c.entry.Some? then Upsert(entries, c.entry.value) else Erase(entries, c.op.destination)
  }

  /** Every change sits at its own top-level destination. */
  ghost predicate Placed(cs: seq<Change>) {
    && (forall k :: 0 <= k < |cs| ==> TopLevel(cs[k].op.destination))
    && (forall k :: 0 <= k < |cs| && cs[k].entry.Some? ==> cs[k].entry.value.destination == cs[k].op.destination)
    && (forall i, j :: 0 <= i < j < |cs| ==> cs[i].op.destination != cs[j].op.destination)
  }

  ghost predicate IsNew(cs: seq<Change>, e: Entry) {
    exists k :: 0 <= k < |cs| && cs[k].entry == Some(e)
  }

  /** `entries` is `before` with the changes applied. */
  ghost predicate Edited(before: seq<Entry>, cs: seq<Change>, entries: seq<Entry>) {
    && DistinctTop(entries)
    && forall e :: e in entries <==> (e in before && !Affects(cs, e.destination)) || IsNew(cs, e)
  }

  lemma EditedNothing(before: seq<Entry>)
    requires DistinctTop(before)
    ensures Edited(before, [], before)
  {
  }

  lemma EditedMore(before: seq<Entry>, cs: seq<Change>, c: Change, entries: seq<Entry>)
    requires Edited(before, cs, entries) && Placed(cs + [c])
    ensures Edited(before, cs + [c], Edit(entries, c))
  {
    var all := cs + [c];
    assert all[|cs|] == c;
    if c.entry.Some? { UpsertSpec(entries, c.entry.value); } else { EraseSpec(entries, c.op.destination); }
    forall e
      ensures e in Edit(entries, c) <==> (e in before && !Affects(all, e.destination)) || IsNew(all, e)
    {
      SnocAffects(cs, c, e.destination);
      SnocIsNew(cs, c, e);
      if IsNew(cs, e) {
        var k :| 0 <= k < |cs| && cs[k].entry == Some(e);
        assert all[k] == cs[k];
      }
    }
  }

  lemma SnocAffects(cs: seq<Change>, c: Change, p: Path)
    ensures Affects(cs + [c], p) <==> Affects(cs, p) || c.op.destination == p
  {
    var all := cs + [c];
    assert all[|cs|] == c;
    if Affects(cs, p) {
      var k :| 0 <= k < |cs| && cs[k].op.destination == p;
      assert all[k] == cs[k];
    }
    if Affects(all, p) {
      var k :| 0 <= k < |all| && all[k].op.destination == p;
      if k < |cs| { assert cs[k] == all[k]; }
    }
  }

  lemma SnocIsNew(cs: seq<Change>, c: Change, e: Entry)
    ensures IsNew(cs + [c], e) <==> IsNew(cs, e) || c.entry == Some(e)
  {
    var all := cs + [c];
    assert all[|cs|] == c;
    if IsNew(cs, e) {
      var k :| 0 <= k < |cs| && cs[k].entry == Some(e);
      assert all[k] == cs[k];
    }
    if IsNew(all, e) {
      var k :| 0 <= k < |all| && all[k].entry == Some(e);
      if k < |cs| { assert cs[k] == all[k]; }
    }
  }

  /** Editing in place and then sorting gives the journal of the changes. */
  lemma EditedJournal(before: seq<Entry>, cs: seq<Change>, entries: seq<Entry>)
    requires DistinctTop(before) && Placed(cs) && Edited(before, cs, entries)
    ensures JournalOf(entries) == JournalOf(Survivors(before, cs) + Additions(cs))
  {
    var a, b := Survivors(before, cs), Additions(cs);
    SurvivorsSpec(before, cs);
    AdditionsSpec(cs);
    DistinctTopKeys(entries);
    DistinctTopKeys(before);
    SurvivorsDistinct(before, cs);
    PlacedAdditions(cs);
    forall i, j | 0 <= i < |a| && 0 <= j < |b|
      ensures EntryOrder(a[i]) != EntryOrder(b[j])
    {
      assert a[i] in a && b[j] in b;
      var k :| 0 <= k < |cs| && cs[k].entry == Some(b[j]);
      if EntryOrder(a[i]) == EntryOrder(b[j]) {
        SameOrderIsAffected(cs, k, a[i]);
      }
    }
    ConcatDistinct(a, b);
    forall e
      ensures e in entries <==> e in a + b
    {
      assert e in b <==> IsNew(cs, e);
    }
    SortByIgnoresOrder(entries, a + b, EntryOrder);
  }

  lemma {:induction false} PlacedAdditions(cs: seq<Change>)
    requires Placed(cs)
    ensures DistinctKeys(Additions(cs), EntryOrder)
  {
    if cs != [] {
      var rest := cs[1..];
      assert Placed(rest);
      PlacedAdditions(rest);
      if cs[0].entry.Some? {
        AdditionsSpec(rest);
        var tail := Additions(rest);
        forall j | 0 <= j < |tail|
          ensures EntryOrder(cs[0].entry.value) != EntryOrder(tail[j])
        {
          assert tail[j] in tail;
          var k :| 0 <= k < |rest| && rest[k].entry == Some(tail[j]);
          assert cs[k + 1] == rest[k];
          if EntryOrder(cs[0].entry.value) == EntryOrder(tail[j]) {
            TopLevelTexts(cs[0].op.destination, cs[k + 1].op.destination);
          }
        }
      }
    }
  }

  // ---------------------------------------------------------------- the changes of a prefix

  function ChangeOf(v: Decision): seq<Change> {
    match v case Changing(c) => [c] case _ => []
  }

  lemma {:induction false} InstallChangesExtend(d: Disk, a: Alloc, ps: seq<Plan>, p: Plan)
    ensures InstallChanges(d, a, ps + [p]) == InstallChanges(d, a, ps) + ChangeOf(Decide(d, a, p))
  {
    hide Decide;
    if ps == [] {
      assert [p][1..] == [];
      assert ps + [p] == [p];
    } else {
      InstallChangesExtend(d, a, ps[1..], p);
      assert (ps + [p])[1..] == ps[1..] + [p];
    }
  }

  lemma {:induction false} RemovalChangesExtend(d: Disk, a: Alloc, owner: string, es: seq<Entry>, e: Entry)
    ensures RemovalChanges(d, a, owner, es + [e]) == RemovalChanges(d, a, owner, es) + ChangeOf(DecideRemoval(d, a, owner, e))
  {
    hide DecideRemoval;
    if es == [] {
      assert [e][1..] == [];
      assert es + [e] == [e];
    } else {
      RemovalChangesExtend(d, a, owner, es[1..], e);
      assert (es + [e])[1..] == es[1..] + [e];
    }
  }

  lemma DecidePlace(d: Disk, a: Alloc, p: Plan)
    requires Decide(d, a, p).Changing?
    ensures
      var c := Decide(d, a, p).change;
      && c.op.destination == Destination(p.skillName)
      && c.entry.Some? && c.entry.value.destination == Destination(p.skillName)
  {
    hide VerifyEntry;
    FindEntrySpec(ReadJournal(d).entries, Destination(p.skillName));
  }

  lemma PlacedGrows(cs: seq<Change>, c: Change)
    requires Placed(cs) && TopLevel(c.op.destination) && !Affects(cs, c.op.destination)
    requires c.entry.Some? ==> c.entry.value.destination == c.op.destination
    ensures Placed(cs + [c])
  {
  }

  lemma InstallNotAffected(d: Disk, a: Alloc, ps: seq<Plan>, name: string)
    requires forall p :: p in ps ==> p.skillName != name
    ensures !Affects(InstallChanges(d, a, ps), Destination(name))
  {
    hide Decide;
    var cs := InstallChanges(d, a, ps);
    InstallChangesSpec(d, a, ps);
    forall k | 0 <= k < |cs|
      ensures cs[k].op.destination != Destination(name)
    {
      assert cs[k] in cs;
      var p :| p in ps && Decide(d, a, p) == Changing(cs[k]);
      DecidePlace(d, a, p);
    }
  }

  lemma RemovalNotAffected(d: Disk, a: Alloc, owner: string, es: seq<Entry>, p: Path)
    requires forall e :: e in es ==> e.destination != p
    ensures !Affects(RemovalChanges(d, a, owner, es), p)
  {
    hide VerifyEntry;
    var cs := RemovalChanges(d, a, owner, es);
    RemovalChangesSpec(d, a, owner, es);
    forall k | 0 <= k < |cs|
      ensures cs[k].op.destination != p
    {
      assert cs[k] in cs;
      var e :| e in es && DecideRemoval(d, a, owner, e) == Changing(cs[k]);
    }
  }

  /** The entries and changes of an install loop after one more plan. */
  lemma InstallLoopStep(d: Disk, a: Alloc, ps: seq<Plan>, i: nat, entries: seq<Entry>)
    requires i < |ps| && forall k, l :: 0 <= k < l < |ps| ==> ps[k].skillName != ps[l].skillName
    requires
      var cs := InstallChanges(d, a, ps[..i]);
      Placed(cs) && Edited(ReadJournal(d).entries, cs, entries)
    requires Decide(d, a, ps[i]).Changing?
    ensures
      var c := Decide(d, a, ps[i]).change;
      var cs := InstallChanges(d, a, ps[..i + 1]);
      && cs == InstallChanges(d, a, ps[..i]) + [c]
      && Placed(cs) && Edited(ReadJournal(d).entries, cs, Edit(entries, c))
      && c.entry.Some?
  {
    hide Decide, Edited, Placed;
    var c := Decide(d, a, ps[i]).change;
    var before := ps[..i];
    assert ps[..i + 1] == before + [ps[i]];
    InstallChangesExtend(d, a, before, ps[i]);
    DecidePlace(d, a, ps[i]);
    forall p | p in before
      ensures p.skillName != ps[i].skillName
    {
      var k :| 0 <= k < |before| && before[k] == p;
      assert ps[k] == p;
    }
    InstallNotAffected(d, a, before, ps[i].skillName);
    PlacedGrows(InstallChanges(d, a, before), c);
    EditedMore(ReadJournal(d).entries, InstallChanges(d, a, before), c, entries);
  }

  lemma RemovalLoopStep(d: Disk, a: Alloc, owner: string, es: seq<Entry>, i: nat, entries: seq<Entry>)
    requires i < |es| && DistinctTop(es)
    requires
      var cs := RemovalChanges(d, a, owner, es[..i]);
      Placed(cs) && Edited(ReadJournal(d).entries, cs, entries)
    requires DecideRemoval(d, a, owner, es[i]).Changing?
    ensures
      var c := DecideRemoval(d, a, owner, es[i]).change;
      var cs := RemovalChanges(d, a, owner, es[..i + 1]);
      && cs == RemovalChanges(d, a, owner, es[..i]) + [c]
      && Placed(cs) && Edited(ReadJournal(d).entries, cs, Edit(entries, c))
  {
    hide VerifyEntry, Edited, Placed;
    var c := DecideRemoval(d, a, owner, es[i]).change;
    var before := es[..i];
    assert es[..i + 1] == before + [es[i]];
    RemovalChangesExtend(d, a, owner, before, es[i]);
    forall e | e in before
      ensures e.destination != es[i].destination
    {
      var k :| 0 <= k < |before| && before[k] == e;
      assert es[k] == e;
    }
    assert es[i] in es;
    RemovalNotAffected(d, a, owner, before, es[i].destination);
    PlacedGrows(RemovalChanges(d, a, owner, before), c);
    EditedMore(ReadJournal(d).entries, RemovalChanges(d, a, owner, before), c, entries);
  }

  /** The entries a removal selects sit at distinct top-level destinations. */
  lemma SelectedIsDistinct(j: Journal, owner: string, names: seq<string>)
    requires JournalShape(j) && Selected(j, owner, names).Some?
    ensures DistinctTop(Selected(j, owner, names).value)
  {
    hide ValidSkillName;
    ShapeIsDistinctTop(j);
    var es := Selected(j, owner, names).value;
    if names == [] {
      EntriesOfSpec(j.entries, owner);
      EntriesOfDistinct(j.entries, owner);
    } else {
      EntriesNamedSpec(j.entries, owner, names);
      forall i, k | 0 <= i < k < |es|
        ensures es[i].destination != es[k].destination
      {
        assert EntryShape(es[i]) && EntryShape(es[k]);
        assert es[i].skillName == names[i] && es[k].skillName == names[k];
      }
    }
  }
}
