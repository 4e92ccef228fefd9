/** What an edit of the lockfile does, skill by skill, said of the skills before and after it. */
module LockEffects {
  import opened Options
  import opened Order
  import opened Lockfile
  import opened LockEdits

  // ---------------------------------------------------------------- an owner leaves

  /** `t` is `s` without one of its owners, everything else as it was. */
  ghost predicate LeftBy(s: LockSkill, t: LockSkill, owner: string) {
    t == s.(owners := t.owners) && forall o :: o in t.owners <==> o in s.owners && o != owner
  }

  /** Everywhere the owner is gone, skills without owners are, and nothing else is. */
  ghost predicate LeftEverywhere(before: seq<LockSkill>, after: seq<LockSkill>, owner: string) {
    && (forall t :: t in after ==> t.owners != [] && exists s :: s in before && LeftBy(s, t, owner))
    && (forall s :: s in before && (exists o :: o in s.owners && o != owner) ==> exists t :: t in after && LeftBy(s, t, owner))
  }

  /** The same for the skills of some names; the others stay as they are. */
  ghost predicate LeftUnder(before: seq<LockSkill>, after: seq<LockSkill>, names: set<string>, owner: string) {
    && (forall t :: t in after && t.skillName in names ==> t.owners != [] && exists s :: s in before && LeftBy(s, t, owner))
    && (forall s :: s in before && s.skillName in names && (exists o :: o in s.owners && o != owner) ==>
        exists t :: t in after && LeftBy(s, t, owner))
    && (forall t: LockSkill :: t.skillName !in names ==> (t in after <==> t in before && t.owners != []))
  }

  lemma DropLeaves(s: LockSkill, owner: string)
    ensures LeftBy(s, DropFrom(s, true, owner), owner)
  {
    WithoutSpec(s.owners, owner);
  }

  lemma ReleasedMembers(skills: seq<LockSkill>, hit: LockSkill -> bool, owner: string)
    ensures forall t :: t in Released(skills, hit, owner) <==>
      t.owners != [] && exists s :: s in skills && t == DropFrom(s, hit(s), owner)
  {
    hide Pruned, DropFrom;
    var r := Dropped(skills, hit, owner);
    PrunedSpec(r);
    forall t
      ensures t in r <==> exists s :: s in skills && t == DropFrom(s, hit(s), owner)
    {
      if t in r {
        var k :| 0 <= k < |r| && r[k] == t;
        assert skills[k] in skills;
      }
      if s :| s in skills && t == DropFrom(s, hit(s), owner) {
        var k :| 0 <= k < |skills| && skills[k] == s;
        assert r[k] == t;
      }
    }
  }

  lemma ReleasedEverywhere(skills: seq<LockSkill>, owner: string)
    ensures LeftEverywhere(skills, Released(skills, s => true, owner), owner)
  {
    hide Released, Without;
    ReleasedMembers(skills, s => true, owner);
    forall s
      ensures LeftBy(s, DropFrom(s, true, owner), owner)
    {
      DropLeaves(s, owner);
    }
    forall s | s in skills && exists o :: o in s.owners && o != owner
      ensures exists t :: t in Released(skills, x => true, owner) && LeftBy(s, t, owner)
    {
      var o :| o in s.owners && o != owner;
      var t := DropFrom(s, true, owner);
      assert o in t.owners;
    }
  }

  lemma ReleasedUnder(skills: seq<LockSkill>, names: set<string>, owner: string)
    ensures LeftUnder(skills, Released(skills, (s: LockSkill) => s.skillName in names, owner), names, owner)
  {
    hide Released, Without;
    var hit := (s: LockSkill) => s.skillName in names;
    var after := Released(skills, hit, owner);
    ReleasedMembers(skills, hit, owner);
    forall s
      ensures LeftBy(s, DropFrom(s, true, owner), owner) && DropFrom(s, false, owner) == s
      ensures DropFrom(s, hit(s), owner).skillName == s.skillName
    {
      DropLeaves(s, owner);
    }
    forall s | s in skills && s.skillName in names && exists o :: o in s.owners && o != owner
      ensures exists t :: t in after && LeftBy(s, t, owner)
    {
      var o :| o in s.owners && o != owner;
      var t := DropFrom(s, true, owner);
      assert o in t.owners;
    }
    forall t: LockSkill | t.skillName !in names
      ensures t in after <==> t in skills && t.owners != []
    {
      if t in skills && t.owners != [] { assert t == DropFrom(t, hit(t), owner); }
    }
  }

  /** So exactly the holdings of that owner are gone. */
  lemma LeftEverywhereHolds(before: seq<LockSkill>, after: seq<LockSkill>, owner: string, key: string, q: string)
    requires LeftEverywhere(before, after, owner)
    ensures Held(after, key, q) <==> Held(before, key, q) && q != owner
  {
    if Held(after, key, q) {
      var i :| 0 <= i < |after| && after[i].key == key && q in after[i].owners;
      assert after[i] in after;
      var s :| s in before && LeftBy(s, after[i], owner);
      var k :| 0 <= k < |before| && before[k] == s;
    }
    if Held(before, key, q) && q != owner {
      var k :| 0 <= k < |before| && before[k].key == key && q in before[k].owners;
      assert before[k] in before;
      var t :| t in after && LeftBy(before[k], t, owner);
      var i :| 0 <= i < |after| && after[i] == t;
    }
  }

  /** A skill of the key with this owner, of a name that is or is not among the given ones. */
  ghost predicate HeldUnder(skills: seq<LockSkill>, key: string, q: string, names: set<string>, named: bool) {
    exists s :: s in skills && s.key == key && q in s.owners && (s.skillName in names <==> named)
  }

  /** A direct removal takes the owner off the named skills, and off no other. */
  lemma LeftUnderHolds(before: seq<LockSkill>, after: seq<LockSkill>, names: set<string>, owner: string, key: string, q: string)
    requires LeftUnder(before, after, names, owner)
    ensures HeldUnder(after, key, q, names, true) <==> HeldUnder(before, key, q, names, true) && q != owner
    ensures HeldUnder(after, key, q, names, false) <==> HeldUnder(before, key, q, names, false)
  {
    if HeldUnder(after, key, q, names, true) {
      var t :| t in after && t.key == key && q in t.owners && t.skillName in names;
      var s :| s in before && LeftBy(s, t, owner);
    }
    if HeldUnder(before, key, q, names, true) && q != owner {
      var s :| s in before && s.key == key && q in s.owners && s.skillName in names;
      var t :| t in after && LeftBy(s, t, owner);
    }
    if HeldUnder(after, key, q, names, false) {
      var t :| t in after && t.key == key && q in t.owners && t.skillName !in names;
      assert t in before;
    }
    if HeldUnder(before, key, q, names, false) {
      var t :| t in before && t.key == key && q in t.owners && t.skillName !in names;
      assert t in after;
    }
  }

  // ---------------------------------------------------------------- a pin

  /** The skill is the pin's, field by field. */
  ghost predicate IsPinOf(s: LockSkill, p: Pin) {
    && s.key == p.registry + ":" + p.reference + "@" + p.version
    && s.registry == p.registry && s.reference == p.reference && s.version == p.version
    && s.skillName == p.skillName && s.artifactDigest == p.artifactDigest && s.treeDigest == p.treeDigest
    && s.provenance == p.provenance
  }

  /** The pin's own skill is there with the pin's fields and the owner; the others keep theirs apart from owners. */
  ghost predicate PinnedIn(before: seq<LockSkill>, after: seq<LockSkill>, p: Pin, owner: string) {
    && (exists t :: t in after && IsPinOf(t, p) && owner in t.owners)
    && (forall t :: t in after ==> IsPinOf(t, p) || exists s :: s in before && t == s.(owners := t.owners))
    && (forall s, o :: s in before && o in s.owners && o != owner ==>
        exists t :: t in after && t.key == s.key && t.skillName == s.skillName && o in t.owners)
  }

  lemma PinnedFields(skills: seq<LockSkill>, p: Pin, aliases: set<string>, owner: string)
    requires Tidy(skills) && PlainName(p.reference, p.version) && Pinned(skills, p, aliases, owner).Some?
    ensures PinnedIn(skills, Pinned(skills, p, aliases, owner).value, p, owner)
  {
    hide Tidy, Released, Displaces, Joined;
    var hit := s => Displaces(p, s, aliases);
    var mid := Released(skills, hit, owner);
    ReleasedTidy(skills, hit, owner);
    ReleasedKeepsFields(skills, hit, owner);
    JoinedFields(mid, p, owner);
    var after := Joined(mid, p, owner).value;
    forall s, o | s in skills && o in s.owners && o != owner
      ensures exists t :: t in after && t.key == s.key && t.skillName == s.skillName && o in t.owners
    {
      var m :| m in mid && m == s.(owners := m.owners) && o in m.owners;
    }
  }

  lemma ReleasedKeepsFields(skills: seq<LockSkill>, hit: LockSkill -> bool, owner: string)
    ensures forall t :: t in Released(skills, hit, owner) ==> exists s :: s in skills && t == s.(owners := t.owners)
    ensures forall s, o :: s in skills && o in s.owners && o != owner ==>
      exists t :: t in Released(skills, hit, owner) && t == s.(owners := t.owners) && o in t.owners
  {
    hide Released, Without;
    var after := Released(skills, hit, owner);
    ReleasedMembers(skills, hit, owner);
    forall t | t in after
      ensures exists s :: s in skills && t == s.(owners := t.owners)
    {
      var s :| s in skills && t == DropFrom(s, hit(s), owner);
      assert t == s.(owners := t.owners);
    }
    forall s, o | s in skills && o in s.owners && o != owner
      ensures exists t :: t in after && t == s.(owners := t.owners) && o in t.owners
    {
      DropLeaves(s, owner);
      var t := DropFrom(s, hit(s), owner);
      assert o in t.owners && t == s.(owners := t.owners);
    }
  }

  lemma JoinedFields(skills: seq<LockSkill>, p: Pin, owner: string)
    requires Tidy(skills) && PlainName(p.reference, p.version) && Joined(skills, p, owner).Some?
    ensures
      var after := Joined(skills, p, owner).value;
      && (exists t :: t in after && IsPinOf(t, p) && owner in t.owners)
      && (forall t :: t in after ==> IsPinOf(t, p) || t in skills)
      && (forall m, o :: m in skills && o in m.owners && o != owner ==>
          exists t :: t in after && t.key == m.key && t.skillName == m.skillName && o in t.owners)
  {
    hide Without, Compatible;
    var after := Joined(skills, p, owner).value;
    var i := FindKey(skills, KeyOf(p));
    var at := if i < 0 then |skills| else i;
    if i >= 0 {
      assert Fine(skills[i]);
      SkillKeyInjective(skills[i].registry, skills[i].reference, skills[i].version, p.registry, p.reference, p.version);
      RepinnedIsFine(skills[i], p, owner);
    }
    assert IsPinOf(after[at], p) && owner in after[at].owners && after[at] in after;
    forall t | t in after
      ensures IsPinOf(t, p) || t in skills
    {
      var k :| 0 <= k < |after| && after[k] == t;
      if k != at { assert skills[k] == t; }
    }
    forall m, o | m in skills && o in m.owners && o != owner
      ensures exists t :: t in after && t.key == m.key && t.skillName == m.skillName && o in t.owners
    {
      var k :| 0 <= k < |skills| && skills[k] == m;
      assert after[k] in after;
      if k == i { assert o in after[k].owners; } else { assert after[k] == m; }
    }
  }

  /** The pin's owner gives up this skill: it is the same external skill under another key, or another version. */
  ghost predicate GivenUp(s: LockSkill, p: Pin, aliases: set<string>) {
    || (&& p.provenance.externalId.Some? && s.provenance.externalId == p.provenance.externalId
        && s.provenance.externalSource == p.provenance.externalSource && s.provenance.feedName == p.provenance.feedName
        && (s.registry == p.registry || s.registry in aliases)
        && s.key != p.registry + ":" + p.reference + "@" + p.version)
    || (s.registry == p.registry && s.reference == p.reference && s.version != p.version)
  }

  /** After a pin its owner holds the pin's key, and of the others exactly those that it held and did not give up. */
  lemma PinnedLeavesIff(skills: seq<LockSkill>, p: Pin, aliases: set<string>, owner: string, s: LockSkill)
    requires Tidy(skills) && Pinned(skills, p, aliases, owner).Some? && s in skills
    requires s.key != p.registry + ":" + p.reference + "@" + p.version
    ensures Held(Pinned(skills, p, aliases, owner).value, s.key, owner) <==> owner in s.owners && !GivenUp(s, p, aliases)
  {
    hide Pinned, Compatible, Fine;
    PinnedHolds(skills, p, aliases, owner, s.key, owner);
    var i :| 0 <= i < |skills| && skills[i] == s;
    forall k | 0 <= k < |skills| && skills[k].key == s.key
      ensures k == i
    {
      SameKeySameIndex(skills, k, i);
    }
    assert GivenUp(s, p, aliases) <==> Displaces(p, s, aliases);
  }
}
