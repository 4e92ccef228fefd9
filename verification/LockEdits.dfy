/** Edits of `pskills.lock.json`: which owners keep which pinned skills, across versions and packs. */
module LockEdits {
  import opened Options
  import opened Order
  import opened Lockfile

  // ---------------------------------------------------------------- keys and owner names

  function SkillKey(registry: string, reference: string, version: string): string {
    registry + ":" + reference + "@" + version
  }

  function PackOwner(registry: string, reference: string, version: string): string {
    "pack:" + SkillKey(registry, reference, version)
  }

  /** References hold no colon and versions no at sign, as reference and SemVer syntax guarantee. */
  predicate PlainName(reference: string, version: string) {
    ':' !in reference && '@' !in version
  }

  lemma NoLaterSeparator(a: string, b: string, sep: char)
    requires sep !in b
    ensures forall k :: |a| < k < |a| + 1 + |b| ==> (a + [sep] + b)[k] != sep
  {
    forall k | |a| < k < |a| + 1 + |b|
      ensures (a + [sep] + b)[k] != sep
    {
      assert (a + [sep] + b)[k] == b[k - |a| - 1];
    }
  }

  /** The text behind the last separator is determined by the whole. */
  lemma LastSeparator(a: string, b: string, x: string, y: string, sep: char)
    requires a + [sep] + b == x + [sep] + y && sep !in b && sep !in y
    ensures a == x && b == y
  {
    var whole := a + [sep] + b;
    NoLaterSeparator(a, b, sep);
    NoLaterSeparator(x, y, sep);
    assert whole[|a|] == sep && (x + [sep] + y)[|x|] == sep;
    assert whole[..|a|] == a && (x + [sep] + y)[..|x|] == x;
    assert whole[|a| + 1..] == b && (x + [sep] + y)[|x| + 1..] == y;
  }

  lemma SkillKeyInjective(r: string, n: string, v: string, s: string, m: string, w: string)
    requires PlainName(n, v) && PlainName(m, w) && SkillKey(r, n, v) == SkillKey(s, m, w)
    ensures r == s && n == m && v == w
  {
    assert SkillKey(r, n, v) == (r + ":" + n) + ['@'] + v;
    assert SkillKey(s, m, w) == (s + ":" + m) + ['@'] + w;
    LastSeparator(r + ":" + n, v, s + ":" + m, w, '@');
    assert r + ":" + n == r + [':'] + n && s + ":" + m == s + [':'] + m;
    LastSeparator(r, n, s, m, ':');
  }

  lemma PackOwnerInjective(r: string, n: string, v: string, s: string, m: string, w: string)
    requires PlainName(n, v) && PlainName(m, w) && PackOwner(r, n, v) == PackOwner(s, m, w)
    ensures r == s && n == m && v == w
  {
    assert SkillKey(r, n, v) == PackOwner(r, n, v)[5..] && SkillKey(s, m, w) == PackOwner(s, m, w)[5..];
    SkillKeyInjective(r, n, v, s, m, w);
  }

  /** Other names can share a key: without the syntax rules the key says too little. */
  lemma KeysAreAmbiguousWithoutSyntax()
    ensures SkillKey("r", "a", "1@2") == SkillKey("r", "a@1", "2")
  {
  }

  // ---------------------------------------------------------------- a lock in good order

  ghost predicate Fine(s: LockSkill) {
    s.key == SkillKey(s.registry, s.reference, s.version) && PlainName(s.reference, s.version) && NoRepeats(s.owners)
  }

  /** Different keys, and no common owner when they are versions of one skill. */
  ghost predicate Compatible(a: LockSkill, b: LockSkill) {
    && a.key != b.key
    && (a.registry == b.registry && a.reference == b.reference ==> forall o :: o in a.owners ==> o !in b.owners)
  }

  ghost predicate Tidy(skills: seq<LockSkill>) {
    && (forall i :: 0 <= i < |skills| ==> Fine(skills[i]))
    && (forall i, j :: 0 <= i < j < |skills| ==> Compatible(skills[i], skills[j]))
  }

  ghost predicate AllOwned(skills: seq<LockSkill>) {
    forall i :: 0 <= i < |skills| ==> skills[i].owners != []
  }

  /** The key is pinned, and the owner holds it. */
  ghost predicate Held(skills: seq<LockSkill>, key: string, owner: string) {
    exists i :: 0 <= i < |skills| && skills[i].key == key && owner in skills[i].owners
  }

  predicate SamePack(p: LockPack, registry: string, reference: string, version: string) {
    p.registry == registry && p.reference == reference && p.version == version
  }

  function OwnerOf(p: LockPack): string {
    PackOwner(p.registry, p.reference, p.version)
  }

  /** Every member of the pack is pinned and held by the pack. */
  ghost predicate PackHolds(skills: seq<LockSkill>, p: LockPack) {
    forall k :: k in p.members ==> Held(skills, k, OwnerOf(p))
  }

  ghost predicate PacksTidy(packs: seq<LockPack>) {
    && (forall i :: 0 <= i < |packs| ==> PlainName(packs[i].reference, packs[i].version))
    && (forall i, j :: 0 <= i < j < |packs| ==> !SamePack(packs[i], packs[j].registry, packs[j].reference, packs[j].version))
  }

  /** Unique keys, owners without gaps or repeats, one version per owner, and no dangling pack member. */
  ghost predicate Good(lock: LockFile) {
    && Tidy(lock.skills) && AllOwned(lock.skills)
    && PacksTidy(lock.packs)
    && (forall i :: 0 <= i < |lock.packs| ==> PackHolds(lock.skills, lock.packs[i]))
  }

  lemma EmptyIsGood()
    ensures Good(EMPTY_LOCK)
  {
  }

  // ---------------------------------------------------------------- dropping an owner

  function DropFrom(s: LockSkill, hit: bool, owner: string): LockSkill {
    if hit then s.(owners := Without(s.owners, owner)) else s
  }

  /** The skills with `owner` dropped from those that are hit. */
  function Dropped(skills: seq<LockSkill>, hit: LockSkill -> bool, owner: string): (r: seq<LockSkill>)
    ensures |r| == |skills|
  {
    seq(|skills|, i requires 0 <= i < |skills| => DropFrom(skills[i], hit(skills[i]), owner))
  }

  /** Skills that nobody owns go. */
  function Pruned(skills: seq<LockSkill>): seq<LockSkill> {
    if skills == [] then []
    else
      var n := |skills| - 1;
      Pruned(skills[..n]) + (if skills[n].owners == [] then [] else [skills[n]])
  }

  function Released(skills: seq<LockSkill>, hit: LockSkill -> bool, owner: string): seq<LockSkill> {
    Pruned(Dropped(skills, hit, owner))
  }

  lemma {:induction false} PrunedSpec(skills: seq<LockSkill>)
    ensures forall s :: s in Pruned(skills) <==> s in skills && s.owners != []
    ensures Tidy(skills) ==> Tidy(Pruned(skills))
    ensures AllOwned(Pruned(skills))
  {
    hide Fine, Compatible;
    if skills != [] {
      var n := |skills| - 1;
      var front, last := skills[..n], skills[n];
      PrunedSpec(front);
      assert skills == front + [last];
      if Tidy(skills) {
        assert Tidy(front);
        PrunedTidy(front, last, skills);
      }
    }
  }

  lemma PrunedTidy(front: seq<LockSkill>, last: LockSkill, skills: seq<LockSkill>)
    requires skills == front + [last] && Tidy(skills) && Tidy(Pruned(front))
    requires forall s :: s in Pruned(front) ==> s in front
    ensures Tidy(Pruned(front) + [last])
  {
    hide Fine, Compatible, Pruned;
    var kept := Pruned(front);
    var all := kept + [last];
    assert skills[|front|] == last;
    forall i, j | 0 <= i < j < |all|
      ensures Compatible(all[i], all[j])
    {
      if j == |kept| {
        assert kept[i] in kept && kept[i] in front;
        var k :| 0 <= k < |front| && front[k] == kept[i];
        assert skills[k] == kept[i];
      }
    }
  }

  lemma DroppedTidy(skills: seq<LockSkill>, hit: LockSkill -> bool, owner: string)
    requires Tidy(skills)
    ensures Tidy(Dropped(skills, hit, owner))
  {
    hide Without;
    var r := Dropped(skills, hit, owner);
    forall i | 0 <= i < |skills|
      ensures Fine(r[i]) && forall o :: o in r[i].owners ==> o in skills[i].owners
    {
      WithoutSpec(skills[i].owners, owner);
    }
    forall i, j | 0 <= i < j < |r|
      ensures Compatible(r[i], r[j])
    {
      assert Compatible(skills[i], skills[j]);
    }
  }

  /** A skill with this key is hit. */
  ghost predicate HitAt(skills: seq<LockSkill>, hit: LockSkill -> bool, key: string) {
    exists i :: 0 <= i < |skills| && skills[i].key == key && hit(skills[i])
  }

  lemma ReleasedTakes(skills: seq<LockSkill>, hit: LockSkill -> bool, owner: string, key: string, q: string)
    requires Tidy(skills) && Held(Released(skills, hit, owner), key, q)
    ensures Held(skills, key, q) && !(q == owner && HitAt(skills, hit, key))
  {
    hide Without, Pruned, Fine, Compatible;
    var r := Dropped(skills, hit, owner);
    PrunedSpec(r);
    var i :| 0 <= i < |Pruned(r)| && Pruned(r)[i].key == key && q in Pruned(r)[i].owners;
    assert Pruned(r)[i] in r;
    var k :| 0 <= k < |r| && r[k] == Pruned(r)[i];
    assert r[k] == DropFrom(skills[k], hit(skills[k]), owner);
    WithoutSpec(skills[k].owners, owner);
    forall m | 0 <= m < |skills| && skills[m].key == key
      ensures m == k
    {
      SameKeySameIndex(skills, k, m);
    }
  }

  lemma ReleasedKeeps(skills: seq<LockSkill>, hit: LockSkill -> bool, owner: string, key: string, q: string)
    requires Held(skills, key, q) && !(q == owner && HitAt(skills, hit, key))
    ensures Held(Released(skills, hit, owner), key, q)
  {
    hide Without, Pruned, Fine, Compatible;
    var r := Dropped(skills, hit, owner);
    PrunedSpec(r);
    var k :| 0 <= k < |skills| && skills[k].key == key && q in skills[k].owners;
    WithoutSpec(skills[k].owners, owner);
    assert r[k] == DropFrom(skills[k], hit(skills[k]), owner);
    assert r[k].key == key && q in r[k].owners;
    assert r[k] in r && r[k] in Pruned(r);
  }

  /** After a release, exactly the hit skills are no longer held by the owner. */
  lemma ReleasedHolds(skills: seq<LockSkill>, hit: LockSkill -> bool, owner: string, key: string, q: string)
    requires Tidy(skills)
    ensures Held(Released(skills, hit, owner), key, q) <==>
      Held(skills, key, q) && !(q == owner && HitAt(skills, hit, key))
  {
    hide Held, Released, HitAt, Tidy;
    if Held(Released(skills, hit, owner), key, q) { ReleasedTakes(skills, hit, owner, key, q); }
    if Held(skills, key, q) && !(q == owner && HitAt(skills, hit, key)) { ReleasedKeeps(skills, hit, owner, key, q); }
  }

  lemma SameKeySameIndex(skills: seq<LockSkill>, i: nat, j: nat)
    requires Tidy(skills) && i < |skills| && j < |skills| && skills[i].key == skills[j].key
    ensures i == j
  {
    assert i < j ==> Compatible(skills[i], skills[j]);
    assert j < i ==> Compatible(skills[j], skills[i]);
  }

  lemma ReleasedTidy(skills: seq<LockSkill>, hit: LockSkill -> bool, owner: string)
    requires Tidy(skills)
    ensures Tidy(Released(skills, hit, owner)) && AllOwned(Released(skills, hit, owner))
  {
    hide Pruned, Dropped, Tidy, AllOwned;
    DroppedTidy(skills, hit, owner);
    PrunedSpec(Dropped(skills, hit, owner));
  }

  // ---------------------------------------------------------------- pinning a skill

  datatype Pin = Pin(
    registry: string, reference: string, version: string, skillName: string,
    artifactDigest: string, treeDigest: string, provenance: Provenance)

  function KeyOf(p: Pin): string {
    SkillKey(p.registry, p.reference, p.version)
  }

  /** The skill has the pin's external identity under another key. */
  predicate SameExternal(s: LockSkill, p: Pin, aliases: set<string>) {
    && p.provenance.externalId.Some?
    && (s.registry in aliases || s.registry == p.registry)
    && s.provenance == p.provenance
    && s.key != KeyOf(p)
  }

  /** The pin takes its owner away from this skill. */
  predicate Displaces(p: Pin, s: LockSkill, aliases: set<string>) {
    || SameExternal(s, p, aliases)
    || OtherVersion(s, p)
  }

  function LockKey(s: LockSkill): string { s.key }

  /** The pinned skill with a key; keys are unique, so any position is the only one. */
  function FindKey(skills: seq<LockSkill>, key: string): (i: int)
    ensures -1 <= i < |skills|
    ensures i >= 0 ==> skills[i].key == key
    ensures i < 0 ==> forall k :: 0 <= k < |skills| ==> skills[k].key != key
  {
    var i := IndexOf(skills, LockKey, key);
    assert i < 0 ==> forall k :: 0 <= k < |skills| ==> LockKey(skills[k]) != key;
    i
  }

  function NewSkill(p: Pin, owner: string): LockSkill {
    LockSkill(KeyOf(p), p.registry, p.reference, p.version, p.skillName, p.artifactDigest, p.treeDigest, [owner], p.provenance)
  }

  function Repinned(s: LockSkill, p: Pin, owner: string): LockSkill {
    s.(owners := Without(s.owners, owner) + [owner],
       artifactDigest := p.artifactDigest, treeDigest := p.treeDigest, provenance := p.provenance)
  }

  /** The owner joins the skill with the pin's key; `None` when it is installed under another name. */
  function Joined(skills: seq<LockSkill>, p: Pin, owner: string): Option<seq<LockSkill>> {
    var i := FindKey(skills, KeyOf(p));
    if i < 0 then Some(skills + [NewSkill(p, owner)])
    else if skills[i].skillName != p.skillName then None
    else Some(skills[i := Repinned(skills[i], p, owner)])
  }

  /** `update_lock_for_skill` on the pinned skills. */
  function Pinned(skills: seq<LockSkill>, p: Pin, aliases: set<string>, owner: string): Option<seq<LockSkill>> {
    Joined(Released(skills, s => Displaces(p, s, aliases), owner), p, owner)
  }

  predicate OtherVersion(s: LockSkill, p: Pin) {
    s.registry == p.registry && s.reference == p.reference && s.version != p.version
  }

  /** No version of the pinned skill other than the pin's own is held by the owner. */
  ghost predicate OtherVersionsFree(skills: seq<LockSkill>, p: Pin, owner: string) {
    forall i :: 0 <= i < |skills| && OtherVersion(skills[i], p) ==> owner !in skills[i].owners
  }

  lemma ReleaseFreesVersions(skills: seq<LockSkill>, p: Pin, aliases: set<string>, owner: string)
    requires Tidy(skills)
    ensures OtherVersionsFree(Released(skills, s => Displaces(p, s, aliases), owner), p, owner)
  {
    hide Without, Pruned, Fine, Compatible, SameExternal;
    var hit := s => Displaces(p, s, aliases);
    var r := Dropped(skills, hit, owner);
    PrunedSpec(r);
    forall i | 0 <= i < |Pruned(r)| && OtherVersion(Pruned(r)[i], p)
      ensures owner !in Pruned(r)[i].owners
    {
      assert Pruned(r)[i] in r;
      var k :| 0 <= k < |r| && r[k] == Pruned(r)[i];
      assert r[k] == DropFrom(skills[k], hit(skills[k]), owner);
      assert OtherVersion(skills[k], p) && hit(skills[k]);
      WithoutSpec(skills[k].owners, owner);
    }
  }

  lemma JoinedTidy(skills: seq<LockSkill>, p: Pin, owner: string)
    requires Tidy(skills) && AllOwned(skills) && OtherVersionsFree(skills, p, owner)
    requires PlainName(p.reference, p.version) && Joined(skills, p, owner).Some?
    ensures Tidy(Joined(skills, p, owner).value) && AllOwned(Joined(skills, p, owner).value)
  {
    var r := Joined(skills, p, owner).value;
    var i := FindKey(skills, KeyOf(p));
    if i < 0 {
      var s := NewSkill(p, owner);
      forall k | 0 <= k < |skills|
        ensures Compatible(skills[k], s)
      {
        NewVersionIsCompatible(skills[k], p, owner, s);
      }
      AppendTidy(skills, s);
    } else {
      RepinnedIsFine(skills[i], p, owner);
      var s := Repinned(skills[i], p, owner);
      forall k | 0 <= k < |skills| && k != i
        ensures Compatible(skills[k], s) && Compatible(s, skills[k])
      {
        if k < i { assert Compatible(skills[k], skills[i]); } else { assert Compatible(skills[i], skills[k]); }
        RepinnedIsCompatible(skills[k], skills[i], p, owner);
      }
      ReplaceTidy(skills, i, s);
    }
  }

  lemma AppendTidy(skills: seq<LockSkill>, s: LockSkill)
    requires Tidy(skills) && AllOwned(skills) && Fine(s) && s.owners != []
    requires forall k :: 0 <= k < |skills| ==> Compatible(skills[k], s)
    ensures Tidy(skills + [s]) && AllOwned(skills + [s])
  {
    hide Fine, Compatible;
  }

  lemma ReplaceTidy(skills: seq<LockSkill>, i: nat, s: LockSkill)
    requires Tidy(skills) && AllOwned(skills) && i < |skills| && Fine(s) && s.owners != []
    requires forall k :: 0 <= k < |skills| && k != i ==> Compatible(skills[k], s) && Compatible(s, skills[k])
    ensures Tidy(skills[i := s]) && AllOwned(skills[i := s])
  {
    hide Fine, Compatible;
  }

  lemma NewVersionIsCompatible(a: LockSkill, p: Pin, owner: string, s: LockSkill)
    requires Fine(a) && a.key != KeyOf(p) && s == NewSkill(p, owner)
    requires OtherVersion(a, p) ==> owner !in a.owners
    ensures Compatible(a, s)
  {
  }

  lemma RepinnedIsFine(s: LockSkill, p: Pin, owner: string)
    requires Fine(s)
    ensures Fine(Repinned(s, p, owner))
    ensures forall o :: o in Repinned(s, p, owner).owners <==> o in s.owners || o == owner
  {
    WithoutSpec(s.owners, owner);
    assert forall k :: 0 <= k < |Without(s.owners, owner)| ==> Without(s.owners, owner)[k] in Without(s.owners, owner);
  }

  lemma RepinnedIsCompatible(a: LockSkill, s: LockSkill, p: Pin, owner: string)
    requires Fine(a) && Fine(s) && s.key == KeyOf(p) && PlainName(p.reference, p.version)
    requires a.key != s.key
    requires a.registry == s.registry && a.reference == s.reference ==> forall o :: o in a.owners ==> o !in s.owners
    requires OtherVersion(a, p) ==> owner !in a.owners
    ensures Compatible(a, Repinned(s, p, owner)) && Compatible(Repinned(s, p, owner), a)
  {
    hide Without;
    SkillKeyInjective(s.registry, s.reference, s.version, p.registry, p.reference, p.version);
    RepinnedIsFine(s, p, owner);
  }

  lemma JoinedHolds(skills: seq<LockSkill>, p: Pin, owner: string, key: string, q: string)
    requires Tidy(skills) && Joined(skills, p, owner).Some?
    ensures Held(Joined(skills, p, owner).value, key, q) <==>
      Held(skills, key, q) || (key == KeyOf(p) && q == owner)
  {
    hide Compatible, Without;
    var r := Joined(skills, p, owner).value;
    var i := FindKey(skills, KeyOf(p));
    var at := if i < 0 then |skills| else i;
    if i >= 0 { RepinnedIsFine(skills[i], p, owner); }
    assert r[at].key == KeyOf(p) && owner in r[at].owners;
    if Held(r, key, q) {
      var k :| 0 <= k < |r| && r[k].key == key && q in r[k].owners;
      if k != at { assert skills[k] == r[k]; }
    }
    if Held(skills, key, q) {
      var k :| 0 <= k < |skills| && skills[k].key == key && q in skills[k].owners;
      if k == i { assert q in r[k].owners; } else { assert r[k] == skills[k]; }
    }
  }

  ghost predicate DisplacedAt(skills: seq<LockSkill>, p: Pin, aliases: set<string>, key: string) {
    exists i :: 0 <= i < |skills| && skills[i].key == key && Displaces(p, skills[i], aliases)
  }

  /** Pinning gives the owner the pin's key, takes it off displaced keys, and moves nobody else. */
  lemma PinnedHolds(skills: seq<LockSkill>, p: Pin, aliases: set<string>, owner: string, key: string, q: string)
    requires Tidy(skills) && Pinned(skills, p, aliases, owner).Some?
    ensures Held(Pinned(skills, p, aliases, owner).value, key, q) <==>
      || (key == KeyOf(p) && q == owner)
      || (Held(skills, key, q) && !(q == owner && DisplacedAt(skills, p, aliases, key)))
  {
    hide Released, Held, Tidy, Joined, Displaces;
    var hit := s => Displaces(p, s, aliases);
    ReleasedHolds(skills, hit, owner, key, q);
    ReleasedTidy(skills, hit, owner);
    JoinedHolds(Released(skills, hit, owner), p, owner, key, q);
    assert HitAt(skills, hit, key) <==> DisplacedAt(skills, p, aliases, key);
  }

  /** Pinning keeps the skills in good order. */
  lemma PinnedTidy(skills: seq<LockSkill>, p: Pin, aliases: set<string>, owner: string)
    requires Tidy(skills) && PlainName(p.reference, p.version) && Pinned(skills, p, aliases, owner).Some?
    ensures Tidy(Pinned(skills, p, aliases, owner).value) && AllOwned(Pinned(skills, p, aliases, owner).value)
  {
    hide Released, Tidy, AllOwned, Joined, Displaces, OtherVersionsFree;
    var hit := s => Displaces(p, s, aliases);
    ReleasedTidy(skills, hit, owner);
    ReleaseFreesVersions(skills, p, aliases, owner);
    JoinedTidy(Released(skills, hit, owner), p, owner);
  }

  /** The skill under the pin's own key is untouched by the release. */
  lemma OwnKeyStays(skills: seq<LockSkill>, p: Pin, aliases: set<string>, owner: string, s: LockSkill)
    requires Tidy(skills) && AllOwned(skills) && PlainName(p.reference, p.version) && s.key == KeyOf(p)
    ensures s in Released(skills, x => Displaces(p, x, aliases), owner) <==> s in skills
  {
    hide Without, Pruned, Compatible, PlainName, SkillKey;
    var hit := x => Displaces(p, x, aliases);
    var r := Dropped(skills, hit, owner);
    PrunedSpec(r);
    forall k | 0 <= k < |skills| && skills[k].key == KeyOf(p)
      ensures r[k] == skills[k]
    {
      var x := skills[k];
      SkillKeyInjective(x.registry, x.reference, x.version, p.registry, p.reference, p.version);
      assert !hit(x) && r[k] == DropFrom(x, hit(x), owner);
    }
    if s in skills {
      var k :| 0 <= k < |skills| && skills[k] == s;
      assert r[k] in r;
    }
    if s in Pruned(r) {
      var k :| 0 <= k < |r| && r[k] == s;
      assert r[k] == DropFrom(skills[k], hit(skills[k]), owner);
      assert skills[k].key == s.key;
    }
  }

  ghost predicate OtherDestination(skills: seq<LockSkill>, p: Pin) {
    exists s :: s in skills && s.key == KeyOf(p) && s.skillName != p.skillName
  }

  /** A pin is refused exactly when its key is already installed under another name. */
  lemma PinnedRefusedIff(skills: seq<LockSkill>, p: Pin, aliases: set<string>, owner: string)
    requires Tidy(skills) && AllOwned(skills) && PlainName(p.reference, p.version)
    ensures Pinned(skills, p, aliases, owner).None? <==> OtherDestination(skills, p)
  {
    hide Released, Displaces, Tidy, AllOwned, KeyOf;
    var hit := x => Displaces(p, x, aliases);
    var r := Released(skills, hit, owner);
    ReleasedTidy(skills, hit, owner);
    var i := FindKey(r, KeyOf(p));
    if i >= 0 {
      OwnKeyStays(skills, p, aliases, owner, r[i]);
      assert r[i] in r;
    }
    if OtherDestination(skills, p) {
      var s :| s in skills && s.key == KeyOf(p) && s.skillName != p.skillName;
      OwnKeyStays(skills, p, aliases, owner, s);
      var k :| 0 <= k < |r| && r[k] == s;
      SameKeySameIndex(r, i, k);
    }
  }
}
