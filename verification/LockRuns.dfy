/** Whole edits of the lockfile, and what every sequence of them keeps. */
module LockRuns {
  import opened Options
  import opened Order
  import opened Paths
  import opened PathRules
  import opened Lockfile
  import opened LockEdits
  import opened LockEffects

  // ---------------------------------------------------------------- pinning the members of a pack

  /** The loop of `install_pack` over its members. */
  function PinAll(skills: seq<LockSkill>, pins: seq<Pin>, aliases: set<string>, owner: string): Option<seq<LockSkill>> {
    if pins == [] then Some(skills)
    else
      match PinAll(skills, pins[..|pins| - 1], aliases, owner)
      case None => None
      case Some(s) => Pinned(s, pins[|pins| - 1], aliases, owner)
  }

  /** Pinning `p` takes the common owner away from the member `q`. */
  predicate Supersedes(p: Pin, q: Pin, aliases: set<string>) {
    Displaces(p, NewSkill(q, ""), aliases)
  }

  ghost predicate PlainPins(pins: seq<Pin>) {
    forall i :: 0 <= i < |pins| ==> PlainName(pins[i].reference, pins[i].version)
  }

  /** No later member has the same key. */
  ghost predicate LastPin(pins: seq<Pin>, i: int) {
    0 <= i < |pins| && forall j :: i < j < |pins| ==> KeyOf(pins[j]) != KeyOf(pins[i])
  }

  ghost predicate NotSuperseded(pins: seq<Pin>, i: int, aliases: set<string>)
    requires 0 <= i < |pins|
  {
    forall j :: i < j < |pins| ==> !Supersedes(pins[j], pins[i], aliases)
  }

  /** No member takes the owner away from an earlier one: distinct references, distinct external identities. */
  ghost predicate Independent(pins: seq<Pin>, aliases: set<string>) {
    forall i :: LastPin(pins, i) ==> NotSuperseded(pins, i, aliases)
  }

  /** `validate_pack_destinations`: no two members share an install name, whatever its case. */
  predicate DistinctNames(pins: seq<Pin>) {
    forall i, j :: 0 <= i < j < |pins| ==> AsciiLower(pins[i].skillName) != AsciiLower(pins[j].skillName)
  }

  lemma {:induction false} PinAllTidy(skills: seq<LockSkill>, pins: seq<Pin>, aliases: set<string>, owner: string)
    requires Tidy(skills) && AllOwned(skills) && PlainPins(pins) && PinAll(skills, pins, aliases, owner).Some?
    ensures Tidy(PinAll(skills, pins, aliases, owner).value) && AllOwned(PinAll(skills, pins, aliases, owner).value)
  {
    hide Tidy, AllOwned, Pinned;
    if pins != [] {
      var n := |pins| - 1;
      PinAllTidy(skills, pins[..n], aliases, owner);
      PinnedTidy(PinAll(skills, pins[..n], aliases, owner).value, pins[n], aliases, owner);
    }
  }

  /** Pinning for one owner never moves another. */
  lemma {:induction false} PinAllOthers(
      skills: seq<LockSkill>, pins: seq<Pin>, aliases: set<string>, owner: string, key: string, q: string)
    requires Tidy(skills) && AllOwned(skills) && PlainPins(pins) && PinAll(skills, pins, aliases, owner).Some? && q != owner
    ensures Held(PinAll(skills, pins, aliases, owner).value, key, q) <==> Held(skills, key, q)
  {
    hide Tidy, AllOwned, Pinned, Held;
    if pins != [] {
      var n := |pins| - 1;
      PinAllOthers(skills, pins[..n], aliases, owner, key, q);
      PinAllTidy(skills, pins[..n], aliases, owner);
      PinnedHolds(PinAll(skills, pins[..n], aliases, owner).value, pins[n], aliases, owner, key, q);
    }
  }

  /** Whatever is pinned under the member's key has the member's origin. */
  ghost predicate Matches(skills: seq<LockSkill>, q: Pin) {
    forall k :: 0 <= k < |skills| && skills[k].key == KeyOf(q) ==> SameOrigin(skills[k], q)
  }

  ghost predicate SameOrigin(s: LockSkill, q: Pin) {
    s.registry == q.registry && s.reference == q.reference && s.version == q.version && s.provenance == q.provenance
  }

  lemma ReleasedMatches(skills: seq<LockSkill>, hit: LockSkill -> bool, owner: string, q: Pin)
    requires Matches(skills, q)
    ensures Matches(Released(skills, hit, owner), q)
  {
    hide SameOrigin, Without, Pruned, Fine, Compatible;
    var r := Dropped(skills, hit, owner);
    PrunedSpec(r);
    forall i | 0 <= i < |Pruned(r)| && Pruned(r)[i].key == KeyOf(q)
      ensures SameOrigin(Pruned(r)[i], q)
    {
      assert Pruned(r)[i] in r;
      var k :| 0 <= k < |r| && r[k] == Pruned(r)[i];
      assert r[k] == DropFrom(skills[k], hit(skills[k]), owner);
      OwnersAreNoOrigin(skills[k], Without(skills[k].owners, owner), q);
    }
  }

  lemma OwnersAreNoOrigin(s: LockSkill, owners: seq<string>, q: Pin)
    ensures SameOrigin(s.(owners := owners), q) <==> SameOrigin(s, q)
  {
  }

  lemma PinnedMatches(skills: seq<LockSkill>, p: Pin, aliases: set<string>, owner: string, q: Pin)
    requires Tidy(skills) && PlainName(p.reference, p.version) && Pinned(skills, p, aliases, owner).Some?
    requires KeyOf(p) == KeyOf(q) ==> p == q
    requires KeyOf(p) != KeyOf(q) ==> Matches(skills, q)
    ensures Matches(Pinned(skills, p, aliases, owner).value, q)
  {
    hide Released, Without, Compatible, Displaces, KeyOf;
    var hit := s => Displaces(p, s, aliases);
    var mid := Released(skills, hit, owner);
    ReleasedTidy(skills, hit, owner);
    var i := FindKey(mid, KeyOf(p));
    if KeyOf(p) != KeyOf(q) {
      ReleasedMatches(skills, hit, owner, q);
      NewSkillIsPinned(p, owner);
    } else {
      JoinedMatches(mid, p, owner);
    }
  }

  lemma NewSkillIsPinned(p: Pin, owner: string)
    ensures NewSkill(p, owner).key == KeyOf(p)
  {
  }

  lemma JoinedMatches(skills: seq<LockSkill>, p: Pin, owner: string)
    requires Tidy(skills) && PlainName(p.reference, p.version) && Joined(skills, p, owner).Some?
    ensures Matches(Joined(skills, p, owner).value, p)
  {
    hide Without;
    var r := Joined(skills, p, owner).value;
    var i := FindKey(skills, KeyOf(p));
    if i >= 0 {
      SkillKeyInjective(skills[i].registry, skills[i].reference, skills[i].version, p.registry, p.reference, p.version);
      forall k | 0 <= k < |r| && r[k].key == KeyOf(p)
        ensures SameOrigin(r[k], p)
      {
        SameKeySameIndex(skills, i, k);
      }
    }
  }

  lemma DisplacedIffSuperseded(skills: seq<LockSkill>, p: Pin, aliases: set<string>, q: Pin)
    requires Matches(skills, q) && exists k :: 0 <= k < |skills| && skills[k].key == KeyOf(q)
    ensures DisplacedAt(skills, p, aliases, KeyOf(q)) <==> Supersedes(p, q, aliases)
  {
    hide KeyOf;
    NewSkillIsPinned(q, "");
    var k :| 0 <= k < |skills| && skills[k].key == KeyOf(q);
    assert SameOrigin(skills[k], q);
    assert Displaces(p, skills[k], aliases) <==> Supersedes(p, q, aliases);
    if DisplacedAt(skills, p, aliases, KeyOf(q)) {
      var m :| 0 <= m < |skills| && skills[m].key == KeyOf(q) && Displaces(p, skills[m], aliases);
      assert SameOrigin(skills[m], q);
    }
  }

  /** After the loop a key is held exactly when no member behind its last pin supersedes that pin. */
  lemma {:induction false} MemberHeldIff(
      skills: seq<LockSkill>, pins: seq<Pin>, aliases: set<string>, owner: string, i: nat)
    requires Tidy(skills) && AllOwned(skills) && PlainPins(pins) && LastPin(pins, i)
    requires PinAll(skills, pins, aliases, owner).Some?
    ensures Matches(PinAll(skills, pins, aliases, owner).value, pins[i])
    ensures Held(PinAll(skills, pins, aliases, owner).value, KeyOf(pins[i]), owner) <==> NotSuperseded(pins, i, aliases)
  {
    hide Tidy, AllOwned, Pinned, Matches, Supersedes, DisplacedAt, KeyOf;
    var n := |pins| - 1;
    var front := pins[..n];
    var mid := PinAll(skills, front, aliases, owner).value;
    PinAllTidy(skills, front, aliases, owner);
    PinnedHolds(mid, pins[n], aliases, owner, KeyOf(pins[i]), owner);
    if i < n {
      assert LastPin(front, i);
      MemberHeldIff(skills, front, aliases, owner, i);
      assert NotSuperseded(pins, i, aliases) <==> NotSuperseded(front, i, aliases) && !Supersedes(pins[n], pins[i], aliases);
      if Held(mid, KeyOf(pins[i]), owner) {
        DisplacedIffSuperseded(mid, pins[n], aliases, pins[i]);
      }
    }
    PinnedMatches(mid, pins[n], aliases, owner, pins[i]);
  }

  lemma {:induction false} LastPinOf(pins: seq<Pin>, i: nat) returns (k: nat)
    requires i < |pins|
    ensures LastPin(pins, k) && KeyOf(pins[k]) == KeyOf(pins[i])
    decreases |pins| - i
  {
    hide KeyOf;
    if j :| i < j < |pins| && KeyOf(pins[j]) == KeyOf(pins[i]) {
      k := LastPinOf(pins, j);
    } else {
      k := i;
    }
  }

  /** The owner holds exactly the keys whose last pin is not superseded. */
  ghost predicate HoldsExactly(skills: seq<LockSkill>, pins: seq<Pin>, aliases: set<string>, owner: string) {
    forall i :: LastPin(pins, i) ==> (Held(skills, KeyOf(pins[i]), owner) <==> NotSuperseded(pins, i, aliases))
  }

  lemma PinAllHoldsExactly(skills: seq<LockSkill>, pins: seq<Pin>, aliases: set<string>, owner: string)
    requires Tidy(skills) && AllOwned(skills) && PlainPins(pins) && PinAll(skills, pins, aliases, owner).Some?
    ensures HoldsExactly(PinAll(skills, pins, aliases, owner).value, pins, aliases, owner)
  {
    hide Tidy, AllOwned, PinAll, Held, NotSuperseded, KeyOf;
    var r := PinAll(skills, pins, aliases, owner).value;
    forall i | LastPin(pins, i)
      ensures Held(r, KeyOf(pins[i]), owner) <==> NotSuperseded(pins, i, aliases)
    {
      MemberHeldIff(skills, pins, aliases, owner, i);
    }
  }

  ghost predicate HoldsAll(skills: seq<LockSkill>, pins: seq<Pin>, owner: string) {
    forall i :: 0 <= i < |pins| ==> Held(skills, KeyOf(pins[i]), owner)
  }

  lemma HoldsAllIff(skills: seq<LockSkill>, pins: seq<Pin>, aliases: set<string>, owner: string)
    requires HoldsExactly(skills, pins, aliases, owner)
    ensures HoldsAll(skills, pins, owner) <==> Independent(pins, aliases)
  {
    hide Held, NotSuperseded, KeyOf;
    if Independent(pins, aliases) {
      forall i | 0 <= i < |pins|
        ensures Held(skills, KeyOf(pins[i]), owner)
      {
        var k := LastPinOf(pins, i);
      }
    } else {
      var i :| LastPin(pins, i) && !NotSuperseded(pins, i, aliases);
      assert !Held(skills, KeyOf(pins[i]), owner);
    }
  }

  /** A pack keeps all its members exactly when none supersedes an earlier one. */
  lemma PackHoldsIff(skills: seq<LockSkill>, pins: seq<Pin>, aliases: set<string>, owner: string)
    requires Tidy(skills) && AllOwned(skills) && PlainPins(pins) && PinAll(skills, pins, aliases, owner).Some?
    ensures HoldsAll(PinAll(skills, pins, aliases, owner).value, pins, owner) <==> Independent(pins, aliases)
  {
    hide Tidy, AllOwned, PinAll, HoldsExactly, HoldsAll, Independent;
    PinAllHoldsExactly(skills, pins, aliases, owner);
    HoldsAllIff(PinAll(skills, pins, aliases, owner).value, pins, aliases, owner);
  }

  // ---------------------------------------------------------------- the pack list

  function PacksBut(packs: seq<LockPack>, registry: string, reference: string, version: string): seq<LockPack> {
    if packs == [] then []
    else
      var n := |packs| - 1;
      PacksBut(packs[..n], registry, reference, version) +
      (if SamePack(packs[n], registry, reference, version) then [] else [packs[n]])
  }

  lemma {:induction false} PacksButSpec(packs: seq<LockPack>, r: string, n: string, v: string)
    ensures forall p :: p in PacksBut(packs, r, n, v) <==> p in packs && !SamePack(p, r, n, v)
    ensures PacksTidy(packs) ==> PacksTidy(PacksBut(packs, r, n, v))
  {
    hide PlainName;
    if packs != [] {
      var k := |packs| - 1;
      var front, last := packs[..k], packs[k];
      PacksButSpec(front, r, n, v);
      assert packs == front + [last];
      if PacksTidy(packs) {
        assert PacksTidy(front);
        var kept := PacksBut(front, r, n, v);
        forall i | 0 <= i < |kept|
          ensures !SamePack(kept[i], last.registry, last.reference, last.version)
        {
          assert kept[i] in kept && kept[i] in front;
          var m :| 0 <= m < k && packs[m] == kept[i];
          assert !SamePack(packs[m], packs[k].registry, packs[k].reference, packs[k].version);
        }
      }
    }
  }

  function Keys(pins: seq<Pin>): (r: seq<string>)
    ensures |r| == |pins|
  {
    seq(|pins|, i requires 0 <= i < |pins| => KeyOf(pins[i]))
  }

  // ---------------------------------------------------------------- edits

  /** A skill is pinned under a member's text. */
  predicate Present(skills: seq<LockSkill>, member: string) {
    exists s :: s in skills && SkillKey(s.registry, s.reference, s.version) == member
  }

  /** `remove_pack` first looks the pack up, and then every one of its members. */
  predicate Removable(lock: LockFile, registry: string, reference: string, version: string) {
    && (exists p :: p in lock.packs && SamePack(p, registry, reference, version))
    && (forall p :: p in lock.packs && SamePack(p, registry, reference, version) ==> MembersPresent(lock.skills, p))
  }

  predicate MembersPresent(skills: seq<LockSkill>, p: LockPack) {
    forall k :: k in p.members ==> Present(skills, k)
  }

  datatype Edit =
    | InstallSkill(pin: Pin, aliases: set<string>, owner: string)
    | InstallPack(
        registry: string, reference: string, version: string, manifestDigest: string, pins: seq<Pin>, aliases: set<string>)
    | RemovePack(registry: string, reference: string, version: string)
    | RemoveDirect(owner: string, names: set<string>)

  /** The lock after an edit; `None` when it is refused. */
  function Apply(lock: LockFile, e: Edit): Option<LockFile> {
    match e
    case InstallSkill(p, aliases, owner) =>
      (match Pinned(lock.skills, p, aliases, owner)
       case None => None
       case Some(s) => Some(lock.(skills := s)))
    case InstallPack(r, n, v, digest, pins, aliases) =>
      if !DistinctNames(pins) then None else
      (match PinAll(lock.skills, pins, aliases, PackOwner(r, n, v))
       case None => None
       case Some(s) => Some(LockFile(PacksBut(lock.packs, r, n, v) + [LockPack(r, n, v, digest, Keys(pins))], s)))
    case RemovePack(r, n, v) =>
      if !Removable(lock, r, n, v) then None else
      Some(LockFile(PacksBut(lock.packs, r, n, v), Released(lock.skills, s => true, PackOwner(r, n, v))))
    case RemoveDirect(owner, names) =>
      Some(lock.(skills := Released(lock.skills, (s: LockSkill) => s.skillName in names, owner)))
  }

  /** Direct owners never have the form of a pack's. */
  predicate DirectOwner(owner: string) {
    |owner| < 5 || owner[..5] != "pack:"
  }

  /** What reference, version and owner syntax guarantee. */
  ghost predicate EditOk(e: Edit) {
    match e
    case InstallSkill(p, _, owner) => PlainName(p.reference, p.version) && DirectOwner(owner)
    case InstallPack(r, n, v, _, pins, _) => PlainName(n, v) && PlainPins(pins)
    case RemovePack(r, n, v) => PlainName(n, v)
    case RemoveDirect(owner, _) => DirectOwner(owner)
  }

  lemma PackOwnerIsNotDirect(r: string, n: string, v: string)
    ensures !DirectOwner(PackOwner(r, n, v))
  {
    assert PackOwner(r, n, v)[..5] == "pack:";
  }

  /** Unique keys, owners without gaps or repeats, one version per owner, and packs recorded once. */
  ghost predicate Orderly(lock: LockFile) {
    Tidy(lock.skills) && AllOwned(lock.skills) && PacksTidy(lock.packs)
  }

  lemma PacksPlusOne(packs: seq<LockPack>, p: LockPack)
    requires PacksTidy(packs) && PlainName(p.reference, p.version)
    requires forall q :: q in packs ==> !SamePack(q, p.registry, p.reference, p.version)
    ensures PacksTidy(packs + [p])
  {
    hide PlainName, SamePack;
  }

  /** Every edit keeps the lock orderly. */
  lemma EditKeepsOrderly(lock: LockFile, e: Edit)
    requires Orderly(lock) && EditOk(e) && Apply(lock, e).Some?
    ensures Orderly(Apply(lock, e).value)
  {
    hide Tidy, AllOwned, Pinned, Released, PinAll, PlainName, PacksBut, PlainPins, Keys, PacksTidy;
    match e
    case InstallSkill(p, aliases, owner) => PinnedTidy(lock.skills, p, aliases, owner);
    case InstallPack(r, n, v, digest, pins, aliases) =>
      PinAllTidy(lock.skills, pins, aliases, PackOwner(r, n, v));
      PacksButSpec(lock.packs, r, n, v);
      PacksPlusOne(PacksBut(lock.packs, r, n, v), LockPack(r, n, v, digest, Keys(pins)));
    case RemovePack(r, n, v) =>
      ReleasedTidy(lock.skills, s => true, PackOwner(r, n, v));
      PacksButSpec(lock.packs, r, n, v);
    case RemoveDirect(owner, names) => ReleasedTidy(lock.skills, (s: LockSkill) => s.skillName in names, owner);
  }

  // ---------------------------------------------------------------- what each edit does

  /** The record of a pack: its origin and the text of each member, in order. */
  ghost predicate Records(q: LockPack, r: string, n: string, v: string, digest: string, pins: seq<Pin>) {
    && q.registry == r && q.reference == n && q.version == v && q.manifestDigest == digest
    && |q.members| == |pins|
    && forall i :: 0 <= i < |pins| ==> q.members[i] == pins[i].registry + ":" + pins[i].reference + "@" + pins[i].version
  }

  /** Every member that no later one supersedes is pinned with its own fields, for the pack. */
  ghost predicate MembersPinned(skills: seq<LockSkill>, pins: seq<Pin>, aliases: set<string>, owner: string) {
    forall i :: LastPin(pins, i) && NotSuperseded(pins, i, aliases) ==> PinnedFor(skills, pins[i], owner)
  }

  ghost predicate PinnedFor(skills: seq<LockSkill>, p: Pin, owner: string) {
    exists t :: t in skills && IsPinOf(t, p) && owner in t.owners
  }

  /** The packs but one are as they were. */
  ghost predicate OtherPacksStay(before: seq<LockPack>, after: seq<LockPack>, r: string, n: string, v: string) {
    forall q :: !SamePack(q, r, n, v) ==> (q in after <==> q in before)
  }

  /** What an edit does, said of the lock before and after it. */
  ghost predicate EditEffect(before: LockFile, e: Edit, after: LockFile) {
    match e
    case InstallSkill(p, aliases, owner) =>
      after.packs == before.packs && PinnedIn(before.skills, after.skills, p, owner)
    case InstallPack(r, n, v, digest, pins, aliases) =>
      && (forall i, j :: 0 <= i < j < |pins| ==> !SameButCase(pins[i].skillName, pins[j].skillName))
      && OtherPacksStay(before.packs, after.packs, r, n, v)
      && (exists q :: q in after.packs && SamePack(q, r, n, v))
      && (forall q :: q in after.packs && SamePack(q, r, n, v) ==> Records(q, r, n, v, digest, pins))
      && MembersPinned(after.skills, pins, aliases, "pack:" + r + ":" + n + "@" + v)
      && (forall key, o :: o != "pack:" + r + ":" + n + "@" + v ==> (Held(after.skills, key, o) <==> Held(before.skills, key, o)))
    case RemovePack(r, n, v) =>
      && OtherPacksStay(before.packs, after.packs, r, n, v)
      && (exists q :: q in before.packs && SamePack(q, r, n, v))
      && (forall q :: q in after.packs ==> !SamePack(q, r, n, v))
      && LeftEverywhere(before.skills, after.skills, "pack:" + r + ":" + n + "@" + v)
    case RemoveDirect(owner, names) =>
      after.packs == before.packs && LeftUnder(before.skills, after.skills, names, owner)
  }

  lemma PackOwnerText(r: string, n: string, v: string)
    ensures PackOwner(r, n, v) == "pack:" + r + ":" + n + "@" + v
  {
  }

  lemma {:induction false} MemberIsPinned(
      skills: seq<LockSkill>, pins: seq<Pin>, aliases: set<string>, owner: string, i: nat)
    requires Tidy(skills) && AllOwned(skills) && PlainPins(pins) && LastPin(pins, i) && NotSuperseded(pins, i, aliases)
    requires PinAll(skills, pins, aliases, owner).Some?
    ensures PinnedFor(PinAll(skills, pins, aliases, owner).value, pins[i], owner)
  {
    hide Tidy, AllOwned, Pinned, PinnedIn, KeyOf, Supersedes, IsPinOf;
    var n := |pins| - 1;
    var front := pins[..n];
    var mid := PinAll(skills, front, aliases, owner).value;
    PinAllTidy(skills, front, aliases, owner);
    PinnedFields(mid, pins[n], aliases, owner);
    if i < n {
      assert LastPin(front, i) && NotSuperseded(front, i, aliases);
      MemberIsPinned(skills, front, aliases, owner, i);
      MemberHeldIff(skills, pins, aliases, owner, i);
      PinStays(mid, pins[n], aliases, owner, pins[i]);
    } else {
      PinIsThere(mid, pins[n], Pinned(mid, pins[n], aliases, owner).value, owner);
    }
  }

  lemma PinIsThere(before: seq<LockSkill>, p: Pin, after: seq<LockSkill>, owner: string)
    requires PinnedIn(before, after, p, owner)
    ensures PinnedFor(after, p, owner)
  {
  }

  lemma PinStays(mid: seq<LockSkill>, p: Pin, aliases: set<string>, owner: string, q: Pin)
    requires Tidy(mid) && PlainName(p.reference, p.version) && Pinned(mid, p, aliases, owner).Some? && KeyOf(p) != KeyOf(q)
    requires PinnedFor(mid, q, owner) && Held(Pinned(mid, p, aliases, owner).value, KeyOf(q), owner)
    ensures PinnedFor(Pinned(mid, p, aliases, owner).value, q, owner)
  {
    hide Tidy, Pinned;
    var after := Pinned(mid, p, aliases, owner).value;
    PinnedFields(mid, p, aliases, owner);
    var k :| 0 <= k < |after| && after[k].key == KeyOf(q) && owner in after[k].owners;
    assert after[k] in after;
    var s :| s in mid && after[k] == s.(owners := after[k].owners);
    var t :| t in mid && IsPinOf(t, q) && owner in t.owners;
    var i :| 0 <= i < |mid| && mid[i] == s;
    var j :| 0 <= j < |mid| && mid[j] == t;
    SameKeySameIndex(mid, i, j);
  }

  // ---------------------------------------------------------------- which packs are taken

  ghost predicate DistinctPinKeys(pins: seq<Pin>) {
    forall i, j :: 0 <= i < j < |pins| ==> KeyOf(pins[i]) != KeyOf(pins[j])
  }

  /** Nothing is installed under a member's key and another name. */
  ghost predicate NamesAgree(skills: seq<LockSkill>, pins: seq<Pin>) {
    forall s, i :: s in skills && 0 <= i < |pins| && s.key == KeyOf(pins[i]) ==> s.skillName == pins[i].skillName
  }

  lemma {:induction false} AgreeingPackIsPinned(
      skills: seq<LockSkill>, pins: seq<Pin>, n: nat, aliases: set<string>, owner: string)
    requires Tidy(skills) && AllOwned(skills) && PlainPins(pins) && DistinctPinKeys(pins) && NamesAgree(skills, pins) && n <= |pins|
    ensures PinAll(skills, pins[..n], aliases, owner).Some?
    ensures NamesAgree(PinAll(skills, pins[..n], aliases, owner).value, pins)
    decreases n
  {
    hide Tidy, AllOwned, Pinned, KeyOf;
    if n > 0 {
      var p := pins[n - 1];
      assert pins[..n][..n - 1] == pins[..n - 1];
      AgreeingPackIsPinned(skills, pins, n - 1, aliases, owner);
      PinAllTidy(skills, pins[..n - 1], aliases, owner);
      var mid := PinAll(skills, pins[..n - 1], aliases, owner).value;
      PinnedRefusedIff(mid, p, aliases, owner);
      PinnedFields(mid, p, aliases, owner);
      var after := Pinned(mid, p, aliases, owner).value;
      forall s, i | s in after && 0 <= i < |pins| && s.key == KeyOf(pins[i])
        ensures s.skillName == pins[i].skillName
      {
        if IsPinOf(s, p) {
          PinHasKey(s, p);
        } else {
          var t :| t in mid && s == t.(owners := s.owners);
        }
      }
    }
  }

  lemma PinHasKey(s: LockSkill, p: Pin)
    requires IsPinOf(s, p)
    ensures s.key == KeyOf(p)
  {
  }

  /** A pack of distinct members with distinct names is taken when nothing is installed under a member's key and another name. */
  lemma AgreeingPackIsTaken(lock: LockFile, e: Edit)
    requires Orderly(lock) && EditOk(e) && e.InstallPack? && DistinctNames(e.pins)
    requires DistinctPinKeys(e.pins) && NamesAgree(lock.skills, e.pins)
    ensures Apply(lock, e).Some?
  {
    hide Tidy, AllOwned, PacksTidy, PinAll, NamesAgree, DistinctPinKeys, PlainPins;
    AgreeingPackIsPinned(lock.skills, e.pins, |e.pins|, e.aliases, PackOwner(e.registry, e.reference, e.version));
    assert e.pins[..|e.pins|] == e.pins;
  }

  lemma {:induction false} OtherOwnersStay(
      skills: seq<LockSkill>, pins: seq<Pin>, aliases: set<string>, owner: string, s: LockSkill, o: string) returns (t: LockSkill)
    requires Tidy(skills) && AllOwned(skills) && PlainPins(pins) && PinAll(skills, pins, aliases, owner).Some?
    requires s in skills && o in s.owners && o != owner
    ensures t in PinAll(skills, pins, aliases, owner).value && t.key == s.key && t.skillName == s.skillName && o in t.owners
  {
    hide Tidy, AllOwned, Pinned;
    if pins == [] {
      t := s;
    } else {
      var n := |pins| - 1;
      var m := OtherOwnersStay(skills, pins[..n], aliases, owner, s, o);
      var mid := PinAll(skills, pins[..n], aliases, owner).value;
      PinAllTidy(skills, pins[..n], aliases, owner);
      PinnedFields(mid, pins[n], aliases, owner);
      t :| t in Pinned(mid, pins[n], aliases, owner).value && t.key == m.key && t.skillName == m.skillName && o in t.owners;
    }
  }

  /** It is refused when another owner holds a member's key under another name. */
  lemma DisagreeingPackIsRefused(lock: LockFile, e: Edit, i: nat, s: LockSkill, o: string)
    requires Orderly(lock) && EditOk(e) && e.InstallPack? && i < |e.pins|
    requires s in lock.skills && s.key == KeyOf(e.pins[i]) && s.skillName != e.pins[i].skillName
    requires o in s.owners && o != PackOwner(e.registry, e.reference, e.version)
    ensures Apply(lock, e).None?
  {
    hide Tidy, AllOwned, PacksTidy, Pinned, KeyOf, PackOwner;
    var owner := PackOwner(e.registry, e.reference, e.version);
    var front := e.pins[..i];
    if PinAll(lock.skills, front, e.aliases, owner).Some? {
      var mid := PinAll(lock.skills, front, e.aliases, owner).value;
      var t := OtherOwnersStay(lock.skills, front, e.aliases, owner, s, o);
      PinAllTidy(lock.skills, front, e.aliases, owner);
      PinnedRefusedIff(mid, e.pins[i], e.aliases, owner);
      assert OtherDestination(mid, e.pins[i]);
      assert e.pins[..i + 1][..i] == front;
      RefusalLasts(lock.skills, e.pins, i + 1, e.aliases, owner);
    } else {
      RefusalLasts(lock.skills, e.pins, i, e.aliases, owner);
    }
  }

  /** Every edit that succeeds has its effect, and no other. */
  lemma EditHasEffect(lock: LockFile, e: Edit)
    requires Orderly(lock) && EditOk(e) && Apply(lock, e).Some?
    ensures EditEffect(lock, e, Apply(lock, e).value)
  {
    hide Tidy, AllOwned, PacksTidy, Pinned, PinAll, Released, PacksBut, PlainName, PlainPins, DistinctNames, PinnedIn, LeftEverywhere,
      LeftUnder, Held, NotSuperseded, PinnedFor, MembersPresent, DirectOwner, SameButCase;
    match e
    case InstallSkill(p, aliases, owner) => PinnedFields(lock.skills, p, aliases, owner);
    case InstallPack(r, n, v, digest, pins, aliases) =>
      PackIsRecorded(lock, e);
      DistinctNamesIff(pins);
      PackOwnerText(r, n, v);
      var owner, after := PackOwner(r, n, v), PinAll(lock.skills, pins, aliases, PackOwner(r, n, v)).value;
      forall i | LastPin(pins, i) && NotSuperseded(pins, i, aliases)
        ensures PinnedFor(after, pins[i], owner)
      {
        MemberIsPinned(lock.skills, pins, aliases, owner, i);
      }
      forall key, o | o != owner
        ensures Held(after, key, o) <==> Held(lock.skills, key, o)
      {
        PinAllOthers(lock.skills, pins, aliases, owner, key, o);
      }
    case RemovePack(r, n, v) =>
      RemovalEffect(lock, r, n, v);
    case RemoveDirect(owner, names) => ReleasedUnder(lock.skills, names, owner);
  }

  lemma PackIsRecorded(lock: LockFile, e: Edit)
    requires e.InstallPack? && Apply(lock, e).Some?
    ensures
      var after := Apply(lock, e).value.packs;
      && OtherPacksStay(lock.packs, after, e.registry, e.reference, e.version)
      && (exists q :: q in after && SamePack(q, e.registry, e.reference, e.version))
      && (forall q :: q in after && SamePack(q, e.registry, e.reference, e.version) ==>
          Records(q, e.registry, e.reference, e.version, e.manifestDigest, e.pins))
  {
    hide PinAll, PacksBut, DistinctNames;
    PacksButSpec(lock.packs, e.registry, e.reference, e.version);
    var after := Apply(lock, e).value.packs;
    assert after[|after| - 1] in after;
    assert Records(after[|after| - 1], e.registry, e.reference, e.version, e.manifestDigest, e.pins);
  }

  /** A pack that is removed lets go of everything it held, and of nothing else. */
  lemma RemovalEffect(lock: LockFile, r: string, n: string, v: string)
    requires Apply(lock, RemovePack(r, n, v)).Some?
    ensures EditEffect(lock, RemovePack(r, n, v), Apply(lock, RemovePack(r, n, v)).value)
    ensures forall key, o :: Held(Apply(lock, RemovePack(r, n, v)).value.skills, key, o) <==>
      Held(lock.skills, key, o) && o != "pack:" + r + ":" + n + "@" + v
  {
    hide PacksBut, Released, LeftEverywhere, Held, MembersPresent;
    var owner, after := PackOwner(r, n, v), Apply(lock, RemovePack(r, n, v)).value;
    PackOwnerText(r, n, v);
    PacksButSpec(lock.packs, r, n, v);
    ReleasedEverywhere(lock.skills, owner);
    forall key, o
      ensures Held(after.skills, key, o) <==> Held(lock.skills, key, o) && o != owner
    {
      LeftEverywhereHolds(lock.skills, after.skills, owner, key, o);
    }
  }

  lemma OtherPackOtherOwner(r: string, n: string, v: string, s: string, m: string, w: string)
    requires PlainName(n, v) && PlainName(m, w) && !(r == s && n == m && v == w)
    ensures PackOwner(r, n, v) != PackOwner(s, m, w)
  {
    if PackOwner(r, n, v) == PackOwner(s, m, w) {
      PackOwnerInjective(r, n, v, s, m, w);
    }
  }

  /** The edit names this pack, to reinstall or to remove it. */
  predicate Names(e: Edit, r: string, n: string, v: string) {
    (e.InstallPack? || e.RemovePack?) && e.registry == r && e.reference == n && e.version == v
  }

  /** An edit that does not name a pack leaves its holdings exactly as they are. */
  lemma EditKeepsHoldings(lock: LockFile, e: Edit, r: string, n: string, v: string, key: string)
    requires Orderly(lock) && EditOk(e) && Apply(lock, e).Some? && PlainName(n, v) && !Names(e, r, n, v)
    ensures Held(Apply(lock, e).value.skills, key, PackOwner(r, n, v)) <==> Held(lock.skills, key, PackOwner(r, n, v))
  {
    hide Tidy, AllOwned, Pinned, Released, PinAll, PlainName, PlainPins, Held, PacksTidy, PackOwner, DirectOwner, DisplacedAt, HitAt;
    var q := PackOwner(r, n, v);
    PackOwnerIsNotDirect(r, n, v);
    match e
    case InstallSkill(p, aliases, owner) => PinnedHolds(lock.skills, p, aliases, owner, key, q);
    case InstallPack(s, m, w, _, pins, aliases) =>
      OtherPackOtherOwner(r, n, v, s, m, w);
      PinAllOthers(lock.skills, pins, aliases, PackOwner(s, m, w), key, q);
    case RemovePack(s, m, w) =>
      OtherPackOtherOwner(r, n, v, s, m, w);
      ReleasedHolds(lock.skills, x => true, PackOwner(s, m, w), key, q);
    case RemoveDirect(owner, names) =>
      ReleasedHolds(lock.skills, (s: LockSkill) => s.skillName in names, owner, key, q);
  }

  // ---------------------------------------------------------------- where packs come from

  function PackOf(e: Edit): LockPack
    requires e.InstallPack?
  {
    LockPack(e.registry, e.reference, e.version, e.manifestDigest, Keys(e.pins))
  }

  /** The edit recorded this pack, and the lock holds exactly what the edit's members leave to it. */
  ghost predicate Origin(lock: LockFile, e: Edit, p: LockPack) {
    e.InstallPack? && EditOk(e) && PackOf(e) == p && HoldsExactly(lock.skills, e.pins, e.aliases, OwnerOf(p))
  }

  lemma OriginStays(lock: LockFile, e: Edit, o: Edit, p: LockPack)
    requires Orderly(lock) && EditOk(e) && Apply(lock, e).Some? && Origin(lock, o, p)
    requires !Names(e, p.registry, p.reference, p.version)
    ensures Origin(Apply(lock, e).value, o, p)
  {
    hide Orderly, Apply, Held, PlainPins, NotSuperseded, KeyOf, PlainName;
    var after := Apply(lock, e).value;
    forall i | LastPin(o.pins, i)
      ensures Held(after.skills, KeyOf(o.pins[i]), OwnerOf(p)) <==> NotSuperseded(o.pins, i, o.aliases)
    {
      EditKeepsHoldings(lock, e, p.registry, p.reference, p.version, KeyOf(o.pins[i]));
    }
  }

  lemma NewOrigin(lock: LockFile, e: Edit)
    requires Orderly(lock) && e.InstallPack? && EditOk(e) && Apply(lock, e).Some?
    ensures Origin(Apply(lock, e).value, e, PackOf(e))
  {
    hide Tidy, AllOwned, PacksTidy, PinAll, PlainName, HoldsExactly, PlainPins;
    PinAllHoldsExactly(lock.skills, e.pins, e.aliases, PackOwner(e.registry, e.reference, e.version));
  }

  /** A pack is complete exactly when the members it was installed from are independent. */
  lemma OriginHoldsIff(lock: LockFile, e: Edit, p: LockPack)
    requires Origin(lock, e, p)
    ensures PackHolds(lock.skills, p) <==> Independent(e.pins, e.aliases)
  {
    hide Held, Independent, HoldsExactly, KeyOf, OwnerOf;
    HoldsAllIff(lock.skills, e.pins, e.aliases, OwnerOf(p));
    var keys := Keys(e.pins);
    assert forall i :: 0 <= i < |keys| ==> keys[i] == KeyOf(e.pins[i]);
    if HoldsAll(lock.skills, e.pins, OwnerOf(p)) {
      assert PackHolds(lock.skills, p);
    }
    if PackHolds(lock.skills, p) {
      forall i | 0 <= i < |e.pins|
        ensures Held(lock.skills, KeyOf(e.pins[i]), OwnerOf(p))
      {
        assert keys[i] in p.members;
      }
    }
  }

  // ---------------------------------------------------------------- one edit

  lemma GoodIsOrderly(lock: LockFile)
    ensures Good(lock) <==> Orderly(lock) && forall p :: p in lock.packs ==> PackHolds(lock.skills, p)
  {
    hide Tidy, AllOwned, PacksTidy, PackHolds;
  }

  /**
   From a lock in good order every edit leads to one in good order, except that a pack whose members
   supersede one another is recorded incomplete.
   */
  lemma EditKeepsGoodIff(lock: LockFile, e: Edit)
    requires Good(lock) && EditOk(e) && Apply(lock, e).Some?
    ensures Good(Apply(lock, e).value) <==> (e.InstallPack? ==> Independent(e.pins, e.aliases))
  {
    hide Good, Orderly, PackHolds, Independent, EditOk;
    var after := Apply(lock, e).value;
    GoodIsOrderly(lock);
    GoodIsOrderly(after);
    EditKeepsOrderly(lock, e);
    forall p | p in after.packs && !(e.InstallPack? && p == PackOf(e))
      ensures PackHolds(after.skills, p)
    {
      OtherPackKept(lock, e, p);
    }
    if e.InstallPack? {
      NewOrigin(lock, e);
      OriginHoldsIff(after, e, PackOf(e));
      assert PackOf(e) in after.packs by { assert after.packs[|after.packs| - 1] == PackOf(e); }
    }
  }

  lemma OtherPackKept(lock: LockFile, e: Edit, p: LockPack)
    requires Good(lock) && EditOk(e) && Apply(lock, e).Some?
    requires p in Apply(lock, e).value.packs && !(e.InstallPack? && p == PackOf(e))
    ensures PackHolds(Apply(lock, e).value.skills, p)
  {
    hide Tidy, AllOwned, PlainName, PlainPins, Held, Pinned, PinAll, Released, PacksBut, DistinctNames, Keys;
    KeptIsOld(lock, e, p);
    assert Orderly(lock);
    var i :| 0 <= i < |lock.packs| && lock.packs[i] == p;
    assert PlainName(p.reference, p.version) && PackHolds(lock.skills, p);
    forall k | k in p.members
      ensures Held(Apply(lock, e).value.skills, k, OwnerOf(p))
    {
      assert Held(lock.skills, k, OwnerOf(p));
      EditKeepsHoldings(lock, e, p.registry, p.reference, p.version, k);
    }
  }

  /** A pack in the new list other than the one just installed was there before, and was not named. */
  lemma KeptIsOld(lock: LockFile, e: Edit, p: LockPack)
    requires Apply(lock, e).Some? && p in Apply(lock, e).value.packs && !(e.InstallPack? && p == PackOf(e))
    ensures p in lock.packs && !Names(e, p.registry, p.reference, p.version)
  {
    hide Pinned, PinAll, Released, PacksBut, DistinctNames, Keys;
    if e.InstallPack? || e.RemovePack? {
      PacksButSpec(lock.packs, e.registry, e.reference, e.version);
    }
  }

  // ---------------------------------------------------------------- runs

  /** The lock after a sequence of edits; a refused edit changes nothing. */
  function After(lock: LockFile, edits: seq<Edit>): LockFile {
    if edits == [] then lock
    else
      var l := After(lock, edits[..|edits| - 1]);
      var r := Apply(l, edits[|edits| - 1]);
      if r.Some? then r.value else l
  }

  ghost predicate HasOrigin(lock: LockFile, edits: seq<Edit>, p: LockPack) {
    exists e :: e in edits && Origin(lock, e, p)
  }

  /**
   From an absent lockfile every run of edits stays orderly, and every recorded pack comes from an edit
   of the run and holds exactly what that edit's members leave to it.
   */
  lemma {:induction false} RunsStayExact(edits: seq<Edit>)
    requires forall i :: 0 <= i < |edits| ==> EditOk(edits[i])
    ensures Orderly(After(EMPTY_LOCK, edits))
    ensures forall p :: p in After(EMPTY_LOCK, edits).packs ==> HasOrigin(After(EMPTY_LOCK, edits), edits, p)
  {
    hide Orderly, EditOk, Apply, Origin;
    if edits == [] {
      EmptyIsGood();
      GoodIsOrderly(EMPTY_LOCK);
    } else {
      var n := |edits| - 1;
      var front, e := edits[..n], edits[n];
      RunsStayExact(front);
      var l := After(EMPTY_LOCK, front);
      assert e in edits && forall o :: o in front ==> o in edits;
      if Apply(l, e).Some? {
        EditKeepsOrderly(l, e);
        forall p | p in Apply(l, e).value.packs
          ensures HasOrigin(Apply(l, e).value, edits, p)
        {
          if e.InstallPack? && p == PackOf(e) {
            NewOrigin(l, e);
          } else {
            KeptIsOld(l, e, p);
            assert HasOrigin(l, front, p);
            var o :| o in front && Origin(l, o, p);
            OriginStays(l, e, o, p);
          }
        }
      } else {
        forall p | p in l.packs
          ensures HasOrigin(l, edits, p)
        {
          assert HasOrigin(l, front, p);
        }
      }
    }
  }

  /** Over any run, a recorded pack is complete exactly when the members it was installed from are independent. */
  lemma PackIsCompleteIff(edits: seq<Edit>, p: LockPack) returns (e: Edit)
    requires forall i :: 0 <= i < |edits| ==> EditOk(edits[i])
    requires p in After(EMPTY_LOCK, edits).packs
    ensures e in edits && e.InstallPack? && PackOf(e) == p
    ensures PackHolds(After(EMPTY_LOCK, edits).skills, p) <==> Independent(e.pins, e.aliases)
  {
    hide Orderly, EditOk, Apply, PackHolds, Independent, HoldsExactly;
    RunsStayExact(edits);
    assert HasOrigin(After(EMPTY_LOCK, edits), edits, p);
    e :| e in edits && Origin(After(EMPTY_LOCK, edits), e, p);
    OriginHoldsIff(After(EMPTY_LOCK, edits), e, p);
  }

  /** Runs that install only independent packs stay in good order. */
  lemma RunsKeepGood(edits: seq<Edit>)
    requires forall i :: 0 <= i < |edits| ==> EditOk(edits[i])
    requires forall i :: 0 <= i < |edits| && edits[i].InstallPack? ==> Independent(edits[i].pins, edits[i].aliases)
    ensures Good(After(EMPTY_LOCK, edits))
  {
    hide Good, Orderly, EditOk, Apply, PackHolds, Independent, After;
    RunsStayExact(edits);
    GoodIsOrderly(After(EMPTY_LOCK, edits));
    forall p | p in After(EMPTY_LOCK, edits).packs
      ensures PackHolds(After(EMPTY_LOCK, edits).skills, p)
    {
      var e := PackIsCompleteIff(edits, p);
    }
  }

  /** A recorded pack stays recorded until an edit names it. */
  lemma {:induction false} PackStays(lock: LockFile, edits: seq<Edit>, p: LockPack)
    requires p in lock.packs && forall i :: 0 <= i < |edits| ==> !Names(edits[i], p.registry, p.reference, p.version)
    ensures p in After(lock, edits).packs
  {
    hide Pinned, Released, PinAll, PacksBut;
    if edits != [] {
      var e := edits[|edits| - 1];
      var front := edits[..|edits| - 1];
      PackStays(lock, front, p);
      if e.InstallPack? || e.RemovePack? {
        PacksButSpec(After(lock, front).packs, e.registry, e.reference, e.version);
      }
    }
  }

  // ---------------------------------------------------------------- removing a pack

  /** Another owner than the pack holds the key. */
  ghost predicate HeldByOther(skills: seq<LockSkill>, key: string, owner: string) {
    exists q :: q != owner && Held(skills, key, q)
  }

  /** In an orderly lock a pinned key is a held one. */
  lemma PresentIffHeld(skills: seq<LockSkill>, key: string, owner: string)
    requires Tidy(skills) && AllOwned(skills)
    ensures Present(skills, key) <==> Held(skills, key, owner) || HeldByOther(skills, key, owner)
  {
    hide Compatible, NoRepeats, SkillKey, PlainName;
    if Present(skills, key) {
      var s :| s in skills && SkillKey(s.registry, s.reference, s.version) == key;
      var i :| 0 <= i < |skills| && skills[i] == s;
      assert Fine(skills[i]) && skills[i].owners != [];
      assert Held(skills, key, skills[i].owners[0]);
    }
    forall q | Held(skills, key, q)
      ensures Present(skills, key)
    {
      var i :| 0 <= i < |skills| && skills[i].key == key && q in skills[i].owners;
      assert Fine(skills[i]) && skills[i] in skills;
    }
  }

  /** Packs are recorded once, so a removal looks up the members of one. */
  lemma RemovableIff(lock: LockFile, p: LockPack)
    requires PacksTidy(lock.packs) && p in lock.packs
    ensures Removable(lock, p.registry, p.reference, p.version) <==> MembersPresent(lock.skills, p)
  {
    hide MembersPresent, PlainName;
    forall q | q in lock.packs && SamePack(q, p.registry, p.reference, p.version)
      ensures q == p
    {
      var i :| 0 <= i < |lock.packs| && lock.packs[i] == p;
      var j :| 0 <= j < |lock.packs| && lock.packs[j] == q;
      assert !(i < j) && !(j < i);
    }
  }

  /** Every member that a later one superseded is held by somebody else. */
  ghost predicate OthersHoldTheRest(skills: seq<LockSkill>, pins: seq<Pin>, aliases: set<string>, owner: string) {
    forall i :: LastPin(pins, i) && !NotSuperseded(pins, i, aliases) ==> HeldByOther(skills, KeyOf(pins[i]), owner)
  }

  lemma MembersPresentIff(lock: LockFile, e: Edit, p: LockPack)
    requires Orderly(lock) && Origin(lock, e, p)
    ensures MembersPresent(lock.skills, p) <==> OthersHoldTheRest(lock.skills, e.pins, e.aliases, OwnerOf(p))
  {
    hide Tidy, AllOwned, PacksTidy, Present, Held, HeldByOther, NotSuperseded, KeyOf, OwnerOf;
    var keys := Keys(e.pins);
    assert p.members == keys;
    forall i | LastPin(e.pins, i)
      ensures Present(lock.skills, keys[i]) <==>
        NotSuperseded(e.pins, i, e.aliases) || HeldByOther(lock.skills, KeyOf(e.pins[i]), OwnerOf(p))
      ensures keys[i] in p.members
    {
      PresentIffHeld(lock.skills, keys[i], OwnerOf(p));
    }
    if OthersHoldTheRest(lock.skills, e.pins, e.aliases, OwnerOf(p)) {
      forall k | k in p.members
        ensures Present(lock.skills, k)
      {
        var m :| 0 <= m < |keys| && keys[m] == k;
        var i := LastPinOf(e.pins, m);
        assert keys[i] == k;
      }
    }
  }

  /**
   Over any run, removing a recorded pack is refused exactly when some member that a later member
   superseded is held by nobody else.
   */
  lemma RemovalSucceedsIff(edits: seq<Edit>, p: LockPack) returns (e: Edit)
    requires forall i :: 0 <= i < |edits| ==> EditOk(edits[i])
    requires p in After(EMPTY_LOCK, edits).packs
    ensures e in edits && e.InstallPack? && PackOf(e) == p
    ensures
      var lock := After(EMPTY_LOCK, edits);
      Apply(lock, RemovePack(p.registry, p.reference, p.version)).Some? <==>
        OthersHoldTheRest(lock.skills, e.pins, e.aliases, OwnerOf(p))
  {
    hide EditOk, MembersPresent, OthersHoldTheRest, HoldsExactly, After, Removable, Tidy, AllOwned, PacksTidy;
    RunsStayExact(edits);
    var lock := After(EMPTY_LOCK, edits);
    assert HasOrigin(lock, edits, p);
    e :| e in edits && Origin(lock, e, p);
    MembersPresentIff(lock, e, p);
    RemovableIff(lock, p);
  }

  /** In a lock in good order every member of a recorded pack is found, and the pack can go. */
  lemma MembersAreFound(lock: LockFile, p: LockPack)
    requires Good(lock) && p in lock.packs
    ensures forall k :: k in p.members ==> FindKey(lock.skills, k) >= 0
    ensures Apply(lock, RemovePack(p.registry, p.reference, p.version)).Some?
  {
    hide Tidy, AllOwned, PacksTidy, Removable, HeldByOther, Present;
    RemovableIff(lock, p);
    var i :| 0 <= i < |lock.packs| && lock.packs[i] == p;
    forall k | k in p.members
      ensures Present(lock.skills, k) && FindKey(lock.skills, k) >= 0
    {
      assert PackHolds(lock.skills, lock.packs[i]);
      assert Held(lock.skills, k, OwnerOf(p));
      PresentIffHeld(lock.skills, k, OwnerOf(p));
    }
  }

  /** A second member that supersedes the first takes the owner away, and the lock ends without the first. */
  lemma SupersededIsDropped(p: Pin, q: Pin, aliases: set<string>, owner: string)
    requires Supersedes(q, p, aliases)
    ensures PinAll([], [p, q], aliases, owner) == Some([NewSkill(q, owner)])
  {
    hide SkillKey, SameExternal;
    var first := NewSkill(p, owner);
    var hitP, hitQ := s => Displaces(p, s, aliases), s => Displaces(q, s, aliases);
    var none: seq<LockSkill> := [];
    assert Dropped(none, hitP, owner) == none;
    assert none + [first] == [first] && none + [NewSkill(q, owner)] == [NewSkill(q, owner)];
    assert Joined(none, p, owner) == Some([first]) && Joined(none, q, owner) == Some([NewSkill(q, owner)]);
    assert Released(none, hitP, owner) == none;
    assert Pinned(none, p, aliases, owner) == Some([first]);
    assert [owner][..0] == [] && Without([owner], owner) == [];
    assert hitQ(first) by { OwnersDoNotMatter(q, p, aliases, owner); }
    assert Dropped([first], hitQ, owner) == [first.(owners := [])];
    assert [first.(owners := [])][..0] == [];
    assert Pruned([first.(owners := [])]) == none;
    assert Released([first], hitQ, owner) == none;
    assert Pinned([first], q, aliases, owner) == Some([NewSkill(q, owner)]);
    assert [p, q][..1] == [p] && [p][..0] == [];
    assert PinAll(none, [p], aliases, owner) == Pinned(none, p, aliases, owner);
  }

  lemma OwnersDoNotMatter(q: Pin, p: Pin, aliases: set<string>, owner: string)
    ensures Displaces(q, NewSkill(p, owner), aliases) <==> Supersedes(q, p, aliases)
  {
  }

  /** A pack of two such members is taken, and recorded with a member that its owner does not hold. */
  lemma SupersededDangles(e: Edit, p: Pin, q: Pin)
    requires e.InstallPack? && e.pins == [p, q] && Supersedes(q, p, e.aliases)
    requires KeyOf(p) != KeyOf(q) && AsciiLower(p.skillName) != AsciiLower(q.skillName)
    ensures Apply(EMPTY_LOCK, e) == Some(LockFile([PackOf(e)], [NewSkill(q, OwnerOf(PackOf(e)))]))
    ensures KeyOf(p) in PackOf(e).members && !PackHolds([NewSkill(q, OwnerOf(PackOf(e)))], PackOf(e))
  {
    hide PinAll, Supersedes, KeyOf, AsciiLower;
    var owner := OwnerOf(PackOf(e));
    SupersededIsDropped(p, q, e.aliases, owner);
    NewSkillIsPinned(q, owner);
    assert DistinctNames([p, q]);
    assert Keys(e.pins)[0] == KeyOf(p) && KeyOf(p) in Keys(e.pins);
    var none: seq<LockPack> := [];
    assert PacksBut(none, e.registry, e.reference, e.version) == none && none + [PackOf(e)] == [PackOf(e)];
    assert !Held([NewSkill(q, owner)], KeyOf(p), owner);
  }

  /** Such a pack cannot be removed: every attempt is refused, and it stays recorded. */
  lemma DanglingPackStays(e: Edit, p: Pin, q: Pin)
    requires e.InstallPack? && e.pins == [p, q] && Supersedes(q, p, e.aliases)
    requires KeyOf(p) != KeyOf(q) && AsciiLower(p.skillName) != AsciiLower(q.skillName)
    ensures
      var lock := LockFile([PackOf(e)], [NewSkill(q, OwnerOf(PackOf(e)))]);
      && After(EMPTY_LOCK, [e]) == lock
      && Apply(lock, RemovePack(e.registry, e.reference, e.version)).None?
  {
    hide Supersedes, AsciiLower, PackHolds, OwnerOf, SkillKey, Keys;
    SupersededDangles(e, p, q);
    var lock := LockFile([PackOf(e)], [NewSkill(q, OwnerOf(PackOf(e)))]);
    assert [e][..0] == [] && After(EMPTY_LOCK, []) == EMPTY_LOCK;
    assert !Present(lock.skills, KeyOf(p));
    assert PackOf(e) in lock.packs && !MembersPresent(lock.skills, PackOf(e));
  }

  /** So it goes for two versions of one skill under different install names. */
  lemma TwoVersionsDangle(e: Edit, p: Pin, q: Pin)
    requires e.InstallPack? && e.pins == [p, q]
    requires p.registry == q.registry && p.reference == q.reference && p.version != q.version
    requires PlainName(p.reference, p.version) && PlainName(q.reference, q.version)
    requires AsciiLower(p.skillName) != AsciiLower(q.skillName)
    ensures Apply(EMPTY_LOCK, e).Some? && PackOf(e) in Apply(EMPTY_LOCK, e).value.packs
    ensures !PackHolds(Apply(EMPTY_LOCK, e).value.skills, PackOf(e))
    ensures Apply(Apply(EMPTY_LOCK, e).value, RemovePack(e.registry, e.reference, e.version)).None?
  {
    hide PlainName, SkillKey, SameExternal, AsciiLower, Apply, PackHolds;
    if KeyOf(p) == KeyOf(q) { SkillKeyInjective(p.registry, p.reference, p.version, q.registry, q.reference, q.version); }
    SupersededDangles(e, p, q);
    DanglingPackStays(e, p, q);
  }

  /** And for two members with one external identity. */
  lemma OneIdentityDangles(e: Edit, p: Pin, q: Pin)
    requires e.InstallPack? && e.pins == [p, q]
    requires p.registry == q.registry && p.reference != q.reference
    requires p.provenance == q.provenance && p.provenance.externalId.Some?
    requires PlainName(p.reference, p.version) && PlainName(q.reference, q.version)
    requires AsciiLower(p.skillName) != AsciiLower(q.skillName)
    ensures Apply(EMPTY_LOCK, e).Some? && PackOf(e) in Apply(EMPTY_LOCK, e).value.packs
    ensures !PackHolds(Apply(EMPTY_LOCK, e).value.skills, PackOf(e))
    ensures Apply(Apply(EMPTY_LOCK, e).value, RemovePack(e.registry, e.reference, e.version)).None?
  {
    hide PlainName, SkillKey, AsciiLower, Apply, PackHolds;
    if KeyOf(p) == KeyOf(q) { SkillKeyInjective(p.registry, p.reference, p.version, q.registry, q.reference, q.version); }
    SupersededDangles(e, p, q);
    DanglingPackStays(e, p, q);
  }

  // ---------------------------------------------------------------- editing in place

  /** Dropping by external identity and then by version drops from everything the pin displaces. */
  lemma DroppedInTurn(skills: seq<LockSkill>, p: Pin, aliases: set<string>, owner: string)
    ensures Dropped(Dropped(skills, s => SameExternal(s, p, aliases), owner), s => OtherVersion(s, p), owner)
      == Dropped(skills, s => Displaces(p, s, aliases), owner)
  {
    hide Without;
    var ext := s => SameExternal(s, p, aliases);
    var one := Dropped(skills, ext, owner);
    forall k | 0 <= k < |skills|
      ensures DropFrom(one[k], OtherVersion(one[k], p), owner) == DropFrom(skills[k], Displaces(p, skills[k], aliases), owner)
    {
      assert one[k] == DropFrom(skills[k], ext(skills[k]), owner) && ext(skills[k]) == SameExternal(skills[k], p, aliases);
      assert OtherVersion(one[k], p) == OtherVersion(skills[k], p);
      WithoutTwice(skills[k].owners, owner);
    }
    var two := Dropped(one, s => OtherVersion(s, p), owner);
    var all := Dropped(skills, s => Displaces(p, s, aliases), owner);
    assert forall k :: 0 <= k < |skills| ==> two[k] == all[k];
  }

  /** A lockfile under edit: a clone that is written only when the whole edit succeeds. */
  class LockDraft {
    var packs: seq<LockPack>
    var skills: seq<LockSkill>

    constructor (lock: LockFile)
      ensures Contents() == lock
    {
      packs, skills := lock.packs, lock.skills;
    }

    function Contents(): LockFile
      reads this
    {
      LockFile(packs, skills)
    }

    /** The owner leaves every skill that is hit. */
    method DropOwner(hit: LockSkill -> bool, owner: string)
      modifies this`skills
      ensures skills == Dropped(old(skills), hit, owner)
    {
      hide Without;
      for k := 0 to |skills|
        invariant |skills| == |old(skills)|
        invariant skills[..k] == Dropped(old(skills), hit, owner)[..k]
        invariant skills[k..] == old(skills)[k..]
      {
        assert skills[k] == old(skills)[k..][0];
        skills := skills[k := DropFrom(skills[k], hit(skills[k]), owner)];
      }
    }

    /** Skills without owners are dropped. */
    method Prune()
      modifies this`skills
      ensures skills == Pruned(old(skills))
    {
      var kept: seq<LockSkill> := [];
      for k := 0 to |skills|
        invariant skills == old(skills) && kept == Pruned(skills[..k])
      {
        assert skills[..k + 1][..k] == skills[..k];
        if skills[k].owners != [] {
          kept := kept + [skills[k]];
        }
      }
      assert skills[..|skills|] == skills;
      skills := kept;
    }

    /** `update_lock_for_skill`. */
    method PinSkill(p: Pin, aliases: set<string>, owner: string) returns (ok: bool)
      modifies this`skills
      ensures ok <==> Pinned(old(skills), p, aliases, owner).Some?
      ensures ok ==> skills == Pinned(old(skills), p, aliases, owner).value
    {
      hide Dropped, Pruned, Without;
      DroppedInTurn(skills, p, aliases, owner);
      if p.provenance.externalId.Some? {
        DropOwner(s => SameExternal(s, p, aliases), owner);
      } else {
        NoExternalDropsNothing(skills, p, aliases, owner);
      }
      DropOwner(s => OtherVersion(s, p), owner);
      Prune();
      var i := FindKey(skills, KeyOf(p));
      if i < 0 {
        skills := skills + [NewSkill(p, owner)];
        return true;
      }
      if skills[i].skillName != p.skillName {
        return false;
      }
      skills := skills[i := Repinned(skills[i], p, owner)];
      return true;
    }

    method DropPack(registry: string, reference: string, version: string)
      modifies this`packs
      ensures packs == PacksBut(old(packs), registry, reference, version)
    {
      var kept: seq<LockPack> := [];
      for k := 0 to |packs|
        invariant packs == old(packs) && kept == PacksBut(packs[..k], registry, reference, version)
      {
        assert packs[..k + 1][..k] == packs[..k];
        if !SamePack(packs[k], registry, reference, version) {
          kept := kept + [packs[k]];
        }
      }
      assert packs[..|packs|] == packs;
      packs := kept;
    }

    /** The lookups of `remove_pack`: the pack, then each member. */
    method FindMembers(registry: string, reference: string, version: string) returns (ok: bool)
      ensures ok <==> Removable(Contents(), registry, reference, version)
    {
      hide Present;
      var found := false;
      for i := 0 to |packs|
        invariant found <==> exists k :: 0 <= k < i && SamePack(packs[k], registry, reference, version)
        invariant forall k :: 0 <= k < i && SamePack(packs[k], registry, reference, version) ==> MembersPresent(skills, packs[k])
      {
        if SamePack(packs[i], registry, reference, version) {
          found := true;
          var members := packs[i].members;
          for j := 0 to |members|
            invariant forall m :: 0 <= m < j ==> Present(skills, members[m])
          {
            if !Present(skills, members[j]) {
              assert packs[i] in packs && members[j] in packs[i].members;
              return false;
            }
          }
        }
      }
      return found;
    }

    /** The lock edits of each command; a refused edit leaves a draft that is thrown away. */
    method Edit(e: Edit) returns (ok: bool)
      modifies this
      ensures ok <==> Apply(old(Contents()), e).Some?
      ensures ok ==> Contents() == Apply(old(Contents()), e).value
      ensures ok && Orderly(old(Contents())) && EditOk(e) ==> EditEffect(old(Contents()), e, Contents())
    {
      hide Pinned, Dropped, Pruned, PacksBut, Keys, DistinctNames, EditOk, Orderly, EditEffect, Removable;
      ghost var before := Contents();
      match e {
        case InstallSkill(p, aliases, owner) =>
          ok := PinSkill(p, aliases, owner);
        case InstallPack(r, n, v, digest, pins, aliases) =>
          ok := ValidatePackDestinations(pins);
          if ok {
            DropPack(r, n, v);
            packs := packs + [LockPack(r, n, v, digest, Keys(pins))];
            ok := PinMembers(pins, aliases, PackOwner(r, n, v));
          }
        case RemovePack(r, n, v) =>
          ok := FindMembers(r, n, v);
          if ok {
            DropPack(r, n, v);
            DropOwner(s => true, PackOwner(r, n, v));
            Prune();
          }
        case RemoveDirect(owner, names) =>
          DropOwner((s: LockSkill) => s.skillName in names, owner);
          Prune();
          ok := true;
      }
      if ok && Orderly(before) && EditOk(e) { EditHasEffect(before, e); }
    }

    method PinMembers(pins: seq<Pin>, aliases: set<string>, owner: string) returns (ok: bool)
      modifies this`skills
      ensures ok <==> PinAll(old(skills), pins, aliases, owner).Some?
      ensures ok ==> skills == PinAll(old(skills), pins, aliases, owner).value
    {
      hide Pinned;
      for n := 0 to |pins|
        invariant PinAll(old(skills), pins[..n], aliases, owner) == Some(skills)
      {
        assert pins[..n + 1][..n] == pins[..n];
        var good := PinSkill(pins[n], aliases, owner);
        if !good {
          RefusalLasts(old(skills), pins, n + 1, aliases, owner);
          return false;
        }
      }
      assert pins[..|pins|] == pins;
      return true;
    }
  }

  lemma DistinctNamesIff(pins: seq<Pin>)
    ensures DistinctNames(pins) <==> forall i, j :: 0 <= i < j < |pins| ==> !SameButCase(pins[i].skillName, pins[j].skillName)
  {
    hide AsciiLower, SameButCase;
    forall i, j | 0 <= i < j < |pins|
      ensures SameButCase(pins[i].skillName, pins[j].skillName) <==> AsciiLower(pins[i].skillName) == AsciiLower(pins[j].skillName)
    {
      SameButCaseIff(pins[i].skillName, pins[j].skillName);
    }
  }

  /** `validate_pack_destinations`: one pass with the names seen so far. */
  method ValidatePackDestinations(pins: seq<Pin>) returns (ok: bool)
    ensures ok <==> DistinctNames(pins)
    ensures ok <==> forall i, j :: 0 <= i < j < |pins| ==> !SameButCase(pins[i].skillName, pins[j].skillName)
  {
    hide AsciiLower, SameButCase;
    DistinctNamesIff(pins);
    var seen: set<string> := {};
    for n := 0 to |pins|
      invariant forall x :: x in seen <==> exists i :: 0 <= i < n && AsciiLower(pins[i].skillName) == x
      invariant DistinctNames(pins[..n])
    {
      if AsciiLower(pins[n].skillName) in seen {
        return false;
      }
      assert forall i :: 0 <= i < n ==> AsciiLower(pins[..n][i].skillName) != AsciiLower(pins[n].skillName);
      seen := seen + {AsciiLower(pins[n].skillName)};
    }
    assert pins[..|pins|] == pins;
    return true;
  }

  lemma NoExternalDropsNothing(skills: seq<LockSkill>, p: Pin, aliases: set<string>, owner: string)
    requires p.provenance.externalId.None?
    ensures Dropped(skills, s => SameExternal(s, p, aliases), owner) == skills
  {
    var ext := s => SameExternal(s, p, aliases);
    forall k | 0 <= k < |skills|
      ensures Dropped(skills, ext, owner)[k] == skills[k]
    {
      assert !ext(skills[k]);
    }
  }

  /** Once a member is refused the pack is. */
  lemma {:induction false} RefusalLasts(skills: seq<LockSkill>, pins: seq<Pin>, n: nat, aliases: set<string>, owner: string)
    requires n <= |pins| && PinAll(skills, pins[..n], aliases, owner).None?
    ensures PinAll(skills, pins, aliases, owner).None?
    decreases |pins|
  {
    hide Pinned;
    if n == |pins| {
      assert pins[..n] == pins;
    } else {
      var front := pins[..|pins| - 1];
      assert front[..n] == pins[..n];
      RefusalLasts(skills, front, n, aliases, owner);
    }
  }
}
