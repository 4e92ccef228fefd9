/** Bootstrap owner adoption: binding the one owner of an organization, then recording it in the audit log. */
module Adoption {
  import opened Options
  import opened Paths
  import opened Scalars
  import opened PathRules

  const MAX_ID_BYTES := 512
  const MARKER_KEY := "pskillsBootstrapAdoption"

  // ---------------------------------------------------------------- identifiers and roles

  /** `boundedId`: the trimmed identifier, when it is acceptable. */
  function CleanId(s: string): (r: Option<string>) {
    if Trim(s) == "" || |s| > MAX_ID_BYTES || (exists c :: c in s && (c < ' ' || c == 127 as char)) then None
    else Some(Trim(s))
  }

  datatype Role = Owner | Admin | Publisher | Reader

  function RoleOf(s: string): Option<Role> {
    match AsciiLower(Trim(s))
    case "owner" => Some(Owner)
    case "admin" => Some(Admin)
    case "publisher" => Some(Publisher)
    case "reader" => Some(Reader)
    case "member" => Some(Reader)
    case _ => None
  }

  lemma OwnerTextIsOwner()
    ensures RoleOf("owner") == Some(Owner)
  {
    var s := "owner";
    assert !IsWhitespace('o') && !IsWhitespace('r');
    assert Trim(s) == s;
    assert AsciiLower(s) == s;
  }

  lemma {:induction false} TrimStartSpec(s: string)
    ensures TrimStart(s) == "" || !IsWhitespace(TrimStart(s)[0])
    ensures |TrimStart(s)| <= |s| && TrimStart(s) == s[|s| - |TrimStart(s)|..]
  {
    if s != "" && IsWhitespace(s[0]) { TrimStartSpec(s[1..]); }
  }

  lemma {:induction false} TrimEndSpec(s: string)
    ensures TrimEnd(s) == "" || !IsWhitespace(TrimEnd(s)[|TrimEnd(s)| - 1])
    ensures TrimEnd(s) <= s
  {
    if s != "" && IsWhitespace(s[|s| - 1]) { TrimEndSpec(s[..|s| - 1]); }
  }

  /** Cleaning an identifier twice changes nothing. */
  lemma CleanIdIdempotent(s: string)
    requires CleanId(s).Some?
    ensures CleanId(CleanId(s).value) == CleanId(s)
  {
    var t, a := Trim(s), TrimStart(s);
    TrimStartSpec(s);
    TrimEndSpec(a);
    assert t[0] == a[0];
    assert TrimStart(t) == t && TrimEnd(t) == t;
    assert forall c :: c in t ==> c in a;
    assert forall c :: c in a ==> c in s;
  }

  // ---------------------------------------------------------------- tables

  datatype Marker = Marker(userId: string, sessionId: string, proofTokenId: string, proofSubject: string)

  datatype Entry = Adopted(marker: Marker) | Other(text: string)

  /** `metadata` is absent when the stored text is not a JSON object. */
  datatype Organization = Organization(name: string, slug: string, metadata: Option<map<string, Entry>>)

  datatype Member = Member(id: string, organization: string, userId: string, role: string)

  datatype Session = Session(userId: string, expiresAt: nat, active: Option<string>)

  datatype Tables = Tables(
    users: map<string, bool>, sessions: map<string, Session>, organizations: map<string, Organization>, members: seq<Member>)

  /** An adoption event in the audit log; `userId` is absent when its details name nobody. */
  datatype AuditEvent = AuditEvent(organization: string, action: string, userId: Option<string>)

  const ADOPTED_ACTION := "identity.bootstrap-adopted"

  datatype Input = Input(
    organization: string, userId: string, sessionId: string, proofTokenId: string, proofSubject: string,
    name: string, slug: string)

  function CleanInput(i: Input): Option<Input> {
    var o, u, s, t, p := CleanId(i.organization), CleanId(i.userId), CleanId(i.sessionId), CleanId(i.proofTokenId), CleanId(i.proofSubject);
    if o.None? || u.None? || s.None? || t.None? || p.None? then None
    else Some(Input(o.value, u.value, s.value, t.value, p.value, i.name, i.slug))
  }

  ghost predicate IsClean(i: Input) {
    CleanInput(i) == Some(i)
  }

  /** `parseAdoptionMetadataMarker`: whom a marker entry names. */
  function MarkedUser(e: Entry): Option<string> {
    match e
    case Other(_) => None
    case Adopted(m) =>
      if CleanId(m.sessionId).None? || CleanId(m.proofTokenId).None? || CleanId(m.proofSubject).None? then None
      else CleanId(m.userId)
  }

  function MarkerOf(i: Input): Marker {
    Marker(i.userId, i.sessionId, i.proofTokenId, i.proofSubject)
  }

  lemma MarkerNamesUser(i: Input)
    requires IsClean(i)
    ensures MarkedUser(Adopted(MarkerOf(i))) == Some(i.userId)
  {
  }

  // ---------------------------------------------------------------- members

  predicate OwnerRow(m: Member, org: string) {
    m.organization == org && RoleOf(m.role) == Some(Owner)
  }

  predicate RowOf(m: Member, org: string, user: string) {
    m.organization == org && CleanId(m.userId) == Some(user)
  }

  /** `normalizeMemberRow` accepts the row. */
  predicate NormalRow(m: Member) {
    CleanId(m.id).Some? && CleanId(m.userId).Some? && RoleOf(m.role).Some?
  }

  ghost predicate Normal(members: seq<Member>, org: string) {
    forall i :: 0 <= i < |members| && members[i].organization == org ==> NormalRow(members[i])
  }

  /** The table's primary key, with identifiers stored as they are generated. */
  ghost predicate MemberKeys(members: seq<Member>) {
    && (forall i :: 0 <= i < |members| ==> CleanId(members[i].id) == Some(members[i].id))
    && (forall i, j :: 0 <= i < j < |members| ==> members[i].id != members[j].id)
  }

  ghost predicate OnlyOwner(members: seq<Member>, org: string, user: string) {
    forall i :: 0 <= i < |members| && OwnerRow(members[i], org) ==> RowOf(members[i], org, user)
  }

  ghost predicate OneRow(members: seq<Member>, org: string, user: string) {
    forall i, j :: 0 <= i < |members| && 0 <= j < |members| && RowOf(members[i], org, user) && RowOf(members[j], org, user) ==> i == j
  }

  ghost predicate HasOwner(members: seq<Member>, org: string) {
    exists i :: 0 <= i < |members| && OwnerRow(members[i], org)
  }

  ghost predicate HasRow(members: seq<Member>, org: string, user: string) {
    exists i :: 0 <= i < |members| && RowOf(members[i], org, user)
  }

  ghost predicate MembersOk(members: seq<Member>, org: string, user: string) {
    Normal(members, org) && OnlyOwner(members, org, user) && OneRow(members, org, user)
  }

  predicate Marked(t: Tables, org: string) {
    org in t.organizations && t.organizations[org].metadata.Some? && MARKER_KEY in t.organizations[org].metadata.value
  }

  /** The organization has exactly one owner row, the user's, and its marker names the user. */
  ghost predicate Bound(t: Tables, org: string, user: string) {
    && Marked(t, org)
    && MarkedUser(t.organizations[org].metadata.value[MARKER_KEY]) == Some(user)
    && MembersOk(t.members, org, user)
    && HasOwner(t.members, org)
  }

  // ---------------------------------------------------------------- when binding applies

  predicate SlugFree(t: Tables, slug: string) {
    forall o :: o in t.organizations ==> t.organizations[o].slug != slug
  }

  ghost predicate UserOk(t: Tables, i: Input, now: nat) {
    && i.userId in t.users && t.users[i.userId]
    && i.sessionId in t.sessions
    && t.sessions[i.sessionId].userId == i.userId && t.sessions[i.sessionId].expiresAt > now
  }

  ghost predicate OrganizationOk(t: Tables, i: Input) {
    if i.organization in t.organizations then
      && t.organizations[i.organization].metadata.Some?
      && (Marked(t, i.organization) ==>
          MarkedUser(t.organizations[i.organization].metadata.value[MARKER_KEY]) == Some(i.userId))
    else SlugFree(t, i.slug)
  }

  /** A new membership row can be inserted under the generated identifier. */
  predicate RowFits(members: seq<Member>, id: string) {
    CleanId(id).Some? && forall k :: 0 <= k < |members| ==> members[k].id != CleanId(id).value
  }

  /** Exactly when a binding attempt with a clean input goes through on a working database. */
  ghost predicate Admissible(t: Tables, i: Input, now: nat, id: string) {
    && UserOk(t, i, now)
    && OrganizationOk(t, i)
    && MembersOk(t.members, i.organization, i.userId)
    && (Marked(t, i.organization) ==> HasOwner(t.members, i.organization))
    && (HasRow(t.members, i.organization, i.userId) || RowFits(t.members, id))
  }

  // ---------------------------------------------------------------- the conditions, row by row

  predicate GoodId(s: string) {
    Trim(s) != "" && |s| <= 512 && forall c :: c in s ==> c as int >= 0x20 && c as int != 0x7f
  }

  predicate SaysOwner(role: string) {
    Reads(Trim(role), "owner")
  }

  predicate KnownRole(role: string) {
    var r := Trim(role);
    Reads(r, "owner") || Reads(r, "admin") || Reads(r, "publisher") || Reads(r, "reader") || Reads(r, "member")
  }

  lemma GoodIdIff(s: string)
    ensures CleanId(s) == if GoodId(s) then Some(Trim(s)) else None
  {
    hide Trim;
  }

  lemma RoleIff(role: string)
    ensures RoleOf(role) == Some(Owner) <==> SaysOwner(role)
    ensures RoleOf(role).Some? <==> KnownRole(role)
  {
    hide Trim, Reads, AsciiLower;
    var r := Trim(role);
    ReadsIff(r, "owner");
    ReadsIff(r, "admin");
    ReadsIff(r, "publisher");
    ReadsIff(r, "reader");
    ReadsIff(r, "member");
  }

  /** Every row of the organization is well formed, no other user is an owner, and the user has one row at most. */
  ghost predicate RowsAllow(members: seq<Member>, org: string, user: string) {
    && (forall k :: 0 <= k < |members| && members[k].organization == org ==>
        && GoodId(members[k].id) && GoodId(members[k].userId) && KnownRole(members[k].role)
        && (SaysOwner(members[k].role) ==> Trim(members[k].userId) == user))
    && (forall j, k :: 0 <= j < k < |members| && members[j].organization == org && members[k].organization == org ==>
        !(Trim(members[j].userId) == user && Trim(members[k].userId) == user))
  }

  ghost predicate SomeRow(members: seq<Member>, org: string, user: string, owner: bool) {
    exists k :: 0 <= k < |members| && members[k].organization == org && Trim(members[k].userId) == user
                && (owner ==> SaysOwner(members[k].role))
  }

  /** The marker of the organization names the user. */
  ghost predicate MarkerNames(e: Entry, user: string) {
    && e.Adopted? && GoodId(e.marker.userId) && Trim(e.marker.userId) == user
    && GoodId(e.marker.sessionId) && GoodId(e.marker.proofTokenId) && GoodId(e.marker.proofSubject)
  }

  /** A binding is allowed, said of the rows of each table. */
  ghost predicate Allowed(t: Tables, i: Input, now: nat, id: string) {
    && i.userId in t.users && t.users[i.userId]
    && i.sessionId in t.sessions && t.sessions[i.sessionId].userId == i.userId && t.sessions[i.sessionId].expiresAt > now
    && RowsAllow(t.members, i.organization, i.userId)
    && (if i.organization !in t.organizations then forall o :: o in t.organizations ==> t.organizations[o].slug != i.slug
        else
          var metadata := t.organizations[i.organization].metadata;
          && metadata.Some?
          && (MARKER_KEY in metadata.value ==>
              && MarkerNames(metadata.value[MARKER_KEY], i.userId)
              && SomeRow(t.members, i.organization, i.userId, true)))
    && (|| SomeRow(t.members, i.organization, i.userId, false)
        || (GoodId(id) && forall k :: 0 <= k < |t.members| ==> t.members[k].id != Trim(id)))
  }

  lemma MembersAllowIff(members: seq<Member>, org: string, user: string)
    ensures MembersOk(members, org, user) <==> RowsAllow(members, org, user)
  {
    hide CleanId, RoleOf, GoodId, SaysOwner, KnownRole, Trim;
    forall k | 0 <= k < |members|
      ensures CleanId(members[k].id) == (if GoodId(members[k].id) then Some(Trim(members[k].id)) else None)
      ensures CleanId(members[k].userId) == (if GoodId(members[k].userId) then Some(Trim(members[k].userId)) else None)
      ensures RoleOf(members[k].role) == Some(Owner) <==> SaysOwner(members[k].role)
      ensures RoleOf(members[k].role).Some? <==> KnownRole(members[k].role)
    {
      GoodIdIff(members[k].id);
      GoodIdIff(members[k].userId);
      RoleIff(members[k].role);
    }
    if RowsAllow(members, org, user) {
      forall j, k | 0 <= j < |members| && 0 <= k < |members| && RowOf(members[j], org, user) && RowOf(members[k], org, user)
        ensures j == k
      {
        assert !(j < k) && !(k < j);
      }
    }
    if MembersOk(members, org, user) {
      forall k | 0 <= k < |members| && members[k].organization == org
        ensures NormalRow(members[k])
        ensures SaysOwner(members[k].role) ==> Trim(members[k].userId) == user
      {
        assert OwnerRow(members[k], org) ==> RowOf(members[k], org, user);
      }
      forall j, k | 0 <= j < k < |members| && members[j].organization == org && members[k].organization == org
        ensures !(Trim(members[j].userId) == user && Trim(members[k].userId) == user)
      {
        assert NormalRow(members[j]) && NormalRow(members[k]);
        assert !(RowOf(members[j], org, user) && RowOf(members[k], org, user));
      }
    }
  }

  lemma RowIff(members: seq<Member>, org: string, user: string)
    requires MembersOk(members, org, user)
    ensures HasRow(members, org, user) <==> SomeRow(members, org, user, false)
    ensures HasOwner(members, org) <==> SomeRow(members, org, user, true)
  {
    hide CleanId, RoleOf, GoodId, SaysOwner, KnownRole, Trim;
    forall k | 0 <= k < |members| && members[k].organization == org
      ensures NormalRow(members[k]) && CleanId(members[k].userId) == Some(Trim(members[k].userId))
      ensures RoleOf(members[k].role) == Some(Owner) <==> SaysOwner(members[k].role)
    {
      GoodIdIff(members[k].userId);
      RoleIff(members[k].role);
    }
    if HasOwner(members, org) {
      var k :| 0 <= k < |members| && OwnerRow(members[k], org);
      assert RowOf(members[k], org, user);
    }
  }

  lemma MarkerIff(e: Entry, user: string)
    ensures MarkedUser(e) == Some(user) <==> MarkerNames(e, user)
  {
    hide CleanId, GoodId, Trim;
    if e.Adopted? {
      GoodIdIff(e.marker.userId);
      GoodIdIff(e.marker.sessionId);
      GoodIdIff(e.marker.proofTokenId);
      GoodIdIff(e.marker.proofSubject);
    }
  }

  /** A binding is admissible exactly when the rows allow it. */
  lemma AdmissibleIff(t: Tables, i: Input, now: nat, id: string)
    ensures Admissible(t, i, now, id) <==> Allowed(t, i, now, id)
  {
    hide CleanId, GoodId, Trim, MembersOk, RowsAllow, HasRow, HasOwner, SomeRow, MarkedUser, MarkerNames;
    MembersAllowIff(t.members, i.organization, i.userId);
    GoodIdIff(id);
    if MembersOk(t.members, i.organization, i.userId) { RowIff(t.members, i.organization, i.userId); }
    if Marked(t, i.organization) { MarkerIff(t.organizations[i.organization].metadata.value[MARKER_KEY], i.userId); }
  }

  // ---------------------------------------------------------------- what binding keeps

  ghost predicate KeepsMembers(before: seq<Member>, after: seq<Member>, org: string, user: string) {
    && |before| <= |after| <= |before| + 1
    && (forall i :: 0 <= i < |before| ==>
        after[i] == before[i] || (RowOf(before[i], org, user) && after[i] == before[i].(role := "owner")))
    && (|after| > |before| ==>
        after[|before|].organization == org && after[|before|].userId == user && !HasRow(before, org, user))
    && (HasOwner(before, org) ==> after == before)
  }

  ghost predicate KeepsOrganizations(before: Tables, after: Tables, i: Input) {
    && after.organizations.Keys == before.organizations.Keys + {i.organization}
    && (forall o :: o in before.organizations && o != i.organization ==> after.organizations[o] == before.organizations[o])
    && after.organizations[i.organization].metadata.Some?
    && var after' := after.organizations[i.organization];
      if i.organization in before.organizations then
        var before' := before.organizations[i.organization];
        && after'.name == before'.name && after'.slug == before'.slug
        && before'.metadata.Some?
        && after'.metadata.value - {MARKER_KEY} == before'.metadata.value - {MARKER_KEY}
        && (Marked(before, i.organization) ==> after' == before')
      else after'.metadata.value.Keys == {MARKER_KEY} && after'.name == i.name && after'.slug == i.slug
  }

  /** A binding changes the user's membership and session, and the organization's marker, and nothing else. */
  ghost predicate KeepsRest(before: Tables, after: Tables, i: Input) {
    && after.users == before.users
    && i.sessionId in before.sessions
    && after.sessions == before.sessions[i.sessionId := before.sessions[i.sessionId].(active := Some(i.organization))]
    && KeepsOrganizations(before, after, i)
    && KeepsMembers(before.members, after.members, i.organization, i.userId)
  }

  /** What one binding attempt does to the tables. */
  ghost predicate BindOutcome(before: Tables, after: Tables, i: Input, applied: bool) {
    if applied then
      Bound(after, i.organization, i.userId) && KeepsRest(before, after, i) && (MemberKeys(before.members) ==> MemberKeys(after.members))
    else after == before
  }

  // ---------------------------------------------------------------- lemmas on member rows

  lemma AppendOwner(members: seq<Member>, org: string, user: string, row: Member)
    requires MembersOk(members, org, user) && !HasRow(members, org, user)
    requires row.organization == org && CleanId(row.userId) == Some(user) && row.role == "owner" && CleanId(row.id) == Some(row.id)
    ensures MembersOk(members + [row], org, user) && HasOwner(members + [row], org)
  {
    hide CleanId, RoleOf;
    OwnerTextIsOwner();
    var all := members + [row];
    assert all[|members|] == row && OwnerRow(row, org);
    forall i | 0 <= i < |members|
      ensures !RowOf(members[i], org, user) && all[i] == members[i]
    {
    }
  }

  lemma PromoteRow(members: seq<Member>, org: string, user: string, k: nat)
    requires MembersOk(members, org, user) && k < |members| && RowOf(members[k], org, user)
    ensures
      var all := members[k := members[k].(role := "owner")];
      MembersOk(all, org, user) && HasOwner(all, org)
  {
    hide CleanId, RoleOf;
    OwnerTextIsOwner();
    var all := members[k := members[k].(role := "owner")];
    assert OwnerRow(all[k], org);
    assert forall i :: 0 <= i < |all| ==> RowOf(all[i], org, user) == RowOf(members[i], org, user);
  }

  lemma OwnerIsRow(members: seq<Member>, org: string, user: string)
    requires OnlyOwner(members, org, user) && HasOwner(members, org)
    ensures HasRow(members, org, user)
  {
    var i :| 0 <= i < |members| && OwnerRow(members[i], org);
    assert RowOf(members[i], org, user);
  }

  /** Two users cannot both be bound. */
  lemma BoundIsUnique(t: Tables, org: string, u: string, v: string)
    requires Bound(t, org, u) && Bound(t, org, v)
    ensures u == v
  {
  }

  /** Row `k` is the user's, and the only one with the owner role. */
  ghost predicate OnlyOwnerRow(members: seq<Member>, org: string, user: string, k: int) {
    && 0 <= k < |members| && OwnerRow(members[k], org) && RowOf(members[k], org, user)
    && forall i :: 0 <= i < |members| && OwnerRow(members[i], org) ==> i == k
  }

  /** The organization has exactly one owner row, and it is the user's. */
  ghost predicate ExactlyOneOwner(members: seq<Member>, org: string, user: string) {
    exists k :: OnlyOwnerRow(members, org, user, k)
  }

  lemma BoundHasOneOwner(t: Tables, org: string, user: string)
    requires Bound(t, org, user)
    ensures ExactlyOneOwner(t.members, org, user)
  {
    hide RoleOf, CleanId;
    var k :| 0 <= k < |t.members| && OwnerRow(t.members[k], org);
    assert RowOf(t.members[k], org, user);
    forall i | 0 <= i < |t.members| && OwnerRow(t.members[i], org)
      ensures i == k
    {
      assert RowOf(t.members[i], org, user);
    }
    assert OnlyOwnerRow(t.members, org, user, k);
  }

  /** While one user is bound, no attempt by another is admissible. */
  lemma OthersAreRefused(t: Tables, org: string, user: string, i: Input, now: nat, id: string)
    requires Bound(t, org, user) && i.organization == org && i.userId != user
    ensures !Admissible(t, i, now, id)
  {
  }

  /** A retry by the bound user with a live session is admissible, whatever identifier is generated. */
  lemma RetriesAreAdmissible(t: Tables, i: Input, now: nat, id: string)
    requires Bound(t, i.organization, i.userId) && UserOk(t, i, now)
    ensures Admissible(t, i, now, id)
  {
    OwnerIsRow(t.members, i.organization, i.userId);
  }

  // ---------------------------------------------------------------- the rows a binding writes

  lemma InputIsClean(i: Input)
    requires CleanInput(i).Some?
    ensures IsClean(CleanInput(i).value)
  {
    hide CleanId;
    CleanIdIdempotent(i.organization);
    CleanIdIdempotent(i.userId);
    CleanIdIdempotent(i.sessionId);
    CleanIdIdempotent(i.proofTokenId);
    CleanIdIdempotent(i.proofSubject);
  }

  function NewOrganization(i: Input): Organization {
    Organization(i.name, i.slug, Some(map[MARKER_KEY := Adopted(MarkerOf(i))]))
  }

  function WithMarker(o: Organization, i: Input): Organization
    requires o.metadata.Some?
  {
    o.(metadata := Some(o.metadata.value[MARKER_KEY := Adopted(MarkerOf(i))]))
  }

  /** The member table once the user is owner; `own` is the user's row, or -1. */
  function NewMembers(members: seq<Member>, i: Input, own: int, id: string): seq<Member>
    requires own < |members|
    requires own < 0 ==> CleanId(id).Some?
  {
    if own >= 0 then members[own := members[own].(role := "owner")]
    else members + [Member(CleanId(id).value, i.organization, i.userId, "owner")]
  }

  lemma NewMembersOk(members: seq<Member>, i: Input, own: int, id: string)
    requires IsClean(i) && MembersOk(members, i.organization, i.userId) && !HasOwner(members, i.organization)
    requires own < |members| && (own >= 0 ==> RowOf(members[own], i.organization, i.userId))
    requires own < 0 ==> !HasRow(members, i.organization, i.userId) && RowFits(members, id) && CleanId(id).Some?
    ensures
      var after := NewMembers(members, i, own, id);
      && MembersOk(after, i.organization, i.userId) && HasOwner(after, i.organization)
      && KeepsMembers(members, after, i.organization, i.userId)
      && (MemberKeys(members) ==> MemberKeys(after))
  {
    hide CleanId, RoleOf, MembersOk, HasOwner, HasRow;
    if own >= 0 {
      PromoteRow(members, i.organization, i.userId, own);
    } else {
      CleanIdIdempotent(id);
      AppendOwner(members, i.organization, i.userId, Member(CleanId(id).value, i.organization, i.userId, "owner"));
    }
  }

  lemma FittingIdIsClean(members: seq<Member>, id: string)
    requires RowFits(members, id)
    ensures CleanId(id).Some?
  {
  }

  /** The organizations after the first step: a missing one is created with its marker. */
  function Opened(t: Tables, i: Input): map<string, Organization> {
    if i.organization in t.organizations then t.organizations
    else t.organizations[i.organization := NewOrganization(i)]
  }

  function Activated(sessions: map<string, Session>, i: Input): map<string, Session>
    requires i.sessionId in sessions
  {
    sessions[i.sessionId := sessions[i.sessionId].(active := Some(i.organization))]
  }

  /** The member table names the user as its one owner, and is otherwise as before. */
  ghost predicate OwnerMade(before: seq<Member>, after: seq<Member>, org: string, user: string) {
    && MembersOk(after, org, user) && HasOwner(after, org)
    && KeepsMembers(before, after, org, user)
    && (MemberKeys(before) ==> MemberKeys(after))
  }

  lemma OwnerKept(members: seq<Member>, org: string, user: string)
    requires MembersOk(members, org, user) && HasOwner(members, org)
    ensures OwnerMade(members, members, org, user)
    ensures HasRow(members, org, user)
  {
    OwnerIsRow(members, org, user);
  }

  lemma MarkedOnceOpened(t: Tables, i: Input)
    requires OrganizationOk(t, i)
    ensures i.organization in Opened(t, i) && Opened(t, i)[i.organization].metadata.Some?
    ensures i.organization !in t.organizations ==> MARKER_KEY in Opened(t, i)[i.organization].metadata.value
    ensures i.organization in t.organizations ==> Opened(t, i) == t.organizations
  {
  }

  lemma SessionIsThere(t: Tables, i: Input, now: nat)
    requires UserOk(t, i, now)
    ensures i.sessionId in t.sessions
  {
  }

  /** The organizations after all steps. */
  ghost predicate MarkedUp(t: Tables, after: map<string, Organization>, i: Input) {
    if i.organization in t.organizations && !Marked(t, i.organization) then
      && t.organizations[i.organization].metadata.Some?
      && after == t.organizations[i.organization := WithMarker(t.organizations[i.organization], i)]
    else after == Opened(t, i)
  }

  lemma MarkedUpIsKept(t: Tables, after: Tables, i: Input)
    requires IsClean(i) && OrganizationOk(t, i) && MarkedUp(t, after.organizations, i)
    ensures KeepsOrganizations(t, after, i) && Marked(after, i.organization)
    ensures MarkedUser(after.organizations[i.organization].metadata.value[MARKER_KEY]) == Some(i.userId)
  {
    hide CleanId, MarkedUser;
    MarkerNamesUser(i);
    if i.organization in t.organizations && !Marked(t, i.organization) {
      var was := t.organizations[i.organization].metadata.value;
      assert was[MARKER_KEY := Adopted(MarkerOf(i))] - {MARKER_KEY} == was - {MARKER_KEY};
    }
  }

  lemma BoundAndKept(t: Tables, i: Input, after: Tables, now: nat)
    requires IsClean(i) && UserOk(t, i, now) && OrganizationOk(t, i)
    requires after.users == t.users && i.sessionId in t.sessions && after.sessions == Activated(t.sessions, i)
    requires MarkedUp(t, after.organizations, i)
    requires OwnerMade(t.members, after.members, i.organization, i.userId)
    ensures BindOutcome(t, after, i, true)
  {
    hide IsClean, OrganizationOk, MarkedUp, KeepsOrganizations, MembersOk, HasOwner, KeepsMembers, MemberKeys, MarkedUser;
    MarkedUpIsKept(t, after, i);
  }

  // ---------------------------------------------------------------- the audit log

  predicate IsAdoption(e: AuditEvent, org: string) {
    e.action == ADOPTED_ACTION && e.organization == org
  }

  ghost predicate AllName(audit: seq<AuditEvent>, org: string, user: string) {
    forall k :: 0 <= k < |audit| && IsAdoption(audit[k], org) ==> audit[k].userId == Some(user)
  }

  ghost predicate HasAdoption(audit: seq<AuditEvent>, org: string) {
    exists k :: 0 <= k < |audit| && IsAdoption(audit[k], org)
  }

  /** The adoption is on record, and for nobody else. */
  ghost predicate Recorded(audit: seq<AuditEvent>, org: string, user: string) {
    AllName(audit, org, user) && HasAdoption(audit, org)
  }

  ghost predicate AuditOutcome(before: seq<AuditEvent>, after: seq<AuditEvent>, org: string, user: string, applied: bool) {
    if applied then
      && AllName(before, org, user)
      && after == if HasAdoption(before, org) then before else before + [AuditEvent(org, ADOPTED_ACTION, Some(user))]
    else after == before
  }

  // ---------------------------------------------------------------- the two proofs

  datatype IdentitySession = IdentitySession(userId: string, sessionId: string, emailVerified: bool)

  datatype Principal = Principal(identity: string, roles: seq<string>, organization: string, subject: string, tokenId: string)

  /** `isOwnerBootstrapProof`. */
  predicate OwnerProof(p: Principal, org: string, allowed: set<string>) {
    && p.identity == "user"
    && (forall r :: r in p.roles ==> r == "owner" || r == "admin" || r == "publisher" || r == "reader")
    && "owner" in p.roles
    && p.organization == org && Trim(p.subject) != "" && p.tokenId in allowed
  }

  /** Field by field: a user of this organization with the owner's role, no worker, and an allowed token. */
  lemma OwnerProofIff(p: Principal, org: string, allowed: set<string>)
    ensures OwnerProof(p, org, allowed) <==>
      && p.identity == "user" && p.organization == org
      && "owner" in p.roles && "worker" !in p.roles
      && (forall r :: r in p.roles ==> r == "owner" || r == "admin" || r == "publisher" || r == "reader" || r == "worker")
      && Trim(p.subject) != "" && p.tokenId in allowed
  {
    hide Trim;
    assert |"worker"| == 6 && |"owner"| == 5 && |"admin"| == 5 && |"publisher"| == 9 && "reader"[0] == 'r' && "worker"[0] == 'w';
  }

  // ---------------------------------------------------------------- the store

  /** How the database behaves: how many writes it takes, and whether the reply to COMMIT arrives. */
  datatype Weather = Weather(writes: nat, commits: bool, replies: bool)

  datatype Reply = Failed | Done(replayed: bool)

  class AdoptionStore {
    var tables: Tables
    var audit: seq<AuditEvent>

    constructor (tables: Tables, audit: seq<AuditEvent>)
      ensures this.tables == tables && this.audit == audit
    {
      this.tables := tables;
      this.audit := audit;
    }

    /** The owner row and the user's own row, or a refusal of the member table. */
    method ReadMembers(org: string, user: string) returns (ok: bool, owner: int, own: int)
      ensures ok <==> MembersOk(tables.members, org, user)
      ensures ok ==> -1 <= owner < |tables.members| && -1 <= own < |tables.members|
      ensures ok && owner >= 0 ==> OwnerRow(tables.members[owner], org) && own == owner
      ensures ok ==> (owner < 0 <==> !HasOwner(tables.members, org))
      ensures ok && own >= 0 ==> RowOf(tables.members[own], org, user)
      ensures ok ==> (own < 0 <==> !HasRow(tables.members, org, user))
    {
      hide CleanId, RoleOf;
      owner, own := -1, -1;
      var members := tables.members;
      for n := 0 to |members|
        invariant -1 <= owner < n && -1 <= own < n
        invariant Normal(members[..n], org)
        invariant owner >= 0 ==> OwnerRow(members[owner], org) && own == owner
        invariant owner < 0 ==> forall i :: 0 <= i < n ==> !OwnerRow(members[i], org)
        invariant forall i :: 0 <= i < n && OwnerRow(members[i], org) ==> i == owner
        invariant own >= 0 ==> RowOf(members[own], org, user)
        invariant forall i :: 0 <= i < n && RowOf(members[i], org, user) ==> i == own
      {
        var m := members[n];
        assert members[..n + 1] == members[..n] + [m];
        if m.organization == org {
          if !NormalRow(m) {
            return false, owner, own;
          }
          if RowOf(m, org, user) {
            if own >= 0 {
              assert !OneRow(members, org, user);
              return false, owner, own;
            }
            own := n;
          }
          if OwnerRow(m, org) {
            if !RowOf(m, org, user) {
              return false, owner, own;
            }
            owner := n;
          }
        }
      }
      assert members[..|members|] == members;
      ok := true;
    }

    /** The user and session rows are read and checked. */
    method ReadUser(i: Input, now: nat) returns (ok: bool)
      ensures ok <==> UserOk(tables, i, now)
    {
      if i.userId !in tables.users || !tables.users[i.userId] {
        return false;
      }
      return i.sessionId in tables.sessions && tables.sessions[i.sessionId].userId == i.userId
        && tables.sessions[i.sessionId].expiresAt > now;
    }

    /** The organization row is created with its marker, or read and checked. */
    method OpenOrganization(i: Input, writes: nat) returns (ok: bool, left: nat)
      modifies this`tables
      ensures ok ==> OrganizationOk(old(tables), i) && tables == old(tables).(organizations := Opened(old(tables), i))
      ensures ok ==> left == writes - if i.organization in old(tables).organizations then 0 else 1
      ensures !ok && writes > 0 ==> !OrganizationOk(old(tables), i)
    {
      left := writes;
      if i.organization !in tables.organizations {
        if left == 0 || !SlugFree(tables, i.slug) {
          return false, left;
        }
        tables := tables.(organizations := tables.organizations[i.organization := NewOrganization(i)]);
        return true, left - 1;
      }
      if tables.organizations[i.organization].metadata.None? {
        return false, left;
      }
      ok := !Marked(tables, i.organization)
        || MarkedUser(tables.organizations[i.organization].metadata.value[MARKER_KEY]) == Some(i.userId);
    }

    /** The user's row becomes the owner's, or is inserted as such. */
    method MakeOwner(i: Input, own: int, id: string, writes: nat) returns (ok: bool, left: nat)
      requires IsClean(i) && MembersOk(tables.members, i.organization, i.userId) && !HasOwner(tables.members, i.organization)
      requires -1 <= own < |tables.members| && (own >= 0 ==> RowOf(tables.members[own], i.organization, i.userId))
      requires own < 0 <==> !HasRow(tables.members, i.organization, i.userId)
      modifies this`tables
      ensures ok ==> left == writes - 1 && tables == old(tables).(members := tables.members)
      ensures ok ==> OwnerMade(old(tables).members, tables.members, i.organization, i.userId)
      ensures ok ==> own >= 0 || RowFits(old(tables).members, id)
      ensures !ok && writes > 0 ==> own < 0 && !RowFits(old(tables).members, id)
    {
      hide CleanId, RoleOf, MembersOk, HasOwner, HasRow, KeepsMembers, RowFits, MemberKeys;
      if writes == 0 || (own < 0 && !RowFits(tables.members, id)) {
        return false, writes;
      }
      if own < 0 { FittingIdIsClean(tables.members, id); }
      NewMembersOk(tables.members, i, own, id);
      tables := tables.(members := NewMembers(tables.members, i, own, id));
      return true, writes - 1;
    }

    /** The body of the transaction; a refusal may leave writes behind for the rollback. */
    method Attempt(i: Input, now: nat, id: string, writes: nat) returns (ok: bool, replayed: bool)
      requires IsClean(i)
      modifies this`tables
      ensures ok ==> Admissible(old(tables), i, now, id)
      ensures ok ==> BindOutcome(old(tables), tables, i, true)
      ensures ok ==> replayed == HasOwner(old(tables).members, i.organization)
      ensures !ok && writes >= 3 ==> !Admissible(old(tables), i, now, id)
    {
      hide IsClean, UserOk, OrganizationOk, MembersOk, HasOwner, HasRow, RowFits, OwnerMade, BindOutcome, Opened, OwnerRow, RowOf;
      var t0 := tables;
      replayed := false;
      ok := ReadUser(i, now);
      if !ok {
        return false, false;
      }
      var marked, left := Marked(tables, i.organization), 0;
      ok, left := OpenOrganization(i, writes);
      if !ok {
        return false, false;
      }
      var owner, own;
      ok, owner, own := ReadMembers(i.organization, i.userId);
      if !ok || (marked && owner < 0) {
        return false, false;
      }
      if owner < 0 {
        ok, left := MakeOwner(i, own, id, left);
        if !ok {
          return false, false;
        }
      } else {
        replayed := true;
        OwnerKept(t0.members, i.organization, i.userId);
      }
      MarkedOnceOpened(t0, i);
      if !Marked(tables, i.organization) {
        if left == 0 {
          return false, false;
        }
        left := left - 1;
        tables := tables.(organizations := tables.organizations[i.organization := WithMarker(tables.organizations[i.organization], i)]);
      }
      SessionIsThere(t0, i, now);
      if tables.sessions[i.sessionId].active != Some(i.organization) {
        if left == 0 {
          return false, false;
        }
        tables := tables.(sessions := tables.sessions[i.sessionId := tables.sessions[i.sessionId].(active := Some(i.organization))]);
      }
      assert tables.sessions == Activated(t0.sessions, i);
      assert MarkedUp(t0, tables.organizations, i);
      BoundAndKept(t0, i, tables, now);
      ok := true;
    }

    /**
     `bindOwner`. On a working database it applies exactly when it is admissible; an applied binding
     leaves the user the one marked owner and everything else as it was; otherwise all is rolled back.
     A reply is only given for an applied binding, and says whether the owner was there before.
     */
    method BindOwner(input: Input, now: nat, id: string, weather: Weather) returns (reply: Reply, ghost applied: bool)
      modifies this`tables
      ensures CleanInput(input).None? ==> !applied && tables == old(tables)
      ensures CleanInput(input).Some? ==> BindOutcome(old(tables), tables, CleanInput(input).value, applied)
      ensures applied ==> CleanInput(input).Some? && Admissible(old(tables), CleanInput(input).value, now, id)
      ensures applied ==> Allowed(old(tables), CleanInput(input).value, now, id)
      ensures weather.writes >= 3 && weather.commits && CleanInput(input).Some? ==>
        (applied <==> Admissible(old(tables), CleanInput(input).value, now, id))
      ensures reply.Done? <==> applied && weather.replies
      ensures reply.Done? ==> reply.replayed == HasOwner(old(tables).members, CleanInput(input).value.organization)
    {
      hide CleanInput, Admissible, Allowed, HasOwner, Bound, KeepsRest, MemberKeys, IsClean;
      var clean := CleanInput(input);
      if clean.None? {
        return Failed, false;
      }
      InputIsClean(input);
      AdmissibleIff(tables, clean.value, now, id);
      var saved := tables;
      var ok, replayed := Attempt(clean.value, now, id, weather.writes);
      if !ok || !weather.commits {
        tables := saved;
        return Failed, false;
      }
      return if weather.replies then Done(replayed) else Failed, true;
    }

    /** `appendAdoptionAudit`: every adoption event of the organization must name the user; the first is appended. */
    method AppendAudit(org: string, user: string, weather: Weather) returns (ok: bool, ghost applied: bool)
      modifies this`audit
      ensures AuditOutcome(old(audit), audit, org, user, applied)
      ensures ok <==> applied && weather.replies
      ensures weather.commits ==> (applied <==> AllName(old(audit), org, user))
    {
      var existing := 0;
      for n := 0 to |audit|
        invariant forall k :: 0 <= k < n && IsAdoption(audit[k], org) ==> audit[k].userId == Some(user)
        invariant existing > 0 <==> exists k :: 0 <= k < n && IsAdoption(audit[k], org)
      {
        if IsAdoption(audit[n], org) {
          if audit[n].userId != Some(user) {
            return false, false;
          }
          existing := existing + 1;
        }
      }
      if !weather.commits {
        return false, false;
      }
      if existing == 0 {
        audit := audit + [AuditEvent(org, ADOPTED_ACTION, Some(user))];
      }
      return weather.replies, true;
    }

    /**
     The adoption endpoint: a live verified session and an owner proof, then the binding, then the
     audit event. Without both proofs nothing is touched; success leaves the user bound and recorded.
     */
    method Adopt(
        org: string, session: Option<IdentitySession>, proof: Option<Principal>, allowed: set<string>,
        now: nat, id: string, first: Weather, second: Weather)
      returns (reply: Reply)
      modifies this
      ensures tables != old(tables) || audit != old(audit) ==>
        && session.Some? && session.value.emailVerified && proof.Some?
        && proof.value.identity == "user" && proof.value.organization == org
        && "owner" in proof.value.roles && "worker" !in proof.value.roles
        && Trim(proof.value.subject) != "" && proof.value.tokenId in allowed
        && OwnerProof(proof.value, org, allowed)
      ensures reply.Done? ==> exists user ::
        && session.Some? && CleanId(session.value.userId) == Some(user)
        && CleanId(org).Some? && Bound(tables, CleanId(org).value, user)
        && Recorded(audit, CleanId(org).value, user)
    {
      hide BindOutcome, Bound, CleanId, OwnerProof, Recorded, Admissible, AuditOutcome, Allowed, Trim;
      if proof.Some? { OwnerProofIff(proof.value, org, allowed); }
      if session.None? || !session.value.emailVerified || proof.None? || !OwnerProof(proof.value, org, allowed) {
        return Failed;
      }
      var input := Input(org, session.value.userId, session.value.sessionId, proof.value.tokenId, proof.value.subject, org, org);
      ghost var applied, done;
      reply, applied := BindOwner(input, now, id, first);
      if reply.Failed? {
        return Failed;
      }
      var i := CleanInput(input).value;
      AppliedIsBound(old(tables), tables, i);
      var ok;
      ok, done := AppendAudit(i.organization, i.userId, second);
      if !ok {
        return Failed;
      }
      AppliedIsRecorded(old(audit), audit, i.organization, i.userId);
      assert CleanId(session.value.userId) == Some(i.userId) && CleanId(org) == Some(i.organization);
    }
  }

  lemma AppliedIsBound(before: Tables, after: Tables, i: Input)
    requires BindOutcome(before, after, i, true)
    ensures Bound(after, i.organization, i.userId)
  {
  }

  lemma AppliedIsRecorded(before: seq<AuditEvent>, after: seq<AuditEvent>, org: string, user: string)
    requires AuditOutcome(before, after, org, user, true)
    ensures Recorded(after, org, user)
  {
    if !HasAdoption(before, org) {
      assert after[|before|] == AuditEvent(org, ADOPTED_ACTION, Some(user));
    }
  }
}
