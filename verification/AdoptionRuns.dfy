/** Adoption over whole runs: any interleaving of binding attempts and audit writes, with failures anywhere. */
module AdoptionRuns {
  import opened Options
  import opened Adoption

  /** The two stores, and the bindings that were ever applied. */
  datatype World = World(tables: Tables, audit: seq<AuditEvent>, bound: set<(string, string)>)

  ghost predicate BindStep(w: World, x: World, i: Input, now: nat, id: string, applied: bool) {
    && (applied ==> Admissible(w.tables, i, now, id))
    && BindOutcome(w.tables, x.tables, i, applied)
    && x.audit == w.audit
    && x.bound == if applied then w.bound + {(i.organization, i.userId)} else w.bound
  }

  /** The audit write of a request whose binding was applied earlier, perhaps long before. */
  ghost predicate AuditStep(w: World, x: World, org: string, user: string, applied: bool) {
    && (org, user) in w.bound
    && AuditOutcome(w.audit, x.audit, org, user, applied)
    && x.tables == w.tables && x.bound == w.bound
  }

  datatype Action = Bind(input: Input, now: nat, id: string) | Audit(organization: string, userId: string)

  ghost predicate Step(w: World, x: World, a: Action, applied: bool) {
    match a
    case Bind(i, now, id) => BindStep(w, x, i, now, id, applied)
    case Audit(org, user) => AuditStep(w, x, org, user, applied)
  }

  ghost predicate AtMostOne(audit: seq<AuditEvent>, org: string) {
    forall j, k :: 0 <= j < |audit| && 0 <= k < |audit| && IsAdoption(audit[j], org) && IsAdoption(audit[k], org) ==> j == k
  }

  ghost predicate NamesBound(e: AuditEvent, bound: set<(string, string)>) {
    e.userId.Some? && (e.organization, e.userId.value) in bound
  }

  /** Applied bindings still hold, and the audit log has at most one event for each organization, naming its owner. */
  ghost predicate Inv(w: World) {
    && (forall p :: p in w.bound ==> Bound(w.tables, p.0, p.1))
    && (forall k :: 0 <= k < |w.audit| && w.audit[k].action == ADOPTED_ACTION ==> NamesBound(w.audit[k], w.bound))
    && (forall org :: AtMostOne(w.audit, org))
  }

  ghost predicate Initial(w: World) {
    w.bound == {} && forall k :: 0 <= k < |w.audit| ==> w.audit[k].action != ADOPTED_ACTION
  }

  lemma InitialInv(w: World)
    requires Initial(w)
    ensures Inv(w)
  {
  }

  /** A binding leaves the bindings of other organizations alone. */
  lemma BoundElsewhere(t: Tables, after: Tables, i: Input, org: string, user: string)
    requires KeepsRest(t, after, i) && Bound(t, org, user) && org != i.organization
    ensures Bound(after, org, user)
  {
    hide Adoption.CleanId, Adoption.RoleOf, MarkedUser, KeepsOrganizations;
    assert after.organizations[org] == t.organizations[org] && org in after.organizations by { SameElsewhere(t, after, i, org); }
    MembersElsewhere(t.members, after.members, i.organization, i.userId, org, user);
  }

  lemma SameElsewhere(t: Tables, after: Tables, i: Input, org: string)
    requires KeepsOrganizations(t, after, i) && org in t.organizations && org != i.organization
    ensures org in after.organizations && after.organizations[org] == t.organizations[org]
  {
  }

  lemma MembersElsewhere(before: seq<Member>, after: seq<Member>, changed: string, who: string, org: string, user: string)
    requires KeepsMembers(before, after, changed, who) && org != changed
    requires MembersOk(before, org, user) && HasOwner(before, org)
    ensures MembersOk(after, org, user) && HasOwner(after, org)
  {
    hide Adoption.CleanId, Adoption.RoleOf;
    forall k | 0 <= k < |after| && after[k].organization == org
      ensures k < |before| && after[k] == before[k]
    {
    }
    var i :| 0 <= i < |before| && OwnerRow(before[i], org);
    assert after[i] == before[i];
  }

  lemma BindKeepsInv(w: World, x: World, i: Input, now: nat, id: string, applied: bool)
    requires Inv(w) && BindStep(w, x, i, now, id, applied)
    ensures Inv(x)
  {
    hide Bound, Admissible, KeepsRest, AtMostOne;
    if applied {
      forall p | p in x.bound
        ensures Bound(x.tables, p.0, p.1)
      {
        if p.0 != i.organization {
          BoundElsewhere(w.tables, x.tables, i, p.0, p.1);
        } else if p.1 != i.userId {
          OthersAreRefused(w.tables, p.0, p.1, i, now, id);
        }
      }
    }
  }

  lemma AuditKeepsInv(w: World, x: World, org: string, user: string, applied: bool)
    requires Inv(w) && AuditStep(w, x, org, user, applied)
    ensures Inv(x)
  {
    hide Bound;
    if applied && !HasAdoption(w.audit, org) {
      forall o
        ensures AtMostOne(x.audit, o)
      {
        assert AtMostOne(w.audit, o);
        assert forall k :: 0 <= k < |w.audit| ==> x.audit[k] == w.audit[k];
        assert forall k :: 0 <= k < |w.audit| ==> !IsAdoption(w.audit[k], org);
      }
    }
  }

  // ---------------------------------------------------------------- runs

  /** A run: worlds joined by steps. */
  ghost predicate Run(worlds: seq<World>, actions: seq<Action>, applied: seq<bool>) {
    && |worlds| == |actions| + 1 == |applied| + 1
    && Initial(worlds[0])
    && forall k :: 0 <= k < |actions| ==> Step(worlds[k], worlds[k + 1], actions[k], applied[k])
  }

  lemma {:induction false} RunKeepsInv(worlds: seq<World>, actions: seq<Action>, applied: seq<bool>, n: nat)
    requires Run(worlds, actions, applied) && n < |worlds|
    ensures Inv(worlds[n])
  {
    hide Inv;
    if n == 0 {
      InitialInv(worlds[0]);
    } else {
      RunKeepsInv(worlds, actions, applied, n - 1);
      assert Step(worlds[n - 1], worlds[n], actions[n - 1], applied[n - 1]);
      match actions[n - 1]
      case Bind(i, now, id) => BindKeepsInv(worlds[n - 1], worlds[n], i, now, id, applied[n - 1]);
      case Audit(org, user) => AuditKeepsInv(worlds[n - 1], worlds[n], org, user, applied[n - 1]);
    }
  }

  lemma {:induction false} BoundNeverShrinks(worlds: seq<World>, actions: seq<Action>, applied: seq<bool>, m: nat, n: nat)
    requires Run(worlds, actions, applied) && m <= n < |worlds|
    ensures worlds[m].bound <= worlds[n].bound
    decreases n
  {
    hide BindOutcome, AuditOutcome, Admissible;
    if m < n {
      BoundNeverShrinks(worlds, actions, applied, m, n - 1);
      assert Step(worlds[n - 1], worlds[n], actions[n - 1], applied[n - 1]);
    }
  }

  /**
   Once a binding for a user is applied at some step, then at every later point of the run the user
   is the one owner and named by the marker, and every adoption event of the organization, of which
   there is at most one, names the user.
   */
  lemma SingleAdoptedOwner(worlds: seq<World>, actions: seq<Action>, applied: seq<bool>, m: nat, n: nat)
    requires Run(worlds, actions, applied) && m < n < |worlds|
    requires actions[m].Bind? && applied[m]
    ensures
      var i := actions[m].input;
      && Bound(worlds[n].tables, i.organization, i.userId)
      && ExactlyOneOwner(worlds[n].tables.members, i.organization, i.userId)
      && AllName(worlds[n].audit, i.organization, i.userId)
      && AtMostOne(worlds[n].audit, i.organization)
  {
    hide Bound, AtMostOne, BindOutcome, AuditOutcome, Admissible, ExactlyOneOwner;
    var i := actions[m].input;
    assert Step(worlds[m], worlds[m + 1], actions[m], applied[m]);
    assert (i.organization, i.userId) in worlds[m + 1].bound;
    BoundNeverShrinks(worlds, actions, applied, m + 1, n);
    RunKeepsInv(worlds, actions, applied, n);
    var w := worlds[n];
    BoundHasOneOwner(w.tables, i.organization, i.userId);
    forall k | 0 <= k < |w.audit| && IsAdoption(w.audit[k], i.organization)
      ensures w.audit[k].userId == Some(i.userId)
    {
      assert NamesBound(w.audit[k], w.bound);
      BoundIsUnique(w.tables, i.organization, i.userId, w.audit[k].userId.value);
    }
  }

  /** After that, attempts by anybody else are never applied and change nothing. */
  lemma LaterAttemptsFail(worlds: seq<World>, actions: seq<Action>, applied: seq<bool>, m: nat, n: nat)
    requires Run(worlds, actions, applied) && m < n < |actions|
    requires actions[m].Bind? && applied[m] && actions[n].Bind?
    requires actions[n].input.organization == actions[m].input.organization
    requires actions[n].input.userId != actions[m].input.userId
    ensures !applied[n] && worlds[n + 1] == worlds[n]
  {
    hide Bound, AtMostOne, Admissible, AllName, ExactlyOneOwner;
    var i := actions[m].input;
    SingleAdoptedOwner(worlds, actions, applied, m, n);
    assert Step(worlds[n], worlds[n + 1], actions[n], applied[n]);
    OthersAreRefused(worlds[n].tables, i.organization, i.userId, actions[n].input, actions[n].now, actions[n].id);
  }

  /** A retry by the owner touches nothing but the active organization of the session. */
  lemma RetryChangesOnlyTheSession(t: Tables, after: Tables, i: Input)
    requires Bound(t, i.organization, i.userId) && BindOutcome(t, after, i, true)
    ensures after == t.(sessions := t.sessions[i.sessionId := t.sessions[i.sessionId].(active := Some(i.organization))])
  {
    hide Bound, MembersOk, MarkedUser, KeepsOrganizations;
    RetryKeepsOrganizations(t, after, i);
    BoundHasOwner(t, i.organization, i.userId);
  }

  lemma BoundHasOwner(t: Tables, org: string, user: string)
    requires Bound(t, org, user)
    ensures HasOwner(t.members, org)
  {
  }

  lemma RetryKeepsOrganizations(t: Tables, after: Tables, i: Input)
    requires Bound(t, i.organization, i.userId) && KeepsOrganizations(t, after, i)
    ensures after.organizations == t.organizations
  {
    hide MembersOk, HasOwner, MarkedUser;
    forall o | o in t.organizations
      ensures o in after.organizations && after.organizations[o] == t.organizations[o]
    {
    }
  }

  /** The audit write of a bound user is never refused for a conflict, and then is on record. */
  lemma AuditOfOwnerSucceeds(w: World, org: string, user: string)
    requires Inv(w) && (org, user) in w.bound
    ensures AllName(w.audit, org, user)
  {
    hide Bound;
    assert Bound(w.tables, org, user);
    forall k | 0 <= k < |w.audit| && IsAdoption(w.audit[k], org)
      ensures w.audit[k].userId == Some(user)
    {
      assert NamesBound(w.audit[k], w.bound);
      BoundIsUnique(w.tables, org, user, w.audit[k].userId.value);
    }
  }
}
