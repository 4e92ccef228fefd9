/** The handler cache over whole histories: requests, failed builds, invalidations and clears in any order. */
module TenantRuns {
  import opened Options
  import opened Order
  import opened TenantCache

  datatype Event =
    | Ask(organization: string, provisioned: bool)
    | Failed(organization: string, handler: Handler)
    | Invalidate(organization: string)
    | Clear

  /** One call on the cache; only a request has a reply. */
  ghost predicate Step(c: Cache, d: Cache, limit: nat, ev: Event, reply: Option<Handler>) {
    && ValidCache(d, limit)
    && match ev
      case Ask(organization, provisioned) => Served(c, d, limit, organization, provisioned, reply)
      case Failed(organization, handler) =>
        Rejected(c.entries, d.entries, organization, handler) && d.serial == c.serial && reply.None?
      case Invalidate(organization) => Invalidated(c.entries, d.entries, organization) && d.serial == c.serial && reply.None?
      case Clear => d.entries == [] && d.serial == c.serial && reply.None?
  }

  ghost predicate Run(caches: seq<Cache>, evs: seq<Event>, replies: seq<Option<Handler>>, limit: nat) {
    && |caches| == |evs| + 1 == |replies| + 1
    && limit >= 1 && caches[0] == Cache([], 0)
    && forall k :: 0 <= k < |evs| ==> Step(caches[k], caches[k + 1], limit, evs[k], replies[k])
  }

  lemma {:induction false} RunIsValid(caches: seq<Cache>, evs: seq<Event>, replies: seq<Option<Handler>>, limit: nat, n: nat)
    requires Run(caches, evs, replies, limit) && n < |caches|
    ensures ValidCache(caches[n], limit)
  {
    if n > 0 { assert Step(caches[n - 1], caches[n], limit, evs[n - 1], replies[n - 1]); }
  }

  /** A handler was built, and is no longer in the cache. */
  ghost predicate Gone(c: Cache, h: Handler) {
    h.serial < c.serial && forall e :: e in c.entries ==> e.handler != h
  }

  lemma RemovedIsPart(before: seq<Entry>, organization: string)
    ensures forall e :: e in Removed(before, organization) ==> e in before && e.organization != organization
  {
    RemovedSpec(before, organization);
  }

  /** Only one entry belongs to an organization. */
  lemma OwnEntry(c: Cache, limit: nat, e: Entry, f: Entry)
    requires ValidCache(c, limit) && e in c.entries && f in c.entries && e.organization == f.organization
    ensures e == f
  {
    var i :| 0 <= i < |c.entries| && c.entries[i] == e;
    UniqueEntry(c.entries, i);
  }

  /** Whatever happens next, a handler that is gone is neither returned nor cached again. */
  lemma GoneStays(c: Cache, d: Cache, limit: nat, ev: Event, reply: Option<Handler>, h: Handler)
    requires Step(c, d, limit, ev, reply) && Gone(c, h)
    ensures Gone(d, h) && reply != Some(h)
  {
    hide Removed, Touched, Without, Names;
    match ev
    case Ask(organization, provisioned) =>
      forall e | e in d.entries
        ensures e.handler != h
      {
        if e.organization == organization {
          if reply.Some? {
            OwnEntry(d, limit, e, Entry(organization, provisioned, reply.value));
          } else {
            NotListed(c, d, organization, e);
          }
        }
      }
    case Failed(organization, handler) => RemovedIsPart(c.entries, organization);
    case Invalidate(_) =>
    case Clear =>
  }

  lemma NotListed(c: Cache, d: Cache, organization: string, e: Entry)
    requires Names(d.entries) == Without(Names(c.entries), organization) && e in d.entries
    ensures e.organization != organization
  {
    WithoutSpec(Names(c.entries), organization);
    var i :| 0 <= i < |d.entries| && d.entries[i] == e;
    assert Names(d.entries)[i] == e.organization && Names(d.entries)[i] in Names(d.entries);
  }

  lemma {:induction false} GoneForGood(
      caches: seq<Cache>, evs: seq<Event>, replies: seq<Option<Handler>>, limit: nat, m: nat, n: nat, h: Handler)
    requires Run(caches, evs, replies, limit) && m <= n < |caches| && Gone(caches[m], h)
    ensures Gone(caches[n], h)
    decreases n
  {
    hide Gone;
    if m < n {
      GoneForGood(caches, evs, replies, limit, m, n - 1, h);
      assert Step(caches[n - 1], caches[n], limit, evs[n - 1], replies[n - 1]);
      GoneStays(caches[n - 1], caches[n], limit, evs[n - 1], replies[n - 1], h);
    }
  }

  lemma {:induction false} SerialGrows(
      caches: seq<Cache>, evs: seq<Event>, replies: seq<Option<Handler>>, limit: nat, m: nat, n: nat)
    requires Run(caches, evs, replies, limit) && m <= n < |caches|
    ensures caches[m].serial <= caches[n].serial
    decreases n
  {
    hide Removed, Touched, Without, Names, ValidCache;
    if m < n {
      SerialGrows(caches, evs, replies, limit, m, n - 1);
      assert Step(caches[n - 1], caches[n], limit, evs[n - 1], replies[n - 1]);
    }
  }

  /** A handler that was returned has a serial below the cache's. */
  lemma ReturnedIsBuilt(c: Cache, d: Cache, limit: nat, ev: Event, h: Handler)
    requires Step(c, d, limit, ev, Some(h))
    ensures h.serial < d.serial && h.organization == ev.organization && ev.Ask? && h.provisioned == ev.provisioned
  {
    hide Removed, Touched, Without, Names;
  }

  lemma FailureRemoves(c: Cache, d: Cache, limit: nat, h: Handler)
    requires ValidCache(c, limit) && Step(c, d, limit, Failed(h.organization, h), None) && h.serial < c.serial
    ensures Gone(d, h)
  {
    hide Removed, Names;
    RemovedIsPart(c.entries, h.organization);
    forall e | e in d.entries
      ensures e.handler != h
    {
      assert e in c.entries;
    }
  }

  /**
   Over any history, each reply was built for exactly the organization and provisioning asked for, and a
   handler whose build failed is never returned afterwards.
   */
  lemma FailedIsNeverReturned(
      caches: seq<Cache>, evs: seq<Event>, replies: seq<Option<Handler>>, limit: nat, k: nat, m: nat, n: nat, h: Handler)
    requires Run(caches, evs, replies, limit) && k < m < n < |evs|
    requires replies[k] == Some(h) && evs[m] == Failed(h.organization, h)
    ensures evs[k].Ask? && h.organization == evs[k].organization && h.provisioned == evs[k].provisioned
    ensures replies[n] != Some(h)
  {
    hide Gone, ValidCache, Served, Rejected;
    assert Step(caches[k], caches[k + 1], limit, evs[k], replies[k]);
    ReturnedIsBuilt(caches[k], caches[k + 1], limit, evs[k], h);
    SerialGrows(caches, evs, replies, limit, k + 1, m);
    RunIsValid(caches, evs, replies, limit, m);
    assert Step(caches[m], caches[m + 1], limit, evs[m], replies[m]);
    FailureRemoves(caches[m], caches[m + 1], limit, h);
    GoneForGood(caches, evs, replies, limit, m + 1, n, h);
    assert Step(caches[n], caches[n + 1], limit, evs[n], replies[n]);
    GoneStays(caches[n], caches[n + 1], limit, evs[n], replies[n], h);
  }

  /** Nor is one returned after its organization was invalidated, or the cache cleared. */
  lemma DroppedIsNeverReturned(
      caches: seq<Cache>, evs: seq<Event>, replies: seq<Option<Handler>>, limit: nat, k: nat, m: nat, n: nat, h: Handler)
    requires Run(caches, evs, replies, limit) && k < m < n < |evs| && replies[k] == Some(h)
    requires evs[m] == Invalidate(h.organization) || evs[m].Clear?
    ensures replies[n] != Some(h)
  {
    hide Gone, Served, Names, NoRepeats;
    assert Step(caches[k], caches[k + 1], limit, evs[k], replies[k]);
    ReturnedIsBuilt(caches[k], caches[k + 1], limit, evs[k], h);
    SerialGrows(caches, evs, replies, limit, k + 1, m);
    RunIsValid(caches, evs, replies, limit, m);
    assert Step(caches[m], caches[m + 1], limit, evs[m], replies[m]);
    RemovalRemoves(caches[m], caches[m + 1], limit, evs[m], h);
    GoneForGood(caches, evs, replies, limit, m + 1, n, h);
    assert Step(caches[n], caches[n + 1], limit, evs[n], replies[n]);
    GoneStays(caches[n], caches[n + 1], limit, evs[n], replies[n], h);
  }

  lemma RemovalRemoves(c: Cache, d: Cache, limit: nat, ev: Event, h: Handler)
    requires ValidCache(c, limit) && Step(c, d, limit, ev, None) && h.serial < c.serial
    requires ev == Invalidate(h.organization) || ev.Clear?
    ensures Gone(d, h)
  {
    hide Names;
  }

  // ---------------------------------------------------------------- what one call leaves alone

  /** A request whose handler is cached gets that one, and nothing is built; any other gets a new one or none. */
  lemma CachedIsReturned(c: Cache, d: Cache, limit: nat, organization: string, provisioned: bool, reply: Option<Handler>)
    requires ValidCache(c, limit) && Step(c, d, limit, Ask(organization, provisioned), reply)
    ensures forall e :: e in c.entries && e.organization == organization && e.provisioned == provisioned ==>
      reply == Some(e.handler) && d.serial == c.serial
    ensures (forall e :: e in c.entries ==> !(e.organization == organization && e.provisioned == provisioned)) ==>
      reply.None? || (reply == Some(Handler(c.serial, organization, provisioned)) && d.serial == c.serial + 1)
  {
    hide Removed, Touched, Without, Names, NoRepeats;
    forall e | e in c.entries && e.organization == organization && e.provisioned == provisioned
      ensures reply == Some(e.handler) && d.serial == c.serial
    {
      assert Fits(e, organization, provisioned);
      OwnEntry(c, limit, e, Entry(organization, provisioned, reply.value));
    }
  }

  /** A failed build takes away no entry but its own, and an invalidation none of another organization. */
  lemma OthersStay(c: Cache, d: Cache, limit: nat, ev: Event, e: Entry)
    requires ValidCache(c, limit) && Step(c, d, limit, ev, None) && e in c.entries
    requires (ev.Failed? && e.handler != ev.handler) || (ev.Invalidate? && e.organization != ev.organization)
    ensures e in d.entries
  {
    hide Removed, Names, NoRepeats;
    if ev.Failed? {
      RemovedSpec(c.entries, ev.organization);
      if f :| f in c.entries && f.organization == ev.organization && f.handler == ev.handler && e.organization == ev.organization {
        OwnEntry(c, limit, e, f);
      }
    }
  }

  // ---------------------------------------------------------------- order of use over a run

  /** The organizations asked for, in order. */
  function Asked(evs: seq<Event>): seq<string> {
    if evs == [] then []
    else
      var n := |evs| - 1;
      Asked(evs[..n]) + (if evs[n].Ask? then [evs[n].organization] else [])
  }

  lemma StepInOrder(c: Cache, d: Cache, limit: nat, ev: Event, reply: Option<Handler>, uses: seq<string>)
    requires Step(c, d, limit, ev, reply) && InUseOrder(Names(c.entries), uses)
    ensures InUseOrder(Names(d.entries), uses + (if ev.Ask? then [ev.organization] else []))
  {
    hide InUseOrder, Names, Removed, Without, ValidCache, LastOf;
    assert uses + [] == uses;
    if ev.Clear? {
      NothingInOrder(uses);
      NoNames();
    } else {
      var x := ev.organization;
      WithoutInOrder(Names(c.entries), uses, x);
      WithoutSpec(Names(c.entries), x);
      RemovedSpec(c.entries, x);
      UseInOrder(Without(Names(c.entries), x), uses, x);
      LastInOrder(Without(Names(c.entries), x) + [x], uses + [x], limit);
    }
  }

  lemma NoNames()
    ensures Names([]) == []
  {
  }

  /** Over any history the cached organizations lie in the order in which they were last asked for. */
  lemma {:induction false} CacheIsInUseOrder(
      caches: seq<Cache>, evs: seq<Event>, replies: seq<Option<Handler>>, limit: nat, n: nat)
    requires Run(caches, evs, replies, limit) && n < |caches|
    ensures InUseOrder(Names(caches[n].entries), Asked(evs[..n]))
    decreases n
  {
    hide InUseOrder, Names, Step;
    if n == 0 {
      NothingInOrder([]);
      NoNames();
    } else {
      CacheIsInUseOrder(caches, evs, replies, limit, n - 1);
      assert Step(caches[n - 1], caches[n], limit, evs[n - 1], replies[n - 1]);
      StepInOrder(caches[n - 1], caches[n], limit, evs[n - 1], replies[n - 1], Asked(evs[..n - 1]));
      assert evs[..n][..n - 1] == evs[..n - 1];
    }
  }

  lemma AnsweredTouches(c: Cache, d: Cache, limit: nat, ev: Event, reply: Option<Handler>)
    requires Step(c, d, limit, ev, reply) && ev.Ask? && reply.Some?
    ensures Names(d.entries) == Touched(Names(c.entries), ev.organization, limit)
  {
    hide Names, Touched, Without, ValidCache;
  }

  /**
   From any point of a history at which the cache is empty, and as long as only requests follow and each
   is answered, the cache holds the last `limit` distinct organizations, in order of last use.
   */
  lemma {:induction false} CacheHoldsTheLastUsed(
      caches: seq<Cache>, evs: seq<Event>, replies: seq<Option<Handler>>, limit: nat, m: nat, n: nat)
    requires Run(caches, evs, replies, limit) && m <= n < |caches| && caches[m].entries == []
    requires forall k :: m <= k < n ==> evs[k].Ask? && replies[k].Some?
    ensures Names(caches[n].entries) == LastOf(Recency(Asked(evs[m..n])), limit)
    decreases n
  {
    hide Names, LastOf, Without, Step;
    if m == n {
      NoNames();
      KeptInFull([], limit);
    } else {
      CacheHoldsTheLastUsed(caches, evs, replies, limit, m, n - 1);
      var uses, x := Asked(evs[m..n - 1]), evs[n - 1].organization;
      assert evs[m..n][..n - 1 - m] == evs[m..n - 1];
      assert Asked(evs[m..n]) == uses + [x];
      assert (uses + [x])[..|uses|] == uses;
      assert Step(caches[n - 1], caches[n], limit, evs[n - 1], replies[n - 1]);
      AnsweredTouches(caches[n - 1], caches[n], limit, evs[n - 1], replies[n - 1]);
      RecencyIsByLastUse(uses);
      TouchedOfLast(Recency(uses), x, limit);
    }
  }
}
