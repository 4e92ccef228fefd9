/** The bounded cache of per-organization handlers, in order of use. */
module TenantCache {
  import opened Options
  import opened Order

  /** A handler remembers what it was built for. */
  datatype Handler = Handler(serial: nat, organization: string, provisioned: bool)

  datatype Entry = Entry(organization: string, provisioned: bool, handler: Handler)

  // ---------------------------------------------------------------- lists of distinct names

  function LastOf(names: seq<string>, limit: nat): seq<string> {
    if |names| <= limit then names else names[|names| - limit..]
  }

  lemma {:induction false} WithoutConcat(a: seq<string>, b: seq<string>, name: string)
    ensures Without(a + b, name) == Without(a, name) + Without(b, name)
  {
    if b == [] {
      assert a + b == a;
    } else {
      var n := |b| - 1;
      assert (a + b)[..|a + b| - 1] == a + b[..n];
      WithoutConcat(a, b[..n], name);
    }
  }

  // ---------------------------------------------------------------- order of use

  /** The names in use order: a name moves to the end when it is used. */
  function Recency(uses: seq<string>): seq<string> {
    if uses == [] then []
    else
      var n := |uses| - 1;
      Without(Recency(uses[..n]), uses[n]) + [uses[n]]
  }

  /** `k` is the last use of its name. */
  ghost predicate LastUse(uses: seq<string>, k: int) {
    0 <= k < |uses| && forall m :: k < m < |uses| ==> uses[m] != uses[k]
  }

  /** `k` is the last use of `name`. */
  ghost predicate LastUseOf(uses: seq<string>, name: string, k: int) {
    LastUse(uses, k) && uses[k] == name
  }

  /** Only used names, listed by their last use. */
  ghost predicate InUseOrder(names: seq<string>, uses: seq<string>) {
    && (forall x :: x in names ==> x in uses)
    && (forall i, j, k, m :: 0 <= i < j < |names| && LastUseOf(uses, names[i], k) && LastUseOf(uses, names[j], m) ==> k < m)
  }

  /** Each used name is listed once, and names are listed by their last use. */
  ghost predicate ByLastUse(names: seq<string>, uses: seq<string>) {
    NoRepeats(names) && InUseOrder(names, uses) && forall x :: x in uses ==> x in names
  }

  lemma LastUseEarlier(uses: seq<string>, last: string, name: string, k: int)
    requires name != last
    ensures LastUseOf(uses + [last], name, k) <==> LastUseOf(uses, name, k)
  {
    var all := uses + [last];
    assert all[..|uses|] == uses;
  }

  lemma {:induction false} WithoutOrder(names: seq<string>, name: string, i: nat, j: nat)
    requires i < j < |Without(names, name)|
    ensures exists a, b :: 0 <= a < b < |names| && names[a] == Without(names, name)[i] && names[b] == Without(names, name)[j]
  {
    var n := |names| - 1;
    var front := names[..n];
    var w := Without(front, name);
    if j < |w| {
      WithoutOrder(front, name, i, j);
    } else {
      WithoutSpec(front, name);
      assert w[i] in front;
      var a :| 0 <= a < n && names[a] == w[i];
      assert names[n] == Without(names, name)[j];
    }
  }

  lemma WithoutInOrder(names: seq<string>, uses: seq<string>, x: string)
    requires InUseOrder(names, uses)
    ensures InUseOrder(Without(names, x), uses)
  {
    hide LastUseOf;
    var w := Without(names, x);
    WithoutSpec(names, x);
    forall i, j, k, m | 0 <= i < j < |w| && LastUseOf(uses, w[i], k) && LastUseOf(uses, w[j], m)
      ensures k < m
    {
      WithoutOrder(names, x, i, j);
      var a, b :| 0 <= a < b < |names| && names[a] == w[i] && names[b] == w[j];
      assert LastUseOf(uses, names[a], k) && LastUseOf(uses, names[b], m);
    }
  }

  /** Another use leaves the order of the other names, and its own name goes to the end. */
  lemma UseInOrder(names: seq<string>, uses: seq<string>, x: string)
    requires InUseOrder(names, uses) && x !in names
    ensures InUseOrder(names, uses + [x]) && InUseOrder(names + [x], uses + [x])
  {
    var all := names + [x];
    forall i, j, k, m | 0 <= i < j < |all| && LastUseOf(uses + [x], all[i], k) && LastUseOf(uses + [x], all[j], m)
      ensures k < m
    {
      assert all[i] in names;
      LastUseEarlier(uses, x, all[i], k);
      if j < |names| {
        assert all[j] in names;
        LastUseEarlier(uses, x, all[j], m);
        assert all[i] == names[i] && all[j] == names[j];
      } else {
        assert (uses + [x])[|uses|] == x;
      }
    }
    assert forall i :: 0 <= i < |names| ==> all[i] == names[i];
  }

  /** The use order is the order of last uses. */
  lemma {:induction false} RecencyIsByLastUse(uses: seq<string>)
    ensures ByLastUse(Recency(uses), uses)
  {
    hide InUseOrder, NoRepeats, Without;
    if uses == [] {
      NothingInOrder(uses);
      NoRepeatsInNothing();
    } else {
      var n := |uses| - 1;
      var front, x := uses[..n], uses[n];
      RecencyIsByLastUse(front);
      WithoutSpec(Recency(front), x);
      WithoutInOrder(Recency(front), front, x);
      UseInOrder(Without(Recency(front), x), front, x);
      NoRepeatsAppended(Without(Recency(front), x), x);
      assert uses == front + [x];
    }
  }

  lemma NoRepeatsAppended(names: seq<string>, x: string)
    requires NoRepeats(names) && x !in names
    ensures NoRepeats(names + [x])
  {
  }

  lemma NoRepeatsInNothing()
    ensures NoRepeats([])
  {
  }

  lemma NothingInOrder(uses: seq<string>)
    ensures InUseOrder([], uses)
  {
  }

  // ---------------------------------------------------------------- one use of a bounded list

  /** A use of a bounded list: to the end, then the oldest fall off. */
  function Touched(names: seq<string>, name: string, limit: nat): seq<string> {
    LastOf(Without(names, name) + [name], limit)
  }

  lemma LastOfSuffix(x: seq<string>, z: seq<string>, limit: nat)
    requires |z| >= limit
    ensures LastOf(x + z, limit) == LastOf(z, limit)
  {
    var all := x + z;
    assert all[|all| - limit..] == z[|z| - limit..];
  }

  lemma DistinctParts(a: seq<string>, b: seq<string>)
    requires NoRepeats(a + b)
    ensures NoRepeats(a) && NoRepeats(b) && forall x :: x in a ==> x !in b
  {
    var all := a + b;
    forall i, j | 0 <= i < j < |a|
      ensures a[i] != a[j]
    {
      assert all[i] != all[j];
    }
    forall i, j | 0 <= i < j < |b|
      ensures b[i] != b[j]
    {
      assert all[|a| + i] != all[|a| + j];
    }
    forall i | 0 <= i < |a|
      ensures a[i] !in b
    {
      forall j | 0 <= j < |b|
        ensures b[j] != a[i]
      {
        assert all[i] != all[|a| + j];
      }
    }
  }

  /** Forgetting old names first makes no difference to what is kept. */
  lemma TouchedOfLast(names: seq<string>, name: string, limit: nat)
    requires NoRepeats(names) && limit >= 1
    ensures Touched(LastOf(names, limit), name, limit) == Touched(names, name, limit)
  {
    hide Without, NoRepeats;
    if |names| > limit {
      var a, b := names[..|names| - limit], names[|names| - limit..];
      assert names == a + b;
      DistinctParts(a, b);
      WithoutConcat(a, b, name);
      WithoutSpec(b, name);
      var x, z := Without(a, name), Without(b, name) + [name];
      assert Without(names, name) + [name] == x + z;
      assert |z| >= limit;
      LastOfSuffix(x, z, limit);
    }
  }

  /** Dropping the oldest names keeps the order. */
  lemma LastInOrder(names: seq<string>, uses: seq<string>, limit: nat)
    requires InUseOrder(names, uses)
    ensures InUseOrder(LastOf(names, limit), uses)
  {
    hide LastUseOf;
    var kept := LastOf(names, limit);
    var cut := |names| - |kept|;
    assert forall i :: 0 <= i < |kept| ==> kept[i] == names[cut + i];
  }

  // ---------------------------------------------------------------- the cache

  function Names(entries: seq<Entry>): (r: seq<string>)
    ensures |r| == |entries|
  {
    seq(|entries|, i requires 0 <= i < |entries| => entries[i].organization)
  }

  /** `Map.delete` on the insertion-ordered entries. */
  function Removed(entries: seq<Entry>, organization: string): seq<Entry> {
    if entries == [] then []
    else
      var n := |entries| - 1;
      Removed(entries[..n], organization) + (if entries[n].organization == organization then [] else [entries[n]])
  }

  lemma {:induction false} RemovedSpec(entries: seq<Entry>, organization: string)
    ensures Names(Removed(entries, organization)) == Without(Names(entries), organization)
    ensures forall e :: e in Removed(entries, organization) <==> e in entries && e.organization != organization
  {
    if entries != [] {
      var n := |entries| - 1;
      RemovedSpec(entries[..n], organization);
      assert entries == entries[..n] + [entries[n]];
      assert Names(entries)[..n] == Names(entries[..n]);
    }
  }

  /** Each entry's handler was built for its organization and provisioning, one at a time. */
  ghost predicate Built(entries: seq<Entry>, serial: nat) {
    && (forall e :: e in entries ==>
        e.handler.organization == e.organization && e.handler.provisioned == e.provisioned && e.handler.serial < serial)
  }

  lemma RemovedKeeps(entries: seq<Entry>, organization: string, serial: nat)
    requires NoRepeats(Names(entries)) && Built(entries, serial)
    ensures NoRepeats(Names(Removed(entries, organization))) && Built(Removed(entries, organization), serial)
    ensures |Removed(entries, organization)| <= |entries|
    ensures organization in Names(entries) ==> |Removed(entries, organization)| == |entries| - 1
    ensures organization !in Names(Removed(entries, organization))
  {
    RemovedSpec(entries, organization);
    WithoutSpec(Names(entries), organization);
  }

  function EntryKey(e: Entry): string { e.organization }

  function Find(entries: seq<Entry>, organization: string): (i: int)
    ensures -1 <= i < |entries|
    ensures i >= 0 ==> entries[i].organization == organization
    ensures i < 0 ==> forall k :: 0 <= k < |entries| ==> entries[k].organization != organization
  {
    var i := IndexOf(entries, EntryKey, organization);
    assert i < 0 ==> forall k :: 0 <= k < |entries| ==> EntryKey(entries[k]) != organization;
    i
  }

  datatype Cache = Cache(entries: seq<Entry>, serial: nat)

  /** Distinct keys, within the bound, every handler built for its key. */
  ghost predicate ValidCache(c: Cache, limit: nat) {
    limit >= 1 && NoRepeats(Names(c.entries)) && |c.entries| <= limit && Built(c.entries, c.serial)
  }

  ghost predicate Fits(e: Entry, organization: string, provisioned: bool) {
    e.organization == organization && e.provisioned == provisioned
  }

  /** What a request gets and leaves: the fitting cached handler, or a new one, or none when the factory throws. */
  ghost predicate Served(before: Cache, after: Cache, limit: nat, organization: string, provisioned: bool, h: Option<Handler>) {
    && (forall e :: e in after.entries && e.organization != organization ==> e in before.entries)
    && match h
      case None =>
        && Names(after.entries) == Without(Names(before.entries), organization) && after.serial == before.serial
        && !exists e :: e in before.entries && Fits(e, organization, provisioned)
      case Some(handler) =>
        && handler.organization == organization && handler.provisioned == provisioned
        && Entry(organization, provisioned, handler) in after.entries
        && Names(after.entries) == Touched(Names(before.entries), organization, limit)
        && if exists e :: e in before.entries && Fits(e, organization, provisioned)
           then Entry(organization, provisioned, handler) in before.entries && after.serial == before.serial
           else handler.serial == before.serial && after.serial == before.serial + 1
  }

  /** A failed build takes its own entry away, and no other. */
  ghost predicate Rejected(before: seq<Entry>, after: seq<Entry>, organization: string, failed: Handler) {
    after == if exists e :: e in before && e.organization == organization && e.handler == failed
             then Removed(before, organization) else before
  }

  ghost predicate Invalidated(before: seq<Entry>, after: seq<Entry>, organization: string) {
    && Names(after) == Without(Names(before), organization)
    && forall e :: e in after <==> e in before && e.organization != organization
  }

  class TenantHandlers {
    const limit: nat
    var entries: seq<Entry>
    var serial: nat

    constructor (limit: nat)
      requires limit >= 1
      ensures this.limit == limit && entries == [] && Valid()
    {
      this.limit, entries, serial := limit, [], 0;
    }

    ghost predicate Valid()
      reads this
    {
      ValidCache(Cache(entries, serial), limit)
    }

    /**
     `handlerFor`: the handler returned was built for exactly this organization and provisioning; it
     is the cached one when that fits, and a new one otherwise. The key moves to the end and the
     oldest fall out. A factory that throws caches nothing, and an entry it was to replace is gone.
     */
    method HandlerFor(organization: string, provisioned: bool, throws: bool) returns (h: Option<Handler>)
      requires Valid()
      modifies this
      ensures Valid()
      ensures Served(Cache(old(entries), old(serial)), Cache(entries, serial), limit, organization, provisioned, h)
      ensures h.None? ==> throws
    {
      hide Removed, Without, LastOf, Served, NoRepeats, Built, Names;
      ghost var before := Cache(entries, serial);
      RemovedKeeps(entries, organization, serial);
      var i := Find(entries, organization);
      if i >= 0 && entries[i].provisioned == provisioned {
        var existing := entries[i];
        ServedFromCache(before, limit, i, provisioned);
        entries := Removed(entries, organization) + [existing];
        return Some(existing.handler);
      }
      entries := Removed(entries, organization);
      if throws {
        ServedNothing(before, limit, i, organization, provisioned);
        return None;
      }
      var built := Handler(serial, organization, provisioned);
      serial := serial + 1;
      AppendKeeps(entries, serial, Entry(organization, provisioned, built));
      entries := entries + [Entry(organization, provisioned, built)];
      ghost var full := entries;
      Evict();
      assert full == Removed(before.entries, organization) + [Entry(organization, provisioned, built)];
      assert 0 < |entries| <= |full| && Names(entries) == LastOf(Names(full), limit);
      ServedNew(before, limit, i, organization, provisioned, entries);
      return Some(built);
    }

    /** The eviction loop: the first keys go until the bound holds. */
    method Evict()
      requires limit >= 1 && NoRepeats(Names(entries)) && Built(entries, serial)
      modifies this`entries
      ensures Valid()
      ensures Names(entries) == LastOf(Names(old(entries)), limit)
      ensures |entries| <= |old(entries)| && entries == old(entries)[|old(entries)| - |entries|..]
      ensures old(entries) != [] ==> entries != []
    {
      hide NoRepeats, Built, Names, LastOf;
      while |entries| > limit
        invariant |entries| <= |old(entries)| && entries == old(entries)[|old(entries)| - |entries|..]
        invariant |entries| >= limit || entries == old(entries)
        decreases |entries|
      {
        entries := entries[1..];
      }
      SuffixKeeps(old(entries), entries, serial, limit);
    }

    /** The rejection handler of a build: its entry goes, but never a later handler for the same key. */
    method BuildFailed(organization: string, failed: Handler)
      requires Valid()
      modifies this`entries
      ensures Valid()
      ensures Rejected(old(entries), entries, organization, failed)
    {
      RemovedKeeps(entries, organization, serial);
      var i := Find(entries, organization);
      if i >= 0 && entries[i].handler == failed {
        assert entries[i] in entries;
        entries := Removed(entries, organization);
      } else if i >= 0 {
        UniqueEntry(entries, i);
      }
    }

    method InvalidateTenant(organization: string)
      requires Valid()
      modifies this`entries
      ensures Valid() && Invalidated(old(entries), entries, organization)
    {
      RemovedSpec(entries, organization);
      RemovedKeeps(entries, organization, serial);
      entries := Removed(entries, organization);
    }

    method ClearTenants()
      requires Valid()
      modifies this`entries
      ensures Valid() && entries == []
    {
      entries := [];
    }
  }

  lemma UniqueEntry(entries: seq<Entry>, i: nat)
    requires NoRepeats(Names(entries)) && i < |entries|
    ensures forall e :: e in entries && e.organization == entries[i].organization ==> e == entries[i]
  {
    forall k | 0 <= k < |entries| && entries[k].organization == entries[i].organization
      ensures k == i
    {
      assert Names(entries)[k] == Names(entries)[i];
    }
  }

  lemma SuffixKeeps(was: seq<Entry>, entries: seq<Entry>, serial: nat, limit: nat)
    requires NoRepeats(Names(was)) && Built(was, serial)
    requires |entries| <= |was| && entries == was[|was| - |entries|..]
    requires |entries| == if |was| <= limit then |was| else limit
    ensures NoRepeats(Names(entries)) && Built(entries, serial) && Names(entries) == LastOf(Names(was), limit)
  {
    var cut := |was| - |entries|;
    assert Names(entries) == Names(was)[cut..];
    assert forall k :: 0 <= k < |entries| ==> entries[k] == was[cut + k] && was[cut + k] in was;
    forall i, j | 0 <= i < j < |entries|
      ensures Names(entries)[i] != Names(entries)[j]
    {
      assert Names(was)[cut + i] != Names(was)[cut + j];
    }
  }

  lemma AppendKeeps(entries: seq<Entry>, serial: nat, e: Entry)
    requires NoRepeats(Names(entries)) && serial >= 1 && Built(entries, serial - 1) && e.organization !in Names(entries)
    requires e.handler == Handler(serial - 1, e.organization, e.provisioned)
    ensures NoRepeats(Names(entries + [e])) && Built(entries + [e], serial)
  {
    AppendedNames(entries, e);
    assert forall i :: 0 <= i < |Names(entries)| ==> Names(entries)[i] in Names(entries);
  }

  /** A cached handler that fits moves to the end. */
  lemma ServedFromCache(c: Cache, limit: nat, i: nat, provisioned: bool)
    requires ValidCache(c, limit) && i < |c.entries| && c.entries[i].provisioned == provisioned
    ensures
      var e := c.entries[i];
      var after := Cache(Removed(c.entries, e.organization) + [e], c.serial);
      ValidCache(after, limit) && Served(c, after, limit, e.organization, provisioned, Some(e.handler))
  {
    hide Removed, Without, LastOf;
    var e := c.entries[i];
    var rest := Removed(c.entries, e.organization);
    RemovedSpec(c.entries, e.organization);
    RemovedKeeps(c.entries, e.organization, c.serial);
    assert e in c.entries && Names(c.entries)[i] == e.organization && e.organization in Names(c.entries);
    UniqueEntry(c.entries, i);
    AppendedNames(rest, e);
    KeptInFull(Without(Names(c.entries), e.organization) + [e.organization], limit);
    assert Fits(e, e.organization, provisioned);
    assert Entry(e.organization, provisioned, e.handler) == e;
    assert forall k :: 0 <= k < |Names(rest)| ==> Names(rest)[k] in Names(rest);
  }

  lemma ServedNothing(c: Cache, limit: nat, i: int, organization: string, provisioned: bool)
    requires ValidCache(c, limit) && i == Find(c.entries, organization) && (i < 0 || c.entries[i].provisioned != provisioned)
    ensures Served(c, Cache(Removed(c.entries, organization), c.serial), limit, organization, provisioned, None)
  {
    hide Removed, Without;
    RemovedSpec(c.entries, organization);
    NoFittingEntry(c.entries, i, organization, provisioned);
  }

  /** A new handler goes to the end and the oldest fall out. */
  lemma ServedNew(c: Cache, limit: nat, i: int, organization: string, provisioned: bool, after: seq<Entry>)
    requires ValidCache(c, limit) && i == Find(c.entries, organization) && (i < 0 || c.entries[i].provisioned != provisioned)
    requires
      var full := Removed(c.entries, organization) + [Entry(organization, provisioned, Handler(c.serial, organization, provisioned))];
      && 0 < |after| <= |full| && after == full[|full| - |after|..]
      && Names(after) == LastOf(Names(full), limit)
    ensures Served(c, Cache(after, c.serial + 1), limit, organization, provisioned, Some(Handler(c.serial, organization, provisioned)))
  {
    hide Removed, Without, LastOf;
    var e := Entry(organization, provisioned, Handler(c.serial, organization, provisioned));
    var full := Removed(c.entries, organization) + [e];
    RemovedSpec(c.entries, organization);
    AppendedNames(Removed(c.entries, organization), e);
    NoFittingEntry(c.entries, i, organization, provisioned);
    assert after[|after| - 1] == e;
    forall x | x in after && x.organization != organization
      ensures x in c.entries
    {
      var k :| 0 <= k < |after| && after[k] == x;
      assert full[|full| - |after| + k] == x;
    }
  }

  lemma AppendedNames(entries: seq<Entry>, e: Entry)
    ensures Names(entries + [e]) == Names(entries) + [e.organization]
  {
  }

  lemma KeptInFull(names: seq<string>, limit: nat)
    ensures |names| <= limit ==> LastOf(names, limit) == names
  {
  }

  lemma NoFittingEntry(entries: seq<Entry>, i: int, organization: string, provisioned: bool)
    requires NoRepeats(Names(entries)) && i == Find(entries, organization)
    requires i < 0 || entries[i].provisioned != provisioned
    ensures !exists e :: e in entries && Fits(e, organization, provisioned)
  {
    if i >= 0 { UniqueEntry(entries, i); }
  }
}
