/**
 Byte-wise text order and the sorted collections built on it.

 Rust orders `String` values by their UTF-8 bytes, which is the order of their code points, so
 one lexicographic order serves `sort_by`, `BTreeSet` and `BTreeMap` alike.
 */
module Order {

  /** Lexicographic order on text. */
  predicate Leq(a: string, b: string) {
    |a| == 0 || (|b| > 0 && (a[0] < b[0] || (a[0] == b[0] && Leq(a[1..], b[1..]))))
  }

  predicate Less(a: string, b: string) {
    a != b && Leq(a, b)
  }

  lemma {:induction false} LeqTotal(a: string, b: string)
    ensures Leq(a, b) || Leq(b, a)
  {
    if |a| > 0 && |b| > 0 && a[0] == b[0] {
      LeqTotal(a[1..], b[1..]);
    }
  }

  lemma {:induction false} LeqAntisymmetric(a: string, b: string)
    requires Leq(a, b) && Leq(b, a)
    ensures a == b
  {
    if |a| > 0 {
      LeqAntisymmetric(a[1..], b[1..]);
      assert a == [a[0]] + a[1..] && b == [b[0]] + b[1..];
    }
  }

  lemma {:induction false} LeqTransitive(a: string, b: string, c: string)
    requires Leq(a, b) && Leq(b, c)
    ensures Leq(a, c)
  {
    if |a| > 0 && a[0] == b[0] == c[0] {
      LeqTransitive(a[1..], b[1..], c[1..]);
    }
  }

  lemma LessTransitive(a: string, b: string, c: string)
    requires Less(a, b) && Less(b, c)
    ensures Less(a, c)
  {
    LeqTransitive(a, b, c);
    if a == c {
      LeqAntisymmetric(a, b);
    }
  }

  lemma LessAsymmetric(a: string, b: string)
    requires Less(a, b)
    ensures !Less(b, a)
  {
    if Leq(b, a) {
      LeqAntisymmetric(a, b);
    }
  }

  // ---------------------------------------------------------------- sorting by a text key

  ghost predicate DistinctKeys<T(!new)>(s: seq<T>, key: T -> string) {
    forall i, j :: 0 <= i < j < |s| ==> key(s[i]) != key(s[j])
  }

  ghost predicate StrictlySorted<T(!new)>(s: seq<T>, key: T -> string) {
    forall i, j :: 0 <= i < j < |s| ==> Less(key(s[i]), key(s[j]))
  }

  /** Stable insertion: `x` goes before every element whose key is not smaller. */
  function Insert<T>(x: T, s: seq<T>, key: T -> string): (r: seq<T>)
    ensures |r| == |s| + 1
  {
    if s == [] then [x]
    else if Leq(key(x), key(s[0])) then [x] + s
    else [s[0]] + Insert(x, s[1..], key)
  }

  /** The stable sort of `slice::sort_by` with a text key. */
  function SortBy<T>(s: seq<T>, key: T -> string): (r: seq<T>)
    ensures |r| == |s|
  {
    if s == [] then [] else Insert(s[0], SortBy(s[1..], key), key)
  }

  lemma {:induction false} InsertMembers<T>(x: T, s: seq<T>, key: T -> string)
    ensures forall y :: y in Insert(x, s, key) <==> y == x || y in s
  {
    if s != [] && !Leq(key(x), key(s[0])) {
      InsertMembers(x, s[1..], key);
      assert s == [s[0]] + s[1..];
    }
  }

  lemma {:induction false} InsertSorted<T(!new)>(x: T, s: seq<T>, key: T -> string)
    requires StrictlySorted(s, key)
    requires forall y :: y in s ==> key(y) != key(x)
    ensures StrictlySorted(Insert(x, s, key), key)
  {
    var r := Insert(x, s, key);
    if s == [] {
    } else if Leq(key(x), key(s[0])) {
      forall i, j | 0 <= i < j < |r|
        ensures Less(key(r[i]), key(r[j]))
      {
        if i == 0 && j > 1 {
          LessTransitive(key(x), key(s[0]), key(s[j - 1]));
        }
      }
    } else {
      LeqTotal(key(x), key(s[0]));
      InsertSorted(x, s[1..], key);
      InsertMembers(x, s[1..], key);
      var t := Insert(x, s[1..], key);
      forall i, j | 0 <= i < j < |r|
        ensures Less(key(r[i]), key(r[j]))
      {
        if i == 0 {
          assert r[j] == t[j - 1] && t[j - 1] in t;
        }
      }
    }
  }

  lemma {:induction false} SortByMembers<T>(s: seq<T>, key: T -> string)
    ensures forall y :: y in SortBy(s, key) <==> y in s
  {
    if s != [] {
      SortByMembers(s[1..], key);
      InsertMembers(s[0], SortBy(s[1..], key), key);
      assert s == [s[0]] + s[1..];
    }
  }

  lemma {:induction false} SortByStrict<T(!new)>(s: seq<T>, key: T -> string)
    requires DistinctKeys(s, key)
    ensures StrictlySorted(SortBy(s, key), key)
  {
    if s != [] {
      SortByStrict(s[1..], key);
      SortByMembers(s[1..], key);
      InsertSorted(s[0], SortBy(s[1..], key), key);
    }
  }

  /** Strictly sorted sequences are determined by their members. */
  lemma {:induction false} StrictlySortedUnique<T(!new)>(a: seq<T>, b: seq<T>, key: T -> string)
    requires StrictlySorted(a, key) && StrictlySorted(b, key)
    requires forall y :: y in a <==> y in b
    ensures a == b
  {
    assert b != [] ==> b[0] in a;
    if a != [] {
      assert a[0] in b;
      var j :| 0 <= j < |b| && b[j] == a[0];
      var i :| 0 <= i < |a| && a[i] == b[0];
      if j > 0 {
        assert i > 0;
        LessAsymmetric(key(b[0]), key(b[j]));
      }
      assert a[0] == b[0];
      forall y
        ensures y in a[1..] <==> y in b[1..]
      {
        if y in a[1..] {
          var k :| 1 <= k < |a| && a[k] == y;
          assert y in b && y != b[0];
        }
        if y in b[1..] {
          var k :| 1 <= k < |b| && b[k] == y;
          assert y in a && y != a[0];
        }
      }
      StrictlySortedUnique(a[1..], b[1..], key);
      assert a == [a[0]] + a[1..] && b == [b[0]] + b[1..];
    }
  }

  /** Sorting by distinct keys forgets the input order. */
  lemma SortByIgnoresOrder<T(!new)>(a: seq<T>, b: seq<T>, key: T -> string)
    requires DistinctKeys(a, key) && DistinctKeys(b, key)
    requires forall y :: y in a <==> y in b
    ensures SortBy(a, key) == SortBy(b, key)
  {
    SortByStrict(a, key);
    SortByStrict(b, key);
    SortByMembers(a, key);
    SortByMembers(b, key);
    StrictlySortedUnique(SortBy(a, key), SortBy(b, key), key);
  }

  lemma StrictlySortedDistinct<T(!new)>(s: seq<T>, key: T -> string)
    requires StrictlySorted(s, key)
    ensures DistinctKeys(s, key)
  {
  }

  /** The last position with a given key, -1 when there is none. */
  function IndexOf<T>(s: seq<T>, key: T -> string, k: string): (i: int)
    ensures -1 <= i < |s|
    ensures i >= 0 ==> key(s[i]) == k
    ensures i < 0 ==> forall j :: 0 <= j < |s| ==> key(s[j]) != k
  {
    if s == [] then -1
    else if key(s[|s| - 1]) == k then |s| - 1
    else IndexOf(s[..|s| - 1], key, k)
  }

  // ---------------------------------------------------------------- sorting with repeated keys

  ghost predicate Ascending<T(!new)>(s: seq<T>, key: T -> string) {
    forall i :: 0 < i < |s| ==> Leq(key(s[i - 1]), key(s[i]))
  }

  lemma {:induction false} InsertAscending<T(!new)>(x: T, s: seq<T>, key: T -> string)
    requires Ascending(s, key)
    ensures Ascending(Insert(x, s, key), key)
    ensures Insert(x, s, key)[0] == x || (s != [] && Insert(x, s, key)[0] == s[0])
  {
    if s != [] && !Leq(key(x), key(s[0])) {
      LeqTotal(key(x), key(s[0]));
      InsertAscending(x, s[1..], key);
    }
  }

  lemma {:induction false} SortByAscending<T(!new)>(s: seq<T>, key: T -> string)
    ensures Ascending(SortBy(s, key), key)
  {
    if s != [] {
      SortByAscending(s[1..], key);
      InsertAscending(s[0], SortBy(s[1..], key), key);
    }
  }

  lemma {:induction false} SortByFixpoint<T(!new)>(s: seq<T>, key: T -> string)
    requires Ascending(s, key)
    ensures SortBy(s, key) == s
  {
    if s != [] {
      SortByFixpoint(s[1..], key);
      assert |s| > 1 ==> s[1..][0] == s[1];
      assert s == [s[0]] + s[1..];
    }
  }

  /** Sorting a sorted sequence changes nothing. */
  lemma SortByIdempotent<T(!new)>(s: seq<T>, key: T -> string)
    ensures SortBy(SortBy(s, key), key) == SortBy(s, key)
  {
    SortByAscending(s, key);
    SortByFixpoint(SortBy(s, key), key);
  }

  // ---------------------------------------------------------------- text lists

  ghost predicate NoRepeats(s: seq<string>) {
    forall i, j :: 0 <= i < j < |s| ==> s[i] != s[j]
  }

  /** `Vec::retain` with one text excluded. */
  function Without(s: seq<string>, x: string): seq<string> {
    if s == [] then []
    else
      var n := |s| - 1;
      Without(s[..n], x) + (if s[n] == x then [] else [s[n]])
  }

  lemma {:induction false} WithoutSpec(s: seq<string>, x: string)
    ensures forall y :: y in Without(s, x) <==> y in s && y != x
    ensures |Without(s, x)| <= |s|
    ensures x !in s ==> Without(s, x) == s
    ensures NoRepeats(s) ==> NoRepeats(Without(s, x))
    ensures NoRepeats(s) && x in s ==> |Without(s, x)| == |s| - 1
  {
    if s != [] {
      var n := |s| - 1;
      var front, last := s[..n], s[n];
      WithoutSpec(front, x);
      assert s == front + [last];
      if NoRepeats(s) {
        hide Without;
        assert NoRepeats(front) && last !in front;
        var w := Without(front, x);
        assert last !in w;
        assert NoRepeats(w + [last]);
      }
    }
  }

  lemma {:induction false} WithoutTwice(s: seq<string>, x: string)
    ensures Without(Without(s, x), x) == Without(s, x)
  {
    WithoutSpec(s, x);
    WithoutSpec(Without(s, x), x);
  }

  // ---------------------------------------------------------------- text sets

  function Id(s: string): string { s }

  /** `BTreeSet::insert` on the ordered list of members. */
  function InsertUnique(x: string, s: seq<string>): seq<string> {
    if s == [] then [x]
    else if x == s[0] then s
    else if Leq(x, s[0]) then [x] + s
    else [s[0]] + InsertUnique(x, s[1..])
  }

  /** Collecting into a `BTreeSet` and listing it back. */
  function UniqueSorted(s: seq<string>): seq<string> {
    if s == [] then [] else InsertUnique(s[0], UniqueSorted(s[1..]))
  }

  lemma {:induction false} InsertUniqueMembers(x: string, s: seq<string>)
    ensures forall y :: y in InsertUnique(x, s) <==> y == x || y in s
  {
    if s != [] && x != s[0] && !Leq(x, s[0]) {
      InsertUniqueMembers(x, s[1..]);
      assert s == [s[0]] + s[1..];
    }
  }

  lemma {:induction false} InsertUniqueSorted(x: string, s: seq<string>)
    requires StrictlySorted(s, Id)
    ensures StrictlySorted(InsertUnique(x, s), Id)
  {
    if s == [] || x == s[0] {
    } else if Leq(x, s[0]) {
      forall j | 0 < j < |s|
        ensures Less(x, s[j])
      {
        assert Less(Id(s[0]), Id(s[j]));
        LessTransitive(x, s[0], s[j]);
      }
    } else {
      LeqTotal(x, s[0]);
      InsertUniqueSorted(x, s[1..]);
      InsertUniqueMembers(x, s[1..]);
      var t := InsertUnique(x, s[1..]);
      forall j | 0 <= j < |t|
        ensures Less(s[0], t[j])
      {
        assert t[j] in t;
        if t[j] != x {
          var k :| 1 <= k < |s| && s[k] == t[j];
          assert Less(Id(s[0]), Id(s[k]));
        }
      }
    }
  }

  /** The list form of a text set: same members, strictly increasing. */
  lemma {:induction false} UniqueSortedSpec(s: seq<string>)
    ensures StrictlySorted(UniqueSorted(s), Id)
    ensures forall y :: y in UniqueSorted(s) <==> y in s
  {
    if s != [] {
      UniqueSortedSpec(s[1..]);
      InsertUniqueSorted(s[0], UniqueSorted(s[1..]));
      InsertUniqueMembers(s[0], UniqueSorted(s[1..]));
      assert s == [s[0]] + s[1..];
    }
  }

  lemma UniqueSortedFixpoint(s: seq<string>)
    requires StrictlySorted(s, Id)
    ensures UniqueSorted(s) == s
  {
    UniqueSortedSpec(s);
    StrictlySortedUnique(UniqueSorted(s), s, Id);
  }

  ghost predicate IsMinimum(m: string, s: set<string>) {
    m in s && forall y :: y in s ==> Leq(m, y)
  }

  lemma {:induction false} MinimumExists(s: set<string>) returns (m: string)
    requires s != {}
    ensures IsMinimum(m, s)
  {
    var x :| x in s;
    LeqTotal(x, x);
    m := x;
    if s != {x} {
      var rest := s - {x};
      assert rest != {};
      var n := MinimumExists(rest);
      LeqTotal(x, n);
      if Leq(x, n) {
        forall y | y in s
          ensures Leq(x, y)
        {
          if y != x { LeqTransitive(x, n, y); }
        }
      } else {
        m := n;
      }
    }
  }

  function Minimum(s: set<string>): (m: string)
    requires s != {}
    ensures IsMinimum(m, s)
  {
    assert exists m :: IsMinimum(m, s) by {
      var m := MinimumExists(s);
    }
    assert forall a, b :: a in s && b in s && Leq(a, b) && Leq(b, a) ==> a == b by {
      forall a, b | a in s && b in s && Leq(a, b) && Leq(b, a)
        ensures a == b
      {
        LeqAntisymmetric(a, b);
      }
    }
    var m :| m in s && forall y :: y in s ==> Leq(m, y);
    m
  }

  /** The members of a text set in increasing order. */
  function Listed(s: set<string>): seq<string> {
    if s == {} then []
    else
      var m := Minimum(s);
      [m] + Listed(s - {m})
  }

  lemma {:induction false} ListedSpec(s: set<string>)
    ensures StrictlySorted(Listed(s), Id)
    ensures forall y :: y in Listed(s) <==> y in s
  {
    if s != {} {
      var m := Minimum(s);
      ListedSpec(s - {m});
      var t := Listed(s - {m});
      forall j | 0 <= j < |t|
        ensures Less(m, t[j])
      {
        assert t[j] in t;
      }
    }
  }
}
