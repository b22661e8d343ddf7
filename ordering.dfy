/**
 * `OrderByDescending` over API-version descriptions, as both core files use
 * it: by `ApiVersion` when documents are generated, by `GroupName` when the
 * documentation UIs are listed. LINQ's `OrderByDescending` is a stable sort;
 * it is modelled here as a stable insertion sort, proved to return a
 * permutation of its input, ordered newest-first, with equal keys kept in
 * input order.
 */
module Ordering {
  import opened Versioning

  /** The key a list of descriptions is ordered by. */
  datatype SortKey = ByApiVersion | ByGroupName

  /** `a` is the same version as `b` or a later one. */
  predicate VersionAtLeast(a: ApiVersion, b: ApiVersion) {
    a.major > b.major || (a.major == b.major && a.minor >= b.minor)
  }

  /** Ordinal string order: `a` sorts at or after `b`, comparing character codes. */
  predicate OrdinalAtLeast(a: string, b: string)
    decreases |b|
  {
    if b == [] then true
    else if a == [] then false
    else if a[0] != b[0] then a[0] > b[0]
    else OrdinalAtLeast(a[1..], b[1..])
  }

  /** `a` comes no later than `b` in a descending ordering by `key`. */
  predicate AtLeast(a: ApiVersionDescription, b: ApiVersionDescription, key: SortKey) {
    match key
    case ByApiVersion => VersionAtLeast(a.apiVersion, b.apiVersion)
    case ByGroupName => OrdinalAtLeast(a.groupName, b.groupName)
  }

  /** `a` and `b` have equal keys. */
  predicate SameKey(a: ApiVersionDescription, b: ApiVersionDescription, key: SortKey) {
    AtLeast(a, b, key) && AtLeast(b, a, key)
  }

  lemma {:induction false} OrdinalTotal(a: string, b: string)
    ensures OrdinalAtLeast(a, b) || OrdinalAtLeast(b, a)
    decreases |b|
  {
    if a != [] && b != [] && a[0] == b[0] {
      OrdinalTotal(a[1..], b[1..]);
    }
  }

  lemma {:induction false} OrdinalTransitive(a: string, b: string, c: string)
    requires OrdinalAtLeast(a, b) && OrdinalAtLeast(b, c)
    ensures OrdinalAtLeast(a, c)
    decreases |c|
  {
    if c != [] && b != [] && a != [] && a[0] == b[0] && b[0] == c[0] {
      OrdinalTransitive(a[1..], b[1..], c[1..]);
    }
  }

  /** Both keys are equal exactly when the group names are equal. */
  lemma {:induction false} OrdinalAntisymmetric(a: string, b: string)
    requires OrdinalAtLeast(a, b) && OrdinalAtLeast(b, a)
    ensures a == b
    decreases |b|
  {
    if a != [] && b != [] {
      OrdinalAntisymmetric(a[1..], b[1..]);
    }
  }

  /** Any two descriptions are comparable under either key. */
  lemma AtLeastTotal(a: ApiVersionDescription, b: ApiVersionDescription, key: SortKey)
    ensures AtLeast(a, b, key) || AtLeast(b, a, key)
  {
    if key == ByGroupName {
      OrdinalTotal(a.groupName, b.groupName);
    }
  }

  lemma AtLeastTransitive(a: ApiVersionDescription, b: ApiVersionDescription, c: ApiVersionDescription, key: SortKey)
    requires AtLeast(a, b, key) && AtLeast(b, c, key)
    ensures AtLeast(a, c, key)
  {
    if key == ByGroupName {
      OrdinalTransitive(a.groupName, b.groupName, c.groupName);
    }
  }

  /** Every description comes no later than every description after it. */
  ghost predicate SortedDescending(s: seq<ApiVersionDescription>, key: SortKey) {
    forall i, j :: 0 <= i < j < |s| ==> AtLeast(s[i], s[j], key)
  }

  /** Places `d` before the first element whose key is not greater than its own. */
  function Insert(d: ApiVersionDescription, s: seq<ApiVersionDescription>, key: SortKey): (r: seq<ApiVersionDescription>)
    ensures |r| == |s| + 1
    ensures multiset(r) == multiset(s) + multiset{d}
  {
    if s == [] || AtLeast(d, s[0], key) then [d] + s
    else
      assert s == [s[0]] + s[1..];
      [s[0]] + Insert(d, s[1..], key)
  }

  /** LINQ `OrderByDescending(key)`: a stable sort, greatest key first. */
  function OrderByDescending(s: seq<ApiVersionDescription>, key: SortKey): (r: seq<ApiVersionDescription>)
    ensures |r| == |s|
    ensures multiset(r) == multiset(s)
  {
    if s == [] then []
    else
      assert s == [s[0]] + s[1..];
      Insert(s[0], OrderByDescending(s[1..], key), key)
  }

  lemma {:induction false} InsertSorted(d: ApiVersionDescription, s: seq<ApiVersionDescription>, key: SortKey)
    requires SortedDescending(s, key)
    ensures SortedDescending(Insert(d, s, key), key)
  {
    if s == [] || AtLeast(d, s[0], key) {
      var r := [d] + s;
      forall i, j | 0 <= i < j < |r| ensures AtLeast(r[i], r[j], key) {
        if i == 0 && j > 1 {
          AtLeastTransitive(d, s[0], s[j - 1], key);
        }
      }
    } else {
      var t := s[1..];
      InsertSorted(d, t, key);
      var r := [s[0]] + Insert(d, t, key);
      AtLeastTotal(d, s[0], key);
      forall i, j | 0 <= i < j < |r| ensures AtLeast(r[i], r[j], key) {
        if i == 0 {
          var x := r[j];
          assert x in multiset(Insert(d, t, key));
          assert x == d || x in multiset(t);
          if x != d {
            var k :| 0 <= k < |t| && t[k] == x;
            assert s[k + 1] == x;
          }
        }
      }
    }
  }

  /** The order `OrderByDescending` produces is greatest key first. */
  lemma {:induction false} OrderByDescendingSorted(s: seq<ApiVersionDescription>, key: SortKey)
    ensures SortedDescending(OrderByDescending(s, key), key)
  {
    if s != [] {
      OrderByDescendingSorted(s[1..], key);
      InsertSorted(s[0], OrderByDescending(s[1..], key), key);
    }
  }

  /** The descriptions of `s` whose key equals that of `x`, in their order in `s`. */
  function WithKeyOf(s: seq<ApiVersionDescription>, x: ApiVersionDescription, key: SortKey): seq<ApiVersionDescription>
  {
    if s == [] then []
    else (if SameKey(s[0], x, key) then [s[0]] else []) + WithKeyOf(s[1..], x, key)
  }

  lemma {:induction false} InsertWithKeyOf(d: ApiVersionDescription, s: seq<ApiVersionDescription>, x: ApiVersionDescription, key: SortKey)
    ensures WithKeyOf(Insert(d, s, key), x, key)
         == (if SameKey(d, x, key) then [d] else []) + WithKeyOf(s, x, key)
  {
    if s == [] || AtLeast(d, s[0], key) {
      assert ([d] + s)[1..] == s;
    } else {
      InsertWithKeyOf(d, s[1..], x, key);
      assert ([s[0]] + Insert(d, s[1..], key))[1..] == Insert(d, s[1..], key);
      if SameKey(d, x, key) && SameKey(s[0], x, key) {
        AtLeastTransitive(d, x, s[0], key);
        assert false;
      }
    }
  }

  /** Stability: descriptions with equal keys keep their input order. */
  lemma {:induction false} OrderByDescendingStable(s: seq<ApiVersionDescription>, x: ApiVersionDescription, key: SortKey)
    ensures WithKeyOf(OrderByDescending(s, key), x, key) == WithKeyOf(s, x, key)
  {
    if s != [] {
      OrderByDescendingStable(s[1..], x, key);
      InsertWithKeyOf(s[0], OrderByDescending(s[1..], key), x, key);
    }
  }
}
