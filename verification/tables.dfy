/** Data-frame mechanics the fitting pipeline relies on: `unique` (distinct
    values in first-appearance order), removal of one value, and `groupby`
    (groups visited in sorted key order, members kept in their original
    order). Sorting is by an explicit strict total order. */
module Tables {

  datatype Option<+T> = None | Some(value: T)

  /** Index of the first occurrence of `x` in `s`. */
  function FirstIndex<T(==)>(s: seq<T>, x: T): (k: nat)
    requires x in s
    ensures k < |s| && s[k] == x
    ensures forall i :: 0 <= i < k ==> s[i] != x
  {
    if s[0] == x then 0 else 1 + FirstIndex(s[1..], x)
  }

  predicate NoDuplicates<T(==)>(s: seq<T>) {
    forall i, j :: 0 <= i < j < |s| ==> s[i] != s[j]
  }

  /** `Series.unique()`: the distinct values of `s` in order of first appearance. */
  function Unique<T(==,!new)>(s: seq<T>): (r: seq<T>)
    ensures NoDuplicates(r)
    ensures forall x :: x in r <==> x in s
    ensures |r| <= |s|
    ensures |s| > 0 ==> |r| > 0 && r[0] == s[0]
  {
    if s == [] then []
    else
      var u := Unique(s[..|s| - 1]);
      if s[|s| - 1] in u then u else u + [s[|s| - 1]]
  }

  /** The values `Unique` keeps are listed in the order of their first
      occurrence in `s`. */
  lemma {:induction false} UniqueInFirstAppearanceOrder<T(!new)>(s: seq<T>)
    ensures forall i, j :: 0 <= i < j < |Unique(s)| ==>
      FirstIndex(s, Unique(s)[i]) < FirstIndex(s, Unique(s)[j])
  {
    if s != [] {
      var init, x := s[..|s| - 1], s[|s| - 1];
      assert s == init + [x];
      UniqueInFirstAppearanceOrder(init);
      forall y | y in init ensures FirstIndex(s, y) == FirstIndex(init, y) {
        FirstIndexPrefix(init, x, y);
      }
      if x !in init {
        assert FirstIndex(s, x) == |s| - 1;
      }
    }
  }

  lemma {:induction false} FirstIndexPrefix<T>(init: seq<T>, x: T, y: T)
    requires y in init
    ensures FirstIndex(init + [x], y) == FirstIndex(init, y)
  {
    if init[0] != y {
      assert (init + [x])[1..] == init[1..] + [x];
      FirstIndexPrefix(init[1..], x, y);
    }
  }

  /** Without duplicates, the tail holds exactly the values other than the head. */
  lemma DistinctTail<T(!new)>(u: seq<T>)
    requires |u| > 0 && NoDuplicates(u)
    ensures NoDuplicates(u[1..])
    ensures forall x :: x in u[1..] <==> x in u && x != u[0]
  {
    forall x ensures x in u[1..] <==> x in u && x != u[0] {
      if x in u[1..] {
        var k :| 0 <= k < |u| - 1 && u[1..][k] == x;
        assert u[k + 1] == x;
      }
      if x in u && x != u[0] {
        var k :| 0 <= k < |u| && u[k] == x;
        assert u[1..][k - 1] == x;
      }
    }
  }

  /** `a` and `b` have the same pattern of equal entries. */
  ghost predicate SameEqualities<A, B>(a: seq<A>, b: seq<B>) {
    |a| == |b| &&
    forall i, j :: 0 <= i < |a| && 0 <= j < |a| ==> (a[i] == a[j] <==> b[i] == b[j])
  }

  lemma SameEqualitiesPrefix<A, B>(a: seq<A>, b: seq<B>, n: nat)
    requires SameEqualities(a, b) && n <= |a|
    ensures SameEqualities(a[..n], b[..n])
  {
  }

  lemma SameMembership<A(!new), B(!new)>(a: seq<A>, b: seq<B>)
    requires SameEqualities(a, b) && |a| > 0
    ensures a[|a| - 1] in a[..|a| - 1] <==> b[|b| - 1] in b[..|b| - 1]
  {
    var n := |a|;
    if a[n - 1] in a[..n - 1] {
      var j :| 0 <= j < n - 1 && a[..n - 1][j] == a[n - 1];
      assert a[j] == a[n - 1];
      assert b[..n - 1][j] == b[n - 1];
    }
    if b[n - 1] in b[..n - 1] {
      var j :| 0 <= j < n - 1 && b[..n - 1][j] == b[n - 1];
      assert b[j] == b[n - 1];
      assert a[..n - 1][j] == a[n - 1];
    }
  }

  /** Columns with the same pattern of equal entries have their distinct
      values in step: as many of each, the k-th distinct values first
      appearing at the same row. */
  lemma {:induction false} UniqueInStep<A(!new), B(!new)>(a: seq<A>, b: seq<B>)
    requires SameEqualities(a, b)
    ensures |Unique(a)| == |Unique(b)|
    ensures forall k :: 0 <= k < |Unique(a)| ==>
      exists r :: 0 <= r < |a| && a[r] == Unique(a)[k] && b[r] == Unique(b)[k]
  {
    if a != [] {
      var n := |a|;
      SameEqualitiesPrefix(a, b, n - 1);
      UniqueInStep(a[..n - 1], b[..n - 1]);
      SameMembership(a, b);
      var ua, ub := Unique(a[..n - 1]), Unique(b[..n - 1]);
      assert a[n - 1] in ua <==> b[n - 1] in ub;
      forall k | 0 <= k < |Unique(a)|
        ensures exists r :: 0 <= r < |a| && a[r] == Unique(a)[k] && b[r] == Unique(b)[k]
      {
        if k < |ua| {
          var r :| 0 <= r < n - 1 && a[..n - 1][r] == ua[k] && b[..n - 1][r] == ub[k];
          assert a[r] == Unique(a)[k] && b[r] == Unique(b)[k];
        } else {
          assert a[n - 1] == Unique(a)[k] && b[n - 1] == Unique(b)[k];
        }
      }
    }
  }

  /** `a[a != x]`: every element except those equal to `x`, order kept. */
  function Remove<T(==,!new)>(s: seq<T>, x: T): (r: seq<T>)
    ensures forall y :: y in r <==> y in s && y != x
    ensures |r| <= |s|
  {
    if s == [] then []
    else if s[0] == x then Remove(s[1..], x)
    else [s[0]] + Remove(s[1..], x)
  }

  /** On a list without duplicates, removing its first element by value
      is the same as dropping it by position. */
  lemma {:induction false} RemoveFirstOfDistinct<T(!new)>(s: seq<T>)
    requires |s| > 0 && NoDuplicates(s)
    ensures Remove(s, s[0]) == s[1..]
  {
    RemoveAbsent(s[1..], s[0]);
  }

  lemma {:induction false} RemoveAbsent<T(!new)>(s: seq<T>, x: T)
    requires x !in s
    ensures Remove(s, x) == s
  {
    if s != [] {
      RemoveAbsent(s[1..], x);
    }
  }

  /** The members of `rows` whose key is `k`, in their original order
      (one `groupby` group). */
  function Select<T, K(==)>(rows: seq<T>, key: T -> K, k: K): (r: seq<T>)
    ensures |r| <= |rows|
    ensures forall t :: t in r ==> t in rows && key(t) == k
  {
    if rows == [] then []
    else if key(rows[0]) == k then [rows[0]] + Select(rows[1..], key, k)
    else Select(rows[1..], key, k)
  }

  lemma {:induction false} SelectNonEmpty<T, K>(rows: seq<T>, key: T -> K, i: nat)
    requires i < |rows|
    ensures |Select(rows, key, key(rows[i]))| > 0
  {
    if i > 0 && key(rows[0]) != key(rows[i]) {
      SelectNonEmpty(rows[1..], key, i - 1);
    }
  }

  /** Every row with key `k` is selected. */
  lemma {:induction false} SelectComplete<T, K>(rows: seq<T>, key: T -> K, t: T)
    requires t in rows
    ensures t in Select(rows, key, key(t))
  {
    if rows[0] != t {
      SelectComplete(rows[1..], key, t);
    }
  }

  /** A key that no row carries selects nothing. */
  lemma {:induction false} SelectAbsent<T, K>(rows: seq<T>, key: T -> K, k: K)
    requires k !in Keys(rows, key)
    ensures Select(rows, key, k) == []
  {
    if rows != [] {
      assert Keys(rows, key) == [key(rows[0])] + Keys(rows[1..], key);
      SelectAbsent(rows[1..], key, k);
    }
  }

  /** Selection distributes over concatenation. */
  lemma {:induction false} SelectConcat<T, K>(a: seq<T>, b: seq<T>, key: T -> K, k: K)
    ensures Select(a + b, key, k) == Select(a, key, k) + Select(b, key, k)
  {
    if a == [] {
      assert a + b == b;
    } else {
      assert (a + b)[0] == a[0] && (a + b)[1..] == a[1..] + b;
      SelectConcat(a[1..], b, key, k);
    }
  }

  /** Selecting twice on the same key: the inner selection again, or
      nothing when the keys differ. */
  lemma {:induction false} SelectOfSelect<T, K>(rows: seq<T>, key: T -> K, m: K, k: K)
    ensures Select(Select(rows, key, m), key, k) == if m == k then Select(rows, key, k) else []
  {
    if rows != [] {
      SelectOfSelect(rows[1..], key, m, k);
      if key(rows[0]) == m {
        assert Select(rows, key, m) == [rows[0]] + Select(rows[1..], key, m);
      }
    }
  }

  function Keys<T, K>(rows: seq<T>, key: T -> K): (r: seq<K>)
    ensures |r| == |rows|
    ensures forall i :: 0 <= i < |rows| ==> r[i] == key(rows[i])
  {
    if rows == [] then [] else [key(rows[0])] + Keys(rows[1..], key)
  }

  ghost predicate IsStrictTotalOrder<K(!new)>(lt: (K, K) -> bool) {
    && (forall a :: !lt(a, a))
    && (forall a, b, c :: lt(a, b) && lt(b, c) ==> lt(a, c))
    && (forall a, b :: a != b ==> lt(a, b) || lt(b, a))
  }

  predicate StrictlySorted<K>(s: seq<K>, lt: (K, K) -> bool) {
    forall i, j :: 0 <= i < j < |s| ==> lt(s[i], s[j])
  }

  /** Insert `x` into a strictly sorted list, keeping it strictly sorted
      and dropping `x` when it is already there. */
  function Insert<K(==,!new)>(x: K, s: seq<K>, lt: (K, K) -> bool): (r: seq<K>)
    requires IsStrictTotalOrder(lt) && StrictlySorted(s, lt)
    ensures StrictlySorted(r, lt)
    ensures forall y :: y in r <==> y in s || y == x
  {
    if s == [] then [x]
    else if lt(x, s[0]) then [x] + s
    else if x == s[0] then s
    else
      var rest := Insert(x, s[1..], lt);
      assert forall y :: y in rest ==> lt(s[0], y);
      [s[0]] + rest
  }

  /** The distinct values of `s`, sorted increasingly by `lt`. */
  function SortedDistinct<K(==,!new)>(s: seq<K>, lt: (K, K) -> bool): (r: seq<K>)
    requires IsStrictTotalOrder(lt)
    ensures StrictlySorted(r, lt)
    ensures forall y :: y in r <==> y in s
  {
    if s == [] then [] else Insert(s[|s| - 1], SortedDistinct(s[..|s| - 1], lt), lt)
  }

  lemma StrictlySortedIsDistinct<K(!new)>(s: seq<K>, lt: (K, K) -> bool)
    requires IsStrictTotalOrder(lt) && StrictlySorted(s, lt)
    ensures NoDuplicates(s)
  {
    forall i, j | 0 <= i < j < |s| ensures s[i] != s[j] {
      assert lt(s[i], s[j]);
    }
  }

  datatype Group<K, T> = Group(key: K, members: seq<T>)

  /** `DataFrame.groupby(key)`: one group per distinct key, keys in
      increasing order, each group holding the rows with that key in
      their original order. */
  function GroupBy<T, K(==,!new)>(rows: seq<T>, key: T -> K, lt: (K, K) -> bool): (groups: seq<Group<K, T>>)
    requires IsStrictTotalOrder(lt)
    ensures forall i, j :: 0 <= i < j < |groups| ==> lt(groups[i].key, groups[j].key)
    ensures forall k :: (exists i :: 0 <= i < |groups| && groups[i].key == k) <==> k in Keys(rows, key)
    ensures forall i :: 0 <= i < |groups| ==> groups[i].members == Select(rows, key, groups[i].key)
    ensures forall i :: 0 <= i < |groups| ==> |groups[i].members| > 0
  {
    var ks := SortedDistinct(Keys(rows, key), lt);
    var groups := seq(|ks|, i requires 0 <= i < |ks| => Group(ks[i], Select(rows, key, ks[i])));
    assert forall i :: 0 <= i < |groups| ==> |groups[i].members| > 0 by {
      forall i | 0 <= i < |groups| ensures |groups[i].members| > 0 {
        var n := FirstIndex(Keys(rows, key), ks[i]);
        SelectNonEmpty(rows, key, n);
      }
    }
    assert forall k :: k in ks ==> exists i :: 0 <= i < |groups| && groups[i].key == k by {
      forall k | k in ks ensures exists i :: 0 <= i < |groups| && groups[i].key == k {
        var i := FirstIndex(ks, k);
        assert groups[i].key == k;
      }
    }
    groups
  }

  // ---------------------------------------------------------------------
  // The orders pandas sorts by.

  /** Python's `<` on `str`: lexicographic by code point, a proper prefix
      coming first. */
  predicate StrLess(a: string, b: string) {
    if |a| == 0 then |b| > 0
    else if |b| == 0 then false
    else a[0] < b[0] || (a[0] == b[0] && StrLess(a[1..], b[1..]))
  }

  predicate IntLess(a: int, b: int) { a < b }

  lemma {:induction false} StrLessIrreflexive(a: string)
    ensures !StrLess(a, a)
  {
    if |a| > 0 {
      StrLessIrreflexive(a[1..]);
    }
  }

  lemma {:induction false} StrLessTransitive(a: string, b: string, c: string)
    requires StrLess(a, b) && StrLess(b, c)
    ensures StrLess(a, c)
  {
    if |a| > 0 && a[0] == b[0] && b[0] == c[0] {
      StrLessTransitive(a[1..], b[1..], c[1..]);
    }
  }

  lemma {:induction false} StrLessTotal(a: string, b: string)
    requires a != b
    ensures StrLess(a, b) || StrLess(b, a)
  {
    if |a| > 0 && |b| > 0 && a[0] == b[0] {
      assert a == [a[0]] + a[1..] && b == [b[0]] + b[1..];
      StrLessTotal(a[1..], b[1..]);
    }
  }

  lemma StrLessIsStrictTotalOrder()
    ensures IsStrictTotalOrder(StrLess)
  {
    forall a ensures !StrLess(a, a) { StrLessIrreflexive(a); }
    forall a, b, c | StrLess(a, b) && StrLess(b, c) ensures StrLess(a, c) {
      StrLessTransitive(a, b, c);
    }
    forall a, b | a != b ensures StrLess(a, b) || StrLess(b, a) { StrLessTotal(a, b); }
  }

  lemma IntLessIsStrictTotalOrder()
    ensures IsStrictTotalOrder(IntLess)
  {
  }
}
