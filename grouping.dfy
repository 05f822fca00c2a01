/**
 * Grouping record positions by a key, the way the reconciliation passes do
 * it with a `defaultdict(list)` filled in one pass over the records: the
 * keys come out in order of first appearance and each group lists its
 * positions in ascending order.  A record without a key (`None`) is in no
 * group.
 */
module Grouping {
  import opened Wrappers

  /** Strictly increasing positions. */
  predicate Ascending(s: seq<nat>) {
    forall a, b :: 0 <= a < b < |s| ==> s[a] < s[b]
  }

  /** No key is listed twice. */
  predicate Distinct<K(==,!new)>(s: seq<K>) {
    forall a, b :: 0 <= a < b < |s| ==> s[a] != s[b]
  }

  /** Every group is a non-empty ascending list of positions below `n` that carry its key. */
  ghost predicate Sound<K(!new)>(keys: seq<Option<K>>, n: nat, groups: map<K, seq<nat>>)
    requires n <= |keys|
  {
    forall k :: k in groups ==>
      && |groups[k]| > 0
      && Ascending(groups[k])
      && (forall p :: 0 <= p < |groups[k]| ==> groups[k][p] < n && keys[groups[k][p]] == Some(k))
  }

  /** Every position below `n` that has a key is in the group of its key. */
  ghost predicate Complete<K(!new)>(keys: seq<Option<K>>, n: nat, groups: map<K, seq<nat>>)
    requires n <= |keys|
  {
    forall i :: 0 <= i < n && keys[i].Some? ==> keys[i].value in groups && i in groups[keys[i].value]
  }

  /** The key order lists each group once, in order of the group's first position. */
  ghost predicate Ordered<K(!new)>(order: seq<K>, groups: map<K, seq<nat>>) {
    && Distinct(order)
    && (forall k :: k in groups <==> k in order)
    && (forall a, b :: 0 <= a < b < |order| && order[a] in groups && order[b] in groups ==>
          |groups[order[a]]| > 0 && |groups[order[b]]| > 0 && groups[order[a]][0] < groups[order[b]][0])
  }

  /** The positions below `n` of `keys`, grouped by key. */
  ghost predicate GroupedUpTo<K(!new)>(keys: seq<Option<K>>, n: nat, order: seq<K>, groups: map<K, seq<nat>>)
    requires n <= |keys|
  {
    Sound(keys, n, groups) && Complete(keys, n, groups) && Ordered(order, groups)
  }

  ghost predicate Grouped<K(!new)>(keys: seq<Option<K>>, order: seq<K>, groups: map<K, seq<nat>>) {
    GroupedUpTo(keys, |keys|, order, groups)
  }

  /** Appending position `n` to the group of its key keeps every group sound. */
  lemma SoundStep<K(!new)>(keys: seq<Option<K>>, n: nat, groups: map<K, seq<nat>>, k: K, g: seq<nat>)
    requires n < |keys| && keys[n] == Some(k) && Sound(keys, n, groups)
    requires g == if k in groups then groups[k] else []
    ensures Sound(keys, n + 1, groups[k := g + [n]])
  {
    var groups' := groups[k := g + [n]];
    forall k' | k' in groups'
      ensures Ascending(groups'[k'])
      ensures forall p :: 0 <= p < |groups'[k']| ==> groups'[k'][p] < n + 1 && keys[groups'[k'][p]] == Some(k')
    {
      if k' == k {
        forall p | 0 <= p < |g| + 1 ensures (g + [n])[p] < n + 1 && keys[(g + [n])[p]] == Some(k) {
          if p < |g| {
            assert (g + [n])[p] == g[p];
          }
        }
      }
    }
  }

  /** Appending position `n` to the group of its key keeps the grouping complete. */
  lemma CompleteStep<K(!new)>(keys: seq<Option<K>>, n: nat, groups: map<K, seq<nat>>, k: K, g: seq<nat>)
    requires n < |keys| && keys[n] == Some(k) && Complete(keys, n, groups)
    requires g == if k in groups then groups[k] else []
    ensures Complete(keys, n + 1, groups[k := g + [n]])
  {
    var groups' := groups[k := g + [n]];
    forall i | 0 <= i < n + 1 && keys[i].Some? ensures keys[i].value in groups' && i in groups'[keys[i].value] {
      if i < n && keys[i].value == k {
        assert i in g;
      }
    }
  }

  /** A new key goes to the end of the key order; an old key leaves the order and the group heads alone. */
  lemma OrderedStep<K(!new)>(keys: seq<Option<K>>, n: nat, order: seq<K>, groups: map<K, seq<nat>>, k: K, g: seq<nat>)
    requires n < |keys| && Sound(keys, n, groups) && Ordered(order, groups)
    requires g == if k in groups then groups[k] else []
    ensures Ordered(if k in groups then order else order + [k], groups[k := g + [n]])
  {
    if k !in groups {
      assert g + [n] == [n];
      OrderedNew(keys, n, order, groups, k);
    } else {
      OrderedOld(order, groups, k, g + [n]);
    }
  }

  /** A key seen for the first time at `n` heads the last group. */
  lemma OrderedNew<K(!new)>(keys: seq<Option<K>>, n: nat, order: seq<K>, groups: map<K, seq<nat>>, k: K)
    requires n < |keys| && Sound(keys, n, groups) && Ordered(order, groups) && k !in groups
    ensures Ordered(order + [k], groups[k := [n]])
  {
    var groups', order' := groups[k := [n]], order + [k];
    forall a | 0 <= a < |order| ensures order[a] != k {
      assert order[a] in groups;
    }
    forall a, b | 0 <= a < b < |order'| && order'[a] in groups' && order'[b] in groups'
      ensures |groups'[order'[a]]| > 0 && |groups'[order'[b]]| > 0 && groups'[order'[a]][0] < groups'[order'[b]][0]
    {
      assert order'[a] == order[a] && order[a] in groups;
      if b == |order| {
        assert groups[order[a]][0] < n;
      } else {
        assert order'[b] == order[b];
      }
    }
  }

  /** Extending the group of a known key keeps its head. */
  lemma OrderedOld<K(!new)>(order: seq<K>, groups: map<K, seq<nat>>, k: K, g': seq<nat>)
    requires Ordered(order, groups) && k in groups && |groups[k]| > 0 && |g'| > 0 && g'[0] == groups[k][0]
    ensures Ordered(order, groups[k := g'])
  {
    var groups' := groups[k := g'];
    forall a, b | 0 <= a < b < |order| && order[a] in groups' && order[b] in groups'
      ensures |groups'[order[a]]| > 0 && |groups'[order[b]]| > 0 && groups'[order[a]][0] < groups'[order[b]][0]
    {
      assert groups'[order[a]][0] == groups[order[a]][0];
      assert groups'[order[b]][0] == groups[order[b]][0];
    }
  }

  /** The group of `k` after position `n` is appended to it. */
  function Joined<K(==)>(groups: map<K, seq<nat>>, k: K, n: nat): (r: map<K, seq<nat>>)
    ensures k in r && |r[k]| > 0 && r[k][|r[k]| - 1] == n
    ensures forall k' :: k' in groups && k' != k ==> k' in r && r[k'] == groups[k']
  {
    groups[k := (if k in groups then groups[k] else []) + [n]]
  }

  /** One step of the grouping loop. */
  lemma GroupStep<K(!new)>(keys: seq<Option<K>>, n: nat, order: seq<K>, groups: map<K, seq<nat>>)
    requires n < |keys| && GroupedUpTo(keys, n, order, groups)
    ensures keys[n].None? ==> GroupedUpTo(keys, n + 1, order, groups)
    ensures keys[n].Some? ==>
      var k := keys[n].value;
      GroupedUpTo(keys, n + 1, if k in groups then order else order + [k], Joined(groups, k, n))
  {
    if keys[n].Some? {
      var k := keys[n].value;
      var g := if k in groups then groups[k] else [];
      SoundStep(keys, n, groups, k, g);
      CompleteStep(keys, n, groups, k, g);
      OrderedStep(keys, n, order, groups, k, g);
    }
  }

  /** `for i, item in enumerate(data): if key: groups[key].append(i)`. */
  method GroupPositions<K(==,!new)>(keys: seq<Option<K>>) returns (order: seq<K>, groups: map<K, seq<nat>>)
    ensures Grouped(keys, order, groups)
  {
    order, groups := [], map[];
    for n := 0 to |keys|
      invariant GroupedUpTo(keys, n, order, groups)
    {
      GroupStep(keys, n, order, groups);
      if keys[n].Some? {
        var k := keys[n].value;
        if k !in groups {
          order := order + [k];
        }
        groups := Joined(groups, k, n);
      }
    }
  }

  /** The first position of a group is the first position that carries its key, and the others have an earlier one with the same key. */
  lemma GroupHead<K(!new)>(keys: seq<Option<K>>, order: seq<K>, groups: map<K, seq<nat>>, i: nat)
    requires Grouped(keys, order, groups) && i < |keys| && keys[i].Some?
    ensures var g := groups[keys[i].value];
      (i == g[0]) <==> (forall j :: 0 <= j < i ==> keys[j] != keys[i])
  {
    var k := keys[i].value;
    var g := groups[k];
    if i == g[0] {
      forall j | 0 <= j < i ensures keys[j] != keys[i] {
      }
    } else {
      assert keys[g[0]] == Some(k);
    }
  }

  /** The first position from `j` on whose key equals the key at `i`. */
  function FirstSame<K(==)>(keys: seq<Option<K>>, i: nat, j: nat): (r: nat)
    requires j <= i < |keys|
    ensures j <= r <= i && keys[r] == keys[i]
    ensures forall q :: j <= q < r ==> keys[q] != keys[i]
    decreases i - j
  {
    if keys[j] == keys[i] then j else FirstSame(keys, i, j + 1)
  }

  /** The last position below `j` whose key equals the key at `i`. */
  function LastSame<K(==)>(keys: seq<Option<K>>, i: nat, j: nat): (r: nat)
    requires i < j <= |keys|
    ensures i <= r < j && keys[r] == keys[i]
    ensures forall q :: r < q < j ==> keys[q] != keys[i]
    decreases j
  {
    if keys[j - 1] == keys[i] then j - 1 else LastSame(keys, i, j - 1)
  }

  /** A group starts at the first position with its key and ends at the last. */
  lemma GroupEnds<K(!new)>(keys: seq<Option<K>>, order: seq<K>, groups: map<K, seq<nat>>, i: nat)
    requires Grouped(keys, order, groups) && i < |keys| && keys[i].Some?
    ensures keys[i].value in groups
    ensures var g := groups[keys[i].value];
      g[0] == FirstSame(keys, i, 0) && g[|g| - 1] == LastSame(keys, i, |keys|)
  {
    var g := groups[keys[i].value];
    var f, l := FirstSame(keys, i, 0), LastSame(keys, i, |keys|);
    assert f in g && l in g;
    assert keys[g[0]] == keys[i] && keys[g[|g| - 1]] == keys[i];
  }

  // ------------------------------------------------------------ facts for the loops over the groups

  /** What the grouping loop guarantees about one group `g` of key `k`. */
  ghost predicate WholeGroup<K(!new)>(keys: seq<Option<K>>, k: K, g: seq<nat>) {
    && |g| > 0
    && Ascending(g)
    && (forall u :: 0 <= u < |g| ==> g[u] < |keys| && keys[g[u]] == Some(k) && FirstSame(keys, g[u], 0) == g[0])
    && (forall u :: 0 <= u < |g| ==> LastSame(keys, g[u], |keys|) == g[|g| - 1])
    && (forall i :: 0 <= i < |keys| && keys[i] == Some(k) ==> i in g)
  }

  lemma GroupIsWhole<K(!new)>(keys: seq<Option<K>>, order: seq<K>, groups: map<K, seq<nat>>, k: K)
    requires Grouped(keys, order, groups) && k in groups
    ensures WholeGroup(keys, k, groups[k])
  {
    var g := groups[k];
    forall u | 0 <= u < |g|
      ensures FirstSame(keys, g[u], 0) == g[0] && LastSame(keys, g[u], |keys|) == g[|g| - 1]
    {
      GroupEnds(keys, order, groups, g[u]);
    }
  }

  /** The keys handled before the `a`-th. */
  ghost function Seen<K(!new)>(order: seq<K>, a: nat): set<K>
    requires a <= |order|
  {
    set b | 0 <= b < a :: order[b]
  }

  /** The keys come out of the grouping once each. */
  lemma SeenStep<K(!new)>(order: seq<K>, a: nat)
    requires Distinct(order) && a < |order|
    ensures order[a] !in Seen(order, a)
    ensures Seen(order, a + 1) == Seen(order, a) + {order[a]}
  {
  }

  /** What a grouping of the rows provides to the loops over its keys. */
  ghost predicate KeyGroups<K(!new)>(keys: seq<Option<K>>, order: seq<K>, groups: map<K, seq<nat>>) {
    && Distinct(order)
    && (forall a :: 0 <= a < |order| ==> order[a] in groups && WholeGroup(keys, order[a], groups[order[a]]))
    && (forall i :: 0 <= i < |keys| && keys[i].Some? ==> keys[i].value in order)
  }

  /** The positions below `n` that carry key `k`, in order. */
  function GroupOf<K(==)>(keys: seq<Option<K>>, k: K, n: nat): (g: seq<nat>)
    requires n <= |keys|
    ensures Ascending(g)
    ensures forall u :: 0 <= u < |g| ==> g[u] < n && keys[g[u]] == Some(k)
    ensures forall p :: 0 <= p < n && keys[p] == Some(k) ==> p in g
  {
    if n == 0 then [] else GroupOf(keys, k, n - 1) + (if keys[n - 1] == Some(k) then [n - 1] else [])
  }

  /** The last element of an ascending sequence is its greatest. */
  lemma AscendingLast(a: seq<nat>, x: nat)
    requires Ascending(a) && x in a
    ensures x <= a[|a| - 1]
  {
    var i :| 0 <= i < |a| && a[i] == x;
  }

  /** In an ascending sequence everything before the last element is below it. */
  lemma AscendingBelowLast(a: seq<nat>, l: nat, x: nat)
    requires Ascending(a + [l]) && x in a
    ensures x < l
  {
    var i :| 0 <= i < |a| && a[i] == x;
    assert (a + [l])[i] == x && (a + [l])[|a|] == l;
  }

  /** Dropping the same last element from two ascending sequences with the same elements. */
  lemma AscendingInit(a: seq<nat>, b: seq<nat>, l: nat)
    requires Ascending(a + [l]) && Ascending(b + [l])
    requires forall x :: x in a + [l] <==> x in b + [l]
    ensures forall x :: x in a <==> x in b
  {
    forall x | x in a ensures x in b {
      AscendingBelowLast(a, l, x);
      assert x in a + [l];
    }
    forall x | x in b ensures x in a {
      AscendingBelowLast(b, l, x);
      assert x in b + [l];
    }
  }

  lemma AscendingPrefix(a: seq<nat>)
    requires Ascending(a) && |a| > 0
    ensures Ascending(a[..|a| - 1])
  {
  }

  /** Two ascending sequences with the same elements are the same sequence. */
  lemma {:induction false} AscendingUnique(a: seq<nat>, b: seq<nat>)
    requires Ascending(a) && Ascending(b) && forall x :: x in a <==> x in b
    ensures a == b
    decreases |a|
  {
    if |a| > 0 || |b| > 0 {
      var ia, ib, l := SameLast(a, b);
      AscendingUnique(ia, ib);
    }
  }

  /** Two non-empty ascending sequences with the same elements end alike, and so do their fronts. */
  lemma SameLast(a: seq<nat>, b: seq<nat>) returns (ia: seq<nat>, ib: seq<nat>, l: nat)
    requires Ascending(a) && Ascending(b) && forall x :: x in a <==> x in b
    requires |a| > 0 || |b| > 0
    ensures a == ia + [l] && b == ib + [l]
    ensures Ascending(ia) && Ascending(ib) && forall x :: x in ia <==> x in ib
  {
    assert |a| > 0 && |b| > 0 by {
      if |a| > 0 {
        assert a[0] in b;
      }
      if |b| > 0 {
        assert b[0] in a;
      }
    }
    var la, lb := a[|a| - 1], b[|b| - 1];
    AscendingLast(a, lb);
    AscendingLast(b, la);
    ia, ib, l := a[..|a| - 1], b[..|b| - 1], la;
    assert a == ia + [la] && b == ib + [la];
    AscendingInit(ia, ib, la);
    AscendingPrefix(a);
    AscendingPrefix(b);
  }

  /** The grouping's list for a key is the key's positions in order. */
  lemma WholeGroupIsGroupOf<K(!new)>(keys: seq<Option<K>>, k: K, g: seq<nat>)
    requires WholeGroup(keys, k, g)
    ensures g == GroupOf(keys, k, |keys|)
  {
    var h := GroupOf(keys, k, |keys|);
    forall x ensures x in g <==> x in h {
      if x in g {
        var u :| 0 <= u < |g| && g[u] == x;
      }
      if x in h {
        var u :| 0 <= u < |h| && h[u] == x;
      }
    }
    AscendingUnique(g, h);
  }

  /** The keys that occur in the rows. */
  ghost function KeySet<K(!new)>(keys: seq<Option<K>>): set<K> {
    set i | 0 <= i < |keys| && keys[i].Some? :: keys[i].value
  }

  /** After the last group every key has been handled, and nothing else. */
  lemma SeenAll<K(!new)>(keys: seq<Option<K>>, order: seq<K>, groups: map<K, seq<nat>>)
    requires KeyGroups(keys, order, groups)
    ensures Seen(order, |order|) == KeySet(keys)
  {
    forall k | k in Seen(order, |order|) ensures k in KeySet(keys) {
      var a :| 0 <= a < |order| && order[a] == k;
      assert keys[groups[k][0]] == Some(k);
    }
  }

  /** The keys are listed in order of their first row. */
  ghost predicate HeadsAscend<K(!new)>(order: seq<K>, groups: map<K, seq<nat>>) {
    forall a, b :: 0 <= a < b < |order| && order[a] in groups && order[b] in groups ==>
      |groups[order[a]]| > 0 && |groups[order[b]]| > 0 && groups[order[a]][0] < groups[order[b]][0]
  }

  lemma GroupedKeyGroups<K(!new)>(keys: seq<Option<K>>, order: seq<K>, groups: map<K, seq<nat>>)
    requires Grouped(keys, order, groups)
    ensures KeyGroups(keys, order, groups) && HeadsAscend(order, groups)
  {
    forall a | 0 <= a < |order| ensures order[a] in groups && WholeGroup(keys, order[a], groups[order[a]]) {
      GroupIsWhole(keys, order, groups, order[a]);
    }
    forall i | 0 <= i < |keys| && keys[i].Some? ensures keys[i].value in order {
      assert keys[i].value in groups;
    }
  }

  /** The rows among the first `n` whose mask bit is set, in order. */
  function Kept<T>(rows: seq<T>, mask: seq<bool>, n: nat): (r: seq<T>)
    requires n <= |rows| == |mask|
    ensures |r| <= n
  {
    if n == 0 then [] else Kept(rows, mask, n - 1) + (if mask[n - 1] then [rows[n - 1]] else [])
  }

  /** The positions below `n` whose mask bit is clear. */
  ghost function Unkept(mask: seq<bool>, n: nat): set<int>
    requires n <= |mask|
  {
    set i | 0 <= i < n && !mask[i]
  }

  lemma {:induction false} KeptMembers<T>(rows: seq<T>, mask: seq<bool>, n: nat)
    requires n <= |rows| == |mask|
    ensures forall row :: row in Kept(rows, mask, n) ==> exists j :: 0 <= j < n && mask[j] && row == rows[j]
    ensures forall j :: 0 <= j < n && mask[j] ==> rows[j] in Kept(rows, mask, n)
  {
    if n > 0 {
      KeptMembers(rows, mask, n - 1);
    }
  }

  /** Every row is either kept or not. */
  lemma {:induction false} KeptCount<T>(rows: seq<T>, mask: seq<bool>, n: nat)
    requires n <= |rows| == |mask|
    ensures |Kept(rows, mask, n)| + |Unkept(mask, n)| == n
  {
    if n > 0 {
      KeptCount(rows, mask, n - 1);
      if mask[n - 1] {
        assert Unkept(mask, n) == Unkept(mask, n - 1);
      } else {
        assert Unkept(mask, n) == Unkept(mask, n - 1) + {n - 1};
      }
    }
  }

  /** A mask that keeps everything keeps the rows as they are. */
  lemma {:induction false} KeptEverything<T>(rows: seq<T>, mask: seq<bool>, n: nat)
    requires n <= |rows| == |mask| && forall i :: 0 <= i < |mask| ==> mask[i]
    ensures Kept(rows, mask, n) == rows[..n]
  {
    if n > 0 {
      KeptEverything(rows, mask, n - 1);
      assert rows[..n] == rows[..n - 1] + [rows[n - 1]];
    }
  }

  /** Clearing one more bit drops one more position. */
  lemma UnkeptClear(mask: seq<bool>, p: nat)
    requires p < |mask| && mask[p]
    ensures p !in Unkept(mask, |mask|)
    ensures Unkept(mask[p := false], |mask|) == Unkept(mask, |mask|) + {p}
    ensures |Unkept(mask[p := false], |mask|)| == |Unkept(mask, |mask|)| + 1
  {
    assert Unkept(mask[p := false], |mask|) == Unkept(mask, |mask|) + {p};
  }

  /** The keys of the first `i` rows: the `seen` set of a first-occurrence filter. */
  ghost function KeysBefore<T, K>(rows: seq<T>, key: T -> K, i: nat): set<K>
    requires i <= |rows|
  {
    if i == 0 then {} else KeysBefore(rows, key, i - 1) + {key(rows[i - 1])}
  }

  lemma {:induction false} KeysBeforeMembers<T, K>(rows: seq<T>, key: T -> K, i: nat, k: K)
    requires i <= |rows|
    ensures k in KeysBefore(rows, key, i) <==> exists j :: 0 <= j < i && key(rows[j]) == k
  {
    if i > 0 {
      KeysBeforeMembers(rows, key, i - 1, k);
    }
  }

  /** Bit `i` is set when row `i` is the first with its key. */
  ghost function FirstKeyMask<T, K>(rows: seq<T>, key: T -> K): (m: seq<bool>)
    ensures |m| == |rows|
    ensures forall i :: 0 <= i < |rows| ==> (m[i] <==> key(rows[i]) !in KeysBefore(rows, key, i))
  {
    seq(|rows|, i requires 0 <= i < |rows| => key(rows[i]) !in KeysBefore(rows, key, i))
  }

  /** Whatever the mask, the keys of the rows kept below `n` are among the first `n` keys. */
  lemma {:induction false} KeptKeysSeen<T, K>(rows: seq<T>, mask: seq<bool>, key: T -> K, n: nat)
    requires n <= |rows| == |mask|
    ensures forall a :: 0 <= a < |Kept(rows, mask, n)| ==> key(Kept(rows, mask, n)[a]) in KeysBefore(rows, key, n)
  {
    if n > 0 {
      KeptKeysSeen(rows, mask, key, n - 1);
      var prev := Kept(rows, mask, n - 1);
      var out := Kept(rows, mask, n);
      forall a | 0 <= a < |out| ensures key(out[a]) in KeysBefore(rows, key, n) {
        if a < |prev| {
          assert out[a] == prev[a];
        } else {
          assert out[a] == rows[n - 1];
        }
      }
    }
  }

  /** No two rows share a key. */
  predicate KeysDistinct<T, K(==)>(out: seq<T>, key: T -> K) {
    forall a, b :: 0 <= a < b < |out| ==> key(out[a]) != key(out[b])
  }

  /** A mask that keeps only rows with unseen keys keeps rows with distinct keys. */
  lemma {:induction false} FirstKeysDistinct<T, K>(rows: seq<T>, mask: seq<bool>, key: T -> K, n: nat)
    requires n <= |rows| == |mask|
    requires forall i :: 0 <= i < |rows| && mask[i] ==> key(rows[i]) !in KeysBefore(rows, key, i)
    ensures KeysDistinct(Kept(rows, mask, n), key)
  {
    if n > 0 {
      FirstKeysDistinct(rows, mask, key, n - 1);
      var prev := Kept(rows, mask, n - 1);
      var out := Kept(rows, mask, n);
      if mask[n - 1] {
        KeptKeysSeen(rows, mask, key, n - 1);
        assert out == prev + [rows[n - 1]];
        forall a, b | 0 <= a < b < |out| ensures key(out[a]) != key(out[b]) {
          assert out[a] == prev[a];
          if b < |prev| {
            assert out[b] == prev[b];
          } else {
            assert out[b] == rows[n - 1];
          }
        }
      } else {
        assert out == prev;
      }
    }
  }

  /** Every row's key is carried by a kept row at or before it. */
  lemma {:induction false} FirstKeyCovers<T, K>(rows: seq<T>, key: T -> K, i: nat)
    requires i < |rows|
    ensures exists j :: 0 <= j <= i && FirstKeyMask(rows, key)[j] && key(rows[j]) == key(rows[i])
    decreases i
  {
    if !FirstKeyMask(rows, key)[i] {
      KeysBeforeMembers(rows, key, i, key(rows[i]));
      var j :| 0 <= j < i && key(rows[j]) == key(rows[i]);
      FirstKeyCovers(rows, key, j);
    }
  }
}
