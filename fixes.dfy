/**
 * The first reconciliation tool over the `sentiment_results` table:
 * `generate_content_hash`, `calculate_content_similarity`,
 * `detect_duplicates_and_update`, `clean_duplicate_records` and the
 * first-seen filter of `export_deduplicated_data`.  The table is the list of
 * rows as read `ORDER BY id`; the MD5 digest and `SequenceMatcher.ratio` are
 * parameters.
 */
module Fixes {
  import opened Wrappers
  import opened Values
  import opened PyText
  import opened Grouping
  import AutoDedup

  /** The columns of `sentiment_results` these passes read or write; `None` is SQL `NULL`. */
  datatype Row = Row(
    id: int,
    content: Option<string>,
    duplicateId: Option<string>,
    duplicationRate: real,
    analysisTime: Option<string>,
    sessionId: Option<string>)

  /** `ORDER BY id` over the primary key: ids strictly increase. */
  predicate IdOrdered(table: seq<Row>) {
    forall a, b :: 0 <= a < b < |table| ==> table[a].id < table[b].id
  }

  /** `detect_duplicates_and_update`'s default `similarity_threshold`. */
  const DefaultThreshold: real := 0.8

  // ------------------------------------------------------------ hashing and similarity

  /** `not content`: missing or empty text. */
  predicate Blank(content: Option<string>) {
    content.None? || content.value == ""
  }

  /**
   * `generate_content_hash`: "" for blank content, otherwise the first
   * sixteen hex digits of the MD5 of the stripped text.
   */
  function ContentHash(content: Option<string>, md5: string -> AutoDedup.Digest): (r: string)
    ensures r == "" <==> Blank(content)
    ensures !Blank(content) ==> |r| == 16 && r == md5(Strip(content.value))[..16]
  {
    if Blank(content) then "" else md5(Strip(content.value))[..16]
  }

  /** Texts that differ only in leading or trailing whitespace hash alike. */
  lemma ContentHashStrip(a: string, b: string, md5: string -> AutoDedup.Digest)
    requires a != "" && b != "" && Strip(a) == Strip(b)
    ensures ContentHash(Some(a), md5) == ContentHash(Some(b), md5)
  {
  }

  /** `calculate_content_similarity`: 0 when either side is blank, else the ratio of the stripped texts. */
  function ContentSimilarity(c1: Option<string>, c2: Option<string>, ratio: (string, string) -> AutoDedup.Ratio): (r: real)
    ensures 0.0 <= r <= 1.0
    ensures Blank(c1) || Blank(c2) ==> r == 0.0
  {
    if Blank(c1) || Blank(c2) then 0.0 else ratio(Strip(c1.value), Strip(c2.value))
  }

  /** The hash of every row: the grouping key of `detect_duplicates_and_update`. */
  function HashKeys(table: seq<Row>, md5: string -> AutoDedup.Digest): (r: seq<Option<string>>)
    ensures |r| == |table|
    ensures forall i :: 0 <= i < |table| ==> r[i] == Some(ContentHash(table[i].content, md5))
  {
    seq(|table|, i requires 0 <= i < |table| => Some(ContentHash(table[i].content, md5)))
  }

  // ------------------------------------------------------------ detect_duplicates_and_update: pairs

  /** An entry of `duplicate_groups`: the positions of `record1` and `record2` and their similarity. */
  datatype Pair = Pair(first: nat, second: nat, similarity: real)

  function Sim(table: seq<Row>, p: nat, q: nat, ratio: (string, string) -> AutoDedup.Ratio): real
    requires p < |table| && q < |table|
  {
    ContentSimilarity(table[p].content, table[q].content, ratio)
  }

  /** Lexicographic order on the two positions of a pair. */
  predicate LexBefore(a: Pair, b: Pair) {
    a.first < b.first || (a.first == b.first && a.second < b.second)
  }

  /** Every pair joins two rows of group `g` in position order and records their similarity, which reaches the threshold. */
  ghost predicate GroupSound(table: seq<Row>, g: seq<nat>, threshold: real, ratio: (string, string) -> AutoDedup.Ratio, pairs: seq<Pair>) {
    forall t :: 0 <= t < |pairs| ==>
      && pairs[t].first < pairs[t].second < |table|
      && pairs[t].first in g && pairs[t].second in g
      && pairs[t].similarity == Sim(table, pairs[t].first, pairs[t].second, ratio) >= threshold
  }

  predicate PairsAscend(pairs: seq<Pair>) {
    forall s, t :: 0 <= s < t < |pairs| ==> LexBefore(pairs[s], pairs[t])
  }

  predicate Bounded(table: seq<Row>, g: seq<nat>) {
    forall w :: 0 <= w < |g| ==> g[w] < |table|
  }

  /** The pairs found before row `i` of the group: sound, ascending, and every similar pair `(x, y)` with `x < i`. */
  ghost predicate RowsDone(table: seq<Row>, g: seq<nat>, threshold: real, ratio: (string, string) -> AutoDedup.Ratio,
                           i: nat, pairs: seq<Pair>)
    requires i <= |g| && Bounded(table, g)
  {
    && GroupSound(table, g, threshold, ratio, pairs)
    && PairsAscend(pairs)
    && (forall t :: 0 <= t < |pairs| ==> i < |g| ==> pairs[t].first < g[i])
    && (forall x, y :: 0 <= x < y < |g| && x < i && Sim(table, g[x], g[y], ratio) >= threshold ==>
          Pair(g[x], g[y], Sim(table, g[x], g[y], ratio)) in pairs)
  }

  /** Inside row `i`, before column `j`. */
  ghost predicate RowScan(table: seq<Row>, g: seq<nat>, threshold: real, ratio: (string, string) -> AutoDedup.Ratio,
                          i: nat, j: nat, pairs: seq<Pair>)
    requires i < j <= |g| && Bounded(table, g)
  {
    && GroupSound(table, g, threshold, ratio, pairs)
    && PairsAscend(pairs)
    && (forall t :: 0 <= t < |pairs| ==>
          pairs[t].first < g[i] || (pairs[t].first == g[i] && (j < |g| ==> pairs[t].second < g[j])))
    && (forall x, y :: 0 <= x < y < |g| && (x < i || (x == i && y < j)) && Sim(table, g[x], g[y], ratio) >= threshold ==>
          Pair(g[x], g[y], Sim(table, g[x], g[y], ratio)) in pairs)
  }

  lemma RowStart(table: seq<Row>, g: seq<nat>, threshold: real, ratio: (string, string) -> AutoDedup.Ratio, i: nat, pairs: seq<Pair>)
    requires Ascending(g) && Bounded(table, g) && i + 1 <= |g|
    requires RowsDone(table, g, threshold, ratio, i, pairs)
    ensures RowScan(table, g, threshold, ratio, i, i + 1, pairs)
  {
  }

  /** A pair after every listed pair keeps the list ascending. */
  lemma AppendAscends(pairs: seq<Pair>, p: Pair)
    requires PairsAscend(pairs) && forall t :: 0 <= t < |pairs| ==> LexBefore(pairs[t], p)
    ensures PairsAscend(pairs + [p])
  {
  }

  /** A pair below the similarity threshold is passed over. */
  lemma ColumnSkip(table: seq<Row>, g: seq<nat>, threshold: real, ratio: (string, string) -> AutoDedup.Ratio,
                   i: nat, j: nat, pairs: seq<Pair>)
    requires Ascending(g) && Bounded(table, g) && i < j < |g| && Sim(table, g[i], g[j], ratio) < threshold
    requires RowScan(table, g, threshold, ratio, i, j, pairs)
    ensures RowScan(table, g, threshold, ratio, i, j + 1, pairs)
  {
    forall t | 0 <= t < |pairs|
      ensures pairs[t].first < g[i] || (pairs[t].first == g[i] && (j + 1 < |g| ==> pairs[t].second < g[j + 1]))
    {
      if pairs[t].first == g[i] && j + 1 < |g| {
        assert g[j] < g[j + 1];
      }
    }
    forall x, y | 0 <= x < y < |g| && (x < i || (x == i && y < j + 1)) && Sim(table, g[x], g[y], ratio) >= threshold
      ensures Pair(g[x], g[y], Sim(table, g[x], g[y], ratio)) in pairs
    {
      assert x < i || (x == i && y < j);
    }
  }

  lemma KeepSound(table: seq<Row>, g: seq<nat>, threshold: real, ratio: (string, string) -> AutoDedup.Ratio, pairs: seq<Pair>, p: Pair)
    requires GroupSound(table, g, threshold, ratio, pairs)
    requires p.first < p.second < |table| && p.first in g && p.second in g
    requires p.similarity == Sim(table, p.first, p.second, ratio) >= threshold
    ensures GroupSound(table, g, threshold, ratio, pairs + [p])
  {
  }

  lemma KeepBound(g: seq<nat>, i: nat, j: nat, pairs: seq<Pair>, s: real)
    requires Ascending(g) && i < j < |g|
    requires forall t :: 0 <= t < |pairs| ==> pairs[t].first < g[i] || (pairs[t].first == g[i] && pairs[t].second < g[j])
    ensures forall t :: 0 <= t < |pairs| ==> LexBefore(pairs[t], Pair(g[i], g[j], s))
    ensures var pairs' := pairs + [Pair(g[i], g[j], s)];
      forall t :: 0 <= t < |pairs'| ==>
        pairs'[t].first < g[i] || (pairs'[t].first == g[i] && (j + 1 < |g| ==> pairs'[t].second < g[j + 1]))
  {
  }

  lemma KeepComplete(table: seq<Row>, g: seq<nat>, threshold: real, ratio: (string, string) -> AutoDedup.Ratio,
                     i: nat, j: nat, pairs: seq<Pair>)
    requires Bounded(table, g) && i < j < |g|
    requires forall x, y :: 0 <= x < y < |g| && (x < i || (x == i && y < j)) && Sim(table, g[x], g[y], ratio) >= threshold ==>
      Pair(g[x], g[y], Sim(table, g[x], g[y], ratio)) in pairs
    ensures var pairs' := pairs + [Pair(g[i], g[j], Sim(table, g[i], g[j], ratio))];
      forall x, y :: 0 <= x < y < |g| && (x < i || (x == i && y < j + 1)) && Sim(table, g[x], g[y], ratio) >= threshold ==>
        Pair(g[x], g[y], Sim(table, g[x], g[y], ratio)) in pairs'
  {
  }

  /** A pair that reaches the threshold is appended after every pair found so far. */
  lemma ColumnKeep(table: seq<Row>, g: seq<nat>, threshold: real, ratio: (string, string) -> AutoDedup.Ratio,
                   i: nat, j: nat, pairs: seq<Pair>)
    requires Ascending(g) && Bounded(table, g) && i < j < |g| && Sim(table, g[i], g[j], ratio) >= threshold
    requires RowScan(table, g, threshold, ratio, i, j, pairs)
    ensures RowScan(table, g, threshold, ratio, i, j + 1, pairs + [Pair(g[i], g[j], Sim(table, g[i], g[j], ratio))])
  {
    var p := Pair(g[i], g[j], Sim(table, g[i], g[j], ratio));
    assert g[i] < g[j] && g[i] in g && g[j] in g;
    KeepSound(table, g, threshold, ratio, pairs, p);
    KeepBound(g, i, j, pairs, p.similarity);
    AppendAscends(pairs, p);
    KeepComplete(table, g, threshold, ratio, i, j, pairs);
  }

  lemma RowEnd(table: seq<Row>, g: seq<nat>, threshold: real, ratio: (string, string) -> AutoDedup.Ratio, i: nat, pairs: seq<Pair>)
    requires Ascending(g) && Bounded(table, g) && i < |g|
    requires RowScan(table, g, threshold, ratio, i, |g|, pairs)
    ensures RowsDone(table, g, threshold, ratio, i + 1, pairs)
  {
  }

  /** The double loop over one hash group: every pair `i < j` of its rows whose similarity reaches the threshold. */
  method ScanGroup(table: seq<Row>, g: seq<nat>, threshold: real, ratio: (string, string) -> AutoDedup.Ratio)
    returns (pairs: seq<Pair>)
    requires Ascending(g) && Bounded(table, g)
    ensures GroupSound(table, g, threshold, ratio, pairs) && PairsAscend(pairs)
    ensures forall x, y :: 0 <= x < y < |g| && Sim(table, g[x], g[y], ratio) >= threshold ==>
      Pair(g[x], g[y], Sim(table, g[x], g[y], ratio)) in pairs
  {
    pairs := [];
    for i := 0 to |g|
      invariant RowsDone(table, g, threshold, ratio, i, pairs)
    {
      RowStart(table, g, threshold, ratio, i, pairs);
      for j := i + 1 to |g|
        invariant RowScan(table, g, threshold, ratio, i, j, pairs)
      {
        var similarity := ContentSimilarity(table[g[i]].content, table[g[j]].content, ratio);
        if similarity >= threshold {
          ColumnKeep(table, g, threshold, ratio, i, j, pairs);
          pairs := pairs + [Pair(g[i], g[j], similarity)];
        } else {
          ColumnSkip(table, g, threshold, ratio, i, j, pairs);
        }
      }
      RowEnd(table, g, threshold, ratio, i, pairs);
    }
  }

  // ------------------------------------------------------------ detect_duplicates_and_update: all groups

  /** The first row of the hash group of position `p`. */
  function Head(keys: seq<Option<string>>, p: nat): nat
    requires p < |keys|
  {
    FirstSame(keys, p, 0)
  }

  /** The order of `duplicate_groups`: by hash group in order of first appearance, then by position. */
  predicate HeadBefore(keys: seq<Option<string>>, a: Pair, b: Pair)
    requires a.first < |keys| && b.first < |keys|
  {
    Head(keys, a.first) < Head(keys, b.first) || (Head(keys, a.first) == Head(keys, b.first) && LexBefore(a, b))
  }

  /** `x` and `y` are two rows of one hash group whose similarity, in position order, reaches the threshold. */
  ghost predicate Similar(table: seq<Row>, keys: seq<Option<string>>, threshold: real, ratio: (string, string) -> AutoDedup.Ratio, x: nat, y: nat)
    requires |keys| == |table|
  {
    && x < |table| && y < |table| && x != y && keys[x].Some? && keys[x] == keys[y]
    && Sim(table, if x < y then x else y, if x < y then y else x, ratio) >= threshold
  }

  /** The pairs found for the hash groups in `done`: sound, complete for those groups, and in group order. */
  ghost predicate FoundFor(table: seq<Row>, keys: seq<Option<string>>, threshold: real, ratio: (string, string) -> AutoDedup.Ratio,
                           done: set<string>, pairs: seq<Pair>)
    requires |keys| == |table|
  {
    && (forall t :: 0 <= t < |pairs| ==>
          && pairs[t].first < pairs[t].second < |table|
          && keys[pairs[t].first] == keys[pairs[t].second]
          && keys[pairs[t].first].Some? && keys[pairs[t].first].value in done
          && pairs[t].similarity == Sim(table, pairs[t].first, pairs[t].second, ratio) >= threshold)
    && (forall p, q ::
          (0 <= p < q < |table| && keys[p] == keys[q] && keys[p].Some? && keys[p].value in done
           && Sim(table, p, q, ratio) >= threshold) ==> Pair(p, q, Sim(table, p, q, ratio)) in pairs)
    && (forall s, t :: 0 <= s < t < |pairs| ==> HeadBefore(keys, pairs[s], pairs[t]))
  }

  /** The rows of the groups handled so far all start before the next group. */
  lemma DoneHeadsBelow(keys: seq<Option<string>>, order: seq<string>, groups: map<string, seq<nat>>, a: nat)
    requires KeyGroups(keys, order, groups) && HeadsAscend(order, groups) && a < |order|
    ensures forall p :: 0 <= p < |keys| && keys[p].Some? && keys[p].value in Seen(order, a) ==>
      Head(keys, p) < groups[order[a]][0]
  {
    forall p | 0 <= p < |keys| && keys[p].Some? && keys[p].value in Seen(order, a)
      ensures Head(keys, p) < groups[order[a]][0]
    {
      var b :| 0 <= b < a && order[b] == keys[p].value;
      var g := groups[order[b]];
      assert p in g;
      var u :| 0 <= u < |g| && g[u] == p;
    }
  }

  lemma FoundSound(table: seq<Row>, keys: seq<Option<string>>, threshold: real, ratio: (string, string) -> AutoDedup.Ratio,
                   done: set<string>, pairs: seq<Pair>, k: string, g: seq<nat>, gp: seq<Pair>)
    requires |keys| == |table| && WholeGroup(keys, k, g)
    requires FoundFor(table, keys, threshold, ratio, done, pairs)
    requires GroupSound(table, g, threshold, ratio, gp)
    ensures forall t :: 0 <= t < |pairs + gp| ==>
      && (pairs + gp)[t].first < (pairs + gp)[t].second < |table|
      && keys[(pairs + gp)[t].first] == keys[(pairs + gp)[t].second]
      && keys[(pairs + gp)[t].first].Some? && keys[(pairs + gp)[t].first].value in done + {k}
      && (pairs + gp)[t].similarity == Sim(table, (pairs + gp)[t].first, (pairs + gp)[t].second, ratio) >= threshold
  {
    forall pr | pr in gp
      ensures keys[pr.first] == Some(k) == keys[pr.second]
    {
      var u :| 0 <= u < |g| && g[u] == pr.first;
      var w :| 0 <= w < |g| && g[w] == pr.second;
    }
  }

  lemma FoundComplete(table: seq<Row>, keys: seq<Option<string>>, threshold: real, ratio: (string, string) -> AutoDedup.Ratio,
                      done: set<string>, pairs: seq<Pair>, k: string, g: seq<nat>, gp: seq<Pair>)
    requires |keys| == |table| && WholeGroup(keys, k, g)
    requires FoundFor(table, keys, threshold, ratio, done, pairs)
    requires forall x, y :: 0 <= x < y < |g| && Sim(table, g[x], g[y], ratio) >= threshold ==>
      Pair(g[x], g[y], Sim(table, g[x], g[y], ratio)) in gp
    ensures forall p, q ::
      (0 <= p < q < |table| && keys[p] == keys[q] && keys[p].Some? && keys[p].value in done + {k}
       && Sim(table, p, q, ratio) >= threshold) ==> Pair(p, q, Sim(table, p, q, ratio)) in pairs + gp
  {
    forall p, q | 0 <= p < q < |table| && keys[p] == keys[q] && keys[p] == Some(k) && Sim(table, p, q, ratio) >= threshold
      ensures Pair(p, q, Sim(table, p, q, ratio)) in gp
    {
      assert p in g && q in g;
      var x :| 0 <= x < |g| && g[x] == p;
      var y :| 0 <= y < |g| && g[y] == q;
    }
  }

  lemma FoundOrder(keys: seq<Option<string>>, done: set<string>, pairs: seq<Pair>, k: string, g: seq<nat>, gp: seq<Pair>)
    requires WholeGroup(keys, k, g) && PairsAscend(gp)
    requires forall t :: 0 <= t < |pairs| ==> pairs[t].first < |keys| && Head(keys, pairs[t].first) < g[0]
    requires forall s, t :: 0 <= s < t < |pairs| ==> HeadBefore(keys, pairs[s], pairs[t])
    requires forall t :: 0 <= t < |gp| ==> gp[t].first in g
    ensures forall s, t :: 0 <= s < t < |pairs + gp| ==> HeadBefore(keys, (pairs + gp)[s], (pairs + gp)[t])
  {
    forall t | 0 <= t < |gp| ensures gp[t].first < |keys| && Head(keys, gp[t].first) == g[0] {
      var u :| 0 <= u < |g| && g[u] == gp[t].first;
    }
  }

  /** Appending the pairs of the next hash group. */
  lemma FoundStep(table: seq<Row>, keys: seq<Option<string>>, threshold: real, ratio: (string, string) -> AutoDedup.Ratio,
                  order: seq<string>, groups: map<string, seq<nat>>, a: nat, pairs: seq<Pair>, gp: seq<Pair>)
    requires |keys| == |table| && KeyGroups(keys, order, groups) && HeadsAscend(order, groups) && a < |order|
    requires FoundFor(table, keys, threshold, ratio, Seen(order, a), pairs)
    requires var g := groups[order[a]];
      && GroupSound(table, g, threshold, ratio, gp) && PairsAscend(gp)
      && forall x, y :: 0 <= x < y < |g| && Sim(table, g[x], g[y], ratio) >= threshold ==>
           Pair(g[x], g[y], Sim(table, g[x], g[y], ratio)) in gp
    ensures FoundFor(table, keys, threshold, ratio, Seen(order, a) + {order[a]}, pairs + gp)
  {
    var k, g, done := order[a], groups[order[a]], Seen(order, a);
    FoundSound(table, keys, threshold, ratio, done, pairs, k, g, gp);
    FoundComplete(table, keys, threshold, ratio, done, pairs, k, g, gp);
    DoneHeadsBelow(keys, order, groups, a);
    FoundOrder(keys, done, pairs, k, g, gp);
  }

  /** A hash group of one row has no pair. */
  lemma FoundSingle(table: seq<Row>, keys: seq<Option<string>>, threshold: real, ratio: (string, string) -> AutoDedup.Ratio,
                    done: set<string>, pairs: seq<Pair>, k: string, g: seq<nat>)
    requires |keys| == |table| && WholeGroup(keys, k, g) && |g| == 1
    requires FoundFor(table, keys, threshold, ratio, done, pairs)
    ensures FoundFor(table, keys, threshold, ratio, done + {k}, pairs)
  {
    forall p | 0 <= p < |table| && keys[p] == Some(k) ensures p == g[0] {
      assert p in g;
    }
  }

  /** One turn of the loop over `hash_groups.items()`: groups of one row are skipped, others scanned pair by pair. */
  method ScanNext(table: seq<Row>, keys: seq<Option<string>>, threshold: real, ratio: (string, string) -> AutoDedup.Ratio,
                  order: seq<string>, groups: map<string, seq<nat>>, a: nat, pairs: seq<Pair>) returns (pairs': seq<Pair>)
    requires |keys| == |table| && KeyGroups(keys, order, groups) && HeadsAscend(order, groups) && a < |order|
    requires FoundFor(table, keys, threshold, ratio, Seen(order, a), pairs)
    ensures FoundFor(table, keys, threshold, ratio, Seen(order, a + 1), pairs')
  {
    var k := order[a];
    var g := groups[k];
    SeenStep(order, a);
    if |g| <= 1 {
      FoundSingle(table, keys, threshold, ratio, Seen(order, a), pairs, k, g);
      return pairs;
    }
    var gp := ScanGroup(table, g, threshold, ratio);
    FoundStep(table, keys, threshold, ratio, order, groups, a, pairs, gp);
    pairs' := pairs + gp;
  }

  /** The loop over `hash_groups.items()`: the pairs of every group with more than one row. */
  method ScanAll(table: seq<Row>, keys: seq<Option<string>>, threshold: real, ratio: (string, string) -> AutoDedup.Ratio,
                 order: seq<string>, groups: map<string, seq<nat>>) returns (pairs: seq<Pair>)
    requires |keys| == |table| && KeyGroups(keys, order, groups) && HeadsAscend(order, groups)
    ensures FoundFor(table, keys, threshold, ratio, Seen(order, |order|), pairs)
  {
    pairs := [];
    for a := 0 to |order|
      invariant FoundFor(table, keys, threshold, ratio, Seen(order, a), pairs)
    {
      pairs := ScanNext(table, keys, threshold, ratio, order, groups, a, pairs);
    }
  }

  /** `duplicate_groups` once all hash groups are scanned: every similar pair of one hash group, once, in group order. */
  ghost predicate Detected(table: seq<Row>, keys: seq<Option<string>>, threshold: real, ratio: (string, string) -> AutoDedup.Ratio,
                           pairs: seq<Pair>)
    requires |keys| == |table|
  {
    FoundFor(table, keys, threshold, ratio, KeySet(keys), pairs)
  }

  // ------------------------------------------------------------ detect_duplicates_and_update: the updates

  /** Every pair names two rows of the table. */
  predicate PairsIn(table: seq<Row>, pairs: seq<Pair>) {
    forall t :: 0 <= t < |pairs| ==> pairs[t].first < |table| && pairs[t].second < |table|
  }

  /** `row` marked as a duplicate of `partner` with the given rate. */
  function Mark(row: Row, partner: Row, rate: real): Row {
    row.(duplicateId := Some(IntToString(partner.id)), duplicationRate := rate)
  }

  /** `UPDATE sentiment_results SET duplicate_id = ?, duplication_rate = ? WHERE id = ?`. */
  function UpdateWhereId(table: seq<Row>, id: int, partner: Row, rate: real): (r: seq<Row>)
    ensures |r| == |table|
    ensures forall x :: 0 <= x < |table| && table[x].id == id ==> r[x] == Mark(table[x], partner, rate)
    ensures forall x :: 0 <= x < |table| && table[x].id != id ==> r[x] == table[x]
  {
    seq(|table|, x requires 0 <= x < |table| => if table[x].id == id then Mark(table[x], partner, rate) else table[x])
  }

  /** The table after the updates for the first `n` pairs: `record1` names `record2`, then `record2` names `record1`. */
  function ApplyPairs(table: seq<Row>, pairs: seq<Pair>, n: nat): (r: seq<Row>)
    requires n <= |pairs| && PairsIn(table, pairs)
    ensures |r| == |table|
  {
    if n == 0 then table
    else
      var p := pairs[n - 1];
      var once := UpdateWhereId(ApplyPairs(table, pairs, n - 1), table[p.first].id, table[p.second], p.similarity);
      UpdateWhereId(once, table[p.second].id, table[p.first], p.similarity)
  }

  /** The last of the first `n` pairs that names position `x`. */
  function LastTouch(pairs: seq<Pair>, x: nat, n: nat): (r: Option<nat>)
    requires n <= |pairs|
    ensures r.Some? ==> r.value < n && (pairs[r.value].first == x || pairs[r.value].second == x)
    ensures r.Some? ==> forall t :: r.value < t < n ==> pairs[t].first != x && pairs[t].second != x
    ensures r.None? ==> forall t :: 0 <= t < n ==> pairs[t].first != x && pairs[t].second != x
  {
    if n == 0 then None
    else if pairs[n - 1].first == x || pairs[n - 1].second == x then Some(n - 1)
    else LastTouch(pairs, x, n - 1)
  }

  /** The other row of a pair. */
  function Partner(p: Pair, x: nat): nat {
    if p.first == x then p.second else p.first
  }

  /** Row `x` after the updates for the first `n` pairs, one row at a time. */
  function RowAfter(table: seq<Row>, pairs: seq<Pair>, n: nat, x: nat): (r: Row)
    requires n <= |pairs| && PairsIn(table, pairs) && x < |table|
    ensures r.id == table[x].id && r.content == table[x].content && r.analysisTime == table[x].analysisTime
  {
    if n == 0 then table[x]
    else
      var p := pairs[n - 1];
      var prev := RowAfter(table, pairs, n - 1, x);
      var once := if table[x].id == table[p.first].id then Mark(prev, table[p.second], p.similarity) else prev;
      if table[x].id == table[p.second].id then Mark(once, table[p.first], p.similarity) else once
  }

  lemma {:induction false} ApplyPairsRows(table: seq<Row>, pairs: seq<Pair>, n: nat, x: nat)
    requires n <= |pairs| && PairsIn(table, pairs) && x < |table|
    ensures ApplyPairs(table, pairs, n)[x] == RowAfter(table, pairs, n, x)
  {
    if n > 0 {
      ApplyPairsRows(table, pairs, n - 1, x);
    }
  }

  /** Each row ends up as the last pair naming it left it: marked with that pair's other row, or untouched. */
  lemma {:induction false} RowAfterLast(table: seq<Row>, pairs: seq<Pair>, n: nat, x: nat)
    requires IdOrdered(table) && PairsIn(table, pairs) && n <= |pairs| && x < |table|
    requires forall t :: 0 <= t < |pairs| ==> pairs[t].first != pairs[t].second
    ensures LastTouch(pairs, x, n).None? ==> RowAfter(table, pairs, n, x) == table[x]
    ensures LastTouch(pairs, x, n).Some? ==>
      var p := pairs[LastTouch(pairs, x, n).value];
      RowAfter(table, pairs, n, x) == Mark(table[x], table[Partner(p, x)], p.similarity)
  {
    if n > 0 {
      RowAfterLast(table, pairs, n - 1, x);
      var p := pairs[n - 1];
      assert table[p.first].id == table[x].id <==> p.first == x;
      assert table[p.second].id == table[x].id <==> p.second == x;
    }
  }

  lemma DetectedPairsIn(table: seq<Row>, keys: seq<Option<string>>, threshold: real, ratio: (string, string) -> AutoDedup.Ratio,
                        pairs: seq<Pair>)
    requires |keys| == |table| && Detected(table, keys, threshold, ratio, pairs)
    ensures PairsIn(table, pairs)
    ensures forall t :: 0 <= t < |pairs| ==> pairs[t].first != pairs[t].second
  {
  }

  /** A row no pair names has no similar row in its hash group. */
  lemma UntouchedDissimilar(table: seq<Row>, keys: seq<Option<string>>, threshold: real, ratio: (string, string) -> AutoDedup.Ratio,
                            pairs: seq<Pair>, x: nat)
    requires |keys| == |table| && Detected(table, keys, threshold, ratio, pairs)
    requires forall t :: 0 <= t < |pairs| ==> pairs[t].first != x && pairs[t].second != x
    ensures forall y: nat :: !Similar(table, keys, threshold, ratio, x, y)
  {
  }

  /** The other row of a pair naming `x` is similar to it, with the pair's similarity. */
  lemma TouchedSimilar(table: seq<Row>, keys: seq<Option<string>>, threshold: real, ratio: (string, string) -> AutoDedup.Ratio,
                       pairs: seq<Pair>, x: nat, t: nat)
    requires |keys| == |table| && Detected(table, keys, threshold, ratio, pairs)
    requires t < |pairs| && (pairs[t].first == x || pairs[t].second == x)
    ensures var y := Partner(pairs[t], x);
      Similar(table, keys, threshold, ratio, x, y) &&
      pairs[t].similarity == Sim(table, if x < y then x else y, if x < y then y else x, ratio)
  {
  }

  /**
   * After the updates a row names another row of its hash group that is
   * similar enough, with their similarity, exactly when it has one; a row
   * with none keeps its old `duplicate_id` and `duplication_rate`.
   */
  lemma MarksAfterDetect(table: seq<Row>, keys: seq<Option<string>>, threshold: real, ratio: (string, string) -> AutoDedup.Ratio,
                         pairs: seq<Pair>, x: nat)
    requires IdOrdered(table) && |keys| == |table| && Detected(table, keys, threshold, ratio, pairs) && x < |table|
    ensures PairsIn(table, pairs)
    ensures (forall y: nat :: !Similar(table, keys, threshold, ratio, x, y)) ==> ApplyPairs(table, pairs, |pairs|)[x] == table[x]
    ensures (exists y: nat :: Similar(table, keys, threshold, ratio, x, y)) ==>
      exists y: nat :: Similar(table, keys, threshold, ratio, x, y) &&
        ApplyPairs(table, pairs, |pairs|)[x] == Mark(table[x], table[y], Sim(table, if x < y then x else y, if x < y then y else x, ratio))
  {
    DetectedPairsIn(table, keys, threshold, ratio, pairs);
    ApplyPairsRows(table, pairs, |pairs|, x);
    RowAfterLast(table, pairs, |pairs|, x);
    match LastTouch(pairs, x, |pairs|)
    case None =>
      UntouchedDissimilar(table, keys, threshold, ratio, pairs, x);
    case Some(t) =>
      TouchedSimilar(table, keys, threshold, ratio, pairs, x, t);
      var y := Partner(pairs[t], x);
      assert Similar(table, keys, threshold, ratio, x, y);
  }

  // ------------------------------------------------------------ detect_duplicates_and_update: the count

  /** The unordered pairs of rows of one hash group whose similarity reaches the threshold. */
  ghost function SimilarPairs(table: seq<Row>, keys: seq<Option<string>>, threshold: real, ratio: (string, string) -> AutoDedup.Ratio): set<(nat, nat)>
    requires |keys| == |table|
  {
    set p: nat, q: nat | p < q < |table| && keys[p].Some? && keys[p] == keys[q] && Sim(table, p, q, ratio) >= threshold :: (p, q)
  }

  /** The positions of the first `n` pairs. */
  ghost function PairSet(pairs: seq<Pair>, n: nat): set<(nat, nat)>
    requires n <= |pairs|
  {
    set t | 0 <= t < n :: (pairs[t].first, pairs[t].second)
  }

  /** No two pairs name the same two rows. */
  predicate PairsDistinct(pairs: seq<Pair>) {
    forall s, t :: 0 <= s < t < |pairs| ==> (pairs[s].first, pairs[s].second) != (pairs[t].first, pairs[t].second)
  }

  lemma {:induction false} PairSetSize(pairs: seq<Pair>, n: nat)
    requires n <= |pairs| && PairsDistinct(pairs)
    ensures |PairSet(pairs, n)| == n
  {
    if n > 0 {
      PairSetSize(pairs, n - 1);
      var last := (pairs[n - 1].first, pairs[n - 1].second);
      assert PairSet(pairs, n) == PairSet(pairs, n - 1) + {last};
      assert last !in PairSet(pairs, n - 1);
    }
  }

  /** `len(duplicate_groups)` counts every similar pair of one hash group exactly once. */
  lemma DetectedCount(table: seq<Row>, keys: seq<Option<string>>, threshold: real, ratio: (string, string) -> AutoDedup.Ratio,
                      pairs: seq<Pair>)
    requires |keys| == |table| && Detected(table, keys, threshold, ratio, pairs)
    ensures |pairs| == |SimilarPairs(table, keys, threshold, ratio)|
  {
    forall s, t | 0 <= s < t < |pairs|
      ensures (pairs[s].first, pairs[s].second) != (pairs[t].first, pairs[t].second)
    {
      assert HeadBefore(keys, pairs[s], pairs[t]);
    }
    PairSetSize(pairs, |pairs|);
    forall pq | pq in SimilarPairs(table, keys, threshold, ratio) ensures pq in PairSet(pairs, |pairs|) {
      assert keys[pq.0].value in KeySet(keys);
      var t :| 0 <= t < |pairs| && pairs[t] == Pair(pq.0, pq.1, Sim(table, pq.0, pq.1, ratio));
    }
    assert PairSet(pairs, |pairs|) == SimilarPairs(table, keys, threshold, ratio);
  }

  // ------------------------------------------------------------ detect_duplicates_and_update

  /** The loop over `duplicate_groups`: two `UPDATE`s per pair. */
  method UpdatePairs(table: seq<Row>, pairs: seq<Pair>) returns (updated: seq<Row>)
    requires PairsIn(table, pairs)
    ensures updated == ApplyPairs(table, pairs, |pairs|)
  {
    updated := table;
    for t := 0 to |pairs|
      invariant updated == ApplyPairs(table, pairs, t)
    {
      var p := pairs[t];
      updated := UpdateWhereId(updated, table[p.first].id, table[p.second], p.similarity);
      updated := UpdateWhereId(updated, table[p.second].id, table[p.first], p.similarity);
    }
  }

  /**
   * `detect_duplicates_and_update`: group the rows by content hash, pair
   * every two rows of a group whose similarity reaches the threshold, mark
   * both rows of each pair with the other's id, and return the number of
   * pairs.
   */
  method DetectDuplicatesAndUpdate(table: seq<Row>, md5: string -> AutoDedup.Digest, threshold: real,
                                   ratio: (string, string) -> AutoDedup.Ratio)
    returns (found: nat, pairs: seq<Pair>, updated: seq<Row>)
    ensures Detected(table, HashKeys(table, md5), threshold, ratio, pairs)
    ensures found == |pairs| == |SimilarPairs(table, HashKeys(table, md5), threshold, ratio)|
    ensures PairsIn(table, pairs) && updated == ApplyPairs(table, pairs, |pairs|)
  {
    var keys := HashKeys(table, md5);
    var order, groups := GroupPositions(keys);
    GroupedKeyGroups(keys, order, groups);
    pairs := ScanAll(table, keys, threshold, ratio, order, groups);
    SeenAll(keys, order, groups);
    DetectedPairsIn(table, keys, threshold, ratio, pairs);
    DetectedCount(table, keys, threshold, ratio, pairs);
    updated := UpdatePairs(table, pairs);
    found := |pairs|;
  }

  // ------------------------------------------------------------ clean_duplicate_records: the group keys

  /** The `WHERE` of `clean_duplicate_records`: a `duplicate_id` that is not NULL, not "" and not "无". */
  predicate Flagged(row: Row) {
    row.duplicateId.Some? && row.duplicateId.value != "" && row.duplicateId.value != "无"
  }

  predicate IsDigits(d: string) {
    |d| > 0 && forall k :: 0 <= k < |d| ==> '0' <= d[k] <= '9'
  }

  /** The number a run of decimal digits spells (read on digits only). */
  function DigitsValue(d: string): int {
    if |d| == 0 then 0 else DigitsValue(d[..|d| - 1]) * 10 + (d[|d| - 1] as int - '0' as int)
  }

  /** One of the separators `int()` allows between two digits. */
  predicate IsDigitOrSeparator(c: char) {
    ('0' <= c <= '9') || c == '_'
  }

  /** `int()`'s body: decimal digits, with single `_` separators between two digits. */
  predicate IsDigitGroups(d: string) {
    && |d| > 0 && '0' <= d[0] <= '9' && '0' <= d[|d| - 1] <= '9'
    && (forall k :: 0 <= k < |d| ==> IsDigitOrSeparator(d[k]))
    && (forall k :: 0 <= k < |d| - 1 && d[k] == '_' ==> d[k + 1] != '_')
  }

  /** The digits of `d`, its `_` separators dropped. */
  function DropSeparators(d: string): (r: string)
    ensures |r| <= |d|
    ensures (forall k :: 0 <= k < |d| ==> d[k] != '_') ==> r == d
    ensures (forall k :: 0 <= k < |d| ==> IsDigitOrSeparator(d[k])) ==> forall k :: 0 <= k < |r| ==> '0' <= r[k] <= '9'
  {
    if |d| == 0 then []
    else
      var init := DropSeparators(d[..|d| - 1]);
      if d[|d| - 1] == '_' then init else init + [d[|d| - 1]]
  }

  /**
   * `int(s)`: surrounding whitespace, an optional sign, then decimal digits
   * with single `_` separators between digits; anything else raises
   * `ValueError`.
   */
  function ParseInt(s: string): (r: Option<int>)
    ensures r.Some? ==> Strip(s) != ""
    ensures r.Some? <==> IntText(Strip(s))
  {
    ParseSigned(Strip(s))
  }

  /** What `int()` reads after stripping: digit groups, optionally after a sign. */
  predicate IntText(t: string) {
    IsDigitGroups(t) || (|t| > 0 && (t[0] == '-' || t[0] == '+') && IsDigitGroups(t[1..]))
  }

  /** An optional sign followed by digit groups. */
  function ParseSigned(t: string): (r: Option<int>)
    ensures r.Some? ==> t != ""
  {
    if |t| > 0 && (t[0] == '-' || t[0] == '+') then
      if IsDigitGroups(t[1..]) then
        var v := DigitsValue(DropSeparators(t[1..]));
        Some(if t[0] == '-' then -v else v)
      else None
    else if IsDigitGroups(t) then Some(DigitsValue(DropSeparators(t))) else None
  }

  /** `int("1_0") == 10`: an underscore between two digits is a separator. */
  lemma SeparatedDigits()
    ensures ParseInt("1_0") == Some(10)
  {
    var s := "1_0";
    NoSpaceIn(s);
    assert IsDigitGroups(s);
    ParseGroups(s);
    DropOneSeparator();
    TenValue();
  }

  /** Unsigned digit groups parse to the value of their digits. */
  lemma ParseGroups(s: string)
    requires IsDigitGroups(s) && forall k :: 0 <= k < |s| ==> !IsSpace(s[k])
    ensures ParseInt(s) == Some(DigitsValue(DropSeparators(s)))
  {
    StripNoSpace(s);
    assert ParseInt(s) == ParseSigned(s);
    assert s[0] != '-' && s[0] != '+';
  }

  lemma TenValue()
    ensures DigitsValue("10") == 10
  {
    assert "10"[..1] == "1" && "1"[..0] == "";
  }

  lemma NoSpaceIn(s: string)
    requires forall k :: 0 <= k < |s| ==> IsDigitOrSeparator(s[k])
    ensures forall k :: 0 <= k < |s| ==> !IsSpace(s[k])
  {
  }

  lemma DropOneSeparator()
    ensures DropSeparators("1_0") == "10"
  {
    var s := "1_0";
    assert s[..2] == "1_" && s[..2][..1] == "1" && "1"[..0] == "";
  }

  /** `int("1__0")` raises: two separators in a row are refused. */
  lemma DoubleSeparatorRefused()
    ensures ParseInt("1__0").None?
  {
    var s := "1__0";
    NoSpaceIn(s);
    StripNoSpace(s);
    assert !IsDigitGroups(s) by {
      assert s[1] == '_' && s[2] == '_';
    }
  }

  lemma DigitsValueSnoc(init: string, c: char)
    ensures DigitsValue(init + [c]) == DigitsValue(init) * 10 + (c as int - '0' as int)
  {
    assert (init + [c])[..|init|] == init;
  }

  lemma NatToStringSnoc(n: nat, init: string, k: nat)
    requires init == (if n < 10 then "" else NatToString(n / 10)) && k == n % 10
    ensures NatToString(n) == init + [('0' as int + k) as char]
  {
  }

  lemma {:induction false} DigitsOfNat(n: nat)
    ensures IsDigits(NatToString(n)) && DigitsValue(NatToString(n)) == n
    decreases n
  {
    var init := if n < 10 then "" else NatToString(n / 10);
    var k := n % 10;
    var c := ('0' as int + k) as char;
    NatToStringSnoc(n, init, k);
    DigitsValueSnoc(init, c);
    if n >= 10 {
      DigitsOfNat(n / 10);
    }
    assert DigitsValue(init) == n / 10;
    assert c as int - '0' as int == k;
    assert (n / 10) * 10 + k == n;
  }

  /** `str(i)` holds no whitespace, so `int()` sees it unstripped. */
  lemma StripShow(i: int)
    ensures Strip(IntToString(i)) == IntToString(i)
  {
    var s := IntToString(i);
    if i < 0 {
      var d := NatToString(-i);
      assert s == "-" + d;
      forall k | 0 <= k < |s| ensures !IsSpace(s[k]) {
        if k > 0 {
          assert s[k] == d[k - 1];
        }
      }
    }
    StripNoSpace(s);
  }

  lemma ParseDigits(d: string)
    requires IsDigits(d)
    ensures ParseSigned(d) == Some(DigitsValue(d))
  {
    assert d[0] != '-' && d[0] != '+';
    assert IsDigitGroups(d);
  }

  lemma ParseNegative(s: string, d: string, v: int)
    requires IsDigits(d) && DigitsValue(d) == v && s == "-" + d
    ensures ParseSigned(s) == Some(-v)
  {
    assert s[1..] == d;
    assert IsDigitGroups(d);
  }

  lemma ParseStripped(s: string, v: int)
    requires Strip(s) == s && ParseSigned(s) == Some(v)
    ensures ParseInt(s) == Some(v)
  {
  }

  lemma ParseSignedShow(i: int)
    ensures ParseSigned(IntToString(i)) == Some(i)
  {
    if i < 0 {
      ParseShowNegative(i);
    } else {
      ParseShowNatural(i);
    }
  }

  lemma ParseShowNegative(i: int)
    requires i < 0
    ensures ParseSigned(IntToString(i)) == Some(i)
  {
    var n: nat := -i;
    ShowNegative(i, n);
    ParseMinusDigits(IntToString(i), n);
  }

  lemma ParseMinusDigits(t: string, n: nat)
    requires t == "-" + NatToString(n)
    ensures ParseSigned(t) == Some(-(n as int))
  {
    DigitsOfNat(n);
    ParseNegative(t, NatToString(n), n);
  }

  lemma ParseShowNatural(n: nat)
    ensures ParseSigned(IntToString(n)) == Some(n as int)
  {
    DigitsOfNat(n);
    ParseDigits(NatToString(n));
  }

  /** `int(str(i)) == i`: the ids `detect_duplicates_and_update` writes read back as the same ids. */
  lemma ParseIntShow(i: int)
    ensures ParseInt(IntToString(i)) == Some(i)
  {
    StripShow(i);
    ParseSignedShow(i);
    ParseStripped(IntToString(i), i);
  }

  /** `tuple(sorted([record_id, int(duplicate_id)]))`. */
  function PairKey(id: int, d: int): (r: (int, int))
    ensures r.0 <= r.1 && {r.0, r.1} == {id, d}
  {
    if id <= d then (id, d) else (d, id)
  }

  /** Every flagged row's `duplicate_id` goes through `int()`. */
  predicate ParsesAll(table: seq<Row>) {
    forall i :: 0 <= i < |table| && Flagged(table[i]) ==> ParseInt(table[i].duplicateId.value).Some?
  }

  /** The group key of each row: its sorted id pair when flagged and parsed, none otherwise. */
  function CleanKeys(table: seq<Row>): (r: seq<Option<(int, int)>>)
    ensures |r| == |table|
    ensures forall i :: 0 <= i < |table| ==>
      (r[i].Some? <==> Flagged(table[i]) && ParseInt(table[i].duplicateId.value).Some?)
    ensures forall i :: 0 <= i < |table| && Flagged(table[i]) && ParseInt(table[i].duplicateId.value).Some? ==>
      r[i] == Some(PairKey(table[i].id, ParseInt(table[i].duplicateId.value).value))
  {
    seq(|table|, i requires 0 <= i < |table| =>
      if Flagged(table[i]) && ParseInt(table[i].duplicateId.value).Some?
      then Some(PairKey(table[i].id, ParseInt(table[i].duplicateId.value).value))
      else None)
  }

  /** Two rows marked as each other's duplicate fall in one group. */
  lemma MutualMarksShareKey(table: seq<Row>, x: nat, y: nat)
    requires x < |table| && y < |table|
    requires table[x].duplicateId == Some(IntToString(table[y].id))
    requires table[y].duplicateId == Some(IntToString(table[x].id))
    ensures CleanKeys(table)[x].Some? && CleanKeys(table)[x] == CleanKeys(table)[y]
  {
    ParseIntShow(table[x].id);
    ParseIntShow(table[y].id);
    ShowFlagged(table[x].id);
    ShowFlagged(table[y].id);
    assert Flagged(table[x]) && Flagged(table[y]);
    var keys := CleanKeys(table);
    assert keys[x] == Some(PairKey(table[x].id, table[y].id));
    assert keys[y] == Some(PairKey(table[y].id, table[x].id));
  }

  /** An id written by `detect_duplicates_and_update` passes the `WHERE` of `clean_duplicate_records`. */
  lemma ShowFlagged(i: int)
    ensures IntToString(i) != "" && IntToString(i) != "无"
  {
    var s := IntToString(i);
    assert s[0] == '-' || '0' <= s[0] <= '9';
  }

  // ------------------------------------------------------------ clean_duplicate_records: the kept row

  /** `record[4] or ""`: the analysis time, "" where it is NULL. */
  function Time(row: Row): string {
    if row.analysisTime.Some? then row.analysisTime.value else ""
  }

  /** `min(group_records, key=lambda x: x[0])`: the index in `g` of the first row with the least id. */
  function MinIdAt(table: seq<Row>, g: seq<nat>): (u: nat)
    requires |g| > 0 && Bounded(table, g)
    ensures u < |g|
    ensures forall v :: 0 <= v < |g| ==> table[g[u]].id <= table[g[v]].id
    ensures forall v :: 0 <= v < u ==> table[g[u]].id < table[g[v]].id
    decreases |g|
  {
    if |g| == 1 then 0
    else
      var u := MinIdAt(table, g[..|g| - 1]);
      if table[g[|g| - 1]].id < table[g[u]].id then |g| - 1 else u
  }

  /** `max(group_records, key=lambda x: x[4] or "")`: the index in `g` of the first row with the greatest time. */
  function LatestAt(table: seq<Row>, g: seq<nat>): (u: nat)
    requires |g| > 0 && Bounded(table, g)
    ensures u < |g|
    decreases |g|
  {
    if |g| == 1 then 0
    else
      var u := LatestAt(table, g[..|g| - 1]);
      if StrLess(Time(table[g[u]]), Time(table[g[|g| - 1]])) then |g| - 1 else u
  }

  /** A last row later than the latest of the others is later than all of them. */
  lemma LatestLastWins(table: seq<Row>, g: seq<nat>, b: nat)
    requires |g| > 1 && Bounded(table, g) && b < |g| - 1
    requires forall v :: 0 <= v < |g| - 1 ==> !StrLess(Time(table[g[b]]), Time(table[g[v]]))
    requires StrLess(Time(table[g[b]]), Time(table[g[|g| - 1]]))
    ensures forall v :: 0 <= v < |g| ==> !StrLess(Time(table[g[|g| - 1]]), Time(table[g[v]]))
    ensures forall v :: 0 <= v < |g| - 1 ==> StrLess(Time(table[g[v]]), Time(table[g[|g| - 1]]))
  {
    var tb, tl := Time(table[g[b]]), Time(table[g[|g| - 1]]);
    forall v | 0 <= v < |g| ensures !StrLess(tl, Time(table[g[v]])) {
      if v == |g| - 1 {
        StrLessIrreflexive(tl);
      } else if StrLess(tl, Time(table[g[v]])) {
        StrLessTransitive(tb, tl, Time(table[g[v]]));
      }
    }
    forall v | 0 <= v < |g| - 1 ensures StrLess(Time(table[g[v]]), tl) {
      var tv := Time(table[g[v]]);
      if tv != tb {
        StrLessTotal(tv, tb);
        StrLessTransitive(tv, tb, tl);
      }
    }
  }

  /** No row of the group is later than the chosen one, and every row before it is strictly earlier. */
  lemma {:induction false} LatestAtIsLatest(table: seq<Row>, g: seq<nat>)
    requires |g| > 0 && Bounded(table, g)
    ensures var u := LatestAt(table, g);
      && (forall v :: 0 <= v < |g| ==> !StrLess(Time(table[g[u]]), Time(table[g[v]])))
      && (forall v :: 0 <= v < u ==> StrLess(Time(table[g[v]]), Time(table[g[u]])))
    decreases |g|
  {
    var u := LatestAt(table, g);
    if |g| == 1 {
      StrLessIrreflexive(Time(table[g[0]]));
    } else {
      var g' := g[..|g| - 1];
      LatestAtIsLatest(table, g');
      var b := LatestAt(table, g');
      var tb, tl := Time(table[g[b]]), Time(table[g[|g| - 1]]);
      assert forall v :: 0 <= v < |g'| ==> g'[v] == g[v];
      if StrLess(tb, tl) {
        LatestLastWins(table, g, b);
      } else {
        forall v | 0 <= v < |g| ensures !StrLess(tb, Time(table[g[v]])) {
        }
      }
    }
  }

  /** The index in `g` of the row `keep_strategy` keeps: least id for "first", latest time for "latest", else the first row. */
  function KeepAt(table: seq<Row>, g: seq<nat>, strategy: string): (u: nat)
    requires |g| > 0 && Bounded(table, g)
    ensures u < |g|
  {
    if strategy == "first" then MinIdAt(table, g) else if strategy == "latest" then LatestAt(table, g) else 0
  }

  /** Row `i` survives the clean: it is in no group, or it is its group's kept row. */
  predicate Survives(table: seq<Row>, keys: seq<Option<(int, int)>>, strategy: string, i: nat)
    requires |keys| == |table| && i < |table|
  {
    keys[i].None? ||
      var g := GroupOf(keys, keys[i].value, |keys|);
      assert i in g;
      i == g[KeepAt(table, g, strategy)]
  }

  ghost function KeepMask(table: seq<Row>, keys: seq<Option<(int, int)>>, strategy: string): (m: seq<bool>)
    requires |keys| == |table|
    ensures |m| == |table|
    ensures forall i :: 0 <= i < |table| ==> m[i] == Survives(table, keys, strategy, i)
  {
    seq(|table|, i requires 0 <= i < |table| => Survives(table, keys, strategy, i))
  }

  /** Exactly one row of every group survives. */
  lemma SurvivorUnique(table: seq<Row>, keys: seq<Option<(int, int)>>, strategy: string, i: nat, j: nat)
    requires |keys| == |table| && i < |table| && j < |table| && keys[i].Some? && keys[i] == keys[j]
    requires Survives(table, keys, strategy, i) && Survives(table, keys, strategy, j)
    ensures i == j
  {
  }

  lemma SurvivorExists(table: seq<Row>, keys: seq<Option<(int, int)>>, strategy: string, i: nat)
    requires |keys| == |table| && i < |table| && keys[i].Some?
    ensures exists j :: 0 <= j < |table| && keys[j] == keys[i] && Survives(table, keys, strategy, j)
  {
    var g := GroupOf(keys, keys[i].value, |keys|);
    assert i in g;
    var j := g[KeepAt(table, g, strategy)];
    assert GroupOf(keys, keys[j].value, |keys|) == g;
  }

  /** The survivor of a group against any row `i` of it, under each strategy. */
  lemma SurvivorChosen(table: seq<Row>, keys: seq<Option<(int, int)>>, strategy: string, j: nat, i: nat)
    requires |keys| == |table| && i < |table| && j < |table| && keys[j].Some? && keys[i] == keys[j]
    requires Survives(table, keys, strategy, j)
    ensures strategy == "first" ==> table[j].id <= table[i].id && (i < j ==> table[j].id < table[i].id)
    ensures strategy == "latest" ==> !StrLess(Time(table[j]), Time(table[i])) && (i < j ==> StrLess(Time(table[i]), Time(table[j])))
    ensures strategy != "first" && strategy != "latest" ==> j <= i
  {
    var g := GroupOf(keys, keys[j].value, |keys|);
    var u := KeepAt(table, g, strategy);
    assert i in g;
    var v :| 0 <= v < |g| && g[v] == i;
    LatestAtIsLatest(table, g);
    if i < j {
      assert v < u;
    }
  }

  // ------------------------------------------------------------ clean_duplicate_records: the deletes

  /** `DELETE FROM sentiment_results WHERE id = ?`. */
  function DeleteWhereId(rows: seq<Row>, id: int): (r: seq<Row>)
    ensures |r| <= |rows|
  {
    if rows == [] then []
    else
      var init, last := rows[..|rows| - 1], rows[|rows| - 1];
      DeleteWhereId(init, id) + (if last.id == id then [] else [last])
  }

  /** The delete removes exactly the rows with that id. */
  lemma {:induction false} DeleteWhereIdMembers(rows: seq<Row>, id: int)
    ensures forall row :: row in DeleteWhereId(rows, id) <==> row in rows && row.id != id
  {
    if rows != [] {
      var init, last := rows[..|rows| - 1], rows[|rows| - 1];
      DeleteWhereIdMembers(init, id);
      assert rows == init + [last];
    }
  }

  /** Deleting the id of row `p` from the kept rows clears `p`'s bit. */
  lemma {:induction false} DeleteKept(table: seq<Row>, live: seq<bool>, p: nat, n: nat)
    requires IdOrdered(table) && |live| == |table| && p < |table| && n <= |table|
    ensures DeleteWhereId(Kept(table, live, n), table[p].id) == Kept(table, live[p := false], n)
  {
    if n > 0 {
      DeleteKept(table, live, p, n - 1);
      var live' := live[p := false];
      var prev, prev' := Kept(table, live, n - 1), Kept(table, live', n - 1);
      var t := table[n - 1];
      if live[n - 1] {
        var s := prev + [t];
        assert Kept(table, live, n) == s;
        assert s[..|s| - 1] == prev && s[|s| - 1] == t;
        assert DeleteWhereId(s, table[p].id) == prev' + (if t.id == table[p].id then [] else [t]);
        assert t.id == table[p].id <==> n - 1 == p;
      } else {
        assert Kept(table, live, n) == prev + [] == prev;
        assert Kept(table, live', n) == prev' + [] == prev';
      }
    }
  }

  /** The rows still present: exactly the positions whose group is handled and that are not kept are gone. */
  ghost predicate LiveFor(keys: seq<Option<(int, int)>>, mask: seq<bool>, done: set<(int, int)>, live: seq<bool>) {
    && |live| == |keys| && |mask| == |keys|
    && forall i :: 0 <= i < |keys| ==> live[i] == (mask[i] || keys[i].None? || keys[i].value !in done)
  }

  /** Within its group the keep mask singles out the row `KeepAt` picks. */
  lemma GroupMask(table: seq<Row>, keys: seq<Option<(int, int)>>, strategy: string, k: (int, int), g: seq<nat>)
    requires |keys| == |table| && WholeGroup(keys, k, g)
    ensures Bounded(table, g)
    ensures forall w :: 0 <= w < |g| ==> KeepMask(table, keys, strategy)[g[w]] == (g[w] == g[KeepAt(table, g, strategy)])
  {
    WholeGroupIsGroupOf(keys, k, g);
  }

  /** After the deletes of group `k`, the group counts as handled. */
  lemma LiveGroupStep(keys: seq<Option<(int, int)>>, mask: seq<bool>, done: set<(int, int)>, live: seq<bool>, live': seq<bool>,
                      k: (int, int), g: seq<nat>)
    requires WholeGroup(keys, k, g) && LiveFor(keys, mask, done, live) && |live'| == |keys|
    requires forall w :: 0 <= w < |g| ==> live'[g[w]] == mask[g[w]]
    requires forall i :: 0 <= i < |keys| && i !in g ==> live'[i] == live[i]
    ensures LiveFor(keys, mask, done + {k}, live')
  {
    forall i | 0 <= i < |keys| && keys[i] == Some(k) ensures live'[i] == mask[i] {
      assert i in g;
      var w :| 0 <= w < |g| && g[w] == i;
    }
  }

  /** A group of one row loses nothing. */
  lemma LiveSingle(table: seq<Row>, keys: seq<Option<(int, int)>>, strategy: string, done: set<(int, int)>, live: seq<bool>,
                   k: (int, int), g: seq<nat>)
    requires |keys| == |table| && WholeGroup(keys, k, g) && |g| == 1 && k !in done
    requires LiveFor(keys, KeepMask(table, keys, strategy), done, live)
    ensures LiveFor(keys, KeepMask(table, keys, strategy), done + {k}, live)
  {
    GroupMask(table, keys, strategy, k, g);
    forall i | 0 <= i < |keys| && keys[i] == Some(k) ensures KeepMask(table, keys, strategy)[i] {
      assert i in g;
    }
  }

  /** Once every group is handled, the rows still present are the kept ones. */
  lemma LiveAll(keys: seq<Option<(int, int)>>, mask: seq<bool>, live: seq<bool>)
    requires LiveFor(keys, mask, KeySet(keys), live)
    requires forall i :: 0 <= i < |keys| && keys[i].None? ==> mask[i]
    ensures live == mask
  {
    forall i | 0 <= i < |keys| ensures live[i] == mask[i] {
      if keys[i].Some? {
        assert keys[i].value in KeySet(keys);
      }
    }
  }

  /** The inner loop of `clean_duplicate_records`: delete every row of the group but the kept one. */
  method DeleteGroup(table: seq<Row>, ghost mask: seq<bool>, g: seq<nat>, keep: nat,
                     current: seq<Row>, deleted: nat, ghost live: seq<bool>)
    returns (current': seq<Row>, deleted': nat, ghost live': seq<bool>)
    requires IdOrdered(table) && |mask| == |live| == |table| && Ascending(g) && Bounded(table, g) && keep < |table|
    requires forall w :: 0 <= w < |g| ==> live[g[w]] && mask[g[w]] == (g[w] == keep)
    requires current == Kept(table, live, |table|) && deleted == |Unkept(live, |table|)|
    ensures |live'| == |table|
    ensures forall w :: 0 <= w < |g| ==> live'[g[w]] == mask[g[w]]
    ensures forall i :: 0 <= i < |table| && i !in g ==> live'[i] == live[i]
    ensures current' == Kept(table, live', |table|) && deleted' == |Unkept(live', |table|)|
  {
    current', deleted', live' := current, deleted, live;
    for u := 0 to |g|
      invariant |live'| == |table|
      invariant forall w :: 0 <= w < |g| ==> live'[g[w]] == (u <= w || mask[g[w]])
      invariant forall i :: 0 <= i < |table| && i !in g ==> live'[i] == live[i]
      invariant current' == Kept(table, live', |table|) && deleted' == |Unkept(live', |table|)|
    {
      var p := g[u];
      GroupLiveStep(g, mask, live, live', u, table[p].id != table[keep].id);
      if table[p].id != table[keep].id {
        DeleteKept(table, live', p, |table|);
        UnkeptClear(live', p);
        current' := DeleteWhereId(current', table[p].id);
        deleted' := deleted' + 1;
        live' := live'[p := false];
      }
    }
  }

  /** Clearing the `u`-th member of a group exactly when the mask drops it brings the group's flags one member further. */
  lemma GroupLiveStep(g: seq<nat>, mask: seq<bool>, live0: seq<bool>, live: seq<bool>, u: nat, clear: bool)
    requires Ascending(g) && u < |g| && |live| == |live0| == |mask|
    requires forall w :: 0 <= w < |g| ==> g[w] < |live|
    requires clear <==> !mask[g[u]]
    requires forall w :: 0 <= w < |g| ==> live[g[w]] == (u <= w || mask[g[w]])
    requires forall i :: 0 <= i < |live| && i !in g ==> live[i] == live0[i]
    ensures var l := if clear then live[g[u] := false] else live;
      && (forall w :: 0 <= w < |g| ==> l[g[w]] == (u + 1 <= w || mask[g[w]]))
      && (forall i :: 0 <= i < |live| && i !in g ==> l[i] == live0[i])
  {
    var l := if clear then live[g[u] := false] else live;
    forall w | 0 <= w < |g| ensures l[g[w]] == (u + 1 <= w || mask[g[w]]) {
      if w != u {
        assert g[w] != g[u];
      }
    }
  }

  /** The outer loop of `clean_duplicate_records` over the groups, in order of first appearance. */
  method DeleteAll(table: seq<Row>, keys: seq<Option<(int, int)>>, strategy: string, order: seq<(int, int)>, groups: map<(int, int), seq<nat>>)
    returns (deleted: nat, current: seq<Row>)
    requires IdOrdered(table) && |keys| == |table| && KeyGroups(keys, order, groups)
    ensures current == Kept(table, KeepMask(table, keys, strategy), |table|)
    ensures deleted == |Unkept(KeepMask(table, keys, strategy), |table|)|
  {
    ghost var mask := KeepMask(table, keys, strategy);
    ghost var live := seq(|table|, i => true);
    KeptEverything(table, live, |table|);
    assert Unkept(live, |table|) == {};
    current, deleted := table, 0;
    for a := 0 to |order|
      invariant LiveFor(keys, mask, Seen(order, a), live)
      invariant current == Kept(table, live, |table|) && deleted == |Unkept(live, |table|)|
    {
      var k := order[a];
      SeenStep(order, a);
      current, deleted, live := DeleteGroupOf(table, keys, strategy, k, groups[k], Seen(order, a), current, deleted, live);
    }
    SeenAll(keys, order, groups);
    LiveAll(keys, mask, live);
  }

  /** One pass of the outer loop: group `g` of key `k` loses every row but the kept one. */
  method DeleteGroupOf(table: seq<Row>, keys: seq<Option<(int, int)>>, strategy: string, k: (int, int), g: seq<nat>,
                       ghost done: set<(int, int)>, current: seq<Row>, deleted: nat, ghost live: seq<bool>)
    returns (current': seq<Row>, deleted': nat, ghost live': seq<bool>)
    requires IdOrdered(table) && |keys| == |table| && WholeGroup(keys, k, g) && k !in done
    requires LiveFor(keys, KeepMask(table, keys, strategy), done, live)
    requires current == Kept(table, live, |table|) && deleted == |Unkept(live, |table|)|
    ensures LiveFor(keys, KeepMask(table, keys, strategy), done + {k}, live')
    ensures current' == Kept(table, live', |table|) && deleted' == |Unkept(live', |table|)|
  {
    ghost var mask := KeepMask(table, keys, strategy);
    if |g| <= 1 {
      LiveSingle(table, keys, strategy, done, live, k, g);
      current', deleted', live' := current, deleted, live;
    } else {
      GroupMask(table, keys, strategy, k, g);
      var keep := g[KeepAt(table, g, strategy)];
      current', deleted', live' := DeleteGroup(table, mask, g, keep, current, deleted, live);
      LiveGroupStep(keys, mask, done, live, live', k, g);
    }
  }

  /**
   * `clean_duplicate_records`: group the flagged rows by their sorted
   * `(id, int(duplicate_id))` pair and delete every row of a group but the
   * one `keep_strategy` keeps.  No flagged row, or a `duplicate_id` that
   * `int()` rejects, deletes nothing and returns 0.
   */
  method CleanDuplicateRecords(table: seq<Row>, strategy: string) returns (deleted: nat, table': seq<Row>)
    requires IdOrdered(table)
    ensures (forall i :: 0 <= i < |table| ==> !Flagged(table[i])) || !ParsesAll(table) ==> deleted == 0 && table' == table
    ensures ParsesAll(table) ==> table' == Kept(table, KeepMask(table, CleanKeys(table), strategy), |table|)
    ensures deleted + |table'| == |table|
  {
    if forall i :: 0 <= i < |table| ==> !Flagged(table[i]) {
      KeptEverything(table, KeepMask(table, CleanKeys(table), strategy), |table|);
      assert table[..|table|] == table;
      return 0, table;
    }
    if !ParsesAll(table) {
      return 0, table;
    }
    var keys := CleanKeys(table);
    var order, groups := GroupPositions(keys);
    GroupedKeyGroups(keys, order, groups);
    deleted, table' := DeleteAll(table, keys, strategy, order, groups);
    KeptCount(table, KeepMask(table, keys, strategy), |table|);
  }

  // ------------------------------------------------------------ export_deduplicated_data

  /** `if session_id:` — only a non-empty session id filters. */
  predicate InSession(row: Row, session: Option<string>) {
    session.None? || session.value == "" || row.sessionId == session
  }

  /** `SELECT * FROM sentiment_results [WHERE session_id = ?] ORDER BY id DESC` over the table in id order. */
  function ExportRows(table: seq<Row>, session: Option<string>): (r: seq<Row>)
    ensures |r| <= |table|
    ensures forall row :: row in r <==> row in table && InSession(row, session)
  {
    if table == [] then []
    else
      assert table == [table[0]] + table[1..];
      ExportRows(table[1..], session) + (if InSession(table[0], session) then [table[0]] else [])
  }

  /** Ids strictly decrease along `rows`. */
  predicate IdDescending(rows: seq<Row>) {
    forall a, b :: 0 <= a < b < |rows| ==> rows[a].id > rows[b].id
  }

  /** The rows come out newest first. */
  lemma {:induction false} ExportRowsDescending(table: seq<Row>, session: Option<string>)
    requires IdOrdered(table)
    ensures IdDescending(ExportRows(table, session))
  {
    if table != [] {
      ExportRowsDescending(table[1..], session);
      var rest := ExportRows(table[1..], session);
      forall x | x in rest ensures x.id > table[0].id {
        LaterRowsAbove(table, x);
      }
      if InSession(table[0], session) {
        DescendingSnoc(rest, table[0]);
      } else {
        assert ExportRows(table, session) == rest + [] == rest;
      }
    }
  }

  /** In a table in id order, every row after the first has a larger id. */
  lemma LaterRowsAbove(table: seq<Row>, x: Row)
    requires IdOrdered(table) && table != [] && x in table[1..]
    ensures x.id > table[0].id
  {
    var j :| 0 <= j < |table[1..]| && table[1..][j] == x;
    assert x == table[j + 1];
  }

  /** A row below every id of a descending sequence extends it at the end. */
  lemma DescendingSnoc(rows: seq<Row>, last: Row)
    requires IdDescending(rows)
    requires forall x :: x in rows ==> x.id > last.id
    ensures IdDescending(rows + [last])
  {
    var r := rows + [last];
    forall a, b | 0 <= a < b < |r| ensures r[a].id > r[b].id {
      assert r[a] == rows[a];
      if b < |rows| {
        assert r[b] == rows[b];
      } else {
        assert rows[a] in rows;
      }
    }
  }

  function ExportHash(row: Row, md5: string -> AutoDedup.Digest): string {
    ContentHash(row.content, md5)
  }

  /** The key the export filters on: `generate_content_hash(content)`. */
  function ExportKey(md5: string -> AutoDedup.Digest): Row -> string {
    row => ExportHash(row, md5)
  }

  /** No two exported rows share a content hash. */
  lemma ExportDistinct(rows: seq<Row>, md5: string -> AutoDedup.Digest)
    ensures var out := Kept(rows, FirstKeyMask(rows, ExportKey(md5)), |rows|);
      forall a, b :: 0 <= a < b < |out| ==> ExportHash(out[a], md5) != ExportHash(out[b], md5)
  {
    FirstKeysDistinct(rows, FirstKeyMask(rows, ExportKey(md5)), ExportKey(md5), |rows|);
  }

  /** Every row's content hash is carried by an exported row at or before it. */
  lemma ExportCovers(rows: seq<Row>, md5: string -> AutoDedup.Digest, i: nat)
    requires i < |rows|
    ensures exists j :: 0 <= j <= i && FirstKeyMask(rows, ExportKey(md5))[j] && ExportHash(rows[j], md5) == ExportHash(rows[i], md5)
  {
    FirstKeyCovers(rows, ExportKey(md5), i);
  }

  /** The summary `export_deduplicated_data` returns on success. */
  datatype ExportStats = ExportStats(totalRecords: nat, deduplicatedRecords: nat, removedDuplicates: int)

  /** One row of the export loop: its hash joins the seen set, and the row is kept exactly when the hash is new. */
  lemma FirstByHashStep(rows: seq<Row>, md5: string -> AutoDedup.Digest, i: nat)
    requires i < |rows|
    ensures var h := ContentHash(rows[i].content, md5);
      var seen := KeysBefore(rows, ExportKey(md5), i);
      var mask := FirstKeyMask(rows, ExportKey(md5));
      && KeysBefore(rows, ExportKey(md5), i + 1) == seen + {h}
      && Kept(rows, mask, i + 1) == Kept(rows, mask, i) + (if h !in seen then [rows[i]] else [])
  {
    assert ExportKey(md5)(rows[i]) == ContentHash(rows[i].content, md5);
  }

  /** The loop over `all_data`: keep a row when its content hash is not yet in `seen_hashes`. */
  method FirstByHash(rows: seq<Row>, md5: string -> AutoDedup.Digest) returns (out: seq<Row>)
    ensures out == Kept(rows, FirstKeyMask(rows, ExportKey(md5)), |rows|)
  {
    ghost var mask := FirstKeyMask(rows, ExportKey(md5));
    var seen: set<string> := {};
    out := [];
    for i := 0 to |rows|
      invariant seen == KeysBefore(rows, ExportKey(md5), i)
      invariant out == Kept(rows, mask, i)
    {
      var h := ContentHash(rows[i].content, md5);
      FirstByHashStep(rows, md5, i);
      if h !in seen {
        seen := seen + {h};
        out := out + [rows[i]];
      }
    }
  }

  /**
   * `export_deduplicated_data`: the rows of the session (or all rows), newest
   * first, keeping the first row of each content hash, with the counts it
   * returns.
   */
  method ExportDeduplicatedData(table: seq<Row>, session: Option<string>, md5: string -> AutoDedup.Digest)
    returns (stats: ExportStats, out: seq<Row>)
    ensures var rows := ExportRows(table, session);
      && out == Kept(rows, FirstKeyMask(rows, ExportKey(md5)), |rows|)
      && stats == ExportStats(|rows|, |out|, |rows| - |out|)
      && stats.removedDuplicates == |Unkept(FirstKeyMask(rows, ExportKey(md5)), |rows|)|
  {
    var rows := ExportRows(table, session);
    out := FirstByHash(rows, md5);
    KeptCount(rows, FirstKeyMask(rows, ExportKey(md5)), |rows|);
    stats := ExportStats(|rows|, |out|, |rows| - |out|);
  }
}
