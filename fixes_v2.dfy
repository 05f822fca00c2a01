/**
 * The reconciliation passes of `comprehensive_fixes_v2.py` over the
 * `sentiment_results` table, as read with `ORDER BY id`: marking every later
 * row of an `original_id` as a duplicate of the first, exporting one row per
 * `original_id`, and deleting all but one row per `original_id`.
 */
module FixesV2 {
  import opened Wrappers
  import opened Values
  import opened Grouping

  /** The columns of a `sentiment_results` row these passes read or write. */
  datatype Row = Row(id: int, originalId: Value, duplicateId: Option<int>, duplicationRate: real)

  /** Rows as `ORDER BY id` returns them: the primary key strictly increases. */
  predicate IdOrdered(table: seq<Row>) {
    forall a, b :: 0 <= a < b < |table| ==> table[a].id < table[b].id
  }

  /** The `original_id` column as a grouping key; NULL is a key like any other. */
  function OidKeys(table: seq<Row>): (r: seq<Option<Value>>)
    ensures |r| == |table|
    ensures forall i :: 0 <= i < |table| ==> r[i] == Some(table[i].originalId)
  {
    seq(|table|, i requires 0 <= i < |table| => Some(table[i].originalId))
  }

  // ------------------------------------------------------------ detect_and_mark_duplicates

  /**
   * The row `detect_and_mark_duplicates` leaves at position `i`: the first
   * row of an `original_id` stays as it is, every later one points at it
   * with rate 1.0.
   */
  function Marked(table: seq<Row>, i: nat): Row
    requires i < |table|
  {
    var f := FirstSame(OidKeys(table), i, 0);
    if f == i then table[i] else table[i].(duplicateId := Some(table[f].id), duplicationRate := 1.0)
  }

  /** A marked row points at the row with the smallest id of its `original_id`, and that row stays unmarked. */
  lemma MarkedPointsToPrimary(table: seq<Row>, i: nat)
    requires IdOrdered(table) && i < |table|
    ensures Marked(table, i).id == table[i].id && Marked(table, i).originalId == table[i].originalId
    ensures (forall j :: 0 <= j < i ==> table[j].originalId != table[i].originalId) ==> Marked(table, i) == table[i]
    ensures (exists j :: 0 <= j < i && table[j].originalId == table[i].originalId) ==>
      exists f :: (&& 0 <= f < i
                   && table[f].originalId == table[i].originalId
                   && (forall j :: 0 <= j < |table| && table[j].originalId == table[i].originalId ==> table[f].id <= table[j].id)
                   && Marked(table, f) == table[f]
                   && Marked(table, i) == table[i].(duplicateId := Some(table[f].id), duplicationRate := 1.0))
  {
    var keys := OidKeys(table);
    var f := FirstSame(keys, i, 0);
    assert keys[f] == keys[i];
    if f < i {
      assert FirstSame(keys, f, 0) == f by {
        var f' := FirstSame(keys, f, 0);
        assert keys[f'] == keys[i];
      }
      forall j | 0 <= j < |table| && table[j].originalId == table[i].originalId ensures table[f].id <= table[j].id {
        assert keys[j] == keys[i];
      }
    }
  }

  /** `UPDATE sentiment_results SET duplicate_id = ?, duplication_rate = ? WHERE id = ?`. */
  function UpdateWhereId(table: seq<Row>, id: int, dup: int, rate: real): (r: seq<Row>)
    ensures |r| == |table|
  {
    seq(|table|, i requires 0 <= i < |table| =>
      if table[i].id == id then table[i].(duplicateId := Some(dup), duplicationRate := rate) else table[i])
  }

  /** Row `i` pointed at the row with id `primary`. */
  function PointAt(row: Row, primary: int): Row {
    row.(duplicateId := Some(primary), duplicationRate := 1.0)
  }

  /** In a group, every row but the first is marked by pointing it at the first. */
  lemma MarkedInGroup(table: seq<Row>, k: Value, g: seq<nat>, i: nat)
    requires WholeGroup(OidKeys(table), k, g) && i < |table| && table[i].originalId == k
    ensures Marked(table, i) == if i == g[0] then table[i] else PointAt(table[i], table[g[0]].id)
  {
    var keys := OidKeys(table);
    assert keys[i] == Some(k) && i in g;
  }

  /** The rows among positions `lo < i < hi` with `original_id` `k` are pointed at `primary`; the others are as in `cur`. */
  ghost predicate PointedBetween(table: seq<Row>, cur: seq<Row>, next: seq<Row>, k: Value, primary: int, lo: int, hi: int)
    requires |cur| == |table| == |next|
  {
    forall i :: 0 <= i < |table| ==>
      next[i] == if table[i].originalId == k && lo < i < hi then PointAt(cur[i], primary) else cur[i]
  }

  /** The same ids, row by row. */
  predicate SameIds(table: seq<Row>, t: seq<Row>) {
    |t| == |table| && forall i :: 0 <= i < |table| ==> t[i].id == table[i].id
  }

  /** The rows of `original_id` `k` strictly between positions `lo` and `hi`. */
  ghost function KeyRowsBetween(table: seq<Row>, k: Value, lo: int, hi: int): set<int> {
    set i | 0 <= i < |table| && table[i].originalId == k && lo < i < hi
  }

  /** Marking the next row of the group extends the marked range to it. */
  lemma PointedStep(table: seq<Row>, cur: seq<Row>, next: seq<Row>, k: Value, g: seq<nat>, s: nat)
    requires IdOrdered(table) && SameIds(table, cur) && SameIds(table, next)
    requires WholeGroup(OidKeys(table), k, g) && 1 <= s < |g|
    requires PointedBetween(table, cur, next, k, table[g[0]].id, g[0], g[s - 1] + 1)
    ensures SameIds(table, UpdateWhereId(next, table[g[s]].id, table[g[0]].id, 1.0))
    ensures PointedBetween(table, cur, UpdateWhereId(next, table[g[s]].id, table[g[0]].id, 1.0), k, table[g[0]].id, g[0], g[s] + 1)
  {
    var keys := OidKeys(table);
    var p, primary := g[s], table[g[0]].id;
    var upd := UpdateWhereId(next, table[p].id, primary, 1.0);
    assert keys[p] == Some(k);
    forall i | 0 <= i < |table|
      ensures upd[i] == if table[i].originalId == k && g[0] < i < p + 1 then PointAt(cur[i], primary) else cur[i]
    {
      if i != p {
        assert upd[i] == next[i];
        if table[i].originalId == k {
          assert keys[i] == Some(k) && i in g;
        }
      }
    }
  }

  /** The rows added to the marked set so far: those of the group after the first, up to `hi`. */
  lemma AddedStep(table: seq<Row>, k: Value, g: seq<nat>, s: nat, added: set<int>)
    requires WholeGroup(OidKeys(table), k, g) && 1 <= s < |g|
    requires added == KeyRowsBetween(table, k, g[0], g[s - 1] + 1)
    ensures g[s] !in added
    ensures added + {g[s]} == KeyRowsBetween(table, k, g[0], g[s] + 1)
  {
    var keys := OidKeys(table);
    assert keys[g[s]] == Some(k);
    forall i | 0 <= i < |table| && table[i].originalId == k ensures i <= g[s - 1] || g[s] <= i {
      assert keys[i] == Some(k) && i in g;
    }
  }

  /** The group's last row bounds every row of its `original_id`. */
  lemma GroupBound(table: seq<Row>, k: Value, g: seq<nat>)
    requires WholeGroup(OidKeys(table), k, g)
    ensures forall i :: 0 <= i < |table| && table[i].originalId == k ==> i < g[|g| - 1] + 1
  {
    var keys := OidKeys(table);
    forall i | 0 <= i < |table| && table[i].originalId == k ensures i < g[|g| - 1] + 1 {
      assert keys[i] == Some(k) && i in g;
    }
  }

  /** The inner loop: every row of the group but the first is pointed at the first. */
  method MarkGroup(table: seq<Row>, cur: seq<Row>, k: Value, g: seq<nat>) returns (next: seq<Row>, count: nat, ghost added: set<int>)
    requires IdOrdered(table) && SameIds(table, cur)
    requires WholeGroup(OidKeys(table), k, g)
    ensures SameIds(table, next)
    ensures PointedBetween(table, cur, next, k, table[g[0]].id, g[0], g[|g| - 1] + 1)
    ensures added == KeyRowsBetween(table, k, g[0], g[|g| - 1] + 1)
    ensures count == |added| == |g| - 1
  {
    next, count, added := cur, 0, {};
    var primary := table[g[0]].id;
    for s := 1 to |g|
      invariant SameIds(table, next)
      invariant PointedBetween(table, cur, next, k, primary, g[0], g[s - 1] + 1)
      invariant added == KeyRowsBetween(table, k, g[0], g[s - 1] + 1)
      invariant count == |added| == s - 1
    {
      next, added := MarkNext(table, cur, k, g, s, next, added);
      count := count + 1;
    }
  }

  /** One row of the inner loop: the next row of the group is pointed at the first. */
  method MarkNext(table: seq<Row>, cur: seq<Row>, k: Value, g: seq<nat>, s: nat, next: seq<Row>, ghost added: set<int>)
    returns (next': seq<Row>, ghost added': set<int>)
    requires IdOrdered(table) && SameIds(table, cur) && SameIds(table, next)
    requires WholeGroup(OidKeys(table), k, g) && 1 <= s < |g|
    requires PointedBetween(table, cur, next, k, table[g[0]].id, g[0], g[s - 1] + 1)
    requires added == KeyRowsBetween(table, k, g[0], g[s - 1] + 1)
    ensures SameIds(table, next')
    ensures PointedBetween(table, cur, next', k, table[g[0]].id, g[0], g[s] + 1)
    ensures added' == KeyRowsBetween(table, k, g[0], g[s] + 1)
    ensures |added'| == |added| + 1
  {
    PointedStep(table, cur, next, k, g, s);
    AddedStep(table, k, g, s, added);
    next' := UpdateWhereId(next, table[g[s]].id, table[g[0]].id, 1.0);
    added' := added + {g[s]};
  }

  /** The table after the groups of `done` are marked. */
  ghost predicate MarkedFor(table: seq<Row>, t: seq<Row>, done: set<Value>)
    requires |t| == |table|
  {
    forall i :: 0 <= i < |table| ==> t[i] == if table[i].originalId in done then Marked(table, i) else table[i]
  }

  /** The rows of `done` that have an earlier row of their `original_id`. */
  ghost function Later(table: seq<Row>, done: set<Value>): set<int> {
    set i | 0 <= i < |table| && table[i].originalId in done && FirstSame(OidKeys(table), i, 0) != i
  }

  /** Marking a group adds its marked rows to the table and to the count. */
  lemma MarkedForStep(table: seq<Row>, t: seq<Row>, t': seq<Row>, done: set<Value>, k: Value, g: seq<nat>)
    requires |t| == |table| == |t'| && MarkedFor(table, t, done)
    requires WholeGroup(OidKeys(table), k, g) && k !in done
    requires PointedBetween(table, t, t', k, table[g[0]].id, g[0], g[|g| - 1] + 1)
    ensures MarkedFor(table, t', done + {k})
  {
    GroupBound(table, k, g);
    forall i | 0 <= i < |table| && table[i].originalId == k ensures t'[i] == Marked(table, i) {
      MarkedInGroup(table, k, g, i);
    }
  }

  lemma LaterStep(table: seq<Row>, done: set<Value>, k: Value, g: seq<nat>, added: set<int>)
    requires WholeGroup(OidKeys(table), k, g) && k !in done
    requires added == KeyRowsBetween(table, k, g[0], g[|g| - 1] + 1)
    ensures Later(table, done + {k}) == Later(table, done) + added
    ensures |Later(table, done + {k})| == |Later(table, done)| + |added|
  {
    GroupBound(table, k, g);
    var keys := OidKeys(table);
    forall i | 0 <= i < |table| && table[i].originalId == k
      ensures (FirstSame(keys, i, 0) != i) == (g[0] < i)
    {
      assert keys[i] == Some(k) && i in g;
    }
    assert Later(table, done) * added == {};
  }

  /** A single-row group has nothing to mark. */
  lemma SingleStep(table: seq<Row>, t: seq<Row>, done: set<Value>, k: Value, g: seq<nat>)
    requires |t| == |table| && MarkedFor(table, t, done)
    requires WholeGroup(OidKeys(table), k, g) && k !in done && |g| == 1
    ensures MarkedFor(table, t, done + {k})
    ensures Later(table, done + {k}) == Later(table, done)
  {
    var keys := OidKeys(table);
    forall i | 0 <= i < |table| && table[i].originalId == k ensures i == g[0] {
      assert keys[i] == Some(k) && i in g;
    }
    forall i | 0 <= i < |table| && table[i].originalId == k ensures t[i] == Marked(table, i) {
      MarkedInGroup(table, k, g, i);
    }
  }

  /** Every `original_id` of the table has been handled. */
  lemma AllDone(table: seq<Row>, t: seq<Row>, done: set<Value>)
    requires |t| == |table| && MarkedFor(table, t, done)
    requires forall i :: 0 <= i < |table| ==> table[i].originalId in done
    ensures forall i :: 0 <= i < |table| ==> t[i] == Marked(table, i)
    ensures Later(table, done) == set i | 0 <= i < |table| && FirstSame(OidKeys(table), i, 0) != i
  {
  }

  /** One `original_id` of the outer loop: `if len(records) > 1`, mark all but the first. */
  method MarkOneKey(table: seq<Row>, cur: seq<Row>, k: Value, g: seq<nat>, ghost done: set<Value>) returns (next: seq<Row>, count: nat)
    requires IdOrdered(table) && SameIds(table, cur) && MarkedFor(table, cur, done)
    requires WholeGroup(OidKeys(table), k, g) && k !in done
    ensures SameIds(table, next) && MarkedFor(table, next, done + {k})
    ensures |Later(table, done + {k})| == |Later(table, done)| + count
  {
    if |g| > 1 {
      ghost var added;
      next, count, added := MarkGroup(table, cur, k, g);
      MarkedForStep(table, cur, next, done, k, g);
      LaterStep(table, done, k, g, added);
    } else {
      SingleStep(table, cur, done, k, g);
      next, count := cur, 0;
    }
  }

  lemma EveryKeyDone(table: seq<Row>, order: seq<Value>, done: set<Value>)
    requires done == Seen(order, |order|)
    requires forall i :: 0 <= i < |table| && OidKeys(table)[i].Some? ==> OidKeys(table)[i].value in order
    ensures forall i :: 0 <= i < |table| ==> table[i].originalId in done
  {
    var keys := OidKeys(table);
    forall i | 0 <= i < |table| ensures table[i].originalId in done {
      assert keys[i].Some?;
      var b :| 0 <= b < |order| && order[b] == keys[i].value;
    }
  }

  /** The outer loop of `detect_and_mark_duplicates`, over the `original_id`s in order of first appearance. */
  method MarkAll(table: seq<Row>, order: seq<Value>, groups: map<Value, seq<nat>>) returns (pairs: nat, table': seq<Row>)
    requires IdOrdered(table) && KeyGroups(OidKeys(table), order, groups)
    ensures |table'| == |table|
    ensures forall i :: 0 <= i < |table| ==> table'[i] == Marked(table, i)
    ensures pairs == |set i | 0 <= i < |table| && FirstSame(OidKeys(table), i, 0) != i|
  {
    table', pairs := table, 0;
    ghost var done: set<Value> := {};
    for a := 0 to |order|
      invariant SameIds(table, table') && MarkedFor(table, table', done)
      invariant done == Seen(order, a)
      invariant pairs == |Later(table, done)|
    {
      var k := order[a];
      SeenStep(order, a);
      var c;
      table', c := MarkOneKey(table, table', k, groups[k], done);
      pairs := pairs + c;
      done := done + {k};
    }
    EveryKeyDone(table, order, done);
    AllDone(table, table', done);
  }

  /** `detect_and_mark_duplicates` on the table read in id order; returns the number of rows marked and the table after the updates. */
  method DetectAndMarkDuplicates(table: seq<Row>) returns (pairs: nat, table': seq<Row>)
    requires IdOrdered(table)
    ensures |table'| == |table|
    ensures forall i :: 0 <= i < |table| ==> table'[i] == Marked(table, i)
    ensures pairs == |set i | 0 <= i < |table| && FirstSame(OidKeys(table), i, 0) != i|
  {
    var order, groups := GroupPositions(OidKeys(table));
    GroupedKeyGroups(OidKeys(table), order, groups);
    pairs, table' := MarkAll(table, order, groups);
  }

  // ------------------------------------------------------------ selecting the kept row

  /** `min(group, key=lambda x: x.get('id', 0))`: the index in `g` of the first row with the least id. */
  function MinAt(table: seq<Row>, g: seq<nat>): (u: nat)
    requires |g| > 0 && forall v :: 0 <= v < |g| ==> g[v] < |table|
    ensures u < |g|
    ensures forall v :: 0 <= v < |g| ==> table[g[u]].id <= table[g[v]].id
    ensures forall v :: 0 <= v < u ==> table[g[u]].id < table[g[v]].id
    decreases |g|
  {
    if |g| == 1 then 0
    else
      var u := MinAt(table, g[..|g| - 1]);
      if table[g[|g| - 1]].id < table[g[u]].id then |g| - 1 else u
  }

  /** `max(group, key=lambda x: x.get('id', 0))`: the index in `g` of the first row with the greatest id. */
  function MaxAt(table: seq<Row>, g: seq<nat>): (u: nat)
    requires |g| > 0 && forall v :: 0 <= v < |g| ==> g[v] < |table|
    ensures u < |g|
    ensures forall v :: 0 <= v < |g| ==> table[g[v]].id <= table[g[u]].id
    ensures forall v :: 0 <= v < u ==> table[g[v]].id < table[g[u]].id
    decreases |g|
  {
    if |g| == 1 then 0
    else
      var u := MaxAt(table, g[..|g| - 1]);
      if table[g[u]].id < table[g[|g| - 1]].id then |g| - 1 else u
  }

  /** In id order the least id is the group's first row and the greatest its last. */
  lemma MinMaxEnds(table: seq<Row>, g: seq<nat>)
    requires IdOrdered(table) && |g| > 0 && Ascending(g) && forall v :: 0 <= v < |g| ==> g[v] < |table|
    ensures MinAt(table, g) == 0 && MaxAt(table, g) == |g| - 1
  {
  }

  /** The index in `g` of the row kept under `keep_strategy`: least id for "first", greatest for "last", else the first. */
  function KeepIndex(table: seq<Row>, g: seq<nat>, strategy: string): (u: nat)
    requires |g| > 0 && forall v :: 0 <= v < |g| ==> g[v] < |table|
    ensures u < |g|
  {
    if strategy == "first" then MinAt(table, g) else if strategy == "last" then MaxAt(table, g) else 0
  }

  // ------------------------------------------------------------ export_deduplicated_data

  /** The dedup key of `export_deduplicated_data`: the `original_id`, or `"id_<id>"` where it is NULL. */
  function ExportKey(row: Row): Value {
    if row.originalId == Null then Str("id_" + IntToString(row.id)) else row.originalId
  }

  /** Rows whose `original_id` is NULL are never merged with each other. */
  lemma NullRowsApart(r1: Row, r2: Row)
    requires r1.originalId == Null && r2.originalId == Null && r1.id != r2.id
    ensures ExportKey(r1) != ExportKey(r2)
  {
    if ExportKey(r1) == ExportKey(r2) {
      assert IntToString(r1.id) == ExportKey(r1).s[3..] == ExportKey(r2).s[3..] == IntToString(r2.id);
      IntToStringInjective(r1.id, r2.id);
    }
  }

  function ExportKeys(table: seq<Row>): (r: seq<Option<Value>>)
    ensures |r| == |table|
    ensures forall i :: 0 <= i < |table| ==> r[i] == Some(ExportKey(table[i]))
  {
    seq(|table|, i requires 0 <= i < |table| => Some(ExportKey(table[i])))
  }

  /** Row `p` is the one `keep_strategy` picks against row `i` of the same key. */
  predicate Chosen(table: seq<Row>, strategy: string, p: nat, i: nat)
    requires p < |table| && i < |table|
  {
    && (strategy == "first" ==> table[p].id <= table[i].id && (i < p ==> table[p].id < table[i].id))
    && (strategy == "last" ==> table[i].id <= table[p].id && (i < p ==> table[i].id < table[p].id))
    && (strategy != "first" && strategy != "last" ==> p <= i)
  }

  /** The kept row of a group beats every row of its key. */
  lemma KeepIndexChosen(table: seq<Row>, keys: seq<Option<Value>>, strategy: string, k: Value, g: seq<nat>, i: nat)
    requires |keys| == |table| && WholeGroup(keys, k, g) && i < |table| && keys[i] == Some(k)
    ensures Chosen(table, strategy, g[KeepIndex(table, g, strategy)], i)
  {
    var u := KeepIndex(table, g, strategy);
    assert i in g;
    var v :| 0 <= v < |g| && g[v] == i;
    if i < g[u] {
      assert v < u;
    }
  }

  /** The exported rows: at most one per key, each the pick of its key, in order of each key's first row. */
  ghost predicate Selection(table: seq<Row>, strategy: string, out: seq<Row>, pos: seq<nat>) {
    && |pos| == |out|
    && (forall a :: 0 <= a < |out| ==> pos[a] < |table| && out[a] == table[pos[a]])
    && (forall a, b :: 0 <= a < b < |out| ==> ExportKey(out[a]) != ExportKey(out[b]))
    && (forall a, b :: 0 <= a < b < |out| ==>
          FirstSame(ExportKeys(table), pos[a], 0) < FirstSame(ExportKeys(table), pos[b], 0))
    && (forall a, i :: 0 <= a < |out| && 0 <= i < |table| && ExportKey(table[i]) == ExportKey(out[a]) ==>
          Chosen(table, strategy, pos[a], i))
  }

  /** The selection after the first `a` keys. */
  ghost predicate SelectedUpTo(table: seq<Row>, strategy: string, order: seq<Value>, groups: map<Value, seq<nat>>,
                               out: seq<Row>, pos: seq<nat>, a: nat)
    requires a <= |order|
  {
    && |pos| == |out| == a
    && (forall b :: 0 <= b < a ==> (
          && order[b] in groups && |groups[order[b]]| > 0
          && pos[b] < |table| && out[b] == table[pos[b]]
          && ExportKey(table[pos[b]]) == order[b]
          && FirstSame(ExportKeys(table), pos[b], 0) == groups[order[b]][0]
          && (forall i :: 0 <= i < |table| && ExportKey(table[i]) == order[b] ==> Chosen(table, strategy, pos[b], i))))
  }

  lemma SelectedStep(table: seq<Row>, strategy: string, order: seq<Value>, groups: map<Value, seq<nat>>,
                     out: seq<Row>, pos: seq<nat>, a: nat)
    requires a < |order| && KeyGroups(ExportKeys(table), order, groups)
    requires SelectedUpTo(table, strategy, order, groups, out, pos, a)
    ensures var g := groups[order[a]];
      var p := g[KeepIndex(table, g, strategy)];
      SelectedUpTo(table, strategy, order, groups, out + [table[p]], pos + [p], a + 1)
  {
    var keys, k := ExportKeys(table), order[a];
    var g := groups[k];
    var p := g[KeepIndex(table, g, strategy)];
    assert keys[p] == Some(k);
    forall i | 0 <= i < |table| && ExportKey(table[i]) == k ensures Chosen(table, strategy, p, i) {
      KeepIndexChosen(table, keys, strategy, k, g, i);
    }
  }

  /** The keys of the exported rows. */
  function KeysOf(out: seq<Row>): (r: set<Value>)
    ensures forall a :: 0 <= a < |out| ==> ExportKey(out[a]) in r
  {
    set a | 0 <= a < |out| :: ExportKey(out[a])
  }

  /** Every row's key is exported. */
  predicate Covers(table: seq<Row>, out: seq<Row>) {
    forall i :: 0 <= i < |table| ==> ExportKey(table[i]) in KeysOf(out)
  }

  lemma SelectedAll(table: seq<Row>, strategy: string, order: seq<Value>, groups: map<Value, seq<nat>>,
                    out: seq<Row>, pos: seq<nat>)
    requires KeyGroups(ExportKeys(table), order, groups) && HeadsAscend(order, groups)
    requires SelectedUpTo(table, strategy, order, groups, out, pos, |order|)
    ensures Selection(table, strategy, out, pos)
    ensures Covers(table, out)
  {
    var keys := ExportKeys(table);
    forall i | 0 <= i < |table| ensures ExportKey(table[i]) in KeysOf(out) {
      assert keys[i].Some?;
      var w :| 0 <= w < |order| && order[w] == keys[i].value;
      assert ExportKey(out[w]) == ExportKey(table[i]);
    }
  }

  /** `for original_id, group in original_id_groups.items(): ... deduplicated_data.append(selected_record)`. */
  method SelectAll(table: seq<Row>, strategy: string, order: seq<Value>, groups: map<Value, seq<nat>>)
    returns (out: seq<Row>, ghost pos: seq<nat>)
    requires KeyGroups(ExportKeys(table), order, groups) && HeadsAscend(order, groups)
    ensures Selection(table, strategy, out, pos) && Covers(table, out)
  {
    out, pos := [], [];
    for a := 0 to |order|
      invariant SelectedUpTo(table, strategy, order, groups, out, pos, a)
    {
      var g := groups[order[a]];
      SelectedStep(table, strategy, order, groups, out, pos, a);
      var p := g[KeepIndex(table, g, strategy)];
      out, pos := out + [table[p]], pos + [p];
    }
    SelectedAll(table, strategy, order, groups, out, pos);
  }

  /** What `export_deduplicated_data` reports in `stats`. */
  datatype ExportStats = ExportStats(originalCount: nat, deduplicatedCount: nat, removedCount: int)

  /**
   * `export_deduplicated_data` on the rows read in id order: `None` (success
   * False) when there are none; otherwise the rows written out, one per key,
   * and the counts.
   */
  method ExportDeduplicatedData(table: seq<Row>, strategy: string) returns (r: Option<ExportStats>, out: seq<Row>, ghost pos: seq<nat>)
    ensures |table| == 0 ==> r.None? && out == []
    ensures |table| > 0 ==> r == Some(ExportStats(|table|, |out|, |table| - |out|))
    ensures Selection(table, strategy, out, pos)
    ensures Covers(table, out)
  {
    out, pos := [], [];
    if |table| == 0 {
      return None, out, pos;
    }
    var order, groups := GroupPositions(ExportKeys(table));
    GroupedKeyGroups(ExportKeys(table), order, groups);
    out, pos := SelectAll(table, strategy, order, groups);
    r := Some(ExportStats(|table|, |out|, |table| - |out|));
  }

  // ------------------------------------------------------------ clean_duplicate_records

  /** The row `clean_duplicate_records` keeps among those of the `original_id` at `i`: the last for "last", the first otherwise. */
  function KeptAt(table: seq<Row>, strategy: string, i: nat): (p: nat)
    requires i < |table|
    ensures p < |table| && table[p].originalId == table[i].originalId
  {
    var keys := OidKeys(table);
    var p := if strategy == "last" then LastSame(keys, i, |table|) else FirstSame(keys, i, 0);
    assert keys[p] == keys[i];
    p
  }

  predicate Survives(table: seq<Row>, strategy: string, i: nat)
    requires i < |table|
  {
    KeptAt(table, strategy, i) == i
  }

  /** In id order the kept row has the least id of its `original_id` ("first" and other strategies) or the greatest ("last"). */
  lemma KeptIdExtreme(table: seq<Row>, strategy: string, i: nat, j: nat)
    requires IdOrdered(table) && i < |table| && j < |table| && table[j].originalId == table[i].originalId
    ensures strategy == "last" ==> table[j].id <= table[KeptAt(table, strategy, i)].id
    ensures strategy != "last" ==> table[KeptAt(table, strategy, i)].id <= table[j].id
  {
    var keys := OidKeys(table);
    assert keys[j] == keys[i];
  }

  /** Two surviving rows never share an `original_id`. */
  lemma SurvivorUnique(table: seq<Row>, strategy: string, j1: nat, j2: nat)
    requires j1 < j2 < |table| && Survives(table, strategy, j1) && Survives(table, strategy, j2)
    ensures table[j1].originalId != table[j2].originalId
  {
    var keys := OidKeys(table);
  }

  /** The kept row of an `original_id` survives. */
  lemma KeptSurvives(table: seq<Row>, strategy: string, i: nat)
    requires i < |table|
    ensures Survives(table, strategy, KeptAt(table, strategy, i))
  {
    var keys := OidKeys(table);
    var p := KeptAt(table, strategy, i);
    assert keys[p] == keys[i];
    var q := KeptAt(table, strategy, p);
    assert keys[q] == keys[i];
  }

  /** Which rows `clean_duplicate_records` keeps. */
  function KeepMask(table: seq<Row>, strategy: string): (m: seq<bool>)
    ensures |m| == |table| && forall i :: 0 <= i < |table| ==> m[i] == Survives(table, strategy, i)
  {
    seq(|table|, i requires 0 <= i < |table| => Survives(table, strategy, i))
  }

  /** The table left by `clean_duplicate_records`. */
  function Surviving(table: seq<Row>, strategy: string): (r: seq<Row>)
    ensures |r| <= |table|
  {
    Kept(table, KeepMask(table, strategy), |table|)
  }

  /** If no two kept positions share an `original_id`, neither do two kept rows. */
  lemma {:induction false} KeptDistinct(rows: seq<Row>, mask: seq<bool>, n: nat)
    requires n <= |rows| == |mask|
    requires forall j1, j2 :: 0 <= j1 < j2 < n && mask[j1] && mask[j2] ==> rows[j1].originalId != rows[j2].originalId
    ensures forall a, b :: 0 <= a < b < |Kept(rows, mask, n)| ==>
      Kept(rows, mask, n)[a].originalId != Kept(rows, mask, n)[b].originalId
  {
    if n > 0 {
      KeptDistinct(rows, mask, n - 1);
      var prev := Kept(rows, mask, n - 1);
      if mask[n - 1] {
        KeptMembers(rows, mask, n - 1);
        forall a | 0 <= a < |prev| ensures prev[a].originalId != rows[n - 1].originalId {
          assert prev[a] in prev;
        }
      }
    }
  }

  /** `DELETE FROM sentiment_results WHERE id IN (...)`: the rows whose id is not listed, in order. */
  function DeleteWhereIdIn(table: seq<Row>, ids: seq<int>): (r: seq<Row>)
    ensures |r| <= |table|
  {
    if |table| == 0 then []
    else
      var last := table[|table| - 1];
      DeleteWhereIdIn(table[..|table| - 1], ids) + (if last.id in ids then [] else [last])
  }

  /** Deleting exactly the ids of the unkept rows leaves the kept rows. */
  lemma {:induction false} DeleteLeavesKept(rows: seq<Row>, mask: seq<bool>, ids: seq<int>, n: nat)
    requires n <= |rows| == |mask|
    requires forall i :: 0 <= i < |rows| ==> (rows[i].id in ids <==> !mask[i])
    ensures DeleteWhereIdIn(rows[..n], ids) == Kept(rows, mask, n)
  {
    if n > 0 {
      DeleteLeavesKept(rows, mask, ids, n - 1);
      assert rows[..n][..n - 1] == rows[..n - 1];
    }
  }

  lemma {:induction false} DeleteNothing(table: seq<Row>)
    ensures DeleteWhereIdIn(table, []) == table
  {
    if |table| > 0 {
      DeleteNothing(table[..|table| - 1]);
    }
  }

  /** The `original_id`s of some rows. */
  function OidsOf(rows: seq<Row>): (r: set<Value>)
    ensures forall a :: 0 <= a < |rows| ==> rows[a].originalId in r
    ensures forall k :: k in r ==> exists a :: 0 <= a < |rows| && rows[a].originalId == k
  {
    set a | 0 <= a < |rows| :: rows[a].originalId
  }

  /** The surviving rows hold every `original_id` of the table, each once. */
  lemma SurvivingOnePerId(table: seq<Row>, strategy: string)
    ensures forall a, b :: 0 <= a < b < |Surviving(table, strategy)| ==>
      Surviving(table, strategy)[a].originalId != Surviving(table, strategy)[b].originalId
    ensures forall i :: 0 <= i < |table| ==> table[i].originalId in OidsOf(Surviving(table, strategy))
  {
    var mask := KeepMask(table, strategy);
    var s := Surviving(table, strategy);
    forall j1, j2 | 0 <= j1 < j2 < |table| && mask[j1] && mask[j2]
      ensures table[j1].originalId != table[j2].originalId
    {
      SurvivorUnique(table, strategy, j1, j2);
    }
    KeptDistinct(table, mask, |table|);
    KeptMembers(table, mask, |table|);
    forall i | 0 <= i < |table| ensures table[i].originalId in OidsOf(s) {
      KeptSurvives(table, strategy, i);
      var p := KeptAt(table, strategy, i);
      assert table[p] in s;
      var a :| 0 <= a < |s| && s[a] == table[p];
    }
  }

  /** Within a group, exactly the kept row survives. */
  lemma KeepIndexSurvives(table: seq<Row>, strategy: string, k: Value, g: seq<nat>, i: nat)
    requires IdOrdered(table) && WholeGroup(OidKeys(table), k, g) && i < |table| && table[i].originalId == k
    ensures Survives(table, strategy, i) <==> i == g[KeepIndex(table, g, strategy)]
  {
    var keys := OidKeys(table);
    MinMaxEnds(table, g);
    assert keys[i] == Some(k) && i in g;
  }

  /** The rows of `k` listed for deletion are exactly those the mask does not keep. */
  ghost predicate GroupListed(table: seq<Row>, mask: seq<bool>, k: Value, ids: seq<int>, ps: set<int>)
    requires |mask| == |table|
  {
    && (forall i :: 0 <= i < |table| ==> (table[i].id in ids <==> table[i].originalId == k && !mask[i]))
    && ps == (set i | 0 <= i < |table| && table[i].originalId == k && !mask[i])
    && |ids| == |ps|
  }

  /** The ids of the first `v` group positions other than the kept id, in order. */
  function Others(table: seq<Row>, g: seq<nat>, keepId: int, v: nat): seq<int>
    requires v <= |g| && forall w :: 0 <= w < |g| ==> g[w] < |table|
  {
    if v == 0 then []
    else Others(table, g, keepId, v - 1) + (if table[g[v - 1]].id != keepId then [table[g[v - 1]].id] else [])
  }

  /** The positions behind `Others`. */
  ghost function OtherPositions(table: seq<Row>, g: seq<nat>, keepId: int, v: nat): set<int>
    requires v <= |g| && forall w :: 0 <= w < |g| ==> g[w] < |table|
  {
    if v == 0 then {}
    else OtherPositions(table, g, keepId, v - 1) + (if table[g[v - 1]].id != keepId then {g[v - 1] as int} else {})
  }

  /** `OtherPositions` holds the group positions whose id is not the kept one. */
  lemma {:induction false} OtherPositionsIn(table: seq<Row>, g: seq<nat>, keepId: int, v: nat)
    requires v <= |g| && forall w :: 0 <= w < |g| ==> g[w] < |table|
    ensures forall p: int :: p in OtherPositions(table, g, keepId, v) <==>
      0 <= p < |table| && p in g[..v] && table[p].id != keepId
  {
    if v > 0 {
      OtherPositionsIn(table, g, keepId, v - 1);
      assert g[..v] == g[..v - 1] + [g[v - 1]];
    }
  }

  /** `Others` lists the ids of the positions in `OtherPositions`. */
  lemma {:induction false} OthersIds(table: seq<Row>, g: seq<nat>, keepId: int, v: nat)
    requires IdOrdered(table) && v <= |g| && forall w :: 0 <= w < |g| ==> g[w] < |table|
    ensures forall i :: 0 <= i < |table| ==> (table[i].id in Others(table, g, keepId, v) <==> i in OtherPositions(table, g, keepId, v))
  {
    if v > 0 {
      OthersIds(table, g, keepId, v - 1);
    }
  }

  /** `Others` lists each of those ids once. */
  lemma {:induction false} OthersCount(table: seq<Row>, g: seq<nat>, keepId: int, v: nat)
    requires Ascending(g) && v <= |g| && forall w :: 0 <= w < |g| ==> g[w] < |table|
    ensures |Others(table, g, keepId, v)| == |OtherPositions(table, g, keepId, v)|
  {
    if v > 0 {
      OthersCount(table, g, keepId, v - 1);
      OtherPositionsIn(table, g, keepId, v - 1);
      LastNotEarlier(g, v);
      assert (g[v - 1] as int) !in OtherPositions(table, g, keepId, v - 1);
    }
  }

  /** In an ascending sequence no element repeats an earlier one. */
  lemma LastNotEarlier(g: seq<nat>, v: nat)
    requires Ascending(g) && 0 < v <= |g|
    ensures g[v - 1] !in g[..v - 1]
  {
  }

  lemma ListedAll(table: seq<Row>, strategy: string, k: Value, g: seq<nat>, keepId: int)
    requires IdOrdered(table) && WholeGroup(OidKeys(table), k, g)
    requires keepId == table[g[KeepIndex(table, g, strategy)]].id
    ensures GroupListed(table, KeepMask(table, strategy), k, Others(table, g, keepId, |g|), OtherPositions(table, g, keepId, |g|))
  {
    OtherPositionsIn(table, g, keepId, |g|);
    OthersIds(table, g, keepId, |g|);
    OthersCount(table, g, keepId, |g|);
    assert g[..|g|] == g;
    GroupIsKey(table, k, g);
    forall i | 0 <= i < |table| && table[i].originalId == k
      ensures KeepMask(table, strategy)[i] <==> table[i].id == keepId
    {
      KeepIndexSurvives(table, strategy, k, g, i);
    }
  }

  /** The positions of a whole group are exactly the rows of its `original_id`. */
  lemma GroupIsKey(table: seq<Row>, k: Value, g: seq<nat>)
    requires WholeGroup(OidKeys(table), k, g)
    ensures forall i :: 0 <= i < |table| ==> (i in g <==> table[i].originalId == k)
  {
    var keys := OidKeys(table);
    forall i | 0 <= i < |table| ensures i in g <==> table[i].originalId == k {
      if table[i].originalId == k {
        assert keys[i] == Some(k);
      }
      if i in g {
        var w :| 0 <= w < |g| && g[w] == i;
        assert keys[g[w]] == Some(k);
      }
    }
  }

  /** The inner loop of `clean_duplicate_records`: every id of the group but the kept one. */
  method ListGroup(table: seq<Row>, strategy: string, k: Value, g: seq<nat>) returns (ids: seq<int>, ghost ps: set<int>)
    requires IdOrdered(table) && WholeGroup(OidKeys(table), k, g)
    ensures GroupListed(table, KeepMask(table, strategy), k, ids, ps)
  {
    var keepId := table[g[KeepIndex(table, g, strategy)]].id;
    ids := CollectOthers(table, g, keepId);
    ps := OtherPositions(table, g, keepId, |g|);
    ListedAll(table, strategy, k, g, keepId);
  }

  /** The loop over the group's rows: the id of each one that is not the kept id, in order. */
  method CollectOthers(table: seq<Row>, g: seq<nat>, keepId: int) returns (ids: seq<int>)
    requires forall w :: 0 <= w < |g| ==> g[w] < |table|
    ensures ids == Others(table, g, keepId, |g|)
  {
    ids := [];
    for v := 0 to |g|
      invariant ids == Others(table, g, keepId, v)
    {
      if table[g[v]].id != keepId {
        ids := ids + [table[g[v]].id];
      }
    }
  }

  /** The rows of the keys in `done` that the mask does not keep. */
  ghost function Doomed(table: seq<Row>, mask: seq<bool>, done: set<Value>): set<int>
    requires |mask| == |table|
  {
    set i | 0 <= i < |table| && table[i].originalId in done && !mask[i]
  }

  /** The delete list after the keys in `done`. */
  ghost predicate DoomedListed(table: seq<Row>, mask: seq<bool>, done: set<Value>, toDelete: seq<int>, delPos: set<int>)
    requires |mask| == |table|
  {
    && (forall i :: 0 <= i < |table| ==> (table[i].id in toDelete <==> table[i].originalId in done && !mask[i]))
    && delPos == Doomed(table, mask, done)
    && |toDelete| == |delPos|
  }

  lemma DoomedStep(table: seq<Row>, mask: seq<bool>, done: set<Value>, toDelete: seq<int>, delPos: set<int>,
                   k: Value, ids: seq<int>, ps: set<int>)
    requires |mask| == |table| && k !in done
    requires DoomedListed(table, mask, done, toDelete, delPos)
    requires GroupListed(table, mask, k, ids, ps)
    ensures DoomedListed(table, mask, done + {k}, toDelete + ids, delPos + ps)
  {
    assert delPos * ps == {};
  }

  lemma SingleKept(table: seq<Row>, strategy: string, done: set<Value>, toDelete: seq<int>, delPos: set<int>, k: Value, g: seq<nat>)
    requires IdOrdered(table) && WholeGroup(OidKeys(table), k, g) && k !in done && |g| == 1
    requires DoomedListed(table, KeepMask(table, strategy), done, toDelete, delPos)
    ensures DoomedListed(table, KeepMask(table, strategy), done + {k}, toDelete, delPos)
  {
    var mask := KeepMask(table, strategy);
    forall i | 0 <= i < |table| && table[i].originalId == k ensures mask[i] {
      KeepIndexSurvives(table, strategy, k, g, i);
    }
    assert Doomed(table, mask, done + {k}) == Doomed(table, mask, done);
  }

  /** One `original_id` of the outer loop: `if len(records) > 1`, list all but the kept row. */
  method ListOneKey(table: seq<Row>, strategy: string, k: Value, g: seq<nat>, toDelete: seq<int>,
                    ghost delPos: set<int>, ghost done: set<Value>) returns (toDelete': seq<int>, ghost delPos': set<int>)
    requires IdOrdered(table) && WholeGroup(OidKeys(table), k, g) && k !in done
    requires DoomedListed(table, KeepMask(table, strategy), done, toDelete, delPos)
    ensures DoomedListed(table, KeepMask(table, strategy), done + {k}, toDelete', delPos')
  {
    if |g| > 1 {
      var ids;
      ghost var ps;
      ids, ps := ListGroup(table, strategy, k, g);
      DoomedStep(table, KeepMask(table, strategy), done, toDelete, delPos, k, ids, ps);
      toDelete', delPos' := toDelete + ids, delPos + ps;
    } else {
      SingleKept(table, strategy, done, toDelete, delPos, k, g);
      toDelete', delPos' := toDelete, delPos;
    }
  }

  /** The outer loop of `clean_duplicate_records`: the ids of every row that is not kept. */
  method ListAll(table: seq<Row>, strategy: string, order: seq<Value>, groups: map<Value, seq<nat>>)
    returns (toDelete: seq<int>, ghost delPos: set<int>)
    requires IdOrdered(table) && KeyGroups(OidKeys(table), order, groups)
    ensures forall i :: 0 <= i < |table| ==> (table[i].id in toDelete <==> !KeepMask(table, strategy)[i])
    ensures delPos == Unkept(KeepMask(table, strategy), |table|) && |toDelete| == |delPos|
  {
    ghost var mask := KeepMask(table, strategy);
    toDelete, delPos := [], {};
    ghost var done: set<Value> := {};
    for a := 0 to |order|
      invariant done == Seen(order, a)
      invariant DoomedListed(table, mask, done, toDelete, delPos)
    {
      var k := order[a];
      SeenStep(order, a);
      toDelete, delPos := ListOneKey(table, strategy, k, groups[k], toDelete, delPos, done);
      done := done + {k};
    }
    EveryKeyDone(table, order, done);
  }

  /**
   * `clean_duplicate_records` on the table read in id order: the number of
   * rows deleted and the table left behind.
   */
  method CleanDuplicateRecords(table: seq<Row>, strategy: string) returns (deleted: nat, table': seq<Row>)
    requires IdOrdered(table)
    ensures table' == Surviving(table, strategy)
    ensures deleted + |table'| == |table|
  {
    var order, groups := GroupPositions(OidKeys(table));
    GroupedKeyGroups(OidKeys(table), order, groups);
    var toDelete;
    ghost var delPos;
    toDelete, delPos := ListAll(table, strategy, order, groups);
    ghost var mask := KeepMask(table, strategy);
    DeleteLeavesKept(table, mask, toDelete, |table|);
    assert table[..|table|] == table;
    if |toDelete| > 0 {
      table' := DeleteWhereIdIn(table, toDelete);
    } else {
      table' := table;
      DeleteNothing(table);
    }
    KeptCount(table, mask, |table|);
    deleted := |toDelete|;
  }
}
