/**
 * Deduplication of a JSON export (and of the result table) by `original_id`:
 * exactly one record survives per `original_id`, the one with the smallest
 * `id`, a missing or `None` id counting as +infinity and ties keeping the
 * record seen first.  Records without an `original_id` are dropped and
 * counted.  File and database access are left to the callers: the JSON file
 * arrives as a `Value`, the table as an optional list of rows.
 */
module DedupJson {
  import opened Wrappers
  import opened Values
  import opened PyText

  // ------------------------------------------------------------ ordering ids

  /** How `id < other_id` sees an id: a number, `float('inf')` (for `None`), a string, or something it cannot order. */
  datatype Rank = Num(x: real) | Infinite | Text(s: string) | Unordered

  function RankOf(id: Value): Rank {
    match id
    case Null => Infinite
    case Bool(b) => Num(if b then 1.0 else 0.0)
    case Int(i) => Num(i as real)
    case Real(r) => Num(r)
    case Str(s) => Text(s)
    case _ => Unordered
  }

  /** Which ids `<` can compare with each other. */
  function Kind(r: Rank): nat {
    match r
    case Num(_) => 0
    case Infinite => 0
    case Text(_) => 1
    case Unordered => 2
  }

  /** `a < b`, or `None` where Python raises `TypeError`. */
  function Less(a: Rank, b: Rank): (r: Option<bool>)
    ensures r.Some? <==> Kind(a) == Kind(b) && Kind(a) != 2
  {
    match (a, b)
    case (Num(x), Num(y)) => Some(x < y)
    case (Num(_), Infinite) => Some(true)
    case (Infinite, Num(_)) => Some(false)
    case (Infinite, Infinite) => Some(false)
    case (Text(s), Text(t)) => Some(StrLess(s, t))
    case _ => None
  }

  /** Nothing is below itself. */
  lemma LessIrreflexive(a: Rank)
    requires Kind(a) != 2
    ensures Less(a, a) == Some(false)
  {
    if a.Text? {
      StrLessIrreflexive(a.s);
    }
  }

  /** If `a < b` and `c` is not below `b`, then `a < c` and `c` is not below `a`. */
  lemma LessBelow(a: Rank, b: Rank, c: Rank)
    requires Less(a, b) == Some(true) && Less(c, b) == Some(false)
    ensures Less(a, c) == Some(true) && Less(c, a) == Some(false)
  {
    if a.Text? {
      if b.s != c.s {
        StrLessTotal(b.s, c.s);
        StrLessTransitive(a.s, b.s, c.s);
      }
      if StrLess(c.s, a.s) {
        StrLessTransitive(c.s, a.s, b.s);
      }
      StrLessIrreflexive(a.s);
    }
  }

  // ------------------------------------------------------------ the records

  /** The `original_id` of a dict record, unless it is missing or `None`. */
  function IdOf(item: Value): Option<Value> {
    if item.Dict? && "original_id" in item.fields && item.fields["original_id"] != Null
    then Some(item.fields["original_id"]) else None
  }

  /** A dict record whose `original_id` is missing or `None`. */
  predicate Missing(item: Value) {
    item.Dict? && IdOf(item).None?
  }

  /** How `record.get('id')` orders. */
  function RankOfItem(item: Value): Rank {
    RankOf(if item.Dict? then GetOrNull(item.fields, "id") else Null)
  }

  /** A dict key Python can hash. */
  predicate Hashable(v: Value) {
    !(v.List? || v.Dict?)
  }

  /** The loop raises at record `i`: its id cannot be a dict key, or its `id` cannot be compared with that of an earlier record of the same `original_id`. */
  ghost predicate FailsAt(items: seq<Value>, i: nat)
    requires i < |items|
  {
    IdOf(items[i]).Some? &&
    (!Hashable(IdOf(items[i]).value)
     || exists j :: 0 <= j < i && IdOf(items[j]) == IdOf(items[i]) && Less(RankOfItem(items[i]), RankOfItem(items[j])).None?)
  }

  /** The distinct `original_id`s of the first `n` records, in order of first appearance. */
  function FirstSeen(items: seq<Value>, n: nat): (r: seq<Value>)
    requires n <= |items|
  {
    if n == 0 then []
    else
      var seen := FirstSeen(items, n - 1);
      match IdOf(items[n - 1])
      case Some(k) => if k in seen then seen else seen + [k]
      case None => seen
  }

  predicate Distinct(s: seq<Value>) {
    forall a, b :: 0 <= a < b < |s| ==> s[a] != s[b]
  }

  /** Every `original_id` is listed once, and exactly the `original_id`s that occur are listed. */
  lemma {:induction false} FirstSeenFacts(items: seq<Value>, n: nat)
    requires n <= |items|
    ensures Distinct(FirstSeen(items, n))
    ensures forall k :: k in FirstSeen(items, n) <==> exists i :: 0 <= i < n && IdOf(items[i]) == Some(k)
  {
    if n > 0 {
      FirstSeenFacts(items, n - 1);
      forall k | (exists i :: 0 <= i < n && IdOf(items[i]) == Some(k)) ensures k in FirstSeen(items, n) {
        var i :| 0 <= i < n && IdOf(items[i]) == Some(k);
        if i < n - 1 {
          assert k in FirstSeen(items, n - 1);
        }
      }
    }
  }

  /** The records of the first `n` that have an `original_id`. */
  function CountIds(items: seq<Value>, n: nat): (r: nat)
    requires n <= |items|
    ensures r <= n
  {
    if n == 0 then 0 else CountIds(items, n - 1) + (if IdOf(items[n - 1]).Some? then 1 else 0)
  }

  /** The dict records of the first `n` without an `original_id`. */
  function CountMissing(items: seq<Value>, n: nat): (r: nat)
    requires n <= |items|
    ensures r <= n
  {
    if n == 0 then 0 else CountMissing(items, n - 1) + (if Missing(items[n - 1]) then 1 else 0)
  }

  /** Record `c` is the survivor among the first `n` of its `original_id`: no other has a smaller `id`, and every earlier one has a larger one. */
  ghost predicate ChosenUpTo(items: seq<Value>, n: nat, c: nat)
    requires c < n <= |items|
  {
    forall p :: 0 <= p < n && p != c && IdOf(items[p]) == IdOf(items[c]) ==>
      Less(RankOfItem(items[p]), RankOfItem(items[c])) == Some(false)
      && (p < c ==> Less(RankOfItem(items[c]), RankOfItem(items[p])) == Some(true))
  }

  /** The positions of the survivors, each carrying its own `original_id`. */
  ghost predicate Placed(items: seq<Value>, n: nat, pos: map<Value, nat>)
    requires n <= |items|
  {
    forall k :: k in pos ==> pos[k] < n && IdOf(items[pos[k]]) == Some(k)
  }

  /** The survivors: one per `original_id` seen, with its position in the input. */
  ghost predicate Survivors(items: seq<Value>, n: nat, order: seq<Value>, best: map<Value, Value>, pos: map<Value, nat>)
    requires n <= |items|
  {
    && order == FirstSeen(items, n)
    && (forall k :: k in best <==> k in order)
    && (forall k :: k in pos <==> k in order)
    && Placed(items, n, pos)
    && (forall k :: k in pos ==> k in best && best[k] == items[pos[k]])
  }

  /** Each survivor so far beats the other records of its `original_id`. */
  ghost predicate AllChosen(items: seq<Value>, n: nat, pos: map<Value, nat>)
    requires n <= |items|
  {
    forall k :: k in pos && pos[k] < n ==> ChosenUpTo(items, n, pos[k])
  }

  /** The loop has not raised on the first `n` records. */
  ghost predicate NoFailure(items: seq<Value>, n: nat)
    requires n <= |items|
  {
    forall i :: 0 <= i < n ==> !FailsAt(items, i)
  }

  /** The records dropped so far: each non-surviving record with an `original_id`, once. */
  ghost predicate Dropped(items: seq<Value>, n: nat, pos: map<Value, nat>, toDelete: seq<Value>, delPos: seq<nat>)
    requires n <= |items|
  {
    && |toDelete| == |delPos|
    && (forall e :: 0 <= e < |delPos| ==> delPos[e] < n && toDelete[e] == items[delPos[e]])
    && (forall e, f :: 0 <= e < f < |delPos| ==> delPos[e] != delPos[f])
    && (forall p :: p in delPos <==>
          0 <= p < n && IdOf(items[p]).Some? && IdOf(items[p]).value in pos && p != pos[IdOf(items[p]).value])
  }

  /** The loop's state after the first `n` records. */
  ghost predicate PickedUpTo(items: seq<Value>, n: nat, order: seq<Value>, best: map<Value, Value>, pos: map<Value, nat>,
                             duplicates: nat, missing: nat, toDelete: seq<Value>, delPos: seq<nat>)
    requires n <= |items|
  {
    && Survivors(items, n, order, best, pos)
    && AllChosen(items, n, pos)
    && Dropped(items, n, pos, toDelete, delPos)
    && duplicates + |order| == CountIds(items, n)
    && |toDelete| == duplicates
    && missing == CountMissing(items, n)
    && NoFailure(items, n)
  }

  /** A record of another `original_id`, or one whose `id` is not smaller, leaves a survivor standing. */
  lemma ChosenExtend(items: seq<Value>, n: nat, c: nat)
    requires c < n < |items| && ChosenUpTo(items, n, c)
    requires IdOf(items[n]) != IdOf(items[c]) || Less(RankOfItem(items[n]), RankOfItem(items[c])) == Some(false)
    ensures ChosenUpTo(items, n + 1, c)
  {
  }

  /** Survivors of other `original_id`s are untouched by record `n`. */
  lemma ChosenOthers(items: seq<Value>, n: nat, pos: map<Value, nat>)
    requires n < |items| && AllChosen(items, n, pos) && Placed(items, n, pos)
    ensures forall k :: k in pos && IdOf(items[n]) != Some(k) ==> ChosenUpTo(items, n + 1, pos[k])
  {
    forall k | k in pos && IdOf(items[n]) != Some(k) ensures ChosenUpTo(items, n + 1, pos[k]) {
      ChosenExtend(items, n, pos[k]);
    }
  }

  lemma SurvivorsNoId(items: seq<Value>, n: nat, order: seq<Value>, best: map<Value, Value>, pos: map<Value, nat>)
    requires n < |items| && Survivors(items, n, order, best, pos) && AllChosen(items, n, pos) && IdOf(items[n]).None?
    ensures Survivors(items, n + 1, order, best, pos) && AllChosen(items, n + 1, pos)
  {
    ChosenOthers(items, n, pos);
  }

  /** An `original_id` with no survivor has not occurred yet. */
  lemma Unseen(items: seq<Value>, n: nat, order: seq<Value>, best: map<Value, Value>, pos: map<Value, nat>, k: Value)
    requires n < |items| && Survivors(items, n, order, best, pos) && k !in best
    ensures forall j :: 0 <= j < n ==> IdOf(items[j]) != Some(k)
  {
    FirstSeenFacts(items, n);
  }

  lemma SurvivorsNew(items: seq<Value>, n: nat, order: seq<Value>, best: map<Value, Value>, pos: map<Value, nat>, k: Value)
    requires n < |items| && Survivors(items, n, order, best, pos)
    requires IdOf(items[n]) == Some(k) && k !in best
    ensures Survivors(items, n + 1, order + [k], best[k := items[n]], pos[k := n])
  {
  }

  lemma ChosenNew(items: seq<Value>, n: nat, pos: map<Value, nat>, k: Value)
    requires n < |items| && AllChosen(items, n, pos) && Placed(items, n, pos)
    requires IdOf(items[n]) == Some(k) && forall j :: 0 <= j < n ==> IdOf(items[j]) != Some(k)
    ensures AllChosen(items, n + 1, pos[k := n])
  {
    ChosenOthers(items, n, pos);
    assert ChosenUpTo(items, n + 1, n);
  }

  /** Record `n` of a seen `original_id` compares with every earlier record of it, and the comparison never raises. */
  lemma LaterComparable(items: seq<Value>, n: nat, order: seq<Value>, best: map<Value, Value>, pos: map<Value, nat>, k: Value)
    requires n < |items| && Survivors(items, n, order, best, pos) && AllChosen(items, n, pos) && NoFailure(items, n)
    requires IdOf(items[n]) == Some(k) && k in best
    requires Less(RankOfItem(items[n]), RankOfItem(best[k])).Some?
    ensures !FailsAt(items, n) && NoFailure(items, n + 1)
  {
    var c := pos[k];
    assert c < n && IdOf(items[c]) == Some(k) && best[k] == items[c];
    assert ChosenUpTo(items, n, c);
    ComparableWithChosen(items, n, c);
  }

  /** A record comparable with the current survivor of its `original_id` is comparable with every earlier record of it. */
  lemma ComparableWithChosen(items: seq<Value>, n: nat, c: nat)
    requires c < n < |items| && ChosenUpTo(items, n, c) && NoFailure(items, n)
    requires IdOf(items[n]).Some? && IdOf(items[n]) == IdOf(items[c])
    requires Less(RankOfItem(items[n]), RankOfItem(items[c])).Some?
    ensures !FailsAt(items, n) && NoFailure(items, n + 1)
  {
    assert !FailsAt(items, c);
    forall j | 0 <= j < n && IdOf(items[j]) == IdOf(items[n]) ensures Less(RankOfItem(items[n]), RankOfItem(items[j])).Some? {
      if j != c {
        assert Less(RankOfItem(items[j]), RankOfItem(items[c])).Some?;
      }
    }
  }

  lemma SurvivorsKeep(items: seq<Value>, n: nat, order: seq<Value>, best: map<Value, Value>, pos: map<Value, nat>, k: Value)
    requires n < |items| && Survivors(items, n, order, best, pos) && AllChosen(items, n, pos)
    requires IdOf(items[n]) == Some(k) && k in best
    requires Less(RankOfItem(items[n]), RankOfItem(best[k])) == Some(false)
    ensures Survivors(items, n + 1, order, best, pos) && AllChosen(items, n + 1, pos)
  {
    ChosenOthers(items, n, pos);
    ChosenExtend(items, n, pos[k]);
  }

  /** An `original_id` already seen leaves the order of first appearance as it is. */
  lemma FirstSeenKnown(items: seq<Value>, n: nat, k: Value)
    requires n < |items| && IdOf(items[n]) == Some(k) && k in FirstSeen(items, n)
    ensures FirstSeen(items, n + 1) == FirstSeen(items, n)
  {
  }

  lemma SurvivorsReplace(items: seq<Value>, n: nat, order: seq<Value>, best: map<Value, Value>, pos: map<Value, nat>, k: Value)
    requires n < |items| && Survivors(items, n, order, best, pos)
    requires IdOf(items[n]) == Some(k) && k in best
    ensures Survivors(items, n + 1, order, best[k := items[n]], pos[k := n])
  {
    FirstSeenKnown(items, n, k);
    var best', pos' := best[k := items[n]], pos[k := n];
    forall k' | k' in pos' ensures pos'[k'] < n + 1 && IdOf(items[pos'[k']]) == Some(k') && best'[k'] == items[pos'[k']] {
      if k' != k {
        assert pos'[k'] == pos[k'] && best'[k'] == best[k'];
      }
    }
  }

  lemma ChosenReplace(items: seq<Value>, n: nat, pos: map<Value, nat>, k: Value)
    requires n < |items| && AllChosen(items, n, pos) && Placed(items, n, pos)
    requires IdOf(items[n]) == Some(k) && k in pos
    requires Less(RankOfItem(items[n]), RankOfItem(items[pos[k]])) == Some(true)
    ensures AllChosen(items, n + 1, pos[k := n])
  {
    ChosenOthers(items, n, pos);
    var c := pos[k];
    var rn, rc := RankOfItem(items[n]), RankOfItem(items[c]);
    assert ChosenUpTo(items, n, c);
    forall p | 0 <= p < n && IdOf(items[p]) == IdOf(items[n])
      ensures Less(RankOfItem(items[p]), rn) == Some(false) && Less(rn, RankOfItem(items[p])) == Some(true)
    {
      if p == c {
        LessIrreflexive(rc);
        LessBelow(rn, rc, rc);
      } else {
        LessBelow(rn, rc, RankOfItem(items[p]));
      }
    }
    assert ChosenUpTo(items, n + 1, n);
  }

  lemma DroppedReplace(items: seq<Value>, n: nat, pos: map<Value, nat>, toDelete: seq<Value>, delPos: seq<nat>, k: Value)
    requires n < |items| && Dropped(items, n, pos, toDelete, delPos)
    requires IdOf(items[n]) == Some(k) && k in pos && pos[k] < n
    requires forall k' :: k' in pos ==> pos[k'] < n && IdOf(items[pos[k']]) == Some(k')
    ensures Dropped(items, n + 1, pos[k := n], toDelete + [items[pos[k]]], delPos + [pos[k]])
  {
    var pos' := pos[k := n];
    var d' := delPos + [pos[k]];
    assert pos[k] !in delPos;
    forall p ensures p in d' <==>
      0 <= p < n + 1 && IdOf(items[p]).Some? && IdOf(items[p]).value in pos' && p != pos'[IdOf(items[p]).value]
    {
      if 0 <= p < n + 1 && IdOf(items[p]).Some? && IdOf(items[p]).value in pos {
        var kp := IdOf(items[p]).value;
        if kp == k && p < n && p != pos[k] {
          assert p in delPos;
        }
      }
    }
  }

  lemma DroppedLater(items: seq<Value>, n: nat, pos: map<Value, nat>, toDelete: seq<Value>, delPos: seq<nat>)
    requires n < |items| && Dropped(items, n, pos, toDelete, delPos)
    requires IdOf(items[n]).Some? && IdOf(items[n]).value in pos && pos[IdOf(items[n]).value] < n
    requires forall k' :: k' in pos ==> pos[k'] < n
    ensures Dropped(items, n + 1, pos, toDelete + [items[n]], delPos + [n])
  {
    assert n !in delPos;
  }

  lemma DroppedOther(items: seq<Value>, n: nat, pos: map<Value, nat>, toDelete: seq<Value>, delPos: seq<nat>, pos': map<Value, nat>)
    requires n < |items| && Dropped(items, n, pos, toDelete, delPos)
    requires forall k' :: k' in pos ==> pos[k'] < n
    requires IdOf(items[n]).None? || (IdOf(items[n]).value !in pos && pos' == pos[IdOf(items[n]).value := n])
    requires IdOf(items[n]).None? ==> pos' == pos
    requires forall j :: 0 <= j < n ==> IdOf(items[j]).None? || IdOf(items[j]) != IdOf(items[n])
    ensures Dropped(items, n + 1, pos', toDelete, delPos)
  {
  }

  /** A record without an `original_id` changes nothing but the missing count. */
  lemma StepNoId(items: seq<Value>, n: nat, order: seq<Value>, best: map<Value, Value>, pos: map<Value, nat>,
                 duplicates: nat, missing: nat, toDelete: seq<Value>, delPos: seq<nat>)
    requires n < |items| && PickedUpTo(items, n, order, best, pos, duplicates, missing, toDelete, delPos)
    requires IdOf(items[n]).None?
    ensures PickedUpTo(items, n + 1, order, best, pos, duplicates, missing + (if Missing(items[n]) then 1 else 0), toDelete, delPos)
  {
    SurvivorsNoId(items, n, order, best, pos);
    DroppedOther(items, n, pos, toDelete, delPos, pos);
  }

  /** A record with a new `original_id` survives for now. */
  lemma StepNew(items: seq<Value>, n: nat, order: seq<Value>, best: map<Value, Value>, pos: map<Value, nat>,
                duplicates: nat, missing: nat, toDelete: seq<Value>, delPos: seq<nat>, k: Value)
    requires n < |items| && PickedUpTo(items, n, order, best, pos, duplicates, missing, toDelete, delPos)
    requires IdOf(items[n]) == Some(k) && Hashable(k) && k !in best
    ensures PickedUpTo(items, n + 1, order + [k], best[k := items[n]], pos[k := n], duplicates, missing, toDelete, delPos)
  {
    Unseen(items, n, order, best, pos, k);
    SurvivorsNew(items, n, order, best, pos, k);
    ChosenNew(items, n, pos, k);
    DroppedOther(items, n, pos, toDelete, delPos, pos[k := n]);
    assert !FailsAt(items, n);
  }

  /** A later record whose `id` is not smaller is dropped. */
  lemma StepKeep(items: seq<Value>, n: nat, order: seq<Value>, best: map<Value, Value>, pos: map<Value, nat>,
                 duplicates: nat, missing: nat, toDelete: seq<Value>, delPos: seq<nat>, k: Value)
    requires n < |items| && PickedUpTo(items, n, order, best, pos, duplicates, missing, toDelete, delPos)
    requires IdOf(items[n]) == Some(k) && k in best
    requires Less(RankOfItem(items[n]), RankOfItem(best[k])) == Some(false)
    ensures PickedUpTo(items, n + 1, order, best, pos, duplicates + 1, missing, toDelete + [items[n]], delPos + [n])
  {
    LaterComparable(items, n, order, best, pos, k);
    SurvivorsKeep(items, n, order, best, pos, k);
    DroppedLater(items, n, pos, toDelete, delPos);
  }

  /** A later record with a smaller `id` replaces the survivor, which is dropped. */
  lemma StepReplace(items: seq<Value>, n: nat, order: seq<Value>, best: map<Value, Value>, pos: map<Value, nat>,
                    duplicates: nat, missing: nat, toDelete: seq<Value>, delPos: seq<nat>, k: Value)
    requires n < |items| && PickedUpTo(items, n, order, best, pos, duplicates, missing, toDelete, delPos)
    requires IdOf(items[n]) == Some(k) && k in best
    requires Less(RankOfItem(items[n]), RankOfItem(best[k])) == Some(true)
    ensures PickedUpTo(items, n + 1, order, best[k := items[n]], pos[k := n], duplicates + 1, missing,
                       toDelete + [best[k]], delPos + [pos[k]])
  {
    LaterComparable(items, n, order, best, pos, k);
    SurvivorsReplace(items, n, order, best, pos, k);
    ChosenReplace(items, n, pos, k);
    DroppedReplace(items, n, pos, toDelete, delPos, k);
  }

  /** What the shared loop leaves behind: the survivors in first-appearance order and the counts. */
  datatype Picked = Picked(order: seq<Value>, best: map<Value, Value>, duplicates: nat, missing: nat, toDelete: seq<Value>)

  /**
   * The loop `deduplicate_json_by_original_id` and `deduplicate_database_records`
   * share: `unique_records` keeps the smallest `id` per `original_id`,
   * `duplicates_count` counts the rest, and `records_to_delete` collects
   * every record that loses.  `None` where the loop raises.
   */
  method PickSmallestIds(items: seq<Value>) returns (r: Option<Picked>, ghost pos: map<Value, nat>, ghost delPos: seq<nat>)
    ensures r.None? <==> exists i :: 0 <= i < |items| && FailsAt(items, i)
    ensures r.Some? ==> var p := r.value;
      PickedUpTo(items, |items|, p.order, p.best, pos, p.duplicates, p.missing, p.toDelete, delPos)
  {
    var order: seq<Value> := [];
    var best: map<Value, Value> := map[];
    var duplicates, missing := 0, 0;
    var toDelete: seq<Value> := [];
    pos, delPos := map[], [];
    for n := 0 to |items|
      invariant PickedUpTo(items, n, order, best, pos, duplicates, missing, toDelete, delPos)
    {
      var item := items[n];
      if IdOf(item).None? {
        StepNoId(items, n, order, best, pos, duplicates, missing, toDelete, delPos);
        if Missing(item) {
          missing := missing + 1;
        }
      } else {
        var k := IdOf(item).value;
        if !Hashable(k) {
          assert FailsAt(items, n);
          return None, pos, delPos;
        }
        if k !in best {
          StepNew(items, n, order, best, pos, duplicates, missing, toDelete, delPos, k);
          order, best, pos := order + [k], best[k := item], pos[k := n];
        } else {
          var less := Less(RankOfItem(item), RankOfItem(best[k]));
          if less.None? {
            assert IdOf(items[pos[k]]) == IdOf(items[n]);
            assert FailsAt(items, n);
            return None, pos, delPos;
          }
          if less.value {
            StepReplace(items, n, order, best, pos, duplicates, missing, toDelete, delPos, k);
            toDelete, delPos := toDelete + [best[k]], delPos + [pos[k]];
            best, pos := best[k := item], pos[k := n];
          } else {
            StepKeep(items, n, order, best, pos, duplicates, missing, toDelete, delPos, k);
            toDelete, delPos := toDelete + [item], delPos + [n];
          }
          duplicates := duplicates + 1;
        }
      }
    }
    r := Some(Picked(order, best, duplicates, missing, toDelete));
  }

  /** `list(unique_records.values())`. */
  function SurvivorList(order: seq<Value>, best: map<Value, Value>): (r: seq<Value>)
    requires forall k :: k in order ==> k in best
    ensures |r| == |order|
  {
    seq(|order|, a requires 0 <= a < |order| => best[order[a]])
  }

  // ------------------------------------------------------------ the JSON script

  /** What `deduplicate_json_by_original_id` writes and reports. */
  datatype JsonDedup = JsonDedup(records: seq<Value>, duplicates: nat, missing: nat)

  /**
   * The written list holds one record per `original_id`, in order of first
   * appearance, each the survivor of its `original_id` (found at `pos`);
   * `duplicates` counts the other records with an `original_id` and
   * `missing` the dict records without one.
   */
  ghost predicate DeduplicatedOk(items: seq<Value>, out: JsonDedup, pos: map<Value, nat>) {
    var order := FirstSeen(items, |items|);
    && |out.records| == |order|
    && (forall a :: 0 <= a < |order| ==>
          (&& order[a] in pos
           && pos[order[a]] < |items|
           && out.records[a] == items[pos[order[a]]]
           && IdOf(items[pos[order[a]]]) == Some(order[a])
           && ChosenUpTo(items, |items|, pos[order[a]])))
    && out.duplicates + |order| == CountIds(items, |items|)
    && out.missing == CountMissing(items, |items|)
  }

  /** The survivor of each `original_id`, found at `pos`, in order of first appearance. */
  ghost predicate SurvivorRecordsAt(items: seq<Value>, pos: map<Value, nat>) {
    var order := FirstSeen(items, |items|);
    forall a :: 0 <= a < |order| ==>
      (&& order[a] in pos
       && pos[order[a]] < |items|
       && IdOf(items[pos[order[a]]]) == Some(order[a])
       && ChosenUpTo(items, |items|, pos[order[a]]))
  }

  /** `list(unique_records.values())` as the survivors at `pos` make it. */
  ghost function SurvivorRecords(items: seq<Value>, pos: map<Value, nat>): (r: seq<Value>)
    requires SurvivorRecordsAt(items, pos)
    ensures |r| == |FirstSeen(items, |items|)|
  {
    var order := FirstSeen(items, |items|);
    seq(|order|, a requires 0 <= a < |order| => items[pos[order[a]]])
  }

  /** The written list is the list of survivors. */
  lemma OkSurvivorRecords(items: seq<Value>, out: JsonDedup, pos: map<Value, nat>)
    requires DeduplicatedOk(items, out, pos)
    ensures SurvivorRecordsAt(items, pos) && out.records == SurvivorRecords(items, pos)
  {
  }

  /**
   * Whether printing a record's title raises: `len(title)` refuses `None`, a
   * bool and a number; a title longer than 40 is cut as `title[:40] + "..."`,
   * which a dict refuses (`[:40]`) and a list refuses (list plus string).
   */
  predicate TitleRaises(record: Value) {
    record.Dict? &&
    match Get(record.fields, "title", Str("无标题"))
    case Null => true
    case Bool(_) => true
    case Int(_) => true
    case Real(_) => true
    case Dict(f) => |f| > 40
    case List(xs) => |xs| > 40
    case Str(_) => false
  }

  /** Some record among the first five shown has a title that raises. */
  predicate PreviewRaises(records: seq<Value>) {
    exists a :: 0 <= a < |records| && a < 5 && TitleRaises(records[a])
  }

  /**
   * `deduplicate_json_by_original_id` on the parsed file: `None` for a
   * non-list document, where the loop raises, or where printing the title
   * of one of the first five survivors raises (after the file was written);
   * the deduplicated list otherwise.
   */
  method DeduplicateJsonByOriginalId(data: Value) returns (r: Option<JsonDedup>, ghost pos: map<Value, nat>)
    ensures !data.List? ==> r.None?
    ensures data.List? ==>
      (r.None? <==> (exists i :: 0 <= i < |data.items| && FailsAt(data.items, i))
                    || (SurvivorRecordsAt(data.items, pos) && PreviewRaises(SurvivorRecords(data.items, pos))))
    ensures r.Some? ==> data.List? && DeduplicatedOk(data.items, r.value, pos)
  {
    pos := map[];
    if !data.List? {
      return None, pos;
    }
    var picked;
    ghost var delPos;
    picked, pos, delPos := PickSmallestIds(data.items);
    if picked.None? {
      return None, pos;
    }
    var p := picked.value;
    var out := JsonDedup(SurvivorList(p.order, p.best), p.duplicates, p.missing);
    OkSurvivorRecords(data.items, out, pos);
    var raises := PreviewTitles(out.records);
    if raises {
      return None, pos;
    }
    r := Some(out);
  }

  /** The loop printing the first five records: whether one of their titles raises. */
  method PreviewTitles(records: seq<Value>) returns (raises: bool)
    ensures raises <==> PreviewRaises(records)
  {
    var i := 0;
    while i < |records| && i < 5
      invariant 0 <= i <= |records| && i <= 5
      invariant forall a :: 0 <= a < i ==> !TitleRaises(records[a])
    {
      if TitleRaises(records[i]) {
        return true;
      }
      i := i + 1;
    }
    return false;
  }

  /** `[r.get('original_id') for r in final_data if r.get('original_id') is not None]` has no repeats. */
  predicate NoRepeatedIds(records: seq<Value>) {
    forall a, b :: 0 <= a < b < |records| && IdOf(records[a]).Some? && IdOf(records[b]).Some? ==> IdOf(records[a]) != IdOf(records[b])
  }

  /** The check `main` runs on the written file passes on whatever the deduplication wrote. */
  lemma DeduplicatedHasNoRepeats(items: seq<Value>, out: JsonDedup, pos: map<Value, nat>)
    requires DeduplicatedOk(items, out, pos)
    ensures NoRepeatedIds(out.records)
  {
    var order := FirstSeen(items, |items|);
    FirstSeenFacts(items, |items|);
    forall a, b | 0 <= a < b < |out.records| ensures IdOf(out.records[a]) != IdOf(out.records[b]) {
      assert IdOf(out.records[a]) == Some(order[a]) && IdOf(out.records[b]) == Some(order[b]);
    }
  }

  // ------------------------------------------------------------ the database pass

  /** The dict `deduplicate_database_records` returns; `counts` holds `total_records` and `unique_records` where it reports them. */
  datatype DbDedup = DbDedup(success: bool, duplicatesRemoved: nat, counts: Option<(nat, nat)>)

  /** The `records_to_delete` whose deletion succeeded, by `deleted(id)`. */
  function CountDeleted(toDelete: seq<Value>, deleted: Value -> bool): (r: nat)
    ensures r <= |toDelete|
  {
    if |toDelete| == 0 then 0
    else
      var last := if deleted(RankIdOf(toDelete[|toDelete| - 1])) then 1 else 0;
      CountDeleted(toDelete[..|toDelete| - 1], deleted) + last
  }

  /** `record.get('id')`. */
  function RankIdOf(item: Value): Value {
    if item.Dict? then GetOrNull(item.fields, "id") else Null
  }

  /** `for record in records_to_delete: if delete_analysis_result(record.get('id'))['success']: deleted_count += 1`. */
  method DeleteRecords(toDelete: seq<Value>, deleted: Value -> bool) returns (count: nat)
    ensures count == CountDeleted(toDelete, deleted)
  {
    count := 0;
    for e := 0 to |toDelete|
      invariant count == CountDeleted(toDelete[..e], deleted)
    {
      assert toDelete[..e + 1][..e] == toDelete[..e];
      if deleted(RankIdOf(toDelete[e])) {
        count := count + 1;
      }
    }
    assert toDelete[..|toDelete|] == toDelete;
  }

  /**
   * `toDelete` lists, once each and at the positions `delPos`, every record
   * with an `original_id` except the one kept for it, `pos` maps each
   * `original_id` to its kept record, and that record is the first with
   * the smallest `id`.
   */
  ghost predicate DeletesLosers(items: seq<Value>, pos: map<Value, nat>, toDelete: seq<Value>, delPos: seq<nat>) {
    && Placed(items, |items|, pos)
    && AllChosen(items, |items|, pos)
    && (forall i :: 0 <= i < |items| && IdOf(items[i]).Some? ==> IdOf(items[i]).value in pos)
    && Dropped(items, |items|, pos, toDelete, delPos)
  }

  /**
   * Deleting the losers leaves exactly one record per `original_id`, and the
   * one left is the first with the smallest `id`.
   */
  lemma LosersLeaveOnePerId(items: seq<Value>, pos: map<Value, nat>, toDelete: seq<Value>, delPos: seq<nat>)
    requires DeletesLosers(items, pos, toDelete, delPos)
    ensures forall i :: 0 <= i < |items| && IdOf(items[i]).Some? ==>
      exists c :: 0 <= c < |items| && c !in delPos && IdOf(items[c]) == IdOf(items[i])
    ensures forall a, b :: 0 <= a < b < |items| && a !in delPos && b !in delPos && IdOf(items[a]).Some? ==> IdOf(items[a]) != IdOf(items[b])
    ensures forall c :: 0 <= c < |items| && c !in delPos && IdOf(items[c]).Some? ==> ChosenUpTo(items, |items|, c)
  {
    forall i | 0 <= i < |items| && IdOf(items[i]).Some?
      ensures exists c :: 0 <= c < |items| && c !in delPos && IdOf(items[c]) == IdOf(items[i])
    {
      var c := pos[IdOf(items[i]).value];
      assert c !in delPos;
    }
    forall c | 0 <= c < |items| && c !in delPos && IdOf(items[c]).Some? ensures ChosenUpTo(items, |items|, c) {
      assert c == pos[IdOf(items[c]).value];
    }
  }

  /** The pass over the records, seen through its totals and what it deletes. */
  method PickTotals(items: seq<Value>) returns (r: Option<Picked>, ghost pos: map<Value, nat>, ghost delPos: seq<nat>)
    ensures r.None? <==> exists i :: 0 <= i < |items| && FailsAt(items, i)
    ensures r.Some? ==> |r.value.order| + |r.value.toDelete| == CountIds(items, |items|)
    ensures r.Some? ==> |r.value.toDelete| == r.value.duplicates
    ensures r.Some? ==> DeletesLosers(items, pos, r.value.toDelete, delPos)
  {
    r, pos, delPos := PickSmallestIds(items);
    if r.Some? {
      FirstSeenFacts(items, |items|);
    }
  }

  /** `[dict(row) for row in rows]`: each fetched row as a JSON object. */
  function DictRows(fetched: seq<Record>): (r: seq<Value>)
    ensures |r| == |fetched|
    ensures forall i :: 0 <= i < |fetched| ==> r[i] == Dict(fetched[i])
  {
    seq(|fetched|, i requires 0 <= i < |fetched| => Dict(fetched[i]))
  }

  /**
   * `deduplicate_database_records`, given whether the database module
   * loaded, the result of fetching the rows (`None` when the fetch failed)
   * and which deletions succeed.
   */
  method DeduplicateDatabaseRecords(available: bool, fetched: Option<seq<Record>>, deleted: Value -> bool)
    returns (r: DbDedup, ghost toDelete: seq<Value>, ghost pos: map<Value, nat>, ghost delPos: seq<nat>)
    ensures !available || fetched.None? ==> r == DbDedup(false, 0, None)
    ensures available && fetched.Some? && |fetched.value| == 0 ==> r == DbDedup(true, 0, None)
    ensures r.success <==> available && fetched.Some? && !exists i :: 0 <= i < |fetched.value| && FailsAt(DictRows(fetched.value), i)
    ensures r.success ==> DeletesLosers(DictRows(fetched.value), pos, toDelete, delPos)
    ensures r.success && toDelete == [] ==> r == DbDedup(true, 0, None)
    ensures r.success && toDelete != [] ==>
      var rows := DictRows(fetched.value);
      && r.counts == Some((|rows|, CountIds(rows, |rows|) - |toDelete|))
      && r.duplicatesRemoved == CountDeleted(toDelete, deleted) <= |toDelete|
    ensures r.success ==> r.duplicatesRemoved <= |toDelete|
  {
    toDelete, pos, delPos := [], map[], [];
    if !available || fetched.None? {
      return DbDedup(false, 0, None), toDelete, pos, delPos;
    }
    var rows := DictRows(fetched.value);
    if |rows| == 0 {
      return DbDedup(true, 0, None), toDelete, pos, delPos;
    }
    var picked;
    picked, pos, delPos := PickTotals(rows);
    if picked.None? {
      return DbDedup(false, 0, None), toDelete, pos, delPos;
    }
    var p := picked.value;
    toDelete := p.toDelete;
    if p.duplicates == 0 {
      return DbDedup(true, 0, None), toDelete, pos, delPos;
    }
    var count := DeleteRecords(p.toDelete, deleted);
    r := DbDedup(true, count, Some((|rows|, |p.order|)));
  }

  // ------------------------------------------------------------ the tag filter

  /** Some requested tag column of the row reads '是'. */
  predicate Tagged(row: Record, tags: seq<string>) {
    exists t :: 0 <= t < |tags| && "tag_" + tags[t] in row && row["tag_" + tags[t]] == Str("是")
  }

  /** The rows among the first `n` that carry a requested tag, in order. */
  function TagFiltered(rows: seq<Record>, tags: seq<string>, n: nat): (r: seq<Record>)
    requires n <= |rows|
    ensures |r| <= n
  {
    if n == 0 then [] else TagFiltered(rows, tags, n - 1) + (if Tagged(rows[n - 1], tags) then [rows[n - 1]] else [])
  }

  /** The filter keeps exactly the tagged rows. */
  lemma {:induction false} TagFilteredMembers(rows: seq<Record>, tags: seq<string>, n: nat)
    requires n <= |rows|
    ensures forall row :: row in TagFiltered(rows, tags, n) ==> Tagged(row, tags)
    ensures forall i :: 0 <= i < n && Tagged(rows[i], tags) ==> rows[i] in TagFiltered(rows, tags, n)
  {
    if n > 0 {
      TagFilteredMembers(rows, tags, n - 1);
    }
  }

  /** `for tag in filter_tags: if tag_field in record and record[tag_field] == '是': ...; break`. */
  method HasRequestedTag(row: Record, tags: seq<string>) returns (found: bool)
    ensures found == Tagged(row, tags)
  {
    found := false;
    var t := 0;
    while t < |tags|
      invariant 0 <= t <= |tags|
      invariant forall t' :: 0 <= t' < t ==> !("tag_" + tags[t'] in row && row["tag_" + tags[t']] == Str("是"))
    {
      var field := "tag_" + tags[t];
      if field in row && row[field] == Str("是") {
        return true;
      }
      t := t + 1;
    }
  }

  /** The tag filter of `enhanced_export_data`: with no tags requested every row passes. */
  method FilterByTags(rows: seq<Record>, tags: seq<string>) returns (out: seq<Record>)
    ensures |tags| == 0 ==> out == rows
    ensures |tags| > 0 ==> out == TagFiltered(rows, tags, |rows|)
  {
    if |tags| == 0 {
      return rows;
    }
    out := [];
    for i := 0 to |rows|
      invariant out == TagFiltered(rows, tags, i)
    {
      var found := HasRequestedTag(rows[i], tags);
      if found {
        out := out + [rows[i]];
      }
    }
  }
}
