/**
 * `fix_duplicate_correct.py`: recompute every row's `duplication_rate` from
 * the SimHash fingerprints stored (as 16-digit hex) in `duplicate_id`, by a
 * linear Hamming scan over all rows, and list each unordered pair of a row
 * and its best match once.
 */
module FixDuplicateCorrect {
  import opened Wrappers
  import opened Bits
  import opened Hex
  import SimHash

  /** `find_similar_texts`'s defaults, which the main pass relies on. */
  const DefaultThreshold: real := 0.75
  const DefaultMaxHamming: int := 16

  /**
   * `calculate_hamming_distance`: the set bits of the XOR of the two parsed
   * values, 64 when a string does not parse (`ValueError`). `None` stands for
   * the `TypeError` that `int(None, 16)` raises and nothing catches; the
   * first argument is parsed before the second is looked at.
   */
  function HammingDistance(h1: Option<string>, h2: Option<string>): (r: Option<nat>)
    ensures r.None? <==> h1.None? || (ParseHex(h1.value).Some? && h2.None?)
    ensures h1.Some? && ParseHex(h1.value).None? ==> r == Some(64)
  {
    match h1
    case None => None
    case Some(s1) =>
      match ParseHex(s1)
      case None => Some(64)
      case Some(v1) =>
        match h2
        case None => None
        case Some(s2) =>
          match ParseHex(s2)
          case None => Some(64)
          case Some(v2) => Some(PopCount(Xor(v1, v2)))
  }

  /** On two stored fingerprints the script agrees with `SimHash.distance`: at most 64, and zero exactly for equal fingerprints. */
  lemma HammingOfHex16(a: nat, b: nat)
    requires a < Pow2(64) && b < Pow2(64)
    ensures HammingDistance(Some(Hex16(a)), Some(Hex16(b))) == Some(SimHash.Distance(a, b))
    ensures SimHash.Distance(a, b) <= 64
    ensures SimHash.Distance(a, b) == 0 <==> a == b
  {
    ParseHex16(a);
    ParseHex16(b);
    SimHash.DistanceLaws(a, b, b);
  }

  /** Two present strings are the same distance apart either way round. */
  lemma HammingSymmetric(s1: string, s2: string)
    ensures HammingDistance(Some(s1), Some(s2)) == HammingDistance(Some(s2), Some(s1))
  {
    if ParseHex(s1).Some? && ParseHex(s2).Some? {
      XorSymmetric(ParseHex(s1).value, ParseHex(s2).value);
    }
  }

  /** Between strings that are unparseable or parse to 64-bit values the distance never exceeds 64. */
  lemma HammingAtMost64(s1: string, s2: string)
    requires ParseHex(s1).Some? ==> ParseHex(s1).value < Pow2(64)
    requires ParseHex(s2).Some? ==> ParseHex(s2).value < Pow2(64)
    ensures HammingDistance(Some(s1), Some(s2)).value <= 64
  {
    if ParseHex(s1).Some? && ParseHex(s2).Some? {
      var a, b := ParseHex(s1).value, ParseHex(s2).value;
      PopCountXor(a, b, 64);
      DiffBitsBound(a, b, 64);
    }
  }

  /** `1 - (hamming_dist / 64)`. */
  function Similarity(d: nat): real {
    1.0 - (d as real) / 64.0
  }

  /** A smaller distance is a strictly larger similarity, so sorting by similarity descending is sorting by distance ascending. */
  lemma SimilarityOrder(d1: nat, d2: nat)
    ensures d1 < d2 <==> Similarity(d1) > Similarity(d2)
    ensures d1 == d2 <==> Similarity(d1) == Similarity(d2)
  {
  }

  /** The gate `hamming_dist <= max_hamming_distance and similarity >= similarity_threshold`. */
  predicate Gate(d: nat, threshold: real, maxHamming: int) {
    d <= maxHamming && Similarity(d) >= threshold
  }

  /** With the defaults 16 and 0.75 both halves of the gate say `d <= 16`. */
  lemma DefaultGate(d: nat)
    ensures Gate(d, DefaultThreshold, DefaultMaxHamming) <==> d <= 16
  {
    if d <= 16 {
      assert (d as real) / 64.0 <= 0.25;
    }
  }

  /**
   * A row as the script loads it: its id, its title (`None` for NULL) and the
   * fingerprint kept in `duplicate_id`; the publish time is only copied into reports.
   */
  datatype TextItem = TextItem(id: int, title: Option<string>, simhash: Option<string>)

  /** An entry of `similar_texts`. */
  datatype Similar = Similar(id: int, title: Option<string>, distance: nat, similarity: real)

  /** `text_item['simhash'] != target_simhash`: only rows with a different fingerprint string are compared. */
  predicate Compared(target: Option<string>, item: TextItem) {
    item.simhash != target
  }

  /** The entries `find_similar_texts` has appended after the first `n` rows, in row order; `None` once a comparison raised `TypeError`. */
  function Candidates(target: Option<string>, items: seq<TextItem>, threshold: real, maxHamming: int, n: nat): (r: Option<seq<Similar>>)
    requires n <= |items|
    ensures r.Some? ==> |r.value| <= n
  {
    if n == 0 then Some([])
    else
      var init := Candidates(target, items, threshold, maxHamming, n - 1);
      var item := items[n - 1];
      if init.None? then None
      else if !Compared(target, item) then init
      else
        match HammingDistance(target, item.simhash)
        case None => None
        case Some(d) =>
          if Gate(d, threshold, maxHamming) then Some(init.value + [Similar(item.id, item.title, d, Similarity(d))]) else init
  }

  /** Row `j` makes `calculate_hamming_distance` raise. */
  predicate Raises(target: Option<string>, item: TextItem) {
    Compared(target, item) && HammingDistance(target, item.simhash).None?
  }

  /** The scan raises exactly when some compared row makes `calculate_hamming_distance` raise. */
  lemma {:induction false} CandidatesRaise(target: Option<string>, items: seq<TextItem>, threshold: real, maxHamming: int, n: nat)
    requires n <= |items|
    ensures Candidates(target, items, threshold, maxHamming, n).None? <==> exists j :: 0 <= j < n && Raises(target, items[j])
  {
    if n > 0 {
      CandidatesRaise(target, items, threshold, maxHamming, n - 1);
      var init := Candidates(target, items, threshold, maxHamming, n - 1);
      assert Candidates(target, items, threshold, maxHamming, n).None? <==> init.None? || Raises(target, items[n - 1]);
      if init.None? {
        var j :| 0 <= j < n - 1 && Raises(target, items[j]);
        assert 0 <= j < n;
      }
      if j :| 0 <= j < n && Raises(target, items[j]) {
        if j < n - 1 {
          assert init.None?;
        }
      }
    }
  }

  /** `c` is the entry `find_similar_texts` builds for `item`. */
  predicate EntryFor(target: Option<string>, item: TextItem, threshold: real, maxHamming: int, c: Similar) {
    && Compared(target, item) && c.id == item.id && c.title == item.title
    && HammingDistance(target, item.simhash) == Some(c.distance)
    && Gate(c.distance, threshold, maxHamming) && c.similarity == Similarity(c.distance)
  }

  /** The last row adds `c` exactly when `c` is its entry. */
  lemma CandidatesLast(target: Option<string>, items: seq<TextItem>, threshold: real, maxHamming: int, n: nat, c: Similar)
    requires 0 < n <= |items| && Candidates(target, items, threshold, maxHamming, n).Some?
    ensures Candidates(target, items, threshold, maxHamming, n - 1).Some?
    ensures c in Candidates(target, items, threshold, maxHamming, n).value <==>
      c in Candidates(target, items, threshold, maxHamming, n - 1).value || EntryFor(target, items[n - 1], threshold, maxHamming, c)
  {
    var item := items[n - 1];
    var r := Candidates(target, items, threshold, maxHamming, n).value;
    var init := Candidates(target, items, threshold, maxHamming, n - 1).value;
    if Compared(target, item) {
      var d := HammingDistance(target, item.simhash).value;
      if Gate(d, threshold, maxHamming) {
        assert r == init + [Similar(item.id, item.title, d, Similarity(d))];
      } else {
        assert r == init;
      }
    } else {
      assert r == init;
    }
  }

  /** The entries are exactly the compared rows that pass the gate, each with its distance and similarity. */
  lemma {:induction false} CandidatesMembers(target: Option<string>, items: seq<TextItem>, threshold: real, maxHamming: int, n: nat, c: Similar)
    requires n <= |items| && Candidates(target, items, threshold, maxHamming, n).Some?
    ensures c in Candidates(target, items, threshold, maxHamming, n).value <==>
      exists j :: 0 <= j < n && EntryFor(target, items[j], threshold, maxHamming, c)
  {
    if n > 0 {
      CandidatesLast(target, items, threshold, maxHamming, n, c);
      CandidatesMembers(target, items, threshold, maxHamming, n - 1, c);
      var init := Candidates(target, items, threshold, maxHamming, n - 1).value;
      if c in Candidates(target, items, threshold, maxHamming, n).value {
        if c in init {
          var j :| 0 <= j < n - 1 && EntryFor(target, items[j], threshold, maxHamming, c);
          assert 0 <= j < n;
        } else {
          assert EntryFor(target, items[n - 1], threshold, maxHamming, c);
        }
      } else {
        forall j | 0 <= j < n ensures !EntryFor(target, items[j], threshold, maxHamming, c) {
          if j < n - 1 {
            assert c !in init;
          }
        }
      }
    }
  }

  // ------------------------------------------------------------ similar_texts.sort(key=similarity, reverse=True)

  predicate SortedByDistance(s: seq<Similar>) {
    forall a, b :: 0 <= a < b < |s| ==> s[a].distance <= s[b].distance
  }

  /** Insert a later entry after every entry that is not farther away: the step of a stable sort. */
  function InsertByDistance(x: Similar, s: seq<Similar>): (r: seq<Similar>)
    ensures multiset(r) == multiset(s) + multiset{x}
    ensures |r| == |s| + 1
  {
    if |s| == 0 then [x]
    else if s[|s| - 1].distance <= x.distance then s + [x]
    else
      assert s == s[..|s| - 1] + [s[|s| - 1]];
      InsertByDistance(x, s[..|s| - 1]) + [s[|s| - 1]]
  }

  /** Python's stable sort on descending similarity, i.e. ascending distance. */
  function SortByDistance(s: seq<Similar>): (r: seq<Similar>)
    ensures multiset(r) == multiset(s)
    ensures |r| == |s|
  {
    if |s| == 0 then []
    else
      assert s == s[..|s| - 1] + [s[|s| - 1]];
      InsertByDistance(s[|s| - 1], SortByDistance(s[..|s| - 1]))
  }

  /** Inserting keeps every entry within a bound that `x` and the entries already keep. */
  lemma InsertedWithin(x: Similar, s: seq<Similar>, bound: int)
    requires x.distance <= bound && forall k :: 0 <= k < |s| ==> s[k].distance <= bound
    ensures forall a :: 0 <= a < |InsertByDistance(x, s)| ==> InsertByDistance(x, s)[a].distance <= bound
  {
    var r := InsertByDistance(x, s);
    forall a | 0 <= a < |r| ensures r[a].distance <= bound {
      assert r[a] in multiset(r);
      assert r[a] in multiset(s) + multiset{x};
      if r[a] != x {
        var k :| 0 <= k < |s| && s[k] == r[a];
      }
    }
  }

  /** The first entry is the nearest; behind the insertion point nothing is nearer than `x`. */
  lemma {:induction false} InsertSorted(x: Similar, s: seq<Similar>)
    requires SortedByDistance(s)
    ensures SortedByDistance(InsertByDistance(x, s))
    ensures |s| > 0 ==> InsertByDistance(x, s)[0] == if x.distance < s[0].distance then x else s[0]
    decreases |s|
  {
    var r := InsertByDistance(x, s);
    if |s| > 0 && s[|s| - 1].distance > x.distance {
      var front := s[..|s| - 1];
      var last := s[|s| - 1];
      InsertSorted(x, front);
      var rf := InsertByDistance(x, front);
      assert r == rf + [last];
      forall k | 0 <= k < |front| ensures front[k].distance <= last.distance {
        assert s[k] == front[k];
      }
      InsertedWithin(x, front, last.distance);
      forall a, b | 0 <= a < b < |r| ensures r[a].distance <= r[b].distance {
        assert r[a] == rf[a];
        if b < |rf| {
          assert r[b] == rf[b];
        }
      }
      if |front| == 0 {
        assert r[0] == x;
      } else {
        assert front[0] == s[0];
        assert r[0] == rf[0];
      }
    }
  }

  /** The position of the nearest entry, the earliest among equally near ones. */
  function FirstNearest(s: seq<Similar>): (m: nat)
    requires |s| > 0
    ensures m < |s|
    ensures forall k :: 0 <= k < |s| ==> s[m].distance <= s[k].distance
    ensures forall k :: 0 <= k < m ==> s[k].distance > s[m].distance
  {
    if |s| == 1 then 0
    else
      var m := FirstNearest(s[..|s| - 1]);
      assert s[m] == s[..|s| - 1][m];
      if s[|s| - 1].distance < s[m].distance then |s| - 1 else m
  }

  /** The sorted list is ordered by distance and starts with the earliest of the nearest entries: `similar_texts[0]` is that entry. */
  lemma {:induction false} SortByDistanceFacts(s: seq<Similar>)
    ensures SortedByDistance(SortByDistance(s))
    ensures |s| > 0 ==> SortByDistance(s)[0] == s[FirstNearest(s)]
    decreases |s|
  {
    if |s| > 0 {
      var front := s[..|s| - 1];
      SortByDistanceFacts(front);
      InsertSorted(s[|s| - 1], SortByDistance(front));
      if |front| > 0 {
        var m := FirstNearest(front);
        assert front[m] == s[m];
      }
    }
  }

  /**
   * `find_similar_texts`: compare `target` against every row, keep the rows
   * that pass the gate, and sort them nearest first.
   */
  method FindSimilarTexts(target: Option<string>, items: seq<TextItem>, threshold: real, maxHamming: int)
    returns (r: Option<seq<Similar>>)
    ensures r.None? <==> Candidates(target, items, threshold, maxHamming, |items|).None?
    ensures r.Some? ==> r.value == SortByDistance(Candidates(target, items, threshold, maxHamming, |items|).value)
  {
    var similar: seq<Similar> := [];
    for i := 0 to |items|
      invariant Candidates(target, items, threshold, maxHamming, i) == Some(similar)
    {
      var item := items[i];
      if item.simhash != target {
        var d := HammingDistance(target, item.simhash);
        if d.None? {
          CandidatesRaise(target, items, threshold, maxHamming, i + 1);
          CandidatesRaise(target, items, threshold, maxHamming, |items|);
          return None;
        }
        if Gate(d.value, threshold, maxHamming) {
          similar := similar + [Similar(item.id, item.title, d.value, Similarity(d.value))];
        }
      }
    }
    r := Some(SortByDistance(similar));
  }

  // ------------------------------------------------------------ the main pass

  /** An entry of `duplicate_pairs`. */
  datatype DupPair = DupPair(id1: int, id2: int, similarity: real, distance: nat)

  /** `tuple(sorted([a, b]))`. */
  function SortedKey(a: int, b: int): (r: (int, int))
    ensures r.0 <= r.1 && {r.0, r.1} == {a, b}
  {
    if a <= b then (a, b) else (b, a)
  }

  function KeyOf(p: DupPair): (int, int) {
    SortedKey(p.id1, p.id2)
  }

  /** The scan for row `i` with the defaults of `find_similar_texts`. */
  function Matches(items: seq<TextItem>, i: nat): Option<seq<Similar>>
    requires i < |items|
  {
    Candidates(items[i].simhash, items, DefaultThreshold, DefaultMaxHamming, |items|)
  }

  /** Row `i` has a similar text; its best match is then the nearest one. */
  predicate HasMatch(items: seq<TextItem>, i: nat)
    requires i < |items|
  {
    Matches(items, i).Some? && |Matches(items, i).value| > 0
  }

  function Best(items: seq<TextItem>, i: nat): (b: Similar)
    requires i < |items| && HasMatch(items, i)
  {
    SortByDistance(Matches(items, i).value)[0]
  }

  /** The new `duplication_rate` of row `i`: the best match's similarity, else 0.0. */
  function RateOf(items: seq<TextItem>, i: nat): real
    requires i < |items| && Matches(items, i).Some?
  {
    if HasMatch(items, i) then Best(items, i).similarity else 0.0
  }

  /** The pair row `i` would record. */
  function PairOf(items: seq<TextItem>, i: nat): DupPair
    requires i < |items| && HasMatch(items, i)
  {
    var b := Best(items, i);
    DupPair(items[i].id, b.id, b.similarity, b.distance)
  }

  /**
   * Row `i` has a match but its own title or its best match's title is NULL:
   * `['title'][:50]` then raises `TypeError`.
   */
  predicate TitleRaises(items: seq<TextItem>, i: nat)
    requires i < |items|
  {
    HasMatch(items, i) && (items[i].title.None? || Best(items, i).title.None?)
  }

  /** Handling row `i` raises: its scan raises, or a NULL title is sliced. */
  predicate RowFails(items: seq<TextItem>, i: nat)
    requires i < |items|
  {
    Matches(items, i).None? || TitleRaises(items, i)
  }

  /** One more row whose titles do not raise extends the rows that do not. */
  lemma TitlesStep(items: seq<TextItem>, i: nat)
    requires i < |items| && !TitleRaises(items, i)
    requires forall j: nat :: j < i ==> !TitleRaises(items, j)
    ensures forall j: nat :: j < i + 1 ==> !TitleRaises(items, j)
  {
  }

  /** After rows `0..n`: no scan raised, one rate per row, and each row's unordered pair is listed exactly once, by the first row that found it. */
  ghost predicate FixedUpTo(items: seq<TextItem>, n: nat, rates: seq<real>, pairs: seq<DupPair>)
    requires n <= |items|
  {
    && RatedUpTo(items, n, rates)
    && KeysUnique(pairs)
    && PairsFromRows(items, n, pairs)
    && RowsListed(items, n, pairs)
  }

  /** What the pass hands back: the rate written per row, the recorded pairs and `updated_count`. */
  datatype FixOutcome = FixOutcome(rates: seq<real>, pairs: seq<DupPair>, updated: nat)

  /** Some listed pair has this unordered key. */
  predicate Listed(pairs: seq<DupPair>, key: (int, int)) {
    exists s :: 0 <= s < |pairs| && KeyOf(pairs[s]) == key
  }

  /** The `pair_key not in [...]` test. */
  method KnownKey(pairs: seq<DupPair>, key: (int, int)) returns (found: bool)
    ensures found <==> Listed(pairs, key)
  {
    found := false;
    for s := 0 to |pairs|
      invariant found <==> exists t :: 0 <= t < s && KeyOf(pairs[t]) == key
    {
      if KeyOf(pairs[s]) == key {
        found := true;
      }
    }
  }

  /** No scan of the first `n` rows raised, and each has its rate. */
  ghost predicate RatedUpTo(items: seq<TextItem>, n: nat, rates: seq<real>)
    requires n <= |items|
  {
    && (forall i: nat :: i < n ==> Matches(items, i).Some?)
    && |rates| == n
    && (forall i: nat :: i < n ==> rates[i] == RateOf(items, i))
  }

  lemma RatedStep(items: seq<TextItem>, n: nat, rates: seq<real>)
    requires n < |items| && RatedUpTo(items, n, rates) && Matches(items, n).Some?
    ensures RatedUpTo(items, n + 1, rates + [RateOf(items, n)])
  {
    var rates' := rates + [RateOf(items, n)];
    forall i: nat | i < n + 1 ensures rates'[i] == RateOf(items, i) {
      if i < n {
        assert rates'[i] == rates[i];
      }
    }
  }

  /** Every listed pair is some earlier row's pair. */
  ghost predicate PairsFromRows(items: seq<TextItem>, n: nat, pairs: seq<DupPair>)
    requires n <= |items|
  {
    forall s :: 0 <= s < |pairs| ==> exists i: nat :: i < n && HasMatch(items, i) && pairs[s] == PairOf(items, i)
  }

  /** Every earlier row with a match has its unordered pair listed. */
  ghost predicate RowsListed(items: seq<TextItem>, n: nat, pairs: seq<DupPair>)
    requires n <= |items|
  {
    forall i: nat :: i < n && HasMatch(items, i) ==> Listed(pairs, KeyOf(PairOf(items, i)))
  }

  predicate KeysUnique(pairs: seq<DupPair>) {
    forall s, t :: 0 <= s < t < |pairs| ==> KeyOf(pairs[s]) != KeyOf(pairs[t])
  }

  /** The pairs listed after row `n` is handled. */
  function NextPairs(items: seq<TextItem>, n: nat, pairs: seq<DupPair>, known: bool): seq<DupPair>
    requires n < |items| && Matches(items, n).Some?
  {
    if HasMatch(items, n) && !known then pairs + [PairOf(items, n)] else pairs
  }

  lemma PairsFromRowsStep(items: seq<TextItem>, n: nat, pairs: seq<DupPair>, known: bool)
    requires n < |items| && Matches(items, n).Some? && PairsFromRows(items, n, pairs)
    ensures PairsFromRows(items, n + 1, NextPairs(items, n, pairs, known))
  {
    var pairs' := NextPairs(items, n, pairs, known);
    forall s | 0 <= s < |pairs'| ensures exists i: nat :: i < n + 1 && HasMatch(items, i) && pairs'[s] == PairOf(items, i) {
      if s < |pairs| {
        assert pairs'[s] == pairs[s];
        var i :| 0 <= i < n && HasMatch(items, i) && pairs[s] == PairOf(items, i);
      } else {
        assert pairs'[s] == PairOf(items, n);
      }
    }
  }

  /** Appending pairs keeps every listed key listed; the appended ones are listed too. */
  lemma ListedExtend(pairs: seq<DupPair>, extra: seq<DupPair>, key: (int, int))
    ensures Listed(pairs, key) ==> Listed(pairs + extra, key)
    ensures |extra| > 0 && KeyOf(extra[0]) == key ==> Listed(pairs + extra, key)
  {
    if Listed(pairs, key) {
      var s :| 0 <= s < |pairs| && KeyOf(pairs[s]) == key;
      assert (pairs + extra)[s] == pairs[s];
    }
    if |extra| > 0 && KeyOf(extra[0]) == key {
      assert (pairs + extra)[|pairs|] == extra[0];
    }
  }

  lemma RowsListedStep(items: seq<TextItem>, n: nat, pairs: seq<DupPair>, extra: seq<DupPair>)
    requires n < |items| && RowsListed(items, n, pairs)
    requires HasMatch(items, n) ==> Listed(pairs + extra, KeyOf(PairOf(items, n)))
    ensures RowsListed(items, n + 1, pairs + extra)
  {
    forall i: nat | i < n && HasMatch(items, i) ensures Listed(pairs + extra, KeyOf(PairOf(items, i))) {
      ListedExtend(pairs, extra, KeyOf(PairOf(items, i)));
    }
  }

  lemma KeysUniqueStep(items: seq<TextItem>, n: nat, pairs: seq<DupPair>, known: bool)
    requires n < |items| && Matches(items, n).Some? && KeysUnique(pairs)
    requires HasMatch(items, n) ==> (known <==> Listed(pairs, KeyOf(PairOf(items, n))))
    ensures KeysUnique(NextPairs(items, n, pairs, known))
  {
    var pairs' := NextPairs(items, n, pairs, known);
    forall s, t | 0 <= s < t < |pairs'| ensures KeyOf(pairs'[s]) != KeyOf(pairs'[t]) {
      assert pairs'[s] == pairs[s];
      if t < |pairs| {
        assert pairs'[t] == pairs[t];
      }
    }
  }

  lemma FixedStep(items: seq<TextItem>, n: nat, rates: seq<real>, pairs: seq<DupPair>, known: bool)
    requires n < |items| && FixedUpTo(items, n, rates, pairs) && Matches(items, n).Some?
    requires HasMatch(items, n) ==> (known <==> Listed(pairs, KeyOf(PairOf(items, n))))
    ensures FixedUpTo(items, n + 1, rates + [RateOf(items, n)], NextPairs(items, n, pairs, known))
  {
    RatedStep(items, n, rates);
    PairsFromRowsStep(items, n, pairs, known);
    var extra := if HasMatch(items, n) && !known then [PairOf(items, n)] else [];
    assert NextPairs(items, n, pairs, known) == pairs + extra;
    if HasMatch(items, n) {
      ListedExtend(pairs, extra, KeyOf(PairOf(items, n)));
    }
    RowsListedStep(items, n, pairs, extra);
    KeysUniqueStep(items, n, pairs, known);
  }

  /**
   * The loop of `fix_duplicate_calculation_correct`: for each row, find its
   * similar texts; rate it by its best match (0.0 without one) and record the
   * unordered pair of the row and its best match unless already recorded.
   * `None` when some row raises `TypeError` (in the scan, or on a NULL
   * title of the row or of its best match), which ends the script before
   * its commit.
   */
  method FixDuplicateCalculation(items: seq<TextItem>) returns (r: Option<FixOutcome>)
    ensures r.None? <==> exists i: nat :: i < |items| && RowFails(items, i)
    ensures r.Some? ==> r.value.updated == |items| && FixedUpTo(items, |items|, r.value.rates, r.value.pairs)
  {
    var rates: seq<real> := [];
    var pairs: seq<DupPair> := [];
    for i := 0 to |items|
      invariant FixedUpTo(items, i, rates, pairs)
      invariant forall j: nat :: j < i ==> !TitleRaises(items, j)
    {
      var similar := FindSimilarTexts(items[i].simhash, items, DefaultThreshold, DefaultMaxHamming);
      if similar.None? {
        assert RowFails(items, i);
        return None;
      }
      var rate := 0.0;
      var known := false;
      if |similar.value| > 0 {
        var best := similar.value[0];
        assert best == Best(items, i);
        if items[i].title.None? || best.title.None? {
          assert TitleRaises(items, i) && RowFails(items, i);
          return None;
        }
        rate := best.similarity;
        var key := SortedKey(items[i].id, best.id);
        known := KnownKey(pairs, key);
        FixedStep(items, i, rates, pairs, known);
        if !known {
          pairs := pairs + [DupPair(items[i].id, best.id, rate, best.distance)];
        }
      } else {
        FixedStep(items, i, rates, pairs, known);
      }
      TitlesStep(items, i);
      rates := rates + [rate];
    }
    r := Some(FixOutcome(rates, pairs, |items|));
  }

  /** A row's rate is 0.0 exactly when it has no similar text, and otherwise the similarity of a nearest gated row with a different fingerprint. */
  lemma RateIsNearest(items: seq<TextItem>, i: nat)
    requires i < |items| && Matches(items, i).Some?
    ensures !HasMatch(items, i) ==> RateOf(items, i) == 0.0
    ensures HasMatch(items, i) ==>
      var c := Matches(items, i).value;
      && RateOf(items, i) == Similarity(Best(items, i).distance)
      && Best(items, i) in c
      && (forall k :: 0 <= k < |c| ==> Best(items, i).distance <= c[k].distance)
      && Gate(Best(items, i).distance, DefaultThreshold, DefaultMaxHamming)
  {
    if HasMatch(items, i) {
      var c := Matches(items, i).value;
      SortByDistanceFacts(c);
      CandidatesMembers(items[i].simhash, items, DefaultThreshold, DefaultMaxHamming, |items|, Best(items, i));
      assert Best(items, i) in multiset(c);
    }
  }
}
