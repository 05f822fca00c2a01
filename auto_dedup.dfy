/**
 * The export-time deduplicator (`AutoDeduplicator`): records that share an
 * `original_id` are duplicates of the first of them; records whose cleaned
 * contents hash alike and are similar enough by the sequence-matcher ratio
 * are duplicates of the earlier one; the duplicates are dropped before
 * export.  The MD5 digest and `SequenceMatcher.ratio` are parameters.
 */
module AutoDedup {
  import opened Wrappers
  import opened Values
  import opened PyText
  import opened Grouping

  /** `self.similarity_threshold`. */
  const DefaultThreshold: real := 0.85

  /** `SequenceMatcher(None, a, b).ratio()` lies in [0, 1]. */
  type Ratio = r: real | 0.0 <= r <= 1.0

  /** `hashlib.md5(...).hexdigest()` is 32 characters long. */
  type Digest = s: string | |s| == 32 witness "00000000000000000000000000000000"

  // ------------------------------------------------------------ pure helpers

  /** `_clean_text`: tags removed, the ends stripped, each whitespace run made one space. */
  function CleanText(text: string): (r: string)
    ensures |r| <= |text|
  {
    if text == "" then "" else CollapseSpaces(Strip(StripTags(text)))
  }

  /** Collapsing whitespace runs keeps a string that is trimmed at both ends trimmed. */
  lemma CollapseTrimmed(s: string)
    requires s == [] || (!IsSpace(s[0]) && !IsSpace(s[|s| - 1]))
    ensures var r := CollapseSpaces(s);
      r == [] || (!IsSpace(r[0]) && !IsSpace(r[|r| - 1]))
  {
  }

  /** Cleaned text neither starts nor ends with whitespace. */
  lemma CleanTextTrimmed(text: string)
    ensures var r := CleanText(text);
      r == [] || (!IsSpace(r[0]) && !IsSpace(r[|r| - 1]))
  {
    if text != "" {
      CollapseTrimmed(Strip(StripTags(text)));
    }
  }

  /** In cleaned text the only whitespace is single plain spaces. */
  lemma CleanTextSpaces(text: string)
    ensures var r := CleanText(text);
      && (forall k :: 0 <= k < |r| && IsSpace(r[k]) ==> r[k] == ' ')
      && (forall k :: 0 <= k < |r| - 1 ==> !(IsSpace(r[k]) && IsSpace(r[k + 1])))
  {
    if text != "" {
      var s := Strip(StripTags(text));
      CollapseSpacesPlain(s);
      CollapseSpacesSingle(s);
    }
  }

  /** Text without tags and without whitespace is left as it is. */
  lemma CleanTextPlain(text: string)
    requires forall k :: 0 <= k < |text| ==> text[k] != '<' && !IsSpace(text[k])
    ensures CleanText(text) == text
  {
    if text != "" {
      StripNoSpace(text);
      CollapseSpacesNoSpace(text);
    }
  }

  /** `calculate_text_similarity`: 0 when either text is empty, else the ratio of the cleaned texts. */
  function TextSimilarity(text1: string, text2: string, ratio: (string, string) -> Ratio): (r: real)
    ensures 0.0 <= r <= 1.0
    ensures text1 == "" || text2 == "" ==> r == 0.0
    ensures text1 != "" && text2 != "" ==> r == ratio(CleanText(text1), CleanText(text2))
  {
    if text1 == "" || text2 == "" then 0.0 else ratio(CleanText(text1), CleanText(text2))
  }

  /**
   * `_generate_content_hash(item.get('content', ''))`: "" for empty content,
   * the digest of the cleaned text for a string, and `None` where the regex
   * call raises `TypeError` (a non-empty content that is not a string).
   */
  function ContentHash(content: Value, md5: string -> Digest): (r: Option<string>)
    ensures r.None? <==> Truthy(content) && !content.Str?
    ensures r == Some("") <==> !Truthy(content)
    ensures r.Some? && r.value != "" ==> r.value == md5(CleanText(content.s))
  {
    if !Truthy(content) then Some("")
    else if content.Str? then Some(md5(CleanText(content.s)))
    else None
  }

  function Content(item: Record): Value {
    Get(item, "content", Str(""))
  }

  /** The `original_id` grouping key: present only when the id is truthy. */
  function IdKey(item: Record): Option<Value> {
    var v := GetOrNull(item, "original_id");
    if Truthy(v) then Some(v) else None
  }

  /** The content-hash grouping key: present only when the hash is not "". */
  function HashKey(item: Record, md5: string -> Digest): (r: Option<string>)
    ensures r.Some? <==> Content(item).Str? && Content(item).s != ""
  {
    match ContentHash(Content(item), md5)
    case Some(h) => if h != "" then Some(h) else None
    case None => None
  }

  /** The content as text, "" when it is not a string. */
  function ContentText(item: Record): string {
    if Content(item).Str? then Content(item).s else ""
  }

  /** The grouping loop raises on this item: an unhashable truthy id, or content the regex rejects. */
  predicate ItemFails(item: Record) {
    var id := GetOrNull(item, "original_id");
    (Truthy(id) && (id.List? || id.Dict?)) || (Truthy(Content(item)) && !Content(item).Str?)
  }

  function IdKeys(data: seq<Record>): (r: seq<Option<Value>>)
    ensures |r| == |data|
  {
    seq(|data|, i requires 0 <= i < |data| => IdKey(data[i]))
  }

  function HashKeys(data: seq<Record>, md5: string -> Digest): (r: seq<Option<string>>)
    ensures |r| == |data|
  {
    seq(|data|, i requires 0 <= i < |data| => HashKey(data[i], md5))
  }

  function Texts(data: seq<Record>): (r: seq<string>)
    ensures |r| == |data|
  {
    seq(|data|, i requires 0 <= i < |data| => ContentText(data[i]))
  }

  // ------------------------------------------------------------ detection

  /** One entry of a group's `duplicates`: the index and its similarity to the primary. */
  datatype Match = Match(index: nat, similarity: real)

  datatype GroupKind = OriginalIdDuplicate | ContentSimilarityDuplicate

  /** A `duplicate_groups` entry; the records themselves are `data[primary]` and `data[index]`. */
  datatype DuplicateGroup = DuplicateGroup(primary: nat, duplicates: seq<Match>, kind: GroupKind)

  /** The dict `detect_duplicates_in_data` returns, without its timestamp. */
  datatype Detection = Detection(
    groups: seq<DuplicateGroup>,
    indices: set<nat>,
    totalRecords: nat,
    totalDuplicates: nat,
    uniqueRecords: int)

  /** An earlier position carries the same key. */
  ghost predicate HasEarlier<K>(keys: seq<Option<K>>, i: nat)
    requires i < |keys|
  {
    keys[i].Some? && exists j :: 0 <= j < i && keys[j] == keys[i]
  }

  /** Position `y` reads similar enough to position `x`. */
  predicate Close(texts: seq<string>, x: nat, y: nat, threshold: real, ratio: (string, string) -> Ratio) {
    x < |texts| && y < |texts| && TextSimilarity(texts[x], texts[y], ratio) >= threshold
  }

  /**
   * An earlier position outside `idDup` (the same-id duplicates, which the
   * content pass filters out before pairing) has the same content hash and
   * content similar enough to this one.
   */
  ghost predicate SimilarEarlier(texts: seq<string>, hashKeys: seq<Option<string>>, idDup: set<nat>, i: nat,
                                 threshold: real, ratio: (string, string) -> Ratio)
    requires i < |texts| == |hashKeys|
  {
    exists j :: 0 <= j < i && j !in idDup && hashKeys[j].Some? && hashKeys[j] == hashKeys[i]
      && Close(texts, j, i, threshold, ratio)
  }

  /** Every reported duplicate is marked and comes after its group's primary. */
  ghost predicate WellFormed(dgroups: seq<DuplicateGroup>, dup: set<nat>) {
    forall q, m :: 0 <= q < |dgroups| && 0 <= m < |dgroups[q].duplicates| ==>
      dgroups[q].primary < dgroups[q].duplicates[m].index && dgroups[q].duplicates[m].index in dup
  }

  /** Every index the content pass marked has a similar earlier record with the same hash. */
  ghost predicate Justified(dup0: set<nat>, dup: set<nat>, texts: seq<string>, hashKeys: seq<Option<string>>,
                            threshold: real, ratio: (string, string) -> Ratio)
    requires |texts| == |hashKeys|
  {
    forall i :: i in dup && i !in dup0 ==> i < |texts| && SimilarEarlier(texts, hashKeys, dup0, i, threshold, ratio)
  }

  /** Every index the content pass marked carries one of the hash keys `done` lists. */
  ghost predicate MarkedWithin(dup0: set<nat>, dup: set<nat>, hashKeys: seq<Option<string>>, done: seq<string>) {
    forall i :: i in dup && i !in dup0 ==> i < |hashKeys| && hashKeys[i].Some? && hashKeys[i].value in done
  }

  /** Every record of a key in `done` with a similar earlier anchor is marked. */
  ghost predicate CoveredWithin(dup0: set<nat>, dup: set<nat>, texts: seq<string>, hashKeys: seq<Option<string>>,
                                done: seq<string>, threshold: real, ratio: (string, string) -> Ratio)
    requires |texts| == |hashKeys|
  {
    forall i :: (0 <= i < |texts| && hashKeys[i].Some? && hashKeys[i].value in done
                 && SimilarEarlier(texts, hashKeys, dup0, i, threshold, ratio)) ==> i in dup
  }

  function Elements(s: seq<nat>): (r: set<nat>)
    ensures forall x :: x in r <==> x in s
  {
    set x | x in s
  }

  /** The positions after the head of a group are exactly those with an earlier position of the same key. */
  lemma GroupTail<K(!new)>(keys: seq<Option<K>>, order: seq<K>, groups: map<K, seq<nat>>, k: K, i: nat)
    requires Grouped(keys, order, groups) && k in groups && i < |keys|
    ensures i in groups[k][1..] <==> keys[i] == Some(k) && HasEarlier(keys, i)
  {
    var g := groups[k];
    if i in g[1..] {
      var p :| 0 <= p < |g[1..]| && g[1..][p] == i;
      assert g[p + 1] == i && g[0] < g[p + 1];
      assert keys[g[0]] == Some(k);
    } else if keys[i] == Some(k) {
      GroupHead(keys, order, groups, i);
      assert i in g;
      var p :| 0 <= p < |g| && g[p] == i;
      assert p == 0;
    }
  }

  /** After the first `t` id groups, exactly their records with an earlier same-id record are marked. */
  ghost predicate IdMarked(keys: seq<Option<Value>>, order: seq<Value>, t: nat, dup: set<nat>)
    requires t <= |order|
  {
    forall i :: i in dup <==> 0 <= i < |keys| && keys[i].Some? && keys[i].value in order[..t] && HasEarlier(keys, i)
  }

  /** The `duplicates` of an id group: every later record, with similarity 1.0. */
  function SameIdMatches(tail: seq<nat>): (r: seq<Match>)
    ensures |r| == |tail| && forall m :: 0 <= m < |r| ==> r[m].index == tail[m] && r[m].similarity == 1.0
  {
    seq(|tail|, m requires 0 <= m < |tail| => Match(tail[m], 1.0))
  }

  /** Marking the tail of the next id group extends the marked set by that group's later records. */
  lemma IdPassStep(keys: seq<Option<Value>>, order: seq<Value>, groups: map<Value, seq<nat>>, t: nat, dup: set<nat>)
    requires Grouped(keys, order, groups) && t < |order| && IdMarked(keys, order, t, dup)
    ensures order[t] in groups
    ensures var g := groups[order[t]];
      IdMarked(keys, order, t + 1, if |g| > 1 then dup + Elements(g[1..]) else dup)
  {
    var k := order[t];
    assert k in groups;
    var g := groups[k];
    forall i ensures i in g[1..] <==> 0 <= i < |keys| && keys[i] == Some(k) && HasEarlier(keys, i) {
      if 0 <= i < |keys| {
        GroupTail(keys, order, groups, k, i);
      }
    }
    assert order[..t + 1] == order[..t] + [k];
  }

  /** A new id group reports its later records, all after its head and all marked. */
  lemma IdGroupWellFormed(dgroups: seq<DuplicateGroup>, dup: set<nat>, g: seq<nat>)
    requires WellFormed(dgroups, dup) && Ascending(g) && |g| > 1
    ensures WellFormed(dgroups + [DuplicateGroup(g[0], SameIdMatches(g[1..]), OriginalIdDuplicate)], dup + Elements(g[1..]))
  {
    var matches := SameIdMatches(g[1..]);
    forall m | 0 <= m < |matches| ensures g[0] < matches[m].index && matches[m].index in Elements(g[1..]) {
      assert matches[m].index == g[m + 1];
    }
  }

  /** Once every id group is done, the marked records are exactly those with an earlier same-id record. */
  lemma IdPassDone(keys: seq<Option<Value>>, order: seq<Value>, groups: map<Value, seq<nat>>, dup: set<nat>)
    requires Grouped(keys, order, groups) && IdMarked(keys, order, |order|, dup)
    ensures forall i :: i in dup <==> 0 <= i < |keys| && HasEarlier(keys, i)
  {
    assert order[..|order|] == order;
    forall i | 0 <= i < |keys| && keys[i].Some? ensures keys[i].value in order {
      assert keys[i].value in groups;
    }
  }

  /** Pass 1: in every `original_id` group of two or more, all records after the first are marked. */
  method MarkSameId(keys: seq<Option<Value>>, order: seq<Value>, groups: map<Value, seq<nat>>)
    returns (dup: set<nat>, dgroups: seq<DuplicateGroup>)
    requires Grouped(keys, order, groups)
    ensures forall i :: i in dup <==> 0 <= i < |keys| && HasEarlier(keys, i)
    ensures WellFormed(dgroups, dup)
  {
    dup, dgroups := {}, [];
    for t := 0 to |order|
      invariant IdMarked(keys, order, t, dup)
      invariant WellFormed(dgroups, dup)
    {
      IdPassStep(keys, order, groups, t, dup);
      var g := groups[order[t]];
      if |g| > 1 {
        IdGroupWellFormed(dgroups, dup, g);
        dup := dup + Elements(g[1..]);
        dgroups := dgroups + [DuplicateGroup(g[0], SameIdMatches(g[1..]), OriginalIdDuplicate)];
      }
    }
    IdPassDone(keys, order, groups, dup);
  }

  /** `[(i, item) for i, item in group if i not in duplicate_indices]`, as positions. */
  function Unmarked(g: seq<nat>, dup: set<nat>): (r: seq<nat>)
    ensures forall x :: x in r <==> x in g && x !in dup
  {
    if |g| == 0 then []
    else
      var init := Unmarked(g[..|g| - 1], dup);
      var last := g[|g| - 1];
      assert forall x :: x in g <==> x in g[..|g| - 1] || x == last;
      if last in dup then init else init + [last]
  }

  /** Dropping marked positions keeps a group in ascending order. */
  lemma {:induction false} UnmarkedAscending(g: seq<nat>, dup: set<nat>)
    requires Ascending(g)
    ensures Ascending(Unmarked(g, dup))
  {
    if |g| > 0 {
      var init := g[..|g| - 1];
      var last := g[|g| - 1];
      UnmarkedAscending(init, dup);
      var ri := Unmarked(init, dup);
      forall x | x in ri ensures x < last {
        var p :| 0 <= p < |init| && init[p] == x;
        assert g[p] == x;
      }
      if last !in dup {
        var r := ri + [last];
        forall a, b | 0 <= a < b < |r| ensures r[a] < r[b] {
          assert r[a] == ri[a] && r[a] in ri;
          if b < |ri| {
            assert r[b] == ri[b];
          }
        }
      }
    }
  }

  /** The facts the content pass keeps as it marks more indices and files more matches. */
  ghost predicate ContentPass(dup0: set<nat>, dup: set<nat>, dgroups: seq<DuplicateGroup>,
                              texts: seq<string>, hashKeys: seq<Option<string>>,
                              threshold: real, ratio: (string, string) -> Ratio)
    requires |texts| == |hashKeys|
  {
    && dup0 <= dup
    && WellFormed(dgroups, dup)
    && Justified(dup0, dup, texts, hashKeys, threshold, ratio)
  }

  /** The group `index1` heads, if any: the first in `duplicate_groups` whose primary it is. */
  method FindGroup(dgroups: seq<DuplicateGroup>, primary: nat) returns (pos: Option<nat>)
    ensures pos.Some? ==> pos.value < |dgroups| && dgroups[pos.value].primary == primary
    ensures pos.Some? ==> forall q :: 0 <= q < pos.value ==> dgroups[q].primary != primary
    ensures pos.None? ==> forall q :: 0 <= q < |dgroups| ==> dgroups[q].primary != primary
  {
    pos := None;
    var q := 0;
    while q < |dgroups|
      invariant 0 <= q <= |dgroups|
      invariant forall q' :: 0 <= q' < q ==> dgroups[q'].primary != primary
    {
      if dgroups[q].primary == primary {
        return Some(q);
      }
      q := q + 1;
    }
  }

  /** `q` is the first group in `duplicate_groups` whose primary is `primary`. */
  predicate FirstHeaded(dgroups: seq<DuplicateGroup>, primary: nat, q: int) {
    0 <= q < |dgroups| && dgroups[q].primary == primary && forall q' :: 0 <= q' < q ==> dgroups[q'].primary != primary
  }

  /**
   * `dgroups'` is `dgroups` with `m` filed under `index1`: appended to the
   * duplicates of the first group it heads, every other group unchanged, or,
   * when it heads none, in a new content-similarity group at the end.
   */
  ghost predicate FiledAs(dgroups: seq<DuplicateGroup>, dgroups': seq<DuplicateGroup>, index1: nat, m: Match) {
    && (forall q :: FirstHeaded(dgroups, index1, q) ==>
          dgroups' == dgroups[q := dgroups[q].(duplicates := dgroups[q].duplicates + [m])])
    && ((forall q :: 0 <= q < |dgroups| ==> dgroups[q].primary != index1) ==>
          dgroups' == dgroups + [DuplicateGroup(index1, [m], ContentSimilarityDuplicate)])
  }

  /** A group headed by `primary` means a first such group. */
  lemma {:induction false} FirstHeadedExists(dgroups: seq<DuplicateGroup>, primary: nat, q: nat)
    requires q < |dgroups| && dgroups[q].primary == primary
    ensures exists q0 :: FirstHeaded(dgroups, primary, q0)
    decreases q
  {
    if q' :| 0 <= q' < q && dgroups[q'].primary == primary {
      FirstHeadedExists(dgroups, primary, q');
    } else {
      assert FirstHeaded(dgroups, primary, q);
    }
  }

  /** Filing is a function: the groups after filing a match are determined. */
  lemma FiledAsDetermined(dgroups: seq<DuplicateGroup>, x: seq<DuplicateGroup>, y: seq<DuplicateGroup>,
                          index1: nat, m: Match)
    requires FiledAs(dgroups, x, index1, m) && FiledAs(dgroups, y, index1, m)
    ensures x == y
  {
    if q :| 0 <= q < |dgroups| && dgroups[q].primary == index1 {
      FirstHeadedExists(dgroups, index1, q);
    }
  }

  /** A new match goes to the group headed by `index1`, or opens a content-similarity group. */
  method File(dgroups: seq<DuplicateGroup>, index1: nat, m: Match) returns (dgroups': seq<DuplicateGroup>)
    ensures FiledAs(dgroups, dgroups', index1, m)
    ensures |dgroups'| == |dgroups| || dgroups' == dgroups + [DuplicateGroup(index1, [m], ContentSimilarityDuplicate)]
    ensures forall q :: 0 <= q < |dgroups| ==> dgroups'[q].primary == dgroups[q].primary && dgroups'[q].kind == dgroups[q].kind
    ensures forall q :: 0 <= q < |dgroups| ==>
      dgroups'[q].duplicates == dgroups[q].duplicates
      || (dgroups[q].primary == index1 && dgroups'[q].duplicates == dgroups[q].duplicates + [m])
    ensures (exists q :: 0 <= q < |dgroups| && dgroups[q].primary == index1) <==> |dgroups'| == |dgroups|
  {
    var pos := FindGroup(dgroups, index1);
    match pos
    case Some(q) =>
      var grp := dgroups[q];
      dgroups' := dgroups[q := grp.(duplicates := grp.duplicates + [m])];
    case None =>
      dgroups' := dgroups + [DuplicateGroup(index1, [m], ContentSimilarityDuplicate)];
  }

  /** Filing a match of `index2` under `index1 < index2` keeps the groups well formed once `index2` is marked. */
  lemma FileKeepsWellFormed(dgroups: seq<DuplicateGroup>, dgroups': seq<DuplicateGroup>, dup: set<nat>,
                            index1: nat, m: Match)
    requires WellFormed(dgroups, dup) && index1 < m.index
    requires |dgroups'| == |dgroups| || dgroups' == dgroups + [DuplicateGroup(index1, [m], ContentSimilarityDuplicate)]
    requires forall q :: 0 <= q < |dgroups| ==> dgroups'[q].primary == dgroups[q].primary
    requires forall q :: 0 <= q < |dgroups| ==>
      dgroups'[q].duplicates == dgroups[q].duplicates
      || (dgroups[q].primary == index1 && dgroups'[q].duplicates == dgroups[q].duplicates + [m])
    ensures WellFormed(dgroups', dup + {m.index})
  {
    forall q, n | 0 <= q < |dgroups'| && 0 <= n < |dgroups'[q].duplicates|
      ensures dgroups'[q].primary < dgroups'[q].duplicates[n].index && dgroups'[q].duplicates[n].index in dup + {m.index}
    {
      if q < |dgroups| && n < |dgroups[q].duplicates| {
        assert dgroups'[q].duplicates[n] == dgroups[q].duplicates[n];
      }
    }
  }

  /** The positions of one hash group left unmarked when the group is reached; none is a same-id duplicate. */
  ghost predicate Filtered(texts: seq<string>, hashKeys: seq<Option<string>>, key: string, filtered: seq<nat>,
                           dup0: set<nat>)
  {
    && |texts| == |hashKeys|
    && Ascending(filtered)
    && forall p :: 0 <= p < |filtered| ==>
         filtered[p] < |texts| && hashKeys[filtered[p]] == Some(key) && filtered[p] !in dup0
  }

  /** `dup'` adds only positions of `filtered` to `dup`. */
  ghost predicate GrowsWithin(dup: set<nat>, dup': set<nat>, filtered: seq<nat>) {
    dup <= dup' && forall i :: i in dup' && i !in dup ==> i in filtered
  }

  /** Every position of `filtered` below `hi` and after `a` that reads similar to `filtered[a]` is marked. */
  ghost predicate PartnersMarked(texts: seq<string>, filtered: seq<nat>, a: nat, hi: nat, dup: set<nat>,
                                 threshold: real, ratio: (string, string) -> Ratio)
    requires a < |filtered|
  {
    forall b :: a < b < hi && b < |filtered| && Close(texts, filtered[a], filtered[b], threshold, ratio) ==>
      filtered[b] in dup
  }

  /** Every position of `filtered` that reads similar to one of its first `lo` positions before it is marked. */
  ghost predicate PairsMarked(texts: seq<string>, filtered: seq<nat>, lo: nat, dup: set<nat>,
                              threshold: real, ratio: (string, string) -> Ratio)
  {
    forall a, b :: 0 <= a < lo && a < b < |filtered| && Close(texts, filtered[a], filtered[b], threshold, ratio) ==>
      filtered[b] in dup
  }

  /** One pair of the inner loop: `index2`, when unmarked and similar enough, is marked and filed under `index1`. */
  method ConsiderPair(texts: seq<string>, hashKeys: seq<Option<string>>, index1: nat, index2: nat,
                      dup0: set<nat>, dup: set<nat>, dgroups: seq<DuplicateGroup>,
                      threshold: real, ratio: (string, string) -> Ratio)
    returns (dup': set<nat>, dgroups': seq<DuplicateGroup>)
    requires |texts| == |hashKeys| && index1 < index2 < |texts| && index1 !in dup0
    requires hashKeys[index1].Some? && hashKeys[index2] == hashKeys[index1]
    requires ContentPass(dup0, dup, dgroups, texts, hashKeys, threshold, ratio)
    ensures ContentPass(dup0, dup', dgroups', texts, hashKeys, threshold, ratio)
    ensures dup' == if index2 !in dup && Close(texts, index1, index2, threshold, ratio) then dup + {index2} else dup
    ensures index2 !in dup && Close(texts, index1, index2, threshold, ratio) ==>
      FiledAs(dgroups, dgroups', index1, Match(index2, TextSimilarity(texts[index1], texts[index2], ratio)))
    ensures !(index2 !in dup && Close(texts, index1, index2, threshold, ratio)) ==> dgroups' == dgroups
  {
    dup', dgroups' := dup, dgroups;
    if index2 !in dup {
      var similarity := TextSimilarity(texts[index1], texts[index2], ratio);
      if similarity >= threshold {
        assert Close(texts, index1, index2, threshold, ratio);
        assert SimilarEarlier(texts, hashKeys, dup0, index2, threshold, ratio);
        var filed := File(dgroups, index1, Match(index2, similarity));
        FileKeepsWellFormed(dgroups, filed, dup, index1, Match(index2, similarity));
        dup', dgroups' := dup + {index2}, filed;
      }
    }
  }

  /** The inner loop: `for index2, item2 in filtered_group[j+1:]`. */
  method ScanPairs(texts: seq<string>, hashKeys: seq<Option<string>>, key: string, filtered: seq<nat>, j: nat,
                   dup0: set<nat>, dup: set<nat>, dgroups: seq<DuplicateGroup>,
                   threshold: real, ratio: (string, string) -> Ratio)
    returns (dup': set<nat>, dgroups': seq<DuplicateGroup>)
    requires j < |filtered| && Filtered(texts, hashKeys, key, filtered, dup0)
    requires ContentPass(dup0, dup, dgroups, texts, hashKeys, threshold, ratio)
    ensures ContentPass(dup0, dup', dgroups', texts, hashKeys, threshold, ratio)
    ensures GrowsWithin(dup, dup', filtered)
    ensures PartnersMarked(texts, filtered, j, |filtered|, dup', threshold, ratio)
  {
    dup', dgroups' := dup, dgroups;
    var index1 := filtered[j];
    for b := j + 1 to |filtered|
      invariant ContentPass(dup0, dup', dgroups', texts, hashKeys, threshold, ratio)
      invariant GrowsWithin(dup, dup', filtered)
      invariant PartnersMarked(texts, filtered, j, b, dup', threshold, ratio)
    {
      var index2 := filtered[b];
      ghost var before := dup';
      dup', dgroups' := ConsiderPair(texts, hashKeys, index1, index2, dup0, dup', dgroups', threshold, ratio);
      PartnersStep(texts, filtered, j, b, before, dup', threshold, ratio);
      assert index2 in filtered;
    }
  }

  /** Considering the pair at position `b` extends the partners covered by one position. */
  lemma PartnersStep(texts: seq<string>, filtered: seq<nat>, j: nat, b: nat, dup: set<nat>, dup': set<nat>,
                     threshold: real, ratio: (string, string) -> Ratio)
    requires j < b < |filtered| && dup <= dup'
    requires PartnersMarked(texts, filtered, j, b, dup, threshold, ratio)
    requires Close(texts, filtered[j], filtered[b], threshold, ratio) ==> filtered[b] in dup'
    ensures PartnersMarked(texts, filtered, j, b + 1, dup', threshold, ratio)
  {
  }

  /** Scanning the partners of position `lo` extends the pairs covered by one position. */
  lemma PairsStep(texts: seq<string>, filtered: seq<nat>, lo: nat, dup: set<nat>, dup': set<nat>,
                  threshold: real, ratio: (string, string) -> Ratio)
    requires lo < |filtered| && dup <= dup'
    requires PairsMarked(texts, filtered, lo, dup, threshold, ratio)
    requires PartnersMarked(texts, filtered, lo, |filtered|, dup', threshold, ratio)
    ensures PairsMarked(texts, filtered, lo + 1, dup', threshold, ratio)
  {
  }

  /** The middle loop: `for j, (index1, item1) in enumerate(filtered_group)`. */
  method ScanGroup(texts: seq<string>, hashKeys: seq<Option<string>>, key: string, filtered: seq<nat>,
                   dup0: set<nat>, dup: set<nat>, dgroups: seq<DuplicateGroup>,
                   threshold: real, ratio: (string, string) -> Ratio)
    returns (dup': set<nat>, dgroups': seq<DuplicateGroup>)
    requires Filtered(texts, hashKeys, key, filtered, dup0)
    requires ContentPass(dup0, dup, dgroups, texts, hashKeys, threshold, ratio)
    ensures ContentPass(dup0, dup', dgroups', texts, hashKeys, threshold, ratio)
    ensures GrowsWithin(dup, dup', filtered)
    ensures PairsMarked(texts, filtered, |filtered|, dup', threshold, ratio)
  {
    dup', dgroups' := dup, dgroups;
    for j := 0 to |filtered|
      invariant ContentPass(dup0, dup', dgroups', texts, hashKeys, threshold, ratio)
      invariant GrowsWithin(dup, dup', filtered)
      invariant PairsMarked(texts, filtered, j, dup', threshold, ratio)
    {
      ghost var before := dup';
      dup', dgroups' := ScanPairs(texts, hashKeys, key, filtered, j, dup0, dup', dgroups', threshold, ratio);
      PairsStep(texts, filtered, j, before, dup', threshold, ratio);
    }
  }

  /** Two distinct unmarked positions of a group both survive the filter, in their order. */
  lemma BothFiltered(g: seq<nat>, dup: set<nat>, filtered: seq<nat>, j: nat, i: nat) returns (a: nat, b: nat)
    requires forall x :: x in filtered <==> x in g && x !in dup
    requires Ascending(filtered) && j < i && j in g && i in g && j !in dup && i !in dup
    ensures |g| > 1 && a < b < |filtered| && filtered[a] == j && filtered[b] == i
  {
    var qi :| 0 <= qi < |g| && g[qi] == i;
    var qj :| 0 <= qj < |g| && g[qj] == j;
    assert qi != qj;
    a :| 0 <= a < |filtered| && filtered[a] == j;
    b :| 0 <= b < |filtered| && filtered[b] == i;
  }

  /** One hash group done: marks stay among the keys done, now including this one. */
  lemma MarkedStep(hashKeys: seq<Option<string>>, order: seq<string>, t: nat, g: seq<nat>,
                   dup0: set<nat>, dup: set<nat>, dup': set<nat>, filtered: seq<nat>)
    requires t < |order| && MarkedWithin(dup0, dup, hashKeys, order[..t]) && GrowsWithin(dup, dup', filtered)
    requires forall x :: x in filtered ==> x in g
    requires forall p :: 0 <= p < |g| ==> g[p] < |hashKeys| && hashKeys[g[p]] == Some(order[t])
    ensures MarkedWithin(dup0, dup', hashKeys, order[..t + 1])
  {
    assert order[..t + 1] == order[..t] + [order[t]];
  }

  /**
   * One hash group done: its records are marked exactly where the scan of
   * its unmarked positions `filtered` (run only when the group and
   * `filtered` both hold two or more) found a similar earlier partner.
   */
  lemma CoveredStep(texts: seq<string>, hashKeys: seq<Option<string>>, order: seq<string>,
                    groups: map<string, seq<nat>>, t: nat, dup0: set<nat>, dup: set<nat>, dup': set<nat>,
                    filtered: seq<nat>, threshold: real, ratio: (string, string) -> Ratio)
    requires |texts| == |hashKeys| && Grouped(hashKeys, order, groups) && t < |order| && order[t] in groups
    requires dup0 <= dup <= dup'
    requires MarkedWithin(dup0, dup, hashKeys, order[..t])
    requires CoveredWithin(dup0, dup, texts, hashKeys, order[..t], threshold, ratio)
    requires forall x :: x in filtered <==> x in groups[order[t]] && x !in dup
    requires Ascending(filtered)
    requires |groups[order[t]]| > 1 && |filtered| > 1 ==> PairsMarked(texts, filtered, |filtered|, dup', threshold, ratio)
    ensures CoveredWithin(dup0, dup', texts, hashKeys, order[..t + 1], threshold, ratio)
  {
    var key := order[t];
    var g := groups[key];
    assert order[..t + 1] == order[..t] + [key];
    forall i | 0 <= i < |texts| && hashKeys[i].Some? && hashKeys[i].value in order[..t + 1]
      && SimilarEarlier(texts, hashKeys, dup0, i, threshold, ratio) && i !in dup
      ensures i in dup'
    {
      assert hashKeys[i].value == key;
      var j :| 0 <= j < i && j !in dup0 && hashKeys[j].Some? && hashKeys[j] == hashKeys[i]
        && Close(texts, j, i, threshold, ratio);
      assert j !in dup;
      var a, b := BothFiltered(g, dup, filtered, j, i);
    }
  }

  /** Pass 2: within each content-hash group, a record similar enough to an earlier unmarked one is marked. */
  method MarkSimilarContent(texts: seq<string>, hashKeys: seq<Option<string>>,
                            order: seq<string>, groups: map<string, seq<nat>>,
                            dup0: set<nat>, dgroups0: seq<DuplicateGroup>,
                            threshold: real, ratio: (string, string) -> Ratio)
    returns (dup: set<nat>, dgroups: seq<DuplicateGroup>)
    requires |texts| == |hashKeys| && Grouped(hashKeys, order, groups)
    requires WellFormed(dgroups0, dup0)
    ensures ContentPass(dup0, dup, dgroups, texts, hashKeys, threshold, ratio)
    ensures forall i :: 0 <= i < |texts| && SimilarEarlier(texts, hashKeys, dup0, i, threshold, ratio) ==> i in dup
  {
    dup, dgroups := dup0, dgroups0;
    for t := 0 to |order|
      invariant ContentPass(dup0, dup, dgroups, texts, hashKeys, threshold, ratio)
      invariant MarkedWithin(dup0, dup, hashKeys, order[..t])
      invariant CoveredWithin(dup0, dup, texts, hashKeys, order[..t], threshold, ratio)
    {
      var key := order[t];
      assert key in groups;
      var g := groups[key];
      ghost var unmarked := Unmarked(g, dup);
      UnmarkedAscending(g, dup);
      var dup' := dup;
      if |g| > 1 {
        var filtered := Unmarked(g, dup);
        if |filtered| > 1 {
          forall p | 0 <= p < |filtered|
            ensures filtered[p] < |texts| && hashKeys[filtered[p]] == Some(key) && filtered[p] !in dup0
          {
            assert filtered[p] in g;
          }
          dup', dgroups := ScanGroup(texts, hashKeys, key, filtered, dup0, dup, dgroups, threshold, ratio);
        }
      }
      MarkedStep(hashKeys, order, t, g, dup0, dup, dup', unmarked);
      CoveredStep(texts, hashKeys, order, groups, t, dup0, dup, dup', unmarked, threshold, ratio);
      dup := dup';
    }
    assert order[..|order|] == order;
    forall i | 0 <= i < |texts| && SimilarEarlier(texts, hashKeys, dup0, i, threshold, ratio)
      ensures i in dup
    {
      var j :| 0 <= j < i && j !in dup0 && hashKeys[j].Some? && hashKeys[j] == hashKeys[i]
        && Close(texts, j, i, threshold, ratio);
      assert hashKeys[i].value in groups;
    }
  }

  /** The grouping loop raises on some item. */
  predicate AnyFails(data: seq<Record>) {
    exists i :: 0 <= i < |data| && ItemFails(data[i])
  }

  /** The positions with an earlier record of the same `original_id`. */
  ghost function IdDuplicates(data: seq<Record>): (r: set<nat>)
    ensures forall i :: i in r <==> 0 <= i < |data| && HasEarlier(IdKeys(data), i)
  {
    set i: nat | i < |data| && HasEarlier(IdKeys(data), i)
  }

  /**
   * `dup` is exactly what a detection marks: the records with an earlier
   * record of the same `original_id`, and the records with an earlier
   * record of the same content hash, similar enough, that is not itself a
   * same-id duplicate.
   */
  ghost predicate Explained(data: seq<Record>, dup: set<nat>, threshold: real,
                            ratio: (string, string) -> Ratio, md5: string -> Digest)
  {
    forall i :: i in dup <==>
      (0 <= i < |data| &&
       (HasEarlier(IdKeys(data), i)
        || SimilarEarlier(Texts(data), HashKeys(data, md5), IdDuplicates(data), i, threshold, ratio)))
  }

  /** The one set of positions a detection of `data` marks. */
  ghost function Duplicates(data: seq<Record>, threshold: real,
                            ratio: (string, string) -> Ratio, md5: string -> Digest): (r: set<nat>)
    ensures Explained(data, r, threshold, ratio, md5)
    ensures forall dup :: Explained(data, dup, threshold, ratio, md5) ==> dup == r
  {
    set i: nat | i < |data| &&
      (HasEarlier(IdKeys(data), i)
       || SimilarEarlier(Texts(data), HashKeys(data, md5), IdDuplicates(data), i, threshold, ratio))
  }

  /** No record is a duplicate of a record before the first one. */
  lemma FirstNotMarked(data: seq<Record>, dup: set<nat>, threshold: real,
                       ratio: (string, string) -> Ratio, md5: string -> Digest)
    requires Explained(data, dup, threshold, ratio, md5)
    ensures 0 !in dup
  {
  }

  /** `detect_duplicates_in_data`; `None` where the grouping loop raises. */
  method DetectDuplicatesInData(data: seq<Record>, threshold: real,
                                ratio: (string, string) -> Ratio, md5: string -> Digest)
    returns (r: Option<Detection>)
    ensures r.None? <==> AnyFails(data)
    ensures r.Some? ==> var d := r.value;
      && d.totalRecords == |data|
      && d.totalDuplicates == |d.indices|
      && d.uniqueRecords == |data| - |d.indices|
      && Explained(data, d.indices, threshold, ratio, md5)
      && d.indices == Duplicates(data, threshold, ratio, md5)
      && WellFormed(d.groups, d.indices)
  {
    if exists i | 0 <= i < |data| :: ItemFails(data[i]) {
      return None;
    }
    var idKeys := IdKeys(data);
    var hashKeys := HashKeys(data, md5);
    var texts := Texts(data);
    var idOrder, idGroups := GroupPositions(idKeys);
    var hashOrder, hashGroups := GroupPositions(hashKeys);
    var dup0, dgroups0 := MarkSameId(idKeys, idOrder, idGroups);
    assert dup0 == IdDuplicates(data);
    var dup, dgroups := MarkSimilarContent(texts, hashKeys, hashOrder, hashGroups, dup0, dgroups0, threshold, ratio);
    assert Explained(data, dup, threshold, ratio, md5);
    r := Some(Detection(dgroups, dup, |data|, |dup|, |data| - |dup|));
  }

  // ------------------------------------------------------------ removal

  /** A `removed_items` entry; the record itself is `data[index]`. */
  datatype Removed = Removed(index: nat, originalId: Value, title: string)

  datatype RemovalStats = RemovalStats(originalCount: nat, removedCount: nat, finalCount: nat,
                                       duplicateGroups: nat, removedItems: seq<Removed>)

  /** `item.get('title', '')[:50] + '...' if item.get('title') else 'No title'`; `None` where the slice or `+` raises. */
  function TitleLabel(item: Record): (r: Option<string>)
    ensures r.None? <==> Truthy(GetOrNull(item, "title")) && !GetOrNull(item, "title").Str?
    ensures r.Some? && Truthy(GetOrNull(item, "title")) ==> 3 <= |r.value| <= 53 && r.value[|r.value| - 3..] == "..."
  {
    var t := GetOrNull(item, "title");
    if !Truthy(t) then Some("No title")
    else if t.Str? then Some(Take(t.s, 50) + "...")
    else None
  }

  /** The records of the first `n` whose index is not marked, in order. */
  function Kept(data: seq<Record>, dup: set<nat>, n: nat): seq<Record>
    requires n <= |data|
  {
    if n == 0 then [] else Kept(data, dup, n - 1) + (if n - 1 in dup then [] else [data[n - 1]])
  }

  /** The marked indices among the first `n`. */
  function MarkedBelow(dup: set<nat>, n: nat): (r: set<nat>)
    ensures forall i :: i in r <==> i in dup && i < n
  {
    set i | i in dup && i < n
  }

  /** Kept and removed records account for every record. */
  lemma {:induction false} KeptCount(data: seq<Record>, dup: set<nat>, n: nat)
    requires n <= |data|
    ensures |Kept(data, dup, n)| + |MarkedBelow(dup, n)| == n
  {
    if n > 0 {
      KeptCount(data, dup, n - 1);
      if n - 1 in dup {
        assert MarkedBelow(dup, n) == MarkedBelow(dup, n - 1) + {n - 1};
      } else {
        assert MarkedBelow(dup, n) == MarkedBelow(dup, n - 1);
      }
    }
  }

  /** Every unmarked record survives. */
  lemma {:induction false} KeptContains(data: seq<Record>, dup: set<nat>, n: nat, i: nat)
    requires i < n <= |data| && i !in dup
    ensures data[i] in Kept(data, dup, n)
  {
    if i < n - 1 {
      KeptContains(data, dup, n - 1, i);
    }
  }

  /** The first record is the first survivor whenever it is unmarked. */
  lemma {:induction false} KeptFirst(data: seq<Record>, dup: set<nat>, n: nat)
    requires 0 < n <= |data| && 0 !in dup
    ensures |Kept(data, dup, n)| > 0 && Kept(data, dup, n)[0] == data[0]
  {
    if n > 1 {
      KeptFirst(data, dup, n - 1);
    }
  }

  /** A removal that cannot raise. */
  predicate RemovalFails(data: seq<Record>, dup: set<nat>) {
    exists i :: 0 <= i < |data| && i in dup && TitleLabel(data[i]).None?
  }

  /** `remove_duplicates_from_data(data, detection_result)`; `None` where a removed record's title raises. */
  method RemoveDuplicatesFromData(data: seq<Record>, detection: Detection)
    returns (r: Option<(seq<Record>, RemovalStats)>)
    ensures r.None? <==> RemovalFails(data, detection.indices)
    ensures r.Some? ==> var (kept, stats) := r.value;
      && kept == Kept(data, detection.indices, |data|)
      && stats.originalCount == |data|
      && stats.removedCount == |MarkedBelow(detection.indices, |data|)| == |stats.removedItems|
      && stats.finalCount == |kept| == |data| - stats.removedCount
      && stats.duplicateGroups == |detection.groups|
      && (forall e :: 0 <= e < |stats.removedItems| ==> stats.removedItems[e].index in detection.indices)
  {
    var dup := detection.indices;
    var kept: seq<Record> := [];
    var removed: seq<Removed> := [];
    for i := 0 to |data|
      invariant kept == Kept(data, dup, i)
      invariant |kept| + |removed| == i
      invariant forall e :: 0 <= e < |removed| ==> removed[e].index in dup
      invariant forall i' :: 0 <= i' < i && i' in dup ==> TitleLabel(data[i']).Some?
    {
      if i in dup {
        var title := TitleLabel(data[i]);
        if title.None? {
          return None;
        }
        removed := removed + [Removed(i, GetOrNull(data[i], "original_id"), title.value)];
      } else {
        kept := kept + [data[i]];
      }
    }
    KeptCount(data, dup, |data|);
    r := Some((kept, RemovalStats(|data|, |removed|, |kept|, |detection.groups|, removed)));
  }

  // ------------------------------------------------------------ export

  /** The dict `auto_deduplicate_export_data` returns, without timings and messages. */
  datatype ExportResult = ExportResult(success: bool, data: seq<Record>, originalCount: nat,
                                       finalCount: nat, removedCount: nat, deduplicationRate: real)

  /** A share of a positive count lies in [0, 1]. */
  lemma RateBound(part: nat, whole: nat)
    requires 0 < whole && part <= whole
    ensures 0.0 <= part as real / whole as real <= 1.0
  {
    assert part as real / whole as real * whole as real == part as real;
  }

  /** `auto_deduplicate_export_data`: detect, then remove; on any exception the input comes back unchanged. */
  method AutoDeduplicateExportData(data: seq<Record>, threshold: real,
                                   ratio: (string, string) -> Ratio, md5: string -> Digest)
    returns (r: ExportResult)
    ensures r.success <==>
      (|data| == 0 || (!AnyFails(data) && !RemovalFails(data, Duplicates(data, threshold, ratio, md5))))
    ensures |data| == 0 ==> r == ExportResult(true, [], 0, 0, 0, 0.0)
    ensures !r.success ==> r == ExportResult(false, data, |data|, |data|, 0, 0.0)
    ensures r.success ==>
      && r.data == Kept(data, Duplicates(data, threshold, ratio, md5), |data|)
      && r.originalCount == |data| == r.finalCount + r.removedCount
      && r.removedCount == |Duplicates(data, threshold, ratio, md5)|
      && r.finalCount == |r.data|
      && 0.0 <= r.deduplicationRate <= 1.0
      && (|data| > 0 ==> r.deduplicationRate == r.removedCount as real / |data| as real)
      && (|data| > 0 ==> |r.data| > 0 && r.data[0] == data[0])
  {
    if |data| == 0 {
      return ExportResult(true, [], 0, 0, 0, 0.0);
    }
    var failed := ExportResult(false, data, |data|, |data|, 0, 0.0);
    var detection := DetectDuplicatesInData(data, threshold, ratio, md5);
    if detection.None? {
      return failed;
    }
    var removal := RemoveDuplicatesFromData(data, detection.value);
    if removal.None? {
      return failed;
    }
    ghost var dup := detection.value.indices;
    var (kept, stats) := removal.value;
    FirstNotMarked(data, dup, threshold, ratio, md5);
    KeptFirst(data, dup, |data|);
    assert MarkedBelow(dup, |data|) == dup;
    RateBound(stats.removedCount, stats.originalCount);
    var rate := stats.removedCount as real / stats.originalCount as real;
    r := ExportResult(true, kept, stats.originalCount, stats.finalCount, stats.removedCount, rate);
  }
}
