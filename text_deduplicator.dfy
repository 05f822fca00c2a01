/**
 * `TextDeduplicator` and `DuplicateDetectionManager` of text_deduplicator.py
 * with the in-memory index: every stored text is indexed under one key per
 * block of its fingerprint, a new text is compared only with the texts that
 * share a block key with it, and it is looked up before it is stored.
 */
module Deduplicator {
  import opened Wrappers
  import opened Bits
  import opened Hex
  import opened Values
  import opened SimHash

  /** `f"block_{i}_{fragment:016x}"`; the pair is what the text encodes, one-to-one. */
  datatype BlockKey = BlockKey(position: nat, fragment: nat)

  /** An index bucket: `(text_id, simhash_value)` entries in insertion order. */
  type Bucket = seq<(string, nat)>

  /** `(v >> (i * w)) & ((1 << w) - 1)`. */
  function Fragment(v: nat, i: nat, w: nat): nat {
    LowBits(Shr(v, i * w), w)
  }

  /** The keys `_generate_fragments` produces for fingerprint `v` with `numBlocks` blocks of `64 // numBlocks` bits. */
  function Fragments(v: nat, numBlocks: nat): (keys: seq<BlockKey>)
    requires numBlocks >= 1
    ensures |keys| == numBlocks
  {
    seq(numBlocks, i requires 0 <= i < numBlocks => BlockKey(i, Fragment(v, i, 64 / numBlocks)))
  }

  /** Block key `i` holds bits `[i * w, (i + 1) * w)` of the fingerprint, and the keys are pairwise distinct. */
  lemma FragmentsBits(v: nat, numBlocks: nat, i: nat, j: nat)
    requires numBlocks >= 1 && i < numBlocks
    ensures Fragments(v, numBlocks)[i].position == i
    ensures Bit(Fragments(v, numBlocks)[i].fragment, j) == (j < 64 / numBlocks && Bit(v, i * (64 / numBlocks) + j))
    ensures forall k :: 0 <= k < numBlocks && k != i ==> Fragments(v, numBlocks)[k] != Fragments(v, numBlocks)[i]
  {
    var w := 64 / numBlocks;
    LowBitsBits(Shr(v, i * w), w, j);
    BitOfShr(v, i * w, j);
  }

  /** Fingerprints whose blocks all differ differ in at least one bit per block. */
  lemma {:induction false} BlocksDiffer(a: nat, b: nat, w: nat, k: nat)
    requires forall i :: 0 <= i < k ==> Fragment(a, i, w) != Fragment(b, i, w)
    ensures DiffBits(a, b, k * w) >= k
  {
    if k > 0 {
      BlocksDiffer(a, b, w, k - 1);
      var s := (k - 1) * w;
      DiffBitsSplit(a, b, s, w);
      assert s + w == k * w;
      assert Fragment(a, k - 1, w) != Fragment(b, k - 1, w);
      if DiffBits(Shr(a, s), Shr(b, s), w) == 0 {
        DiffBitsZeroLowBits(Shr(a, s), Shr(b, s), w);
      }
    }
  }

  /** `n` blocks of `64 // n` bits fit in 64 bits. */
  lemma BlocksFit(n: nat, w: nat) returns (m: nat)
    requires n >= 1 && w == 64 / n
    ensures m == n * w && m <= 64
  {
    m := n * w;
  }

  /** The width `64 // n` of a block. */
  lemma BlockWidth(n: nat) returns (w: nat)
    requires n >= 1
    ensures w == 64 / n
  {
    w := 64 / n;
  }

  /** Fingerprints whose `numBlocks` keys all differ are at least `numBlocks` bits apart. */
  lemma AllBlocksDiffer(a: nat, b: nat, numBlocks: nat)
    requires a < Pow2(HashBits) && b < Pow2(HashBits) && numBlocks >= 1
    requires forall i :: 0 <= i < numBlocks ==> Fragments(a, numBlocks)[i] != Fragments(b, numBlocks)[i]
    ensures Distance(a, b) >= numBlocks
  {
    var w := BlockWidth(numBlocks);
    KeysToFragments(a, b, numBlocks, w);
    var m := BlocksFit(numBlocks, w);
    BlocksCover(a, b, w, numBlocks, m);
  }

  /** `k` differing fragments of width `w` within 64 bits put the fingerprints `k` bits apart. */
  lemma BlocksCover(a: nat, b: nat, w: nat, k: nat, m: nat)
    requires a < Pow2(HashBits) && b < Pow2(HashBits) && m == k * w && m <= 64
    requires forall i :: 0 <= i < k ==> Fragment(a, i, w) != Fragment(b, i, w)
    ensures Distance(a, b) >= k
  {
    BlocksDiffer(a, b, w, k);
    DistanceCoversBits(a, b, m);
  }

  /** Different block keys hold different fragments. */
  lemma KeysToFragments(a: nat, b: nat, numBlocks: nat, w: nat)
    requires numBlocks >= 1 && w == 64 / numBlocks
    requires forall i :: 0 <= i < numBlocks ==> Fragments(a, numBlocks)[i] != Fragments(b, numBlocks)[i]
    ensures forall i :: 0 <= i < numBlocks ==> Fragment(a, i, w) != Fragment(b, i, w)
  {
    forall i | 0 <= i < numBlocks ensures Fragment(a, i, w) != Fragment(b, i, w) {
      assert Fragments(a, numBlocks)[i] != Fragments(b, numBlocks)[i];
    }
  }

  /** The distance of two fingerprints counts at least the differing bits among the low `m`. */
  lemma DistanceCoversBits(a: nat, b: nat, m: nat)
    requires a < Pow2(HashBits) && b < Pow2(HashBits) && m <= 64
    ensures Distance(a, b) >= DiffBits(a, b, m)
  {
    DiffBitsMonotone(a, b, m, HashBits);
    PopCountXor(a, b, HashBits);
  }

  /** Two fingerprints at Hamming distance below `numBlocks` share at least one block key. */
  lemma BlockCompleteness(a: nat, b: nat, numBlocks: nat)
    requires a < Pow2(HashBits) && b < Pow2(HashBits) && numBlocks >= 1
    requires Distance(a, b) < numBlocks
    ensures exists i :: 0 <= i < numBlocks && Fragments(a, numBlocks)[i] == Fragments(b, numBlocks)[i]
  {
    if forall i :: 0 <= i < numBlocks ==> Fragments(a, numBlocks)[i] != Fragments(b, numBlocks)[i] {
      AllBlocksDiffer(a, b, numBlocks);
    }
  }

  /** The ids of a bucket. */
  function IdsOf(bucket: Bucket): set<string> {
    if bucket == [] then {} else IdsOf(bucket[..|bucket| - 1]) + {bucket[|bucket| - 1].0}
  }

  /** The id of every entry of a bucket is among its ids. */
  lemma {:induction false} IdsOfMember(bucket: Bucket, e: (string, nat))
    requires e in bucket
    ensures e.0 in IdsOf(bucket)
  {
    var init := bucket[..|bucket| - 1];
    if e != bucket[|bucket| - 1] {
      assert e in init;
      IdsOfMember(init, e);
    }
  }

  /** Appending an entry adds exactly its id. */
  lemma IdsOfAppend(bucket: Bucket, e: (string, nat))
    ensures IdsOf(bucket + [e]) == IdsOf(bucket) + {e.0}
  {
    assert (bucket + [e])[..|bucket|] == bucket;
  }

  /** `self.simhash_index[key]` of a defaultdict: a missing key reads as an empty list. */
  function BucketAt(index: map<BlockKey, Bucket>, key: BlockKey): Bucket {
    if key in index then index[key] else []
  }

  /** The candidate set: every id found in the buckets of `keys`. */
  function Candidates(index: map<BlockKey, Bucket>, keys: seq<BlockKey>): set<string> {
    if keys == [] then {}
    else Candidates(index, keys[..|keys| - 1]) + IdsOf(BucketAt(index, keys[|keys| - 1]))
  }

  /** An id in the bucket of any of the keys is a candidate. */
  lemma {:induction false} CandidatesInclude(index: map<BlockKey, Bucket>, keys: seq<BlockKey>, i: nat, x: string)
    requires i < |keys| && x in IdsOf(BucketAt(index, keys[i]))
    ensures x in Candidates(index, keys)
    decreases |keys|
  {
    if i < |keys| - 1 {
      CandidatesInclude(index, keys[..|keys| - 1], i, x);
    }
  }

  /** Every candidate is in the bucket of one of the keys. */
  lemma {:induction false} CandidatesOnly(index: map<BlockKey, Bucket>, keys: seq<BlockKey>, x: string)
    requires x in Candidates(index, keys)
    ensures exists i :: 0 <= i < |keys| && x in IdsOf(BucketAt(index, keys[i]))
    decreases |keys|
  {
    if x !in IdsOf(BucketAt(index, keys[|keys| - 1])) {
      CandidatesOnly(index, keys[..|keys| - 1], x);
      var i :| 0 <= i < |keys| - 1 && x in IdsOf(BucketAt(index, keys[..|keys| - 1][i]));
    }
  }

  /** `1 - d / 64`. */
  function Similarity(d: nat): real {
    1.0 - (d as real) / 64.0
  }

  /** The index of the first entry of least distance: `min(similar, key=lambda x: x[1])`. */
  function FirstMin(s: seq<(string, nat)>): (k: nat)
    requires |s| > 0
    ensures k < |s|
    ensures forall j :: 0 <= j < |s| ==> s[k].1 <= s[j].1
    ensures forall j :: 0 <= j < k ==> s[j].1 > s[k].1
  {
    if |s| == 1 then 0
    else
      var m := FirstMin(s[1..]) + 1;
      if s[0].1 <= s[m].1 then 0 else m
  }

  /** What `text_storage` holds for a text. */
  datatype StoredText = StoredText(text: string, simhash: nat, publishTime: Value)

  /** The dict `add_text` returns. */
  datatype DuplicateResult = DuplicateResult(
    isDuplicate: bool,
    duplicateWith: Option<string>,
    duplicateGroup: Option<string>,
    similarity: real,
    hammingDistance: nat,
    simhashValue: string)

  /** The dict `get_statistics` returns; the Redis branch is not modelled, so `use_redis` is false. */
  datatype Statistics = Statistics(
    totalTexts: nat,
    indexFragments: nat,
    hammingThreshold: int,
    similarityThreshold: real,
    useRedis: bool)

  /** A fingerprint that fits in 64 bits, listed under each of its block keys. */
  predicate Indexed(index: map<BlockKey, Bucket>, numBlocks: nat, id: string, v: nat)
    requires numBlocks >= 1
  {
    forall key :: key in Fragments(v, numBlocks) ==> (id, v) in BucketAt(index, key)
  }

  /**
   * The invariant of the in-memory index: every stored text has a 64-bit
   * fingerprint and is listed under each of its block keys, and every id in
   * the index is stored.
   */
  predicate ValidState(storage: map<string, StoredText>, index: map<BlockKey, Bucket>, numBlocks: nat) {
    numBlocks >= 1 && AllIndexed(storage, index, numBlocks) && IdsStored(storage, index)
  }

  /** Every stored text has a 64-bit fingerprint and is listed under each of its block keys. */
  predicate AllIndexed(storage: map<string, StoredText>, index: map<BlockKey, Bucket>, numBlocks: nat)
    requires numBlocks >= 1
  {
    forall id :: id in storage ==> storage[id].simhash < Pow2(HashBits) && Indexed(index, numBlocks, id, storage[id].simhash)
  }

  /** Every id in the index is stored. */
  predicate IdsStored(storage: map<string, StoredText>, index: map<BlockKey, Bucket>) {
    forall key :: key in index ==> IdsOf(index[key]) <= storage.Keys
  }

  /** The index after reading the buckets of `keys` through the defaultdict: missing ones now exist, empty. */
  ghost predicate WithEmptyBuckets(before: map<BlockKey, Bucket>, after: map<BlockKey, Bucket>, keys: seq<BlockKey>) {
    && (forall key :: key in after <==> key in before || key in keys)
    && (forall key :: key in after ==> after[key] == BucketAt(before, key))
  }

  /** The index after appending `entry` once to the bucket of each of `keys`. */
  ghost predicate AppendedUnder(before: map<BlockKey, Bucket>, after: map<BlockKey, Bucket>, keys: seq<BlockKey>, entry: (string, nat)) {
    && (forall key :: key in after <==> key in before || key in keys)
    && (forall key :: key in after ==> after[key] == BucketAt(before, key) + (if key in keys then [entry] else []))
  }

  /** An entry listed under its keys stays listed when no bucket changes. */
  lemma SameBucketsIndexed(before: map<BlockKey, Bucket>, after: map<BlockKey, Bucket>, numBlocks: nat, id: string, v: nat)
    requires numBlocks >= 1 && Indexed(before, numBlocks, id, v)
    requires forall key :: BucketAt(after, key) == BucketAt(before, key)
    ensures Indexed(after, numBlocks, id, v)
  {
    forall key | key in Fragments(v, numBlocks) ensures (id, v) in BucketAt(after, key) {
      assert (id, v) in BucketAt(before, key);
    }
  }

  /** Reading empty buckets into existence changes neither the invariant nor any candidate set. */
  lemma EmptyBucketsKeepValid(storage: map<string, StoredText>, before: map<BlockKey, Bucket>, after: map<BlockKey, Bucket>,
                              numBlocks: nat, keys: seq<BlockKey>)
    requires ValidState(storage, before, numBlocks) && WithEmptyBuckets(before, after, keys)
    ensures ValidState(storage, after, numBlocks)
    ensures forall key :: BucketAt(after, key) == BucketAt(before, key)
  {
    assert forall key :: BucketAt(after, key) == BucketAt(before, key);
    forall id | id in storage ensures storage[id].simhash < Pow2(HashBits) && Indexed(after, numBlocks, id, storage[id].simhash) {
      SameBucketsIndexed(before, after, numBlocks, id, storage[id].simhash);
    }
    forall key | key in after ensures IdsOf(after[key]) <= storage.Keys {
      assert after[key] == BucketAt(before, key);
    }
  }

  /** One more key of a key list. */
  lemma KeysSnoc(keys: seq<BlockKey>, f: nat)
    requires f < |keys|
    ensures keys[..f + 1] == keys[..f] + [keys[f]] && keys[..f + 1][..f] == keys[..f]
  {
  }

  /** Reading one more key through the defaultdict: its bucket now exists and holds what it held before, or nothing. */
  lemma ReadBucket(before: map<BlockKey, Bucket>, mid: map<BlockKey, Bucket>, keys: seq<BlockKey>, key: BlockKey)
    requires WithEmptyBuckets(before, mid, keys)
    ensures var next := if key in mid then mid else mid[key := []];
      WithEmptyBuckets(before, next, keys + [key]) && next[key] == BucketAt(before, key)
  {
  }

  /** Appending to the bucket of one more key, not seen before. */
  lemma AppendOne(before: map<BlockKey, Bucket>, mid: map<BlockKey, Bucket>, keys: seq<BlockKey>, key: BlockKey, entry: (string, nat))
    requires AppendedUnder(before, mid, keys, entry) && key !in keys
    ensures AppendedUnder(before, mid[key := BucketAt(mid, key) + [entry]], keys + [key], entry)
  {
  }

  /** Empty buckets first and one append per key afterwards amount to the append alone. */
  lemma EmptyThenAppend(before: map<BlockKey, Bucket>, mid: map<BlockKey, Bucket>, after: map<BlockKey, Bucket>,
                        keys: seq<BlockKey>, entry: (string, nat))
    requires WithEmptyBuckets(before, mid, keys) && AppendedUnder(mid, after, keys, entry)
    ensures AppendedUnder(before, after, keys, entry)
  {
    forall key | key in after
      ensures after[key] == BucketAt(before, key) + (if key in keys then [entry] else [])
    {
      if key in mid {
        assert mid[key] == BucketAt(before, key);
      }
    }
  }

  /** Appending keeps every earlier entry where it was. */
  lemma AppendKeepsIndexed(before: map<BlockKey, Bucket>, after: map<BlockKey, Bucket>, keys: seq<BlockKey>,
                           entry: (string, nat), numBlocks: nat, id: string, v: nat)
    requires numBlocks >= 1
    requires AppendedUnder(before, after, keys, entry) && Indexed(before, numBlocks, id, v)
    ensures Indexed(after, numBlocks, id, v)
  {
    forall key | key in Fragments(v, numBlocks) ensures (id, v) in BucketAt(after, key) {
      assert (id, v) in BucketAt(before, key);
    }
  }

  /** Appending an entry under some keys adds at most its id to the ids of the index. */
  lemma AppendKeepsIds(storage: map<string, StoredText>, storage': map<string, StoredText>,
                       before: map<BlockKey, Bucket>, after: map<BlockKey, Bucket>, keys: seq<BlockKey>, entry: (string, nat))
    requires IdsStored(storage, before) && storage.Keys <= storage'.Keys && entry.0 in storage'
    requires AppendedUnder(before, after, keys, entry)
    ensures IdsStored(storage', after)
  {
    forall key | key in after ensures IdsOf(after[key]) <= storage'.Keys {
      var b := BucketAt(before, key);
      assert IdsOf(b) <= storage.Keys;
      if key in keys {
        IdsOfAppend(b, entry);
        assert after[key] == b + [entry];
      } else {
        assert after[key] == b + [];
        assert b + [] == b;
      }
    }
  }

  /** After the append, the entry is listed under each of its own keys. */
  lemma AppendIndexes(before: map<BlockKey, Bucket>, after: map<BlockKey, Bucket>, numBlocks: nat, id: string, v: nat)
    requires numBlocks >= 1 && AppendedUnder(before, after, Fragments(v, numBlocks), (id, v))
    ensures Indexed(after, numBlocks, id, v)
  {
    forall key | key in Fragments(v, numBlocks) ensures (id, v) in BucketAt(after, key) {
      assert after[key] == BucketAt(before, key) + [(id, v)];
    }
  }

  /** After storing `st` under `id` and appending it, every stored text is listed under its keys. */
  lemma StoreKeepsIndexed(storage: map<string, StoredText>, storage': map<string, StoredText>,
                          before: map<BlockKey, Bucket>, after: map<BlockKey, Bucket>, numBlocks: nat, id: string, st: StoredText)
    requires numBlocks >= 1 && storage' == storage[id := st] && st.simhash < Pow2(HashBits)
    requires AllIndexed(storage, before, numBlocks)
    requires AppendedUnder(before, after, Fragments(st.simhash, numBlocks), (id, st.simhash))
    ensures AllIndexed(storage', after, numBlocks)
  {
    AppendIndexes(before, after, numBlocks, id, st.simhash);
    forall x | x in storage' ensures storage'[x].simhash < Pow2(HashBits) && Indexed(after, numBlocks, x, storage'[x].simhash) {
      if x != id {
        AppendKeepsIndexed(before, after, Fragments(st.simhash, numBlocks), (id, st.simhash), numBlocks, x, storage[x].simhash);
      }
    }
  }

  /** Storing a text and appending it under its block keys keeps the invariant. */
  lemma StoreKeepsValid(storage: map<string, StoredText>, before: map<BlockKey, Bucket>, after: map<BlockKey, Bucket>,
                        numBlocks: nat, id: string, st: StoredText)
    requires ValidState(storage, before, numBlocks) && st.simhash < Pow2(HashBits)
    requires AppendedUnder(before, after, Fragments(st.simhash, numBlocks), (id, st.simhash))
    ensures ValidState(storage[id := st], after, numBlocks)
  {
    var storage' := storage[id := st];
    AppendKeepsIds(storage, storage', before, after, Fragments(st.simhash, numBlocks), (id, st.simhash));
    StoreKeepsIndexed(storage, storage', before, after, numBlocks, id, st);
  }

  /** A stored id is reported for fingerprint `v`: it is a candidate within the Hamming threshold. */
  predicate IsMatch(storage: map<string, StoredText>, index: map<BlockKey, Bucket>, numBlocks: nat, threshold: int, v: nat, c: string)
    requires numBlocks >= 1
  {
    && c in Candidates(index, Fragments(v, numBlocks))
    && c in storage
    && Distance(v, storage[c].simhash) <= threshold
  }

  /** A stored id whose fingerprint is fewer than `numBlocks` bits from `v`, and within the threshold, is always reported. */
  lemma MatchesComplete(storage: map<string, StoredText>, index: map<BlockKey, Bucket>, numBlocks: nat, threshold: int, v: nat, id: string)
    requires ValidState(storage, index, numBlocks) && v < Pow2(HashBits)
    requires id in storage
    requires Distance(v, storage[id].simhash) < numBlocks
    requires Distance(v, storage[id].simhash) <= threshold
    ensures IsMatch(storage, index, numBlocks, threshold, v, id)
  {
    var s := storage[id].simhash;
    assert s < Pow2(HashBits) && Indexed(index, numBlocks, id, s);
    BlockCompleteness(v, s, numBlocks);
    var i :| 0 <= i < numBlocks && Fragments(v, numBlocks)[i] == Fragments(s, numBlocks)[i];
    assert Indexed(index, numBlocks, id, s);
    assert (id, s) in BucketAt(index, Fragments(s, numBlocks)[i]);
    IdsOfMember(BucketAt(index, Fragments(s, numBlocks)[i]), (id, s));
    CandidatesInclude(index, Fragments(v, numBlocks), i, id);
  }

  /** The add_text result when the lookup finds nothing. */
  function NoMatch(v: nat): DuplicateResult {
    DuplicateResult(false, None, None, 1.0, 0, Hex16(v))
  }

  /** The add_text result naming `best` at distance `d`. */
  function MatchResult(best: string, d: nat, similarityThreshold: real, v: nat): DuplicateResult {
    DuplicateResult(Similarity(d) >= similarityThreshold, Some(best), Some("group_" + best), Similarity(d), d, Hex16(v))
  }

  /** What `_find_similar_texts` returns: every match once, each with its distance. */
  ghost predicate SimilarTo(storage: map<string, StoredText>, index: map<BlockKey, Bucket>, numBlocks: nat, threshold: int, v: nat,
                      similar: seq<(string, nat)>)
    requires numBlocks >= 1
  {
    && (forall x :: IsMatch(storage, index, numBlocks, threshold, v, x) <==> exists e :: e in similar && e.0 == x)
    && (forall e :: e in similar ==> e.0 in storage && e.1 == Distance(v, storage[e.0].simhash))
    && (forall i, j :: 0 <= i < j < |similar| ==> similar[i].0 != similar[j].0)
  }

  /**
   * What `add_text` reports for fingerprint `v`: no match at all, or a
   * match of least distance, a duplicate exactly when its similarity reaches
   * the threshold.
   */
  ghost predicate Reports(storage: map<string, StoredText>, index: map<BlockKey, Bucket>, numBlocks: nat, threshold: int,
                    similarityThreshold: real, v: nat, r: DuplicateResult)
    requires numBlocks >= 1
  {
    && r.simhashValue == Hex16(v)
    && ((forall c :: !IsMatch(storage, index, numBlocks, threshold, v, c)) <==> r == NoMatch(v))
    && (r.duplicateWith.None? ==> r == NoMatch(v))
    && (r.duplicateWith.Some? ==>
          && IsMatch(storage, index, numBlocks, threshold, v, r.duplicateWith.value)
          && r == MatchResult(r.duplicateWith.value, Distance(v, storage[r.duplicateWith.value].simhash), similarityThreshold, v)
          && (forall c :: IsMatch(storage, index, numBlocks, threshold, v, c) ==> r.hammingDistance <= Distance(v, storage[c].simhash)))
  }

  /** Taking the first entry of least distance, or reporting no match for an empty list, reports correctly. */
  lemma PickBest(storage: map<string, StoredText>, index: map<BlockKey, Bucket>, numBlocks: nat, threshold: int,
                 similarityThreshold: real, v: nat, similar: seq<(string, nat)>)
    requires numBlocks >= 1 && SimilarTo(storage, index, numBlocks, threshold, v, similar)
    ensures |similar| == 0 ==> Reports(storage, index, numBlocks, threshold, similarityThreshold, v, NoMatch(v))
    ensures |similar| > 0 ==>
      var best := similar[FirstMin(similar)];
      Reports(storage, index, numBlocks, threshold, similarityThreshold, v, MatchResult(best.0, best.1, similarityThreshold, v))
  {
    if |similar| > 0 {
      var best := similar[FirstMin(similar)];
      forall c | IsMatch(storage, index, numBlocks, threshold, v, c) ensures best.1 <= Distance(v, storage[c].simhash) {
        var e :| e in similar && e.0 == c;
      }
      assert IsMatch(storage, index, numBlocks, threshold, v, best.0);
    }
  }

  /**
   * The effect of one successful `add_text`: the text is stored under its id
   * with fingerprint `v`, indexed under each block key of `v`, and the result
   * reports against the storage and index before the call.
   */
  ghost predicate AddedText(storage: map<string, StoredText>, index: map<BlockKey, Bucket>,
                            storage': map<string, StoredText>, index': map<BlockKey, Bucket>,
                            numBlocks: nat, threshold: int, similarityThreshold: real,
                            textId: string, text: string, v: nat, time: Value, r: DuplicateResult)
    requires numBlocks >= 1
  {
    && storage' == storage[textId := StoredText(text, v, time)]
    && AppendedUnder(index, index', Fragments(v, numBlocks), (textId, v))
    && Reports(storage, index, numBlocks, threshold, similarityThreshold, v, r)
  }

  /** `for text_id, _ in bucket: candidates.add(text_id)`. */
  method AddIds(candidates: set<string>, bucket: Bucket) returns (r: set<string>)
    ensures r == candidates + IdsOf(bucket)
  {
    r := candidates;
    for j := 0 to |bucket|
      invariant r == candidates + IdsOf(bucket[..j])
    {
      assert bucket[..j + 1][..j] == bucket[..j];
      r := r + {bucket[j].0};
    }
    assert bucket[..|bucket|] == bucket;
  }

  class TextDeduplicator {
    const similarityThreshold: real
    const hammingThreshold: int
    const numBlocks: nat
    /** `list(jieba.cut(_))`. */
    const segment: string -> seq<string>
    /** `int(hashlib.md5(_.encode('utf-8')).hexdigest(), 16)`. */
    const hash: string -> nat

    var textStorage: map<string, StoredText>
    var simhashIndex: map<BlockKey, Bucket>

    /** With no blocks every `add_text` raises, so nothing is ever stored. */
    predicate Valid()
      reads this
    {
      if numBlocks == 0 then textStorage == map[] && simhashIndex == map[]
      else ValidState(textStorage, simhashIndex, numBlocks)
    }

    /** `TextDeduplicator(similarity_threshold, hamming_threshold, num_blocks)`. */
    constructor(similarityThreshold: real, hammingThreshold: int, numBlocks: nat,
                segment: string -> seq<string>, hash: string -> nat)
      ensures Valid()
      ensures this.similarityThreshold == similarityThreshold && this.hammingThreshold == hammingThreshold
      ensures this.numBlocks == numBlocks && this.segment == segment && this.hash == hash
      ensures textStorage == map[] && simhashIndex == map[]
    {
      this.similarityThreshold := similarityThreshold;
      this.hammingThreshold := hammingThreshold;
      this.numBlocks := numBlocks;
      this.segment := segment;
      this.hash := hash;
      textStorage := map[];
      simhashIndex := map[];
    }

    /** `_generate_fragments`. */
    method GenerateFragments(v: nat) returns (keys: seq<BlockKey>)
      requires numBlocks >= 1
      ensures keys == Fragments(v, numBlocks)
    {
      var bitsPerFragment := 64 / numBlocks;
      keys := [];
      for i := 0 to numBlocks
        invariant keys == Fragments(v, numBlocks)[..i]
      {
        var fragment := LowBits(Shr(v, i * bitsPerFragment), bitsPerFragment);
        keys := keys + [BlockKey(i, fragment)];
      }
    }

    /**
     * `_find_similar_texts`, in-memory branch.  Reading a missing key of the
     * defaultdict inserts an empty bucket.  The candidates form a set whose
     * iteration order Python does not fix, so the order of the result is left open.
     */
    method FindSimilarTexts(v: nat) returns (similar: seq<(string, nat)>)
      requires Valid() && numBlocks >= 1
      modifies this
      ensures Valid()
      ensures textStorage == old(textStorage)
      ensures WithEmptyBuckets(old(simhashIndex), simhashIndex, Fragments(v, numBlocks))
      ensures SimilarTo(textStorage, old(simhashIndex), numBlocks, hammingThreshold, v, similar)
    {
      var fragments := GenerateFragments(v);
      var candidates: set<string> := {};
      for f := 0 to |fragments|
        invariant textStorage == old(textStorage)
        invariant WithEmptyBuckets(old(simhashIndex), simhashIndex, fragments[..f])
        invariant candidates == Candidates(old(simhashIndex), fragments[..f])
      {
        var key := fragments[f];
        ReadBucket(old(simhashIndex), simhashIndex, fragments[..f], key);
        if key !in simhashIndex {
          simhashIndex := simhashIndex[key := []];
        }
        candidates := AddIds(candidates, simhashIndex[key]);
        KeysSnoc(fragments, f);
      }
      assert fragments[..|fragments|] == fragments;
      EmptyBucketsKeepValid(textStorage, old(simhashIndex), simhashIndex, numBlocks, fragments);
      similar := FilterCandidates(candidates, v);
    }

    /** The second loop of `_find_similar_texts`: keeps the stored candidates within the Hamming threshold, each with its distance. */
    method FilterCandidates(candidates: set<string>, v: nat) returns (similar: seq<(string, nat)>)
      ensures forall x :: (x in candidates && x in textStorage && Distance(v, textStorage[x].simhash) <= hammingThreshold)
                <==> exists e :: e in similar && e.0 == x
      ensures forall e :: e in similar ==> e.0 in textStorage && e.1 == Distance(v, textStorage[e.0].simhash)
      ensures forall i, j :: 0 <= i < j < |similar| ==> similar[i].0 != similar[j].0
    {
      similar := [];
      var remaining := candidates;
      while remaining != {}
        invariant remaining <= candidates
        invariant forall x :: (x in candidates && x !in remaining && x in textStorage && Distance(v, textStorage[x].simhash) <= hammingThreshold)
                    <==> exists e :: e in similar && e.0 == x
        invariant forall e :: e in similar ==> e.0 in textStorage && e.1 == Distance(v, textStorage[e.0].simhash) && e.0 !in remaining
        invariant forall i, j :: 0 <= i < j < |similar| ==> similar[i].0 != similar[j].0
        decreases remaining
      {
        var c :| c in remaining;
        remaining := remaining - {c};
        if c in textStorage {
          var d := Distance(v, textStorage[c].simhash);
          if d <= hammingThreshold {
            similar := similar + [(c, d)];
          }
        }
      }
    }

    /** `_update_index`, in-memory branch: `(text_id, v)` is appended to the bucket of each block key of `v`. */
    method UpdateIndex(textId: string, v: nat)
      requires numBlocks >= 1
      modifies this
      ensures textStorage == old(textStorage)
      ensures AppendedUnder(old(simhashIndex), simhashIndex, Fragments(v, numBlocks), (textId, v))
    {
      var fragments := GenerateFragments(v);
      forall i, j | 0 <= i < j < |fragments| ensures fragments[i] != fragments[j] {
        FragmentsBits(v, numBlocks, i, 0);
      }
      for f := 0 to |fragments|
        invariant textStorage == old(textStorage)
        invariant AppendedUnder(old(simhashIndex), simhashIndex, fragments[..f], (textId, v))
      {
        var key := fragments[f];
        assert key !in fragments[..f];
        AppendOne(old(simhashIndex), simhashIndex, fragments[..f], key, (textId, v));
        simhashIndex := simhashIndex[key := BucketAt(simhashIndex, key) + [(textId, v)]];
        KeysSnoc(fragments, f);
      }
      assert fragments[..|fragments|] == fragments;
    }

    /**
     * `add_text`: fingerprints the text, looks for matches among the texts
     * stored BEFORE this call, then stores the text under `textId` (replacing
     * an earlier one) and indexes it.  `now` stands for `datetime.now().isoformat()`.
     * A text that is not a string makes `re.sub` raise, and `64 // 0` raises
     * in `_generate_fragments`; both happen before anything is stored, and
     * `None` stands for the exception.
     */
    method AddText(textId: string, text: Value, publishTime: Value, now: string) returns (r: Option<DuplicateResult>)
      requires Valid()
      modifies this
      ensures Valid()
      ensures r.None? <==> !text.Str? || numBlocks == 0
      ensures r.None? ==> textStorage == old(textStorage) && simhashIndex == old(simhashIndex)
      ensures r.Some? ==>
        && AddedText(old(textStorage), old(simhashIndex), textStorage, simhashIndex, numBlocks, hammingThreshold,
                     similarityThreshold, textId, text.s, TextFingerprint(text.s, segment, hash),
                     if publishTime == Null then Str(now) else publishTime, r.value)
        && |r.value.simhashValue| == 16
    {
      var time := if publishTime == Null then Str(now) else publishTime;
      if !text.Str? {
        return None;
      }
      var v := ComputeSimHash(text.s, segment, hash);
      if numBlocks == 0 {
        return None;
      }
      var dup := StoreAndReport(textId, text.s, v, time);
      r := Some(dup);
    }

    /** The rest of `add_text` once the fingerprint `v` of `text` is known. */
    method StoreAndReport(textId: string, text: string, v: nat, time: Value) returns (r: DuplicateResult)
      requires Valid() && numBlocks >= 1 && v < Pow2(HashBits)
      modifies this
      ensures Valid()
      ensures AddedText(old(textStorage), old(simhashIndex), textStorage, simhashIndex, numBlocks, hammingThreshold,
                        similarityThreshold, textId, text, v, time, r)
      ensures |r.simhashValue| == 16
    {
      Hex16Length(v);
      ghost var index0 := simhashIndex;
      var similar := FindSimilarTexts(v);
      ghost var index1 := simhashIndex;
      textStorage := textStorage[textId := StoredText(text, v, time)];
      UpdateIndex(textId, v);
      EmptyThenAppend(index0, index1, simhashIndex, Fragments(v, numBlocks), (textId, v));
      StoreKeepsValid(old(textStorage), index0, simhashIndex, numBlocks, textId, StoredText(text, v, time));
      PickBest(old(textStorage), index0, numBlocks, hammingThreshold, similarityThreshold, v, similar);
      if |similar| > 0 {
        var (similarTextId, hammingDistance) := similar[FirstMin(similar)];
        r := MatchResult(similarTextId, hammingDistance, similarityThreshold, v);
      } else {
        r := NoMatch(v);
      }
    }

    /** `get_duplicate_info`. */
    function GetDuplicateInfo(textId: string): (info: Option<StoredText>)
      reads this
      ensures info.Some? <==> textId in textStorage
      ensures info.Some? ==> info.value == textStorage[textId]
    {
      if textId in textStorage then Some(textStorage[textId]) else None
    }

    /** `get_statistics`. */
    function GetStatistics(): (s: Statistics)
      reads this
      ensures s.totalTexts == |textStorage| && s.indexFragments == |simhashIndex|
      ensures s.hammingThreshold == hammingThreshold && s.similarityThreshold == similarityThreshold
      ensures !s.useRedis
    {
      Statistics(|textStorage|, |simhashIndex|, hammingThreshold, similarityThreshold, false)
    }
  }

  /** The config of `DuplicateDetectionManager`; a `None` field takes the default. */
  datatype DetectionConfig = DetectionConfig(
    similarityThreshold: Option<real>,
    hammingThreshold: Option<int>,
    numBlocks: Option<nat>)

  const DefaultSimilarityThreshold: real := 0.85
  const DefaultHammingThreshold: int := 4
  const DefaultNumBlocks: nat := 4

  /** The keys `detect_duplicates` adds to every record. */
  const AnnotationKeys: set<string> := {"duplicate_id", "duplication_rate", "hamming_distance", "simhash_value", "is_duplicate"}

  /** The annotation of a record with empty content: zero fingerprint, not a duplicate. */
  function EmptyAnnotation(): Record {
    map["duplicate_id" := Str("0000000000000000"), "duplication_rate" := Real(0.0),
        "hamming_distance" := Null, "simhash_value" := Str("0000000000000000"), "is_duplicate" := Bool(false)]
  }

  /** The annotation of a record whose content went through `add_text`; `duplicate_id` repeats the fingerprint. */
  function Annotation(r: DuplicateResult): Record {
    map["duplicate_id" := Str(r.simhashValue), "duplication_rate" := Real(r.similarity),
        "hamming_distance" := Int(r.hammingDistance), "simhash_value" := Str(r.simhashValue),
        "is_duplicate" := Bool(r.isDuplicate)]
  }

  /** `str(text_item.get('id', ''))`; a float, list or dict id is rendered as "" (see `Values.Show`). */
  function ItemId(item: Record): string {
    Show(Get(item, "id", Str("")))
  }

  /** `text_item.get('content', '')`. */
  function ItemContent(item: Record): Value {
    Get(item, "content", Str(""))
  }

  /** `text_item.get('publish_time', '')`, which `add_text` replaces by the current time when it is `None`. */
  function PublishTime(item: Record, now: string): Value {
    var t := Get(item, "publish_time", Str(""));
    if t == Null then Str(now) else t
  }

  /** `add_text` raises on this record: its content is truthy and not a string, or there are no blocks. */
  predicate Raises(item: Record, numBlocks: nat) {
    Truthy(ItemContent(item)) && (!ItemContent(item).Str? || numBlocks == 0)
  }

  /**
   * A result that carries the fingerprint `v`, a similarity that matches its
   * distance, and is a duplicate exactly when it names a match whose
   * similarity reaches the threshold.
   */
  predicate Consistent(r: DuplicateResult, v: nat, similarityThreshold: real) {
    && r.simhashValue == Hex16(v)
    && r.similarity == Similarity(r.hammingDistance)
    && (r.isDuplicate <==> r.duplicateWith.Some? && r.similarity >= similarityThreshold)
  }

  /** Whatever `add_text` reports is consistent, and names a stored text. */
  lemma ReportsConsistent(storage: map<string, StoredText>, index: map<BlockKey, Bucket>, numBlocks: nat, threshold: int,
                          similarityThreshold: real, v: nat, r: DuplicateResult)
    requires numBlocks >= 1 && Reports(storage, index, numBlocks, threshold, similarityThreshold, v, r)
    ensures Consistent(r, v, similarityThreshold)
    ensures r.duplicateWith.Some? ==> r.duplicateWith.value in storage
  {
    if r.duplicateWith.None? {
      assert r == NoMatch(v);
      assert Similarity(0) == 1.0;
    }
  }

  /** The output record for `item`, given what `add_text` returned for it (unused when the content is falsy). */
  function AnnotateRecord(item: Record, r: DuplicateResult): Record {
    if Truthy(ItemContent(item)) then item + Annotation(r) else item + EmptyAnnotation()
  }

  /** The annotation adds its five keys, overwriting those, and keeps every other field of the record. */
  lemma AnnotateRecordFields(item: Record, r: DuplicateResult)
    ensures AnnotateRecord(item, r).Keys == item.Keys + AnnotationKeys
    ensures forall key :: key in item && key !in AnnotationKeys ==> AnnotateRecord(item, r)[key] == item[key]
    ensures !Truthy(ItemContent(item)) ==> AnnotateRecord(item, r)["is_duplicate"] == Bool(false)
    ensures Truthy(ItemContent(item)) ==>
      && AnnotateRecord(item, r)["simhash_value"] == Str(r.simhashValue)
      && AnnotateRecord(item, r)["is_duplicate"] == Bool(r.isDuplicate)
      && AnnotateRecord(item, r)["duplication_rate"] == Real(r.similarity)
      && AnnotateRecord(item, r)["hamming_distance"] == Int(r.hammingDistance)
  {
  }

  /** The output records for `texts`: record `i` annotated with outcome `i`, in input order. */
  function AnnotateAll(texts: seq<Record>, outcomes: seq<DuplicateResult>): (results: seq<Record>)
    requires |texts| == |outcomes|
  {
    seq(|texts|, i requires 0 <= i < |texts| => AnnotateRecord(texts[i], outcomes[i]))
  }

  /** The fingerprint `add_text` computes for a text. */
  function FingerprintOf(segment: string -> seq<string>, hash: string -> nat): string -> nat {
    text => TextFingerprint(text, segment, hash)
  }

  /** What `add_text` returned for `item` is consistent with the fingerprint of its content. */
  ghost predicate OutcomeOk(item: Record, r: DuplicateResult, fingerprint: string -> nat, similarityThreshold: real) {
    Truthy(ItemContent(item)) ==>
      && ItemContent(item).Str?
      && Consistent(r, fingerprint(ItemContent(item).s), similarityThreshold)
  }

  /** Every outcome is right for its record. */
  ghost predicate OutcomesOk(texts: seq<Record>, outcomes: seq<DuplicateResult>, fingerprint: string -> nat, similarityThreshold: real)
    requires |texts| == |outcomes|
  {
    forall i :: 0 <= i < |texts| ==> OutcomeOk(texts[i], outcomes[i], fingerprint, similarityThreshold)
  }

  /** One more record appends its annotation to the output. */
  lemma AnnotateSnoc(texts: seq<Record>, n: nat, outcomes: seq<DuplicateResult>, outcome: DuplicateResult)
    requires n < |texts| && |outcomes| == n
    ensures AnnotateAll(texts[..n + 1], outcomes + [outcome]) == AnnotateAll(texts[..n], outcomes) + [AnnotateRecord(texts[n], outcome)]
  {
    var t, o := texts[..n + 1], outcomes + [outcome];
    assert t[..n] == texts[..n] && o[..n] == outcomes;
    assert t[n] == texts[n] && o[n] == outcome;
  }

  /** One more right outcome keeps every outcome right. */
  lemma OutcomesSnoc(texts: seq<Record>, n: nat, outcomes: seq<DuplicateResult>, outcome: DuplicateResult,
                     fingerprint: string -> nat, similarityThreshold: real)
    requires n < |texts| && |outcomes| == n
    requires OutcomesOk(texts[..n], outcomes, fingerprint, similarityThreshold)
    requires OutcomeOk(texts[n], outcome, fingerprint, similarityThreshold)
    ensures OutcomesOk(texts[..n + 1], outcomes + [outcome], fingerprint, similarityThreshold)
  {
    var t, o := texts[..n + 1], outcomes + [outcome];
    forall i | 0 <= i < n + 1 ensures OutcomeOk(t[i], o[i], fingerprint, similarityThreshold) {
      if i < n {
        assert t[i] == texts[..n][i] && o[i] == outcomes[i];
      }
    }
  }

  /** The deduplicator's storage and index at one point of a batch. */
  datatype Snapshot = Snapshot(storage: map<string, StoredText>, index: map<BlockKey, Bucket>)

  /**
   * One pass of the loop of `detect_duplicates` from `s0` to `s1`: falsy
   * content changes nothing, any other goes through `add_text` under
   * `str(id)` and `outcome` is its report.
   */
  ghost predicate StepOk(item: Record, now: string, numBlocks: nat, threshold: int, similarityThreshold: real,
                         fingerprint: string -> nat, s0: Snapshot, s1: Snapshot, outcome: DuplicateResult)
  {
    if !Truthy(ItemContent(item)) then s1 == s0
    else
      && numBlocks >= 1 && ItemContent(item).Str?
      && AddedText(s0.storage, s0.index, s1.storage, s1.index, numBlocks, threshold, similarityThreshold,
                   ItemId(item), ItemContent(item).s, fingerprint(ItemContent(item).s), PublishTime(item, now), outcome)
  }

  /**
   * The first `|outcomes|` records went through the loop one after the
   * other: record `i` took the deduplicator from `states[i]` to
   * `states[i + 1]`, reporting `outcomes[i]`.
   */
  ghost predicate ChainOk(texts: seq<Record>, now: string, numBlocks: nat, threshold: int, similarityThreshold: real,
                          fingerprint: string -> nat, outcomes: seq<DuplicateResult>, states: seq<Snapshot>)
  {
    && |outcomes| <= |texts| && |states| == |outcomes| + 1
    && forall i :: 0 <= i < |outcomes| ==>
         StepOk(texts[i], now, numBlocks, threshold, similarityThreshold, fingerprint, states[i], states[i + 1], outcomes[i])
  }

  /** One more step extends the chain. */
  lemma ChainSnoc(texts: seq<Record>, now: string, numBlocks: nat, threshold: int, similarityThreshold: real,
                  fingerprint: string -> nat, outcomes: seq<DuplicateResult>, states: seq<Snapshot>,
                  outcome: DuplicateResult, s1: Snapshot)
    requires ChainOk(texts, now, numBlocks, threshold, similarityThreshold, fingerprint, outcomes, states)
    requires |outcomes| < |texts|
    requires StepOk(texts[|outcomes|], now, numBlocks, threshold, similarityThreshold, fingerprint, states[|outcomes|], s1, outcome)
    ensures ChainOk(texts, now, numBlocks, threshold, similarityThreshold, fingerprint, outcomes + [outcome], states + [s1])
  {
    var o, st := outcomes + [outcome], states + [s1];
    forall i | 0 <= i < |o|
      ensures StepOk(texts[i], now, numBlocks, threshold, similarityThreshold, fingerprint, st[i], st[i + 1], o[i])
    {
      if i < |outcomes| {
        assert st[i] == states[i] && st[i + 1] == states[i + 1];
      }
    }
  }

  /** The id a record adds to the storage: its own when its content is truthy, none otherwise. */
  function NewIds(item: Record): set<string> {
    if Truthy(ItemContent(item)) then {ItemId(item)} else {}
  }

  /** The ids of the records with truthy content among the first `k`. */
  function AddedIds(texts: seq<Record>, k: nat): set<string>
    requires k <= |texts|
  {
    set j | 0 <= j < k && Truthy(ItemContent(texts[j])) :: ItemId(texts[j])
  }

  /** Adding `x` to both sides of `k1 == k0 + a1` keeps them equal. */
  lemma UnionSteps<T>(k0: set<T>, k1: set<T>, k2: set<T>, a1: set<T>, a2: set<T>, x: set<T>)
    requires k1 == k0 + a1 && k2 == k1 + x && a2 == a1 + x
    ensures k2 == k0 + a2
  {
  }

  /** The ids added by the first `k` records are those of the first `k - 1` and the `k`-th one's, if its content is truthy. */
  lemma AddedIdsSnoc(texts: seq<Record>, k: nat)
    requires 0 < k <= |texts|
    ensures AddedIds(texts, k) == AddedIds(texts, k - 1) + NewIds(texts[k - 1])
  {
  }

  /** One step adds the record's id to the stored ids when its content is truthy, and nothing else. */
  lemma StepKeys(item: Record, now: string, numBlocks: nat, threshold: int, similarityThreshold: real,
                 fingerprint: string -> nat, s0: Snapshot, s1: Snapshot, outcome: DuplicateResult)
    requires StepOk(item, now, numBlocks, threshold, similarityThreshold, fingerprint, s0, s1, outcome)
    ensures s1.storage.Keys == s0.storage.Keys + NewIds(item)
  {
  }

  /** Record `i` adds its id to the stored ids when its content is truthy, and nothing else. */
  ghost predicate KeysGrow(texts: seq<Record>, states: seq<Snapshot>)
  {
    && |states| <= |texts| + 1
    && forall i :: 0 <= i < |states| - 1 ==>
         states[i + 1].storage.Keys == states[i].storage.Keys + NewIds(texts[i])
  }

  /** Along a chain the stored ids grow record by record. */
  lemma ChainKeysGrow(texts: seq<Record>, now: string, numBlocks: nat, threshold: int, similarityThreshold: real,
                      fingerprint: string -> nat, outcomes: seq<DuplicateResult>, states: seq<Snapshot>)
    requires ChainOk(texts, now, numBlocks, threshold, similarityThreshold, fingerprint, outcomes, states)
    ensures KeysGrow(texts, states)
  {
    forall i | 0 <= i < |states| - 1
      ensures states[i + 1].storage.Keys == states[i].storage.Keys + NewIds(texts[i])
    {
      StepKeys(texts[i], now, numBlocks, threshold, similarityThreshold, fingerprint, states[i], states[i + 1], outcomes[i]);
    }
  }

  /**
   * After `k` records the storage holds what it held before plus the id of
   * every record with truthy content among them, and nothing else.
   */
  lemma {:induction false} ChainStores(texts: seq<Record>, states: seq<Snapshot>, k: nat)
    requires KeysGrow(texts, states) && k < |states|
    ensures states[k].storage.Keys == states[0].storage.Keys + AddedIds(texts, k)
  {
    if k > 0 {
      ChainStores(texts, states, k - 1);
      AddedIdsSnoc(texts, k);
      UnionSteps(states[0].storage.Keys, states[k - 1].storage.Keys, states[k].storage.Keys, AddedIds(texts, k - 1), AddedIds(texts, k),
                 NewIds(texts[k - 1]));
    }
  }

  /**
   * A record reported as matching names a text that was stored before the
   * batch or an earlier record of the batch with truthy content, and the
   * report is consistent with the record's fingerprint.
   */
  lemma MatchIsEarlier(texts: seq<Record>, now: string, numBlocks: nat, threshold: int, similarityThreshold: real,
                       fingerprint: string -> nat, outcomes: seq<DuplicateResult>, states: seq<Snapshot>, i: nat)
    requires ChainOk(texts, now, numBlocks, threshold, similarityThreshold, fingerprint, outcomes, states)
    requires i < |outcomes| && Truthy(ItemContent(texts[i]))
    ensures OutcomeOk(texts[i], outcomes[i], fingerprint, similarityThreshold)
    ensures outcomes[i].duplicateWith.Some? ==>
      outcomes[i].duplicateWith.value in states[0].storage ||
      exists j :: 0 <= j < i && Truthy(ItemContent(texts[j])) && ItemId(texts[j]) == outcomes[i].duplicateWith.value
  {
    assert StepOk(texts[i], now, numBlocks, threshold, similarityThreshold, fingerprint, states[i], states[i + 1], outcomes[i]);
    ReportsConsistent(states[i].storage, states[i].index, numBlocks, threshold, similarityThreshold,
                      fingerprint(ItemContent(texts[i]).s), outcomes[i]);
    ChainKeysGrow(texts, now, numBlocks, threshold, similarityThreshold, fingerprint, outcomes, states);
    ChainStores(texts, states, i);
  }

  /** No record of the chain raises. */
  lemma ChainNoRaise(texts: seq<Record>, now: string, numBlocks: nat, threshold: int, similarityThreshold: real,
                     fingerprint: string -> nat, outcomes: seq<DuplicateResult>, states: seq<Snapshot>)
    requires ChainOk(texts, now, numBlocks, threshold, similarityThreshold, fingerprint, outcomes, states)
    ensures forall i :: 0 <= i < |outcomes| ==> !Raises(texts[i], numBlocks)
  {
    forall i | 0 <= i < |outcomes| ensures !Raises(texts[i], numBlocks) {
      assert StepOk(texts[i], now, numBlocks, threshold, similarityThreshold, fingerprint, states[i], states[i + 1], outcomes[i]);
    }
  }

  /** One more step extends the chain, the annotations and the consistency of the outcomes. */
  lemma StepExtends(texts: seq<Record>, now: string, numBlocks: nat, threshold: int, similarityThreshold: real,
                    fingerprint: string -> nat, outcomes: seq<DuplicateResult>, states: seq<Snapshot>,
                    outcome: DuplicateResult, s1: Snapshot)
    requires ChainOk(texts, now, numBlocks, threshold, similarityThreshold, fingerprint, outcomes, states)
    requires |outcomes| < |texts|
    requires StepOk(texts[|outcomes|], now, numBlocks, threshold, similarityThreshold, fingerprint, states[|outcomes|], s1, outcome)
    requires OutcomesOk(texts[..|outcomes|], outcomes, fingerprint, similarityThreshold)
    ensures ChainOk(texts, now, numBlocks, threshold, similarityThreshold, fingerprint, outcomes + [outcome], states + [s1])
    ensures OutcomesOk(texts[..|outcomes| + 1], outcomes + [outcome], fingerprint, similarityThreshold)
    ensures AnnotateAll(texts[..|outcomes| + 1], outcomes + [outcome])
         == AnnotateAll(texts[..|outcomes|], outcomes) + [AnnotateRecord(texts[|outcomes|], outcome)]
  {
    var n := |outcomes|;
    ChainSnoc(texts, now, numBlocks, threshold, similarityThreshold, fingerprint, outcomes, states, outcome, s1);
    if Truthy(ItemContent(texts[n])) {
      MatchIsEarlier(texts, now, numBlocks, threshold, similarityThreshold, fingerprint, outcomes + [outcome], states + [s1], n);
    }
    AnnotateSnoc(texts, n, outcomes, outcome);
    OutcomesSnoc(texts, n, outcomes, outcome, fingerprint, similarityThreshold);
  }

  class DuplicateDetectionManager {
    const deduplicator: TextDeduplicator

    /** `{**default_config, **config}` handed to `TextDeduplicator`. */
    constructor(config: DetectionConfig, segment: string -> seq<string>, hash: string -> nat)
      ensures fresh(deduplicator) && deduplicator.Valid()
      ensures deduplicator.similarityThreshold == config.similarityThreshold.GetOr(DefaultSimilarityThreshold)
      ensures deduplicator.hammingThreshold == config.hammingThreshold.GetOr(DefaultHammingThreshold)
      ensures deduplicator.numBlocks == config.numBlocks.GetOr(DefaultNumBlocks)
      ensures deduplicator.segment == segment && deduplicator.hash == hash
      ensures deduplicator.textStorage == map[] && deduplicator.simhashIndex == map[]
    {
      deduplicator := new TextDeduplicator(config.similarityThreshold.GetOr(DefaultSimilarityThreshold),
                                           config.hammingThreshold.GetOr(DefaultHammingThreshold),
                                           config.numBlocks.GetOr(DefaultNumBlocks), segment, hash);
    }

    /** The deduplicator's storage and index now. */
    function State(): Snapshot
      reads this, deduplicator
    {
      Snapshot(deduplicator.textStorage, deduplicator.simhashIndex)
    }

    /**
     * The body of the loop of `detect_duplicates`: a record with falsy content
     * gets the empty annotation and leaves the deduplicator alone; any other
     * goes through `add_text` under `str(id)`, and `None` stands for the
     * exception `add_text` raises.
     */
    method AnnotateOne(item: Record, now: string) returns (result: Option<Record>, ghost outcome: DuplicateResult)
      requires deduplicator.Valid()
      modifies deduplicator
      ensures deduplicator.Valid()
      ensures result.None? <==> Raises(item, deduplicator.numBlocks)
      ensures result.None? ==> State() == old(State())
      ensures result.Some? ==>
        && result.value == AnnotateRecord(item, outcome)
        && StepOk(item, now, deduplicator.numBlocks, deduplicator.hammingThreshold, deduplicator.similarityThreshold,
                  FingerprintOf(deduplicator.segment, deduplicator.hash), old(State()), State(), outcome)
    {
      var textId := ItemId(item);
      var content := ItemContent(item);
      var publishTime := Get(item, "publish_time", Str(""));
      if !Truthy(content) {
        outcome := NoMatch(0);
        result := Some(AnnotateRecord(item, NoMatch(0)));
      } else {
        var dup := deduplicator.AddText(textId, content, publishTime, now);
        if dup.None? {
          outcome := NoMatch(0);
          result := None;
        } else {
          outcome := dup.value;
          result := Some(AnnotateRecord(item, dup.value));
        }
      }
    }

    /**
     * `detect_duplicates`: annotates the records in input order, each checked
     * against the texts stored before it.  `outcomes[i]` is what `add_text`
     * returned for record `i`, and `states[i]` is the deduplicator's storage
     * and index before record `i`.  When a record raises, the records before
     * it stay stored and `None` stands for the exception.
     */
    method DetectDuplicates(texts: seq<Record>, now: string)
      returns (results: Option<seq<Record>>, ghost outcomes: seq<DuplicateResult>, ghost states: seq<Snapshot>)
      requires deduplicator.Valid()
      modifies deduplicator
      ensures deduplicator.Valid()
      ensures results.None? <==> exists i :: 0 <= i < |texts| && Raises(texts[i], deduplicator.numBlocks)
      ensures ChainOk(texts, now, deduplicator.numBlocks, deduplicator.hammingThreshold, deduplicator.similarityThreshold,
                      FingerprintOf(deduplicator.segment, deduplicator.hash), outcomes, states)
      ensures states[0] == old(State()) && states[|outcomes|] == State()
      ensures results.Some? ==> |outcomes| == |texts| && results.value == AnnotateAll(texts, outcomes)
      ensures results.Some? ==> OutcomesOk(texts, outcomes, FingerprintOf(deduplicator.segment, deduplicator.hash), deduplicator.similarityThreshold)
      ensures results.None? ==> |outcomes| < |texts| && Raises(texts[|outcomes|], deduplicator.numBlocks)
    {
      ghost var fp, nb, ht, st := FingerprintOf(deduplicator.segment, deduplicator.hash), deduplicator.numBlocks,
                                  deduplicator.hammingThreshold, deduplicator.similarityThreshold;
      var done := [];
      outcomes, states := [], [State()];
      for n := 0 to |texts|
        invariant deduplicator.Valid()
        invariant |outcomes| == n && done == AnnotateAll(texts[..n], outcomes)
        invariant ChainOk(texts, now, nb, ht, st, fp, outcomes, states)
        invariant states[0] == old(State()) && states[n] == State()
        invariant OutcomesOk(texts[..n], outcomes, fp, st)
      {
        var result, outcome := AnnotateOne(texts[n], now);
        if result.None? {
          ChainNoRaise(texts, now, nb, ht, st, fp, outcomes, states);
          return None, outcomes, states;
        }
        StepExtends(texts, now, nb, ht, st, fp, outcomes, states, outcome, State());
        done := done + [result.value];
        outcomes := outcomes + [outcome];
        states := states + [State()];
      }
      assert texts[..|texts|] == texts;
      ChainNoRaise(texts, now, nb, ht, st, fp, outcomes, states);
      results := Some(done);
    }
  }
}
