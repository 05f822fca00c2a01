/**
 * The `SimHash` class of text_deduplicator.py: text cleaning and token
 * filtering, window shingles counted like a `Counter`, and the 64-bit
 * fingerprint in which bit i is the sign of a weighted vote of the feature
 * hashes' bit i.  Word segmentation (jieba) and the MD5 feature hash are
 * parameters, since they are library code.
 */
module SimHash {
  import opened PyText
  import opened Bits

  /** `hash_bits`. */
  const HashBits: nat := 64
  /** `window_size` as passed by `generate_simhash`. */
  const WindowSize: nat := 6

  /** A feature and its count, in the order a `Counter` first saw the feature. */
  type Features = seq<(string, int)>

  // ---------------------------------------------------------------- _tokenize

  /** Characters the second clean-up regex keeps: CJK U+4E00..U+9FA5, ASCII letters and digits, whitespace. */
  predicate KeptChar(c: char) {
    ('\U{4E00}' <= c <= '\U{9FA5}') || ('a' <= c <= 'z') || ('A' <= c <= 'Z') || ('0' <= c <= '9') || IsSpace(c)
  }

  /** `re.sub(r'[^一-龥a-zA-Z0-9\s]', ' ', s)`. */
  function BlankOthers(s: string): (r: string)
    ensures |r| == |s|
    ensures forall k :: 0 <= k < |r| ==> KeptChar(r[k])
    ensures forall k :: 0 <= k < |s| ==> r[k] == if KeptChar(s[k]) then s[k] else ' '
  {
    seq(|s|, k requires 0 <= k < |s| => if KeptChar(s[k]) then s[k] else ' ')
  }

  /** The text handed to the segmenter: tags removed, other characters blanked, whitespace collapsed and stripped. */
  function CleanText(text: string): (r: string)
    ensures r == [] || (!IsSpace(r[0]) && !IsSpace(r[|r| - 1]))
  {
    Strip(CollapseSpaces(BlankOthers(StripTags(text))))
  }

  const Stopwords: set<string> := {
    "的", "了", "在", "是", "我", "有", "和", "就", "不", "人", "都", "一", "一个", "上",
    "也", "很", "到", "说", "要", "去", "你", "会", "着", "没有", "看", "好", "自己", "这"
  }

  /** A token the filter keeps, once stripped. */
  predicate Kept(t: string) {
    |t| > 1 && t !in Stopwords
  }

  /** What the filter makes of one token: its stripped form, or nothing. */
  function KeepToken(token: string): (r: seq<string>)
    ensures |r| <= 1
  {
    var t := Strip(token);
    if Kept(t) then [t] else []
  }

  /** `[t.strip() for t in tokens if len(t.strip()) > 1 and t.strip() not in stopwords]`. */
  function FilterTokens(tokens: seq<string>): (r: seq<string>)
    ensures |r| <= |tokens|
  {
    if |tokens| == 0 then [] else FilterTokens(tokens[..|tokens| - 1]) + KeepToken(tokens[|tokens| - 1])
  }

  /** A kept token is longer than one character, is not a stop-word and has no surrounding whitespace. */
  lemma {:induction false} FilterTokensKept(tokens: seq<string>)
    ensures forall k :: 0 <= k < |FilterTokens(tokens)| ==> Stripped(FilterTokens(tokens)[k]) && Kept(FilterTokens(tokens)[k])
  {
    if |tokens| > 0 {
      var init := tokens[..|tokens| - 1];
      FilterTokensKept(init);
      var p, last := FilterTokens(init), KeepToken(tokens[|tokens| - 1]);
      assert FilterTokens(tokens) == p + last;
      forall k | 0 <= k < |p + last| ensures Stripped((p + last)[k]) && Kept((p + last)[k]) {
        if k < |p| {
          assert (p + last)[k] == p[k];
        } else {
          assert (p + last)[k] == last[0] == Strip(tokens[|tokens| - 1]);
        }
      }
    }
  }

  /** Neither end of `t` is whitespace. */
  predicate Stripped(t: string) {
    t == [] || (!IsSpace(t[0]) && !IsSpace(t[|t| - 1]))
  }

  /** The filter works token by token, in order: filtering two lists one after the other is filtering their concatenation. */
  lemma {:induction false} FilterTokensConcat(xs: seq<string>, ys: seq<string>)
    ensures FilterTokens(xs + ys) == FilterTokens(xs) + FilterTokens(ys)
    decreases |ys|
  {
    if |ys| == 0 {
      assert xs + ys == xs;
    } else {
      var n := |ys| - 1;
      assert (xs + ys)[..|xs + ys| - 1] == xs + ys[..n];
      FilterTokensConcat(xs, ys[..n]);
    }
  }

  /** `_tokenize`, with `segment` standing for `list(jieba.cut(_))`. */
  function Tokenize(text: string, segment: string -> seq<string>): seq<string> {
    FilterTokens(segment(CleanText(text)))
  }

  // ------------------------------------------------------- _generate_features

  /** `range(len(tokens) - w + 1)` has this many elements. */
  function WindowCount(n: nat, w: nat): nat {
    if n < w then 0 else n - w + 1
  }

  /** `''.join(tokens[i:i + w])` for every window start `i`. */
  function Windows(tokens: seq<string>, w: nat): (r: seq<string>)
    ensures |r| == WindowCount(|tokens|, w)
  {
    seq(WindowCount(|tokens|, w), i requires 0 <= i < WindowCount(|tokens|, w) => Join("", tokens[i..i + w]))
  }

  /** Every feature occurrence the generator counts, in the order it counts them. */
  function Shingles(tokens: seq<string>, w: nat): (r: seq<string>)
    ensures |tokens| >= w ==> |r| == |tokens| - w + 1
    ensures |tokens| < w ==> r == tokens
    ensures forall i :: 0 <= i < WindowCount(|tokens|, w) ==> r[i] == Join("", tokens[i..i + w])
  {
    Windows(tokens, w) + (if |tokens| < w then tokens else [])
  }

  /** `counter[x] += 1`: the count of `x` grows by one, a new key goes last. */
  function Bump(t: Features, x: string): (r: Features)
    ensures |r| == |t| || |r| == |t| + 1
  {
    if |t| == 0 then [(x, 1)]
    else if t[0].0 == x then [(x, t[0].1 + 1)] + t[1..]
    else [t[0]] + Bump(t[1..], x)
  }

  /** The `Counter` of a sequence of features, in first-seen order. */
  function Tally(xs: seq<string>): Features {
    if |xs| == 0 then [] else Bump(Tally(xs[..|xs| - 1]), xs[|xs| - 1])
  }

  /** The total count stored under key `x`. */
  function CountOf(t: Features, x: string): int {
    if |t| == 0 then 0 else (if t[0].0 == x then t[0].1 else 0) + CountOf(t[1..], x)
  }

  /** The sum of all counts. */
  function Total(t: Features): int {
    if |t| == 0 then 0 else t[0].1 + Total(t[1..])
  }

  predicate DistinctKeys(t: Features) {
    forall i, j :: 0 <= i < j < |t| ==> t[i].0 != t[j].0
  }

  /** Bumping keeps keys distinct, adds one to `x` and leaves every other count alone. */
  lemma {:induction false} BumpFacts(t: Features, x: string)
    requires DistinctKeys(t)
    ensures DistinctKeys(Bump(t, x))
    ensures forall y :: CountOf(Bump(t, x), y) == CountOf(t, y) + (if y == x then 1 else 0)
    ensures Total(Bump(t, x)) == Total(t) + 1
    ensures forall k :: 0 <= k < |Bump(t, x)| ==> (exists j :: 0 <= j < |t| && t[j].0 == Bump(t, x)[k].0) || Bump(t, x)[k].0 == x
  {
    if |t| > 0 && t[0].0 != x {
      BumpFacts(t[1..], x);
      BumpPast(t, x);
    } else if |t| > 0 {
      forall y ensures CountOf(Bump(t, x), y) == CountOf(t, y) + (if y == x then 1 else 0) {
        assert Bump(t, x)[1..] == t[1..];
      }
    }
  }

  /** Bumping past a first entry with another key keeps the keys distinct and introduces no key but `x`. */
  lemma BumpPast(t: Features, x: string)
    requires DistinctKeys(t) && |t| > 0 && t[0].0 != x
    requires DistinctKeys(Bump(t[1..], x))
    requires forall k :: 0 <= k < |Bump(t[1..], x)| ==>
      (exists j :: 0 <= j < |t[1..]| && t[1..][j].0 == Bump(t[1..], x)[k].0) || Bump(t[1..], x)[k].0 == x
    ensures DistinctKeys(Bump(t, x))
    ensures forall k :: 0 <= k < |Bump(t, x)| ==> (exists j :: 0 <= j < |t| && t[j].0 == Bump(t, x)[k].0) || Bump(t, x)[k].0 == x
  {
    var r := Bump(t, x);
    forall k | 1 <= k < |r|
      ensures (exists j :: 0 <= j < |t| && t[j].0 == r[k].0) || r[k].0 == x
    {
      if exists j :: 0 <= j < |t[1..]| && t[1..][j].0 == r[k].0 {
        var j :| 0 <= j < |t[1..]| && t[1..][j].0 == r[k].0;
        assert t[j + 1].0 == r[k].0;
      }
    }
    forall i, j | 0 <= i < j < |r| ensures r[i].0 != r[j].0 {
      if i == 0 {
        var y := r[j].0;
        if y != x {
          var m :| 0 <= m < |t[1..]| && t[1..][m].0 == y;
          assert t[m + 1].0 == y;
        }
      }
    }
  }

  /** The `Counter` has one entry per distinct feature holding its number of occurrences, and its counts add up to the number of occurrences. */
  lemma {:induction false} TallyCounts(xs: seq<string>)
    ensures DistinctKeys(Tally(xs))
    ensures forall y :: CountOf(Tally(xs), y) == multiset(xs)[y]
    ensures Total(Tally(xs)) == |xs|
    ensures forall k :: 0 <= k < |Tally(xs)| ==> Tally(xs)[k].0 in xs
  {
    if |xs| > 0 {
      var init, x := xs[..|xs| - 1], xs[|xs| - 1];
      assert xs == init + [x];
      TallyCounts(init);
      BumpFacts(Tally(init), x);
      var r := Tally(xs);
      forall k | 0 <= k < |r| ensures r[k].0 in xs {
        if r[k].0 != x {
          var j :| 0 <= j < |Tally(init)| && Tally(init)[j].0 == r[k].0;
          assert Tally(init)[j].0 in init;
        }
      }
    }
  }

  /** `_generate_features`: counts every window of `w` tokens, or every token when there are fewer than `w`. */
  method GenerateFeatures(tokens: seq<string>, w: nat) returns (features: Features)
    ensures features == Tally(Shingles(tokens, w))
  {
    features := CountWindows(tokens, w);
    if |tokens| < w {
      assert features == [];
      features := CountTokens(tokens);
      assert Shingles(tokens, w) == tokens;
    } else {
      assert Shingles(tokens, w) == Windows(tokens, w);
    }
  }

  /** The first loop of `_generate_features`: one count per window of `w` tokens. */
  method CountWindows(tokens: seq<string>, w: nat) returns (features: Features)
    ensures features == Tally(Windows(tokens, w))
  {
    ghost var windows := Windows(tokens, w);
    features := [];
    for i := 0 to WindowCount(|tokens|, w)
      invariant features == Tally(windows[..i])
    {
      assert windows[..i + 1][..i] == windows[..i];
      features := Bump(features, Join("", tokens[i..i + w]));
    }
    assert windows[..|windows|] == windows;
  }

  /** The fallback loop of `_generate_features`: one count per token. */
  method CountTokens(tokens: seq<string>) returns (features: Features)
    ensures features == Tally(tokens)
  {
    features := [];
    for j := 0 to |tokens|
      invariant features == Tally(tokens[..j])
    {
      assert tokens[..j + 1][..j] == tokens[..j];
      features := Bump(features, tokens[j]);
    }
    assert tokens[..|tokens|] == tokens;
  }

  // ------------------------------------------------------- _calculate_simhash

  /** What a feature with hash `h` and count `c` adds to the vote on bit `i`. */
  function Contribution(h: nat, c: int, i: nat): int {
    if Bit(h, i) then c else -c
  }

  /** The signed vote on bit `i` after visiting `features` in order. */
  function Weight(features: Features, hash: string -> nat, i: nat): int {
    if |features| == 0 then 0
    else
      var last := features[|features| - 1];
      Weight(features[..|features| - 1], hash, i) + Contribution(hash(last.0), last.1, i)
  }

  /** The 64 votes. */
  function Votes(features: Features, hash: string -> nat): (ws: seq<int>)
    ensures |ws| == HashBits
  {
    seq(HashBits, i requires 0 <= i < HashBits => Weight(features, hash, i))
  }

  /** The value whose bit `i` is set for every strictly positive vote `ws[i]`. */
  function FromVotes(ws: seq<int>): nat {
    if |ws| == 0 then 0
    else FromVotes(ws[..|ws| - 1]) + (if ws[|ws| - 1] > 0 then Pow2(|ws| - 1) else 0)
  }

  /** The SimHash value of a feature table. */
  function Fingerprint(features: Features, hash: string -> nat): nat {
    FromVotes(Votes(features, hash))
  }

  /** `_calculate_simhash` from the feature table on: sums the votes in a weights list, then sets the bits of the positive ones. */
  method CalculateSimHash(features: Features, hash: string -> nat) returns (value: nat)
    ensures value == Fingerprint(features, hash)
  {
    var weights := new int[HashBits](_ => 0);
    for k := 0 to |features|
      invariant forall j :: 0 <= j < HashBits ==> weights[j] == Weight(features[..k], hash, j)
    {
      assert features[..k + 1][..k] == features[..k];
      var (feature, count) := features[k];
      var featureInt := hash(feature);
      for i := 0 to HashBits
        invariant forall j :: 0 <= j < i ==> weights[j] == Weight(features[..k + 1], hash, j)
        invariant forall j :: i <= j < HashBits ==> weights[j] == Weight(features[..k], hash, j)
      {
        if Bit(featureInt, i) {
          weights[i] := weights[i] + count;
        } else {
          weights[i] := weights[i] - count;
        }
      }
    }
    assert features[..|features|] == features;
    value := 0;
    for i := 0 to HashBits
      invariant value == FromVotes(weights[..i])
    {
      // bit i of `value` is still clear here, so `value |= 1 << i` adds 2^i
      assert weights[..i + 1][..i] == weights[..i];
      if weights[i] > 0 {
        value := value + Pow2(i);
      }
    }
    assert weights[..HashBits] == Votes(features, hash);
  }

  /** The lowest vote gives the lowest bit; the others, shifted down, give the rest. */
  lemma {:induction false} FromVotesFront(ws: seq<int>)
    requires |ws| > 0
    ensures FromVotes(ws) == (if ws[0] > 0 then 1 else 0) + 2 * FromVotes(ws[1..])
    decreases |ws|
  {
    if |ws| > 1 {
      var init := ws[..|ws| - 1];
      FromVotesFront(init);
      assert init[1..] == ws[1..][..|ws| - 2];
    }
  }

  /** Votes on `n` bits give a value below `2^n`. */
  lemma {:induction false} FromVotesBound(ws: seq<int>)
    ensures FromVotes(ws) < Pow2(|ws|)
    decreases |ws|
  {
    if |ws| > 0 {
      FromVotesBound(ws[..|ws| - 1]);
    }
  }

  /** Bit `i` is set exactly for a strictly positive vote: a tie leaves it clear. */
  lemma {:induction false} FromVotesBit(ws: seq<int>, i: nat)
    ensures Bit(FromVotes(ws), i) <==> i < |ws| && ws[i] > 0
    decreases i
  {
    if |ws| == 0 {
      ShrBelow(0, i);
    } else {
      FromVotesFront(ws);
      var v := FromVotes(ws);
      assert v / 2 == FromVotes(ws[1..]);
      if i > 0 {
        BitSucc(v, i - 1);
        FromVotesBit(ws[1..], i - 1);
      }
    }
  }

  /** Bit `i` of the fingerprint is set exactly when the weighted vote on bit `i` is strictly positive, and the fingerprint has 64 bits. */
  lemma FingerprintBits(features: Features, hash: string -> nat, i: nat)
    ensures Fingerprint(features, hash) < Pow2(HashBits)
    ensures Bit(Fingerprint(features, hash), i) <==> i < HashBits && Weight(features, hash, i) > 0
  {
    FromVotesBound(Votes(features, hash));
    FromVotesBit(Votes(features, hash), i);
  }

  /** No features, no set bits. */
  lemma {:induction false} EmptyFingerprint(hash: string -> nat)
    ensures Fingerprint([], hash) == 0
  {
    var ws := Votes([], hash);
    forall k | 0 <= k <= HashBits ensures FromVotes(ws[..k]) == 0 {
      var j := 0;
      while j < k
        invariant 0 <= j <= k && FromVotes(ws[..j]) == 0
      {
        assert ws[..j + 1][..j] == ws[..j];
        j := j + 1;
      }
    }
    assert ws[..HashBits] == ws;
  }

  /** The vote is a sum over the features: splitting the table splits the sum. */
  lemma {:induction false} WeightAppend(a: Features, b: Features, hash: string -> nat, i: nat)
    ensures Weight(a + b, hash, i) == Weight(a, hash, i) + Weight(b, hash, i)
    decreases |b|
  {
    if |b| == 0 {
      assert a + b == a;
    } else {
      var bi := b[..|b| - 1];
      assert (a + b)[..|a + b| - 1] == a + bi;
      WeightAppend(a, bi, hash, i);
    }
  }

  /** Taking the last element of `a` out of `a` and one equal element out of `b` keeps the multisets equal. */
  lemma RemoveMatching(a: Features, b: Features, k: nat)
    requires multiset(a) == multiset(b) && |a| > 0 && k < |b| && b[k] == a[|a| - 1]
    ensures multiset(a[..|a| - 1]) == multiset(b[..k] + b[k + 1..])
  {
    var x := a[|a| - 1];
    var ai, b1, b2 := a[..|a| - 1], b[..k], b[k + 1..];
    assert a == ai + [x];
    assert b == b1 + [x] + b2;
    assert multiset(a) == multiset(ai) + multiset{x};
    assert multiset(b) == multiset(b1) + multiset{x} + multiset(b2);
    assert multiset(b1 + b2) == multiset(b1) + multiset(b2);
    assert multiset(ai) == multiset(a) - multiset{x};
    assert multiset(b1 + b2) == multiset(b) - multiset{x};
  }

  /** The vote of `b1 + [x] + b2` is the vote of `b1 + b2` plus that of `x`. */
  lemma WeightMiddle(b1: Features, x: (string, int), b2: Features, hash: string -> nat, i: nat)
    ensures Weight(b1 + [x] + b2, hash, i) == Weight(b1 + b2, hash, i) + Weight([x], hash, i)
  {
    WeightAppend(b1, b2, hash, i);
    WeightAppend(b1 + [x], b2, hash, i);
    WeightAppend(b1, [x], hash, i);
  }

  /** The vote does not depend on the order in which the features are visited. */
  lemma {:induction false} WeightPermutation(a: Features, b: Features, hash: string -> nat, i: nat)
    requires multiset(a) == multiset(b)
    ensures Weight(a, hash, i) == Weight(b, hash, i)
    decreases |a|
  {
    if |a| > 0 {
      var x := a[|a| - 1];
      var ai := a[..|a| - 1];
      var k := MatchLast(a, b);
      var b1, b2 := b[..k], b[k + 1..];
      RemoveMatching(a, b, k);
      WeightPermutation(ai, b1 + b2, hash, i);
      WeightMiddle(b1, x, b2, hash, i);
      WeightAppend(ai, [x], hash, i);
    }
  }

  /** The last feature of `a` sits somewhere in any reordering `b` of it. */
  lemma MatchLast(a: Features, b: Features) returns (k: nat)
    requires multiset(a) == multiset(b) && |a| > 0
    ensures k < |b| && b[k] == a[|a| - 1]
    ensures b == b[..k] + [b[k]] + b[k + 1..] && a == a[..|a| - 1] + [a[|a| - 1]]
  {
    assert a[|a| - 1] in multiset(b);
    k :| 0 <= k < |b| && b[k] == a[|a| - 1];
    assert b == b[..k] + [b[k]] + b[k + 1..];
  }

  /** Hence the fingerprint does not depend on the order of the feature table either. */
  lemma FingerprintPermutation(a: Features, b: Features, hash: string -> nat)
    requires multiset(a) == multiset(b)
    ensures Fingerprint(a, hash) == Fingerprint(b, hash)
  {
    forall i | 0 <= i < HashBits ensures Weight(a, hash, i) == Weight(b, hash, i) {
      WeightPermutation(a, b, hash, i);
    }
    assert Votes(a, hash) == Votes(b, hash);
  }

  /** One occurrence of each feature, each counted once. */
  function Occurrences(xs: seq<string>): Features {
    seq(|xs|, k requires 0 <= k < |xs| => (xs[k], 1))
  }

  /** Bumping a key in the table moves its vote by one occurrence. */
  lemma {:induction false} WeightBump(t: Features, x: string, hash: string -> nat, i: nat)
    ensures Weight(Bump(t, x), hash, i) == Weight(t, hash, i) + Contribution(hash(x), 1, i)
    decreases |t|
  {
    if |t| == 0 {
      assert [(x, 1)][..0] == [];
    } else {
      WeightAppend([t[0]], t[1..], hash, i);
      assert [t[0]] + t[1..] == t;
      assert [t[0]][..0] == [];
      if t[0].0 == x {
        WeightAppend([(x, t[0].1 + 1)], t[1..], hash, i);
        assert [(x, t[0].1 + 1)][..0] == [];
      } else {
        WeightBump(t[1..], x, hash, i);
        WeightAppend([t[0]], Bump(t[1..], x), hash, i);
      }
    }
  }

  /** Counting repeated features first votes exactly as visiting every occurrence once. */
  lemma {:induction false} TallyWeight(xs: seq<string>, hash: string -> nat, i: nat)
    ensures Weight(Tally(xs), hash, i) == Weight(Occurrences(xs), hash, i)
    decreases |xs|
  {
    if |xs| > 0 {
      var init := xs[..|xs| - 1];
      TallyWeight(init, hash, i);
      WeightBump(Tally(init), xs[|xs| - 1], hash, i);
      assert Occurrences(xs)[..|xs| - 1] == Occurrences(init);
    }
  }

  // ------------------------------------------------------------------ SimHash

  /** `SimHash(text, window_size=6).value`. */
  function TextFingerprint(text: string, segment: string -> seq<string>, hash: string -> nat): nat {
    Fingerprint(Tally(Shingles(Tokenize(text, segment), WindowSize)), hash)
  }

  /** `SimHash.__init__`/`_calculate_simhash` from the text: tokenize, count features, vote. */
  method ComputeSimHash(text: string, segment: string -> seq<string>, hash: string -> nat) returns (value: nat)
    ensures value == TextFingerprint(text, segment, hash)
    ensures value < Pow2(HashBits)
  {
    var tokens := Tokenize(text, segment);
    var features := GenerateFeatures(tokens, WindowSize);
    value := CalculateSimHash(features, hash);
    FingerprintBits(features, hash, 0);
  }

  /** `distance`: the number of set bits of `a ^ b`. */
  function Distance(a: nat, b: nat): nat {
    PopCount(Xor(a, b))
  }

  /** For 64-bit fingerprints the distance counts the differing bit positions: it is symmetric, at most 64, zero exactly for equal values, and obeys the triangle inequality. */
  lemma DistanceLaws(a: nat, b: nat, c: nat)
    requires a < Pow2(HashBits) && b < Pow2(HashBits) && c < Pow2(HashBits)
    ensures Distance(a, b) == DiffBits(a, b, HashBits)
    ensures Distance(a, b) == Distance(b, a)
    ensures Distance(a, b) <= HashBits
    ensures Distance(a, b) == 0 <==> a == b
    ensures Distance(a, c) <= Distance(a, b) + Distance(b, c)
  {
    PopCountXor(a, b, HashBits);
    PopCountXor(b, a, HashBits);
    PopCountXor(a, c, HashBits);
    PopCountXor(b, c, HashBits);
    DiffBitsSymmetric(a, b, HashBits);
    DiffBitsBound(a, b, HashBits);
    DiffBitsZero(a, b, HashBits);
    DiffBitsTriangle(a, b, c, HashBits);
  }
}
