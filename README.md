# Sentiment-analysis back end: verified model of its de-duplication and helper logic

This project models, in Dafny, the core of a Chinese financial-news
sentiment-analysis service. The service fetches news items, asks a
language model for risk tags, a sentiment level and the companies a text
names, stores the results in SQLite and lets users search, export and chat
about them. Near-duplicate news is the recurring problem the code base
fights, and that logic is modelled first:

- **SimHash engine** (`text_deduplicator.py`, modules `Bits`, `Hex`,
  `SimHash`, `Deduplicator`). It covers token filtering, 6-token shingles
  counted in a Counter, and the 64-bit majority-vote fingerprint. It also
  covers the Hamming distance, the block index (a class whose storage and
  index the methods update), the look-up-then-store `add_text`, and the
  batch driver `detect_duplicates`.
- **Reconciliation passes** over stored results. Each groups records and
  keeps one survivor per group:
  - `auto_deduplicator.py` (`AutoDedup`, on the shared `Grouping`);
  - `deduplicate_any_json.py` (`DedupJson`);
  - `comprehensive_fixes_v2.py` (`FixesV2`);
  - `comprehensive_fixes.py` (`Fixes`);
  - `fix_duplicate_correct.py` (`FixDuplicateCorrect`).

  The tables they read are sequences of rows in the order their SQL
  queries return them. The updates and deletes they issue are methods on
  those sequences.
- **Helpers**:
  - time normalisation, WHERE-clause building and paging (`Database`,
    `Paging`);
  - the analysis-result table (`ResultStore`, a class);
  - the file and API data sources (`UnifiedSource`, `ApiSource`);
  - the tag, company and sentiment agents (`TagAgents`, `CompanyAgent`,
    `SentimentAgent`, sharing `Prompts`);
  - the chat context and system prompt (`Chat`);
  - the API-key checks (`ApiKeys`).

The shared modules are:

- `Wrappers`, which holds `Option`;
- `Values`, a JSON-like value with Python truthiness;
- `PyText`, Python's `strip`, `find`, `replace` and `split`, and the
  string order.

Library code the source calls is passed in as function parameters:

- MD5;
- jieba segmentation;
- `SequenceMatcher.ratio` (typed into [0, 1]);
- `datetime` re-parsing;
- `json.dumps`;
- the language-model client;
- the regular-expression reading of the company agent's reply.

Integers are unbounded. The fingerprints are naturals below 2^64, and the
64-bit width is stated wherever the source relies on it.

## Model

| member | source | states |
|---|---|---|
| Bits.Pow2 | text_deduplicator.py:58-60 | 2^n is at least 1 (the value of bit n of a fingerprint) |
| Bits.ShrShr | text_deduplicator.py:251-253 | shifting by s then t is shifting by s + t |
| Bits.BitOfShr | text_deduplicator.py:251-253 | bit j of `v >> s` is bit s + j of v |
| Bits.ShrBelow | text_deduplicator.py:251-253 | a value below 2^n shifted right by n is 0 |
| Bits.LowBitsBits | text_deduplicator.py:252-253 | masking with `(1 << w) - 1` gives a value below 2^w whose bits are v's first w bits |
| Bits.XorBit | text_deduplicator.py:99-101 | bit i of `a ^ b` is set exactly when a and b differ in bit i |
| Bits.XorSymmetric | text_deduplicator.py:99-101 | `a ^ b == b ^ a` |
| Bits.XorZero | text_deduplicator.py:99-101 | `a ^ b` is 0 exactly when a == b |
| Bits.PopCountXor | text_deduplicator.py:99-101 | the number of 1 bits of `a ^ b` is the number of the first n positions where a and b differ |
| Bits.DiffBitsBound | text_deduplicator.py:99-101 | at most n of the first n bits differ |
| Bits.DiffBitsZero | text_deduplicator.py:99-101 | no differing bit among the first n exactly when the two n-bit values are equal |
| Bits.DiffBitsSymmetric | text_deduplicator.py:99-101 | counting differing bits is symmetric |
| Bits.DiffBitsTriangle | text_deduplicator.py:99-101 | differing bits obey the triangle inequality |
| Bits.DiffBitsSplit | text_deduplicator.py:245-256 | the differing bits of m + n positions are those of the first m plus those of the next n |
| Bits.DiffBitsMonotone | text_deduplicator.py:99-101 | counting over more positions never counts fewer differences |
| Bits.DiffBitsZeroLowBits | text_deduplicator.py:252-253 | values with no differing bit among the first w have the same masked block |
| Hex.Pow2Pow16 | text_deduplicator.py:192 | 2^(4k) == 16^k, so a 64-bit value has at most 16 hex digits |
| Hex.CharValue | text_deduplicator.py:192 | a hex digit has a value below 16 |
| Hex.HexDigit | text_deduplicator.py:192 | the digit `hex()` writes for d < 16 is a lower-case hex character whose value is d |
| Hex.ToHex | text_deduplicator.py:192 | `hex(v)[2:]` is non-empty and made of lower-case hex digits |
| Hex.ZFill | text_deduplicator.py:192 | `zfill(w)` pads with zeros on the left to width w and never shortens |
| Hex.ToHexValue | text_deduplicator.py:192 | the digits of `hex(v)[2:]` denote v |
| Hex.ToHexLength | text_deduplicator.py:192 | a value below 16^k has at most k hex digits |
| Hex.LeadingZeros | text_deduplicator.py:192 | leading zeros keep the digits valid and do not change their value |
| Hex.Hex16Length | text_deduplicator.py:192 | the `simhash_value` string of a 64-bit fingerprint has exactly 16 characters |
| Hex.ParseDigits | fix_duplicate_correct.py:14-15 | `int(s, 16)` of a non-empty hex string is the value of its digits |
| Hex.ParseHex16 | fix_duplicate_correct.py:14-15 | parsing the 16-digit rendering gives back the fingerprint (round trip) |
| Hex.ParseHex | fix_duplicate_correct.py:14-15 | `int(s, 16)` of the stripped text after an optional `+` and `0x`: a value below 16^len(s) when it succeeds, and a failure only for an empty or non-hex body |
| Hex.DigitsBelow | fix_duplicate_correct.py:14-15 | k hex digits denote a value below 16^k |
| Hex.Pow16Grows | fix_duplicate_correct.py:14-15 | 16^a <= 16^b when a <= b |
| Hex.Hex16Injective | text_deduplicator.py:192 | distinct fingerprints are rendered as distinct strings |
| SimHash.BlankOthers | text_deduplicator.py:69 | every character outside CJK, ASCII letters, digits and whitespace becomes a space; the length and all kept characters are unchanged |
| SimHash.CleanText | text_deduplicator.py:68-70 | the cleaned text neither starts nor ends with whitespace |
| SimHash.KeepToken | text_deduplicator.py:76-77 | a token yields at most one kept token |
| SimHash.FilterTokens | text_deduplicator.py:76-77 | filtering never adds tokens |
| SimHash.FilterTokensKept | text_deduplicator.py:76-77 | every kept token is stripped, longer than one character and not a stop word |
| SimHash.FilterTokensConcat | text_deduplicator.py:76-77 | the filter works token by token: filtering a concatenation concatenates the filtered parts |
| SimHash.Windows | text_deduplicator.py:86-89 | one window per start position `0 .. len(tokens) - 6` |
| SimHash.Shingles | text_deduplicator.py:82-97 | with at least 6 tokens, `len - 6 + 1` features, each the join of 6 consecutive tokens; with fewer, the tokens themselves |
| SimHash.Bump | text_deduplicator.py:90-95 | incrementing a Counter entry adds at most one key |
| SimHash.BumpFacts | text_deduplicator.py:90-95 | incrementing keeps keys distinct, adds 1 to the count of that feature only, and adds 1 to the total |
| SimHash.TallyCounts | text_deduplicator.py:82-97 | the Counter has distinct keys, the count of every feature is its number of occurrences, and the counts add up to the number of features |
| SimHash.GenerateFeatures | text_deduplicator.py:82-97 | the loop builds the Counter of the shingles |
| SimHash.Votes | text_deduplicator.py:43-56 | one weight per bit, 64 weights |
| SimHash.CalculateSimHash | text_deduplicator.py:34-64 | the loops compute the fingerprint of the features: bit i is set exactly when the count-weighted vote of bit i is positive |
| SimHash.FromVotesFront | text_deduplicator.py:58-62 | bit 0 is set from the first weight, the rest from the others |
| SimHash.FromVotesBound | text_deduplicator.py:58-62 | the result has at most as many bits as there are weights |
| SimHash.FromVotesBit | text_deduplicator.py:58-62 | bit i of the result is set exactly when weight i is positive |
| SimHash.FingerprintBits | text_deduplicator.py:34-64 | the fingerprint is below 2^64 and bit i is set exactly when its weight is positive |
| SimHash.EmptyFingerprint | text_deduplicator.py:34-64 | a text without features has fingerprint 0 |
| SimHash.WeightAppend | text_deduplicator.py:48-56 | the weights of two feature lists add up |
| SimHash.WeightPermutation | text_deduplicator.py:45-56 | the weights do not depend on the order of the features |
| SimHash.FingerprintPermutation | text_deduplicator.py:45-56 | the fingerprint does not depend on dictionary order |
| SimHash.WeightBump | text_deduplicator.py:48-90 | one more occurrence of a feature adds its hash's vote once |
| SimHash.TallyWeight | text_deduplicator.py:45-97 | weighting the Counter equals weighting every occurrence once |
| SimHash.ComputeSimHash | text_deduplicator.py:21-64 | the fingerprint of a text (clean, segment, filter, shingle, count, vote) is below 2^64 |
| SimHash.DistanceLaws | text_deduplicator.py:99-101 | `distance` counts the differing bits; it is symmetric, at most 64, zero exactly for equal fingerprints, and obeys the triangle inequality |
| Deduplicator.Fragments | text_deduplicator.py:245-256 | one key per block |
| Deduplicator.FragmentsBits | text_deduplicator.py:245-256 | key i names block i, its bits are fingerprint bits `i*w .. i*w+w-1`, and keys of different blocks differ |
| Deduplicator.BlocksDiffer | text_deduplicator.py:245-256 | values differing in each of k blocks of width w differ in at least k of the first k*w bits |
| Deduplicator.BlocksFit | text_deduplicator.py:248 | the product `num_blocks * (64 // num_blocks)` is at most 64 |
| Deduplicator.AllBlocksDiffer | text_deduplicator.py:245-256 | fingerprints whose every block key differs are at distance at least num_blocks |
| Deduplicator.BlockCompleteness | text_deduplicator.py:208-256 | fingerprints at distance below num_blocks share at least one block key, so the index finds them (pigeonhole) |
| Deduplicator.IdsOfMember | text_deduplicator.py:230-231 | every id in a bucket is among the bucket's ids |
| Deduplicator.IdsOfAppend | text_deduplicator.py:278 | appending an entry adds its id to the bucket's ids |
| Deduplicator.CandidatesInclude | text_deduplicator.py:220-231 | an id in the bucket of any of the fragments is a candidate |
| Deduplicator.CandidatesOnly | text_deduplicator.py:220-231 | every candidate comes from the bucket of some fragment |
| Deduplicator.FirstMin | text_deduplicator.py:180 | `min(..., key=distance)` picks a smallest distance, the first one in list order |
| Deduplicator.EmptyBucketsKeepValid | text_deduplicator.py:230 | reading a defaultdict inserts empty buckets, which keeps the index consistent and changes no bucket's contents |
| Deduplicator.AppendKeepsIndexed | text_deduplicator.py:263-278 | appending to buckets keeps every earlier text indexed |
| Deduplicator.AppendIndexes | text_deduplicator.py:258-278 | after `_update_index` the text is in the bucket of each of its fragments |
| Deduplicator.StoreKeepsValid | text_deduplicator.py:168-175 | storing a text and indexing it keeps every stored text indexed and every indexed id stored |
| Deduplicator.MatchesComplete | text_deduplicator.py:208-243 | a stored text within the Hamming threshold and at distance below num_blocks is found |
| Deduplicator.PickBest | text_deduplicator.py:178-202 | no similar text gives the no-match result; otherwise the result names the first closest one, with similarity `1 - d/64` and `is_duplicate` iff similarity reaches the threshold |
| Deduplicator.AddIds | text_deduplicator.py:230-231 | the candidate set gains exactly the bucket's ids |
| Deduplicator.TextDeduplicator.constructor | text_deduplicator.py:110-133 | thresholds and block count as given (zero blocks included), empty storage and index |
| Deduplicator.TextDeduplicator.GenerateFragments | text_deduplicator.py:245-256 | the loop yields the block keys of the fingerprint |
| Deduplicator.TextDeduplicator.FindSimilarTexts | text_deduplicator.py:208-243 | returns exactly the stored candidates within the threshold with their distances; storage unchanged; the index only gains empty buckets |
| Deduplicator.TextDeduplicator.FilterCandidates | text_deduplicator.py:233-243 | a candidate is listed exactly when it is stored and within the threshold, with its distance, once |
| Deduplicator.TextDeduplicator.UpdateIndex | text_deduplicator.py:258-278 | `(text_id, value)` is appended to the bucket of each fragment and to no other |
| Deduplicator.TextDeduplicator.AddText | text_deduplicator.py:146-202 | raises (None, nothing changed) exactly when the text is not a string (`re.sub` TypeError) or there are no blocks (`64 // 0`); otherwise stores the text with its fingerprint and (defaulted) publish time, indexes it, reports as PickBest says against the state before the call, 16-digit simhash string |
| Deduplicator.TextDeduplicator.StoreAndReport | text_deduplicator.py:165-202 | the same for a fingerprint already computed |
| Deduplicator.TextDeduplicator.GetDuplicateInfo | text_deduplicator.py:280-284 | the stored entry when the id is stored, None otherwise |
| Deduplicator.TextDeduplicator.GetStatistics | text_deduplicator.py:286-294 | counts of stored texts and index buckets, the thresholds, Redis off |
| Deduplicator.ReportsConsistent | text_deduplicator.py:178-202 | a reported duplicate is stored, and the report's similarity, distance and flag agree |
| Deduplicator.AnnotateRecordFields | text_deduplicator.py:335-361 | the record keeps its other keys and gains the five result keys; empty content gives `is_duplicate` False; otherwise the keys carry the add_text result |
| Deduplicator.DuplicateDetectionManager.constructor | text_deduplicator.py:300-316 | the configuration's thresholds over defaults 0.85, 4 and 4, any block count |
| Deduplicator.DuplicateDetectionManager.AnnotateOne | text_deduplicator.py:330-363 | raises exactly when `add_text` would (truthy non-string content, or no blocks), leaving the state alone; falsy content leaves the deduplicator unchanged and gets the empty annotation; otherwise the state moves as `add_text` under `str(id)` with the defaulted publish time, and the record is annotated with that report |
| Deduplicator.DuplicateDetectionManager.DetectDuplicates | text_deduplicator.py:318-365 | raises exactly when some record raises, after storing the records before it; otherwise one annotated record per input, in order; in both cases record i's outcome is `add_text`'s report against the storage and index left by records 0..i-1, starting from the state before the call and ending in the state after it |
| Deduplicator.ChainStores | text_deduplicator.py:330-363 | after k records the storage holds the ids stored before plus the `str(id)` of every earlier record with truthy content, and nothing else |
| Deduplicator.MatchIsEarlier | text_deduplicator.py:330-363 | a record reported as matching names a text stored before the batch or an earlier record of the same batch, and its report is consistent with its fingerprint |
| Deduplicator.ChainNoRaise | text_deduplicator.py:330-363 | no record that went through the loop raised |
| Values.NatToString | text_deduplicator.py:331 | `str(n)` is non-empty and all digits |
| Values.NatToStringInjective | text_deduplicator.py:331 | distinct naturals have distinct decimal renderings |
| Values.IntToStringInjective | text_deduplicator.py:331 | distinct integers have distinct renderings |
| Grouping.Joined | auto_deduplicator.py:85-90 | `groups[k].append(n)`: the group of k ends with n and every other group is unchanged |
| Grouping.GroupStep | auto_deduplicator.py:79-90 | one more record keeps groups sound, complete and in first-appearance order; a record without key joins no group |
| Grouping.GroupPositions | auto_deduplicator.py:76-90 | the loop builds a defaultdict of lists: each key's group lists exactly the positions carrying that key, ascending, and keys come in order of first appearance |
| Grouping.GroupHead | auto_deduplicator.py:101 | a position heads its group exactly when no earlier position carries its key |
| Grouping.FirstSame | comprehensive_fixes_v2.py:195-204 | the first position at or after j carrying the key of position i |
| Grouping.LastSame | comprehensive_fixes_v2.py:195-204 | the last position before j carrying the key of position i |
| Grouping.GroupEnds | comprehensive_fixes_v2.py:195-204 | a group starts at the first and ends at the last position with its key |
| Grouping.GroupIsWhole | auto_deduplicator.py:76-90 | a group lists every position with its key, ascending and only those |
| Grouping.SeenStep | comprehensive_fixes_v2.py:188-204 | walking the distinct group order meets each key once |
| Grouping.GroupOf | comprehensive_fixes_v2.py:170-178 | the ascending list of positions below n carrying key k, and all of them |
| Grouping.AscendingUnique | comprehensive_fixes_v2.py:170-178 | two ascending lists with the same elements are equal, so a group is determined by its key |
| Grouping.WholeGroupIsGroupOf | comprehensive_fixes_v2.py:170-178 | a whole group is the group of its key |
| Grouping.SeenAll | comprehensive_fixes_v2.py:188-204 | the group order names every key that occurs |
| Grouping.GroupedKeyGroups | comprehensive_fixes_v2.py:170-204 | the grouping pairs each key with its whole group, and group heads ascend in group order |
| Grouping.Kept | comprehensive_fixes_v2.py:283-293 | the rows left after deleting the unkept ones, in order, never more than before |
| Grouping.KeptMembers | comprehensive_fixes_v2.py:283-293 | a row is left exactly when it is one of the kept positions |
| Grouping.KeptCount | comprehensive_fixes_v2.py:283-293 | rows left plus rows deleted is the number of rows |
| Grouping.KeptEverything | comprehensive_fixes_v2.py:283-293 | deleting nothing leaves every row |
| Grouping.UnkeptClear | comprehensive_fixes_v2.py:283-293 | deleting one more kept row adds exactly that position to the deleted set |
| Grouping.KeysBeforeMembers | comprehensive_fixes.py:279-289 | a key was seen before position i exactly when some earlier row has it |
| Grouping.FirstKeyMask | comprehensive_fixes.py:279-289 | a row is kept exactly when its key was not seen before it (first-seen filter) |
| Grouping.KeptKeysSeen | comprehensive_fixes.py:279-289 | every kept row's key is among the keys seen |
| Grouping.FirstKeysDistinct | comprehensive_fixes.py:279-289 | keeping only first-seen keys leaves no two rows with the same key |
| Grouping.FirstKeyCovers | comprehensive_fixes.py:279-289 | every key of the input is kept through its first row |
| AutoDedup.CleanText | auto_deduplicator.py:44-53 | tag removal and whitespace collapsing never lengthen the text |
| AutoDedup.CleanTextTrimmed | auto_deduplicator.py:46-53 | the cleaned text neither starts nor ends with whitespace |
| AutoDedup.CleanTextSpaces | auto_deduplicator.py:52 | every whitespace left is a single space and no two whitespace characters are adjacent |
| AutoDedup.CleanTextPlain | auto_deduplicator.py:44-53 | a text without tags or whitespace is unchanged |
| AutoDedup.TextSimilarity | auto_deduplicator.py:31-42 | in [0, 1]; 0.0 when either raw text is empty; otherwise the ratio of the cleaned texts |
| AutoDedup.ContentHash | auto_deduplicator.py:55-88 | "" for falsy content, the MD5 of the cleaned text for a non-empty string, and a failure (TypeError) for other truthy content |
| AutoDedup.HashKey | auto_deduplicator.py:88-90 | a record joins a hash group exactly when its content is a non-empty string |
| AutoDedup.IdKeys | auto_deduplicator.py:80-85 | one id key per record |
| AutoDedup.HashKeys | auto_deduplicator.py:88-90 | one hash key per record |
| AutoDedup.Texts | auto_deduplicator.py:136-139 | one content text per record |
| AutoDedup.Elements | auto_deduplicator.py:104-105 | the set of a group's later positions |
| AutoDedup.GroupTail | auto_deduplicator.py:96-105 | a position is after the head of its id group exactly when an earlier record has the same id |
| AutoDedup.SameIdMatches | auto_deduplicator.py:104-111 | one duplicate entry per later position of the group, with similarity 1.0 |
| AutoDedup.IdPassStep | auto_deduplicator.py:96-119 | each id group of size above one marks its later positions |
| AutoDedup.IdGroupWellFormed | auto_deduplicator.py:113-119 | the new group's duplicates all come after its primary and are marked |
| AutoDedup.IdPassDone | auto_deduplicator.py:96-119 | after the id pass, a position is marked exactly when an earlier record has the same truthy id |
| AutoDedup.MarkSameId | auto_deduplicator.py:96-119 | the id pass marks exactly the positions with an earlier same-id record and reports well-formed groups |
| AutoDedup.Unmarked | auto_deduplicator.py:125 | the filtered group holds exactly the group's unmarked positions |
| AutoDedup.UnmarkedAscending | auto_deduplicator.py:125 | filtering keeps the group ascending |
| AutoDedup.FindGroup | auto_deduplicator.py:145-149 | the first group whose primary is index1, or none when there is no such group |
| AutoDedup.File | auto_deduplicator.py:145-169 | the match is appended to the duplicates of the first group with that primary, every other group unchanged; with no such group a new content-similarity group holding only the match is appended |
| AutoDedup.FirstHeadedExists | auto_deduplicator.py:145-149 | when some group has primary index1, a first such group exists, so the search stops there |
| AutoDedup.FiledAsDetermined | auto_deduplicator.py:145-169 | filing a match determines the new group list: the two branches leave no choice |
| AutoDedup.FileKeepsWellFormed | auto_deduplicator.py:141-169 | filing a later match keeps every duplicate after its primary and marked |
| AutoDedup.ConsiderPair | auto_deduplicator.py:134-169 | an unmarked index2 similar enough to index1 is marked and filed under index1 with its similarity, as File files it; otherwise neither the marks nor the groups change; the pass stays justified |
| AutoDedup.ScanPairs | auto_deduplicator.py:132-169 | the inner loop keeps the content pass justified, marks only positions of the filtered group, and leaves every later position similar to index1 marked |
| AutoDedup.ScanGroup | auto_deduplicator.py:131-169 | the pair loops over a filtered hash group keep the pass justified, mark only filtered positions, and leave marked every filtered position similar to an earlier filtered one |
| AutoDedup.MarkedStep | auto_deduplicator.py:122-125 | after a hash group, every content mark carries one of the hash keys processed so far |
| AutoDedup.CoveredStep | auto_deduplicator.py:122-141 | after a hash group, every record of a processed key with a similar earlier anchor outside the id duplicates is marked |
| AutoDedup.BothFiltered | auto_deduplicator.py:125 | two distinct unmarked records of a group both stay in the filtered group, in index order |
| AutoDedup.MarkSimilarContent | auto_deduplicator.py:122-169 | a position is marked by the hash pass exactly when an earlier record that is not a same-id duplicate has the same hash and reaches the threshold; groups stay well formed |
| AutoDedup.FirstNotMarked | auto_deduplicator.py:101-142 | record 0 is never marked |
| AutoDedup.Duplicates | auto_deduplicator.py:96-169 | the marked set is unique: the one set satisfying the iff between marked and having an earlier same-id or similar same-hash non-id-duplicate record |
| AutoDedup.IdDuplicates | auto_deduplicator.py:96-119 | the positions with an earlier record of the same truthy original_id |
| AutoDedup.DetectDuplicatesInData | auto_deduplicator.py:63-181 | fails exactly when some item has a truthy list or dict original_id (unhashable) or truthy non-string content; otherwise the marked set is exactly Duplicates (earlier same-id record, or earlier similar same-hash record outside the id duplicates), and the counts are total, marked and total minus marked |
| AutoDedup.TitleLabel | auto_deduplicator.py:210 | a truthy string title becomes at most 50 characters plus "..."; a truthy non-string title fails |
| AutoDedup.MarkedBelow | auto_deduplicator.py:204-211 | the marked positions of the data |
| AutoDedup.KeptCount | auto_deduplicator.py:204-218 | kept plus removed is the number of records |
| AutoDedup.KeptContains | auto_deduplicator.py:204-213 | every unmarked record is kept |
| AutoDedup.KeptFirst | auto_deduplicator.py:204-213 | when record 0 is unmarked it is the first record kept |
| AutoDedup.RemoveDuplicatesFromData | auto_deduplicator.py:183-226 | keeps exactly the unmarked records in order; removed plus final is original; one removed entry per marked record |
| AutoDedup.RateBound | auto_deduplicator.py:272 | removed / original lies in [0, 1] |
| AutoDedup.AutoDeduplicateExportData | auto_deduplicator.py:228-296 | succeeds exactly when the input is empty or neither detection nor the removed titles raise; empty input gives [] and zero counts; a failure returns the input unchanged with nothing removed; success keeps exactly the records outside Duplicates, the first record always, removes as many as Duplicates holds, and reports the rate removed / original |
| DedupJson.Less | deduplicate_any_json.py:66-71 | `current_id < existing_id` is defined exactly for two numbers (None as `float('inf')`) or two strings; mixed kinds raise, and so, in this model, do list-valued ids (see "## Left out") |
| DedupJson.LessIrreflexive | deduplicate_any_json.py:71 | an id is never below itself, so an equal id keeps the earlier record |
| DedupJson.LessBelow | deduplicate_any_json.py:71 | a rank below the survivor's and a rank not below it compare as expected (the survivor stays minimal) |
| DedupJson.FirstSeenFacts | deduplicate_any_json.py:58-76 | the dict's key order lists each non-None `original_id` once, exactly those that occur |
| DedupJson.CountIds | deduplicate_any_json.py:53-73 | the number of dict records with an `original_id` |
| DedupJson.CountMissing | deduplicate_any_json.py:53-56 | the number of dict records whose `original_id` is None |
| DedupJson.ChosenExtend | deduplicate_any_json.py:71-72 | a later record that is not smaller leaves the survivor chosen |
| DedupJson.ChosenOthers | deduplicate_any_json.py:58-73 | a record leaves the survivors of other ids alone |
| DedupJson.SurvivorsNoId | deduplicate_any_json.py:49-56 | a non-dict record or one without `original_id` changes no survivor |
| DedupJson.Unseen | deduplicate_any_json.py:58 | an id not in the dict has not occurred yet |
| DedupJson.SurvivorsNew | deduplicate_any_json.py:58-59 | the first record of an id becomes its survivor and the id joins the key order |
| DedupJson.ChosenNew | deduplicate_any_json.py:58-59 | the first record of an id is chosen so far |
| DedupJson.LaterComparable | deduplicate_any_json.py:71 | a comparison that succeeds does not raise |
| DedupJson.SurvivorsKeep | deduplicate_any_json.py:71-73 | a record that is not smaller keeps the survivor |
| DedupJson.SurvivorsReplace | deduplicate_any_json.py:71-72 | a smaller record replaces the survivor in place, keeping the key order |
| DedupJson.ChosenReplace | deduplicate_any_json.py:71-72 | the replacing record is strictly smaller than every earlier record of its id |
| DedupJson.DroppedReplace | deduplicate_any_json.py:298-302 | when a smaller record arrives, the old survivor is listed for deletion |
| DedupJson.DroppedLater | deduplicate_any_json.py:303-306 | a record that is not smaller is itself listed for deletion |
| DedupJson.DroppedOther | deduplicate_any_json.py:280-286 | records without id, or first of their id, are not listed for deletion |
| DedupJson.StepNoId | deduplicate_any_json.py:49-56 | the loop invariant survives a record without `original_id`, counting it as missing when it is a dict |
| DedupJson.StepNew | deduplicate_any_json.py:58-59 | the invariant survives the first record of an id |
| DedupJson.StepKeep | deduplicate_any_json.py:298-306 | the invariant survives a larger duplicate: one more duplicate, the record listed for deletion |
| DedupJson.StepReplace | deduplicate_any_json.py:298-306 | the invariant survives a smaller duplicate: one more duplicate, the old survivor listed for deletion |
| DedupJson.PickSmallestIds | deduplicate_any_json.py:276-306 | fails exactly when some record raises (unhashable id, unorderable ids); otherwise each `original_id` keeps its first smallest-id record, in order of first appearance, with duplicate and missing counts and the deletion list |
| DedupJson.SurvivorList | deduplicate_any_json.py:76 | `list(unique_records.values())`: one record per key, in key order |
| DedupJson.SurvivorRecords | deduplicate_any_json.py:76 | the survivor of each `original_id`, in order of first appearance: one record per distinct `original_id` |
| DedupJson.OkSurvivorRecords | deduplicate_any_json.py:58-76 | the deduplicated list is exactly the list of survivors |
| DedupJson.PreviewTitles | deduplicate_any_json.py:120-125 | the preview loop raises exactly when one of the first five records has a title that is None, a bool or a number (`len` refuses it), or a dict of more than 40 keys or a list of more than 40 items (`title[:40] + "..."` refuses both) |
| DedupJson.DeduplicateJsonByOriginalId | deduplicate_any_json.py:20-138 | None exactly for a non-list document, a raising record, or a title among the first five survivors that the preview print refuses (None, a bool, a number, or a dict or list of more than 40 entries; lines 120-125, caught at 136-138); otherwise one smallest-id record per `original_id` in first-appearance order, duplicates + distinct ids = records with an id, and the missing count |
| DedupJson.DeduplicatedHasNoRepeats | deduplicate_any_json.py:641-648 | the written list has no repeated `original_id`, as the verification in `main` checks |
| DedupJson.CountDeleted | deduplicate_any_json.py:318-327 | the number of deletions that succeeded, at most the number attempted |
| DedupJson.DeleteRecords | deduplicate_any_json.py:317-331 | the loop counts exactly the deletions that succeeded |
| DedupJson.DeduplicateDatabaseRecords | deduplicate_any_json.py:232-339 | succeeds exactly when the database is there, the fetch worked and no record raises during the pass; on success the records deleted are exactly every record with an `original_id` other than the first smallest-`id` record kept for it, nothing to delete means a bare success with 0 removed, and a full report gives the row count, the unique-id count (rows with an id minus deletions) and duplicates_removed counting successful deletions only |
| DedupJson.LosersLeaveOnePerId | deduplicate_any_json.py:276-306 | after deleting the listed records every `original_id` still has a record, no two kept records share one, and the kept record is the first with the smallest `id` |
| DedupJson.TagFiltered | deduplicate_any_json.py:473-481 | the filter never adds rows |
| DedupJson.TagFilteredMembers | deduplicate_any_json.py:473-481 | a row is kept exactly when some requested `tag_<name>` column is '是' |
| DedupJson.HasRequestedTag | deduplicate_any_json.py:476-480 | the inner loop finds a requested tag column equal to '是' exactly when there is one |
| DedupJson.FilterByTags | deduplicate_any_json.py:472-481 | no tags keep every row; otherwise the rows with a requested tag, in order, each once |
| FixesV2.OidKeys | comprehensive_fixes_v2.py:93-97 | every row is grouped under its `original_id`, NULL included |
| FixesV2.MarkedPointsToPrimary | comprehensive_fixes_v2.py:102-119 | the first row of an `original_id` is left alone; every later one points at the group's first row, which has the smallest id of the group, with rate 1.0 |
| FixesV2.UpdateWhereId | comprehensive_fixes_v2.py:112-116 | `UPDATE ... WHERE id = ?` keeps the number of rows |
| FixesV2.MarkedInGroup | comprehensive_fixes_v2.py:102-116 | inside a whole group, the head is unchanged and every other row points at the head's id |
| FixesV2.PointedStep | comprehensive_fixes_v2.py:107-119 | one more update marks the next row of the group and nothing else |
| FixesV2.AddedStep | comprehensive_fixes_v2.py:107-119 | each update marks a row not marked before |
| FixesV2.GroupBound | comprehensive_fixes_v2.py:102-119 | every row of the key lies before the end of its group |
| FixesV2.MarkGroup | comprehensive_fixes_v2.py:103-119 | the inner loop marks exactly the group's non-head rows, pointing at the head, and counts |group| - 1 |
| FixesV2.MarkedForStep | comprehensive_fixes_v2.py:102-119 | a marked group joins the rows already marked |
| FixesV2.LaterStep | comprehensive_fixes_v2.py:118 | the count grows by the group's non-head rows |
| FixesV2.SingleStep | comprehensive_fixes_v2.py:103 | a group of one row marks nothing and counts nothing |
| FixesV2.AllDone | comprehensive_fixes_v2.py:102-123 | once every key is done each row is as Marked says and the counted rows are those with an earlier same-`original_id` row |
| FixesV2.MarkOneKey | comprehensive_fixes_v2.py:102-119 | one key of the outer loop: its group marked, the count grown by its non-head rows |
| FixesV2.EveryKeyDone | comprehensive_fixes_v2.py:102 | the outer loop visits every key that occurs |
| FixesV2.MarkAll | comprehensive_fixes_v2.py:102-123 | the outer loop leaves each row as Marked says and returns the number of non-first rows |
| FixesV2.DetectAndMarkDuplicates | comprehensive_fixes_v2.py:78-123 | over rows in id order: first rows unchanged, every other row points at its group's first row with rate 1.0, returns Σ(|group| - 1) |
| FixesV2.MinAt | comprehensive_fixes_v2.py:198-269 | `min(..., key=id)` picks a smallest id, the first one on ties |
| FixesV2.MaxAt | comprehensive_fixes_v2.py:200-271 | `max(..., key=id)` picks a largest id, the first one on ties |
| FixesV2.MinMaxEnds | comprehensive_fixes_v2.py:198-200 | over rows in id order the minimum is the group's first row and the maximum its last |
| FixesV2.KeepIndex | comprehensive_fixes_v2.py:197-202 | the kept position lies in the group |
| FixesV2.NullRowsApart | comprehensive_fixes_v2.py:172-174 | two rows without `original_id` get different keys "id_<id>", so they are never merged |
| FixesV2.ExportKeys | comprehensive_fixes_v2.py:170-178 | one export key per row |
| FixesV2.KeepIndexChosen | comprehensive_fixes_v2.py:195-204 | the selected record is the min-id ("first"), max-id ("last") or first row of its group |
| FixesV2.SelectedStep | comprehensive_fixes_v2.py:196-204 | one more key appends its group's selected record |
| FixesV2.KeysOf | comprehensive_fixes_v2.py:196-204 | the keys of the exported records |
| FixesV2.SelectedAll | comprehensive_fixes_v2.py:195-204 | after the loop, one record per key, in first-appearance order, covering every key |
| FixesV2.SelectAll | comprehensive_fixes_v2.py:195-204 | the loop exports exactly one chosen record per key, in group order |
| FixesV2.ExportDeduplicatedData | comprehensive_fixes_v2.py:129-238 | no rows fail with nothing exported; otherwise one chosen record per key and removed = original - deduplicated |
| FixesV2.KeptAt | comprehensive_fixes_v2.py:265-273 | the row kept for a row's `original_id` has that `original_id` |
| FixesV2.KeptIdExtreme | comprehensive_fixes_v2.py:268-271 | the kept id is the largest of the group for "last" and the smallest otherwise |
| FixesV2.SurvivorUnique | comprehensive_fixes_v2.py:265-278 | no two surviving rows share an `original_id` |
| FixesV2.KeptSurvives | comprehensive_fixes_v2.py:265-278 | the kept row of every group survives |
| FixesV2.KeepMask | comprehensive_fixes_v2.py:265-278 | marks exactly the surviving rows |
| FixesV2.Surviving | comprehensive_fixes_v2.py:282-288 | the rows left never outnumber the rows before |
| FixesV2.KeptDistinct | comprehensive_fixes_v2.py:265-288 | rows kept from distinct-key positions have distinct keys |
| FixesV2.DeleteWhereIdIn | comprehensive_fixes_v2.py:284-286 | `DELETE ... WHERE id IN (...)` never adds rows |
| FixesV2.DeleteLeavesKept | comprehensive_fixes_v2.py:276-288 | deleting exactly the ids of the unkept rows leaves the kept rows, in order |
| FixesV2.DeleteNothing | comprehensive_fixes_v2.py:282-290 | with nothing to delete the table is unchanged |
| FixesV2.OidsOf | comprehensive_fixes_v2.py:257-261 | the set of `original_id`s of the rows |
| FixesV2.SurvivingOnePerId | comprehensive_fixes_v2.py:244-293 | after cleaning, every `original_id` is left exactly once (NULL counting as one key) |
| FixesV2.KeepIndexSurvives | comprehensive_fixes_v2.py:265-278 | a row of a group survives exactly when it is the group's kept row |
| FixesV2.OtherPositionsIn | comprehensive_fixes_v2.py:276-278 | the rows listed so far are the group's rows whose id differs from keep_id |
| FixesV2.OthersIds | comprehensive_fixes_v2.py:276-278 | an id is listed exactly when its row is one of those positions |
| FixesV2.OthersCount | comprehensive_fixes_v2.py:276-278 | one id is listed per such row |
| FixesV2.ListedAll | comprehensive_fixes_v2.py:265-278 | a group's listed ids are exactly its unkept rows |
| FixesV2.ListGroup | comprehensive_fixes_v2.py:266-278 | the inner loop lists the ids of exactly the group's unkept rows |
| FixesV2.DoomedStep | comprehensive_fixes_v2.py:265-278 | listing one more group extends the deletion list by that group's unkept rows |
| FixesV2.SingleKept | comprehensive_fixes_v2.py:266 | a group of one row lists nothing |
| FixesV2.ListOneKey | comprehensive_fixes_v2.py:265-278 | one key of the outer loop lists its unkept rows |
| FixesV2.ListAll | comprehensive_fixes_v2.py:263-278 | an id is listed exactly when its row is not kept, each once |
| FixesV2.CleanDuplicateRecords | comprehensive_fixes_v2.py:244-293 | the table keeps exactly the min/max/first row of every `original_id` and the count deleted plus the rows left is the rows before |
| Fixes.ContentHash | comprehensive_fixes.py:89-93 | "" exactly for empty content; otherwise the first 16 hex characters of the MD5 of the stripped content |
| Fixes.ContentHashStrip | comprehensive_fixes.py:93 | contents equal after stripping have the same hash |
| Fixes.ContentSimilarity | comprehensive_fixes.py:80-87 | in [0, 1], and 0.0 when either content is empty |
| Fixes.HashKeys | comprehensive_fixes.py:114-121 | every row is grouped under its content hash, "" included |
| Fixes.RowStart | comprehensive_fixes.py:132-133 | starting a row of the pair scan keeps the scan invariant |
| Fixes.AppendAscends | comprehensive_fixes.py:132-142 | pairs are recorded in (i, j) order |
| Fixes.ColumnSkip | comprehensive_fixes.py:136 | a pair below the threshold is not recorded |
| Fixes.KeepSound | comprehensive_fixes.py:136-142 | a recorded pair lies in the group, first before second, with its similarity at or above the threshold |
| Fixes.KeepBound | comprehensive_fixes.py:132-142 | a recorded pair comes after all pairs recorded before it |
| Fixes.KeepComplete | comprehensive_fixes.py:132-142 | every similar pair scanned so far is recorded |
| Fixes.ColumnKeep | comprehensive_fixes.py:136-142 | a pair at or above the threshold is recorded |
| Fixes.RowEnd | comprehensive_fixes.py:132-133 | finishing a row completes the scan of its pairs |
| Fixes.ScanGroup | comprehensive_fixes.py:132-142 | within one hash group the loops record exactly the pairs i < j with similarity at or above the threshold, in order |
| Fixes.DoneHeadsBelow | comprehensive_fixes.py:127 | groups already scanned start before the current one |
| Fixes.FoundSound | comprehensive_fixes.py:127-142 | every recorded pair is of two rows of one scanned hash group, similar enough |
| Fixes.FoundComplete | comprehensive_fixes.py:127-142 | every similar pair of a scanned group is recorded |
| Fixes.FoundOrder | comprehensive_fixes.py:127-142 | pairs come group by group in group order |
| Fixes.FoundStep | comprehensive_fixes.py:127-142 | scanning one more group keeps the pairs sound, complete and ordered |
| Fixes.FoundSingle | comprehensive_fixes.py:128-129 | a singleton group is skipped and records nothing |
| Fixes.ScanNext | comprehensive_fixes.py:127-142 | one more group of the outer loop |
| Fixes.ScanAll | comprehensive_fixes.py:127-142 | after all groups the recorded pairs are exactly the similar same-hash pairs |
| Fixes.UpdateWhereId | comprehensive_fixes.py:153-164 | `UPDATE ... WHERE id = ?` marks the row with that id and leaves the others |
| Fixes.ApplyPairs | comprehensive_fixes.py:147-166 | the updates keep the number of rows |
| Fixes.LastTouch | comprehensive_fixes.py:147-166 | the last recorded pair mentioning a row, or none |
| Fixes.RowAfter | comprehensive_fixes.py:147-166 | updates change only `duplicate_id` and `duplication_rate` |
| Fixes.ApplyPairsRows | comprehensive_fixes.py:147-166 | each row ends as its last pair left it |
| Fixes.RowAfterLast | comprehensive_fixes.py:147-166 | a row without a pair is unchanged; otherwise it names the partner of its last pair with that pair's similarity |
| Fixes.DetectedPairsIn | comprehensive_fixes.py:132-142 | recorded pairs name two different rows of the table |
| Fixes.UntouchedDissimilar | comprehensive_fixes.py:127-142 | a row in no pair has no similar same-hash partner |
| Fixes.TouchedSimilar | comprehensive_fixes.py:136-164 | a row's partner in a pair is similar to it with the recorded similarity |
| Fixes.MarksAfterDetect | comprehensive_fixes.py:95-172 | after the pass a row with no similar partner is unchanged and any other names one similar partner's id with their similarity |
| Fixes.PairSetSize | comprehensive_fixes.py:132-142 | distinct recorded pairs count as their set |
| Fixes.DetectedCount | comprehensive_fixes.py:172 | the number of recorded pairs is the number of similar same-hash pairs |
| Fixes.UpdatePairs | comprehensive_fixes.py:146-166 | the update loop applies every pair, both rows each time |
| Fixes.DetectDuplicatesAndUpdate | comprehensive_fixes.py:95-172 | returns the number of similar same-hash pairs and leaves each row marked as the pairs say |
| Fixes.ParseInt | comprehensive_fixes.py:207 | `int(s)` succeeds exactly when the stripped text is an optional sign followed by ASCII digits with single `_` separators between digits |
| Fixes.DropSeparators | comprehensive_fixes.py:207 | dropping the `_` separators leaves only the digits, and leaves a text without separators unchanged |
| Fixes.ParseGroups | comprehensive_fixes.py:207 | unsigned digit groups without whitespace parse to the value of their digits, separators dropped |
| Fixes.SeparatedDigits | comprehensive_fixes.py:207 | `int("1_0") == 10` |
| Fixes.DoubleSeparatorRefused | comprehensive_fixes.py:207 | `int("1__0")` raises |
| Fixes.ParseSigned | comprehensive_fixes.py:207 | a signed decimal parses only when non-empty |
| Fixes.DigitsValueSnoc | comprehensive_fixes.py:207 | one more digit multiplies by ten and adds it |
| Fixes.DigitsOfNat | comprehensive_fixes.py:157-207 | `str(n)` is digits whose value is n |
| Fixes.StripShow | comprehensive_fixes.py:157-207 | `str(id)` has no surrounding whitespace |
| Fixes.ParseDigits | comprehensive_fixes.py:207 | digits parse to their value |
| Fixes.ParseNegative | comprehensive_fixes.py:207 | a minus sign and digits parse to the negated value |
| Fixes.ParseStripped | comprehensive_fixes.py:207 | stripping is a no-op on a stripped text |
| Fixes.ParseSignedShow | comprehensive_fixes.py:157-207 | `int(str(i)) == i` |
| Fixes.ParseIntShow | comprehensive_fixes.py:157-207 | the `duplicate_id` written by the detect pass parses back to the partner's id (round trip) |
| Fixes.PairKey | comprehensive_fixes.py:207 | `tuple(sorted([id, d]))`: ordered, and the same two ids |
| Fixes.CleanKeys | comprehensive_fixes.py:186-211 | a flagged row whose `duplicate_id` parses is grouped under the sorted pair; other rows are not grouped |
| Fixes.MutualMarksShareKey | comprehensive_fixes.py:153-207 | two rows marked with each other's id land in the same group |
| Fixes.ShowFlagged | comprehensive_fixes.py:157-190 | a written `duplicate_id` is never '' or '无', so marked rows are selected for cleaning |
| Fixes.MinIdAt | comprehensive_fixes.py:221 | `min(..., key=id)`: a smallest id, the first one on ties |
| Fixes.LatestAt | comprehensive_fixes.py:224 | the kept position lies in the group |
| Fixes.LatestAtIsLatest | comprehensive_fixes.py:224 | `max(..., key=analysis_time or "")`: no later time in the group, the first one on ties |
| Fixes.KeepAt | comprehensive_fixes.py:219-226 | the kept position lies in the group |
| Fixes.KeepMask | comprehensive_fixes.py:214-232 | marks exactly the surviving rows |
| Fixes.SurvivorUnique | comprehensive_fixes.py:214-232 | each group keeps at most one row |
| Fixes.SurvivorExists | comprehensive_fixes.py:214-232 | each group keeps at least one row |
| Fixes.SurvivorChosen | comprehensive_fixes.py:219-226 | the kept row has the least id ("first"), the latest time ("latest") or comes first (otherwise) |
| Fixes.DeleteWhereId | comprehensive_fixes.py:231 | a delete never adds rows |
| Fixes.DeleteWhereIdMembers | comprehensive_fixes.py:231 | a delete removes exactly the rows with that id |
| Fixes.DeleteKept | comprehensive_fixes.py:229-232 | deleting a row's id drops exactly that row from the rows left |
| Fixes.GroupMask | comprehensive_fixes.py:214-232 | inside a group exactly the kept row survives |
| Fixes.LiveGroupStep | comprehensive_fixes.py:214-232 | handling one group settles exactly that group's rows |
| Fixes.LiveSingle | comprehensive_fixes.py:215-216 | a group of one row deletes nothing |
| Fixes.LiveAll | comprehensive_fixes.py:214-232 | once every group is handled exactly the survivors are left |
| Fixes.DeleteGroup | comprehensive_fixes.py:228-232 | the inner loop deletes the group's other rows one by one and counts them |
| Fixes.DeleteAll | comprehensive_fixes.py:213-238 | the outer loop leaves exactly the survivors and counts the rows deleted |
| Fixes.CleanDuplicateRecords | comprehensive_fixes.py:178-242 | with no flagged rows, or a `duplicate_id` that `int()` refuses (the ValueError returns 0; `_`-separated digits such as "1_0" are accepted), nothing changes; otherwise the survivors are left; deleted + rows left = rows before |
| Fixes.ExportRows | comprehensive_fixes.py:253-274 | the selected rows are exactly the table's rows of the session (all without one) |
| Fixes.ExportRowsDescending | comprehensive_fixes.py:257-263 | selected rows come in descending id order |
| Fixes.ExportDistinct | comprehensive_fixes.py:279-289 | no two exported records share a content hash |
| Fixes.ExportCovers | comprehensive_fixes.py:279-289 | every content hash is exported through its first record |
| Fixes.FirstByHash | comprehensive_fixes.py:279-289 | the loop keeps exactly the first record of every content hash, in order |
| Fixes.ExportDeduplicatedData | comprehensive_fixes.py:244-311 | exports the first record per hash of the rows in id-descending order, removed = total - kept |
| FixDuplicateCorrect.HammingDistance | fix_duplicate_correct.py:10-19 | a text that is not hexadecimal gives 64; a missing hash raises (None) unless the first one already failed to parse |
| FixDuplicateCorrect.HammingOfHex16 | fix_duplicate_correct.py:10-19 | on two rendered 64-bit fingerprints it is the SimHash distance: at most 64, and 0 exactly for equal fingerprints |
| FixDuplicateCorrect.HammingSymmetric | fix_duplicate_correct.py:10-19 | the distance does not depend on argument order |
| FixDuplicateCorrect.HammingAtMost64 | fix_duplicate_correct.py:10-19 | between texts holding 64-bit values the distance is at most 64 |
| FixDuplicateCorrect.SimilarityOrder | fix_duplicate_correct.py:28-41 | `1 - d/64` is strictly decreasing, so sorting by similarity is sorting by distance |
| FixDuplicateCorrect.DefaultGate | fix_duplicate_correct.py:21-31 | with the defaults 0.75 and 16 a text passes exactly when its distance is at most 16 |
| FixDuplicateCorrect.Candidates | fix_duplicate_correct.py:25-38 | at most one entry per text scanned |
| FixDuplicateCorrect.CandidatesRaise | fix_duplicate_correct.py:25-27 | the scan raises exactly when some text with a different hash cannot be compared |
| FixDuplicateCorrect.CandidatesMembers | fix_duplicate_correct.py:25-38 | an entry is listed exactly when some text with a different hash passes both gates, with its id, title, distance and similarity |
| FixDuplicateCorrect.InsertByDistance | fix_duplicate_correct.py:41 | inserting adds exactly one entry |
| FixDuplicateCorrect.SortByDistance | fix_duplicate_correct.py:41 | the sort is a permutation of its input |
| FixDuplicateCorrect.InsertSorted | fix_duplicate_correct.py:41 | inserting into a sorted list keeps it sorted, the new head being the nearer one |
| FixDuplicateCorrect.FirstNearest | fix_duplicate_correct.py:41-88 | the first entry of least distance |
| FixDuplicateCorrect.SortByDistanceFacts | fix_duplicate_correct.py:41-88 | the sort is by distance and, being stable, starts with the first nearest entry |
| FixDuplicateCorrect.FindSimilarTexts | fix_duplicate_correct.py:21-42 | raises exactly when the scan raises; otherwise the similar texts sorted by distance |
| FixDuplicateCorrect.SortedKey | fix_duplicate_correct.py:106 | `tuple(sorted([a, b]))` is ordered and holds the same two ids |
| FixDuplicateCorrect.KnownKey | fix_duplicate_correct.py:107 | true exactly when a recorded pair has that key |
| FixDuplicateCorrect.RatedStep | fix_duplicate_correct.py:84-119 | one more record gets its rate |
| FixDuplicateCorrect.PairsFromRowsStep | fix_duplicate_correct.py:105-115 | recorded pairs stay pairs of a record and its best match |
| FixDuplicateCorrect.ListedExtend | fix_duplicate_correct.py:107 | appending pairs keeps keys already recorded |
| FixDuplicateCorrect.RowsListedStep | fix_duplicate_correct.py:105-115 | every record with a match has its pair's key recorded |
| FixDuplicateCorrect.KeysUniqueStep | fix_duplicate_correct.py:106-107 | no key is recorded twice |
| FixDuplicateCorrect.FixedStep | fix_duplicate_correct.py:76-129 | one more pass of the loop keeps rates, pairs and keys as stated |
| FixDuplicateCorrect.FixDuplicateCalculation | fix_duplicate_correct.py:44-129 | fails exactly when some record's scan raises or a record with a match has a NULL title or a best match with a NULL title (`['title'][:50]`); otherwise every record is updated with its rate and the pairs are the best matches, one per key |
| FixDuplicateCorrect.RateIsNearest | fix_duplicate_correct.py:86-119 | a record without matches gets 0.0; otherwise the similarity of its nearest match, which passes both default gates |
| Paging.FloorDiv | database.py:260 | Python's `//`: the floor of the quotient for either sign of the divisor |
| Paging.TotalPagesCeil | database.py:260 | `(total + size - 1) // size` is the least page count covering `total` rows, and 0 exactly when there are none |
| Paging.PageOf | database.py:223-224 | a page holds at most `page_size` rows |
| Paging.PageSlot | database.py:223-224 | slot r of page q + 1 is row q * size + r |
| Paging.PageWithinTotal | database.py:223-260 | a page that starts before the end is within the page count |
| Paging.PageEntry | database.py:223-260 | every row appears on page k // size + 1 at slot k % size, and that page is within the count |
| Database.Untee | database.py:332-334 | every 'T' becomes a space and nothing else changes |
| Database.NormalizeTimeShape | database.py:330-366 | dates get " 00:00:00", minutes get ":00", full times are kept, other lengths are reparsed or returned as they are |
| Database.NormalizeTimeIdempotent | database.py:330-366 | normalising a normalised time changes nothing (given a reparse that yields full times) |
| Database.NormalizeValue | database.py:188-205 | strings are normalised, lists keep their items, other values are unchanged |
| Database.Chars | database.py:337-340 | `list += str` appends one single-character string per character, in order |
| Database.MarksConcat | database.py:215-217 | placeholders of joined text add up |
| Database.JoinMarks | database.py:213-217 | joining with a separator free of placeholders keeps the count |
| Database.Fragments | database.py:186-205 | one SQL fragment per condition, in order |
| Database.RepeatMarks | database.py:200 | `','.join(['?' ...])` has one placeholder per item |
| Database.LikeMarks | database.py:208-213 | the search clause has one placeholder per searched field |
| Database.FragmentMarks | database.py:188-213 | each condition's fragment has one placeholder per parameter it adds |
| Database.FragmentsMarks | database.py:186-213 | all fragments together have one placeholder per parameter |
| Database.WherePlaceholders | database.py:215-235 | the WHERE clause has exactly as many placeholders as the parameter list has values |
| Database.AllParamsSnoc | database.py:186-213 | parameters accumulate condition by condition |
| Database.BuildWhere | database.py:183-213 | one condition per filter, in order (a range, an IN list or an equality), then the LIKE search on the four fields when searching; the parameters are those of the conditions |
| Database.TimeRangeBounds | database.py:188-195 | a range filter becomes BETWEEN with both bounds already normalised |
| Database.SqlWindow | database.py:224 | LIMIT returns at most `limit` rows |
| Database.GetData | database.py:223-269 | fails exactly when `page_size` is 0 (the division raises); otherwise reports the total, page and page size asked for |
| Database.GetDataIsSlice | database.py:223-260 | for a positive page and size the data is the Python slice of that page and the page count is the least one covering all rows |
| ResultStore.InsertColumns | result_database_new.py:734-742 | 13 base columns plus a flag and a reason column per tag (13 + 14 + 14) |
| ResultStore.TagCell | result_database_new.py:724-731 | '是' exactly when the tag's `belongs` is truthy, else '否'; a tag that is absent gets ('否', '无'); a tag entry that is not a dict raises (None) |
| ResultStore.FlattenTags | result_database_new.py:713-731 | fails exactly when some tag cell raises; otherwise the flag and reason columns are the 14 tag cells in tag order |
| ResultStore.BaseValues | result_database_new.py:683-749 | 13 values: `original_id` and `session_id` without default, the other eleven from the data or their fixed defaults |
| ResultStore.TagsOf | result_database_new.py:592-597 | the tag names whose flag is '是', and all of them |
| ResultStore.ViewOf | result_database_new.py:540-590 | keeps the row id, reads `original_id` as `COALESCE(original_id, id)`, each other field as the stored value or its COALESCE default, and the tag flag and reason columns as stored |
| ResultStore.IndexOf | result_database_new.py:557-566 | the position of the row with that id, or none when no row has it |
| ResultStore.Reverse | result_database_new.py:462 | the rows in reverse order |
| ResultStore.Matching | result_database_new.py:407-461 | exactly the rows the WHERE clause keeps, in table order |
| ResultStore.ResultRows | result_database_new.py:403-462 | no page for page size 0 (the division by zero); otherwise rows drawn from the table, each matching the stripped keyword when one is given |
| ResultStore.Views | result_database_new.py:466-505 | one COALESCE view per selected row, in order |
| ResultStore.ViewsOfRows | result_database_new.py:444-505 | every view of a selected row is the view of a table row the search keeps |
| ResultStore.ResultsPage | result_database_new.py:397-508 | no page for page size 0 (the division by zero); otherwise the requested page and size, and every item is the COALESCE view (`'无标题'`, `'无内容'`, duplicate_id `'无'`, rate 0.0, ...) of a stored row matching the stripped keyword when one is given |
| ResultStore.ResultTable.FindOriginal | result_database_new.py:686-688 | finds a row with that `original_id` exactly when one exists |
| ResultStore.ResultTable.SaveAnalysisResult | result_database_new.py:676-778 | a non-None `original_id` already stored inserts nothing and reports the existing id; otherwise it fails exactly when the record raises on save (an unbindable value, a tag cell that raises), and a failure changes nothing; otherwise one row is appended with the next AUTOINCREMENT id holding the data's values, defaults and flattened tags |
| ResultStore.ResultTable.Insert | result_database_new.py:759-764 | appends one row with the next id |
| ResultStore.ResultTable.GetById | result_database_new.py:517-604 | no result exactly for an unknown id; otherwise the view of that row |
| ResultStore.ResultTable.DeleteAnalysisResult | result_database_new.py:880-915 | succeeds exactly when the id exists; then exactly that row is removed; an unknown id changes nothing |
| ResultStore.InsertedValues | result_database_new.py:745-753 | the base values and the tag cells are what the insert writes |
| ResultStore.AppendValid | result_database_new.py:686-764 | appending with the next id keeps ids ascending and original ids unique |
| ResultStore.RemovePreserves | result_database_new.py:903 | deleting a row keeps the table valid and leaves no row with its id |
| ResultStore.Without | result_database_new.py:903 | removes exactly one row |
| ResultStore.ResultsPageNewestFirst | result_database_new.py:397-508 | the items of a page of results are in descending id order, and without a keyword the total counts every row |
| ResultStore.ReverseDescending | result_database_new.py:462 | reversing ascending ids gives descending ids |
| ResultStore.PageDescending | result_database_new.py:423-463 | a page of a descending list is descending |
| ResultStore.SavedFieldsReadBack | result_database_new.py:696-707 | for a record whose values already have their columns' types (ColumnTyped, so SQLite's type affinity changes nothing), a saved record reads back with its own fields, or the defaults where it had none, and `original_id` falls back to the row id |
| ResultStore.SavedTagsReadBack | result_database_new.py:724-731 | the tags read back are exactly the tags the saved record says it belongs to |
| UnifiedSource.Len | unified_data_source_manager.py:130 | `len` is defined exactly on lists, dicts and strings |
| UnifiedSource.InWindow | unified_data_source_manager.py:175-179 | an item is kept only when it is a dict whose time field is a string between start and end |
| UnifiedSource.WindowMask | unified_data_source_manager.py:175-179 | marks exactly the items whose time field is in the window |
| UnifiedSource.FilterWindow | unified_data_source_manager.py:171-179 | fails exactly when some item raises (a non-dict item, or a truthy non-string time); otherwise the marked items, in order |
| UnifiedSource.FilterWindowMembers | unified_data_source_manager.py:173-179 | kept items are dict items whose time field lies between start and end by string order; every dict item with a non-empty time in that range is kept |
| UnifiedSource.JsonPayload | unified_data_source_manager.py:95-99 | a dict yields its `data`, else `items`, else `results`, else the dict alone in a list; other values are kept |
| UnifiedSource.Payload | unified_data_source_manager.py:91-99 | CSV rows are taken as they are; a JSON document is unwrapped |
| UnifiedSource.MapRecord | unified_data_source_manager.py:111-114 | holds exactly the system fields whose file field is present, with that field's value |
| UnifiedSource.MapItem | unified_data_source_manager.py:110-114 | a dict element gets its mapped record; a string or list element raises exactly when some file field occurs in it (substring or membership) and otherwise maps to {}; any other element raises |
| UnifiedSource.CharItems | unified_data_source_manager.py:110 | iterating a string yields its characters as one-character strings |
| UnifiedSource.Elements | unified_data_source_manager.py:110 | the elements walked over a list or a string, as many as `len` counts |
| UnifiedSource.Mapped | unified_data_source_manager.py:108-116 | the mapped data is a list of records as long as the payload; a list payload maps element by element; a dict or string payload yields only {} records |
| UnifiedSource.MapElements | unified_data_source_manager.py:109-115 | fails exactly when some element raises; otherwise one mapped record per element, in order |
| UnifiedSource.MapPayload | unified_data_source_manager.py:108-116 | fails exactly when the mapping loop raises (including a non-iterable payload); otherwise the mapped data |
| UnifiedSource.StoredData | unified_data_source_manager.py:108-125 | with a mapping the stored data is a list |
| UnifiedSource.DataSourceManager.ConfigureFileSource | unified_data_source_manager.py:76-140 | nothing changes unless the file is at most 10 MB, of type csv or json, read successfully and (with a mapping) mapped without raising; then the source is "file", the config is stored and the data is the mapped records or the payload itself; success additionally needs `len` of that data, so a null or numeric payload fails with the new state in place |
| UnifiedSource.DataSourceManager.GetFileData | unified_data_source_manager.py:160-202 | fails with "no data" exactly when the upload is falsy; a truthy upload that is not a list fails; a page needs a list and a non-zero page size |
| UnifiedSource.DataSourceManager.FileDataCount | unified_data_source_manager.py:223-228 | in file mode the count is the length of the upload, and `len` raises exactly when the upload is not a list, dict or string |
| UnifiedSource.DataSourceManager.SwitchSourceType | unified_data_source_manager.py:263-277 | succeeds exactly for "api" or "file", which becomes the source; otherwise the source is unchanged; the data and config never change |
| UnifiedSource.DataSourceManager.ClearFileData | unified_data_source_manager.py:279-284 | empties data and config; the source ends as "api" |
| UnifiedSource.FilePageHolds | unified_data_source_manager.py:181-194 | without a time window, item k of an uploaded list is on page k // size + 1 at slot k % size, with total = all items and that page within the count |
| UnifiedSource.FilteredPageHolds | unified_data_source_manager.py:171-194 | with a time window, kept item k is on page k // size + 1 at slot k % size, with total = kept items |
| UnifiedSource.CountIgnoresFilters | unified_data_source_manager.py:223-228 | the file-mode count does not depend on the filters |
| UnifiedSource.DataSourceManager.constructor | unified_data_source_manager.py:30-34 | a new manager uses the API source, with an empty upload and no file config |
| ApiSource.WalkAppend | api_data_source_manager.py:64-71 | walking two key lists in turn is walking their concatenation |
| ApiSource.WalkNull | api_data_source_manager.py:67-70 | once None, a walk stays None |
| ApiSource.GetNestedValue | api_data_source_manager.py:61-74 | the loop's value is the walk of the dot-separated keys, None as soon as a key is missing or a non-dict is reached |
| ApiSource.NestedDotted | api_data_source_manager.py:61-74 | looking up "a.b" is looking up b in the value at a |
| ApiSource.JoinAppend | api_data_source_manager.py:64 | splitting on '.' and joining back composes over concatenation |
| ApiSource.MapItem | api_data_source_manager.py:83-87 | holds exactly the system fields whose nested value is not None, with that value |
| ApiSource.ApiSourceManager.constructor | api_data_source_manager.py:42-44 | a new manager has no configuration |
| ApiSource.ApiSourceManager.ConfigureApi | api_data_source_manager.py:56-58 | the configuration is stored |
| ApiSource.MapEach | api_data_source_manager.py:83-90 | one mapped dict per item, as many as there are items |
| ApiSource.ApiSourceManager.ApplyFieldMapping | api_data_source_manager.py:76-90 | without a mapping the data is returned unchanged; otherwise the loop yields `MapEach` of the data: one mapped item per input, in order |
| ApiSource.ApiSourceManager.BuildQueryParams | api_data_source_manager.py:92-120 | keys are the custom, paging, time-window and base keys; custom values override paging, paging overrides the time window, the window overrides base values |
| ApiSource.ApiSourceManager.GetConfig | api_data_source_manager.py:244-267 | none without a configuration; otherwise url, auth type and timeout as configured, headers, query parameters, field mapping and pagination config defaulting to `{}`, and an auth section exactly when auth config is non-empty, which is MaskAuth of it: same keys, every secret value "***" |
| ApiSource.MaskAuth | api_data_source_manager.py:261-265 | same keys; values under a key containing "key" or "token" in any case become "***", the others are kept |
| ApiSource.MaskHidesSecrets | api_data_source_manager.py:263 | a secret value never shows through the mask |
| ApiSource.PageFromBody | api_data_source_manager.py:176-193 | a page size of 0 fails (the division raises) |
| ApiSource.PageTotalsFallBack | api_data_source_manager.py:176-193 | without `total`/`count` the total is the number of items (from data, items or results), and the page count is the least one covering them |
| ApiSource.PageItems | api_data_source_manager.py:180-186 | a list body is the item list; unmapped it is returned as is, mapped it keeps one item per input |
| Prompts.FillTemplate | agents/tag_agents.py:77-108 | no template gives the content alone; a template gives the template with every placeholder replaced in turn (`{{x}}` before `{x}`), then the "文本内容" block and the content; a template without '{' is kept as written; the content is always in the prompt |
| Prompts.Appended | agents/tag_agents.py:108 | the appended block ends the prompt and carries the content |
| Prompts.Embedded | agents/tag_agents.py:93-105 | a text spliced into the middle is contained in the result |
| Prompts.ContainsHead | agents/tag_agents.py:92-105 | a contained placeholder's first character occurs in the template |
| Prompts.SubstituteNoBraces | agents/tag_agents.py:92-105 | a template without '{' is left unchanged by the substitutions |
| Prompts.ReplaceCarries | agents/tag_agents.py:93 | `replace` of an occurring pattern puts the replacement into the text |
| Prompts.ReplaceKeepsPrefix | agents/tag_agents.py:92-105 | replacing a placeholder leaves a leading text without '{' in place |
| Prompts.OutsidePlaceholder | agents/tag_agents.py:92-105 | a non-empty text without braces that a placeholder does not contain cannot start inside a leading occurrence of that placeholder |
| Prompts.ReplaceKeeps | agents/tag_agents.py:92-105 | a brace-free text not contained in the placeholder survives that placeholder's replacement |
| Prompts.SubstituteKeeps | agents/tag_agents.py:92-105 | such a text survives all the remaining replacements |
| Prompts.SubstituteSplit | agents/tag_agents.py:92-105 | the replacements applied in two runs give the same template as applied in one |
| Prompts.SubstitutePlaces | agents/tag_agents.py:92-105 | a placeholder present when its turn comes puts its value into the filled template, when the value has no braces and no later placeholder contains it |
| TagAgents.TagSubs | agents/tag_agents.py:92-105 | the six placeholders, double braces first, are all well formed |
| TagAgents.BuiltinPrompt | agents/tag_agents.py:75 | the built-in prompt contains the content |
| TagAgents.BuildAnalysisPrompt | agents/tag_agents.py:59-75 | a non-blank custom prompt is filled; else a non-empty global template is filled; else the built-in text; the content is always in the prompt |
| TagAgents.Verdict | agents/tag_agents.py:118-125 | as written: an explicit "判断结果：是" gives true; true only with that line, a 是 among the first 20 characters, or a risk word when there is no verdict; false only with "判断结果：否", a 否 early, or no risk word |
| TagAgents.IntendedVerdict | agents/tag_agents.py:118-125 | corrected: "判断结果：是" gives true, "判断结果：否" without it false, and without either line it agrees with the as-written reading |
| TagAgents.NoVerdictReadAsYes | agents/tag_agents.py:119-122 | a reply opening with "判断结果：否" whose first 20 characters also hold "是" is read as belonging |
| TagAgents.NoVerdictHonoured | agents/tag_agents.py:119-122 | the corrected reading honours that explicit "否" verdict |
| TagAgents.IntendedVerdictSound | agents/tag_agents.py:118-125 | an explicit "判断结果：是" gives true, an explicit "判断结果：否" without it gives false, and without either the reading is unchanged from the original |
| TagAgents.Reason | agents/tag_agents.py:127-135 | the stripped text after the last "分析原因：" when that is at least 10 characters, else the whole stripped reply |
| TagAgents.ParseLlmResponse | agents/tag_agents.py:113-137 | the verdict as written (Verdict: a "判断结果：是" or a 是 among the first 20 characters wins over the no-verdict) and the reason of the stripped reply |
| TagAgents.ParseLlmResponseIntended | agents/tag_agents.py:113-137 | the corrected parse: same reason; an explicit "判断结果：否" opening without a yes-verdict gives false; without explicit verdicts it agrees with the source |
| TagAgents.Analyze | agents/tag_agents.py:21-57 | the result names the agent's tag; a reply gives the verdict and reason ParseLlmResponse reads from it; a failing model call gives false with "分析失败: " and the error |
| TagAgents.TagsWith | agents/tag_agents.py:231-232 | exactly the tags of the results with that verdict |
| TagAgents.TagsPartition | agents/tag_agents.py:229-240 | positive and negative tags together number the results |
| TagAgents.TagSummaryOf | agents/tag_agents.py:229-240 | positive_count + negative_count = total_tags = number of results, and the lists partition the tags by verdict |
| TagAgents.TagNamesDistinct | agents/tag_agents.py:151-182 | the fourteen tag names are distinct |
| TagAgents.RunAgents | agents/tag_agents.py:204-227 | one result per agent, in agent order |
| TagAgents.BuildAgents | agents/tag_agents.py:184-189 | one agent per tag name, with its description and its configured prompt |
| TagAgents.TagAgents.constructor | agents/tag_agents.py:146-189 | one agent per tag, in definition order, with its description and its configured prompt |
| TagAgents.TagAgents.AnalyzeTags | agents/tag_agents.py:193-227 | one result per defined tag, in definition order, each the analysis by that tag's agent |
| TagAgents.TagAgents.AnalyzeSingleTag | agents/tag_agents.py:242-260 | an unknown tag gives false with "标签 … 不存在"; a known one its agent's analysis |
| TagAgents.TagAgents.UpdateAgentPrompt | agents/tag_agents.py:262-283 | succeeds exactly for a known tag, then sets both the agent's prompt and the configured prompt; otherwise nothing changes |
| TagAgents.TagAgents.GetAgentPrompt | agents/tag_agents.py:285-299 | "" for an unknown tag; the non-empty custom prompt; else the global template |
| TagAgents.TagAgents.GetAllAgentPrompts | agents/tag_agents.py:301-308 | one entry per agent, each its current prompt |
| TagAgents.UpdatedPromptReadsBack | agents/tag_agents.py:262-299 | after an update the new prompt is read back and used to build the analysis prompt |
| CompanyAgent.WordsFrom | agents/company_agent.py:242-243 | the words found are never empty |
| CompanyAgent.CoreWords | agents/company_agent.py:242-243 | every core word is non-empty and made only of `[a-zA-Z一-龥]` characters |
| CompanyAgent.WordsOverlap | agents/company_agent.py:246-253 | an overlap over 60 percent needs a common word; a non-empty word set always overlaps itself |
| CompanyAgent.LengthGap | agents/company_agent.py:238-239 | `abs(len(a) - len(b))`: each length is within the gap of the other, and the gap is one of the two differences |
| CompanyAgent.IsSimilarCompanyName | agents/company_agent.py:231-259 | similar exactly when the names are equal or, with lengths at most 10 apart, their core-word sets overlap by more than 60 percent (Jaccard) or one name contains the other |
| CompanyAgent.SimilarityShape | agents/company_agent.py:231-259 | equal names are similar; similarity is symmetric; a length gap over 10 rules it out; a substring within that gap rules it in |
| CompanyAgent.TrimLeading | agents/company_agent.py:207 | drops exactly the leading run of non-letter, non-CJK characters |
| CompanyAgent.TrimTrailing | agents/company_agent.py:208 | drops exactly the trailing run of non-letter, non-CJK characters |
| CompanyAgent.CleanName | agents/company_agent.py:205-208 | a cleaned name is empty or starts and ends with a letter or CJK character |
| CompanyAgent.IfLongEnough | agents/company_agent.py:210-211 | a name is kept exactly when it has at least two characters |
| CompanyAgent.CleanedNames | agents/company_agent.py:202-211 | no more names than given, each at least two characters |
| CompanyAgent.KeepFirstOfEach | agents/company_agent.py:213-229 | keeps a sub-list of the names |
| CompanyAgent.KeptPairwiseDissimilar | agents/company_agent.py:213-229 | no two kept names are similar |
| CompanyAgent.KeptCoversAll | agents/company_agent.py:213-229 | every name is similar to some kept name |
| CompanyAgent.DeduplicateCompanies | agents/company_agent.py:196-229 | [] for no names; otherwise the first of each similar run of the cleaned names |
| CompanyAgent.CleanNames | agents/company_agent.py:202-211 | the cleaning loop computes the cleaned names |
| CompanyAgent.KeepDissimilar | agents/company_agent.py:213-229 | the de-duplication loop keeps the first of each similar run |
| CompanyAgent.CleanStep | agents/company_agent.py:203-211 | one more name is cleaned and kept when long enough |
| CompanyAgent.KeepStep | agents/company_agent.py:217-227 | one more name is kept exactly when it is similar to no kept name |
| CompanyAgent.SimilarToSeen | agents/company_agent.py:219-223 | the scan of the seen set finds a similar name exactly when a kept name is similar |
| CompanyAgent.CompanySubs | agents/company_agent.py:121-127 | the two content placeholders are well formed |
| CompanyAgent.BuildCompanyPrompt | agents/company_agent.py:70-113 | a non-blank custom template is filled; the prompt always ends with the content block |
| CompanyAgent.AnalyzeCompanies | agents/company_agent.py:27-68 | blank text gives []; a reply gives the de-duplicated parsed names; a failing call gives the rule-based fallback |
| CompanyAgent.AnalyzedNamesDissimilar | agents/company_agent.py:196-229 | the names returned are at least two characters, distinct and pairwise dissimilar |
| SentimentAgent.FillSentimentTemplate | agents/sentiment_agent.py:81-105 | no template gives the content; a "{{content}}" template is returned with it replaced; otherwise a "{content}" template with that replaced; a template without placeholders is followed by the content block and the content, nothing else; the content is always in the prompt |
| SentimentAgent.RuntimeTemplate | agents/sentiment_agent.py:62-63 | a non-empty configured agent prompt wins; the result is empty only when the default template is |
| SentimentAgent.TakeLine | agents/sentiment_agent.py:111 | `[^\n]+` takes the text up to the first newline |
| SentimentAgent.SearchHit | agents/sentiment_agent.py:111-127 | a label followed by a colon at the scan position matches there |
| SentimentAgent.SearchSkips | agents/sentiment_agent.py:111-127 | positions without a match are skipped, so the first match wins |
| SentimentAgent.Canonical | agents/sentiment_agent.py:114-124 | a level mentioning 负面三级, 负面二级, 负面一级, 中性 or 正面 becomes that canonical name, in that precedence; any other level is kept |
| SentimentAgent.ParseSentimentReply | agents/sentiment_agent.py:107-133 | without a "情感等级" line the level is 中性; without an "分析原因" section the reason is "无详细分析" |
| SentimentAgent.SearchFound | agents/sentiment_agent.py:111-127 | `re.search` as modelled by SearchFrom: a result is the stripped group of a real match (label, colon, group) at or after the scan position, and the label then occurs in the reply |
| SentimentAgent.TakeLineStops | agents/sentiment_agent.py:111 | the captured level stops at the newline |
| SentimentAgent.LevelLineRead | agents/sentiment_agent.py:111-112 | a leading "情感等级：level" line yields that level |
| SentimentAgent.Middle | agents/sentiment_agent.py:127 | a text spliced between two others occurs at their junction |
| SentimentAgent.ReasonRead | agents/sentiment_agent.py:127-128 | the reason is the stripped rest of the reply after "分析原因：" |
| SentimentAgent.ParseFormattedReply | agents/sentiment_agent.py:107-133 | a reply written as a level line and a reason section parses back to the canonical level and the stripped reason (round trip) |
| SentimentAgent.KeywordsIn | agents/sentiment_agent.py:164-168 | no more matches than keywords |
| SentimentAgent.KeywordsInMembers | agents/sentiment_agent.py:164-168 | the matches are exactly the keywords occurring in the content |
| SentimentAgent.CombosMet | agents/sentiment_agent.py:198-200 | at most one point per combination |
| SentimentAgent.CombosMetZero | agents/sentiment_agent.py:198-214 | the context score is 0 exactly when no combination is wholly present |
| SentimentAgent.CombosFor | agents/sentiment_agent.py:189-214 | 负面 levels use the negative combinations; 正面 and 中性 levels the positive ones |
| SentimentAgent.Score | agents/sentiment_agent.py:159-181 | the level score lies between 0 and keywords + 2 × strong signals + the number of combinations for that level |
| SentimentAgent.ScoreBounds | agents/sentiment_agent.py:159-181 | the level score is never negative, bounded by keywords + 2·signals + 5, and 0 exactly when nothing matches |
| SentimentAgent.ScoreMatches | agents/sentiment_agent.py:164-175 | the loop collects the present words and adds the weight for each |
| SentimentAgent.CountCombos | agents/sentiment_agent.py:198-214 | the loop counts the combinations wholly present |
| SentimentAgent.AnalyzeContextScore | agents/sentiment_agent.py:183-216 | the context score of a level, between 0 and 5 |
| SentimentAgent.CalculateLevelScore | agents/sentiment_agent.py:159-181 | keywords present + 2 × strong signals present + context score, never negative |
| SentimentAgent.LevelScores | agents/sentiment_agent.py:142-146 | one score per level, in table order |
| SentimentAgent.BestIndex | agents/sentiment_agent.py:149 | `max` by score: a highest score, the first one on ties |
| SentimentAgent.Shorten | agents/sentiment_agent.py:263 | up to 200 characters are kept; longer contexts are their first 200 characters and "..." |
| SentimentAgent.RelevantContext | agents/sentiment_agent.py:256-264 | "" or a context of more than 50 and at most 203 characters |
| SentimentAgent.FindRelevantContext | agents/sentiment_agent.py:254-264 | the loop returns the first keyword's window longer than 50 characters |
| SentimentAgent.WindowShowsKeyword | agents/sentiment_agent.py:258-263 | the shortened window still shows its keyword |
| SentimentAgent.ContextShowsKeyword | agents/sentiment_agent.py:254-264 | a non-empty context contains a keyword that occurs in the content |
| SentimentAgent.SentimentReason | agents/sentiment_agent.py:218-252 | the reason starts with "判定为" the level and its description |
| SentimentAgent.JoinStartsWithFirst | agents/sentiment_agent.py:252 | a join starts with its first piece |
| SentimentAgent.RuleBasedAnalysis | agents/sentiment_agent.py:139-157 | the level has a maximal score, no earlier level scoring as much, and the reason describes that level |
| SentimentAgent.AnalyzeSentiment | agents/sentiment_agent.py:50-79 | a model reply is parsed; a failing call falls back to the rule table: the first level with the highest score, one of the five, with a reason describing it |
| SentimentAgent.TableNames | agents/sentiment_agent.py:22-48 | the table has the five levels in order |
| SentimentAgent.CanonicalIdempotent | agents/sentiment_agent.py:114-124 | canonicalising a canonical level changes nothing |
| Chat.ProcessValueFacts | chat_api.py:119-127 | lists and dicts become their JSON text; strings up to 500 characters are kept, longer ones become their first 500 characters and "..."; None stays None |
| Chat.KeysOf | chat_api.py:118-127 | the field names of the selected entries, in order |
| Chat.SelectedFacts | chat_api.py:118-127 | each selected entry is a requested field present and not None, with its processed value; every such field is selected, once |
| Chat.SelectedEmpty | chat_api.py:129 | nothing is selected exactly when no requested field is present |
| Chat.LookupMissing | chat_api.py:130-133 | a key absent from the entries reads as the default |
| Chat.MakeItem | chat_api.py:130-133 | the item holds the selected entries and, unless a field is itself named "序号", the 1-based position |
| Chat.EffectiveFields | chat_api.py:114-116 | the requested fields, or the five default fields when none were requested and there are results |
| Chat.Selections | chat_api.py:110-127 | one selection per result, in order |
| Chat.Shown | chat_api.py:110 | `search_results[:10]`: at most 10, and all results when there are fewer |
| Chat.Speaker | chat_api.py:142 | "用户" exactly for role "user", else "助手" |
| Chat.Entry | chat_api.py:141-144 | the history entry carries the message text and its speaker |
| Chat.Entries | chat_api.py:140-144 | one entry per message, in order |
| Chat.Recent | chat_api.py:139 | `history[-10:]`: the last at most 10 messages, in order |
| Chat.SelectFields | chat_api.py:118-127 | the field loop computes the selection |
| Chat.EntriesSnoc | chat_api.py:140-144 | one more message adds one entry |
| Chat.RecentHistory | chat_api.py:136-144 | the history loop yields the entries of the recent messages |
| Chat.BuildContext | chat_api.py:100-151 | the loops build the context: items, recent history, total and fields used |
| Chat.AddResultItem | chat_api.py:110-133 | one more result adds its item when it selected anything |
| Chat.SelectionsStep | chat_api.py:110-133 | selections grow one result at a time |
| Chat.ItemsCount | chat_api.py:129-133 | no more items than results |
| Chat.ItemsHaveFields | chat_api.py:129 | every item has at least one field |
| Chat.ItemsNumbered | chat_api.py:110-131 | every item is numbered by the 1-based position of its result and holds that result's selection |
| Chat.ItemsIncreasing | chat_api.py:110-131 | item numbers increase |
| Chat.SelectionShown | chat_api.py:129-133 | a non-empty selection appears as an item with its number |
| Chat.SelectionsUnnumbered | chat_api.py:118-127 | without a "序号" field no selection overrides the number |
| Chat.ContextItemsNumbered | chat_api.py:110-131 | context items are numbered within the shown results, in increasing order |
| Chat.ContextShowsResult | chat_api.py:110-133 | each of the first 10 results with a selected field appears as an item numbered by its position |
| Chat.ContextItemsBounded | chat_api.py:110-129 | at most 10 items, no more than results, none empty |
| Chat.ContextHistoryKept | chat_api.py:137-144 | the history is the last min(10, n) messages with their texts and speakers |
| Chat.ContextTotals | chat_api.py:146-151 | total_results counts all results, not only those shown; the fields used are the effective fields |
| Chat.AppendAssoc | chat_api.py:175-190 | appending to the prompt piece by piece equals appending the pieces joined |
| Chat.AppendFieldLines | chat_api.py:178-180 | the field loop appends one "key: value" line per field |
| Chat.AppendItems | chat_api.py:176-180 | the item loop appends each item's header and field lines |
| Chat.AppendHistory | chat_api.py:189-190 | the history loop appends one "speaker: text" line per entry |
| Chat.BuildSystemPrompt | chat_api.py:153-194 | the `+=` steps compute the system prompt |
| Chat.ExtendPrompt | chat_api.py:173-192 | the sections after the preamble are appended in order |
| Chat.DiffersAfter | chat_api.py:174-184 | prompts that differ right after a common prefix cannot start alike |
| Chat.StartsWithConcat | chat_api.py:173-192 | a prompt starts with what was appended first |
| Chat.ResultsSectionOpening | chat_api.py:175 | the results section opens differently from the notice |
| Chat.NoticeIffNoItems | chat_api.py:174-184 | the "no search results" notice follows the opening exactly when there are no context items |
| Chat.SystemPromptNotice | chat_api.py:153-184 | the system prompt carries the notice exactly when the context has no items |
| Chat.PromptEndsWithClosing | chat_api.py:192 | the system prompt always ends with the closing request |
| Chat.ResponseFor | chat_api.py:76-98 | success exactly when the model call reports success; then no error and context_used is the number of results; otherwise an error and no context count |
| Chat.ChatWithAi | chat_api.py:40-98 | a blank message is rejected with 400 "问题不能为空" and only then; otherwise the stripped message and the system prompt of the context go to the model and its reply is reported |
| ApiKeys.ValidateApiKey | api_key_manager.py:105-117 | valid exactly when the key is not blank and, for dashscope, starts with "sk-" and has at least 20 characters; valid exactly when the message is the success message; blank keys get the empty-key message |
| ApiKeys.SaveCheck | api_key_manager.py:45-55 | raises exactly for a blank key or a dashscope key without "sk-"; otherwise stores the stripped key |
| ApiKeys.StripKeepsPrefix | api_key_manager.py:51-55 | stripping keeps the "sk-" prefix |
| ApiKeys.ValidKeysAreSaved | api_key_manager.py:45-55 | a key that validates is stored, non-empty and, for dashscope, with its prefix |
| ApiKeys.ShortKeySavedButInvalid | api_key_manager.py:45-55 | "sk-a" is stored for dashscope yet does not validate |
| ApiKeys.ResolveKey | api_key_manager.py:78-99 | the stripped environment key when it is not blank, else a non-empty stored key, else none; a resolved key is never empty |
| ApiKeys.SavedKeyIsUsed | api_key_manager.py:55-99 | without the environment variable the stored key is the one used |
| ApiKeys.MaskHides | api_key_manager.py:154 | the mask has the key's length; a key over 12 characters shows its first 8 and last 4, a shorter one its first 4, and every other position is '*' |
| ApiKeys.ShortKeyShownWhole | api_key_manager.py:154 | a key of at most four characters is shown whole |
| ApiKeys.KeyStatusAsWritten | api_key_manager.py:139-160 | configured exactly when a key resolves, with that key masked; the source is "environment" whenever the variable is set and non-empty, else "encrypted_storage"; unconfigured has no source and no mask |
| ApiKeys.StatusNamesSkippedEnvironment | api_key_manager.py:150-151 | a whitespace-only variable with a stored key: the stored key is used, yet the status names the environment |
| ApiKeys.KeyStatusOf | api_key_manager.py:139-160 | configured exactly when a key resolves, with that key masked; unconfigured has no source and no mask |
| ApiKeys.StatusSourceIsKeyOrigin | api_key_manager.py:78-99 | the source is "environment" exactly when the key in use is the stripped variable, "encrypted_storage" exactly when it is the stored key |

## Left out

- SQLite, files, Redis, HTTP and the network are left out. Connections, commits, `fetchall`, the JSON/CSV/Excel writers, the Redis branch of the block index (`text_deduplicator.py:137-144`, `221-227`, `264-275`), the aiohttp request in `api_data_source_manager.py` and the Fernet key file are I/O. Tables are sequences of rows and query results are parameters.
- Language-model calls and async orchestration are not modelled. The model client is a function parameter returning a reply or an exception.
- Exceptions raised by the database driver are left out. In the reconciliation scripts they make a pass return 0, `None` or `{'success': False}`. Exceptions that the modelled data itself causes, such as a `duplicate_id` that `int()` rejects, a comparison Python refuses or an unhashable key, are modelled as a `None` or failure result, except where a line of this section says otherwise.
- `num_blocks` is a `nat`, so a negative `num_blocks` is not modelled. A `num_blocks` of 0 makes `64 // 0` raise; this is modelled in `Deduplicator.TextDeduplicator.AddText` and `Deduplicator.Raises`. The methods `GenerateFragments`, `FindSimilarTexts`, `UpdateIndex` and `StoreAndReport` of `Deduplicator.TextDeduplicator`, and the functions on fragments and the block index, require `num_blocks >= 1` instead, because every caller reaches them only after that division has succeeded.
- SQLite type affinity is not modelled. A value is stored as the `Values.Value` given, so an INTEGER column does not turn `'5'` into `5`, and a TEXT column does not store `str(5)`. `ResultStore.ResultTable.FindOriginal` compares stored values exactly, so `Str("5")` and `Int(5)` are different original ids here, while SQLite would match them. The read-back lemmas require `ColumnTyped`, under which affinity changes nothing.
- `round(x, 3)` is not modelled (`text_deduplicator.py:357`, `comprehensive_fixes.py:87`, `fix_duplicate_correct.py:37`). Similarities are exact reals `1 - d/64`.
- Floating-point scores are not modelled. The sentiment scores are whole numbers in the source (sums of 1.0 and 2.0), so they are integers here, and `{score:.2f}` prints `.00`. `Values.Show` renders floats, lists and dicts as "", so a float field shown in the chat prompt is not rendered as Python would.
- Deduplicator.ItemId: `str(id)` of a float, list or dict id is rendered as "" (`Values.Show`), where Python writes `repr`-like text such as "1.5". Records whose ids are, say, 1.5 and 2.5 therefore share the storage key "" here and overwrite each other, while Python stores them under "1.5" and "2.5". Python's shortest float rendering and container `repr` are not modelled. Strings, integers, booleans and None are rendered exactly.
- Deduplicator.DuplicateDetectionManager.DetectDuplicates: for the same reason, records with float, list or dict ids are stored under the shared key "", so a later such record overwrites an earlier one in `text_storage`, where Python keeps both.
- Deduplicator.ChainStores: the storage keys it names are `ItemId`s, so for float, list or dict ids they are "" rather than Python's `str(id)`.
- Python's dict-key equality `1 == 1.0 == True` is not modelled. `Values` keeps ints, reals and booleans distinct, so such ids are different keys here.
- The character class `一-龥` is modelled exactly. `str.lower()` is modelled for ASCII only (`PyText.LowerAscii`). `strip()` uses Python's whitespace set for `str` (`PyText.IsSpace`: the ASCII whitespace, `\x1c`-`\x1f`, `\x85`, `\xa0` and the Unicode space and separator characters).
- The company agent's reply parsing (`company_agent.py:135-194`) and the rule-based fallback extraction (`company_agent.py:261-321`) are regular-expression and heuristic code. They are parameters.
- The word-set Jaccard ratio in `_is_similar_company_name` (`company_agent.py:246-253`) is modelled as "the core-word sets overlap by more than 60%", in integer arithmetic on set sizes.
- The `except` fallbacks of `_fill_content_into_template` (tag, company and sentiment agents) and of `_parse_llm_response` are not modelled. Substitution over strings cannot raise here.
- `get_sentiment_summary` (`sentiment_agent.py:266-297`) is not modelled. Its rule-based branch cannot run, because `analyze_sentiment` catches every exception.
- `_analyze_context_score` finds the level name with `list.index` on the rule values (`sentiment_agent.py:188`). Here the level's own name is passed, which is the same because the five rules are distinct.
- The `TagResult` items beyond tag, verdict and reason are left out, as are the logging and progress prints in every file.
- `remove_api_key`, `save_api_key`'s file write, `is_api_key_configured` and `ensure_api_key_configured` in `api_key_manager.py` are left out. So are `get_chat_status` and `get_model_info` in `chat_api.py`. They are file, environment or HTTP wrappers.
- In `auto_deduplicator.py`, `get_duplicate_summary_report` (298-355) and the database part (356-430) are left out. In `comprehensive_fixes_v2.py`, `fix_empty_summaries` and the report printing are left out. The left-out parts are reports and SQL wrappers.
- `get_current_source_info`, `configure_api_source`, the API branch of `get_data_count` and `test_connection` are not modelled. They forward to the HTTP client.
- Deduplicator.TextDeduplicator.FindSimilarTexts: the candidates form a set, whose iteration order Python does not fix. The contract therefore leaves the order of the result open. It states which candidates are in the result and with which distances.
- DedupJson.Less: list-valued ids are read as unorderable here, while Python orders two lists lexicographically (`[1, 1] < [1, 2]`). Modelling that needs Python's `==` over nested values, and list comparison is not transitive in what it can compare (`[0, "x"]` and `[0, 5]` both compare with `[1]` but not with each other), so the "fails exactly when two records of one id cannot be compared" contracts would no longer hold as stated.
- DedupJson.PickSmallestIds: for the reason above, two records of one `original_id` whose ids are lists make the pick fail here, where Python keeps the lexicographically smaller one.
- DedupJson.DeduplicateJsonByOriginalId: for the same reason it gives None on list-valued ids that Python compares.
- Fixes.ParseInt: non-ASCII decimal digits (`"１２"`, `"١٢"`), which `int()` accepts, are read as failures, because the Unicode digit table is not modelled. The `duplicate_id`s this model writes are `str(id)` in ASCII digits (`Fixes.ParseIntShow`). `_` separators between digits are modelled.
- Fixes.CleanDuplicateRecords: a flagged row whose `duplicate_id` is written in non-ASCII decimal digits makes the pass return 0 and delete nothing here, where Python groups and deletes it.
- ResultStore.ResultsPage: its items are `ResultStore.ResultView`s, which also carry the derived `tags` list of `get_analysis_result_by_id`. The dicts `get_analysis_results` builds do not have that key.
- Hex.ParseHex: a leading `-` and `_` digit separators, which `int(s, 16)` accepts, are read as failures. The fingerprints it parses are written by `Hex.Hex16`, which writes neither.
- UnifiedSource.DataSourceManager.GetFileData: its contract covers the "no upload" and non-list cases only. The page contents are stated by `UnifiedSource.FilePageHolds` and `UnifiedSource.FilteredPageHolds`.
- ApiSource.PageFromBody: a `total` or `count` that is a float is read as a failure here, where Python computes a float `total_pages` (`api_data_source_manager.py:179`, `193`), because floating point is not modelled. Its contract only says that a page size of 0 fails. The totals and items are stated by `ApiSource.PageTotalsFallBack` and `ApiSource.PageItems`, for list bodies and for dict bodies without `total`/`count`.

## Findings

| source | as written | input that shows it | evidently intended | confidence | as-written member | corrected member |
|---|---|---|---|---|---|---|
| agents/tag_agents.py:119-122 | `"是" in response[:20]` is tested before the explicit "判断结果：否" | the reply "判断结果：否\n分析原因：不是违规行为" is read as belonging, since "不是" puts "是" in the first 20 characters | an explicit "判断结果：否" verdict gives False | high, not executed | TagAgents.NoVerdictReadAsYes | TagAgents.NoVerdictHonoured |
| api_key_manager.py:150-151 | the status names "environment" whenever `DASHSCOPE_API_KEY` is a non-empty string | `DASHSCOPE_API_KEY=" "` with a stored key: `get_api_key` skips the blank variable and uses the stored key, yet the status says "environment" | the source names where the key in use came from, stripped as in `get_api_key` (81-83) | high, not executed | ApiKeys.StatusNamesSkippedEnvironment | ApiKeys.StatusSourceIsKeyOrigin |
