/**
 * The company agent: it asks the language model for the companies a text
 * names, then cleans the names and keeps one name per company, dropping
 * every name similar to one already kept. The model call and the
 * regular-expression reading of its reply are parameters.
 */
module CompanyAgent {
  import opened Wrappers
  import opened PyText
  import opened Prompts

  /** `[a-zA-Z一-龥]`: the characters company-name words are made of. */
  predicate IsWordChar(c: char) {
    ('a' <= c <= 'z') || ('A' <= c <= 'Z') || ('一' <= c <= '龥')
  }

  /** The maximal runs of word characters of `s`, the current run being `run`. */
  function WordsFrom(s: string, run: string): (words: seq<string>)
    requires forall k :: 0 <= k < |run| ==> IsWordChar(run[k])
    ensures forall i :: 0 <= i < |words| ==> words[i] != ""
    ensures forall i, k :: 0 <= i < |words| && 0 <= k < |words[i]| ==> IsWordChar(words[i][k])
    decreases |s|
  {
    var flushed := if run == "" then [] else [run];
    if s == [] then flushed
    else if IsWordChar(s[0]) then WordsFrom(s[1..], run + [s[0]])
    else flushed + WordsFrom(s[1..], "")
  }

  /** `set(re.findall(r'[a-zA-Z一-龥]+', name.lower()))`. */
  function CoreWords(name: string): (r: set<string>)
    ensures forall w :: w in r ==> w != "" && forall k :: 0 <= k < |w| ==> IsWordChar(w[k])
  {
    var words := WordsFrom(LowerAscii(name), "");
    set i | 0 <= i < |words| :: words[i]
  }

  /** The word sets overlap by more than 60 percent of their union. */
  function WordsOverlap(a: set<string>, b: set<string>): (r: bool)
    ensures r ==> a * b != {}
    ensures a == b && a != {} ==> r
  {
    assert a == b ==> a * b == a && a + b == a;
    a != {} && b != {} && 5 * |a * b| > 3 * |a + b|
  }

  /** `abs(len(name1) - len(name2))`. */
  function LengthGap(name1: string, name2: string): (r: nat)
    ensures |name1| <= |name2| + r && |name2| <= |name1| + r
    ensures r == |name1| - |name2| || r == |name2| - |name1|
  {
    if |name1| >= |name2| then |name1| - |name2| else |name2| - |name1|
  }

  /**
   * `_is_similar_company_name`: equal names are similar; names whose
   * lengths differ by more than 10 are not; otherwise they are similar when
   * their word sets overlap by more than 60 percent or one contains the
   * other.
   */
  function IsSimilarCompanyName(name1: string, name2: string): (r: bool)
    ensures name1 == name2 ==> r
    ensures r && name1 != name2 ==> LengthGap(name1, name2) <= 10
    ensures LengthGap(name1, name2) <= 10 && (Contains(name1, name2) || Contains(name2, name1)) ==> r
    ensures LengthGap(name1, name2) <= 10 && WordsOverlap(CoreWords(name1), CoreWords(name2)) ==> r
    ensures r ==>
      name1 == name2
      || (LengthGap(name1, name2) <= 10
          && (WordsOverlap(CoreWords(name1), CoreWords(name2)) || Contains(name1, name2) || Contains(name2, name1)))
  {
    if name1 == name2 then true
    else if LengthGap(name1, name2) > 10 then false
    else WordsOverlap(CoreWords(name1), CoreWords(name2)) || Contains(name2, name1) || Contains(name1, name2)
  }

  /** Similarity is reflexive and symmetric, and the length gap rules it out whatever the words. */
  lemma SimilarityShape(name1: string, name2: string)
    ensures IsSimilarCompanyName(name1, name1)
    ensures IsSimilarCompanyName(name1, name2) <==> IsSimilarCompanyName(name2, name1)
    ensures name1 != name2 && LengthGap(name1, name2) > 10 ==> !IsSimilarCompanyName(name1, name2)
    ensures LengthGap(name1, name2) <= 10 && (Contains(name1, name2) || Contains(name2, name1)) ==> IsSimilarCompanyName(name1, name2)
  {
    var a, b := CoreWords(name1), CoreWords(name2);
    assert a * b == b * a && a + b == b + a;
  }

  /** `re.sub(r'^[^a-zA-Z一-龥]*', '', s)`. */
  function TrimLeading(s: string): (r: string)
    ensures |r| <= |s| && r == s[|s| - |r|..]
    ensures r == [] || IsWordChar(r[0])
    ensures forall k :: 0 <= k < |s| - |r| ==> !IsWordChar(s[k])
    decreases |s|
  {
    if s == [] || IsWordChar(s[0]) then s else TrimLeading(s[1..])
  }

  /** `re.sub(r'[^a-zA-Z一-龥]*$', '', s)`. */
  function TrimTrailing(s: string): (r: string)
    ensures |r| <= |s| && r == s[..|r|]
    ensures r == [] || IsWordChar(r[|r| - 1])
    ensures forall k :: |r| <= k < |s| ==> !IsWordChar(s[k])
    decreases |s|
  {
    if s == [] || IsWordChar(s[|s| - 1]) then s else TrimTrailing(s[..|s| - 1])
  }

  /** The cleaning of one name: whitespace runs collapsed, then non-word characters trimmed off both ends. */
  function CleanName(name: string): (r: string)
    ensures r == [] || (IsWordChar(r[0]) && IsWordChar(r[|r| - 1]))
  {
    var t := TrimLeading(CollapseSpaces(Strip(name)));
    TrimTrailing(t)
  }

  /** A cleaned name is kept when it has at least two characters. */
  function IfLongEnough(c: string): (r: seq<string>)
    ensures |r| <= 1 && (r == [c] <==> |c| >= 2)
  {
    if |c| >= 2 then [c] else []
  }

  /** The cleaned names of at least two characters, in order. */
  function CleanedNames(names: seq<string>): (r: seq<string>)
    ensures |r| <= |names|
    ensures forall c :: c in r ==> |c| >= 2
  {
    if |names| == 0 then []
    else
      var last := IfLongEnough(CleanName(names[|names| - 1]));
      assert forall c :: c in last ==> |c| >= 2;
      CleanedNames(names[..|names| - 1]) + last
  }

  /** Some kept name is similar to `name`. */
  predicate SimilarToKept(name: string, kept: seq<string>) {
    exists k :: 0 <= k < |kept| && IsSimilarCompanyName(name, kept[k])
  }

  /** The names kept by the second loop: each name unless it is similar to one already kept. */
  function KeepFirstOfEach(names: seq<string>): (kept: seq<string>)
    ensures |kept| <= |names|
    ensures forall k :: 0 <= k < |kept| ==> kept[k] in names
  {
    if |names| == 0 then []
    else
      var init := names[..|names| - 1];
      var kept := KeepFirstOfEach(init);
      assert forall k :: 0 <= k < |kept| ==> kept[k] in names by {
        forall k | 0 <= k < |kept| ensures kept[k] in names {
          var j :| 0 <= j < |init| && init[j] == kept[k];
          assert names[j] == init[j];
        }
      }
      if SimilarToKept(names[|names| - 1], kept) then kept else kept + [names[|names| - 1]]
  }

  /** No two names of `s` are similar, in either order. */
  predicate PairwiseDissimilar(s: seq<string>) {
    forall i, j :: 0 <= i < j < |s| ==> !IsSimilarCompanyName(s[j], s[i]) && !IsSimilarCompanyName(s[i], s[j])
  }

  /** No two kept names are similar, in either order. */
  lemma {:induction false} KeptPairwiseDissimilar(names: seq<string>)
    ensures PairwiseDissimilar(KeepFirstOfEach(names))
  {
    if |names| > 0 {
      var init := names[..|names| - 1];
      KeptPairwiseDissimilar(init);
      var kept := KeepFirstOfEach(init);
      var last := names[|names| - 1];
      if !SimilarToKept(last, kept) {
        var all := kept + [last];
        assert KeepFirstOfEach(names) == all;
        forall i, j | 0 <= i < j < |all|
          ensures !IsSimilarCompanyName(all[j], all[i]) && !IsSimilarCompanyName(all[i], all[j])
        {
          if j == |kept| {
            assert all[j] == last && all[i] == kept[i];
            assert !IsSimilarCompanyName(last, kept[i]);
            SimilarityShape(last, kept[i]);
          } else {
            assert all[i] == kept[i] && all[j] == kept[j];
          }
        }
      }
    }
  }

  /** Every name is similar to some kept name: a dropped name to the one that made it a duplicate, a kept name to itself. */
  lemma {:induction false} KeptCoversAll(names: seq<string>)
    ensures forall i :: 0 <= i < |names| ==> SimilarToKept(names[i], KeepFirstOfEach(names))
  {
    if |names| > 0 {
      var init := names[..|names| - 1];
      KeptCoversAll(init);
      var kept := KeepFirstOfEach(init);
      var last := names[|names| - 1];
      var all := KeepFirstOfEach(names);
      assert kept <= all;
      forall i | 0 <= i < |names|
        ensures SimilarToKept(names[i], all)
      {
        if i < |names| - 1 {
          assert names[i] == init[i];
          var k :| 0 <= k < |kept| && IsSimilarCompanyName(init[i], kept[k]);
          assert all[k] == kept[k];
        } else if !SimilarToKept(last, kept) {
          SimilarityShape(last, last);
          assert all[|kept|] == last;
        }
      }
    }
  }

  /**
   * `_deduplicate_companies`: the cleaned names of at least two characters,
   * keeping the first of each group of similar names, in order.
   */
  method DeduplicateCompanies(names: seq<string>) returns (unique: seq<string>)
    ensures unique == KeepFirstOfEach(CleanedNames(names))
    ensures names == [] ==> unique == []
  {
    var cleaned := CleanNames(names);
    unique := KeepDissimilar(cleaned);
  }

  /** The first loop of `_deduplicate_companies`. */
  method CleanNames(names: seq<string>) returns (cleaned: seq<string>)
    ensures cleaned == CleanedNames(names)
  {
    cleaned := [];
    var i := 0;
    while i < |names|
      invariant 0 <= i <= |names|
      invariant cleaned == CleanedNames(names[..i])
    {
      CleanStep(names, i);
      cleaned := cleaned + IfLongEnough(CleanName(names[i]));
      i := i + 1;
    }
    assert names[..i] == names;
  }

  /** The second loop of `_deduplicate_companies`, with `seen_names` the set of the names kept so far. */
  method KeepDissimilar(cleaned: seq<string>) returns (unique: seq<string>)
    ensures unique == KeepFirstOfEach(cleaned)
  {
    unique := [];
    var seen: set<string> := {};
    var j := 0;
    while j < |cleaned|
      invariant 0 <= j <= |cleaned|
      invariant unique == KeepFirstOfEach(cleaned[..j])
      invariant forall x :: x in seen <==> x in unique
    {
      var name := cleaned[j];
      KeepStep(cleaned, j);
      var duplicate := SimilarToSeen(name, seen, unique);
      if !duplicate {
        unique := unique + [name];
        seen := seen + {name};
      }
      j := j + 1;
    }
    assert cleaned[..j] == cleaned;
  }

  /** One more name adds its cleaned form when that has at least two characters. */
  lemma CleanStep(names: seq<string>, i: nat)
    requires i < |names|
    ensures CleanedNames(names[..i + 1]) == CleanedNames(names[..i]) + IfLongEnough(CleanName(names[i]))
  {
    assert names[..i + 1][..i] == names[..i];
  }

  /** One more name is kept exactly when it is not similar to a name kept before it. */
  lemma KeepStep(names: seq<string>, j: nat)
    requires j < |names|
    ensures KeepFirstOfEach(names[..j + 1]) ==
      if SimilarToKept(names[j], KeepFirstOfEach(names[..j])) then KeepFirstOfEach(names[..j])
      else KeepFirstOfEach(names[..j]) + [names[j]]
  {
    assert names[..j + 1][..j] == names[..j];
  }

  /** The inner loop of `_deduplicate_companies`: whether some seen name is similar to `name`. */
  method SimilarToSeen(name: string, seen: set<string>, kept: seq<string>) returns (duplicate: bool)
    requires forall x :: x in seen <==> x in kept
    ensures duplicate <==> SimilarToKept(name, kept)
  {
    var rest := seen;
    duplicate := false;
    while rest != {}
      invariant rest <= seen
      invariant !duplicate
      invariant forall e :: e in seen - rest ==> !IsSimilarCompanyName(name, e)
      decreases |rest|
    {
      var existing :| existing in rest;
      if IsSimilarCompanyName(name, existing) {
        assert existing in kept;
        var k :| 0 <= k < |kept| && kept[k] == existing;
        return true;
      }
      rest := rest - {existing};
    }
    assert forall k :: 0 <= k < |kept| ==> kept[k] in seen;
  }

  /** The built-in company prompt, used when no non-blank template is configured. */
  const BuiltinTemplate: string := Join("\n", [
    "你是一个专业的企业信息识别专家，专门负责从新闻文本中识别和归纳企业信息。",
    "",
    "任务要求：",
    "1. 仔细阅读文本内容，识别所有提到的企业",
    "2. 对于同一家公司的简称、别名、英文名等，都要归纳为同一家企业",
    "3. 返回该企业用于工商注册的正式名称（全称）",
    "4. 只返回企业名称，不要其他信息",
    "",
    "识别规则：",
    "- 识别所有企业实体，包括公司、集团、股份公司、有限公司等",
    "- 将简称（如\"阿里\"）归纳为正式名称（如\"阿里巴巴集团控股有限公司\"）",
    "- 将英文名（如\"Apple\"）归纳为中文正式名称（如\"苹果公司\"）",
    "- 将子公司、分公司等归纳到母公司",
    "- 去除重复的企业名称",
    "",
    "输出格式：",
    "请严格按照以下JSON格式返回，只包含企业名称数组：",
    "",
    "```json",
    "[",
    "    \"企业名称1\",",
    "    \"企业名称2\",",
    "    \"企业名称3\"",
    "]",
    "```",
    "",
    "注意：",
    "- 只返回企业名称，不要其他说明",
    "- 使用正式注册名称，不要简称",
    "- 确保JSON格式正确",
    "- 如果文本中没有企业，返回空数组 []",
    "",
    "文本内容：",
    "{content}"
  ])

  /** The placeholders a company template may use. */
  function CompanySubs(text: string): (subs: seq<Substitution>)
    ensures Placeholders(subs) && Delimited(subs)
  {
    [("{{content}}", text), ("{content}", text)]
  }

  /** `_build_company_prompt`: the configured template when it is not blank, else the built-in one, filled with the text. */
  function BuildCompanyPrompt(promptTemplate: Option<string>, text: string): (r: string)
    ensures promptTemplate.Some? && Strip(promptTemplate.value) != "" ==>
      r == FillTemplate(promptTemplate, CompanySubs(text), text)
    ensures EndsWith(r, ContentBlock + text)
  {
    var template := if promptTemplate.Some? && Strip(promptTemplate.value) != "" then promptTemplate.value else BuiltinTemplate;
    FillTemplate(Some(template), CompanySubs(text), text)
  }

  /**
   * `analyze_companies`: nothing for an empty or blank text; otherwise the
   * deduplicated names read off the reply, or the rule-based names when the
   * model call raises.
   */
  method AnalyzeCompanies(text: string, promptTemplate: Option<string>, llm: string -> LlmReply,
                          parse: string -> seq<string>, fallback: string -> seq<string>) returns (names: seq<string>)
    ensures Strip(text) == "" ==> names == []
    ensures Strip(text) != "" && llm(BuildCompanyPrompt(promptTemplate, text)).Answer? ==>
      names == KeepFirstOfEach(CleanedNames(parse(llm(BuildCompanyPrompt(promptTemplate, text)).text)))
    ensures Strip(text) != "" && llm(BuildCompanyPrompt(promptTemplate, text)).Raised? ==> names == fallback(text)
  {
    if Strip(text) == "" {
      return [];
    }
    var reply := llm(BuildCompanyPrompt(promptTemplate, text));
    match reply
    case Answer(t) =>
      names := DeduplicateCompanies(parse(t));
    case Raised(_) =>
      names := fallback(text);
  }

  /** What `analyze_companies` answers never holds two similar names, however the reply is read. */
  lemma AnalyzedNamesDissimilar(replyNames: seq<string>)
    ensures var kept := KeepFirstOfEach(CleanedNames(replyNames));
      && (forall i :: 0 <= i < |kept| ==> |kept[i]| >= 2)
      && (forall i, j :: 0 <= i < j < |kept| ==> !IsSimilarCompanyName(kept[i], kept[j]))
      && (forall i, j :: 0 <= i < j < |kept| ==> kept[i] != kept[j])
  {
    var cleaned := CleanedNames(replyNames);
    var kept := KeepFirstOfEach(cleaned);
    KeptPairwiseDissimilar(cleaned);
    forall i, j | 0 <= i < j < |kept|
      ensures kept[i] != kept[j]
    {
      SimilarityShape(kept[i], kept[j]);
    }
  }
}
