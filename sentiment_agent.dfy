/**
 * The sentiment agent: it files a text under one of five risk levels. The
 * language model is asked first and its reply read with two regular
 * expressions; when the call fails, a keyword table scores every level and
 * the highest score wins. The model call is a parameter.
 */
module SentimentAgent {
  import opened Wrappers
  import opened Values
  import opened PyText
  import opened Prompts

  /** One row of the level table: the level's name, its keywords, its strong signals and its description. */
  datatype LevelRule = LevelRule(name: string, keywords: seq<string>, strongSignals: seq<string>, description: string)

  /** `SentimentResult(level, reason)`. */
  datatype SentimentResult = SentimentResult(level: string, reason: string)

  const Level3: string := "负面三级（重大风险）"
  const Level2: string := "负面二级（显著风险）"
  const Level1: string := "负面一级（潜在风险/关注点）"
  const Neutral: string := "中性"
  const Positive: string := "正面"

  const Levels: seq<LevelRule> := [
    LevelRule(Level3,
      [
        "财务造假", "欺诈发行", "重大贿赂", "立案调查", "刑事处罚", "持续经营能力丧失",
        "核心业务停顿", "关键资质吊销", "核心技术丧失", "专利权属丧失", "重大诉讼", "控制权重大不确定性",
        "实际控制人纠纷", "股权冻结", "质押平仓", "控制权变更", "财务真实性崩塌", "虚增收入",
        "虚增利润", "体外资金循环"
      ],
      [
        "证监会", "公安", "立案调查", "刑事处罚", "资质吊销", "控制权变更",
        "虚增收入", "虚增利润"
      ],
      "可能导致IPO项目'一票否决'的致命风险，涉及严重违法犯罪、持续经营能力丧失、控制权重大不确定性、财务真实性崩塌等"),
    LevelRule(Level2,
      [
        "行政处罚", "税务", "环保", "产品质量", "劳动保障", "经营指标异常",
        "财务指标异常", "毛利率", "同行业", "单一客户", "供应商依赖", "重大诉讼",
        "仲裁", "知识产权", "关键合同", "关联交易", "定价公允", "商业合理性",
        "利益输送", "个人卡收付款", "资金占用", "内控缺陷"
      ],
      [
        "行政处罚", "指标异常", "重大诉讼", "关联交易", "个人卡收付款", "资金占用"
      ],
      "需要立即启动专项核查的风险点，涉及一般性违法违规、经营/财务指标重大异常、重大诉讼/仲裁、关联交易问题、内部控制严重缺陷等"),
    LevelRule(Level1,
      [
        "市场传闻", "质疑", "业绩下滑", "客户变化", "供应商变化", "核心人员离职",
        "行业风险", "政策变化", "技术迭代", "市场环境", "并购重组", "估值",
        "条款", "分歧", "不确定性"
      ],
      [
        "市场传闻", "业绩下滑", "核心人员离职", "行业风险", "并购重组"
      ],
      "投行项目早期的预警信号和潜在关注点，涉及市场传闻与质疑、客观经营波动、行业性风险、交易不确定性等"),
    LevelRule(Neutral,
      [
        "日常经营", "客观", "事实性", "常规", "正常", "发布",
        "签署", "合同", "人事变动", "信息披露", "行业报告", "提及"
      ],
      [
        "日常经营", "客观", "事实性"
      ],
      "对主体日常经营活动的客观、事实性报道，对项目风险评估无直接实质性影响"),
    LevelRule(Positive,
      [
        "技术突破", "产品认证", "权威机构", "重要奖项", "国家级", "国际级",
        "战略合作", "行业巨头", "经营业绩", "超预期", "市场认可", "声誉提升",
        "市场地位", "投资者信心"
      ],
      [
        "技术突破", "产品认证", "重要奖项", "战略合作", "超预期"
      ],
      "能提升公司价值和市场信心的信息，涉及重大技术突破、核心产品认证、重要奖项、重大战略合作、经营业绩超预期等")
  ]

  /** The five level names, in table order. */
  const LevelNames: seq<string> := [Level3, Level2, Level1, Neutral, Positive]

  // ---------------------------------------------------------------- prompt

  /**
   * `_fill_content_into_template`: a missing template is the content itself;
   * otherwise `{{content}}` is replaced when present, else `{content}`, else
   * the content is appended under a heading.
   */
  function FillSentimentTemplate(template: Option<string>, content: string): (r: string)
    ensures template.None? ==> r == content
    ensures template.Some? && Contains(template.value, "{{content}}") ==> r == Replace(template.value, "{{content}}", content)
    ensures template.Some? && !Contains(template.value, "{{content}}") && !Contains(template.value, "{content}") ==>
      EndsWith(r, ContentBlock + content) && StartsWith(r, template.value)
        && |r| == |template.value| + |ContentBlock| + |content|
    ensures template.Some? && !Contains(template.value, "{{content}}") && Contains(template.value, "{content}") ==>
      r == Replace(template.value, "{content}", content)
    ensures Contains(r, content)
  {
    match template
    case None =>
      ContainsWitness(content, content, 0);
      content
    case Some(t) =>
      if Contains(t, "{{content}}") then
        ReplaceCarries(t, "{{content}}", content);
        Replace(t, "{{content}}", content)
      else if Contains(t, "{content}") then
        ReplaceCarries(t, "{content}", content);
        Replace(t, "{content}", content)
      else
        Appended(t, ContentBlock, content);
        t + ContentBlock + content
  }

  /**
   * The template `analyze_sentiment` uses: the configured agent prompt when
   * there is one, else the agent's own; the built-in default when that is empty.
   */
  function RuntimeTemplate(agentPrompt: Option<string>, ownTemplate: string, defaultTemplate: string): (t: string)
    ensures agentPrompt.Some? && agentPrompt.value != "" ==> t == agentPrompt.value
    ensures t == "" ==> defaultTemplate == ""
  {
    var runtime := if agentPrompt.Some? then agentPrompt.value else ownTemplate;
    if runtime != "" then runtime else defaultTemplate
  }

  // ----------------------------------------------------------- reply parsing

  const LevelLabel: string := "情感等级"
  const ReasonLabel: string := "分析原因"

  /** `[：:]`. */
  predicate IsColon(c: char) {
    c == '：' || c == ':'
  }

  /** The two capture groups: `([^\n]+)` for the level, `([\s\S]+)` for the reason. */
  datatype Capture = RestOfLine | RestOfText

  /** The text up to, not including, the first newline. */
  function TakeLine(s: string): (r: string)
    ensures |r| <= |s| && r == s[..|r|]
    ensures '\n' !in r
    ensures |r| < |s| ==> s[|r|] == '\n'
  {
    if s == [] || s[0] == '\n' then [] else [s[0]] + TakeLine(s[1..])
  }

  /** `\s*` followed by the group matches a non-empty part of `rest`. */
  predicate CaptureMatches(kind: Capture, rest: string) {
    match kind
    case RestOfLine => exists k :: 0 <= k < |rest| && rest[k] != '\n'
    case RestOfText => rest != []
  }

  /**
   * The group, stripped. `\s*` is greedy, so the group starts at the first
   * non-whitespace character; when `rest` is all whitespace it backtracks to
   * a whitespace group, which strips to "".
   */
  function Captured(kind: Capture, rest: string): string {
    match kind
    case RestOfLine => Strip(TakeLine(LStrip(rest)))
    case RestOfText => Strip(rest)
  }

  /** The pattern matches at position `j`: the marker, a colon, then the group. */
  predicate MatchesAt(text: string, marker: string, kind: Capture, j: nat) {
    j + |marker| < |text| && OccursAt(text, marker, j) && IsColon(text[j + |marker|])
      && CaptureMatches(kind, text[j + |marker| + 1..])
  }

  /** `re.search(marker + r"[：:]\s*" + group, text)` from position `i` on: the stripped group of the leftmost match. */
  function SearchFrom(text: string, marker: string, kind: Capture, i: nat): Option<string>
    decreases |text| - i
  {
    if i + |marker| >= |text| then None
    else if MatchesAt(text, marker, kind, i) then
      Some(Captured(kind, text[i + |marker| + 1..]))
    else SearchFrom(text, marker, kind, i + 1)
  }

  /** A match at position `i` is the one found from `i` on. */
  lemma {:induction false} SearchHit(text: string, marker: string, kind: Capture, i: nat)
    requires i + |marker| < |text| && OccursAt(text, marker, i) && IsColon(text[i + |marker|])
    requires CaptureMatches(kind, text[i + |marker| + 1..])
    ensures SearchFrom(text, marker, kind, i) == Some(Captured(kind, text[i + |marker| + 1..]))
  {
  }

  /** A text without the marker's first character has no match from position `i` on. */
  lemma {:induction false} SearchSkips(text: string, marker: string, kind: Capture, i: nat, j: nat)
    requires |marker| > 0 && i <= j
    requires forall k :: i <= k < j && k < |text| ==> text[k] != marker[0]
    ensures SearchFrom(text, marker, kind, i) == SearchFrom(text, marker, kind, j)
    decreases j - i
  {
    if i < j && i + |marker| < |text| {
      assert !OccursAt(text, marker, i) by {
        assert text[i] != marker[0];
      }
      SearchSkips(text, marker, kind, i + 1, j);
    }
  }

  /** None of the three 负面 markers occurs in `level`. */
  predicate NoNegativeMarker(level: string) {
    !Contains(level, "负面三级") && !Contains(level, "负面二级") && !Contains(level, "负面一级")
  }

  /** The level names are put into canonical form, the first marker contained deciding. */
  function Canonical(level: string): (r: string)
    ensures r in LevelNames || r == level
    ensures Contains(level, "负面三级") ==> r == Level3
    ensures !Contains(level, "负面三级") && Contains(level, "负面二级") ==> r == Level2
    ensures !Contains(level, "负面三级") && !Contains(level, "负面二级") && Contains(level, "负面一级") ==> r == Level1
    ensures NoNegativeMarker(level) && Contains(level, "中性") ==> r == Neutral
    ensures NoNegativeMarker(level) && !Contains(level, "中性") && Contains(level, "正面") ==> r == Positive
    ensures NoNegativeMarker(level) && !Contains(level, "中性") && !Contains(level, "正面") ==> r == level
    ensures r != level ==>
      (Contains(level, "负面三级") || Contains(level, "负面二级") || Contains(level, "负面一级")
       || Contains(level, "中性") || Contains(level, "正面"))
  {
    if Contains(level, "负面三级") then Level3
    else if Contains(level, "负面二级") then Level2
    else if Contains(level, "负面一级") then Level1
    else if Contains(level, "中性") then Neutral
    else if Contains(level, "正面") then Positive
    else level
  }

  /**
   * `_parse_llm_response`: the level after `情感等级：` on its line, 中性
   * when there is none, in canonical form; the text after `分析原因：`, or
   * 无详细分析 when there is none.
   */
  function ParseSentimentReply(response: string): (r: SentimentResult)
    ensures SearchFrom(response, LevelLabel, RestOfLine, 0).None? ==> r.level == Neutral
    ensures SearchFrom(response, ReasonLabel, RestOfText, 0).None? ==> r.reason == "无详细分析"
    ensures !Contains(response, LevelLabel) ==> r.level == Neutral
    ensures !Contains(response, ReasonLabel) ==> r.reason == "无详细分析"
  {
    var found := SearchFrom(response, LevelLabel, RestOfLine, 0);
    var level := if found.Some? then SearchFound(response, LevelLabel, RestOfLine, 0); found.value else Neutral;
    var reason := SearchFrom(response, ReasonLabel, RestOfText, 0);
    var text := if reason.Some? then SearchFound(response, ReasonLabel, RestOfText, 0); reason.value else "无详细分析";
    SentimentResult(Canonical(level), text)
  }

  /** A result is the stripped group of a match at or after `i`; the label then occurs in the text. */
  lemma {:induction false} SearchFound(text: string, marker: string, kind: Capture, i: nat)
    ensures SearchFrom(text, marker, kind, i).Some? ==>
      exists j :: i <= j && MatchesAt(text, marker, kind, j)
        && SearchFrom(text, marker, kind, i).value == Captured(kind, text[j + |marker| + 1..])
    ensures SearchFrom(text, marker, kind, i).Some? ==> Contains(text, marker)
    decreases |text| - i
  {
    if i + |marker| < |text| {
      if MatchesAt(text, marker, kind, i) {
        ContainsWitness(text, marker, i);
      } else {
        SearchFound(text, marker, kind, i + 1);
      }
    }
  }

  /** The reply format the prompt asks for. */
  function FormatReply(level: string, reason: string): string {
    LevelLabel + "：" + level + "\n" + ReasonLabel + "：" + reason
  }

  /** A line without a newline is taken whole. */
  lemma {:induction false} TakeLineStops(line: string, tail: string)
    requires '\n' !in line
    ensures TakeLine(line + "\n" + tail) == line
  {
    if line != [] {
      assert (line + "\n" + tail)[1..] == line[1..] + "\n" + tail;
      TakeLineStops(line[1..], tail);
    }
  }

  /** The level line of a reply in the requested format is read back whole. */
  lemma {:induction false} LevelLineRead(level: string, tail: string)
    requires level != [] && forall k :: 0 <= k < |level| ==> !IsSpace(level[k])
    ensures SearchFrom(LevelLabel + "：" + level + "\n" + tail, LevelLabel, RestOfLine, 0) == Some(level)
  {
    var text := LevelLabel + "：" + level + "\n" + tail;
    var rest := level + "\n" + tail;
    assert text[..|LevelLabel|] == LevelLabel;
    assert text[|LevelLabel|] == '：';
    assert text[|LevelLabel| + 1..] == rest;
    assert !IsSpace(rest[0]);
    assert CaptureMatches(RestOfLine, rest);
    assert LStrip(rest) == rest;
    assert '\n' !in level by {
      assert IsSpace('\n');
    }
    TakeLineStops(level, tail);
    StripNoSpace(level);
  }

  /** The middle part of a concatenation is found at its offset, followed by the last part. */
  lemma {:induction false} Middle(a: string, b: string, c: string)
    ensures OccursAt(a + b + c, b, |a|)
    ensures (a + b + c)[|a| + |b|..] == c
  {
    assert (a + b + c)[|a|..|a| + |b|] == b;
  }

  /** The reason of a reply is read back stripped when nothing before its marker holds 分. */
  lemma {:induction false} ReasonRead(prefix: string, reason: string)
    requires '分' !in prefix && reason != []
    ensures SearchFrom(prefix + ReasonLabel + "：" + reason, ReasonLabel, RestOfText, 0) == Some(Strip(reason))
  {
    var rest := "：" + reason;
    var text := prefix + ReasonLabel + rest;
    assert prefix + ReasonLabel + "：" + reason == text;
    var p := |prefix|;
    assert forall k :: 0 <= k < p && k < |text| ==> text[k] != ReasonLabel[0] by {
      forall k | 0 <= k < p && k < |text| ensures text[k] != ReasonLabel[0] {
        assert text[k] == prefix[k];
      }
    }
    SearchSkips(text, ReasonLabel, RestOfText, 0, p);
    Middle(prefix, ReasonLabel, rest);
    assert text[p + |ReasonLabel|] == rest[0] == '：';
    assert text[p + |ReasonLabel| + 1..] == rest[1..] == reason;
    SearchHit(text, ReasonLabel, RestOfText, p);
  }

  /**
   * A reply in the requested format is read back: its level in canonical
   * form and its reason stripped, whenever the level is one line without
   * whitespace or 分 and the reason is not empty.
   */
  lemma {:induction false} ParseFormattedReply(level: string, reason: string)
    requires level != [] && '分' !in level
    requires forall k :: 0 <= k < |level| ==> !IsSpace(level[k])
    requires reason != []
    ensures ParseSentimentReply(FormatReply(level, reason)) == SentimentResult(Canonical(level), Strip(reason))
  {
    var prefix := LevelLabel + "：" + level + "\n";
    assert '分' !in LevelLabel + "：";
    assert '分' !in level + "\n";
    assert prefix == (LevelLabel + "：") + (level + "\n");
    assert FormatReply(level, reason) == LevelLabel + "：" + level + "\n" + (ReasonLabel + "：" + reason)
      == prefix + ReasonLabel + "：" + reason;
    LevelLineRead(level, ReasonLabel + "：" + reason);
    ReasonRead(prefix, reason);
  }

  // ------------------------------------------------------------ rule scores

  /** The words of `words` that occur in `content`, in order, repeats kept. */
  function KeywordsIn(content: string, words: seq<string>): (found: seq<string>)
    ensures |found| <= |words|
  {
    if words == [] then []
    else
      var init := KeywordsIn(content, words[..|words| - 1]);
      var w := words[|words| - 1];
      if Contains(content, w) then init + [w] else init
  }

  /** The words found are exactly the words of the list that occur in `content`. */
  lemma {:induction false} KeywordsInMembers(content: string, words: seq<string>)
    ensures forall w :: w in KeywordsIn(content, words) <==> w in words && Contains(content, w)
  {
    if words != [] {
      var init := words[..|words| - 1];
      KeywordsInMembers(content, init);
      assert words == init + [words[|words| - 1]];
    }
  }

  /** Every word of the combination occurs in `content`. */
  predicate AllIn(content: string, combo: seq<string>) {
    forall k :: 0 <= k < |combo| ==> Contains(content, combo[k])
  }

  /** The number of combinations all of whose words occur in `content`. */
  function CombosMet(content: string, combos: seq<seq<string>>): (n: nat)
    ensures n <= |combos|
  {
    if combos == [] then 0
    else CombosMet(content, combos[..|combos| - 1]) + (if AllIn(content, combos[|combos| - 1]) then 1 else 0)
  }

  /** No combination is met exactly when the count is 0. */
  lemma {:induction false} CombosMetZero(content: string, combos: seq<seq<string>>)
    ensures CombosMet(content, combos) == 0 <==> forall c :: c in combos ==> !AllIn(content, c)
  {
    if combos != [] {
      var init := combos[..|combos| - 1];
      CombosMetZero(content, init);
      assert combos == init + [combos[|combos| - 1]];
    }
  }

  const NegativeCombinations: seq<seq<string>> := [
    ["处罚", "违规", "违法"],
    ["问题", "风险", "危机"],
    ["下降", "减少", "降低"],
    ["质疑", "怀疑", "不确定"],
    ["纠纷", "争议", "冲突"]
  ]

  const PositiveCombinations: seq<seq<string>> := [
    ["增长", "提升", "改善"],
    ["成功", "突破", "创新"],
    ["合作", "签约", "协议"],
    ["认证", "认可", "好评"],
    ["稳定", "正常", "良好"]
  ]

  /** The combinations scored for a level: the negative ones for a 负面 level, the positive ones for 正面 or 中性, none otherwise. */
  function CombosFor(levelName: string): (combos: seq<seq<string>>)
    ensures Contains(levelName, "负面") ==> combos == NegativeCombinations
    ensures !Contains(levelName, "负面") && (Contains(levelName, "正面") || Contains(levelName, "中性")) ==> combos == PositiveCombinations
    ensures |combos| <= 5
  {
    if Contains(levelName, "负面") then NegativeCombinations
    else if Contains(levelName, "正面") || Contains(levelName, "中性") then PositiveCombinations
    else []
  }

  /** `_calculate_level_score`: one point per keyword present, two per strong signal present, plus the context score. */
  function Score(content: string, rule: LevelRule): (r: int)
    ensures 0 <= r <= |rule.keywords| + 2 * |rule.strongSignals| + |CombosFor(rule.name)|
  {
    |KeywordsIn(content, rule.keywords)| + 2 * |KeywordsIn(content, rule.strongSignals)|
      + CombosMet(content, CombosFor(rule.name))
  }

  /** A level's score is never negative and at most its table allows. */
  lemma {:induction false} ScoreBounds(content: string, rule: LevelRule)
    ensures 0 <= Score(content, rule) <= |rule.keywords| + 2 * |rule.strongSignals| + 5
    ensures Score(content, rule) == 0 <==>
      (forall w :: w in rule.keywords ==> !Contains(content, w)) &&
      (forall w :: w in rule.strongSignals ==> !Contains(content, w)) &&
      (forall c :: c in CombosFor(rule.name) ==> !AllIn(content, c))
  {
    var kw := KeywordsIn(content, rule.keywords);
    var sig := KeywordsIn(content, rule.strongSignals);
    KeywordsInMembers(content, rule.keywords);
    KeywordsInMembers(content, rule.strongSignals);
    CombosMetZero(content, CombosFor(rule.name));
    if kw != [] {
      assert kw[0] in kw;
    }
    if sig != [] {
      assert sig[0] in sig;
    }
  }

  /** The keyword loop of `_calculate_level_score`: the matches, in order, and `weight` points for each. */
  method ScoreMatches(content: string, words: seq<string>, weight: int) returns (matches: seq<string>, score: int)
    ensures matches == KeywordsIn(content, words)
    ensures score == weight * |matches|
  {
    matches := [];
    score := 0;
    var i := 0;
    while i < |words|
      invariant 0 <= i <= |words|
      invariant matches == KeywordsIn(content, words[..i])
      invariant score == weight * |matches|
    {
      assert words[..i + 1][..i] == words[..i];
      if Contains(content, words[i]) {
        assert weight * (|matches| + 1) == weight * |matches| + weight;
        matches := matches + [words[i]];
        score := score + weight;
      }
      i := i + 1;
    }
    assert words[..i] == words;
  }

  /** The combination loop of `_analyze_context_score`. */
  method CountCombos(content: string, combos: seq<seq<string>>) returns (score: int)
    ensures score == CombosMet(content, combos)
  {
    score := 0;
    var i := 0;
    while i < |combos|
      invariant 0 <= i <= |combos|
      invariant score == CombosMet(content, combos[..i])
    {
      assert combos[..i + 1][..i] == combos[..i];
      if AllIn(content, combos[i]) {
        score := score + 1;
      }
      i := i + 1;
    }
    assert combos[..i] == combos;
  }

  /**
   * `_analyze_context_score`: for a 负面 level, the number of negative
   * combinations whose words all occur; for a 正面 or 中性 level, the
   * positive ones; otherwise 0.
   */
  method AnalyzeContextScore(content: string, levelName: string) returns (score: int)
    ensures score == CombosMet(content, CombosFor(levelName))
    ensures 0 <= score <= 5
  {
    score := 0;
    if Contains(levelName, "负面") {
      score := CountCombos(content, NegativeCombinations);
    } else if Contains(levelName, "正面") || Contains(levelName, "中性") {
      score := CountCombos(content, PositiveCombinations);
    }
  }

  /** `_calculate_level_score`. */
  method CalculateLevelScore(content: string, rule: LevelRule) returns (score: int)
    ensures score == Score(content, rule)
    ensures score >= 0
  {
    var keywordMatches, keywordScore := ScoreMatches(content, rule.keywords, 1);
    var signalMatches, signalScore := ScoreMatches(content, rule.strongSignals, 2);
    var contextScore := AnalyzeContextScore(content, rule.name);
    score := keywordScore + signalScore + contextScore;
    ScoreBounds(content, rule);
  }

  /** The scoring loop of `_rule_based_analysis`. */
  method LevelScores(content: string, levels: seq<LevelRule>) returns (scores: seq<int>)
    ensures |scores| == |levels|
    ensures forall j :: 0 <= j < |levels| ==> scores[j] == Score(content, levels[j])
  {
    scores := [];
    var i := 0;
    while i < |levels|
      invariant 0 <= i <= |levels| && |scores| == i
      invariant forall j :: 0 <= j < i ==> scores[j] == Score(content, levels[j])
    {
      var score := CalculateLevelScore(content, levels[i]);
      scores := scores + [score];
      i := i + 1;
    }
  }

  /** `max(..., key=score)`: the first position holding the largest score. */
  method BestIndex(scores: seq<int>) returns (best: nat)
    requires |scores| > 0
    ensures best < |scores|
    ensures forall j :: 0 <= j < |scores| ==> scores[j] <= scores[best]
    ensures forall j :: 0 <= j < best ==> scores[j] < scores[best]
  {
    best := 0;
    var i := 1;
    while i < |scores|
      invariant 1 <= i <= |scores| && best < i
      invariant forall j :: 0 <= j < i ==> scores[j] <= scores[best]
      invariant forall j :: 0 <= j < best ==> scores[j] < scores[best]
    {
      if scores[i] > scores[best] {
        best := i;
      }
      i := i + 1;
    }
  }

  // ---------------------------------------------------------------- reasons

  /** Where the window around the first occurrence at `pos` starts: up to 100 characters before it. */
  function WindowStart(pos: int): int {
    if pos - 100 > 0 then pos - 100 else 0
  }

  /** Where that window ends: up to 100 characters after the keyword, at most the end of the text. */
  function WindowEnd(pos: int, keyword: string, n: nat): int {
    if pos + |keyword| + 100 < n then pos + |keyword| + 100 else n
  }

  /** The window of up to 100 characters either side of the keyword's first occurrence, stripped. */
  function Window(content: string, keyword: string): (w: string)
    requires Contains(content, keyword)
  {
    var pos := Find(content, keyword);
    Strip(content[WindowStart(pos)..WindowEnd(pos, keyword, |content|)])
  }

  /** At most 200 characters, marked with "..." when cut. */
  function Shorten(context: string): (r: string)
    ensures |context| <= 200 ==> r == context
    ensures |context| > 200 ==> |r| == 203 && StartsWith(r, context[..200])
  {
    if |context| > 200 then context[..200] + "..." else context
  }

  /** `_find_relevant_context`: the first keyword present whose window is longer than 50 characters decides. */
  function RelevantContext(content: string, keywords: seq<string>): (r: string)
    ensures r == "" || 50 < |r| <= 203
  {
    if keywords == [] then ""
    else if Contains(content, keywords[0]) && |Window(content, keywords[0])| > 50 then Shorten(Window(content, keywords[0]))
    else RelevantContext(content, keywords[1..])
  }

  /** `_find_relevant_context`, the loop returning at the first window long enough. */
  method FindRelevantContext(content: string, keywords: seq<string>) returns (context: string)
    ensures context == RelevantContext(content, keywords)
  {
    var i := 0;
    while i < |keywords|
      invariant 0 <= i <= |keywords|
      invariant RelevantContext(content, keywords[i..]) == RelevantContext(content, keywords)
    {
      assert keywords[i..][0] == keywords[i] && keywords[i..][1..] == keywords[i + 1..];
      if Contains(content, keywords[i]) {
        var window := Window(content, keywords[i]);
        if |window| > 50 {
          return Shorten(window);
        }
      }
      i := i + 1;
    }
    return "";
  }

  /** A keyword the window is built around: not empty, no whitespace, at most 100 characters. */
  predicate PlainKeyword(k: string) {
    0 < |k| <= 100 && forall j :: 0 <= j < |k| ==> !IsSpace(k[j])
  }
  /** A non-whitespace character is not stripped from the left. */
  lemma {:induction false} LeadingSpaces(s: string, q: nat)
    requires q < |s| && !IsSpace(s[q])
    ensures |s| - |LStrip(s)| <= q
  {
  }

  /** A non-whitespace character is not stripped from the right. */
  lemma {:induction false} TrailingSpaces(s: string, q: nat)
    requires q < |s| && !IsSpace(s[q])
    ensures q < |RStrip(s)|
  {
  }

  /** Dropping a prefix before an occurrence shifts it. */
  lemma {:induction false} ShiftOccurrence(s: string, d: nat, k: string, q: nat)
    requires d <= q && OccursAt(s, k, q)
    ensures OccursAt(s[d..], k, q - d)
  {
    assert s[d..][q - d..q - d + |k|] == s[q..q + |k|];
  }
  /** An occurrence's first and last characters are the word's. */
  lemma {:induction false} OccurrenceEnds(s: string, k: string, q: nat)
    requires OccursAt(s, k, q) && |k| > 0
    ensures s[q] == k[0] && s[q + |k| - 1] == k[|k| - 1]
  {
    assert s[q..q + |k|][0] == s[q];
    assert s[q..q + |k|][|k| - 1] == s[q + |k| - 1];
  }

  /** Cutting the text after an occurrence keeps it. */
  lemma {:induction false} CutOccurrence(s: string, n: nat, k: string, q: nat)
    requires q + |k| <= n <= |s| && OccursAt(s, k, q)
    ensures OccursAt(s[..n], k, q)
  {
    assert s[..n][q..q + |k|] == s[q..q + |k|];
  }

  /** Stripping keeps every occurrence of a word without whitespace, shifted by the leading whitespace removed. */
  lemma {:induction false} StripKeeps(s: string, k: string, q: nat) returns (q': nat)
    requires OccursAt(s, k, q) && |k| > 0 && !IsSpace(k[0]) && !IsSpace(k[|k| - 1])
    ensures OccursAt(Strip(s), k, q') && q' <= q
  {
    q' := LStripKeeps(s, k, q);
    RStripKeeps(LStrip(s), k, q');
  }

  /** Stripping on the left keeps an occurrence that starts with a non-whitespace character. */
  lemma {:induction false} LStripKeeps(s: string, k: string, q: nat) returns (q': nat)
    requires OccursAt(s, k, q) && |k| > 0 && !IsSpace(k[0])
    ensures OccursAt(LStrip(s), k, q') && q' <= q
  {
    OccurrenceEnds(s, k, q);
    LeadingSpaces(s, q);
    var d := |s| - |LStrip(s)|;
    ShiftOccurrence(s, d, k, q);
    q' := q - d;
  }

  /** Stripping on the right keeps an occurrence that ends with a non-whitespace character. */
  lemma {:induction false} RStripKeeps(s: string, k: string, q: nat)
    requires OccursAt(s, k, q) && |k| > 0 && !IsSpace(k[|k| - 1])
    ensures OccursAt(RStrip(s), k, q)
  {
    OccurrenceEnds(s, k, q);
    TrailingSpaces(s, q + |k| - 1);
    var r := RStrip(s);
    assert s[..|r|] == r;
    CutOccurrence(s, |r|, k, q);
  }

  /** Appending keeps an occurrence. */
  lemma {:induction false} ExtendOccurrence(s: string, t: string, k: string, q: nat)
    requires OccursAt(s, k, q)
    ensures OccursAt(s + t, k, q)
  {
    assert (s + t)[q..q + |k|] == s[q..q + |k|];
  }

  /** Shortening keeps an occurrence within the first 200 characters. */
  lemma {:induction false} ShortenKeeps(w: string, k: string, q: nat)
    requires OccursAt(w, k, q) && q + |k| <= 200
    ensures Contains(Shorten(w), k)
  {
    if |w| > 200 {
      CutOccurrence(w, 200, k, q);
      ExtendOccurrence(w[..200], "...", k, q);
      ContainsWitness(Shorten(w), k, q);
    } else {
      ContainsWitness(w, k, q);
    }
  }

  /** The window around a plain keyword contains it. */
  lemma {:induction false} WindowShowsKeyword(content: string, k: string)
    requires Contains(content, k) && PlainKeyword(k)
    ensures Contains(Shorten(Window(content, k)), k)
  {
    var pos := Find(content, k);
    var start, end := WindowStart(pos), WindowEnd(pos, k, |content|);
    var raw := content[start..end];
    ShiftOccurrence(content[..end], start, k, pos) by {
      CutOccurrence(content, end, k, pos);
    }
    assert content[..end][start..] == raw;
    assert k[0] in k && k[|k| - 1] in k;
    var q := StripKeeps(raw, k, pos - start);
    assert Window(content, k) == Strip(raw);
    ShortenKeeps(Strip(raw), k, q);
  }

  /** The context shown contains the keyword it was found around. */
  lemma {:induction false} ContextShowsKeyword(content: string, keywords: seq<string>)
    requires forall i :: 0 <= i < |keywords| ==> PlainKeyword(keywords[i])
    ensures RelevantContext(content, keywords) != "" ==>
      exists i :: 0 <= i < |keywords| && Contains(content, keywords[i]) && Contains(RelevantContext(content, keywords), keywords[i])
  {
    if keywords != [] {
      var k := keywords[0];
      if Contains(content, k) && |Window(content, k)| > 50 {
        WindowShowsKeyword(content, k);
        assert Contains(RelevantContext(content, keywords), keywords[0]);
      } else {
        var rest := keywords[1..];
        assert forall i :: 0 <= i < |rest| ==> rest[i] == keywords[i + 1];
        ContextShowsKeyword(content, rest);
        var r := RelevantContext(content, rest);
        assert RelevantContext(content, keywords) == r;
        if r != "" {
          var i :| 0 <= i < |rest| && Contains(content, rest[i]) && Contains(r, rest[i]);
          assert rest[i] == keywords[i + 1];
        }
      }
    }
  }

  /** `f"{score:.2f}"` for a whole score. */
  function FormatScore(score: int): string {
    IntToString(score) + ".00"
  }

  /** The first part of every rule-based reason. */
  function ReasonHeader(rule: LevelRule): string {
    "判定为" + rule.name + ": " + rule.description
  }

  /**
   * `_generate_sentiment_reason`: the level and its description, the first
   * five keywords present, the strong signals present, the score and the
   * context, the empty parts left out, joined by "；".
   */
  function SentimentReason(content: string, rule: LevelRule, score: int): (r: string)
    ensures StartsWith(r, ReasonHeader(rule))
  {
    var keywordMatches := KeywordsIn(content, rule.keywords);
    var signalMatches := KeywordsIn(content, rule.strongSignals);
    var context := RelevantContext(content, rule.keywords);
    var rest :=
      (if keywordMatches != [] then ["检测到相关关键词: " + Join(", ", Take(keywordMatches, 5))] else [])
      + (if signalMatches != [] then ["检测到强信号: " + Join(", ", signalMatches)] else [])
      + ["综合评分: " + FormatScore(score)]
      + (if context != "" then ["相关上下文: " + context] else []);
    JoinStartsWithFirst("；", ReasonHeader(rule), rest);
    Join("；", [ReasonHeader(rule)] + rest)
  }

  /** A joined list starts with its first part. */
  lemma {:induction false} JoinStartsWithFirst(sep: string, first: string, rest: seq<string>)
    ensures StartsWith(Join(sep, [first] + rest), first)
  {
    var parts := [first] + rest;
    if |parts| > 1 {
      assert Join(sep, parts) == first + (sep + Join(sep, parts[1..]));
    }
  }

  /** Level `b` has the highest score, and every level before it a lower one. */
  predicate Maximal(content: string, levels: seq<LevelRule>, b: nat)
    requires b < |levels|
  {
    && (forall j :: 0 <= j < |levels| ==> Score(content, levels[j]) <= Score(content, levels[b]))
    && (forall j :: 0 <= j < b ==> Score(content, levels[j]) < Score(content, levels[b]))
  }

  /**
   * `_rule_based_analysis`: every level is scored and the first level with
   * the highest score is chosen, with its reason.
   */
  method RuleBasedAnalysis(content: string, levels: seq<LevelRule>) returns (r: SentimentResult)
    requires |levels| > 0
    ensures exists b :: 0 <= b < |levels| && r.level == levels[b].name && Maximal(content, levels, b) && StartsWith(r.reason, ReasonHeader(levels[b]))
  {
    var scores := LevelScores(content, levels);
    var best := BestIndex(scores);
    assert Maximal(content, levels, best);
    r := SentimentResult(levels[best].name, SentimentReason(content, levels[best], scores[best]));
  }

  /**
   * `analyze_sentiment`: the filled prompt goes to the model and its reply
   * is parsed; when the call raises, the rule table decides.
   */
  method AnalyzeSentiment(content: string, agentPrompt: Option<string>, ownTemplate: string, defaultTemplate: string,
                          llm: string -> LlmReply) returns (r: SentimentResult)
    ensures var reply := llm(FillSentimentTemplate(Some(RuntimeTemplate(agentPrompt, ownTemplate, defaultTemplate)), content));
      (reply.Answer? ==> r == ParseSentimentReply(reply.text))
      && (reply.Raised? ==> r.level in LevelNames)
      && (reply.Raised? ==> exists b :: 0 <= b < |Levels| && r.level == Levels[b].name && Maximal(content, Levels, b) && StartsWith(r.reason, ReasonHeader(Levels[b])))
  {
    var template := RuntimeTemplate(agentPrompt, ownTemplate, defaultTemplate);
    var prompt := FillSentimentTemplate(Some(template), content);
    var reply := llm(prompt);
    match reply
    case Answer(text) =>
      r := ParseSentimentReply(text);
    case Raised(_) =>
      r := RuleBasedAnalysis(content, Levels);
      TableNames();
  }

  /** The table's level names are the five canonical names. */
  lemma {:induction false} TableNames()
    ensures |Levels| == 5
    ensures forall b :: 0 <= b < |Levels| ==> Levels[b].name == LevelNames[b]
  {
  }

  /** A string that contains a word contains each of the word's characters. */
  lemma {:induction false} ContainsChar(s: string, sub: string, k: nat)
    ensures k < |sub| && Contains(s, sub) ==> sub[k] in s
  {
    ContainsAt(s, sub);
    if k < |sub| && Contains(s, sub) {
      var i :| OccursAt(s, sub, i);
      assert s[i..i + |sub|][k] == s[i + k];
    }
  }

  /** Level3 holds its own marker and none that comes before it. */
  lemma {:induction false} CanonicalLevel3()
    ensures Canonical(Level3) == Level3
  {
    ContainsWitness(Level3, "负面三级", 0);
  }

  lemma {:induction false} Level2LacksThree()
    ensures !Contains(Level2, "负面三级")
  {
    ContainsChar(Level2, "负面三级", 2);
  }

  /** Level2 holds its own marker and none that comes before it. */
  lemma {:induction false} CanonicalLevel2()
    ensures Canonical(Level2) == Level2
  {
    Level2LacksThree();
    ContainsWitness(Level2, "负面二级", 0);
  }

  lemma {:induction false} Level1LacksThree()
    ensures !Contains(Level1, "负面三级")
  {
    ContainsChar(Level1, "负面三级", 2);
  }

  lemma {:induction false} Level1LacksTwo()
    ensures !Contains(Level1, "负面二级")
  {
    ContainsChar(Level1, "负面二级", 2);
  }

  /** Level1 holds its own marker and none that comes before it. */
  lemma {:induction false} CanonicalLevel1()
    ensures Canonical(Level1) == Level1
  {
    Level1LacksThree();
    Level1LacksTwo();
    ContainsWitness(Level1, "负面一级", 0);
  }

  lemma {:induction false} NeutralLacksThree()
    ensures !Contains(Neutral, "负面三级")
  {
    ContainsChar(Neutral, "负面三级", 2);
  }

  lemma {:induction false} NeutralLacksTwo()
    ensures !Contains(Neutral, "负面二级")
  {
    ContainsChar(Neutral, "负面二级", 2);
  }

  lemma {:induction false} NeutralLacksOne()
    ensures !Contains(Neutral, "负面一级")
  {
    ContainsChar(Neutral, "负面一级", 2);
  }

  /** Neutral holds its own marker and none that comes before it. */
  lemma {:induction false} CanonicalNeutral()
    ensures Canonical(Neutral) == Neutral
  {
    NeutralLacksThree();
    NeutralLacksTwo();
    NeutralLacksOne();
    ContainsWitness(Neutral, "中性", 0);
  }

  lemma {:induction false} PositiveLacksThree()
    ensures !Contains(Positive, "负面三级")
  {
    ContainsChar(Positive, "负面三级", 2);
  }

  lemma {:induction false} PositiveLacksTwo()
    ensures !Contains(Positive, "负面二级")
  {
    ContainsChar(Positive, "负面二级", 2);
  }

  lemma {:induction false} PositiveLacksOne()
    ensures !Contains(Positive, "负面一级")
  {
    ContainsChar(Positive, "负面一级", 2);
  }

  lemma {:induction false} PositiveLacksNeutral()
    ensures !Contains(Positive, "中性")
  {
    ContainsChar(Positive, "中性", 0);
  }

  /** Positive holds its own marker and none that comes before it. */
  lemma {:induction false} CanonicalPositive()
    ensures Canonical(Positive) == Positive
  {
    PositiveLacksThree();
    PositiveLacksTwo();
    PositiveLacksOne();
    PositiveLacksNeutral();
    ContainsWitness(Positive, "正面", 0);
  }

  /** Canonical form is idempotent. */
  lemma {:induction false} CanonicalIdempotent(level: string)
    ensures Canonical(Canonical(level)) == Canonical(level)
  {
    var r := Canonical(level);
    if r == Level3 {
      CanonicalLevel3();
    } else if r == Level2 {
      CanonicalLevel2();
    } else if r == Level1 {
      CanonicalLevel1();
    } else if r == Neutral {
      CanonicalNeutral();
    } else if r == Positive {
      CanonicalPositive();
    }
  }
}
