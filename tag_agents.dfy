/**
 * The fourteen tag agents: each asks the language model whether a text
 * carries one IPO risk tag and reads the verdict and the reason off the
 * reply. The model call itself is a parameter.
 */
module TagAgents {
  import opened Wrappers
  import opened PyText
  import opened Prompts
  import ResultStore

  /** `TagResult`. */
  datatype TagResult = TagResult(tag: string, belongs: bool, reason: string)

  /** One `TagAgent`: its tag, the tag's definition and its own prompt, if any. */
  datatype TagAgent = TagAgent(tagName: string, description: string, customPrompt: Option<string>)

  /** The definitions of the tags, in the order of `ResultStore.TagNames`. */
  const Descriptions: seq<string> := [
    "发行人的独立性受到损害，控股股东、实际控制人或其近亲属所控制的其他企业与发行人从事相同或高度相似的业务，存在利益冲突、利润转移等风险",
    "股权结构不稳定，控制权不清晰，存在大规模质押、司法冻结、查封、控制权变更等风险",
    "可能损害公司利益的关联交易，定价不公允，存在利益输送或调节利润，关联方注销、转让等非关联化操作",
    "历史沿革和股东结构中的合规瑕疵，存在股权代持、突击入股、三类股东（契约型基金、资管计划、信托计划）等问题",
    "公司或其关键人物的重大违法违规行为，受到行政处罚或刑事立案/处罚，涉及安全生产、环境保护、产品质量、税务、劳动社保、商业贿赂等",
    "收入真实性、成本合理性存在质疑，毛利率异常，收入增长与经营状况不符，产能利用率、客户订单等支撑不足",
    "财务内部控制的重大缺陷，个人卡收付款、资金被占用、账外账、体外资金循环、粉饰业绩等",
    "客户与供应商结构中的潜在风险，高度集中（前五大客户/供应商占比过高）、背景异常、注册资本异常、前员工身份重叠等",
    "资产质量存在问题，应收账款逾期、存货积压、商誉减值风险，坏账准备、跌价准备计提不足等",
    "技术风险与研发投入的合规性，会计处理不合规、技术权属纠纷、技术来源不稳定（授权、购买而非自主研发）等",
    "募集资金用途的合理性存疑，与主业无关、必要性存疑、主要用于补充流动资金或偿还银行贷款等",
    "IPO申报前夕的大额现金分红，未清理的对赌协议，估值调整机制、市值挂钩等影响估值或股权稳定性的条款",
    "已形成较大市场影响力的负面舆情事件，传播广度和市场影响显著，媒体报道、舆论热点等",
    "对发行人构成系统性风险的外部环境变化，政策风险、市场风险、外部冲击，产业政策调整、监管收紧、技术颠覆等"
  ]

  /** The placeholders a tag template may use, double braces first. */
  function TagSubs(agent: TagAgent, content: string): (subs: seq<Substitution>)
    ensures Placeholders(subs) && Delimited(subs)
  {
    [("{{content}}", content), ("{{tag_name}}", agent.tagName), ("{{description}}", agent.description),
     ("{content}", content), ("{tag_name}", agent.tagName), ("{description}", agent.description)]
  }

  const BuiltinOpening: string := "你是一个专业的IPO风险评估专家，专门负责分析新闻文本是否涉及\""
  const BuiltinDefinition: string := "\"风险。\n\n标签定义："
  const BuiltinQuestion: string := "\n\n请仔细分析以下新闻文本，判断是否涉及\""
  const BuiltinText: string := "\"风险：\n\n"
  const BuiltinFormat: string := Join("\n", [
    "",
    "",
    "分析要求：",
    "1. 仔细阅读文本内容，理解事件背景和具体情况",
    "2. 根据标签定义，判断文本是否涉及该风险",
    "3. 如果涉及，请详细说明判断依据和风险点",
    "4. 如果不涉及，请说明原因",
    "",
    "请按照以下格式返回分析结果：",
    "",
    "判断结果：[是/否]",
    "分析原因：[详细的分析说明，包括具体的风险点或判断依据]",
    "",
    "注意：",
    "- 判断要客观、准确，基于文本内容而非主观臆测",
    "- 分析原因要具体、有说服力",
    "- 如果涉及风险，要明确指出具体的风险点",
    "- 如果不涉及，要说明为什么不符合该标签特征"
  ])

  /** The built-in prompt, used when neither the agent nor the configuration has a template. */
  function BuiltinPrompt(agent: TagAgent, content: string): (r: string)
    ensures Contains(r, content)
  {
    var head := BuiltinOpening + agent.tagName + BuiltinDefinition + agent.description + BuiltinQuestion + agent.tagName + BuiltinText;
    Embedded(head, content, BuiltinFormat);
    head + content + BuiltinFormat
  }

  /**
   * `_build_analysis_prompt`: a non-blank custom prompt wins, then the
   * global tag template, then the built-in text; whichever is used, the
   * prompt carries the content.
   */
  function BuildAnalysisPrompt(agent: TagAgent, globalTemplate: string, content: string): (r: string)
    ensures agent.customPrompt.Some? && Strip(agent.customPrompt.value) != "" ==>
      r == FillTemplate(agent.customPrompt, TagSubs(agent, content), content)
    ensures !(agent.customPrompt.Some? && Strip(agent.customPrompt.value) != "") && globalTemplate != "" ==>
      r == FillTemplate(Some(globalTemplate), TagSubs(agent, content), content)
    ensures Contains(r, content)
  {
    var template := if agent.customPrompt.Some? && Strip(agent.customPrompt.value) != "" then agent.customPrompt.value else globalTemplate;
    if template != "" then FillTemplate(Some(template), TagSubs(agent, content), content)
    else BuiltinPrompt(agent, content)
  }

  const VerdictYes: string := "判断结果：是"
  const VerdictNo: string := "判断结果：否"
  const ReasonMark: string := "分析原因："

  /** Words that make a reply without a verdict count as belonging. */
  predicate RiskWords(r: string) {
    Contains(r, "风险") || Contains(r, "问题") || Contains(r, "违规")
  }

  /**
   * The verdict as the source reads it off a stripped reply: the yes-verdict
   * or a 是 among the first 20 characters is checked before the no-verdict.
   */
  function Verdict(r: string): (v: bool)
    ensures Contains(r, VerdictYes) ==> v
    ensures v ==> Contains(r, VerdictYes) || '是' in Take(r, 20) || RiskWords(r)
    ensures !v ==> Contains(r, VerdictNo) || '否' in Take(r, 20) || !RiskWords(r)
  {
    if Contains(r, VerdictYes) || '是' in Take(r, 20) then true
    else if Contains(r, VerdictNo) || '否' in Take(r, 20) then false
    else RiskWords(r)
  }

  /** The verdict with the explicit verdict lines first and the loose first-20-characters test after them. */
  function IntendedVerdict(r: string): (v: bool)
    ensures Contains(r, VerdictYes) ==> v
    ensures Contains(r, VerdictNo) && !Contains(r, VerdictYes) ==> !v
    ensures !Contains(r, VerdictYes) && !Contains(r, VerdictNo) ==> v == Verdict(r)
  {
    if Contains(r, VerdictYes) then true
    else if Contains(r, VerdictNo) then false
    else if '是' in Take(r, 20) then true
    else if '否' in Take(r, 20) then false
    else RiskWords(r)
  }

  /** A reply that answers 否 and mentions 是 early, as in "不是违规". */
  const NoButMentionsYes: string := "判断结果：否\n分析原因：不是违规行为"

  /** As written, the reply answering 否 is read as belonging to the tag. */
  lemma NoVerdictReadAsYes()
    ensures StartsWith(NoButMentionsYes, VerdictNo)
    ensures Verdict(NoButMentionsYes)
  {
    var r := NoButMentionsYes;
    assert Take(r, 20) == r;
    assert r[13] == '是';
  }

  /** The intended verdict honours that reply's 否. */
  lemma NoVerdictHonoured()
    ensures !IntendedVerdict(NoButMentionsYes)
  {
    var r := NoButMentionsYes;
    assert r[..6][5] == '否';
    assert !StartsWith(r, VerdictYes);
    assert '判' !in r[1..];
    if Contains(r[1..], VerdictYes) {
      ContainsHead(r[1..], VerdictYes);
    }
    assert r[..6] == VerdictNo;
  }

  /** Explicit verdicts decide, and without one the intended reading agrees with the source. */
  lemma IntendedVerdictSound(r: string)
    ensures Contains(r, VerdictYes) ==> IntendedVerdict(r)
    ensures Contains(r, VerdictNo) && !Contains(r, VerdictYes) ==> !IntendedVerdict(r)
    ensures StartsWith(r, VerdictNo) && !Contains(r, VerdictYes) ==> !IntendedVerdict(r)
    ensures !Contains(r, VerdictYes) && !Contains(r, VerdictNo) ==> IntendedVerdict(r) == Verdict(r)
  {
  }

  /**
   * The reason: the stripped text after the last 分析原因： when the reply
   * has one and that text has at least 10 characters, else the whole
   * stripped reply.
   */
  function Reason(r: string): (reason: string)
    ensures Contains(r, ReasonMark) && |Strip(AfterLast(r, ReasonMark))| >= 10 ==> reason == Strip(AfterLast(r, ReasonMark))
    ensures !(Contains(r, ReasonMark) && |Strip(AfterLast(r, ReasonMark))| >= 10) ==> reason == Strip(r)
    ensures |reason| >= 10 || reason == Strip(r)
  {
    var reason := if Contains(r, ReasonMark) then Strip(AfterLast(r, ReasonMark)) else Strip(r);
    if |reason| < 10 then Strip(r) else reason
  }

  /** `_parse_llm_response`: the verdict as the source reads it and the reason of the stripped reply. */
  function ParseLlmResponse(response: string): (r: (bool, string))
    ensures Contains(Strip(response), VerdictYes) ==> r.0
    ensures r.0 <==> Verdict(Strip(response))
    ensures r.1 == Reason(Strip(response))
    ensures |r.1| >= 10 || r.1 == Strip(response)
  {
    var s := Strip(response);
    (Verdict(s), Reason(s))
  }

  /** `_parse_llm_response` with the explicit verdict lines read first. */
  function ParseLlmResponseIntended(response: string): (r: (bool, string))
    ensures r.1 == ParseLlmResponse(response).1
    ensures !Contains(Strip(response), VerdictYes) && !Contains(Strip(response), VerdictNo) ==> r == ParseLlmResponse(response)
    ensures StartsWith(Strip(response), VerdictNo) && !Contains(Strip(response), VerdictYes) ==> !r.0
  {
    var s := Strip(response);
    IntendedVerdictSound(s);
    (IntendedVerdict(s), Reason(s))
  }

  /** `TagAgent.analyze`: the parsed reply, or belongs false when the model call raises. */
  function Analyze(agent: TagAgent, globalTemplate: string, content: string, llm: string -> LlmReply): (r: TagResult)
    ensures r.tag == agent.tagName
    ensures llm(BuildAnalysisPrompt(agent, globalTemplate, content)).Answer? ==>
      (r.belongs, r.reason) == ParseLlmResponse(llm(BuildAnalysisPrompt(agent, globalTemplate, content)).text)
    ensures llm(BuildAnalysisPrompt(agent, globalTemplate, content)).Raised? ==>
      !r.belongs && r.reason == "分析失败: " + llm(BuildAnalysisPrompt(agent, globalTemplate, content)).error
  {
    match llm(BuildAnalysisPrompt(agent, globalTemplate, content))
    case Answer(text) =>
      var parsed := ParseLlmResponse(text);
      TagResult(agent.tagName, parsed.0, parsed.1)
    case Raised(e) => TagResult(agent.tagName, false, "分析失败: " + e)
  }

  /** `get_tag_summary`. */
  datatype TagSummary = TagSummary(totalTags: nat, positiveTags: seq<string>, negativeTags: seq<string>, positiveCount: nat, negativeCount: nat)

  /** The tags of the results with the given verdict, in order. */
  function TagsWith(results: seq<TagResult>, belongs: bool): (tags: seq<string>)
    ensures |tags| <= |results|
    ensures forall t :: t in tags <==> exists i :: 0 <= i < |results| && results[i].belongs == belongs && results[i].tag == t
  {
    if |results| == 0 then []
    else
      var rest := TagsWith(results[..|results| - 1], belongs);
      var last := results[|results| - 1];
      assert forall i :: 0 <= i < |results| - 1 ==> results[..|results| - 1][i] == results[i];
      rest + (if last.belongs == belongs then [last.tag] else [])
  }

  /** Every result is counted once, as positive or as negative. */
  lemma {:induction false} TagsPartition(results: seq<TagResult>)
    ensures |TagsWith(results, true)| + |TagsWith(results, false)| == |results|
  {
    if |results| > 0 {
      TagsPartition(results[..|results| - 1]);
    }
  }

  function TagSummaryOf(results: seq<TagResult>): (s: TagSummary)
    ensures s.positiveCount + s.negativeCount == s.totalTags == |results|
    ensures forall t :: t in s.positiveTags <==> exists i :: 0 <= i < |results| && results[i].belongs && results[i].tag == t
    ensures forall t :: t in s.negativeTags <==> exists i :: 0 <= i < |results| && !results[i].belongs && results[i].tag == t
  {
    var pos := TagsWith(results, true);
    var neg := TagsWith(results, false);
    TagsPartition(results);
    TagSummary(|results|, pos, neg, |pos|, |neg|)
  }

  /** No tag is defined twice: the names start with fourteen different characters. */
  lemma TagNamesDistinct()
    ensures forall i, j :: 0 <= i < j < |ResultStore.TagNames| ==> ResultStore.TagNames[i] != ResultStore.TagNames[j]
  {
    var names := ResultStore.TagNames;
    var firsts := "同股关历重收财客资研募突市行";
    assert |names| == |firsts|;
    assert forall i :: 0 <= i < |names| ==> |names[i]| > 0 && names[i][0] == firsts[i];
    assert forall i, j :: 0 <= i < j < |firsts| ==> firsts[i] != firsts[j];
  }

  /** `Config.AGENT_PROMPTS.get(tag_name)`. */
  function PromptFor(prompts: map<string, string>, name: string): Option<string> {
    if name in prompts then Some(prompts[name]) else None
  }

  /** The loop of `analyze_tags`: each agent in turn, its result appended. */
  method RunAgents(ordered: seq<TagAgent>, run: TagAgent -> TagResult) returns (results: seq<TagResult>)
    ensures |results| == |ordered|
    ensures forall i :: 0 <= i < |ordered| ==> results[i] == run(ordered[i])
  {
    results := [];
    var i := 0;
    while i < |ordered|
      invariant 0 <= i <= |ordered|
      invariant |results| == i
      invariant forall j :: 0 <= j < i ==> results[j] == run(ordered[j])
    {
      results := results + [run(ordered[i])];
      i := i + 1;
    }
  }

  /** The `tag_agents` dict built from the definitions: each name maps to its agent. */
  method BuildAgents(names: seq<string>, descs: seq<string>, prompts: map<string, string>) returns (built: map<string, TagAgent>)
    requires |names| == |descs|
    requires forall i, j :: 0 <= i < j < |names| ==> names[i] != names[j]
    ensures built.Keys == (set i | 0 <= i < |names| :: names[i])
    ensures forall m :: m in built ==> built[m].tagName == m
    ensures forall i :: 0 <= i < |names| ==> built[names[i]] == TagAgent(names[i], descs[i], PromptFor(prompts, names[i]))
  {
    built := map[];
    var i := 0;
    while i < |names|
      invariant 0 <= i <= |names|
      invariant built.Keys == (set j | 0 <= j < i :: names[j])
      invariant forall m :: m in built ==> built[m].tagName == m
      invariant forall j :: 0 <= j < i ==> built[names[j]] == TagAgent(names[j], descs[j], PromptFor(prompts, names[j]))
    {
      built := built[names[i] := TagAgent(names[i], descs[i], PromptFor(prompts, names[i]))];
      i := i + 1;
    }
  }

  /** The agent set: one agent per tag, and the per-tag prompts of the configuration. */
  class TagAgents {
    /** The tags in definition order, the iteration order of `tag_agents`. */
    var order: seq<string>
    var agents: map<string, TagAgent>
    /** `Config.AGENT_PROMPTS`. */
    var agentPrompts: map<string, string>

    ghost predicate Valid()
      reads this
    {
      && agents.Keys == (set i | 0 <= i < |order| :: order[i])
      && (forall n :: n in agents ==> agents[n].tagName == n)
    }

    /** One agent per definition, each taking its prompt from the configuration. */
    constructor(prompts: map<string, string>)
      ensures Valid()
      ensures order == ResultStore.TagNames && agentPrompts == prompts
      ensures forall i :: 0 <= i < |order| ==>
        agents[order[i]] == TagAgent(order[i], Descriptions[i], PromptFor(prompts, order[i]))
    {
      var names, descs := ResultStore.TagNames, Descriptions;
      assert |names| == |descs|;
      TagNamesDistinct();
      var built := BuildAgents(names, descs, prompts);
      agents := built;
      order := names;
      agentPrompts := prompts;
    }

    /** `analyze_tags`: one result per tag, in definition order. */
    method AnalyzeTags(content: string, globalTemplate: string, llm: string -> LlmReply) returns (results: seq<TagResult>)
      requires Valid()
      ensures |results| == |order|
      ensures forall i :: 0 <= i < |order| ==>
        results[i] == Analyze(agents[order[i]], globalTemplate, content, llm) && results[i].tag == order[i]
    {
      var ordered := seq(|order|, i requires 0 <= i < |order| reads this requires Valid() => agents[order[i]]);
      results := RunAgents(ordered, agent => Analyze(agent, globalTemplate, content, llm));
    }

    /** `analyze_single_tag`: an unknown tag answers belongs false without calling the model. */
    function AnalyzeSingleTag(content: string, tagName: string, globalTemplate: string, llm: string -> LlmReply): (r: TagResult)
      reads this
      requires Valid()
      ensures r.tag == tagName
      ensures tagName !in agents ==> !r.belongs && r.reason == "标签 " + tagName + " 不存在"
      ensures tagName in agents ==> r == Analyze(agents[tagName], globalTemplate, content, llm)
    {
      if tagName !in agents then TagResult(tagName, false, "标签 " + tagName + " 不存在")
      else Analyze(agents[tagName], globalTemplate, content, llm)
    }

    /** `update_agent_prompt`: an unknown tag changes nothing; otherwise the agent and the configuration both take the prompt. */
    method UpdateAgentPrompt(tagName: string, prompt: string) returns (ok: bool)
      requires Valid()
      modifies this
      ensures Valid()
      ensures ok <==> tagName in old(agents)
      ensures !ok ==> agents == old(agents) && agentPrompts == old(agentPrompts)
      ensures ok ==> agents == old(agents)[tagName := old(agents)[tagName].(customPrompt := Some(prompt))]
      ensures ok ==> agentPrompts == old(agentPrompts)[tagName := prompt]
    {
      if tagName !in agents {
        return false;
      }
      agents := agents[tagName := agents[tagName].(customPrompt := Some(prompt))];
      agentPrompts := agentPrompts[tagName := prompt];
      return true;
    }

    /** `get_agent_prompt`: "" for an unknown tag, else the agent's own prompt or, when it has none, the global template. */
    function GetAgentPrompt(tagName: string, globalTemplate: string): (r: string)
      reads this
      ensures tagName !in agents ==> r == ""
      ensures tagName in agents && agents[tagName].customPrompt.Some? && agents[tagName].customPrompt.value != "" ==>
        r == agents[tagName].customPrompt.value
      ensures tagName in agents && !(agents[tagName].customPrompt.Some? && agents[tagName].customPrompt.value != "") ==>
        r == globalTemplate
    {
      if tagName !in agents then ""
      else
        var custom := agents[tagName].customPrompt;
        if custom.Some? && custom.value != "" then custom.value else globalTemplate
    }

    /** `get_all_agent_prompts`. */
    function GetAllAgentPrompts(globalTemplate: string): (r: map<string, string>)
      reads this
      ensures r.Keys == agents.Keys
      ensures forall n :: n in r ==> r[n] == GetAgentPrompt(n, globalTemplate)
    {
      map n | n in agents :: GetAgentPrompt(n, globalTemplate)
    }
  }

  /** A prompt set by `update_agent_prompt` is the one `get_agent_prompt` reads back, and the one the agent builds from. */
  lemma UpdatedPromptReadsBack(t: TagAgents, tagName: string, prompt: string, globalTemplate: string, content: string)
    requires tagName in t.agents && t.agents[tagName].customPrompt == Some(prompt) && Strip(prompt) != ""
    ensures t.GetAgentPrompt(tagName, globalTemplate) == prompt
    ensures BuildAnalysisPrompt(t.agents[tagName], globalTemplate, content)
      == FillTemplate(Some(prompt), TagSubs(t.agents[tagName], content), content)
  {
  }
}
