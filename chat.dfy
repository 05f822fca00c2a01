/**
 * The question-answering endpoint: the context it distils from the
 * caller's search results and conversation, the system prompt it writes
 * from that context, and the guard and reply handling around the language
 * model call.
 */
module Chat {
  import opened Wrappers
  import opened Values
  import opened PyText

  datatype ChatMessage = ChatMessage(role: string, content: string, timestamp: Option<string>)

  /** A context item: its number (the `序号` entry) and its selected fields, in insertion order. */
  datatype ContextItem = ContextItem(number: Value, fields: seq<(string, Value)>)

  /** A history entry: the speaker (`角色`) and what was said (`内容`). */
  datatype HistoryEntry = HistoryEntry(speaker: string, text: string)

  datatype ChatContext = ChatContext(
    items: seq<ContextItem>,
    history: seq<HistoryEntry>,
    totalResults: nat,
    fieldsUsed: seq<string>)

  const MaxItems: nat := 10
  const MaxHistory: nat := 10
  const MaxValueLength: nat := 500
  const NumberKey: string := "序号"
  const DefaultFields: seq<string> := ["title", "content", "summary", "sentiment_level", "companies"]

  /* ---------------------------------------------------------------- context */

  /**
   * The value a selected field contributes: lists and dicts become their
   * JSON text (`dumps` stands for `json.dumps`), long strings are cut.
   */
  function ProcessValue(v: Value, dumps: Value -> string): Value {
    match v
    case List(_) => Str(dumps(v))
    case Dict(_) => Str(dumps(v))
    case Str(s) => if |s| > MaxValueLength then Str(s[..MaxValueLength] + "...") else v
    case _ => v
  }

  /**
   * A processed value is never a list or a dict and never `None` unless it
   * was; a string of at most 500 characters is kept, a longer one becomes
   * its first 500 characters followed by "...".
   */
  lemma ProcessValueFacts(v: Value, dumps: Value -> string)
    ensures var r := ProcessValue(v, dumps);
      !r.List? && !r.Dict? && (v.Null? <==> r.Null?)
      && (v.Str? ==> r.Str? && |r.s| <= MaxValueLength + 3 && (|v.s| <= MaxValueLength ==> r == v))
      && (v.Str? && |v.s| > MaxValueLength ==>
            |r.s| == MaxValueLength + 3 && r.s[..MaxValueLength] == v.s[..MaxValueLength] && EndsWith(r.s, "..."))
  {
    if v.Str? && |v.s| > MaxValueLength {
      var t := v.s[..MaxValueLength] + "...";
      assert t[..MaxValueLength] == v.s[..MaxValueLength];
      assert t[|t| - 3..] == "...";
    }
  }

  /** The keys of a list of entries, in order. */
  function KeysOf(data: seq<(string, Value)>): (r: seq<string>)
    ensures |r| == |data|
    ensures forall j :: 0 <= j < |data| ==> r[j] == data[j].0
  {
    seq(|data|, j requires 0 <= j < |data| => data[j].0)
  }

  /** A field the result carries with a value other than `None`. */
  predicate Present(result: Record, field: string) {
    field in result && !result[field].Null?
  }

  /**
   * `item_data` after the loop over the first `n` fields: each present field
   * once, at the position of its first mention, with its processed value.
   */
  function Selected(result: Record, fields: seq<string>, dumps: Value -> string): (r: seq<(string, Value)>)
    decreases |fields|
  {
    if |fields| == 0 then []
    else
      var prev := Selected(result, fields[..|fields| - 1], dumps);
      var f := fields[|fields| - 1];
      if Present(result, f) && f !in KeysOf(prev) then prev + [(f, ProcessValue(result[f], dumps))]
      else prev
  }

  /** Exactly the present fields are selected, each once, with its processed value. */
  lemma {:induction false} SelectedFacts(result: Record, fields: seq<string>, dumps: Value -> string)
    ensures forall j :: 0 <= j < |Selected(result, fields, dumps)| ==>
      var e := Selected(result, fields, dumps)[j];
      e.0 in fields && Present(result, e.0) && e.1 == ProcessValue(result[e.0], dumps)
    ensures forall f :: f in fields && Present(result, f) ==> f in KeysOf(Selected(result, fields, dumps))
    ensures forall j, k :: 0 <= j < k < |Selected(result, fields, dumps)| ==>
      Selected(result, fields, dumps)[j].0 != Selected(result, fields, dumps)[k].0
    decreases |fields|
  {
    if |fields| > 0 {
      var front := fields[..|fields| - 1];
      var f := fields[|fields| - 1];
      var prev := Selected(result, front, dumps);
      var r := Selected(result, fields, dumps);
      SelectedFacts(result, front, dumps);
      assert forall g :: g in front ==> g in fields;
      assert forall g :: g in fields ==> g in front || g == f;
      var keys := KeysOf(prev);
      assert forall j :: 0 <= j < |prev| ==> keys[j] in keys;
      if Present(result, f) && f !in keys {
        assert r == prev + [(f, ProcessValue(result[f], dumps))];
        assert KeysOf(r) == keys + [f];
      } else {
        assert r == prev;
      }
    }
  }

  /** A selected list is empty exactly when none of the fields is present. */
  lemma SelectedEmpty(result: Record, fields: seq<string>, dumps: Value -> string)
    ensures |Selected(result, fields, dumps)| == 0 <==> forall f :: f in fields ==> !Present(result, f)
  {
    SelectedFacts(result, fields, dumps);
    var r := Selected(result, fields, dumps);
    if |r| > 0 {
      assert r[0].0 in fields && Present(result, r[0].0);
    } else {
      assert forall f :: f in fields && Present(result, f) ==> f in KeysOf(r);
    }
  }

  /** The value stored under `key`, or `default` when no entry has that key. */
  function Lookup(data: seq<(string, Value)>, key: string, default: Value): Value {
    if |data| == 0 then default
    else if data[|data| - 1].0 == key then data[|data| - 1].1
    else Lookup(data[..|data| - 1], key, default)
  }

  lemma {:induction false} LookupMissing(data: seq<(string, Value)>, key: string, default: Value)
    requires key !in KeysOf(data)
    ensures Lookup(data, key, default) == default
    decreases |data|
  {
    if |data| > 0 {
      assert KeysOf(data[..|data| - 1]) == KeysOf(data)[..|data| - 1];
      LookupMissing(data[..|data| - 1], key, default);
    }
  }

  /** `{"序号": position, **item_data}`: a selected `序号` field overrides the position. */
  function MakeItem(position: nat, data: seq<(string, Value)>): (r: ContextItem)
    ensures r.fields == data
    ensures NumberKey !in KeysOf(data) ==> r.number == Int(position)
  {
    if NumberKey !in KeysOf(data) then LookupMissing(data, NumberKey, Int(position)); ContextItem(Int(position), data)
    else ContextItem(Lookup(data, NumberKey, Int(position)), data)
  }

  /** The fields the context is built from: the defaults replace an empty list once a result is seen. */
  function EffectiveFields(results: seq<Record>, fields: seq<string>): (r: seq<string>)
    ensures |r| == 0 ==> |results| == 0 || |fields| == 0
    ensures |results| == 0 || |fields| > 0 ==> r == fields
  {
    if |results| > 0 && |fields| == 0 then DefaultFields else fields
  }

  /** The selected fields of each result, in order. */
  function Selections(results: seq<Record>, used: seq<string>, dumps: Value -> string): (r: seq<seq<(string, Value)>>)
    ensures |r| == |results|
    ensures forall k :: 0 <= k < |results| ==> r[k] == Selected(results[k], used, dumps)
  {
    if |results| == 0 then []
    else Selections(results[..|results| - 1], used, dumps) + [Selected(results[|results| - 1], used, dumps)]
  }

  /**
   * The context items for the selections of consecutive results, the first
   * at position 1: one item for each result with a selected field.
   */
  function ItemsOf(selections: seq<seq<(string, Value)>>): seq<ContextItem> {
    if |selections| == 0 then []
    else
      var prev := ItemsOf(selections[..|selections| - 1]);
      var data := selections[|selections| - 1];
      if |data| > 0 then prev + [MakeItem(|selections|, data)] else prev
  }

  function Shown(results: seq<Record>): (r: nat)
    ensures r <= |results| && r <= MaxItems
    ensures r == MaxItems || r == |results|
  {
    if |results| < MaxItems then |results| else MaxItems
  }

  function Speaker(role: string): (r: string)
    ensures r == "用户" <==> role == "user"
  {
    if role == "user" then "用户" else "助手"
  }

  function Entry(m: ChatMessage): (r: HistoryEntry)
    ensures r.text == m.content
    ensures r.speaker == "用户" <==> m.role == "user"
  {
    HistoryEntry(Speaker(m.role), m.content)
  }

  function Entries(msgs: seq<ChatMessage>): (r: seq<HistoryEntry>)
    ensures |r| == |msgs|
    ensures forall j :: 0 <= j < |msgs| ==> r[j] == Entry(msgs[j])
  {
    seq(|msgs|, j requires 0 <= j < |msgs| => Entry(msgs[j]))
  }

  /** The messages kept: the last ten. */
  function Recent(history: seq<ChatMessage>): (r: seq<ChatMessage>)
    ensures |r| <= MaxHistory
    ensures |history| <= MaxHistory ==> r == history
    ensures |history| > MaxHistory ==> |r| == MaxHistory
    ensures forall j :: 0 <= j < |r| ==> r[j] == history[|history| - |r| + j]
  {
    if |history| <= MaxHistory then history else history[|history| - MaxHistory..]
  }

  /** The context the endpoint derives from a request. */
  function ContextOf(results: seq<Record>, fields: seq<string>, history: seq<ChatMessage>, dumps: Value -> string): ChatContext {
    var used := EffectiveFields(results, fields);
    ChatContext(ItemsOf(Selections(results[..Shown(results)], used, dumps)), Entries(Recent(history)), |results|, used)
  }

  /** The fields of one result, selected in a loop as the endpoint does. */
  method SelectFields(result: Record, fields: seq<string>, dumps: Value -> string) returns (data: seq<(string, Value)>)
    ensures data == Selected(result, fields, dumps)
  {
    data := [];
    var i := 0;
    while i < |fields|
      invariant 0 <= i <= |fields|
      invariant data == Selected(result, fields[..i], dumps)
    {
      assert fields[..i + 1][..i] == fields[..i];
      var f := fields[i];
      if f in result && !result[f].Null? && f !in KeysOf(data) {
        data := data + [(f, ProcessValue(result[f], dumps))];
      }
      i := i + 1;
    }
    assert fields[..i] == fields;
  }

  lemma EntriesSnoc(msgs: seq<ChatMessage>, m: ChatMessage)
    ensures Entries(msgs + [m]) == Entries(msgs) + [Entry(m)]
  {
    var l := Entries(msgs + [m]);
    assert l[|msgs|] == Entry(m);
    assert forall j :: 0 <= j < |msgs| ==> l[j] == Entry(msgs[j]);
  }

  /** The recent history, converted message by message. */
  method RecentHistory(history: seq<ChatMessage>) returns (entries: seq<HistoryEntry>)
    ensures entries == Entries(Recent(history))
  {
    var recent := Recent(history);
    entries := [];
    var i := 0;
    while i < |recent|
      invariant 0 <= i <= |recent|
      invariant entries == Entries(recent[..i])
    {
      assert recent[..i + 1] == recent[..i] + [recent[i]];
      EntriesSnoc(recent[..i], recent[i]);
      entries := entries + [HistoryEntry(if recent[i].role == "user" then "用户" else "助手", recent[i].content)];
      i := i + 1;
    }
    assert recent[..i] == recent;
  }

  /** `_build_context`. */
  method BuildContext(results: seq<Record>, fields: seq<string>, history: seq<ChatMessage>, dumps: Value -> string)
    returns (ctx: ChatContext)
    ensures ctx == ContextOf(results, fields, history, dumps)
  {
    var used := fields;
    var items: seq<ContextItem> := [];
    var n := Shown(results);
    var i := 0;
    ghost var effective := EffectiveFields(results, fields);
    while i < n
      invariant 0 <= i <= n
      invariant i == 0 ==> used == fields
      invariant i > 0 ==> used == effective
      invariant items == ItemsOf(Selections(results[..i], effective, dumps))
    {
      if |used| == 0 {
        used := DefaultFields;
      }
      assert used == effective;
      items := AddResultItem(items, results, used, dumps, i);
      i := i + 1;
    }
    assert used == effective by {
      if n == 0 {
        assert |results| == 0;
      }
    }
    var entries := RecentHistory(history);
    ctx := ChatContext(items, entries, |results|, used);
  }

  /** One pass of the loop over results: the item of result `i`, if it has selected fields. */
  method AddResultItem(items: seq<ContextItem>, results: seq<Record>, used: seq<string>, dumps: Value -> string, i: nat)
    returns (next: seq<ContextItem>)
    requires i < |results|
    requires items == ItemsOf(Selections(results[..i], used, dumps))
    ensures next == ItemsOf(Selections(results[..i + 1], used, dumps))
  {
    var data := SelectFields(results[i], used, dumps);
    SelectionsStep(results, used, dumps, i);
    if |data| > 0 {
      next := items + [MakeItem(i + 1, data)];
    } else {
      next := items;
    }
  }

  /** One more result adds its selection, and at most its item. */
  lemma SelectionsStep(results: seq<Record>, used: seq<string>, dumps: Value -> string, i: nat)
    requires i < |results|
    ensures var sel := Selections(results[..i], used, dumps);
      var data := Selected(results[i], used, dumps);
      ItemsOf(Selections(results[..i + 1], used, dumps))
        == if |data| > 0 then ItemsOf(sel) + [MakeItem(i + 1, data)] else ItemsOf(sel)
  {
    assert results[..i + 1][..i] == results[..i];
    var next := Selections(results[..i + 1], used, dumps);
    assert next[..i] == Selections(results[..i], used, dumps);
  }

  /* ------------------------------------------------------- context facts */

  /** At most one item per selection. */
  lemma {:induction false} ItemsCount(selections: seq<seq<(string, Value)>>)
    ensures |ItemsOf(selections)| <= |selections|
    decreases |selections|
  {
    if |selections| > 0 {
      ItemsCount(selections[..|selections| - 1]);
    }
  }

  /** Every item has at least one field. */
  lemma {:induction false} ItemsHaveFields(selections: seq<seq<(string, Value)>>)
    ensures forall item :: item in ItemsOf(selections) ==> |item.fields| > 0
    decreases |selections|
  {
    if |selections| > 0 {
      ItemsHaveFields(selections[..|selections| - 1]);
    }
  }

  /** No selection holds a `序号` entry. */
  predicate Unnumbered(selections: seq<seq<(string, Value)>>) {
    forall k :: 0 <= k < |selections| ==> NumberKey !in KeysOf(selections[k])
  }

  /** Without a selected `序号` field, every item is numbered by the 1-based position of its result. */
  lemma {:induction false} ItemsNumbered(selections: seq<seq<(string, Value)>>)
    requires Unnumbered(selections)
    ensures forall item :: item in ItemsOf(selections) ==>
      item.number.Int? && 1 <= item.number.i <= |selections| && item.fields == selections[item.number.i - 1]
    decreases |selections|
  {
    if |selections| > 0 {
      var front := selections[..|selections| - 1];
      assert Unnumbered(front) by {
        assert forall k :: 0 <= k < |front| ==> front[k] == selections[k];
      }
      ItemsNumbered(front);
      assert forall k :: 0 <= k < |front| ==> front[k] == selections[k];
    }
  }

  /** Items keep the order of their results: their numbers increase strictly. */
  lemma {:induction false} ItemsIncreasing(selections: seq<seq<(string, Value)>>)
    requires Unnumbered(selections)
    ensures forall j, k :: 0 <= j < k < |ItemsOf(selections)| ==>
      ItemsOf(selections)[j].number.Int? && ItemsOf(selections)[k].number.Int?
      && ItemsOf(selections)[j].number.i < ItemsOf(selections)[k].number.i
    decreases |selections|
  {
    if |selections| > 0 {
      var front := selections[..|selections| - 1];
      assert Unnumbered(front) by {
        assert forall k :: 0 <= k < |front| ==> front[k] == selections[k];
      }
      var prev := ItemsOf(front);
      ItemsIncreasing(front);
      ItemsNumbered(front);
      var data := selections[|selections| - 1];
      if |data| > 0 {
        var items := ItemsOf(selections);
        assert items == prev + [MakeItem(|selections|, data)];
        assert items[|prev|].number == Int(|selections|);
        forall j, k | 0 <= j < k < |items|
          ensures items[j].number.Int? && items[k].number.Int? && items[j].number.i < items[k].number.i
        {
          assert items[j] == prev[j] && prev[j] in prev;
          if k < |prev| {
            assert items[k] == prev[k];
          } else {
            assert prev[j].number.i <= |front|;
            assert items[k].number == Int(|selections|);
          }
        }
      } else {
        assert ItemsOf(selections) == prev;
      }
    } else {
      assert |ItemsOf(selections)| == 0;
    }
  }

  /** Every selection with a field appears as the item numbered by its position. */
  lemma {:induction false} SelectionShown(selections: seq<seq<(string, Value)>>, k: nat)
    requires k < |selections| && |selections[k]| > 0
    requires NumberKey !in KeysOf(selections[k])
    ensures ContextItem(Int(k + 1), selections[k]) in ItemsOf(selections)
    decreases |selections|
  {
    var front := selections[..|selections| - 1];
    if k < |front| {
      assert front[k] == selections[k];
      SelectionShown(front, k);
    }
  }

  /** With `序号` not requested, no result's selection holds it. */
  lemma SelectionsUnnumbered(results: seq<Record>, used: seq<string>, dumps: Value -> string)
    requires NumberKey !in used
    ensures Unnumbered(Selections(results, used, dumps))
  {
    var sel := Selections(results, used, dumps);
    forall k | 0 <= k < |sel|
      ensures NumberKey !in KeysOf(sel[k])
    {
      SelectedFacts(results[k], used, dumps);
    }
  }

  /**
   * Unless `序号` is a selected field, items are numbered by the 1-based
   * position of their result among the first ten, in increasing order.
   */
  lemma ContextItemsNumbered(results: seq<Record>, fields: seq<string>, history: seq<ChatMessage>, dumps: Value -> string)
    requires NumberKey !in EffectiveFields(results, fields)
    ensures var items := ContextOf(results, fields, history, dumps).items;
      (forall item :: item in items ==> item.number.Int? && 1 <= item.number.i <= Shown(results))
      && (forall j, k :: 0 <= j < k < |items| ==> items[j].number.i < items[k].number.i)
  {
    var used := EffectiveFields(results, fields);
    var sel := Selections(results[..Shown(results)], used, dumps);
    assert ContextOf(results, fields, history, dumps).items == ItemsOf(sel);
    SelectionsUnnumbered(results[..Shown(results)], used, dumps);
    ItemsNumbered(sel);
    ItemsIncreasing(sel);
  }

  /**
   * Unless `序号` is a selected field, each of the first ten results with a
   * present field is shown, numbered by its position, with its selected fields.
   */
  lemma ContextShowsResult(results: seq<Record>, fields: seq<string>, history: seq<ChatMessage>, dumps: Value -> string, k: nat)
    requires NumberKey !in EffectiveFields(results, fields)
    requires k < Shown(results)
    requires exists f :: f in EffectiveFields(results, fields) && Present(results[k], f)
    ensures ContextItem(Int(k + 1), Selected(results[k], EffectiveFields(results, fields), dumps))
      in ContextOf(results, fields, history, dumps).items
  {
    var used := EffectiveFields(results, fields);
    var sel := Selections(results[..Shown(results)], used, dumps);
    SelectedEmpty(results[k], used, dumps);
    SelectedFacts(results[k], used, dumps);
    assert sel[k] == Selected(results[k], used, dumps);
    SelectionShown(sel, k);
  }

  /** At most ten items, at most one per result, and every item has a field. */
  lemma ContextItemsBounded(results: seq<Record>, fields: seq<string>, history: seq<ChatMessage>, dumps: Value -> string)
    ensures var items := ContextOf(results, fields, history, dumps).items;
      |items| <= MaxItems && |items| <= |results| && forall item :: item in items ==> |item.fields| > 0
  {
    var sel := Selections(results[..Shown(results)], EffectiveFields(results, fields), dumps);
    assert ContextOf(results, fields, history, dumps).items == ItemsOf(sel);
    ItemsCount(sel);
    ItemsHaveFields(sel);
  }

  /**
   * The history keeps the last ten messages in order, each with its text
   * and with the user's speaker exactly for messages in the role `user`.
   */
  lemma ContextHistoryKept(results: seq<Record>, fields: seq<string>, history: seq<ChatMessage>, dumps: Value -> string)
    ensures var h := ContextOf(results, fields, history, dumps).history;
      |h| == (if |history| < MaxHistory then |history| else MaxHistory)
      && forall j :: 0 <= j < |h| ==>
           h[j].text == history[|history| - |h| + j].content
           && (h[j].speaker == "用户" <==> history[|history| - |h| + j].role == "user")
  {
    assert ContextOf(results, fields, history, dumps).history == Entries(Recent(history));
    EntriesKept(history);
  }

  lemma EntriesKept(history: seq<ChatMessage>)
    ensures var h := Entries(Recent(history));
      |h| == (if |history| < MaxHistory then |history| else MaxHistory)
      && forall j :: 0 <= j < |h| ==>
           h[j].text == history[|history| - |h| + j].content
           && (h[j].speaker == "用户" <==> history[|history| - |h| + j].role == "user")
  {
    var r := Recent(history);
    var h := Entries(r);
    assert |h| == |r|;
    forall j | 0 <= j < |h|
      ensures h[j].text == history[|history| - |h| + j].content
      ensures h[j].speaker == "用户" <==> history[|history| - |h| + j].role == "user"
    {
      assert h[j] == Entry(r[j]);
    }
  }

  /**
   * The total counts every result, shown or not, and the default fields
   * replace an empty selection only when there are results.
   */
  lemma ContextTotals(results: seq<Record>, fields: seq<string>, history: seq<ChatMessage>, dumps: Value -> string)
    ensures ContextOf(results, fields, history, dumps).totalResults == |results|
    ensures ContextOf(results, fields, history, dumps).fieldsUsed
      == (if |results| > 0 && |fields| == 0 then DefaultFields else fields)
  {
  }

  /* ---------------------------------------------------------------- prompt */

  /** The fixed opening of the system prompt, line by line. */
  const Preamble: string := Join("\n", [
    "你是一个专业的情感分析和舆情监测AI助手，专门帮助用户分析和理解舆情数据。",
    "",
    "你的能力包括：",
    "1. 基于搜索结果回答用户关于舆情数据的问题",
    "2. 分析情感倾向、风险等级、企业相关信息",
    "3. 提供数据洞察和趋势分析",
    "4. 解释分析结果和标签含义",
    "",
    "回答要求：",
    "- 基于提供的数据回答问题，不要编造信息",
    "- 回答要专业、准确、有条理",
    "- 如果数据不足以回答问题，请明确说明",
    "- 使用中文回答",
    "- 回答长度适中，重点突出",
    "",
    ""])

  const NoResultsNotice: string := "\n注意：当前没有搜索结果数据，请提醒用户先进行数据搜索。\n"
  const HistoryHeader: string := "\n对话历史：\n"
  const Closing: string := "\n请基于以上信息回答用户的问题。"

  function ResultsHeader(total: nat): string {
    "\n当前搜索结果数据（共" + NatToString(total) + "条，显示前10条）：\n"
  }

  function FieldLine(entry: (string, Value)): string {
    if entry.0 != NumberKey then entry.0 + ": " + Show(entry.1) + "\n" else ""
  }

  /** The `key: value` lines of an item, `序号` skipped. */
  function FieldLines(fields: seq<(string, Value)>): string {
    if |fields| == 0 then "" else FieldLines(fields[..|fields| - 1]) + FieldLine(fields[|fields| - 1])
  }

  function ItemHeader(item: ContextItem): string {
    "\n【数据" + Show(item.number) + "】\n"
  }

  function ItemText(item: ContextItem): string {
    ItemHeader(item) + FieldLines(item.fields)
  }

  function ItemsText(items: seq<ContextItem>): string {
    if |items| == 0 then "" else ItemsText(items[..|items| - 1]) + ItemText(items[|items| - 1])
  }

  function FieldsFooter(used: seq<string>): string {
    "\n使用的字段: " + Join(", ", used) + "\n"
  }

  function ResultsSection(ctx: ChatContext): string {
    if |ctx.items| > 0 then ResultsHeader(ctx.totalResults) + ItemsText(ctx.items) + FieldsFooter(ctx.fieldsUsed)
    else NoResultsNotice
  }

  function HistoryLine(entry: HistoryEntry): string {
    entry.speaker + ": " + entry.text + "\n"
  }

  function HistoryLines(history: seq<HistoryEntry>): string {
    if |history| == 0 then "" else HistoryLines(history[..|history| - 1]) + HistoryLine(history[|history| - 1])
  }

  function HistorySection(ctx: ChatContext): string {
    if |ctx.history| > 0 then HistoryHeader + HistoryLines(ctx.history) else ""
  }

  /** The system prompt for a context, after a given opening. */
  function PromptWith(opening: string, ctx: ChatContext): string {
    opening + ResultsSection(ctx) + HistorySection(ctx) + Closing
  }

  /** The whole system prompt for a context. */
  function SystemPrompt(ctx: ChatContext): string {
    PromptWith(Preamble, ctx)
  }

  /** Appending piece by piece builds the same text as appending the joined pieces. */
  lemma AppendAssoc(a: string, b: string, c: string)
    ensures a + (b + c) == (a + b) + c
  {
  }

  method AppendFieldLines(prompt: string, fields: seq<(string, Value)>) returns (out: string)
    ensures out == prompt + FieldLines(fields)
  {
    out := prompt;
    var i := 0;
    while i < |fields|
      invariant 0 <= i <= |fields|
      invariant out == prompt + FieldLines(fields[..i])
    {
      assert fields[..i + 1][..i] == fields[..i];
      AppendAssoc(prompt, FieldLines(fields[..i]), FieldLine(fields[i]));
      var (key, value) := fields[i];
      if key != NumberKey {
        out := out + (key + ": " + Show(value) + "\n");
      }
      i := i + 1;
    }
    assert fields[..i] == fields;
  }

  method AppendItems(prompt: string, items: seq<ContextItem>) returns (out: string)
    ensures out == prompt + ItemsText(items)
  {
    out := prompt;
    var i := 0;
    while i < |items|
      invariant 0 <= i <= |items|
      invariant out == prompt + ItemsText(items[..i])
    {
      assert items[..i + 1][..i] == items[..i];
      var before := ItemsText(items[..i]);
      AppendAssoc(prompt, before, ItemText(items[i]));
      AppendAssoc(prompt + before, ItemHeader(items[i]), FieldLines(items[i].fields));
      out := out + ItemHeader(items[i]);
      out := AppendFieldLines(out, items[i].fields);
      i := i + 1;
    }
    assert items[..i] == items;
  }

  method AppendHistory(prompt: string, history: seq<HistoryEntry>) returns (out: string)
    ensures out == prompt + HistoryLines(history)
  {
    out := prompt;
    var i := 0;
    while i < |history|
      invariant 0 <= i <= |history|
      invariant out == prompt + HistoryLines(history[..i])
    {
      assert history[..i + 1][..i] == history[..i];
      AppendAssoc(prompt, HistoryLines(history[..i]), HistoryLine(history[i]));
      out := out + (history[i].speaker + ": " + history[i].text + "\n");
      i := i + 1;
    }
    assert history[..i] == history;
  }

  /** `_build_system_prompt`. */
  method BuildSystemPrompt(ctx: ChatContext) returns (prompt: string)
    ensures prompt == SystemPrompt(ctx)
  {
    prompt := ExtendPrompt(Preamble, ctx);
  }

  /** The appends `_build_system_prompt` makes after its fixed opening. */
  method ExtendPrompt(opening: string, ctx: ChatContext) returns (prompt: string)
    ensures prompt == PromptWith(opening, ctx)
  {
    prompt := opening;
    if |ctx.items| > 0 {
      var header := ResultsHeader(ctx.totalResults);
      prompt := prompt + header;
      prompt := AppendItems(prompt, ctx.items);
      prompt := prompt + FieldsFooter(ctx.fieldsUsed);
      AppendAssoc(opening, header, ItemsText(ctx.items));
      AppendAssoc(opening, header + ItemsText(ctx.items), FieldsFooter(ctx.fieldsUsed));
    } else {
      prompt := prompt + NoResultsNotice;
    }
    assert prompt == opening + ResultsSection(ctx);
    if |ctx.history| > 0 {
      prompt := prompt + HistoryHeader;
      prompt := AppendHistory(prompt, ctx.history);
      AppendAssoc(opening + ResultsSection(ctx), HistoryHeader, HistoryLines(ctx.history));
    }
    assert prompt == opening + ResultsSection(ctx) + HistorySection(ctx);
    prompt := prompt + Closing;
  }

  /** A text whose part after `p` differs from `b` at position `i` does not start with `p + b`. */
  lemma DiffersAfter(p: string, a: string, t: string, u: string, b: string, i: nat)
    requires i < |a| && i < |b| && a[i] != b[i]
    ensures !StartsWith(p + a + t + u, p + b)
  {
    assert (p + a + t + u)[|p| + i] == a[i];
    assert (p + b)[|p| + i] == b[i];
  }

  lemma StartsWithConcat(x: string, y: string, z: string)
    ensures StartsWith(x + y + z, x)
  {
    assert (x + y + z)[..|x|] == x;
  }

  /** With items, the results section opens differently from the notice. */
  lemma ResultsSectionOpening(ctx: ChatContext)
    requires |ctx.items| > 0
    ensures |ResultsSection(ctx)| > 1 && ResultsSection(ctx)[1] == '当'
  {
    var header := ResultsHeader(ctx.totalResults);
    assert header[1] == '当';
    assert ResultsSection(ctx)[1] == header[1];
  }

  /** The prompt follows the opening with the "no search results" notice exactly when the context has no items. */
  lemma NoticeIffNoItems(opening: string, ctx: ChatContext)
    ensures StartsWith(PromptWith(opening, ctx), opening + NoResultsNotice) <==> |ctx.items| == 0
  {
    if |ctx.items| > 0 {
      ResultsSectionOpening(ctx);
      DiffersAfter(opening, ResultsSection(ctx), HistorySection(ctx), Closing, NoResultsNotice, 1);
    } else {
      StartsWithConcat(opening + NoResultsNotice, HistorySection(ctx), Closing);
    }
  }

  /** The endpoint's own prompt carries the notice exactly when the context has no items. */
  lemma SystemPromptNotice(ctx: ChatContext)
    ensures StartsWith(SystemPrompt(ctx), Preamble + NoResultsNotice) <==> |ctx.items| == 0
  {
    NoticeIffNoItems(Preamble, ctx);
  }

  /** The prompt always ends with the closing instruction. */
  lemma PromptEndsWithClosing(opening: string, ctx: ChatContext)
    ensures EndsWith(PromptWith(opening, ctx), Closing)
  {
    var p := PromptWith(opening, ctx);
    assert p[|p| - |Closing|..] == Closing;
  }

  /* ------------------------------------------------------------- endpoint */

  /** What the language model client returned: its reply dict, or an exception message. */
  datatype LlmCall = Reply(reply: Record) | Raised(message: string)

  datatype ChatResponse = ChatResponse(success: bool, response: Value, error: Option<string>, contextUsed: Option<nat>)

  datatype ChatOutcome =
    | HttpError(status: nat, detail: string)
    | Responded(body: ChatResponse)

  /** A message the endpoint refuses: empty or whitespace only. */
  predicate BlankMessage(message: string) {
    Strip(message) == ""
  }

  /** The response for a non-blank message given what the model call produced. */
  function ResponseFor(call: LlmCall, resultCount: nat): (r: ChatResponse)
    ensures r.success <==> call.Reply? && Truthy(GetOrNull(call.reply, "success"))
    ensures r.success ==> r.error == None && r.contextUsed == Some(resultCount)
    ensures !r.success ==> r.error.Some? && r.contextUsed == None
  {
    match call
    case Reply(reply) =>
      if Truthy(GetOrNull(reply, "success")) then
        ChatResponse(true, Get(reply, "response", Str("抱歉，没有获取到回答")), None, Some(resultCount))
      else
        ChatResponse(false, Null, Some("AI服务错误: " + Show(Get(reply, "error", Str("调用AI服务失败")))), None)
    case Raised(message) =>
      ChatResponse(false, Null, Some("智能问答服务出现错误: " + message), None)
  }

  /**
   * `chat_with_ai`. `llm` stands for the model client: it receives the
   * system prompt and the stripped question.
   */
  method ChatWithAi(
    message: string, results: seq<Record>, fields: seq<string>, history: seq<ChatMessage>,
    dumps: Value -> string, llm: (string, string) -> LlmCall)
    returns (outcome: ChatOutcome)
    ensures BlankMessage(message) <==> outcome == HttpError(400, "问题不能为空")
    ensures !BlankMessage(message) ==>
      outcome == Responded(ResponseFor(llm(SystemPrompt(ContextOf(results, fields, history, dumps)), Strip(message)), |results|))
  {
    if Strip(message) == "" {
      return HttpError(400, "问题不能为空");
    }
    var ctx := BuildContext(results, fields, history, dumps);
    var prompt := BuildSystemPrompt(ctx);
    var question := Strip(message);
    var call := llm(prompt, question);
    outcome := Responded(ResponseFor(call, |results|));
  }
}
