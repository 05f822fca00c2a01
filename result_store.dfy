/**
 * The analysis-result table: saving one analysed item with its fourteen tag
 * verdicts, reading one back with its list of matched tags, paging through
 * the results newest first, and deleting one. The SQLite table is a sequence
 * of rows in id order, each holding the values of the 41 columns the insert
 * names, in that order; ids come from an AUTOINCREMENT counter.
 */
module ResultStore {
  import opened Wrappers
  import opened Values
  import opened PyText
  import Database
  import Paging

  /** The fourteen review tags, in the fixed order of every tag loop. */
  const TagNames: seq<string> := [
    "同业竞争", "股权与控制权", "关联交易", "历史沿革与股东核查", "重大违法违规",
    "收入与成本", "财务内控不规范", "客户与供应商", "资产质量与减值", "研发与技术",
    "募集资金用途", "突击分红与对赌协议", "市场传闻与负面报道", "行业政策与环境"
  ]

  /** The thirteen leading insert columns. */
  const BaseColumns: seq<string> := [
    "original_id", "title", "content", "summary", "source", "publish_time",
    "sentiment_level", "sentiment_reason", "companies", "duplicate_id",
    "duplication_rate", "processing_time", "session_id"
  ]

  /**
   * The defaults of the eleven text and number columns between `original_id`
   * and `session_id`: `data.get` falls back to them on save and `COALESCE`
   * substitutes them for NULL on read.
   */
  const Defaults: seq<Value> := [
    Str("无标题"), Str("无内容"), Str("无摘要"), Str("未知来源"), Str("未知时间"),
    Str("未知"), Str("无原因"), Str(""), Str("无"), Real(0.0), Int(0)
  ]

  /** Verdict and reason strings. */
  const Yes: Value := Str("是")
  const No: Value := Str("否")
  const NoReason: Value := Str("无")

  /** `tag_<name>` then `reason_<name>` for every tag, after the base columns. */
  function InsertColumns(): (r: seq<string>)
    ensures |r| == |BaseColumns| + 2 * |TagNames|
  {
    BaseColumns
      + seq(|TagNames|, i requires 0 <= i < |TagNames| => "tag_" + TagNames[i])
      + seq(|TagNames|, i requires 0 <= i < |TagNames| => "reason_" + TagNames[i])
  }

  /** What `sqlite3` can bind as a parameter: `None`, a 64-bit integer, a float or a string. */
  predicate Bindable(v: Value) {
    match v
    case Null => true
    case Bool(_) => true
    case Int(i) => -0x8000_0000_0000_0000 <= i < 0x8000_0000_0000_0000
    case Real(_) => true
    case Str(_) => true
    case _ => false
  }

  /**
   * The tag column and the reason column for one tag, or `None` where the
   * loop raises: `tag_name in tag_results` needs a container, and a hit in
   * anything but a dict of dicts fails on the lookup or on `.get`.
   */
  function TagCell(tags: Value, name: string): (r: Option<(Value, Value)>)
    ensures r.Some? ==> r.value.0 == Yes || r.value.0 == No
    ensures r.Some? && r.value.0 == Yes <==>
      tags.Dict? && name in tags.fields && tags.fields[name].Dict? && Truthy(Get(tags.fields[name].fields, "belongs", Bool(false)))
    ensures tags.Dict? && name !in tags.fields ==> r == Some((No, NoReason))
  {
    match tags
    case Dict(m) =>
      if name !in m then Some((No, NoReason))
      else (
        match m[name]
        case Dict(res) => Some((if Truthy(Get(res, "belongs", Bool(false))) then Yes else No, Get(res, "reason", NoReason)))
        case _ => None)
    case List(items) => if Str(name) in items then None else Some((No, NoReason))
    case Str(s) => if Contains(s, name) then None else Some((No, NoReason))
    case _ => None
  }

  /**
   * The tag loop of `save_analysis_result`: the tag and reason values for the
   * fourteen tags in order, or `None` when some tag raises.
   */
  method FlattenTags(tags: Value) returns (r: Option<(seq<Value>, seq<Value>)>)
    ensures r.None? <==> exists i :: 0 <= i < |TagNames| && TagCell(tags, TagNames[i]).None?
    ensures r.Some? ==> CellsMatch(tags, r.value.0, r.value.1)
  {
    var flags, reasons := [], [];
    var i := 0;
    while i < |TagNames|
      invariant 0 <= i <= |TagNames|
      invariant |flags| == i && |reasons| == i
      invariant forall j :: 0 <= j < i ==> TagCell(tags, TagNames[j]) == Some((flags[j], reasons[j]))
    {
      var cell := TagCell(tags, TagNames[i]);
      if cell.None? {
        return None;
      }
      flags, reasons := flags + [cell.value.0], reasons + [cell.value.1];
      i := i + 1;
    }
    return Some((flags, reasons));
  }

  /** `flags` and `reasons` are the tag and reason columns for the fourteen tags, in order. */
  predicate CellsMatch(tags: Value, flags: seq<Value>, reasons: seq<Value>) {
    && |flags| == |TagNames| && |reasons| == |TagNames|
    && forall i :: 0 <= i < |TagNames| ==> TagCell(tags, TagNames[i]) == Some((flags[i], reasons[i]))
  }

  /** The thirteen base values of the insert, with the `data.get` defaults. */
  function BaseValues(data: Record): (r: seq<Value>)
    ensures |r| == |BaseColumns|
    ensures r[0] == GetOrNull(data, "original_id") && r[12] == GetOrNull(data, "session_id")
    ensures forall k :: 0 <= k < |Defaults| ==> r[k + 1] == Get(data, BaseColumns[k + 1], Defaults[k])
  {
    [GetOrNull(data, "original_id")]
      + seq(|Defaults|, k requires 0 <= k < |Defaults| => Get(data, BaseColumns[k + 1], Defaults[k]))
      + [GetOrNull(data, "session_id")]
  }

  /** Some tag entry makes the tag loop raise. */
  predicate TagsRaise(tags: Value) {
    exists i :: 0 <= i < |TagNames| && TagCell(tags, TagNames[i]).None?
  }

  /** Some base value cannot be bound as a parameter. */
  predicate BaseUnbindable(data: Record) {
    exists k :: 0 <= k < |BaseColumns| && !Bindable(BaseValues(data)[k])
  }

  /** Some tag reason cannot be bound as a parameter. */
  predicate ReasonUnbindable(tags: Value) {
    exists i :: 0 <= i < |TagNames| && TagCell(tags, TagNames[i]).Some? && !Bindable(TagCell(tags, TagNames[i]).value.1)
  }

  /**
   * Where the insert path of `save_analysis_result` raises: an `original_id`
   * the duplicate query cannot bind, a tag entry the loop cannot read, or an
   * insert value `sqlite3` cannot bind.
   */
  predicate SaveRaises(data: Record) {
    var orig := GetOrNull(data, "original_id");
    || (orig != Null && !Bindable(orig))
    || TagsRaise(Get(data, "tag_results", Dict(map[])))
    || BaseUnbindable(data)
    || ReasonUnbindable(Get(data, "tag_results", Dict(map[])))
  }

  /** Where an insert value comes from: a base value, a verdict or a reason. */
  lemma ValueSource(base: seq<Value>, flags: seq<Value>, reasons: seq<Value>, k: nat)
    requires |base| == 13 && |flags| == 14 && k < |base + flags + reasons|
    ensures k < 13 ==> (base + flags + reasons)[k] == base[k]
    ensures 13 <= k < 27 ==> (base + flags + reasons)[k] == flags[k - 13]
    ensures 27 <= k ==> (base + flags + reasons)[k] == reasons[k - 27]
  {
  }

  /** A value that fails to bind is a base value or a reason: the verdicts always bind. */
  lemma UnbindableValueFound(data: Record, flags: seq<Value>, reasons: seq<Value>, k: nat)
    requires CellsMatch(Get(data, "tag_results", Dict(map[])), flags, reasons)
    requires k < |BaseValues(data) + flags + reasons| && !Bindable((BaseValues(data) + flags + reasons)[k])
    ensures BaseUnbindable(data) || ReasonUnbindable(Get(data, "tag_results", Dict(map[])))
  {
    var tags := Get(data, "tag_results", Dict(map[]));
    var base := BaseValues(data);
    ValueSource(base, flags, reasons, k);
    FlagsBindable(tags, flags, reasons);
    if k < 13 {
      assert !Bindable(base[k]);
    } else if k >= 27 {
      assert TagCell(tags, TagNames[k - 27]) == Some((flags[k - 27], reasons[k - 27]));
    }
  }

  /** The verdict cells are '是' or '否', which always bind. */
  lemma FlagsBindable(tags: Value, flags: seq<Value>, reasons: seq<Value>)
    requires CellsMatch(tags, flags, reasons)
    ensures forall j :: 0 <= j < |flags| ==> Bindable(flags[j])
  {
    forall j | 0 <= j < |flags| ensures Bindable(flags[j]) {
      assert TagCell(tags, TagNames[j]) == Some((flags[j], reasons[j]));
    }
  }

  /** An unbindable base value or reason is an unbindable insert value. */
  lemma UnbindableValueWitness(data: Record, flags: seq<Value>, reasons: seq<Value>)
    requires CellsMatch(Get(data, "tag_results", Dict(map[])), flags, reasons)
    requires BaseUnbindable(data) || ReasonUnbindable(Get(data, "tag_results", Dict(map[])))
    ensures exists k :: 0 <= k < |BaseValues(data) + flags + reasons| && !Bindable((BaseValues(data) + flags + reasons)[k])
  {
    var tags := Get(data, "tag_results", Dict(map[]));
    var base := BaseValues(data);
    if BaseUnbindable(data) {
      var k :| 0 <= k < |BaseColumns| && !Bindable(base[k]);
      ValueSource(base, flags, reasons, k);
    } else {
      var i :| 0 <= i < |TagNames| && TagCell(tags, TagNames[i]).Some? && !Bindable(TagCell(tags, TagNames[i]).value.1);
      assert TagCell(tags, TagNames[i]) == Some((flags[i], reasons[i]));
      ValueSource(base, flags, reasons, 27 + i);
    }
  }

  /** The insert values fail to bind exactly when a base value or a reason does: the verdicts always bind. */
  lemma UnbindableValues(data: Record, flags: seq<Value>, reasons: seq<Value>)
    requires CellsMatch(Get(data, "tag_results", Dict(map[])), flags, reasons)
    ensures var values := BaseValues(data) + flags + reasons;
      (exists k :: 0 <= k < |values| && !Bindable(values[k])) <==>
        BaseUnbindable(data) || ReasonUnbindable(Get(data, "tag_results", Dict(map[])))
  {
    var values := BaseValues(data) + flags + reasons;
    if k :| 0 <= k < |values| && !Bindable(values[k]) {
      UnbindableValueFound(data, flags, reasons, k);
    }
    if BaseUnbindable(data) || ReasonUnbindable(Get(data, "tag_results", Dict(map[]))) {
      UnbindableValueWitness(data, flags, reasons);
    }
  }

  /** A stored row: its id and the values of the insert columns. */
  datatype Stored = Stored(id: nat, values: seq<Value>)

  predicate IdsAscending(rows: seq<Stored>) {
    forall a, b :: 0 <= a < b < |rows| ==> rows[a].id < rows[b].id
  }

  /** No two rows share a non-null `original_id`: what the duplicate guard is for. */
  predicate OriginalsUnique(rows: seq<Stored>)
    requires forall a :: 0 <= a < |rows| ==> |rows[a].values| > 0
  {
    forall a, b :: 0 <= a < b < |rows| && rows[a].values[0] != Null ==> rows[a].values[0] != rows[b].values[0]
  }

  /** `SELECT id FROM sentiment_results WHERE original_id = ?` finds a row. */
  predicate HasOriginal(rows: seq<Stored>, orig: Value)
    requires forall a :: 0 <= a < |rows| ==> |rows[a].values| > 0
  {
    exists a :: 0 <= a < |rows| && rows[a].values[0] == orig
  }

  /** What `save_analysis_result` does apart from the table: a new id, the existing one, or a failure. */
  datatype SaveReply = Saved(id: nat) | Duplicate(existingId: nat) | Failed

  /** One row as `get_analysis_result_by_id` returns it. */
  datatype ResultView = ResultView(
    id: nat,
    originalId: Value,
    fields: seq<Value>,
    tagFlags: seq<Value>,
    reasons: seq<Value>,
    tags: seq<string>)

  /** `COALESCE(column, default)`. */
  function Coalesce(v: Value, default: Value): Value {
    if v == Null then default else v
  }

  /** The tag names whose column reads '是', in tag order. */
  function TagsOf(flags: seq<Value>, names: seq<string>): (r: seq<string>)
    requires |flags| == |names|
    ensures |r| <= |names|
    ensures forall x :: x in r ==> exists i :: 0 <= i < |names| && names[i] == x && flags[i] == Yes
    ensures forall i :: 0 <= i < |names| && flags[i] == Yes ==> names[i] in r
  {
    if names == [] then []
    else (if flags[0] == Yes then [names[0]] else []) + TagsOf(flags[1..], names[1..])
  }

  const ColumnCount: nat := |BaseColumns| + 2 * |TagNames|

  /** The row read back through the SELECT with its `COALESCE` defaults. */
  function ViewOf(row: Stored): (r: ResultView)
    requires |row.values| == ColumnCount
    ensures r.id == row.id && r.originalId == Coalesce(row.values[0], Int(row.id))
    ensures |r.fields| == |Defaults| && |r.tagFlags| == |TagNames| && |r.reasons| == |TagNames|
    ensures forall k :: 0 <= k < |Defaults| ==> r.fields[k] == Coalesce(row.values[k + 1], Defaults[k])
    ensures forall i :: 0 <= i < |TagNames| ==> r.tagFlags[i] == row.values[13 + i] && r.reasons[i] == row.values[27 + i]
  {
    var v := row.values;
    var flags := v[13..27];
    ResultView(
      row.id,
      if v[0] == Null then Int(row.id) else v[0],
      seq(|Defaults|, k requires 0 <= k < |Defaults| => Coalesce(v[k + 1], Defaults[k])),
      flags,
      v[27..41],
      TagsOf(flags, TagNames))
  }

  /** Row position by id. */
  function IndexOf(rows: seq<Stored>, id: nat): (r: Option<nat>)
    ensures r.Some? ==> r.value < |rows| && rows[r.value].id == id
    ensures r.None? ==> forall a :: 0 <= a < |rows| ==> rows[a].id != id
  {
    if rows == [] then None
    else if rows[|rows| - 1].id == id then Some(|rows| - 1)
    else IndexOf(rows[..|rows| - 1], id)
  }

  function Reverse<T>(s: seq<T>): (r: seq<T>)
    ensures |r| == |s|
    ensures forall k :: 0 <= k < |s| ==> r[k] == s[|s| - 1 - k]
    ensures forall x :: x in r ==> x in s
  {
    seq(|s|, k requires 0 <= k < |s| => s[|s| - 1 - k])
  }

  function Matching(rows: seq<Stored>, keep: Stored -> bool): (r: seq<Stored>)
    ensures forall x :: x in r ==> x in rows && keep(x)
    ensures forall x :: x in rows && keep(x) ==> x in r
    ensures IdsAscending(rows) ==> IdsAscending(r)
  {
    if rows == [] then []
    else
      var rest := Matching(rows[..|rows| - 1], keep);
      var last := rows[|rows| - 1];
      if keep(last) then
        AscendingSnoc(rows, rest);
        rest + [last]
      else rest
  }

  /** Rows drawn from all but the last of ascending rows stay ascending with the last one appended. */
  lemma AscendingSnoc(rows: seq<Stored>, rest: seq<Stored>)
    requires rows != [] && forall x :: x in rest ==> x in rows[..|rows| - 1]
    ensures IdsAscending(rows) && IdsAscending(rest) ==> IdsAscending(rest + [rows[|rows| - 1]])
  {
    if IdsAscending(rows) && IdsAscending(rest) {
      var r := rest + [rows[|rows| - 1]];
      forall a, b | 0 <= a < b < |r| ensures r[a].id < r[b].id {
        if b == |r| - 1 {
          assert r[a] == rest[a] && rest[a] in rest;
          var c :| 0 <= c < |rows| - 1 && rows[..|rows| - 1][c] == rest[a];
          assert rows[c] == r[a];
        }
      }
    }
  }

  class ResultTable {
    /** The rows, in insertion (and so id) order. */
    var rows: seq<Stored>
    /** The AUTOINCREMENT counter: the largest id ever handed out. */
    var lastId: nat

    ghost predicate Valid()
      reads this
    {
      ValidRows(rows, lastId)
    }

    constructor()
      ensures Valid() && rows == [] && lastId == 0
    {
      rows, lastId := [], 0;
    }

    /** The first row, in scan order, whose `original_id` equals `orig`. */
    method FindOriginal(orig: Value) returns (found: Option<nat>)
      requires Valid()
      ensures found.None? <==> !HasOriginal(rows, orig)
      ensures found.Some? ==> exists a :: 0 <= a < |rows| && rows[a].id == found.value && rows[a].values[0] == orig
    {
      var a := 0;
      while a < |rows|
        invariant 0 <= a <= |rows|
        invariant forall b :: 0 <= b < a ==> rows[b].values[0] != orig
      {
        if rows[a].values[0] == orig {
          return Some(rows[a].id);
        }
        a := a + 1;
      }
      return None;
    }

    /**
     * `save_analysis_result`: an item whose non-null `original_id` is already
     * stored is skipped and the existing id reported; otherwise the base
     * values with their defaults, the fourteen verdicts and the fourteen
     * reasons are inserted under the next id. Any exception leaves the table
     * as it was.
     */
    method SaveAnalysisResult(data: Record) returns (reply: SaveReply)
      requires Valid()
      modifies this
      ensures Valid()
      ensures var orig := GetOrNull(data, "original_id");
        reply.Duplicate? <==> orig != Null && Bindable(orig) && HasOriginal(old(rows), orig)
      ensures reply.Duplicate? ==> exists a :: 0 <= a < |rows| && rows[a].id == reply.existingId && rows[a].values[0] == GetOrNull(data, "original_id")
      ensures !reply.Saved? ==> rows == old(rows) && lastId == old(lastId)
      ensures var orig := GetOrNull(data, "original_id");
        reply.Failed? <==> SaveRaises(data) && !(orig != Null && Bindable(orig) && HasOriginal(old(rows), orig))
      ensures reply.Saved? ==>
        && reply.id == old(lastId) + 1 == lastId
        && |rows| == |old(rows)| + 1 && rows[..|old(rows)|] == old(rows)
        && rows[|rows| - 1].id == reply.id
        && Inserted(data, rows[|rows| - 1].values)
    {
      var orig := GetOrNull(data, "original_id");
      if orig != Null {
        if !Bindable(orig) {
          return Failed;
        }
        var existing := FindOriginal(orig);
        if existing.Some? {
          return Duplicate(existing.value);
        }
      }
      var flat := FlattenTags(Get(data, "tag_results", Dict(map[])));
      if flat.None? {
        return Failed;
      }
      var values := BaseValues(data) + flat.value.0 + flat.value.1;
      UnbindableValues(data, flat.value.0, flat.value.1);
      if exists k :: 0 <= k < |values| && !Bindable(values[k]) {
        return Failed;
      }
      InsertedValues(data, flat.value.0, flat.value.1);
      var id := Insert(values);
      return Saved(id);
    }

    /** The INSERT itself: the row goes to the end under the next AUTOINCREMENT id. */
    method Insert(values: seq<Value>) returns (id: nat)
      requires Valid() && |values| == ColumnCount
      requires values[0] == Null || !HasOriginal(rows, values[0])
      modifies this
      ensures Valid()
      ensures id == old(lastId) + 1 == lastId
      ensures rows == old(rows) + [Stored(id, values)]
    {
      id := lastId + 1;
      AppendValid(rows, lastId, values);
      rows, lastId := rows + [Stored(id, values)], id;
    }

    /**
     * `get_analysis_result_by_id`: the row read back with its defaults and
     * its list of tags, or `None` for an unknown id.
     */
    method GetById(id: nat) returns (r: Option<ResultView>)
      requires Valid()
      ensures r.None? <==> forall a :: 0 <= a < |rows| ==> rows[a].id != id
      ensures r.Some? ==> exists a :: 0 <= a < |rows| && rows[a].id == id && r.value == ViewOf(rows[a])
    {
      var at := IndexOf(rows, id);
      if at.None? {
        return None;
      }
      return Some(ViewOf(rows[at.value]));
    }

    /**
     * `delete_analysis_result`: removes the row with that id, and fails
     * without changing anything when there is none.
     */
    method DeleteAnalysisResult(id: nat) returns (ok: bool)
      requires Valid()
      modifies this
      ensures Valid()
      ensures ok <==> exists a :: 0 <= a < |old(rows)| && old(rows)[a].id == id
      ensures !ok ==> rows == old(rows)
      ensures ok ==> exists a :: 0 <= a < |old(rows)| && old(rows)[a].id == id && rows == old(rows)[..a] + old(rows)[a + 1..]
      ensures forall b :: 0 <= b < |rows| ==> rows[b].id != id
      ensures lastId == old(lastId)
    {
      var at := IndexOf(rows, id);
      if at.None? {
        return false;
      }
      var a := at.value;
      RemovePreserves(rows, lastId, a);
      rows := Without(rows, a);
      return true;
    }
  }

  /** The insert values are those of the item: base values with defaults, then the verdicts, then the reasons. */
  ghost predicate Inserted(data: Record, values: seq<Value>) {
    && |values| == ColumnCount
    && values[..13] == BaseValues(data)
    && CellsMatch(Get(data, "tag_results", Dict(map[])), values[13..27], values[27..])
  }

  /** Every row holds a value per insert column and an id the counter has handed out; ids ascend and non-null `original_id`s are unique. */
  ghost predicate ValidRows(rows: seq<Stored>, lastId: nat) {
    && (forall a :: 0 <= a < |rows| ==> |rows[a].values| == ColumnCount && 1 <= rows[a].id <= lastId)
    && IdsAscending(rows)
    && OriginalsUnique(rows)
  }

  lemma InsertedValues(data: Record, flags: seq<Value>, reasons: seq<Value>)
    requires CellsMatch(Get(data, "tag_results", Dict(map[])), flags, reasons)
    ensures Inserted(data, BaseValues(data) + flags + reasons)
  {
    var values := BaseValues(data) + flags + reasons;
    assert values[..13] == BaseValues(data);
    assert values[13..27] == flags;
    assert values[27..] == reasons;
  }

  /** Appending a row under the next id, with a null or new `original_id`, keeps the table valid. */
  lemma AppendValid(rows: seq<Stored>, lastId: nat, values: seq<Value>)
    requires ValidRows(rows, lastId) && |values| == ColumnCount
    requires values[0] == Null || !HasOriginal(rows, values[0])
    ensures ValidRows(rows + [Stored(lastId + 1, values)], lastId + 1)
  {
  }

  /** Removing a row keeps the table valid, and its id is gone. */
  lemma RemovePreserves(rows: seq<Stored>, lastId: nat, a: nat)
    requires a < |rows| && ValidRows(rows, lastId)
    ensures ValidRows(Without(rows, a), lastId)
    ensures forall b :: 0 <= b < |Without(rows, a)| ==> Without(rows, a)[b].id != rows[a].id
  {
    var r := Without(rows, a);
    forall b | 0 <= b < |r| ensures |r[b].values| == ColumnCount && 1 <= r[b].id <= lastId && r[b].id != rows[a].id {
      assert r[b] == rows[Skip(a, b)] && Skip(a, b) != a;
    }
    RemoveKeepsOrder(rows, a);
  }

  /** Removing a row keeps the ids ascending and the `original_id`s unique. */
  lemma RemoveKeepsOrder(rows: seq<Stored>, a: nat)
    requires a < |rows| && (forall b :: 0 <= b < |rows| ==> |rows[b].values| > 0)
    requires IdsAscending(rows) && OriginalsUnique(rows)
    ensures IdsAscending(Without(rows, a)) && OriginalsUnique(Without(rows, a))
  {
    var r := Without(rows, a);
    forall b, c | 0 <= b < c < |r| ensures r[b].id < r[c].id {
      assert Skip(a, b) < Skip(a, c);
    }
    forall b, c | 0 <= b < c < |r| && r[b].values[0] != Null ensures r[b].values[0] != r[c].values[0] {
      assert Skip(a, b) < Skip(a, c);
    }
  }

  /** Position `b` of `Without(rows, a)` is position `Skip(a, b)` of `rows`. */
  function Skip(a: nat, b: nat): nat {
    if b < a then b else b + 1
  }

  /** `rows` without position `a`. */
  function Without(rows: seq<Stored>, a: nat): (r: seq<Stored>)
    requires a < |rows|
    ensures |r| == |rows| - 1
    ensures forall b :: 0 <= b < |r| ==> r[b] == rows[Skip(a, b)]
  {
    rows[..a] + rows[a + 1..]
  }

  /** The rows `get_analysis_results` selects: those matching the stripped keyword when it is not blank, newest first, as a `LIMIT`/`OFFSET` page. */
  function ResultRows(rows: seq<Stored>, keyword: Option<string>, like: (string, Stored) -> bool, page: int, size: int)
    : (r: Option<Database.DataPage<Stored>>)
    ensures r.None? <==> size == 0
    ensures r.Some? ==> forall x :: x in r.value.data ==> x in rows
    ensures r.Some? && keyword.Some? && Strip(keyword.value) != "" ==>
      forall x :: x in r.value.data ==> like(Strip(keyword.value), x)
  {
    var kw := if keyword.Some? then Strip(keyword.value) else "";
    var matched := if kw != "" then Matching(rows, x => like(kw, x)) else rows;
    Database.GetData(Reverse(matched), page, size)
  }

  /** The `COALESCE` views of stored rows, in order. */
  function Views(rows: seq<Stored>): (r: seq<ResultView>)
    requires forall a :: 0 <= a < |rows| ==> |rows[a].values| == ColumnCount
    ensures |r| == |rows|
    ensures forall k :: 0 <= k < |rows| ==> r[k] == ViewOf(rows[k])
  {
    seq(|rows|, k requires 0 <= k < |rows| => ViewOf(rows[k]))
  }

  /**
   * `get_analysis_results`: the selected rows, each read through the SELECT
   * with its `COALESCE` defaults. `like` stands for the four
   * `LIKE '%keyword%'` tests.
   */
  function ResultsPage(rows: seq<Stored>, keyword: Option<string>, like: (string, Stored) -> bool, page: int, size: int)
    : (r: Option<Database.DataPage<ResultView>>)
    requires forall a :: 0 <= a < |rows| ==> |rows[a].values| == ColumnCount
    ensures r.None? <==> size == 0
    ensures r.Some? ==> r.value.page == page && r.value.pageSize == size
    ensures r.Some? ==> forall k :: 0 <= k < |r.value.data| ==> ViewedFrom(r.value.data[k], rows, keyword, like)
  {
    var p := ResultRows(rows, keyword, like, page, size);
    if p.None? then None
    else
      var d := p.value.data;
      ViewsOfRows(rows, d, keyword, like);
      Some(Database.DataPage(Views(d), p.value.total, p.value.page, p.value.pageSize, p.value.totalPages))
  }

  /** Each view of rows drawn from `rows` (and matching the keyword) is the view of such a row. */
  lemma ViewsOfRows(rows: seq<Stored>, d: seq<Stored>, keyword: Option<string>, like: (string, Stored) -> bool)
    requires forall a :: 0 <= a < |rows| ==> |rows[a].values| == ColumnCount
    requires forall x :: x in d ==> x in rows
    requires keyword.Some? && Strip(keyword.value) != "" ==> forall x :: x in d ==> like(Strip(keyword.value), x)
    ensures forall a :: 0 <= a < |d| ==> |d[a].values| == ColumnCount
    ensures forall k :: 0 <= k < |d| ==> ViewedFrom(ViewOf(d[k]), rows, keyword, like)
  {
    forall k | 0 <= k < |d|
      ensures |d[k].values| == ColumnCount && ViewedFrom(ViewOf(d[k]), rows, keyword, like)
    {
      assert d[k] in d;
    }
  }

  /** `v` is the view of a stored row that the search keeps. */
  predicate ViewedFrom(v: ResultView, rows: seq<Stored>, keyword: Option<string>, like: (string, Stored) -> bool) {
    exists x :: x in rows && |x.values| == ColumnCount && v == ViewOf(x)
      && (keyword.Some? && Strip(keyword.value) != "" ==> like(Strip(keyword.value), x))
  }

  /**
   * With a positive page size, a page of results lists the matching rows
   * newest first: ids strictly descend within the page; without a search
   * `total` counts every row.
   */
  lemma ResultsPageNewestFirst(rows: seq<Stored>, keyword: Option<string>, like: (string, Stored) -> bool, page: int, size: int)
    requires forall a :: 0 <= a < |rows| ==> |rows[a].values| == ColumnCount
    requires IdsAscending(rows) && page >= 1 && size > 0
    ensures var r := ResultsPage(rows, keyword, like, page, size);
      && r.Some?
      && (forall a, b :: 0 <= a < b < |r.value.data| ==> r.value.data[a].id > r.value.data[b].id)
      && (keyword.None? || Strip(keyword.value) == "" ==> r.value.total == |rows|)
  {
    var kw := if keyword.Some? then Strip(keyword.value) else "";
    var matched := if kw != "" then Matching(rows, x => like(kw, x)) else rows;
    ReverseDescending(matched);
    PageDescending(Reverse(matched), page, size);
  }

  predicate IdsDescending(rows: seq<Stored>) {
    forall a, b :: 0 <= a < b < |rows| ==> rows[a].id > rows[b].id
  }

  lemma ReverseDescending(s: seq<Stored>)
    requires IdsAscending(s)
    ensures IdsDescending(Reverse(s))
  {
  }

  /** A database page of rows in descending id order is itself in descending order. */
  lemma PageDescending(s: seq<Stored>, page: int, size: int)
    requires IdsDescending(s) && page >= 1 && size > 0
    ensures var r := Database.GetData(s, page, size); r.Some? && IdsDescending(r.value.data)
  {
    var offset := Paging.Offset(page, size);
    var lo := if offset < 0 then 0 else if offset > |s| then |s| else offset;
    var hi := if lo + size > |s| then |s| else lo + size;
    assert Database.GetData(s, page, size).value.data == s[lo..hi];
    var t := s[lo..hi];
    assert forall a, b :: 0 <= a < b < |t| ==> t[a] == s[lo + a] && t[b] == s[lo + b];
  }

  /**
   * A value SQLite stores as it is bound in base column `k`: NULL, or a value
   * of the column's declared type (INTEGER for `original_id` and
   * `processing_time`, REAL for `duplication_rate`, TEXT for the others).
   * Other values are converted by the column's affinity.
   */
  predicate OfColumnType(v: Value, k: nat) {
    v == Null || (if k == 0 || k == 11 then v.Int? else if k == 10 then v.Real? else v.Str?)
  }

  /** Every base value of the item is of its column's type. */
  predicate ColumnTyped(data: Record) {
    forall k :: 0 <= k < |BaseColumns| ==> OfColumnType(BaseValues(data)[k], k)
  }

  /**
   * Reading a saved row back: each text or number column is the item's
   * value, or its default when the item left it out or set it to `None`,
   * and the `original_id` falls back to the row id.
   */
  lemma SavedFieldsReadBack(data: Record, id: nat, values: seq<Value>)
    requires Inserted(data, values) && ColumnTyped(data)
    ensures var v := ViewOf(Stored(id, values));
      && (GetOrNull(data, "original_id") == Null ==> v.originalId == Int(id))
      && (GetOrNull(data, "original_id") != Null ==> v.originalId == data["original_id"])
      && (forall k :: 0 <= k < |Defaults| ==>
            v.fields[k] == if BaseColumns[k + 1] in data && data[BaseColumns[k + 1]] != Null then data[BaseColumns[k + 1]] else Defaults[k])
  {
    var v := ViewOf(Stored(id, values));
    var base := BaseValues(data);
    assert values[..13] == base;
    forall k | 0 <= k < |Defaults|
      ensures v.fields[k] == if BaseColumns[k + 1] in data && data[BaseColumns[k + 1]] != Null then data[BaseColumns[k + 1]] else Defaults[k]
    {
      assert values[k + 1] == base[k + 1] == Get(data, BaseColumns[k + 1], Defaults[k]);
    }
    assert values[0] == base[0];
  }

  /**
   * The tag list of a saved row holds exactly the tags whose verdict is
   * '是', that is, whose result in `tag_results` is a dict with a truthy
   * `belongs`.
   */
  lemma SavedTagsReadBack(data: Record, id: nat, values: seq<Value>)
    requires Inserted(data, values)
    ensures var v := ViewOf(Stored(id, values));
      && (forall i :: 0 <= i < |TagNames| && Belongs(data, TagNames[i]) ==> TagNames[i] in v.tags)
      && (forall x :: x in v.tags ==> exists i :: 0 <= i < |TagNames| && TagNames[i] == x && Belongs(data, x))
  {
    var v := ViewOf(Stored(id, values));
    var tags := Get(data, "tag_results", Dict(map[]));
    forall i | 0 <= i < |TagNames|
      ensures v.tagFlags[i] == Yes <==> Belongs(data, TagNames[i])
    {
      assert TagCell(tags, TagNames[i]) == Some((values[13..27][i], values[27..][i]));
    }
  }

  /** The item's result for `name` is a dict whose `belongs` is truthy. */
  predicate Belongs(data: Record, name: string) {
    var tags := Get(data, "tag_results", Dict(map[]));
    tags.Dict? && name in tags.fields && tags.fields[name].Dict? && Truthy(Get(tags.fields[name].fields, "belongs", Bool(false)))
  }
}
