/**
 * The query helpers of the sentiment-data store: normalising the bounds of a
 * time-range filter, translating the filter dict and the free-text search
 * into a parameterised WHERE clause, and the LIMIT/OFFSET paging of
 * `get_data`. The SQLite connection itself is not modelled: the rows a query
 * matches, already ordered, are a parameter.
 */
module Database {
  import opened Wrappers
  import opened Values
  import opened PyText
  import opened Paging

  // ---------------------------------------------------------------------------
  // Time-string normalisation
  // ---------------------------------------------------------------------------

  predicate NoT(s: string) {
    forall k :: 0 <= k < |s| ==> s[k] != 'T'
  }

  /** The first step: every 'T' becomes a space when there is one. */
  function Untee(s: string): (r: string)
    ensures |r| == |s|
    ensures forall k :: 0 <= k < |s| ==> r[k] == if s[k] == 'T' then ' ' else s[k]
  {
    ReplaceOneChar(s, 'T', ' ');
    if Contains(s, "T") then Replace(s, "T", " ") else s
  }

  /**
   * `_normalize_time_format` on a string. `reparse` stands for
   * `datetime.fromisoformat(...).strftime("%Y-%m-%d %H:%M:%S")`, `None` when
   * parsing raises. The closing `strptime` check never changes the result:
   * when it raises, the handler returns the string built so far.
   */
  function NormalizeTime(s: string, reparse: string -> Option<string>): string {
    var t := Untee(s);
    if |t| == 10 then t + " 00:00:00"
    else if |t| == 16 then t + ":00"
    else if |t| == 19 then t
    else
      match reparse(t)
      case Some(u) => u
      case None => t
  }

  /** What the reparse step produces for every input it accepts: a 19-character timestamp with a space separator. */
  ghost predicate StrftimeShaped(reparse: string -> Option<string>) {
    forall x :: reparse(x).Some? ==> |reparse(x).value| == 19 && NoT(reparse(x).value)
  }

  /**
   * After the 'T' is gone, a date gets midnight, a minute-precision time gets
   * zero seconds and a full timestamp is kept; every other length goes to the
   * reparse step or comes back as it is.
   */
  lemma NormalizeTimeShape(s: string, reparse: string -> Option<string>)
    ensures var t, r := Untee(s), NormalizeTime(s, reparse);
      && NoT(t)
      && (|t| == 10 ==> r == t + " 00:00:00")
      && (|t| == 16 ==> r == t + ":00")
      && (|t| == 19 ==> r == t)
      && (|t| == 10 || |t| == 16 || |t| == 19 ==> |r| == 19 && NoT(r) && r[..|t|] == t)
      && (|t| != 10 && |t| != 16 && |t| != 19 ==> r == t || reparse(t) == Some(r))
  {
    var t, r := Untee(s), NormalizeTime(s, reparse);
    if |t| == 10 || |t| == 16 || |t| == 19 {
      assert r[..|t|] == t;
    }
  }

  /** Normalising a normalised bound changes nothing. */
  lemma NormalizeTimeIdempotent(s: string, reparse: string -> Option<string>)
    requires StrftimeShaped(reparse)
    ensures NormalizeTime(NormalizeTime(s, reparse), reparse) == NormalizeTime(s, reparse)
  {
    var t, r := Untee(s), NormalizeTime(s, reparse);
    NormalizeTimeShape(s, reparse);
    if |t| != 10 && |t| != 16 && |t| != 19 && r != t {
      assert reparse(t) == Some(r);
    }
    assert NoT(r) && (|r| == 19 || r == t);
    assert Untee(r) == r;
  }

  /**
   * `_normalize_time_format` on any filter bound. Non-string bounds make the
   * first `in` test or the later string methods raise, and the handler hands
   * back the bound itself, except that a list of 10 or 16 elements has already
   * been extended in place by `+=` with the characters of the suffix.
   */
  function NormalizeValue(v: Value, reparse: string -> Option<string>): (r: Value)
    ensures v.Str? ==> r == Str(NormalizeTime(v.s, reparse))
    ensures !v.Str? && !v.List? ==> r == v
    ensures v.List? ==> r.List? && v.items <= r.items
  {
    match v
    case Str(s) => Str(NormalizeTime(s, reparse))
    case List(items) =>
      if Str("T") in items then v
      else if |items| == 10 then List(items + Chars(" 00:00:00"))
      else if |items| == 16 then List(items + Chars(":00"))
      else v
    case _ => v
  }

  /** The one-character strings of `s`, as `list += str` appends them. */
  function Chars(s: string): (r: seq<Value>)
    ensures |r| == |s|
    ensures forall k :: 0 <= k < |s| ==> r[k] == Str([s[k]])
  {
    seq(|s|, k requires 0 <= k < |s| => Str([s[k]]))
  }

  // ---------------------------------------------------------------------------
  // Filters and search as a WHERE clause
  // ---------------------------------------------------------------------------

  /** One element of `where_conditions`, carrying the values it adds to `params`. */
  datatype Condition =
    | Between(field: string, lo: Value, hi: Value)
    | InList(field: string, items: seq<Value>)
    | Equals(field: string, value: Value)
    | SearchAny(pattern: string)

  const SearchFields: seq<string> := ["title", "content", "company_name", "industry"]

  /** A dict with both `start` and `end` is a time range, a list an IN, anything else an equality. */
  function ConditionFor(field: string, v: Value, reparse: string -> Option<string>): Condition {
    match v
    case Dict(m) =>
      if "start" in m && "end" in m then Between(field, NormalizeValue(m["start"], reparse), NormalizeValue(m["end"], reparse))
      else Equals(field, v)
    case List(items) => InList(field, items)
    case _ => Equals(field, v)
  }

  /** `if search:` */
  predicate Searching(search: Option<string>) {
    search.Some? && search.value != ""
  }

  /** The values a condition appends to `params`, in order. */
  function ParamsOf(c: Condition): (r: seq<Value>) {
    match c
    case Between(_, lo, hi) => [lo, hi]
    case InList(_, items) => items
    case Equals(_, value) => [value]
    case SearchAny(p) => Repeat(Str(p), |SearchFields|)
  }

  function AllParams(conds: seq<Condition>): seq<Value> {
    if conds == [] then [] else ParamsOf(conds[0]) + AllParams(conds[1..])
  }

  /** A piece of SQL text: literal text, or one `?` placeholder. */
  datatype Piece = Text(text: string) | Mark

  /** The SQL string the pieces spell. */
  function Render(pieces: seq<Piece>): string {
    if pieces == [] then ""
    else (match pieces[0] case Text(t) => t case Mark => "?") + Render(pieces[1..])
  }

  /** The number of placeholders. */
  function Marks(pieces: seq<Piece>): nat {
    if pieces == [] then 0
    else (if pieces[0].Mark? then 1 else 0) + Marks(pieces[1..])
  }

  /** `sep.join(parts)` on pieces. */
  function JoinPieces(sep: seq<Piece>, parts: seq<seq<Piece>>): seq<Piece> {
    if |parts| == 0 then []
    else if |parts| == 1 then parts[0]
    else parts[0] + sep + JoinPieces(sep, parts[1..])
  }

  function SumMarks(parts: seq<seq<Piece>>): nat {
    if parts == [] then 0 else Marks(parts[0]) + SumMarks(parts[1..])
  }

  /** Counting placeholders distributes over concatenation. */
  lemma {:induction false} MarksConcat(a: seq<Piece>, b: seq<Piece>)
    ensures Marks(a + b) == Marks(a) + Marks(b)
    decreases |a|
  {
    if a == [] {
      assert a + b == b;
    } else {
      assert (a + b)[1..] == a[1..] + b;
      MarksConcat(a[1..], b);
    }
  }

  /** A separator without placeholders adds none to a join. */
  lemma {:induction false} JoinMarks(sep: seq<Piece>, parts: seq<seq<Piece>>)
    requires Marks(sep) == 0
    ensures Marks(JoinPieces(sep, parts)) == SumMarks(parts)
    decreases |parts|
  {
    if |parts| == 1 {
      assert SumMarks(parts[1..]) == 0;
    } else if |parts| > 1 {
      JoinMarks(sep, parts[1..]);
      MarksConcat(parts[0], sep);
      MarksConcat(parts[0] + sep, JoinPieces(sep, parts[1..]));
    }
  }

  /** The SQL text of one condition. */
  function Fragment(c: Condition): seq<Piece> {
    match c
    case Between(f, _, _) => [Text(f + " BETWEEN "), Mark, Text(" AND "), Mark]
    case InList(f, items) => [Text(f + " IN (")] + JoinPieces([Text(",")], Repeat([Mark], |items|)) + [Text(")")]
    case Equals(f, _) => [Text(f + " = "), Mark]
    case SearchAny(_) => [Text("(")] + JoinPieces([Text(" OR ")], LikeTerms()) + [Text(")")]
  }

  function LikeTerms(): seq<seq<Piece>> {
    seq(|SearchFields|, i requires 0 <= i < |SearchFields| => [Text(SearchFields[i] + " LIKE "), Mark])
  }

  function Fragments(conds: seq<Condition>): (r: seq<seq<Piece>>)
    ensures |r| == |conds|
    ensures forall i :: 0 <= i < |conds| ==> r[i] == Fragment(conds[i])
  {
    seq(|conds|, i requires 0 <= i < |conds| => Fragment(conds[i]))
  }

  /** `"WHERE " + " AND ".join(where_conditions)`, or nothing. */
  function WhereClause(conds: seq<Condition>): seq<Piece> {
    if conds == [] then [] else [Text("WHERE ")] + JoinPieces([Text(" AND ")], Fragments(conds))
  }

  lemma {:induction false} RepeatMarks(n: nat)
    ensures SumMarks(Repeat([Mark], n)) == n
    decreases n
  {
    if n > 0 {
      assert Repeat([Mark], n)[1..] == Repeat([Mark], n - 1);
      RepeatMarks(n - 1);
    }
  }

  lemma LikeMarks()
    ensures SumMarks(LikeTerms()) == |SearchFields|
  {
    var terms := LikeTerms();
    forall i | 0 <= i < |terms|
      ensures Marks(terms[i]) == 1
    {
      assert terms[i] == [Text(SearchFields[i] + " LIKE "), Mark];
      assert terms[i][1..][1..] == [];
      assert Marks(terms[i][1..]) == 1;
    }
    assert SumMarks(terms[3..]) == 1 by {
      assert terms[3..][1..] == [];
    }
    assert terms[2..][1..] == terms[3..];
    assert terms[1..][1..] == terms[2..];
  }

  /** Each condition's SQL text holds exactly one placeholder per value it adds to `params`. */
  lemma FragmentMarks(c: Condition)
    ensures Marks(Fragment(c)) == |ParamsOf(c)|
  {
    match c
    case Between(f, _, _) =>
      var p := Fragment(c);
      assert p[1..][1..][1..][1..] == [];
      assert Marks(p[1..][1..]) == 1;
    case InList(f, items) =>
      var inner := JoinPieces([Text(",")], Repeat([Mark], |items|));
      JoinMarks([Text(",")], Repeat([Mark], |items|));
      RepeatMarks(|items|);
      MarksConcat([Text(f + " IN (")], inner);
      MarksConcat([Text(f + " IN (")] + inner, [Text(")")]);
    case Equals(f, _) =>
    case SearchAny(_) =>
      var inner := JoinPieces([Text(" OR ")], LikeTerms());
      JoinMarks([Text(" OR ")], LikeTerms());
      LikeMarks();
      MarksConcat([Text("(")], inner);
      MarksConcat([Text("(")] + inner, [Text(")")]);
  }

  lemma {:induction false} FragmentsMarks(conds: seq<Condition>)
    ensures SumMarks(Fragments(conds)) == |AllParams(conds)|
    decreases |conds|
  {
    if conds != [] {
      assert Fragments(conds)[1..] == Fragments(conds[1..]);
      FragmentMarks(conds[0]);
      FragmentsMarks(conds[1..]);
    }
  }

  /**
   * The WHERE clause holds exactly as many `?` placeholders as there are
   * query parameters, so the statement and its parameter list always agree.
   */
  lemma WherePlaceholders(conds: seq<Condition>)
    ensures Marks(WhereClause(conds)) == |AllParams(conds)|
  {
    if conds != [] {
      FragmentsMarks(conds);
      JoinMarks([Text(" AND ")], Fragments(conds));
      MarksConcat([Text("WHERE ")], JoinPieces([Text(" AND ")], Fragments(conds)));
    }
  }

  lemma {:induction false} AllParamsSnoc(conds: seq<Condition>, c: Condition)
    ensures AllParams(conds + [c]) == AllParams(conds) + ParamsOf(c)
    decreases |conds|
  {
    if conds == [] {
      assert [c][1..] == [];
    } else {
      assert (conds + [c])[1..] == conds[1..] + [c];
      AllParamsSnoc(conds[1..], c);
    }
  }

  /**
   * The WHERE-building loop of `get_data` (and `get_data_count`): one
   * condition per filter in the dict's order, then the four-way LIKE search
   * when a non-empty search text is given, with `params` the values of the
   * conditions in the same order.
   */
  method BuildWhere(filters: seq<(string, Value)>, search: Option<string>, reparse: string -> Option<string>)
      returns (conds: seq<Condition>, params: seq<Value>)
    ensures |conds| == |filters| + (if Searching(search) then 1 else 0)
    ensures forall i :: 0 <= i < |filters| ==> conds[i] == ConditionFor(filters[i].0, filters[i].1, reparse)
    ensures Searching(search) ==> conds[|filters|] == SearchAny("%" + search.value + "%")
    ensures params == AllParams(conds)
  {
    conds, params := [], [];
    var i := 0;
    while i < |filters|
      invariant 0 <= i <= |filters|
      invariant |conds| == i
      invariant forall j :: 0 <= j < i ==> conds[j] == ConditionFor(filters[j].0, filters[j].1, reparse)
      invariant params == AllParams(conds)
    {
      var (field, value) := filters[i];
      var c := ConditionFor(field, value, reparse);
      AllParamsSnoc(conds, c);
      conds, params := conds + [c], params + ParamsOf(c);
      i := i + 1;
    }
    if Searching(search) {
      var c := SearchAny("%" + search.value + "%");
      AllParamsSnoc(conds, c);
      conds, params := conds + [c], params + ParamsOf(c);
    }
  }

  /**
   * The bounds of a time-range filter are normalised strings: normalising
   * them again changes nothing, and the range is kept inclusive as BETWEEN.
   */
  lemma TimeRangeBounds(field: string, m: map<string, Value>, reparse: string -> Option<string>)
    requires StrftimeShaped(reparse)
    requires "start" in m && "end" in m && m["start"].Str? && m["end"].Str?
    ensures var c := ConditionFor(field, Dict(m), reparse);
      && c.Between? && c.lo.Str? && c.hi.Str?
      && NormalizeTime(c.lo.s, reparse) == c.lo.s
      && NormalizeTime(c.hi.s, reparse) == c.hi.s
  {
    NormalizeTimeIdempotent(m["start"].s, reparse);
    NormalizeTimeIdempotent(m["end"].s, reparse);
  }

  // ---------------------------------------------------------------------------
  // Paging
  // ---------------------------------------------------------------------------

  /**
   * SQLite's `LIMIT limit OFFSET offset`: a negative offset counts as zero
   * and a negative limit means no limit.
   */
  function SqlWindow<T>(rows: seq<T>, limit: int, offset: int): (r: seq<T>)
    ensures limit >= 0 ==> |r| <= limit
    ensures forall x :: x in r ==> x in rows
  {
    var lo := if offset < 0 then 0 else if offset > |rows| then |rows| else offset;
    var hi := if limit < 0 || lo + limit > |rows| then |rows| else lo + limit;
    rows[lo..hi]
  }

  /** The shape of a successful `get_data` reply. */
  datatype DataPage<T> = DataPage(data: seq<T>, total: nat, page: int, pageSize: int, totalPages: int)

  /**
   * `get_data` over the rows the WHERE clause matches, in ORDER BY order. A
   * zero page size makes `total_pages` divide by zero and the reply fail.
   */
  function GetData<T>(rows: seq<T>, page: int, size: int): (r: Option<DataPage<T>>)
    ensures r.None? <==> size == 0
    ensures r.Some? ==> r.value.total == |rows| && r.value.page == page && r.value.pageSize == size
  {
    if size == 0 then None
    else Some(DataPage(SqlWindow(rows, size, Offset(page, size)), |rows|, page, size, TotalPages(|rows|, size)))
  }

  /**
   * For a page number from 1 and a positive size the database page is the
   * Python slice `rows[(page - 1) * size : page * size]`, the same window the
   * file source computes, and `total_pages` is the ceiling of total / size.
   */
  lemma GetDataIsSlice<T>(rows: seq<T>, page: int, size: int)
    requires page >= 1 && size > 0
    ensures var r := GetData(rows, page, size);
      && r.Some?
      && r.value.data == PageOf(rows, page, size)
      && r.value.totalPages * size >= |rows|
      && (r.value.totalPages == 0 || (r.value.totalPages - 1) * size < |rows|)
  {
    var start := Offset(page, size);
    MulMonotone(0, page - 1, size);
    assert start >= 0;
    TotalPagesCeil(|rows|, size);
  }
}
