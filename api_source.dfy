/**
 * The API data source: dotted-path field lookup, field mapping, the query
 * parameters of a request, the shape of a reply page and the masked view of
 * the configuration. The HTTP request itself is not modelled: the decoded
 * JSON body is a parameter.
 */
module ApiSource {
  import opened Wrappers
  import opened Values
  import opened PyText
  import Paging

  /** `QueryParams`: the time window, the page and extra request parameters. */
  datatype QueryParams = QueryParams(
    timeField: string,
    startTime: Option<string>,
    endTime: Option<string>,
    page: int,
    pageSize: int,
    customParams: Option<map<string, Value>>)

  /** `QueryParams()` with its field defaults. */
  const DefaultQuery := QueryParams("publish_time", None, None, 1, 100, None)

  /** `APIConfig`. */
  datatype ApiConfig = ApiConfig(
    url: string,
    headers: Option<map<string, string>>,
    authType: string,
    authConfig: Option<map<string, Value>>,
    queryParams: Option<map<string, Value>>,
    fieldMapping: Option<map<string, string>>,
    paginationConfig: Option<map<string, string>>,
    timeout: int)

  /** A truthy optional string: present and not empty. */
  predicate Given(s: Option<string>) {
    s.Some? && s.value != ""
  }

  /** A truthy optional dict: present and not empty. */
  function Nonempty<K, V>(m: Option<map<K, V>>): map<K, V> {
    if m.Some? then m.value else map[]
  }

  // ---------------------------------------------------------------------------
  // get_nested_value
  // ---------------------------------------------------------------------------

  /** Walks `keys` through nested dicts; a missing key or a non-dict gives `None`. */
  function Walk(v: Value, keys: seq<string>): Value
    decreases |keys|
  {
    if keys == [] then v
    else
      match v
      case Dict(m) => if keys[0] in m then Walk(m[keys[0]], keys[1..]) else Null
      case _ => Null
  }

  /** A walk along a path split in two is a walk along each part in turn: `None` propagates. */
  lemma {:induction false} WalkAppend(v: Value, k1: seq<string>, k2: seq<string>)
    ensures Walk(v, k1 + k2) == Walk(Walk(v, k1), k2)
    decreases |k1|
  {
    if k1 == [] {
      assert k1 + k2 == k2;
    } else {
      assert (k1 + k2)[0] == k1[0] && (k1 + k2)[1..] == k1[1..] + k2;
      if v.Dict? && k1[0] in v.fields {
        WalkAppend(v.fields[k1[0]], k1[1..], k2);
      } else {
        WalkNull(k2);
      }
    }
  }

  lemma {:induction false} WalkNull(keys: seq<string>)
    ensures Walk(Null, keys) == Null
  {
  }

  /**
   * `get_nested_value`: splits the path at every '.', then steps into the
   * dict at each key, giving `None` as soon as a key is missing or the
   * value reached is not a dict.
   */
  method GetNestedValue(data: Value, path: string) returns (value: Value)
    ensures value == Walk(data, SplitChar(path, '.'))
  {
    var keys := SplitChar(path, '.');
    value := data;
    var i := 0;
    while i < |keys|
      invariant 0 <= i <= |keys|
      invariant Walk(data, keys) == Walk(value, keys[i..])
    {
      assert keys[i..][1..] == keys[i + 1..];
      if value.Dict? && keys[i] in value.fields {
        value := value.fields[keys[i]];
      } else {
        return Null;
      }
      i := i + 1;
    }
  }

  /** A dotted path `a.b` reads `b` inside what `a` reads. */
  lemma NestedDotted(data: Value, a: string, b: string)
    ensures Walk(data, SplitChar(a + "." + b, '.')) == Walk(Walk(data, SplitChar(a, '.')), SplitChar(b, '.'))
  {
    var pa, pb := SplitChar(a, '.'), SplitChar(b, '.');
    SplitJoin(a, '.');
    SplitJoin(b, '.');
    JoinAppend(pa, pb, '.');
    JoinSplit(pa + pb, '.');
    WalkAppend(data, pa, pb);
  }

  /** Joining two non-empty lists of pieces puts the separator between their joins. */
  lemma {:induction false} JoinAppend(p: seq<string>, q: seq<string>, c: char)
    requires |p| >= 1 && |q| >= 1
    ensures Join([c], p + q) == Join([c], p) + [c] + Join([c], q)
    decreases |p|
  {
    if |p| == 1 {
      assert (p + q)[1..] == q;
    } else {
      assert (p + q)[1..] == p[1..] + q;
      JoinAppend(p[1..], q, c);
    }
  }

  // ---------------------------------------------------------------------------
  // apply_field_mapping
  // ---------------------------------------------------------------------------

  /**
   * One item through the mapping: every system field whose dotted source
   * path reads a value other than `None`, and no other field.
   */
  function MapItem(item: Value, mapping: map<string, string>): (r: map<string, Value>)
    ensures forall f :: f in r <==> f in mapping && Walk(item, SplitChar(mapping[f], '.')) != Null
    ensures forall f :: f in r ==> r[f] == Walk(item, SplitChar(mapping[f], '.'))
  {
    map f | f in mapping && Walk(item, SplitChar(mapping[f], '.')) != Null :: Walk(item, SplitChar(mapping[f], '.'))
  }

  // ---------------------------------------------------------------------------
  // The manager
  // ---------------------------------------------------------------------------

  class ApiSourceManager {
    var apiConfig: Option<ApiConfig>

    constructor()
      ensures apiConfig.None?
    {
      apiConfig := None;
    }

    /** `configure_api`. */
    method ConfigureApi(config: ApiConfig)
      modifies this
      ensures apiConfig == Some(config)
    {
      apiConfig := Some(config);
    }

    /** The field mapping when there is a configuration with a non-empty one. */
    function ActiveMapping(): Option<map<string, string>>
      reads this
    {
      if apiConfig.Some? && Nonempty(apiConfig.value.fieldMapping) != map[] then apiConfig.value.fieldMapping else None
    }

    /**
     * `apply_field_mapping`: the items unchanged without a mapping, else one
     * mapped dict per item, in order.
     */
    method ApplyFieldMapping(data: seq<Value>) returns (r: seq<Value>)
      ensures ActiveMapping().None? ==> r == data
      ensures ActiveMapping().Some? ==> r == MapEach(data, ActiveMapping().value)
    {
      var mapping := ActiveMapping();
      if mapping.None? {
        return data;
      }
      r := [];
      var i := 0;
      while i < |data|
        invariant 0 <= i <= |data|
        invariant |r| == i
        invariant forall j :: 0 <= j < i ==> r[j] == Dict(MapItem(data[j], mapping.value))
      {
        r := r + [Dict(MapItem(data[i], mapping.value))];
        i := i + 1;
      }
    }

    /**
     * `build_query_params`: the configured base parameters, then the time
     * window under the time field when both ends are given, then the page
     * and size under their configured names, then the custom parameters,
     * each layer overriding the ones before.
     */
    method BuildQueryParams(q: QueryParams) returns (params: map<string, Value>)
      ensures var base := BaseLayer(apiConfig);
        var paging := PageNames(apiConfig);
        var custom := Nonempty(q.customParams);
        && (forall k :: k in params <==>
              k in custom || (paging.Some? && (k == paging.value.0 || k == paging.value.1))
              || (Given(q.startTime) && Given(q.endTime) && k == q.timeField) || k in base)
        && (forall k :: k in custom ==> params[k] == custom[k])
        && (forall k :: k !in custom && paging.Some? && k == paging.value.1 ==> params[k] == Int(q.pageSize))
        && (forall k :: k !in custom && paging.Some? && k == paging.value.0 && k != paging.value.1 ==> params[k] == Int(q.page))
        && (forall k ::
              (k !in custom && (paging.None? || (k != paging.value.0 && k != paging.value.1))
               && Given(q.startTime) && Given(q.endTime) && k == q.timeField)
              ==> params[k] == TimeWindow(q))
        && (forall k ::
              (k !in custom && (paging.None? || (k != paging.value.0 && k != paging.value.1))
               && !(Given(q.startTime) && Given(q.endTime) && k == q.timeField) && k in base)
              ==> params[k] == base[k])
    {
      params := map[];
      params := params + BaseLayer(apiConfig);
      if Given(q.startTime) && Given(q.endTime) {
        params := params[q.timeField := TimeWindow(q)];
      }
      var paging := PageNames(apiConfig);
      if paging.Some? {
        params := params[paging.value.0 := Int(q.page)];
        params := params[paging.value.1 := Int(q.pageSize)];
      }
      params := params + Nonempty(q.customParams);
    }

    /**
     * `get_config`: `None` without a configuration; otherwise the settings
     * with every auth value whose key mentions "key" or "token" replaced by
     * "***".
     */
    function GetConfig(): (r: Option<ConfigView>)
      reads this
      ensures r.None? <==> apiConfig.None?
      ensures r.Some? ==> r.value.url == apiConfig.value.url && r.value.timeout == apiConfig.value.timeout
      ensures r.Some? ==> (r.value.authConfig.Some? <==> Nonempty(apiConfig.value.authConfig) != map[])
      ensures r.Some? ==> r.value.authType == apiConfig.value.authType
      ensures r.Some? ==> r.value.headers == Nonempty(apiConfig.value.headers) && r.value.queryParams == Nonempty(apiConfig.value.queryParams)
      ensures r.Some? ==> r.value.fieldMapping == Nonempty(apiConfig.value.fieldMapping) && r.value.paginationConfig == Nonempty(apiConfig.value.paginationConfig)
      ensures r.Some? && r.value.authConfig.Some? ==> r.value.authConfig.value == MaskAuth(apiConfig.value.authConfig.value)
      ensures r.Some? && r.value.authConfig.Some? ==>
        r.value.authConfig.value.Keys == apiConfig.value.authConfig.value.Keys &&
        forall k :: k in r.value.authConfig.value && Secret(k) ==> r.value.authConfig.value[k] == Str("***")
    {
      if apiConfig.None? then None
      else
        var c := apiConfig.value;
        Some(ConfigView(
          c.url, Nonempty(c.headers), c.authType, Nonempty(c.queryParams), Nonempty(c.fieldMapping),
          Nonempty(c.paginationConfig), c.timeout,
          if Nonempty(c.authConfig) != map[] then Some(MaskAuth(c.authConfig.value)) else None))
    }
  }

  /** The base layer: the configured query parameters. */
  function BaseLayer(config: Option<ApiConfig>): map<string, Value> {
    if config.Some? then Nonempty(config.value.queryParams) else map[]
  }

  /** The page and size parameter names when a non-empty pagination config is set. */
  function PageNames(config: Option<ApiConfig>): Option<(string, string)> {
    if config.Some? && Nonempty(config.value.paginationConfig) != map[] then
      var pc := config.value.paginationConfig.value;
      Some((if "page_param" in pc then pc["page_param"] else "page", if "size_param" in pc then pc["size_param"] else "page_size"))
    else None
  }

  function TimeWindow(q: QueryParams): Value
    requires Given(q.startTime) && Given(q.endTime)
  {
    Dict(map["start" := Str(q.startTime.value), "end" := Str(q.endTime.value)])
  }

  /** The configuration as `get_config` shows it. */
  datatype ConfigView = ConfigView(
    url: string,
    headers: map<string, string>,
    authType: string,
    queryParams: map<string, Value>,
    fieldMapping: map<string, string>,
    paginationConfig: map<string, string>,
    timeout: int,
    authConfig: Option<map<string, Value>>)

  /** The key names an auth value is hidden under, compared in lower case. */
  predicate Secret(k: string) {
    Contains(LowerAscii(k), "key") || Contains(LowerAscii(k), "token")
  }

  /** The masked auth settings: same keys, secrets replaced by "***", the rest kept. */
  function MaskAuth(auth: map<string, Value>): (r: map<string, Value>)
    ensures r.Keys == auth.Keys
    ensures forall k :: k in r && Secret(k) ==> r[k] == Str("***")
    ensures forall k :: k in r && !Secret(k) ==> r[k] == auth[k]
  {
    map k | k in auth :: if Secret(k) then Str("***") else auth[k]
  }

  /** No value under a secret key survives masking, whatever it was. */
  lemma MaskHidesSecrets(auth: map<string, Value>, k: string)
    requires k in auth && Secret(k)
    ensures var masked := MaskAuth(auth)[k]; masked == Str("***") && (auth[k] != Str("***") ==> masked != auth[k])
  {
  }

  // ---------------------------------------------------------------------------
  // The shape of a reply page
  // ---------------------------------------------------------------------------

  /** `len(x)` where Python defines it for the values of a JSON body. */
  function PyLen(v: Value): Option<nat> {
    match v
    case List(xs) => Some(|xs|)
    case Str(s) => Some(|s|)
    case Dict(m) => Some(|m.Keys|)
    case _ => None
  }

  /** `d.get(a, d.get(b, ...))`: the first of the keys present, else the fallback. */
  function FirstOf(m: map<string, Value>, keys: seq<string>, fallback: Value): Value
    decreases |keys|
  {
    if keys == [] then fallback
    else if keys[0] in m then m[keys[0]]
    else FirstOf(m, keys[1..], fallback)
  }

  /** A reply page: the (mapped) items and the counts. */
  datatype ApiPage = ApiPage(data: Value, total: int, page: int, pageSize: int, totalPages: int)

  /** The items and the total the reply body gives, or `None` when `len(items)` raises. */
  function ItemsAndTotal(body: Value): Option<(Value, Value)> {
    match body
    case Dict(m) =>
      var items := FirstOf(m, ["data", "items", "results"], List([]));
      var n := PyLen(items);
      if n.None? then None
      else Some((items, FirstOf(m, ["total", "count"], Int(n.value))))
    case List(xs) => Some((body, Int(|xs|)))
    case _ => Some((List([]), Int(0)))
  }

  /** `[mapped(item) for item in data]`: one mapped dict per item, in order. */
  function MapEach(data: seq<Value>, mapping: map<string, string>): (r: seq<Value>)
    ensures |r| == |data|
  {
    seq(|data|, i requires 0 <= i < |data| => Dict(MapItem(data[i], mapping)))
  }

  /**
   * The mapped items: the items themselves without a mapping; with one, a
   * list gets each element mapped, and a string or dict, iterated character
   * by character or key by key, gives one empty dict per element.
   */
  function MappedItems(items: Value, mapping: Option<map<string, string>>): Option<Value> {
    if mapping.None? then Some(items)
    else
      match items
      case List(xs) => Some(List(MapEach(xs, mapping.value)))
      case Str(s) => Some(List(Repeat(Dict(map[]), |s|)))
      case Dict(m) => Some(List(Repeat(Dict(map[]), |m.Keys|)))
      case _ => None
  }

  /**
   * The success branch of `get_data` after a decoded body: items from
   * `data`, `items` or `results`, the total from `total` or `count` or the
   * number of items, and `total_pages` from the page size. `None` stands for
   * the exceptions the handler turns into a failure reply: `len` of a
   * value without one, a non-integer total, a zero page size.
   */
  function PageFromBody(body: Value, mapping: Option<map<string, string>>, page: int, size: int): (r: Option<ApiPage>)
    ensures size == 0 ==> r.None?
  {
    var it := ItemsAndTotal(body);
    if it.None? then None
    else
      var (items, totalValue) := it.value;
      var mapped := MappedItems(items, mapping);
      if mapped.None? then None
      else
        match totalValue
        case Int(t) => if size == 0 then None else Some(ApiPage(mapped.value, t, page, size, Paging.TotalPages(t, size)))
        case Bool(b) =>
          var t := if b then 1 else 0;
          if size == 0 then None else Some(ApiPage(mapped.value, t, page, size, Paging.TotalPages(t, size)))
        case _ => None
  }

  /**
   * A bare list body counts its own items, and a dict body without `total`
   * or `count` counts the items it carries; either way, with a positive page
   * size, `total_pages` is the ceiling of total / page size.
   */
  lemma PageTotalsFallBack(body: Value, mapping: Option<map<string, string>>, page: int, size: int)
    requires size > 0
    requires body.List? || (body.Dict? && "total" !in body.fields && "count" !in body.fields)
    requires body.Dict? ==> FirstOf(body.fields, ["data", "items", "results"], List([])).List?
    ensures var r := PageFromBody(body, mapping, page, size);
      && r.Some?
      && (body.List? ==> r.value.total == |body.items|)
      && (body.Dict? ==> r.value.total == |FirstOf(body.fields, ["data", "items", "results"], List([])).items|)
      && r.value.totalPages * size >= r.value.total
      && (r.value.totalPages == 0 || (r.value.totalPages - 1) * size < r.value.total)
  {
    var it := ItemsAndTotal(body);
    var t := it.value.1.i;
    Paging.TotalPagesCeil(t, size);
  }

  /** Without a mapping the page carries the body's items untouched; with one, a list keeps its length. */
  lemma PageItems(body: Value, mapping: Option<map<string, string>>, page: int, size: int)
    requires body.List? && size != 0
    ensures var r := PageFromBody(body, mapping, page, size);
      && r.Some?
      && (mapping.None? ==> r.value.data == body)
      && (mapping.Some? ==> r.value.data.List? && |r.value.data.items| == |body.items|)
  {
  }
}
