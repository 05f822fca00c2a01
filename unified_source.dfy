/**
 * The unified data source: it switches between the API source and an
 * uploaded file, keeps what the file yielded, and serves it filtered by a
 * time window and paged. Reading the file is not modelled: its size and
 * its parsed content, as a JSON-like value, are parameters.
 */
module UnifiedSource {
  import opened Wrappers
  import opened Values
  import opened PyText
  import opened Paging
  import opened Grouping
  import Database
  import ApiSource

  /** `FileUploadConfig`. */
  datatype FileConfig = FileConfig(path: string, fileType: string, fieldMapping: Option<map<string, string>>, encoding: string)

  /** The upload limit, 10 MB. */
  const MaxFileSize: int := 10 * 1024 * 1024

  /** Python's `a <= b` on strings. */
  predicate StrLe(a: string, b: string) {
    a == b || StrLess(a, b)
  }

  /** `len(v)`: defined on lists, dicts and strings; `None` for the `TypeError` on anything else. */
  function Len(v: Value): (r: Option<nat>)
    ensures r.Some? <==> v.List? || v.Dict? || v.Str?
  {
    match v
    case List(items) => Some(|items|)
    case Dict(fields) => Some(|fields.Keys|)
    case Str(s) => Some(|s|)
    case _ => None
  }

  /**
   * Whether the item is kept by the time window: it must be a dict (`.get`
   * raises on anything else), `item.get(time_field)` must be truthy and lie
   * between the bounds by string order. `None` stands for the exception:
   * the `AttributeError` of a non-dict item, or the `TypeError` of comparing
   * a string with a truthy non-string.
   */
  function InWindow(item: Value, field: string, start: string, end: string): (r: Option<bool>)
    ensures r == Some(true) ==>
      item.Dict? && GetOrNull(item.fields, field).Str?
      && StrLe(start, GetOrNull(item.fields, field).s) && StrLe(GetOrNull(item.fields, field).s, end)
  {
    if !item.Dict? then None
    else
      var v := GetOrNull(item.fields, field);
      if !Truthy(v) then Some(false)
      else
        match v
        case Str(s) => Some(StrLe(start, s) && StrLe(s, end))
        case _ => None
  }

  /** The item raises inside the filter comprehension. */
  predicate Raises(item: Value, field: string, start: string, end: string) {
    InWindow(item, field, start, end).None?
  }

  /** The keep-bit of every item, reading a raising item as dropped. */
  function WindowMask(items: seq<Value>, field: string, start: string, end: string): (m: seq<bool>)
    ensures |m| == |items|
    ensures forall i :: 0 <= i < |items| ==> (m[i] <==> InWindow(items[i], field, start, end) == Some(true))
  {
    seq(|items|, i requires 0 <= i < |items| => InWindow(items[i], field, start, end) == Some(true))
  }

  /**
   * The filter comprehension of `get_file_data`: the items in the window, in
   * their order, or `None` when some item raises.
   */
  function FilterWindow(items: seq<Value>, field: string, start: string, end: string): (r: Option<seq<Value>>)
    ensures r.None? <==> exists i :: 0 <= i < |items| && Raises(items[i], field, start, end)
    ensures r.Some? ==> r.value == Kept(items, WindowMask(items, field, start, end), |items|)
  {
    if exists i :: 0 <= i < |items| && Raises(items[i], field, start, end) then None
    else Some(Kept(items, WindowMask(items, field, start, end), |items|))
  }

  /** A window filter keeps exactly the dict items whose time value is a string between the bounds. */
  lemma FilterWindowMembers(items: seq<Value>, field: string, start: string, end: string)
    requires FilterWindow(items, field, start, end).Some?
    ensures var kept := FilterWindow(items, field, start, end).value;
      && (forall x :: x in kept ==>
            && x in items && x.Dict? && GetOrNull(x.fields, field).Str?
            && StrLe(start, GetOrNull(x.fields, field).s) && StrLe(GetOrNull(x.fields, field).s, end))
      && (forall i :: (0 <= i < |items| && items[i].Dict? && GetOrNull(items[i].fields, field).Str?
                        && GetOrNull(items[i].fields, field).s != ""
                        && StrLe(start, GetOrNull(items[i].fields, field).s) && StrLe(GetOrNull(items[i].fields, field).s, end))
                       ==> items[i] in kept)
  {
    var mask := WindowMask(items, field, start, end);
    KeptMembers(items, mask, |items|);
  }

  /**
   * A parsed JSON file that is an object stands for its `data` array, else
   * its `items`, else its `results`, else a one-element list of itself.
   */
  function JsonPayload(v: Value): (r: Value)
    ensures !v.Dict? ==> r == v
    ensures v.Dict? && "data" in v.fields ==> r == v.fields["data"]
    ensures v.Dict? && "data" !in v.fields && "items" in v.fields ==> r == v.fields["items"]
    ensures v.Dict? && "data" !in v.fields && "items" !in v.fields && "results" in v.fields ==> r == v.fields["results"]
    ensures v.Dict? && "data" !in v.fields && "items" !in v.fields && "results" !in v.fields ==> r == List([v])
  {
    if !v.Dict? then v
    else if "data" in v.fields then v.fields["data"]
    else if "items" in v.fields then v.fields["items"]
    else if "results" in v.fields then v.fields["results"]
    else List([v])
  }

  /** What the reader yields: CSV rows as they are, a JSON document unwrapped first. */
  function Payload(kind: string, content: Value): (r: Value)
    ensures kind != "json" ==> r == content
  {
    if kind == "json" then JsonPayload(content) else content
  }

  /** `if field_mapping:` — a mapping is applied only when given and non-empty. */
  predicate Maps(mapping: Option<map<string, string>>) {
    mapping.Some? && mapping.value != map[]
  }

  /** `if file_field in item` over the whole mapping: the system fields whose file field the item has. */
  function MapRecord(item: Record, mapping: map<string, string>): (r: Record)
    ensures forall f :: f in r <==> f in mapping && mapping[f] in item
    ensures forall f :: f in r ==> r[f] == item[mapping[f]]
  {
    map f | f in mapping && mapping[f] in item :: item[mapping[f]]
  }

  /**
   * The mapping loop on one element `item` of the payload. A dict gets its
   * mapped record. A string or a list answers `file_field in item` as a
   * substring or membership test, and `item[file_field]` then raises, so it
   * maps to `{}` only when no file field occurs in it. Any other element
   * makes `in` raise.
   */
  function MapItem(item: Value, mapping: map<string, string>): (r: Option<Record>)
    ensures item.Dict? ==> r == Some(MapRecord(item.fields, mapping))
    ensures item.Str? ==> (r.None? <==> exists f :: f in mapping && Contains(item.s, mapping[f]))
    ensures item.List? ==> (r.None? <==> exists f :: f in mapping && Str(mapping[f]) in item.items)
    ensures (item.Null? || item.Bool? || item.Int? || item.Real?) ==> r.None?
    ensures !item.Dict? && r.Some? ==> r.value == map[]
  {
    match item
    case Dict(fields) => Some(MapRecord(fields, mapping))
    case Str(s) => if exists f :: f in mapping && Contains(s, mapping[f]) then None else Some(map[])
    case List(xs) => if exists f :: f in mapping && Str(mapping[f]) in xs then None else Some(map[])
    case _ => None
  }

  /** The one-character strings `for item in s` walks over. */
  function CharItems(s: string): (r: seq<Value>)
    ensures |r| == |s| && forall i :: 0 <= i < |s| ==> r[i] == Str([s[i]])
  {
    seq(|s|, i requires 0 <= i < |s| => Str([s[i]]))
  }

  /** What `for item in data` walks over for a list or a string. */
  function Elements(payload: Value): (r: seq<Value>)
    requires payload.List? || payload.Str?
    ensures Len(payload) == Some(|r|)
  {
    if payload.List? then payload.items else CharItems(payload.s)
  }

  /** The mapping loop raises: the payload is not iterable, or one of its elements (a dict's keys) raises. */
  predicate MappingRaises(payload: Value, mapping: map<string, string>) {
    if payload.List? || payload.Str? then
      exists i :: 0 <= i < |Elements(payload)| && MapItem(Elements(payload)[i], mapping).None?
    else if payload.Dict? then
      exists k :: k in payload.fields && MapItem(Str(k), mapping).None?
    else true
  }

  /**
   * `mapped_data`: one mapped record per element, in order; a dict payload
   * is walked by its keys, each of which maps to `{}`.
   */
  function Mapped(payload: Value, mapping: map<string, string>): (r: Value)
    requires !MappingRaises(payload, mapping)
    ensures r.List? && Len(r) == Len(payload)
    ensures forall i :: 0 <= i < |r.items| ==> r.items[i].Dict?
    ensures payload.List? ==> forall i :: 0 <= i < |r.items| && payload.items[i].Dict? ==>
      r.items[i].fields == MapRecord(payload.items[i].fields, mapping)
    ensures !payload.List? ==> forall i :: 0 <= i < |r.items| ==> r.items[i] == Dict(map[])
  {
    if payload.Dict? then List(Repeat(Dict(map[]), |payload.fields.Keys|))
    else
      var es := Elements(payload);
      List(seq(|es|, i requires 0 <= i < |es| => Dict(MapItem(es[i], mapping).value)))
  }

  /** The field-mapping loop over the elements of a list or a string. */
  method MapElements(elems: seq<Value>, mapping: map<string, string>) returns (out: Option<seq<Value>>)
    ensures out.None? <==> exists i :: 0 <= i < |elems| && MapItem(elems[i], mapping).None?
    ensures out.Some? ==>
      && |out.value| == |elems|
      && forall i :: 0 <= i < |elems| ==> MapItem(elems[i], mapping).Some? && out.value[i] == Dict(MapItem(elems[i], mapping).value)
  {
    var acc: seq<Value> := [];
    var i := 0;
    while i < |elems|
      invariant 0 <= i <= |elems|
      invariant |acc| == i
      invariant forall j :: 0 <= j < i ==> MapItem(elems[j], mapping).Some? && acc[j] == Dict(MapItem(elems[j], mapping).value)
    {
      var m := MapItem(elems[i], mapping);
      if m.None? {
        return None;
      }
      acc := acc + [Dict(m.value)];
      i := i + 1;
    }
    return Some(acc);
  }

  /** The field-mapping loop of `configure_file_source` over the whole payload. */
  method MapPayload(payload: Value, mapping: map<string, string>) returns (out: Option<Value>)
    ensures out.None? <==> MappingRaises(payload, mapping)
    ensures out.Some? ==> out.value == Mapped(payload, mapping)
  {
    if payload.List? || payload.Str? {
      var es := Elements(payload);
      var mapped := MapElements(es, mapping);
      if mapped.None? {
        return None;
      }
      return Some(List(mapped.value));
    } else if payload.Dict? {
      var keys := payload.fields.Keys;
      while keys != {}
        invariant keys <= payload.fields.Keys
        invariant forall k :: k in payload.fields && k !in keys ==> MapItem(Str(k), mapping).Some?
        decreases |keys|
      {
        var k :| k in keys;
        if MapItem(Str(k), mapping).None? {
          return None;
        }
        keys := keys - {k};
      }
      return Some(List(Repeat(Dict(map[]), |payload.fields.Keys|)));
    }
    return None;
  }

  /**
   * The configuration gets as far as storing the data: the file is at most
   * 10 MB, its type is csv or json, the read succeeds and the mapping loop,
   * when a mapping is given, does not raise.
   */
  predicate Stores(fileType: string, mapping: Option<map<string, string>>, fileSize: int, content: Option<Value>) {
    var kind := LowerAscii(fileType);
    && fileSize <= MaxFileSize
    && (kind == "csv" || kind == "json")
    && content.Some?
    && (Maps(mapping) ==> !MappingRaises(Payload(kind, content.value), mapping.value))
  }

  /** What `self.uploaded_data` becomes once the configuration stores: the mapped records, or the payload itself. */
  function StoredData(fileType: string, mapping: Option<map<string, string>>, fileSize: int, content: Option<Value>): (r: Value)
    requires Stores(fileType, mapping, fileSize, content)
    ensures Maps(mapping) ==> r.List?
  {
    var payload := Payload(LowerAscii(fileType), content.value);
    if Maps(mapping) then Mapped(payload, mapping.value) else payload
  }

  /** What `get_file_data` answers. */
  datatype FileReply = FilePage(page: Database.DataPage<Value>) | NoUpload | Failed

  /** What the file branch of `get_data_count` answers; `LenRaises` is the uncaught `TypeError` of `len`. */
  datatype FileCount = FileTotal(total: nat) | NotFileSource | LenRaises

  class DataSourceManager {
    /** "api" or "file". */
    var currentSourceType: string
    /** `uploaded_data`: what the file yielded, a list of records in the usual case. */
    var uploadedData: Value
    var fileConfig: Option<FileConfig>

    ghost predicate Valid()
      reads this
    {
      currentSourceType == "api" || currentSourceType == "file"
    }

    constructor()
      ensures Valid()
      ensures currentSourceType == "api" && uploadedData == List([]) && fileConfig.None?
    {
      currentSourceType, uploadedData, fileConfig := "api", List([]), None;
    }

    /**
     * `configure_file_source` after the file has been read. Too large a
     * file, an unknown type, a read failure or a raising mapping loop
     * changes nothing. Otherwise the config, the data and the "file" source
     * are stored first, and only then is `len(data)` taken: it succeeds for
     * a list, a dict or a string, and raises for anything else, leaving the
     * new state in place.
     */
    method ConfigureFileSource(path: string, fileType: string, mapping: Option<map<string, string>>, encoding: string,
                               fileSize: int, content: Option<Value>) returns (ok: bool)
      requires Valid()
      modifies this
      ensures Valid()
      ensures ok <==> Stores(fileType, mapping, fileSize, content) && Len(uploadedData).Some?
      ensures !Stores(fileType, mapping, fileSize, content) ==>
        currentSourceType == old(currentSourceType) && uploadedData == old(uploadedData) && fileConfig == old(fileConfig)
      ensures Stores(fileType, mapping, fileSize, content) ==>
        && currentSourceType == "file"
        && fileConfig == Some(FileConfig(path, fileType, mapping, encoding))
        && uploadedData == StoredData(fileType, mapping, fileSize, content)
      ensures ok && content.Some? && !Maps(mapping) ==>
        Len(uploadedData) == Len(Payload(LowerAscii(fileType), content.value))
    {
      if fileSize > MaxFileSize {
        return false;
      }
      var kind := LowerAscii(fileType);
      if (kind != "csv" && kind != "json") || content.None? {
        return false;
      }
      var data := Payload(kind, content.value);
      if Maps(mapping) {
        var mapped := MapPayload(data, mapping.value);
        if mapped.None? {
          return false;
        }
        data := mapped.value;
      }
      fileConfig := Some(FileConfig(path, fileType, mapping, encoding));
      uploadedData := data;
      currentSourceType := "file";
      var total := Len(data);
      return total.Some?;
    }

    /**
     * `get_file_data`: "no data" when the upload is falsy; otherwise, for a
     * list, filters by the time window when both bounds are given and
     * answers the page `filtered[(page - 1) * size : (page - 1) * size + size]`
     * with the filtered count and `total_pages`. Any other upload (a string
     * has no `copy`, a dict cannot be sliced or filtered), a zero page size
     * or a raising comparison makes it fail.
     */
    function GetFileData(q: ApiSource.QueryParams): (r: FileReply)
      reads this
      ensures !Truthy(uploadedData) <==> r.NoUpload?
      ensures r.FilePage? ==> uploadedData.List? && q.pageSize != 0
      ensures Truthy(uploadedData) && !uploadedData.List? ==> r.Failed?
    {
      if !Truthy(uploadedData) then NoUpload
      else if !uploadedData.List? then Failed
      else
        var filtered :=
          if ApiSource.Given(q.startTime) && ApiSource.Given(q.endTime) then
            FilterWindow(uploadedData.items, q.timeField, q.startTime.value, q.endTime.value)
          else Some(uploadedData.items);
        if filtered.None? || q.pageSize == 0 then Failed
        else
          var rows := filtered.value;
          FilePage(Database.DataPage(PageOf(rows, q.page, q.pageSize), |rows|, q.page, q.pageSize, TotalPages(|rows|, q.pageSize)))
    }

    /** The file branch of `get_data_count`: the length of the upload, whatever the filters. */
    function FileDataCount(filters: map<string, Value>): (r: FileCount)
      reads this
      ensures r.NotFileSource? <==> currentSourceType != "file"
      ensures r.LenRaises? <==> currentSourceType == "file" && !(uploadedData.List? || uploadedData.Dict? || uploadedData.Str?)
      ensures r.FileTotal? ==> Len(uploadedData) == Some(r.total)
    {
      if currentSourceType != "file" then NotFileSource
      else match Len(uploadedData)
        case Some(n) => FileTotal(n)
        case None => LenRaises
    }

    /** `switch_source_type`: only "api" and "file" are accepted; anything else changes nothing. */
    method SwitchSourceType(sourceType: string) returns (ok: bool)
      requires Valid()
      modifies this
      ensures Valid()
      ensures ok <==> sourceType == "api" || sourceType == "file"
      ensures currentSourceType == if ok then sourceType else old(currentSourceType)
      ensures uploadedData == old(uploadedData) && fileConfig == old(fileConfig)
    {
      if sourceType == "api" || sourceType == "file" {
        currentSourceType := sourceType;
        return true;
      }
      return false;
    }

    /** `clear_file_data`: drops the records and the file config, and falls back from "file" to "api". */
    method ClearFileData()
      requires Valid()
      modifies this
      ensures Valid()
      ensures uploadedData == List([]) && fileConfig.None?
      ensures currentSourceType == "api"
    {
      uploadedData := List([]);
      fileConfig := None;
      if currentSourceType == "file" {
        currentSourceType := "api";
      }
    }
  }

  /**
   * Without a time window and with a page number from 1 and a positive size,
   * item `k` of an uploaded list is answered on page `k / size + 1` at
   * position `k % size`, that page is within `total_pages`, and `total`
   * counts every item.
   */
  lemma FilePageHolds(m: DataSourceManager, q: ApiSource.QueryParams, k: nat)
    requires m.uploadedData.List? && k < |m.uploadedData.items| && q.pageSize > 0 && q.page == k / q.pageSize + 1
    requires !(ApiSource.Given(q.startTime) && ApiSource.Given(q.endTime))
    ensures var r := m.GetFileData(q);
      && r.FilePage?
      && r.page.total == |m.uploadedData.items|
      && 1 <= q.page <= r.page.totalPages
      && k % q.pageSize < |r.page.data|
      && r.page.data[k % q.pageSize] == m.uploadedData.items[k]
  {
    PageEntry(m.uploadedData.items, q.pageSize, k);
  }

  /** The filtered items split over the pages the same way: item `k` of the window is on page `k / size + 1`. */
  lemma FilteredPageHolds(m: DataSourceManager, q: ApiSource.QueryParams, k: nat)
    requires m.uploadedData.List? && m.uploadedData.items != [] && q.pageSize > 0
    requires ApiSource.Given(q.startTime) && ApiSource.Given(q.endTime)
    requires FilterWindow(m.uploadedData.items, q.timeField, q.startTime.value, q.endTime.value).Some?
    requires k < |FilterWindow(m.uploadedData.items, q.timeField, q.startTime.value, q.endTime.value).value|
    requires q.page == k / q.pageSize + 1
    ensures var r := m.GetFileData(q);
      var kept := FilterWindow(m.uploadedData.items, q.timeField, q.startTime.value, q.endTime.value).value;
      && r.FilePage?
      && r.page.total == |kept|
      && 1 <= q.page <= r.page.totalPages
      && k % q.pageSize < |r.page.data|
      && r.page.data[k % q.pageSize] == kept[k]
  {
    var kept := FilterWindow(m.uploadedData.items, q.timeField, q.startTime.value, q.endTime.value).value;
    PageEntry(kept, q.pageSize, k);
  }

  /** The count of the file branch does not depend on the filters. */
  lemma CountIgnoresFilters(m: DataSourceManager, f1: map<string, Value>, f2: map<string, Value>)
    ensures m.FileDataCount(f1) == m.FileDataCount(f2)
  {
  }
}
