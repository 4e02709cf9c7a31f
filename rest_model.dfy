/** The shapes of the catalog's REST payloads, and the backend as an oracle.

    A REST asset is a JSON object with `_type`, `_name`, `_context`, `_id`, `_url`
    and further properties (kept in their JSON key order). A query is the JSON
    search request; the backend answers a search with its first page and the
    successive answers to following the `next` links. */
module RestModel {
  import opened Wrappers

  /** One `_context` entry: a containing asset's type and name, plus the `_id` and
      `_url` keys (absent once minified). */
  datatype CtxEntry = CtxEntry(typ: string, name: string, id: Option<string>, url: Option<string>)

  /** A catalog asset as returned by a search or stored in a relationship file. */
  datatype Asset = Asset(
    typ: string,
    name: string,
    context: seq<CtxEntry>,
    id: Option<string>,
    url: Option<string>,
    props: seq<Prop>)

  /** One further property of an asset, in JSON key order. */
  datatype Prop = Prop(key: string, value: Value)

  /** The JSON values properties take. `StrList` and `AssetList` are JSON lists;
      `Paged` is a relationship as a search returns it: `{items, paging}`. */
  datatype Value =
    | Str(s: string)
    | Num(n: int)
    | Null
    | StrList(strs: seq<string>)
    | AssetList(items: seq<Asset>)
    | Paged(items: seq<Asset>, more: seq<PageFetch>)
    | Obj(fields: map<string, string>)
  {
    /** `isinstance(value, list)`. */
    predicate IsList()
    {
      StrList? || AssetList?
    }
  }

  /** What following one `next` link yields: a page of items, a failed request,
      or no link at all (both of the latter read as an empty page). */
  datatype PageFetch = Fetched(items: seq<Asset>) | FetchFailed | NoNextLink

  /** The first property with the given key. */
  function GetProp(props: seq<Prop>, key: string): (r: Option<Value>)
    ensures r.Some? <==> exists i :: 0 <= i < |props| && props[i].key == key
  {
    if props == [] then None
    else if props[0].key == key then Some(props[0].value)
    else GetProp(props[1..], key)
  }

  /** `props[key] = v`: the first property with the key takes the new value in
      place; a new key is added at the end. */
  function SetProp(props: seq<Prop>, key: string, v: Value): (r: seq<Prop>)
    ensures GetProp(r, key) == Some(v)
    ensures forall other :: other != key ==> GetProp(r, other) == GetProp(props, other)
  {
    if props == [] then [Prop(key, v)]
    else if props[0].key == key then [Prop(key, v)] + props[1..]
    else [props[0]] + SetProp(props[1..], key, v)
  }

  /** A condition value: a string or a list of ids (for the `in` operator). */
  datatype CondValue = VStr(s: string) | VStrs(ss: seq<string>)

  /** A search condition: a comparison, a `between` range, an `isNull` test
      (`negated` false when the key is absent) or a nested group. */
  datatype Condition =
    | Compare(property: string, operator: string, value: CondValue)
    | Between(property: string, min: int, max: Option<int>)
    | IsNull(property: string, negated: bool)
    | Group(conditions: seq<Condition>, operator: string)

  datatype Where = Where(conditions: seq<Condition>, operator: string)

  /** A search request. */
  datatype Query = Query(
    properties: seq<string>,
    types: seq<string>,
    where: Option<Where>,
    pageSize: int,
    workflowMode: Option<string>)

  /** The backend's answer to a search: a non-200 status, or the first page
      (with its `paging.numTotal`) and the answers to the successive `next` links. */
  datatype SearchOutcome = SearchFailed | Answered(items: seq<Asset>, numTotal: int, more: seq<PageFetch>)

  /** The `items` of an update: a list of ids, or a set of ids. */
  datatype UpdateItems = RidList(rids: seq<string>) | RidSet(ridSet: set<string>)

  /** `{property: {"items": ..., "mode": "append" | "replace"}}`. */
  datatype Delta = Delta(property: string, items: UpdateItems, mode: string)

  /** One update request as `update` records it: the asset id and the delta. */
  datatype Update = Update(rid: string, value: Delta)

  /** A status code and a response body (or message). */
  datatype Reply = Reply(status: int, body: string)

  /** A type description: display name and the `(name, displayName)` of each editable property. */
  datatype TypeInfo = TypeInfo(name: string, editProperties: seq<(string, string)>)

  /** The catalog, as far as the model sees it: a deterministic answer to each request.
      `typeInfo` is `None` when the type request does not answer 200. */
  datatype Backend = Backend(
    search: Query -> SearchOutcome,
    update: Update -> Reply,
    workflowAction: (seq<string>, string, string) -> bool,
    typeInfo: string -> Option<TypeInfo>)

  /** The value-mapping rules (`get_mapped_value(type, property, value, mappings)` with the
      mappings fixed); their regular-expression semantics are not part of this model. */
  type Mapper = (string, string, string) -> string
}
