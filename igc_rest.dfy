/** The pure parts of the catalog REST client: paging, search-condition naming,
    asset identities, the context caches, the query built to find an asset's
    counterpart in another environment, and the relationship update plan. */
module IgcRest {
  import opened Wrappers
  import opened Text
  import opened Lists
  import opened RestModel

  /** The asset types that go through the development workflow. */
  const WorkflowTypes: seq<string> := ["category", "term", "information_governance_policy", "information_governance_rule"]

  predicate IsWorkflowType(assetType: string)
  {
    assetType in WorkflowTypes
  }

  /** The probe run to decide whether the workflow is enabled. */
  const WorkflowCheck: Query := Query(["name"], WorkflowTypes, None, 1, Some("draft"))

  // ---------------------------------------------------------------------------
  // Paging

  /** Following `next` links from `items`: stop at the first fetch that yields
      no items (no link, a failed request, an empty page). */
  function AllPages(items: seq<Asset>, more: seq<PageFetch>): (r: seq<Asset>)
    ensures items <= r
    decreases |more|
  {
    if more == [] then items
    else match more[0]
      case Fetched(page) => if |page| > 0 then AllPages(items + page, more[1..]) else items
      case _ => items
  }

  /** The items the `next` links serve, up to the first fetch that yields none. */
  function Served(more: seq<PageFetch>): seq<Asset>
    decreases |more|
  {
    if more == [] then []
    else match more[0]
      case Fetched(page) => if |page| > 0 then page + Served(more[1..]) else []
      case _ => []
  }

  /** Paging returns the first page followed by everything the links serve. */
  lemma {:induction false} AllPagesServed(items: seq<Asset>, more: seq<PageFetch>)
    ensures AllPages(items, more) == items + Served(more)
    decreases |more|
  {
    if more != [] && more[0].Fetched? && |more[0].items| > 0 {
      var page := more[0].items;
      AllPagesServed(items + page, more[1..]);
      assert items + page + Served(more[1..]) == items + (page + Served(more[1..]));
    }
  }

  /** A search with `get_all`: nothing on a non-200 answer, else every page. */
  function Collect(outcome: SearchOutcome): (r: Option<seq<Asset>>)
    ensures r.Some? <==> outcome.Answered?
    ensures r.Some? ==> r.value == outcome.items + Served(outcome.more)
  {
    match outcome
    case SearchFailed => None
    case Answered(items, _, more) =>
      AllPagesServed(items, more);
      Some(AllPages(items, more))
  }

  /** The items a loop over a `get_all` search sees: a failed search answers `""`,
      which iterates as nothing and has length 0. */
  function Hits(outcome: SearchOutcome): seq<Asset>
  {
    if outcome.Answered? then Collect(outcome).value else []
  }

  /** `[x['_id'] for x in items]`, or `None` where an item has no `_id` (a KeyError). */
  function Rids(items: seq<Asset>): (r: Option<seq<string>>)
    ensures r.Some? <==> forall i :: 0 <= i < |items| ==> items[i].id.Some?
    ensures r.Some? ==> |r.value| == |items|
    ensures r.Some? ==> forall i :: 0 <= i < |items| ==> r.value[i] == items[i].id.value
    decreases |items|
  {
    if items == [] then Some([])
    else
      var init, last := items[..|items| - 1], items[|items| - 1];
      assert forall i :: 0 <= i < |init| ==> init[i] == items[i];
      match Rids(init)
      case None => None
      case Some(ids) => if last.id.None? then None else Some(ids + [last.id.value])
  }

  /** The ids of the items of one type, in order. */
  function RidsOfType(items: seq<Asset>, assetType: string): (r: seq<string>)
    requires forall i :: 0 <= i < |items| ==> items[i].id.Some?
    ensures forall i :: 0 <= i < |items| && items[i].typ == assetType ==> items[i].id.value in r
    ensures forall x :: x in r ==> exists i :: 0 <= i < |items| && items[i].typ == assetType && items[i].id == Some(x)
    decreases |items|
  {
    if items == [] then []
    else
      var init, last := items[..|items| - 1], items[|items| - 1];
      assert forall i :: 0 <= i < |init| ==> init[i] == items[i];
      var rest := RidsOfType(init, assetType);
      if last.typ == assetType then rest + [last.id.value] else rest
  }

  // ---------------------------------------------------------------------------
  // Search-condition naming of context types

  /** A bundle type (`$Bundle-Class`) without a `-`: the naming fails (a ValueError). */
  predicate BadBundleType(ctxType: string)
  {
    StartsWith(ctxType, "$") && '-' !in ctxType
  }

  /** The property name under which a search refers to a containing asset of `ctxType`. */
  function CtxQueryParamName(assetType: string, ctxType: string): (r: Result<string>)
    ensures r.Err? <==> BadBundleType(ctxType)
    ensures r == Ok("") <==> ctxType in ["bi_root_folder", "bi_server", ""]
    ensures ctxType == "host_(engine)" ==> r == Ok(if assetType == "transformation_project" then ctxType else "host")
    ensures ctxType == "category" ==> r == Ok("parent_category")
    ensures ctxType == "data_class" ==> r == Ok("parent_data_class")
    ensures ctxType == "design_table" ==> r == Ok("design_table_or_view")
    ensures StartsWith(ctxType, "$") && r.Ok? ==>
      StartsWith(r.value, "$") && ctxType == r.value[..1] + ctxType[1..IndexOf(ctxType, '-') + 1] + r.value[1..]
    ensures r.Ok? && !StartsWith(ctxType, "$") && ctxType !in ["host_(engine)", "category", "data_class", "design_table", "bi_root_folder", "bi_server"]
      ==> r.value == ctxType
  {
    if ctxType == "host_(engine)" && assetType != "transformation_project" then Ok("host")
    else if ctxType in ["category", "data_class", "design_table", "bi_root_folder", "bi_server"] then
      assert ctxType[0] != '$';
      if ctxType == "category" then Ok("parent_category")
      else if ctxType == "data_class" then Ok("parent_data_class")
      else if ctxType == "design_table" then Ok("design_table_or_view")
      else Ok("")
    else if StartsWith(ctxType, "$") then
      if '-' in ctxType then Ok("$" + ctxType[IndexOf(ctxType, '-') + 1..])
      else Err("ValueError: substring not found")
    else Ok(ctxType)
  }

  // ---------------------------------------------------------------------------
  // Identities

  /** Each name followed by `::`. */
  function IdentityPrefix(names: seq<string>): string
    decreases |names|
  {
    if names == [] then "" else names[0] + "::" + IdentityPrefix(names[1..])
  }

  /** An asset's identity: its context names and its own name, joined by `::`. */
  function Identity(names: seq<string>, name: string): string
  {
    IdentityPrefix(names) + name
  }

  function Names(ctx: seq<CtxEntry>): (r: seq<string>)
    ensures |r| == |ctx| && forall i :: 0 <= i < |ctx| ==> r[i] == ctx[i].name
  {
    seq(|ctx|, i requires 0 <= i < |ctx| => ctx[i].name)
  }

  function AssetIdentity(a: Asset): string
  {
    Identity(Names(a.context), a.name)
  }

  lemma {:induction false} IdentityPrefixSnoc(names: seq<string>, x: string)
    ensures IdentityPrefix(names + [x]) == IdentityPrefix(names) + x + "::"
    decreases |names|
  {
    if names != [] {
      assert (names + [x])[1..] == names[1..] + [x];
      IdentityPrefixSnoc(names[1..], x);
    }
  }

  predicate ColonFree(s: string)
  {
    ':' !in s
  }

  /** The first colon of `a::x` ends `a`. */
  lemma {:induction false} FirstColon(a: string, x: string)
    requires ColonFree(a)
    ensures ':' in a + "::" + x && IndexOf(a + "::" + x, ':') == |a|
    decreases |a|
  {
    var s := a + "::" + x;
    assert s[|a|] == ':';
    if a != [] {
      FirstColon(a[1..], x);
      assert s[1..] == a[1..] + "::" + x;
    }
  }

  lemma {:induction false} ColonSplit(a: string, x: string, b: string, y: string)
    requires ColonFree(a) && ColonFree(b)
    requires a + "::" + x == b + "::" + y
    ensures a == b && x == y
  {
    var s := a + "::" + x;
    FirstColon(a, x);
    FirstColon(b, y);
    assert a == s[..|a|] == b;
    assert x == s[|a| + 2..] == y;
  }

  lemma {:induction false} IdentityShape(ns: seq<string>, n: string)
    requires ns != [] ==> ColonFree(ns[0])
    ensures ns == [] ==> Identity(ns, n) == n
    ensures ns != [] ==> ':' in Identity(ns, n)
  {
    if ns != [] {
      var s := ns[0] + "::" + IdentityPrefix(ns[1..]) + n;
      assert Identity(ns, n) == s;
      assert s[|ns[0]|] == ':';
    } else {
      assert Identity(ns, n) == "" + n == n;
    }
  }

  /** When no name contains a colon, equal identities mean the same context
      names and the same name. */
  lemma {:induction false} IdentityInjective(ns: seq<string>, n: string, ms: seq<string>, m: string)
    requires forall i :: 0 <= i < |ns| ==> ColonFree(ns[i])
    requires forall i :: 0 <= i < |ms| ==> ColonFree(ms[i])
    requires ColonFree(n) && ColonFree(m)
    requires Identity(ns, n) == Identity(ms, m)
    ensures ns == ms && n == m
    decreases |ns|
  {
    // a colon-free name cannot equal an identity that has a context
    IdentityShape(ns, n);
    IdentityShape(ms, m);
    if ns != [] && ms != [] {
      assert Identity(ns, n) == ns[0] + "::" + (IdentityPrefix(ns[1..]) + n);
      assert Identity(ms, m) == ms[0] + "::" + (IdentityPrefix(ms[1..]) + m);
      ColonSplit(ns[0], IdentityPrefix(ns[1..]) + n, ms[0], IdentityPrefix(ms[1..]) + m);
      IdentityInjective(ns[1..], n, ms[1..], m);
      assert ns == [ns[0]] + ns[1..];
      assert ms == [ms[0]] + ms[1..];
    }
  }

  // ---------------------------------------------------------------------------
  // Context caches

  /** `{asset['_id']: asset['_context']}` built item by item (a later item with the
      same id overwrites); fails on an item without `_id`. */
  function IndexContexts(items: seq<Asset>): (r: Result<map<string, seq<CtxEntry>>>)
    ensures r.Ok? <==> forall i :: 0 <= i < |items| ==> items[i].id.Some?
    ensures r.Ok? ==> forall i :: 0 <= i < |items| ==> items[i].id.value in r.value
    ensures r.Ok? ==> forall k :: k in r.value ==> exists i :: 0 <= i < |items| && items[i].id == Some(k)
    ensures r.Err? ==> r == Err("KeyError: _id")
    decreases |items|
  {
    if items == [] then Ok(map[])
    else
      var init, last := items[..|items| - 1], items[|items| - 1];
      assert forall i :: 0 <= i < |init| ==> init[i] == items[i];
      match IndexContexts(init)
      case Err(e) => Err(e)
      case Ok(m) =>
        if last.id.None? then Err("KeyError: _id") else Ok(m[last.id.value := last.context])
  }

  /** The cached context of an id is that of the last item carrying the id. */
  lemma {:induction false} IndexContextsLastWins(items: seq<Asset>, i: nat)
    requires IndexContexts(items).Ok? && i < |items|
    requires forall j :: i < j < |items| ==> items[j].id != items[i].id
    ensures IndexContexts(items).value[items[i].id.value] == items[i].context
    decreases |items|
  {
    var init := items[..|items| - 1];
    IndexContextsSnoc(items, init);
    if i < |items| - 1 {
      assert init[i] == items[i];
      assert forall j :: i < j < |init| ==> init[j] == items[j];
      IndexContextsLastWins(init, i);
    }
  }

  /** A successful index is that of all items but the last, updated by the last. */
  lemma {:induction false} IndexContextsSnoc(items: seq<Asset>, init: seq<Asset>)
    requires items != [] && init == items[..|items| - 1] && IndexContexts(items).Ok?
    ensures IndexContexts(init).Ok? && items[|items| - 1].id.Some?
    ensures IndexContexts(items).value == IndexContexts(init).value[items[|items| - 1].id.value := items[|items| - 1].context]
  {
  }

  /** `{identity: asset}` built item by item, keeping the first asset of each identity. */
  function IndexByIdentity(items: seq<Asset>): (r: map<string, Asset>)
    ensures r.Keys == set i | 0 <= i < |items| :: AssetIdentity(items[i])
    ensures forall k :: k in r ==> r[k] in items
    decreases |items|
  {
    if items == [] then map[]
    else
      var init, last := items[..|items| - 1], items[|items| - 1];
      assert forall i :: 0 <= i < |init| ==> init[i] == items[i];
      var m := IndexByIdentity(init);
      var k := AssetIdentity(last);
      IdentitiesSnoc(items, init);
      if k in m then m else m[k := last]
  }

  /** The identities of a list are those of all but its last item, and the last one's. */
  lemma {:induction false} IdentitiesSnoc(items: seq<Asset>, init: seq<Asset>)
    requires items != [] && init == items[..|items| - 1]
    ensures (set i | 0 <= i < |items| :: AssetIdentity(items[i]))
         == (set i | 0 <= i < |init| :: AssetIdentity(init[i])) + {AssetIdentity(items[|items| - 1])}
  {
    assert forall i :: 0 <= i < |init| ==> init[i] == items[i];
  }

  /** The asset cached under an identity is the first one carrying it. */
  lemma {:induction false} IndexByIdentityFirstWins(items: seq<Asset>, i: nat)
    requires i < |items|
    requires forall j :: 0 <= j < i ==> AssetIdentity(items[j]) != AssetIdentity(items[i])
    ensures IndexByIdentity(items)[AssetIdentity(items[i])] == items[i]
    decreases |items|
  {
    var init := items[..|items| - 1];
    assert forall j :: 0 <= j < |init| ==> init[j] == items[j];
    if i < |items| - 1 {
      IndexByIdentityFirstWins(init, i);
    }
  }

  /** The property map of a type: `{name: displayName}` over its editable
      properties, a later duplicate overwriting. */
  function PropertyMapOf(props: seq<(string, string)>): (r: map<string, string>)
    ensures forall i :: 0 <= i < |props| ==> props[i].0 in r
    ensures forall k :: k in r ==> exists i :: 0 <= i < |props| && props[i].0 == k
    decreases |props|
  {
    if props == [] then map[]
    else
      var init, last := props[..|props| - 1], props[|props| - 1];
      assert forall i :: 0 <= i < |init| ==> init[i] == props[i];
      PropertyMapOf(init)[last.0 := last.1]
  }

  /** Each property name maps to the display name of its last occurrence. */
  lemma {:induction false} PropertyMapLastWins(props: seq<(string, string)>, i: nat)
    requires i < |props|
    requires forall j :: i < j < |props| ==> props[j].0 != props[i].0
    ensures PropertyMapOf(props)[props[i].0] == props[i].1
    decreases |props|
  {
    if i < |props| - 1 {
      var init := props[..|props| - 1];
      assert forall j :: 0 <= j < |init| ==> init[j] == props[j];
      PropertyMapLastWins(init, i);
    }
  }

  // ---------------------------------------------------------------------------
  // Context lookups

  /** The bulk query for every asset of a type. */
  function BulkQuery(assetType: string, batch: int): Query
  {
    Query(["name"], [assetType], None, batch, None)
  }

  /** The one-off query for the asset with a given id. */
  function IdQuery(rid: string, assetType: string): Query
  {
    Query(["name"], [assetType], Some(Where([Compare("_id", "=", VStr(rid))], "and")), 2, None)
  }

  /** The context a one-off lookup yields: that of the first item when there is
      at least one (more than one only warns), else nothing (`""`). */
  function OneOffContext(outcome: SearchOutcome): (r: Option<seq<CtxEntry>>)
    ensures r.Some? <==> outcome.Answered? && |outcome.items| >= 1
    ensures r.Some? ==> r.value == outcome.items[0].context
  {
    if outcome.Answered? && |outcome.items| >= 1 then Some(outcome.items[0].context) else None
  }

  // ---------------------------------------------------------------------------
  // Finding an asset's counterpart: walking the context

  const PdmPath: string := "design_table_or_view.physical_data_model"
  const FolderType: string := "data_file_folder"

  /** The walk state over the context, innermost entry first: the mapped context
      so far, the dotted search path, the folder path, the path before the host
      entry, and the `(path, value)` conditions collected. */
  datatype Walk = Walk(mapped: seq<CtxEntry>, ctxPath: string, folderPath: string, preHostPath: string, conds: seq<(string, string)>)

  /** One entry of the walk, at position `idx` of the reversed context. */
  function WalkStep(w: Walk, idx: nat, e: CtxEntry, assetType: string, mapper: Mapper): (r: Result<Walk>)
    ensures r.Err? <==> e.typ != FolderType && BadBundleType(e.typ)
  {
    if e.typ == FolderType then Ok(w.(folderPath := e.name + "/" + w.folderPath))
    else
      var value := mapper(e.typ, "name", e.name);
      var mapped := [CtxEntry(e.typ, value, None, None)] + w.mapped;
      var pre := if e.typ == "host_(engine)" && StartsWith(assetType, "data_file") then w.ctxPath else w.preHostPath;
      match CtxQueryParamName(assetType, e.typ)
      case Err(msg) => Err(msg)
      case Ok(t) =>
        var path := if idx == 0 then t else w.ctxPath + "." + t;
        var conds := if t != "" && !Contains(path, PdmPath) then w.conds + [(path, value)] else w.conds;
        Ok(Walk(mapped, path, w.folderPath, pre, conds))
  }

  /** The walk state after visiting `ctx[k..]` from the innermost entry outwards. */
  function WalkFrom(ctx: seq<CtxEntry>, k: nat, assetType: string, mapper: Mapper): Result<Walk>
    requires k <= |ctx|
    decreases |ctx| - k
  {
    if k == |ctx| then Ok(Walk([], "", "", "", []))
    else match WalkFrom(ctx, k + 1, assetType, mapper)
      case Err(msg) => Err(msg)
      case Ok(w) => WalkStep(w, |ctx| - 1 - k, ctx[k], assetType, mapper)
  }

  /** The non-folder entries, names mapped, in their original order. */
  function MapCtx(ctx: seq<CtxEntry>, mapper: Mapper): seq<CtxEntry>
    decreases |ctx|
  {
    if ctx == [] then []
    else if ctx[0].typ == FolderType then MapCtx(ctx[1..], mapper)
    else [CtxEntry(ctx[0].typ, mapper(ctx[0].typ, "name", ctx[0].name), None, None)] + MapCtx(ctx[1..], mapper)
  }

  /** The folder names, outermost first, each followed by `/`. */
  function FolderPath(ctx: seq<CtxEntry>): string
    decreases |ctx|
  {
    if ctx == [] then ""
    else if ctx[0].typ == FolderType then ctx[0].name + "/" + FolderPath(ctx[1..])
    else FolderPath(ctx[1..])
  }

  /** The walk keeps the non-folder entries in their original order, gathers the
      folders into a path, and never adds more conditions than mapped entries nor
      one whose path reaches through a physical data model. */
  lemma {:induction false} WalkShape(ctx: seq<CtxEntry>, k: nat, assetType: string, mapper: Mapper)
    requires k <= |ctx| && WalkFrom(ctx, k, assetType, mapper).Ok?
    ensures var w := WalkFrom(ctx, k, assetType, mapper).value;
      && w.mapped == MapCtx(ctx[k..], mapper)
      && w.folderPath == FolderPath(ctx[k..])
      && |w.conds| <= |w.mapped|
      && forall i :: 0 <= i < |w.conds| ==> !Contains(w.conds[i].0, PdmPath)
    decreases |ctx| - k
  {
    if k < |ctx| {
      WalkShape(ctx, k + 1, assetType, mapper);
      assert ctx[k..][1..] == ctx[k + 1..];
    }
  }

  /** The walk fails exactly when a non-folder entry has a bundle type without `-`. */
  lemma {:induction false} WalkFails(ctx: seq<CtxEntry>, k: nat, assetType: string, mapper: Mapper)
    requires k <= |ctx|
    ensures WalkFrom(ctx, k, assetType, mapper).Err? <==>
      exists j :: k <= j < |ctx| && ctx[j].typ != FolderType && BadBundleType(ctx[j].typ)
  {
    var err := (i: nat) => i <= |ctx| && WalkFrom(ctx, i, assetType, mapper).Err?;
    var bad := (i: nat) => i < |ctx| && ctx[i].typ != FolderType && BadBundleType(ctx[i].typ);
    forall i | k <= i < |ctx|
      ensures err(i) <==> err(i + 1) || bad(i)
    {
      WalkFromErr(ctx, i, assetType, mapper);
    }
    FailsIffSomeBad(|ctx|, k, err, bad);
    if err(k) {
      var j :| k <= j < |ctx| && bad(j);
      assert ctx[j].typ != FolderType && BadBundleType(ctx[j].typ);
    } else {
      forall j | k <= j < |ctx|
        ensures !(ctx[j].typ != FolderType && BadBundleType(ctx[j].typ))
      {
        assert !bad(j);
      }
    }
  }

  /** A chain of steps, each failing exactly when the rest failed or the step
      itself is bad, fails exactly when some step is bad. */
  lemma {:induction false} FailsIffSomeBad(n: nat, k: nat, err: nat -> bool, bad: nat -> bool)
    requires k <= n && !err(n)
    requires forall i :: k <= i < n ==> (err(i) <==> err(i + 1) || bad(i))
    ensures err(k) <==> exists j :: k <= j < n && bad(j)
    decreases n - k
  {
    if k < n {
      FailsIffSomeBad(n, k + 1, err, bad);
      if !err(k) {
        forall j | k <= j < n
          ensures !bad(j)
        {
          if j != k {
            assert k + 1 <= j;
          }
        }
      }
    }
  }

  /** One more entry fails the walk exactly when the walk already failed or the
      entry is a bundle type without `-`. */
  lemma {:induction false} WalkFromErr(ctx: seq<CtxEntry>, k: nat, assetType: string, mapper: Mapper)
    requires k < |ctx|
    ensures WalkFrom(ctx, k, assetType, mapper).Err? <==>
      WalkFrom(ctx, k + 1, assetType, mapper).Err? || (ctx[k].typ != FolderType && BadBundleType(ctx[k].typ))
  {
    var rest := WalkFrom(ctx, k + 1, assetType, mapper);
    if rest.Ok? {
      assert WalkFrom(ctx, k, assetType, mapper) == WalkStep(rest.value, |ctx| - 1 - k, ctx[k], assetType, mapper);
    }
  }

  /** One more entry, visited after the walk of the entries behind it. */
  lemma {:induction false} WalkFromStep(ctx: seq<CtxEntry>, k: nat, w: Walk, assetType: string, mapper: Mapper)
    requires k < |ctx| && WalkFrom(ctx, k + 1, assetType, mapper) == Ok(w)
    ensures WalkFrom(ctx, k, assetType, mapper) == WalkStep(w, |ctx| - 1 - k, ctx[k], assetType, mapper)
  {
  }

  /** A failure at one entry is the failure of the whole walk. */
  lemma {:induction false} WalkErrSticks(ctx: seq<CtxEntry>, j: nat, k: nat, assetType: string, mapper: Mapper)
    requires j <= k <= |ctx| && WalkFrom(ctx, k, assetType, mapper).Err?
    ensures WalkFrom(ctx, j, assetType, mapper) == WalkFrom(ctx, k, assetType, mapper)
    decreases k - j
  {
    if j < k {
      WalkErrSticks(ctx, j + 1, k, assetType, mapper);
    }
  }

  /** The search query that looks for an asset's counterpart, and its identity. */
  datatype Lookup = Lookup(query: Query, identity: string, mappedCtx: seq<CtxEntry>)

  function NameCondition(renamed: string): Condition
  {
    Compare("name", "=", VStr(renamed))
  }

  function CondsOf(paths: seq<(string, string)>): (r: seq<Condition>)
    ensures |r| == |paths|
    ensures forall i :: 0 <= i < |paths| ==> r[i] == Compare(paths[i].0 + ".name", "=", VStr(paths[i].1))
  {
    seq(|paths|, i requires 0 <= i < |paths| => Compare(paths[i].0 + ".name", "=", VStr(paths[i].1)))
  }

  function FolderEntries(components: seq<string>): (r: seq<CtxEntry>)
    ensures |r| == |components|
    ensures forall i :: 0 <= i < |components| ==> r[i] == CtxEntry(FolderType, components[i], None, None)
  {
    seq(|components|, i requires 0 <= i < |components| => CtxEntry(FolderType, components[i], None, None))
  }

  /** The counterpart lookup of an asset: the name condition, one condition per
      translated context entry, and for data files under folders a condition on
      the mapped folder path, whose components also enter the identity after the
      host. */
  function MappedLookup(item: Asset, mapper: Mapper): (r: Result<Lookup>)
    ensures r.Ok? ==> r.value.query.where.Some? && r.value.query.types == [item.typ]
  {
    var renamed := mapper(item.typ, "name", item.name);
    match WalkFrom(item.context, 0, item.typ, mapper)
    case Err(msg) => Err(msg)
    case Ok(w) =>
      var base := [NameCondition(renamed)] + CondsOf(w.conds);
      if w.folderPath == "" then
        var q := Query(["name"], [item.typ], Some(Where(base, "and")), 2, None);
        Ok(Lookup(q, Identity(Names(w.mapped), renamed), w.mapped))
      else
        var mappedPath := mapper("data_file", "path", StripEnds(w.folderPath));
        var q := Query(["name"], [item.typ], Some(Where(base + [Compare(w.preHostPath + ".path", "=", VStr(mappedPath))], "and")), 2, None);
        var ctx := InsertEach(w.mapped, FolderEntries(Split(mappedPath, '/')));
        Ok(Lookup(q, Identity(Names(ctx), renamed), ctx))
  }

  /** Without folders the identity uses the mapped non-folder context in order;
      with folders (and at least one other entry) the folder components follow
      the first entry, last component first. */
  lemma {:induction false} MappedLookupShape(item: Asset, mapper: Mapper)
    requires MappedLookup(item, mapper).Ok?
    ensures var lk := MappedLookup(item, mapper).value;
      var m := MapCtx(item.context, mapper);
      && lk.query.where.Some?
      && lk.query.where.value.conditions[0] == NameCondition(mapper(item.typ, "name", item.name))
      && lk.identity == Identity(Names(lk.mappedCtx), mapper(item.typ, "name", item.name))
      && (FolderPath(item.context) == "" ==> lk.mappedCtx == m)
      && (FolderPath(item.context) != "" && |m| >= 1 ==>
            lk.mappedCtx == [m[0]] + Reverse(FolderEntries(Split(mapper("data_file", "path", StripEnds(FolderPath(item.context))), '/'))) + m[1..])
  {
    WalkShape(item.context, 0, item.typ, mapper);
    assert item.context[0..] == item.context;
    var w := WalkFrom(item.context, 0, item.typ, mapper).value;
    if w.folderPath != "" && |w.mapped| >= 1 {
      InsertEachAt1(w.mapped, FolderEntries(Split(mapper("data_file", "path", StripEnds(w.folderPath)), '/')));
    }
  }

  /** The draft-mode variant of a lookup query, restricted to assets in the workflow. */
  function DevQuery(q: Query): (r: Query)
    requires q.where.Some?
    ensures r.workflowMode == Some("draft") && r.types == q.types && r.pageSize == q.pageSize
    ensures r.where.Some? && q.where.value.conditions <= r.where.value.conditions
    ensures IsNull("workflow_current_state", true) in r.where.value.conditions
  {
    q.(workflowMode := Some("draft"),
       properties := q.properties + ["workflow_current_state"],
       where := Some(q.where.value.(conditions := q.where.value.conditions + [IsNull("workflow_current_state", true)])))
  }

  // ---------------------------------------------------------------------------
  // Partial replacement

  /** The ids a partial replace keeps: the existing ids not matched for
      replacement, as a set (`set(aAllRelnRIDs) - set(aRidsToDrop)`). */
  function ReplaceItems(allIds: seq<string>, drop: seq<string>): (r: UpdateItems)
    ensures r.RidSet?
    ensures forall x :: x in r.ridSet <==> x in allIds && x !in drop
  {
    RidSet((set x | x in allIds) - (set x | x in drop))
  }

  // ---------------------------------------------------------------------------
  // Relationship updates

  /** What adding relationships does: the searches it runs, the update it sends
      (if any) and its reply. */
  datatype Plan = Plan(queries: seq<Query>, update: Option<Update>, reply: Result<Reply>)

  const NothingToAdd: Reply := Reply(200, "No relationships to add")

  function RelationsQuery(fromType: string, fromId: string, reln: string, batch: int): Query
  {
    Query([reln], [fromType], Some(Where([Compare("_id", "=", VStr(fromId))], "and")), batch, None)
  }

  function ReplaceQuery(replaceType: string, conditions: seq<Condition>, replacements: seq<string>, batch: int): Query
  {
    Query(["name"], [replaceType], Some(Where(conditions + [Compare("_id", "in", VStrs(replacements))], "and")), batch, None)
  }

  function Appending(fromId: string, reln: string, toRids: seq<string>): Update
  {
    Update(fromId, Delta(reln, RidList(toRids), "append"))
  }

  /** Sends `u` (when there is one) after the searches `qs`. */
  function Finish(b: Backend, qs: seq<Query>, u: Option<Update>): Plan
  {
    match u
    case None => Plan(qs, None, Ok(NothingToAdd))
    case Some(x) => Plan(qs, u, Ok(b.update(x)))
  }

  /** The partial replace once the existing relations are known. */
  function ReplaceSome(b: Backend, fromId: string, toRids: seq<string>, reln: string, replaceType: string,
                       conditions: seq<Condition>, batch: int, qAll: Query, existing: seq<Asset>): Plan
  {
    match Rids(existing)
    case None => Plan([qAll], None, Err("KeyError: _id"))
    case Some(allIds) =>
      var replacements := RidsOfType(existing, replaceType);
      var qReplace := ReplaceQuery(replaceType, conditions, replacements, batch);
      var qs := if |replacements| > 0 then [qAll, qReplace] else [qAll];
      var hits := if |replacements| > 0 then Hits(b.search(qReplace)) else [];
      if |hits| > 0 then
        match Rids(hits)
        case None => Plan(qs, None, Err("KeyError: _id"))
        case Some(drop) => Finish(b, qs, Some(Update(fromId, Delta(reln, ReplaceItems(allIds, drop), "replace"))))
      else Finish(b, qs, if |toRids| > 0 then Some(Appending(fromId, reln, toRids)) else None)
  }

  /** Adding relationships from one asset, in one of the three modes. */
  function Reconcile(b: Backend, fromType: string, fromId: string, toRids: seq<string>, reln: string, mode: string,
                     replaceType: string, conditions: seq<Condition>, batch: int): Plan
  {
    var qAll := RelationsQuery(fromType, fromId, reln, batch);
    if mode == "REPLACE_SOME" then
      var existing := Hits(b.search(qAll));
      if |existing| > 0 then ReplaceSome(b, fromId, toRids, reln, replaceType, conditions, batch, qAll, existing)
      else Finish(b, [qAll], if |toRids| > 0 then Some(Appending(fromId, reln, toRids)) else None)
    else if mode == "REPLACE_ALL" then
      Finish(b, [], Some(Update(fromId, Delta(reln, RidList(toRids), "replace"))))
    else
      Finish(b, [], if |toRids| > 0 then Some(Appending(fromId, reln, toRids)) else None)
  }

  /** A full replace sends exactly the given ids, even none (clearing the relationship);
      any other mode but a partial replace searches nothing and appends only when
      there is something to append. */
  lemma {:induction false} ReconcileSimpleModes(b: Backend, fromType: string, fromId: string, toRids: seq<string>, reln: string, mode: string,
                             replaceType: string, conditions: seq<Condition>, batch: int)
    requires mode != "REPLACE_SOME"
    ensures var p := Reconcile(b, fromType, fromId, toRids, reln, mode, replaceType, conditions, batch);
      && p.queries == []
      && (mode == "REPLACE_ALL" ==> p.update == Some(Update(fromId, Delta(reln, RidList(toRids), "replace"))))
      && (mode != "REPLACE_ALL" ==> (p.update.Some? <==> |toRids| > 0))
      && (mode != "REPLACE_ALL" && p.update.Some? ==> p.update.value.value.mode == "append")
      && (p.update.Some? ==> p.reply == Ok(b.update(p.update.value)))
      && (p.update.None? ==> p.reply == Ok(NothingToAdd))
  {
  }

  /** A partial replace first searches the existing relations. It then either
      replaces them with a subset of the existing ids (those not matched for
      replacement), or appends the given ids, or does nothing; it only ever sends
      a replace when some existing relation matched. */
  lemma {:induction false} ReconcileReplaceSome(b: Backend, fromType: string, fromId: string, toRids: seq<string>, reln: string,
                                                replaceType: string, conditions: seq<Condition>, batch: int)
    ensures var p := Reconcile(b, fromType, fromId, toRids, reln, "REPLACE_SOME", replaceType, conditions, batch);
      var existing := Hits(b.search(RelationsQuery(fromType, fromId, reln, batch)));
      && 1 <= |p.queries| <= 2
      && p.queries[0] == RelationsQuery(fromType, fromId, reln, batch)
      && (p.update.Some? && p.update.value.value.mode == "replace" ==>
            && (forall x :: x in p.update.value.value.items.ridSet ==> exists i :: 0 <= i < |existing| && existing[i].id == Some(x))
            && |p.queries| == 2
            && (exists i :: 0 <= i < |existing| && existing[i].typ == replaceType))
      && (p.update.Some? && p.update.value.value.mode != "replace" ==> p.update == Some(Appending(fromId, reln, toRids)) && |toRids| > 0)
      && (existing == [] ==> (p.update.Some? <==> |toRids| > 0))
      && (existing == [] && p.update.Some? ==> p.update == Some(Appending(fromId, reln, toRids)))
      && (p.update.Some? ==> p.reply == Ok(b.update(p.update.value)))
    ensures var qAll := RelationsQuery(fromType, fromId, reln, batch);
      var existing := Hits(b.search(qAll));
      var p := Reconcile(b, fromType, fromId, toRids, reln, "REPLACE_SOME", replaceType, conditions, batch);
      existing != [] ==> p == ReplaceSome(b, fromId, toRids, reln, replaceType, conditions, batch, qAll, existing)
  {
    var qAll := RelationsQuery(fromType, fromId, reln, batch);
    var existing := Hits(b.search(qAll));
    if |existing| > 0 {
      ReplaceSomeShape(b, fromId, toRids, reln, replaceType, conditions, batch, qAll, existing);
    }
  }

  /** The ids matched for replacement: the hits of the replacement search, which
      runs only when every existing relation has an `_id` and some has the
      replace type. */
  function ReplacementHits(b: Backend, replaceType: string, conditions: seq<Condition>, batch: int, existing: seq<Asset>): seq<Asset>
  {
    if Rids(existing).None? then []
    else
      var replacements := RidsOfType(existing, replaceType);
      if |replacements| > 0 then Hits(b.search(ReplaceQuery(replaceType, conditions, replacements, batch))) else []
  }

  /** Which update a partial replace sends, case by case: when the replacement
      search hits, it replaces the relationship with exactly the existing ids
      minus the hits (the given ids are not added); when it does not, it appends
      the given ids, or sends nothing when there are none; a relation or hit
      without `_id` is the KeyError. */
  lemma {:induction false} ReplaceSomeOutcome(b: Backend, fromId: string, toRids: seq<string>, reln: string, replaceType: string,
                                              conditions: seq<Condition>, batch: int, qAll: Query, existing: seq<Asset>)
    ensures var p := ReplaceSome(b, fromId, toRids, reln, replaceType, conditions, batch, qAll, existing);
      var hits := ReplacementHits(b, replaceType, conditions, batch, existing);
      && (Rids(existing).None? ==> p.update.None? && p.reply == Err("KeyError: _id"))
      && (Rids(existing).Some? && |hits| > 0 && Rids(hits).None? ==> p.update.None? && p.reply == Err("KeyError: _id"))
      && (Rids(existing).Some? && |hits| > 0 && Rids(hits).Some? ==>
            p.update == Some(Update(fromId, Delta(reln, ReplaceItems(Rids(existing).value, Rids(hits).value), "replace"))))
      && (Rids(existing).Some? && hits == [] ==>
            (p.update.Some? <==> |toRids| > 0) && (p.update.Some? ==> p.update == Some(Appending(fromId, reln, toRids))))
    ensures var p := ReplaceSome(b, fromId, toRids, reln, replaceType, conditions, batch, qAll, existing);
      var hits := ReplacementHits(b, replaceType, conditions, batch, existing);
      p.update.Some? && p.update.value.value.mode == "replace" ==>
        forall x :: x in p.update.value.value.items.ridSet <==>
          (exists i :: 0 <= i < |existing| && existing[i].id == Some(x)) && (forall j :: 0 <= j < |hits| ==> hits[j].id != Some(x))
  {
    var p := ReplaceSome(b, fromId, toRids, reln, replaceType, conditions, batch, qAll, existing);
    var hits := ReplacementHits(b, replaceType, conditions, batch, existing);
    if p.update.Some? && p.update.value.value.mode == "replace" {
      var allIds, drop := Rids(existing).value, Rids(hits).value;
      forall x
        ensures x in p.update.value.value.items.ridSet <==>
          (exists i :: 0 <= i < |existing| && existing[i].id == Some(x)) && (forall j :: 0 <= j < |hits| ==> hits[j].id != Some(x))
      {
        if x in allIds {
          var i :| 0 <= i < |allIds| && allIds[i] == x;
          assert existing[i].id == Some(x);
        }
        if x in drop {
          var j :| 0 <= j < |drop| && drop[j] == x;
          assert hits[j].id == Some(x);
        }
      }
    }
  }

  /** The partial replace once some relations exist. */
  lemma {:induction false} ReplaceSomeShape(b: Backend, fromId: string, toRids: seq<string>, reln: string, replaceType: string,
                                            conditions: seq<Condition>, batch: int, qAll: Query, existing: seq<Asset>)
    ensures var p := ReplaceSome(b, fromId, toRids, reln, replaceType, conditions, batch, qAll, existing);
      && 1 <= |p.queries| <= 2
      && p.queries[0] == qAll
      && (p.update.Some? && p.update.value.value.mode == "replace" ==>
            && (forall x :: x in p.update.value.value.items.ridSet ==> exists i :: 0 <= i < |existing| && existing[i].id == Some(x))
            && |p.queries| == 2
            && (exists i :: 0 <= i < |existing| && existing[i].typ == replaceType))
      && (p.update.Some? && p.update.value.value.mode != "replace" ==> p.update == Some(Appending(fromId, reln, toRids)) && |toRids| > 0)
      && (p.update.Some? ==> p.reply == Ok(b.update(p.update.value)))
  {
    match Rids(existing)
    case None =>
    case Some(allIds) =>
      var replacements := RidsOfType(existing, replaceType);
      if |replacements| > 0 {
        var x := replacements[0];
        assert x in replacements;
      }
  }
}
