/** The catalog REST client: a session over the backend that logs every search
    and update it sends and keeps per-type caches of contexts, identities and
    property maps. */
module IgcClient {
  import opened Wrappers
  import opened Text
  import opened Lists
  import opened RestModel
  import opened IgcRest

  /** What a counterpart lookup yields: from the identity cache, one asset or
      nothing (`""`); otherwise the list of matches (workflow drafts first). */
  datatype Mapped = FromCache(asset: Option<Asset>) | Matches(assets: seq<Asset>)

  /** The number of one-off lookups made so far for a type. */
  function Count(counters: map<string, nat>, assetType: string): nat
  {
    if assetType in counters then counters[assetType] else 0
  }

  function CachedContext(cache: map<string, seq<CtxEntry>>, rid: string): Option<seq<CtxEntry>>
  {
    if rid in cache then Some(cache[rid]) else None
  }

  function CachedAsset(cache: map<string, Asset>, identity: string): Option<Asset>
  {
    if identity in cache then Some(cache[identity]) else None
  }

  /** What `getPropertyMap` answers straight from the backend. */
  function FreshPropertyMap(info: Option<TypeInfo>, assetType: string): (string, map<string, string>)
  {
    match info
    case None => (assetType, map[])
    case Some(ti) => (ti.name, PropertyMapOf(ti.editProperties))
  }

  /** The client's context-lookup state: the one-off lookup counter and the
      context cache of each type. */
  datatype CtxState = CtxState(counters: map<string, nat>, cache: map<string, map<string, seq<CtxEntry>>>)

  /** What a context lookup of asset `rid` of a type answers from state `s`,
      and the state it leaves: a cached type answers from its cache; otherwise
      the lookup is counted, and past `limit` lookups (with caching on) every
      asset of the type is fetched into the cache and the lookup is made again,
      while below it a one-off search by id answers. */
  function ContextLookup(backend: Backend, s: CtxState, rid: string, assetType: string, batch: int, limit: int, cache: bool)
    : (r: (Result<Option<seq<CtxEntry>>>, CtxState))
    ensures r.0.Err? ==> r.0 == Err("KeyError: _id")
    decreases if cache && assetType in s.cache then 0 else 1
  {
    if cache && assetType in s.cache then (Ok(CachedContext(s.cache[assetType], rid)), s)
    else
      var counters := s.counters[assetType := Count(s.counters, assetType) + 1];
      if cache && Count(s.counters, assetType) + 1 > limit then
        var index := IndexContexts(Hits(backend.search(BulkQuery(assetType, batch))));
        if index.Err? then (Err("KeyError: _id"), CtxState(counters, s.cache))
        else ContextLookup(backend, CtxState(counters, s.cache[assetType := index.value]), rid, assetType, batch, limit, cache)
      else (Ok(OneOffContext(backend.search(IdQuery(rid, assetType)))), CtxState(counters, s.cache))
  }

  /** The bulk loop of `getContextForItem` (lines 186-190): each asset's
      context stored under its `_id`, a later asset overwriting an earlier one
      with the same id; an asset without `_id` raises. */
  method IndexBulk(items: seq<Asset>) returns (r: Result<map<string, seq<CtxEntry>>>)
    ensures r == IndexContexts(items)
  {
    var index: map<string, seq<CtxEntry>> := map[];
    for i := 0 to |items|
      invariant IndexContexts(items[..i]) == Ok(index)
    {
      assert items[..i + 1][..i] == items[..i];
      if items[i].id.None? {
        return Err("KeyError: _id");
      }
      index := index[items[i].id.value := items[i].context];
    }
    assert items[..|items|] == items;
    return Ok(index);
  }

  class RestIGC {
    const backend: Backend
    var ctxForTypeCounters: map<string, nat>
    var ctxCacheByRID: map<string, map<string, seq<CtxEntry>>>
    var ctxCacheByIdentity: map<string, map<string, Asset>>
    var propertyMapCache: map<string, map<string, string>>
    var assetTypeNameCache: map<string, string>
    /** The searches sent, in order (the module result's `queries`). */
    var queries: seq<Query>
    /** The updates sent, in order (the module result's `updates`). */
    var updates: seq<Update>

    constructor (backend: Backend)
      ensures this.backend == backend
      ensures ctxForTypeCounters == map[] && ctxCacheByRID == map[] && ctxCacheByIdentity == map[]
      ensures propertyMapCache == map[] && assetTypeNameCache == map[]
      ensures queries == [] && updates == []
    {
      this.backend := backend;
      ctxForTypeCounters := map[];
      ctxCacheByRID := map[];
      ctxCacheByIdentity := map[];
      propertyMapCache := map[];
      assetTypeNameCache := map[];
      queries := [];
      updates := [];
    }

    /** Every cached property map is the one the backend gives for its type. */
    predicate PropertyCacheSound()
      reads this
    {
      && propertyMapCache.Keys == assetTypeNameCache.Keys
      && forall t :: t in propertyMapCache ==>
           backend.typeInfo(t).Some? && (assetTypeNameCache[t], propertyMapCache[t]) == FreshPropertyMap(backend.typeInfo(t), t)
    }

    /** A search that returns the first page only. */
    method SearchFirst(q: Query) returns (r: SearchOutcome)
      modifies this`queries
      ensures queries == old(queries) + [q]
      ensures r == backend.search(q)
    {
      queries := queries + [q];
      r := backend.search(q);
    }

    /** A search that follows every `next` link; `None` for a non-200 answer. */
    method Search(q: Query) returns (r: Option<seq<Asset>>)
      modifies this`queries
      ensures queries == old(queries) + [q]
      ensures r == Collect(backend.search(q))
      ensures r.Some? ==> backend.search(q).items <= r.value
    {
      queries := queries + [q];
      var answer := backend.search(q);
      if answer.SearchFailed? {
        return None;
      }
      r := Some(AllPages(answer.items, answer.more));
    }

    /** The workflow is enabled when a draft-mode probe answers with at least one asset. */
    method IsWorkflowEnabled() returns (enabled: bool)
      modifies this`queries
      ensures queries == old(queries) + [WorkflowCheck]
      ensures enabled <==> backend.search(WorkflowCheck).Answered? && backend.search(WorkflowCheck).numTotal > 0
    {
      var first := SearchFirst(WorkflowCheck);
      enabled := first.Answered? && first.numTotal > 0;
    }

    /** Logs the update, then sends it. */
    method Update(rid: string, value: Delta) returns (r: Reply)
      modifies this`updates
      ensures updates == old(updates) + [RestModel.Update(rid, value)]
      ensures r == backend.update(RestModel.Update(rid, value))
    {
      var u := RestModel.Update(rid, value);
      updates := updates + [u];
      r := backend.update(u);
    }

    /** Posts a workflow action (its name lower-cased); success means a 200 answer. */
    method TakeWorkflowAction(rids: seq<string>, action: string, comment: string) returns (ok: bool)
      ensures ok == backend.workflowAction(rids, Lower(action), comment)
    {
      ok := backend.workflowAction(rids, Lower(action), comment);
    }

    /** The display name and property map of a type, from the cache when both
        caches hold the type; a non-200 answer yields the type itself and no
        properties and is not cached. Caching never changes the answer. */
    method GetPropertyMap(assetType: string) returns (typeName: string, mapping: map<string, string>)
      modifies this`propertyMapCache, this`assetTypeNameCache
      ensures assetType in old(propertyMapCache) && assetType in old(assetTypeNameCache) ==>
        && typeName == old(assetTypeNameCache)[assetType] && mapping == old(propertyMapCache)[assetType]
        && propertyMapCache == old(propertyMapCache) && assetTypeNameCache == old(assetTypeNameCache)
      ensures !(assetType in old(propertyMapCache) && assetType in old(assetTypeNameCache)) ==>
        && (typeName, mapping) == FreshPropertyMap(backend.typeInfo(assetType), assetType)
        && (backend.typeInfo(assetType).None? ==>
              propertyMapCache == old(propertyMapCache) && assetTypeNameCache == old(assetTypeNameCache))
        && (backend.typeInfo(assetType).Some? ==>
              && propertyMapCache == old(propertyMapCache)[assetType := mapping]
              && assetTypeNameCache == old(assetTypeNameCache)[assetType := typeName])
      ensures old(PropertyCacheSound()) ==>
        PropertyCacheSound() && (typeName, mapping) == FreshPropertyMap(backend.typeInfo(assetType), assetType)
    {
      if assetType in propertyMapCache && assetType in assetTypeNameCache {
        return assetTypeNameCache[assetType], propertyMapCache[assetType];
      }
      var info := backend.typeInfo(assetType);
      if info.None? {
        return assetType, map[];
      }
      typeName := info.value.name;
      assetTypeNameCache := assetTypeNameCache[assetType := typeName];
      var props := info.value.editProperties;
      mapping := map[];
      for i := 0 to |props|
        invariant mapping == PropertyMapOf(props[..i])
      {
        assert props[..i + 1][..i] == props[..i];
        mapping := mapping[props[i].0 := props[i].1];
      }
      assert props[..|props|] == props;
      propertyMapCache := propertyMapCache[assetType := mapping];
    }

    /** `_getIdentity`: the context names and the name, joined by `::`. */
    method GetIdentity(ctx: seq<CtxEntry>, name: string) returns (identity: string)
      ensures identity == Identity(Names(ctx), name)
    {
      identity := "";
      for i := 0 to |ctx|
        invariant identity == IdentityPrefix(Names(ctx)[..i])
      {
        assert Names(ctx)[..i + 1] == Names(ctx)[..i] + [ctx[i].name];
        IdentityPrefixSnoc(Names(ctx)[..i], ctx[i].name);
        identity := identity + ctx[i].name + "::";
      }
      assert Names(ctx)[..|ctx|] == Names(ctx);
      identity := identity + name;
    }

    /** The context of the asset `rid` of a type. Once a type has a context cache,
        the cache answers (nothing when the id is absent). Otherwise the lookup is
        counted; past `limit` lookups of a type (with caching on) every asset of
        the type is fetched into the cache, which then answers; otherwise a
        one-off search by id answers. */
    method GetContextForItem(rid: string, assetType: string, batch: int, limit: int, cache: bool)
      returns (r: Result<Option<seq<CtxEntry>>>)
      modifies this`ctxForTypeCounters, this`ctxCacheByRID, this`queries
      decreases if cache && assetType in ctxCacheByRID then 0 else 1
      ensures cache && assetType in old(ctxCacheByRID) ==>
        && r == Ok(CachedContext(old(ctxCacheByRID)[assetType], rid))
        && ctxForTypeCounters == old(ctxForTypeCounters) && ctxCacheByRID == old(ctxCacheByRID) && queries == old(queries)
      ensures !(cache && assetType in old(ctxCacheByRID)) ==>
        ctxForTypeCounters == old(ctxForTypeCounters)[assetType := Count(old(ctxForTypeCounters), assetType) + 1]
      ensures !(cache && assetType in old(ctxCacheByRID)) && cache && Count(old(ctxForTypeCounters), assetType) + 1 > limit ==>
        && queries == old(queries) + [BulkQuery(assetType, batch)]
        && var index := IndexContexts(Hits(backend.search(BulkQuery(assetType, batch))));
           && (index.Err? ==> r == Err("KeyError: _id") && ctxCacheByRID == old(ctxCacheByRID))
           && (index.Ok? ==> ctxCacheByRID == old(ctxCacheByRID)[assetType := index.value]
                             && r == Ok(CachedContext(index.value, rid)))
      ensures !(cache && assetType in old(ctxCacheByRID)) && !(cache && Count(old(ctxForTypeCounters), assetType) + 1 > limit) ==>
        && queries == old(queries) + [IdQuery(rid, assetType)]
        && ctxCacheByRID == old(ctxCacheByRID)
        && r == Ok(OneOffContext(backend.search(IdQuery(rid, assetType))))
      ensures (r, CtxState(ctxForTypeCounters, ctxCacheByRID))
        == ContextLookup(backend, CtxState(old(ctxForTypeCounters), old(ctxCacheByRID)), rid, assetType, batch, limit, cache)
    {
      if cache && assetType in ctxCacheByRID {
        return Ok(CachedContext(ctxCacheByRID[assetType], rid));
      }
      ctxForTypeCounters := ctxForTypeCounters[assetType := Count(ctxForTypeCounters, assetType) + 1];
      if cache && ctxForTypeCounters[assetType] > limit {
        var all := Search(BulkQuery(assetType, batch));
        var items := if all.Some? then all.value else [];
        var index := IndexBulk(items);
        if index.Err? {
          return Err("KeyError: _id");
        }
        ctxCacheByRID := ctxCacheByRID[assetType := index.value];
        r := GetContextForItem(rid, assetType, batch, limit, cache);
      } else {
        var answer := SearchFirst(IdQuery(rid, assetType));
        if answer.Answered? && |answer.items| == 1 {
          r := Ok(Some(answer.items[0].context));
        } else if answer.Answered? && |answer.items| > 1 {
          r := Ok(Some(answer.items[0].context));
        } else {
          r := Ok(None);
        }
      }
    }

    /** One context entry of the walk: a folder extends the folder path; any other
        entry is renamed, put in front of the mapped context, and (unless its
        search name is empty or the path reaches through a physical data model)
        adds a condition on its dotted path. */
    method VisitEntry(w: Walk, idx: nat, e: CtxEntry, assetType: string, mapper: Mapper) returns (r: Result<Walk>)
      ensures r == WalkStep(w, idx, e, assetType, mapper)
    {
      if e.typ == FolderType {
        return Ok(w.(folderPath := e.name + "/" + w.folderPath));
      }
      var value := mapper(e.typ, "name", e.name);
      var mappedCtx := Insert(w.mapped, 0, CtxEntry(e.typ, value, None, None));
      assert mappedCtx == [CtxEntry(e.typ, value, None, None)] + w.mapped;
      var preHostPath := w.preHostPath;
      if e.typ == "host_(engine)" && StartsWith(assetType, "data_file") {
        preHostPath := w.ctxPath;
      }
      var param := CtxQueryParamName(assetType, e.typ);
      if param.Err? {
        return Err(param.msg);
      }
      var ctxPath := w.ctxPath;
      if idx == 0 {
        ctxPath := param.value;
      } else {
        ctxPath := ctxPath + "." + param.value;
      }
      var conds := w.conds;
      if param.value != "" && !Contains(ctxPath, PdmPath) {
        conds := conds + [(ctxPath, value)];
      }
      r := Ok(Walk(mappedCtx, ctxPath, w.folderPath, preHostPath, conds));
    }

    /** The visit of entry `k`, once the entries behind it have been walked. */
    method WalkTurn(ctx: seq<CtxEntry>, k: nat, w: Walk, assetType: string, mapper: Mapper) returns (next: Result<Walk>)
      requires k < |ctx| && WalkFrom(ctx, k + 1, assetType, mapper) == Ok(w)
      ensures next == WalkFrom(ctx, k, assetType, mapper)
    {
      WalkFromStep(ctx, k, w, assetType, mapper);
      next := VisitEntry(w, |ctx| - 1 - k, ctx[k], assetType, mapper);
    }

    /** The walk over an asset's context, innermost entry first. */
    method WalkContext(ctx: seq<CtxEntry>, assetType: string, mapper: Mapper) returns (r: Result<Walk>)
      ensures r == WalkFrom(ctx, 0, assetType, mapper)
    {
      var w := Walk([], "", "", "", []);
      var k: nat := |ctx|;
      while k > 0
        invariant k <= |ctx| && WalkFrom(ctx, k, assetType, mapper) == Ok(w)
      {
        var next := WalkTurn(ctx, k - 1, w, assetType, mapper);
        if next.Err? {
          WalkErrSticks(ctx, 0, k - 1, assetType, mapper);
          return Err(next.msg);
        }
        w := next.value;
        k := k - 1;
      }
      r := Ok(w);
    }

    /** `for c in components: ctx.insert(1, folder c)`. */
    method InsertFolders(ctx: seq<CtxEntry>, components: seq<string>) returns (r: seq<CtxEntry>)
      ensures r == InsertEach(ctx, FolderEntries(components))
    {
      r := ctx;
      for j := 0 to |components|
        invariant r == InsertEach(ctx, FolderEntries(components)[..j])
      {
        assert FolderEntries(components)[..j + 1][..j] == FolderEntries(components)[..j];
        r := Insert(r, 1, CtxEntry(FolderType, components[j], None, None));
      }
      assert FolderEntries(components)[..|components|] == FolderEntries(components);
    }

    /** The counterpart search and identity of an asset. */
    method BuildLookup(item: Asset, mapper: Mapper) returns (r: Result<Lookup>)
      ensures r == MappedLookup(item, mapper)
    {
      var renamed := mapper(item.typ, "name", item.name);
      var walk := WalkContext(item.context, item.typ, mapper);
      if walk.Err? {
        return Err(walk.msg);
      }
      var w := walk.value;
      var conditions := [NameCondition(renamed)] + CondsOf(w.conds);
      var mappedCtx := w.mapped;
      if w.folderPath != "" {
        var mappedPath := mapper("data_file", "path", StripEnds(w.folderPath));
        conditions := conditions + [Compare(w.preHostPath + ".path", "=", VStr(mappedPath))];
        mappedCtx := InsertFolders(mappedCtx, Split(mappedPath, '/'));
      }
      var q := Query(["name"], [item.typ], Some(Where(conditions, "and")), 2, None);
      var identity := GetIdentity(mappedCtx, renamed);
      r := Ok(Lookup(q, identity, mappedCtx));
    }

    /** The identity cache of a type: the first asset of each identity. */
    method IndexIdentities(items: seq<Asset>) returns (index: map<string, Asset>)
      ensures index == IndexByIdentity(items)
    {
      index := map[];
      for i := 0 to |items|
        invariant index == IndexByIdentity(items[..i])
      {
        assert items[..i + 1][..i] == items[..i];
        var assetIdentity := GetIdentity(items[i].context, items[i].name);
        if assetIdentity !in index {
          index := index[assetIdentity := items[i]];
        }
      }
      assert items[..|items|] == items;
    }

    /** The bulk branch of a counterpart lookup: every asset of the type goes into
        the identity cache (the first of each identity), after which the lookup
        fails -- on the draft-mode query for workflow types, on the never-created
        draft-mode cache otherwise. */
    method FillIdentityCache(assetType: string, batch: int, workflow: bool) returns (r: Result<Mapped>)
      modifies this`queries, this`ctxCacheByIdentity
      ensures r.Err?
      ensures queries == old(queries) + [BulkQuery(assetType, batch)]
      ensures ctxCacheByIdentity == old(ctxCacheByIdentity)[assetType := IndexByIdentity(Hits(backend.search(BulkQuery(assetType, batch))))]
    {
      var all := Search(BulkQuery(assetType, batch));
      var items := if all.Some? then all.value else [];
      var index := IndexIdentities(items);
      ctxCacheByIdentity := ctxCacheByIdentity[assetType := index];
      if workflow && IsWorkflowType(assetType) {
        // the draft-mode copy of the bulk query has no `where` to extend
        return Err("KeyError: 'where'");
      }
      // the draft-mode identity cache is never created
      return Err("AttributeError: ctxCacheByIdentityDev");
    }

    /** The one-off counterpart search: the draft-mode matches (when `dev`) followed
        by the published matches. */
    method SearchCounterparts(q: Query, dev: bool) returns (matches: seq<Asset>)
      requires q.where.Some?
      modifies this`queries
      ensures dev ==> queries == old(queries) + [DevQuery(q), q]
      ensures !dev ==> queries == old(queries) + [q]
      ensures matches == (if dev then Hits(backend.search(DevQuery(q))) else []) + Hits(backend.search(q))
    {
      matches := [];
      if dev {
        var devAnswer := Search(DevQuery(q));
        var resDev := if devAnswer.Some? then devAnswer.value else [];
        assert resDev == Hits(backend.search(DevQuery(q)));
        if |resDev| == 1 {
          matches := matches + [resDev[0]];
          assert matches == resDev;
        } else if |resDev| > 1 {
          matches := resDev;
        }
      }
      ghost var early := matches;
      assert early == if dev then Hits(backend.search(DevQuery(q))) else [];
      var answer := Search(q);
      var resSearch := if answer.Some? then answer.value else [];
      assert resSearch == Hits(backend.search(q));
      if |resSearch| == 1 {
        assert [resSearch[0]] == resSearch;
        matches := matches + [resSearch[0]];
      } else if |resSearch| > 1 {
        matches := matches + resSearch;
      } else {
        assert matches == early + resSearch;
      }
    }

    /** Finds the counterpart of `item` in this environment: renames it and its
        context through `mapper`, builds a search on its name and translated
        context (and folder path), and answers from the identity cache when the
        type has one. Otherwise the lookup is counted; past `limit` lookups (with
        caching on) every asset of the type is fetched into the identity cache and
        the call fails; otherwise the search (preceded by a draft-mode search for
        workflow types when `workflow` is set) answers with all matches. */
    method GetMappedItem(item: Asset, mapper: Mapper, workflow: bool, batch: int, limit: int, cache: bool)
      returns (r: Result<Mapped>)
      modifies this`ctxForTypeCounters, this`ctxCacheByIdentity, this`queries
      ensures MappedLookup(item, mapper).Err? ==>
        && r.Err?
        && ctxForTypeCounters == old(ctxForTypeCounters) && ctxCacheByIdentity == old(ctxCacheByIdentity) && queries == old(queries)
      ensures MappedLookup(item, mapper).Ok? && cache && item.typ in old(ctxCacheByIdentity) ==>
        && r == Ok(FromCache(CachedAsset(old(ctxCacheByIdentity)[item.typ], MappedLookup(item, mapper).value.identity)))
        && ctxForTypeCounters == old(ctxForTypeCounters) && ctxCacheByIdentity == old(ctxCacheByIdentity) && queries == old(queries)
      ensures MappedLookup(item, mapper).Ok? && !(cache && item.typ in old(ctxCacheByIdentity)) ==>
        ctxForTypeCounters == old(ctxForTypeCounters)[item.typ := Count(old(ctxForTypeCounters), item.typ) + 1]
      ensures MappedLookup(item, mapper).Ok? && !(cache && item.typ in old(ctxCacheByIdentity))
              && cache && Count(old(ctxForTypeCounters), item.typ) + 1 > limit ==>
        && r.Err?
        && queries == old(queries) + [BulkQuery(item.typ, batch)]
        && ctxCacheByIdentity == old(ctxCacheByIdentity)[item.typ := IndexByIdentity(Hits(backend.search(BulkQuery(item.typ, batch))))]
      ensures MappedLookup(item, mapper).Ok? && !(cache && item.typ in old(ctxCacheByIdentity))
              && !(cache && Count(old(ctxForTypeCounters), item.typ) + 1 > limit) ==>
        var q := MappedLookup(item, mapper).value.query;
        var dev := workflow && IsWorkflowType(item.typ);
        && ctxCacheByIdentity == old(ctxCacheByIdentity)
        && queries == old(queries) + (if dev then [DevQuery(q), q] else [q])
        && r == Ok(Matches((if dev then Hits(backend.search(DevQuery(q))) else []) + Hits(backend.search(q))))
    {
      var assetType := item.typ;
      var lookup := BuildLookup(item, mapper);
      if lookup.Err? {
        return Err(lookup.msg);
      }
      var q, identity := lookup.value.query, lookup.value.identity;
      if cache && assetType in ctxCacheByIdentity {
        return Ok(FromCache(CachedAsset(ctxCacheByIdentity[assetType], identity)));
      }
      ctxForTypeCounters := ctxForTypeCounters[assetType := Count(ctxForTypeCounters, assetType) + 1];
      if cache && ctxForTypeCounters[assetType] > limit {
        r := FillIdentityCache(assetType, batch, workflow);
        return;
      }
      var matches := SearchCounterparts(q, workflow && IsWorkflowType(assetType));
      r := Ok(Matches(matches));
    }

    /** A partial replace once the existing relations are known: the ids of the
        existing relations of `replaceType` are searched under `conditions`;
        matches are dropped by a replace update, else `toRids` are appended. */
    method ReplaceSomeOf(fromId: string, toRids: seq<string>, reln: string, replaceType: string,
                         conditions: seq<Condition>, batch: int, qAll: Query, existing: seq<Asset>)
      returns (r: Result<Reply>)
      modifies this`queries, this`updates
      ensures var p := ReplaceSome(backend, fromId, toRids, reln, replaceType, conditions, batch, qAll, existing);
        && |p.queries| >= 1 && queries == old(queries) + p.queries[1..]
        && updates == old(updates) + (if p.update.Some? then [p.update.value] else [])
        && r == p.reply
    {
      var replacements: seq<string> := [];
      var allIds: seq<string> := [];
      for k := 0 to |existing|
        invariant Rids(existing[..k]) == Some(allIds)
        invariant replacements == RidsOfType(existing[..k], replaceType)
      {
        assert existing[..k + 1][..k] == existing[..k];
        if existing[k].id.None? {
          return Err("KeyError: _id");
        }
        if replaceType == existing[k].typ {
          replacements := replacements + [existing[k].id.value];
        }
        allIds := allIds + [existing[k].id.value];
      }
      assert existing[..|existing|] == existing;
      var hits: seq<Asset> := [];
      if |replacements| > 0 {
        var found := Search(ReplaceQuery(replaceType, conditions, replacements, batch));
        hits := if found.Some? then found.value else [];
      }
      if |hits| > 0 {
        var drop := Rids(hits);
        if drop.None? {
          return Err("KeyError: _id");
        }
        var reply := Update(fromId, Delta(reln, ReplaceItems(allIds, drop.value), "replace"));
        r := Ok(reply);
      } else if |toRids| > 0 {
        var reply := Update(fromId, Delta(reln, RidList(toRids), "append"));
        r := Ok(reply);
      } else {
        r := Ok(NothingToAdd);
      }
    }

    /** Adds relationships from `fromAsset` along `reln`: appends `toRids`, or
        replaces the relationship with them, or (partial replace) drops the
        related assets of `replaceType` that match `conditions`. */
    method AddRelationshipsToAsset(fromAsset: Asset, toRids: seq<string>, reln: string, mode: string,
                                   replaceType: string, conditions: seq<Condition>, batch: int)
      returns (r: Result<Reply>)
      requires fromAsset.id.Some?
      modifies this`queries, this`updates
      ensures var p := Reconcile(backend, fromAsset.typ, fromAsset.id.value, toRids, reln, mode, replaceType, conditions, batch);
        && queries == old(queries) + p.queries
        && updates == old(updates) + (if p.update.Some? then [p.update.value] else [])
        && r == p.reply
    {
      var fromId := fromAsset.id.value;
      var qAll := RelationsQuery(fromAsset.typ, fromId, reln, batch);
      if mode == "REPLACE_SOME" {
        var all := Search(qAll);
        if all.Some? && |all.value| > 0 {
          r := ReplaceSomeOf(fromId, toRids, reln, replaceType, conditions, batch, qAll, all.value);
        } else if |toRids| > 0 {
          var reply := Update(fromId, Delta(reln, RidList(toRids), "append"));
          r := Ok(reply);
        } else {
          r := Ok(NothingToAdd);
        }
      } else if mode == "REPLACE_ALL" {
        var reply := Update(fromId, Delta(reln, RidList(toRids), "replace"));
        r := Ok(reply);
      } else if |toRids| > 0 {
        var reply := Update(fromId, Delta(reln, RidList(toRids), if mode == "REPLACE_ALL" then "replace" else "append"));
        r := Ok(reply);
      } else {
        r := Ok(NothingToAdd);
      }
    }
  }
}
