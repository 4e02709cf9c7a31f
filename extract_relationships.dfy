/** `igc_extract_relationships`: search the assets of one type with the
    requested relationship properties, then write each asset out with its
    relations fetched in full, limited to the wanted types, and given their own
    context; `_id` and `_url` are stripped throughout. */
module ExtractRelationships {
  import opened Wrappers
  import opened RestModel
  import opened IgcRest
  import opened IgcClient

  // ---------------------------------------------------------------------------
  // The search request

  /** The request the module sends: the relationship properties of the type,
      filtered by the given conditions followed by the time window. */
  function RelationQuery(relnprops: seq<string>, assetType: string, batch: int, conditions: seq<Condition>,
                         fromTime: int, toTime: Option<int>): Query
  {
    Query(relnprops, [assetType],
          if |conditions| > 0 || fromTime != -1
          then Some(Where(if fromTime != -1 then conditions + [Between("modified_on", fromTime, toTime)] else conditions, "and"))
          else None,
          batch, None)
  }

  /** The request (lines 253-277): the relationship properties of the type,
      with a `where` clause only when there are conditions or a start time; the
      time window is a `between` on `modified_on` after the given conditions. */
  method BuildQuery(relnprops: seq<string>, assetType: string, batch: int, conditions: seq<Condition>,
                    fromTime: int, toTime: Option<int>) returns (q: Query)
    ensures q == RelationQuery(relnprops, assetType, batch, conditions, fromTime, toTime)
    ensures q.properties == relnprops && q.types == [assetType] && q.pageSize == batch && q.workflowMode == None
    ensures q.where.Some? <==> |conditions| > 0 || fromTime != -1
    ensures q.where.Some? ==> q.where.value.operator == "and"
    ensures q.where.Some? ==>
              q.where.value.conditions == conditions + (if fromTime != -1 then [Between("modified_on", fromTime, toTime)] else [])
  {
    var where: Option<Where> := None;
    if |conditions| > 0 {
      where := Some(Where(conditions, "and"));
    }
    if fromTime != -1 {
      if where.None? {
        assert conditions == [];
        where := Some(Where([], "and"));
      }
      where := Some(where.value.(conditions := where.value.conditions + [Between("modified_on", fromTime, toTime)]));
    }
    q := Query(relnprops, [assetType], where, batch, None);
  }

  // ---------------------------------------------------------------------------
  // Stripping ids

  /** `minifyItem` (lines 351-353): delete `_id` and `_url`; a missing key raises. */
  function Minify(a: Asset): (r: Result<Asset>)
  {
    if a.id.None? then Err("KeyError: _id")
    else if a.url.None? then Err("KeyError: _url")
    else Ok(a.(id := None, url := None))
  }

  /** `minifyItem` keeps everything but the two keys it deletes. */
  lemma {:induction false} MinifyExactly(a: Asset)
    ensures Minify(a).Ok? <==> a.id.Some? && a.url.Some?
    ensures Minify(a).Ok? ==> var m := Minify(a).value;
      && m.id.None? && m.url.None?
      && m.typ == a.typ && m.name == a.name && m.context == a.context && m.props == a.props
  {
  }

  predicate MinifiedEntries(ctx: seq<CtxEntry>)
  {
    forall i :: 0 <= i < |ctx| ==> ctx[i].id.None? && ctx[i].url.None?
  }

  /** Every entry of the context carries both `_id` and `_url`. */
  predicate Keyed(ctx: seq<CtxEntry>)
  {
    forall i :: 0 <= i < |ctx| ==> ctx[i].id.Some? && ctx[i].url.Some?
  }

  /** Each entry of `ctx` with its `_id` and `_url` deleted. */
  function MinifiedCopy(ctx: seq<CtxEntry>): seq<CtxEntry>
    decreases |ctx|
  {
    if ctx == [] then []
    else MinifiedCopy(ctx[..|ctx| - 1]) + [ctx[|ctx| - 1].(id := None, url := None)]
  }

  /** `minifyItem` on each context entry in turn: the first entry without
      `_id`, or else without `_url`, raises; otherwise every entry loses exactly
      those two keys. */
  function MinifiedContext(ctx: seq<CtxEntry>): (r: Result<seq<CtxEntry>>)
    ensures r.Ok? <==> Keyed(ctx)
    ensures r.Ok? ==> r.value == MinifiedCopy(ctx) && |r.value| == |ctx|
    ensures r.Ok? ==> forall i :: 0 <= i < |ctx| ==> r.value[i] == ctx[i].(id := None, url := None)
    ensures r.Err? ==> r.msg == "KeyError: _id" || r.msg == "KeyError: _url"
    decreases |ctx|
  {
    if ctx == [] then Ok([])
    else
      var init := ctx[..|ctx| - 1];
      var last := ctx[|ctx| - 1];
      assert forall i :: 0 <= i < |init| ==> init[i] == ctx[i];
      var m := MinifiedContext(init);
      if m.Err? then m
      else if last.id.None? then Err("KeyError: _id")
      else if last.url.None? then Err("KeyError: _url")
      else Ok(m.value + [last.(id := None, url := None)])
  }

  /** Once a prefix of the context fails to minify, the whole context fails
      the same way. */
  lemma {:induction false} MinifiedContextStops(ctx: seq<CtxEntry>, j: nat)
    requires j <= |ctx| && MinifiedContext(ctx[..j]).Err?
    ensures MinifiedContext(ctx) == MinifiedContext(ctx[..j])
    decreases |ctx|
  {
    if j < |ctx| {
      var init := ctx[..|ctx| - 1];
      assert init[..j] == ctx[..j];
      MinifiedContextStops(init, j);
    } else {
      assert ctx[..j] == ctx;
    }
  }

  /** `minifyItem` on each context entry. */
  method MinifyContext(ctx: seq<CtxEntry>) returns (r: Result<seq<CtxEntry>>)
    ensures r == MinifiedContext(ctx)
    ensures r.Ok? ==> |r.value| == |ctx| && MinifiedEntries(r.value)
    ensures r.Ok? ==> forall i :: 0 <= i < |ctx| ==> r.value[i].typ == ctx[i].typ && r.value[i].name == ctx[i].name
  {
    var out: seq<CtxEntry> := [];
    for i := 0 to |ctx|
      invariant MinifiedContext(ctx[..i]) == Ok(out)
    {
      assert ctx[..i + 1][..i] == ctx[..i];
      if ctx[i].id.None? {
        MinifiedContextStops(ctx, i + 1);
        return Err("KeyError: _id");
      }
      if ctx[i].url.None? {
        MinifiedContextStops(ctx, i + 1);
        return Err("KeyError: _url");
      }
      out := out + [ctx[i].(id := None, url := None)];
    }
    assert ctx[..|ctx|] == ctx;
    return Ok(out);
  }

  // ---------------------------------------------------------------------------
  // Limiting the relations

  /** A relation is written out when no limit is given or its type is listed. */
  predicate Wanted(limit: seq<string>, rel: Asset)
  {
    |limit| == 0 || rel.typ in limit
  }

  /** The relations kept, in their order. */
  function Kept(limit: seq<string>, rels: seq<Asset>): (r: seq<Asset>)
    ensures |r| <= |rels|
    decreases |rels|
  {
    if rels == [] then []
    else Kept(limit, rels[..|rels| - 1]) + (if Wanted(limit, rels[|rels| - 1]) then [rels[|rels| - 1]] else [])
  }

  /** The kept relations are exactly the wanted ones. */
  lemma {:induction false} KeptExactly(limit: seq<string>, rels: seq<Asset>)
    ensures forall x :: x in Kept(limit, rels) <==> x in rels && Wanted(limit, x)
    decreases |rels|
  {
    if rels != [] {
      var init := rels[..|rels| - 1];
      KeptExactly(limit, init);
      assert rels == init + [rels[|rels| - 1]];
    }
  }

  /** Keeping distributes over concatenation: relative order is preserved. */
  lemma {:induction false} KeptAppend(limit: seq<string>, xs: seq<Asset>, ys: seq<Asset>)
    ensures Kept(limit, xs + ys) == Kept(limit, xs) + Kept(limit, ys)
    decreases |ys|
  {
    if ys == [] {
      assert xs + ys == xs;
    } else {
      var init := ys[..|ys| - 1];
      KeptAppend(limit, xs, init);
      assert (xs + ys)[..|xs + ys| - 1] == xs + init;
    }
  }

  /** With no limit every relation is kept. */
  lemma {:induction false} KeptNoLimit(rels: seq<Asset>)
    ensures Kept([], rels) == rels
    decreases |rels|
  {
    if rels != [] {
      KeptNoLimit(rels[..|rels| - 1]);
      assert rels[..|rels| - 1] + [rels[|rels| - 1]] == rels;
    }
  }

  // ---------------------------------------------------------------------------
  // The removal as written: ascending deletion from the live list

  /** The positions marked for removal (lines 296-301), ascending. */
  function RemovalIndices(limit: seq<string>, rels: seq<Asset>): (r: seq<nat>)
    ensures forall j :: 0 <= j < |r| ==> r[j] < |rels| && !Wanted(limit, rels[r[j]])
    decreases |rels|
  {
    if rels == [] then []
    else RemovalIndices(limit, rels[..|rels| - 1]) + (if Wanted(limit, rels[|rels| - 1]) then [] else [|rels| - 1])
  }

  /** `for removal in aRemoveIndices: del lst[removal]` (lines 313-314): each
      deletion shifts what follows; an index past the end raises. */
  function DeleteAscending<T>(xs: seq<T>, idxs: seq<nat>): (r: Result<seq<T>>)
    ensures r.Ok? ==> |r.value| == |xs| - |idxs|
    decreases |idxs|
  {
    if idxs == [] then Ok(xs)
    else match DeleteAscending(xs, idxs[..|idxs| - 1])
      case Err(msg) => Err(msg)
      case Ok(cur) =>
        var i := idxs[|idxs| - 1];
        if i < |cur| then Ok(cur[..i] + cur[i + 1..]) else Err("IndexError: list assignment index out of range")
  }

  /** Two unwanted relations before a wanted one: the second deletion hits the
      shifted list, so an unwanted relation stays and the wanted one goes. */
  lemma {:induction false} DeleteAscendingKeepsWrongRelation()
    ensures var x := Asset("x", "a", [], None, None, []);
            var y := Asset("y", "b", [], None, None, []);
            var z := Asset("z", "c", [], None, None, []);
      && RemovalIndices(["z"], [x, y, z]) == [0, 1]
      && DeleteAscending([x, y, z], [0, 1]) == Ok([y])
      && Kept(["z"], [x, y, z]) == [z]
  {
    var x := Asset("x", "a", [], None, None, []);
    var y := Asset("y", "b", [], None, None, []);
    var z := Asset("z", "c", [], None, None, []);
    assert !Wanted(["z"], x) && !Wanted(["z"], y) && Wanted(["z"], z);
    TwoUnwantedFirst(["z"], x, y, z);
    DeleteFirstTwo(x, y, z);
  }

  /** Two unwanted relations at the end: the second index is past the end of
      the shortened list and the deletion raises. */
  lemma {:induction false} DeleteAscendingRaises()
    ensures var x := Asset("x", "a", [], None, None, []);
            var y := Asset("y", "b", [], None, None, []);
      && RemovalIndices(["z"], [x, y]) == [0, 1]
      && DeleteAscending([x, y], [0, 1]).Err?
  {
    var x := Asset("x", "a", [], None, None, []);
    var y := Asset("y", "b", [], None, None, []);
    assert !Wanted(["z"], x) && !Wanted(["z"], y);
    TwoUnwanted(["z"], x, y);
    DeleteTwoOfTwo(x, y);
  }

  lemma {:induction false} TwoUnwanted(limit: seq<string>, x: Asset, y: Asset)
    requires !Wanted(limit, x) && !Wanted(limit, y)
    ensures RemovalIndices(limit, [x, y]) == [0, 1]
  {
    assert [x, y][..1] == [x] && [x][..0] == [];
    assert RemovalIndices(limit, [x]) == [0];
  }

  lemma {:induction false} TwoUnwantedFirst(limit: seq<string>, x: Asset, y: Asset, z: Asset)
    requires !Wanted(limit, x) && !Wanted(limit, y) && Wanted(limit, z)
    ensures RemovalIndices(limit, [x, y, z]) == [0, 1]
    ensures Kept(limit, [x, y, z]) == [z]
  {
    assert [x, y, z][..2] == [x, y];
    TwoUnwanted(limit, x, y);
    assert [x, y][..1] == [x] && [x][..0] == [];
    assert Kept(limit, [x]) == [];
    assert Kept(limit, [x, y]) == [];
  }

  lemma {:induction false} DeleteTwoOfTwo<T>(x: T, y: T)
    ensures DeleteAscending([x, y], [0, 1]).Err?
  {
    assert [0][..0] == [] && [0, 1][..1] == [0];
    assert DeleteAscending([x, y], [0]) == Ok([y]) by {
      assert DeleteAscending([x, y], []) == Ok([x, y]);
      assert [x, y][..0] + [x, y][1..] == [y];
    }
  }

  lemma {:induction false} DeleteFirstTwo<T>(x: T, y: T, z: T)
    ensures DeleteAscending([x, y, z], [0, 1]) == Ok([y])
  {
    assert [0][..0] == [] && [0, 1][..1] == [0];
    assert DeleteAscending([x, y, z], [0]) == Ok([y, z]) by {
      assert DeleteAscending([x, y, z], []) == Ok([x, y, z]);
      assert [x, y, z][..0] + [x, y, z][1..] == [y, z];
    }
    assert [y, z][..1] + [y, z][2..] == [y];
  }

  // ---------------------------------------------------------------------------
  // Resolving the kept relations

  /** `out` is relation `rel` as written: minified, with a minified context. */
  predicate Resolved(rel: Asset, out: Asset)
  {
    && rel.id.Some? && rel.url.Some?
    && out.(context := []) == rel.(id := None, url := None, context := [])
    && MinifiedEntries(out.context)
  }

  predicate ResolvedAll(rels: seq<Asset>, outs: seq<Asset>)
  {
    |rels| == |outs| && forall i :: 0 <= i < |outs| ==> Resolved(rels[i], outs[i])
  }

  const NoContext: string := "Unable to retieve context for search result"

  /** Where a run stands: its result so far, the relations it has resolved
      (`relationship_count`), and the client's context counters and cache. */
  datatype Progress<T> = Progress(result: Result<T>, count: nat, state: CtxState)

  /** Relation `rel` once its context lookup has answered `ctx` (lines
      304-311): no context fails the run; otherwise the relation and then each
      context entry are minified, and the relation takes the minified context. */
  function Attach(rel: Asset, ctx: Result<Option<seq<CtxEntry>>>): Result<Asset>
  {
    if ctx.Err? then Err(ctx.msg)
    else if ctx.value.None? then Err(NoContext)
    else
      var m := Minify(rel);
      if m.Err? then Err(m.msg)
      else
        var c := MinifiedContext(ctx.value.value);
        if c.Err? then Err(c.msg) else Ok(m.value.(context := c.value))
  }

  /** One wanted relation (lines 303-311) from context state `s`: its `_id` is
      read first, then its context is looked up with the defaults of
      `getContextForItem` (batch 100, limit 5, caching on). */
  function ResolveStep(backend: Backend, s: CtxState, rel: Asset): (Result<Asset>, CtxState)
  {
    if rel.id.None? then (Err("KeyError: _id"), s)
    else
      var lookup := ContextLookup(backend, s, rel.id.value, rel.typ, 100, 5, true);
      (Attach(rel, lookup.0), lookup.1)
  }

  /** A relation is resolved exactly when it has `_id` and `_url`, its lookup
      answers a context, and every entry of that context has `_id` and `_url`;
      it is then written minified with the minified context the lookup
      answered. The run fails for want of a context exactly when the lookup
      answers none, and otherwise only on a missing key; a relation without
      `_id` is not looked up. */
  lemma {:induction false} ResolveStepExactly(backend: Backend, s: CtxState, rel: Asset)
    ensures var step := ResolveStep(backend, s, rel);
      && (rel.id.None? ==> step == (Err("KeyError: _id"), s))
      && (rel.id.Some? ==>
            var lookup := ContextLookup(backend, s, rel.id.value, rel.typ, 100, 5, true);
            && step.1 == lookup.1
            && (step.0.Ok? <==> rel.url.Some? && lookup.0.Ok? && lookup.0.value.Some? && Keyed(lookup.0.value.value))
            && (step.0 == Err(NoContext) <==> lookup.0 == Ok(None))
            && (step.0.Ok? ==> Resolved(rel, step.0.value) && step.0.value.context == MinifiedCopy(lookup.0.value.value)))
      && (step.0.Err? ==> step.0.msg in {NoContext, "KeyError: _id", "KeyError: _url"})
  {
    if rel.id.Some? {
      var lookup := ContextLookup(backend, s, rel.id.value, rel.typ, 100, 5, true);
      assert NoContext != "KeyError: _id" && NoContext != "KeyError: _url" by {
        assert NoContext[0] == 'U';
      }
      if lookup.0.Ok? && lookup.0.value.Some? && rel.url.Some? && Keyed(lookup.0.value.value) {
        var c := MinifiedContext(lookup.0.value.value).value;
        assert forall i :: 0 <= i < |c| ==> c[i].id.None? && c[i].url.None?;
      }
    }
  }

  /** A relation a turn resolves is written as `Resolved` says. */
  lemma {:induction false} ResolveStepResolved(backend: Backend, s: CtxState, rel: Asset)
    ensures ResolveStep(backend, s, rel).0.Ok? ==> Resolved(rel, ResolveStep(backend, s, rel).0.value)
  {
    ResolveStepExactly(backend, s, rel);
  }

  /** The loop over the kept relations (lines 298-311) from context state `s`:
      each relation in turn is resolved from the state the earlier ones left
      and counted; the first failure ends the loop. */
  function ResolveAllFrom(backend: Backend, s: CtxState, kept: seq<Asset>): Progress<seq<Asset>>
    decreases |kept|
  {
    if kept == [] then Progress(Ok([]), 0, s)
    else
      var prev := ResolveAllFrom(backend, s, kept[..|kept| - 1]);
      if prev.result.Err? then prev
      else
        var step := ResolveStep(backend, prev.state, kept[|kept| - 1]);
        if step.0.Err? then Progress(Err(step.0.msg), prev.count, step.1)
        else Progress(Ok(prev.result.value + [step.0.value]), prev.count + 1, step.1)
  }

  /** The turn of relation `kept[i]`: resolved from the state that the
      relations before it left. */
  function StepAt(backend: Backend, s: CtxState, kept: seq<Asset>, i: nat): (Result<Asset>, CtxState)
    requires i < |kept|
  {
    ResolveStep(backend, ResolveAllFrom(backend, s, kept[..i]).state, kept[i])
  }

  /** The turns of a prefix of the kept relations are theirs in the whole run. */
  lemma {:induction false} StepAtPrefix(backend: Backend, s: CtxState, kept: seq<Asset>, n: nat, i: nat)
    requires i < n <= |kept|
    ensures StepAt(backend, s, kept[..n], i) == StepAt(backend, s, kept, i)
  {
    assert kept[..n][..i] == kept[..i];
  }

  /** One more resolved relation extends the one-for-one correspondence
      between the kept relations and the relations written. */
  lemma {:induction false} ResolvedAllStep(rels: seq<Asset>, outs: seq<Asset>, rel: Asset, out: Asset)
    requires ResolvedAll(rels, outs) && Resolved(rel, out)
    ensures ResolvedAll(rels + [rel], outs + [out])
  {
    forall i | 0 <= i < |outs| + 1
      ensures Resolved((rels + [rel])[i], (outs + [out])[i])
    {
      if i < |outs| {
        assert (rels + [rel])[i] == rels[i] && (outs + [out])[i] == outs[i];
      }
    }
  }

  /** A loop that succeeds wrote, one for one and in order, each kept
      relation resolved, and counted them all. */
  lemma {:induction false} ResolveAllOk(backend: Backend, s: CtxState, kept: seq<Asset>)
    ensures var run := ResolveAllFrom(backend, s, kept);
      run.result.Ok? ==> run.count == |run.result.value| == |kept| && ResolvedAll(kept, run.result.value)
    decreases |kept|
  {
    var run := ResolveAllFrom(backend, s, kept);
    if kept != [] && run.result.Ok? {
      var n := |kept| - 1;
      var init := kept[..n];
      var prev := ResolveAllFrom(backend, s, init);
      var step := ResolveStep(backend, prev.state, kept[n]);
      assert run == Progress(Ok(prev.result.value + [step.0.value]), prev.count + 1, step.1);
      ResolveAllOk(backend, s, init);
      ResolveStepResolved(backend, prev.state, kept[n]);
      ResolvedAllStep(init, prev.result.value, kept[n], step.0.value);
      assert init + [kept[n]] == kept;
    }
  }

  /** A loop that succeeds wrote, in order, the relation each turn resolved,
      each with the context its own lookup answered. */
  lemma {:induction false} ResolveAllTurns(backend: Backend, s: CtxState, kept: seq<Asset>)
    ensures var run := ResolveAllFrom(backend, s, kept);
      run.result.Ok? ==>
        && |run.result.value| == |kept|
        && forall i :: 0 <= i < |kept| ==>
             StepAt(backend, s, kept, i).0.Ok? && run.result.value[i] == StepAt(backend, s, kept, i).0.value
    decreases |kept|
  {
    var run := ResolveAllFrom(backend, s, kept);
    if kept != [] && run.result.Ok? {
      var n := |kept| - 1;
      var init := kept[..n];
      var prev := ResolveAllFrom(backend, s, init);
      var step := ResolveStep(backend, prev.state, kept[n]);
      assert run.result.value == prev.result.value + [step.0.value];
      ResolveAllTurns(backend, s, init);
      forall i | 0 <= i < |kept|
        ensures StepAt(backend, s, kept, i).0.Ok? && run.result.value[i] == StepAt(backend, s, kept, i).0.value
      {
        if i < n {
          StepAtPrefix(backend, s, kept, n, i);
          assert run.result.value[i] == prev.result.value[i];
        } else {
          assert kept[..i] == init;
        }
      }
    }
  }

  /** A failed loop failed at the first turn that failed: the turns before it
      resolved and counted their relations, and the run ends with that turn's
      error and the state its lookup left. */
  lemma {:induction false} ResolveAllFails(backend: Backend, s: CtxState, kept: seq<Asset>)
    ensures var run := ResolveAllFrom(backend, s, kept);
      run.result.Err? ==>
        exists i :: 0 <= i < |kept| && ResolveAllFrom(backend, s, kept[..i]).result.Ok?
                    && StepAt(backend, s, kept, i).0.Err?
                    && run == Progress(Err(StepAt(backend, s, kept, i).0.msg), i, StepAt(backend, s, kept, i).1)
    decreases |kept|
  {
    var run := ResolveAllFrom(backend, s, kept);
    if kept != [] && run.result.Err? {
      var n := |kept| - 1;
      var init := kept[..n];
      var prev := ResolveAllFrom(backend, s, init);
      if prev.result.Err? {
        ResolveAllFails(backend, s, init);
        var i :| 0 <= i < n && ResolveAllFrom(backend, s, init[..i]).result.Ok?
                 && StepAt(backend, s, init, i).0.Err?
                 && prev == Progress(Err(StepAt(backend, s, init, i).0.msg), i, StepAt(backend, s, init, i).1);
        assert init[..i] == kept[..i];
        StepAtPrefix(backend, s, kept, n, i);
      } else {
        ResolveAllOk(backend, s, init);
        assert kept[..n] == init;
      }
    }
  }

  /** Once a prefix of the kept relations fails, the loop fails the same way. */
  lemma {:induction false} ResolveAllStops(backend: Backend, s: CtxState, kept: seq<Asset>, j: nat)
    requires j <= |kept| && ResolveAllFrom(backend, s, kept[..j]).result.Err?
    ensures ResolveAllFrom(backend, s, kept) == ResolveAllFrom(backend, s, kept[..j])
    decreases |kept|
  {
    if j < |kept| {
      var init := kept[..|kept| - 1];
      assert init[..j] == kept[..j];
      ResolveAllStops(backend, s, init, j);
    } else {
      assert kept[..j] == kept;
    }
  }

  /** The loop over the kept relations succeeds exactly when every turn does. */
  lemma {:induction false} ResolveAllExactly(backend: Backend, s: CtxState, kept: seq<Asset>)
    ensures ResolveAllFrom(backend, s, kept).result.Ok? <==> forall i :: 0 <= i < |kept| ==> StepAt(backend, s, kept, i).0.Ok?
  {
    ResolveAllTurns(backend, s, kept);
    ResolveAllFails(backend, s, kept);
  }

  /** One wanted relation: its context looked up, then the relation and its
      context minified, as `ResolveStep` says. */
  method ResolveOne(igc: RestIGC, rel: Asset) returns (r: Result<Asset>)
    modifies igc`ctxForTypeCounters, igc`ctxCacheByRID, igc`queries
    ensures old(igc.queries) <= igc.queries
    ensures (r, CtxState(igc.ctxForTypeCounters, igc.ctxCacheByRID))
      == ResolveStep(igc.backend, old(CtxState(igc.ctxForTypeCounters, igc.ctxCacheByRID)), rel)
  {
    if rel.id.None? {
      return Err("KeyError: _id");
    }
    var answer := igc.GetContextForItem(rel.id.value, rel.typ, 100, 5, true);
    if answer.Err? {
      return Err(answer.msg);
    }
    if answer.value.None? {
      return Err(NoContext);
    }
    var m := Minify(rel);
    if m.Err? {
      return Err(m.msg);
    }
    var mctx := MinifyContext(answer.value.value);
    if mctx.Err? {
      return Err(mctx.msg);
    }
    r := Ok(m.value.(context := mctx.value));
  }

  /** One more turn of the relation loop: relation `kept[i]` resolved from the
      state the relations before it left, extending the loop's outcome. */
  method ResolveTurn(igc: RestIGC, ghost s0: CtxState, kept: seq<Asset>, i: nat, out: seq<Asset>) returns (one: Result<Asset>)
    requires i < |kept|
    requires Progress(Ok(out), |out|, CtxState(igc.ctxForTypeCounters, igc.ctxCacheByRID)) == ResolveAllFrom(igc.backend, s0, kept[..i])
    modifies igc`ctxForTypeCounters, igc`ctxCacheByRID, igc`queries
    ensures old(igc.queries) <= igc.queries
    ensures one.Ok? ==>
      Progress(Ok(out + [one.value]), |out| + 1, CtxState(igc.ctxForTypeCounters, igc.ctxCacheByRID))
        == ResolveAllFrom(igc.backend, s0, kept[..i + 1])
    ensures one.Err? ==>
      Progress(Err(one.msg), |out|, CtxState(igc.ctxForTypeCounters, igc.ctxCacheByRID))
        == ResolveAllFrom(igc.backend, s0, kept[..i + 1])
  {
    assert kept[..i + 1][..i] == kept[..i];
    one := ResolveOne(igc, kept[i]);
  }

  /** The loop over one relationship property (lines 296-314), with the removal
      done as intended: the relations not of a wanted type are dropped, and the
      kept ones are resolved in turn as `ResolveAllFrom` says. */
  method ResolveRelations(igc: RestIGC, rels: seq<Asset>, limit: seq<string>) returns (r: Result<seq<Asset>>, count: nat)
    modifies igc`ctxForTypeCounters, igc`ctxCacheByRID, igc`queries
    ensures old(igc.queries) <= igc.queries
    ensures Progress(r, count, CtxState(igc.ctxForTypeCounters, igc.ctxCacheByRID))
      == ResolveAllFrom(igc.backend, old(CtxState(igc.ctxForTypeCounters, igc.ctxCacheByRID)), Kept(limit, rels))
    ensures r.Ok? ==> count == |r.value| && ResolvedAll(Kept(limit, rels), r.value)
  {
    var kept := Kept(limit, rels);
    ghost var s0 := CtxState(igc.ctxForTypeCounters, igc.ctxCacheByRID);
    var out: seq<Asset> := [];
    for i := 0 to |kept|
      invariant Progress(Ok(out), |out|, CtxState(igc.ctxForTypeCounters, igc.ctxCacheByRID)) == ResolveAllFrom(igc.backend, s0, kept[..i])
      invariant old(igc.queries) <= igc.queries
    {
      var one := ResolveTurn(igc, s0, kept, i, out);
      if one.Err? {
        ResolveAllStops(igc.backend, s0, kept, i + 1);
        return Err(one.msg), |out|;
      }
      out := out + [one.value];
    }
    assert kept[..|kept|] == kept;
    ResolveAllOk(igc.backend, s0, kept);
    return Ok(out), |out|;
  }

  // ---------------------------------------------------------------------------
  // One asset

  /** The relations of `p` as fetched in full, when the asset holds them as a
      paged relationship. */
  function Fetched(props: seq<Prop>, p: string): Option<seq<Asset>>
  {
    match GetProp(props, p)
    case Some(Paged(items, more)) => Some(AllPages(items, more))
    case _ => None
  }

  /** The relations written for asset `item` over the properties `ps`. */
  function KeptCount(props: seq<Prop>, ps: seq<string>, limit: seq<string>): nat
    decreases |ps|
  {
    if ps == [] then 0
    else
      var p := ps[|ps| - 1];
      KeptCount(props, ps[..|ps| - 1], limit)
      + (if Fetched(props, p).Some? then |Kept(limit, Fetched(props, p).value)| else 0)
  }

  /** Relationship property `p` of `props` (lines 295-314) from context state
      `s`: a missing property raises KeyError and one that is not a paged
      relationship TypeError; otherwise its relations are fetched in full, the
      kept ones resolved as `ResolveAllFrom` says, and the property replaced by
      them. */
  function PropFrom(backend: Backend, s: CtxState, props: seq<Prop>, p: string, limit: seq<string>): Progress<seq<Prop>>
  {
    if GetProp(props, p).None? then Progress(Err("KeyError: " + p), 0, s)
    else if Fetched(props, p).None? then Progress(Err("TypeError: " + p + " is not a paged relationship"), 0, s)
    else
      var run := ResolveAllFrom(backend, s, Kept(limit, Fetched(props, p).value));
      Progress(if run.result.Ok? then Ok(SetProp(props, p, AssetList(run.result.value))) else Err(run.result.msg),
               run.count, run.state)
  }

  /** Property `p` of `props` holds the resolved kept relations of the
      paged relationship `p` of `original`. */
  predicate PropExtracted(original: seq<Prop>, props: seq<Prop>, p: string, limit: seq<string>)
  {
    && Fetched(original, p).Some?
    && GetProp(props, p).Some? && GetProp(props, p).value.AssetList?
    && ResolvedAll(Kept(limit, Fetched(original, p).value), GetProp(props, p).value.items)
  }

  /** Each of `ps` extracted, every other property as it was. */
  ghost predicate PropsExtracted(original: seq<Prop>, props: seq<Prop>, ps: seq<string>, limit: seq<string>)
  {
    && (forall p :: p in ps ==> PropExtracted(original, props, p, limit))
    && (forall p :: p !in ps ==> GetProp(props, p) == GetProp(original, p))
  }

  /** `out` is asset `item` as written: minified with a minified context, each
      relationship property holding its resolved kept relations, and every
      other property unchanged. */
  ghost predicate ItemExtracted(item: Asset, out: Asset, relnprops: seq<string>, limit: seq<string>)
  {
    && item.id.Some? && item.url.Some?
    && out.(context := [], props := []) == item.(id := None, url := None, context := [], props := [])
    && |out.context| == |item.context| && MinifiedEntries(out.context)
    && (forall i :: 0 <= i < |out.context| ==> out.context[i].typ == item.context[i].typ && out.context[i].name == item.context[i].name)
    && PropsExtracted(item.props, out.props, relnprops, limit)
  }

  /** A property is extracted exactly when it is a paged relationship whose
      kept relations all resolve; it then holds them, counted, and every other
      property stays. A property that is not there, or not paged, fails before
      any lookup. */
  lemma {:induction false} PropFromExactly(backend: Backend, s: CtxState, props: seq<Prop>, p: string, limit: seq<string>)
    ensures var one := PropFrom(backend, s, props, p, limit);
      && (one.result.Ok? <==> Fetched(props, p).Some? && ResolveAllFrom(backend, s, Kept(limit, Fetched(props, p).value)).result.Ok?)
      && (Fetched(props, p).None? ==> one.result.Err? && one.count == 0 && one.state == s)
      && (one.result.Ok? ==>
            && PropExtracted(props, one.result.value, p, limit)
            && one.count == |Kept(limit, Fetched(props, p).value)|
            && forall p' :: p' != p ==> GetProp(one.result.value, p') == GetProp(props, p'))
  {
    if Fetched(props, p).Some? {
      ResolveAllOk(backend, s, Kept(limit, Fetched(props, p).value));
    }
  }

  /** One turn of the loop over the relationship properties: from a context
      state and the properties so far, one property extracted. */
  type PropTurn = (CtxState, seq<Prop>, string) -> Progress<seq<Prop>>

  /** The turn the module takes: `PropFrom`. */
  function ExtractTurn(backend: Backend, limit: seq<string>): PropTurn
  {
    (st: CtxState, pr: seq<Prop>, p: string) => PropFrom(backend, st, pr, p, limit)
  }

  /** Outcome `one` of extracting `p` from `pr`, when it succeeds, holds `p`
      extracted with its kept relations counted, and every other property as
      it was. */
  ghost predicate TurnExtracts(pr: seq<Prop>, one: Progress<seq<Prop>>, p: string, limit: seq<string>)
  {
    one.result.Ok? ==>
      && PropExtracted(pr, one.result.value, p, limit)
      && one.count == |Kept(limit, Fetched(pr, p).value)|
      && forall p' :: p' != p ==> GetProp(one.result.value, p') == GetProp(pr, p')
  }

  /** Every successful turn extracts its property as `TurnExtracts` says. */
  ghost predicate SoundTurn(turn: PropTurn, limit: seq<string>)
  {
    forall st, pr, p :: TurnExtracts(pr, turn(st, pr, p), p, limit)
  }

  /** The module's turn is sound. */
  lemma {:induction false} ExtractTurnSound(backend: Backend, limit: seq<string>)
    ensures SoundTurn(ExtractTurn(backend, limit), limit)
  {
    forall st, pr, p
      ensures TurnExtracts(pr, ExtractTurn(backend, limit)(st, pr, p), p, limit)
    {
      PropFromExactly(backend, st, pr, p, limit);
    }
  }

  /** The loop over the properties `ps` with turn `turn` from context state
      `s`: each property in turn is extracted from the properties and the
      state the earlier ones left; the first failure ends the loop. */
  function PropsLoop(turn: PropTurn, s: CtxState, props: seq<Prop>, ps: seq<string>): Progress<seq<Prop>>
    decreases |ps|
  {
    if ps == [] then Progress(Ok(props), 0, s)
    else
      var prev := PropsLoop(turn, s, props, ps[..|ps| - 1]);
      if prev.result.Err? then prev
      else
        var one := turn(prev.state, prev.result.value, ps[|ps| - 1]);
        Progress(one.result, prev.count + one.count, one.state)
  }

  /** The loop over the relationship properties `ps` of one asset (lines
      294-314) from context state `s`, each turn as `PropFrom` says. */
  function PropsFrom(backend: Backend, s: CtxState, props: seq<Prop>, ps: seq<string>, limit: seq<string>): Progress<seq<Prop>>
  {
    PropsLoop(ExtractTurn(backend, limit), s, props, ps)
  }

  /** The turn of property `ps[k]`, once the properties before it are extracted. */
  function TurnAt(turn: PropTurn, s: CtxState, props: seq<Prop>, ps: seq<string>, k: nat): Progress<seq<Prop>>
    requires k < |ps| && PropsLoop(turn, s, props, ps[..k]).result.Ok?
  {
    var prev := PropsLoop(turn, s, props, ps[..k]);
    turn(prev.state, prev.result.value, ps[k])
  }

  /** The turns of a prefix of the properties are theirs in the whole loop. */
  lemma {:induction false} TurnAtPrefix(turn: PropTurn, s: CtxState, props: seq<Prop>, ps: seq<string>, n: nat, k: nat)
    requires k < n <= |ps| && PropsLoop(turn, s, props, ps[..k]).result.Ok?
    ensures ps[..n][..k] == ps[..k]
    ensures TurnAt(turn, s, props, ps[..n], k) == TurnAt(turn, s, props, ps, k)
  {
    assert ps[..n][..k] == ps[..k];
  }

  /** Extracting one more property, when the earlier ones are extracted:
      it cannot be one of them (an extracted property is no longer paged), so
      it is fetched as it was in the original, and all of them stay extracted. */
  lemma {:induction false} ExtractedSnoc(original: seq<Prop>, mid: seq<Prop>, out: seq<Prop>, init: seq<string>,
                                         p: string, limit: seq<string>)
    requires PropsExtracted(original, mid, init, limit)
    requires PropExtracted(mid, out, p, limit)
    requires forall p' :: p' != p ==> GetProp(out, p') == GetProp(mid, p')
    ensures p !in init && Fetched(mid, p) == Fetched(original, p)
    ensures PropsExtracted(original, out, init + [p], limit)
  {
    if p in init {
      assert false;
    }
    assert GetProp(mid, p) == GetProp(original, p);
    forall q | q in init + [p]
      ensures PropExtracted(original, out, q, limit)
    {
      if q != p {
        assert q in init && GetProp(out, q) == GetProp(mid, q);
      }
    }
  }

  /** With a sound turn, a loop that succeeds holds every listed property
      extracted and every other property as it was, and counts the kept
      relations of them all. A property listed twice fails the second time,
      since it is no longer paged. */
  lemma {:induction false} PropsLoopOk(turn: PropTurn, limit: seq<string>, s: CtxState, props: seq<Prop>, ps: seq<string>)
    requires SoundTurn(turn, limit)
    ensures var run := PropsLoop(turn, s, props, ps);
      run.result.Ok? ==>
        && PropsExtracted(props, run.result.value, ps, limit)
        && run.count == KeptCount(props, ps, limit)
    decreases |ps|
  {
    var run := PropsLoop(turn, s, props, ps);
    if ps != [] && run.result.Ok? {
      var n := |ps| - 1;
      var init := ps[..n];
      var p := ps[n];
      var prev := PropsLoop(turn, s, props, init);
      PropsLoopOk(turn, limit, s, props, init);
      var one := turn(prev.state, prev.result.value, p);
      assert TurnExtracts(prev.result.value, one, p, limit);
      ExtractedSnoc(props, prev.result.value, one.result.value, init, p, limit);
      assert init + [p] == ps;
    }
  }

  /** A loop that succeeds had every turn succeed. */
  lemma {:induction false} PropsLoopTurns(turn: PropTurn, s: CtxState, props: seq<Prop>, ps: seq<string>)
    ensures PropsLoop(turn, s, props, ps).result.Ok? ==>
      forall k :: 0 <= k < |ps| ==>
        PropsLoop(turn, s, props, ps[..k]).result.Ok? && TurnAt(turn, s, props, ps, k).result.Ok?
    decreases |ps|
  {
    if ps != [] && PropsLoop(turn, s, props, ps).result.Ok? {
      var n := |ps| - 1;
      var init := ps[..n];
      PropsLoopTurns(turn, s, props, init);
      forall k | 0 <= k < |ps|
        ensures PropsLoop(turn, s, props, ps[..k]).result.Ok? && TurnAt(turn, s, props, ps, k).result.Ok?
      {
        if k < n {
          assert init[..k] == ps[..k];
          TurnAtPrefix(turn, s, props, ps, n, k);
        } else {
          assert ps[..k] == init;
        }
      }
    }
  }

  /** With a sound turn, a failed loop failed at the first property that
      failed, with the relations of the earlier properties and those resolved
      before the failure counted. */
  lemma {:induction false} PropsLoopFails(turn: PropTurn, limit: seq<string>, s: CtxState, props: seq<Prop>, ps: seq<string>)
    requires SoundTurn(turn, limit)
    ensures var run := PropsLoop(turn, s, props, ps);
      run.result.Err? ==>
        exists k :: 0 <= k < |ps| && PropsLoop(turn, s, props, ps[..k]).result.Ok?
                    && TurnAt(turn, s, props, ps, k).result.Err?
                    && run == Progress(TurnAt(turn, s, props, ps, k).result,
                                       KeptCount(props, ps[..k], limit) + TurnAt(turn, s, props, ps, k).count,
                                       TurnAt(turn, s, props, ps, k).state)
    decreases |ps|
  {
    var run := PropsLoop(turn, s, props, ps);
    if ps != [] && run.result.Err? {
      var n := |ps| - 1;
      var init := ps[..n];
      var prev := PropsLoop(turn, s, props, init);
      if prev.result.Err? {
        PropsLoopFails(turn, limit, s, props, init);
        var k :| 0 <= k < n && PropsLoop(turn, s, props, init[..k]).result.Ok?
                 && TurnAt(turn, s, props, init, k).result.Err?
                 && prev == Progress(TurnAt(turn, s, props, init, k).result,
                                     KeptCount(props, init[..k], limit) + TurnAt(turn, s, props, init, k).count,
                                     TurnAt(turn, s, props, init, k).state);
        assert init[..k] == ps[..k];
        TurnAtPrefix(turn, s, props, ps, n, k);
      } else {
        PropsLoopOk(turn, limit, s, props, init);
        var one := turn(prev.state, prev.result.value, ps[n]);
        assert run == Progress(one.result, prev.count + one.count, one.state);
        assert ps[..n] == init;
        assert TurnAt(turn, s, props, ps, n) == one;
      }
    }
  }

  /** Once a prefix of the properties fails, the loop fails the same way. */
  lemma {:induction false} PropsLoopStops(turn: PropTurn, s: CtxState, props: seq<Prop>, ps: seq<string>, j: nat)
    requires j <= |ps| && PropsLoop(turn, s, props, ps[..j]).result.Err?
    ensures PropsLoop(turn, s, props, ps) == PropsLoop(turn, s, props, ps[..j])
    decreases |ps|
  {
    if j < |ps| {
      var init := ps[..|ps| - 1];
      assert init[..j] == ps[..j];
      PropsLoopStops(turn, s, props, init, j);
    } else {
      assert ps[..j] == ps;
    }
  }

  /** A loop over the relationship properties that succeeds holds each of
      them extracted and every other property as it was, and counts the kept
      relations of them all; it succeeds exactly when every turn does, and a
      failure is the first failing turn's, with the relations of the earlier
      properties counted. */
  lemma {:induction false} PropsFromExactly(backend: Backend, s: CtxState, props: seq<Prop>, ps: seq<string>, limit: seq<string>)
    ensures var run := PropsFrom(backend, s, props, ps, limit);
      && (run.result.Ok? ==> PropsExtracted(props, run.result.value, ps, limit) && run.count == KeptCount(props, ps, limit))
      && (run.result.Ok? <==>
            forall k :: 0 <= k < |ps| ==>
              PropsLoop(ExtractTurn(backend, limit), s, props, ps[..k]).result.Ok?
              && TurnAt(ExtractTurn(backend, limit), s, props, ps, k).result.Ok?)
      && (run.result.Err? ==>
            exists k :: 0 <= k < |ps| && PropsFrom(backend, s, props, ps[..k], limit).result.Ok?
                        && TurnAt(ExtractTurn(backend, limit), s, props, ps, k).result.Err?
                        && run.result == TurnAt(ExtractTurn(backend, limit), s, props, ps, k).result
                        && run.count == KeptCount(props, ps[..k], limit) + TurnAt(ExtractTurn(backend, limit), s, props, ps, k).count)
  {
    ExtractTurnSound(backend, limit);
    PropsLoopOk(ExtractTurn(backend, limit), limit, s, props, ps);
    PropsLoopTurns(ExtractTurn(backend, limit), s, props, ps);
    PropsLoopFails(ExtractTurn(backend, limit), limit, s, props, ps);
  }

  /** One asset found (lines 291-314) from context state `s`: the asset and
      then each of its context entries are minified, then its relationship
      properties are extracted as `PropsFrom` says. */
  function ItemFrom(backend: Backend, s: CtxState, item: Asset, relnprops: seq<string>, limit: seq<string>): Progress<Asset>
  {
    if Minify(item).Err? then Progress(Err(Minify(item).msg), 0, s)
    else if MinifiedContext(item.context).Err? then Progress(Err(MinifiedContext(item.context).msg), 0, s)
    else
      var run := PropsFrom(backend, s, item.props, relnprops, limit);
      Progress(if run.result.Ok? then Ok(Minify(item).value.(context := MinifiedContext(item.context).value, props := run.result.value))
               else Err(run.result.msg),
               run.count, run.state)
  }

  /** An asset is written out exactly when it and every entry of its context
      have `_id` and `_url` and all its relationship properties are extracted;
      it is then written as `ItemExtracted` says, with its kept relations
      counted. A missing key on the asset or its context fails before any
      lookup. */
  lemma {:induction false} ItemFromExactly(backend: Backend, s: CtxState, item: Asset, relnprops: seq<string>, limit: seq<string>)
    ensures var one := ItemFrom(backend, s, item, relnprops, limit);
      && (one.result.Ok? <==>
            item.id.Some? && item.url.Some? && Keyed(item.context) && PropsFrom(backend, s, item.props, relnprops, limit).result.Ok?)
      && (!(item.id.Some? && item.url.Some? && Keyed(item.context)) ==> one.result.Err? && one.count == 0 && one.state == s)
      && (one.result.Ok? ==> ItemExtracted(item, one.result.value, relnprops, limit) && one.count == KeptCount(item.props, relnprops, limit))
  {
    ExtractTurnSound(backend, limit);
    PropsLoopOk(ExtractTurn(backend, limit), limit, s, item.props, relnprops);
  }

  /** One relationship property of an asset (lines 295-314): the paged
      relations fetched in full and resolved in place of the property. */
  method ExtractProperty(igc: RestIGC, props: seq<Prop>, p: string, limit: seq<string>)
    returns (r: Result<seq<Prop>>, count: nat)
    modifies igc`ctxForTypeCounters, igc`ctxCacheByRID, igc`queries
    ensures old(igc.queries) <= igc.queries
    ensures Progress(r, count, CtxState(igc.ctxForTypeCounters, igc.ctxCacheByRID))
      == PropFrom(igc.backend, old(CtxState(igc.ctxForTypeCounters, igc.ctxCacheByRID)), props, p, limit)
    ensures r.Ok? ==> && PropExtracted(props, r.value, p, limit)
                      && count == |Kept(limit, Fetched(props, p).value)|
                      && forall p' :: p' != p ==> GetProp(r.value, p') == GetProp(props, p')
  {
    ghost var s0 := CtxState(igc.ctxForTypeCounters, igc.ctxCacheByRID);
    PropFromExactly(igc.backend, s0, props, p, limit);
    count := 0;
    var v := GetProp(props, p);
    if v.None? {
      return Err("KeyError: " + p), count;
    }
    if !v.value.Paged? {
      return Err("TypeError: " + p + " is not a paged relationship"), count;
    }
    var rels := AllPages(v.value.items, v.value.more);
    var resolved;
    resolved, count := ResolveRelations(igc, rels, limit);
    if resolved.Err? {
      return Err(resolved.msg), count;
    }
    r := Ok(SetProp(props, p, AssetList(resolved.value)));
  }

  /** The loop body for one asset (lines 291-314), as `ItemFrom` says. */
  method ExtractItem(igc: RestIGC, item: Asset, relnprops: seq<string>, limit: seq<string>)
    returns (r: Result<Asset>, count: nat)
    modifies igc`ctxForTypeCounters, igc`ctxCacheByRID, igc`queries
    ensures old(igc.queries) <= igc.queries
    ensures Progress(r, count, CtxState(igc.ctxForTypeCounters, igc.ctxCacheByRID))
      == ItemFrom(igc.backend, old(CtxState(igc.ctxForTypeCounters, igc.ctxCacheByRID)), item, relnprops, limit)
    ensures r.Ok? ==> ItemExtracted(item, r.value, relnprops, limit) && count == KeptCount(item.props, relnprops, limit)
  {
    ghost var s0 := CtxState(igc.ctxForTypeCounters, igc.ctxCacheByRID);
    ItemFromExactly(igc.backend, s0, item, relnprops, limit);
    count := 0;
    var m := Minify(item);
    if m.Err? {
      return Err(m.msg), count;
    }
    var mctx := MinifyContext(item.context);
    if mctx.Err? {
      return Err(mctx.msg), count;
    }
    var props := item.props;
    for k := 0 to |relnprops|
      invariant Progress(Ok(props), count, CtxState(igc.ctxForTypeCounters, igc.ctxCacheByRID))
        == PropsFrom(igc.backend, s0, item.props, relnprops[..k], limit)
      invariant old(igc.queries) <= igc.queries
    {
      assert relnprops[..k + 1][..k] == relnprops[..k];
      var next, n := ExtractProperty(igc, props, relnprops[k], limit);
      if next.Err? {
        PropsLoopStops(ExtractTurn(igc.backend, limit), s0, item.props, relnprops, k + 1);
        return Err(next.msg), count + n;
      }
      count := count + n;
      props := next.value;
    }
    assert relnprops[..|relnprops|] == relnprops;
    return Ok(m.value.(context := mctx.value, props := props)), count;
  }

  // ---------------------------------------------------------------------------
  // The run

  /** The relations written for the first `n` assets. */
  function TotalKept(items: seq<Asset>, relnprops: seq<string>, limit: seq<string>): nat
    decreases |items|
  {
    if items == [] then 0
    else TotalKept(items[..|items| - 1], relnprops, limit) + KeptCount(items[|items| - 1].props, relnprops, limit)
  }

  /** The loop over the assets found (lines 290-314) from context state `s`:
      each asset in turn is written out from the state the earlier ones left;
      the first failure ends the loop. */
  function AllFrom(backend: Backend, s: CtxState, items: seq<Asset>, relnprops: seq<string>, limit: seq<string>): Progress<seq<Asset>>
    decreases |items|
  {
    if items == [] then Progress(Ok([]), 0, s)
    else
      var prev := AllFrom(backend, s, items[..|items| - 1], relnprops, limit);
      if prev.result.Err? then prev
      else
        var one := ItemFrom(backend, prev.state, items[|items| - 1], relnprops, limit);
        Progress(if one.result.Ok? then Ok(prev.result.value + [one.result.value]) else Err(one.result.msg),
                 prev.count + one.count, one.state)
  }

  /** The turn of asset `items[i]`: written out from the state that the
      assets before it left. */
  function ItemAt(backend: Backend, s: CtxState, items: seq<Asset>, relnprops: seq<string>, limit: seq<string>, i: nat): Progress<Asset>
    requires i < |items|
  {
    ItemFrom(backend, AllFrom(backend, s, items[..i], relnprops, limit).state, items[i], relnprops, limit)
  }

  /** The turns of a prefix of the assets are theirs in the whole loop. */
  lemma {:induction false} ItemAtPrefix(backend: Backend, s: CtxState, items: seq<Asset>, relnprops: seq<string>, limit: seq<string>, n: nat, i: nat)
    requires i < n <= |items|
    ensures items[..n][..i] == items[..i]
    ensures ItemAt(backend, s, items[..n], relnprops, limit, i) == ItemAt(backend, s, items, relnprops, limit, i)
  {
    assert items[..n][..i] == items[..i];
  }

  /** A loop that succeeds had every turn succeed; it writes every asset, one
      for one and in order, as its turn wrote it and as `ItemExtracted` says,
      and counts the kept relations of them all. */
  lemma {:induction false} AllFromOk(backend: Backend, s: CtxState, items: seq<Asset>, relnprops: seq<string>, limit: seq<string>)
    ensures var run := AllFrom(backend, s, items, relnprops, limit);
      run.result.Ok? ==>
        && |run.result.value| == |items|
        && run.count == TotalKept(items, relnprops, limit)
        && forall i :: 0 <= i < |items| ==>
             && ItemAt(backend, s, items, relnprops, limit, i).result.Ok?
             && run.result.value[i] == ItemAt(backend, s, items, relnprops, limit, i).result.value
             && ItemExtracted(items[i], run.result.value[i], relnprops, limit)
    decreases |items|
  {
    var run := AllFrom(backend, s, items, relnprops, limit);
    if items != [] && run.result.Ok? {
      var n := |items| - 1;
      var init := items[..n];
      var prev := AllFrom(backend, s, init, relnprops, limit);
      var one := ItemFrom(backend, prev.state, items[n], relnprops, limit);
      assert run.result.value == prev.result.value + [one.result.value];
      AllFromOk(backend, s, init, relnprops, limit);
      ItemFromExactly(backend, prev.state, items[n], relnprops, limit);
      forall i | 0 <= i < |items|
        ensures && ItemAt(backend, s, items, relnprops, limit, i).result.Ok?
                && run.result.value[i] == ItemAt(backend, s, items, relnprops, limit, i).result.value
                && ItemExtracted(items[i], run.result.value[i], relnprops, limit)
      {
        if i < n {
          ItemAtPrefix(backend, s, items, relnprops, limit, n, i);
          assert init[i] == items[i] && run.result.value[i] == prev.result.value[i];
        } else {
          assert items[..i] == init;
        }
      }
    }
  }

  /** A failed loop failed at the first asset that failed, with the kept
      relations of the earlier assets and those resolved before the failure
      counted. */
  lemma {:induction false} AllFromFails(backend: Backend, s: CtxState, items: seq<Asset>, relnprops: seq<string>, limit: seq<string>)
    ensures var run := AllFrom(backend, s, items, relnprops, limit);
      run.result.Err? ==>
        exists i :: 0 <= i < |items| && AllFrom(backend, s, items[..i], relnprops, limit).result.Ok?
                    && ItemAt(backend, s, items, relnprops, limit, i).result.Err?
                    && run == Progress(Err(ItemAt(backend, s, items, relnprops, limit, i).result.msg),
                                       TotalKept(items[..i], relnprops, limit) + ItemAt(backend, s, items, relnprops, limit, i).count,
                                       ItemAt(backend, s, items, relnprops, limit, i).state)
    decreases |items|
  {
    var run := AllFrom(backend, s, items, relnprops, limit);
    if items != [] && run.result.Err? {
      var n := |items| - 1;
      var init := items[..n];
      var prev := AllFrom(backend, s, init, relnprops, limit);
      if prev.result.Err? {
        AllFromFails(backend, s, init, relnprops, limit);
        var i :| 0 <= i < n && AllFrom(backend, s, init[..i], relnprops, limit).result.Ok?
                 && ItemAt(backend, s, init, relnprops, limit, i).result.Err?
                 && prev == Progress(Err(ItemAt(backend, s, init, relnprops, limit, i).result.msg),
                                     TotalKept(init[..i], relnprops, limit) + ItemAt(backend, s, init, relnprops, limit, i).count,
                                     ItemAt(backend, s, init, relnprops, limit, i).state);
        ItemAtPrefix(backend, s, items, relnprops, limit, n, i);
      } else {
        AllFromOk(backend, s, init, relnprops, limit);
        var one := ItemFrom(backend, prev.state, items[n], relnprops, limit);
        assert run == Progress(Err(one.result.msg), prev.count + one.count, one.state);
        assert items[..n] == init;
        assert ItemAt(backend, s, items, relnprops, limit, n) == one;
      }
    }
  }

  /** Once a prefix of the assets fails, the loop fails the same way. */
  lemma {:induction false} AllFromStops(backend: Backend, s: CtxState, items: seq<Asset>, relnprops: seq<string>, limit: seq<string>, j: nat)
    requires j <= |items| && AllFrom(backend, s, items[..j], relnprops, limit).result.Err?
    ensures AllFrom(backend, s, items, relnprops, limit) == AllFrom(backend, s, items[..j], relnprops, limit)
    decreases |items|
  {
    if j < |items| {
      var init := items[..|items| - 1];
      assert init[..j] == items[..j];
      AllFromStops(backend, s, init, relnprops, limit, j);
    } else {
      assert items[..j] == items;
    }
  }
  /** The loop over the assets succeeds exactly when every turn does. */
  lemma {:induction false} AllFromExactly(backend: Backend, s: CtxState, items: seq<Asset>, relnprops: seq<string>, limit: seq<string>)
    ensures AllFrom(backend, s, items, relnprops, limit).result.Ok? <==>
      forall i :: 0 <= i < |items| ==> ItemAt(backend, s, items, relnprops, limit, i).result.Ok?
  {
    AllFromOk(backend, s, items, relnprops, limit);
    AllFromFails(backend, s, items, relnprops, limit);
  }

  /** The loop over the assets found (lines 290-314), as `AllFrom` says. */
  method ExtractAll(igc: RestIGC, items: seq<Asset>, relnprops: seq<string>, limit: seq<string>)
    returns (r: Result<seq<Asset>>, relationshipCount: nat)
    modifies igc`ctxForTypeCounters, igc`ctxCacheByRID, igc`queries
    ensures old(igc.queries) <= igc.queries
    ensures Progress(r, relationshipCount, CtxState(igc.ctxForTypeCounters, igc.ctxCacheByRID))
      == AllFrom(igc.backend, old(CtxState(igc.ctxForTypeCounters, igc.ctxCacheByRID)), items, relnprops, limit)
    ensures r.Ok? ==> |r.value| == |items| && relationshipCount == TotalKept(items, relnprops, limit)
    ensures r.Ok? ==> forall i :: 0 <= i < |items| ==> ItemExtracted(items[i], r.value[i], relnprops, limit)
  {
    ghost var s0 := CtxState(igc.ctxForTypeCounters, igc.ctxCacheByRID);
    relationshipCount := 0;
    var out: seq<Asset> := [];
    for i := 0 to |items|
      invariant Progress(Ok(out), relationshipCount, CtxState(igc.ctxForTypeCounters, igc.ctxCacheByRID))
        == AllFrom(igc.backend, s0, items[..i], relnprops, limit)
      invariant old(igc.queries) <= igc.queries
    {
      assert items[..i + 1][..i] == items[..i];
      var one, n := ExtractItem(igc, items[i], relnprops, limit);
      if one.Err? {
        AllFromStops(igc.backend, s0, items, relnprops, limit, i + 1);
        return Err(one.msg), relationshipCount + n;
      }
      relationshipCount := relationshipCount + n;
      out := out + [one.value];
    }
    assert items[..|items|] == items;
    AllFromOk(igc.backend, s0, items, relnprops, limit);
    r := Ok(out);
  }

  /** `main` (lines 250-314) up to the output file: the request is logged by the
      module and again by the search; a failed search fails the run with both
      counts zero; otherwise the asset count is the number of assets found and
      they are written out as `AllFrom` says, with the relationship count it
      gives, on success and on failure alike. */
  method Run(igc: RestIGC, relnprops: seq<string>, assetType: string, batch: int, conditions: seq<Condition>,
             fromTime: int, toTime: Option<int>, limit: seq<string>)
    returns (r: Result<seq<Asset>>, assetCount: nat, relationshipCount: nat)
    modifies igc`ctxForTypeCounters, igc`ctxCacheByRID, igc`queries
    ensures var q := RelationQuery(relnprops, assetType, batch, conditions, fromTime, toTime);
      && old(igc.queries) + [q, q] <= igc.queries
      && (igc.backend.search(q).SearchFailed? ==>
            && r.Err? && assetCount == 0 && relationshipCount == 0
            && CtxState(igc.ctxForTypeCounters, igc.ctxCacheByRID) == old(CtxState(igc.ctxForTypeCounters, igc.ctxCacheByRID)))
      && (igc.backend.search(q).Answered? ==>
            var items := Collect(igc.backend.search(q)).value;
            && assetCount == |items|
            && Progress(r, relationshipCount, CtxState(igc.ctxForTypeCounters, igc.ctxCacheByRID))
               == AllFrom(igc.backend, old(CtxState(igc.ctxForTypeCounters, igc.ctxCacheByRID)), items, relnprops, limit))
      && (r.Ok? ==>
            && igc.backend.search(q).Answered?
            && var items := Collect(igc.backend.search(q)).value;
               && assetCount == |items| == |r.value|
               && relationshipCount == TotalKept(items, relnprops, limit)
               && forall i :: 0 <= i < |items| ==> ItemExtracted(items[i], r.value[i], relnprops, limit))
  {
    assetCount, relationshipCount := 0, 0;
    var q := BuildQuery(relnprops, assetType, batch, conditions, fromTime, toTime);
    igc.queries := igc.queries + [q];
    var found := igc.Search(q);
    assert igc.queries == old(igc.queries) + [q, q];
    if found.None? {
      return Err("Initial IGC REST API search failed"), assetCount, relationshipCount;
    }
    var items := found.value;
    assetCount := |items|;
    r, relationshipCount := ExtractAll(igc, items, relnprops, limit);
  }
}
