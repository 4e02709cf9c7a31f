/** `glossary_filter_changes`: prune a glossary export to the assets of one
    type that are in the keep list. Custom attribute definitions and the other
    types' sections go; assets not kept go; kept assets lose their
    relationship-valued custom attributes; for terms, synonym groups none of
    whose terms is kept go. */
module GlossaryFilter {
  import opened Wrappers
  import opened Lists
  import opened XmlDoc
  import opened GlossaryHandler

  // ---------------------------------------------------------------------------
  // The keep list

  /** An entry of `assets_to_keep`: a plain string, or a mapping such as the
      documented `{rid: ...}`. */
  datatype KeepEntry = Plain(s: string) | Keyed(fields: map<string, string>)

  /** `rid in assets_to_keep` as written: a string equals only a plain
      string entry. */
  predicate KeptAsWritten(keep: seq<KeepEntry>, rid: string)
  {
    Plain(rid) in keep
  }

  /** The rid an entry names: the string itself, or its `rid` key. */
  function EntryRid(k: KeepEntry): Option<string>
  {
    match k
    case Plain(s) => Some(s)
    case Keyed(fields) => if "rid" in fields then Some(fields["rid"]) else None
  }

  /** Membership as the documented keep list intends it. */
  predicate Kept(keep: seq<KeepEntry>, rid: string)
  {
    exists i :: 0 <= i < |keep| && EntryRid(keep[i]) == Some(rid)
  }

  /** A keep list in the documented `{rid: ...}` form keeps nothing as
      written, while the intended test keeps exactly the rids it lists. */
  lemma {:induction false} DocumentedFormNeverKept(keep: seq<KeepEntry>, rid: string)
    requires forall i :: 0 <= i < |keep| ==> keep[i].Keyed?
    ensures !KeptAsWritten(keep, rid)
    ensures Kept(keep, rid) <==> exists i :: 0 <= i < |keep| && "rid" in keep[i].fields && keep[i].fields["rid"] == rid
  {
  }

  /** The example keep list of the module's documentation. */
  lemma {:induction false} DocumentedExampleDropsEverything()
    ensures !KeptAsWritten([Keyed(map["rid" := "6662c0f2.e1b1ec6c.kr1ln91jg.luh344a.s06cl0.6k98oeiknhrlo4o4vskpn"])],
                           "6662c0f2.e1b1ec6c.kr1ln91jg.luh344a.s06cl0.6k98oeiknhrlo4o4vskpn")
    ensures Kept([Keyed(map["rid" := "6662c0f2.e1b1ec6c.kr1ln91jg.luh344a.s06cl0.6k98oeiknhrlo4o4vskpn"])],
                 "6662c0f2.e1b1ec6c.kr1ln91jg.luh344a.s06cl0.6k98oeiknhrlo4o4vskpn")
  {
    var keep := [Keyed(map["rid" := "6662c0f2.e1b1ec6c.kr1ln91jg.luh344a.s06cl0.6k98oeiknhrlo4o4vskpn"])];
    assert EntryRid(keep[0]) == Some("6662c0f2.e1b1ec6c.kr1ln91jg.luh344a.s06cl0.6k98oeiknhrlo4o4vskpn");
  }

  /** The intended test keeps everything the written one keeps, and agrees
      with it on lists of plain strings. */
  lemma {:induction false} KeptExtendsAsWritten(keep: seq<KeepEntry>, rid: string)
    ensures KeptAsWritten(keep, rid) ==> Kept(keep, rid)
    ensures (forall i :: 0 <= i < |keep| ==> keep[i].Plain?) ==> (Kept(keep, rid) <==> KeptAsWritten(keep, rid))
  {
    if KeptAsWritten(keep, rid) {
      var i :| 0 <= i < |keep| && keep[i] == Plain(rid);
      assert EntryRid(keep[i]) == Some(rid);
    }
    if (forall i :: 0 <= i < |keep| ==> keep[i].Plain?) && Kept(keep, rid) {
      var i :| 0 <= i < |keep| && EntryRid(keep[i]) == Some(rid);
      assert keep[i] == Plain(rid);
    }
  }

  // ---------------------------------------------------------------------------
  // Sections by type (lines 112-149)

  /** The section whose assets are filtered. */
  function AssetSection(assetType: string): Option<Section>
  {
    if assetType == "category" then Some(Categories)
    else if assetType == "term" then Some(Terms)
    else if assetType == "information_governance_policy" then Some(Policies)
    else if assetType == "information_governance_rule" then Some(Rules)
    else if assetType == "label" then Some(Labels)
    else None
  }

  /** The tags of the other sections the type drops (lines 116-149). */
  function DroppedTags(assetType: string): set<string>
  {
    if assetType == "category" then {"terms", "synonymGroups", "policies", "rules", "labelDefinitions"}
    else if assetType == "term" then {"categories", "policies", "rules", "labelDefinitions"}
    else if assetType == "information_governance_policy" then {"categories", "terms", "synonymGroups", "rules", "labelDefinitions"}
    else if assetType == "information_governance_rule" then {"categories", "terms", "synonymGroups", "policies", "labelDefinitions"}
    else if assetType == "label" then {"categories", "terms", "synonymGroups", "policies", "rules"}
    else {}
  }

  /** For a known type every asset section but its own goes, except that
      terms keep their synonym groups; an unknown type drops nothing more;
      only section tags are dropped. */
  lemma {:induction false} DroppedTagsTable(assetType: string, s: Section)
    ensures SectionTag(s) in DroppedTags(assetType) <==>
      && AssetSection(assetType).Some?
      && s != AssetSection(assetType).value
      && s != CustomAttributeDefinitions
      && !(assetType == "term" && s == SynonymGroups)
    ensures forall t :: t in DroppedTags(assetType) ==> exists s' :: SectionTag(s') == t
  {
    assert SectionTag(Categories) == "categories" && SectionTag(Terms) == "terms" && SectionTag(SynonymGroups) == "synonymGroups";
    assert SectionTag(Policies) == "policies" && SectionTag(Rules) == "rules" && SectionTag(Labels) == "labelDefinitions";
  }

  // ---------------------------------------------------------------------------
  // What the passes remove

  /** The asset has a rid and the rid is kept. */
  predicate KeptRid(nodes: seq<Node>, keep: seq<KeepEntry>, x: nat)
    requires x < |nodes|
  {
    "rid" in nodes[x].attrs && Kept(keep, nodes[x].attrs["rid"])
  }

  /** The number of kept assets among `xs`. */
  function KeptCount(nodes: seq<Node>, keep: seq<KeepEntry>, xs: seq<nat>): (n: nat)
    requires forall i :: 0 <= i < |xs| ==> xs[i] < |nodes|
    ensures n <= |xs|
    decreases |xs|
  {
    if xs == [] then 0
    else KeptCount(nodes, keep, xs[..|xs| - 1]) + (if KeptRid(nodes, keep, xs[|xs| - 1]) then 1 else 0)
  }

  /** `v` is a custom-attribute value of the asset. */
  predicate ValueOf(nodes: seq<Node>, v: nat, asset: nat)
    requires v < |nodes|
  {
    Grandchild(nodes, v, asset, CustomAttributesTag, CustomAttributeValueTag)
  }

  /** The relationship-valued custom attributes of an asset. */
  ghost function RelationshipValues(nodes: seq<Node>, asset: nat): set<nat>
  {
    set v | 0 <= v < |nodes| && ValueOf(nodes, v, asset) && HasChild(nodes, v, ReferencesTag)
  }

  /** What the asset pass removes: each asset not kept, and the
      relationship-valued custom attributes of each kept one. */
  ghost function AssetPassRemoves(nodes: seq<Node>, keep: seq<KeepEntry>, xs: seq<nat>): set<nat>
    requires forall i :: 0 <= i < |xs| ==> xs[i] < |nodes|
    decreases |xs|
  {
    if xs == [] then {}
    else
      var x := xs[|xs| - 1];
      AssetPassRemoves(nodes, keep, xs[..|xs| - 1]) + (if KeptRid(nodes, keep, x) then RelationshipValues(nodes, x) else {x})
  }

  /** Everything the asset pass removes is one of the assets or a
      custom-attribute value. */
  lemma {:induction false} AssetPassRemovesTags(nodes: seq<Node>, keep: seq<KeepEntry>, xs: seq<nat>)
    requires forall i :: 0 <= i < |xs| ==> xs[i] < |nodes|
    ensures forall d :: d in AssetPassRemoves(nodes, keep, xs) ==> d < |nodes| && (d in xs || nodes[d].tag == CustomAttributeValueTag)
    decreases |xs|
  {
    if xs != [] {
      var init := xs[..|xs| - 1];
      AssetPassRemovesTags(nodes, keep, init);
      assert forall d :: d in init ==> d in xs;
    }
  }

  /** A synonym group some of whose terms is kept. */
  predicate AnyTermKept(nodes: seq<Node>, keep: seq<KeepEntry>, group: nat)
  {
    exists s :: 0 <= s < |nodes| && Grandchild(nodes, s, group, "synonyms", "termRef") && KeptRid(nodes, keep, s)
  }

  /** Every term reference of the group has a rid. */
  predicate TermRefsHaveRids(nodes: seq<Node>, group: nat)
  {
    forall s :: 0 <= s < |nodes| && Grandchild(nodes, s, group, "synonyms", "termRef") ==> "rid" in nodes[s].attrs
  }

  /** The synonym groups none of whose terms is kept. */
  ghost function OrphanGroups(nodes: seq<Node>, keep: seq<KeepEntry>): set<nat>
  {
    set g | 0 <= g < |nodes| && Grandchild(nodes, g, 0, "synonymGroups", "synonymGroup") && !AnyTermKept(nodes, keep, g)
  }

  // ---------------------------------------------------------------------------
  // The passes

  /** The relationship-valued elements among `vs`. */
  ghost function RelationsAmong(nodes: seq<Node>, vs: seq<nat>): set<nat>
    decreases |vs|
  {
    if vs == [] then {}
    else RelationsAmong(nodes, vs[..|vs| - 1]) + (if HasChild(nodes, vs[|vs| - 1], ReferencesTag) then {vs[|vs| - 1]} else {})
  }

  lemma {:induction false} RelationsAmongMembers(nodes: seq<Node>, vs: seq<nat>)
    ensures forall v :: v in RelationsAmong(nodes, vs) <==> v in vs && HasChild(nodes, v, ReferencesTag)
    decreases |vs|
  {
    if vs != [] {
      var init := vs[..|vs| - 1];
      RelationsAmongMembers(nodes, init);
      assert vs == init + [vs[|vs| - 1]];
    }
  }

  /** Adding one more element of the tag to a set of such elements. */
  lemma {:induction false} AllTagged(nodes: seq<Node>, s: set<nat>, v: nat, tag: string)
    requires forall d :: d in s ==> d < |nodes| && nodes[d].tag == tag
    requires v < |nodes| && nodes[v].tag == tag
    ensures forall d :: d in s + {v} ==> d < |nodes| && nodes[d].tag == tag
  {
  }

  /** One step of the strip loop: the next value is not yet removed, the
      removal set grows by it exactly when it is a relationship, and whether
      it is one is the same now as before the loop. */
  lemma {:induction false} StripStep(start: seq<Node>, cur: seq<Node>, values: seq<nat>, k: nat, done: set<nat>)
    requires NoDup(values) && k < |values|
    requires done == RelationsAmong(start, values[..k])
    requires DetachedExactly(start, cur, done)
    requires forall d :: d in done ==> d < |start| && start[d].tag == CustomAttributeValueTag
    ensures values[k] !in done
    ensures RelationsAmong(start, values[..k + 1]) == done + (if HasChild(start, values[k], ReferencesTag) then {values[k]} else {})
    ensures HasChild(cur, values[k], ReferencesTag) <==> HasChild(start, values[k], ReferencesTag)
  {
    RelationsAmongSnoc(start, values, k);
    RelationsAmongMembers(start, values[..k]);
    NoDupNotBefore(values, k);
    HasChildKept(start, cur, done, values[k], ReferencesTag);
  }

  lemma {:induction false} RelationsAmongSnoc(nodes: seq<Node>, vs: seq<nat>, k: nat)
    requires k < |vs|
    ensures RelationsAmong(nodes, vs[..k + 1]) == RelationsAmong(nodes, vs[..k]) + (if HasChild(nodes, vs[k], ReferencesTag) then {vs[k]} else {})
  {
    assert vs[..k + 1][..k] == vs[..k];
  }

  /** After the strip loop the removal set is the asset's relationship values. */
  lemma {:induction false} StripDone(start: seq<Node>, asset: nat, values: seq<nat>)
    requires forall x :: x in values <==> 0 <= x < |start| && ValueOf(start, x, asset)
    ensures RelationsAmong(start, values) == RelationshipValues(start, asset)
  {
    RelationsAmongMembers(start, values);
  }

  /** The body of the strip loop: the value leaves its parent exactly when it
      is a relationship. */
  method DropIfRelationship(h: Glossary, ghost start: seq<Node>, ghost done: set<nat>, v: nat) returns (ghost done': set<nat>)
    requires h.Valid() && |h.nodes| == |start| && DetachedExactly(start, h.nodes, done) && v !in done
    requires forall d :: d in done ==> d < |start| && start[d].tag == CustomAttributeValueTag
    requires v < |start| && start[v].tag == CustomAttributeValueTag && start[v].parent >= 0
    requires HasChild(h.nodes, v, ReferencesTag) <==> HasChild(start, v, ReferencesTag)
    modifies h
    ensures h.Valid() && |h.nodes| == |start| && DetachedExactly(start, h.nodes, done')
    ensures done' == done + (if HasChild(start, v, ReferencesTag) then {v} else {})
    ensures forall d :: d in done' ==> d < |start| && start[d].tag == CustomAttributeValueTag
    ensures h.changed == (old(h.changed) || done' != done)
  {
    done' := done;
    var isRelation := h.IsRelationship(v);
    if isRelation {
      DetachedExactlyStep(start, h.nodes, done, v);
      h.DropAsset(v);
      AllTagged(start, done, v, CustomAttributeValueTag);
      done' := done + {v};
    }
  }

  /** Lines 159-161 for one kept asset: exactly its relationship-valued
      custom attributes leave it. */
  method StripRelationships(h: Glossary, asset: nat)
    requires h.Valid() && asset < |h.nodes|
    modifies h
    ensures h.Valid()
    ensures DetachedExactly(old(h.nodes), h.nodes, RelationshipValues(old(h.nodes), asset))
    ensures h.changed == (old(h.changed) || RelationshipValues(old(h.nodes), asset) != {})
  {
    ghost var start := h.nodes;
    var values := h.CustomAttributes(asset);
    ghost var done: set<nat> := {};
    for k := 0 to |values|
      invariant h.Valid() && |h.nodes| == |start|
      invariant DetachedExactly(start, h.nodes, done)
      invariant done == RelationsAmong(start, values[..k])
      invariant forall d :: d in done ==> d < |start| && start[d].tag == CustomAttributeValueTag
      invariant h.changed == (old(h.changed) || done != {})
    {
      var v := values[k];
      assert v in values;
      StripStep(start, h.nodes, values, k, done);
      done := DropIfRelationship(h, start, done, v);
    }
    assert values[..|values|] == values;
    StripDone(start, asset, values);
  }

  /** Lines 152-161, the body of the asset loop: an asset whose rid is not
      kept leaves its section; a kept one stays and loses exactly its
      relationship-valued custom attributes. An asset without a rid stops
      the module. */
  method FilterAsset(h: Glossary, keep: seq<KeepEntry>, x: nat) returns (r: Result<bool>)
    requires h.Valid() && x < |h.nodes| && h.nodes[x].parent >= 0
    modifies h
    ensures h.Valid()
    ensures r.Err? <==> "rid" !in old(h.nodes)[x].attrs
    ensures r.Ok? ==> (r.value <==> KeptRid(old(h.nodes), keep, x))
    ensures r.Ok? ==> DetachedExactly(old(h.nodes), h.nodes, if r.value then RelationshipValues(old(h.nodes), x) else {x})
    ensures r.Ok? ==> h.changed == (old(h.changed) || !r.value || RelationshipValues(old(h.nodes), x) != {})
  {
    var rid := h.GetRid(x);
    if rid.Err? {
      return Err(rid.msg);
    }
    if !Kept(keep, rid.value) {
      DetachedExactlyStep(h.nodes, h.nodes, {}, x);
      h.DropAsset(x);
      assert {} + {x} == {x};
      return Ok(false);
    }
    StripRelationships(h, x);
    return Ok(true);
  }

  /** Removals leave attributes alone, so whether an asset is kept does not
      change. */
  lemma {:induction false} KeptRidPruned(a: seq<Node>, b: seq<Node>, keep: seq<KeepEntry>, x: nat)
    requires PrunedFrom(a, b) && x < |a|
    ensures KeptRid(b, keep, x) == KeptRid(a, keep, x)
    ensures ("rid" in b[x].attrs) == ("rid" in a[x].attrs)
  {
  }

  /** One step of the asset loop: the asset is still attached, and the
      removal set and the count grow as the folds say. */
  lemma {:induction false} AssetStep(start: seq<Node>, cur: seq<Node>, keep: seq<KeepEntry>, assets: seq<nat>, i: nat)
    requires NoDup(assets) && i < |assets|
    requires forall j :: 0 <= j < |assets| ==> assets[j] < |start| && start[assets[j]].parent >= 0
    requires forall j :: 0 <= j < |assets| ==> start[assets[j]].tag !in {CustomAttributesTag, CustomAttributeValueTag, ReferencesTag}
    requires DetachedExactly(start, cur, AssetPassRemoves(start, keep, assets[..i]))
    ensures assets[i] !in AssetPassRemoves(start, keep, assets[..i])
    ensures cur[assets[i]].parent >= 0
    ensures KeptRid(cur, keep, assets[i]) == KeptRid(start, keep, assets[i])
    ensures ("rid" in cur[assets[i]].attrs) == ("rid" in start[assets[i]].attrs)
    ensures forall d :: d in AssetPassRemoves(start, keep, assets[..i]) ==> d < |start| && start[d].tag != CustomAttributesTag && start[d].tag != ReferencesTag
    ensures AssetPassRemoves(start, keep, assets[..i + 1]) ==
      AssetPassRemoves(start, keep, assets[..i]) + (if KeptRid(start, keep, assets[i]) then RelationshipValues(start, assets[i]) else {assets[i]})
    ensures KeptCount(start, keep, assets[..i + 1]) == KeptCount(start, keep, assets[..i]) + (if KeptRid(start, keep, assets[i]) then 1 else 0)
  {
    assert assets[..i + 1][..i] == assets[..i];
    AssetPassRemovesTags(start, keep, assets[..i]);
    NoDupNotBefore(assets, i);
    forall d | d in AssetPassRemoves(start, keep, assets[..i])
      ensures start[d].tag != CustomAttributesTag && start[d].tag != ReferencesTag
    {
      if d in assets[..i] {
        var j :| 0 <= j < i && assets[j] == d;
        assert start[assets[j]].tag !in {CustomAttributesTag, CustomAttributeValueTag, ReferencesTag};
      }
    }
  }

  /** Closing one step of the asset loop: the removal set after the asset's
      turn is the fold up to and including it. */
  lemma {:induction false} AssetStepDone(start: seq<Node>, before: seq<Node>, after: seq<Node>, keep: seq<KeepEntry>, assets: seq<nat>, i: nat)
    requires NoDup(assets) && i < |assets|
    requires forall j :: 0 <= j < |assets| ==> assets[j] < |start| && start[assets[j]].parent >= 0
    requires forall j :: 0 <= j < |assets| ==> start[assets[j]].tag !in {CustomAttributesTag, CustomAttributeValueTag, ReferencesTag}
    requires DetachedExactly(start, before, AssetPassRemoves(start, keep, assets[..i]))
    requires DetachedExactly(before, after, if KeptRid(before, keep, assets[i]) then RelationshipValues(before, assets[i]) else {assets[i]})
    ensures DetachedExactly(start, after, AssetPassRemoves(start, keep, assets[..i + 1]))
  {
    var x := assets[i];
    var gone := AssetPassRemoves(start, keep, assets[..i]);
    AssetStep(start, before, keep, assets, i);
    if KeptRid(start, keep, x) {
      RelationshipValuesKept(start, before, gone, x);
    }
    DetachedExactlyTrans(start, before, after, gone, if KeptRid(before, keep, x) then RelationshipValues(before, x) else {x});
  }

  /** Lines 151-161: each asset is dropped unless its rid is kept; a kept
      asset is counted and loses its relationship-valued custom attributes.
      An asset without a rid stops the module. */
  method AssetPass(h: Glossary, keep: seq<KeepEntry>, assets: seq<nat>) returns (r: Result<nat>)
    requires h.Valid() && NoDup(assets)
    requires forall i :: 0 <= i < |assets| ==> assets[i] < |h.nodes| && h.nodes[assets[i]].parent >= 0
    requires forall i :: 0 <= i < |assets| ==> h.nodes[assets[i]].tag !in {CustomAttributesTag, CustomAttributeValueTag, ReferencesTag}
    modifies h
    ensures h.Valid()
    ensures r.Err? <==> exists i :: 0 <= i < |assets| && "rid" !in old(h.nodes)[assets[i]].attrs
    ensures r.Ok? ==> r.value == KeptCount(old(h.nodes), keep, assets)
    ensures r.Ok? ==> DetachedExactly(old(h.nodes), h.nodes, AssetPassRemoves(old(h.nodes), keep, assets))
  {
    ghost var start := h.nodes;
    var count := 0;
    for i := 0 to |assets|
      invariant h.Valid() && |h.nodes| == |start|
      invariant DetachedExactly(start, h.nodes, AssetPassRemoves(start, keep, assets[..i]))
      invariant count == KeptCount(start, keep, assets[..i])
      invariant forall j :: 0 <= j < i ==> "rid" in start[assets[j]].attrs
    {
      var x := assets[i];
      AssetStep(start, h.nodes, keep, assets, i);
      ghost var before := h.nodes;
      var kept := FilterAsset(h, keep, x);
      if kept.Err? {
        return Err(kept.msg);
      }
      if kept.value {
        count := count + 1;
      }
      AssetStepDone(start, before, h.nodes, keep, assets, i);
    }
    assert assets[..|assets|] == assets;
    return Ok(count);
  }

  /** Before an asset's turn the earlier removals have not touched its
      custom-attribute containers, so modulo those removals its relationship
      values are the ones it had at the start. */
  lemma {:induction false} RelationshipValuesKept(a: seq<Node>, b: seq<Node>, gone: set<nat>, x: nat)
    requires DetachedExactly(a, b, gone)
    requires forall d :: d in gone ==> d < |a| && a[d].tag != CustomAttributesTag && a[d].tag != ReferencesTag
    ensures gone + RelationshipValues(b, x) == gone + RelationshipValues(a, x)
  {
    forall v | v !in gone && 0 <= v < |a|
      ensures v in RelationshipValues(b, x) <==> v in RelationshipValues(a, x)
    {
      HasChildKept(a, b, gone, v, ReferencesTag);
      if ValueOf(a, v, x) || ValueOf(b, v, x) {
        assert a[v].parent == b[v].parent;
        assert a[v].parent !in gone;
      }
    }
  }

  /** The asset pass removes an asset exactly when it is not kept. */
  lemma {:induction false} AssetPassRemovesAssets(nodes: seq<Node>, keep: seq<KeepEntry>, xs: seq<nat>, x: nat)
    requires forall i :: 0 <= i < |xs| ==> xs[i] < |nodes| && nodes[xs[i]].tag != CustomAttributeValueTag
    requires x in xs
    ensures x in AssetPassRemoves(nodes, keep, xs) <==> !KeptRid(nodes, keep, x)
    decreases |xs|
  {
    var init := xs[..|xs| - 1];
    var last := xs[|xs| - 1];
    assert xs == init + [last];
    if x in init {
      AssetPassRemovesAssets(nodes, keep, init, x);
    } else {
      assert x == last;
      AssetPassRemovesTags(nodes, keep, init);
    }
    assert x !in RelationshipValues(nodes, last);
  }

  // ---------------------------------------------------------------------------
  // Synonym groups (lines 163-171)

  /** The kept term references among `refs`. */
  predicate SomeKept(nodes: seq<Node>, keep: seq<KeepEntry>, refs: seq<nat>, k: nat)
    requires k <= |refs| && forall j :: 0 <= j < |refs| ==> refs[j] < |nodes|
  {
    exists j :: 0 <= j < k && KeptRid(nodes, keep, refs[j])
  }

  lemma {:induction false} SomeKeptSnoc(nodes: seq<Node>, keep: seq<KeepEntry>, refs: seq<nat>, k: nat)
    requires k < |refs| && forall j :: 0 <= j < |refs| ==> refs[j] < |nodes|
    ensures SomeKept(nodes, keep, refs, k + 1) <==> SomeKept(nodes, keep, refs, k) || KeptRid(nodes, keep, refs[k])
  {
    if KeptRid(nodes, keep, refs[k]) {
      assert 0 <= k < k + 1;
    }
  }

  /** Lines 164-170 for one group: whether any of its term references has a
      kept rid; a reference without a rid stops the module. */
  method AnyTermRefKept(h: Glossary, keep: seq<KeepEntry>, group: nat) returns (r: Result<bool>)
    requires h.Valid() && group < |h.nodes|
    ensures r.Ok? <==> TermRefsHaveRids(h.nodes, group)
    ensures r.Ok? ==> (r.value <==> AnyTermKept(h.nodes, keep, group))
  {
    var refs := h.Synonyms(group);
    assert forall j :: 0 <= j < |refs| ==> refs[j] in refs;
    r := ScanTermRefs(h, keep, refs);
    TermRefsAll(h.nodes, keep, group, refs);
  }

  /** The loop of lines 165-170 over the references `refs`: whether one of them
      has a kept rid, stopping at the first without a rid. */
  method ScanTermRefs(h: Glossary, keep: seq<KeepEntry>, refs: seq<nat>) returns (r: Result<bool>)
    requires forall j :: 0 <= j < |refs| ==> refs[j] < |h.nodes|
    ensures r.Ok? <==> forall j :: 0 <= j < |refs| ==> "rid" in h.nodes[refs[j]].attrs
    ensures r.Ok? ==> (r.value <==> SomeKept(h.nodes, keep, refs, |refs|))
  {
    var nodes := h.nodes;
    var found := false;
    for k := 0 to |refs|
      invariant forall j :: 0 <= j < k ==> "rid" in nodes[refs[j]].attrs
      invariant found <==> SomeKept(nodes, keep, refs, k)
    {
      var refRid := h.GetRid(refs[k]);
      if refRid.Err? {
        return Err(refRid.msg);
      }
      SomeKeptSnoc(nodes, keep, refs, k);
      if Kept(keep, refRid.value) {
        found := true;
      }
    }
    return Ok(found);
  }

  /** Scanning every reference of the group decides both questions. */
  lemma {:induction false} TermRefsAll(nodes: seq<Node>, keep: seq<KeepEntry>, group: nat, refs: seq<nat>)
    requires forall s :: s in refs <==> 0 <= s < |nodes| && Grandchild(nodes, s, group, "synonyms", "termRef")
    requires forall j :: 0 <= j < |refs| ==> refs[j] < |nodes|
    ensures (forall j :: 0 <= j < |refs| ==> "rid" in nodes[refs[j]].attrs) <==> TermRefsHaveRids(nodes, group)
    ensures SomeKept(nodes, keep, refs, |refs|) <==> AnyTermKept(nodes, keep, group)
  {
    if forall j :: 0 <= j < |refs| ==> "rid" in nodes[refs[j]].attrs {
      forall s | 0 <= s < |nodes| && Grandchild(nodes, s, group, "synonyms", "termRef")
        ensures "rid" in nodes[s].attrs
      {
        assert s in refs;
      }
    } else {
      var j :| 0 <= j < |refs| && "rid" !in nodes[refs[j]].attrs;
      assert refs[j] in refs;
    }
    if AnyTermKept(nodes, keep, group) {
      var s :| 0 <= s < |nodes| && Grandchild(nodes, s, group, "synonyms", "termRef") && KeptRid(nodes, keep, s);
      assert s in refs;
    }
    if SomeKept(nodes, keep, refs, |refs|) {
      var j :| 0 <= j < |refs| && KeptRid(nodes, keep, refs[j]);
      assert refs[j] in refs;
    }
  }

  /** The groups among `gs` none of whose terms is kept. */
  ghost function OrphansAmong(nodes: seq<Node>, keep: seq<KeepEntry>, gs: seq<nat>): set<nat>
    decreases |gs|
  {
    if gs == [] then {}
    else OrphansAmong(nodes, keep, gs[..|gs| - 1]) + (if AnyTermKept(nodes, keep, gs[|gs| - 1]) then {} else {gs[|gs| - 1]})
  }

  lemma {:induction false} OrphansAmongMembers(nodes: seq<Node>, keep: seq<KeepEntry>, gs: seq<nat>)
    ensures forall g :: g in OrphansAmong(nodes, keep, gs) <==> g in gs && !AnyTermKept(nodes, keep, g)
    decreases |gs|
  {
    if gs != [] {
      var init := gs[..|gs| - 1];
      OrphansAmongMembers(nodes, keep, init);
      assert gs == init + [gs[|gs| - 1]];
    }
  }

  /** Removing elements that are neither `synonyms` nor `termRef` leaves
      every group's term references, and so both questions about them, as
      they were. */
  lemma {:induction false} SameTermRefs(a: seq<Node>, b: seq<Node>, gone: set<nat>, g: nat, keep: seq<KeepEntry>)
    requires DetachedExactly(a, b, gone)
    requires forall d :: d in gone ==> d < |a| && a[d].tag != "synonyms" && a[d].tag != "termRef"
    ensures TermRefsHaveRids(b, g) <==> TermRefsHaveRids(a, g)
    ensures AnyTermKept(b, keep, g) <==> AnyTermKept(a, keep, g)
  {
    forall s | 0 <= s < |a|
      ensures Grandchild(b, s, g, "synonyms", "termRef") <==> Grandchild(a, s, g, "synonyms", "termRef")
      ensures KeptRid(b, keep, s) == KeptRid(a, keep, s)
    {
      GrandchildKept(a, b, gone, s, g, "synonyms", "termRef");
    }
  }

  /** One step of the group loop. */
  lemma {:induction false} GroupStep(start: seq<Node>, cur: seq<Node>, keep: seq<KeepEntry>, groups: seq<nat>, i: nat)
    requires NoDup(groups) && i < |groups|
    requires forall j :: 0 <= j < |groups| ==> groups[j] < |start| && start[groups[j]].parent >= 0 && start[groups[j]].tag == "synonymGroup"
    requires DetachedExactly(start, cur, OrphansAmong(start, keep, groups[..i]))
    ensures groups[i] !in OrphansAmong(start, keep, groups[..i])
    ensures cur[groups[i]].parent >= 0
    ensures TermRefsHaveRids(cur, groups[i]) <==> TermRefsHaveRids(start, groups[i])
    ensures AnyTermKept(cur, keep, groups[i]) <==> AnyTermKept(start, keep, groups[i])
    ensures OrphansAmong(start, keep, groups[..i + 1]) ==
      OrphansAmong(start, keep, groups[..i]) + (if AnyTermKept(start, keep, groups[i]) then {} else {groups[i]})
  {
    assert groups[..i + 1][..i] == groups[..i];
    OrphansAmongMembers(start, keep, groups[..i]);
    NoDupNotBefore(groups, i);
    var gone := OrphansAmong(start, keep, groups[..i]);
    forall d | d in gone
      ensures d < |start| && start[d].tag != "synonyms" && start[d].tag != "termRef"
    {
      var j :| 0 <= j < i && groups[j] == d;
    }
    SameTermRefs(start, cur, gone, groups[i], keep);
  }

  /** Lines 164-171, the body of the group loop: a group with no kept term
      leaves the document. */
  method FilterGroup(h: Glossary, keep: seq<KeepEntry>, g: nat) returns (r: Result<bool>)
    requires h.Valid() && g < |h.nodes| && h.nodes[g].parent >= 0
    modifies h
    ensures h.Valid()
    ensures r.Ok? <==> TermRefsHaveRids(old(h.nodes), g)
    ensures r.Ok? ==> (r.value <==> AnyTermKept(old(h.nodes), keep, g))
    ensures r.Ok? ==> DetachedExactly(old(h.nodes), h.nodes, if r.value then {} else {g})
    ensures r.Ok? ==> h.changed == (old(h.changed) || !r.value)
  {
    var anyKept := AnyTermRefKept(h, keep, g);
    if anyKept.Err? {
      return Err(anyKept.msg);
    }
    if !anyKept.value {
      DetachedExactlyStep(h.nodes, h.nodes, {}, g);
      h.DropAsset(g);
      assert {} + {g} == {g};
    }
    return anyKept;
  }

  /** Lines 163-171: a synonym group goes exactly when none of its terms is
      kept; a term reference without a rid stops the module. */
  method SynonymPass(h: Glossary, keep: seq<KeepEntry>) returns (r: Result<()>)
    requires h.Valid()
    modifies h
    ensures h.Valid()
    ensures r.Ok? <==> forall g :: 0 <= g < |old(h.nodes)| && Grandchild(old(h.nodes), g, 0, "synonymGroups", "synonymGroup") ==> TermRefsHaveRids(old(h.nodes), g)
    ensures r.Ok? ==> DetachedExactly(old(h.nodes), h.nodes, OrphanGroups(old(h.nodes), keep))
  {
    ghost var start := h.nodes;
    var groups := h.Select(SynonymGroups);
    GroupsAttached(start, groups);
    r := FilterGroups(h, keep, groups);
    GroupsDone(start, keep, groups);
  }

  /** The group loop of lines 163-171 over the selected groups. */
  method FilterGroups(h: Glossary, keep: seq<KeepEntry>, groups: seq<nat>) returns (r: Result<()>)
    requires h.Valid() && NoDup(groups)
    requires forall j :: 0 <= j < |groups| ==> groups[j] < |h.nodes| && h.nodes[groups[j]].parent >= 0 && h.nodes[groups[j]].tag == "synonymGroup"
    modifies h
    ensures h.Valid()
    ensures r.Ok? <==> forall j :: 0 <= j < |groups| ==> TermRefsHaveRids(old(h.nodes), groups[j])
    ensures r.Ok? ==> DetachedExactly(old(h.nodes), h.nodes, OrphansAmong(old(h.nodes), keep, groups))
  {
    ghost var start := h.nodes;
    for i := 0 to |groups|
      invariant h.Valid() && |h.nodes| == |start|
      invariant DetachedExactly(start, h.nodes, OrphansAmong(start, keep, groups[..i]))
      invariant forall j :: 0 <= j < i ==> TermRefsHaveRids(start, groups[j])
    {
      var g := groups[i];
      GroupStep(start, h.nodes, keep, groups, i);
      ghost var before := h.nodes;
      var kept := FilterGroup(h, keep, g);
      if kept.Err? {
        return Err(kept.msg);
      }
      RidsSnoc(start, groups, i);
      DetachedExactlyTrans(start, before, h.nodes, OrphansAmong(start, keep, groups[..i]), if kept.value then {} else {g});
    }
    assert groups[..|groups|] == groups;
    return Ok(());
  }

  lemma {:induction false} RidsSnoc(nodes: seq<Node>, groups: seq<nat>, i: nat)
    requires i < |groups| && forall j :: 0 <= j < i ==> TermRefsHaveRids(nodes, groups[j])
    requires TermRefsHaveRids(nodes, groups[i])
    ensures forall j :: 0 <= j < i + 1 ==> TermRefsHaveRids(nodes, groups[j])
  {
  }

  /** The selected groups are attached synonym groups. */
  lemma {:induction false} GroupsAttached(nodes: seq<Node>, groups: seq<nat>)
    requires forall g :: g in groups <==> 0 <= g < |nodes| && Grandchild(nodes, g, 0, "synonymGroups", "synonymGroup")
    ensures forall j :: 0 <= j < |groups| ==> groups[j] < |nodes| && nodes[groups[j]].parent >= 0 && nodes[groups[j]].tag == "synonymGroup"
  {
    forall j | 0 <= j < |groups|
      ensures groups[j] < |nodes| && nodes[groups[j]].parent >= 0 && nodes[groups[j]].tag == "synonymGroup"
    {
      assert groups[j] in groups;
    }
  }

  /** After the group loop: the removal set is the orphan groups, and every
      group's references had rids. */
  lemma {:induction false} GroupsDone(nodes: seq<Node>, keep: seq<KeepEntry>, groups: seq<nat>)
    requires forall g :: g in groups <==> 0 <= g < |nodes| && Grandchild(nodes, g, 0, "synonymGroups", "synonymGroup")
    ensures OrphansAmong(nodes, keep, groups) == OrphanGroups(nodes, keep)
    ensures (forall j :: 0 <= j < |groups| ==> TermRefsHaveRids(nodes, groups[j])) <==>
            (forall g :: 0 <= g < |nodes| && Grandchild(nodes, g, 0, "synonymGroups", "synonymGroup") ==> TermRefsHaveRids(nodes, g))
  {
    OrphansAmongMembers(nodes, keep, groups);
    if forall j :: 0 <= j < |groups| ==> TermRefsHaveRids(nodes, groups[j]) {
      forall g | 0 <= g < |nodes| && Grandchild(nodes, g, 0, "synonymGroups", "synonymGroup")
        ensures TermRefsHaveRids(nodes, g)
      {
        assert g in groups;
        var j :| 0 <= j < |groups| && groups[j] == g;
      }
    } else {
      var j :| 0 <= j < |groups| && !TermRefsHaveRids(nodes, groups[j]);
      assert groups[j] in groups;
    }
  }

  // ---------------------------------------------------------------------------
  // The module (lines 112-171)

  /** The element is one of the section's assets. */
  predicate InSection(nodes: seq<Node>, sec: Section, x: nat)
    requires x < |nodes|
  {
    Grandchild(nodes, x, 0, SectionTag(sec), ElementTag(sec))
  }

  /** A run of `dropSection` calls, one per tag in order. */
  method DropSections(h: Glossary, tags: seq<string>)
    requires h.Valid()
    modifies h
    ensures h.Valid() && DroppedFromRoot(old(h.nodes), h.nodes, set t | t in tags)
  {
    ghost var start := h.nodes;
    for i := 0 to |tags|
      invariant h.Valid() && DroppedFromRoot(start, h.nodes, Elems(tags[..i]))
    {
      ghost var before := h.nodes;
      h.DropSection(tags[i]);
      DroppedFromRootOne(before, h.nodes, tags[i]);
      DroppedFromRootTrans(start, before, h.nodes, Elems(tags[..i]), {tags[i]});
      assert tags[..i + 1][..i] == tags[..i];
    }
    assert tags[..|tags|] == tags;
    ElemsMembers(tags);
  }

  /** The tags of a list, as a set built front to back. */
  ghost function Elems(s: seq<string>): set<string>
    decreases |s|
  {
    if s == [] then {} else Elems(s[..|s| - 1]) + {s[|s| - 1]}
  }

  lemma {:induction false} ElemsMembers(s: seq<string>)
    ensures Elems(s) == set t | t in s
    decreases |s|
  {
    if s != [] {
      ElemsMembers(s[..|s| - 1]);
      assert s == s[..|s| - 1] + [s[|s| - 1]];
    }
  }

  /** Lines 114-149: select the type's assets, then drop the sections of
      the other types in the order the module does. */
  method SelectAssets(h: Glossary, assetType: string) returns (assets: seq<nat>)
    requires h.Valid()
    modifies h
    ensures h.Valid() && DroppedFromRoot(old(h.nodes), h.nodes, DroppedTags(assetType))
    ensures NoDup(assets)
    ensures AssetSection(assetType).None? ==> assets == []
    ensures AssetSection(assetType).Some? ==>
      forall x :: x in assets <==> 0 <= x < |old(h.nodes)| && InSection(old(h.nodes), AssetSection(assetType).value, x)
  {
    assets := [];
    var others: seq<string> := [];
    if assetType == "category" {
      assets := h.Select(Categories);
      others := ["terms", "synonymGroups", "policies", "rules", "labelDefinitions"];
    } else if assetType == "term" {
      assets := h.Select(Terms);
      others := ["categories", "policies", "rules", "labelDefinitions"];
    } else if assetType == "information_governance_policy" {
      assets := h.Select(Policies);
      others := ["categories", "terms", "synonymGroups", "rules", "labelDefinitions"];
    } else if assetType == "information_governance_rule" {
      assets := h.Select(Rules);
      others := ["categories", "terms", "synonymGroups", "policies", "labelDefinitions"];
    } else if assetType == "label" {
      assets := h.Select(Labels);
      others := ["categories", "terms", "synonymGroups", "policies", "rules"];
    }
    assert (set t | t in others) == DroppedTags(assetType);
    DropSections(h, others);
  }

  /** Some asset has no rid. */
  predicate RidMissing(nodes: seq<Node>, assets: seq<nat>)
  {
    exists i :: 0 <= i < |assets| && assets[i] < |nodes| && "rid" !in nodes[assets[i]].attrs
  }

  /** Some synonym group has a term reference without a rid. */
  predicate GroupRidMissing(nodes: seq<Node>)
  {
    exists g :: 0 <= g < |nodes| && InSection(nodes, SynonymGroups, g) && !TermRefsHaveRids(nodes, g)
  }

  /** The tags the synonym-group pass looks at. */
  const GroupTags: set<string> := {"synonymGroups", "synonymGroup", "synonyms", "termRef"}

  /** `glossary_filter_changes` (lines 112-171). When it succeeds, the
      custom attribute definitions and the other types' sections are gone;
      each of the type's assets stays exactly when its rid is kept, and the
      count is the number kept; for terms, each synonym group stays exactly
      when one of its terms is kept. An asset, or for terms a term
      reference, without a rid stops the module. `assets` are the type's
      assets in the original document. */
  method FilterChanges(h: Glossary, assetType: string, keep: seq<KeepEntry>) returns (r: Result<nat>, ghost assets: seq<nat>)
    requires h.Valid()
    modifies h
    ensures h.Valid()
    ensures NoDup(assets) && forall i :: 0 <= i < |assets| ==> assets[i] < |old(h.nodes)|
    ensures AssetSection(assetType).None? ==> assets == []
    ensures AssetSection(assetType).Some? ==>
      forall x :: x in assets <==> 0 <= x < |old(h.nodes)| && InSection(old(h.nodes), AssetSection(assetType).value, x)
    ensures r.Err? <==> RidMissing(old(h.nodes), assets) || (assetType == "term" && GroupRidMissing(old(h.nodes)))
    ensures r.Ok? ==> DetachedExactly(old(h.nodes), h.nodes, FilterRemoves(old(h.nodes), assetType, keep, assets))
    ensures r.Ok? ==> forall s :: s == CustomAttributeDefinitions || SectionTag(s) in DroppedTags(assetType) ==> Children(h.nodes, 0, SectionTag(s)) == []
    ensures r.Ok? ==> r.value == KeptCount(old(h.nodes), keep, assets)
    ensures r.Ok? ==> forall x :: x in assets ==>
      h.nodes[x].parent == (if KeptRid(old(h.nodes), keep, x) then old(h.nodes)[x].parent else NoParent)
    ensures r.Ok? && assetType == "term" ==> forall g :: 0 <= g < |old(h.nodes)| && InSection(old(h.nodes), SynonymGroups, g) ==>
      h.nodes[g].parent == (if AnyTermKept(old(h.nodes), keep, g) then old(h.nodes)[g].parent else NoParent)
  {
    ghost var o := h.nodes;
    ghost var sec: Section := if AssetSection(assetType).Some? then AssetSection(assetType).value else Categories;
    var selected := Prepare(h, assetType, sec);
    assets := selected;
    r := FilterSelected(h, assetType, keep, selected, o, sec);
  }

  /** Lines 151-171, once the sections are dropped and the type's assets
      selected: the asset pass, then for terms the synonym-group pass, both
      judged against the document `o` before any section was dropped. */
  method FilterSelected(h: Glossary, assetType: string, keep: seq<KeepEntry>, assets: seq<nat>, ghost o: seq<Node>, ghost sec: Section)
    returns (r: Result<nat>)
    requires h.Valid() && DroppedFromRoot(o, h.nodes, {"customAttributesDefinitions"} + DroppedTags(assetType))
    requires sec != SynonymGroups && (assetType == "term" ==> sec == Terms)
    requires NoDup(assets)
    requires forall i :: 0 <= i < |assets| ==>
      && assets[i] < |o| && 0 <= o[assets[i]].parent
      && h.nodes[assets[i]].parent == o[assets[i]].parent && h.nodes[assets[i]].tag == ElementTag(sec)
    modifies h
    ensures h.Valid()
    ensures r.Err? <==> RidMissing(o, assets) || (assetType == "term" && GroupRidMissing(o))
    ensures r.Ok? ==> DetachedExactly(o, h.nodes, FilterRemoves(o, assetType, keep, assets))
    ensures r.Ok? ==> forall s :: s == CustomAttributeDefinitions || SectionTag(s) in DroppedTags(assetType) ==> Children(h.nodes, 0, SectionTag(s)) == []
    ensures r.Ok? ==> r.value == KeptCount(o, keep, assets)
    ensures r.Ok? ==> forall x :: x in assets ==>
      h.nodes[x].parent == (if KeptRid(o, keep, x) then o[x].parent else NoParent)
    ensures r.Ok? && assetType == "term" ==> forall g :: 0 <= g < |o| && InSection(o, SynonymGroups, g) ==>
      h.nodes[g].parent == (if AnyTermKept(o, keep, g) then o[g].parent else NoParent)
  {
    ghost var d2 := h.nodes;
    TagsDistinct(sec, sec);
    var count := AssetPass(h, keep, assets);
    RidMissingPruned(o, d2, assets);
    if count.Err? {
      return Err(count.msg);
    }
    ghost var a := h.nodes;
    ghost var later: set<nat> := {};
    AssetRemovalTags(d2, keep, assets, sec);
    if assetType == "term" {
      TermPassTags(d2, AssetPassRemoves(d2, keep, assets), sec);
      var groups := TermGroups(h, keep, o, d2, {"customAttributesDefinitions"} + DroppedTags(assetType), AssetPassRemoves(d2, keep, assets));
      if groups.Err? {
        return Err(groups.msg);
      }
      later := OrphanGroups(a, keep);
      GroupsSurvive(o, d2, a, {"customAttributesDefinitions"} + DroppedTags(assetType), AssetPassRemoves(d2, keep, assets), keep);
    }
    Conclude(o, d2, a, h.nodes, keep, assets, sec, later, assetType);
    FilterRemovesExactly(o, d2, a, h.nodes, keep, assets, assetType, later);
    return Ok(count.value);
  }

  /** Lines 163-171 run after the asset pass of a term filter: judged
      against the original document, a group goes exactly when none of its
      terms is kept. */
  method TermGroups(h: Glossary, keep: seq<KeepEntry>, ghost o: seq<Node>, ghost d2: seq<Node>, ghost dropped: set<string>, ghost gone: set<nat>)
    returns (r: Result<()>)
    requires h.Valid() && DroppedFromRoot(o, d2, dropped) && DetachedExactly(d2, h.nodes, gone)
    requires forall t :: t in dropped ==> t !in GroupTags
    requires forall d :: d in gone ==> d < |d2| && d2[d].tag !in GroupTags
    modifies h
    ensures h.Valid()
    ensures r.Err? <==> GroupRidMissing(o)
    ensures r.Ok? ==> DetachedExactly(old(h.nodes), h.nodes, OrphanGroups(old(h.nodes), keep))
    ensures r.Ok? ==> forall g :: 0 <= g < |o| && InSection(o, SynonymGroups, g) ==>
      h.nodes[g].parent == (if AnyTermKept(o, keep, g) then o[g].parent else NoParent)
    ensures forall d :: d in OrphanGroups(old(h.nodes), keep) ==> d < |old(h.nodes)| && old(h.nodes)[d].tag == "synonymGroup"
  {
    GroupsSurvive(o, d2, h.nodes, dropped, gone, keep);
    ghost var a := h.nodes;
    r := SynonymPass(h, keep);
    GroupRidsSurvive(o, a);
    if r.Ok? {
      GroupOutcome(o, a, h.nodes, keep);
    }
  }

  /** Neither the sections a term filter drops nor what its asset pass
      removes carry a tag the synonym-group pass looks at. */
  lemma {:induction false} TermPassTags(d2: seq<Node>, gone: set<nat>, sec: Section)
    requires sec == Terms
    requires forall d :: d in gone ==> d < |d2| && (d2[d].tag == ElementTag(sec) || d2[d].tag == CustomAttributeValueTag)
    ensures forall t :: t in {"customAttributesDefinitions"} + DroppedTags("term") ==> t !in GroupTags
    ensures forall d :: d in gone ==> d < |d2| && d2[d].tag !in GroupTags
  {
  }

  /** The success case of the whole module, stage by stage. */
  lemma {:induction false} Conclude(o: seq<Node>, d2: seq<Node>, a: seq<Node>, f: seq<Node>, keep: seq<KeepEntry>, assets: seq<nat>, sec: Section, later: set<nat>, assetType: string)
    requires WellFormed(d2) && WellFormed(f)
    requires DroppedFromRoot(o, d2, {"customAttributesDefinitions"} + DroppedTags(assetType))
    requires ElementTag(sec) != CustomAttributeValueTag && ElementTag(sec) != "synonymGroup"
    requires forall i :: 0 <= i < |assets| ==>
      && assets[i] < |o| && d2[assets[i]].parent == o[assets[i]].parent && d2[assets[i]].tag == ElementTag(sec)
    requires DetachedExactly(d2, a, AssetPassRemoves(d2, keep, assets))
    requires DetachedExactly(a, f, later) && forall d :: d in later ==> d < |a| && a[d].tag == "synonymGroup"
    ensures PrunedFrom(o, f)
    ensures KeptCount(d2, keep, assets) == KeptCount(o, keep, assets)
    ensures forall x :: x in assets ==> f[x].parent == (if KeptRid(o, keep, x) then o[x].parent else NoParent)
    ensures forall s :: s == CustomAttributeDefinitions || SectionTag(s) in DroppedTags(assetType) ==> Children(f, 0, SectionTag(s)) == []
  {
    AssetOutcome(o, d2, a, f, keep, assets, sec, later);
    KeptCountPruned(o, d2, keep, assets);
    PrunedTrans(o, d2, a);
    PrunedTrans(o, a, f);
    PrunedTrans(d2, a, f);
    SectionsStayEmpty(o, d2, f, assetType);
  }

  /** Lines 112-149: drop the custom attribute definitions, select the
      type's assets and drop the other types' sections. */
  method Prepare(h: Glossary, assetType: string, ghost sec: Section) returns (assets: seq<nat>)
    requires h.Valid()
    requires AssetSection(assetType).Some? ==> sec == AssetSection(assetType).value
    modifies h
    ensures h.Valid() && DroppedFromRoot(old(h.nodes), h.nodes, {"customAttributesDefinitions"} + DroppedTags(assetType))
    ensures NoDup(assets)
    ensures AssetSection(assetType).None? ==> assets == []
    ensures AssetSection(assetType).Some? ==>
      forall x :: x in assets <==> 0 <= x < |old(h.nodes)| && InSection(old(h.nodes), sec, x)
    ensures forall i :: 0 <= i < |assets| ==>
      && assets[i] < |old(h.nodes)| && 0 <= old(h.nodes)[assets[i]].parent
      && h.nodes[assets[i]].parent == old(h.nodes)[assets[i]].parent && h.nodes[assets[i]].tag == ElementTag(sec)
  {
    ghost var o := h.nodes;
    h.DropSection("customAttributesDefinitions");
    ghost var d1 := h.nodes;
    DroppedFromRootOne(o, d1, "customAttributesDefinitions");
    assets := SelectAssets(h, assetType);
    DroppedFromRootTrans(o, d1, h.nodes, {"customAttributesDefinitions"}, DroppedTags(assetType));
    if AssetSection(assetType).Some? {
      SelectionTransfer(o, d1, sec, assets);
    }
    AssetFacts(o, h.nodes, {"customAttributesDefinitions"} + DroppedTags(assetType), sec, assets);
  }

  /** Dropping the custom attribute definitions leaves every other
      section's assets where they were. */
  lemma {:induction false} SelectionTransfer(o: seq<Node>, d1: seq<Node>, sec: Section, assets: seq<nat>)
    requires DroppedFromRoot(o, d1, {"customAttributesDefinitions"}) && sec != CustomAttributeDefinitions
    requires forall x :: x in assets <==> 0 <= x < |d1| && InSection(d1, sec, x)
    ensures forall x :: x in assets <==> 0 <= x < |o| && InSection(o, sec, x)
  {
    DroppedFromRootDetached(o, d1, {"customAttributesDefinitions"});
    TagsDistinct(sec, CustomAttributeDefinitions);
    assert ElementTag(sec) != "customAttributesDefinitions";
    var gone := set y | 0 <= y < |o| && o[y].parent == 0 && o[y].tag in {"customAttributesDefinitions"};
    forall x | 0 <= x < |o|
      ensures InSection(d1, sec, x) <==> InSection(o, sec, x)
    {
      GrandchildKept(o, d1, gone, x, 0, SectionTag(sec), ElementTag(sec));
    }
  }

  /** The selected assets sit below a section, not on the root, so dropping
      sections leaves them attached and unchanged. */
  lemma {:induction false} AssetFacts(o: seq<Node>, d2: seq<Node>, dropped: set<string>, sec: Section, assets: seq<nat>)
    requires WellFormed(o) && DroppedFromRoot(o, d2, dropped)
    requires forall x :: x in assets ==> 0 <= x < |o| && InSection(o, sec, x)
    ensures forall i :: 0 <= i < |assets| ==>
      && assets[i] < |o| && 0 <= o[assets[i]].parent
      && d2[assets[i]].parent == o[assets[i]].parent && d2[assets[i]].tag == ElementTag(sec)
  {
    forall i | 0 <= i < |assets|
      ensures assets[i] < |o| && 0 <= o[assets[i]].parent
      ensures d2[assets[i]].parent == o[assets[i]].parent && d2[assets[i]].tag == ElementTag(sec)
    {
      assert assets[i] in assets;
    }
  }

  /** Whether an asset lacks a rid does not change under removals. */
  lemma {:induction false} RidMissingPruned(o: seq<Node>, d2: seq<Node>, assets: seq<nat>)
    requires PrunedFrom(o, d2) && forall i :: 0 <= i < |assets| ==> assets[i] < |o|
    ensures RidMissing(o, assets) <==> exists i :: 0 <= i < |assets| && "rid" !in d2[assets[i]].attrs
  {
  }

  /** The asset pass removes only the type's assets and custom-attribute
      values. */
  lemma {:induction false} AssetRemovalTags(d2: seq<Node>, keep: seq<KeepEntry>, assets: seq<nat>, sec: Section)
    requires forall i :: 0 <= i < |assets| ==> assets[i] < |d2| && d2[assets[i]].tag == ElementTag(sec)
    ensures forall d :: d in AssetPassRemoves(d2, keep, assets) ==> d < |d2| && (d2[d].tag == ElementTag(sec) || d2[d].tag == CustomAttributeValueTag)
  {
    AssetPassRemovesTags(d2, keep, assets);
    forall d | d in AssetPassRemoves(d2, keep, assets) && d in assets
      ensures d2[d].tag == ElementTag(sec)
    {
      var i :| 0 <= i < |assets| && assets[i] == d;
    }
  }

  /** Removals that touch none of the synonym-group tags leave every group,
      its term references and their rids as they were. */
  lemma {:induction false} GroupsSurvive(o: seq<Node>, d2: seq<Node>, a: seq<Node>, dropped: set<string>, gone: set<nat>, keep: seq<KeepEntry>)
    requires DroppedFromRoot(o, d2, dropped) && DetachedExactly(d2, a, gone)
    requires forall t :: t in dropped ==> t !in GroupTags
    requires forall d :: d in gone ==> d < |d2| && d2[d].tag !in GroupTags
    ensures |a| == |o|
    ensures forall g :: 0 <= g < |o| ==>
      && (InSection(a, SynonymGroups, g) <==> InSection(o, SynonymGroups, g))
      && (TermRefsHaveRids(a, g) <==> TermRefsHaveRids(o, g))
      && (AnyTermKept(a, keep, g) <==> AnyTermKept(o, keep, g))
    ensures forall g :: 0 <= g < |o| && InSection(o, SynonymGroups, g) ==> a[g].parent == o[g].parent
  {
    DroppedFromRootDetached(o, d2, dropped);
    var s := set y | 0 <= y < |o| && o[y].parent == 0 && o[y].tag in dropped;
    DetachedExactlyTrans(o, d2, a, s, gone);
    forall g | 0 <= g < |o|
      ensures InSection(a, SynonymGroups, g) <==> InSection(o, SynonymGroups, g)
      ensures TermRefsHaveRids(a, g) <==> TermRefsHaveRids(o, g)
      ensures AnyTermKept(a, keep, g) <==> AnyTermKept(o, keep, g)
    {
      GrandchildKept(o, a, s + gone, g, 0, "synonymGroups", "synonymGroup");
      SameTermRefs(o, a, s + gone, g, keep);
    }
  }

  /** The synonym pass fails on the filtered document exactly when some
      group of the original one has a reference without a rid. */
  lemma {:induction false} GroupRidsSurvive(o: seq<Node>, a: seq<Node>)
    requires |a| == |o|
    requires forall g :: 0 <= g < |o| ==>
      && (InSection(a, SynonymGroups, g) <==> InSection(o, SynonymGroups, g))
      && (TermRefsHaveRids(a, g) <==> TermRefsHaveRids(o, g))
    ensures GroupRidMissing(o) <==>
      !forall g :: 0 <= g < |a| && Grandchild(a, g, 0, "synonymGroups", "synonymGroup") ==> TermRefsHaveRids(a, g)
  {
    if GroupRidMissing(o) {
      var g :| 0 <= g < |o| && InSection(o, SynonymGroups, g) && !TermRefsHaveRids(o, g);
      assert Grandchild(a, g, 0, "synonymGroups", "synonymGroup");
    }
  }

  /** For terms: a group stays exactly when one of its terms is kept. */
  lemma {:induction false} GroupOutcome(o: seq<Node>, a: seq<Node>, f: seq<Node>, keep: seq<KeepEntry>)
    requires |a| == |o|
    requires forall g :: 0 <= g < |o| ==>
      && (InSection(a, SynonymGroups, g) <==> InSection(o, SynonymGroups, g))
      && (AnyTermKept(a, keep, g) <==> AnyTermKept(o, keep, g))
    requires forall g :: 0 <= g < |o| && InSection(o, SynonymGroups, g) ==> a[g].parent == o[g].parent
    requires DetachedExactly(a, f, OrphanGroups(a, keep))
    ensures forall g :: 0 <= g < |o| && InSection(o, SynonymGroups, g) ==>
      f[g].parent == (if AnyTermKept(o, keep, g) then o[g].parent else NoParent)
  {
    forall g | 0 <= g < |o| && InSection(o, SynonymGroups, g)
      ensures f[g].parent == (if AnyTermKept(o, keep, g) then o[g].parent else NoParent)
    {
      GroupOutcomeOne(o, a, f, keep, g);
    }
  }

  /** The outcome for one synonym group. */
  lemma {:induction false} GroupOutcomeOne(o: seq<Node>, a: seq<Node>, f: seq<Node>, keep: seq<KeepEntry>, g: nat)
    requires g < |o| == |a| && InSection(o, SynonymGroups, g) && InSection(a, SynonymGroups, g)
    requires AnyTermKept(a, keep, g) <==> AnyTermKept(o, keep, g)
    requires a[g].parent == o[g].parent
    requires DetachedExactly(a, f, OrphanGroups(a, keep))
    ensures f[g].parent == (if AnyTermKept(o, keep, g) then o[g].parent else NoParent)
  {
    assert g in OrphanGroups(a, keep) <==> !AnyTermKept(a, keep, g);
  }

  /** Each asset stays exactly when its rid is kept. */
  lemma {:induction false} AssetOutcome(o: seq<Node>, d2: seq<Node>, a: seq<Node>, f: seq<Node>, keep: seq<KeepEntry>, assets: seq<nat>, sec: Section, later: set<nat>)
    requires PrunedFrom(o, d2) && ElementTag(sec) != CustomAttributeValueTag
    requires forall i :: 0 <= i < |assets| ==>
      && assets[i] < |o| && d2[assets[i]].parent == o[assets[i]].parent && d2[assets[i]].tag == ElementTag(sec)
    requires DetachedExactly(d2, a, AssetPassRemoves(d2, keep, assets))
    requires DetachedExactly(a, f, later) && forall d :: d in later ==> d < |a| && a[d].tag != ElementTag(sec)
    ensures forall x :: x in assets ==> f[x].parent == (if KeptRid(o, keep, x) then o[x].parent else NoParent)
  {
    forall x | x in assets
      ensures f[x].parent == (if KeptRid(o, keep, x) then o[x].parent else NoParent)
    {
      var i :| 0 <= i < |assets| && assets[i] == x;
      AssetPassRemovesAssets(d2, keep, assets, x);
      KeptRidPruned(o, d2, keep, x);
    }
  }

  /** The count does not depend on removals. */
  lemma {:induction false} KeptCountPruned(o: seq<Node>, d2: seq<Node>, keep: seq<KeepEntry>, xs: seq<nat>)
    requires PrunedFrom(o, d2) && forall i :: 0 <= i < |xs| ==> xs[i] < |o|
    ensures KeptCount(d2, keep, xs) == KeptCount(o, keep, xs)
    decreases |xs|
  {
    if xs != [] {
      KeptCountPruned(o, d2, keep, xs[..|xs| - 1]);
      KeptRidPruned(o, d2, keep, xs[|xs| - 1]);
    }
  }

  /** Dropped sections stay dropped through the later passes. */
  lemma {:induction false} SectionsStayEmpty(o: seq<Node>, d2: seq<Node>, f: seq<Node>, assetType: string)
    requires WellFormed(d2) && WellFormed(f) && PrunedFrom(d2, f)
    requires DroppedFromRoot(o, d2, {"customAttributesDefinitions"} + DroppedTags(assetType))
    ensures forall s :: s == CustomAttributeDefinitions || SectionTag(s) in DroppedTags(assetType) ==> Children(f, 0, SectionTag(s)) == []
  {
    forall s | s == CustomAttributeDefinitions || SectionTag(s) in DroppedTags(assetType)
      ensures Children(f, 0, SectionTag(s)) == []
    {
      DroppedFromRootEmpties(o, d2, {"customAttributesDefinitions"} + DroppedTags(assetType), SectionTag(s));
      ChildrenStayEmpty(d2, f, 0, SectionTag(s));
    }
  }

  // ---------------------------------------------------------------------------
  // Everything the module removes

  /** The root's sections a filter of the type drops: the custom attribute
      definitions and the other types' sections. */
  ghost function SectionsDropped(nodes: seq<Node>, assetType: string): set<nat>
  {
    set y | 0 <= y < |nodes| && nodes[y].parent == 0 && nodes[y].tag in {"customAttributesDefinitions"} + DroppedTags(assetType)
  }

  /** What a successful filter removes from the document: the dropped
      sections, what the asset pass removes and, for terms, the synonym
      groups none of whose terms is kept. */
  ghost function FilterRemoves(nodes: seq<Node>, assetType: string, keep: seq<KeepEntry>, assets: seq<nat>): set<nat>
    requires forall i :: 0 <= i < |assets| ==> assets[i] < |nodes|
  {
    SectionsDropped(nodes, assetType) + AssetPassRemoves(nodes, keep, assets)
      + (if assetType == "term" then OrphanGroups(nodes, keep) else {})
  }

  /** Removing elements that are neither custom-attribute containers nor
      reference lists leaves what the asset pass removes as it was, up to
      those elements. */
  lemma {:induction false} AssetPassRemovesDropped(o: seq<Node>, d2: seq<Node>, keep: seq<KeepEntry>, assets: seq<nat>, s: set<nat>)
    requires DetachedExactly(o, d2, s)
    requires forall d :: d in s ==> d < |o| && o[d].tag != CustomAttributesTag && o[d].tag != ReferencesTag
    requires forall i :: 0 <= i < |assets| ==> assets[i] < |o|
    ensures s + AssetPassRemoves(d2, keep, assets) == s + AssetPassRemoves(o, keep, assets)
    decreases |assets|
  {
    if assets != [] {
      var x := assets[|assets| - 1];
      AssetPassRemovesDropped(o, d2, keep, assets[..|assets| - 1], s);
      KeptRidPruned(o, d2, keep, x);
      RelationshipValuesKept(o, d2, s, x);
    }
  }

  /** The stages of a successful filter together remove exactly
      `FilterRemoves` of the original document. */
  lemma {:induction false} FilterRemovesExactly(o: seq<Node>, d2: seq<Node>, a: seq<Node>, f: seq<Node>, keep: seq<KeepEntry>, assets: seq<nat>, assetType: string, later: set<nat>)
    requires DroppedFromRoot(o, d2, {"customAttributesDefinitions"} + DroppedTags(assetType))
    requires forall i :: 0 <= i < |assets| ==> assets[i] < |o|
    requires DetachedExactly(d2, a, AssetPassRemoves(d2, keep, assets))
    requires DetachedExactly(a, f, later)
    requires later == if assetType == "term" then OrphanGroups(a, keep) else {}
    requires assetType == "term" ==> |a| == |o| && forall g :: 0 <= g < |o| ==>
      && (InSection(a, SynonymGroups, g) <==> InSection(o, SynonymGroups, g))
      && (AnyTermKept(a, keep, g) <==> AnyTermKept(o, keep, g))
    ensures DetachedExactly(o, f, FilterRemoves(o, assetType, keep, assets))
  {
    var dropped := {"customAttributesDefinitions"} + DroppedTags(assetType);
    DroppedFromRootDetached(o, d2, dropped);
    var s := SectionsDropped(o, assetType);
    DetachedExactlyTrans(o, d2, a, s, AssetPassRemoves(d2, keep, assets));
    DetachedExactlyTrans(o, a, f, s + AssetPassRemoves(d2, keep, assets), later);
    SectionsDroppedTags(o, assetType);
    AssetPassRemovesDropped(o, d2, keep, assets, s);
    if assetType == "term" {
      OrphanGroupsSame(o, a, keep);
    }
  }

  /** The dropped sections are neither custom-attribute containers nor
      reference lists. */
  lemma {:induction false} SectionsDroppedTags(o: seq<Node>, assetType: string)
    ensures forall d :: d in SectionsDropped(o, assetType) ==> d < |o| && o[d].tag != CustomAttributesTag && o[d].tag != ReferencesTag
  {
    assert CustomAttributesTag !in {"customAttributesDefinitions"} + DroppedTags(assetType);
    assert ReferencesTag !in {"customAttributesDefinitions"} + DroppedTags(assetType);
  }

  /** Documents that agree on which elements are synonym groups, and on
      which groups have a kept term, have the same orphan groups. */
  lemma {:induction false} OrphanGroupsSame(o: seq<Node>, a: seq<Node>, keep: seq<KeepEntry>)
    requires |a| == |o|
    requires forall g :: 0 <= g < |o| ==>
      && (InSection(a, SynonymGroups, g) <==> InSection(o, SynonymGroups, g))
      && (AnyTermKept(a, keep, g) <==> AnyTermKept(o, keep, g))
    ensures OrphanGroups(a, keep) == OrphanGroups(o, keep)
  {
    forall g | 0 <= g < |o|
      ensures g in OrphanGroups(a, keep) <==> g in OrphanGroups(o, keep)
    {
      assert InSection(a, SynonymGroups, g) <==> InSection(o, SynonymGroups, g);
    }
  }
}
