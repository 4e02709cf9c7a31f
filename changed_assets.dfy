/** `igc_get_changed_assets`: search the assets of one type changed within a
    time window and turn each into the object its export needs. Types that
    hold granular sub-assets widen the window test to those sub-assets with a
    nested OR group. */
module ChangedAssets {
  import opened Wrappers
  import opened RestModel
  import opened IgcRest
  import opened IgcClient
  import opened InfosvrTypes

  // ---------------------------------------------------------------------------
  // The window conditions per type

  // The sub-assets whose `modified_on` is also checked, as property paths
  // (the checked property is the path followed by `modified_on`).
  const ApplicationChildren: seq<string> := [
    "", "object_types.", "object_types.methods.",
    "object_types.methods.input_parameters.", "object_types.methods.output_values."]

  const StoredProcedureChildren: seq<string> := [
    "", "in_parameters.", "out_parameters.",
    "inout_parameters.", "result_columns."]

  const LogicalModelChildren: seq<string> := [
    "contains_logical_data_models.", "subject_areas.",
    "logical_entities.", "logical_domains."]

  const PhysicalModelChildren: seq<string> := [
    "contains_physical_models.", "contains_design_tables.",
    "contains_design_views.", "contains_design_stored_procedures.",
    "physical_domains."]

  const DatabaseChildren: seq<string> := [
    "database_schemas.", "database_schemas.stored_procedures.",
    "database_schemas.views.", "database_schemas.database_tables.",
    "database_schemas.database_tables.database_columns.",
    "database_schemas.views.database_columns."]

  const SchemaChildren: seq<string> := [
    "stored_procedures.", "views.", "database_tables.",
    "database_tables.database_columns.", "views.database_columns."]

  const ExecutionHistoryPath: string := "execution_history."

  /** How a type's window is checked. */
  datatype TimeShape =
    | GroupOnly(children: seq<string>)       // one OR group over the children
    | GroupAndOuter(children: seq<string>)   // an OR group over the children, and the asset's own window
    | ExecutionHistory                       // never run or run in the window, and the asset's own window
    | OuterOnly                              // the asset's own window
    | NoWindow                               // no `modified_on` to test

  function ShapeOf(assetType: string): TimeShape
  {
    if assetType == "application" then GroupOnly(ApplicationChildren)
    else if assetType == "stored_procedure_definition" then GroupOnly(StoredProcedureChildren)
    else if assetType in {"data_rule", "data_rule_set", "metric"} then ExecutionHistory
    else if assetType == "logical_data_model" then GroupAndOuter(LogicalModelChildren)
    else if assetType == "physical_data_model" then GroupAndOuter(PhysicalModelChildren)
    else if assetType == "database" then GroupAndOuter(DatabaseChildren)
    else if assetType == "database_schema" then GroupAndOuter(SchemaChildren)
    else if assetType == "label" then NoWindow
    else OuterOnly
  }

  function Window(property: string, fromTime: int, toTime: int): Condition
  {
    Between(property, fromTime, Some(toTime))
  }

  /** A window on the `modified_on` under each path, in order. */
  function Windows(paths: seq<string>, fromTime: int, toTime: int): (r: seq<Condition>)
    ensures |r| == |paths|
    ensures forall i :: 0 <= i < |r| ==> r[i] == Window(paths[i] + "modified_on", fromTime, toTime)
    decreases |paths|
  {
    if paths == [] then []
    else Windows(paths[..|paths| - 1], fromTime, toTime) + [Window(paths[|paths| - 1] + "modified_on", fromTime, toTime)]
  }

  /** The generated conditions of the outer AND list. */
  function TimeConditions(assetType: string, fromTime: int, toTime: int): seq<Condition>
  {
    match ShapeOf(assetType)
    case GroupOnly(children) => [Group(Windows(children, fromTime, toTime), "or")]
    case GroupAndOuter(children) =>
      [Group(Windows(children, fromTime, toTime), "or"), Window("modified_on", fromTime, toTime)]
    case ExecutionHistory =>
      [Group([IsNull("execution_history", false), Window(ExecutionHistoryPath + "modified_on", fromTime, toTime)], "or"),
       Window("modified_on", fromTime, toTime)]
    case OuterOnly => [Window("modified_on", fromTime, toTime)]
    case NoWindow => []
  }

  /** The search request: the type's properties, the generated conditions,
      then the caller's conditions, all AND'ed. */
  function ChangeQuery(assetType: string, fromTime: int, toTime: int, conditions: seq<Condition>, batch: int): Query
  {
    Query(GetProperties(assetType), [assetType],
          Some(Where(TimeConditions(assetType, fromTime, toTime) + conditions, "and")), batch, None)
  }

  // ---------------------------------------------------------------------------
  // What the window test is for each kind of type

  /** Every test in a condition is a window on some `modified_on` in
      [fromTime, toTime], or the never-run test. */
  predicate TestsWindow(c: Condition, fromTime: int, toTime: int)
  {
    match c
    case Between(p, lo, hi) => lo == fromTime && hi == Some(toTime) && EndsWithModifiedOn(p)
    case IsNull(p, negated) => p == "execution_history" && !negated
    case Group(cs, op) => op == "or" && forall i :: 0 <= i < |cs| ==> TestsLeafWindow(cs[i], fromTime, toTime)
    case Compare(_, _, _) => false
  }

  predicate TestsLeafWindow(c: Condition, fromTime: int, toTime: int)
  {
    match c
    case Between(p, lo, hi) => lo == fromTime && hi == Some(toTime) && EndsWithModifiedOn(p)
    case IsNull(p, negated) => p == "execution_history" && !negated
    case _ => false
  }

  predicate EndsWithModifiedOn(p: string)
  {
    |p| >= 11 && p[|p| - 11..] == "modified_on"
  }

  lemma {:induction false} WindowsTest(paths: seq<string>, fromTime: int, toTime: int)
    ensures forall c :: c in Windows(paths, fromTime, toTime) ==> TestsLeafWindow(c, fromTime, toTime)
  {
    forall i | 0 <= i < |paths|
      ensures EndsWithModifiedOn(paths[i] + "modified_on")
    {
      assert (paths[i] + "modified_on")[|paths[i]|..] == "modified_on";
    }
  }

  /** Only a label has no window to test. */
  lemma {:induction false} OnlyLabelHasNoWindow(assetType: string, fromTime: int, toTime: int)
    ensures TimeConditions(assetType, fromTime, toTime) == [] <==> assetType == "label"
  {
    assert TimeConditions(assetType, fromTime, toTime) == [] <==> ShapeOf(assetType) == NoWindow;
  }

  /** The generated conditions only test the window. */
  lemma {:induction false} TimeConditionsTestWindow(assetType: string, fromTime: int, toTime: int)
    ensures forall i :: 0 <= i < |TimeConditions(assetType, fromTime, toTime)| ==>
      TestsWindow(TimeConditions(assetType, fromTime, toTime)[i], fromTime, toTime)
  {
    var own := Window("modified_on", fromTime, toTime);
    assert TestsWindow(own, fromTime, toTime) by {
      WindowsTest([""], fromTime, toTime);
      assert "" + "modified_on" == "modified_on";
    }
    match ShapeOf(assetType)
    case GroupOnly(cs) =>
      WindowsTest(cs, fromTime, toTime);
    case GroupAndOuter(cs) =>
      WindowsTest(cs, fromTime, toTime);
    case ExecutionHistory =>
      WindowsTest([ExecutionHistoryPath], fromTime, toTime);
    case OuterOnly =>
    case NoWindow =>
  }

  /** Types with sub-assets: one OR group at index 0 (five windows for an
      application or stored procedure, which have no outer window), and for
      models, databases and schemas the asset's own window at index 1. */
  lemma {:induction false} GroupedShapes(assetType: string, fromTime: int, toTime: int)
    ensures var tc := TimeConditions(assetType, fromTime, toTime);
      && (assetType in {"application", "stored_procedure_definition"} ==>
            |tc| == 1 && tc[0].Group? && tc[0].operator == "or" && |tc[0].conditions| == 5
            && forall i :: 0 <= i < 5 ==> tc[0].conditions[i].Between?)
      && (assetType in {"logical_data_model", "physical_data_model", "database", "database_schema"} ==>
            |tc| == 2 && tc[0].Group? && tc[0].operator == "or" && tc[1] == Window("modified_on", fromTime, toTime))
      && (assetType in {"data_rule", "data_rule_set", "metric"} ==>
            tc == [Group([IsNull("execution_history", false), Window(ExecutionHistoryPath + "modified_on", fromTime, toTime)], "or"),
                   Window("modified_on", fromTime, toTime)])
  {
  }

  /** Any other type (but a label) gets exactly one window, on its own
      `modified_on`. */
  lemma {:induction false} PlainShape(assetType: string, fromTime: int, toTime: int)
    requires assetType !in {"application", "stored_procedure_definition", "data_rule", "data_rule_set", "metric",
                            "logical_data_model", "physical_data_model", "database", "database_schema", "label"}
    ensures TimeConditions(assetType, fromTime, toTime) == [Between("modified_on", fromTime, Some(toTime))]
  {
  }

  // ---------------------------------------------------------------------------
  // Building the request

  /** Appends a window on each property to an OR group. */
  method AppendWindows(group: Condition, properties: seq<string>, fromTime: int, toTime: int) returns (g: Condition)
    requires group.Group?
    ensures g == group.(conditions := group.conditions + Windows(properties, fromTime, toTime))
  {
    g := group;
    for i := 0 to |properties|
      invariant g == group.(conditions := group.conditions + Windows(properties[..i], fromTime, toTime))
    {
      assert properties[..i + 1][..i] == properties[..i];
      g := g.(conditions := g.conditions + [Window(properties[i] + "modified_on", fromTime, toTime)]);
    }
    assert properties[..|properties|] == properties;
  }

  /** The request as built (lines 215-485): the time conditions of the type,
      then the caller's conditions, all under `and`. */
  method BuildChangeQuery(assetType: string, fromTime: int, toTime: int, conditions: seq<Condition>, batch: int)
    returns (q: Query)
    ensures q == ChangeQuery(assetType, fromTime, toTime, conditions, batch)
  {
    var conds := BuildTimeConditions(assetType, fromTime, toTime);
    if |conditions| > 0 {
      conds := conds + conditions;
    } else {
      assert conds + conditions == conds;
    }
    q := Query(GetProperties(assetType), [assetType], Some(Where(conds, "and")), batch, None);
  }

  /** Lines 227-482: the time conditions for the asset's type. The OR group
      is appended first and filled in place, and the asset's own window
      follows it. */
  method BuildTimeConditions(assetType: string, fromTime: int, toTime: int) returns (conds: seq<Condition>)
    ensures conds == TimeConditions(assetType, fromTime, toTime)
  {
    conds := [];
    var shape := ShapeOf(assetType);
    if shape.GroupOnly? {
      conds := conds + [Group([], "or")];
      var g := AppendWindows(conds[0], shape.children, fromTime, toTime);
      assert [] + Windows(shape.children, fromTime, toTime) == Windows(shape.children, fromTime, toTime);
      conds := conds[0 := g];
      assert conds == [Group(Windows(shape.children, fromTime, toTime), "or")];
    } else if shape.ExecutionHistory? {
      var never := IsNull("execution_history", false);
      var ran := Window(ExecutionHistoryPath + "modified_on", fromTime, toTime);
      conds := conds + [Group([], "or")];
      assert conds == [Group([], "or")];
      var group := conds[0].(conditions := conds[0].conditions + [never]);
      assert [] + [never] == [never];
      conds := conds[0 := group];
      assert conds == [Group([never], "or")];
      group := conds[0].(conditions := conds[0].conditions + [ran]);
      assert [never] + [ran] == [never, ran];
      conds := conds[0 := group];
      assert conds == [Group([never, ran], "or")];
      conds := conds + [Window("modified_on", fromTime, toTime)];
    } else if shape.GroupAndOuter? {
      conds := conds + [Group([], "or")];
      conds := conds + [Window("modified_on", fromTime, toTime)];
      var g := AppendWindows(conds[0], shape.children, fromTime, toTime);
      assert [] + Windows(shape.children, fromTime, toTime) == Windows(shape.children, fromTime, toTime);
      conds := conds[0 := g];
      assert conds == [Group(Windows(shape.children, fromTime, toTime), "or"), Window("modified_on", fromTime, toTime)];
    } else if shape.OuterOnly? {
      conds := conds + [Window("modified_on", fromTime, toTime)];
    }
  }

  // ---------------------------------------------------------------------------
  // Turning the results into extract objects

  /** The extract objects of the items, in order, skipping those without one;
      an unsupported type or an item the builder cannot read stops the run. */
  function Collected(assetType: string, items: seq<Asset>): Result<seq<Extract>>
    decreases |items|
  {
    if items == [] then Ok([])
    else match Collected(assetType, items[..|items| - 1])
      case Err(msg) => Err(msg)
      case Ok(done) =>
        match GetAssetExtractObject(assetType, items[|items| - 1])
        case Err(msg) => Err(msg)
        case Ok(Unimplemented) => Err("Unable to convert asset_type \"" + assetType + "\"")
        case Ok(NoExtract) => Ok(done)
        case Ok(Extracted(e)) => Ok(done + [e])
  }

  /** At most one object per item; an unsupported type fails as soon as there
      is an item, and only table definitions and data classes can be skipped. */
  lemma {:induction false} CollectedBounds(assetType: string, items: seq<Asset>)
    ensures Collected(assetType, items).Ok? ==> |Collected(assetType, items).value| <= |items|
    ensures assetType !in SupportedTypes && items != [] ==> Collected(assetType, items).Err?
    ensures Collected(assetType, items).Ok? && assetType !in {"table_definition", "data_class"} ==>
      |Collected(assetType, items).value| == |items|
    decreases |items|
  {
    if items != [] {
      CollectedBounds(assetType, items[..|items| - 1]);
      var last := GetAssetExtractObject(assetType, items[|items| - 1]);
      if assetType !in SupportedTypes {
        assert last == Ok(Unimplemented);
      }
    }
  }

  /** The ids of the items, failing at the first item without one. */
  function RidsOrFail(items: seq<Asset>): (r: Result<seq<Extract>>)
    decreases |items|
  {
    if items == [] then Ok([])
    else match RidsOrFail(items[..|items| - 1])
      case Err(msg) => Err(msg)
      case Ok(done) =>
        match RidOnlyExtract(items[|items| - 1])
        case Err(msg) => Err(msg)
        case Ok(e) => Ok(done + [e])
  }

  /** For glossary types the run collects the ids of the hits. */
  lemma {:induction false} CollectedGlossary(assetType: string, items: seq<Asset>)
    requires assetType in GlossaryTypes
    ensures Collected(assetType, items) == RidsOrFail(items)
    decreases |items|
  {
    if items != [] {
      CollectedGlossary(assetType, items[..|items| - 1]);
      assert GetAssetExtractObject(assetType, items[|items| - 1]) == Wrap(RidOnlyExtract(items[|items| - 1]));
    }
  }

  /** The ids are collected exactly when every hit has one, and then one per
      hit, in order. */
  lemma {:induction false} RidsOrFailExactly(items: seq<Asset>)
    ensures RidsOrFail(items).Ok? <==> forall i :: 0 <= i < |items| ==> items[i].id.Some?
    ensures RidsOrFail(items).Ok? ==>
      && |RidsOrFail(items).value| == |items|
      && forall i :: 0 <= i < |items| ==> RidsOrFail(items).value[i] == RidOnly(items[i].id.value)
    decreases |items|
  {
    if items != [] {
      var init := items[..|items| - 1];
      RidsOrFailExactly(init);
      assert forall i :: 0 <= i < |init| ==> init[i] == items[i];
    }
  }

  /** The loop over the hits (lines 495-501). */
  method CollectExtracts(assetType: string, items: seq<Asset>) returns (r: Result<seq<Extract>>)
    ensures r == Collected(assetType, items)
  {
    var assets: seq<Extract> := [];
    for i := 0 to |items|
      invariant Collected(assetType, items[..i]) == Ok(assets)
    {
      assert items[..i + 1][..i] == items[..i];
      var obj := GetAssetExtractObject(assetType, items[i]);
      if obj.Err? {
        CollectedErrSticks(assetType, items, i + 1);
        return Err(obj.msg);
      }
      match obj.value
      case Unimplemented =>
        CollectedErrSticks(assetType, items, i + 1);
        return Err("Unable to convert asset_type \"" + assetType + "\"");
      case NoExtract =>
      case Extracted(e) =>
        assets := assets + [e];
    }
    assert items[..|items|] == items;
    r := Ok(assets);
  }

  // ---------------------------------------------------------------------------
  // The run

  /** `main` (lines 212-501): one search (logged); a failed search fails the
      run; otherwise every hit is counted and the extract objects collected. */
  method Run(igc: RestIGC, assetType: string, fromTime: int, toTime: int, conditions: seq<Condition>, batch: int)
    returns (r: Result<seq<Extract>>, assetCount: nat)
    modifies igc`queries
    ensures var q := ChangeQuery(assetType, fromTime, toTime, conditions, batch);
      && igc.queries == old(igc.queries) + [q]
      && (igc.backend.search(q).SearchFailed? ==> r.Err? && assetCount == 0)
      && (igc.backend.search(q).Answered? ==>
            var items := Collect(igc.backend.search(q)).value;
            assetCount == |items| && r == Collected(assetType, items))
  {
    assetCount := 0;
    var q := BuildChangeQuery(assetType, fromTime, toTime, conditions, batch);
    var found := igc.Search(q);
    if found.None? {
      return Err("Initial IGC REST API search failed"), assetCount;
    }
    assetCount := |found.value|;
    r := CollectExtracts(assetType, found.value);
  }

  lemma {:induction false} CollectedErrSticks(assetType: string, items: seq<Asset>, n: nat)
    requires n <= |items| && Collected(assetType, items[..n]).Err?
    ensures Collected(assetType, items) == Collected(assetType, items[..n])
    decreases |items|
  {
    if n < |items| {
      assert items[..|items| - 1][..n] == items[..n];
      CollectedErrSticks(assetType, items[..|items| - 1], n);
    } else {
      assert items[..n] == items;
    }
  }
}
