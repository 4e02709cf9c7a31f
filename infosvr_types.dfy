/** The asset-type tables and the builders of the objects that name an asset for
    the command-line export tools (DataStage, Information Analyzer, external
    assets, extension mapping documents, data classes, governance assets). */
module InfosvrTypes {
  import opened Wrappers
  import opened Text
  import opened RestModel

  const CommonProperties: seq<string> := ["modified_on"]

  /** The extra properties retrieved for each type, before the common ones. */
  const ExtraProperties: map<string, seq<string>> := map[
    "dsjob" := ["type"],
    "routine" := [],
    "shared_container" := ["type"],
    "table_definition" := ["data_store", "data_schema", "data_source_name"],
    "parameter_set" := [],
    "data_class" := ["class_code"],
    "extension_mapping_document" := ["file_name", "parent_folder"],
    "application" := [],
    "file" := [],
    "stored_procedure_definition" := [],
    "data_rule_definition" := ["project"],
    "data_rule_set_definition" := ["project"],
    "data_rule" := ["project"],
    "data_rule_set" := ["project"],
    "metric" := ["project"]
  ]

  /** The properties retrieved for an asset type. */
  function GetProperties(assetType: string): (r: seq<string>)
    ensures |r| >= 1 && r[|r| - 1] == "modified_on"
    ensures assetType !in ExtraProperties ==> r == CommonProperties
    ensures assetType in ExtraProperties ==> r == ExtraProperties[assetType] + CommonProperties
  {
    if assetType in ExtraProperties then ExtraProperties[assetType] + CommonProperties else CommonProperties
  }

  const ExternalExtractTypes: map<string, string> := map[
    "application" := "Application",
    "file" := "File",
    "stored_procedure_definition" := "StoredProcedure",
    "in_parameter" := "InParameter",
    "out_parameter" := "OutParameter",
    "inout_parameter" := "InOutParameter",
    "result_column" := "ResultColumn",
    "object_type" := "ObjectType",
    "method" := "Method",
    "input_parameter" := "InputParameter",
    "output_value" := "OutputValue"
  ]

  const IaExtractTypes: map<string, string> := map[
    "data_rule_definition" := "DataRuleDefinitions/DataRuleDefinition",
    "data_rule_set_definition" := "DataRuleDefinitions/RuleSetDefinition",
    "data_rule" := "DataRuleDefinitions/DataRuleDefinition/ExecutableRules/ExecutableRule",
    "data_rule_set" := "DataRuleDefinitions/RuleSetDefinition/ExecutableRules/ExecutableRule",
    "metric" := "Metrics/Metric"
  ]

  /** The separator of qualified table-definition names (two backslashes). */
  const TdSep: string := "\\\\"

  /** Default table definitions of a fresh installation, never exported. */
  const TableDefinitionBlacklist: seq<string> := [
    "Examples" + TdSep + "Folder",
    "WebSphere MQ Connector" + TdSep + "MQMessage",
    "Examples" + TdSep + "SOAPbody",
    "Distributed Transaction" + TdSep + "TransactionStatus"
  ]

  /** The object naming an asset for export. */
  datatype Extract =
    | DsExtract(host: string, project: string, folder: string, jobs: string)
    | RidOnly(rid: string)
    | ClassCodeExtract(classCode: Value)
    | MappingDocExtract(name: string, folder: string, file: Value)
    | ExternalExtract(name: string, extractType: Option<string>)
    | IaExtract(project: string, name: string, extractType: Option<string>)

  /** What the dispatcher answers: an object, nothing (`None`), or `"UNIMPLEMENTED"`. */
  datatype ExtractOutcome = Extracted(extract: Extract) | NoExtract | Unimplemented

  /** A property that must be present (else a KeyError). */
  function Prop(item: Asset, key: string): (r: Result<Value>)
    ensures r.Ok? <==> GetProp(item.props, key).Some?
  {
    match GetProp(item.props, key)
    case None => Err("KeyError: " + key)
    case Some(v) => Ok(v)
  }

  /** A property compared with `''` and then prefixed: only a string survives both. */
  function StrProp(item: Asset, key: string): (r: Result<string>)
    ensures r.Ok? <==> GetProp(item.props, key).Some? && GetProp(item.props, key).value.Str?
  {
    match GetProp(item.props, key)
    case Some(Str(s)) => Ok(s)
    case Some(_) => Err("TypeError: " + key + " is not a string")
    case None => Err("KeyError: " + key)
  }

  // ---------------------------------------------------------------------------
  // DataStage

  /** The file extensions of DataStage jobs and shared containers, by their `type`. */
  const JobExtensions: map<Value, string> := map[Str("Parallel") := ".pjb", Str("Sequence") := ".qjb", Str("Server") := ".sjb"]
  const ContainerExtensions: map<Value, string> := map[Str("PARALLEL") := ".psc", Str("SERVER") := ".ssc"]

  function Extension(table: map<Value, string>, t: Value): string
  {
    if t in table then table[t] else ".*"
  }

  /** The host and project of a DataStage asset: its first two context entries. */
  predicate HasProject(item: Asset)
  {
    |item.context| >= 2
  }

  function DsJobExtract(item: Asset): (r: Result<Extract>)
    ensures r.Ok? <==> HasProject(item) && GetProp(item.props, "type").Some?
    ensures r.Ok? ==> r.value == DsExtract(item.context[0].name, item.context[1].name, "*",
                                           item.name + Extension(JobExtensions, GetProp(item.props, "type").value))
  {
    if !HasProject(item) then Err("IndexError: _context")
    else
      var host, project, jobs := item.context[0].name, item.context[1].name, item.name;
      match Prop(item, "type")
      case Err(msg) => Err(msg)
      case Ok(t) =>
        if t == Str("Parallel") then Ok(DsExtract(host, project, "*", jobs + ".pjb"))
        else if t == Str("Sequence") then Ok(DsExtract(host, project, "*", jobs + ".qjb"))
        else if t == Str("Server") then Ok(DsExtract(host, project, "*", jobs + ".sjb"))
        else Ok(DsExtract(host, project, "*", jobs + ".*"))
  }

  function DsRoutineExtract(item: Asset): (r: Result<Extract>)
    ensures r.Ok? <==> HasProject(item)
    ensures r.Ok? ==> r.value == DsExtract(item.context[0].name, item.context[1].name, "*", item.name + ".*")
  {
    if !HasProject(item) then Err("IndexError: _context")
    else Ok(DsExtract(item.context[0].name, item.context[1].name, "*", item.name + ".*"))
  }

  function DsSharedContainerExtract(item: Asset): (r: Result<Extract>)
    ensures r.Ok? <==> HasProject(item) && GetProp(item.props, "type").Some?
    ensures r.Ok? ==> r.value == DsExtract(item.context[0].name, item.context[1].name, "*",
                                           item.name + Extension(ContainerExtensions, GetProp(item.props, "type").value))
  {
    if !HasProject(item) then Err("IndexError: _context")
    else
      var host, project, jobs := item.context[0].name, item.context[1].name, item.name;
      match Prop(item, "type")
      case Err(msg) => Err(msg)
      case Ok(t) =>
        if t == Str("PARALLEL") then Ok(DsExtract(host, project, "*", jobs + ".psc"))
        else if t == Str("SERVER") then Ok(DsExtract(host, project, "*", jobs + ".ssc"))
        else Ok(DsExtract(host, project, "*", jobs + ".*"))
  }

  function DsParameterSetExtract(item: Asset): (r: Result<Extract>)
    ensures r.Ok? <==> HasProject(item)
    ensures r.Ok? ==> r.value == DsExtract(item.context[0].name, item.context[1].name, "*", item.name + ".pst")
  {
    if !HasProject(item) then Err("IndexError: _context")
    else Ok(DsExtract(item.context[0].name, item.context[1].name, "*", item.name + ".pst"))
  }

  /** The non-empty parts of a table definition's qualified name, outermost first. */
  function QualifiedParts(store: string, source: string, name: string): seq<string>
  {
    (if store != "" then [store] else []) + (if source != "" then [source] else []) + [name]
  }

  lemma {:induction false} QualifiedJoin(store: string, source: string, name: string)
    ensures Join(QualifiedParts(store, source, name), TdSep)
         == (if store != "" then store + TdSep else "") + (if source != "" then source + TdSep else "") + name
  {
    var tail := (if source != "" then [source] else []) + [name];
    assert Join(tail, TdSep) == (if source != "" then source + TdSep else "") + name by {
      if source != "" { assert tail[1..] == [name]; }
    }
    if store != "" {
      var parts := QualifiedParts(store, source, name);
      assert parts == [store] + tail && parts[1..] == tail;
    } else {
      assert QualifiedParts(store, source, name) == tail;
    }
  }

  /** The export name of a table definition: its name qualified by data source and
      data store, or `""` when blacklisted. */
  function QualifiedTableDefinitionName(item: Asset): (r: Result<string>)
    ensures r.Ok? ==> StrProp(item, "data_source_name").Ok? && StrProp(item, "data_store").Ok?
    ensures r.Ok? ==>
      var full := Join(QualifiedParts(StrProp(item, "data_store").value, StrProp(item, "data_source_name").value, item.name), TdSep);
      r.value == if full in TableDefinitionBlacklist then "" else full + ".tbd"
  {
    match StrProp(item, "data_source_name")
    case Err(msg) => Err(msg)
    case Ok(source) =>
      var qualified := if source != "" then source + TdSep + item.name else item.name;
      match StrProp(item, "data_store")
      case Err(msg) => Err(msg)
      case Ok(store) =>
        var full := if store != "" then store + TdSep + qualified else qualified;
        QualifiedJoin(store, source, item.name);
        assert full == Join(QualifiedParts(store, source, item.name), TdSep);
        if full !in TableDefinitionBlacklist then Ok(full + ".tbd") else Ok("")
  }

  /** A table definition is exported unless blacklisted. */
  function DsTableDefinitionExtract(item: Asset): (r: Result<ExtractOutcome>)
    ensures r.Ok? ==> r.value == NoExtract || r.value.Extracted?
    ensures r.Ok? ==> HasProject(item) && QualifiedTableDefinitionName(item).Ok?
    ensures r.Ok? ==> (r.value == NoExtract <==> QualifiedTableDefinitionName(item).value == "")
    ensures r.Ok? && r.value.Extracted? ==>
      r.value.extract == DsExtract(item.context[0].name, item.context[1].name, "*", QualifiedTableDefinitionName(item).value)
  {
    if !HasProject(item) then Err("IndexError: _context")
    else match QualifiedTableDefinitionName(item)
      case Err(msg) => Err(msg)
      case Ok(jobs) =>
        if jobs != "" then Ok(Extracted(DsExtract(item.context[0].name, item.context[1].name, "*", jobs))) else Ok(NoExtract)
  }

  /** No blacklisted name survives as an export name, and every export name ends in `.tbd`. */
  lemma {:induction false} TableDefinitionNames(item: Asset)
    requires QualifiedTableDefinitionName(item).Ok? && QualifiedTableDefinitionName(item).value != ""
    ensures var n := QualifiedTableDefinitionName(item).value;
      |n| >= 4 && n[|n| - 4..] == ".tbd" && n[..|n| - 4] !in TableDefinitionBlacklist
  {
    var n := QualifiedTableDefinitionName(item).value;
    assert n[..|n| - 4] + ".tbd" == n;
  }

  // ---------------------------------------------------------------------------
  // Other asset families

  /** Only a top-level data class is exported, by its class code. */
  function DataClassExtract(item: Asset): (r: Result<ExtractOutcome>)
    ensures r.Ok? ==> r.value == NoExtract || r.value.Extracted?
    ensures item.context != [] ==> r == Ok(NoExtract)
    ensures item.context == [] ==> (r.Ok? <==> GetProp(item.props, "class_code").Some?)
    ensures r.Ok? && r.value.Extracted? ==> item.context == [] && r.value.extract == ClassCodeExtract(GetProp(item.props, "class_code").value)
  {
    if |item.context| == 0 then
      match Prop(item, "class_code")
      case Err(msg) => Err(msg)
      case Ok(code) => Ok(Extracted(ClassCodeExtract(code)))
    else Ok(NoExtract)
  }

  /** `parent_folder['_name']`: the folder must be a reference object with a name. */
  function FolderName(item: Asset): (r: Result<string>)
    ensures r.Ok? <==> GetProp(item.props, "parent_folder").Some? && GetProp(item.props, "parent_folder").value.Obj?
                       && "_name" in GetProp(item.props, "parent_folder").value.fields
  {
    match Prop(item, "parent_folder")
    case Err(msg) => Err(msg)
    case Ok(Obj(fields)) => if "_name" in fields then Ok(fields["_name"]) else Err("KeyError: _name")
    case Ok(_) => Err("TypeError: parent_folder is not an object")
  }

  function MappingDocumentExtract(item: Asset): (r: Result<Extract>)
    ensures r.Ok? <==> FolderName(item).Ok? && GetProp(item.props, "file_name").Some?
    ensures r.Ok? ==> r.value == MappingDocExtract(item.name, FolderName(item).value, GetProp(item.props, "file_name").value)
  {
    match FolderName(item)
    case Err(msg) => Err(msg)
    case Ok(folder) =>
      match Prop(item, "file_name")
      case Err(msg) => Err(msg)
      case Ok(file) => Ok(MappingDocExtract(item.name, folder, file))
  }

  function Lookup(table: map<string, string>, key: string): (r: Option<string>)
    ensures r.Some? <==> key in table
    ensures r.Some? ==> r.value == table[key]
  {
    if key in table then Some(table[key]) else None
  }

  function ExternalAssetExtract(item: Asset): (r: Extract)
    ensures r.ExternalExtract? && r.name == item.name
    ensures r.extractType.Some? <==> item.typ in ExternalExtractTypes
  {
    ExternalExtract(item.name, Lookup(ExternalExtractTypes, item.typ))
  }

  /** `project[0]`: the first name of a list, or the first character of a string. */
  function FirstProject(item: Asset): (r: Result<string>)
  {
    match Prop(item, "project")
    case Err(msg) => Err(msg)
    case Ok(StrList(names)) => if |names| > 0 then Ok(names[0]) else Err("IndexError: project")
    case Ok(Str(s)) => if |s| > 0 then Ok(s[..1]) else Err("IndexError: project")
    case Ok(_) => Err("project is not a list of names")
  }

  function InfoAnalyzerExtract(item: Asset): (r: Result<Extract>)
    ensures r.Ok? <==> FirstProject(item).Ok?
    ensures r.Ok? ==> r.value.IaExtract? && r.value.name == item.name && r.value.project == FirstProject(item).value
    ensures r.Ok? ==> (r.value.extractType.Some? <==> item.typ in IaExtractTypes)
    ensures GetProp(item.props, "project") == Some(StrList(["p"])) ==> r.Ok? && r.value.project == "p"
  {
    match FirstProject(item)
    case Err(msg) => Err(msg)
    case Ok(project) => Ok(IaExtract(project, item.name, Lookup(IaExtractTypes, item.typ)))
  }

  function RidOnlyExtract(item: Asset): (r: Result<Extract>)
    ensures r.Ok? <==> item.id.Some?
    ensures r.Ok? ==> r.value == RidOnly(item.id.value)
  {
    if item.id.Some? then Ok(RidOnly(item.id.value)) else Err("KeyError: _id")
  }

  // ---------------------------------------------------------------------------
  // Dispatch

  const DataStageTypes: set<string> := {"dsjob", "routine", "shared_container", "table_definition", "parameter_set"}
  const ExternalTypes: set<string> := {"application", "file", "stored_procedure_definition"}
  const GlossaryTypes: set<string> := {"category", "term", "information_governance_policy", "information_governance_rule", "label"}
  const IaTypes: set<string> := {"data_rule_definition", "data_rule_set_definition", "data_rule", "data_rule_set", "metric"}

  /** The types for which an export object can be built. */
  const SupportedTypes: set<string> := DataStageTypes + ExternalTypes + GlossaryTypes + IaTypes + {"data_class", "extension_mapping_document"}

  /** The singled-out types belong to none of the groups, and the groups
      share no type. */
  lemma {:induction false} KindsApart()
    ensures forall t :: t in {"dsjob", "routine", "shared_container", "table_definition", "parameter_set", "data_class", "extension_mapping_document"} ==>
      t !in ExternalTypes && t !in GlossaryTypes
    ensures ExternalTypes !! GlossaryTypes
  {
  }

  function Wrap(r: Result<Extract>): Result<ExtractOutcome>
  {
    match r
    case Err(msg) => Err(msg)
    case Ok(e) => Ok(Extracted(e))
  }

  /** The export object of an asset of type `assetType`. */
  function GetAssetExtractObject(assetType: string, item: Asset): (r: Result<ExtractOutcome>)
    ensures r == Ok(Unimplemented) <==> assetType !in SupportedTypes
    ensures assetType in GlossaryTypes ==> r == Wrap(RidOnlyExtract(item))
    ensures r.Ok? && r.value == NoExtract ==> assetType in {"table_definition", "data_class"}
    ensures assetType in ExternalTypes ==> r == Ok(Extracted(ExternalAssetExtract(item)))
  {
    KindsApart();
    if assetType == "dsjob" then Wrap(DsJobExtract(item))
    else if assetType == "routine" then Wrap(DsRoutineExtract(item))
    else if assetType == "shared_container" then Wrap(DsSharedContainerExtract(item))
    else if assetType == "table_definition" then DsTableDefinitionExtract(item)
    else if assetType == "parameter_set" then Wrap(DsParameterSetExtract(item))
    else if assetType == "data_class" then DataClassExtract(item)
    else if assetType == "extension_mapping_document" then Wrap(MappingDocumentExtract(item))
    else if assetType in ExternalTypes then Ok(Extracted(ExternalAssetExtract(item)))
    else if assetType in GlossaryTypes then Wrap(RidOnlyExtract(item))
    else if assetType in IaTypes then Wrap(InfoAnalyzerExtract(item))
    else Ok(Unimplemented)
  }
}
