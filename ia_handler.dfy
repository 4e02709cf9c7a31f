/** An Information Analyzer project export as the handler reads and prunes
    it: the root (the project) with its `DataSources`, `DataRuleDefinitions`
    (holding `DataRuleDefinition` and `RuleSetDefinition` elements, each
    with `ExecutableRules/ExecutableRule` below it) and `Metrics` sections.
    The `iaapi` namespace is left out: tags are local names. */
module IaHandler {
  import opened Wrappers
  import opened Lists
  import opened XmlDoc

  const DefinitionsTag := "DataRuleDefinitions"
  const RuleDefinitionTag := "DataRuleDefinition"
  const RuleSetDefinitionTag := "RuleSetDefinition"
  const ExecutablesTag := "ExecutableRules"
  const ExecutableTag := "ExecutableRule"
  const MetricsTag := "Metrics"
  const MetricTag := "Metric"

  class IaDoc {
    var nodes: seq<Node>
    /** `result['changed']` */
    var changed: bool

    predicate Valid()
      reads this
    {
      WellFormed(nodes)
    }

    constructor (doc: seq<Node>)
      requires WellFormed(doc)
      ensures Valid() && nodes == doc && !changed
    {
      nodes := doc;
      changed := false;
    }

    /** `getProjectName`: the root's `name`, or None. */
    function ProjectName(): (r: Option<string>)
      reads this
      requires Valid()
      ensures r.Some? <==> "name" in nodes[0].attrs
      ensures r.Some? ==> r.value == nodes[0].attrs["name"]
    {
      GetAttr(nodes, 0, "name")
    }

    /** `getDataSources`: `./DataSources/DataSource`. */
    function DataSources(): (r: seq<nat>)
      reads this
      requires Valid()
      ensures NoDup(r)
      ensures forall x :: x in r <==> 0 <= x < |nodes| && Grandchild(nodes, x, 0, "DataSources", "DataSource")
    {
      Path2(nodes, 0, "DataSources", "DataSource")
    }

    /** `getDataRuleDefinitionsSection`: the `DataRuleDefinitions` children
        of the root. */
    function DefinitionsSection(): (r: seq<nat>)
      reads this
      requires Valid()
      ensures NoDup(r)
      ensures forall x :: x in r <==> 0 <= x < |nodes| && nodes[x].parent == 0 && nodes[x].tag == DefinitionsTag
    {
      Children(nodes, 0, DefinitionsTag)
    }

    /** `getDataRuleDefinitions`: `./DataRuleDefinitions/DataRuleDefinition`. */
    function RuleDefinitions(): (r: seq<nat>)
      reads this
      requires Valid()
      ensures NoDup(r)
      ensures forall x :: x in r <==> 0 <= x < |nodes| && Grandchild(nodes, x, 0, DefinitionsTag, RuleDefinitionTag)
    {
      Path2(nodes, 0, DefinitionsTag, RuleDefinitionTag)
    }

    /** `getRuleSetDefinitions`: `./DataRuleDefinitions/RuleSetDefinition`. */
    function RuleSetDefinitions(): (r: seq<nat>)
      reads this
      requires Valid()
      ensures NoDup(r)
      ensures forall x :: x in r <==> 0 <= x < |nodes| && Grandchild(nodes, x, 0, DefinitionsTag, RuleSetDefinitionTag)
    {
      Path2(nodes, 0, DefinitionsTag, RuleSetDefinitionTag)
    }

    /** `getDataRules`: every `ExecutableRule` at any depth. */
    function DataRules(): (r: seq<nat>)
      reads this
      requires Valid()
      ensures NoDup(r)
      ensures forall x :: x in r <==> 0 <= x < |nodes| && nodes[x].tag == ExecutableTag && Below(nodes, x, 0)
    {
      Descendants(nodes, 0, ExecutableTag)
    }

    /** `getMetricSection`: the `Metrics` children of the root. */
    function MetricSection(): (r: seq<nat>)
      reads this
      requires Valid()
      ensures NoDup(r)
      ensures forall x :: x in r <==> 0 <= x < |nodes| && nodes[x].parent == 0 && nodes[x].tag == MetricsTag
    {
      Children(nodes, 0, MetricsTag)
    }

    /** `getMetrics`: `./Metrics/Metric`. */
    function Metrics(): (r: seq<nat>)
      reads this
      requires Valid()
      ensures NoDup(r)
      ensures forall x :: x in r <==> 0 <= x < |nodes| && Grandchild(nodes, x, 0, MetricsTag, MetricTag)
    {
      Path2(nodes, 0, MetricsTag, MetricTag)
    }

    /** `getExecutables`: only the direct `ExecutableRules/ExecutableRule`
        elements of a definition. */
    function Executables(d: nat): (r: seq<nat>)
      reads this
      requires Valid() && d < |nodes|
      ensures NoDup(r)
      ensures forall x :: x in r <==> 0 <= x < |nodes| && Grandchild(nodes, x, d, ExecutablesTag, ExecutableTag)
    {
      Path2(nodes, d, ExecutablesTag, ExecutableTag)
    }

    /** `getName`: the `name` attribute, or None. */
    function GetName(e: nat): (r: Option<string>)
      reads this
      requires e < |nodes|
      ensures r.Some? <==> "name" in nodes[e].attrs
      ensures r.Some? ==> r.value == nodes[e].attrs["name"]
    {
      GetAttr(nodes, e, "name")
    }

    /** `dropAsset`: the element leaves its parent and the result is marked
        changed; nothing else changes. */
    method DropAsset(e: nat)
      requires Valid() && e < |nodes| && nodes[e].parent >= 0
      modifies this
      ensures Valid()
      ensures nodes == Detached(old(nodes), e) && changed
    {
      nodes := Detached(nodes, e);
      changed := true;
    }

    /** `dropSection`: every child of the root with the tag leaves the root
        and nothing else moves; the result is marked changed exactly when one
        was there. */
    method DropSection(section: string)
      requires Valid()
      modifies this
      ensures Valid() && DroppedFromRoot(old(nodes), nodes, {section})
      ensures changed == (old(changed) || |old(Children(nodes, 0, section))| > 0)
      ensures Children(nodes, 0, section) == []
    {
      var targets := Children(nodes, 0, section);
      ghost var done: set<nat> := {};
      for i := 0 to |targets|
        invariant Valid() && DetachedExactly(old(nodes), nodes, done)
        invariant done == set j | 0 <= j < i :: targets[j]
        invariant changed == (old(changed) || i > 0)
      {
        var target := targets[i];
        assert target in targets && target !in done;
        DetachedExactlyStep(old(nodes), nodes, done, target);
        DropAsset(target);
        PrefixSetSnoc(targets, i);
        done := done + {target};
      }
      assert forall x :: x in done <==> x in targets;
      DroppedFromRootOne(old(nodes), nodes, section);
      DroppedFromRootEmpties(old(nodes), nodes, {section}, section);
    }
  }

  /** The executables a definition selects directly are among the data rules
      the any-depth selection finds. */
  lemma {:induction false} ExecutablesAreDataRules(nodes: seq<Node>, d: nat, x: nat)
    requires WellFormed(nodes) && d < |nodes| && x < |nodes|
    requires Grandchild(nodes, d, 0, DefinitionsTag, RuleDefinitionTag) || Grandchild(nodes, d, 0, DefinitionsTag, RuleSetDefinitionTag)
    requires Grandchild(nodes, x, d, ExecutablesTag, ExecutableTag)
    ensures x in Descendants(nodes, 0, ExecutableTag)
  {
    var p := nodes[x].parent;
    var s := nodes[d].parent;
    ParentOf(nodes, x);
    ParentOf(nodes, p);
    ParentOf(nodes, d);
    assert Below(nodes, s, 0);
    assert Below(nodes, d, 0);
    assert Below(nodes, p, 0);
    assert Below(nodes, x, 0);
  }
}
