/** `ia_extract_project`: prune a retrieved Information Analyzer project down
    to the data rules, rule sets, metrics and definitions asked for. The keep
    list is first grouped by asset type; then executables and metrics not
    asked for are removed, and last every definition that is neither asked
    for nor still holds an executable. */
module IaExtract {
  import opened Wrappers
  import opened Lists
  import opened XmlDoc
  import opened IaHandler

  /** One entry of `assets_to_keep`, a dictionary such as
      `{project: ..., name: ..., type: ...}`. */
  type KeepEntry = map<string, string>

  /** The names to keep, by asset type (lines 171-175). */
  datatype KeepLists = KeepLists(ruleDefs: seq<string>, ruleSetDefs: seq<string>, rules: seq<string>, ruleSets: seq<string>, metrics: seq<string>)

  const RuleDefinitionType := "data_rule_definition"
  const RuleSetDefinitionType := "data_rule_set_definition"
  const RuleType := "data_rule"
  const RuleSetType := "data_rule_set"
  const MetricType := "metric"

  /** The asset types the grouping recognises. */
  const GroupTypes: set<string> := {RuleDefinitionType, RuleSetDefinitionType, RuleType, RuleSetType, MetricType}

  // ---------------------------------------------------------------------------
  // Grouping the keep list (lines 177-188)

  /** The entry names an asset of the type. */
  predicate Names(e: KeepEntry, t: string, n: string)
  {
    "type" in e && e["type"] == t && "name" in e && e["name"] == n
  }

  /** The names of the entries of the type, in the order of the list. */
  function NamesOfType(keep: seq<KeepEntry>, t: string): (r: seq<string>)
    ensures forall n :: n in r <==> exists i :: 0 <= i < |keep| && Names(keep[i], t, n)
    decreases |keep|
  {
    if keep == [] then []
    else
      var init := keep[..|keep| - 1];
      var last := keep[|keep| - 1];
      assert forall i :: 0 <= i < |init| ==> init[i] == keep[i];
      NamesOfType(init, t) + (if "type" in last && last["type"] == t && "name" in last then [last["name"]] else [])
  }

  /** The grouped keep lists of a readable keep list. */
  function Grouped(keep: seq<KeepEntry>): KeepLists
  {
    KeepLists(NamesOfType(keep, RuleDefinitionType), NamesOfType(keep, RuleSetDefinitionType),
              NamesOfType(keep, RuleType), NamesOfType(keep, RuleSetType), NamesOfType(keep, MetricType))
  }

  /** An entry the grouping cannot read: it has no type, or it has one of the
      five types and no name. */
  predicate Unreadable(e: KeepEntry)
  {
    "type" !in e || (e["type"] in GroupTypes && "name" !in e)
  }

  /** Lines 178-188 as written: `asset.type` is an attribute access, and the
      entries are dictionaries, so the first entry stops the module. */
  function GroupAsWritten(keep: seq<KeepEntry>): (r: Result<KeepLists>)
    ensures r.Ok? <==> keep == []
    ensures r.Ok? ==> r.value == KeepLists([], [], [], [], [])
  {
    if keep == [] then Ok(KeepLists([], [], [], [], []))
    else Err("AttributeError: 'dict' object has no attribute 'type'")
  }

  /** A keep list in the documented dictionary form, naming one data rule:
      the grouping as written rejects it, while reading the entry's keys
      keeps the rule's name. */
  lemma {:induction false} DocumentedKeepListRejected()
    ensures var e := map["project" := "UGDefaultWorkspace", "name" := "DataRule1", "type" := RuleType];
      && GroupAsWritten([e]).Err?
      && !Unreadable(e)
      && Grouped([e]).rules == ["DataRule1"]
      && Grouped([e]).metrics == []
  {
    var e := map["project" := "UGDefaultWorkspace", "name" := "DataRule1", "type" := RuleType];
    assert [e][..0] == [];
    assert NamesOfType([e], RuleType) == NamesOfType([], RuleType) + ["DataRule1"];
    assert NamesOfType([e], MetricType) == NamesOfType([], MetricType) + [];
  }

  /** The keep list of the module's own example, whose types are the
      project's element paths: even read as mappings, its entries match none
      of the five types, so nothing is asked for and no entry is unreadable. */
  lemma {:induction false} ExampleKeepListGroupsNothing()
    ensures var d := map["project" := "UGDefaultWorkspace", "name" := "RuleDefn1", "type" := "DataRuleDefinitions/DataRuleDefinition"];
      var x := map["project" := "UGDefaultWorkspace", "name" := "DataRule1", "type" := "DataRuleDefinitions/DataRuleDefinition/ExecutableRules/ExecutableRule"];
      && !Unreadable(d) && !Unreadable(x)
      && Grouped([d, x]) == KeepLists([], [], [], [], [])
  {
    var d := map["project" := "UGDefaultWorkspace", "name" := "RuleDefn1", "type" := "DataRuleDefinitions/DataRuleDefinition"];
    var x := map["project" := "UGDefaultWorkspace", "name" := "DataRule1", "type" := "DataRuleDefinitions/DataRuleDefinition/ExecutableRules/ExecutableRule"];
    var keep := [d, x];
    assert keep[..1] == [d] && [d][..0] == [];
    forall t | t in GroupTypes
      ensures NamesOfType(keep, t) == []
    {
      assert NamesOfType([d], t) == NamesOfType([], t) + [];
    }
  }

  /** Lines 178-188 with `asset['type']` and `asset['name']`: each entry's
      name goes to the list of its type, in order; entries of other types are
      skipped; a missing key stops the module. */
  method Group(keep: seq<KeepEntry>) returns (r: Result<KeepLists>)
    ensures r.Err? <==> exists i :: 0 <= i < |keep| && Unreadable(keep[i])
    ensures r.Ok? ==> r.value == Grouped(keep)
  {
    var lists := KeepLists([], [], [], [], []);
    for i := 0 to |keep|
      invariant lists == Grouped(keep[..i])
      invariant forall j :: 0 <= j < i ==> !Unreadable(keep[j])
    {
      var asset := keep[i];
      assert keep[..i + 1][..i] == keep[..i];
      if "type" !in asset {
        return Err("KeyError: 'type'");
      }
      var t := asset["type"];
      if t in GroupTypes && "name" !in asset {
        return Err("KeyError: 'name'");
      }
      if t == RuleDefinitionType {
        lists := lists.(ruleDefs := lists.ruleDefs + [asset["name"]]);
      } else if t == RuleSetDefinitionType {
        lists := lists.(ruleSetDefs := lists.ruleSetDefs + [asset["name"]]);
      } else if t == RuleType {
        lists := lists.(rules := lists.rules + [asset["name"]]);
      } else if t == RuleSetType {
        lists := lists.(ruleSets := lists.ruleSets + [asset["name"]]);
      } else if t == MetricType {
        lists := lists.(metrics := lists.metrics + [asset["name"]]);
      }
    }
    assert keep[..|keep|] == keep;
    return Ok(lists);
  }

  // ---------------------------------------------------------------------------
  // One removal loop (lines 191-196, 197-201, 204-209, 210-215)

  /** `getName(e) in names`: an element without a name is never kept. */
  predicate KeptByName(nodes: seq<Node>, e: nat, names: seq<string>)
    requires e < |nodes|
  {
    "name" in nodes[e].attrs && nodes[e].attrs["name"] in names
  }

  /** How many of the first `n` elements are direct executables of `d`
      (`./ExecutableRules/ExecutableRule`). */
  function ExecutablesUpTo(nodes: seq<Node>, d: nat, n: nat): nat
    requires n <= |nodes|
  {
    if n == 0 then 0
    else ExecutablesUpTo(nodes, d, n - 1) + (if Grandchild(nodes, n - 1, d, ExecutablesTag, ExecutableTag) then 1 else 0)
  }

  /** `len(getExecutables(d)) == 0`, read from parents and tags. */
  predicate NoExecutables(nodes: seq<Node>, d: nat)
  {
    ExecutablesUpTo(nodes, d, |nodes|) == 0
  }

  /** The count is zero exactly when no element up to `n` is a direct
      executable of `d`. */
  lemma {:induction false} ExecutablesUpToZero(nodes: seq<Node>, d: nat, n: nat)
    requires n <= |nodes|
    ensures ExecutablesUpTo(nodes, d, n) == 0 <==> forall y :: 0 <= y < n ==> !Grandchild(nodes, y, d, ExecutablesTag, ExecutableTag)
  {
    if n > 0 {
      ExecutablesUpToZero(nodes, d, n - 1);
    }
  }

  /** Whether a loop removes `x`: its name is not kept and, in the
      definition loops (`defs`), it is among `empties`, the definitions
      with no executables left. */
  predicate Drops(nodes: seq<Node>, x: nat, names: seq<string>, defs: bool, empties: set<nat>)
    requires x < |nodes|
  {
    !KeptByName(nodes, x, names) && (defs ==> x in empties)
  }

  /** The elements of `es` a loop removes. */
  ghost function DropSet(nodes: seq<Node>, es: seq<nat>, names: seq<string>, defs: bool, empties: set<nat>): (r: set<nat>)
    requires forall i :: 0 <= i < |es| ==> es[i] < |nodes|
    ensures forall x :: x in r <==> x in es && Drops(nodes, x, names, defs, empties)
    decreases |es|
  {
    if es == [] then {}
    else
      var x := es[|es| - 1];
      DropSet(nodes, es[..|es| - 1], names, defs, empties) + (if Drops(nodes, x, names, defs, empties) then {x} else {})
  }

  /** The elements of `es` a loop keeps and counts. */
  ghost function KeptAmong(nodes: seq<Node>, es: seq<nat>, names: seq<string>, defs: bool, empties: set<nat>): (r: set<nat>)
    requires forall i :: 0 <= i < |es| ==> es[i] < |nodes|
    ensures forall x :: x in r <==> x in es && !Drops(nodes, x, names, defs, empties)
    decreases |es|
  {
    if es == [] then {}
    else
      var x := es[|es| - 1];
      KeptAmong(nodes, es[..|es| - 1], names, defs, empties) + (if Drops(nodes, x, names, defs, empties) then {} else {x})
  }

  /** Before the `i`-th element's turn it is still attached, and whether it
      has executables left reads the same as at the start. */
  lemma {:induction false} PruneStep(start: seq<Node>, cur: seq<Node>, es: seq<nat>, names: seq<string>, defs: bool, empties: set<nat>, i: nat)
    requires NoDup(es) && i < |es|
    requires forall j :: 0 <= j < |es| ==> es[j] < |start| && start[es[j]].parent >= 0
    requires defs ==> forall j :: 0 <= j < |es| ==> start[es[j]].tag != ExecutablesTag && start[es[j]].tag != ExecutableTag
    requires DetachedExactly(start, cur, DropSet(start, es[..i], names, defs, empties))
    ensures es[i] < |cur| && cur[es[i]].parent >= 0
    ensures KeptByName(cur, es[i], names) == KeptByName(start, es[i], names)
    ensures defs ==> NoExecutables(cur, es[i]) == NoExecutables(start, es[i])
  {
    var x := es[i];
    NoDupNotBefore(es, i);
    assert x !in DropSet(start, es[..i], names, defs, empties);
    if defs {
      forall y | 0 <= y < |cur|
        ensures Grandchild(cur, y, x, ExecutablesTag, ExecutableTag) <==> Grandchild(start, y, x, ExecutablesTag, ExecutableTag)
      {
        GrandchildKept(start, cur, DropSet(start, es[..i], names, defs, empties), y, x, ExecutablesTag, ExecutableTag);
      }
      ExecutablesUpToZero(cur, x, |cur|);
      ExecutablesUpToZero(start, x, |start|);
    }
  }

  /** After the `i`-th element's turn the removed set has grown by it
      exactly when the loop drops it. */
  lemma {:induction false} DropSnoc(start: seq<Node>, es: seq<nat>, names: seq<string>, defs: bool, empties: set<nat>, i: nat)
    requires i < |es|
    requires forall j :: 0 <= j < |es| ==> es[j] < |start|
    ensures DropSet(start, es[..i + 1], names, defs, empties) ==
      DropSet(start, es[..i], names, defs, empties) + (if Drops(start, es[i], names, defs, empties) then {es[i]} else {})
  {
    assert es[..i + 1][..i] == es[..i];
  }

  /** After the `i`-th element's turn the count has grown by one exactly
      when the loop keeps it. */
  lemma {:induction false} KeptSnoc(start: seq<Node>, es: seq<nat>, names: seq<string>, defs: bool, empties: set<nat>, i: nat)
    requires NoDup(es) && i < |es|
    requires forall j :: 0 <= j < |es| ==> es[j] < |start|
    ensures |KeptAmong(start, es[..i + 1], names, defs, empties)| ==
      |KeptAmong(start, es[..i], names, defs, empties)| + (if Drops(start, es[i], names, defs, empties) then 0 else 1)
  {
    assert es[..i + 1][..i] == es[..i];
    NoDupNotBefore(es, i);
    assert es[i] !in KeptAmong(start, es[..i], names, defs, empties);
  }

  /** One turn of a removal loop: the element goes exactly when its name
      is not kept and, in the definition loops, it has no executables; the
      result is then marked changed. */
  method PruneOne(h: IaDoc, x: nat, names: seq<string>, defs: bool) returns (dropped: bool)
    requires h.Valid() && x < |h.nodes| && h.nodes[x].parent >= 0
    modifies h
    ensures h.Valid()
    ensures dropped == (!KeptByName(old(h.nodes), x, names) && (defs ==> NoExecutables(old(h.nodes), x)))
    ensures h.nodes == if dropped then Detached(old(h.nodes), x) else old(h.nodes)
    ensures h.changed == (old(h.changed) || dropped)
  {
    var name := h.GetName(x);
    dropped := name.None? || name.value !in names;
    if defs {
      var executables := h.Executables(x);
      FirstIn(executables);
      ExecutablesUpToZero(h.nodes, x, |h.nodes|);
      dropped := dropped && |executables| == 0;
    }
    if dropped {
      h.DropAsset(x);
    }
  }

  /** What a removal loop needs of the elements it walks, at its start:
      distinct attached elements and, for the definition loops, no
      executables among them and `empties` telling which have none. */
  ghost predicate Prunable(nodes: seq<Node>, es: seq<nat>, defs: bool, empties: set<nat>)
  {
    && NoDup(es)
    && (forall j :: 0 <= j < |es| ==> es[j] < |nodes| && nodes[es[j]].parent >= 0)
    && (defs ==> forall j :: 0 <= j < |es| ==> nodes[es[j]].tag != ExecutablesTag && nodes[es[j]].tag != ExecutableTag)
    && (defs ==> forall j :: 0 <= j < |es| ==> (es[j] in empties <==> NoExecutables(nodes, es[j])))
  }

  /** Lines 191-196, 197-201, 204-209 and 210-215: walk the selected
      elements once; an element whose name is not kept (and, for the
      definition loops, that has no executables left) is removed, every other
      one is counted. */
  method PrunePass(h: IaDoc, es: seq<nat>, names: seq<string>, defs: bool, ghost empties: set<nat>) returns (count: nat)
    requires h.Valid() && Prunable(h.nodes, es, defs, empties)
    modifies h
    ensures h.Valid()
    ensures DetachedExactly(old(h.nodes), h.nodes, DropSet(old(h.nodes), es, names, defs, empties))
    ensures count == |KeptAmong(old(h.nodes), es, names, defs, empties)|
    ensures h.changed == (old(h.changed) || DropSet(old(h.nodes), es, names, defs, empties) != {})
  {
    ghost var start := h.nodes;
    count := 0;
    for i := 0 to |es|
      invariant h.Valid() && DetachedExactly(start, h.nodes, DropSet(start, es[..i], names, defs, empties))
      invariant count == |KeptAmong(start, es[..i], names, defs, empties)|
      invariant h.changed == (old(h.changed) || DropSet(start, es[..i], names, defs, empties) != {})
    {
      TurnSets(start, es, names, defs, empties, i);
      var dropped := PruneTurn(h, es, names, defs, empties, start, i);
      if !dropped {
        count := count + 1;
      }
    }
    assert es[..|es|] == es;
  }

  /** The `i`-th turn of `PrunePass`: the element goes exactly when the
      loop drops it, so the removed set moves from the first `i` elements to
      the first `i + 1`. */
  method PruneTurn(h: IaDoc, es: seq<nat>, names: seq<string>, defs: bool, ghost empties: set<nat>,
                   ghost start: seq<Node>, i: nat) returns (dropped: bool)
    requires Prunable(start, es, defs, empties) && i < |es|
    requires h.Valid() && DetachedExactly(start, h.nodes, DropSet(start, es[..i], names, defs, empties))
    modifies h
    ensures h.Valid() && DetachedExactly(start, h.nodes, DropSet(start, es[..i + 1], names, defs, empties))
    ensures dropped == Drops(start, es[i], names, defs, empties)
    ensures h.changed == (old(h.changed) || dropped)
  {
    PruneStep(start, h.nodes, es, names, defs, empties, i);
    DropSnoc(start, es, names, defs, empties, i);
    ghost var gone := DropSet(start, es[..i], names, defs, empties);
    ghost var before := h.nodes;
    dropped := PruneOne(h, es[i], names, defs);
    TurnNodes(start, before, h.nodes, gone, DropSet(start, es[..i + 1], names, defs, empties), es[i], dropped);
  }

  /** How the `i`-th turn moves the removed set and the kept set. */
  lemma {:induction false} TurnSets(start: seq<Node>, es: seq<nat>, names: seq<string>, defs: bool, empties: set<nat>, i: nat)
    requires Prunable(start, es, defs, empties) && i < |es|
    ensures DropSet(start, es[..i + 1], names, defs, empties) ==
      DropSet(start, es[..i], names, defs, empties) + (if Drops(start, es[i], names, defs, empties) then {es[i]} else {})
    ensures |KeptAmong(start, es[..i + 1], names, defs, empties)| ==
      |KeptAmong(start, es[..i], names, defs, empties)| + (if Drops(start, es[i], names, defs, empties) then 0 else 1)
    ensures (DropSet(start, es[..i + 1], names, defs, empties) != {}) ==
      (DropSet(start, es[..i], names, defs, empties) != {} || Drops(start, es[i], names, defs, empties))
  {
    DropSnoc(start, es, names, defs, empties, i);
    KeptSnoc(start, es, names, defs, empties, i);
    if Drops(start, es[i], names, defs, empties) {
      assert es[i] in DropSet(start, es[..i + 1], names, defs, empties);
    }
  }

  /** A turn that removed `x` or nothing extends the removed set by the
      same. */
  lemma {:induction false} TurnNodes(start: seq<Node>, before: seq<Node>, after: seq<Node>, gone: set<nat>, next: set<nat>, x: nat, dropped: bool)
    requires WellFormed(before) && x < |before| && before[x].parent >= 0
    requires DetachedExactly(start, before, gone)
    requires after == if dropped then Detached(before, x) else before
    requires next == gone + (if dropped then {x} else {})
    ensures DetachedExactly(start, after, next)
  {
    if dropped {
      DetachedExactlyStep(start, before, gone, x);
    } else {
      assert next == gone;
    }
  }

  // ---------------------------------------------------------------------------
  // The whole extract, stated on the retrieved project

  /** The four kinds of asset the module prunes. */
  datatype Kind = Rule | Metric | RuleDef | RuleSetDef

  /** `x` is an asset of the kind in the project as retrieved: an
      `ExecutableRule` at any depth, a `Metrics/Metric`, or a
      `DataRuleDefinitions/DataRuleDefinition` or `RuleSetDefinition`. */
  predicate OfKind(o: seq<Node>, x: nat, k: Kind)
    requires x < |o|
  {
    match k
    case Rule => o[x].tag == ExecutableTag && Below(o, x, 0)
    case Metric => Grandchild(o, x, 0, MetricsTag, MetricTag)
    case RuleDef => Grandchild(o, x, 0, DefinitionsTag, RuleDefinitionTag)
    case RuleSetDef => Grandchild(o, x, 0, DefinitionsTag, RuleSetDefinitionTag)
  }

  /** The executables' keep list: a data rule or a rule set of that name. */
  function ExecutableNames(l: KeepLists): seq<string>
  {
    l.rules + l.ruleSets
  }

  /** The definition holds an executable that the executable loop keeps. */
  predicate HasKeptExecutable(o: seq<Node>, d: nat, names: seq<string>)
  {
    exists y :: 0 <= y < |o| && Grandchild(o, y, d, ExecutablesTag, ExecutableTag) && KeptByName(o, y, names)
  }

  /** Whether an asset of the kind goes: its name is not kept, and a
      definition goes only when none of its executables is kept either. */
  predicate Gone(o: seq<Node>, l: KeepLists, x: nat, k: Kind)
    requires x < |o|
  {
    match k
    case Rule => !KeptByName(o, x, ExecutableNames(l))
    case Metric => !KeptByName(o, x, l.metrics)
    case RuleDef => !KeptByName(o, x, l.ruleDefs) && !HasKeptExecutable(o, x, ExecutableNames(l))
    case RuleSetDef => !KeptByName(o, x, l.ruleSetDefs) && !HasKeptExecutable(o, x, ExecutableNames(l))
  }

  ghost function RemovedOf(o: seq<Node>, l: KeepLists, k: Kind): set<nat>
  {
    set x | 0 <= x < |o| && OfKind(o, x, k) && Gone(o, l, x, k)
  }

  ghost function RetainedOf(o: seq<Node>, l: KeepLists, k: Kind): set<nat>
  {
    set x | 0 <= x < |o| && OfKind(o, x, k) && !Gone(o, l, x, k)
  }

  /** Everything the extract removes. */
  ghost function Removed(o: seq<Node>, l: KeepLists): set<nat>
  {
    RemovedOf(o, l, Rule) + RemovedOf(o, l, Metric) + RemovedOf(o, l, RuleDef) + RemovedOf(o, l, RuleSetDef)
  }

  function KindTag(k: Kind): string
  {
    match k
    case Rule => ExecutableTag
    case Metric => MetricTag
    case RuleDef => RuleDefinitionTag
    case RuleSetDef => RuleSetDefinitionTag
  }

  /** No definition holding a kept executable is removed, and neither is
      that executable: pruning never leaves a kept data rule without its
      definition. */
  lemma {:induction false} KeptExecutableKeepsDefinition(o: seq<Node>, l: KeepLists, d: nat, y: nat)
    requires WellFormed(o) && d < |o| && y < |o|
    requires OfKind(o, d, RuleDef) || OfKind(o, d, RuleSetDef)
    requires Grandchild(o, y, d, ExecutablesTag, ExecutableTag) && KeptByName(o, y, ExecutableNames(l))
    ensures d !in Removed(o, l) && y !in Removed(o, l)
    ensures d in RetainedOf(o, l, RuleDef) + RetainedOf(o, l, RuleSetDef)
    ensures y in RetainedOf(o, l, Rule)
  {
    assert HasKeptExecutable(o, d, ExecutableNames(l));
    ExecutablesAreDataRules(o, d, y);
  }

  /** What a loop removes and keeps, stated on the retrieved project: the
      selection made at that point is exactly the assets of the kind, and the
      decision reads as `Gone` on the retrieved project. */
  lemma {:induction false} StageSets(o: seq<Node>, s: seq<Node>, sel: seq<nat>, names: seq<string>, defs: bool, empties: set<nat>, l: KeepLists, k: Kind)
    requires |s| == |o| && forall i :: 0 <= i < |sel| ==> sel[i] < |s|
    requires forall x :: x in sel <==> 0 <= x < |o| && OfKind(o, x, k)
    requires forall x :: x in sel ==> (Drops(s, x, names, defs, empties) <==> Gone(o, l, x, k))
    ensures DropSet(s, sel, names, defs, empties) == RemovedOf(o, l, k)
    ensures KeptAmong(s, sel, names, defs, empties) == RetainedOf(o, l, k)
  {
  }

  /** After removals that took every unkept data rule and no other
      executable nor any `ExecutableRules`, a definition has no executables
      left exactly when none of its executables was kept. */
  lemma {:induction false} ExecutablesLeft(o: seq<Node>, s: seq<Node>, gone: set<nat>, d: nat, names: seq<string>)
    requires WellFormed(o) && DetachedExactly(o, s, gone) && d < |o|
    requires OfKind(o, d, RuleDef) || OfKind(o, d, RuleSetDef)
    requires forall y :: y in gone ==> y < |o| && o[y].tag != ExecutablesTag && (o[y].tag == ExecutableTag ==> !KeptByName(o, y, names))
    requires forall y :: 0 <= y < |o| && OfKind(o, y, Rule) && !KeptByName(o, y, names) ==> y in gone
    ensures NoExecutables(s, d) <==> !HasKeptExecutable(o, d, names)
  {
    ExecutablesUpToZero(s, d, |s|);
    if HasKeptExecutable(o, d, names) {
      var y :| 0 <= y < |o| && Grandchild(o, y, d, ExecutablesTag, ExecutableTag) && KeptByName(o, y, names);
      assert Grandchild(s, y, d, ExecutablesTag, ExecutableTag);
    }
    if !NoExecutables(s, d) {
      var y :| 0 <= y < |s| && Grandchild(s, y, d, ExecutablesTag, ExecutableTag);
      assert Grandchild(o, y, d, ExecutablesTag, ExecutableTag);
      ExecutablesAreDataRules(o, d, y);
      assert KeptByName(o, y, names);
    }
  }

  /** The removals so far took only assets of the given tags, so a
      two-step selection from the root of any other tags is unchanged. */
  lemma {:induction false} SelectionKept(o: seq<Node>, s: seq<Node>, gone: set<nat>, a: string, b: string)
    requires DetachedExactly(o, s, gone)
    requires forall y :: y in gone ==> y < |o| && o[y].tag != a && o[y].tag != b
    ensures forall x :: 0 <= x < |o| ==> (Grandchild(s, x, 0, a, b) <==> Grandchild(o, x, 0, a, b))
  {
    forall x | 0 <= x < |o|
      ensures Grandchild(s, x, 0, a, b) <==> Grandchild(o, x, 0, a, b)
    {
      GrandchildKept(o, s, gone, x, 0, a, b);
    }
  }

  /** The removed assets of a kind carry the kind's tag. */
  lemma {:induction false} RemovedTags(o: seq<Node>, l: KeepLists, k: Kind)
    ensures forall y :: y in RemovedOf(o, l, k) ==> y < |o| && o[y].tag == KindTag(k)
  {
  }

  /** Lines 190-215 after the grouping: the executable loop, the metric
      loop and the two definition loops, in that order. The assets removed
      are exactly the ones `Gone` names on the retrieved project, and the
      count is the number of assets of the four kinds that stay. */
  method Prune(h: IaDoc, l: KeepLists) returns (count: nat)
    requires h.Valid()
    modifies h
    ensures h.Valid()
    ensures DetachedExactly(old(h.nodes), h.nodes, Removed(old(h.nodes), l))
    ensures count == |RetainedOf(old(h.nodes), l, Rule)| + |RetainedOf(old(h.nodes), l, Metric)|
                   + |RetainedOf(old(h.nodes), l, RuleDef)| + |RetainedOf(old(h.nodes), l, RuleSetDef)|
  {
    ghost var o := h.nodes;
    var c12 := NameStages(h, l);
    ghost var s2 := h.nodes;
    var c34 := DefinitionStages(h, l, o);
    DetachedExactlyTrans(o, s2, h.nodes, RemovedOf(o, l, Rule) + RemovedOf(o, l, Metric),
                         RemovedOf(o, l, RuleDef) + RemovedOf(o, l, RuleSetDef));
    assert Removed(o, l) == RemovedOf(o, l, Rule) + RemovedOf(o, l, Metric) + (RemovedOf(o, l, RuleDef) + RemovedOf(o, l, RuleSetDef));
    count := c12 + c34;
  }

  /** Lines 190-201: the executable loop, then the metric loop. */
  method NameStages(h: IaDoc, l: KeepLists) returns (count: nat)
    requires h.Valid()
    modifies h
    ensures h.Valid()
    ensures DetachedExactly(old(h.nodes), h.nodes, RemovedOf(old(h.nodes), l, Rule) + RemovedOf(old(h.nodes), l, Metric))
    ensures count == |RetainedOf(old(h.nodes), l, Rule)| + |RetainedOf(old(h.nodes), l, Metric)|
  {
    ghost var o := h.nodes;
    RemovedFacts(o, l);
    var c1 := NameStage(h, l, o, {}, Rule);
    ghost var s1 := h.nodes;
    var c2 := NameStage(h, l, o, RemovedOf(o, l, Rule), Metric);
    DetachedExactlyTrans(o, s1, h.nodes, RemovedOf(o, l, Rule), RemovedOf(o, l, Metric));
    count := c1 + c2;
  }

  /** Lines 204-215, after the executable and metric loops on the retrieved
      project `o`: the rule definition loop, then the rule set definition
      loop. */
  method DefinitionStages(h: IaDoc, l: KeepLists, ghost o: seq<Node>) returns (count: nat)
    requires h.Valid() && WellFormed(o)
    requires DetachedExactly(o, h.nodes, RemovedOf(o, l, Rule) + RemovedOf(o, l, Metric))
    modifies h
    ensures h.Valid()
    ensures DetachedExactly(old(h.nodes), h.nodes, RemovedOf(o, l, RuleDef) + RemovedOf(o, l, RuleSetDef))
    ensures count == |RetainedOf(o, l, RuleDef)| + |RetainedOf(o, l, RuleSetDef)|
  {
    RemovedFacts(o, l);
    ghost var s2 := h.nodes;
    ghost var g2 := RemovedOf(o, l, Rule) + RemovedOf(o, l, Metric);
    var c3 := DefinitionStage(h, l, o, g2, RuleDef);
    ghost var s3 := h.nodes;
    DetachedExactlyTrans(o, s2, s3, g2, RemovedOf(o, l, RuleDef));
    var c4 := DefinitionStage(h, l, o, g2 + RemovedOf(o, l, RuleDef), RuleSetDef);
    DetachedExactlyTrans(s2, s3, h.nodes, RemovedOf(o, l, RuleDef), RemovedOf(o, l, RuleSetDef));
    count := c3 + c4;
  }

  /** Each kind's removed assets carry its tag, and the removed data rules
      are the unkept ones. */
  lemma {:induction false} RemovedFacts(o: seq<Node>, l: KeepLists)
    ensures forall y :: y in RemovedOf(o, l, Rule) ==> y < |o| && o[y].tag == ExecutableTag
    ensures forall y :: y in RemovedOf(o, l, Metric) ==> y < |o| && o[y].tag == MetricTag
    ensures forall y :: y in RemovedOf(o, l, RuleDef) ==> y < |o| && o[y].tag == RuleDefinitionTag
    ensures forall y :: y in RemovedOf(o, l, RuleSetDef) ==> y < |o| && o[y].tag == RuleSetDefinitionTag
    ensures forall y :: y in RemovedOf(o, l, Rule) ==> !KeptByName(o, y, ExecutableNames(l))
    ensures forall y :: 0 <= y < |o| && OfKind(o, y, Rule) && !KeptByName(o, y, ExecutableNames(l)) ==> y in RemovedOf(o, l, Rule)
  {
  }

  /** The executable loop (lines 191-196, on the retrieved project) or the
      metric loop (lines 197-201, after the executable loop's removals
      `gone`). */
  method NameStage(h: IaDoc, l: KeepLists, ghost o: seq<Node>, ghost gone: set<nat>, k: Kind)
    returns (count: nat)
    requires h.Valid() && WellFormed(o) && DetachedExactly(o, h.nodes, gone)
    requires k == Rule || k == Metric
    requires k == Rule ==> h.nodes == o
    requires forall y :: y in gone ==> y < |o| && o[y].tag != MetricsTag && o[y].tag != MetricTag
    modifies h
    ensures h.Valid()
    ensures DetachedExactly(old(h.nodes), h.nodes, RemovedOf(o, l, k))
    ensures count == |RetainedOf(o, l, k)|
  {
    ghost var s := h.nodes;
    var names := if k == Rule then ExecutableNames(l) else l.metrics;
    var es: seq<nat>;
    if k == Rule {
      es := h.DataRules();
    } else {
      SelectionKept(o, s, gone, MetricsTag, MetricTag);
      es := h.Metrics();
    }
    assert forall j :: 0 <= j < |es| ==> es[j] in es;
    count := PrunePass(h, es, names, false, {});
    StageSets(o, s, es, names, false, {}, l, k);
  }

  /** One of the definition loops (lines 204-209 or 210-215), after the
      removals `gone` of the earlier loops. */
  method DefinitionStage(h: IaDoc, l: KeepLists, ghost o: seq<Node>, ghost gone: set<nat>, k: Kind)
    returns (count: nat)
    requires h.Valid() && WellFormed(o) && DetachedExactly(o, h.nodes, gone)
    requires k == RuleDef || k == RuleSetDef
    requires forall y :: y in gone ==> y < |o| && o[y].tag != ExecutablesTag && o[y].tag != DefinitionsTag && o[y].tag != KindTag(k)
    requires forall y :: y in gone && o[y].tag == ExecutableTag ==> !KeptByName(o, y, ExecutableNames(l))
    requires forall y :: 0 <= y < |o| && OfKind(o, y, Rule) && !KeptByName(o, y, ExecutableNames(l)) ==> y in gone
    modifies h
    ensures h.Valid()
    ensures DetachedExactly(old(h.nodes), h.nodes, RemovedOf(o, l, k))
    ensures count == |RetainedOf(o, l, k)|
  {
    ghost var s := h.nodes;
    var names := if k == RuleDef then l.ruleDefs else l.ruleSetDefs;
    var defs := if k == RuleDef then h.RuleDefinitions() else h.RuleSetDefinitions();
    DefinitionsReady(o, s, gone, defs, names, l, k);
    count := PrunePass(h, defs, names, true, Empties(s));
  }

  /** The definitions selected at the start of a definition loop can be
      pruned, and pruning them removes and keeps what the stage promises. */
  lemma {:induction false} DefinitionsReady(o: seq<Node>, s: seq<Node>, gone: set<nat>, defs: seq<nat>, names: seq<string>, l: KeepLists, k: Kind)
    requires WellFormed(o) && WellFormed(s) && DetachedExactly(o, s, gone)
    requires k == RuleDef || k == RuleSetDef
    requires names == if k == RuleDef then l.ruleDefs else l.ruleSetDefs
    requires forall y :: y in gone ==> y < |o| && o[y].tag != ExecutablesTag && o[y].tag != DefinitionsTag && o[y].tag != KindTag(k)
    requires forall y :: y in gone && o[y].tag == ExecutableTag ==> !KeptByName(o, y, ExecutableNames(l))
    requires forall y :: 0 <= y < |o| && OfKind(o, y, Rule) && !KeptByName(o, y, ExecutableNames(l)) ==> y in gone
    requires NoDup(defs) && forall x :: x in defs <==> 0 <= x < |s| && Grandchild(s, x, 0, DefinitionsTag, KindTag(k))
    ensures Prunable(s, defs, true, Empties(s))
    ensures DropSet(s, defs, names, true, Empties(s)) == RemovedOf(o, l, k)
    ensures KeptAmong(s, defs, names, true, Empties(s)) == RetainedOf(o, l, k)
  {
    SelectionKept(o, s, gone, DefinitionsTag, KindTag(k));
    assert forall j :: 0 <= j < |defs| ==> defs[j] in defs;
    DefinitionDecisions(o, s, gone, defs, names, l, k);
    StageSets(o, s, defs, names, true, Empties(s), l, k);
  }

  /** The definitions with no executables left. */
  ghost function Empties(s: seq<Node>): (r: set<nat>)
    ensures forall x: nat :: x in r <==> x < |s| && NoExecutables(s, x)
  {
    set x | 0 <= x < |s| && NoExecutables(s, x)
  }

  /** After the earlier loops, a definition loop's decision on each
      selected definition reads as `Gone` on the retrieved project. */
  lemma {:induction false} DefinitionDecisions(o: seq<Node>, s: seq<Node>, gone: set<nat>, sel: seq<nat>, names: seq<string>, l: KeepLists, k: Kind)
    requires WellFormed(o) && DetachedExactly(o, s, gone)
    requires k == RuleDef || k == RuleSetDef
    requires names == if k == RuleDef then l.ruleDefs else l.ruleSetDefs
    requires forall x :: x in sel <==> 0 <= x < |o| && OfKind(o, x, k)
    requires forall y :: y in gone ==> y < |o| && o[y].tag != ExecutablesTag && (o[y].tag == ExecutableTag ==> !KeptByName(o, y, ExecutableNames(l)))
    requires forall y :: 0 <= y < |o| && OfKind(o, y, Rule) && !KeptByName(o, y, ExecutableNames(l)) ==> y in gone
    ensures forall x :: x in sel ==> x < |s| && (Drops(s, x, names, true, Empties(s)) <==> Gone(o, l, x, k))
  {
    forall x | x in sel
      ensures x < |s| && (Drops(s, x, names, true, Empties(s)) <==> Gone(o, l, x, k))
    {
      ExecutablesLeft(o, s, gone, x, ExecutableNames(l));
    }
  }

  /** `ia_extract_project` from the grouping on (lines 168-215): a keep
      entry the grouping cannot read stops the module before anything is
      removed; otherwise the project is pruned as `Prune` states and the
      result is `asset_count`. */
  method Extract(h: IaDoc, keep: seq<KeepEntry>) returns (r: Result<nat>)
    requires h.Valid()
    modifies h
    ensures h.Valid()
    ensures r.Err? <==> exists i :: 0 <= i < |keep| && Unreadable(keep[i])
    ensures r.Err? ==> h.nodes == old(h.nodes)
    ensures r.Ok? ==> DetachedExactly(old(h.nodes), h.nodes, Removed(old(h.nodes), Grouped(keep)))
    ensures r.Ok? ==> r.value == |RetainedOf(old(h.nodes), Grouped(keep), Rule)| + |RetainedOf(old(h.nodes), Grouped(keep), Metric)|
                               + |RetainedOf(old(h.nodes), Grouped(keep), RuleDef)| + |RetainedOf(old(h.nodes), Grouped(keep), RuleSetDef)|
  {
    var lists := Group(keep);
    if lists.Err? {
      return Err(lists.msg);
    }
    var count := Prune(h, lists.value);
    return Ok(count);
  }
}
