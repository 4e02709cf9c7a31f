/** An Operational Metadata (OMD) flow document as the handler reads and
    rewrites it: the run's `Deployment` and `Design` locators, its
    `ActualParameters`, its read and write `Events`, and the `DataSchema`
    with the data collections the events refer to. Every locator is a list
    of `LocatorComponent` elements told apart by their `Class` or
    `SubClass` attribute; the one of class `Computer` names a host. */
module OmdHandler {
  import opened Wrappers
  import opened Lists
  import opened Text
  import opened XmlDoc

  const DeploymentTag := "Deployment"
  const DesignTag := "Design"
  const LocatorTag := "SoftwareResourceLocator"
  const ComponentTag := "LocatorComponent"
  const ParametersTag := "ActualParameters"
  const ParameterTag := "ActualParameter"
  const EventsTag := "Events"
  const EventTag := "Event"
  const ResourceTag := "DataResourceLocator"
  const SchemaTag := "DataSchema"
  const CollectionTag := "DataCollection"
  const FieldTag := "DataField"

  const SourceConnection := "SourceConnectionString"
  const TargetConnection := "TargetConnectionString"

  // ---------------------------------------------------------------------------
  // Lookups

  /** `find` on a path: the first match in document order, or None. */
  function Find(ks: seq<nat>): (r: Option<nat>)
    ensures r.Some? <==> ks != []
    ensures r.Some? ==> r.value == ks[0]
  {
    if ks == [] then None else Some(ks[0])
  }

  /** `find` on a path ending in `[@attr='v']`: the first of `ks` whose
      attribute `attr` is `v`, or None. */
  function FindWhere(nodes: seq<Node>, ks: seq<nat>, attr: string, v: string): (r: Option<nat>)
    requires forall i :: 0 <= i < |ks| ==> ks[i] < |nodes|
    ensures r.None? <==> forall i :: 0 <= i < |ks| ==> GetAttr(nodes, ks[i], attr) != Some(v)
    ensures r.Some? ==> exists i :: (0 <= i < |ks| && r.value == ks[i] && GetAttr(nodes, ks[i], attr) == Some(v) &&
      forall j :: 0 <= j < i ==> GetAttr(nodes, ks[j], attr) != Some(v))
    ensures r.Some? ==> r.value in ks && r.value < |nodes|
  {
    var k := FirstWithAttr(nodes, ks, attr, v);
    if k.Some? then Some(ks[k.value]) else None
  }

  /** `k` is the first of `ks` whose attribute `attr` is `v`. */
  predicate FirstWhere(nodes: seq<Node>, ks: seq<nat>, k: nat, attr: string, v: string)
  {
    exists i :: 0 <= i < |ks| && ks[i] == k && k < |nodes| && GetAttr(nodes, k, attr) == Some(v) &&
      forall j :: 0 <= j < i ==> ks[j] < |nodes| && GetAttr(nodes, ks[j], attr) != Some(v)
  }

  /** Every member of a selection lies in the document. */
  lemma {:induction false} Inside(nodes: seq<Node>, ks: seq<nat>)
    requires forall x :: x in ks ==> x < |nodes|
    ensures forall i :: 0 <= i < |ks| ==> ks[i] < |nodes|
  {
    assert forall i :: 0 <= i < |ks| ==> ks[i] in ks;
  }

  /** The first locator component of `e` whose attribute `attr` is `v`. */
  function Component(nodes: seq<Node>, e: nat, attr: string, v: string): (r: Option<nat>)
    requires WellFormed(nodes) && e < |nodes|
    ensures r.Some? ==> r.value < |nodes| && nodes[r.value].parent == e && nodes[r.value].tag == ComponentTag
    ensures r.Some? ==> GetAttr(nodes, r.value, attr) == Some(v)
    ensures r.None? <==> forall x :: 0 <= x < |nodes| && nodes[x].parent == e && nodes[x].tag == ComponentTag ==> GetAttr(nodes, x, attr) != Some(v)
    ensures r.Some? ==> FirstWhere(nodes, Children(nodes, e, ComponentTag), r.value, attr, v)
  {
    var cs := Children(nodes, e, ComponentTag);
    Inside(nodes, cs);
    var r := FindWhere(nodes, cs, attr, v);
    assert r.None? ==> forall x :: x in cs ==> GetAttr(nodes, x, attr) != Some(v) by {
      if r.None? {
        forall x | x in cs
          ensures GetAttr(nodes, x, attr) != Some(v)
        {
          var i :| 0 <= i < |cs| && cs[i] == x;
        }
      }
    }
    r
  }

  /** `_getHostElement` (lines 49-50): the component of class `Computer`. */
  function HostElement(nodes: seq<Node>, e: nat): (r: Option<nat>)
    requires WellFormed(nodes) && e < |nodes|
    ensures r.Some? ==> r.value < |nodes| && nodes[r.value].parent == e && nodes[r.value].tag == ComponentTag
    ensures r.Some? ==> FirstWhere(nodes, Children(nodes, e, ComponentTag), r.value, "Class", "Computer")
    ensures r.None? <==> forall x :: 0 <= x < |nodes| && nodes[x].parent == e && nodes[x].tag == ComponentTag ==>
      GetAttr(nodes, x, "Class") != Some("Computer")
  {
    Component(nodes, e, "Class", "Computer")
  }

  /** `name` of the component of `e` with `attr` equal to `v`: an error when
      there is no such component, None when it has no name. */
  function ComponentName(nodes: seq<Node>, e: nat, attr: string, v: string): (r: Result<Option<string>>)
    requires WellFormed(nodes) && e < |nodes|
    ensures r.Err? <==> Component(nodes, e, attr, v).None?
    ensures r.Ok? ==> r.value == GetAttr(nodes, Component(nodes, e, attr, v).value, "Name")
  {
    var c := Component(nodes, e, attr, v);
    if c.None? then Err("AttributeError: 'NoneType' object has no attribute 'get'")
    else Ok(GetAttr(nodes, c.value, "Name"))
  }

  /** The host component of the deployment locator (lines 107-108); the
      lookups fail when either is missing. */
  function DeploymentHost(nodes: seq<Node>): (r: Result<nat>)
    requires WellFormed(nodes)
    ensures r.Ok? ==> r.value < |nodes| && nodes[r.value].tag == ComponentTag
    ensures r.Ok? ==> var l := nodes[r.value].parent;
      0 <= l < |nodes| && Grandchild(nodes, l, 0, DeploymentTag, LocatorTag)
    ensures Path2(nodes, 0, DeploymentTag, LocatorTag) == [] ==> r.Err?
  {
    var locators := Path2(nodes, 0, DeploymentTag, LocatorTag);
    if locators == [] then Err("AttributeError: 'NoneType' object has no attribute 'find'")
    else
      assert locators[0] in locators;
      var h := HostElement(nodes, locators[0]);
      if h.None? then Err("AttributeError: 'NoneType' object has no attribute 'get'")
      else Ok(h.value)
  }

  /** `_getReadEvent` / `_getWriteEvent` (lines 52-56): the first event of
      the type. */
  function Event(nodes: seq<Node>, kind: string): (r: Option<nat>)
    requires WellFormed(nodes)
    ensures r.Some? ==> r.value < |nodes| && Grandchild(nodes, r.value, 0, EventsTag, EventTag)
  {
    var es := Path2(nodes, 0, EventsTag, EventTag);
    Inside(nodes, es);
    FindWhere(nodes, es, "Type", kind)
  }

  /** The event of a type is the first in document order, and there is none
      exactly when no event has that type. */
  lemma {:induction false} EventFirst(nodes: seq<Node>, kind: string)
    requires WellFormed(nodes)
    ensures var r := Event(nodes, kind);
      r.Some? ==> FirstWhere(nodes, Path2(nodes, 0, EventsTag, EventTag), r.value, "Type", kind)
    ensures Event(nodes, kind).None? <==> forall x :: 0 <= x < |nodes| && Grandchild(nodes, x, 0, EventsTag, EventTag) ==>
      GetAttr(nodes, x, "Type") != Some(kind)
  {
    var es := Path2(nodes, 0, EventsTag, EventTag);
    Inside(nodes, es);
    if Event(nodes, kind).None? {
      forall x | 0 <= x < |nodes| && Grandchild(nodes, x, 0, EventsTag, EventTag)
        ensures GetAttr(nodes, x, "Type") != Some(kind)
      {
        assert x in es;
        var i :| 0 <= i < |es| && es[i] == x;
      }
    }
  }

  /** The host component of an event's data resource (lines 130-131 and
      135-136); the lookups fail when the event, its resource or the
      component is missing. */
  function EventHost(nodes: seq<Node>, kind: string): (r: Result<nat>)
    requires WellFormed(nodes)
    ensures r.Ok? ==> r.value < |nodes| && nodes[r.value].tag == ComponentTag
    ensures r.Ok? ==> var l := nodes[r.value].parent;
      && 0 <= l < |nodes| && nodes[l].tag == ResourceTag
      && var ev := nodes[l].parent;
      0 <= ev < |nodes| && Event(nodes, kind).Some? && ev == Event(nodes, kind).value
    ensures Event(nodes, kind).None? ==> r.Err?
  {
    var ev := Event(nodes, kind);
    if ev.None? then Err("AttributeError: 'NoneType' object has no attribute 'find'")
    else
      var rs := Children(nodes, ev.value, ResourceTag);
      if rs == [] then Err("AttributeError: 'NoneType' object has no attribute 'find'")
      else
        assert rs[0] in rs;
        var h := HostElement(nodes, rs[0]);
        if h.None? then Err("AttributeError: 'NoneType' object has no attribute 'get'")
        else Ok(h.value)
  }

  /** The deployment host is the `Computer` component of the first
      deployment locator, found exactly when that locator exists and has one. */
  lemma {:induction false} DeploymentHostExactly(nodes: seq<Node>)
    requires WellFormed(nodes)
    ensures var ls := Path2(nodes, 0, DeploymentTag, LocatorTag);
      DeploymentHost(nodes).Err? <==> ls == [] || forall x :: 0 <= x < |nodes| && nodes[x].parent == ls[0] && nodes[x].tag == ComponentTag ==>
        GetAttr(nodes, x, "Class") != Some("Computer")
    ensures var ls := Path2(nodes, 0, DeploymentTag, LocatorTag);
      DeploymentHost(nodes).Ok? ==> ls != [] && ls[0] < |nodes| && HostElement(nodes, ls[0]) == Some(DeploymentHost(nodes).value)
  {
    var ls := Path2(nodes, 0, DeploymentTag, LocatorTag);
    if ls != [] {
      assert ls[0] in ls;
    }
  }

  /** An event's host is the `Computer` component of the first data resource
      of the first event of the type, found exactly when all three exist. */
  lemma {:induction false} EventHostExactly(nodes: seq<Node>, kind: string)
    requires WellFormed(nodes)
    ensures EventHost(nodes, kind).Err? <==> var ev := Event(nodes, kind);
      ev.None? || var rs := Children(nodes, ev.value, ResourceTag);
      rs == [] || forall x :: 0 <= x < |nodes| && nodes[x].parent == rs[0] && nodes[x].tag == ComponentTag ==>
        GetAttr(nodes, x, "Class") != Some("Computer")
    ensures EventHost(nodes, kind).Ok? ==> var ev := Event(nodes, kind);
      ev.Some? && var rs := Children(nodes, ev.value, ResourceTag);
      rs != [] && rs[0] < |nodes| && HostElement(nodes, rs[0]) == Some(EventHost(nodes, kind).value)
  {
    var ev := Event(nodes, kind);
    if ev.Some? {
      var rs := Children(nodes, ev.value, ResourceTag);
      if rs != [] {
        assert rs[0] in rs;
        var h := HostElement(nodes, rs[0]);
        assert EventHost(nodes, kind).Err? <==> h.None?;
      }
    }
  }

  // ---------------------------------------------------------------------------
  // Parameters

  /** One actual parameter as `replaceHostname` sees it: the element, the
      host component of its locator, and the name of its formal parameter. */
  datatype Param = Param(elem: nat, host: nat, formal: Option<string>)

  predicate IsConnection(formal: Option<string>)
  {
    formal == Some(SourceConnection) || formal == Some(TargetConnection)
  }

  /** Some parameter of `qs` is a connection string. */
  predicate HasConnection(qs: seq<Param>)
  {
    exists q :: q in qs && IsConnection(q.formal)
  }

  /** `findall("./ActualParameters/ActualParameter")`. */
  function Parameters(nodes: seq<Node>): (r: seq<nat>)
    requires WellFormed(nodes)
    ensures NoDup(r)
    ensures forall i :: 0 <= i < |r| ==> r[i] < |nodes| && Grandchild(nodes, r[i], 0, ParametersTag, ParameterTag)
  {
    var ps := Path2(nodes, 0, ParametersTag, ParameterTag);
    assert forall i :: 0 <= i < |ps| ==> ps[i] in ps;
    ps
  }

  /** The components below the locators of `p`, locator by locator. */
  function LocatorComponents(nodes: seq<Node>, p: nat): (r: seq<nat>)
    requires WellFormed(nodes) && p < |nodes|
    ensures forall i :: 0 <= i < |r| ==> r[i] < |nodes| && nodes[r[i]].tag == ComponentTag
    ensures forall x :: x in r <==> 0 <= x < |nodes| && nodes[x].tag == ComponentTag && nodes[x].parent in Children(nodes, p, LocatorTag)
  {
    var locators := Children(nodes, p, LocatorTag);
    Inside(nodes, locators);
    var comps := ChildrenOfEach(nodes, locators, ComponentTag);
    Inside(nodes, comps);
    comps
  }

  /** The first `FormalParameter` component below the locators of `p`, or
      None when there is none. */
  function FormalComponent(nodes: seq<Node>, p: nat): (r: Option<nat>)
    requires WellFormed(nodes) && p < |nodes|
    ensures var cs := LocatorComponents(nodes, p);
      r.Some? ==> r.value < |nodes| && FirstWhere(nodes, cs, r.value, "Class", "FormalParameter")
    ensures var cs := LocatorComponents(nodes, p);
      r.None? <==> forall i :: 0 <= i < |cs| ==> GetAttr(nodes, cs[i], "Class") != Some("FormalParameter")
  {
    FindWhere(nodes, LocatorComponents(nodes, p), "Class", "FormalParameter")
  }

  /** Lines 114-125 for one parameter: its first locator, that locator's
      host component and the formal parameter component below its locators.
      The lookups fail when the locator, the formal parameter or the host is
      missing, and a connection-string parameter fails when its host has no
      name or it has no value (the concatenation of line 125). */
  function LocateParam(nodes: seq<Node>, p: nat): (r: Result<Param>)
    requires WellFormed(nodes) && p < |nodes|
    ensures r.Ok? ==> r.value.elem == p && r.value.host < |nodes| && nodes[r.value.host].tag == ComponentTag
    ensures r.Ok? ==> var l := nodes[r.value.host].parent;
      0 <= l < |nodes| && nodes[l].tag == LocatorTag && nodes[l].parent == p
    ensures r.Ok? ==> GetAttr(nodes, r.value.host, "Class") == Some("Computer")
    ensures r.Ok? && IsConnection(r.value.formal) ==>
      GetAttr(nodes, r.value.host, "Name").Some? && GetAttr(nodes, p, "Value").Some?
    ensures Children(nodes, p, LocatorTag) == [] ==> r.Err?
    ensures r.Ok? ==> FormalComponent(nodes, p).Some? && r.value.formal == GetAttr(nodes, FormalComponent(nodes, p).value, "Name")
  {
    var locators := Children(nodes, p, LocatorTag);
    if locators == [] then Err("AttributeError: 'NoneType' object has no attribute 'find'")
    else
      Inside(nodes, locators);
      var host := HostElement(nodes, locators[0]);
      var formal := FormalComponent(nodes, p);
      if formal.None? then Err("AttributeError: 'NoneType' object has no attribute 'get'")
      else if host.None? then Err("AttributeError: 'NoneType' object has no attribute 'get'")
      else
        var name := GetAttr(nodes, formal.value, "Name");
        if IsConnection(name) && (GetAttr(nodes, host.value, "Name").None? || GetAttr(nodes, p, "Value").None?) then
          Err("TypeError: unsupported operand type(s) for +")
        else Ok(Param(p, host.value, name))
  }

  /** A located parameter's host is the `Computer` component of its first
      locator. */
  lemma {:induction false} LocateParamHost(nodes: seq<Node>, p: nat)
    requires WellFormed(nodes) && p < |nodes|
    ensures var r := LocateParam(nodes, p); var ls := Children(nodes, p, LocatorTag);
      r.Ok? ==> ls != [] && ls[0] < |nodes| && HostElement(nodes, ls[0]) == Some(r.value.host)
  {
    var ls := Children(nodes, p, LocatorTag);
    if ls != [] {
      assert ls[0] in ls;
    }
  }

  /** Locating a parameter fails exactly when it has no locator, no
      `FormalParameter` component, no `Computer` component in its first
      locator, or is a connection string whose host has no name or which has
      no value. */
  lemma {:induction false} LocateParamFails(nodes: seq<Node>, p: nat)
    requires WellFormed(nodes) && p < |nodes|
    ensures var ls := Children(nodes, p, LocatorTag);
      var f := FormalComponent(nodes, p);
      LocateParam(nodes, p).Err? <==>
        || ls == []
        || f.None?
        || (ls[0] < |nodes| && HostElement(nodes, ls[0]).None?)
        || (ls[0] < |nodes| && var h := HostElement(nodes, ls[0]).value;
            IsConnection(GetAttr(nodes, f.value, "Name")) && (GetAttr(nodes, h, "Name").None? || GetAttr(nodes, p, "Value").None?))
  {
    var ls := Children(nodes, p, LocatorTag);
    if ls != [] {
      assert ls[0] in ls;
    }
  }

  /** Located parameters lie in the document, their hosts are components,
      and a connection-string parameter has a named host and a value. */
  predicate Located(nodes: seq<Node>, qs: seq<Param>)
  {
    forall i :: 0 <= i < |qs| ==> LocatedOne(nodes, qs[i])
  }

  predicate LocatedOne(nodes: seq<Node>, q: Param)
  {
    && q.elem < |nodes| && q.host < |nodes| && nodes[q.host].tag == ComponentTag
    && (IsConnection(q.formal) ==> GetAttr(nodes, q.host, "Name").Some? && GetAttr(nodes, q.elem, "Value").Some?)
  }

  lemma {:induction false} LocatedSnoc(nodes: seq<Node>, qs: seq<Param>, q: Param)
    requires Located(nodes, qs) && LocatedOne(nodes, q)
    ensures Located(nodes, qs + [q])
  {
    assert forall i :: 0 <= i < |qs| ==> (qs + [q])[i] == qs[i];
  }

  /** The parameters `ps` located in turn; the first failure fails all. */
  function LocateAll(nodes: seq<Node>, ps: seq<nat>): (r: Result<seq<Param>>)
    requires WellFormed(nodes) && forall i :: 0 <= i < |ps| ==> ps[i] < |nodes|
    ensures r.Ok? ==> |r.value| == |ps| && Located(nodes, r.value)
    decreases |ps|
  {
    if ps == [] then Ok([])
    else
      var init := ps[..|ps| - 1];
      var rest := LocateAll(nodes, init);
      var last := LocateParam(nodes, ps[|ps| - 1]);
      if rest.Err? then Err(rest.msg)
      else if last.Err? then Err(last.msg)
      else
        LocatedSnoc(nodes, rest.value, last.value);
        Ok(rest.value + [last.value])
  }

  /** A failure while locating a prefix fails the whole. */
  lemma {:induction false} LocatePrefixErr(nodes: seq<Node>, ps: seq<nat>, i: nat)
    requires WellFormed(nodes) && i <= |ps| && forall j :: 0 <= j < |ps| ==> ps[j] < |nodes|
    requires LocateAll(nodes, ps[..i]).Err?
    ensures LocateAll(nodes, ps).Err?
    decreases |ps| - i
  {
    if i < |ps| {
      assert ps[..i + 1][..i] == ps[..i];
      LocatePrefixErr(nodes, ps, i + 1);
    } else {
      assert ps[..i] == ps;
    }
  }

  /** The located parameters are each parameter's location, in order. */
  lemma {:induction false} LocateAllAt(nodes: seq<Node>, ps: seq<nat>, i: nat)
    requires WellFormed(nodes) && i < |ps| && forall j :: 0 <= j < |ps| ==> ps[j] < |nodes|
    requires LocateAll(nodes, ps).Ok?
    ensures Ok(LocateAll(nodes, ps).value[i]) == LocateParam(nodes, ps[i])
    decreases |ps|
  {
    var init := ps[..|ps| - 1];
    assert forall j :: 0 <= j < |init| ==> init[j] == ps[j];
    if i < |ps| - 1 {
      LocateAllAt(nodes, init, i);
    }
  }

  /** Everything `replaceHostname` touches: the deployment host, the
      parameters, and the read and write event hosts. */
  datatype Flow = Flow(deploy: nat, params: seq<Param>, read: nat, write: nat)

  /** The lookups of lines 107-136 on the flow as it was read; any missing
      element fails the whole. */
  function Locate(nodes: seq<Node>): (r: Result<Flow>)
    requires WellFormed(nodes)
    ensures r.Err? <==>
      (DeploymentHost(nodes).Err? || LocateAll(nodes, Parameters(nodes)).Err? ||
       EventHost(nodes, "Read").Err? || EventHost(nodes, "Write").Err?)
    ensures r.Ok? ==>
      (&& r.value.deploy == DeploymentHost(nodes).value && r.value.read == EventHost(nodes, "Read").value
       && r.value.write == EventHost(nodes, "Write").value && r.value.params == LocateAll(nodes, Parameters(nodes)).value)
  {
    var d := DeploymentHost(nodes);
    var ps := LocateAll(nodes, Parameters(nodes));
    var rd := EventHost(nodes, "Read");
    var wr := EventHost(nodes, "Write");
    if d.Err? then Err(d.msg)
    else if ps.Err? then Err(ps.msg)
    else if rd.Err? then Err(rd.msg)
    else if wr.Err? then Err(wr.msg)
    else Ok(Flow(d.value, ps.value, rd.value, wr.value))
  }

  /** Locating one more parameter extends the located list by it, or
      fails. */
  lemma {:induction false} ParamStepPrefix(nodes: seq<Node>, ps: seq<nat>, i: nat)
    requires WellFormed(nodes) && i < |ps| && forall j :: 0 <= j < |ps| ==> ps[j] < |nodes|
    requires LocateAll(nodes, ps[..i]).Ok?
    ensures LocateAll(nodes, ps[..i + 1]) ==
      var q := LocateParam(nodes, ps[i]);
      if q.Err? then Err(q.msg) else Ok(LocateAll(nodes, ps[..i]).value + [q.value])
  {
    var qs := ps[..i + 1];
    assert qs[..|qs| - 1] == ps[..i] && qs[|qs| - 1] == ps[i];
    LocateLast(nodes, qs);
  }

  /** The last parameter of a list is located after all the others. */
  lemma {:induction false} LocateLast(nodes: seq<Node>, qs: seq<nat>)
    requires WellFormed(nodes) && qs != [] && forall j :: 0 <= j < |qs| ==> qs[j] < |nodes|
    ensures LocateAll(nodes, qs).Ok? <==>
      LocateAll(nodes, qs[..|qs| - 1]).Ok? && LocateParam(nodes, qs[|qs| - 1]).Ok?
    ensures LocateAll(nodes, qs).Ok? ==>
      LocateAll(nodes, qs).value == LocateAll(nodes, qs[..|qs| - 1]).value + [LocateParam(nodes, qs[|qs| - 1]).value]
  {
  }

  /** A located flow lies in the document. */
  predicate InFlow(nodes: seq<Node>, f: Flow)
  {
    && f.deploy < |nodes| && f.read < |nodes| && f.write < |nodes|
    && Located(nodes, f.params)
  }

  lemma {:induction false} LocatedInFlow(nodes: seq<Node>)
    requires WellFormed(nodes) && Locate(nodes).Ok?
    ensures InFlow(nodes, Locate(nodes).value)
  {
  }

  // ---------------------------------------------------------------------------
  // What `replaceHostname` does

  /** The parameter hosts named like `org`, in order. */
  function Matching(nodes: seq<Node>, qs: seq<Param>, org: Option<string>): (r: seq<nat>)
    requires Located(nodes, qs)
    ensures forall x :: x in r <==> exists i :: 0 <= i < |qs| && qs[i].host == x && GetAttr(nodes, x, "Name") == org
    ensures |r| <= |qs|
    decreases |qs|
  {
    if qs == [] then []
    else
      var q := qs[|qs| - 1];
      var init := qs[..|qs| - 1];
      assert forall i :: 0 <= i < |init| ==> init[i] == qs[i];
      Matching(nodes, init, org) + (if GetAttr(nodes, q.host, "Name") == org then [q.host] else [])
  }

  /** The new `Value` of each connection-string parameter: the name its
      host had, two underscores, and its old value (line 125). */
  function NewValues(nodes: seq<Node>, qs: seq<Param>): (r: map<nat, string>)
    requires Located(nodes, qs)
    ensures forall p :: p in r <==> exists i :: 0 <= i < |qs| && qs[i].elem == p && IsConnection(qs[i].formal)
    decreases |qs|
  {
    if qs == [] then map[]
    else
      var q := qs[|qs| - 1];
      var init := qs[..|qs| - 1];
      assert forall i :: 0 <= i < |init| ==> init[i] == qs[i];
      var m := NewValues(nodes, init);
      if IsConnection(q.formal) then
        m[q.elem := GetAttr(nodes, q.host, "Name").value + "__" + GetAttr(nodes, q.elem, "Value").value]
      else m
  }

  /** `orgvalues` after the parameters: each connection-string formal
      parameter keeps the old value of the last parameter naming it. */
  function Saved(nodes: seq<Node>, qs: seq<Param>, m: map<string, Option<string>>): (r: map<string, Option<string>>)
    requires Located(nodes, qs)
    ensures forall k :: k in r <==> k in m || exists i :: 0 <= i < |qs| && IsConnection(qs[i].formal) && qs[i].formal == Some(k)
    ensures forall k :: k in m && k != SourceConnection && k != TargetConnection ==> k in r && r[k] == m[k]
    decreases |qs|
  {
    if qs == [] then m
    else
      var q := qs[|qs| - 1];
      var init := qs[..|qs| - 1];
      assert forall i :: 0 <= i < |init| ==> init[i] == qs[i];
      var r := Saved(nodes, init, m);
      if IsConnection(q.formal) then r[q.formal.value := GetAttr(nodes, q.elem, "Value")] else r
  }

  /** One more parameter: the three folds grow by what it adds. */
  lemma {:induction false} MatchingSnoc(nodes: seq<Node>, qs: seq<Param>, q: Param, org: Option<string>)
    requires Located(nodes, qs) && LocatedOne(nodes, q)
    ensures Matching(nodes, qs + [q], org) == Matching(nodes, qs, org) + (if GetAttr(nodes, q.host, "Name") == org then [q.host] else [])
  {
    LocatedSnoc(nodes, qs, q);
    assert (qs + [q])[..|qs|] == qs;
  }

  lemma {:induction false} NewValuesSnoc(nodes: seq<Node>, qs: seq<Param>, q: Param)
    requires Located(nodes, qs) && LocatedOne(nodes, q)
    ensures NewValues(nodes, qs + [q]) ==
      if IsConnection(q.formal) then NewValues(nodes, qs)[q.elem := GetAttr(nodes, q.host, "Name").value + "__" + GetAttr(nodes, q.elem, "Value").value]
      else NewValues(nodes, qs)
  {
    LocatedSnoc(nodes, qs, q);
    assert (qs + [q])[..|qs|] == qs;
  }

  lemma {:induction false} SavedSnoc(nodes: seq<Node>, qs: seq<Param>, q: Param, m: map<string, Option<string>>)
    requires Located(nodes, qs) && LocatedOne(nodes, q)
    ensures Saved(nodes, qs + [q], m) ==
      if IsConnection(q.formal) then Saved(nodes, qs, m)[q.formal.value := GetAttr(nodes, q.elem, "Value")]
      else Saved(nodes, qs, m)
  {
    LocatedSnoc(nodes, qs, q);
    assert (qs + [q])[..|qs|] == qs;
  }

  /** The state of `replaceHostname` after the parameters `qs`, from the
      state `s0`, `r0`, `c0`, `m0` it had before them. */
  ghost predicate ParamsDone(doc: seq<Node>, qs: seq<Param>, org: Option<string>, target: string,
                             s0: set<nat>, r0: nat, c0: bool, m0: map<string, Option<string>>,
                             nodes: seq<Node>, renamed: set<nat>, values: map<nat, string>,
                             replacements: nat, changed: bool, orgvalues: map<string, Option<string>>)
    requires Located(doc, qs)
  {
    && renamed == s0 + Elems(Matching(doc, qs, org))
    && (forall x :: x in renamed ==> x < |doc| && doc[x].tag == ComponentTag)
    && values == NewValues(doc, qs)
    && nodes == Rewrite(doc, renamed, values, target)
    && replacements == r0 + |Matching(doc, qs, org)|
    && changed == (c0 || HasConnection(qs))
    && orgvalues == Saved(doc, qs, m0)
  }

  /** What one parameter does to the state of `replaceHostname`. */
  lemma {:induction false} ParamsDoneStep(doc: seq<Node>, qs: seq<Param>, q: Param, org: Option<string>, target: string,
                       s0: set<nat>, r0: nat, c0: bool, m0: map<string, Option<string>>,
                       nodes: seq<Node>, renamed: set<nat>, values: map<nat, string>,
                       replacements: nat, changed: bool, orgvalues: map<string, Option<string>>,
                       nodes': seq<Node>, renamed': set<nat>, values': map<nat, string>,
                       replacements': nat, changed': bool, orgvalues': map<string, Option<string>>)
    requires Located(doc, qs) && LocatedOne(doc, q) && doc[q.elem].tag == ParameterTag
    requires ParamsDone(doc, qs, org, target, s0, r0, c0, m0, nodes, renamed, values, replacements, changed, orgvalues)
    requires renamed' == renamed + (if GetAttr(doc, q.host, "Name") == org then {q.host} else {})
    requires values' == if IsConnection(q.formal) then values[q.elem := GetAttr(doc, q.host, "Name").value + "__" + GetAttr(doc, q.elem, "Value").value] else values
    requires nodes' == Rewrite(doc, renamed', values', target)
    requires replacements' == replacements + (if GetAttr(doc, q.host, "Name") == org then 1 else 0)
    requires changed' == (changed || IsConnection(q.formal))
    requires orgvalues' == if IsConnection(q.formal) then orgvalues[q.formal.value := GetAttr(doc, q.elem, "Value")] else orgvalues
    ensures Located(doc, qs + [q])
    ensures renamed' == s0 + Elems(Matching(doc, qs + [q], org))
    ensures forall x :: x in renamed' ==> x < |doc| && doc[x].tag == ComponentTag
    ensures values' == NewValues(doc, qs + [q])
    ensures replacements' == r0 + |Matching(doc, qs + [q], org)|
    ensures changed' == (c0 || HasConnection(qs + [q]))
    ensures orgvalues' == Saved(doc, qs + [q], m0)
  {
    LocatedSnoc(doc, qs, q);
    MatchingSnoc(doc, qs, q, org);
    NewValuesSnoc(doc, qs, q);
    SavedSnoc(doc, qs, q, m0);
    HasConnectionSnoc(qs, q);
  }

  lemma {:induction false} HasConnectionSnoc(qs: seq<Param>, q: Param)
    ensures HasConnection(qs + [q]) == (HasConnection(qs) || IsConnection(q.formal))
  {
    if HasConnection(qs + [q]) && !IsConnection(q.formal) {
      var p :| p in qs + [q] && IsConnection(p.formal);
      assert p in qs;
    }
    if HasConnection(qs) {
      var p :| p in qs && IsConnection(p.formal);
      assert p in qs + [q];
    }
  }

  /** The pieces of `replaceHostname` put together: the deployment host,
      the parameter loop, and the read and write hosts. */
  lemma {:induction false} HostnameResult(doc: seq<Node>, f: Flow, target: string, org: Option<string>,
                       r0: nat, c0: bool, m0: map<string, Option<string>>,
                       s1: set<nat>, r1: nat, m1: map<string, Option<string>>,
                       n2: seq<Node>, s2: set<nat>, values: map<nat, string>, r2: nat, changed: bool, orgvalues: map<string, Option<string>>,
                       renamed: set<nat>, nodes: seq<Node>, replacements: nat)
    requires InFlow(doc, f)
    requires org == GetAttr(doc, f.deploy, "Name")
    requires s1 == (if org != Some(target) then {f.deploy} else {})
    requires r1 == r0 + (if org != Some(target) then 1 else 0) && m1 == m0["host" := org]
    requires ParamsDone(doc, f.params, org, target, s1, r1, c0, m1, n2, s2, values, r2, changed, orgvalues)
    requires
      && renamed == s2 + (if GetAttr(doc, f.read, "Name") == org then {f.read} else {}) + (if GetAttr(doc, f.write, "Name") == org then {f.write} else {})
      && replacements == r2 + (if GetAttr(doc, f.read, "Name") == org then 1 else 0) + (if GetAttr(doc, f.write, "Name") == org then 1 else 0)
      && nodes == Rewrite(doc, renamed, values, target)
    ensures
      && nodes == Rewrite(doc, Renamed(doc, f, target), NewValues(doc, f.params), target)
      && replacements == r0 + Replacements(doc, f, target)
      && orgvalues == Saved(doc, f.params, m0["host" := org])
      && changed == (c0 || HasConnection(f.params))
  {
    assert renamed == Renamed(doc, f, target);
  }

  /** The host components renamed to the target: the deployment host when
      its name differs from the target, and every parameter, read or write
      host whose name equals the deployment host's. */
  function Renamed(nodes: seq<Node>, f: Flow, target: string): (r: set<nat>)
    requires InFlow(nodes, f)
    ensures forall x :: x in r <==>
      || (x == f.deploy && GetAttr(nodes, f.deploy, "Name") != Some(target))
      || (x in Matching(nodes, f.params, GetAttr(nodes, f.deploy, "Name")))
      || (x == f.read && GetAttr(nodes, f.read, "Name") == GetAttr(nodes, f.deploy, "Name"))
      || (x == f.write && GetAttr(nodes, f.write, "Name") == GetAttr(nodes, f.deploy, "Name"))
  {
    var org := GetAttr(nodes, f.deploy, "Name");
    (if org != Some(target) then {f.deploy} else {})
    + Elems(Matching(nodes, f.params, org))
    + (if GetAttr(nodes, f.read, "Name") == org then {f.read} else {})
    + (if GetAttr(nodes, f.write, "Name") == org then {f.write} else {})
  }

  /** `result['replacements']` gained: one per rename made (lines 110-112,
      127-129, 132-134, 137-139). */
  function Replacements(nodes: seq<Node>, f: Flow, target: string): nat
    requires InFlow(nodes, f)
  {
    var org := GetAttr(nodes, f.deploy, "Name");
    (if org != Some(target) then 1 else 0)
    + |Matching(nodes, f.params, org)|
    + (if GetAttr(nodes, f.read, "Name") == org then 1 else 0)
    + (if GetAttr(nodes, f.write, "Name") == org then 1 else 0)
  }

  /** The hosts `replaceHostname` renames are distinct elements: the
      deployment host, each parameter's host, and the read and the write
      event's host. */
  predicate HostsApart(f: Flow)
  {
    && f.deploy != f.read && f.deploy != f.write && f.read != f.write
    && (forall i :: 0 <= i < |f.params| ==> f.params[i].host != f.deploy && f.params[i].host != f.read && f.params[i].host != f.write)
    && (forall i, j :: 0 <= i < j < |f.params| ==> f.params[i].host != f.params[j].host)
  }

  /** Every located flow keeps its hosts apart: they hang below a
      `Deployment`, an `ActualParameter` (each a different one) or a
      `DataResourceLocator` of the `Read` or the `Write` event. */
  lemma {:induction false} LocatedHostsApart(nodes: seq<Node>, f: Flow)
    requires WellFormed(nodes) && Locate(nodes) == Ok(f)
    ensures HostsApart(f)
  {
    var ps := Parameters(nodes);
    assert LocateAll(nodes, ps) == Ok(f.params);
    ParamHostsBelow(nodes, ps, f.params);
    assert f.deploy == DeploymentHost(nodes).value;
    assert f.read == EventHost(nodes, "Read").value && f.write == EventHost(nodes, "Write").value;
    EventHostBelow(nodes, "Read");
    EventHostBelow(nodes, "Write");
    ApartByPlace(nodes, f, ps);
  }

  /** An event's host hangs below a data resource of that event, whose
      `Type` is the kind asked for. */
  lemma {:induction false} EventHostBelow(nodes: seq<Node>, kind: string)
    requires WellFormed(nodes) && EventHost(nodes, kind).Ok?
    ensures var h := EventHost(nodes, kind).value; h < |nodes| && var l := nodes[h].parent;
      0 <= l < |nodes| && nodes[l].tag == ResourceTag && 0 <= nodes[l].parent < |nodes|
      && GetAttr(nodes, nodes[l].parent, "Type") == Some(kind)
  {
  }

  /** Hosts whose places in the tree differ are different elements. */
  lemma {:induction false} ApartByPlace(nodes: seq<Node>, f: Flow, ps: seq<nat>)
    requires f.deploy < |nodes| && f.read < |nodes| && f.write < |nodes|
    requires var l := nodes[f.deploy].parent;
      0 <= l < |nodes| && nodes[l].tag == LocatorTag && 0 <= nodes[l].parent < |nodes| && nodes[nodes[l].parent].tag == DeploymentTag
    requires var l := nodes[f.read].parent;
      0 <= l < |nodes| && nodes[l].tag == ResourceTag && 0 <= nodes[l].parent < |nodes| && GetAttr(nodes, nodes[l].parent, "Type") == Some("Read")
    requires var l := nodes[f.write].parent;
      0 <= l < |nodes| && nodes[l].tag == ResourceTag && 0 <= nodes[l].parent < |nodes| && GetAttr(nodes, nodes[l].parent, "Type") == Some("Write")
    requires |f.params| == |ps| && NoDup(ps)
    requires forall i :: 0 <= i < |f.params| ==> f.params[i].host < |nodes| && var l := nodes[f.params[i].host].parent;
      0 <= l < |nodes| && nodes[l].tag == LocatorTag && nodes[l].parent == ps[i] && ps[i] < |nodes| && nodes[ps[i]].tag == ParameterTag
    ensures HostsApart(f)
  {
  }

  /** Each located parameter's host hangs below a locator below that
      parameter. */
  lemma {:induction false} ParamHostsBelow(nodes: seq<Node>, ps: seq<nat>, qs: seq<Param>)
    requires WellFormed(nodes) && ps == Parameters(nodes) && LocateAll(nodes, ps) == Ok(qs)
    ensures |qs| == |ps| && NoDup(ps)
    ensures forall i :: 0 <= i < |qs| ==> qs[i].host < |nodes| && var l := nodes[qs[i].host].parent;
      0 <= l < |nodes| && nodes[l].tag == LocatorTag && nodes[l].parent == ps[i] && ps[i] < |nodes| && nodes[ps[i]].tag == ParameterTag
  {
    forall i | 0 <= i < |qs|
      ensures qs[i].host < |nodes| && var l := nodes[qs[i].host].parent;
        0 <= l < |nodes| && nodes[l].tag == LocatorTag && nodes[l].parent == ps[i] && ps[i] < |nodes| && nodes[ps[i]].tag == ParameterTag
    {
      LocateAllAt(nodes, ps, i);
      var q := LocateParam(nodes, ps[i]);
      assert q == Ok(qs[i]);
    }
  }

  /** `result['replacements']` counts every renamed host exactly once. */
  lemma {:induction false} ReplacementsCounted(nodes: seq<Node>, f: Flow, target: string)
    requires WellFormed(nodes) && Locate(nodes) == Ok(f)
    ensures InFlow(nodes, f) && Replacements(nodes, f, target) == |Renamed(nodes, f, target)|
  {
    LocatedInFlow(nodes);
    LocatedHostsApart(nodes, f);
    CountedApart(nodes, f, target);
  }

  /** With the hosts apart, each rename counted is a different host. */
  lemma {:induction false} CountedApart(nodes: seq<Node>, f: Flow, target: string)
    requires InFlow(nodes, f) && HostsApart(f)
    ensures Replacements(nodes, f, target) == |Renamed(nodes, f, target)|
  {
    var org := GetAttr(nodes, f.deploy, "Name");
    var m := Matching(nodes, f.params, org);
    MatchingApart(nodes, f.params, org);
    NoDupCard(m);
    assert f.deploy !in m && f.read !in m && f.write !in m by {
      forall x | x in m
        ensures x != f.deploy && x != f.read && x != f.write
      {
        var i :| 0 <= i < |f.params| && f.params[i].host == x && GetAttr(nodes, x, "Name") == org;
      }
    }
    var a: set<nat> := if org != Some(target) then {f.deploy} else {};
    var b := Elems(m);
    var c: set<nat> := if GetAttr(nodes, f.read, "Name") == org then {f.read} else {};
    var d: set<nat> := if GetAttr(nodes, f.write, "Name") == org then {f.write} else {};
    RenamedUnion(nodes, f, target);
    assert a !! b && a !! c && a !! d && b !! c && b !! d && c !! d;
    CardOfFour(a, b, c, d);
  }

  /** `Renamed` is the union of its four parts. */
  lemma {:induction false} RenamedUnion(nodes: seq<Node>, f: Flow, target: string)
    requires InFlow(nodes, f)
    ensures var org := GetAttr(nodes, f.deploy, "Name");
      Renamed(nodes, f, target) ==
        (if org != Some(target) then {f.deploy} else {})
        + Elems(Matching(nodes, f.params, org))
        + (if GetAttr(nodes, f.read, "Name") == org then {f.read} else {})
        + (if GetAttr(nodes, f.write, "Name") == org then {f.write} else {})
  {
  }

  /** Four pairwise disjoint sets: the union's size is the sum of theirs. */
  lemma {:induction false} CardOfFour(a: set<nat>, b: set<nat>, c: set<nat>, d: set<nat>)
    requires a !! b && a !! c && a !! d && b !! c && b !! d && c !! d
    ensures |a + b + c + d| == |a| + |b| + |c| + |d|
  {
    assert (a + b) !! c;
    assert (a + b + c) !! d;
  }

  /** Parameters with distinct hosts match each host at most once. */
  lemma {:induction false} MatchingApart(nodes: seq<Node>, qs: seq<Param>, org: Option<string>)
    requires Located(nodes, qs)
    requires forall i, j :: 0 <= i < j < |qs| ==> qs[i].host != qs[j].host
    ensures NoDup(Matching(nodes, qs, org))
    decreases |qs|
  {
    if qs != [] {
      var q := qs[|qs| - 1];
      var init := qs[..|qs| - 1];
      assert forall i :: 0 <= i < |init| ==> init[i] == qs[i];
      MatchingApart(nodes, init, org);
      NoDupConcat(Matching(nodes, init, org), if GetAttr(nodes, q.host, "Name") == org then [q.host] else []);
    }
  }

  /** One element after the rewrite: a new `Value` if it is a rewritten
      parameter, then the target as `Name` if it is a renamed host. */
  function Rewritten(n: Node, x: nat, renamed: set<nat>, values: map<nat, string>, target: string): Node
  {
    var m := if x in values then n.attrs["Value" := values[x]] else n.attrs;
    n.(attrs := if x in renamed then m["Name" := target] else m)
  }

  /** The whole flow after the rewrite; no tag, text or structure changes. */
  function Rewrite(nodes: seq<Node>, renamed: set<nat>, values: map<nat, string>, target: string): (r: seq<Node>)
    ensures |r| == |nodes|
    ensures forall x :: 0 <= x < |r| ==> r[x] == Rewritten(nodes[x], x, renamed, values, target)
  {
    seq(|nodes|, x requires 0 <= x < |nodes| => Rewritten(nodes[x], x, renamed, values, target))
  }

  lemma {:induction false} RewriteNothing(nodes: seq<Node>, target: string)
    ensures Rewrite(nodes, {}, map[], target) == nodes
  {
  }

  lemma {:induction false} RenameOne(nodes: seq<Node>, cur: seq<Node>, renamed: set<nat>, values: map<nat, string>, target: string, x: nat)
    requires cur == Rewrite(nodes, renamed, values, target) && x < |nodes|
    ensures WithAttr(cur, x, "Name", Some(target)) == Rewrite(nodes, renamed + {x}, values, target)
  {
    var a := WithAttr(cur, x, "Name", Some(target));
    var b := Rewrite(nodes, renamed + {x}, values, target);
    forall i | 0 <= i < |a|
      ensures a[i] == b[i]
    {
      if i == x {
        var m := if x in values then nodes[x].attrs["Value" := values[x]] else nodes[x].attrs;
        assert a[i].attrs == m["Name" := target];
      }
    }
  }

  lemma {:induction false} RevalueOne(nodes: seq<Node>, cur: seq<Node>, renamed: set<nat>, values: map<nat, string>, target: string, p: nat, v: string)
    requires cur == Rewrite(nodes, renamed, values, target) && p < |nodes| && p !in renamed
    ensures WithAttr(cur, p, "Value", Some(v)) == Rewrite(nodes, renamed, values[p := v], target)
  {
    var a := WithAttr(cur, p, "Value", Some(v));
    var b := Rewrite(nodes, renamed, values[p := v], target);
    forall i | 0 <= i < |a|
      ensures a[i] == b[i]
    {
      if i == p {
        assert a[i].attrs == nodes[p].attrs["Value" := v];
      }
    }
  }

  /** A rewrite changes only attributes, so it keeps the tree. */
  lemma {:induction false} RewriteWellFormed(nodes: seq<Node>, renamed: set<nat>, values: map<nat, string>, target: string)
    requires WellFormed(nodes)
    ensures WellFormed(Rewrite(nodes, renamed, values, target))
  {
    var r := Rewrite(nodes, renamed, values, target);
    forall q | 0 <= q < |r|
      ensures KidsAgree(r, q)
    {
      KidsOf(nodes, q);
    }
    forall c | 0 <= c < |r|
      ensures ListedByParent(r, c)
    {
      if r[c].parent >= 0 {
        ParentOf(nodes, c);
      }
    }
  }

  // ---------------------------------------------------------------------------
  // The run's identity

  /** `_getDataResourceStore` (lines 71-75): the name of the resource's
      `DataStore` component, or the connection string when that name is
      blank. A missing component or name fails (`strip` on None). */
  function DataResourceStore(nodes: seq<Node>, res: nat, conn: Option<string>): (r: Result<Option<string>>)
    requires WellFormed(nodes) && res < |nodes|
    ensures var n := ComponentName(nodes, res, "Class", "DataStore");
      && (r.Err? <==> n.Err? || n.value.None?)
      && (r.Ok? && IsBlank(n.value.value) ==> r.value == conn)
      && (r.Ok? && !IsBlank(n.value.value) ==> r.value == n.value)
  {
    var ds := ComponentName(nodes, res, "Class", "DataStore");
    if ds.Err? then Err(ds.msg)
    else if ds.value.None? then Err("AttributeError: 'NoneType' object has no attribute 'strip'")
    else if IsBlank(ds.value.value) then Ok(conn)
    else Ok(ds.value)
  }

  /** The four parts of a data resource's identity, `::`-separated. */
  function Identity(host: string, store: string, schema: string, table: string): string
  {
    host + "::" + store + "::" + schema + "::" + table
  }

  /** An identity splits back into its parts when none of them holds a
      colon. */
  lemma {:induction false} IdentitySplit(host: string, store: string, schema: string, table: string)
    requires ':' !in host && ':' !in store && ':' !in schema && ':' !in table
    ensures Split(Identity(host, store, schema, table), ':') == [host, "", store, "", schema, "", table]
  {
    IdentityJoin(host, store, schema, table);
    SplitJoin([host, "", store, "", schema, "", table], ':');
  }

  /** An identity joins its parts, with empty parts between them, by single
      colons. */
  lemma {:induction false} IdentityJoin(host: string, store: string, schema: string, table: string)
    ensures Join([host, "", store, "", schema, "", table], [':']) == Identity(host, store, schema, table)
  {
    JoinPair(schema, [table]);
    assert Join([table], [':']) == table;
    JoinPair(store, [schema, "", table]);
    assert [store, ""] + [schema, "", table] == [store, "", schema, "", table];
    JoinPair(host, [store, "", schema, "", table]);
    assert [host, ""] + [store, "", schema, "", table] == [host, "", store, "", schema, "", table];
    DoubleColonAssoc(host, store, schema, table);
  }

  /** A part followed by an empty part joins to the part and a double colon. */
  lemma {:induction false} JoinPair(x: string, rest: seq<string>)
    requires rest != []
    ensures Join([x, ""] + rest, [':']) == x + "::" + Join(rest, [':'])
  {
    var parts := [x, ""] + rest;
    assert parts[1..] == [""] + rest;
    assert parts[1..][1..] == rest;
    assert Join(parts[1..], [':']) == "" + [':'] + Join(rest, [':']);
  }

  lemma {:induction false} DoubleColonAssoc(a: string, b: string, c: string, d: string)
    ensures a + "::" + (b + "::" + (c + "::" + d)) == a + "::" + b + "::" + c + "::" + d
  {
  }

  /** Hence resources whose parts hold no colon share an identity only when
      they agree on every part. */
  lemma {:induction false} IdentityInjective(h1: string, d1: string, s1: string, t1: string, h2: string, d2: string, s2: string, t2: string)
    requires ':' !in h1 && ':' !in d1 && ':' !in s1 && ':' !in t1
    requires ':' !in h2 && ':' !in d2 && ':' !in s2 && ':' !in t2
    requires Identity(h1, d1, s1, t1) == Identity(h2, d2, s2, t2)
    ensures h1 == h2 && d1 == d2 && s1 == s2 && t1 == t2
  {
    IdentitySplit(h1, d1, s1, t1);
    IdentitySplit(h2, d2, s2, t2);
  }

  /** `_getDataResourceIdentity` (lines 83-88): host, store, schema and table
      of the resource. A missing component fails, and so does a missing
      name when the parts are concatenated. */
  function DataResourceIdentity(nodes: seq<Node>, res: nat, conn: Option<string>): (r: Result<string>)
    requires WellFormed(nodes) && res < |nodes|
    ensures var h, d, s, t := ComponentName(nodes, res, "Class", "Computer"), DataResourceStore(nodes, res, conn),
                              ComponentName(nodes, res, "Class", "DataSchema"), ComponentName(nodes, res, "SubClass", "Table");
      && (r.Ok? <==> h.Ok? && d.Ok? && s.Ok? && t.Ok? && h.value.Some? && d.value.Some? && s.value.Some? && t.value.Some?)
      && (r.Ok? ==> r.value == Identity(h.value.value, d.value.value, s.value.value, t.value.value))
  {
    var host := ComponentName(nodes, res, "Class", "Computer");
    var db := DataResourceStore(nodes, res, conn);
    var schema := ComponentName(nodes, res, "Class", "DataSchema");
    var table := ComponentName(nodes, res, "SubClass", "Table");
    if host.Err? then Err(host.msg)
    else if db.Err? then Err(db.msg)
    else if schema.Err? then Err(schema.msg)
    else if table.Err? then Err(table.msg)
    else if host.value.None? || db.value.None? || schema.value.None? || table.value.None? then
      Err("TypeError: can only concatenate str (not \"NoneType\") to str")
    else Ok(Identity(host.value.value, db.value.value, schema.value.value, table.value.value))
  }

  /** `_getDataCollectionForEvent` (lines 64-66): the collection of the
      `DataSchema` whose `Ident` is the `ReferenceDC` of the event's first
      locator, or None. A missing locator or reference fails, and so does a
      reference holding a quote, which breaks the path expression. */
  function DataCollection(nodes: seq<Node>, ev: nat): (r: Result<Option<nat>>)
    requires WellFormed(nodes) && ev < |nodes|
    ensures Children(nodes, ev, LocatorTag) == [] ==> r.Err?
    ensures r.Ok? ==> var l := Children(nodes, ev, LocatorTag)[0]; l < |nodes| && var ref := GetAttr(nodes, l, "ReferenceDC");
      && ref.Some? && '\'' !in ref.value
      && (r.value.Some? ==> r.value.value < |nodes| && Grandchild(nodes, r.value.value, 0, SchemaTag, CollectionTag)
                            && GetAttr(nodes, r.value.value, "Ident") == ref)
      && (r.value.None? ==> forall x :: 0 <= x < |nodes| && Grandchild(nodes, x, 0, SchemaTag, CollectionTag) ==>
                              GetAttr(nodes, x, "Ident") != ref)
  {
    var locs := Children(nodes, ev, LocatorTag);
    if locs == [] then Err("AttributeError: 'NoneType' object has no attribute 'get'")
    else
      Inside(nodes, locs);
      var ref := GetAttr(nodes, locs[0], "ReferenceDC");
      if ref.None? then Err("TypeError: can only concatenate str (not \"NoneType\") to str")
      else if '\'' in ref.value then Err("SyntaxError: invalid predicate")
      else
        var cs := Path2(nodes, 0, SchemaTag, CollectionTag);
        Inside(nodes, cs);
        var c := FindWhere(nodes, cs, "Ident", ref.value);
        assert c.None? ==> forall x :: 0 <= x < |nodes| && Grandchild(nodes, x, 0, SchemaTag, CollectionTag) ==>
                              GetAttr(nodes, x, "Ident") != ref by {
          if c.None? {
            forall x | 0 <= x < |nodes| && Grandchild(nodes, x, 0, SchemaTag, CollectionTag)
              ensures GetAttr(nodes, x, "Ident") != ref
            {
              var i :| 0 <= i < |cs| && cs[i] == x;
            }
          }
        }
        Ok(c)
  }

  /** The `Name` of each `DataField` of a collection, in document order. */
  function Columns(nodes: seq<Node>, c: nat): (r: seq<Option<string>>)
    requires WellFormed(nodes) && c < |nodes|
    ensures var fs := Children(nodes, c, FieldTag);
      |r| == |fs| && forall i :: 0 <= i < |r| ==> fs[i] < |nodes| && r[i] == GetAttr(nodes, fs[i], "Name")
  {
    var fs := Children(nodes, c, FieldTag);
    Inside(nodes, fs);
    seq(|fs|, i requires 0 <= i < |fs| => GetAttr(nodes, fs[i], "Name"))
  }

  /** The components of the design locators, locator by locator. */
  function DesignComponents(nodes: seq<Node>): (r: seq<nat>)
    requires WellFormed(nodes)
    ensures forall i :: 0 <= i < |r| ==> r[i] < |nodes|
    ensures forall x :: x in r <==>
      && 0 <= x < |nodes| && nodes[x].tag == ComponentTag
      && 0 <= nodes[x].parent < |nodes| && Grandchild(nodes, nodes[x].parent, 0, DesignTag, LocatorTag)
  {
    var locs := Path2(nodes, 0, DesignTag, LocatorTag);
    Inside(nodes, locs);
    var comps := ChildrenOfEach(nodes, locs, ComponentTag);
    Inside(nodes, comps);
    comps
  }

  /** The first design locator component of the sub-class, or None when
      there is none. */
  function DesignComponent(nodes: seq<Node>, subclass: string): (r: Option<nat>)
    requires WellFormed(nodes)
    ensures r.Some? ==> r.value < |nodes|
  {
    FindWhere(nodes, DesignComponents(nodes), "SubClass", subclass)
  }

  /** The design component of a sub-class is the first design locator
      component of that sub-class, and there is none exactly when no design
      locator component has it. */
  lemma {:induction false} DesignComponentFirst(nodes: seq<Node>, subclass: string)
    requires WellFormed(nodes)
    ensures var cs := DesignComponents(nodes); var r := DesignComponent(nodes, subclass);
      r.Some? ==> FirstWhere(nodes, cs, r.value, "SubClass", subclass)
    ensures var cs := DesignComponents(nodes);
      DesignComponent(nodes, subclass).None? <==> forall i :: 0 <= i < |cs| ==> GetAttr(nodes, cs[i], "SubClass") != Some(subclass)
  {
  }

  /** `getProjectName` and `getJobName` (lines 96-100): the name of the
      first design locator component of the sub-class; fails when there is
      none. */
  function DesignName(nodes: seq<Node>, subclass: string): (r: Result<Option<string>>)
    requires WellFormed(nodes)
  {
    var c := DesignComponent(nodes, subclass);
    if c.None? then Err("AttributeError: 'NoneType' object has no attribute 'get'")
    else Ok(GetAttr(nodes, c.value, "Name"))
  }

  /** `find` on the design components: the name is that of the first design
      locator component of the sub-class, and the lookup fails exactly when
      there is none. */
  lemma {:induction false} DesignNameOf(nodes: seq<Node>, subclass: string)
    requires WellFormed(nodes)
    ensures DesignName(nodes, subclass).Err? <==> DesignComponent(nodes, subclass).None?
    ensures DesignName(nodes, subclass).Ok? ==>
      DesignName(nodes, subclass).value == GetAttr(nodes, DesignComponent(nodes, subclass).value, "Name")
  {
  }

  /** A design name found is the name of a component of the sub-class below
      a design locator. */
  lemma {:induction false} DesignNameFound(nodes: seq<Node>, subclass: string)
    requires WellFormed(nodes)
    ensures var r := DesignName(nodes, subclass);
      r.Ok? ==> exists x :: (0 <= x < |nodes| && nodes[x].tag == ComponentTag
        && 0 <= nodes[x].parent < |nodes| && Grandchild(nodes, nodes[x].parent, 0, DesignTag, LocatorTag)
        && GetAttr(nodes, x, "SubClass") == Some(subclass) && r.value == GetAttr(nodes, x, "Name"))
  {
    var c := DesignComponent(nodes, subclass);
    DesignComponentFirst(nodes, subclass);
    if c.Some? {
      var cs := DesignComponents(nodes);
      var i :| 0 <= i < |cs| && cs[i] == c.value;
      assert c.value in cs;
    }
  }

  /** What `getUniqueRuntimeIdentity` returns. */
  datatype RuntimeIdentity = RuntimeIdentity(project: Option<string>, job: Option<string>,
                                             source: string, sourceCols: seq<Option<string>>,
                                             target: string, targetCols: seq<Option<string>>)

  /** One side of the run: the identity of the event's first data resource,
      with the connection string saved under `key`, and the columns of its
      data collection. */
  datatype Side = Side(identity: string, cols: seq<Option<string>>)

  function EventSide(nodes: seq<Node>, kind: string, key: string, saved: map<string, Option<string>>): (r: Result<Side>)
    requires WellFormed(nodes)
    ensures r.Ok? ==> key in saved && Event(nodes, kind).Some?
    ensures r.Ok? ==> var ev := Event(nodes, kind).value; var rs := Children(nodes, ev, ResourceTag);
      && rs != [] && rs[0] < |nodes|
      && DataResourceIdentity(nodes, rs[0], saved[key]) == Ok(r.value.identity)
      && DataCollection(nodes, ev).Ok? && DataCollection(nodes, ev).value.Some?
      && r.value.cols == Columns(nodes, DataCollection(nodes, ev).value.value)
  {
    var ev := Event(nodes, kind);
    if ev.None? then Err("AttributeError: 'NoneType' object has no attribute 'find'")
    else if key !in saved then Err("KeyError: '" + key + "'")
    else
      var rs := Children(nodes, ev.value, ResourceTag);
      Inside(nodes, rs);
      if rs == [] then Err("AttributeError: 'NoneType' object has no attribute 'find'")
      else
        var id := DataResourceIdentity(nodes, rs[0], saved[key]);
        if id.Err? then Err(id.msg)
        else
          var c := DataCollection(nodes, ev.value);
          if c.Err? then Err(c.msg)
          else if c.value.None? then Err("AttributeError: 'NoneType' object has no attribute 'findall'")
          else Ok(Side(id.value, Columns(nodes, c.value.value)))
  }

  /** `getUniqueRuntimeIdentity` (lines 141-152) on the flow and the saved
      `orgvalues`: it needs both connection strings `replaceHostname`
      saved, and fails when any lookup does. */
  function RuntimeIdentityOf(nodes: seq<Node>, saved: map<string, Option<string>>): (r: Result<RuntimeIdentity>)
    requires WellFormed(nodes)
    ensures r.Ok? ==> SourceConnection in saved && TargetConnection in saved
    ensures r.Ok? <==> (DesignName(nodes, "Project").Ok? && DesignName(nodes, "Job").Ok?
                        && EventSide(nodes, "Read", SourceConnection, saved).Ok?
                        && EventSide(nodes, "Write", TargetConnection, saved).Ok?)
    ensures r.Ok? ==> var s, t := EventSide(nodes, "Read", SourceConnection, saved).value, EventSide(nodes, "Write", TargetConnection, saved).value;
      r.value == RuntimeIdentity(DesignName(nodes, "Project").value, DesignName(nodes, "Job").value,
                                 s.identity, s.cols, t.identity, t.cols)
  {
    var project := DesignName(nodes, "Project");
    var job := DesignName(nodes, "Job");
    var s := EventSide(nodes, "Read", SourceConnection, saved);
    var t := EventSide(nodes, "Write", TargetConnection, saved);
    if project.Err? then Err(project.msg)
    else if job.Err? then Err(job.msg)
    else if s.Err? then Err(s.msg)
    else if t.Err? then Err(t.msg)
    else Ok(RuntimeIdentity(project.value, job.value, s.value.identity, s.value.cols, t.value.identity, t.value.cols))
  }

  /** A connection string `replaceHostname` saved is the old value of the
      last parameter naming that formal parameter. */
  lemma {:induction false} SavedLast(nodes: seq<Node>, qs: seq<Param>, m: map<string, Option<string>>, j: nat)
    requires Located(nodes, qs) && j < |qs| && IsConnection(qs[j].formal)
    requires forall i :: j < i < |qs| ==> qs[i].formal != qs[j].formal
    ensures qs[j].formal.value in Saved(nodes, qs, m)
    ensures Saved(nodes, qs, m)[qs[j].formal.value] == GetAttr(nodes, qs[j].elem, "Value")
    decreases |qs|
  {
    var init := qs[..|qs| - 1];
    assert forall i :: 0 <= i < |init| ==> init[i] == qs[i];
    if j < |qs| - 1 {
      SavedLast(nodes, init, m, j);
    }
  }

  // ---------------------------------------------------------------------------
  // The handler

  /** `OMDHandler`: the flow, `orgvalues`, and the `replacements` and
      `changed` entries of the module's result. */
  class Omd {
    var nodes: seq<Node>
    var orgvalues: map<string, Option<string>>
    var replacements: nat
    var changed: bool

    predicate Valid()
      reads this
    {
      WellFormed(nodes)
    }

    /** Lines 27-32, with the result the caller starts from. */
    constructor (doc: seq<Node>)
      requires WellFormed(doc)
      ensures Valid() && nodes == doc && orgvalues == map[] && replacements == 0 && !changed
    {
      nodes := doc;
      orgvalues := map[];
      replacements := 0;
      changed := false;
    }

    /** `getOriginalHost` (lines 102-103): fails before `replaceHostname`
        has recorded the host. */
    function OriginalHost(): (r: Result<Option<string>>)
      reads this
      ensures r.Ok? <==> "host" in orgvalues
      ensures r.Ok? ==> r.value == orgvalues["host"]
    {
      if "host" in orgvalues then Ok(orgvalues["host"]) else Err("KeyError: 'host'")
    }

    /** `replaceHostname` (lines 105-139). Every lookup reads the flow as it
        was at the start: the method writes only `Name` attributes of host
        components and `Value` attributes of parameters, and `HostsApart`
        shows no element is written before it is read. It fails exactly when
        a lookup fails; then the flow is left part-way, and the caller
        writes nothing. */
    method ReplaceHostname(target: string) returns (r: Result<()>)
      requires Valid()
      modifies this
      ensures Valid()
      ensures r.Ok? <==> Locate(old(nodes)).Ok?
      ensures r.Ok? ==> var f := Locate(old(nodes)).value;
        InFlow(old(nodes), f) &&
        var org := GetAttr(old(nodes), f.deploy, "Name");
        && nodes == Rewrite(old(nodes), Renamed(old(nodes), f, target), NewValues(old(nodes), f.params), target)
        && replacements == old(replacements) + Replacements(old(nodes), f, target)
        && orgvalues == Saved(old(nodes), f.params, old(orgvalues)["host" := org])
        && changed == (old(changed) || HasConnection(f.params))
    {
      var doc := nodes;
      ghost var r0, c0, m0 := replacements, changed, orgvalues;
      // lines 107-112
      var dh := DeploymentHost(doc);
      if dh.Err? {
        assert Locate(doc).Err?;
        return Err(dh.msg);
      }
      var org;
      ghost var renamed;
      org, renamed := RenameDeploymentHost(doc, dh.value, target);
      ghost var s1, r1, m1 := renamed, replacements, orgvalues;
      // lines 113-129
      var ok;
      ghost var values;
      ok, renamed, values := ReplaceInParams(doc, org, target, renamed);
      if ok.Err? {
        assert Locate(doc).Err?;
        return ok;
      }
      ghost var qs := LocateAll(doc, Parameters(doc)).value;
      ghost var n2, s2, r2, c2, o2 := nodes, renamed, replacements, changed, orgvalues;
      assert ParamsDone(doc, qs, org, target, s1, r1, c0, m1, n2, s2, values, r2, c2, o2);
      // lines 130-139
      var rd, wr;
      r, renamed, rd, wr := RenameEventHosts(doc, org, target, renamed, values);
      if r.Err? {
        assert Locate(doc).Err?;
        return;
      }
      ghost var f := Flow(dh.value, qs, rd, wr);
      assert Locate(doc) == Ok(f);
      LocatedInFlow(doc);
      HostnameResult(doc, f, target, org, r0, c0, m0, s1, r1, m1, n2, s2, values, r2, c2, o2, renamed, nodes, replacements);
    }

    /** Lines 107-112: the deployment host `h` is renamed to the target, and
        counted, unless it already carries that name; its name is saved
        under `host` either way. */
    method RenameDeploymentHost(doc: seq<Node>, h: nat, target: string) returns (org: Option<string>, ghost renamed: set<nat>)
      requires h < |doc| && doc[h].tag == ComponentTag && nodes == doc
      modifies this
      ensures org == GetAttr(doc, h, "Name")
      ensures renamed == (if org != Some(target) then {h} else {})
      ensures forall x :: x in renamed ==> x < |doc| && doc[x].tag == ComponentTag
      ensures nodes == Rewrite(doc, renamed, map[], target)
      ensures replacements == old(replacements) + (if org != Some(target) then 1 else 0)
      ensures orgvalues == old(orgvalues)["host" := org] && changed == old(changed)
    {
      RewriteNothing(doc, target);
      org := GetAttr(doc, h, "Name");
      orgvalues := orgvalues["host" := org];
      renamed := {};
      if org != Some(target) {
        RenameOne(doc, nodes, {}, map[], target, h);
        nodes := WithAttr(nodes, h, "Name", Some(target));
        renamed := {h};
        replacements := replacements + 1;
      }
    }

    /** Lines 130-139: the read and then the write event's host component are
        renamed when named like the deployment host; a missing event,
        resource or component fails the lookup. */
    method RenameEventHosts(doc: seq<Node>, org: Option<string>, target: string,
                            ghost renamed: set<nat>, ghost values: map<nat, string>)
      returns (r: Result<()>, ghost renamed': set<nat>, rd: nat, wr: nat)
      requires WellFormed(doc) && nodes == Rewrite(doc, renamed, values, target)
      modifies this
      ensures WellFormed(nodes)
      ensures r.Ok? <==> EventHost(doc, "Read").Ok? && EventHost(doc, "Write").Ok?
      ensures r.Ok? ==> rd == EventHost(doc, "Read").value && wr == EventHost(doc, "Write").value
      ensures r.Ok? ==> renamed' == renamed + (if GetAttr(doc, rd, "Name") == org then {rd} else {})
                                            + (if GetAttr(doc, wr, "Name") == org then {wr} else {})
      ensures r.Ok? ==> replacements == old(replacements) + (if GetAttr(doc, rd, "Name") == org then 1 else 0)
                                                          + (if GetAttr(doc, wr, "Name") == org then 1 else 0)
      ensures r.Ok? ==> nodes == Rewrite(doc, renamed', values, target)
      ensures changed == old(changed) && orgvalues == old(orgvalues)
    {
      rd, wr := 0, 0;
      var rh := EventHost(doc, "Read");
      if rh.Err? {
        RewriteWellFormed(doc, renamed, values, target);
        return Err(rh.msg), renamed, rd, wr;
      }
      rd := rh.value;
      renamed' := RenameIfNamed(doc, rd, org, target, renamed, values);
      var wh := EventHost(doc, "Write");
      if wh.Err? {
        RewriteWellFormed(doc, renamed', values, target);
        return Err(wh.msg), renamed', rd, wr;
      }
      wr := wh.value;
      renamed' := RenameIfNamed(doc, wr, org, target, renamed', values);
      RewriteWellFormed(doc, renamed', values, target);
      r := Ok(());
    }

    /** Lines 132-134 and 137-139: the host component `x` is renamed to the
        target, and counted, when its name equals `org`. */
    method RenameIfNamed(doc: seq<Node>, x: nat, org: Option<string>, target: string,
                         ghost renamed: set<nat>, ghost values: map<nat, string>)
      returns (ghost renamed': set<nat>)
      requires x < |doc| && nodes == Rewrite(doc, renamed, values, target)
      modifies this
      ensures renamed' == renamed + (if GetAttr(doc, x, "Name") == org then {x} else {})
      ensures nodes == Rewrite(doc, renamed', values, target)
      ensures replacements == old(replacements) + (if GetAttr(doc, x, "Name") == org then 1 else 0)
      ensures changed == old(changed) && orgvalues == old(orgvalues)
    {
      renamed' := renamed;
      if org == GetAttr(doc, x, "Name") {
        RenameOne(doc, nodes, renamed, values, target, x);
        nodes := WithAttr(nodes, x, "Name", Some(target));
        renamed' := renamed + {x};
        replacements := replacements + 1;
      }
    }

    /** Lines 113-129: the parameter loop of `replaceHostname`, reading the
        flow `doc` as it was at the start. */
    method ReplaceInParams(doc: seq<Node>, org: Option<string>, target: string, ghost renamed0: set<nat>)
      returns (r: Result<()>, ghost renamed: set<nat>, ghost values: map<nat, string>)
      requires WellFormed(doc) && nodes == Rewrite(doc, renamed0, map[], target)
      requires forall x :: x in renamed0 ==> x < |doc| && doc[x].tag == ComponentTag
      modifies this
      ensures WellFormed(nodes)
      ensures r.Ok? <==> LocateAll(doc, Parameters(doc)).Ok?
      ensures r.Ok? ==> ParamsDone(doc, LocateAll(doc, Parameters(doc)).value, org, target, renamed0, old(replacements),
                                   old(changed), old(orgvalues), nodes, renamed, values, replacements, changed, orgvalues)
    {
      renamed, values := renamed0, map[];
      r := Ok(());
      var ps := Parameters(doc);
      assert Matching(doc, [], org) == [] && NewValues(doc, []) == map[] && Saved(doc, [], orgvalues) == orgvalues;
      assert renamed == renamed0 + Elems(Matching(doc, [], org));
      assert ps[..0] == [];
      ghost var qs: seq<Param> := [];
      for i := 0 to |ps|
        invariant r.Ok? && LocateAll(doc, ps[..i]) == Ok(qs)
        invariant ParamsDone(doc, qs, org, target, renamed0, old(replacements), old(changed), old(orgvalues),
                             nodes, renamed, values, replacements, changed, orgvalues)
      {
        r, qs, renamed, values := ParamStep(doc, ps, i, org, target, qs, renamed0, old(replacements), old(changed), old(orgvalues), renamed, values);
        if r.Err? {
          return;
        }
      }
      assert ps[..|ps|] == ps;
      RewriteWellFormed(doc, renamed, values, target);
    }

    /** One turn of the parameter loop (lines 114-129): the parameter is
        located in the flow as it was at the start, then rewritten. */
    method ParamStep(doc: seq<Node>, ps: seq<nat>, i: nat, org: Option<string>, target: string, ghost qs: seq<Param>,
                     ghost renamed0: set<nat>, ghost r0: nat, ghost c0: bool, ghost m0: map<string, Option<string>>,
                     ghost renamed: set<nat>, ghost values: map<nat, string>)
      returns (r: Result<()>, ghost qs': seq<Param>, ghost renamed': set<nat>, ghost values': map<nat, string>)
      requires WellFormed(doc) && ps == Parameters(doc) && i < |ps|
      requires LocateAll(doc, ps[..i]) == Ok(qs)
      requires ParamsDone(doc, qs, org, target, renamed0, r0, c0, m0,
                          nodes, renamed, values, replacements, changed, orgvalues)
      modifies this
      ensures r.Err? ==> LocateAll(doc, ps).Err? && WellFormed(nodes)
      ensures r.Ok? ==> LocateAll(doc, ps[..i + 1]) == Ok(qs')
      ensures r.Ok? ==> ParamsDone(doc, qs', org, target, renamed0, r0, c0, m0,
                                   nodes, renamed', values', replacements, changed, orgvalues)
    {
      ParamStepPrefix(doc, ps, i);
      var q := LocateParam(doc, ps[i]);
      if q.Err? {
        LocatePrefixErr(doc, ps, i + 1);
        RewriteWellFormed(doc, renamed, values, target);
        return Err(q.msg), qs, renamed, values;
      }
      r := Ok(());
      qs' := qs + [q.value];
      renamed', values' := ParamAdvance(doc, qs, q.value, org, target, renamed0, r0, c0, m0, renamed, values);
    }

    /** The state after one more located parameter `q` still accounts for
        every parameter located so far. */
    method ParamAdvance(doc: seq<Node>, ghost qs: seq<Param>, q: Param, org: Option<string>, target: string,
                        ghost renamed0: set<nat>, ghost r0: nat, ghost c0: bool, ghost m0: map<string, Option<string>>,
                        ghost renamed: set<nat>, ghost values: map<nat, string>)
      returns (ghost renamed': set<nat>, ghost values': map<nat, string>)
      requires Located(doc, qs) && LocatedOne(doc, q) && doc[q.elem].tag == ParameterTag
      requires ParamsDone(doc, qs, org, target, renamed0, r0, c0, m0,
                          nodes, renamed, values, replacements, changed, orgvalues)
      modifies this
      ensures Located(doc, qs + [q])
      ensures ParamsDone(doc, qs + [q], org, target, renamed0, r0, c0, m0,
                         nodes, renamed', values', replacements, changed, orgvalues)
    {
      ghost var n0, p0, ch0, o0 := nodes, replacements, changed, orgvalues;
      renamed', values' := ParamTurn(doc, q, org, target, renamed, values);
      ParamsDoneStep(doc, qs, q, org, target, renamed0, r0, c0, m0,
                     n0, renamed, values, p0, ch0, o0, nodes, renamed', values', replacements, changed, orgvalues);
    }

    /** One turn of the parameter loop (lines 114-129). */
    method ParamTurn(doc: seq<Node>, q: Param, org: Option<string>, target: string,
                     ghost renamed: set<nat>, ghost values: map<nat, string>)
      returns (ghost renamed': set<nat>, ghost values': map<nat, string>)
      requires LocatedOne(doc, q) && doc[q.elem].tag == ParameterTag
      requires nodes == Rewrite(doc, renamed, values, target)
      requires forall x :: x in renamed ==> x < |doc| && doc[x].tag == ComponentTag
      modifies this
      ensures renamed' == renamed + (if GetAttr(doc, q.host, "Name") == org then {q.host} else {})
      ensures values' == if IsConnection(q.formal) then values[q.elem := GetAttr(doc, q.host, "Name").value + "__" + GetAttr(doc, q.elem, "Value").value] else values
      ensures nodes == Rewrite(doc, renamed', values', target)
      ensures replacements == old(replacements) + (if GetAttr(doc, q.host, "Name") == org then 1 else 0)
      ensures changed == (old(changed) || IsConnection(q.formal))
      ensures orgvalues == if IsConnection(q.formal) then old(orgvalues)[q.formal.value := GetAttr(doc, q.elem, "Value")] else old(orgvalues)
    {
      renamed', values' := renamed, values;
      if IsConnection(q.formal) {
        var orgHost := GetAttr(doc, q.host, "Name").value;
        var connString := GetAttr(doc, q.elem, "Value").value;
        orgvalues := orgvalues[q.formal.value := Some(connString)];
        RevalueOne(doc, nodes, renamed, values, target, q.elem, orgHost + "__" + connString);
        nodes := WithAttr(nodes, q.elem, "Value", Some(orgHost + "__" + connString));
        values' := values[q.elem := orgHost + "__" + connString];
        changed := true;
      }
      if org == GetAttr(doc, q.host, "Name") {
        RenameOne(doc, nodes, renamed', values', target, q.host);
        nodes := WithAttr(nodes, q.host, "Name", Some(target));
        renamed' := renamed' + {q.host};
        replacements := replacements + 1;
      }
    }

    /** `_getDataCollectionColumns` (lines 90-94): the `Name` of each
        `DataField` of the collection, in document order. */
    method DataCollectionColumns(c: nat) returns (cols: seq<Option<string>>)
      requires Valid() && c < |nodes|
      ensures cols == Columns(nodes, c)
    {
      var fields := Children(nodes, c, FieldTag);
      Inside(nodes, fields);
      cols := [];
      for i := 0 to |fields|
        invariant |cols| == i
        invariant forall k :: 0 <= k < i ==> cols[k] == GetAttr(nodes, fields[k], "Name")
      {
        cols := cols + [GetAttr(nodes, fields[i], "Name")];
      }
    }

    /** `getUniqueRuntimeIdentity` (lines 141-152). */
    method UniqueRuntimeIdentity() returns (r: Result<RuntimeIdentity>)
      requires Valid()
      ensures r == RuntimeIdentityOf(nodes, orgvalues)
    {
      var project := DesignName(nodes, "Project");
      if project.Err? {
        return Err(project.msg);
      }
      var job := DesignName(nodes, "Job");
      if job.Err? {
        return Err(job.msg);
      }
      var source, sourceCols;
      r, source, sourceCols := RuntimeSide("Read", SourceConnection);
      if r.Err? {
        return;
      }
      var target, targetCols;
      r, target, targetCols := RuntimeSide("Write", TargetConnection);
      if r.Err? {
        return;
      }
      r := Ok(RuntimeIdentity(project.value, job.value, source, sourceCols, target, targetCols));
    }

    /** Lines 147-150 for one event: its data resource's identity and its
        collection's columns. */
    method RuntimeSide(kind: string, key: string) returns (r: Result<RuntimeIdentity>, identity: string, cols: seq<Option<string>>)
      requires Valid()
      ensures r.Err? <==> EventSide(nodes, kind, key, orgvalues).Err?
      ensures r.Err? ==> r.msg == EventSide(nodes, kind, key, orgvalues).msg
      ensures r.Ok? ==> EventSide(nodes, kind, key, orgvalues) == Ok(Side(identity, cols))
    {
      identity, cols := "", [];
      var ev := Event(nodes, kind);
      if ev.None? {
        return Err("AttributeError: 'NoneType' object has no attribute 'find'"), identity, cols;
      }
      if key !in orgvalues {
        return Err("KeyError: '" + key + "'"), identity, cols;
      }
      var rs := Children(nodes, ev.value, ResourceTag);
      Inside(nodes, rs);
      if rs == [] {
        return Err("AttributeError: 'NoneType' object has no attribute 'find'"), identity, cols;
      }
      var id := DataResourceIdentity(nodes, rs[0], orgvalues[key]);
      if id.Err? {
        return Err(id.msg), identity, cols;
      }
      var c := DataCollection(nodes, ev.value);
      if c.Err? {
        return Err(c.msg), identity, cols;
      }
      if c.value.None? {
        return Err("AttributeError: 'NoneType' object has no attribute 'findall'"), identity, cols;
      }
      identity := id.value;
      cols := DataCollectionColumns(c.value.value);
      r := Ok(RuntimeIdentity(None, None, identity, cols, "", []));
    }
  }
}
