/** `customattr_get_changes`: keep the custom-attribute definitions of the
    export's asset type that changed inside a time window (and, when names
    are given, carry one of them), then prune the export down to what those
    definitions use. A definition's modification time is read from its
    timestamp attribute by a parse that is not modelled: it is the parameter
    `modTime`. */
module CustomAttrChanges {
  import opened Wrappers
  import opened Lists
  import opened XmlDoc
  import opened CustomAttrHandler

  /** Lines 152-160: a definition is kept when its time lies in the window
      and either no names were given or its name is among them (a definition
      without a name matches none). */
  predicate Wanted(modTime: int, name: Option<string>, names: Option<seq<string>>, fromTime: int, toTime: int)
  {
    && fromTime <= modTime <= toTime
    && (names.None? || |names.value| == 0 || (name.Some? && name.value in names.value))
  }

  /** The definitions among `ds` the loop keeps, in order. */
  function Selected(nodes: seq<Node>, ds: seq<nat>, modTime: Node -> int, names: Option<seq<string>>, fromTime: int, toTime: int): (r: seq<nat>)
    requires forall i :: 0 <= i < |ds| ==> ds[i] < |nodes|
    ensures forall x :: x in r <==> x in ds && Wanted(modTime(nodes[x]), GetAttr(nodes, x, "name"), names, fromTime, toTime)
    ensures forall i :: 0 <= i < |r| ==> r[i] < |nodes|
    ensures |r| <= |ds|
    decreases |ds|
  {
    if ds == [] then []
    else
      var x := ds[|ds| - 1];
      var rest := Selected(nodes, ds[..|ds| - 1], modTime, names, fromTime, toTime);
      if Wanted(modTime(nodes[x]), GetAttr(nodes, x, "name"), names, fromTime, toTime) then rest + [x] else rest
  }

  /** `ca_names`: the names of the kept definitions, None for one without. */
  function NamesOf(nodes: seq<Node>, sel: seq<nat>): (r: seq<Option<string>>)
    requires forall i :: 0 <= i < |sel| ==> sel[i] < |nodes|
    ensures |r| == |sel|
    ensures forall i :: 0 <= i < |sel| ==> r[i] == GetAttr(nodes, sel[i], "name")
  {
    seq(|sel|, i requires 0 <= i < |sel| => GetAttr(nodes, sel[i], "name"))
  }

  /** `caIDs_keep` after keeping `sel`: their ids, in order. */
  function IdsOf(nodes: seq<Node>, sel: seq<nat>): seq<string>
    requires forall i :: 0 <= i < |sel| ==> sel[i] < |nodes|
    decreases |sel|
  {
    if sel == [] then []
    else
      var x := sel[|sel| - 1];
      IdsOf(nodes, sel[..|sel| - 1]) + (if IdAttr in nodes[x].attrs then [nodes[x].attrs[IdAttr]] else [])
  }

  /** `classIDs_keep` after keeping `sel`: each one's source and target
      class ids, in order. */
  function ClassRefs(nodes: seq<Node>, sel: seq<nat>): seq<string>
    requires forall i :: 0 <= i < |sel| ==> sel[i] < |nodes|
    decreases |sel|
  {
    if sel == [] then []
    else
      var x := sel[|sel| - 1];
      ClassRefs(nodes, sel[..|sel| - 1]) + IdList(nodes[x].attrs, SourceAttr) + IdList(nodes[x].attrs, TargetAttr)
  }

  /** `enumIDs_keep` after keeping `sel`: each one's valid-value ids, in
      order. */
  function EnumRefs(nodes: seq<Node>, sel: seq<nat>): seq<string>
    requires forall i :: 0 <= i < |sel| ==> sel[i] < |nodes|
    decreases |sel|
  {
    if sel == [] then []
    else
      var x := sel[|sel| - 1];
      EnumRefs(nodes, sel[..|sel| - 1]) + IdList(nodes[x].attrs, ValuesAttr)
  }

  /** Every kept definition contributes exactly one id: `ca_count` is the
      number of `keepDefinition` calls. */
  lemma {:induction false} IdsOfLength(nodes: seq<Node>, sel: seq<nat>)
    requires forall i :: 0 <= i < |sel| ==> sel[i] < |nodes| && IdAttr in nodes[sel[i]].attrs
    ensures |IdsOf(nodes, sel)| == |sel|
    decreases |sel|
  {
    if sel != [] {
      IdsOfLength(nodes, sel[..|sel| - 1]);
    }
  }

  /** Every definition a kept definition's class or valid-value list names
      is in the keep lists, so the cleanup keeps it. */
  lemma {:induction false} RefsKept(nodes: seq<Node>, sel: seq<nat>, i: nat)
    requires forall j :: 0 <= j < |sel| ==> sel[j] < |nodes|
    requires i < |sel|
    ensures forall id :: id in IdList(nodes[sel[i]].attrs, SourceAttr) + IdList(nodes[sel[i]].attrs, TargetAttr) ==> id in ClassRefs(nodes, sel)
    ensures forall id :: id in IdList(nodes[sel[i]].attrs, ValuesAttr) ==> id in EnumRefs(nodes, sel)
    ensures IdAttr in nodes[sel[i]].attrs ==> nodes[sel[i]].attrs[IdAttr] in IdsOf(nodes, sel)
    decreases |sel|
  {
    if i < |sel| - 1 {
      var init := sel[..|sel| - 1];
      assert init[i] == sel[i];
      RefsKept(nodes, init, i);
    }
  }

  /** The outcome: `result['changed']`, `ca_count`, `ca_names` and the
      pruned document. */
  datatype Changes = Changes(changed: bool, count: nat, names: seq<Option<string>>, doc: seq<Node>)

  /** One more definition considered: the selection and the three keep
      lists grow by it exactly when it is wanted. */
  lemma {:induction false} SelectSnoc(nodes: seq<Node>, ds: seq<nat>, i: nat, modTime: Node -> int, names: Option<seq<string>>, fromTime: int, toTime: int)
    requires i < |ds| && forall j :: 0 <= j < |ds| ==> ds[j] < |nodes|
    ensures var x, s := ds[i], Selected(nodes, ds[..i], modTime, names, fromTime, toTime);
      Selected(nodes, ds[..i + 1], modTime, names, fromTime, toTime) ==
        if Wanted(modTime(nodes[x]), GetAttr(nodes, x, "name"), names, fromTime, toTime) then s + [x] else s
  {
    assert ds[..i + 1][..i] == ds[..i];
  }

  /** Keeping one more definition extends the three keep lists by its ids. */
  lemma {:induction false} KeepSnoc(nodes: seq<Node>, sel: seq<nat>, x: nat)
    requires x < |nodes| && forall j :: 0 <= j < |sel| ==> sel[j] < |nodes|
    ensures IdsOf(nodes, sel + [x]) == IdsOf(nodes, sel) + (if IdAttr in nodes[x].attrs then [nodes[x].attrs[IdAttr]] else [])
    ensures ClassRefs(nodes, sel + [x]) == ClassRefs(nodes, sel) + IdList(nodes[x].attrs, SourceAttr) + IdList(nodes[x].attrs, TargetAttr)
    ensures EnumRefs(nodes, sel + [x]) == EnumRefs(nodes, sel) + IdList(nodes[x].attrs, ValuesAttr)
    ensures NamesOf(nodes, sel + [x]) == NamesOf(nodes, sel) + [GetAttr(nodes, x, "name")]
  {
    assert (sel + [x])[..|sel|] == sel;
  }

  /** The definitions the loop walks: those `Definitions` finds, none when
      it fails. */
  function Walked(nodes: seq<Node>): (r: seq<nat>)
    requires WellFormed(nodes)
    ensures forall i :: 0 <= i < |r| ==> r[i] < |nodes|
    ensures Definitions(nodes).Ok? ==> r == Definitions(nodes).value
  {
    var defs := Definitions(nodes);
    if defs.Ok? then
      assert forall i :: 0 <= i < |defs.value| ==> defs.value[i] in defs.value;
      defs.value
    else []
  }

  /** Every kept definition carries an `xmi:id`. */
  predicate Identified(nodes: seq<Node>, sel: seq<nat>)
  {
    forall x :: x in sel ==> x < |nodes| && IdAttr in nodes[x].attrs
  }

  /** The loop's results after keeping `sel`: the count, the names and the
      three keep lists. */
  predicate Tallied(nodes: seq<Node>, sel: seq<nat>, count: nat, caNames: seq<Option<string>>,
                    caIds: seq<string>, classIds: seq<string>, enumIds: seq<string>)
    requires forall i :: 0 <= i < |sel| ==> sel[i] < |nodes|
  {
    && count == |sel| && caNames == NamesOf(nodes, sel)
    && caIds == IdsOf(nodes, sel) && classIds == ClassRefs(nodes, sel) && enumIds == EnumRefs(nodes, sel)
  }

  /** One turn of the loop (lines 150-160). */
  method Consider(h: CustomAttrs, ds: seq<nat>, i: nat, names: Option<seq<string>>, fromTime: int, toTime: int, modTime: Node -> int,
                  count: nat, caNames: seq<Option<string>>)
    returns (count': nat, caNames': seq<Option<string>>, r: Result<()>)
    requires h.Valid() && i < |ds| && forall j :: 0 <= j < |ds| ==> ds[j] < |h.nodes|
    requires Tallied(h.nodes, Selected(h.nodes, ds[..i], modTime, names, fromTime, toTime), count, caNames, h.caIds, h.classIds, h.enumIds)
    modifies h
    ensures h.nodes == old(h.nodes) && h.changed == old(h.changed)
    ensures r.Err? <==> Wanted(modTime(h.nodes[ds[i]]), GetAttr(h.nodes, ds[i], "name"), names, fromTime, toTime) && IdAttr !in h.nodes[ds[i]].attrs
    ensures r.Ok? ==> Tallied(h.nodes, Selected(h.nodes, ds[..i + 1], modTime, names, fromTime, toTime), count', caNames', h.caIds, h.classIds, h.enumIds)
  {
    ghost var sel := Selected(h.nodes, ds[..i], modTime, names, fromTime, toTime);
    SelectSnoc(h.nodes, ds, i, modTime, names, fromTime, toTime);
    KeepSnoc(h.nodes, sel, ds[i]);
    count', caNames', r := count, caNames, Ok(());
    var t := modTime(h.nodes[ds[i]]);
    var name := h.DefinitionName(ds[i]);
    if t >= fromTime && t <= toTime {
      if names.None? || |names.value| == 0 {
        count' := count + 1;
        caNames' := caNames + [name];
        r := h.KeepDefinition(ds[i]);
      } else if name.Some? && name.value in names.value {
        count' := count + 1;
        caNames' := caNames + [name];
        r := h.KeepDefinition(ds[i]);
      }
    }
  }

  /** Lines 149-160: the loop over the definitions `ds`; it fails at the
      first kept definition without an `xmi:id`. */
  method KeepWanted(h: CustomAttrs, ds: seq<nat>, names: Option<seq<string>>, fromTime: int, toTime: int, modTime: Node -> int)
    returns (count: nat, caNames: seq<Option<string>>, r: Result<()>)
    requires h.Valid() && h.caIds == [] && h.classIds == [] && h.enumIds == []
    requires forall j :: 0 <= j < |ds| ==> ds[j] < |h.nodes|
    modifies h
    ensures h.Valid() && h.nodes == old(h.nodes) && h.changed == old(h.changed)
    ensures r.Err? <==> !Identified(h.nodes, Selected(h.nodes, ds, modTime, names, fromTime, toTime))
    ensures r.Ok? ==> Tallied(h.nodes, Selected(h.nodes, ds, modTime, names, fromTime, toTime), count, caNames, h.caIds, h.classIds, h.enumIds)
  {
    count, caNames, r := 0, [], Ok(());
    ghost var doc := h.nodes;
    for i := 0 to |ds|
      invariant h.Valid() && h.nodes == doc && h.changed == old(h.changed) && r.Ok?
      invariant Identified(doc, Selected(doc, ds[..i], modTime, names, fromTime, toTime))
      invariant Tallied(doc, Selected(doc, ds[..i], modTime, names, fromTime, toTime), count, caNames, h.caIds, h.classIds, h.enumIds)
    {
      count, caNames, r := Consider(h, ds, i, names, fromTime, toTime, modTime, count, caNames);
      if r.Err? {
        Unidentified(doc, ds, i, modTime, names, fromTime, toTime);
        return;
      }
      IdentifiedSnoc(doc, ds, i, modTime, names, fromTime, toTime);
    }
    assert ds[..|ds|] == ds;
  }

  /** A wanted definition with an id keeps the selection identified. */
  lemma {:induction false} IdentifiedSnoc(nodes: seq<Node>, ds: seq<nat>, i: nat, modTime: Node -> int, names: Option<seq<string>>, fromTime: int, toTime: int)
    requires i < |ds| && forall j :: 0 <= j < |ds| ==> ds[j] < |nodes|
    requires Identified(nodes, Selected(nodes, ds[..i], modTime, names, fromTime, toTime))
    requires Wanted(modTime(nodes[ds[i]]), GetAttr(nodes, ds[i], "name"), names, fromTime, toTime) ==> IdAttr in nodes[ds[i]].attrs
    ensures Identified(nodes, Selected(nodes, ds[..i + 1], modTime, names, fromTime, toTime))
  {
    SelectSnoc(nodes, ds, i, modTime, names, fromTime, toTime);
  }

  /** A wanted definition without an id leaves the whole selection
      unidentified. */
  lemma {:induction false} Unidentified(nodes: seq<Node>, ds: seq<nat>, i: nat, modTime: Node -> int, names: Option<seq<string>>, fromTime: int, toTime: int)
    requires i < |ds| && forall j :: 0 <= j < |ds| ==> ds[j] < |nodes|
    requires Wanted(modTime(nodes[ds[i]]), GetAttr(nodes, ds[i], "name"), names, fromTime, toTime) && IdAttr !in nodes[ds[i]].attrs
    ensures !Identified(nodes, Selected(nodes, ds, modTime, names, fromTime, toTime))
  {
    assert ds[i] in ds;
    assert ds[i] in Selected(nodes, ds, modTime, names, fromTime, toTime);
  }

  /** The outcome `GetChanges` promises for the kept definitions `sel`: the
      count, the names and the export pruned to what they use. */
  ghost predicate Reported(doc: seq<Node>, sel: seq<nat>, c: Changes)
    requires WellFormed(doc) && forall i :: 0 <= i < |sel| ==> sel[i] < |doc|
  {
    var dropped := DroppedClasses(doc, ClassRefs(doc, sel), Seeds(doc)) + DroppedEnums(doc, EnumRefs(doc, sel));
    && WellFormed(c.doc)
    && c.count == |sel| == |c.names| == |IdsOf(doc, sel)|
    && c.names == NamesOf(doc, sel)
    && CleanedUp(doc, c.doc, dropped, RetainedClasses(doc, ClassRefs(doc, sel), Seeds(doc)), IdsOf(doc, sel))
    && c.changed == (dropped != {})
  }

  /** Lines 161-162: the pruned export, with the loop's count and names. */
  method Report(h: CustomAttrs, ghost doc: seq<Node>, ghost sel: seq<nat>, count: nat, caNames: seq<Option<string>>)
    returns (c: Changes)
    requires h.Valid() && h.nodes == doc && IdsPresent(doc) && !h.changed
    requires forall i :: 0 <= i < |sel| ==> sel[i] < |doc|
    requires Identified(doc, sel) && Tallied(doc, sel, count, caNames, h.caIds, h.classIds, h.enumIds)
    modifies h
    ensures Reported(doc, sel, c)
  {
    assert forall i :: 0 <= i < |sel| ==> sel[i] in sel;
    IdsOfLength(doc, sel);
    h.WriteCustomizedXml();
    c := Changes(h.changed, count, caNames, h.nodes);
  }

  /** Lines 147-162 on a handler built from `doc`: the definitions of the
      export's asset type are walked once; the wanted ones are counted,
      named and kept; then the export is pruned to what they use. The module
      fails when the definitions cannot be found or a kept definition has no
      `xmi:id`. */
  method GetChanges(doc: seq<Node>, names: Option<seq<string>>, fromTime: int, toTime: int, modTime: Node -> int)
    returns (r: Result<Changes>)
    requires WellFormed(doc) && IdsPresent(doc)
    ensures r.Err? <==>
      (Definitions(doc).Err? || !Identified(doc, Selected(doc, Walked(doc), modTime, names, fromTime, toTime)))
    ensures r.Ok? ==>
      (Definitions(doc).Ok? && Reported(doc, Selected(doc, Walked(doc), modTime, names, fromTime, toTime), r.value))
  {
    var h := new CustomAttrs(doc);
    var defs := h.CustomAttributeDefinitions();
    if defs.Err? {
      return Err(defs.msg);
    }
    assert defs.value == Walked(doc);
    ghost var sel := Selected(doc, defs.value, modTime, names, fromTime, toTime);
    var count, caNames, kept := KeepWanted(h, defs.value, names, fromTime, toTime, modTime);
    if kept.Err? {
      return Err(kept.msg);
    }
    var c := Report(h, doc, sel, count, caNames);
    return Ok(c);
  }
}
