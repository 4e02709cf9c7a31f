/** A custom-attribute definitions export as the handler reads and prunes it:
    under the root, `ClassDescriptor` elements (each with its
    `has_CustomAttribute` definitions), `ValidEnumeration` elements and an
    `AssetDataDescriptor` whose `seedObjectRids` name the asset type the
    export is for. Definitions, classes and enumerations refer to one another
    through space-separated lists of `xmi:id`s held in attributes. Namespaces
    are left out: tags are local names. */
module CustomAttrHandler {
  import opened Wrappers
  import opened Lists
  import opened Text
  import opened XmlDoc

  const ClassTag := "ClassDescriptor"
  const EnumTag := "ValidEnumeration"
  const DescriptorTag := "AssetDataDescriptor"
  const SeedTag := "seedObjectRids"
  const DefinitionTag := "has_CustomAttribute"

  const IdAttr := "xmi:id"
  const RidAttr := "_xmeta_repos_object_id"
  const SourceAttr := "hasSource_ClassDescriptor"
  const TargetAttr := "hasTarget_ClassDescriptor"
  const ValuesAttr := "has_ValidValues"
  const SourceOfAttr := "isSourceOf_CustomAttribute"
  const TargetOfAttr := "isTargetOf_CustomAttribute"

  /** The ids a list attribute holds (`get(name).split()`), none when the
      attribute is absent. */
  function IdList(attrs: map<string, string>, name: string): seq<string>
  {
    if name in attrs then SplitWs(attrs[name]) else []
  }

  /** `xpath(".../text()")`: the texts of the elements, in order; an element
      without text contributes nothing. */
  function Texts(nodes: seq<Node>, es: seq<nat>): (r: seq<string>)
    requires forall i :: 0 <= i < |es| ==> es[i] < |nodes|
    ensures forall t :: t in r <==> exists i :: 0 <= i < |es| && nodes[es[i]].text == Some(t)
    ensures |r| <= |es|
    decreases |es|
  {
    if es == [] then []
    else
      var rest := Texts(nodes, es[1..]);
      assert forall i :: 1 <= i < |es| ==> es[i] == es[1..][i - 1];
      match nodes[es[0]].text
      case Some(t) => [t] + rest
      case None => rest
  }

  /** `_getSeedObjectRids`: the texts of the root's
      `AssetDataDescriptor/seedObjectRids` elements. */
  function Seeds(nodes: seq<Node>): (r: seq<string>)
    requires WellFormed(nodes)
    ensures forall t :: t in r <==> exists x :: 0 <= x < |nodes| && Grandchild(nodes, x, 0, DescriptorTag, SeedTag) && nodes[x].text == Some(t)
  {
    var es := Path2(nodes, 0, DescriptorTag, SeedTag);
    assert forall i :: 0 <= i < |es| ==> es[i] in es;
    Texts(nodes, es)
  }

  /** The root's classes, in document order. */
  function RootClasses(nodes: seq<Node>): (r: seq<nat>)
    requires WellFormed(nodes)
    ensures NoDup(r)
    ensures forall x :: x in r <==> 0 <= x < |nodes| && nodes[x].parent == 0 && nodes[x].tag == ClassTag
    ensures forall i :: 0 <= i < |r| ==> r[i] < |nodes|
  {
    var cs := Children(nodes, 0, ClassTag);
    assert forall i :: 0 <= i < |cs| ==> cs[i] in cs;
    cs
  }

  /** `getCustomAttributeDefinitions`: the definitions of the first root
      class whose repository id is the first seed rid. With no seed rid, or
      no such class, the indexing fails. */
  function Definitions(nodes: seq<Node>): (r: Result<seq<nat>>)
    requires WellFormed(nodes)
    ensures r.Err? <==> Seeds(nodes) == [] || forall x :: x in RootClasses(nodes) ==> GetAttr(nodes, x, RidAttr) != Some(Seeds(nodes)[0])
    ensures r.Ok? ==> Seeds(nodes) != []
    ensures r.Ok? && Seeds(nodes) != [] ==>
      (var cs, seed := RootClasses(nodes), Seeds(nodes)[0];
       exists i :: 0 <= i < |cs| && GetAttr(nodes, cs[i], RidAttr) == Some(seed) && r.value == Children(nodes, cs[i], DefinitionTag) &&
         (forall j :: 0 <= j < i ==> GetAttr(nodes, cs[j], RidAttr) != Some(seed)))
    ensures r.Ok? ==> forall x :: x in r.value ==> x < |nodes| && nodes[x].tag == DefinitionTag
  {
    var seeds := Seeds(nodes);
    var cs := RootClasses(nodes);
    if seeds == [] then Err("IndexError: list index out of range")
    else
      var first := FirstWithAttr(nodes, cs, RidAttr, seeds[0]);
      if first.None? then
        assert forall x :: x in cs ==> GetAttr(nodes, x, RidAttr) != Some(seeds[0]);
        Err("IndexError: list index out of range")
      else
        var k := first.value;
        var ds := Children(nodes, cs[k], DefinitionTag);
        assert 0 <= k < |cs| && GetAttr(nodes, cs[k], RidAttr) == Some(seeds[0]);
        Ok(ds)
  }

  /** Whether the cleanup keeps a class: its id is kept, or its repository
      id is one of the seed rids (an element without the attribute has
      `None`, which no seed equals). */
  predicate ClassKept(n: Node, classIds: seq<string>, seeds: seq<string>)
  {
    (IdAttr in n.attrs && n.attrs[IdAttr] in classIds) || (RidAttr in n.attrs && n.attrs[RidAttr] in seeds)
  }

  /** Whether the cleanup keeps an enumeration: its id is kept. */
  predicate EnumKept(n: Node, enumIds: seq<string>)
  {
    IdAttr in n.attrs && n.attrs[IdAttr] in enumIds
  }

  /** Every class and enumeration under the root carries an `xmi:id` (the
      cleanup reads it with `[0]` and fails without one). */
  predicate IdsPresent(nodes: seq<Node>)
  {
    forall x :: 0 <= x < |nodes| && nodes[x].parent == 0 && (nodes[x].tag == ClassTag || nodes[x].tag == EnumTag) ==> IdAttr in nodes[x].attrs
  }

  /** One id-list attribute after the cleanup: the listed ids that are kept,
      in their order, joined by single spaces; the attribute goes when none
      is kept. */
  function TrimIds(attrs: map<string, string>, name: string, keep: seq<string>): map<string, string>
  {
    if name !in attrs then attrs
    else
      var ks := Only(SplitWs(attrs[name]), keep);
      if ks == [] then attrs - {name} else attrs[name := Join(ks, " ")]
  }

  /** A retained class's attributes after the cleanup: both back-reference
      lists trimmed to the kept definitions. */
  function Trimmed(attrs: map<string, string>, caIds: seq<string>): map<string, string>
  {
    TrimIds(TrimIds(attrs, SourceOfAttr, caIds), TargetOfAttr, caIds)
  }

  /** Reading the trimmed attribute back gives exactly the kept ids in their
      original order, the attribute is present exactly when one is kept, and
      no other attribute changes. */
  lemma {:induction false} TrimIdsMeaning(attrs: map<string, string>, name: string, keep: seq<string>)
    ensures IdList(TrimIds(attrs, name, keep), name) == Only(IdList(attrs, name), keep)
    ensures name in TrimIds(attrs, name, keep) <==> Only(IdList(attrs, name), keep) != []
    ensures forall k :: k != name ==> (k in TrimIds(attrs, name, keep) <==> k in attrs)
    ensures forall k :: k != name && k in attrs ==> TrimIds(attrs, name, keep)[k] == attrs[k]
  {
    if name in attrs {
      var ks := Only(SplitWs(attrs[name]), keep);
      SplitWsTokens(attrs[name]);
      if ks != [] {
        SplitWsJoin(ks);
      }
    }
  }

  /** Both back-reference lists of a retained class list exactly its kept
      definitions, in order, and every other attribute is untouched. */
  lemma {:induction false} TrimmedMeaning(attrs: map<string, string>, caIds: seq<string>)
    ensures IdList(Trimmed(attrs, caIds), SourceOfAttr) == Only(IdList(attrs, SourceOfAttr), caIds)
    ensures IdList(Trimmed(attrs, caIds), TargetOfAttr) == Only(IdList(attrs, TargetOfAttr), caIds)
    ensures forall id :: id in IdList(Trimmed(attrs, caIds), SourceOfAttr) + IdList(Trimmed(attrs, caIds), TargetOfAttr) ==> id in caIds
    ensures forall k :: k != SourceOfAttr && k != TargetOfAttr ==> (k in Trimmed(attrs, caIds) <==> k in attrs)
    ensures forall k :: k != SourceOfAttr && k != TargetOfAttr && k in attrs ==> Trimmed(attrs, caIds)[k] == attrs[k]
  {
    var a1 := TrimIds(attrs, SourceOfAttr, caIds);
    TrimIdsMeaning(attrs, SourceOfAttr, caIds);
    TrimIdsMeaning(a1, TargetOfAttr, caIds);
    assert IdList(Trimmed(attrs, caIds), SourceOfAttr) == IdList(a1, SourceOfAttr);
  }

  /** `b` is `a` after the cleanup removed `gone` from their parents and
      trimmed the back references of `trimmed`; no tag or text changes, and
      no other parent or attribute. */
  predicate CleanedUp(a: seq<Node>, b: seq<Node>, gone: set<nat>, trimmed: set<nat>, caIds: seq<string>)
  {
    && |a| == |b|
    && forall y :: 0 <= y < |a| ==>
         && b[y].tag == a[y].tag && b[y].text == a[y].text
         && b[y].parent == (if y in gone then NoParent else a[y].parent)
         && b[y].attrs == (if y in trimmed then Trimmed(a[y].attrs, caIds) else a[y].attrs)
  }

  /** The classes the cleanup removes: those under the root it does not
      keep. */
  ghost function DroppedClasses(a: seq<Node>, classIds: seq<string>, seeds: seq<string>): set<nat>
  {
    set x | 0 <= x < |a| && a[x].parent == 0 && a[x].tag == ClassTag && !ClassKept(a[x], classIds, seeds)
  }

  /** The classes it keeps, whose back references it trims. */
  ghost function RetainedClasses(a: seq<Node>, classIds: seq<string>, seeds: seq<string>): set<nat>
  {
    set x | 0 <= x < |a| && a[x].parent == 0 && a[x].tag == ClassTag && ClassKept(a[x], classIds, seeds)
  }

  /** The enumerations the cleanup removes. */
  ghost function DroppedEnums(a: seq<Node>, enumIds: seq<string>): set<nat>
  {
    set x | 0 <= x < |a| && a[x].parent == 0 && a[x].tag == EnumTag && !EnumKept(a[x], enumIds)
  }

  /** The cleanup removes classes and enumerations only: a
      `has_CustomAttribute` definition, kept or not, stays where it was with
      its attributes. */
  lemma {:induction false} DefinitionsStay(a: seq<Node>, b: seq<Node>, classIds: seq<string>, enumIds: seq<string>, seeds: seq<string>, caIds: seq<string>, y: nat)
    requires CleanedUp(a, b, DroppedClasses(a, classIds, seeds) + DroppedEnums(a, enumIds), RetainedClasses(a, classIds, seeds), caIds)
    requires y < |a| && a[y].tag == DefinitionTag
    ensures b[y].parent == a[y].parent && b[y].attrs == a[y].attrs
  {
    assert y !in DroppedClasses(a, classIds, seeds) + DroppedEnums(a, enumIds);
    assert y !in RetainedClasses(a, classIds, seeds);
  }

  // ---------------------------------------------------------------------------
  // The cleanup loops, stated one element at a time

  /** The classes among `es` the class loop removes. */
  ghost function ClassDropSet(a: seq<Node>, es: seq<nat>, classIds: seq<string>, seeds: seq<string>): (r: set<nat>)
    requires forall i :: 0 <= i < |es| ==> es[i] < |a|
    ensures forall x :: x in r <==> x in es && !ClassKept(a[x], classIds, seeds)
    decreases |es|
  {
    if es == [] then {}
    else
      var x := es[|es| - 1];
      ClassDropSet(a, es[..|es| - 1], classIds, seeds) + (if ClassKept(a[x], classIds, seeds) then {} else {x})
  }

  /** The classes among `es` it keeps and trims. */
  ghost function ClassKeepSet(a: seq<Node>, es: seq<nat>, classIds: seq<string>, seeds: seq<string>): (r: set<nat>)
    requires forall i :: 0 <= i < |es| ==> es[i] < |a|
    ensures forall x :: x in r <==> x in es && ClassKept(a[x], classIds, seeds)
    decreases |es|
  {
    if es == [] then {}
    else
      var x := es[|es| - 1];
      ClassKeepSet(a, es[..|es| - 1], classIds, seeds) + (if ClassKept(a[x], classIds, seeds) then {x} else {})
  }

  /** The enumerations among `es` the enumeration loop removes. */
  ghost function EnumDropSet(a: seq<Node>, es: seq<nat>, enumIds: seq<string>): (r: set<nat>)
    requires forall i :: 0 <= i < |es| ==> es[i] < |a|
    ensures forall x :: x in r <==> x in es && !EnumKept(a[x], enumIds)
    decreases |es|
  {
    if es == [] then {}
    else
      var x := es[|es| - 1];
      EnumDropSet(a, es[..|es| - 1], enumIds) + (if EnumKept(a[x], enumIds) then {} else {x})
  }

  /** Removing one more element from its parent extends the removed set. */
  lemma {:induction false} CleanedDrop(a: seq<Node>, b: seq<Node>, gone: set<nat>, trimmed: set<nat>, caIds: seq<string>, x: nat)
    requires WellFormed(b) && x < |b| && b[x].parent >= 0
    requires CleanedUp(a, b, gone, trimmed, caIds) && x !in trimmed
    ensures CleanedUp(a, Detached(b, x), gone + {x}, trimmed, caIds)
  {
  }

  /** Trimming one more untouched class extends the trimmed set. */
  lemma {:induction false} CleanedTrim(a: seq<Node>, b: seq<Node>, c: seq<Node>, gone: set<nat>, trimmed: set<nat>, caIds: seq<string>, x: nat)
    requires CleanedUp(a, b, gone, trimmed, caIds) && x < |b| && x !in trimmed
    requires |c| == |b| && c[x].attrs == Trimmed(b[x].attrs, caIds)
    requires forall y :: 0 <= y < |b| ==> c[y].tag == b[y].tag && c[y].text == b[y].text && c[y].parent == b[y].parent
    requires forall y :: 0 <= y < |b| && y != x ==> c[y].attrs == b[y].attrs
    ensures CleanedUp(a, c, gone, trimmed + {x}, caIds)
  {
  }

  /** Before the `i`-th class's turn it is attached and untouched. */
  lemma {:induction false} ClassTurnStart(a: seq<Node>, b: seq<Node>, cs: seq<nat>, classIds: seq<string>, seeds: seq<string>, caIds: seq<string>, i: nat)
    requires NoDup(cs) && i < |cs|
    requires forall j :: 0 <= j < |cs| ==> cs[j] < |a| && a[cs[j]].parent == 0
    requires CleanedUp(a, b, ClassDropSet(a, cs[..i], classIds, seeds), ClassKeepSet(a, cs[..i], classIds, seeds), caIds)
    ensures b[cs[i]].parent == 0 && b[cs[i]].attrs == a[cs[i]].attrs && b[cs[i]].tag == a[cs[i]].tag
    ensures cs[i] !in ClassKeepSet(a, cs[..i], classIds, seeds)
  {
    NoDupNotBefore(cs, i);
  }

  /** After the `i`-th class's turn both sets have moved on by it. */
  lemma {:induction false} ClassSnoc(a: seq<Node>, cs: seq<nat>, classIds: seq<string>, seeds: seq<string>, i: nat)
    requires i < |cs| && forall j :: 0 <= j < |cs| ==> cs[j] < |a|
    ensures ClassDropSet(a, cs[..i + 1], classIds, seeds) ==
      ClassDropSet(a, cs[..i], classIds, seeds) + (if ClassKept(a[cs[i]], classIds, seeds) then {} else {cs[i]})
    ensures ClassKeepSet(a, cs[..i + 1], classIds, seeds) ==
      ClassKeepSet(a, cs[..i], classIds, seeds) + (if ClassKept(a[cs[i]], classIds, seeds) then {cs[i]} else {})
  {
    assert cs[..i + 1][..i] == cs[..i];
  }

  /** The sets a class turn leaves are the ones for the next prefix. */
  lemma {:induction false} ClassTurnSets(a: seq<Node>, cs: seq<nat>, classIds: seq<string>, seeds: seq<string>, i: nat, dropped: bool)
    requires i < |cs| && forall j :: 0 <= j < |cs| ==> cs[j] < |a|
    requires dropped == !ClassKept(a[cs[i]], classIds, seeds)
    ensures (if dropped then ClassDropSet(a, cs[..i], classIds, seeds) + {cs[i]} else ClassDropSet(a, cs[..i], classIds, seeds))
      == ClassDropSet(a, cs[..i + 1], classIds, seeds)
    ensures (if dropped then ClassKeepSet(a, cs[..i], classIds, seeds) else ClassKeepSet(a, cs[..i], classIds, seeds) + {cs[i]})
      == ClassKeepSet(a, cs[..i + 1], classIds, seeds)
  {
    ClassSnoc(a, cs, classIds, seeds, i);
  }

  /** Before the `i`-th enumeration's turn it is attached and untouched. */
  lemma {:induction false} EnumTurnStart(a: seq<Node>, b: seq<Node>, es: seq<nat>, g: set<nat>, w: set<nat>, enumIds: seq<string>, caIds: seq<string>, i: nat)
    requires NoDup(es) && i < |es|
    requires forall j :: 0 <= j < |es| ==> es[j] < |a| && a[es[j]].parent == 0 && es[j] !in g && es[j] !in w
    requires CleanedUp(a, b, g + EnumDropSet(a, es[..i], enumIds), w, caIds)
    ensures b[es[i]].parent == 0 && b[es[i]].attrs == a[es[i]].attrs
  {
    NoDupNotBefore(es, i);
  }

  /** After the `i`-th enumeration's turn the removed set has moved on by
      it. */
  lemma {:induction false} EnumSnoc(a: seq<Node>, es: seq<nat>, enumIds: seq<string>, i: nat)
    requires i < |es| && forall j :: 0 <= j < |es| ==> es[j] < |a|
    ensures EnumDropSet(a, es[..i + 1], enumIds) ==
      EnumDropSet(a, es[..i], enumIds) + (if EnumKept(a[es[i]], enumIds) then {} else {es[i]})
  {
    assert es[..i + 1][..i] == es[..i];
  }

  /** The class loop walks exactly the root's classes, so what it removes
      and trims are the dropped and retained classes. */
  lemma {:induction false} ClassesSelected(a: seq<Node>, cs: seq<nat>, classIds: seq<string>, seeds: seq<string>)
    requires IdsPresent(a)
    requires forall x :: x in cs <==> 0 <= x < |a| && a[x].parent == 0 && a[x].tag == ClassTag
    ensures forall j :: 0 <= j < |cs| ==> cs[j] < |a| && a[cs[j]].parent == 0 && IdAttr in a[cs[j]].attrs
    ensures ClassDropSet(a, cs, classIds, seeds) == DroppedClasses(a, classIds, seeds)
    ensures ClassKeepSet(a, cs, classIds, seeds) == RetainedClasses(a, classIds, seeds)
  {
    assert forall j :: 0 <= j < |cs| ==> cs[j] in cs;
  }

  /** After the class loop the root's enumerations are the ones at the
      start, still untouched; the enumeration loop's removals are the
      dropped enumerations. */
  lemma {:induction false} EnumsSelected(a: seq<Node>, b: seq<Node>, g: set<nat>, w: set<nat>, caIds: seq<string>, es: seq<nat>, enumIds: seq<string>)
    requires IdsPresent(a) && CleanedUp(a, b, g, w, caIds)
    requires forall x :: x in g || x in w ==> x < |a| && a[x].tag == ClassTag
    requires forall x :: x in es <==> 0 <= x < |b| && b[x].parent == 0 && b[x].tag == EnumTag
    ensures forall j :: 0 <= j < |es| ==> es[j] < |a| && a[es[j]].parent == 0 && es[j] !in g && es[j] !in w && IdAttr in a[es[j]].attrs
    ensures EnumDropSet(a, es, enumIds) == DroppedEnums(a, enumIds)
  {
    assert forall j :: 0 <= j < |es| ==> es[j] in es;
    forall x | 0 <= x < |a| && a[x].parent == 0 && a[x].tag == EnumTag
      ensures x in es
    {
      assert x !in g;
    }
  }

  class CustomAttrs {
    var nodes: seq<Node>
    /** `result['changed']` */
    var changed: bool
    /** `caIDs_keep`, `classIDs_keep`, `enumIDs_keep` */
    var caIds: seq<string>
    var classIds: seq<string>
    var enumIds: seq<string>

    predicate Valid()
      reads this
    {
      WellFormed(nodes)
    }

    /** Lines 37-46: the document and three empty keep lists. */
    constructor (doc: seq<Node>)
      requires WellFormed(doc)
      ensures Valid() && nodes == doc && !changed
      ensures caIds == [] && classIds == [] && enumIds == []
    {
      nodes := doc;
      changed := false;
      caIds, classIds, enumIds := [], [], [];
    }

    /** `_getClassDescriptors`: the `ClassDescriptor` children of the root. */
    function ClassDescriptors(): (r: seq<nat>)
      reads this
      requires Valid()
      ensures NoDup(r)
      ensures forall x :: x in r <==> 0 <= x < |nodes| && nodes[x].parent == 0 && nodes[x].tag == ClassTag
    {
      RootClasses(nodes)
    }

    /** `_getValidEnumerations`: the `ValidEnumeration` children of the root. */
    function ValidEnumerations(): (r: seq<nat>)
      reads this
      requires Valid()
      ensures NoDup(r)
      ensures forall x :: x in r <==> 0 <= x < |nodes| && nodes[x].parent == 0 && nodes[x].tag == EnumTag
    {
      Children(nodes, 0, EnumTag)
    }

    /** `_getElementId`: the `xmi:id`; indexing an empty match fails. */
    function ElementId(e: nat): (r: Result<string>)
      reads this
      requires e < |nodes|
      ensures r.Ok? <==> IdAttr in nodes[e].attrs
      ensures r.Ok? ==> r.value == nodes[e].attrs[IdAttr]
    {
      FirstAttr(nodes, e, IdAttr)
    }

    /** `getDefinitionName`: the `name` attribute, or None. */
    function DefinitionName(e: nat): (r: Option<string>)
      reads this
      requires e < |nodes|
      ensures r.Some? <==> "name" in nodes[e].attrs
      ensures r.Some? ==> r.value == nodes[e].attrs["name"]
    {
      GetAttr(nodes, e, "name")
    }

    /** `getDefinitionType`: the `dataType` attribute, or None. */
    function DefinitionType(e: nat): (r: Option<string>)
      reads this
      requires e < |nodes|
      ensures r.Some? <==> "dataType" in nodes[e].attrs
      ensures r.Some? ==> r.value == nodes[e].attrs["dataType"]
    {
      GetAttr(nodes, e, "dataType")
    }

    /** `getCustomAttributeDefinitions`, as `Definitions` states. */
    function CustomAttributeDefinitions(): (r: Result<seq<nat>>)
      reads this
      requires Valid()
      ensures r == Definitions(nodes)
    {
      Definitions(nodes)
    }

    /** `_keepDefinitionSrcClassId` / `_keepDefinitionTgtClassId`: every id
        the attribute lists joins the class keep list, in order. */
    method KeepClassIds(e: nat, name: string)
      requires e < |nodes|
      modifies this
      ensures nodes == old(nodes) && changed == old(changed) && caIds == old(caIds) && enumIds == old(enumIds)
      ensures classIds == old(classIds) + IdList(nodes[e].attrs, name)
    {
      if name in nodes[e].attrs {
        var ids := SplitWs(nodes[e].attrs[name]);
        for i := 0 to |ids|
          invariant classIds == old(classIds) + ids[..i]
          invariant nodes == old(nodes) && changed == old(changed) && caIds == old(caIds) && enumIds == old(enumIds)
        {
          assert ids[..i + 1] == ids[..i] + [ids[i]];
          classIds := classIds + [ids[i]];
        }
        assert ids[..|ids|] == ids;
      }
    }

    /** `_keepDefinitionEnumId`: every id `has_ValidValues` lists joins the
        enumeration keep list, in order. */
    method KeepEnumIds(e: nat)
      requires e < |nodes|
      modifies this
      ensures nodes == old(nodes) && changed == old(changed) && caIds == old(caIds) && classIds == old(classIds)
      ensures enumIds == old(enumIds) + IdList(nodes[e].attrs, ValuesAttr)
    {
      if ValuesAttr in nodes[e].attrs {
        var ids := SplitWs(nodes[e].attrs[ValuesAttr]);
        for i := 0 to |ids|
          invariant enumIds == old(enumIds) + ids[..i]
          invariant nodes == old(nodes) && changed == old(changed) && caIds == old(caIds) && classIds == old(classIds)
        {
          assert ids[..i + 1] == ids[..i] + [ids[i]];
          enumIds := enumIds + [ids[i]];
        }
        assert ids[..|ids|] == ids;
      }
    }

    /** `keepDefinition`: the definition's own id, the classes it has as
        source and target, and its valid-value enumerations join the keep
        lists. A definition without an `xmi:id` fails before anything is
        recorded. */
    method KeepDefinition(e: nat) returns (r: Result<()>)
      requires e < |nodes|
      modifies this
      ensures nodes == old(nodes) && changed == old(changed)
      ensures r.Err? <==> IdAttr !in nodes[e].attrs
      ensures r.Err? ==> caIds == old(caIds) && classIds == old(classIds) && enumIds == old(enumIds)
      ensures r.Ok? ==> caIds == old(caIds) + [nodes[e].attrs[IdAttr]]
      ensures r.Ok? ==> classIds == old(classIds) + IdList(nodes[e].attrs, SourceAttr) + IdList(nodes[e].attrs, TargetAttr)
      ensures r.Ok? ==> enumIds == old(enumIds) + IdList(nodes[e].attrs, ValuesAttr)
    {
      var id := ElementId(e);
      if id.Err? {
        return Err(id.msg);
      }
      caIds := caIds + [id.value];
      KeepClassIds(e, SourceAttr);
      KeepClassIds(e, TargetAttr);
      KeepEnumIds(e);
      return Ok(());
    }

    /** `dropDefinition`: the element leaves its parent; nothing else
        changes (the caller marks the result changed). */
    method DropDefinition(e: nat)
      requires Valid() && e < |nodes| && nodes[e].parent >= 0
      modifies this
      ensures Valid() && nodes == Detached(old(nodes), e)
      ensures changed == old(changed) && caIds == old(caIds) && classIds == old(classIds) && enumIds == old(enumIds)
    {
      nodes := Detached(nodes, e);
    }

    /** Lines 115-133, one list attribute of a retained class: the ids that
        name kept definitions stay, in order; the attribute goes when none
        does. */
    method TrimReferences(x: nat, name: string)
      requires Valid() && x < |nodes|
      modifies this
      ensures Valid() && |nodes| == |old(nodes)|
      ensures nodes[x].attrs == TrimIds(old(nodes)[x].attrs, name, caIds)
      ensures forall y :: 0 <= y < |nodes| ==> nodes[y].tag == old(nodes)[y].tag && nodes[y].text == old(nodes)[y].text && nodes[y].parent == old(nodes)[y].parent
      ensures forall y :: 0 <= y < |nodes| && y != x ==> nodes[y].attrs == old(nodes)[y].attrs
      ensures changed == old(changed) && caIds == old(caIds) && classIds == old(classIds) && enumIds == old(enumIds)
    {
      if name in nodes[x].attrs {
        var ids := SplitWs(nodes[x].attrs[name]);
        var kept: seq<string> := [];
        for i := 0 to |ids|
          invariant kept == Only(ids[..i], caIds)
          invariant nodes == old(nodes) && changed == old(changed) && caIds == old(caIds) && classIds == old(classIds) && enumIds == old(enumIds)
        {
          assert ids[..i + 1] == ids[..i] + [ids[i]];
          OnlySnoc(ids[..i], ids[i], caIds);
          if ids[i] in caIds {
            kept := kept + [ids[i]];
          }
        }
        assert ids[..|ids|] == ids;
        WithAttrKeepsWellFormed(nodes, x, name, if |kept| > 0 then Some(Join(kept, " ")) else None);
        if |kept| > 0 {
          nodes := WithAttr(nodes, x, name, Some(Join(kept, " ")));
        } else {
          nodes := WithAttr(nodes, x, name, None);
        }
      }
    }

    /** One turn of the class loop (lines 108-133): an unkept class leaves
        the root and the result is marked changed; a kept one has both
        back-reference lists trimmed. */
    method ClassTurn(x: nat, seeds: seq<string>, ghost a: seq<Node>, ghost gone: set<nat>, ghost trimmed: set<nat>)
      returns (dropped: bool)
      requires Valid() && x < |nodes| && nodes[x].parent >= 0 && IdAttr in nodes[x].attrs
      requires CleanedUp(a, nodes, gone, trimmed, caIds) && x < |a| && x !in trimmed && nodes[x].attrs == a[x].attrs
      modifies this
      ensures Valid()
      ensures dropped == !ClassKept(a[x], classIds, seeds)
      ensures CleanedUp(a, nodes, if dropped then gone + {x} else gone, if dropped then trimmed else trimmed + {x}, caIds)
      ensures changed == (old(changed) || dropped)
      ensures caIds == old(caIds) && classIds == old(classIds) && enumIds == old(enumIds)
    {
      var classId := ElementId(x).value;
      var classRid := GetAttr(nodes, x, RidAttr);
      dropped := classId !in classIds && (classRid.None? || classRid.value !in seeds);
      if dropped {
        CleanedDrop(a, nodes, gone, trimmed, caIds, x);
        DropDefinition(x);
        changed := true;
      } else {
        ghost var b := nodes;
        TrimReferences(x, SourceOfAttr);
        TrimReferences(x, TargetOfAttr);
        CleanedTrim(a, b, nodes, gone, trimmed, caIds, x);
      }
    }

    /** One turn of the enumeration loop (lines 136-139): an unkept
        enumeration leaves the root and the result is marked changed. */
    method EnumTurn(x: nat, ghost a: seq<Node>, ghost gone: set<nat>, ghost trimmed: set<nat>)
      returns (dropped: bool)
      requires Valid() && x < |nodes| && nodes[x].parent >= 0 && IdAttr in nodes[x].attrs
      requires CleanedUp(a, nodes, gone, trimmed, caIds) && x < |a| && x !in trimmed && nodes[x].attrs == a[x].attrs
      modifies this
      ensures Valid()
      ensures dropped == !EnumKept(a[x], enumIds)
      ensures CleanedUp(a, nodes, if dropped then gone + {x} else gone, trimmed, caIds)
      ensures changed == (old(changed) || dropped)
      ensures caIds == old(caIds) && classIds == old(classIds) && enumIds == old(enumIds)
    {
      var enumId := ElementId(x).value;
      dropped := enumId !in enumIds;
      if dropped {
        CleanedDrop(a, nodes, gone, trimmed, caIds, x);
        DropDefinition(x);
        changed := true;
      }
    }

    /** The `i`-th turn of the class loop, stated on the prefixes of `cs`. */
    method ClassStep(cs: seq<nat>, i: nat, seeds: seq<string>, ghost a: seq<Node>) returns (dropped: bool)
      requires Valid() && NoDup(cs) && i < |cs|
      requires forall j :: 0 <= j < |cs| ==> cs[j] < |a| && a[cs[j]].parent == 0 && IdAttr in a[cs[j]].attrs
      requires CleanedUp(a, nodes, ClassDropSet(a, cs[..i], classIds, seeds), ClassKeepSet(a, cs[..i], classIds, seeds), caIds)
      modifies this
      ensures Valid()
      ensures CleanedUp(a, nodes, ClassDropSet(a, cs[..i + 1], classIds, seeds), ClassKeepSet(a, cs[..i + 1], classIds, seeds), caIds)
      ensures dropped == !ClassKept(a[cs[i]], classIds, seeds)
      ensures changed == (old(changed) || dropped)
      ensures caIds == old(caIds) && classIds == old(classIds) && enumIds == old(enumIds)
    {
      ClassTurnStart(a, nodes, cs, classIds, seeds, caIds, i);
      ghost var g, w := ClassDropSet(a, cs[..i], classIds, seeds), ClassKeepSet(a, cs[..i], classIds, seeds);
      dropped := ClassTurn(cs[i], seeds, a, g, w);
      ClassTurnSets(a, cs, classIds, seeds, i, dropped);
    }

    /** The class loop over `cs`, the root's classes at the start. */
    method ClassPass(cs: seq<nat>, seeds: seq<string>)
      requires Valid() && NoDup(cs)
      requires forall j :: 0 <= j < |cs| ==> cs[j] < |nodes| && nodes[cs[j]].parent == 0 && IdAttr in nodes[cs[j]].attrs
      modifies this
      ensures Valid()
      ensures CleanedUp(old(nodes), nodes, ClassDropSet(old(nodes), cs, classIds, seeds), ClassKeepSet(old(nodes), cs, classIds, seeds), caIds)
      ensures changed == (old(changed) || ClassDropSet(old(nodes), cs, classIds, seeds) != {})
      ensures caIds == old(caIds) && classIds == old(classIds) && enumIds == old(enumIds)
    {
      ghost var a := nodes;
      for i := 0 to |cs|
        invariant Valid() && caIds == old(caIds) && classIds == old(classIds) && enumIds == old(enumIds)
        invariant CleanedUp(a, nodes, ClassDropSet(a, cs[..i], classIds, seeds), ClassKeepSet(a, cs[..i], classIds, seeds), caIds)
        invariant changed == (old(changed) || ClassDropSet(a, cs[..i], classIds, seeds) != {})
      {
        ClassSnoc(a, cs, classIds, seeds, i);
        var _ := ClassStep(cs, i, seeds, a);
      }
      assert cs[..|cs|] == cs;
    }

    /** The `i`-th turn of the enumeration loop, stated on the prefixes of
        `es`. */
    method EnumStep(es: seq<nat>, i: nat, ghost a: seq<Node>, ghost g: set<nat>, ghost w: set<nat>) returns (dropped: bool)
      requires Valid() && NoDup(es) && i < |es|
      requires forall j :: 0 <= j < |es| ==> es[j] < |a| && a[es[j]].parent == 0 && es[j] !in g && es[j] !in w && IdAttr in a[es[j]].attrs
      requires CleanedUp(a, nodes, g + EnumDropSet(a, es[..i], enumIds), w, caIds)
      modifies this
      ensures Valid()
      ensures CleanedUp(a, nodes, g + EnumDropSet(a, es[..i + 1], enumIds), w, caIds)
      ensures dropped == !EnumKept(a[es[i]], enumIds)
      ensures changed == (old(changed) || dropped)
      ensures caIds == old(caIds) && classIds == old(classIds) && enumIds == old(enumIds)
    {
      EnumTurnStart(a, nodes, es, g, w, enumIds, caIds, i);
      EnumSnoc(a, es, enumIds, i);
      dropped := EnumTurn(es[i], a, g + EnumDropSet(a, es[..i], enumIds), w);
      assert (if dropped then g + EnumDropSet(a, es[..i], enumIds) + {es[i]} else g + EnumDropSet(a, es[..i], enumIds))
          == g + EnumDropSet(a, es[..i + 1], enumIds);
    }

    /** The enumeration loop over `es`, after the class loop removed `g`
        and trimmed `w`. */
    method EnumPass(es: seq<nat>, ghost a: seq<Node>, ghost g: set<nat>, ghost w: set<nat>)
      requires Valid() && NoDup(es) && CleanedUp(a, nodes, g, w, caIds)
      requires forall j :: 0 <= j < |es| ==> es[j] < |a| && a[es[j]].parent == 0 && es[j] !in g && es[j] !in w && IdAttr in a[es[j]].attrs
      modifies this
      ensures Valid()
      ensures CleanedUp(a, nodes, g + EnumDropSet(a, es, enumIds), w, caIds)
      ensures changed == (old(changed) || EnumDropSet(a, es, enumIds) != {})
      ensures caIds == old(caIds) && classIds == old(classIds) && enumIds == old(enumIds)
    {
      assert g + EnumDropSet(a, es[..0], enumIds) == g;
      for i := 0 to |es|
        invariant Valid() && caIds == old(caIds) && classIds == old(classIds) && enumIds == old(enumIds)
        invariant CleanedUp(a, nodes, g + EnumDropSet(a, es[..i], enumIds), w, caIds)
        invariant changed == (old(changed) || EnumDropSet(a, es[..i], enumIds) != {})
      {
        EnumSnoc(a, es, enumIds, i);
        var _ := EnumStep(es, i, a, g, w);
      }
      assert es[..|es|] == es;
    }

    /** `_dropUnusedPieces`: the root's unkept classes and enumerations are
        removed, every kept class has its back references trimmed to the
        kept definitions, nothing else changes, and the result is marked
        changed exactly when something was removed. */
    method DropUnusedPieces()
      requires Valid() && IdsPresent(nodes)
      modifies this
      ensures Valid()
      ensures CleanedUp(old(nodes), nodes,
                        DroppedClasses(old(nodes), classIds, Seeds(old(nodes))) + DroppedEnums(old(nodes), enumIds),
                        RetainedClasses(old(nodes), classIds, Seeds(old(nodes))), caIds)
      ensures changed == (old(changed) || DroppedClasses(old(nodes), classIds, Seeds(old(nodes))) + DroppedEnums(old(nodes), enumIds) != {})
      ensures caIds == old(caIds) && classIds == old(classIds) && enumIds == old(enumIds)
    {
      ghost var a := nodes;
      var seeds := Seeds(nodes);
      var cs := ClassDescriptors();
      ClassesSelected(a, cs, classIds, seeds);
      ClassPass(cs, seeds);
      ghost var g := ClassDropSet(a, cs, classIds, seeds);
      ghost var w := ClassKeepSet(a, cs, classIds, seeds);
      var es := ValidEnumerations();
      EnumsSelected(a, nodes, g, w, caIds, es, enumIds);
      EnumPass(es, a, g, w);
    }

    /** `writeCustomizedXML`: the cleanup always runs before the document is
        written (the writing itself is left out). */
    method WriteCustomizedXml()
      requires Valid() && IdsPresent(nodes)
      modifies this
      ensures Valid()
      ensures CleanedUp(old(nodes), nodes,
                        DroppedClasses(old(nodes), classIds, Seeds(old(nodes))) + DroppedEnums(old(nodes), enumIds),
                        RetainedClasses(old(nodes), classIds, Seeds(old(nodes))), caIds)
      ensures changed == (old(changed) || DroppedClasses(old(nodes), classIds, Seeds(old(nodes))) + DroppedEnums(old(nodes), enumIds) != {})
      ensures caIds == old(caIds) && classIds == old(classIds) && enumIds == old(enumIds)
    {
      DropUnusedPieces();
    }
  }
}
