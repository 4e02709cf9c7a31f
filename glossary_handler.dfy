/** The business-glossary export as the handler reads and prunes it: the
    sections under the root (`categories`, `terms`, `synonymGroups`,
    `policies`, `rules`, `labelDefinitions`, `customAttributesDefinitions`),
    the assets in them, and the custom-attribute values under each asset.
    Namespaces are left out: tags are local names. */
module GlossaryHandler {
  import opened Wrappers
  import opened Lists
  import opened XmlDoc

  /** `rest_to_type`: the code an `appliesTo/classType/@value` uses for each
      REST type name; other names are not in the table. */
  function TypeCode(typename: string): (r: Option<string>)
    ensures r.Some? <==> typename in {"term", "category", "information_governance_policy", "information_governance_rule", "label"}
  {
    if typename == "term" then Some("TERM")
    else if typename == "category" then Some("CATEGORY")
    else if typename == "information_governance_policy" then Some("POLICY")
    else if typename == "information_governance_rule" then Some("RULE")
    else if typename == "label" then Some("LABEL")
    else None
  }

  /** The sections and the element each holds (the handler's selectors). */
  datatype Section = CustomAttributeDefinitions | Categories | Terms | SynonymGroups | Policies | Rules | Labels

  function SectionTag(s: Section): string
  {
    match s
    case CustomAttributeDefinitions => "customAttributesDefinitions"
    case Categories => "categories"
    case Terms => "terms"
    case SynonymGroups => "synonymGroups"
    case Policies => "policies"
    case Rules => "rules"
    case Labels => "labelDefinitions"
  }

  function ElementTag(s: Section): string
  {
    match s
    case CustomAttributeDefinitions => "customAttributeDef"
    case Categories => "category"
    case Terms => "term"
    case SynonymGroups => "synonymGroup"
    case Policies => "policy"
    case Rules => "rule"
    case Labels => "labelDefinition"
  }

  /** The tags of the custom-attribute elements under an asset. */
  const CustomAttributesTag := "customAttributes"
  const CustomAttributeValueTag := "customAttributeValue"
  const ReferencesTag := "customAttributeReferences"

  /** No section element shares its tag with a custom-attribute element, and
      the section tags are pairwise distinct. */
  lemma {:induction false} TagsDistinct(s: Section, t: Section)
    ensures ElementTag(s) !in {CustomAttributesTag, CustomAttributeValueTag, ReferencesTag}
    ensures SectionTag(s) == SectionTag(t) <==> s == t
  {
  }

  class Glossary {
    var nodes: seq<Node>
    /** `result['changed']` */
    var changed: bool

    predicate Valid()
      reads this
    {
      WellFormed(nodes)
    }

    constructor (doc: seq<Node>)
      requires WellFormed(doc)
      ensures Valid() && nodes == doc && !changed
    {
      nodes := doc;
      changed := false;
    }

    /** `getCategories`, `getTerms`, `getSynonymGroups`, `getPolicies`,
        `getRules`, `getLabels`, `getCustomAttributeDefinitions`: the
        elements of a section, each once (their order is not stated). */
    function Select(s: Section): (r: seq<nat>)
      reads this
      requires Valid()
      ensures NoDup(r)
      ensures forall x :: x in r <==> 0 <= x < |nodes| && Grandchild(nodes, x, 0, SectionTag(s), ElementTag(s))
    {
      Path2(nodes, 0, SectionTag(s), ElementTag(s))
    }

    /** `getSynonyms`: only the `synonyms/termRef` elements of a group. */
    function Synonyms(group: nat): (r: seq<nat>)
      reads this
      requires Valid() && group < |nodes|
      ensures NoDup(r)
      ensures forall x :: x in r <==> 0 <= x < |nodes| && Grandchild(nodes, x, group, "synonyms", "termRef")
    {
      Path2(nodes, group, "synonyms", "termRef")
    }

    /** `getCustomAttributes`: the `customAttributes/customAttributeValue`
        elements of an asset. */
    function CustomAttributes(asset: nat): (r: seq<nat>)
      reads this
      requires Valid() && asset < |nodes|
      ensures NoDup(r)
      ensures forall x :: x in r <==> 0 <= x < |nodes| && Grandchild(nodes, x, asset, CustomAttributesTag, CustomAttributeValueTag)
    {
      Path2(nodes, asset, CustomAttributesTag, CustomAttributeValueTag)
    }

    /** `getRid`: the `rid` attribute; an IndexError when it is absent. */
    function GetRid(e: nat): (r: Result<string>)
      reads this
      requires e < |nodes|
      ensures r.Ok? <==> "rid" in nodes[e].attrs
      ensures r.Ok? ==> r.value == nodes[e].attrs["rid"]
    {
      FirstAttr(nodes, e, "rid")
    }

    /** `getName`: the `name` attribute; an IndexError when it is absent. */
    function GetName(e: nat): (r: Result<string>)
      reads this
      requires e < |nodes|
      ensures r.Ok? <==> "name" in nodes[e].attrs
      ensures r.Ok? ==> r.value == nodes[e].attrs["name"]
    {
      FirstAttr(nodes, e, "name")
    }

    /** `getCustomAttrName`: the `customAttribute` attribute; an IndexError
        when it is absent. */
    function GetCustomAttrName(e: nat): (r: Result<string>)
      reads this
      requires e < |nodes|
      ensures r.Ok? <==> "customAttribute" in nodes[e].attrs
      ensures r.Ok? ==> r.value == nodes[e].attrs["customAttribute"]
    {
      FirstAttr(nodes, e, "customAttribute")
    }

    /** `isRelationship`: the value has a `customAttributeReferences` child. */
    function IsRelationship(e: nat): (r: bool)
      reads this
      requires Valid() && e < |nodes|
      ensures r <==> HasChild(nodes, e, ReferencesTag)
    {
      var refs := Children(nodes, e, ReferencesTag);
      assert |refs| > 0 ==> refs[0] in refs;
      |refs| > 0
    }

    /** The `value` attributes of the given elements that have one, in order. */
    function Values(es: seq<nat>): (r: seq<string>)
      reads this
      requires forall i :: 0 <= i < |es| ==> es[i] < |nodes|
      ensures forall v :: v in r <==> exists i :: 0 <= i < |es| && "value" in nodes[es[i]].attrs && nodes[es[i]].attrs["value"] == v
      decreases |es|
    {
      if es == [] then []
      else
        var rest := Values(es[1..]);
        assert forall i :: 0 <= i < |es[1..]| ==> es[1..][i] == es[i + 1];
        (if "value" in nodes[es[0]].attrs then [nodes[es[0]].attrs["value"]] else []) + rest
    }

    /** `customAttrAppliesToThisType`: whether some `appliesTo/classType`
        element of the definition names the type's code; a KeyError for a
        type outside the table. */
    function CustomAttrAppliesToThisType(e: nat, typename: string): (r: Result<bool>)
      reads this
      requires Valid() && e < |nodes|
      ensures r.Err? <==> TypeCode(typename).None?
      ensures r.Ok? ==> (r.value <==> exists x :: 0 <= x < |nodes| && Grandchild(nodes, x, e, "appliesTo", "classType")
                                        && "value" in nodes[x].attrs && nodes[x].attrs["value"] == TypeCode(typename).value)
    {
      match TypeCode(typename)
      case None => Err("KeyError: " + typename)
      case Some(code) =>
        var classTypes := Path2(nodes, e, "appliesTo", "classType");
        assert forall i :: 0 <= i < |classTypes| ==> classTypes[i] in classTypes;
        Ok(code in Values(classTypes))
    }

    /** `dropAsset`: the element leaves its parent and the result is marked
        changed; nothing else changes. */
    method DropAsset(e: nat)
      requires Valid() && e < |nodes| && nodes[e].parent >= 0
      modifies this
      ensures Valid()
      ensures nodes == Detached(old(nodes), e) && changed
    {
      nodes := Detached(nodes, e);
      changed := true;
    }

    /** `dropSection`: every child of the root with the section's tag leaves
        the root, and nothing else does; the result is marked changed exactly
        when one was there. */
    method DropSection(section: string)
      requires Valid()
      modifies this
      ensures Valid() && PrunedFrom(old(nodes), nodes)
      ensures DetachedExactly(old(nodes), nodes, set x | 0 <= x < |nodes| && old(nodes)[x].parent == 0 && old(nodes)[x].tag == section)
      ensures changed == (old(changed) || |old(Children(nodes, 0, section))| > 0)
      ensures Children(nodes, 0, section) == []
    {
      var targets := Children(nodes, 0, section);
      assert forall x :: x in targets ==> old(nodes)[x].parent == 0;
      ghost var done: set<nat> := {};
      for i := 0 to |targets|
        invariant Valid() && DetachedExactly(old(nodes), nodes, done)
        invariant done == set j | 0 <= j < i :: targets[j]
        invariant changed == (old(changed) || i > 0)
      {
        var target := targets[i];
        assert target in targets && target !in done;
        DetachedExactlyStep(old(nodes), nodes, done, target);
        DropAsset(target);
        PrefixSetSnoc(targets, i);
        done := done + {target};
      }
      assert forall x :: x in done <==> x in targets;
      assert done == set x | 0 <= x < |nodes| && old(nodes)[x].parent == 0 && old(nodes)[x].tag == section;
      DropSectionEmpties(old(nodes), nodes, section);
    }
  }

  /** Once every root child with the tag has left, none is left. */
  lemma {:induction false} DropSectionEmpties(before: seq<Node>, after: seq<Node>, section: string)
    requires WellFormed(before) && WellFormed(after)
    requires DetachedExactly(before, after, set x | 0 <= x < |before| && before[x].parent == 0 && before[x].tag == section)
    ensures Children(after, 0, section) == []
  {
    FirstIn(Children(after, 0, section));
  }
}
