/** An Open IGC asset bundle as the handler reads and prunes it: the root
    holds an `assets` section of `asset` elements. Each asset carries an `ID`
    attribute of the form `ID_<rid>` and may hold `reference` children whose
    `assetIDs` attribute names another asset. The `oigc` namespace is left
    out: tags are local names. */
module OpenIgcHandler {
  import opened Wrappers
  import opened Lists
  import opened Text
  import opened XmlDoc

  const AssetsTag := "assets"
  const AssetTag := "asset"
  const ReferenceTag := "reference"
  const IdAttr := "ID"
  /** The prefix the bundle puts in front of every rid. */
  const IdPrefix := "ID_"

  const NoIdError := "TypeError: 'NoneType' object is not subscriptable"
  const InvalidPredicate := "XPathEvalError: Invalid predicate"
  const ListGetError := "AttributeError: 'list' object has no attribute 'get'"
  const UndefinedAncestral := "NameError: name 'getAncestralAssetRids' is not defined"
  const InvalidExpression := "XPathEvalError: Invalid expression"

  /** `getAssets`: `./assets/asset`, in document order. */
  function Assets(nodes: seq<Node>): (r: seq<nat>)
    requires WellFormed(nodes)
    ensures NoDup(r)
    ensures forall x :: x in r <==> 0 <= x < |nodes| && Grandchild(nodes, x, 0, AssetsTag, AssetTag)
    ensures forall i :: 0 <= i < |r| ==> r[i] < |nodes| && nodes[r[i]].parent >= 0
  {
    var r := Path2(nodes, 0, AssetsTag, AssetTag);
    assert forall i :: 0 <= i < |r| ==> r[i] in r;
    r
  }

  /** `getRid` as written: the `ID` attribute without its first TWO
      characters, although the bundle prefixes rids with the three
      characters `ID_`. An asset without `ID` fails. */
  function RidAsWritten(nodes: seq<Node>, e: nat): (r: Result<string>)
    requires e < |nodes|
    ensures r.Err? <==> IdAttr !in nodes[e].attrs
    ensures r.Ok? && 2 <= |nodes[e].attrs[IdAttr]| ==> nodes[e].attrs[IdAttr] == nodes[e].attrs[IdAttr][..2] + r.value
  {
    match GetAttr(nodes, e, IdAttr)
    case None => Err(NoIdError)
    case Some(id) => Ok(DropPrefix(id, 2))
  }

  /** `getRid` as its comment describes it: the `ID` attribute without the
      `ID_` prefix. An asset without `ID` fails. */
  function Rid(nodes: seq<Node>, e: nat): (r: Result<string>)
    requires e < |nodes|
    ensures r.Err? <==> IdAttr !in nodes[e].attrs
  {
    match GetAttr(nodes, e, IdAttr)
    case None => Err(NoIdError)
    case Some(id) => Ok(DropPrefix(id, 3))
  }

  /** The elements of `ks` whose `ID` is `id`, in order. */
  function WithId(nodes: seq<Node>, ks: seq<nat>, id: string): (r: seq<nat>)
    requires forall i :: 0 <= i < |ks| ==> ks[i] < |nodes|
    ensures forall x :: x in r <==> x in ks && GetAttr(nodes, x, IdAttr) == Some(id)
    ensures NoDup(ks) ==> NoDup(r)
    decreases |ks|
  {
    if ks == [] then []
    else
      var rest := WithId(nodes, ks[1..], id);
      assert forall x :: x in ks <==> x == ks[0] || x in ks[1..];
      assert NoDup(ks) ==> NoDup(ks[1..]) && ks[0] !in ks[1..] by {
        if NoDup(ks) {
          assert forall i, j :: 0 <= i < j < |ks[1..]| ==> ks[1..][i] == ks[i + 1] && ks[1..][j] == ks[j + 1];
        }
      }
      if GetAttr(nodes, ks[0], IdAttr) == Some(id) then [ks[0]] + rest else rest
  }

  /** `getAssetById`: `./assets/asset[@ID='ID_<rid>']`. A quote in the rid
      ends the XPath literal early and the expression is refused. */
  function AssetById(nodes: seq<Node>, rid: string): (r: Result<seq<nat>>)
    requires WellFormed(nodes)
    ensures r.Err? <==> '\'' in rid
    ensures r.Ok? ==> NoDup(r.value)
    ensures r.Ok? ==> forall x :: x in r.value <==> x in Assets(nodes) && GetAttr(nodes, x, IdAttr) == Some(IdPrefix + rid)
  {
    if '\'' in rid then Err(InvalidPredicate)
    else
      var es := Assets(nodes);
      assert forall i :: 0 <= i < |es| ==> es[i] in es;
      Ok(WithId(nodes, es, IdPrefix + rid))
  }

  /** The corrected `getRid` and `getAssetById` are inverse: an asset whose
      `ID` is `ID_` followed by a rid without quotes yields that rid, and
      looking the rid up finds the asset again. */
  lemma {:induction false} RidRoundTrip(nodes: seq<Node>, a: nat, rid: string)
    requires WellFormed(nodes) && a in Assets(nodes)
    requires GetAttr(nodes, a, IdAttr) == Some(IdPrefix + rid) && '\'' !in rid
    ensures Rid(nodes, a) == Ok(rid)
    ensures AssetById(nodes, rid).Ok? && a in AssetById(nodes, rid).value
  {
    assert (IdPrefix + rid)[3..] == rid;
  }

  /** `getRid` as written is not inverse to `getAssetById`: for an asset
      whose `ID` is `ID_` followed by a rid, it yields `_` and the rid, and
      the lookup of that searches for `ID__<rid>`, which is not the asset. */
  lemma {:induction false} RidAsWrittenMissesAsset(nodes: seq<Node>, a: nat, rid: string)
    requires WellFormed(nodes) && a in Assets(nodes)
    requires GetAttr(nodes, a, IdAttr) == Some(IdPrefix + rid) && '\'' !in rid
    ensures RidAsWritten(nodes, a) == Ok("_" + rid)
    ensures AssetById(nodes, "_" + rid).Ok? && a !in AssetById(nodes, "_" + rid).value
  {
    assert (IdPrefix + rid)[2..] == "_" + rid;
    assert |IdPrefix + "_" + rid| != |IdPrefix + rid|;
  }

  /** `getReferencedAsset`: line 54 asks the list of `reference` children
      for an attribute, which a list does not have, so every call fails
      before the lookup of the referenced asset. */
  function ReferencedAsset(nodes: seq<Node>, e: nat): (r: Result<Option<seq<nat>>>)
    requires e < |nodes|
    ensures r == Err(ListGetError)
  {
    Err(ListGetError)
  }

  /** `getAncestralAssetRids` given what `getReferencedAsset` answered: no
      referenced parent (None or an empty list) gives `[]`; a parent makes
      line 63 call a free function that does not exist; a failed lookup
      propagates. */
  function AncestralFrom(parent: Result<Option<seq<nat>>>): (r: Result<seq<string>>)
    ensures r.Ok? <==> parent.Ok? && (parent.value.None? || parent.value.value == [])
    ensures r.Ok? ==> r.value == []
    ensures parent.Err? ==> r == Err(parent.msg)
    ensures parent.Ok? && parent.value.Some? && parent.value.value != [] ==> r == Err(UndefinedAncestral)
  {
    match parent
    case Err(m) => Err(m)
    case Ok(None) => Ok([])
    case Ok(Some(ps)) => if ps == [] then Ok([]) else Err(UndefinedAncestral)
  }

  /** `getAncestralAssetRids` on an asset: it fails on every asset, with the
      error of line 54. */
  function AncestralAssetRids(nodes: seq<Node>, e: nat): (r: Result<seq<string>>)
    requires e < |nodes|
    ensures r == Err(ListGetError)
  {
    AncestralFrom(ReferencedAsset(nodes, e))
  }

  /** `getAssetChildrenRids`: the XPath of line 69 opens a predicate it never
      closes (`[@assetIDs=['ID_...']`), so every call fails before the loop
      over references. */
  function AssetChildrenRids(nodes: seq<Node>, rid: string): (r: Result<seq<string>>)
    ensures r == Err(InvalidExpression)
  {
    Err(InvalidExpression)
  }

  /** The rids of the parents of `refs`, in order, or the error of the
      first parent without `ID`. */
  function ParentRids(nodes: seq<Node>, refs: seq<nat>): (r: Result<seq<string>>)
    requires forall i :: 0 <= i < |refs| ==> refs[i] < |nodes| && 0 <= nodes[refs[i]].parent < |nodes|
    ensures r.Ok? <==> forall i :: 0 <= i < |refs| ==> Rid(nodes, nodes[refs[i]].parent).Ok?
    ensures r.Ok? ==> |r.value| == |refs|
    ensures r.Ok? ==> forall i :: 0 <= i < |refs| ==> Rid(nodes, nodes[refs[i]].parent) == Ok(r.value[i])
    ensures r.Err? ==> r == Err(NoIdError)
    decreases |refs|
  {
    if refs == [] then Ok([])
    else
      var init := ParentRids(nodes, refs[..|refs| - 1]);
      var last := Rid(nodes, nodes[refs[|refs| - 1]].parent);
      if init.Err? then init
      else if last.Err? then Err(last.msg)
      else Ok(init.value + [last.value])
  }

  class OpenIgcDoc {
    var nodes: seq<Node>
    /** `result['changed']` */
    var changed: bool

    predicate Valid()
      reads this
    {
      WellFormed(nodes)
    }

    constructor (doc: seq<Node>)
      requires WellFormed(doc)
      ensures Valid() && nodes == doc && !changed
    {
      nodes := doc;
      changed := false;
    }

    /** `dropAsset`: the element leaves its parent and the result is marked
        changed; nothing else changes. */
    method DropAsset(e: nat)
      requires Valid() && e < |nodes| && nodes[e].parent >= 0
      modifies this
      ensures Valid()
      ensures nodes == Detached(old(nodes), e) && changed
    {
      nodes := Detached(nodes, e);
      changed := true;
    }

    /** Lines 70-72 of `getAssetChildrenRids`, over a given list of
        references: the rid of each reference's parent asset, in order. The
        loop stops at the first parent without `ID`. */
    method CollectParentRids(refs: seq<nat>) returns (r: Result<seq<string>>)
      requires Valid()
      requires forall i :: 0 <= i < |refs| ==> refs[i] < |nodes| && 0 <= nodes[refs[i]].parent < |nodes|
      ensures r == ParentRids(nodes, refs)
    {
      var found: seq<string> := [];
      for i := 0 to |refs|
        invariant ParentRids(nodes, refs[..i]) == Ok(found)
      {
        assert refs[..i + 1][..i] == refs[..i];
        var rid := Rid(nodes, nodes[refs[i]].parent);
        if rid.Err? {
          return Err(rid.msg);
        }
        found := found + [rid.value];
      }
      assert refs[..|refs|] == refs;
      r := Ok(found);
    }
  }
}
