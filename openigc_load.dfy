/** `igc_load_openigc_assets`, lines 167-191: the assets of a bundle are
    split into those to load partially and those to load completely, by
    their type; the bundle is then uploaded, and the module reports the
    upload's answer. The asset type lookup and the upload are taken as
    parameters. */
module OpenIgcLoad {
  import opened Wrappers
  import opened Lists
  import opened XmlDoc
  import opened JsonModel
  import opened OpenIgcHandler

  const UploadFailed := "Failed to upload assets"

  /** The type an asset element declares (`getType`). */
  type TypeOf = Node -> string

  /** Line 173: an asset is loaded completely when its type is listed. */
  predicate IsComplete(nodes: seq<Node>, x: nat, typeOf: TypeOf, completeTypes: seq<string>)
    requires x < |nodes|
  {
    typeOf(nodes[x]) in completeTypes
  }

  /** The partial and the complete rids after the loop at line 170 has
      handled the assets `es`, or the error of the first asset without `ID`. */
  function Partition(nodes: seq<Node>, es: seq<nat>, typeOf: TypeOf, completeTypes: seq<string>): (r: Result<(seq<string>, seq<string>)>)
    requires forall i :: 0 <= i < |es| ==> es[i] < |nodes|
    ensures r.Ok? <==> forall i :: 0 <= i < |es| ==> IdAttr in nodes[es[i]].attrs
    ensures r.Ok? ==> |r.value.0| + |r.value.1| == |es|
    ensures r.Err? ==> r.msg == NoIdError
    decreases |es|
  {
    if es == [] then Ok(([], []))
    else
      var init := es[..|es| - 1];
      var x := es[|es| - 1];
      assert forall i :: 0 <= i < |init| ==> init[i] == es[i];
      Sort(Partition(nodes, init, typeOf, completeTypes), nodes, x, typeOf, completeTypes)
  }

  /** One turn of the loop at line 170: the asset's rid joins the complete
      list when its type is listed and the partial list otherwise. */
  function Sort(lists: Result<(seq<string>, seq<string>)>, nodes: seq<Node>, x: nat, typeOf: TypeOf, completeTypes: seq<string>): (r: Result<(seq<string>, seq<string>)>)
    requires x < |nodes|
    ensures r.Ok? <==> lists.Ok? && IdAttr in nodes[x].attrs
    ensures r.Ok? && IsComplete(nodes, x, typeOf, completeTypes) ==> r.value == (lists.value.0, lists.value.1 + [Rid(nodes, x).value])
    ensures r.Ok? && !IsComplete(nodes, x, typeOf, completeTypes) ==> r.value == (lists.value.0 + [Rid(nodes, x).value], lists.value.1)
  {
    match lists
    case Err(m) => Err(m)
    case Ok(lists) =>
      match Rid(nodes, x)
      case Err(m) => Err(m)
      case Ok(rid) =>
        if IsComplete(nodes, x, typeOf, completeTypes) then Ok((lists.0, lists.1 + [rid]))
        else Ok((lists.0 + [rid], lists.1))
  }

  lemma {:induction false} PartitionSnoc(nodes: seq<Node>, es: seq<nat>, typeOf: TypeOf, completeTypes: seq<string>, i: nat)
    requires i < |es| && forall j :: 0 <= j < |es| ==> es[j] < |nodes|
    ensures Partition(nodes, es[..i + 1], typeOf, completeTypes) == Sort(Partition(nodes, es[..i], typeOf, completeTypes), nodes, es[i], typeOf, completeTypes)
  {
    assert es[..i + 1][..i] == es[..i];
  }

  /** The positions in `es` of the assets whose completeness is `want`, in
      increasing order. */
  function Picks(nodes: seq<Node>, es: seq<nat>, typeOf: TypeOf, completeTypes: seq<string>, want: bool): (ps: seq<nat>)
    requires forall i :: 0 <= i < |es| ==> es[i] < |nodes|
    ensures forall k :: 0 <= k < |ps| ==> ps[k] < |es|
    ensures forall k, l :: 0 <= k < l < |ps| ==> ps[k] < ps[l]
    ensures forall i :: 0 <= i < |es| ==> (i in ps <==> IsComplete(nodes, es[i], typeOf, completeTypes) == want)
    decreases |es|
  {
    if es == [] then []
    else
      var init := es[..|es| - 1];
      assert forall i :: 0 <= i < |init| ==> init[i] == es[i];
      var ps := Picks(nodes, init, typeOf, completeTypes, want);
      if IsComplete(nodes, es[|es| - 1], typeOf, completeTypes) == want then ps + [|es| - 1] else ps
  }

  /** The rids of the assets at positions `ps` of `es`. */
  function RidsAt(nodes: seq<Node>, es: seq<nat>, ps: seq<nat>): (r: seq<string>)
    requires forall k :: 0 <= k < |ps| ==> ps[k] < |es| && es[ps[k]] < |nodes| && IdAttr in nodes[es[ps[k]]].attrs
    ensures |r| == |ps|
    ensures forall k :: 0 <= k < |ps| ==> Rid(nodes, es[ps[k]]) == Ok(r[k])
  {
    seq(|ps|, k requires 0 <= k < |ps| => Rid(nodes, es[ps[k]]).value)
  }

  /** Lines 170-176: the partial list holds the rids of exactly the assets
      whose type is not listed and the complete list those whose type is,
      each in document order; so every asset lands in exactly one of them. */
  lemma {:induction false} PartitionByPicks(nodes: seq<Node>, es: seq<nat>, typeOf: TypeOf, completeTypes: seq<string>)
    requires forall i :: 0 <= i < |es| ==> es[i] < |nodes| && IdAttr in nodes[es[i]].attrs
    ensures Partition(nodes, es, typeOf, completeTypes).Ok?
    ensures Partition(nodes, es, typeOf, completeTypes).value.0 == RidsAt(nodes, es, Picks(nodes, es, typeOf, completeTypes, false))
    ensures Partition(nodes, es, typeOf, completeTypes).value.1 == RidsAt(nodes, es, Picks(nodes, es, typeOf, completeTypes, true))
    decreases |es|
  {
    if es != [] {
      var init := es[..|es| - 1];
      var x := es[|es| - 1];
      assert forall i :: 0 <= i < |init| ==> init[i] == es[i];
      PartitionByPicks(nodes, init, typeOf, completeTypes);
      PicksSnoc(nodes, es, typeOf, completeTypes, false);
      PicksSnoc(nodes, es, typeOf, completeTypes, true);
    }
  }

  /** The rids at the positions picked from `es` extend those picked from
      all but its last asset by that asset's rid exactly when it is picked. */
  lemma {:induction false} PicksSnoc(nodes: seq<Node>, es: seq<nat>, typeOf: TypeOf, completeTypes: seq<string>, want: bool)
    requires es != [] && forall i :: 0 <= i < |es| ==> es[i] < |nodes| && IdAttr in nodes[es[i]].attrs
    ensures var init := es[..|es| - 1];
      var before := RidsAt(nodes, init, Picks(nodes, init, typeOf, completeTypes, want));
      var x := es[|es| - 1];
      RidsAt(nodes, es, Picks(nodes, es, typeOf, completeTypes, want)) ==
        if IsComplete(nodes, x, typeOf, completeTypes) == want then before + [Rid(nodes, x).value] else before
  {
    var init := es[..|es| - 1];
    assert forall i :: 0 <= i < |init| ==> init[i] == es[i];
  }

  /** With no complete types (the default of line 122) every asset is
      loaded partially, in document order. */
  lemma {:induction false} NoCompleteTypes(nodes: seq<Node>, es: seq<nat>, typeOf: TypeOf)
    requires forall i :: 0 <= i < |es| ==> es[i] < |nodes| && IdAttr in nodes[es[i]].attrs
    ensures Partition(nodes, es, typeOf, []).Ok?
    ensures Partition(nodes, es, typeOf, []).value.1 == []
    ensures |Partition(nodes, es, typeOf, []).value.0| == |es|
    ensures forall i :: 0 <= i < |es| ==> Rid(nodes, es[i]) == Ok(Partition(nodes, es, typeOf, []).value.0[i])
    decreases |es|
  {
    if es != [] {
      var init := es[..|es| - 1];
      assert forall i :: 0 <= i < |init| ==> init[i] == es[i];
      NoCompleteTypes(nodes, init, typeOf);
    }
  }

  /** What the module reports after a successful upload. */
  datatype Loaded = Loaded(changed: bool, rids: Json, partial: seq<string>, complete: seq<string>)

  /** Lines 170-176 over the bundle's assets: the rids split by type. */
  method PartitionAssets(h: OpenIgcDoc, typeOf: TypeOf, completeTypes: seq<string>) returns (r: Result<(seq<string>, seq<string>)>)
    requires h.Valid()
    ensures r == Partition(h.nodes, Assets(h.nodes), typeOf, completeTypes)
  {
    var es := Assets(h.nodes);
    r := PartitionEach(h.nodes, es, typeOf, completeTypes);
  }

  /** The loop at line 170 over the asset elements `es`. */
  method PartitionEach(nodes: seq<Node>, es: seq<nat>, typeOf: TypeOf, completeTypes: seq<string>) returns (r: Result<(seq<string>, seq<string>)>)
    requires forall i :: 0 <= i < |es| ==> es[i] < |nodes|
    ensures r == Partition(nodes, es, typeOf, completeTypes)
  {
    var partial: seq<string> := [];
    var complete: seq<string> := [];
    for i := 0 to |es|
      invariant Partition(nodes, es[..i], typeOf, completeTypes) == Ok((partial, complete))
    {
      PartitionSnoc(nodes, es, typeOf, completeTypes, i);
      var rid := Rid(nodes, es[i]);
      if rid.Err? {
        return Err(rid.msg);
      }
      if typeOf(nodes[es[i]]) in completeTypes {
        complete := complete + [rid.value];
      } else {
        partial := partial + [rid.value];
      }
    }
    assert es[..|es|] == es;
    r := Ok((partial, complete));
  }

  /** Lines 167-191: after the split, the bundle goes to the upload, whose
      answer is `uploaded`. Only an answer makes the module report `rids`
      and `changed`; without one it fails. */
  method Load(h: OpenIgcDoc, typeOf: TypeOf, completeTypes: seq<string>, uploaded: Option<Json>) returns (r: Result<Loaded>)
    requires h.Valid()
    ensures var split := Partition(h.nodes, Assets(h.nodes), typeOf, completeTypes);
      r.Ok? <==> split.Ok? && uploaded.Some?
    ensures var split := Partition(h.nodes, Assets(h.nodes), typeOf, completeTypes);
      r.Ok? ==> r.value == Loaded(true, uploaded.value, split.value.0, split.value.1)
    ensures var split := Partition(h.nodes, Assets(h.nodes), typeOf, completeTypes);
      split.Ok? && uploaded.None? ==> r == Err(UploadFailed)
  {
    var split := PartitionAssets(h, typeOf, completeTypes);
    if split.Err? {
      return Err(split.msg);
    }
    if uploaded.None? {
      return Err(UploadFailed);
    }
    r := Ok(Loaded(true, uploaded.value, split.value.0, split.value.1));
  }
}
