/** `igc_extract_openigc_assets`: from a retrieved Open IGC bundle, keep the
    requested assets together with their ancestors and children and drop
    every other asset. The keep list is built first (lines 179-191); the
    drop pass over the bundle's assets follows (lines 193-198). */
module OpenIgcExtract {
  import opened Wrappers
  import opened Lists
  import opened XmlDoc
  import opened OpenIgcHandler

  const UnboundAsset := "UnboundLocalError: local variable 'e_asset' referenced before assignment"

  /** A lookup of related rids for a requested rid: its ancestors or its
      children. */
  type Lookup = string -> Result<seq<string>>

  /** Line 184 as written: the ancestors are asked of `e_asset`, which is
      only assigned later by the drop loop, so the lookup fails whatever the
      rid. */
  function AncestorsAsWritten(rid: string): (r: Result<seq<string>>)
    ensures r == Err(UnboundAsset)
  {
    Err(UnboundAsset)
  }

  /** `x` is the requested rid itself, one of its ancestors or one of its
      children. */
  predicate Reached(x: string, rid: string, ancestors: Lookup, children: Lookup)
  {
    || x == rid
    || (ancestors(rid).Ok? && x in ancestors(rid).value)
    || (children(rid).Ok? && x in children(rid).value)
  }

  /** One turn of the loop at line 182: the rid goes in whether or not it is
      there already; then each ancestor and each child that is not yet in
      the list, in order. A failed lookup fails the turn. */
  function Turn(keep: seq<string>, rid: string, ancestors: Lookup, children: Lookup): (r: Result<seq<string>>)
    ensures r.Ok? <==> ancestors(rid).Ok? && children(rid).Ok?
    ensures r.Err? && ancestors(rid).Err? ==> r.msg == ancestors(rid).msg
    ensures r.Ok? ==> keep + [rid] <= r.value
    ensures r.Ok? ==> forall x :: x in r.value <==> x in keep || Reached(x, rid, ancestors, children)
    ensures r.Ok? ==> NoDup(r.value[|keep| + 1..])
    ensures r.Ok? ==> forall x :: x in r.value[|keep| + 1..] ==> x !in keep + [rid]
  {
    match ancestors(rid)
    case Err(m) => Err(m)
    case Ok(up) =>
      match children(rid)
      case Err(m) => Err(m)
      case Ok(down) =>
        AddTwice(keep + [rid], up, down);
        Ok(AddNew(AddNew(keep + [rid], up), down))
  }

  /** Adding two lists in turn behind `k` keeps `k` in front and appends
      exactly the new elements of both, once each. */
  lemma {:induction false} AddTwice(k: seq<string>, up: seq<string>, down: seq<string>)
    ensures k <= AddNew(AddNew(k, up), down)
    ensures forall x :: x in AddNew(AddNew(k, up), down) <==> x in k || x in up || x in down
    ensures NoDup(AddNew(AddNew(k, up), down)[|k|..])
    ensures forall x :: x in AddNew(AddNew(k, up), down)[|k|..] ==> x !in k
  {
    var k2 := AddNew(k, up);
    var k3 := AddNew(k2, down);
    AddNewProperties(k, up);
    AddNewProperties(k2, down);
    AddNewFresh(k, up);
    AddNewFresh(k2, down);
    assert k3[|k|..] == k2[|k|..] + k3[|k2|..];
    assert k2 == k + k2[|k|..];
    NoDupConcat(k2[|k|..], k3[|k2|..]);
  }

  /** The keep list after the loop at line 182 has handled every requested
      rid, or the first failed lookup. */
  function Closure(request: seq<string>, ancestors: Lookup, children: Lookup): (r: Result<seq<string>>)
    decreases |request|
  {
    if request == [] then Ok([])
    else
      match Closure(request[..|request| - 1], ancestors, children)
      case Err(m) => Err(m)
      case Ok(keep) => Turn(keep, request[|request| - 1], ancestors, children)
  }

  /** The keep list is built exactly when every lookup succeeds. */
  lemma {:induction false} ClosureOk(request: seq<string>, ancestors: Lookup, children: Lookup)
    ensures Closure(request, ancestors, children).Ok? <==>
      forall i :: 0 <= i < |request| ==> ancestors(request[i]).Ok? && children(request[i]).Ok?
    decreases |request|
  {
    if request != [] {
      var init := request[..|request| - 1];
      ClosureOk(init, ancestors, children);
      ClosureStepOk(request, ancestors, children);
      AllSnoc(request, init, x => ancestors(x).Ok? && children(x).Ok?);
    }
  }

  /** Every element of a non-empty list passes exactly when all but the last
      do and the last one does. */
  lemma {:induction false} AllSnoc(s: seq<string>, init: seq<string>, ok: string -> bool)
    requires s != [] && init == s[..|s| - 1]
    ensures (forall i :: 0 <= i < |s| ==> ok(s[i])) <==>
      (forall i :: 0 <= i < |init| ==> ok(init[i])) && ok(s[|s| - 1])
  {
    assert forall i :: 0 <= i < |init| ==> init[i] == s[i];
  }

  /** One more request succeeds exactly when the ones before it did and both
      of its lookups succeed. */
  lemma {:induction false} ClosureStepOk(request: seq<string>, ancestors: Lookup, children: Lookup)
    requires request != []
    ensures var last := request[|request| - 1];
      Closure(request, ancestors, children).Ok? <==>
        Closure(request[..|request| - 1], ancestors, children).Ok? && ancestors(last).Ok? && children(last).Ok?
  {
  }

  /** The keep list holds exactly the requested rids, their ancestors and
      their children. */
  lemma {:induction false} ClosureMembers(request: seq<string>, ancestors: Lookup, children: Lookup)
    requires Closure(request, ancestors, children).Ok?
    ensures forall x :: x in Closure(request, ancestors, children).value <==>
      exists i :: 0 <= i < |request| && Reached(x, request[i], ancestors, children)
    decreases |request|
  {
    if request != [] {
      var init := request[..|request| - 1];
      var last := request[|request| - 1];
      ClosureMembers(init, ancestors, children);
      forall x
        ensures (exists i :: 0 <= i < |request| && Reached(x, request[i], ancestors, children)) <==>
          (exists i :: 0 <= i < |init| && Reached(x, init[i], ancestors, children)) || Reached(x, last, ancestors, children)
      {
        if exists i :: 0 <= i < |request| && Reached(x, request[i], ancestors, children) {
          var i :| 0 <= i < |request| && Reached(x, request[i], ancestors, children);
          if i < |init| {
            assert init[i] == request[i];
          }
        }
        if exists i :: 0 <= i < |init| && Reached(x, init[i], ancestors, children) {
          var i :| 0 <= i < |init| && Reached(x, init[i], ancestors, children);
          assert request[i] == init[i];
        }
      }
    }
  }

  /** Handling more requested rids only extends the keep list: nothing is
      ever removed from it or reordered. */
  lemma {:induction false} ClosureExtends(request: seq<string>, more: seq<string>, ancestors: Lookup, children: Lookup)
    requires Closure(request + more, ancestors, children).Ok?
    ensures Closure(request, ancestors, children).Ok?
    ensures Closure(request, ancestors, children).value <= Closure(request + more, ancestors, children).value
    decreases |more|
  {
    if more == [] {
      assert request + more == request;
    } else {
      var init := more[..|more| - 1];
      assert (request + more)[..|request + more| - 1] == request + init;
      ClosureExtends(request, init, ancestors, children);
    }
  }

  /** Every occurrence of a requested rid is appended, repeats included,
      while ancestors and children are appended only when absent; so the
      keep list holds each requested rid at least as often as it was
      requested. */
  lemma {:induction false} ClosureKeepsRepeats(request: seq<string>, ancestors: Lookup, children: Lookup)
    requires Closure(request, ancestors, children).Ok?
    ensures multiset(request) <= multiset(Closure(request, ancestors, children).value)
    decreases |request|
  {
    if request != [] {
      var init := request[..|request| - 1];
      var last := request[|request| - 1];
      ClosureKeepsRepeats(init, ancestors, children);
      var keep := Closure(init, ancestors, children).value;
      var r := Closure(request, ancestors, children).value;
      assert keep + [last] <= r;
      MultisetStep(request, keep, r);
    }
  }

  /** A list whose front part holds each element at least as often as
      `request` without its last element, followed by that element, holds
      each element at least as often as `request`. */
  lemma {:induction false} MultisetStep(request: seq<string>, keep: seq<string>, r: seq<string>)
    requires request != [] && multiset(request[..|request| - 1]) <= multiset(keep)
    requires keep + [request[|request| - 1]] <= r
    ensures multiset(request) <= multiset(r)
  {
    var last := request[|request| - 1];
    assert request == request[..|request| - 1] + [last];
    assert r == keep + [last] + r[|keep| + 1..];
  }

  /** The line 184 finding: as written, any non-empty request fails with
      the unbound `e_asset`, whatever the children lookup answers. */
  lemma {:induction false} ClosureAsWrittenFails(request: seq<string>, children: Lookup)
    requires request != []
    ensures Closure(request, AncestorsAsWritten, children) == Err(UnboundAsset)
    decreases |request|
  {
    var init := request[..|request| - 1];
    if init != [] {
      ClosureAsWrittenFails(init, children);
    }
  }

  /** `if x not in keep: keep.append(x)` for each of `xs` in turn (lines
      185-187 and 189-191). */
  method AppendAbsent(keep: seq<string>, xs: seq<string>) returns (r: seq<string>)
    ensures r == AddNew(keep, xs)
  {
    r := keep;
    for j := 0 to |xs|
      invariant r == AddNew(keep, xs[..j])
    {
      AddNewSnoc(keep, xs[..j], xs[j]);
      assert xs[..j + 1] == xs[..j] + [xs[j]];
      if xs[j] !in r {
        r := r + [xs[j]];
      }
    }
    assert xs[..|xs|] == xs;
  }

  /** Lines 179-191 with the ancestors looked up by the requested rid (the
      evidently intended line 184): the keep list the loop builds. */
  method KeepClosure(request: seq<string>, ancestors: Lookup, children: Lookup) returns (r: Result<seq<string>>)
    ensures r == Closure(request, ancestors, children)
  {
    var keep: seq<string> := [];
    for i := 0 to |request|
      invariant Closure(request[..i], ancestors, children) == Ok(keep)
    {
      var rid := request[i];
      assert request[..i + 1][..i] == request[..i];
      ghost var before := keep;
      keep := keep + [rid];
      var up := ancestors(rid);
      if up.Err? {
        ClosureStopsAt(request, ancestors, children, i + 1);
        return Err(up.msg);
      }
      keep := AppendAbsent(keep, up.value);
      var down := children(rid);
      if down.Err? {
        ClosureStopsAt(request, ancestors, children, i + 1);
        return Err(down.msg);
      }
      keep := AppendAbsent(keep, down.value);
      assert Turn(before, rid, ancestors, children) == Ok(keep);
    }
    assert request[..|request|] == request;
    r := Ok(keep);
  }

  /** A failure part-way is the failure of the whole loop. */
  lemma {:induction false} ClosureStopsAt(request: seq<string>, ancestors: Lookup, children: Lookup, k: nat)
    requires k <= |request| && Closure(request[..k], ancestors, children).Err?
    ensures Closure(request, ancestors, children) == Closure(request[..k], ancestors, children)
    decreases |request| - k
  {
    if k == |request| {
      assert request[..k] == request;
    } else {
      assert request[..k + 1][..k] == request[..k];
      ClosureStopsAt(request, ancestors, children, k + 1);
    }
  }

  // ---------------------------------------------------------------------------
  // The drop pass

  /** Line 195: an asset goes when its rid is not in the keep list. */
  predicate Drops(nodes: seq<Node>, x: nat, keep: seq<string>)
    requires x < |nodes|
  {
    Rid(nodes, x).Ok? && Rid(nodes, x).value !in keep
  }

  /** The assets among `es` the pass removes. */
  ghost function DropSet(nodes: seq<Node>, es: seq<nat>, keep: seq<string>): (r: set<nat>)
    requires forall i :: 0 <= i < |es| ==> es[i] < |nodes|
    ensures forall x :: x in r <==> x in es && Drops(nodes, x, keep)
    decreases |es|
  {
    if es == [] then {}
    else
      var x := es[|es| - 1];
      DropSet(nodes, es[..|es| - 1], keep) + (if Drops(nodes, x, keep) then {x} else {})
  }

  /** The assets among `es` the pass keeps and counts. */
  ghost function KeptAmong(nodes: seq<Node>, es: seq<nat>, keep: seq<string>): (r: set<nat>)
    requires forall i :: 0 <= i < |es| ==> es[i] < |nodes|
    ensures forall x :: x in r <==> x in es && Rid(nodes, x).Ok? && Rid(nodes, x).value in keep
    decreases |es|
  {
    if es == [] then {}
    else
      var x := es[|es| - 1];
      KeptAmong(nodes, es[..|es| - 1], keep) + (if Rid(nodes, x).Ok? && Rid(nodes, x).value in keep then {x} else {})
  }

  /** Every asset among `es` with an `ID` is either removed or counted, so
      the two numbers add up to the number of assets. */
  lemma {:induction false} DropKeptPartition(nodes: seq<Node>, es: seq<nat>, keep: seq<string>, i: nat)
    requires NoDup(es) && i <= |es|
    requires forall j :: 0 <= j < |es| ==> es[j] < |nodes| && IdAttr in nodes[es[j]].attrs
    ensures |DropSet(nodes, es[..i], keep)| + |KeptAmong(nodes, es[..i], keep)| == i
    decreases i
  {
    if i > 0 {
      var k := i - 1;
      DropKeptPartition(nodes, es, keep, k);
      DropCountSnoc(nodes, es, keep, k);
      KeptSnoc(nodes, es, keep, k);
      assert k + 1 == i;
    }
  }

  lemma {:induction false} DropCountSnoc(start: seq<Node>, es: seq<nat>, keep: seq<string>, i: nat)
    requires NoDup(es) && i < |es| && forall j :: 0 <= j < |es| ==> es[j] < |start|
    ensures |DropSet(start, es[..i + 1], keep)| ==
      |DropSet(start, es[..i], keep)| + (if Drops(start, es[i], keep) then 1 else 0)
  {
    DropSnoc(start, es, keep, i);
    NoDupNotBefore(es, i);
    assert es[i] !in DropSet(start, es[..i], keep);
  }

  lemma {:induction false} DropSnoc(start: seq<Node>, es: seq<nat>, keep: seq<string>, i: nat)
    requires i < |es| && forall j :: 0 <= j < |es| ==> es[j] < |start|
    ensures DropSet(start, es[..i + 1], keep) ==
      DropSet(start, es[..i], keep) + (if Drops(start, es[i], keep) then {es[i]} else {})
  {
    assert es[..i + 1][..i] == es[..i];
  }

  lemma {:induction false} KeptSnoc(start: seq<Node>, es: seq<nat>, keep: seq<string>, i: nat)
    requires NoDup(es) && i < |es| && forall j :: 0 <= j < |es| ==> es[j] < |start|
    requires IdAttr in start[es[i]].attrs
    ensures |KeptAmong(start, es[..i + 1], keep)| ==
      |KeptAmong(start, es[..i], keep)| + (if Drops(start, es[i], keep) then 0 else 1)
  {
    assert es[..i + 1][..i] == es[..i];
    NoDupNotBefore(es, i);
    assert es[i] !in KeptAmong(start, es[..i], keep);
  }

  /** Before its turn an asset is still attached and reads as at the start. */
  lemma {:induction false} DropStep(start: seq<Node>, cur: seq<Node>, es: seq<nat>, keep: seq<string>, i: nat)
    requires NoDup(es) && i < |es|
    requires forall j :: 0 <= j < |es| ==> es[j] < |start| && start[es[j]].parent >= 0
    requires DetachedExactly(start, cur, DropSet(start, es[..i], keep))
    ensures es[i] < |cur| && cur[es[i]].parent >= 0
    ensures Rid(cur, es[i]) == Rid(start, es[i])
  {
    NoDupNotBefore(es, i);
  }

  /** The `i`-th turn of the drop pass on an asset with an `ID`: it goes
      exactly when its rid is not kept. */
  method DropTurn(h: OpenIgcDoc, es: seq<nat>, keep: seq<string>, ghost start: seq<Node>, i: nat) returns (dropped: bool)
    requires NoDup(es) && i < |es|
    requires forall j :: 0 <= j < |es| ==> es[j] < |start| && start[es[j]].parent >= 0
    requires IdAttr in start[es[i]].attrs
    requires h.Valid() && DetachedExactly(start, h.nodes, DropSet(start, es[..i], keep))
    modifies h
    ensures h.Valid() && DetachedExactly(start, h.nodes, DropSet(start, es[..i + 1], keep))
    ensures dropped == Drops(start, es[i], keep)
    ensures h.changed == (old(h.changed) || dropped)
  {
    DropStep(start, h.nodes, es, keep, i);
    DropSnoc(start, es, keep, i);
    ghost var gone := DropSet(start, es[..i], keep);
    var rid := Rid(h.nodes, es[i]);
    dropped := rid.value !in keep;
    if dropped {
      DetachedExactlyStep(start, h.nodes, gone, es[i]);
      h.DropAsset(es[i]);
    } else {
      assert DropSet(start, es[..i + 1], keep) == gone;
    }
  }

  /** Lines 193-198: every asset of the bundle whose rid is not in the keep
      list is removed and every other one is counted; nothing else in the
      tree changes. An asset without `ID` stops the pass with the assets
      before it already handled. */
  method DropUnkept(h: OpenIgcDoc, keep: seq<string>) returns (r: Result<nat>)
    requires h.Valid()
    modifies h
    ensures h.Valid()
    ensures var es := Assets(old(h.nodes));
      r.Ok? <==> forall j :: 0 <= j < |es| ==> IdAttr in old(h.nodes)[es[j]].attrs
    ensures var es := Assets(old(h.nodes));
      r.Ok? ==>
        && DetachedExactly(old(h.nodes), h.nodes, DropSet(old(h.nodes), es, keep))
        && r.value == |KeptAmong(old(h.nodes), es, keep)|
        && h.changed == (old(h.changed) || DropSet(old(h.nodes), es, keep) != {})
    ensures var es := Assets(old(h.nodes));
      r.Err? ==> r.msg == NoIdError && exists k :: (0 <= k < |es| && IdAttr !in old(h.nodes)[es[k]].attrs &&
        DetachedExactly(old(h.nodes), h.nodes, DropSet(old(h.nodes), es[..k], keep)))
  {
    var es := Assets(h.nodes);
    r := DropEach(h, es, keep);
  }

  /** The loop of lines 193-198 over the assets `es` selected at its start. */
  method DropEach(h: OpenIgcDoc, es: seq<nat>, keep: seq<string>) returns (r: Result<nat>)
    requires h.Valid() && NoDup(es)
    requires forall j :: 0 <= j < |es| ==> es[j] < |h.nodes| && h.nodes[es[j]].parent >= 0
    modifies h
    ensures h.Valid()
    ensures r.Ok? <==> forall j :: 0 <= j < |es| ==> IdAttr in old(h.nodes)[es[j]].attrs
    ensures r.Ok? ==>
      && DetachedExactly(old(h.nodes), h.nodes, DropSet(old(h.nodes), es, keep))
      && r.value == |KeptAmong(old(h.nodes), es, keep)|
      && h.changed == (old(h.changed) || DropSet(old(h.nodes), es, keep) != {})
    ensures r.Err? ==> r.msg == NoIdError && exists k :: (0 <= k < |es| && IdAttr !in old(h.nodes)[es[k]].attrs &&
      DetachedExactly(old(h.nodes), h.nodes, DropSet(old(h.nodes), es[..k], keep)))
  {
    ghost var start := h.nodes;
    var count := 0;
    for i := 0 to |es|
      invariant h.Valid() && DetachedExactly(start, h.nodes, DropSet(start, es[..i], keep))
      invariant count == |KeptAmong(start, es[..i], keep)|
      invariant h.changed == (old(h.changed) || DropSet(start, es[..i], keep) != {})
      invariant forall j :: 0 <= j < i ==> IdAttr in start[es[j]].attrs
    {
      var res := DropEachTurn(h, es, keep, start, old(h.changed), i, count);
      if res.Err? {
        return res;
      }
      count := res.value;
    }
    assert es[..|es|] == es;
    r := Ok(count);
  }

  /** The `i`-th turn of the loop of lines 193-198: an asset without `ID`
      stops the pass with the tree as it was; any other asset is dropped
      or counted. */
  method DropEachTurn(h: OpenIgcDoc, es: seq<nat>, keep: seq<string>, ghost start: seq<Node>, ghost changed0: bool,
                      i: nat, count: nat) returns (r: Result<nat>)
    requires NoDup(es) && i < |es|
    requires forall j :: 0 <= j < |es| ==> es[j] < |start| && start[es[j]].parent >= 0
    requires h.Valid() && DetachedExactly(start, h.nodes, DropSet(start, es[..i], keep))
    requires count == |KeptAmong(start, es[..i], keep)|
    requires h.changed == (changed0 || DropSet(start, es[..i], keep) != {})
    modifies h
    ensures h.Valid()
    ensures r.Err? ==> r.msg == NoIdError && IdAttr !in start[es[i]].attrs && h.nodes == old(h.nodes)
    ensures r.Ok? ==>
      && IdAttr in start[es[i]].attrs
      && DetachedExactly(start, h.nodes, DropSet(start, es[..i + 1], keep))
      && r.value == |KeptAmong(start, es[..i + 1], keep)|
      && h.changed == (changed0 || DropSet(start, es[..i + 1], keep) != {})
  {
    DropStep(start, h.nodes, es, keep, i);
    var rid := Rid(h.nodes, es[i]);
    if rid.Err? {
      return Err(rid.msg);
    }
    KeptSnoc(start, es, keep, i);
    DropSnoc(start, es, keep, i);
    var dropped := DropTurn(h, es, keep, start, i);
    r := Ok(if dropped then count else count + 1);
  }

  /** Lines 179-198: the keep list is completed before the drop pass starts;
      if it cannot be built the bundle is left as it was. */
  method Extract(h: OpenIgcDoc, request: seq<string>, ancestors: Lookup, children: Lookup) returns (r: Result<nat>)
    requires h.Valid()
    modifies h
    ensures h.Valid()
    ensures Closure(request, ancestors, children).Err? ==>
      r == Err(Closure(request, ancestors, children).msg) && h.nodes == old(h.nodes) && h.changed == old(h.changed)
    ensures var es := Assets(old(h.nodes));
      r.Ok? ==>
        && Closure(request, ancestors, children).Ok?
        && DetachedExactly(old(h.nodes), h.nodes, DropSet(old(h.nodes), es, Closure(request, ancestors, children).value))
        && r.value == |KeptAmong(old(h.nodes), es, Closure(request, ancestors, children).value)|
        && h.changed == (old(h.changed) || DropSet(old(h.nodes), es, Closure(request, ancestors, children).value) != {})
    ensures var es := Assets(old(h.nodes));
      Closure(request, ancestors, children).Ok? ==>
        (r.Ok? <==> forall j :: 0 <= j < |es| ==> IdAttr in old(h.nodes)[es[j]].attrs)
    ensures var es := Assets(old(h.nodes));
      Closure(request, ancestors, children).Ok? && r.Err? ==>
        r.msg == NoIdError && exists k :: (0 <= k < |es| && IdAttr !in old(h.nodes)[es[k]].attrs &&
          DetachedExactly(old(h.nodes), h.nodes, DropSet(old(h.nodes), es[..k], Closure(request, ancestors, children).value)))
  {
    var keep := KeepClosure(request, ancestors, children);
    if keep.Err? {
      return Err(keep.msg);
    }
    r := DropUnkept(h, keep.value);
  }

  /** An asset whose rid was requested, or is an ancestor or child of a
      requested rid, survives the drop pass. */
  lemma {:induction false} ReachedSurvives(nodes: seq<Node>, request: seq<string>, ancestors: Lookup, children: Lookup, x: nat, i: nat)
    requires WellFormed(nodes) && Closure(request, ancestors, children).Ok?
    requires x < |nodes| && i < |request| && Rid(nodes, x).Ok?
    requires Reached(Rid(nodes, x).value, request[i], ancestors, children)
    ensures x !in DropSet(nodes, Assets(nodes), Closure(request, ancestors, children).value)
    ensures x in Assets(nodes) ==> x in KeptAmong(nodes, Assets(nodes), Closure(request, ancestors, children).value)
  {
    ClosureMembers(request, ancestors, children);
    assert forall j :: 0 <= j < |Assets(nodes)| ==> Assets(nodes)[j] in Assets(nodes);
  }
}
