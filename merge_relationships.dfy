/** Merging relationship files: assets are keyed by their mapped identity, the
    first occurrence creates the merged asset, list-valued properties collect
    the union of their mapped relations without repeats, and other properties
    keep the last value read. */
module MergeRelationships {
  import opened Wrappers
  import opened Text
  import opened Lists
  import opened JsonModel

  /** A mapped identity (the dictionary `get_mapped_identity` yields); its JSON
      text is the key under which assets and relations are merged. */
  type Ident = map<string, Json>

  /** `mergedAssets` (merged asset by key), its insertion order, and `relnsForId`
      (relation keys seen per asset key and property). */
  datatype MergeState = MergeState(
    merged: map<Ident, map<string, Json>>,
    order: seq<Ident>,
    seen: map<Ident, map<string, seq<Ident>>>)

  const Start := MergeState(map[], [], map[])

  function MergedOf(st: MergeState, k: Ident): map<string, Json>
  {
    if k in st.merged then st.merged[k] else map[]
  }

  function SeenOf(st: MergeState, k: Ident): map<string, seq<Ident>>
  {
    if k in st.seen then st.seen[k] else map[]
  }

  /** What the state holds for one property of one merged asset. */
  function Entry(st: MergeState, k: Ident, p: string): (Option<Json>, Option<seq<Ident>>)
  {
    (if p in MergedOf(st, k) then Some(MergedOf(st, k)[p]) else None,
     if p in SeenOf(st, k) then Some(SeenOf(st, k)[p]) else None)
  }

  /** One relation of property `p` of the asset keyed `k`: appended (mapped)
      unless its key was seen; appending to a non-list value raises. */
  function WithRelation(st: MergeState, k: Ident, p: string, r: Json, identify: Json -> Ident): Result<MergeState>
  {
    var rid := identify(r);
    var seenK := SeenOf(st, k);
    var known := if p in seenK then seenK[p] else [];
    if rid in known then Ok(st)
    else
      var mergedK := MergedOf(st, k);
      if p in mergedK && mergedK[p].JList? then
        Ok(st.(merged := st.merged[k := mergedK[p := JList(mergedK[p].items + [JObj(rid)])]],
               seen := st.seen[k := seenK[p := known + [rid]]]))
      else Err("AttributeError: append on the non-list value of " + p)
  }

  function WithRelations(st: MergeState, k: Ident, p: string, rs: seq<Json>, identify: Json -> Ident): Result<MergeState>
    decreases |rs|
  {
    if rs == [] then Ok(st)
    else match WithRelations(st, k, p, rs[..|rs| - 1], identify)
      case Err(msg) => Err(msg)
      case Ok(s) => WithRelation(s, k, p, rs[|rs| - 1], identify)
  }

  /** One member of an asset: `_` members are skipped, a list starts (if absent)
      the merged list and its seen keys and adds its relations, anything else
      overwrites. */
  function WithProperty(st: MergeState, k: Ident, p: string, v: Json, identify: Json -> Ident): Result<MergeState>
  {
    if StartsWith(p, "_") then Ok(st)
    else if v.JList? then
      var mergedK := MergedOf(st, k);
      var seenK := SeenOf(st, k);
      var started := st.(merged := st.merged[k := if p in mergedK then mergedK else mergedK[p := JList([])]],
                         seen := st.seen[k := if p in seenK then seenK else seenK[p := []]]);
      WithRelations(started, k, p, v.items, identify)
    else Ok(st.(merged := st.merged[k := MergedOf(st, k)[p := v]]))
  }

  function WithProperties(st: MergeState, k: Ident, members: Record, identify: Json -> Ident): Result<MergeState>
    decreases |members|
  {
    if members == [] then Ok(st)
    else match WithProperties(st, k, members[..|members| - 1], identify)
      case Err(msg) => Err(msg)
      case Ok(s) => WithProperty(s, k, members[|members| - 1].0, members[|members| - 1].1, identify)
  }

  function IdentityOf(a: Record, identify: Json -> Ident): Ident
  {
    identify(JObj(ToMap(a)))
  }

  /** One asset: the first occurrence of its key creates the merged asset from
      its mapped identity; then its members are merged in. */
  function WithAsset(st: MergeState, a: Record, identify: Json -> Ident): Result<MergeState>
  {
    var k := IdentityOf(a, identify);
    var created := if k in st.merged then st else st.(merged := st.merged[k := k], order := st.order + [k]);
    WithProperties(created, k, a, identify)
  }

  /** All assets, in file order and then in order within each file. */
  function MergeAll(assets: seq<Record>, identify: Json -> Ident): Result<MergeState>
    decreases |assets|
  {
    if assets == [] then Ok(Start)
    else match MergeAll(assets[..|assets| - 1], identify)
      case Err(msg) => Err(msg)
      case Ok(s) => WithAsset(s, assets[|assets| - 1], identify)
  }

  function Flatten(files: seq<seq<Record>>): seq<Record>
    decreases |files|
  {
    if files == [] then [] else Flatten(files[..|files| - 1]) + files[|files| - 1]
  }

  /** The output list: each merged asset in the order its key first appeared. */
  function Consolidated(st: MergeState): (r: seq<map<string, Json>>)
    ensures |r| == |st.order|
    ensures forall i :: 0 <= i < |r| ==> r[i] == MergedOf(st, st.order[i])
  {
    seq(|st.order|, i requires 0 <= i < |st.order| => MergedOf(st, st.order[i]))
  }

  // ---------------------------------------------------------------------------
  // Failures stick

  /** The first failure is the outcome: later relations are not looked at. */
  lemma {:induction false} RelationsErrSticks(st: MergeState, k: Ident, p: string, rs: seq<Json>, n: nat, identify: Json -> Ident)
    requires n <= |rs| && WithRelations(st, k, p, rs[..n], identify).Err?
    ensures WithRelations(st, k, p, rs, identify) == WithRelations(st, k, p, rs[..n], identify)
    decreases |rs|
  {
    if n < |rs| {
      assert rs[..|rs| - 1][..n] == rs[..n];
      RelationsErrSticks(st, k, p, rs[..|rs| - 1], n, identify);
    } else {
      assert rs[..n] == rs;
    }
  }

  lemma {:induction false} PropertiesErrSticks(st: MergeState, k: Ident, ms: Record, n: nat, identify: Json -> Ident)
    requires n <= |ms| && WithProperties(st, k, ms[..n], identify).Err?
    ensures WithProperties(st, k, ms, identify) == WithProperties(st, k, ms[..n], identify)
    decreases |ms|
  {
    if n < |ms| {
      assert ms[..|ms| - 1][..n] == ms[..n];
      PropertiesErrSticks(st, k, ms[..|ms| - 1], n, identify);
    } else {
      assert ms[..n] == ms;
    }
  }

  lemma {:induction false} MergeErrSticks(assets: seq<Record>, before: seq<Record>, identify: Json -> Ident)
    requires before <= assets && MergeAll(before, identify).Err?
    ensures MergeAll(assets, identify) == MergeAll(before, identify)
    decreases |assets|
  {
    if |before| < |assets| {
      assert before <= assets[..|assets| - 1];
      MergeErrSticks(assets[..|assets| - 1], before, identify);
    } else {
      assert before == assets;
    }
  }

  // ---------------------------------------------------------------------------
  // Frames: merging one property touches only that property of that asset

  ghost predicate SameElsewhere(st: MergeState, st': MergeState, k: Ident, p: string)
  {
    && st'.order == st.order
    && (forall k' :: k' in st.merged ==> k' in st'.merged)
    && (forall k' :: k' in st'.merged ==> k' in st.merged || k' == k)
    && forall k': Ident, p': string :: (k' != k || p' != p) ==> Entry(st', k', p') == Entry(st, k', p')
  }

  lemma {:induction false} RelationsFrame(st: MergeState, k: Ident, p: string, rs: seq<Json>, identify: Json -> Ident)
    requires WithRelations(st, k, p, rs, identify).Ok?
    ensures var st' := WithRelations(st, k, p, rs, identify).value;
      SameElsewhere(st, st', k, p) && (k in st'.merged <==> k in st.merged)
    decreases |rs|
  {
    if rs != [] {
      RelationsFrame(st, k, p, rs[..|rs| - 1], identify);
      var mid := WithRelations(st, k, p, rs[..|rs| - 1], identify).value;
      assert WithRelations(st, k, p, rs, identify) == WithRelation(mid, k, p, rs[|rs| - 1], identify);
      RelationFrame(mid, k, p, rs[|rs| - 1], identify);
      SameElsewhereTrans(st, mid, WithRelations(st, k, p, rs, identify).value, k, p);
    }
  }

  lemma {:induction false} RelationFrame(st: MergeState, k: Ident, p: string, r: Json, identify: Json -> Ident)
    requires WithRelation(st, k, p, r, identify).Ok?
    ensures var st' := WithRelation(st, k, p, r, identify).value;
      SameElsewhere(st, st', k, p) && (k in st'.merged <==> k in st.merged)
  {
    var st' := WithRelation(st, k, p, r, identify).value;
    if st' != st {
      StartFrame(st, st', k, p);
    }
  }

  lemma {:induction false} SameElsewhereTrans(a: MergeState, b: MergeState, c: MergeState, k: Ident, p: string)
    requires SameElsewhere(a, b, k, p) && SameElsewhere(b, c, k, p)
    ensures SameElsewhere(a, c, k, p)
  {
  }

  lemma {:induction false} PropertyFrame(st: MergeState, k: Ident, p: string, v: Json, identify: Json -> Ident)
    requires WithProperty(st, k, p, v, identify).Ok?
    ensures SameElsewhere(st, WithProperty(st, k, p, v, identify).value, k, p)
  {
    if StartsWith(p, "_") {
    } else if v.JList? {
      var mergedK := MergedOf(st, k);
      var seenK := SeenOf(st, k);
      var started := st.(merged := st.merged[k := if p in mergedK then mergedK else mergedK[p := JList([])]],
                         seen := st.seen[k := if p in seenK then seenK else seenK[p := []]]);
      StartFrame(st, started, k, p);
      RelationsFrame(started, k, p, v.items, identify);
    } else {
      var st' := st.(merged := st.merged[k := MergedOf(st, k)[p := v]]);
      StartFrame(st, st', k, p);
    }
  }

  /** Replacing the merged asset or the seen keys of `k` at `p` alone. */
  lemma {:induction false} StartFrame(st: MergeState, st': MergeState, k: Ident, p: string)
    requires st'.order == st.order
    requires k in st'.merged && st'.merged == st.merged[k := st'.merged[k]] && st'.seen.Keys <= st.seen.Keys + {k}
    requires forall k' :: k' in st.seen && k' != k ==> k' in st'.seen && st'.seen[k'] == st.seen[k']
    requires forall p' :: p' != p ==> (p' in MergedOf(st', k) <==> p' in MergedOf(st, k))
    requires forall p' :: p' != p && p' in MergedOf(st, k) ==> MergedOf(st', k)[p'] == MergedOf(st, k)[p']
    requires forall p' :: p' != p ==> (p' in SeenOf(st', k) <==> p' in SeenOf(st, k))
    requires forall p' :: p' != p && p' in SeenOf(st, k) ==> SeenOf(st', k)[p'] == SeenOf(st, k)[p']
    ensures SameElsewhere(st, st', k, p)
  {
    forall k': Ident, p': string | k' != k || p' != p
      ensures Entry(st', k', p') == Entry(st, k', p')
    {
      if k' != k {
        assert MergedOf(st', k') == MergedOf(st, k');
        assert SeenOf(st', k') == SeenOf(st, k');
      }
    }
  }

  /** Merging an asset's members touches only the members it has. */
  lemma {:induction false} PropertiesFrame(st: MergeState, k: Ident, ms: Record, identify: Json -> Ident)
    requires WithProperties(st, k, ms, identify).Ok?
    ensures var st' := WithProperties(st, k, ms, identify).value;
      && st'.order == st.order
      && (forall k' :: k' in st.merged ==> k' in st'.merged)
      && (forall k' :: k' in st'.merged ==> k' in st.merged || k' == k)
      && forall k': Ident, p': string :: (k' != k || forall i :: 0 <= i < |ms| ==> ms[i].0 != p') ==> Entry(st', k', p') == Entry(st, k', p')
    decreases |ms|
  {
    if ms != [] {
      var init := ms[..|ms| - 1];
      PropertiesFrame(st, k, init, identify);
      var mid := WithProperties(st, k, init, identify).value;
      PropertyFrame(mid, k, ms[|ms| - 1].0, ms[|ms| - 1].1, identify);
      forall k': Ident, p': string | k' != k || forall i :: 0 <= i < |ms| ==> ms[i].0 != p'
        ensures Entry(WithProperties(st, k, ms, identify).value, k', p') == Entry(st, k', p')
      {
        if k' == k {
          assert forall i :: 0 <= i < |init| ==> init[i].0 != p' by {
            forall i | 0 <= i < |init| ensures init[i].0 != p' {
              assert init[i] == ms[i];
            }
          }
        }
      }
    }
  }

  // ---------------------------------------------------------------------------
  // Each merged asset appears once

  /** The keys of the assets, one per asset. */
  function AssetKeys(assets: seq<Record>, identify: Json -> Ident): (r: seq<Ident>)
    ensures |r| == |assets|
    ensures forall i :: 0 <= i < |assets| ==> r[i] == IdentityOf(assets[i], identify)
    decreases |assets|
  {
    if assets == [] then [] else AssetKeys(assets[..|assets| - 1], identify) + [IdentityOf(assets[|assets| - 1], identify)]
  }

  /** One asset adds its key to the order and to the merged assets when the
      key is new, and nothing else. */
  lemma {:induction false} WithAssetKeys(st: MergeState, a: Record, identify: Json -> Ident)
    requires WithAsset(st, a, identify).Ok?
    ensures var k := IdentityOf(a, identify);
      var st' := WithAsset(st, a, identify).value;
      && st'.order == (if k in st.merged then st.order else st.order + [k])
      && forall k' :: k' in st'.merged <==> k' in st.merged || k' == k
  {
    var k := IdentityOf(a, identify);
    var created := if k in st.merged then st else st.(merged := st.merged[k := k], order := st.order + [k]);
    PropertiesFrame(created, k, a, identify);
  }

  /** The output order is the asset keys without repeats, first-seen first,
      and the merged assets are exactly those keys. */
  lemma {:induction false} MergeOrder(assets: seq<Record>, identify: Json -> Ident)
    requires MergeAll(assets, identify).Ok?
    ensures var st := MergeAll(assets, identify).value;
      && st.order == Dedup(AssetKeys(assets, identify))
      && (forall k :: k in st.merged <==> k in st.order)
    decreases |assets|
  {
    if assets != [] {
      var keys := AssetKeys(assets, identify);
      var init := assets[..|assets| - 1];
      MergeOrder(init, identify);
      var s := MergeAll(init, identify).value;
      WithAssetKeys(s, assets[|assets| - 1], identify);
      assert keys[..|keys| - 1] == AssetKeys(init, identify);
      assert Dedup(keys) == AppendIfAbsent(Dedup(AssetKeys(init, identify)), keys[|keys| - 1]);
    }
  }

  /** Some asset of `assets` has the key `k`. */
  predicate KeyedAsset(assets: seq<Record>, identify: Json -> Ident, k: Ident)
  {
    exists i :: 0 <= i < |assets| && IdentityOf(assets[i], identify) == k
  }

  /** The asset keys without repeats hold each asset's key exactly once. */
  lemma {:induction false} DedupKeys(assets: seq<Record>, identify: Json -> Ident)
    ensures var order := Dedup(AssetKeys(assets, identify));
      && NoDup(order)
      && (forall k :: k in order <==> KeyedAsset(assets, identify, k))
  {
    var keys := AssetKeys(assets, identify);
    DedupMembers(keys);
    forall k ensures k in keys <==> KeyedAsset(assets, identify, k) {
      KeyOfSomeAsset(assets, identify, k);
    }
  }

  /** A key is among the asset keys exactly when some asset has it. */
  lemma {:induction false} KeyOfSomeAsset(assets: seq<Record>, identify: Json -> Ident, k: Ident)
    ensures k in AssetKeys(assets, identify) <==> KeyedAsset(assets, identify, k)
  {
    var keys := AssetKeys(assets, identify);
    if k in keys {
      var i :| 0 <= i < |keys| && keys[i] == k;
      assert IdentityOf(assets[i], identify) == k;
    }
    if KeyedAsset(assets, identify, k) {
      var i :| 0 <= i < |assets| && IdentityOf(assets[i], identify) == k;
      assert keys[i] == k;
    }
  }

  /** Every asset key appears in the output exactly once, and nothing else. */
  lemma {:induction false} MergeOrderUnique(assets: seq<Record>, identify: Json -> Ident)
    requires MergeAll(assets, identify).Ok?
    ensures var st := MergeAll(assets, identify).value;
      && NoDup(st.order)
      && (forall k :: k in st.order <==> KeyedAsset(assets, identify, k))
  {
    MergeOrder(assets, identify);
    DedupKeys(assets, identify);
  }

  // ---------------------------------------------------------------------------
  // Relations: the union without repeats, in first-seen order

  /** The mapped keys of the relations in a list. */
  function RelationKeys(rs: seq<Json>, identify: Json -> Ident): (r: seq<Ident>)
    ensures |r| == |rs|
    ensures forall i :: 0 <= i < |rs| ==> r[i] == identify(rs[i])
    decreases |rs|
  {
    if rs == [] then [] else RelationKeys(rs[..|rs| - 1], identify) + [identify(rs[|rs| - 1])]
  }

  function AsObjects(ids: seq<Ident>): seq<Json>
  {
    seq(|ids|, i requires 0 <= i < |ids| => JObj(ids[i]))
  }

  /** The relation keys property `p` contributes across the members of one asset. */
  function MemberRelations(ms: Record, p: string, identify: Json -> Ident): seq<Ident>
    decreases |ms|
  {
    if ms == [] then []
    else
      var m := ms[|ms| - 1];
      MemberRelations(ms[..|ms| - 1], p, identify)
      + (if m.0 == p && m.1.JList? then RelationKeys(m.1.items, identify) else [])
  }

  /** The relation keys property `p` contributes across all assets keyed `k`. */
  function AllRelations(assets: seq<Record>, k: Ident, p: string, identify: Json -> Ident): seq<Ident>
    decreases |assets|
  {
    if assets == [] then []
    else
      var a := assets[|assets| - 1];
      AllRelations(assets[..|assets| - 1], k, p, identify)
      + (if IdentityOf(a, identify) == k then MemberRelations(a, p, identify) else [])
  }

  predicate HasMember(ms: Record, p: string)
  {
    exists i :: 0 <= i < |ms| && ms[i].0 == p
  }

  /** Some asset keyed `k` has a member `p`. */
  predicate Occurs(assets: seq<Record>, k: Ident, p: string, identify: Json -> Ident)
  {
    exists i :: 0 <= i < |assets| && IdentityOf(assets[i], identify) == k && HasMember(assets[i], p)
  }

  /** Every member `p` of an asset keyed `k` is a list. */
  predicate ListValued(assets: seq<Record>, k: Ident, p: string, identify: Json -> Ident)
  {
    forall i, j :: 0 <= i < |assets| && 0 <= j < |assets[i]| && IdentityOf(assets[i], identify) == k && assets[i][j].0 == p
      ==> assets[i][j].1.JList?
  }

  /** The merged list of `p` holds exactly the seen keys, as objects. */
  predicate Tracks(st: MergeState, k: Ident, p: string, ids: seq<Ident>)
  {
    Entry(st, k, p) == (Some(JList(AsObjects(ids))), Some(ids))
  }

  lemma {:induction false} AsObjectsSnoc(ids: seq<Ident>, x: Ident)
    ensures AsObjects(ids + [x]) == AsObjects(ids) + [JObj(x)]
  {
  }

  /** Adding one relation to a tracked list adds its key unless it was seen. */
  lemma {:induction false} RelationTracked(st: MergeState, k: Ident, p: string, r: Json, ids: seq<Ident>, identify: Json -> Ident)
    requires Tracks(st, k, p, ids)
    ensures WithRelation(st, k, p, r, identify).Ok?
    ensures Tracks(WithRelation(st, k, p, r, identify).value, k, p, AppendIfAbsent(ids, identify(r)))
  {
    if identify(r) !in ids {
      AsObjectsSnoc(ids, identify(r));
    }
  }

  /** Adding relations to a tracked list adds exactly their unseen keys. */
  lemma {:induction false} RelationsTracked(st: MergeState, k: Ident, p: string, rs: seq<Json>, ids: seq<Ident>, identify: Json -> Ident)
    requires Tracks(st, k, p, ids)
    ensures WithRelations(st, k, p, rs, identify).Ok?
    ensures Tracks(WithRelations(st, k, p, rs, identify).value, k, p, AddNew(ids, RelationKeys(rs, identify)))
    decreases |rs|
  {
    if rs != [] {
      var init := rs[..|rs| - 1];
      var r := rs[|rs| - 1];
      RelationsTracked(st, k, p, init, ids, identify);
      var mid := WithRelations(st, k, p, init, identify).value;
      var cur := AddNew(ids, RelationKeys(init, identify));
      RelationTracked(mid, k, p, r, cur, identify);
      AddNewAppend(ids, RelationKeys(init, identify), [identify(r)]);
      assert AddNew(cur, [identify(r)]) == AppendIfAbsent(cur, identify(r)) by {
        assert [identify(r)][..0] == [];
      }
    }
  }

  /** Merging one list member `p` into a tracked (or not yet started) entry. */
  lemma {:induction false} PropertyTracked(st: MergeState, k: Ident, p: string, v: Json, ids: seq<Ident>, started: bool, identify: Json -> Ident)
    requires !StartsWith(p, "_") && v.JList?
    requires started ==> Tracks(st, k, p, ids)
    requires !started ==> Entry(st, k, p) == (None, None) && ids == []
    ensures WithProperty(st, k, p, v, identify).Ok?
    ensures Tracks(WithProperty(st, k, p, v, identify).value, k, p, AddNew(ids, RelationKeys(v.items, identify)))
  {
    var mergedK := MergedOf(st, k);
    var seenK := SeenOf(st, k);
    var s1 := st.(merged := st.merged[k := if p in mergedK then mergedK else mergedK[p := JList([])]],
                  seen := st.seen[k := if p in seenK then seenK else seenK[p := []]]);
    assert AsObjects([]) == [];
    assert Tracks(s1, k, p, ids);
    RelationsTracked(s1, k, p, v.items, ids, identify);
  }

  /** Over the members of one asset. */
  lemma {:induction false} PropertiesTracked(st: MergeState, k: Ident, p: string, ms: Record, ids: seq<Ident>, started: bool, identify: Json -> Ident)
    requires !StartsWith(p, "_")
    requires forall j :: 0 <= j < |ms| && ms[j].0 == p ==> ms[j].1.JList?
    requires started ==> Tracks(st, k, p, ids)
    requires !started ==> Entry(st, k, p) == (None, None) && ids == []
    requires WithProperties(st, k, ms, identify).Ok?
    ensures var st' := WithProperties(st, k, ms, identify).value;
      if started || HasMember(ms, p) then Tracks(st', k, p, AddNew(ids, MemberRelations(ms, p, identify)))
      else Entry(st', k, p) == (None, None)
    decreases |ms|
  {
    if ms != [] {
      var init := ms[..|ms| - 1];
      var m := ms[|ms| - 1];
      assert forall j :: 0 <= j < |init| && init[j].0 == p ==> init[j].1.JList? by {
        forall j | 0 <= j < |init| && init[j].0 == p ensures init[j].1.JList? {
          assert init[j] == ms[j];
        }
      }
      PropertiesTracked(st, k, p, init, ids, started, identify);
      var mid := WithProperties(st, k, init, identify).value;
      var midIds := AddNew(ids, MemberRelations(init, p, identify));
      var midStarted := started || HasMember(init, p);
      HasMemberSnoc(ms, p);
      assert WithProperties(st, k, ms, identify) == WithProperty(mid, k, m.0, m.1, identify);
      var st' := WithProperties(st, k, ms, identify).value;
      if m.0 == p {
        assert !midStarted ==> MemberRelations(init, p, identify) == [] by {
          if !midStarted { NoMemberNoRelations(init, p, identify); }
        }
        var fromIds := if midStarted then midIds else [];
        PropertyTracked(mid, k, p, m.1, fromIds, midStarted, identify);
        assert fromIds == midIds;
        AddNewAppend(ids, MemberRelations(init, p, identify), RelationKeys(m.1.items, identify));
        assert MemberRelations(ms, p, identify) == MemberRelations(init, p, identify) + RelationKeys(m.1.items, identify);
        assert Tracks(st', k, p, AddNew(ids, MemberRelations(ms, p, identify)));
      } else {
        PropertyFrame(mid, k, m.0, m.1, identify);
        assert Entry(st', k, p) == Entry(mid, k, p);
        assert MemberRelations(ms, p, identify) == MemberRelations(init, p, identify) + [];
        assert MemberRelations(init, p, identify) + [] == MemberRelations(init, p, identify);
      }
    }
  }

  /** A record has member `p` if its front does or its last member is `p`. */
  lemma {:induction false} HasMemberSnoc(ms: Record, p: string)
    requires ms != []
    ensures HasMember(ms, p) <==> HasMember(ms[..|ms| - 1], p) || ms[|ms| - 1].0 == p
  {
    var init := ms[..|ms| - 1];
    if HasMember(ms, p) {
      var i :| 0 <= i < |ms| && ms[i].0 == p;
      if i < |init| { assert init[i] == ms[i]; }
    }
    if HasMember(init, p) {
      var i :| 0 <= i < |init| && init[i].0 == p;
      assert ms[i] == init[i];
    }
  }

  lemma {:induction false} NoMemberNoRelations(ms: Record, p: string, identify: Json -> Ident)
    requires !HasMember(ms, p)
    ensures MemberRelations(ms, p, identify) == []
    decreases |ms|
  {
    if ms != [] {
      var init := ms[..|ms| - 1];
      HasMemberSnoc(ms, p);
      NoMemberNoRelations(init, p, identify);
    }
  }

  /** For a property that is a list wherever it occurs and that the mapped
      identity lacks, the merged value is the duplicate-free union of the mapped
      relations of every occurrence, in first-seen order. */
  lemma {:induction false} MergedRelations(assets: seq<Record>, k: Ident, p: string, identify: Json -> Ident)
    requires !StartsWith(p, "_") && p !in k
    requires ListValued(assets, k, p, identify)
    requires MergeAll(assets, identify).Ok?
    ensures var st := MergeAll(assets, identify).value;
      if Occurs(assets, k, p, identify) then
        && Tracks(st, k, p, Dedup(AllRelations(assets, k, p, identify)))
        && NoDup(Dedup(AllRelations(assets, k, p, identify)))
      else Entry(st, k, p) == (None, None)
    decreases |assets|
  {
    DedupProperties(AllRelations(assets, k, p, identify), []);
    if assets != [] {
      var init := assets[..|assets| - 1];
      ListValuedSnoc(assets, k, p, identify);
      MergedRelations(init, k, p, identify);
      if IdentityOf(assets[|assets| - 1], identify) == k {
        MergedRelationsOwn(assets, k, p, identify);
      } else {
        MergedRelationsOther(assets, k, p, identify);
      }
    }
  }

  /** What `MergedRelations` states of the assets merged so far. */
  ghost predicate RelationsMerged(assets: seq<Record>, k: Ident, p: string, identify: Json -> Ident)
    requires MergeAll(assets, identify).Ok?
  {
    var st := MergeAll(assets, identify).value;
    if Occurs(assets, k, p, identify) then
      && Tracks(st, k, p, Dedup(AllRelations(assets, k, p, identify)))
      && NoDup(Dedup(AllRelations(assets, k, p, identify)))
    else Entry(st, k, p) == (None, None)
  }

  /** The step of `MergedRelations` for a last asset whose key is `k`. */
  lemma {:induction false} MergedRelationsOwn(assets: seq<Record>, k: Ident, p: string, identify: Json -> Ident)
    requires !StartsWith(p, "_") && p !in k
    requires assets != [] && ListValued(assets, k, p, identify)
    requires MergeAll(assets, identify).Ok? && MergeAll(assets[..|assets| - 1], identify).Ok?
    requires IdentityOf(assets[|assets| - 1], identify) == k
    requires RelationsMerged(assets[..|assets| - 1], k, p, identify)
    ensures RelationsMerged(assets, k, p, identify)
  {
    DedupProperties(AllRelations(assets, k, p, identify), []);
    var init := assets[..|assets| - 1];
    var a := assets[|assets| - 1];
    ListValuedSnoc(assets, k, p, identify);
    var s := MergeAll(init, identify).value;
    var created := if k in s.merged then s else s.(merged := s.merged[k := k], order := s.order + [k]);
    assert MergeAll(assets, identify) == WithProperties(created, k, a, identify);
    var started := Occurs(init, k, p, identify);
    OccursSnoc(assets, k, p, identify);
    var ids := Dedup(AllRelations(init, k, p, identify));
    assert Entry(created, k, p) == Entry(s, k, p);
    assert !started ==> ids == [] by {
      if !started {
        NoOccurrenceNoRelations(init, k, p, identify);
      }
    }
    PropertiesTracked(created, k, p, a, ids, started, identify);
    AddNewAppend([], AllRelations(init, k, p, identify), MemberRelations(a, p, identify));
    assert AllRelations(assets, k, p, identify) == AllRelations(init, k, p, identify) + MemberRelations(a, p, identify);
  }

  /** The step of `MergedRelations` for a last asset with another key. */
  lemma {:induction false} MergedRelationsOther(assets: seq<Record>, k: Ident, p: string, identify: Json -> Ident)
    requires !StartsWith(p, "_") && p !in k
    requires assets != []
    requires MergeAll(assets, identify).Ok? && MergeAll(assets[..|assets| - 1], identify).Ok?
    requires IdentityOf(assets[|assets| - 1], identify) != k
    requires RelationsMerged(assets[..|assets| - 1], k, p, identify)
    ensures RelationsMerged(assets, k, p, identify)
  {
    DedupProperties(AllRelations(assets, k, p, identify), []);
    var init := assets[..|assets| - 1];
    var a := assets[|assets| - 1];
    var s := MergeAll(init, identify).value;
    var ka := IdentityOf(a, identify);
    var created := if ka in s.merged then s else s.(merged := s.merged[ka := ka], order := s.order + [ka]);
    assert MergeAll(assets, identify) == WithProperties(created, ka, a, identify);
    OccursSnoc(assets, k, p, identify);
    assert Entry(created, k, p) == Entry(s, k, p);
    PropertiesFrame(created, ka, a, identify);
    assert AllRelations(assets, k, p, identify) == AllRelations(init, k, p, identify) + [];
    assert AllRelations(init, k, p, identify) + [] == AllRelations(init, k, p, identify);
  }

  /** The front of the assets keeps `ListValued`, and the last asset's members
      `p` are lists when its key is `k`. */
  lemma {:induction false} ListValuedSnoc(assets: seq<Record>, k: Ident, p: string, identify: Json -> Ident)
    requires assets != [] && ListValued(assets, k, p, identify)
    ensures ListValued(assets[..|assets| - 1], k, p, identify)
    ensures var a := assets[|assets| - 1];
      IdentityOf(a, identify) == k ==> forall j :: 0 <= j < |a| && a[j].0 == p ==> a[j].1.JList?
  {
    var init := assets[..|assets| - 1];
    forall i, j | 0 <= i < |init| && 0 <= j < |init[i]| && IdentityOf(init[i], identify) == k && init[i][j].0 == p
      ensures init[i][j].1.JList?
    {
      assert init[i] == assets[i];
    }
  }

  /** `p` occurs under `k` in the assets if it does in the front or in the last. */
  lemma {:induction false} OccursSnoc(assets: seq<Record>, k: Ident, p: string, identify: Json -> Ident)
    requires assets != []
    ensures var init := assets[..|assets| - 1]; var a := assets[|assets| - 1];
      Occurs(assets, k, p, identify) <==> Occurs(init, k, p, identify) || (IdentityOf(a, identify) == k && HasMember(a, p))
  {
    var init := assets[..|assets| - 1];
    if Occurs(assets, k, p, identify) {
      var i :| 0 <= i < |assets| && IdentityOf(assets[i], identify) == k && HasMember(assets[i], p);
      if i < |init| { assert init[i] == assets[i]; }
    }
    if Occurs(init, k, p, identify) {
      var i :| 0 <= i < |init| && IdentityOf(init[i], identify) == k && HasMember(init[i], p);
      assert assets[i] == init[i];
    }
  }

  lemma {:induction false} NoOccurrenceNoRelations(assets: seq<Record>, k: Ident, p: string, identify: Json -> Ident)
    requires !Occurs(assets, k, p, identify)
    ensures AllRelations(assets, k, p, identify) == []
    decreases |assets|
  {
    if assets != [] {
      var init := assets[..|assets| - 1];
      var a := assets[|assets| - 1];
      OccursSnoc(assets, k, p, identify);
      NoOccurrenceNoRelations(init, k, p, identify);
      if IdentityOf(a, identify) == k {
        NoMemberNoRelations(a, p, identify);
      }
    }
  }

  // ---------------------------------------------------------------------------
  // Other members: the last value read wins

  /** Within one asset, a non-list member that is the last of its name sets the
      merged value. */
  lemma {:induction false} MemberLastWins(st: MergeState, k: Ident, ms: Record, j: nat, identify: Json -> Ident)
    requires j < |ms| && !StartsWith(ms[j].0, "_") && !ms[j].1.JList?
    requires forall j' :: j < j' < |ms| ==> ms[j'].0 != ms[j].0
    requires WithProperties(st, k, ms, identify).Ok?
    ensures var merged := MergedOf(WithProperties(st, k, ms, identify).value, k);
      ms[j].0 in merged && merged[ms[j].0] == ms[j].1
    decreases |ms|
  {
    var init := ms[..|ms| - 1];
    var mid := WithProperties(st, k, init, identify).value;
    var m := ms[|ms| - 1];
    assert WithProperties(st, k, ms, identify) == WithProperty(mid, k, m.0, m.1, identify);
    if j < |ms| - 1 {
      assert init[j] == ms[j];
      MemberLastWins(st, k, init, j, identify);
      PropertyFrame(mid, k, m.0, m.1, identify);
      assert Entry(WithProperties(st, k, ms, identify).value, k, ms[j].0) == Entry(mid, k, ms[j].0);
    } else {
      assert WithProperty(mid, k, m.0, m.1, identify) == Ok(mid.(merged := mid.merged[k := MergedOf(mid, k)[m.0 := m.1]]));
    }
  }

  /** A non-list member (not starting with `_`) keeps the value of its last
      occurrence over all assets with the same key. */
  lemma {:induction false} ScalarLastWins(assets: seq<Record>, i: nat, j: nat, identify: Json -> Ident)
    requires i < |assets| && j < |assets[i]|
    requires !StartsWith(assets[i][j].0, "_") && !assets[i][j].1.JList?
    requires forall j' :: j < j' < |assets[i]| ==> assets[i][j'].0 != assets[i][j].0
    requires forall i' :: (i < i' < |assets| && IdentityOf(assets[i'], identify) == IdentityOf(assets[i], identify))
                          ==> !HasMember(assets[i'], assets[i][j].0)
    requires MergeAll(assets, identify).Ok?
    ensures var merged := MergedOf(MergeAll(assets, identify).value, IdentityOf(assets[i], identify));
      assets[i][j].0 in merged && merged[assets[i][j].0] == assets[i][j].1
    decreases |assets|
  {
    var k := IdentityOf(assets[i], identify);
    var p := assets[i][j].0;
    var init := assets[..|assets| - 1];
    var a := assets[|assets| - 1];
    var s := MergeAll(init, identify).value;
    var ka := IdentityOf(a, identify);
    var created := if ka in s.merged then s else s.(merged := s.merged[ka := ka], order := s.order + [ka]);
    assert MergeAll(assets, identify) == WithProperties(created, ka, a, identify);
    if i == |assets| - 1 {
      MemberLastWins(created, ka, a, j, identify);
    } else {
      assert init[i] == assets[i];
      forall i' | i < i' < |init| && IdentityOf(init[i'], identify) == k
        ensures !HasMember(init[i'], p)
      {
        assert init[i'] == assets[i'];
      }
      ScalarLastWins(init, i, j, identify);
      assert k in s.merged;
      assert Entry(created, k, p) == Entry(s, k, p);
      PropertiesFrame(created, ka, a, identify);
    }
  }

  // ---------------------------------------------------------------------------
  // Members starting with `_` are never merged

  /** Merging the members of one asset leaves every `_` entry alone. */
  lemma {:induction false} UnderscoreFrame(st: MergeState, k: Ident, ms: Record, k': Ident, p: string, identify: Json -> Ident)
    requires StartsWith(p, "_")
    requires WithProperties(st, k, ms, identify).Ok?
    ensures Entry(WithProperties(st, k, ms, identify).value, k', p) == Entry(st, k', p)
    decreases |ms|
  {
    if ms != [] {
      var init := ms[..|ms| - 1];
      var mid := WithProperties(st, k, init, identify).value;
      var m := ms[|ms| - 1];
      UnderscoreFrame(st, k, init, k', p, identify);
      if m.0 != p {
        PropertyFrame(mid, k, m.0, m.1, identify);
      }
    }
  }

  /** A merged asset holds a `_` member only when its mapped identity does, and
      then with the identity's value. */
  lemma {:induction false} UnderscoreFromIdentity(assets: seq<Record>, k: Ident, p: string, identify: Json -> Ident)
    requires StartsWith(p, "_")
    requires MergeAll(assets, identify).Ok?
    ensures var st := MergeAll(assets, identify).value;
      Entry(st, k, p).0 == (if k in st.merged && p in k then Some(k[p]) else None)
    decreases |assets|
  {
    if assets != [] {
      var init := assets[..|assets| - 1];
      var a := assets[|assets| - 1];
      UnderscoreFromIdentity(init, k, p, identify);
      var s := MergeAll(init, identify).value;
      var ka := IdentityOf(a, identify);
      var created := if ka in s.merged then s else s.(merged := s.merged[ka := ka], order := s.order + [ka]);
      assert MergeAll(assets, identify) == WithProperties(created, ka, a, identify);
      UnderscoreFrame(created, ka, a, k, p, identify);
      WithAssetKeys(s, a, identify);
    }
  }
}
