/** The merge loop of `igc_merge_relationships`: every asset of every file is
    merged in turn into the local dictionaries, then the merged assets are
    listed in the order their keys first appeared. Each method is proved to
    compute the corresponding function of the `MergeRelationships` module. */
module MergeLoop {
  import opened Wrappers
  import opened Text
  import opened Lists
  import opened JsonModel
  import opened MergeRelationships

  /** What the loop produces for the parsed files: the consolidated list, or
      the first exception raised. */
  function Output(files: seq<seq<Record>>, identify: Json -> Ident): Result<seq<map<string, Json>>>
  {
    match MergeAll(Flatten(files), identify)
    case Err(msg) => Err(msg)
    case Ok(st) => Ok(Consolidated(st))
  }

  /** Merging one more asset. */
  lemma {:induction false} MergeSnoc(assets: seq<Record>, a: Record, identify: Json -> Ident)
    ensures MergeAll(assets + [a], identify)
         == match MergeAll(assets, identify)
            case Err(msg) => Err(msg)
            case Ok(s) => WithAsset(s, a, identify)
  {
    assert (assets + [a])[..|assets|] == assets;
  }

  /** A prefix of the files flattens to a prefix. */
  lemma {:induction false} FlattenMonotone(files: seq<seq<Record>>, n: nat)
    requires n <= |files|
    ensures Flatten(files[..n]) <= Flatten(files)
    decreases |files|
  {
    if n < |files| {
      assert files[..|files| - 1][..n] == files[..n];
      FlattenMonotone(files[..|files| - 1], n);
    } else {
      assert files[..n] == files;
    }
  }

  /** The relations of one list member (lines 171-177): each unseen mapped key
      is appended to the merged list and recorded as seen. */
  method MergeRelations(st: MergeState, k: Ident, p: string, rs: seq<Json>, identify: Json -> Ident)
    returns (r: Result<MergeState>)
    ensures r == WithRelations(st, k, p, rs, identify)
  {
    var cur := st;
    for i := 0 to |rs|
      invariant WithRelations(st, k, p, rs[..i], identify) == Ok(cur)
    {
      assert rs[..i + 1][..i] == rs[..i];
      var rid := identify(rs[i]);
      var seenK := SeenOf(cur, k);
      var known := if p in seenK then seenK[p] else [];
      if rid !in known {
        var mergedK := MergedOf(cur, k);
        if !(p in mergedK && mergedK[p].JList?) {
          RelationsErrSticks(st, k, p, rs, i + 1, identify);
          return Err("AttributeError: append on the non-list value of " + p);
        }
        cur := cur.(merged := cur.merged[k := mergedK[p := JList(mergedK[p].items + [JObj(rid)])]],
                    seen := cur.seen[k := seenK[p := known + [rid]]]);
      }
    }
    assert rs[..|rs|] == rs;
    return Ok(cur);
  }

  /** One more member continues the merge of the members before it. */
  lemma {:induction false} MembersStep(st: MergeState, k: Ident, ms: Record, j: nat, cur: MergeState, identify: Json -> Ident)
    requires j < |ms| && WithProperties(st, k, ms[..j], identify) == Ok(cur)
    ensures WithProperties(st, k, ms[..j + 1], identify) == WithProperty(cur, k, ms[j].0, ms[j].1, identify)
  {
    assert ms[..j + 1][..j] == ms[..j];
  }

  /** The members of one asset (lines 162-179). */
  method MergeMembers(st: MergeState, k: Ident, ms: Record, identify: Json -> Ident)
    returns (r: Result<MergeState>)
    ensures r == WithProperties(st, k, ms, identify)
  {
    var cur := st;
    for j := 0 to |ms|
      invariant WithProperties(st, k, ms[..j], identify) == Ok(cur)
    {
      MembersStep(st, k, ms, j, cur, identify);
      var (p, v) := ms[j];
      if !StartsWith(p, "_") {
        if v.JList? {
          var mergedK := MergedOf(cur, k);
          var seenK := SeenOf(cur, k);
          cur := cur.(merged := cur.merged[k := if p in mergedK then mergedK else mergedK[p := JList([])]],
                      seen := cur.seen[k := if p in seenK then seenK else seenK[p := []]]);
          var res := MergeRelations(cur, k, p, v.items, identify);
          if res.Err? {
            PropertiesErrSticks(st, k, ms, j + 1, identify);
            return res;
          }
          cur := res.value;
        } else {
          cur := cur.(merged := cur.merged[k := MergedOf(cur, k)[p := v]]);
        }
      }
    }
    assert ms[..|ms|] == ms;
    return Ok(cur);
  }

  /** The output list (lines 181-184): the merged assets in key order. */
  method Consolidate(st: MergeState) returns (out: seq<map<string, Json>>)
    requires forall k :: k in st.order ==> k in st.merged
    ensures out == Consolidated(st)
  {
    out := [];
    for i := 0 to |st.order|
      invariant |out| == i
      invariant forall j :: 0 <= j < i ==> out[j] == MergedOf(st, st.order[j])
    {
      out := out + [st.merged[st.order[i]]];
    }
  }

  /** One asset (lines 158-179): the first occurrence of its key creates the
      merged asset from its mapped identity, then its members are merged. */
  method MergeAsset(st: MergeState, a: Record, identify: Json -> Ident) returns (r: Result<MergeState>)
    ensures r == WithAsset(st, a, identify)
  {
    var k := IdentityOf(a, identify);
    var cur := st;
    if k !in cur.merged {
      cur := cur.(merged := cur.merged[k := k], order := cur.order + [k]);
    }
    r := MergeMembers(cur, k, a, identify);
  }

  /** The assets of one file (line 157), continuing from the state reached
      after the assets `before` it. */
  method MergeFile(st: MergeState, ghost before: seq<Record>, file: seq<Record>, identify: Json -> Ident)
    returns (r: Result<MergeState>)
    requires MergeAll(before, identify) == Ok(st)
    ensures r == MergeAll(before + file, identify)
  {
    var cur := st;
    assert before + file[..0] == before;
    for i := 0 to |file|
      invariant MergeAll(before + file[..i], identify) == Ok(cur)
    {
      FileStep(before, file, i, identify);
      var res := MergeAsset(cur, file[i], identify);
      if res.Err? {
        MergeErrSticks(before + file, before + file[..i + 1], identify);
        return res;
      }
      cur := res.value;
    }
    assert file[..|file|] == file;
    return Ok(cur);
  }

  /** One more asset of the file: the merge so far continues with it. */
  lemma {:induction false} FileStep(before: seq<Record>, file: seq<Record>, i: nat, identify: Json -> Ident)
    requires i < |file|
    ensures MergeAll(before + file[..i + 1], identify)
         == match MergeAll(before + file[..i], identify)
            case Err(msg) => Err(msg)
            case Ok(s) => WithAsset(s, file[i], identify)
  {
    assert file[..i + 1] == file[..i] + [file[i]];
    SeqAssoc(before, file[..i], [file[i]]);
    MergeSnoc(before + file[..i], file[i], identify);
  }

  /** `merge_count` as the module reports it: the result starts at 0 (lines
      127-130) and no later line updates it. */
  function MergeCountAsWritten(files: seq<seq<Record>>): nat
  {
    0
  }

  /** One file holding one asset without members: one asset is merged, yet
      the reported `merge_count` is 0. */
  lemma {:induction false} MergeCountAsWrittenMisses(identify: Json -> Ident)
    ensures var out := Output([[[]]], identify);
      && out.Ok? && |out.value| == 1 && MergeCountAsWritten([[[]]]) != |out.value|
  {
    var files: seq<seq<Record>> := [[[]]];
    assert files[..0] == [];
    assert Flatten(files) == [[]];
    var assets: seq<Record> := [[]];
    assert assets[..0] == [];
    var k := IdentityOf([], identify);
    assert MergeAll(assets, identify) == WithAsset(Start, [], identify);
    var created := Start.(merged := Start.merged[k := k], order := Start.order + [k]);
    assert created.order == [k];
    assert WithProperties(created, k, [], identify) == Ok(created);
    assert WithAsset(Start, [], identify) == Ok(created);
  }

  /** The intended `merge_count`, the length of the output, is the number
      of distinct asset keys across all files. */
  lemma {:induction false} MergeCountCounts(files: seq<seq<Record>>, identify: Json -> Ident)
    requires Output(files, identify).Ok?
    ensures var keys := Dedup(AssetKeys(Flatten(files), identify));
      && |Output(files, identify).value| == |keys| && NoDup(keys)
      && forall k :: k in keys <==> KeyedAsset(Flatten(files), identify, k)
  {
    MergeOrder(Flatten(files), identify);
    DedupKeys(Flatten(files), identify);
  }

  /** The whole loop (lines 142-184) over the parsed contents of the files,
      reporting as `mergeCount` the number of merged assets written. */
  method MergeFiles(files: seq<seq<Record>>, identify: Json -> Ident)
    returns (r: Result<seq<map<string, Json>>>, mergeCount: nat)
    ensures r == Output(files, identify)
    ensures r.Ok? ==> mergeCount == |r.value|
    ensures r.Err? ==> mergeCount == 0
  {
    mergeCount := 0;
    var cur := Start;
    for f := 0 to |files|
      invariant MergeAll(Flatten(files[..f]), identify) == Ok(cur)
    {
      assert files[..f + 1][..f] == files[..f];
      var res := MergeFile(cur, Flatten(files[..f]), files[f], identify);
      if res.Err? {
        FlattenMonotone(files, f + 1);
        MergeErrSticks(Flatten(files), Flatten(files[..f + 1]), identify);
        return Err(res.msg), mergeCount;
      }
      cur := res.value;
    }
    assert files[..|files|] == files;
    MergeOrder(Flatten(files), identify);
    var out := Consolidate(cur);
    r := Ok(out);
    mergeCount := |out|;
  }
}
