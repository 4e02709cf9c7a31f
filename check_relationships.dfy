/** `igc_check_relationships`: classify the properties found in a
    relationship file into native simple relations, native multi relations,
    native attributes, custom relations and custom attributes, each listed
    once in first-seen order. Whether a relation is simple and whether a type
    is supported by the asset-values import are classification rules kept as
    parameters. */
module CheckRelationships {
  import opened Text
  import opened Lists
  import opened RestModel

  datatype Kind = NativeSimple | NativeMulti | NativeAttribute | CustomRelation | CustomAttribute | Skipped

  /** The list a property goes to: `custom_` properties by whether they are
      lists; other non-`_` properties by whether they are lists and, if so, by
      the simplicity rule; `_` properties nowhere. */
  function KindOf(p: Prop, isSimple: string -> bool): Kind
  {
    if StartsWith(p.key, "custom_") then (if p.value.IsList() then CustomRelation else CustomAttribute)
    else if StartsWith(p.key, "_") then Skipped
    else if p.value.IsList() then (if isSimple(p.key) then NativeSimple else NativeMulti)
    else NativeAttribute
  }

  /** The module's result. */
  datatype Report = Report(
    supported: bool,
    nativeSimple: seq<string>,
    nativeMulti: seq<string>,
    nativeAttributes: seq<string>,
    customRelations: seq<string>,
    customAttributes: seq<string>)

  const Empty: Report := Report(false, [], [], [], [], [])

  /** The list of a kind. */
  function Listed(r: Report, k: Kind): seq<string>
  {
    match k
    case NativeSimple => r.nativeSimple
    case NativeMulti => r.nativeMulti
    case NativeAttribute => r.nativeAttributes
    case CustomRelation => r.customRelations
    case CustomAttribute => r.customAttributes
    case Skipped => []
  }

  /** One property recorded: its name is appended to its kind's list when not
      already there; nothing else changes. */
  function Recorded(r: Report, p: Prop, isSimple: string -> bool): (r': Report)
    ensures r'.supported == r.supported
    ensures forall k :: k != Skipped ==> Listed(r', k) == if k == KindOf(p, isSimple) then AppendIfAbsent(Listed(r, k), p.key) else Listed(r, k)
  {
    match KindOf(p, isSimple)
    case NativeSimple => r.(nativeSimple := AppendIfAbsent(r.nativeSimple, p.key))
    case NativeMulti => r.(nativeMulti := AppendIfAbsent(r.nativeMulti, p.key))
    case NativeAttribute => r.(nativeAttributes := AppendIfAbsent(r.nativeAttributes, p.key))
    case CustomRelation => r.(customRelations := AppendIfAbsent(r.customRelations, p.key))
    case CustomAttribute => r.(customAttributes := AppendIfAbsent(r.customAttributes, p.key))
    case Skipped => r
  }

  function RecordedAll(r: Report, props: seq<Prop>, isSimple: string -> bool): Report
    decreases |props|
  {
    if props == [] then r else Recorded(RecordedAll(r, props[..|props| - 1], isSimple), props[|props| - 1], isSimple)
  }

  /** The report after the given assets: each asset overwrites the supported
      flag with its own type's answer, then records its properties. */
  function ReportOf(assets: seq<Asset>, isSupported: string -> bool, isSimple: string -> bool): Report
    decreases |assets|
  {
    if assets == [] then Empty
    else
      var a := assets[|assets| - 1];
      RecordedAll(ReportOf(assets[..|assets| - 1], isSupported, isSimple).(supported := isSupported(a.typ)), a.props, isSimple)
  }

  // ---------------------------------------------------------------------------
  // What the report is

  /** The properties of all assets, in file order. */
  function AllProps(assets: seq<Asset>): seq<Prop>
    decreases |assets|
  {
    if assets == [] then [] else AllProps(assets[..|assets| - 1]) + assets[|assets| - 1].props
  }

  /** The names of the properties of a kind, in order, repeats included. */
  function NamesOfKind(k: Kind, props: seq<Prop>, isSimple: string -> bool): seq<string>
    decreases |props|
  {
    if props == [] then []
    else
      var p := props[|props| - 1];
      NamesOfKind(k, props[..|props| - 1], isSimple) + (if KindOf(p, isSimple) == k then [p.key] else [])
  }

  lemma {:induction false} NamesOfKindAppend(k: Kind, xs: seq<Prop>, ys: seq<Prop>, isSimple: string -> bool)
    ensures NamesOfKind(k, xs + ys, isSimple) == NamesOfKind(k, xs, isSimple) + NamesOfKind(k, ys, isSimple)
    decreases |ys|
  {
    if ys != [] {
      var init := ys[..|ys| - 1];
      assert (xs + ys)[..|xs + ys| - 1] == xs + init;
      NamesOfKindAppend(k, xs, init, isSimple);
    } else {
      assert xs + ys == xs;
    }
  }

  /** Recording properties adds their names of each kind, skipping those
      already listed; the flag is untouched. */
  lemma {:induction false} RecordedAllLists(r: Report, props: seq<Prop>, isSimple: string -> bool, k: Kind)
    requires k != Skipped
    ensures Listed(RecordedAll(r, props, isSimple), k) == AddNew(Listed(r, k), NamesOfKind(k, props, isSimple))
    ensures RecordedAll(r, props, isSimple).supported == r.supported
    decreases |props|
  {
    if props != [] {
      var init := props[..|props| - 1];
      var p := props[|props| - 1];
      RecordedAllLists(r, init, isSimple, k);
      if KindOf(p, isSimple) == k {
        AddNewSnoc(Listed(r, k), NamesOfKind(k, init, isSimple), p.key);
      } else {
        assert NamesOfKind(k, props, isSimple) == NamesOfKind(k, init, isSimple) + [];
        assert NamesOfKind(k, init, isSimple) + [] == NamesOfKind(k, init, isSimple);
      }
    }
  }

  /** Each list holds the names of its kind across all assets, every name
      once, in first-seen order; the flag answers for the last asset only. */
  lemma {:induction false} ReportLists(assets: seq<Asset>, isSupported: string -> bool, isSimple: string -> bool, k: Kind)
    requires k != Skipped
    ensures Listed(ReportOf(assets, isSupported, isSimple), k) == Dedup(NamesOfKind(k, AllProps(assets), isSimple))
    ensures ReportOf(assets, isSupported, isSimple).supported == (assets != [] && isSupported(assets[|assets| - 1].typ))
    decreases |assets|
  {
    if assets != [] {
      var init := assets[..|assets| - 1];
      var a := assets[|assets| - 1];
      ReportLists(init, isSupported, isSimple, k);
      var before := ReportOf(init, isSupported, isSimple).(supported := isSupported(a.typ));
      RecordedAllLists(before, a.props, isSimple, k);
      NamesOfKindAppend(k, AllProps(init), a.props, isSimple);
      AddNewAppend([], NamesOfKind(k, AllProps(init), isSimple), NamesOfKind(k, a.props, isSimple));
    }
  }

  /** So every list is duplicate-free and lists a name exactly when some
      property of that kind has it. */
  lemma {:induction false} ReportMembership(assets: seq<Asset>, isSupported: string -> bool, isSimple: string -> bool, k: Kind, name: string)
    requires k != Skipped
    ensures NoDup(Listed(ReportOf(assets, isSupported, isSimple), k))
    ensures name in Listed(ReportOf(assets, isSupported, isSimple), k) <==>
      exists p :: p in AllProps(assets) && p.key == name && KindOf(p, isSimple) == k
  {
    ReportLists(assets, isSupported, isSimple, k);
    var names := NamesOfKind(k, AllProps(assets), isSimple);
    DedupProperties(names, []);
    NamesOfKindMembers(k, AllProps(assets), isSimple, name);
  }

  /** Custom lists hold only `custom_` names; native lists hold neither
      those nor `_` names. */
  lemma {:induction false} KindPrefixes(p: Prop, isSimple: string -> bool)
    ensures KindOf(p, isSimple) in {CustomRelation, CustomAttribute} <==> StartsWith(p.key, "custom_")
    ensures KindOf(p, isSimple) == Skipped <==> StartsWith(p.key, "_")
  {
    if StartsWith(p.key, "custom_") {
      assert p.key[0] == 'c';
    }
  }

  lemma {:induction false} NamesOfKindMembers(k: Kind, props: seq<Prop>, isSimple: string -> bool, name: string)
    ensures name in NamesOfKind(k, props, isSimple) <==> exists p :: p in props && p.key == name && KindOf(p, isSimple) == k
    decreases |props|
  {
    if props != [] {
      var init := props[..|props| - 1];
      var last := props[|props| - 1];
      NamesOfKindMembers(k, init, isSimple, name);
      assert props == init + [last];
      if name in NamesOfKind(k, props, isSimple) && name !in NamesOfKind(k, init, isSimple) {
        assert last.key == name && KindOf(last, isSimple) == k;
      }
    }
  }

  // ---------------------------------------------------------------------------
  // The loop (lines 133-151)

  /** One asset: the flag is overwritten, then each property is recorded. */
  method CheckAsset(r: Report, asset: Asset, isSupported: string -> bool, isSimple: string -> bool) returns (r': Report)
    ensures r' == RecordedAll(r.(supported := isSupported(asset.typ)), asset.props, isSimple)
  {
    r' := r.(supported := isSupported(asset.typ));
    ghost var start := r';
    for i := 0 to |asset.props|
      invariant r' == RecordedAll(start, asset.props[..i], isSimple)
    {
      assert asset.props[..i + 1][..i] == asset.props[..i];
      r' := RecordProperty(r', asset.props[i], isSimple);
    }
    assert asset.props[..|asset.props|] == asset.props;
  }

  /** One property (lines 136-151): its name joins the list of its kind
      unless it is already there. */
  method RecordProperty(r: Report, prop: Prop, isSimple: string -> bool) returns (r': Report)
    ensures r' == Recorded(r, prop, isSimple)
  {
    r' := r;
    var isRelation := prop.value.IsList();
    if StartsWith(prop.key, "custom_") {
      if isRelation && prop.key !in r'.customRelations {
        r' := r'.(customRelations := r'.customRelations + [prop.key]);
      } else if !isRelation && prop.key !in r'.customAttributes {
        r' := r'.(customAttributes := r'.customAttributes + [prop.key]);
      }
    } else if !StartsWith(prop.key, "_") {
      if isRelation {
        var isSimpleRelation := isSimple(prop.key);
        if isSimpleRelation && prop.key !in r'.nativeSimple {
          r' := r'.(nativeSimple := r'.nativeSimple + [prop.key]);
        } else if !isSimpleRelation && prop.key !in r'.nativeMulti {
          r' := r'.(nativeMulti := r'.nativeMulti + [prop.key]);
        }
      } else if prop.key !in r'.nativeAttributes {
        r' := r'.(nativeAttributes := r'.nativeAttributes + [prop.key]);
      }
    }
  }

  /** Every asset of the file, in order. */
  method CheckAssets(assets: seq<Asset>, isSupported: string -> bool, isSimple: string -> bool) returns (r: Report)
    ensures r == ReportOf(assets, isSupported, isSimple)
  {
    r := Empty;
    for i := 0 to |assets|
      invariant r == ReportOf(assets[..i], isSupported, isSimple)
    {
      assert assets[..i + 1][..i] == assets[..i];
      r := CheckAsset(r, assets[i], isSupported, isSimple);
    }
    assert assets[..|assets|] == assets;
  }
}
