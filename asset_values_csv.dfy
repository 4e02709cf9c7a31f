/** `igc_json_to_asset_values_csv`: turn a relationship file into the rows of
    an asset-values CSV. Each asset gives one row: its name, the mapped name
    of each of its context entries under the context type's display name, and
    one cell per relationship property listing the related assets as
    `"ctx>>ctx>>name"` strings. The header lists every column once, in the
    order the columns were first met. */
module AssetValuesCsv {
  import opened Wrappers
  import opened Text
  import opened Lists
  import opened RestModel
  import opened IgcRest
  import opened IgcClient

  /** One cell written into a row: its column and its text. */
  type Write = (string, string)

  /** What the conversion yields: the display name of the file's asset type,
      the header, the rows, and the counters reported. */
  datatype CsvOut = CsvOut(
    typeName: string,
    header: seq<string>,
    rows: seq<map<string, string>>,
    assetCount: nat,
    untranslated: seq<Asset>)

  // ---------------------------------------------------------------------------
  // Cells

  /** The column of a context entry: the display name of its type, with
      `Host (Engine)` shortened to `Host`. */
  function CtxColumn(backend: Backend, ctxType: string): string
  {
    var name := FreshPropertyMap(backend.typeInfo(ctxType), ctxType).0;
    if name == "Host (Engine)" then "Host" else name
  }

  /** The cells of an asset's own context, in context order: each entry's
      column with its mapped name. */
  function ContextWrites(backend: Backend, mapper: Mapper, ctx: seq<CtxEntry>): (r: seq<Write>)
    ensures |r| == |ctx|
    ensures forall i :: 0 <= i < |ctx| ==> r[i] == (CtxColumn(backend, ctx[i].typ), mapper(ctx[i].typ, "name", ctx[i].name))
    decreases |ctx|
  {
    if ctx == [] then []
    else
      var e := ctx[|ctx| - 1];
      ContextWrites(backend, mapper, ctx[..|ctx| - 1]) + [(CtxColumn(backend, e.typ), mapper(e.typ, "name", e.name))]
  }

  /** The mapped context names of a related asset, each followed by `>>`. */
  function CtxPath(ctx: seq<CtxEntry>, mapper: Mapper): string
    decreases |ctx|
  {
    if ctx == [] then ""
    else
      var e := ctx[|ctx| - 1];
      CtxPath(ctx[..|ctx| - 1], mapper) + mapper(e.typ, "name", e.name) + ">>"
  }

  /** A related asset as its cell shows it. */
  function RelationText(rel: Asset, mapper: Mapper): string
  {
    "\"" + CtxPath(rel.context, mapper) + rel.name + "\""
  }

  /** The mapped context names of a related asset. */
  function MappedNames(ctx: seq<CtxEntry>, mapper: Mapper): (r: seq<string>)
    ensures |r| == |ctx|
    ensures forall i :: 0 <= i < |ctx| ==> r[i] == mapper(ctx[i].typ, "name", ctx[i].name)
  {
    seq(|ctx|, i requires 0 <= i < |ctx| => mapper(ctx[i].typ, "name", ctx[i].name))
  }

  /** The path is the mapped names joined by `>>`, with a trailing `>>`. */
  lemma {:induction false} CtxPathJoin(ctx: seq<CtxEntry>, mapper: Mapper)
    ensures CtxPath(ctx, mapper) == if ctx == [] then "" else Join(MappedNames(ctx, mapper), ">>") + ">>"
    decreases |ctx|
  {
    if |ctx| > 1 {
      var init := ctx[..|ctx| - 1];
      var e := ctx[|ctx| - 1];
      CtxPathJoin(init, mapper);
      assert MappedNames(ctx, mapper) == MappedNames(init, mapper) + [mapper(e.typ, "name", e.name)];
      JoinSnoc(MappedNames(init, mapper), mapper(e.typ, "name", e.name), ">>");
    } else if |ctx| == 1 {
      assert ctx[..0] == [];
    }
  }

  /** The relation text is the quoted `>>`-joined path of mapped context
      names and the related asset's (unmapped) name. */
  lemma {:induction false} RelationTextJoin(rel: Asset, mapper: Mapper)
    ensures RelationText(rel, mapper)
         == "\"" + Join(MappedNames(rel.context, mapper) + [rel.name], ">>") + "\""
  {
    CtxPathJoin(rel.context, mapper);
    if rel.context != [] {
      JoinSnoc(MappedNames(rel.context, mapper), rel.name, ">>");
    } else {
      assert MappedNames(rel.context, mapper) + [rel.name] == [rel.name];
    }
  }

  function RelationTexts(rels: seq<Asset>, mapper: Mapper): (r: seq<string>)
    ensures |r| == |rels|
    ensures forall i :: 0 <= i < |rels| ==> r[i] == RelationText(rels[i], mapper)
    decreases |rels|
  {
    if rels == [] then [] else RelationTexts(rels[..|rels| - 1], mapper) + [RelationText(rels[|rels| - 1], mapper)]
  }

  /** A relationship cell: the `;`-joined relations in brackets, or empty. */
  function RelationCell(texts: seq<string>): string
  {
    if |texts| > 0 then "[" + Join(texts, ";") + "]" else ""
  }

  /** A cell is empty exactly when the property has no relations, and
      otherwise bracketed. */
  lemma {:induction false} RelationCellShape(rels: seq<Asset>, mapper: Mapper)
    ensures var cell := RelationCell(RelationTexts(rels, mapper));
      && (cell == "" <==> rels == [])
      && (rels != [] ==> |cell| >= 2 && cell[0] == '[' && cell[|cell| - 1] == ']')
  {
  }

  /** The relations a property's value is read as: a JSON list of assets; an
      empty string, list or object iterates over nothing; anything else fails
      when its elements (or it) are read as relations. */
  function RelationsOf(v: Value): (r: Result<seq<Asset>>)
    ensures v.AssetList? ==> r == Ok(v.items)
  {
    match v
    case AssetList(items) => Ok(items)
    case StrList(strs) => if strs == [] then Ok([]) else Err("TypeError: string indices must be integers")
    case Str(s) => if s == "" then Ok([]) else Err("TypeError: string indices must be integers")
    case Obj(fields) => if fields == map[] then Ok([]) else Err("TypeError: string indices must be integers")
    case Paged(_, _) => Err("TypeError: string indices must be integers")
    case Num(_) => Err("TypeError: object is not iterable")
    case Null => Err("TypeError: object is not iterable")
  }

  /** The relationship cells of an asset's non-`_` properties, in property
      order; a property the type does not describe is a KeyError. */
  function RelationWrites(propertyMap: map<string, string>, mapper: Mapper, props: seq<Prop>): Result<seq<Write>>
    decreases |props|
  {
    if props == [] then Ok([])
    else match RelationWrites(propertyMap, mapper, props[..|props| - 1])
      case Err(msg) => Err(msg)
      case Ok(done) =>
        var p := props[|props| - 1];
        if StartsWith(p.key, "_") then Ok(done)
        else if p.key !in propertyMap then Err("KeyError: " + p.key)
        else match RelationsOf(p.value)
          case Err(msg) => Err(msg)
          case Ok(rels) => Ok(done + [(propertyMap[p.key], RelationCell(RelationTexts(rels, mapper)))])
  }

  /** Every cell of one asset, in the order they are written. */
  function AssetWrites(backend: Backend, propertyMap: map<string, string>, mapper: Mapper, asset: Asset): Result<seq<Write>>
  {
    match RelationWrites(propertyMap, mapper, asset.props)
    case Err(msg) => Err(msg)
    case Ok(rw) => Ok([("Name", asset.name)] + ContextWrites(backend, mapper, asset.context) + rw)
  }

  function Columns(w: seq<Write>): (r: seq<string>)
    ensures |r| == |w|
    ensures forall i :: 0 <= i < |w| ==> r[i] == w[i].0
    decreases |w|
  {
    if w == [] then [] else Columns(w[..|w| - 1]) + [w[|w| - 1].0]
  }

  /** The row the cells make: a column written twice keeps its last text. */
  function RowOf(w: seq<Write>): (r: map<string, string>)
    ensures r.Keys == set i | 0 <= i < |w| :: w[i].0
    decreases |w|
  {
    if w == [] then map[]
    else
      var init := w[..|w| - 1];
      var r0 := RowOf(init);
      assert forall i :: 0 <= i < |init| ==> init[i] == w[i];
      r0[w[|w| - 1].0 := w[|w| - 1].1]
  }

  /** The header and rows after the given assets, or the first failure. */
  function Table(backend: Backend, propertyMap: map<string, string>, mapper: Mapper, assets: seq<Asset>)
    : Result<(seq<string>, seq<map<string, string>>)>
    decreases |assets|
  {
    if assets == [] then Ok(([], []))
    else match Table(backend, propertyMap, mapper, assets[..|assets| - 1])
      case Err(msg) => Err(msg)
      case Ok(t) =>
        match AssetWrites(backend, propertyMap, mapper, assets[|assets| - 1])
        case Err(msg) => Err(msg)
        case Ok(w) => Ok((AddNew(t.0, Columns(w)), t.1 + [RowOf(w)]))
  }

  /** The whole conversion: the first asset's type names the file and
      describes the properties of every asset. An empty file leaves the type
      name unset, which fails when the output is written. */
  function Convert(backend: Backend, mapper: Mapper, assets: seq<Asset>): Result<CsvOut>
  {
    if assets == [] then Err("NameError: asset_name")
    else
      var (typeName, propertyMap) := FreshPropertyMap(backend.typeInfo(assets[0].typ), assets[0].typ);
      match Table(backend, propertyMap, mapper, assets)
      case Err(msg) => Err(msg)
      case Ok(t) => Ok(CsvOut(typeName, t.0, t.1, |assets|, []))
  }

  // ---------------------------------------------------------------------------
  // What the table satisfies

  /** An asset's cells start with its name. */
  lemma {:induction false} AssetWritesStartWithName(backend: Backend, propertyMap: map<string, string>, mapper: Mapper, asset: Asset)
    ensures AssetWrites(backend, propertyMap, mapper, asset).Ok? ==>
      var w := AssetWrites(backend, propertyMap, mapper, asset).value;
      |w| > 0 && w[0] == ("Name", asset.name)
  {
  }

  /** A row holds exactly the columns its cells were written to. */
  lemma {:induction false} RowColumns(w: seq<Write>)
    requires |w| > 0 && w[0].0 == "Name"
    ensures "Name" in RowOf(w)
    ensures forall c :: c in RowOf(w) ==> c in Columns(w)
  {
    forall c | c in RowOf(w)
      ensures c in Columns(w)
    {
      var i :| 0 <= i < |w| && w[i].0 == c;
      assert Columns(w)[i] == c;
    }
  }

  /** The first asset's first column is `Name`, which thus heads the header. */
  lemma {:induction false} HeaderStartsWithName(cols: seq<string>)
    requires |cols| > 0 && cols[0] == "Name"
    ensures |AddNew([], cols)| > 0 && AddNew([], cols)[0] == "Name"
  {
    assert cols == ["Name"] + cols[1..];
    AddNewAppend([], ["Name"], cols[1..]);
    assert AddNew([], ["Name"]) == ["Name"] by {
      assert ["Name"][..0] == [];
    }
    AddNewProperties(["Name"], cols[1..]);
  }

  /** A header without repeats, and rows that each have a `Name` and only
      header columns. */
  predicate Shaped(header: seq<string>, rows: seq<map<string, string>>)
  {
    && NoDup(header)
    && forall i :: 0 <= i < |rows| ==> "Name" in rows[i] && forall c :: c in rows[i] ==> c in header
  }

  /** One more asset's cells keep the table shaped, and its first cell puts
      `Name` at the head of a header that was empty. */
  lemma {:induction false} ShapedSnoc(h0: seq<string>, rows0: seq<map<string, string>>, w: seq<Write>)
    requires Shaped(h0, rows0) && |w| > 0 && w[0].0 == "Name"
    ensures Shaped(AddNew(h0, Columns(w)), rows0 + [RowOf(w)])
    ensures h0 <= AddNew(h0, Columns(w))
    ensures h0 == [] ==> |AddNew(h0, Columns(w))| > 0 && AddNew(h0, Columns(w))[0] == "Name"
  {
    var cols := Columns(w);
    var header, rows := AddNew(h0, cols), rows0 + [RowOf(w)];
    AddNewProperties(h0, cols);
    RowColumns(w);
    if h0 == [] {
      HeaderStartsWithName(cols);
    }
    forall i | 0 <= i < |rows|
      ensures "Name" in rows[i] && forall c :: c in rows[i] ==> c in header
    {
      if i < |rows0| {
        assert rows[i] == rows0[i];
        forall c | c in rows0[i]
          ensures c in header
        {
          assert c in h0;
        }
      } else {
        assert rows[i] == RowOf(w);
        forall c | c in RowOf(w)
          ensures c in header
        {
          assert c in cols;
        }
      }
    }
  }

  /** The header lists every column once, in first-seen order starting with
      `Name`; every row has a `Name` and only header columns (so the CSV
      writer accepts it); one row per asset. */
  lemma {:induction false} TableShape(backend: Backend, propertyMap: map<string, string>, mapper: Mapper, assets: seq<Asset>)
    ensures Table(backend, propertyMap, mapper, assets).Ok? ==>
      var (header, rows) := Table(backend, propertyMap, mapper, assets).value;
      && Shaped(header, rows)
      && |rows| == |assets|
      && (assets != [] ==> |header| > 0 && header[0] == "Name")
    decreases |assets|
  {
    if assets != [] {
      var init := assets[..|assets| - 1];
      TableShape(backend, propertyMap, mapper, init);
      var t := Table(backend, propertyMap, mapper, init);
      var w := AssetWrites(backend, propertyMap, mapper, assets[|assets| - 1]);
      if t.Ok? && w.Ok? {
        var (h0, rows0) := t.value;
        AssetWritesStartWithName(backend, propertyMap, mapper, assets[|assets| - 1]);
        ShapedSnoc(h0, rows0, w.value);
        assert init == [] <==> h0 == [];
      }
    }
  }

  /** Every asset gives a row, and none is left untranslated. */
  lemma {:induction false} ConvertCounts(backend: Backend, mapper: Mapper, assets: seq<Asset>)
    ensures Convert(backend, mapper, assets).Ok? <==>
      assets != [] && Table(backend, FreshPropertyMap(backend.typeInfo(assets[0].typ), assets[0].typ).1, mapper, assets).Ok?
    ensures Convert(backend, mapper, assets).Ok? ==>
      var out := Convert(backend, mapper, assets).value;
      && out.assetCount == |assets| == |out.rows|
      && out.untranslated == []
      && out.typeName == FreshPropertyMap(backend.typeInfo(assets[0].typ), assets[0].typ).0
  {
    if assets != [] {
      TableShape(backend, FreshPropertyMap(backend.typeInfo(assets[0].typ), assets[0].typ).1, mapper, assets);
    }
  }

  // ---------------------------------------------------------------------------
  // The loop (lines 206-251)

  lemma {:induction false} WriteSnoc(w: seq<Write>, c: Write)
    ensures Columns(w + [c]) == Columns(w) + [c.0]
    ensures RowOf(w + [c]) == RowOf(w)[c.0 := c.1]
  {
    assert (w + [c])[..|w|] == w;
  }

  /** One related asset's text, built by appending (lines 237-242). */
  method RenderRelation(rel: Asset, mapper: Mapper) returns (s: string)
    ensures s == RelationText(rel, mapper)
  {
    s := "\"";
    for i := 0 to |rel.context|
      invariant s == "\"" + CtxPath(rel.context[..i], mapper)
    {
      assert rel.context[..i + 1][..i] == rel.context[..i];
      var e := rel.context[i];
      s := s + mapper(e.typ, "name", e.name) + ">>";
    }
    assert rel.context[..|rel.context|] == rel.context;
    s := s + rel.name + "\"";
  }

  /** The cell of one relationship property (lines 236-247). */
  method RenderCell(rels: seq<Asset>, mapper: Mapper) returns (cell: string)
    ensures cell == RelationCell(RelationTexts(rels, mapper))
  {
    var texts: seq<string> := [];
    for i := 0 to |rels|
      invariant texts == RelationTexts(rels[..i], mapper)
    {
      assert rels[..i + 1][..i] == rels[..i];
      var t := RenderRelation(rels[i], mapper);
      texts := texts + [t];
    }
    assert rels[..|rels|] == rels;
    if |texts| > 0 {
      cell := "[" + Join(texts, ";") + "]";
    } else {
      cell := "";
    }
  }

  /** The context cells of one asset (lines 219-226); each context type's
      display name comes from the client's property-map cache. */
  method ContextCells(igc: RestIGC, mapper: Mapper, ctx: seq<CtxEntry>, header: seq<string>, row: map<string, string>,
                      ghost before: seq<Write>)
    returns (header': seq<string>, row': map<string, string>)
    requires igc.PropertyCacheSound()
    requires row == RowOf(before)
    modifies igc`propertyMapCache, igc`assetTypeNameCache
    ensures igc.PropertyCacheSound()
    ensures header' == AddNew(header, Columns(ContextWrites(igc.backend, mapper, ctx)))
    ensures row' == RowOf(before + ContextWrites(igc.backend, mapper, ctx))
  {
    header' := header;
    row' := row;
    assert ctx[..0] == [];
    assert before + [] == before;
    for i := 0 to |ctx|
      invariant igc.PropertyCacheSound()
      invariant header' == AddNew(header, Columns(ContextWrites(igc.backend, mapper, ctx[..i])))
      invariant row' == RowOf(before + ContextWrites(igc.backend, mapper, ctx[..i]))
    {
      assert ctx[..i + 1][..i] == ctx[..i];
      var e := ctx[i];
      var mapped := mapper(e.typ, "name", e.name);
      var ctxName, _ := igc.GetPropertyMap(e.typ);
      if ctxName == "Host (Engine)" {
        ctxName := "Host";
      }
      var w := ContextWrites(igc.backend, mapper, ctx[..i]);
      assert ContextWrites(igc.backend, mapper, ctx[..i + 1]) == w + [(ctxName, mapped)];
      WriteSnoc(w, (ctxName, mapped));
      AddNewSnoc(header, Columns(w), ctxName);
      WriteSnoc(before + w, (ctxName, mapped));
      SeqAssoc(before, w, [(ctxName, mapped)]);
      header' := AppendIfAbsent(header', ctxName);
      row' := row'[ctxName := mapped];
    }
    assert ctx[..|ctx|] == ctx;
  }

  lemma {:induction false} ColumnsAppend(x: seq<Write>, y: seq<Write>)
    ensures Columns(x + y) == Columns(x) + Columns(y)
    decreases |y|
  {
    if y != [] {
      var init := y[..|y| - 1];
      assert x + y == (x + init) + [y[|y| - 1]];
      WriteSnoc(x + init, y[|y| - 1]);
      ColumnsAppend(x, init);
      WriteSnoc(init, y[|y| - 1]);
      assert y == init + [y[|y| - 1]];
    }
  }

  lemma {:induction false} RelationWritesErrSticks(propertyMap: map<string, string>, mapper: Mapper, props: seq<Prop>, n: nat)
    requires n <= |props| && RelationWrites(propertyMap, mapper, props[..n]).Err?
    ensures RelationWrites(propertyMap, mapper, props) == RelationWrites(propertyMap, mapper, props[..n])
    decreases |props|
  {
    if n < |props| {
      assert props[..|props| - 1][..n] == props[..n];
      RelationWritesErrSticks(propertyMap, mapper, props[..|props| - 1], n);
    } else {
      assert props[..n] == props;
    }
  }

  lemma {:induction false} TableErrSticks(backend: Backend, propertyMap: map<string, string>, mapper: Mapper, assets: seq<Asset>, n: nat)
    requires n <= |assets| && Table(backend, propertyMap, mapper, assets[..n]).Err?
    ensures Table(backend, propertyMap, mapper, assets) == Table(backend, propertyMap, mapper, assets[..n])
    decreases |assets|
  {
    if n < |assets| {
      assert assets[..|assets| - 1][..n] == assets[..n];
      TableErrSticks(backend, propertyMap, mapper, assets[..|assets| - 1], n);
    } else {
      assert assets[..n] == assets;
    }
  }

  /** The relationship cells of one asset (lines 229-247), continuing the row
      made by the cells `before`. */
  method PropertyCells(propertyMap: map<string, string>, mapper: Mapper, props: seq<Prop>,
                       header: seq<string>, row: map<string, string>, ghost before: seq<Write>)
    returns (r: Result<(seq<string>, map<string, string>)>)
    requires row == RowOf(before)
    ensures var w := RelationWrites(propertyMap, mapper, props);
      r == if w.Err? then Err(w.msg) else Ok((AddNew(header, Columns(w.value)), RowOf(before + w.value)))
  {
    var header' := header;
    var row' := row;
    ghost var done: seq<Write> := [];
    assert props[..0] == [];
    assert before + [] == before;
    for i := 0 to |props|
      invariant RelationWrites(propertyMap, mapper, props[..i]) == Ok(done)
      invariant header' == AddNew(header, Columns(done))
      invariant row' == RowOf(before + done)
    {
      assert props[..i + 1][..i] == props[..i];
      var p := props[i];
      if !StartsWith(p.key, "_") {
        if p.key !in propertyMap {
          RelationWritesErrSticks(propertyMap, mapper, props, i + 1);
          return Err("KeyError: " + p.key);
        }
        var relnName := propertyMap[p.key];
        header' := AppendIfAbsent(header', relnName);
        var rels := RelationsOf(p.value);
        if rels.Err? {
          RelationWritesErrSticks(propertyMap, mapper, props, i + 1);
          return Err(rels.msg);
        }
        var cell := RenderCell(rels.value, mapper);
        row' := row'[relnName := cell];
        WriteSnoc(done, (relnName, cell));
        AddNewSnoc(header, Columns(done), relnName);
        WriteSnoc(before + done, (relnName, cell));
        SeqAssoc(before, done, [(relnName, cell)]);
        done := done + [(relnName, cell)];
      }
    }
    assert props[..|props|] == props;
    return Ok((header', row'));
  }

  /** One asset's row (lines 213-251): `Name`, then the context cells, then
      the relationship cells, each column added to the header when new. */
  method ConvertAsset(igc: RestIGC, propertyMap: map<string, string>, mapper: Mapper, asset: Asset, header: seq<string>)
    returns (r: Result<(seq<string>, map<string, string>)>)
    requires igc.PropertyCacheSound()
    modifies igc`propertyMapCache, igc`assetTypeNameCache
    ensures igc.PropertyCacheSound()
    ensures var w := AssetWrites(igc.backend, propertyMap, mapper, asset);
      r == if w.Err? then Err(w.msg) else Ok((AddNew(header, Columns(w.value)), RowOf(w.value)))
  {
    ghost var named: seq<Write> := [("Name", asset.name)];
    var header' := AppendIfAbsent(header, "Name");
    var row := map["Name" := asset.name];
    assert AddNew(header, Columns(named)) == header' by {
      assert Columns(named) == [] + ["Name"];
      AddNewSnoc(header, [], "Name");
    }
    assert row == RowOf(named) by {
      WriteSnoc([], ("Name", asset.name));
      assert named == [] + [("Name", asset.name)];
    }
    ghost var cw := ContextWrites(igc.backend, mapper, asset.context);
    header', row := ContextCells(igc, mapper, asset.context, header', row, named);
    ColumnsAppend(named, cw);
    AddNewAppend(header, Columns(named), Columns(cw));
    r := PropertyCells(propertyMap, mapper, asset.props, header', row, named + cw);
    if r.Ok? {
      var rw := RelationWrites(propertyMap, mapper, asset.props).value;
      ColumnsAppend(named + cw, rw);
      AddNewAppend(header, Columns(named + cw), Columns(rw));
    }
  }

  /** The whole conversion (lines 206-251): the first asset's type gives the
      property map; every asset is counted and gives a row. */
  method ConvertAssets(igc: RestIGC, mapper: Mapper, assets: seq<Asset>) returns (r: Result<CsvOut>)
    requires igc.PropertyCacheSound()
    modifies igc`propertyMapCache, igc`assetTypeNameCache
    ensures igc.PropertyCacheSound()
    ensures r == Convert(igc.backend, mapper, assets)
  {
    if |assets| == 0 {
      return Err("NameError: asset_name");
    }
    var typeName, propertyMap := igc.GetPropertyMap(assets[0].typ);
    var header: seq<string> := [];
    var rows: seq<map<string, string>> := [];
    var untranslated: seq<Asset> := [];
    var assetCount: nat := 0;
    for i := 0 to |assets|
      invariant igc.PropertyCacheSound()
      invariant Table(igc.backend, propertyMap, mapper, assets[..i]) == Ok((header, rows))
      invariant assetCount == i && untranslated == []
    {
      assert assets[..i + 1][..i] == assets[..i];
      var res := ConvertAsset(igc, propertyMap, mapper, assets[i], header);
      if res.Err? {
        TableErrSticks(igc.backend, propertyMap, mapper, assets, i + 1);
        return Err(res.msg);
      }
      assetCount := assetCount + 1;
      var asset, row := assets[i], res.value.1;
      header := res.value.0;
      AssetWritesStartWithName(igc.backend, propertyMap, mapper, assets[i]);
      RowColumns(AssetWrites(igc.backend, propertyMap, mapper, assets[i]).value);
      if |row| > 0 {
        rows := rows + [row];
      } else {
        untranslated := untranslated + [asset];
      }
    }
    assert assets[..|assets|] == assets;
    return Ok(CsvOut(typeName, header, rows, assetCount, untranslated));
  }
}
