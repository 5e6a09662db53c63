/** The decisions `plotarMapa` (plotMap.py) takes before handing over to the
    plotting library, gathered into a `RenderPlan`: which template to use, which
    overlays to draw and whether each is reused or read afresh, how the colour
    map is extended, which primitive draws the data, whether a colour bar is
    drawn and with which ticks, and whether the figure is shown or saved. */
module Render {

  import opened Results
  import opened Text
  import opened Template

  /** The `modeloMapa` argument: a template path, a `Mapa` instance, or a value
      of any other type. */
  datatype TemplateArg = TemplatePath(path: string) | TemplateRecord(mapa: Mapa) | TemplateOther

  /** The errors `plotarMapa` raises itself or lets through from the loader. */
  datatype PlotError =
    | TemplateFailed(cause: LoadError)
    | BadTemplateArg
    | BadMapKind

  /** Dispatch on the type of `modeloMapa`: a string is loaded from the file it
      names (`files` stands for the file system), a `Mapa` is used as it is. */
  function ResolveTemplate(arg: TemplateArg, files: string -> Option<seq<string>>,
                           toFloat: string -> Option<real>): (r: Result<Mapa, PlotError>)
    ensures arg.TemplateRecord? ==> r == Success(arg.mapa)
    ensures arg.TemplateOther? ==> r == Failure(BadTemplateArg)
    ensures arg.TemplatePath? ==>
              match LoadMapTemplate(files(arg.path), toFloat)
              case Success(m) => r == Success(m)
              case Failure(e) => r == Failure(TemplateFailed(e))
  {
    match arg
    case TemplatePath(p) =>
      (match LoadMapTemplate(files(p), toFloat)
       case Success(m) => Success(m)
       case Failure(e) => Failure(TemplateFailed(e)))
    case TemplateRecord(m) => Success(m)
    case TemplateOther => Failure(BadTemplateArg)
  }

  // ---------------------------------------------------------------------
  // Overlays

  /** A previously built `ArquivoShape`; its geometry is not modelled. */
  datatype ShapeRef = ShapeRef(id: nat)

  /** One element of the `shapeFile` argument. */
  datatype OverlayItem = PrebuiltShape(shape: ShapeRef) | ShapePath(path: string) | OtherItem

  /** The `shapeFile` argument: a list, or a single value of any other type. */
  datatype OverlayArg = SingleOverlay(item: OverlayItem) | OverlayList(items: seq<OverlayItem>)

  /** The default `shapeFile=-1`. */
  const NoOverlay: OverlayArg := SingleOverlay(OtherItem)

  /** What is added to the axes for one overlay. */
  datatype Layer = Reused(shape: ShapeRef) | LoadedFresh(path: string)

  /** `newList`: a non-list argument becomes a one-element list. */
  function OverlayItems(arg: OverlayArg): (items: seq<OverlayItem>)
    ensures arg.SingleOverlay? ==> |items| == 1 && items[0] == arg.item
    ensures arg.OverlayList? ==> items == arg.items
  {
    match arg
    case SingleOverlay(x) => [x]
    case OverlayList(xs) => xs
  }

  /** The layer one item contributes: a built shape is reused, a path is read
      into a fresh shape, anything else is skipped. */
  function LayerOf(item: OverlayItem): (r: Option<Layer>)
    ensures r.None? <==> item.OtherItem?
    ensures r.Some? ==> (r.value.Reused? <==> item.PrebuiltShape?)
    ensures r.Some? && r.value.Reused? ==> r.value.shape == item.shape
    ensures r.Some? && r.value.LoadedFresh? ==> r.value.path == item.path
  {
    match item
    case PrebuiltShape(s) => Some(Reused(s))
    case ShapePath(p) => Some(LoadedFresh(p))
    case OtherItem => None
  }

  /** The layers drawn for a list of items, in list order. */
  function Layers(items: seq<OverlayItem>): (r: seq<Layer>)
    ensures |r| <= |items|
    ensures |r| == |items| <==> OtherItem !in items
    decreases |items|
  {
    if |items| == 0 then []
    else
      var rest := Layers(items[1..]);
      assert items == [items[0]] + items[1..];
      match LayerOf(items[0])
      case None => rest
      case Some(l) => [l] + rest
  }

  /** Layers of a concatenation are the concatenation of the layers: later
      items are drawn after (on top of) earlier ones. */
  lemma {:induction false} LayersAppend(a: seq<OverlayItem>, b: seq<OverlayItem>)
    ensures Layers(a + b) == Layers(a) + Layers(b)
    decreases |a|
  {
    if |a| > 0 {
      assert (a + b)[0] == a[0];
      assert (a + b)[1..] == a[1..] + b;
      LayersAppend(a[1..], b);
    } else {
      assert a + b == b;
    }
  }

  /** Without skipped items, every item yields its layer at the same position. */
  lemma {:induction false} LayersPointwise(items: seq<OverlayItem>)
    requires OtherItem !in items
    ensures |Layers(items)| == |items|
    ensures forall i :: 0 <= i < |items| ==> LayerOf(items[i]) == Some(Layers(items)[i])
    decreases |items|
  {
    if |items| > 0 {
      assert OtherItem !in items[1..];
      LayersPointwise(items[1..]);
      var r := Layers(items);
      forall i | 0 < i < |items|
        ensures LayerOf(items[i]) == Some(r[i])
      {
        assert items[i] == items[1..][i - 1];
      }
    }
  }

  /** Every drawn layer comes from an item of the list: the `j`-th layer comes
      from the item that has exactly `j` drawn items before it. */
  lemma {:induction false} LayerHasSource(items: seq<OverlayItem>, j: nat) returns (i: nat)
    requires j < |Layers(items)|
    ensures i < |items| && LayerOf(items[i]) == Some(Layers(items)[j])
    ensures |Layers(items[..i])| == j
    decreases |items|
  {
    var rest := Layers(items[1..]);
    if LayerOf(items[0]).Some? && j == 0 {
      i := 0;
      assert items[..0] == [];
    } else {
      var j' := if LayerOf(items[0]).Some? then j - 1 else j;
      var i' := LayerHasSource(items[1..], j');
      i := i' + 1;
      var pre := items[..i];
      assert pre[0] == items[0];
      assert pre[1..] == items[1..][..i'];
    }
  }

  /** Later layers come from later items: the drawing order is the list order. */
  lemma LayerSourcesOrdered(items: seq<OverlayItem>, j1: nat, j2: nat) returns (i1: nat, i2: nat)
    requires j1 < j2 < |Layers(items)|
    ensures i1 < i2 < |items|
    ensures LayerOf(items[i1]) == Some(Layers(items)[j1])
    ensures LayerOf(items[i2]) == Some(Layers(items)[j2])
  {
    i1 := LayerHasSource(items, j1);
    i2 := LayerHasSource(items, j2);
    if i2 <= i1 {
      PrefixLayersGrow(items, i2, i1);
      assert false;
    }
  }

  /** A longer prefix of the list draws at least as many layers. */
  lemma PrefixLayersGrow(items: seq<OverlayItem>, a: nat, b: nat)
    requires a <= b <= |items|
    ensures |Layers(items[..a])| <= |Layers(items[..b])|
  {
    LayersAppend(items[..a], items[a..b]);
    assert items[..a] + items[a..b] == items[..b];
  }

  /** The default argument draws no overlay at all. */
  lemma DefaultDrawsNoOverlay()
    ensures Layers(OverlayItems(NoOverlay)) == []
  {
  }

  // ---------------------------------------------------------------------
  // Colour map extension

  /** matplotlib's `extend` values. */
  datatype Extend = Neither | Both | MinOnly | MaxOnly

  /** `extend` together with the `under` and `over` colours given to `with_extremes`. */
  datatype ColorExtremes = ColorExtremes(extend: Extend, under: Option<string>, over: Option<string>)

  /** The sentinel meaning "no colour on this side". */
  const NoColor: string := "-1"

  /** The extend policy chosen from the two sentinel colours. */
  function ExtendPolicy(m: Mapa): (r: ColorExtremes)
    ensures r.extend != Neither
    ensures r.extend == Both <==> m.barraCoresCorMinimo != NoColor && m.barraCoresCorMaximo != NoColor
    ensures r.extend == MinOnly <==> m.barraCoresCorMinimo != NoColor && m.barraCoresCorMaximo == NoColor
    ensures r.extend == MaxOnly <==> m.barraCoresCorMinimo == NoColor
    // a colour is given exactly for the sides the policy extends
    ensures r.under.Some? <==> r.extend == Both || r.extend == MinOnly
    ensures r.over.Some? <==> r.extend == Both || r.extend == MaxOnly
    ensures r.under.Some? ==> r.under.value == m.barraCoresCorMinimo
    ensures r.over.Some? ==> r.over.value == m.barraCoresCorMaximo
  {
    if m.barraCoresCorMinimo != NoColor && m.barraCoresCorMaximo != NoColor then
      ColorExtremes(Both, Some(m.barraCoresCorMinimo), Some(m.barraCoresCorMaximo))
    else if m.barraCoresCorMinimo != NoColor then
      ColorExtremes(MinOnly, Some(m.barraCoresCorMinimo), None)
    else
      ColorExtremes(MaxOnly, None, Some(m.barraCoresCorMaximo))
  }

  /** Both sentinels off still extends the top end, with the sentinel itself
      passed as the `over` colour. */
  lemma NeitherIsUnreachable(m: Mapa)
    requires m.barraCoresCorMinimo == NoColor && m.barraCoresCorMaximo == NoColor
    ensures ExtendPolicy(m) == ColorExtremes(MaxOnly, None, Some(NoColor))
  {
  }

  // ---------------------------------------------------------------------
  // Map kind, colour bar, destination

  /** The primitive that draws the data. */
  datatype PlotKind = Contour | Scatter

  /** `mapa_tipo` must be exactly `contornos` or `xy`. */
  function PlotKindOf(tipo: string): (r: Result<PlotKind, PlotError>)
    ensures r == Success(Contour) <==> tipo == "contornos"
    ensures r == Success(Scatter) <==> tipo == "xy"
    ensures r.Failure? ==> r.error == BadMapKind
  {
    if tipo == "contornos" then Success(Contour)
    else if tipo == "xy" then Success(Scatter)
    else Failure(BadMapKind)
  }

  /** The arguments of `fig.colorbar` and `cbar.set_ticks`. */
  datatype ColorBar = ColorBar(
    orientation: string, title: string, pad: real, fraction: real, location: string, ticks: seq<real>)

  /** The orientation value that suppresses the colour bar. */
  const NoColorBar: string := "none"

  /** A colour bar is drawn unless the orientation is `none`; its ticks sit at
      the colour breakpoints. */
  function ColorBarOf(m: Mapa): (r: Option<ColorBar>)
    ensures r.Some? <==> m.barraCoresOrientacao != NoColorBar
    ensures r.Some? ==> |r.value.ticks| == |m.barraCoresValores| &&
                        forall i :: 0 <= i < |m.barraCoresValores| ==> r.value.ticks[i] == m.barraCoresValores[i]
  {
    if m.barraCoresOrientacao == NoColorBar then None
    else Some(ColorBar(m.barraCoresOrientacao, m.barraCoresTitulo, m.barraCoresDist,
                       m.barraCoresTam, m.barraCoresPosicao, m.barraCoresValores))
  }

  /** Where the figure goes. */
  datatype Output = Display | SaveTo(path: string)

  /** An empty `destino` shows the figure; anything else is the file to save. */
  function OutputOf(destino: string): (r: Output)
    ensures r == Display <==> |destino| == 0
    ensures r.SaveTo? ==> r.path == destino
  {
    if destino == "" then Display else SaveTo(destino)
  }

  // ---------------------------------------------------------------------
  // The whole call

  datatype RenderPlan = RenderPlan(
    mapa: Mapa, layers: seq<Layer>, extremes: ColorExtremes, kind: PlotKind,
    colorBar: Option<ColorBar>, output: Output)

  /** `plotarMapa` up to the drawing calls. The template is resolved first, so
      its errors come before an invalid map kind. */
  function PlanRender(modeloMapa: TemplateArg, destino: string, shapeFile: OverlayArg,
                      files: string -> Option<seq<string>>, toFloat: string -> Option<real>): (r: Result<RenderPlan, PlotError>)
    ensures ResolveTemplate(modeloMapa, files, toFloat).Failure? ==>
              r == Failure(ResolveTemplate(modeloMapa, files, toFloat).error)
    ensures ResolveTemplate(modeloMapa, files, toFloat).Success? ==>
              var m := ResolveTemplate(modeloMapa, files, toFloat).value;
              (r.Success? <==> m.mapaTipo == "contornos" || m.mapaTipo == "xy")
    ensures r.Failure? ==> r.error != BadMapKind || ResolveTemplate(modeloMapa, files, toFloat).Success?
    ensures ResolveTemplate(modeloMapa, files, toFloat).Success? && r.Failure? ==> r.error == BadMapKind
    ensures r.Success? ==>
              && r.value.mapa == ResolveTemplate(modeloMapa, files, toFloat).value
              && r.value.layers == Layers(OverlayItems(shapeFile))
              && r.value.extremes == ExtendPolicy(r.value.mapa)
              && (r.value.kind == Contour <==> r.value.mapa.mapaTipo == "contornos")
              && (r.value.kind == Scatter <==> r.value.mapa.mapaTipo == "xy")
              && r.value.colorBar == ColorBarOf(r.value.mapa)
              && (r.value.colorBar.Some? <==> r.value.mapa.barraCoresOrientacao != NoColorBar)
              && r.value.output == OutputOf(destino)
              && (r.value.output == Display <==> destino == "")
  {
    var m :- ResolveTemplate(modeloMapa, files, toFloat);
    var kind :- PlotKindOf(m.mapaTipo);
    Success(RenderPlan(m, Layers(OverlayItems(shapeFile)), ExtendPolicy(m), kind, ColorBarOf(m), OutputOf(destino)))
  }

  /** A `Mapa` instance passed in is drawn unchanged, whatever the file system holds. */
  lemma RecordUsedUnchanged(m: Mapa, destino: string, shapeFile: OverlayArg,
                            files: string -> Option<seq<string>>, toFloat: string -> Option<real>)
    requires m.mapaTipo == "contornos" || m.mapaTipo == "xy"
    ensures PlanRender(TemplateRecord(m), destino, shapeFile, files, toFloat).Success?
    ensures PlanRender(TemplateRecord(m), destino, shapeFile, files, toFloat).value.mapa == m
  {
  }

  /** For a template read from a file, the colour bar carries one tick per
      comma-separated breakpoint of `barra_cores_valores`. */
  lemma TicksMatchBreakpoints(path: string, destino: string, shapeFile: OverlayArg,
                              files: string -> Option<seq<string>>, toFloat: string -> Option<real>)
    requires PlanRender(TemplatePath(path), destino, shapeFile, files, toFloat).Success?
    requires PlanRender(TemplatePath(path), destino, shapeFile, files, toFloat).value.mapa.barraCoresOrientacao != NoColorBar
    ensures files(path).Some?
    ensures var plan := PlanRender(TemplatePath(path), destino, shapeFile, files, toFloat).value;
            var d := Gather(Classify(files(path).value)).value.entries;
            && plan.colorBar.Some?
            && |plan.colorBar.value.ticks| == Occurrences(d[KeyValores], ',') + 1
  {
    var lines := files(path).value;
    LoadedFromDict(lines, toFloat);
    BuildMapaFields(Gather(Classify(lines)).value.entries, toFloat);
  }
}
