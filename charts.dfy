/**
 * The chart section of the dashboard script (DataSetProject.py, lines
 * 73-141): the settings panel binds column roles according to the chart
 * type, and the drawing section decides what figure, if any, is drawn. The
 * plotting library is replaced by the figure description it would receive.
 */
module Charts {
  import opened Opt
  import opened Tables
  import Text

  /** The eleven entries of the chart-type selectbox. */
  datatype ChartType =
    | Scatter | Line | Bar | Pie | Histogram | Heatmap
    | Treemap | Sunburst | Sankey | Network | GeoMap

  /**
   * Column-role bindings: the x and y axes, the colour column (the summed
   * intensity z of a heatmap), the inner and outer sunburst layers and the
   * sunburst slice size.
   */
  datatype Roles = Roles(x: Pick, y: Pick, color: Pick, layer1: Pick, layer2: Pick, value: Pick)

  const Unbound := Roles(None, None, None, None, None, None)

  /** Chart types that have neither settings nor drawing code. */
  predicate Unimplemented(t: ChartType) {
    t == Treemap || t == Sankey || t == Network || t == GeoMap
  }

  /**
   * Lines 79-100: every role starts unbound and only the widgets shown for
   * the chart type bind theirs; `answers` are what those widgets return.
   */
  function Configure(t: ChartType, answers: Roles): (r: Roles)
    ensures t == Sunburst ==> r == Unbound.(layer1 := answers.layer1, layer2 := answers.layer2, value := answers.value)
    ensures t != Sunburst ==> r.layer1.None? && r.layer2.None? && r.value.None?
    ensures t == Histogram ==> r.y.None?
    ensures Unimplemented(t) ==> r == Unbound
    ensures !Unimplemented(t) && t != Sunburst ==> r.x == answers.x && r.color == answers.color
    ensures !Unimplemented(t) && t != Sunburst && t != Histogram ==> r.y == answers.y
  {
    match t
    case Sunburst => Unbound.(layer1 := answers.layer1, layer2 := answers.layer2, value := answers.value)
    case Heatmap => Unbound.(x := answers.x, y := answers.y, color := answers.color)
    case Histogram => Unbound.(x := answers.x, color := answers.color)
    case Scatter => Unbound.(x := answers.x, y := answers.y, color := answers.color)
    case Line => Unbound.(x := answers.x, y := answers.y, color := answers.color)
    case Bar => Unbound.(x := answers.x, y := answers.y, color := answers.color)
    case Pie => Unbound.(x := answers.x, y := answers.y, color := answers.color)
    case _ => Unbound
  }

  /** How the heatmap aggregates z per cell (`histfunc="sum"`). */
  datatype Aggregate = Sum

  /** What the plotting calls would be given. */
  datatype Figure =
    | SunburstFigure(path: seq<string>, sizes: string, colorBy: string, title: string)
    | HeatmapFigure(xAxis: string, yAxis: string, z: string, histFunc: Aggregate)
    | BarFigure(x: string, y: Pick, color: Pick)
    | PieFigure(names: string, values: Pick)
    | ScatterFigure(x: string, y: Pick, color: Pick)

  /** A figure is drawn, the fallback branch is reached without a figure, or the settings message is shown. */
  datatype Outcome = Drawn(figure: Figure) | NothingDrawn | Incomplete

  /** Line 108. */
  predicate SunburstReady(t: ChartType, r: Roles) {
    t == Sunburst && Chosen(r.layer1) && Chosen(r.value)
  }

  /** Line 129. */
  predicate HeatmapReady(t: ChartType, r: Roles) {
    t == Heatmap && Chosen(r.x) && Chosen(r.y) && Chosen(r.color)
  }

  const PathSeparator := " > "

  /** Line 119: the layers joined by " > ", then the value column. */
  function SunburstTitle(path: seq<string>, value: string): (title: string)
    ensures |path| == 1 ==> title == path[0] + " Hiyerarşisine Göre " + value + " Dağılımı"
    ensures |path| == 2 ==> title == path[0] + " > " + path[1] + " Hiyerarşisine Göre " + value + " Dağılımı"
  {
    Text.Join(path, PathSeparator) + " Hiyerarşisine Göre " + value + " Dağılımı"
  }

  /** Every column a figure needs is named: no figure is partially configured. */
  predicate Complete(f: Figure) {
    match f
    case SunburstFigure(path, sizes, colorBy, _) =>
      1 <= |path| <= 2 && (forall p :: p in path ==> p != "") && sizes != "" && colorBy == path[0]
    case HeatmapFigure(x, y, z, _) => x != "" && y != "" && z != ""
    case BarFigure(x, _, _) => x != ""
    case PieFigure(names, _) => names != ""
    case ScatterFigure(x, _, _) => x != ""
  }

  /** Lines 108-141: what is drawn for a chart type and its role bindings. */
  function Plan(t: ChartType, r: Roles): (o: Outcome)
    ensures o.Incomplete? <==> !SunburstReady(t, r) && !HeatmapReady(t, r) && !Chosen(r.x)
    ensures o.Drawn? ==> Complete(o.figure)
    ensures (o.Drawn? && o.figure.SunburstFigure?) <==> SunburstReady(t, r)
    ensures (o.Drawn? && o.figure.HeatmapFigure?) <==> !SunburstReady(t, r) && HeatmapReady(t, r)
    ensures o.Drawn? && o.figure.HeatmapFigure? ==> o.figure == HeatmapFigure(r.x.value, r.y.value, r.color.value, Sum)
    ensures o.Drawn? && (o.figure.BarFigure? || o.figure.PieFigure? || o.figure.ScatterFigure?) ==>
              Chosen(r.x) && (t == Bar || t == Pie || t == Scatter)
    ensures o.Drawn? && o.figure.PieFigure? ==> o.figure == PieFigure(r.x.value, r.y)
    ensures o.Drawn? && o.figure.BarFigure? ==> t == Bar && o.figure == BarFigure(r.x.value, r.y, r.color)
    ensures o.Drawn? && o.figure.PieFigure? ==> t == Pie
    ensures o.Drawn? && o.figure.ScatterFigure? ==> t == Scatter && o.figure == ScatterFigure(r.x.value, r.y, r.color)
    ensures !SunburstReady(t, r) && !HeatmapReady(t, r) && Chosen(r.x) && (t == Bar || t == Pie || t == Scatter) ==> o.Drawn?
    ensures o == NothingDrawn <==>
              Chosen(r.x) && !SunburstReady(t, r) && !HeatmapReady(t, r) && t != Bar && t != Pie && t != Scatter
  {
    if SunburstReady(t, r) then
      var path := [r.layer1.value] + (if Chosen(r.layer2) then [r.layer2.value] else []);
      Drawn(SunburstFigure(path, r.value.value, r.layer1.value, SunburstTitle(path, r.value.value)))
    else if HeatmapReady(t, r) then
      Drawn(HeatmapFigure(r.x.value, r.y.value, r.color.value, Sum))
    else if Chosen(r.x) then
      match t
      case Bar => Drawn(BarFigure(r.x.value, r.y, r.color))
      case Pie => Drawn(PieFigure(r.x.value, r.y))
      case Scatter => Drawn(ScatterFigure(r.x.value, r.y, r.color))
      case _ => NothingDrawn
    else
      Incomplete
  }

  /**
   * The sunburst path is the first layer, then the second when it is set,
   * never reordered; the colour is the first layer and the title joins the
   * path with " > ".
   */
  lemma SunburstShape(r: Roles)
    requires SunburstReady(Sunburst, r)
    ensures Plan(Sunburst, r).Drawn?
    ensures var f := Plan(Sunburst, r).figure;
      && f.SunburstFigure?
      && f.sizes == r.value.value
      && f.colorBy == r.layer1.value
      && (Chosen(r.layer2) ==>
            f.path == [r.layer1.value, r.layer2.value]
            && f.title == r.layer1.value + " > " + r.layer2.value + " Hiyerarşisine Göre " + r.value.value + " Dağılımı")
      && (!Chosen(r.layer2) ==>
            f.path == [r.layer1.value]
            && f.title == r.layer1.value + " Hiyerarşisine Göre " + r.value.value + " Dağılımı")
  {
    if Chosen(r.layer2) {
      var path := [r.layer1.value, r.layer2.value];
      assert path[1..] == [r.layer2.value];
      assert Text.Join(path, PathSeparator) == r.layer1.value + " > " + r.layer2.value;
    }
  }

  /** Line and Histogram bind an x axis but no drawing code exists for them: nothing is drawn. */
  lemma LineAndHistogramDrawNothing(t: ChartType, answers: Roles)
    requires t == Line || t == Histogram
    ensures !Plan(t, Configure(t, answers)).Drawn?
  {
  }

  /** Treemap, Sankey, Network and Geo Map bind nothing and always show the settings message. */
  lemma UnimplementedAlwaysIncomplete(t: ChartType, answers: Roles)
    requires Unimplemented(t)
    ensures Plan(t, Configure(t, answers)) == Incomplete
  {
  }

  /** Through the settings panel, a sunburst is drawn exactly when its first layer and value are chosen. */
  lemma SunburstDrawnIffBound(answers: Roles)
    ensures Plan(Sunburst, Configure(Sunburst, answers)).Drawn? <==> Chosen(answers.layer1) && Chosen(answers.value)
  {
  }

  /**
   * Lines 107-141 as the script runs them: the sunburst path is built by
   * appending, and the fallback branch draws only if one of its cases set a figure.
   */
  method Render(t: ChartType, r: Roles) returns (o: Outcome)
    ensures o == Plan(t, r)
  {
    if t == Sunburst && Chosen(r.layer1) && Chosen(r.value) {
      var path := [r.layer1.value];
      if Chosen(r.layer2) {
        path := path + [r.layer2.value];
      }
      o := Drawn(SunburstFigure(path, r.value.value, r.layer1.value, SunburstTitle(path, r.value.value)));
    } else if t == Heatmap && Chosen(r.x) && Chosen(r.y) && Chosen(r.color) {
      o := Drawn(HeatmapFigure(r.x.value, r.y.value, r.color.value, Sum));
    } else if Chosen(r.x) {
      var fig: Option<Figure> := None;
      if t == Bar {
        fig := Some(BarFigure(r.x.value, r.y, r.color));
      } else if t == Pie {
        fig := Some(PieFigure(r.x.value, r.y));
      } else if t == Scatter {
        fig := Some(ScatterFigure(r.x.value, r.y, r.color));
      }
      o := if fig.Some? then Drawn(fig.value) else NothingDrawn;
    } else {
      o := Incomplete;
    }
  }
}
