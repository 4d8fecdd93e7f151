/**
 * What the execute handler of the custom-graphics dialog does with the inputs: the line
 * style given to drawn lines, which entity is drawn for the selected object, whether it takes
 * a colour effect, and which view-placement corner and billboarding style it gets.
 */
module GraphicsExecute {
  import opened Wrappers
  import opened CoordTable
  import opened DialogVisibility

  // ---------------------------------------------------------------------------------
  // Line style

  datatype LinePattern = Continuous | CenterLine | Dashed | Dot | Phantom | Tracks | ZigZag

  /** The item of the line-style drop-down that stands for each pattern. */
  function PatternName(p: LinePattern): string
  {
    match p
    case Continuous => SolidLine
    case CenterLine => "Center Line"
    case Dashed => "Dashed Line"
    case Dot => "Dot Line"
    case Phantom => "Phantom Line"
    case Tracks => "Tracks Line"
    case ZigZag => "ZigZag Line"
  }

  /** The comparison cascade of C++ `applyLinesProperties`, in its order; it tests
      "Dashed Line" a second time after "Dot Line", a test that can never succeed. */
  function PatternFor(name: string): Option<LinePattern>
  {
    if name == SolidLine then Some(Continuous)
    else if name == "Center Line" then Some(CenterLine)
    else if name == "Dashed Line" then Some(Dashed)
    else if name == "Dot Line" then Some(Dot)
    else if name == "Dashed Line" then Some(Dashed)
    else if name == "Phantom Line" then Some(Phantom)
    else if name == "Tracks Line" then Some(Tracks)
    else if name == "ZigZag Line" then Some(ZigZag)
    else None
  }

  /** Every item of the drop-down selects its own pattern, and nothing else selects one. */
  lemma PatternForInvertsName(name: string, p: LinePattern)
    ensures PatternFor(name) == Some(p) <==> name == PatternName(p)
  {
  }

  lemma PatternForNames()
    ensures forall p :: PatternFor(PatternName(p)) == Some(p)
  {
    forall p {
      PatternForInvertsName(PatternName(p), p);
    }
  }

  /** The line-style attributes of a lines entity. */
  datatype LinesStyle = LinesStyle(pattern: LinePattern, weight: real, scale: real)

  /** C++ `applyLinesProperties`: the pattern of the selected item, when one is selected and
      known, then the weight and scale slider values. */
  function ApplyLinesProperties(style: LinesStyle, selected: Option<string>, weight: int, scale: int): (r: LinesStyle)
    ensures forall p :: selected == Some(PatternName(p)) ==> r.pattern == p
    ensures (selected.None? || forall p :: selected.value != PatternName(p)) ==> r.pattern == style.pattern
    ensures r.weight == weight as real && r.scale == scale as real
  {
    var pattern :=
      if selected.Some? && PatternFor(selected.value).Some? then PatternFor(selected.value).value else style.pattern;
    PatternForNames();
    LinesStyle(pattern, weight as real, scale as real)
  }

  // ---------------------------------------------------------------------------------
  // View placement and billboarding

  datatype ViewCorner = UpperLeft | UpperRight | LowerLeft | LowerRight

  /** The items of the view-corner button row. */
  function CornerName(c: ViewCorner): string
  {
    match c
    case UpperLeft => "Upper Left"
    case UpperRight => "Upper Right"
    case LowerLeft => "Lower Left"
    case LowerRight => "Lower Right"
  }

  /** The corner for the selected item: upper left unless another corner is named. */
  function CornerFor(name: string): (c: ViewCorner)
  {
    if name == "Upper Right" then UpperRight
    else if name == "Lower Left" then LowerLeft
    else if name == "Lower Right" then LowerRight
    else UpperLeft
  }

  lemma CornerForInvertsName(name: string, c: ViewCorner)
    ensures CornerFor(CornerName(c)) == c
    ensures CornerFor(name) != UpperLeft <==> name in {CornerName(UpperRight), CornerName(LowerLeft), CornerName(LowerRight)}
  {
  }

  datatype BillboardStyle = ScreenStyle | AxialStyle | RightReadingStyle

  /** The items of the billboarding-style button row. */
  function BillboardName(b: BillboardStyle): string
  {
    match b
    case ScreenStyle => "Screen"
    case AxialStyle => "Axis"
    case RightReadingStyle => "Right Reading"
  }

  /** The style for the selected item: screen unless another style is named. */
  function BillboardFor(name: string): BillboardStyle
  {
    if name == "Axis" then AxialStyle
    else if name == "Right Reading" then RightReadingStyle
    else ScreenStyle
  }

  lemma BillboardForInvertsName(name: string, b: BillboardStyle)
    ensures BillboardFor(BillboardName(b)) == b
    ensures BillboardFor(name) != ScreenStyle <==> name in {BillboardName(AxialStyle), BillboardName(RightReadingStyle)}
  {
  }

  // ---------------------------------------------------------------------------------
  // The Python execute handler

  datatype Entity = MeshEntity | LinesEntity | PointSetEntity | BRepEntity | CurveEntity
                  | CustomPointSetEntity | CustomLinesEntity

  /** The entity each item of the object drop-down stands for. */
  function EntityName(e: Entity): string
  {
    match e
    case MeshEntity => Mesh
    case LinesEntity => Lines
    case PointSetEntity => PointSet
    case BRepEntity => BRep
    case CurveEntity => Curve
    case CustomPointSetEntity => CustomPointSet
    case CustomLinesEntity => CustomLines
  }

  predicate IsPointSet(e: Entity)
  {
    e == PointSetEntity || e == CustomPointSetEntity
  }

  /** What a handler sets on the line style of the entity it draws: nothing; the weight alone
      (a curve); or the pattern the name cascade picks (None when no name matches and the
      host's default stays), the weight and the scale (lines). */
  datatype LineStyleSet = NoLineStyle | WeightSet(weight: real)
                        | StyleSet(pattern: Option<LinePattern>, weight: real, scale: real)

  /** The attributes the handler gives a drawn entity. */
  datatype Drawn = Drawn(entity: Entity, colored: bool, corner: Option<ViewCorner>, viewScaled: bool,
                         billboard: Option<BillboardStyle>, lineStyle: LineStyleSet)

  /** The Python handler's line style: `drawLines` runs the pattern cascade and sets weight and
      scale on the gear lines, the curve branch sets the weight, and nothing else -- the custom
      lines included -- gets any line style. */
  function PyLineStyleFor(e: Entity, pattern: string, weight: int, scale: int): LineStyleSet
  {
    match e
    case LinesEntity => StyleSet(PatternFor(pattern), weight as real, scale as real)
    case CurveEntity => WeightSet(weight as real)
    case _ => NoLineStyle
  }

  /** The C++ handler's line style: `applyLinesProperties` on the gear lines and on the custom
      lines alike (the pattern only when one is selected), the weight on a curve. */
  function LineStyleFor(e: Entity, pattern: Option<string>, weight: int, scale: int): LineStyleSet
  {
    match e
    case LinesEntity => StyleSet(if pattern.Some? then PatternFor(pattern.value) else None, weight as real, scale as real)
    case CustomLinesEntity => StyleSet(if pattern.Some? then PatternFor(pattern.value) else None, weight as real, scale as real)
    case CurveEntity => WeightSet(weight as real)
    case _ => NoLineStyle
  }

  /** The check boxes of the view-placement, view-scale and billboarding groups. */
  datatype Checks = Checks(placement: bool, viewScale: bool, billboard: bool)

  /** The entity the execute handler of the Python sample draws for the selected object; None
      when it draws nothing or stops first (a body or curve without a selection, an unknown
      object, a table read that fails, custom lines without a coordinate). */
  method PyEntityFor(obj: string, hasSelection: bool, table: Option<Table>) returns (r: Option<Entity>)
    ensures r.Some? ==> EntityName(r.value) == obj
    ensures obj in {Mesh, Lines, PointSet} ==> r.Some?
    ensures obj in {BRep, Curve} ==> (r.Some? <==> hasSelection)
    ensures obj == CustomPointSet ==>
      (r.Some? <==> table.None? || forall i :: 0 <= i < |table.value.rows| ==> !Broken(table.value.rows[i]))
    ensures obj == CustomLines ==>
      (r.Some? <==> table.Some? && (forall i :: 0 <= i < |table.value.rows| ==> !Broken(table.value.rows[i]))
                    && Coords(table.value.rows) != [])
  {
    if obj == Mesh {
      r := Some(MeshEntity);
    } else if obj == Lines {
      r := Some(LinesEntity);
    } else if obj == PointSet {
      r := Some(PointSetEntity);
    } else if obj == BRep {
      r := if hasSelection then Some(BRepEntity) else None;
    } else if obj == Curve {
      r := if hasSelection then Some(CurveEntity) else None;
    } else if obj == CustomPointSet {
      var read := PyGetCoordinatesFromTable(table);
      r := if read.None? then None else Some(CustomPointSetEntity);
    } else if obj == CustomLines {
      var read := PyGetCoordinatesFromTable(table);
      r := if read.None? || |read.value.0| / 3 < 1 then None else Some(CustomLinesEntity);
    } else {
      r := None;
    }
  }

  /** The execute handler of the Python sample, from the selected object to the attributes of
      what it draws: a colour effect for everything but point sets, and view placement, view
      scale and billboarding when their group is shown and checked. */
  method PyExecute(obj: string, hasSelection: bool, table: Option<Table>, groups: Groups, checks: Checks,
                   corner: Option<string>, billboard: Option<string>, pattern: string, weight: int, scale: int)
    returns (r: Option<Drawn>)
    ensures r.Some? ==> EntityName(r.value.entity) == obj
    ensures obj in {Mesh, Lines, PointSet} ==> r.Some?
    ensures obj in {BRep, Curve} ==> (r.Some? <==> hasSelection)
    ensures obj == CustomPointSet ==>
      (r.Some? <==> table.None? || forall i :: 0 <= i < |table.value.rows| ==> !Broken(table.value.rows[i]))
    ensures obj == CustomLines ==>
      (r.Some? <==> table.Some? && (forall i :: 0 <= i < |table.value.rows| ==> !Broken(table.value.rows[i]))
                    && Coords(table.value.rows) != [])
    ensures r.Some? ==> (r.value.colored <==> !IsPointSet(r.value.entity))
    ensures r.Some? ==> (r.value.corner.Some? <==> groups.placement && checks.placement && corner.Some?)
    ensures r.Some? && r.value.corner.Some? ==> r.value.corner.value == CornerFor(corner.value)
    ensures r.Some? ==> (r.value.viewScaled <==> groups.viewScale && checks.viewScale)
    ensures r.Some? ==> (r.value.billboard.Some? <==> groups.billboard && checks.billboard && billboard.Some?)
    ensures r.Some? && r.value.billboard.Some? ==> r.value.billboard.value == BillboardFor(billboard.value)
    ensures r.Some? && obj == Lines ==>
      r.value.lineStyle == StyleSet(PatternFor(pattern), weight as real, scale as real)
    ensures r.Some? && obj == Curve ==> r.value.lineStyle == WeightSet(weight as real)
    ensures r.Some? && obj != Lines && obj != Curve ==> r.value.lineStyle == NoLineStyle
  {
    var entity := PyEntityFor(obj, hasSelection, table);
    if entity.None? {
      return None;
    }
    var e := entity.value;
    var placement := if groups.placement && checks.placement && corner.Some? then Some(CornerFor(corner.value)) else None;
    var style := if groups.billboard && checks.billboard && billboard.Some? then Some(BillboardFor(billboard.value)) else None;
    r := Some(Drawn(e, !IsPointSet(e), placement, groups.viewScale && checks.viewScale, style,
                    PyLineStyleFor(e, pattern, weight, scale)));
  }

  /** Only the objects that show the attribute groups can receive view placement, view scale
      or billboarding: after the object drop-down has been switched to `obj`, a point set or a
      custom object never gets any of them. */
  lemma {:induction false} AttributesNeedGroups(d: Dialog, obj: string, pattern: string)
    ensures var g := ChangeCGObjVisibility(Python, d, obj, pattern).groups;
      (g.placement || g.viewScale || g.billboard) <==> UsesGroups(obj)
  {
    CGObjVisibilityTable(Python, d, obj, pattern);
  }

  /** The Python handler as written ignores the line style of the custom lines: choosing
      "Lines - Custom" shows the pattern and weight inputs, yet the drawn lines get no line
      style at all. */
  lemma PyCustomLinesIgnoreShownStyle(d: Dialog, pattern: string, weight: int, scale: int)
    ensures ChangeCGObjVisibility(Python, d, CustomLines, pattern).lineStyle.pattern
    ensures ChangeCGObjVisibility(Python, d, CustomLines, pattern).lineStyle.weight
    ensures PyLineStyleFor(CustomLinesEntity, pattern, weight, scale) == NoLineStyle
  {
    CGObjVisibilityTable(Python, d, CustomLines, pattern);
  }

  /** With the C++ handler's choice, every drawn entity gets a pattern exactly when the dialog
      shows the pattern input for its object, and some line style exactly when it shows the
      weight input. */
  lemma StyleUsesShownInputs(lang: Lang, d: Dialog, e: Entity, pattern: string, weight: int, scale: int)
    ensures var shown := ChangeCGObjVisibility(lang, d, EntityName(e), pattern).lineStyle;
      var applied := LineStyleFor(e, Some(pattern), weight, scale);
      (applied.StyleSet? <==> shown.pattern) && (applied != NoLineStyle <==> shown.weight)
  {
    CGObjVisibilityTable(lang, d, EntityName(e), pattern);
  }
}
