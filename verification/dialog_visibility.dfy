/**
 * Which inputs of the custom-graphics dialog are shown for the chosen kind of object and
 * colour effect, and the line-style scale slider that only a patterned line needs.
 */
module DialogVisibility {
  import opened Wrappers
  import opened Appearances

  const SolidEffect := "SolidColorEfect"
  const BasicMaterialEffect := "BasicMaterialColorEffect"
  const AppearanceEffect := "AppearanceColorEffect"
  const VertexEffect := "VertexColorEffect"

  const SolidLine := "Solid Line"

  const Mesh := "Mesh"
  const Lines := "Lines"
  const PointSet := "PointSet"
  const Curve := "Curve"
  const BRep := "BRep"
  const CustomLines := "Lines - Custom"
  const CustomPointSet := "PointSet - Custom"

  // ---------------------------------------------------------------------------------
  // Colour-effect inputs

  /** The eight inputs that configure a colour effect. */
  datatype EffectInput = Red | Green | Blue | Opacity | Glossiness | AppearanceList | MaterialLib | AppearanceFilter

  /** The visibility of each colour-effect input. */
  datatype EffectInputs = EffectInputs(red: bool, green: bool, blue: bool, opacity: bool, glossiness: bool,
                                       appearanceList: bool, materialLib: bool, appearanceFilter: bool)

  function Shown(e: EffectInputs, i: EffectInput): bool
  {
    match i
    case Red => e.red
    case Green => e.green
    case Blue => e.blue
    case Opacity => e.opacity
    case Glossiness => e.glossiness
    case AppearanceList => e.appearanceList
    case MaterialLib => e.materialLib
    case AppearanceFilter => e.appearanceFilter
  }

  /** The inputs each effect is configured with: a solid colour by its red, green and blue
      sliders, a basic material by opacity and glossiness, an appearance by the library, the
      filter and the appearance list; any other effect by none. */
  function EffectGroup(effect: string): set<EffectInput>
  {
    if effect == SolidEffect then {Red, Green, Blue}
    else if effect == BasicMaterialEffect then {Opacity, Glossiness}
    else if effect == AppearanceEffect then {AppearanceList, MaterialLib, AppearanceFilter}
    else {}
  }

  /** `changeColorEffectVisibility`: hide all eight inputs, then show the effect's own. */
  function ChangeColorEffectVisibility(e: EffectInputs, effect: string): (r: EffectInputs)
    ensures forall i :: Shown(r, i) <==> i in EffectGroup(effect)
  {
    var hidden := e.(red := false, green := false, blue := false, opacity := false, glossiness := false,
                     appearanceList := false, materialLib := false, appearanceFilter := false);
    if effect == SolidEffect then hidden.(red := true, green := true, blue := true)
    else if effect == BasicMaterialEffect then hidden.(opacity := true, glossiness := true)
    else if effect == AppearanceEffect then
      hidden.(appearanceList := true, materialLib := true, appearanceFilter := true)
    else hidden
  }

  /** What was shown before does not matter: every input is set. */
  lemma {:induction false} ColorEffectForgetsPrevious(e1: EffectInputs, e2: EffectInputs, effect: string)
    ensures ChangeColorEffectVisibility(e1, effect) == ChangeColorEffectVisibility(e2, effect)
  {
    var r1, r2 := ChangeColorEffectVisibility(e1, effect), ChangeColorEffectVisibility(e2, effect);
    assert forall i :: Shown(r1, i) == Shown(r2, i);
    assert Shown(r1, Red) == Shown(r2, Red) && Shown(r1, Green) == Shown(r2, Green);
    assert Shown(r1, Blue) == Shown(r2, Blue) && Shown(r1, Opacity) == Shown(r2, Opacity);
    assert Shown(r1, Glossiness) == Shown(r2, Glossiness);
    assert Shown(r1, AppearanceList) == Shown(r2, AppearanceList);
    assert Shown(r1, MaterialLib) == Shown(r2, MaterialLib);
    assert Shown(r1, AppearanceFilter) == Shown(r2, AppearanceFilter);
  }

  /** No input serves two effects, so at most one effect's inputs are ever on show. */
  lemma EffectGroupsDisjoint(effect1: string, effect2: string)
    requires EffectGroup(effect1) != {} && EffectGroup(effect2) != {}
    ensures effect1 != effect2 <==> EffectGroup(effect1) * EffectGroup(effect2) == {}
  {
    if effect1 != effect2 {
      assert EffectGroup(effect1) * EffectGroup(effect2) == {};
    } else {
      var i :| i in EffectGroup(effect1);
      assert i in EffectGroup(effect1) * EffectGroup(effect2);
    }
  }

  // ---------------------------------------------------------------------------------
  // The dialog

  /** The selection input: shown, enabled, how many entities it holds, its filters and its
      minimum and maximum counts. */
  datatype Selection = Selection(visible: bool, enabled: bool, count: nat, filters: seq<string>, limits: (nat, nat))

  /** The visibility of the line-style pattern, weight and scale inputs. */
  datatype LineStyle = LineStyle(pattern: bool, weight: bool, scale: bool)

  /** The coordinate table and its line-strip check box shown or not, and the "add strip"
      button enabled or not. */
  datatype TableInputs = TableInputs(table: bool, lineStrip: bool, addStripEnabled: bool)

  /** The visibility of the view-placement, view-scale and billboarding groups. */
  datatype Groups = Groups(placement: bool, viewScale: bool, billboard: bool)

  /** The dialog state that the visibility functions set. */
  datatype Dialog = Dialog(effects: DropDown, effectsVisible: bool, effectInputs: EffectInputs,
                           selection: Selection, lineStyle: LineStyle, table: TableInputs, groups: Groups)

  /** `changeLineStyleInputsVisibility`: the scale slider is for patterned lines only. */
  function ChangeLineStyleInputsVisibility(d: Dialog, pattern: string): (r: Dialog)
    ensures r.lineStyle.scale <==> pattern != SolidLine
    ensures r.(lineStyle := d.lineStyle) == d && r.lineStyle.(scale := d.lineStyle.scale) == d.lineStyle
  {
    d.(lineStyle := d.lineStyle.(scale := pattern != SolidLine))
  }

  /** The first part of `changeCGObjVisibility`: the effect list back to its three standard
      effects with the solid colour selected, the selection emptied and without filters, and
      every object-specific input and group hidden. */
  function ResetDialog(d: Dialog): Dialog
  {
    var effects := AddItem(AddItem(AddItem(Clear(d.effects), SolidEffect, true), BasicMaterialEffect, false),
                           AppearanceEffect, false);
    d.(effects := effects, effectsVisible := false,
       selection := Selection(false, false, 0, [], (0, 0)),
       table := d.table.(table := false, lineStrip := false),
       lineStyle := LineStyle(false, false, false),
       effectInputs := ChangeColorEffectVisibility(d.effectInputs, "None"),
       groups := Groups(false, false, false))
  }

  function ShowGroups(d: Dialog): Dialog
  {
    d.(groups := Groups(true, true, true))
  }

  function ShowSolidColor(d: Dialog): Dialog
  {
    d.(effectInputs := ChangeColorEffectVisibility(d.effectInputs, SolidEffect))
  }

  /** The selection filter each sample asks for when a sketch curve is to be picked. */
  function CurveFilter(lang: Lang): string
  {
    if lang == Cpp then "SketchCurve" else "SketchCurves"
  }

  /** The second part of `changeCGObjVisibility`, apart from the scale slider: show what
      object `obj` needs. */
  function ShowObject(lang: Lang, d: Dialog, obj: string): Dialog
  {
    if obj == Mesh then
      ShowGroups(ShowSolidColor(d.(effectsVisible := true, effects := AddItem(d.effects, VertexEffect, false))))
    else if obj == Lines then
      ShowGroups(ShowSolidColor(d).(lineStyle := d.lineStyle.(pattern := true, weight := true)))
    else if obj == Curve then
      ShowGroups(ShowSolidColor(d.(selection := d.selection.(visible := true, enabled := true,
                                     filters := d.selection.filters + [CurveFilter(lang)], limits := (1, 1))))
                 .(lineStyle := d.lineStyle.(weight := true)))
    else if obj == BRep then
      ShowGroups(ShowSolidColor(d.(effectsVisible := true, selection := d.selection.(visible := true, enabled := true,
                                     filters := d.selection.filters + ["Bodies"], limits := (1, 1)))))
    else if obj == CustomPointSet then
      d.(table := d.table.(table := true, addStripEnabled := false))
    else if obj == CustomLines then
      ShowSolidColor(d.(table := TableInputs(true, true, true)))
        .(lineStyle := d.lineStyle.(pattern := true, weight := true))
    else d
  }

  /** The scale slider of a line object set to `scale`; other objects leave it alone. */
  function WithScale(d: Dialog, obj: string, scale: bool): Dialog
  {
    if UsesLineStyle(obj) then d.(lineStyle := d.lineStyle.(scale := scale)) else d
  }

  /** Whether the scale slider of a line object is shown for the selected pattern: for every
      pattern except the solid line, as `changeLineStyleInputsVisibility` decides. */
  function ScaleShown(pattern: string): (b: bool)
  {
    pattern != SolidLine
  }

  /** The C++ sample's test, as written: the scale slider is shown for the solid line only. */
  function CppScaleShownAsWritten(pattern: string): (b: bool)
  {
    pattern == SolidLine
  }

  /** `changeCGObjVisibility` with the scale slider following the selected pattern, as the
      Python sample does it; the C++ sample apart from its inverted scale test (see
      `CppChangeCGObjVisibilityAsWritten`). */
  function ChangeCGObjVisibility(lang: Lang, d: Dialog, obj: string, pattern: string): (r: Dialog)
  {
    WithScale(ShowObject(lang, ResetDialog(d), obj), obj, ScaleShown(pattern))
  }

  /** C++ `changeCGObjVisibility` exactly as written. */
  function CppChangeCGObjVisibilityAsWritten(d: Dialog, obj: string, pattern: string): (r: Dialog)
  {
    WithScale(ShowObject(Cpp, ResetDialog(d), obj), obj, CppScaleShownAsWritten(pattern))
  }

  // ---------------------------------------------------------------------------------
  // Which inputs each object uses

  predicate UsesGroups(obj: string)
  {
    obj == Mesh || obj == Lines || obj == Curve || obj == BRep
  }

  predicate UsesSelection(obj: string)
  {
    obj == Curve || obj == BRep
  }

  predicate UsesTable(obj: string)
  {
    obj == CustomPointSet || obj == CustomLines
  }

  predicate UsesLineStyle(obj: string)
  {
    obj == Lines || obj == CustomLines
  }

  predicate UsesSolidColor(obj: string)
  {
    obj == Mesh || obj == Lines || obj == Curve || obj == BRep || obj == CustomLines
  }

  /** The input table of `changeCGObjVisibility`, input by input: what each object shows,
      whatever was shown before. */
  lemma {:induction false} CGObjVisibilityTable(lang: Lang, d: Dialog, obj: string, pattern: string)
    ensures var r := ChangeCGObjVisibility(lang, d, obj, pattern);
      && r.effects.items == [SolidEffect, BasicMaterialEffect, AppearanceEffect] + (if obj == Mesh then [VertexEffect] else [])
      && r.effects.selected == Some(0)
      && (r.effectsVisible <==> obj == Mesh || obj == BRep)
      && (forall i :: Shown(r.effectInputs, i) <==> UsesSolidColor(obj) && i in EffectGroup(SolidEffect))
      && r.selection.count == 0
      && (r.selection.visible <==> UsesSelection(obj)) && (r.selection.enabled <==> UsesSelection(obj))
      && r.selection.limits == (if UsesSelection(obj) then (1, 1) else (0, 0))
      && r.selection.filters == (if obj == Curve then [CurveFilter(lang)] else if obj == BRep then ["Bodies"] else [])
      && (r.table.table <==> UsesTable(obj)) && (r.table.lineStrip <==> obj == CustomLines)
      && (r.lineStyle.pattern <==> UsesLineStyle(obj)) && (r.lineStyle.weight <==> UsesLineStyle(obj) || obj == Curve)
      && (r.lineStyle.scale <==> UsesLineStyle(obj) && pattern != SolidLine)
      && r.groups == (if UsesGroups(obj) then Groups(true, true, true) else Groups(false, false, false))
      && r.table.addStripEnabled ==
        (if obj == CustomPointSet then false else if obj == CustomLines then true else d.table.addStripEnabled)
  {
    var base := ResetDialog(d);
    assert base.effects.items == [SolidEffect, BasicMaterialEffect, AppearanceEffect];
    assert base.effects.items + [VertexEffect] == [SolidEffect, BasicMaterialEffect, AppearanceEffect, VertexEffect];
    assert base.selection.filters + [CurveFilter(lang)] == [CurveFilter(lang)];
    assert base.selection.filters + ["Bodies"] == ["Bodies"];
  }

  /** With the corrected test, switching the object and then the pattern agrees with the
      pattern handler: a line object shows the scale slider exactly when the pattern handler
      would, so running the handler afterwards changes nothing. */
  lemma {:induction false} ScaleAgreesWithPatternHandler(lang: Lang, d: Dialog, obj: string, pattern: string)
    requires UsesLineStyle(obj)
    ensures ChangeCGObjVisibility(lang, d, obj, pattern).lineStyle.scale ==
      ChangeLineStyleInputsVisibility(d, pattern).lineStyle.scale
    ensures ChangeLineStyleInputsVisibility(ChangeCGObjVisibility(lang, d, obj, pattern), pattern) ==
      ChangeCGObjVisibility(lang, d, obj, pattern)
  {
    var r := ChangeCGObjVisibility(lang, d, obj, pattern);
    assert r.lineStyle.scale == ScaleShown(pattern);
    assert r.lineStyle.(scale := pattern != SolidLine) == r.lineStyle;
  }

  /** The C++ code as written disagrees with its own pattern handler: choosing "Lines" while
      "Solid Line" is selected shows the scale slider, which the pattern handler hides for that
      very pattern; for every other pattern it is hidden, though the handler would show it. */
  lemma {:induction false} CppScaleInverted(d: Dialog, obj: string, pattern: string)
    requires UsesLineStyle(obj)
    ensures CppChangeCGObjVisibilityAsWritten(d, obj, pattern).lineStyle.scale ==
      !ChangeLineStyleInputsVisibility(d, pattern).lineStyle.scale
    ensures CppChangeCGObjVisibilityAsWritten(d, Lines, SolidLine).lineStyle.scale
    ensures !ChangeLineStyleInputsVisibility(d, SolidLine).lineStyle.scale
  {
    assert CppChangeCGObjVisibilityAsWritten(d, obj, pattern).lineStyle.scale == CppScaleShownAsWritten(pattern);
    assert CppChangeCGObjVisibilityAsWritten(d, Lines, SolidLine).lineStyle.scale == CppScaleShownAsWritten(SolidLine);
  }

  /** Apart from that one slider, the code as written and the corrected function agree. */
  lemma {:induction false} CppAsWrittenDiffersOnlyInScale(d: Dialog, obj: string, pattern: string)
    ensures CppChangeCGObjVisibilityAsWritten(d, obj, pattern) ==
      WithScale(ChangeCGObjVisibility(Cpp, d, obj, pattern), obj, CppScaleShownAsWritten(pattern))
  {
    var shown := ShowObject(Cpp, ResetDialog(d), obj);
    if UsesLineStyle(obj) {
      assert shown.lineStyle.(scale := ScaleShown(pattern)).(scale := CppScaleShownAsWritten(pattern))
        == shown.lineStyle.(scale := CppScaleShownAsWritten(pattern));
    }
  }
}
