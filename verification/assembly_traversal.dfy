/**
 * The assembly-traversal sample: a report of an assembly's occurrence tree, one line per
 * occurrence in depth-first order, each name indented five blanks per level below the root,
 * under a title naming the document.
 */
module AssemblyTraversal {
  import opened Wrappers
  import opened Text

  /** An occurrence list as the API hands it out: items that may be null. */
  datatype OccurrenceList = OccurrenceList(items: seq<Option<Occurrence>>)

  /** An occurrence: its name and its child occurrences (a list that may be missing). */
  datatype Occurrence = Occurrence(name: string, children: Option<OccurrenceList>)

  /** The `spaces` loop of both samples: `spaceCount` blanks, added one at a time. */
  method SpacesLoop(spaceCount: nat) returns (result: string)
    ensures |result| == spaceCount
    ensures forall k :: 0 <= k < |result| ==> result[k] == ' '
    ensures result == Spaces(spaceCount)
  {
    result := "";
    var i := 0;
    while i < spaceCount
      invariant i <= spaceCount
      invariant |result| == i
      invariant forall k :: 0 <= k < |result| ==> result[k] == ' '
      invariant result == Spaces(i)
    {
      result := result + " ";
      i := i + 1;
    }
  }

  /** C++ `traverseAssembly` on a list handle: a null list leaves the text as it was; otherwise
      the text is extended by the rendered outline of the list and nothing in it is altered. */
  function TraverseAssembly(occurrences: Option<OccurrenceList>, level: nat, acc: string): (r: string)
    ensures occurrences.None? ==> r == acc
    ensures occurrences.Some? ==> r == acc + Render(Outline(occurrences.value, 0, level))
    ensures acc <= r
  {
    match occurrences
    case None => acc
    case Some(list) =>
      TraverseRendersOutline(list, 0, level, acc);
      Traverse(list, 0, level, acc)
  }

  /** C++ `traverseAssembly`, from item `i` of `list` on: each non-null occurrence appends its
      indented name and then, recursively one level deeper, its children; null items are
      skipped. */
  function Traverse(list: OccurrenceList, i: nat, level: nat, acc: string): string
    requires i <= |list.items|
    decreases list, |list.items| - i, 1
  {
    if i == |list.items| then acc else Traverse(list, i + 1, level, Visit(list, i, level, acc))
  }

  /** The body of the C++ loop for item `i`. */
  function Visit(list: OccurrenceList, i: nat, level: nat, acc: string): string
    requires i < |list.items|
    decreases list, |list.items| - i, 0
  {
    match list.items[i]
    case None => acc
    case Some(o) =>
      var line := acc + Spaces(level * 5) + o.name + "\n";
      if o.children.Some? then Traverse(o.children.value, 0, level + 1, line) else line
  }

  /** Some occurrence reachable from item `i` on is null. */
  predicate HasNullItem(list: OccurrenceList, i: nat)
    requires i <= |list.items|
    decreases list, |list.items| - i
  {
    if i == |list.items| then false
    else
      match list.items[i]
      case None => true
      case Some(o) => (o.children.Some? && HasNullItem(o.children.value, 0)) || HasNullItem(list, i + 1)
  }

  /** Python `traverseAssembly`: the same report, except that reading the name of a null
      occurrence raises. */
  function PyTraverse(list: OccurrenceList, i: nat, level: nat, acc: string): (r: Result<string>)
    requires i <= |list.items|
    ensures r.Success? <==> !HasNullItem(list, i)
    ensures r.Success? ==> r.value == Traverse(list, i, level, acc)
    decreases list, |list.items| - i
  {
    if i == |list.items| then Success(acc)
    else
      match list.items[i]
      case None => Failure("AttributeError: 'NoneType' object has no attribute 'name'")
      case Some(o) =>
        var line := acc + Spaces(level * 5) + o.name + "\n";
        var below := if o.children.Some? then PyTraverse(o.children.value, 0, level + 1, line) else Success(line);
        if below.Failure? then below else PyTraverse(list, i + 1, level, below.value)
  }

  /** The title line of the report. */
  function Title(documentName: string): string
  {
    "Root (" + documentName + ")\n"
  }

  /** The whole report: the title, then the root component's occurrences from level one. */
  function Report(documentName: string, root: OccurrenceList): string
  {
    Traverse(root, 0, 1, Title(documentName))
  }

  // ---------------------------------------------------------------------------------
  // Reference: the outline of the tree

  /** One line of the report: an occurrence's depth and name. */
  datatype Line = Line(depth: nat, name: string)

  /** Reference definition: the non-null occurrences from item `i` on, each followed by its
      descendants, with their depths. */
  function Outline(list: OccurrenceList, i: nat, level: nat): (r: seq<Line>)
    requires i <= |list.items|
    ensures forall k :: 0 <= k < |r| ==> r[k].depth >= level
    decreases list, |list.items| - i, 1
  {
    if i == |list.items| then [] else OutlineAt(list, i, level) + Outline(list, i + 1, level)
  }

  /** The outline of item `i` alone: nothing for a null item, else the occurrence followed by
      its descendants. */
  function OutlineAt(list: OccurrenceList, i: nat, level: nat): (r: seq<Line>)
    requires i < |list.items|
    ensures forall k :: 0 <= k < |r| ==> r[k].depth >= level
    decreases list, |list.items| - i, 0
  {
    match list.items[i]
    case None => []
    case Some(o) => [Line(level, o.name)] + (if o.children.Some? then Outline(o.children.value, 0, level + 1) else [])
  }

  /** A line as printed, without its line break. */
  function Indented(l: Line): string
  {
    Spaces(l.depth * 5) + l.name
  }

  /** The lines, each followed by a line break. */
  function Render(lines: seq<Line>): string
  {
    if lines == [] then "" else Indented(lines[0]) + "\n" + Render(lines[1..])
  }

  lemma {:induction false} RenderAppend(a: seq<Line>, b: seq<Line>)
    ensures Render(a + b) == Render(a) + Render(b)
  {
    if a != [] {
      assert (a + b)[0] == a[0];
      assert (a + b)[1..] == a[1..] + b;
      RenderAppend(a[1..], b);
      assert Render(a + b) == Indented(a[0]) + "\n" + Render(a[1..] + b);
    } else {
      assert a + b == b;
    }
  }

  /** The traversal appends exactly the rendered outline to what it was given. */
  lemma {:induction false} TraverseRendersOutline(list: OccurrenceList, i: nat, level: nat, acc: string)
    requires i <= |list.items|
    ensures Traverse(list, i, level, acc) == acc + Render(Outline(list, i, level))
    decreases list, |list.items| - i, 1
  {
    if i < |list.items| {
      var acc1 := Visit(list, i, level, acc);
      var here, rest := OutlineAt(list, i, level), Outline(list, i + 1, level);
      assert Traverse(list, i, level, acc) == Traverse(list, i + 1, level, acc1);
      assert Outline(list, i, level) == here + rest;
      VisitRendersOutline(list, i, level, acc);
      TraverseRendersOutline(list, i + 1, level, acc1);
      RenderAppend(here, rest);
      assert acc1 + Render(rest) == acc + (Render(here) + Render(rest));
    }
  }

  lemma {:induction false} VisitRendersOutline(list: OccurrenceList, i: nat, level: nat, acc: string)
    requires i < |list.items|
    ensures Visit(list, i, level, acc) == acc + Render(OutlineAt(list, i, level))
    decreases list, |list.items| - i, 0
  {
    match list.items[i]
    case None =>
    case Some(o) =>
      var line := acc + Spaces(level * 5) + o.name + "\n";
      var below := if o.children.Some? then Outline(o.children.value, 0, level + 1) else [];
      var here := [Line(level, o.name)] + below;
      assert OutlineAt(list, i, level) == here;
      assert here[1..] == below;
      assert Render(here) == Indented(Line(level, o.name)) + "\n" + Render(below);
      assert acc + Render(here) == line + Render(below);
      if o.children.Some? {
        TraverseRendersOutline(o.children.value, 0, level + 1, line);
        assert Visit(list, i, level, acc) == Traverse(o.children.value, 0, level + 1, line);
      } else {
        assert below == [];
        assert Visit(list, i, level, acc) == line;
      }
  }

  /** A rendered outline is its indented lines joined by line breaks, ending in one. */
  lemma {:induction false} RenderAsJoin(lines: seq<Line>)
    ensures Render(lines) == Join(IndentedLines(lines) + [""], '\n')
  {
    if lines != [] {
      RenderAsJoin(lines[1..]);
      var pieces := IndentedLines(lines) + [""];
      assert pieces[1..] == IndentedLines(lines[1..]) + [""];
    }
  }

  function IndentedLines(lines: seq<Line>): (r: seq<string>)
    ensures |r| == |lines|
    ensures forall k :: 0 <= k < |lines| ==> r[k] == Indented(lines[k])
  {
    if lines == [] then [] else [Indented(lines[0])] + IndentedLines(lines[1..])
  }

  /** Read back line by line, the report is its title, then one indented name per non-null
      occurrence in depth-first order, then the empty rest after the final line break; so it
      holds one line break per occurrence besides the title's. */
  lemma ReportLines(documentName: string, root: OccurrenceList)
    requires '\n' !in documentName
    requires forall k :: 0 <= k < |Outline(root, 0, 1)| ==> '\n' !in Outline(root, 0, 1)[k].name
    ensures Split(Report(documentName, root), '\n') ==
      ["Root (" + documentName + ")"] + IndentedLines(Outline(root, 0, 1)) + [""]
    ensures CountChar(Report(documentName, root), '\n') == 1 + |Outline(root, 0, 1)|
  {
    var lines := Outline(root, 0, 1);
    var head := "Root (" + documentName + ")";
    TraverseRendersOutline(root, 0, 1, Title(documentName));
    RenderAsJoin(lines);
    var pieces := [head] + IndentedLines(lines) + [""];
    assert pieces[1..] == IndentedLines(lines) + [""];
    assert Join(pieces, '\n') == head + "\n" + Render(lines);
    assert Report(documentName, root) == head + "\n" + Render(lines);
    forall k | 0 <= k < |pieces|
      ensures '\n' !in pieces[k]
    {
      if 0 < k < |pieces| - 1 {
        assert pieces[k] == Spaces(lines[k - 1].depth * 5) + lines[k - 1].name;
      }
    }
    SplitJoin(pieces, '\n');
    SplitCount(Report(documentName, root), '\n');
  }
}
