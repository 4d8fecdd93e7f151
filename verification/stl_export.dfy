/**
 * The STL export sample: the directory of the add-in's own module file, the names of the
 * files the occurrences and bodies are exported to, and the loops that skip null handles.
 */
module StlExport {
  import opened Wrappers
  import opened Seqs
  import opened Text

  // ---------------------------------------------------------------------------------
  // getDllPath

  /** The capacity of the buffer the Windows branch reads the module file name into; the
      name is truncated to leave room for the terminating NUL. */
  const ModuleNameBuffer: nat := 2048

  /** The text after the last `sep` of `path`, or all of it when there is none. */
  function Basename(path: string, sep: char): string
  {
    match LastIndexOf(path, sep)
    case None => path
    case Some(i) => path[i + 1..]
  }

  /** The POSIX branch of `getDllPath`: the module path up to its last '/', or the empty
      string when it has no '/'. */
  function PosixDllPath(path: string): (dir: string)
    ensures '/' !in path ==> dir == ""
    ensures '/' in path ==> dir + "/" + Basename(path, '/') == path && '/' !in Basename(path, '/')
  {
    match LastIndexOf(path, '/')
    case None => ""
    case Some(i) =>
      assert path[..i] + "/" + path[i + 1..] == path;
      path[..i]
  }

  /** The Windows branch of `getDllPath`: the empty string when the module handle cannot be
      found; otherwise the module file name, cut to the buffer, up to its last '\\' -- and,
      since `substr(0, npos)` keeps everything, the whole name when it has no '\\'. */
  function WindowsDllPath(moduleFile: Option<string>): (dir: string)
    ensures moduleFile.None? ==> dir == ""
    ensures moduleFile.Some? ==>
      var name := if |moduleFile.value| < ModuleNameBuffer then moduleFile.value else moduleFile.value[..ModuleNameBuffer - 1];
      && ('\\' !in name ==> dir == name)
      && ('\\' in name ==> dir + "\\" + Basename(name, '\\') == name && '\\' !in Basename(name, '\\'))
  {
    match moduleFile
    case None => ""
    case Some(file) =>
      var name := if |file| < ModuleNameBuffer then file else file[..ModuleNameBuffer - 1];
      match LastIndexOf(name, '\\')
      case None => name
      case Some(i) =>
        assert name[..i] + "\\" + name[i + 1..] == name;
        name[..i]
  }

  /** The two branches differ exactly on a path without a separator: POSIX gives the empty
      directory, Windows the path itself. */
  lemma BranchesDifferWithoutSeparator(path: string)
    requires path != [] && '/' !in path && '\\' !in path && |path| < ModuleNameBuffer
    ensures PosixDllPath(path) == "" && WindowsDllPath(Some(path)) == path
  {
  }

  // ---------------------------------------------------------------------------------
  // Exports

  /** An export the sample performs: to a print utility, or of an occurrence or a body to a
      file. */
  datatype ExportCall = ToPrintUtility(utility: string) | OccurrenceToFile(occurrence: nat, fileName: string)
                      | BodyToFile(body: nat, fileName: string)

  /** An occurrence handle: its identity and its component's name, if it has a component. */
  datatype Occurrence = Occurrence(id: nat, component: Option<string>)

  /** A body handle: its identity, name, parent component's name if any, and whether the host
      creates export options for it. */
  datatype Body = Body(id: nat, name: string, parent: Option<string>, optionsCreated: bool)

  function OccurrenceFileName(dir: string, compName: string): string
  {
    dir + "/" + compName
  }

  function BodyFileName(dir: string, compName: string, bodyName: string): string
  {
    dir + "/" + compName + "-" + bodyName
  }

  /** The export file names `getDllPath` composes with on POSIX: next to the module file, its
      basename replaced by the component's name (and the body's); a module path with no '/'
      puts the files at the file-system root. */
  lemma PosixExportNames(path: string, compName: string, bodyName: string)
    ensures '/' !in path ==>
      && OccurrenceFileName(PosixDllPath(path), compName) == "/" + compName
      && BodyFileName(PosixDllPath(path), compName, bodyName) == "/" + compName + "-" + bodyName
    ensures '/' in path ==>
      var stem := path[..|path| - |Basename(path, '/')|];
      && stem[|stem| - 1] == '/'
      && OccurrenceFileName(PosixDllPath(path), compName) == stem + compName
      && BodyFileName(PosixDllPath(path), compName, bodyName) == stem + compName + "-" + bodyName
  {
    var dir := PosixDllPath(path);
    if '/' in path {
      var b := Basename(path, '/');
      assert dir + "/" + b == path;
      var stem := path[..|path| - |b|];
      assert stem == dir + "/";
    }
  }

  /** The root component goes to every print utility, in order, once each. */
  method ExportToPrintUtilities(printUtils: seq<string>) returns (calls: seq<ExportCall>)
    ensures |calls| == |printUtils|
    ensures forall k :: 0 <= k < |calls| ==> calls[k] == ToPrintUtility(printUtils[k])
  {
    calls := [];
    var i := 0;
    while i < |printUtils|
      invariant i <= |printUtils|
      invariant |calls| == i
      invariant forall k :: 0 <= k < i ==> calls[k] == ToPrintUtility(printUtils[k])
    {
      calls := calls + [ToPrintUtility(printUtils[i])];
      i := i + 1;
    }
  }

  /** The occurrence is non-null and has a component. */
  predicate Exportable(item: Option<Occurrence>)
  {
    item.Some? && item.value.component.Some?
  }

  /** The body is non-null, has a parent component and gets export options. */
  predicate BodyExportable(item: Option<Body>)
  {
    item.Some? && item.value.parent.Some? && item.value.optionsCreated
  }

  function OccurrenceCall(dir: string, item: Option<Occurrence>): ExportCall
    requires Exportable(item)
  {
    OccurrenceToFile(item.value.id, OccurrenceFileName(dir, item.value.component.value))
  }

  function BodyCall(dir: string, item: Option<Body>): ExportCall
    requires BodyExportable(item)
  {
    BodyToFile(item.value.id, BodyFileName(dir, item.value.parent.value, item.value.name))
  }

  /** The occurrence loop: null occurrences and occurrences without a component are skipped,
      every other one is exported, in order, to the file named after its component. */
  method ExportOccurrences(dir: string, occurs: seq<Option<Occurrence>>) returns (calls: seq<ExportCall>)
    ensures var kept := Filter(occurs, Exportable);
      |calls| == |kept| && forall k :: 0 <= k < |calls| ==> calls[k] == OccurrenceCall(dir, kept[k])
  {
    calls := [];
    var j := 0;
    while j < |occurs|
      invariant j <= |occurs|
      invariant var kept := Filter(occurs[..j], Exportable);
        |calls| == |kept| && forall k :: 0 <= k < |calls| ==> calls[k] == OccurrenceCall(dir, kept[k])
    {
      var occur := occurs[j];
      assert occurs[..j + 1] == occurs[..j] + [occur];
      FilterAppend(occurs[..j], [occur], Exportable);
      if occur.None? {
        j := j + 1;
        continue;
      }
      if occur.value.component.None? {
        j := j + 1;
        continue;
      }
      var compName := occur.value.component.value;
      var fileName := dir + "/" + compName;
      calls := calls + [OccurrenceToFile(occur.value.id, fileName)];
      j := j + 1;
    }
    assert occurs[..j] == occurs;
  }

  /** The body loop: null bodies, bodies without a parent component and bodies the host makes
      no options for are skipped; every other one is exported, in order, to the file named
      after its component and itself. */
  method ExportBodies(dir: string, bodies: seq<Option<Body>>) returns (calls: seq<ExportCall>)
    ensures var kept := Filter(bodies, BodyExportable);
      |calls| == |kept| && forall k :: 0 <= k < |calls| ==> calls[k] == BodyCall(dir, kept[k])
  {
    calls := [];
    var k := 0;
    while k < |bodies|
      invariant k <= |bodies|
      invariant var kept := Filter(bodies[..k], BodyExportable);
        |calls| == |kept| && forall m :: 0 <= m < |calls| ==> calls[m] == BodyCall(dir, kept[m])
    {
      var body := bodies[k];
      assert bodies[..k + 1] == bodies[..k] + [body];
      FilterAppend(bodies[..k], [body], BodyExportable);
      if body.None? || body.value.parent.None? {
        k := k + 1;
        continue;
      }
      var fileName := dir + "/" + body.value.parent.value + "-" + body.value.name;
      if !body.value.optionsCreated {
        k := k + 1;
        continue;
      }
      calls := calls + [BodyToFile(body.value.id, fileName)];
      k := k + 1;
    }
    assert bodies[..k] == bodies;
  }

  /** Every occurrence that is exported is one of the listed occurrences with a component,
      and each of those is exported: nothing null reaches the export manager. */
  lemma ExportedOccurrencesAreExactlyTheExportable(occurs: seq<Option<Occurrence>>, item: Option<Occurrence>)
    ensures item in Filter(occurs, Exportable) <==> item in occurs && item.Some? && item.value.component.Some?
  {
    FilterMembership(occurs, Exportable, item);
  }

  /** Likewise for bodies. */
  lemma ExportedBodiesAreExactlyTheExportable(bodies: seq<Option<Body>>, item: Option<Body>)
    ensures item in Filter(bodies, BodyExportable) <==>
      item in bodies && item.Some? && item.value.parent.Some? && item.value.optionsCreated
  {
    FilterMembership(bodies, BodyExportable, item);
  }

  /** The whole run after the host objects have been found: the print utilities, then the
      occurrences, then the bodies; a missing occurrence or body list ends it early. */
  method Run(dir: string, printUtils: seq<string>, occurs: Option<seq<Option<Occurrence>>>,
             bodies: Option<seq<Option<Body>>>)
    returns (calls: seq<ExportCall>, ok: bool)
    ensures ok <==> occurs.Some? && bodies.Some?
    ensures |printUtils| <= |calls|
    ensures forall k :: 0 <= k < |printUtils| ==> calls[k] == ToPrintUtility(printUtils[k])
    ensures occurs.None? ==> |calls| == |printUtils|
    ensures occurs.Some? ==>
      var kept := Filter(occurs.value, Exportable);
      |printUtils| + |kept| <= |calls|
      && (forall k :: 0 <= k < |kept| ==> calls[|printUtils| + k] == OccurrenceCall(dir, kept[k]))
      && (bodies.None? ==> |calls| == |printUtils| + |kept|)
      && (bodies.Some? ==>
            var keptBodies := Filter(bodies.value, BodyExportable);
            |calls| == |printUtils| + |kept| + |keptBodies|
            && forall k :: 0 <= k < |keptBodies| ==> calls[|printUtils| + |kept| + k] == BodyCall(dir, keptBodies[k]))
  {
    calls := ExportToPrintUtilities(printUtils);
    if occurs.None? {
      return calls, false;
    }
    var occurrenceCalls := ExportOccurrences(dir, occurs.value);
    calls := calls + occurrenceCalls;
    if bodies.None? {
      return calls, false;
    }
    var bodyCalls := ExportBodies(dir, bodies.value);
    calls := calls + bodyCalls;
    ok := true;
  }
}
