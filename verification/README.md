# Fusion 360 API samples: the self-contained logic, modelled in Dafny

Most of the Fusion 360 API samples are fixed sequences of calls into the host's object model.
This project models the few places where a sample holds its own sequential logic. Host objects
are replaced by plain data: sequences, records and occurrence trees. The modelled places are:

- **Custom graphics sample (C++ and Python).** It covers:
  - the gear mesh: the vertex index layout of `calculateCoordinates`, the triangle index list of
    `calculateTriangles` and the strip lengths of `calculateStripLen`;
  - the coordinate table: `addRow`, `addLineStrip`, row deletion and `getCoordinatesFromTable`;
  - the memoised, case-insensitive appearance filter `getAppearancesFromLib`, and `replaceItems`;
  - the dialog's visibility functions;
  - the line-pattern cascade of `applyLinesProperties`;
  - the Python execute handler's dispatch and attributes.
- **Assembly traversal (C++ and Python).** `spaces`, the recursive `traverseAssembly`, and the
  report title.
- **Empty-component cleanup (Python).** It covers:
  - the emptiness scan;
  - the deduplication of occurrences by identity;
  - the deletions;
  - the report message.
- **CSV parameters and STEP export (C++ and Python).** It covers:
  - `loadCSVFile`, which uses `std::getline` semantics;
  - Python's `split(',')` over unstripped lines;
  - field access;
  - the `test_box<cnt>.stp` output names.
- **Animation frames (C++).** `pad` (`setw`/`setfill`) and the frame file names.
- **STL export (C++).** It covers:
  - both branches of `getDllPath`, over the module path as a string;
  - the export file names;
  - the loops that skip null occurrences, components and bodies.

There is one module per sample part:
- `GearMesh`, `CoordTable`, `Appearances`, `DialogVisibility` and `GraphicsExecute` cover the
  custom graphics sample.
- `AssemblyTraversal`, `EmptyComponents`, `CsvExport`, `AnimationFrames` and `StlExport` cover
  the other samples.
- `Seqs`, `Text` and `Wrappers` are shared helpers.

Where the two languages differ, the model has one member per language: `Py…` for Python, and
either no prefix or `Cpp…` for C++. Host data that the program cannot see is a parameter:
- gear vertex positions come from a generator `at`;
- library contents, table rows and occurrence trees are values;
- the number of animation frames is a count.

## Model

Source paths are relative to the repository root.

| member | source | states |
|---|---|---|
| GearMesh.EmitRing | C++/General/Miscellaneous/CustomGraphicsApiSample/CustomGraphicsApiSample.cpp:680-715 | One ring loop numbers its bottom/top vertices base+2i and base+2i+1 and appends, per position, the two points sharing x and y with z 0 and thickness, and two copies of the ring colour |
| GearMesh.CalculateCoordinates | C++/General/Miscellaneous/CustomGraphicsApiSample/CustomGraphicsApiSample.cpp:653-716 | Fewer than 3 teeth give no vertices; otherwise the four rings are laid out at bases 0, 4n, 8n, 12n with 42n coordinates and 56n colour components |
| GearMesh.PyCalculateCoordinates | Python/General/Miscellaneous/CustomGraphicsApiSample/CustomGraphicsApiSample.py:690-755 | No guard: 0 teeth fail (division by zero), a negative count gives empty arrays, any positive count gives the same layout as C++ |
| GearMesh.VertexOfPosition | C++/General/Miscellaneous/CustomGraphicsApiSample/CustomGraphicsApiSample.cpp:680-715 | In a laid-out gear, ring r's i-th bottom index is base+2i, its top index is base+2i+1, the two vertices are (x, y, 0) and (x, y, thickness) of the i-th position, and both carry the ring's colour |
| GearMesh.CalculateStripLen | C++/General/Miscellaneous/CustomGraphicsApiSample/CustomGraphicsApiSample.cpp:718-733 | Empty for fewer than 3 teeth, else 6n strip lengths |
| GearMesh.PyCalculateStripLen | Python/General/Miscellaneous/CustomGraphicsApiSample/CustomGraphicsApiSample.py:757-770 | Without the guard: empty for n <= 0, else 6n strip lengths |
| GearMesh.StripLengthsShape | C++/General/Miscellaneous/CustomGraphicsApiSample/CustomGraphicsApiSample.cpp:718-733 | The strips are n sixes, 2n twenty-ones, n twenty-fours, then 2n sixes |
| GearMesh.StripLengthsSum | C++/General/Miscellaneous/CustomGraphicsApiSample/CustomGraphicsApiSample.cpp:718-733 | The strip lengths add up to 84n |
| GearMesh.Wrap | C++/General/Miscellaneous/CustomGraphicsApiSample/CustomGraphicsApiSample.cpp:745-746 | The `% (2n)` wrap-around stays below 2n, is the identity below it and sends 2n to 0 |
| GearMesh.Piece | C++/General/Miscellaneous/CustomGraphicsApiSample/CustomGraphicsApiSample.cpp:735-820 | Each loop iteration of each section emits a fixed number of indices (6, 21, 24 or 6) |
| GearMesh.SectionLengths | C++/General/Miscellaneous/CustomGraphicsApiSample/CustomGraphicsApiSample.cpp:735-820 | The five sections have 6n, 21n, 21n, 24n and 12n indices |
| GearMesh.TrianglesLength | C++/General/Miscellaneous/CustomGraphicsApiSample/CustomGraphicsApiSample.cpp:735-820 | The triangle index list has 84n entries |
| GearMesh.TrianglesBelow | C++/General/Miscellaneous/CustomGraphicsApiSample/CustomGraphicsApiSample.cpp:735-820 | If every ring index is below a bound, so is every triangle index |
| GearMesh.StripsCoverTriangles | C++/General/Miscellaneous/CustomGraphicsApiSample/CustomGraphicsApiSample.cpp:857-862 | The strip lengths drawLines passes add up to exactly the number of triangle indices, a multiple of 3 |
| GearMesh.LaidOutIndices | C++/General/Miscellaneous/CustomGraphicsApiSample/CustomGraphicsApiSample.cpp:653-716 | A laid-out gear's index arrays have the sizes calculateTriangles reads, and all are below 14n |
| GearMesh.MeshIndexList | C++/General/Miscellaneous/CustomGraphicsApiSample/CustomGraphicsApiSample.cpp:822-862 | Coordinates, triangles and strips together: 84n indices for n >= 3, all naming an existing vertex, and strip lengths summing to the index count; all empty for n < 3 |
| GearMesh.PyTrianglesOverLayout | Python/General/Miscellaneous/CustomGraphicsApiSample/CustomGraphicsApiSample.py:757-842 | With no guard, any positive tooth count gives 84n triangle indices, all naming an emitted vertex, and strip lengths summing to that count |
| CoordTable.AddRow | Python/General/Miscellaneous/CustomGraphicsApiSample/CustomGraphicsApiSample.py:111-123 | Appends one complete x/y/z row after the existing rows and advances only the row counter |
| CoordTable.AddLineStrip | C++/General/Miscellaneous/CustomGraphicsApiSample/CustomGraphicsApiSample.cpp:194-213 | Appends one separator row after the existing rows and advances only the strip counter |
| CoordTable.DeleteSelectedRow | C++/General/Miscellaneous/CustomGraphicsApiSample/CustomGraphicsApiSample.cpp:1099-1107 | With no selected row (-1) only the prompt "Select one row to delete"; otherwise exactly the selected row is removed |
| CoordTable.AddRowKeepsWellNumbered | C++/General/Miscellaneous/CustomGraphicsApiSample/CustomGraphicsApiSample.cpp:173-192 | Input ids stay pairwise distinct and below the counters after addRow |
| CoordTable.AddLineStripKeepsWellNumbered | C++/General/Miscellaneous/CustomGraphicsApiSample/CustomGraphicsApiSample.cpp:194-213 | Likewise after addLineStrip |
| CoordTable.DeleteKeepsWellNumbered | C++/General/Miscellaneous/CustomGraphicsApiSample/CustomGraphicsApiSample.cpp:1099-1107 | Likewise after deleting a selected row, so a later addRow cannot reuse an id |
| CoordTable.IdStringInjective | C++/General/Miscellaneous/CustomGraphicsApiSample/CustomGraphicsApiSample.cpp:173-213 | Different cells of one table get different id strings (prefix plus counter) |
| CoordTable.IdStringsDistinct | Python/General/Miscellaneous/CustomGraphicsApiSample/CustomGraphicsApiSample.py:111-134 | In a well-numbered table all input id strings are distinct |
| CoordTable.RunsCount | C++/General/Miscellaneous/CustomGraphicsApiSample/CustomGraphicsApiSample.cpp:446-470 | There is one strip more than there are separator rows |
| CoordTable.RunsSum | C++/General/Miscellaneous/CustomGraphicsApiSample/CustomGraphicsApiSample.cpp:446-470 | The strip lengths add up to the number of complete rows |
| CoordTable.CoordsCount | Python/General/Miscellaneous/CustomGraphicsApiSample/CustomGraphicsApiSample.py:407-428 | Three coordinates per complete row |
| CoordTable.GetCoordinatesFromTable | C++/General/Miscellaneous/CustomGraphicsApiSample/CustomGraphicsApiSample.cpp:446-470 | A null table gives nothing; otherwise the strips are separators+1 runs summing to the complete rows, with three coordinates each |
| CoordTable.PyGetCoordinatesFromTable | Python/General/Miscellaneous/CustomGraphicsApiSample/CustomGraphicsApiSample.py:407-428 | Any row not starting with a value input separates strips; the read fails (None) exactly when a row starting with a value input lacks its y or z value input; a missing table gives empty lists |
| CoordTable.AddRowLengthensStrip | C++/General/Miscellaneous/CustomGraphicsApiSample/CustomGraphicsApiSample.cpp:173-192 | A new row adds its three values to the coordinates and lengthens the last strip by one |
| CoordTable.AddLineStripStartsStrip | C++/General/Miscellaneous/CustomGraphicsApiSample/CustomGraphicsApiSample.cpp:194-213 | A separator row leaves the coordinates alone and opens a new, empty strip |
| Appearances.ApplyFilterMembership | C++/General/Miscellaneous/CustomGraphicsApiSample/CustomGraphicsApiSample.cpp:269-286 | A name is kept iff it is in the library and the filter is empty or its lower-case form contains the lower-case filter |
| Appearances.ApplyFilterKeepsOrder | C++/General/Miscellaneous/CustomGraphicsApiSample/CustomGraphicsApiSample.cpp:269-286 | The result is a subsequence of the library's names, in their order |
| Appearances.ApplyFilterIgnoresCase | Python/General/Miscellaneous/CustomGraphicsApiSample/CustomGraphicsApiSample.py:166-172 | Lower-casing the filter first changes nothing |
| Appearances.PresentNames | C++/General/Miscellaneous/CustomGraphicsApiSample/CustomGraphicsApiSample.cpp:251-267 | Reading a library gives its non-null appearance names in library order, duplicates kept (equal to mapping the names over the filtered list); with no null item, exactly the items' names |
| Appearances.GetAppearancesFromLib | C++/General/Miscellaneous/CustomGraphicsApiSample/CustomGraphicsApiSample.cpp:243-289 | Other cache entries are untouched; the library is cached iff it was cached or exists; a newly cached library holds its non-null names in library order; the result is the filter applied to the cached list, empty for a missing library |
| Appearances.PyGetAppearancesFromLib | Python/General/Miscellaneous/CustomGraphicsApiSample/CustomGraphicsApiSample.py:150-175 | The same, except that a missing library or a null item makes the call fail and caches nothing, and a newly cached list is the items' names one for one |
| Appearances.CachedLookupIgnoresLibraries | C++/General/Miscellaneous/CustomGraphicsApiSample/CustomGraphicsApiSample.cpp:247-249 | Once a library is cached, its contents in the host no longer matter |
| Appearances.SecondLookupUsesCache | C++/General/Miscellaneous/CustomGraphicsApiSample/CustomGraphicsApiSample.cpp:243-289 | A library is read at most once: a second lookup with any filter and any host state uses the first read |
| Appearances.SamplesAgree | Python/General/Miscellaneous/CustomGraphicsApiSample/CustomGraphicsApiSample.py:150-175 | When the library is cached or has no null item, the two samples return the same names and cache |
| Appearances.ReplaceItems | C++/General/Miscellaneous/CustomGraphicsApiSample/CustomGraphicsApiSample.cpp:215-241 | No new items leaves only "None"; otherwise exactly the new items, in order; the first item is selected |
| Appearances.PyReplaceItems | Python/General/Miscellaneous/CustomGraphicsApiSample/CustomGraphicsApiSample.py:136-148 | The same, and a failed lookup (None) is treated like an empty list |
| Appearances.OnLibraryOrFilterChanged | C++/General/Miscellaneous/CustomGraphicsApiSample/CustomGraphicsApiSample.cpp:1078-1092 | The appearance list afterwards holds the filtered names of the library, or only "None"; every listed name is in the cached library and matches the filter |
| DialogVisibility.ChangeColorEffectVisibility | C++/General/Miscellaneous/CustomGraphicsApiSample/CustomGraphicsApiSample.cpp:472-513 | Exactly the inputs of the named effect are shown: R/G/B, opacity and glossiness, or list, library and filter; nothing for any other name |
| DialogVisibility.ColorEffectForgetsPrevious | Python/General/Miscellaneous/CustomGraphicsApiSample/CustomGraphicsApiSample.py:614-639 | The outcome does not depend on what was shown before |
| DialogVisibility.EffectGroupsDisjoint | C++/General/Miscellaneous/CustomGraphicsApiSample/CustomGraphicsApiSample.cpp:472-513 | Two effects that show something share an input iff they are the same effect |
| DialogVisibility.ChangeLineStyleInputsVisibility | C++/General/Miscellaneous/CustomGraphicsApiSample/CustomGraphicsApiSample.cpp:515-521 | The scale slider is shown iff the pattern is not "Solid Line", and nothing else changes |
| DialogVisibility.CGObjVisibilityTable | Python/General/Miscellaneous/CustomGraphicsApiSample/CustomGraphicsApiSample.py:531-612 | Per object: three effects plus the vertex effect only for Mesh, selection limits (1,1) only for Curve/BRep, table, line style, scale and groups as listed |
| DialogVisibility.ScaleAgreesWithPatternHandler | Python/General/Miscellaneous/CustomGraphicsApiSample/CustomGraphicsApiSample.py:562-570 | For Lines and Lines - Custom the scale follows the pattern exactly as the pattern handler does, which then changes nothing |
| DialogVisibility.CppScaleInverted | C++/General/Miscellaneous/CustomGraphicsApiSample/CustomGraphicsApiSample.cpp:571-581 | The C++ code as written shows the scale exactly when the pattern handler hides it |
| DialogVisibility.CppAsWrittenDiffersOnlyInScale | C++/General/Miscellaneous/CustomGraphicsApiSample/CustomGraphicsApiSample.cpp:523-639 | Apart from that slider, the C++ code as written equals the corrected function |
| GraphicsExecute.PatternForInvertsName | C++/General/Miscellaneous/CustomGraphicsApiSample/CustomGraphicsApiSample.cpp:353-370 | The name cascade selects pattern p exactly for p's name |
| GraphicsExecute.ApplyLinesProperties | C++/General/Miscellaneous/CustomGraphicsApiSample/CustomGraphicsApiSample.cpp:349-376 | A known pattern name sets that pattern and any other leaves it; weight and scale are always set |
| GraphicsExecute.CornerForInvertsName | Python/General/Miscellaneous/CustomGraphicsApiSample/CustomGraphicsApiSample.py:498-509 | The corner is upper-left unless the name is one of the three other corners, each giving its own corner |
| GraphicsExecute.BillboardForInvertsName | Python/General/Miscellaneous/CustomGraphicsApiSample/CustomGraphicsApiSample.py:515-525 | The style is Screen unless the name is "Axis" or "Right Reading" |
| GraphicsExecute.PyEntityFor | Python/General/Miscellaneous/CustomGraphicsApiSample/CustomGraphicsApiSample.py:447-480 | Which entity is drawn for each object, including no body or curve without a selection, and an early return for custom lines with no coordinate |
| GraphicsExecute.PyExecute | Python/General/Miscellaneous/CustomGraphicsApiSample/CustomGraphicsApiSample.py:433-528 | Point sets never get a colour effect; placement, scale and billboarding are applied iff their group is visible and checked and a choice exists, with the defaults above; the gear lines get the chosen pattern, weight and scale, a curve the weight only, every other entity no line style |
| GraphicsExecute.PyCustomLinesIgnoreShownStyle | Python/General/Miscellaneous/CustomGraphicsApiSample/CustomGraphicsApiSample.py:474-480 | For "Lines - Custom" the dialog shows the pattern and weight inputs, yet the drawn lines get no line style |
| GraphicsExecute.StyleUsesShownInputs | C++/General/Miscellaneous/CustomGraphicsApiSample/CustomGraphicsApiSample.cpp:915-985 | With the C++ choice of line style, an entity gets a pattern iff its object shows the pattern input, and any line style iff it shows the weight input |
| GraphicsExecute.AttributesNeedGroups | Python/General/Miscellaneous/CustomGraphicsApiSample/CustomGraphicsApiSample.py:551-594 | Only Mesh, Lines, Curve and BRep can receive view attributes |
| AssemblyTraversal.SpacesLoop | C++/Assemblies/Occurrences/AssemblyTraversalUsingRecursionApiSample/AssemblyTraversalUsingRecursionApiSample.cpp:21-27 | Exactly n characters, all blanks: the loop builds the same string as the recursive `Text.Spaces` |
| AssemblyTraversal.TraverseAssembly | C++/Assemblies/Occurrences/AssemblyTraversalUsingRecursionApiSample/AssemblyTraversalUsingRecursionApiSample.cpp:30-45 | A null list returns the input; otherwise the input is extended, unaltered, by the rendered outline |
| AssemblyTraversal.Outline | C++/Assemblies/Occurrences/AssemblyTraversalUsingRecursionApiSample/AssemblyTraversalUsingRecursionApiSample.cpp:32-39 | Reference pre-order outline: no line is shallower than the starting level |
| AssemblyTraversal.TraverseRendersOutline | C++/Assemblies/Occurrences/AssemblyTraversalUsingRecursionApiSample/AssemblyTraversalUsingRecursionApiSample.cpp:30-45 | The recursion appends exactly the pre-order outline, 5 blanks per level, one line per non-null occurrence |
| AssemblyTraversal.VisitRendersOutline | C++/Assemblies/Occurrences/AssemblyTraversalUsingRecursionApiSample/AssemblyTraversalUsingRecursionApiSample.cpp:32-39 | One loop iteration appends the occurrence's line, then its children one level deeper |
| AssemblyTraversal.PyTraverse | Python/Assemblies/Occurrences/AssemblyTraversalUsingRecursionApiSample/AssemblyTraversalUsingRecursionApiSample.py:7-14 | Succeeds iff no reachable item is null, and then gives the C++ result |
| AssemblyTraversal.ReportLines | C++/Assemblies/Occurrences/AssemblyTraversalUsingRecursionApiSample/AssemblyTraversalUsingRecursionApiSample.cpp:75-78 | The report reads back as the "Root (...)" title, then one indented line per occurrence from level 1; it has one line break per occurrence plus one |
| EmptyComponents.FindEmptyComponents | Python/Assemblies/General/DeleteEmptyComponentsApiSample/DeleteEmptyComponentsApiSample.py:27-41 | The scan keeps, in order, the non-root components with all seven collections empty |
| EmptyComponents.ScheduleIsExact | Python/Assemblies/General/DeleteEmptyComponentsApiSample/DeleteEmptyComponentsApiSample.py:27-41 | Scheduled iff listed, not the root and empty; the schedule is a subsequence of the component list |
| EmptyComponents.UniqueOccurrences | Python/Assemblies/General/DeleteEmptyComponentsApiSample/DeleteEmptyComponentsApiSample.py:51-60 | No two equal entries, the same members as the input, in first-occurrence order |
| EmptyComponents.DeleteCallsCover | Python/Assemblies/General/DeleteEmptyComponentsApiSample/DeleteEmptyComponentsApiSample.py:45-66 | An occurrence is deleted iff it belongs to some scheduled component |
| EmptyComponents.Header | Python/Assemblies/General/DeleteEmptyComponentsApiSample/DeleteEmptyComponentsApiSample.py:71-74 | "1 empty component deleted" for one, "N empty components" for N > 1 |
| EmptyComponents.BuildMessage | Python/Assemblies/General/DeleteEmptyComponentsApiSample/DeleteEmptyComponentsApiSample.py:68-77 | "No empty components found." for none; else the header, "\n\n", then "\n" and a name per component |
| EmptyComponents.MessageLines | Python/Assemblies/General/DeleteEmptyComponentsApiSample/DeleteEmptyComponentsApiSample.py:68-77 | Read back line by line: header, two empty lines, the names in order |
| EmptyComponents.Run | Python/Assemblies/General/DeleteEmptyComponentsApiSample/DeleteEmptyComponentsApiSample.py:16-79 | No design: only a message and no deletion; otherwise one name per scheduled component, captured in order, and the deletions above |
| CsvExport.GetlineAll | C++/General/Parameters/SetParametersFromACsvFileAndExportToStepApiSample/SetParametersFromACsvFileAndExportToStepApiSample.cpp:34-39 | The `std::getline` loop yields the split pieces minus a trailing empty one; no piece contains the separator |
| CsvExport.LoadCsvFile | C++/General/Parameters/SetParametersFromACsvFileAndExportToStepApiSample/SetParametersFromACsvFileAndExportToStepApiSample.cpp:22-43 | One record per line, in order, each the line's comma-free fields |
| CsvExport.RecordJoin | C++/General/Parameters/SetParametersFromACsvFileAndExportToStepApiSample/SetParametersFromACsvFileAndExportToStepApiSample.cpp:31-41 | For a line not ending in ',', joining its fields with ',' gives the line back; an empty line gives an empty record |
| CsvExport.TrailingCommaDropped | C++/General/Parameters/SetParametersFromACsvFileAndExportToStepApiSample/SetParametersFromACsvFileAndExportToStepApiSample.cpp:34-39 | A trailing comma adds no empty field; interior empty fields stay |
| CsvExport.LineLengthEndsLine | Python/General/Parameters/SetParametersFromACsvFileAndExportToStepApiSample/SetParametersFromACsvFileAndExportToStepApiSample.py:16-18 | A line read from the file ends at and includes its first '\n' |
| CsvExport.PyLinesShape | Python/General/Parameters/SetParametersFromACsvFileAndExportToStepApiSample/SetParametersFromACsvFileAndExportToStepApiSample.py:16-18 | Every line is non-empty, holds no '\n' before its end, and ends in '\n' unless it is the last |
| CsvExport.PyLinesConcat | Python/General/Parameters/SetParametersFromACsvFileAndExportToStepApiSample/SetParametersFromACsvFileAndExportToStepApiSample.py:16-18 | The lines put together give the file back |
| CsvExport.PyPieces | Python/General/Parameters/SetParametersFromACsvFileAndExportToStepApiSample/SetParametersFromACsvFileAndExportToStepApiSample.py:18 | `split(',')` gives count(',')+1 pieces that join back to the line; the last piece keeps the line's '\n' |
| CsvExport.PyLoadRecords | Python/General/Parameters/SetParametersFromACsvFileAndExportToStepApiSample/SetParametersFromACsvFileAndExportToStepApiSample.py:14-22 | One record per line; each joins back to its line and has count(',')+1 pieces |
| CsvExport.FileNameInjective | C++/General/Parameters/SetParametersFromACsvFileAndExportToStepApiSample/SetParametersFromACsvFileAndExportToStepApiSample.cpp:108 | Different counters give different `test_box<cnt>.stp` names |
| CsvExport.Fields | Python/General/Parameters/SetParametersFromACsvFileAndExportToStepApiSample/SetParametersFromACsvFileAndExportToStepApiSample.py:20-22 | The first three fields, and an error (out of range) iff there are fewer than three |
| CsvExport.ExportAll | C++/General/Parameters/SetParametersFromACsvFileAndExportToStepApiSample/SetParametersFromACsvFileAndExportToStepApiSample.cpp:73-115 | One export per record named by counter 0, 1, 2, …; the run stops at the first record with fewer than three fields |
| CsvExport.ExportNamesDistinct | Python/General/Parameters/SetParametersFromACsvFileAndExportToStepApiSample/SetParametersFromACsvFileAndExportToStepApiSample.py:36-37 | The exports of one run have pairwise distinct file names |
| AnimationFrames.PadNonNegative | C++/General/Miscellaneous/CreateAnimationApiSample/CreateAnimationApiSample.cpp:20-25 | For a number >= 0 the result has length max(field, digits), is all digits and parses back to the number |
| AnimationFrames.PadNegative | C++/General/Miscellaneous/CreateAnimationApiSample/CreateAnimationApiSample.cpp:20-25 | For a negative number: the length is the larger of the width and the text; zeros, then '-', then the digits, which read back as the magnitude; a padded result starts with '0', not '-' |
| AnimationFrames.PadMinusFive | C++/General/Miscellaneous/CreateAnimationApiSample/CreateAnimationApiSample.cpp:23 | pad(-5, 4) is "00-5" |
| AnimationFrames.FrameNames | C++/General/Miscellaneous/CreateAnimationApiSample/CreateAnimationApiSample.cpp:62-71 | The k-th image is named folder/frame followed by pad(k, 4) |
| AnimationFrames.FrameListOrdered | C++/General/Miscellaneous/CreateAnimationApiSample/CreateAnimationApiSample.cpp:62-71 | A run's frame names are distinct, and up to 10000 frames they sort in saving order |
| AnimationFrames.FrameNamesDistinct | C++/General/Miscellaneous/CreateAnimationApiSample/CreateAnimationApiSample.cpp:68 | Two frame names are equal iff their counters are |
| AnimationFrames.FrameOrder | C++/General/Miscellaneous/CreateAnimationApiSample/CreateAnimationApiSample.cpp:68 | Below 10000, comparing names as strings is comparing counters |
| StlExport.PosixDllPath | C++/General/Miscellaneous/StlExportApiSample/StlExportApiSample.cpp:160-169 | Empty without '/'; otherwise dir + "/" + basename is the path and the basename has no '/' |
| StlExport.WindowsDllPath | C++/General/Miscellaneous/StlExportApiSample/StlExportApiSample.cpp:146-159 | Empty without a module handle; a name with no '\\' is returned whole; otherwise dir + "\\" + basename is the (buffer-cut) name |
| StlExport.BranchesDifferWithoutSeparator | C++/General/Miscellaneous/StlExportApiSample/StlExportApiSample.cpp:144-171 | On a path with no separator POSIX gives "" and Windows the path |
| StlExport.PosixExportNames | C++/General/Miscellaneous/StlExportApiSample/StlExportApiSample.cpp:86-110 | On POSIX the export files sit next to the module file, its basename replaced by the component (and body) name; with no '/' in the module path they land at the root |
| StlExport.ExportToPrintUtilities | C++/General/Miscellaneous/StlExportApiSample/StlExportApiSample.cpp:58-70 | One execute per print utility, in order |
| StlExport.ExportOccurrences | C++/General/Miscellaneous/StlExportApiSample/StlExportApiSample.cpp:72-93 | Null occurrences and those without a component are skipped; the others export, in order, to dir + "/" + component name |
| StlExport.ExportBodies | C++/General/Miscellaneous/StlExportApiSample/StlExportApiSample.cpp:95-119 | Null bodies, those without a parent and those without options are skipped; the others export to dir + "/" + component + "-" + body |
| StlExport.ExportedOccurrencesAreExactlyTheExportable | C++/General/Miscellaneous/StlExportApiSample/StlExportApiSample.cpp:80-83 | An occurrence is exported iff it is listed, non-null and has a component |
| StlExport.ExportedBodiesAreExactlyTheExportable | C++/General/Miscellaneous/StlExportApiSample/StlExportApiSample.cpp:102-106 | A body is exported iff it is listed, non-null, has a parent and gets options |
| StlExport.Run | C++/General/Miscellaneous/StlExportApiSample/StlExportApiSample.cpp:58-119 | Print utilities, then occurrences, then bodies; a missing list ends the run early |
| Text.NatToString | C++/General/Parameters/SetParametersFromACsvFileAndExportToStepApiSample/SetParametersFromACsvFileAndExportToStepApiSample.cpp:108 | A decimal numeral without leading zeros |
| Text.LastIndexOf | C++/General/Miscellaneous/StlExportApiSample/StlExportApiSample.cpp:157-167 | `rfind`: the position of the last occurrence, or none when the character is absent |

## Left out

- Floating-point geometry is not modelled. This covers `rotate2D`, the gear diameters and the
  dedendum, the transform, the anchor point and `_scaleFactor`. The C++ and Python versions
  differ in the dedendum comparison and in whether the tooth count comes from a global.
  Vertex positions are abstract values from a generator `at`, and only their order and pairing
  are modelled.
- Python `_scaleFactor = 100 / distance` can divide by zero for a zero-size bounding box. This is
  floating point and is left out.
- All host I/O is absent: message boxes, dialog construction, palettes, `ifstream`, `open`,
  `GetModuleFileNameA`/`dladdr`, `saveAsImageFile`, the export manager and `deleteMe`. Each
  export or deletion is recorded as a value instead.
- `applyColorEffect`, `getMaterialLibNames`, `getAppearance`, `drawPointSet`, and the geometry
  passed to `addBRepBody` and `addCurve` are not modelled. They are host calls with no local
  logic.
- Dialog inputs that the samples never find null are assumed non-null. Null checks are modelled
  where they depend on data: table cells, library items, occurrence lists, components and bodies.
- StlExport.ExportOccurrences: the C++ code does not null-check the STL export options of an
  occurrence, and the model assumes the host creates them.
- The C++ execute handler is modelled only through the parts it shares with Python and its
  choice of line style (`GraphicsExecute.LineStyleFor`). This covers the pattern cascade, the
  corner and billboard choice and the visibility functions. Its drawing calls are host calls.
- Appearances.ApplyFilter lower-cases ASCII only, as C `::tolower` does in the "C" locale.
  Python's `str.lower` is Unicode-aware.
- Integer widths are unbounded. The counters, `size_t` and `int` would wrap only after more rows,
  frames or records than the samples can produce.
- AnimationFrames.FrameNames takes the number of frames as a parameter. The loop that sets it
  runs on floating-point parameter values.
- CsvExport.ExportAll: the C++ loop body refers to a variable `design` that is never declared
  (lines 86 and 105). The model treats it as the active design.
- The Python CSV sample uses text-mode newline translation ("\r\n" read as "\n"), which is not
  modelled: the file contents are given as already-read text.
- The export folder (`getTempPath`, the chosen result folder) is a parameter; `StlExport.Run`
  takes the directory `getDllPath` returns, and `StlExport.PosixExportNames` composes the two.
- Exception traceback text is not modelled. A raised error is a `Failure` value, or `None` where
  the sample swallows it.
- Python `is` identity between API proxies is modelled as equality of occurrence identities.
- The Python animation sample, the other copies of `getDllPath`, and all feature, sketch, CAM
  and event samples are not part of this model.

## Findings

| source | as written | input that shows it | evidently intended | confidence | as-written member | corrected member |
|---|---|---|---|---|---|---|
| C++/General/Miscellaneous/CustomGraphicsApiSample/CustomGraphicsApiSample.cpp:576-578 | `changeCGObjVisibility` shows the line-style scale slider only when the selected pattern is "Solid Line" (same test at 635-637) | Object "Lines" with pattern "Solid Line": the slider is shown, though `changeLineStyleInputsVisibility` hides it for that pattern | Show the slider iff the pattern is not "Solid Line", as the pattern handler at lines 515-521 and the Python sample do | not executed | DialogVisibility.CppScaleInverted | DialogVisibility.ScaleAgreesWithPatternHandler |
| Python/General/Miscellaneous/CustomGraphicsApiSample/CustomGraphicsApiSample.py:474-480 | The "Lines - Custom" branch adds the lines and sets no pattern, weight or scale on them, while `changeCGObjVisibility` shows those inputs for that object (lines 601-609) | Object "Lines - Custom" with any pattern and weight: the inputs are shown and have no effect | Apply the line style to the custom lines, as the C++ handler does at line 980 | not executed | GraphicsExecute.PyCustomLinesIgnoreShownStyle | GraphicsExecute.StyleUsesShownInputs |
