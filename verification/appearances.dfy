/**
 * The appearance picker of the custom-graphics dialog: the names of a material library's
 * appearances, read once per library and kept in a cache, narrowed by a case-insensitive
 * filter, and put into a single-selection drop-down list in place of its old items.
 */
module Appearances {
  import opened Wrappers
  import opened Seqs
  import opened Text

  /** A material library: its appearance collection (the C++ API may return none), whose
      items may be null. */
  datatype Library = Library(appearances: Option<seq<Option<string>>>)

  /** The application's material libraries by name; None when the application or its
      library collection is unavailable. */
  type Libraries = Option<map<string, Library>>

  /** The appearance names already read, by library name. */
  type Cache = map<string, seq<string>>

  // ---------------------------------------------------------------------------------
  // Filtering

  /** An appearance name matches a filter when the filter occurs in it, ignoring case. */
  predicate Matches(name: string, filter: string)
  {
    Contains(LowerString(name), LowerString(filter))
  }

  /** An empty filter keeps every name; any other keeps the matching names in order. */
  function ApplyFilter(names: seq<string>, filter: string): (r: seq<string>)
  {
    if filter == [] then names else Filter(names, name => Matches(name, filter))
  }

  lemma ApplyFilterMembership(names: seq<string>, filter: string, x: string)
    ensures x in ApplyFilter(names, filter) <==> x in names && (filter == [] || Matches(x, filter))
  {
    if filter != [] {
      FilterMembership(names, name => Matches(name, filter), x);
    }
  }

  lemma ApplyFilterKeepsOrder(names: seq<string>, filter: string)
    ensures IsSubsequence(ApplyFilter(names, filter), names)
  {
    if filter == [] {
      SubsequenceReflexive(names);
    } else {
      FilterIsSubsequence(names, name => Matches(name, filter));
    }
  }

  lemma LowerIdempotent(s: string)
    ensures LowerString(LowerString(s)) == LowerString(s)
  {
  }

  /** Filtering by a text or by its lower-case form gives the same names. */
  lemma {:induction false} ApplyFilterIgnoresCase(names: seq<string>, filter: string)
    ensures ApplyFilter(names, LowerString(filter)) == ApplyFilter(names, filter)
  {
    if filter != [] {
      LowerIdempotent(filter);
      FilterLowered(names, filter);
    }
  }

  lemma {:induction false} FilterLowered(names: seq<string>, filter: string)
    requires LowerString(LowerString(filter)) == LowerString(filter)
    ensures Filter(names, name => Matches(name, LowerString(filter))) == Filter(names, name => Matches(name, filter))
  {
    if names != [] {
      FilterLowered(names[1..], filter);
    }
  }

  // ---------------------------------------------------------------------------------
  // Reading a library

  /** An item is present when it is not null. */
  predicate IsPresent(item: Option<string>)
  {
    item.Some?
  }

  /** The name of a present item (a null item has none and is never asked). */
  function NameOf(item: Option<string>): string
  {
    if item.Some? then item.value else ""
  }

  /** The names of the non-null items, in order, duplicates kept: the items of the library's
      collection are visited by position and every non-null one contributes its name. */
  function PresentNames(items: seq<Option<string>>): (r: seq<string>)
    ensures r == Map(Filter(items, IsPresent), NameOf)
    ensures |r| <= |items|
    ensures forall x :: x in r <==> Some(x) in items
    ensures None !in items ==> |r| == |items| && forall i :: 0 <= i < |items| ==> r[i] == items[i].value
  {
    if items == [] then []
    else
      var front := items[..|items| - 1];
      var init := PresentNames(front);
      var last := items[|items| - 1];
      assert items == front + [last];
      FilterAppend(front, [last], IsPresent);
      MapAppend(Filter(front, IsPresent), Filter([last], IsPresent), NameOf);
      assert Filter([last], IsPresent) == if last.Some? then [last] else [];
      if last.Some? then init + [last.value] else init
  }

  /** The appearance items of library `libName`, when the application, the library and its
      appearance collection are all there. */
  function LibraryItems(libs: Libraries, libName: string): Option<seq<Option<string>>>
  {
    if libs.Some? && libName in libs.value then libs.value[libName].appearances else None
  }

  datatype Lookup = Lookup(names: seq<string>, cache: Cache)

  /** C++ `getAppearancesFromLib`: a cached library is not read again; otherwise its non-null
      appearance names are read and cached, unless something on the way is missing, in which
      case nothing is returned and nothing cached. */
  function GetAppearancesFromLib(libs: Libraries, cache: Cache, libName: string, filter: string): (r: Lookup)
    ensures forall k :: k != libName ==> (k in r.cache <==> k in cache)
    ensures forall k :: k in cache ==> k in r.cache && r.cache[k] == cache[k]
    ensures libName in r.cache <==> libName in cache || LibraryItems(libs, libName).Some?
    ensures libName in r.cache ==> r.names == ApplyFilter(r.cache[libName], filter)
    ensures libName !in r.cache ==> r.names == []
    ensures libName !in cache && libName in r.cache ==>
      forall x :: x in r.cache[libName] <==> Some(x) in LibraryItems(libs, libName).value
    ensures libName !in cache && libName in r.cache ==>
      r.cache[libName] == Map(Filter(LibraryItems(libs, libName).value, IsPresent), NameOf)
  {
    if libName in cache then Lookup(ApplyFilter(cache[libName], filter), cache)
    else
      match LibraryItems(libs, libName)
      case None => Lookup([], cache)
      case Some(items) =>
        var names := PresentNames(items);
        Lookup(ApplyFilter(names, filter), cache[libName := names])
  }

  /** Python `getAppearancesFromLib`: the same cache; a missing application or library, a
      missing collection or a null item makes the reading raise, and the function returns
      None without caching anything. */
  function PyGetAppearancesFromLib(libs: Libraries, cache: Cache, libName: string, filter: string)
    : (r: (Option<seq<string>>, Cache))
    ensures forall k :: k != libName ==> (k in r.1 <==> k in cache)
    ensures forall k :: k in cache ==> k in r.1 && r.1[k] == cache[k]
    ensures r.0.Some? <==> libName in r.1
    ensures r.0.Some? ==> r.0.value == ApplyFilter(r.1[libName], filter)
    ensures r.0.None? <==> (libName !in cache &&
      (LibraryItems(libs, libName).None? || None in LibraryItems(libs, libName).value))
    ensures r.0.Some? && libName !in cache ==>
      var items := LibraryItems(libs, libName).value;
      |r.1[libName]| == |items| && forall i :: 0 <= i < |items| ==> r.1[libName][i] == items[i].value
  {
    if libName in cache then (Some(ApplyFilter(cache[libName], filter)), cache)
    else
      match LibraryItems(libs, libName)
      case None => (None, cache)
      case Some(items) =>
        if None in items then (None, cache)
        else
          var names := PresentNames(items);
          (Some(ApplyFilter(names, filter)), cache[libName := names])
  }

  /** Once a library is cached, neither the libraries nor a change of filter can change what
      its names are drawn from: the cache entry is final. */
  lemma {:induction false} CachedLookupIgnoresLibraries(libs1: Libraries, libs2: Libraries, cache: Cache,
                                                        libName: string, filter: string)
    requires libName in cache
    ensures GetAppearancesFromLib(libs1, cache, libName, filter) == GetAppearancesFromLib(libs2, cache, libName, filter)
    ensures PyGetAppearancesFromLib(libs1, cache, libName, filter) == PyGetAppearancesFromLib(libs2, cache, libName, filter)
    ensures GetAppearancesFromLib(libs1, cache, libName, filter).names ==
      PyGetAppearancesFromLib(libs2, cache, libName, filter).0.value
  {
  }

  /** A second lookup of a library the first one read uses the cache: the libraries may have
      changed in between, and the names are those the first lookup read, under the new filter. */
  lemma {:induction false} SecondLookupUsesCache(libs1: Libraries, libs2: Libraries, cache: Cache,
                                                 libName: string, filter1: string, filter2: string)
    requires LibraryItems(libs1, libName).Some?
    ensures var first := GetAppearancesFromLib(libs1, cache, libName, filter1);
      var second := GetAppearancesFromLib(libs2, first.cache, libName, filter2);
      second.cache == first.cache &&
      second.names == ApplyFilter(first.cache[libName], filter2) &&
      (libName !in cache ==> first.cache[libName] == PresentNames(LibraryItems(libs1, libName).value))
  {
  }

  /** Both samples agree whenever the library reads without a null. */
  lemma {:induction false} SamplesAgree(libs: Libraries, cache: Cache, libName: string, filter: string)
    requires libName in cache || (LibraryItems(libs, libName).Some? && None !in LibraryItems(libs, libName).value)
    ensures var c := GetAppearancesFromLib(libs, cache, libName, filter);
      var p := PyGetAppearancesFromLib(libs, cache, libName, filter);
      p.0 == Some(c.names) && p.1 == c.cache
  {
  }

  // ---------------------------------------------------------------------------------
  // The drop-down list

  /** A single-selection drop-down: its item names and the position of the selected one. */
  datatype DropDown = DropDown(items: seq<string>, selected: Option<nat>)

  /** The placeholder item of an empty list. */
  const NoneItem := "None"

  function Clear(d: DropDown): (r: DropDown)
    ensures r.items == [] && r.selected.None?
  {
    DropDown([], None)
  }

  /** Appends an item, selecting it (and so deselecting the others) when `select` is set. */
  function AddItem(d: DropDown, name: string, select: bool): (r: DropDown)
    ensures r.items == d.items + [name]
    ensures r.selected == if select then Some(|d.items|) else d.selected
  {
    DropDown(d.items + [name], if select then Some(|d.items|) else d.selected)
  }

  function SelectItem(d: DropDown, k: nat): (r: DropDown)
    requires k < |d.items|
    ensures r.items == d.items && r.selected == Some(k)
  {
    d.(selected := Some(k))
  }

  /** Deletes item `k`; the selection follows its item, and is lost when it was item `k`. */
  function DeleteItem(d: DropDown, k: nat): (r: DropDown)
    requires k < |d.items|
    ensures |r.items| == |d.items| - 1
    ensures forall i :: 0 <= i < |r.items| ==> r.items[i] == d.items[if i < k then i else i + 1]
    ensures d.selected == Some(k) ==> r.selected.None?
    ensures d.selected.Some? && d.selected.value < k ==> r.selected == d.selected
    ensures d.selected.Some? && k < d.selected.value ==> r.selected == Some(d.selected.value - 1)
  {
    var selected :=
      match d.selected
      case None => None
      case Some(j) => if j == k then None else if j > k then Some(j - 1) else Some(j);
    DropDown(d.items[..k] + d.items[k + 1..], selected)
  }

  /** `replaceItems` (both samples): clear the list, add "None" selected, then with new items
      add them all, select the first of them and delete "None". */
  method ReplaceItems(d: DropDown, newItems: seq<string>) returns (r: DropDown)
    ensures newItems == [] ==> r.items == [NoneItem]
    ensures newItems != [] ==> r.items == newItems
    ensures r.selected == Some(0)
  {
    r := Clear(d);
    r := AddItem(r, NoneItem, true);
    r := SelectItem(r, 0);
    if |newItems| > 0 {
      for i := 0 to |newItems|
        invariant r.items == [NoneItem] + newItems[..i] && r.selected == Some(0)
      {
        assert newItems[..i + 1] == newItems[..i] + [newItems[i]];
        r := AddItem(r, newItems[i], false);
      }
      assert newItems[..|newItems|] == newItems;
      if |r.items| > 1 {
        r := SelectItem(r, 1);
        r := DeleteItem(r, 0);
        assert r.items == newItems;
      }
    }
  }

  /** Python `replaceItems` given what Python `getAppearancesFromLib` returned: None makes
      `len` raise after "None" has been added, so the list is left holding "None" only. */
  method PyReplaceItems(d: DropDown, newItems: Option<seq<string>>) returns (r: DropDown)
    ensures newItems.None? || newItems.value == [] ==> r.items == [NoneItem]
    ensures newItems.Some? && newItems.value != [] ==> r.items == newItems.value
    ensures r.selected == Some(0)
  {
    if newItems.None? {
      r := Clear(d);
      r := AddItem(r, NoneItem, true);
      r := SelectItem(r, 0);
    } else {
      r := ReplaceItems(d, newItems.value);
    }
  }

  /** The input-changed handler for the library list and the filter box: look the names up,
      then replace the appearance list with them. */
  method OnLibraryOrFilterChanged(lang: Lang, libs: Libraries, cache: Cache, list: DropDown,
                                  libName: string, filter: string)
    returns (list': DropDown, cache': Cache)
    ensures forall k :: k in cache ==> k in cache' && cache'[k] == cache[k]
    ensures libName in cache' ==> (list'.items ==
      var names := ApplyFilter(cache'[libName], filter); if names == [] then [NoneItem] else names)
    ensures libName !in cache' ==> list'.items == [NoneItem]
    ensures list'.selected == Some(0)
    ensures forall x :: x in list'.items && x != NoneItem ==>
      (libName in cache' && x in cache'[libName] && (filter == [] || Matches(x, filter)))
  {
    if lang == Cpp {
      var r := GetAppearancesFromLib(libs, cache, libName, filter);
      list' := ReplaceItems(list, r.names);
      cache' := r.cache;
    } else {
      var r := PyGetAppearancesFromLib(libs, cache, libName, filter);
      list' := PyReplaceItems(list, r.0);
      cache' := r.1;
    }
    forall x | x in list'.items && x != NoneItem
      ensures libName in cache' && x in cache'[libName] && (filter == [] || Matches(x, filter))
    {
      ApplyFilterMembership(cache'[libName], filter, x);
    }
  }
}
