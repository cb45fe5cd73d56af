/**
 * What both report generators show, whatever the output format: which
 * libraries get a section, which of their functions are listed (the cap of
 * 20 annotated functions), with which explanations, and the optional section
 * of dangerous functions.  `Render` turns a `Report` into text or HTML lines.
 */
module Reporting {
  import opened Wrappers
  import opened Strings
  import opened Sorting
  import opened Catalog
  import opened Imports

  /** The listing of a library stops after this many annotated functions. */
  const CAP: nat := 20

  /** One listed function and, when it has one, its explanation. */
  datatype Row = Row(name: string, explanation: Option<string>)

  /** The block of one catalog library: its name as imported, its catalog
      explanation and its listed functions. */
  datatype Section = Section(dll: string, explanation: string, rows: seq<Row>)

  /** The library blocks in import-table order, then the dangerous functions
      (empty when there is no such section). */
  datatype Report = Report(sections: seq<Section>, dangerous: seq<Row>)

  /** `api.lower() in dll_info["apis"]`: the function has an explanation. */
  predicate Annotated(apis: map<string, string>, f: string) {
    Lower(f) in apis
  }

  /** The number of annotated functions in `fs`. */
  function CountAnnotated(fs: seq<string>, apis: map<string, string>): nat
  {
    if fs == [] then 0
    else (if Annotated(apis, fs[0]) then 1 else 0) + CountAnnotated(fs[1..], apis)
  }

  /** The functions the listing loop emits from `fs` on, once `printed`
      annotated functions have been emitted: each function is emitted, an
      annotated one raises the counter, and the loop stops as soon as the
      counter reaches the cap. */
  function ListedFrom(fs: seq<string>, apis: map<string, string>, printed: nat): seq<string>
    requires printed < CAP
  {
    if fs == [] then []
    else
      var p := if Annotated(apis, fs[0]) then printed + 1 else printed;
      if p >= CAP then [fs[0]] else [fs[0]] + ListedFrom(fs[1..], apis, p)
  }

  /** The functions listed for one library. */
  function Listed(fs: seq<string>, apis: map<string, string>): seq<string> {
    ListedFrom(fs, apis, 0)
  }

  /** The listing loop emits a prefix of its input; it emits everything when
      fewer annotated functions remain than the cap allows, and otherwise
      stops right after the annotated function that fills the cap. */
  lemma {:induction false} ListedFromShape(fs: seq<string>, apis: map<string, string>, printed: nat)
    requires printed < CAP
    ensures var l := ListedFrom(fs, apis, printed);
      && |l| <= |fs| && l == fs[..|l|]
      && printed + CountAnnotated(l, apis) <= CAP
      && (printed + CountAnnotated(fs, apis) < CAP ==> l == fs)
      && (printed + CountAnnotated(fs, apis) >= CAP ==>
            printed + CountAnnotated(l, apis) == CAP && l != [] && Annotated(apis, l[|l| - 1]))
  {
    if fs != [] {
      var l := ListedFrom(fs, apis, printed);
      var p := if Annotated(apis, fs[0]) then printed + 1 else printed;
      if p >= CAP {
        assert l == [fs[0]] && l[1..] == [];
      } else {
        ListedFromShape(fs[1..], apis, p);
        assert l[1..] == ListedFrom(fs[1..], apis, p);
        assert fs[..|l|] == [fs[0]] + fs[1..][..|l| - 1];
      }
    }
  }

  /** The per-library cap: a prefix of the sorted list is listed, holding at
      most 20 annotated functions; unannotated ones do not count, so a list
      with fewer than 20 annotated functions is listed whole; otherwise the
      listing ends with its 20th annotated function. */
  lemma ListedCap(fs: seq<string>, apis: map<string, string>)
    ensures var l := Listed(fs, apis);
      && |l| <= |fs| && l == fs[..|l|]
      && CountAnnotated(l, apis) <= CAP
      && (CountAnnotated(fs, apis) < CAP ==> l == fs)
      && (CountAnnotated(fs, apis) >= CAP ==>
            CountAnnotated(l, apis) == CAP && l != [] && Annotated(apis, l[|l| - 1]))
  {
    ListedFromShape(fs, apis, 0);
  }

  lemma {:induction false} NoneAnnotated(fs: seq<string>, apis: map<string, string>)
    requires forall i :: 0 <= i < |fs| ==> !Annotated(apis, fs[i])
    ensures CountAnnotated(fs, apis) == 0
  {
    if fs != [] {
      NoneAnnotated(fs[1..], apis);
    }
  }

  /** The cap is on annotated functions only: a library importing more than
      20 functions, none of them in its API map, is listed in full. */
  lemma UnannotatedNotCapped(fs: seq<string>, apis: map<string, string>)
    requires |fs| > CAP
    requires forall i :: 0 <= i < |fs| ==> !Annotated(apis, fs[i])
    ensures Listed(fs, apis) == fs && |Listed(fs, apis)| > CAP
  {
    NoneAnnotated(fs, apis);
    ListedCap(fs, apis);
  }

  /** The row of a listed library function. */
  function RowFor(apis: map<string, string>, f: string): Row {
    Row(f, if Annotated(apis, f) then Some(apis[Lower(f)]) else None)
  }

  /** The rows of the listed functions `fs`, in order. */
  function RowsFor(apis: map<string, string>, fs: seq<string>): (rows: seq<Row>)
    ensures |rows| == |fs|
    ensures forall i :: 0 <= i < |fs| ==> rows[i] == RowFor(apis, fs[i])
  {
    if fs == [] then [] else RowsFor(apis, fs[..|fs| - 1]) + [RowFor(apis, fs[|fs| - 1])]
  }

  /** The section of an imported library `lib` found in the catalog as `e`. */
  function SectionFor(lib: Library, e: CatalogEntry): Section {
    Section(lib.name, e.explanation, RowsFor(e.apis, Listed(SortByLower(lib.functions), e.apis)))
  }

  /** The sections of the imported libraries whose lower-cased name is a
      catalog key, in import-table order. */
  function Sections(imports: seq<Library>, catalog: Catalog): seq<Section>
  {
    if imports == [] then []
    else
      var prev, lib := Sections(imports[..|imports| - 1], catalog), imports[|imports| - 1];
      match Lookup(catalog, Lower(lib.name))
      case None => prev
      case Some(e) => prev + [SectionFor(lib, e)]
  }

  /** The explanation shown for a dangerous function: the one in the first
      catalog library that has its lower-cased name, unless it is empty or
      `DEFAULT_EXPLANATION`. */
  function DangerExplanation(catalog: Catalog, f: string): Option<string> {
    match FirstApi(catalog, Lower(f))
    case Some(x) => if x != "" && x != DEFAULT_EXPLANATION then Some(x) else None
    case None => None
  }

  /** The rows of the dangerous section for the (sorted) names `fs`. */
  function DangerRows(catalog: Catalog, fs: seq<string>): (rows: seq<Row>)
    ensures |rows| == |fs|
    ensures forall i :: 0 <= i < |fs| ==> rows[i] == Row(fs[i], DangerExplanation(catalog, fs[i]))
  {
    if fs == [] then []
    else DangerRows(catalog, fs[..|fs| - 1]) + [Row(fs[|fs| - 1], DangerExplanation(catalog, fs[|fs| - 1]))]
  }

  /** What a generator shows for the grouped imports, the catalog and the
      dangerous set `dangerous` (in its iteration order; `[]` when the user
      declined). */
  function BuildReport(imports: seq<Library>, catalog: Catalog, dangerous: seq<string>): Report {
    Report(Sections(imports, catalog), DangerRows(catalog, SortByLower(dangerous)))
  }

  // ----- What the report shows --------------------------------------------

  /** Every section belongs to an imported library whose lower-cased name is
      a catalog key, and is that library's section. */
  lemma {:induction false} SectionsFromCatalog(imports: seq<Library>, catalog: Catalog, k: int)
    requires 0 <= k < |Sections(imports, catalog)|
    ensures exists i :: (0 <= i < |imports| &&
      Lookup(catalog, Lower(imports[i].name)).Some? &&
      Sections(imports, catalog)[k] == SectionFor(imports[i], Lookup(catalog, Lower(imports[i].name)).value))
  {
    var n := |imports| - 1;
    var prev := Sections(imports[..n], catalog);
    if k < |prev| {
      SectionsFromCatalog(imports[..n], catalog, k);
      var i :| 0 <= i < n && Lookup(catalog, Lower(imports[..n][i].name)).Some? &&
        prev[k] == SectionFor(imports[..n][i], Lookup(catalog, Lower(imports[..n][i].name)).value);
      assert imports[..n][i] == imports[i];
    } else {
      assert Lookup(catalog, Lower(imports[n].name)).Some?;
    }
  }

  lemma SectionsStep(imports: seq<Library>, catalog: Catalog)
    requires imports != []
    ensures var lib := imports[|imports| - 1];
      Sections(imports, catalog) == Sections(imports[..|imports| - 1], catalog) +
        (match Lookup(catalog, Lower(lib.name)) case None => [] case Some(e) => [SectionFor(lib, e)])
  {
  }

  /** Every imported library whose lower-cased name is a catalog key gets its
      section; a library that is not in the catalog gets none (by
      `SectionsFromCatalog`). */
  lemma {:induction false} CatalogLibraryShown(imports: seq<Library>, catalog: Catalog, i: int, e: CatalogEntry)
    requires 0 <= i < |imports| && Lookup(catalog, Lower(imports[i].name)) == Some(e)
    ensures SectionFor(imports[i], e) in Sections(imports, catalog)
  {
    LibraryShown(imports, catalog, i, imports[i], e);
  }

  lemma {:induction false} LibraryShown(imports: seq<Library>, catalog: Catalog, i: int, lib: Library, e: CatalogEntry)
    requires 0 <= i < |imports| && imports[i] == lib && Lookup(catalog, Lower(lib.name)) == Some(e)
    ensures SectionFor(lib, e) in Sections(imports, catalog)
  {
    var n := |imports| - 1;
    if i < n {
      assert imports[..n][i] == lib;
      LibraryShown(imports[..n], catalog, i, lib, e);
      SectionsGrow(imports, catalog, SectionFor(lib, e));
    } else {
      SectionsLast(imports, catalog, e);
    }
  }

  /** The last import, found in the catalog as `e`, has its section. */
  lemma SectionsLast(imports: seq<Library>, catalog: Catalog, e: CatalogEntry)
    requires imports != [] && Lookup(catalog, Lower(imports[|imports| - 1].name)) == Some(e)
    ensures SectionFor(imports[|imports| - 1], e) in Sections(imports, catalog)
  {
    SectionsStep(imports, catalog);
  }

  /** A section of a prefix of the imports is a section of all of them. */
  lemma SectionsGrow(imports: seq<Library>, catalog: Catalog, s: Section)
    requires imports != [] && s in Sections(imports[..|imports| - 1], catalog)
    ensures s in Sections(imports, catalog)
  {
    SectionsStep(imports, catalog);
  }

  /** The rows of a section: a prefix of the library's case-insensitively
      sorted functions, each with its catalog explanation exactly when its
      lower-cased name is a key of the library's API map. */
  lemma SectionRows(lib: Library, e: CatalogEntry)
    ensures var s, sorted := SectionFor(lib, e), SortByLower(lib.functions);
      && s.dll == lib.name && s.explanation == e.explanation
      && |s.rows| <= |sorted|
      && (forall i :: 0 <= i < |s.rows| ==> s.rows[i].name == sorted[i])
      && (forall i :: 0 <= i < |s.rows| ==>
            (s.rows[i].explanation.Some? <==> Lower(s.rows[i].name) in e.apis))
      && (forall i :: 0 <= i < |s.rows| && s.rows[i].explanation.Some? ==>
            s.rows[i].explanation.value == e.apis[Lower(s.rows[i].name)])
  {
    var sorted := SortByLower(lib.functions);
    var listed := Listed(sorted, e.apis);
    ListedCap(sorted, e.apis);
    assert forall i :: 0 <= i < |listed| ==> listed[i] == sorted[i];
  }

  /** A mixed-case key of an API map never annotates a listed function,
      because lookups always lower-case the imported name first. */
  lemma MixedCaseKeyUnused(lib: Library, e: CatalogEntry, key: string)
    requires Lower(key) != key
    ensures forall r :: r in SectionFor(lib, e).rows ==> Lower(r.name) != key
  {
    forall r | r in SectionFor(lib, e).rows ensures Lower(r.name) != key {
      NotLowerNeverMatches(key, r.name);
    }
  }

  /** The dangerous section lists the dangerous set in case-insensitive order,
      each name exactly as often as the set holds it (once, for a set); it is
      empty exactly when the set is;
      each explanation is the first catalog library's, shown only when it is
      neither empty nor `DEFAULT_EXPLANATION`. */
  lemma DangerousSection(imports: seq<Library>, catalog: Catalog, dangerous: seq<string>)
    ensures var rows := BuildReport(imports, catalog, dangerous).dangerous;
      && (rows == [] <==> dangerous == [])
      && (forall f :: (exists i :: 0 <= i < |rows| && rows[i].name == f) <==> f in dangerous)
      && (forall i, j :: 0 <= i < j < |rows| ==> KeyLe(rows[i].name, rows[j].name))
      && (forall i :: 0 <= i < |rows| ==>
            match rows[i].explanation
            case Some(x) => x != "" && x != DEFAULT_EXPLANATION &&
                            FirstApi(catalog, Lower(rows[i].name)) == Some(x)
            case None => FirstApi(catalog, Lower(rows[i].name)) in {None, Some(""), Some(DEFAULT_EXPLANATION)})
    ensures var rows := BuildReport(imports, catalog, dangerous).dangerous;
      multiset(seq(|rows|, i requires 0 <= i < |rows| => rows[i].name)) == multiset(dangerous)
  {
    DangerousSectionPermutes(imports, catalog, dangerous);
    DangerousSectionEmpty(imports, catalog, dangerous);
    DangerousSectionSorted(imports, catalog, dangerous);
    var rows := BuildReport(imports, catalog, dangerous).dangerous;
    forall f ensures (exists i :: 0 <= i < |rows| && rows[i].name == f) <==> f in dangerous {
      DangerousSectionNames(imports, catalog, dangerous, f);
    }
  }

  /** The names of the dangerous section are a permutation of the dangerous
      set's enumeration: no name is repeated or dropped. */
  lemma DangerousSectionPermutes(imports: seq<Library>, catalog: Catalog, dangerous: seq<string>)
    ensures var rows := BuildReport(imports, catalog, dangerous).dangerous;
      multiset(seq(|rows|, i requires 0 <= i < |rows| => rows[i].name)) == multiset(dangerous)
  {
    var rows := BuildReport(imports, catalog, dangerous).dangerous;
    SortByLowerPermutes(dangerous);
    assert seq(|rows|, i requires 0 <= i < |rows| => rows[i].name) == SortByLower(dangerous);
  }

  /** The dangerous section has one row per name of the enumeration, so it
      is empty exactly when the dangerous set is. */
  lemma DangerousSectionEmpty(imports: seq<Library>, catalog: Catalog, dangerous: seq<string>)
    ensures |BuildReport(imports, catalog, dangerous).dangerous| == |dangerous|
    ensures BuildReport(imports, catalog, dangerous).dangerous == [] <==> dangerous == []
  {
    var sorted := SortByLower(dangerous);
    SortByLowerPermutes(dangerous);
    assert |sorted| == |multiset(sorted)| == |multiset(dangerous)| == |dangerous|;
  }

  /** The dangerous section is in case-insensitive order. */
  lemma DangerousSectionSorted(imports: seq<Library>, catalog: Catalog, dangerous: seq<string>)
    ensures var rows := BuildReport(imports, catalog, dangerous).dangerous;
      forall i, j :: 0 <= i < j < |rows| ==> KeyLe(rows[i].name, rows[j].name)
  {
    SortByLowerSorted(dangerous);
  }

  /** A name is a row of the dangerous section exactly when it is in the
      dangerous set. */
  lemma DangerousSectionNames(imports: seq<Library>, catalog: Catalog, dangerous: seq<string>, f: string)
    ensures var rows := BuildReport(imports, catalog, dangerous).dangerous;
      (exists i :: 0 <= i < |rows| && rows[i].name == f) <==> f in dangerous
  {
    var sorted := SortByLower(dangerous);
    var rows := BuildReport(imports, catalog, dangerous).dangerous;
    SortByLowerPermutes(dangerous);
    assert f in sorted <==> f in multiset(dangerous);
    if f in sorted {
      var i :| 0 <= i < |sorted| && sorted[i] == f;
      assert rows[i].name == f;
    }
  }
}
