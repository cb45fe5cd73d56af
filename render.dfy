/**
 * `generate_text_output` and `generate_html_output`: both walk the grouped
 * imports, look each library up in the catalog by its lower-cased name, list
 * its functions until the cap is filled, and append the dangerous section.
 * Each method is proved to produce the lines of the `Report` that
 * `Reporting.BuildReport` describes, laid out as text or as HTML.
 */
module Render {
  import opened Wrappers
  import opened Strings
  import opened Sorting
  import opened Catalog
  import opened Imports
  import opened Reporting

  // ----- Plain-text layout ------------------------------------------------

  /** One function line of the text report. */
  function RowText(r: Row): string {
    match r.explanation
    case Some(x) => "    " + r.name + ": " + x
    case None => "    " + r.name
  }

  function RowsText(rows: seq<Row>): (lines: seq<string>)
    ensures |lines| == |rows|
    ensures forall i :: 0 <= i < |rows| ==> lines[i] == RowText(rows[i])
  {
    if rows == [] then [] else RowsText(rows[..|rows| - 1]) + [RowText(rows[|rows| - 1])]
  }

  /** The text block of one library: header, explanation, functions, blank line. */
  function SectionText(s: Section): seq<string> {
    [s.dll + ":", "    DLL Explanation: " + s.explanation] + RowsText(s.rows) + [""]
  }

  function SectionsText(ss: seq<Section>): seq<string> {
    if ss == [] then [] else SectionsText(ss[..|ss| - 1]) + SectionText(ss[|ss| - 1])
  }

  const DANGER_TITLE: string := "Most Dangerous/Suspicious Functions"

  /** The lines of the text report. */
  function TextLines(r: Report): seq<string> {
    SectionsText(r.sections) +
    (if r.dangerous == [] then [] else [DANGER_TITLE + ":"] + RowsText(r.dangerous))
  }

  // ----- HTML layout ------------------------------------------------------

  /** The fixed head every HTML report starts with. */
  const HTML_HEAD: seq<string> := [
    "<html>",
    "<head>",
    "<title>PE Import Analysis</title>",
    "<style>",
    "table { border-collapse: collapse; width: 90%; margin: 10px; }",
    "th, td { border: 1px solid #ddd; padding: 8px; }",
    "th { background-color: #f2f2f2; }",
    "</style>",
    "</head>",
    "<body>",
    "<h1>PE Import Analysis</h1>"
  ]

  const TABLE_HEADER: string := "<tr><th>API Function</th><th>Explanation</th></tr>"
  const HTML_END: string := "</body></html>"

  function Heading(x: string): string { "<h2>" + x + "</h2>" }
  function ExplanationPara(x: string): string { "<p><strong>DLL Explanation:</strong> " + x + "</p>" }
  function TableRow(a: string, b: string): string { "<tr><td>" + a + "</td><td>" + b + "</td></tr>" }

  /** One table row; a function without an explanation gets an empty cell. */
  function RowHtml(r: Row): string {
    TableRow(Escape(r.name), match r.explanation case Some(x) => Escape(x) case None => "")
  }

  function RowsHtml(rows: seq<Row>): (lines: seq<string>)
    ensures |lines| == |rows|
    ensures forall i :: 0 <= i < |rows| ==> lines[i] == RowHtml(rows[i])
  {
    if rows == [] then [] else RowsHtml(rows[..|rows| - 1]) + [RowHtml(rows[|rows| - 1])]
  }

  /** The HTML block of one library: heading, explanation, table. */
  function SectionHtml(s: Section): seq<string> {
    [Heading(Escape(s.dll)), ExplanationPara(Escape(s.explanation)), "<table>", TABLE_HEADER] +
    RowsHtml(s.rows) + ["</table>"]
  }

  function SectionsHtml(ss: seq<Section>): seq<string> {
    if ss == [] then [] else SectionsHtml(ss[..|ss| - 1]) + SectionHtml(ss[|ss| - 1])
  }

  /** The lines of the HTML report. */
  function HtmlLines(r: Report): seq<string> {
    HTML_HEAD + SectionsHtml(r.sections) +
    (if r.dangerous == [] then []
     else [Heading(DANGER_TITLE), "<table>", TABLE_HEADER] + RowsHtml(r.dangerous) + ["</table>"]) +
    [HTML_END]
  }

  /** A line of the HTML report: fixed markup, or a template whose holes hold
      escaped text only. */
  ghost predicate SafeHtmlLine(l: string) {
    l in HTML_HEAD || l in [TABLE_HEADER, "<table>", "</table>", HTML_END, Heading(DANGER_TITLE)] ||
    (exists x :: Escaped(x) && l == Heading(x)) ||
    (exists x :: Escaped(x) && l == ExplanationPara(x)) ||
    (exists a, b :: Escaped(a) && Escaped(b) && l == TableRow(a, b))
  }

  /** A table row holds the escaped name and explanation, from which both
      are recovered. */
  lemma RowHtmlCells(r: Row)
    ensures exists a, b :: (Escaped(a) && Escaped(b) && RowHtml(r) == TableRow(a, b) &&
      Unescape(a) == r.name && (r.explanation.Some? ==> Unescape(b) == r.explanation.value))
  {
    var b := match r.explanation case Some(x) => Escape(x) case None => "";
    assert Escaped("");
    EscapeRoundTrip(r.name);
    EscapeIsEscaped(r.name);
    if r.explanation.Some? {
      EscapeRoundTrip(r.explanation.value);
      EscapeIsEscaped(r.explanation.value);
    }
    assert Escaped(Escape(r.name)) && Escaped(b) && RowHtml(r) == TableRow(Escape(r.name), b);
  }

  lemma {:induction false} RowsHtmlSafe(rows: seq<Row>)
    ensures forall l :: l in RowsHtml(rows) ==> SafeHtmlLine(l)
  {
    forall l | l in RowsHtml(rows) ensures SafeHtmlLine(l) {
      var i :| 0 <= i < |rows| && RowsHtml(rows)[i] == l;
      RowHtmlCells(rows[i]);
    }
  }

  lemma {:induction false} SectionsHtmlSafe(ss: seq<Section>)
    ensures forall l :: l in SectionsHtml(ss) ==> SafeHtmlLine(l)
  {
    if ss != [] {
      var s := ss[|ss| - 1];
      SectionsHtmlSafe(ss[..|ss| - 1]);
      RowsHtmlSafe(s.rows);
      EscapeIsEscaped(s.dll);
      EscapeIsEscaped(s.explanation);
      assert SafeHtmlLine(Heading(Escape(s.dll)));
      assert SafeHtmlLine(ExplanationPara(Escape(s.explanation)));
    }
  }

  /** The HTML report starts with the fixed 11-line head, ends with
      `</body></html>`, and every line in between is fixed markup or a
      template whose holes are escaped: no `<`, `>` or quote from a library
      name, function name or explanation reaches the page unescaped, and
      every `&` in a hole starts an entity. */
  lemma HtmlLinesSafe(r: Report)
    ensures var ls := HtmlLines(r);
      && |ls| >= |HTML_HEAD| + 1
      && ls[..|HTML_HEAD|] == HTML_HEAD
      && ls[|ls| - 1] == HTML_END
      && forall i :: 0 <= i < |ls| ==> SafeHtmlLine(ls[i])
  {
    var ls := HtmlLines(r);
    SectionsHtmlSafe(r.sections);
    RowsHtmlSafe(r.dangerous);
    forall i | 0 <= i < |ls| ensures SafeHtmlLine(ls[i]) {
      assert ls[i] in HTML_HEAD || ls[i] in SectionsHtml(r.sections) || ls[i] in RowsHtml(r.dangerous) ||
        ls[i] in [TABLE_HEADER, "<table>", "</table>", HTML_END, Heading(DANGER_TITLE)];
    }
  }

  /** One step of the listing loop: the function at `j` is listed, and the
      loop stops there exactly when it fills the cap. */
  lemma ListedStep(sorted: seq<string>, apis: map<string, string>, j: nat, printed: nat)
    requires j < |sorted| && printed < CAP
    requires Listed(sorted, apis) == sorted[..j] + ListedFrom(sorted[j..], apis, printed)
    ensures var p := if Annotated(apis, sorted[j]) then printed + 1 else printed;
      && (p >= CAP ==> Listed(sorted, apis) == sorted[..j + 1])
      && (p < CAP ==> Listed(sorted, apis) == sorted[..j + 1] + ListedFrom(sorted[j + 1..], apis, p))
  {
    assert sorted[..j + 1] == sorted[..j] + [sorted[j]];
    assert sorted[j..][1..] == sorted[j + 1..];
  }

  lemma RowsTextStep(apis: map<string, string>, sorted: seq<string>, j: nat)
    requires j < |sorted|
    ensures RowsText(RowsFor(apis, sorted[..j + 1])) ==
      RowsText(RowsFor(apis, sorted[..j])) +
      [if Lower(sorted[j]) in apis then "    " + sorted[j] + ": " + apis[Lower(sorted[j])] else "    " + sorted[j]]
  {
    assert sorted[..j + 1][..j] == sorted[..j];
  }

  lemma RowsHtmlStep(apis: map<string, string>, sorted: seq<string>, j: nat)
    requires j < |sorted|
    ensures RowsHtml(RowsFor(apis, sorted[..j + 1])) ==
      RowsHtml(RowsFor(apis, sorted[..j])) +
      [if Lower(sorted[j]) in apis
       then TableRow(Escape(sorted[j]), Escape(apis[Lower(sorted[j])]))
       else TableRow(Escape(sorted[j]), "")]
  {
    assert sorted[..j + 1][..j] == sorted[..j];
  }

  lemma DangerTextStep(catalog: Catalog, sorted: seq<string>, k: nat, explanation: Option<string>)
    requires k < |sorted| && explanation == FirstApi(catalog, Lower(sorted[k]))
    ensures RowsText(DangerRows(catalog, sorted[..k + 1])) ==
      RowsText(DangerRows(catalog, sorted[..k])) +
      [if explanation.Some? && explanation.value != "" && explanation.value != DEFAULT_EXPLANATION
       then "    " + sorted[k] + ": " + explanation.value else "    " + sorted[k]]
  {
    assert sorted[..k + 1][..k] == sorted[..k];
  }

  lemma DangerHtmlStep(catalog: Catalog, sorted: seq<string>, k: nat, explanation: Option<string>)
    requires k < |sorted| && explanation == FirstApi(catalog, Lower(sorted[k]))
    ensures RowsHtml(DangerRows(catalog, sorted[..k + 1])) ==
      RowsHtml(DangerRows(catalog, sorted[..k])) +
      [if explanation.Some? && explanation.value != "" && explanation.value != DEFAULT_EXPLANATION
       then TableRow(Escape(sorted[k]), Escape(explanation.value))
       else TableRow(Escape(sorted[k]), "")]
  {
    assert sorted[..k + 1][..k] == sorted[..k];
  }

  lemma SectionsTextStep(imports: seq<Library>, catalog: Catalog, i: nat)
    requires i < |imports|
    ensures SectionsText(Sections(imports[..i + 1], catalog)) ==
      SectionsText(Sections(imports[..i], catalog)) +
      (match Lookup(catalog, Lower(imports[i].name))
       case None => []
       case Some(e) => SectionText(SectionFor(imports[i], e)))
  {
    assert imports[..i + 1][..i] == imports[..i];
    SectionsStep(imports[..i + 1], catalog);
    var prev := Sections(imports[..i], catalog);
    match Lookup(catalog, Lower(imports[i].name))
    case None =>
    case Some(e) =>
      assert (prev + [SectionFor(imports[i], e)])[..|prev|] == prev;
  }

  lemma SectionsHtmlStep(imports: seq<Library>, catalog: Catalog, i: nat)
    requires i < |imports|
    ensures SectionsHtml(Sections(imports[..i + 1], catalog)) ==
      SectionsHtml(Sections(imports[..i], catalog)) +
      (match Lookup(catalog, Lower(imports[i].name))
       case None => []
       case Some(e) => SectionHtml(SectionFor(imports[i], e)))
  {
    assert imports[..i + 1][..i] == imports[..i];
    SectionsStep(imports[..i + 1], catalog);
    var prev := Sections(imports[..i], catalog);
    match Lookup(catalog, Lower(imports[i].name))
    case None =>
    case Some(e) =>
      assert (prev + [SectionFor(imports[i], e)])[..|prev|] == prev;
  }

  /** The text report is the library blocks, then the dangerous block when
      the dangerous set is not empty. */
  lemma TextLinesParts(imports: seq<Library>, catalog: Catalog, dangerous: seq<string>)
    ensures TextLines(BuildReport(imports, catalog, dangerous)) ==
      SectionsText(Sections(imports, catalog)) +
      (if |dangerous| > 0 then [DANGER_TITLE + ":"] + RowsText(DangerRows(catalog, SortByLower(dangerous))) else [])
  {
    DangerousSectionEmpty(imports, catalog, dangerous);
  }

  lemma HtmlLinesParts(imports: seq<Library>, catalog: Catalog, dangerous: seq<string>)
    ensures HtmlLines(BuildReport(imports, catalog, dangerous)) ==
      HTML_HEAD + SectionsHtml(Sections(imports, catalog)) +
      (if |dangerous| > 0
       then [Heading(DANGER_TITLE), "<table>", TABLE_HEADER] + RowsHtml(DangerRows(catalog, SortByLower(dangerous))) + ["</table>"]
       else []) +
      [HTML_END]
  {
    DangerousSectionEmpty(imports, catalog, dangerous);
  }

  // The lemmas from here to the generators only regroup a concatenation.
  // Each states the one regrouping a generator needs; kept apart, they keep
  // the generators' own proofs small enough to check.

  lemma SectionTextIs(lib: Library, e: CatalogEntry, prev: seq<string>, listed: seq<string>)
    requires listed == RowsText(RowsFor(e.apis, Listed(SortByLower(lib.functions), e.apis)))
    ensures prev + [lib.name + ":"] + ["    DLL Explanation: " + e.explanation] + listed + [""] ==
      prev + SectionText(SectionFor(lib, e))
  {
  }

  lemma SectionHtmlIs(lib: Library, e: CatalogEntry, prev: seq<string>, listed: seq<string>)
    requires listed == RowsHtml(SectionFor(lib, e).rows)
    ensures prev + [Heading(Escape(lib.name))] + [ExplanationPara(Escape(e.explanation))] +
      ["<table>"] + [TABLE_HEADER] + listed + ["</table>"] ==
      prev + SectionHtml(SectionFor(lib, e))
  {
    var h, p := Heading(Escape(lib.name)), ExplanationPara(Escape(e.explanation));
    BlockConcat(prev, h, p, listed);
  }

  lemma BlockConcat(prev: seq<string>, h: string, p: string, listed: seq<string>)
    ensures prev + [h] + [p] + ["<table>"] + [TABLE_HEADER] + listed + ["</table>"] ==
      prev + ([h, p, "<table>", TABLE_HEADER] + listed + ["</table>"])
  {
  }

  lemma DangerTextBlock(sections: seq<string>, rows: seq<string>)
    ensures sections + [DANGER_TITLE + ":"] + rows == sections + ([DANGER_TITLE + ":"] + rows)
  {
  }

  lemma DangerHtmlBlock(sections: seq<string>, rows: seq<string>)
    ensures sections + [Heading(DANGER_TITLE)] + ["<table>"] + [TABLE_HEADER] + rows + ["</table>"] ==
      sections + ([Heading(DANGER_TITLE), "<table>", TABLE_HEADER] + rows + ["</table>"])
  {
  }

  // ----- The generators ---------------------------------------------------

  /** The inner loop over `nested_dict.values()`: the explanation of `key` in
      the first catalog library whose API map has it. */
  method FindApi(catalog: Catalog, key: string) returns (explanation: Option<string>)
    ensures explanation == FirstApi(catalog, key)
  {
    explanation := None;
    var n := 0;
    while n < |catalog|
      invariant 0 <= n <= |catalog|
      invariant forall j :: 0 <= j < n ==> key !in catalog[j].apis
    {
      if key in catalog[n].apis {
        explanation := Some(catalog[n].apis[key]);
        assert FirstWithApi(catalog, key, n);
        ghost var r := FirstApi(catalog, key);
        ghost var i :| FirstWithApi(catalog, key, i) && catalog[i].apis[key] == r.value;
        assert i == n;
        return;
      }
      n := n + 1;
    }
  }

  /** The listing loop of `generate_text_output` for one catalog library:
      its functions in case-insensitive order, until the cap is filled. */
  method ListFunctionsText(functions: seq<string>, apis: map<string, string>) returns (lines: seq<string>)
    ensures lines == RowsText(RowsFor(apis, Listed(SortByLower(functions), apis)))
  {
    lines := [];
    var sorted := SortByLower(functions);
    var printed := 0;
    var j := 0;
    while j < |sorted|
      invariant 0 <= j <= |sorted| && printed < CAP
      invariant Listed(sorted, apis) == sorted[..j] + ListedFrom(sorted[j..], apis, printed)
      invariant lines == RowsText(RowsFor(apis, sorted[..j]))
    {
      var api := sorted[j];
      var apiKey := Lower(api);
      ListedStep(sorted, apis, j, printed);
      RowsTextStep(apis, sorted, j);
      if apiKey in apis {
        lines := lines + ["    " + api + ": " + apis[apiKey]];
        printed := printed + 1;
      } else {
        lines := lines + ["    " + api];
      }
      j := j + 1;
      if printed >= CAP {
        break;
      }
    }
    assert Listed(sorted, apis) == sorted[..j];
  }

  /** The loop of `generate_text_output` over the sorted dangerous set. */
  method DangerousText(catalog: Catalog, sorted: seq<string>) returns (lines: seq<string>)
    ensures lines == RowsText(DangerRows(catalog, sorted))
  {
    lines := [];
    var k := 0;
    while k < |sorted|
      invariant 0 <= k <= |sorted|
      invariant lines == RowsText(DangerRows(catalog, sorted[..k]))
    {
      var func := sorted[k];
      var explanation := FindApi(catalog, Lower(func));
      DangerTextStep(catalog, sorted, k, explanation);
      if explanation.Some? && explanation.value != "" && explanation.value != DEFAULT_EXPLANATION {
        lines := lines + ["    " + func + ": " + explanation.value];
      } else {
        lines := lines + ["    " + func];
      }
      k := k + 1;
    }
    assert sorted[..k] == sorted;
  }

  /** The loop of `generate_text_output` over the grouped imports: one block
      per library whose lower-cased name is a catalog key. */
  method LibrariesText(imports: seq<Library>, catalog: Catalog) returns (lines: seq<string>)
    ensures lines == SectionsText(Sections(imports, catalog))
  {
    lines := [];
    var i := 0;
    while i < |imports|
      invariant 0 <= i <= |imports|
      invariant lines == SectionsText(Sections(imports[..i], catalog))
    {
      var lib := imports[i];
      var key := Lower(lib.name);
      SectionsTextStep(imports, catalog, i);
      var info := Lookup(catalog, key);
      if info.Some? {
        var dllInfo := info.value;
        ghost var prev := lines;
        lines := lines + [lib.name + ":"];
        lines := lines + ["    DLL Explanation: " + dllInfo.explanation];
        var listed := ListFunctionsText(lib.functions, dllInfo.apis);
        lines := lines + listed;
        lines := lines + [""];
        SectionTextIs(lib, dllInfo, prev, listed);
      }
      i := i + 1;
    }
    assert imports[..i] == imports;
  }

  /** `generate_text_output(sorted_imports, nested_dict, dangerous_set)`,
      with `dangerous` the dangerous set in its iteration order. */
  method GenerateTextOutput(imports: seq<Library>, catalog: Catalog, dangerous: seq<string>)
    returns (output: string)
    ensures output == JoinLines(TextLines(BuildReport(imports, catalog, dangerous)))
  {
    var lines := LibrariesText(imports, catalog);
    TextLinesParts(imports, catalog, dangerous);
    ghost var sections := lines;
    if |dangerous| > 0 {
      lines := lines + [DANGER_TITLE + ":"];
      var rows := DangerousText(catalog, SortByLower(dangerous));
      lines := lines + rows;
      DangerTextBlock(sections, rows);
    } else {
      assert lines == sections + [];
    }
    output := JoinLines(lines);
  }

  /** The listing loop of `generate_html_output` for one catalog library. */
  method ListFunctionsHtml(functions: seq<string>, apis: map<string, string>) returns (lines: seq<string>)
    ensures lines == RowsHtml(RowsFor(apis, Listed(SortByLower(functions), apis)))
  {
    lines := [];
    var sorted := SortByLower(functions);
    var printed := 0;
    var j := 0;
    while j < |sorted|
      invariant 0 <= j <= |sorted| && printed < CAP
      invariant Listed(sorted, apis) == sorted[..j] + ListedFrom(sorted[j..], apis, printed)
      invariant lines == RowsHtml(RowsFor(apis, sorted[..j]))
    {
      var api := sorted[j];
      var apiKey := Lower(api);
      ListedStep(sorted, apis, j, printed);
      RowsHtmlStep(apis, sorted, j);
      if apiKey in apis {
        var explanation := apis[apiKey];
        var row := TableRow(Escape(api), Escape(explanation));
        lines := lines + [row];
        printed := printed + 1;
      } else {
        var row := TableRow(Escape(api), "");
        lines := lines + [row];
      }
      j := j + 1;
      if printed >= CAP {
        break;
      }
    }
    assert Listed(sorted, apis) == sorted[..j];
  }

  /** The loop of `generate_html_output` over the sorted dangerous set. */
  method DangerousHtml(catalog: Catalog, sorted: seq<string>) returns (lines: seq<string>)
    ensures lines == RowsHtml(DangerRows(catalog, sorted))
  {
    lines := [];
    var k := 0;
    while k < |sorted|
      invariant 0 <= k <= |sorted|
      invariant lines == RowsHtml(DangerRows(catalog, sorted[..k]))
    {
      var func := sorted[k];
      var explanation := FindApi(catalog, Lower(func));
      DangerHtmlStep(catalog, sorted, k, explanation);
      var row;
      if explanation.Some? && explanation.value != "" && explanation.value != DEFAULT_EXPLANATION {
        row := TableRow(Escape(func), Escape(explanation.value));
      } else {
        row := TableRow(Escape(func), "");
      }
      lines := lines + [row];
      k := k + 1;
    }
    assert sorted[..k] == sorted;
  }

  /** The loop of `generate_html_output` over the grouped imports. */
  method LibrariesHtml(imports: seq<Library>, catalog: Catalog) returns (lines: seq<string>)
    ensures lines == SectionsHtml(Sections(imports, catalog))
  {
    lines := [];
    var i := 0;
    while i < |imports|
      invariant 0 <= i <= |imports|
      invariant lines == SectionsHtml(Sections(imports[..i], catalog))
    {
      var lib := imports[i];
      var key := Lower(lib.name);
      SectionsHtmlStep(imports, catalog, i);
      var info := Lookup(catalog, key);
      if info.Some? {
        var dllInfo := info.value;
        ghost var prev := lines;
        lines := lines + [Heading(Escape(lib.name))];
        lines := lines + [ExplanationPara(Escape(dllInfo.explanation))];
        lines := lines + ["<table>"];
        lines := lines + [TABLE_HEADER];
        var listed := ListFunctionsHtml(lib.functions, dllInfo.apis);
        lines := lines + listed;
        lines := lines + ["</table>"];
        SectionHtmlIs(lib, dllInfo, prev, listed);
      }
      i := i + 1;
    }
    assert imports[..i] == imports;
  }

  /** `generate_html_output(sorted_imports, nested_dict, dangerous_set)`,
      with `dangerous` the dangerous set in its iteration order. */
  method GenerateHtmlOutput(imports: seq<Library>, catalog: Catalog, dangerous: seq<string>)
    returns (output: string)
    ensures output == JoinLines(HtmlLines(BuildReport(imports, catalog, dangerous)))
  {
    var lines: seq<string> := HTML_HEAD;
    var sections := LibrariesHtml(imports, catalog);
    lines := lines + sections;
    HtmlLinesParts(imports, catalog, dangerous);
    ghost var before := lines;
    if |dangerous| > 0 {
      lines := lines + [Heading(DANGER_TITLE)];
      lines := lines + ["<table>"];
      lines := lines + [TABLE_HEADER];
      var rows := DangerousHtml(catalog, SortByLower(dangerous));
      lines := lines + rows;
      lines := lines + ["</table>"];
      DangerHtmlBlock(before, rows);
    } else {
      assert lines == before + [];
    }
    lines := lines + [HTML_END];
    output := JoinLines(lines);
  }
}
