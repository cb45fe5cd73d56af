/**
 * The analysis run of `main`: extract and group the imports, collect the
 * imported functions whose lower-cased name is on the dangerous list, and
 * produce the text or HTML report, with the dangerous section only when the
 * user asked for it.  The two yes/no answers are parameters; reading them,
 * choosing the file name and writing the file are not modelled.
 */
module Analyzer {
  import opened Wrappers
  import opened Strings
  import opened Sorting
  import opened Imports
  import opened Catalog
  import opened Reporting
  import opened Render

  /** `dangerous_functions`: lower-case names, matched exactly. */
  const DANGEROUS_FUNCTIONS: seq<string> := [
    "createremotethread", "writeprocessmemory", "virtualalloc", "setunhandledexceptionfilter",
    "regcreatekeyexa", "regcreatekeyexw", "regsetvalueexa", "getprocaddress", "loadlibrary",
    "internetconnecta", "httpsendrequesta", "httpendrequesta", "cryptencrypt", "cryptdecrypt"
  ]

  /** `api.lower() in dangerous_functions`. */
  predicate Dangerous(f: string) {
    Lower(f) in DANGEROUS_FUNCTIONS
  }

  /** The dangerous names among `fs`. */
  function DangerousIn(fs: seq<string>): set<string>
  {
    if fs == [] then {}
    else DangerousIn(fs[..|fs| - 1]) + (if Dangerous(fs[|fs| - 1]) then {fs[|fs| - 1]} else {})
  }

  /** `dangerous_found` once the loop has visited the libraries `imports`. */
  function DangerousFound(imports: seq<Library>): set<string>
  {
    if imports == [] then {}
    else DangerousFound(imports[..|imports| - 1]) + DangerousIn(imports[|imports| - 1].functions)
  }

  lemma {:induction false} DangerousInMembers(fs: seq<string>, f: string)
    ensures f in DangerousIn(fs) <==> Dangerous(f) && f in fs
  {
    if fs != [] {
      var n := |fs| - 1;
      DangerousInMembers(fs[..n], f);
      assert fs == fs[..n] + [fs[n]];
    }
  }

  /** The dangerous set holds exactly the imported names (as imported, not
      lower-cased) whose lower-cased form is on the dangerous list. */
  lemma {:induction false} DangerousFoundMembers(imports: seq<Library>, f: string)
    ensures f in DangerousFound(imports) <==>
      Dangerous(f) && exists i :: 0 <= i < |imports| && f in imports[i].functions
  {
    if imports != [] {
      var n := |imports| - 1;
      DangerousFoundMembers(imports[..n], f);
      DangerousInMembers(imports[n].functions, f);
      if f in DangerousFound(imports[..n]) {
        var i :| 0 <= i < n && f in imports[..n][i].functions;
        assert imports[i] == imports[..n][i];
      }
      if exists i :: 0 <= i < |imports| && f in imports[i].functions {
        var i :| 0 <= i < |imports| && f in imports[i].functions;
        if i < n {
          assert imports[..n][i] == imports[i];
        }
      }
    }
  }

  /** The match ignores case: a name is dangerous exactly when its lower-cased
      form is. */
  lemma DangerousIgnoresCase(f: string)
    ensures Dangerous(f) <==> Dangerous(Lower(f))
  {
    LowerIdempotent(f);
  }

  /** The match is on whole names: the `A`/`W` variants of `LoadLibrary` and
      `LoadLibraryEx` are not on the list. */
  lemma LoadLibraryVariantsNotDangerous()
    ensures Dangerous("LoadLibrary") && Dangerous("LOADLIBRARY")
    ensures !Dangerous("LoadLibraryA") && !Dangerous("LoadLibraryW") && !Dangerous("LoadLibraryExA")
  {
    assert Lower("LoadLibrary") == "loadlibrary";
    assert Lower("LOADLIBRARY") == "loadlibrary";
    assert Lower("LoadLibraryA") == "loadlibrarya";
    assert Lower("LoadLibraryW") == "loadlibraryw";
    assert Lower("LoadLibraryExA") == "loadlibraryexa";
  }

  /** The loop of `main` that fills `dangerous_found`. */
  method CollectDangerous(imports: seq<Library>) returns (found: set<string>)
    ensures found == DangerousFound(imports)
  {
    found := {};
    var i := 0;
    while i < |imports|
      invariant 0 <= i <= |imports|
      invariant found == DangerousFound(imports[..i])
    {
      var functions := imports[i].functions;
      var j := 0;
      while j < |functions|
        invariant 0 <= j <= |functions|
        invariant found == DangerousFound(imports[..i]) + DangerousIn(functions[..j])
      {
        var api := functions[j];
        if Lower(api) in DANGEROUS_FUNCTIONS {
          found := found + {api};
        }
        assert functions[..j + 1][..j] == functions[..j];
        j := j + 1;
      }
      assert functions[..j] == functions;
      assert imports[..i + 1][..i] == imports[..i];
      i := i + 1;
    }
    assert imports[..i] == imports;
  }

  /** The order in which a set is iterated: some enumeration of its members,
      each once.  Which one is left open. */
  method Enumerate(s: set<string>) returns (order: seq<string>)
    ensures |order| == |s|
    ensures forall f :: f in order <==> f in s
    ensures forall a, b :: 0 <= a < b < |order| ==> order[a] != order[b]
  {
    order := [];
    var rest := s;
    while rest != {}
      invariant rest <= s
      invariant |order| + |rest| == |s|
      invariant forall f :: f in order <==> f in s && f !in rest
      invariant forall a, b :: 0 <= a < b < |order| ==> order[a] != order[b]
      decreases |rest|
    {
      var f :| f in rest;
      order := order + [f];
      rest := rest - {f};
    }
  }

  /** The report `main` writes: `Failure` with the `ValueError` message when
      the file is not a PE file; otherwise the HTML or text report, with the
      dangerous set (in its iteration order `shown`) when the user asked for
      it and an empty one when not. */
  method Analyze(parsed: Option<seq<ImportRecord>>, catalog: Catalog, includeDangerous: bool, outputHtml: bool)
    returns (output: Result<string, string>, shown: seq<string>)
    ensures parsed.None? ==> output == Failure(NOT_A_PE) && shown == []
    ensures parsed.Some? ==>
      var imports := Grouped(parsed.value);
      && (includeDangerous ==>
            |shown| == |DangerousFound(imports)| && forall f :: f in shown <==> f in DangerousFound(imports))
      && (!includeDangerous ==> shown == [])
      && output == Success(
           if outputHtml then JoinLines(HtmlLines(BuildReport(imports, catalog, shown)))
           else JoinLines(TextLines(BuildReport(imports, catalog, shown))))
  {
    shown := [];
    var extracted := ExtractAndSortImports(parsed);
    if extracted.Failure? {
      return Failure(extracted.error), [];
    }
    var imports := extracted.value;
    var found := CollectDangerous(imports);
    if includeDangerous {
      shown := Enumerate(found);
    }
    var text;
    if outputHtml {
      text := GenerateHtmlOutput(imports, catalog, shown);
    } else {
      text := GenerateTextOutput(imports, catalog, shown);
    }
    output := Success(text);
  }

  /** The dangerous section is opt-in: it is shown exactly when the user asked
      for it and some imported name is dangerous, and then it lists each
      dangerous imported name once (as many rows as names), in
      case-insensitive order. */
  lemma DangerousSectionOptIn(imports: seq<Library>, catalog: Catalog, includeDangerous: bool, shown: seq<string>)
    requires includeDangerous ==>
      |shown| == |DangerousFound(imports)| && forall f :: f in shown <==> f in DangerousFound(imports)
    requires !includeDangerous ==> shown == []
    ensures var rows := BuildReport(imports, catalog, shown).dangerous;
      && (rows != [] <==> includeDangerous && DangerousFound(imports) != {})
      && (forall f :: (exists k :: 0 <= k < |rows| && rows[k].name == f) <==>
            includeDangerous && Dangerous(f) && exists i :: 0 <= i < |imports| && f in imports[i].functions)
      && (forall a, b :: 0 <= a < b < |rows| ==> KeyLe(rows[a].name, rows[b].name))
    ensures includeDangerous ==> |BuildReport(imports, catalog, shown).dangerous| == |DangerousFound(imports)|
  {
    DangerousSectionEmpty(imports, catalog, shown);
    DangerousSectionSorted(imports, catalog, shown);
    assert shown == [] <==> !includeDangerous || DangerousFound(imports) == {};
    ShownDangerousNames(imports, catalog, includeDangerous, shown);
  }

  lemma ShownDangerousNames(imports: seq<Library>, catalog: Catalog, includeDangerous: bool, shown: seq<string>)
    requires includeDangerous ==> forall f :: f in shown <==> f in DangerousFound(imports)
    requires !includeDangerous ==> shown == []
    ensures var rows := BuildReport(imports, catalog, shown).dangerous;
      forall f :: (exists k :: 0 <= k < |rows| && rows[k].name == f) <==>
        includeDangerous && Dangerous(f) && exists i :: 0 <= i < |imports| && f in imports[i].functions
  {
    var rows := BuildReport(imports, catalog, shown).dangerous;
    forall f ensures (exists k :: 0 <= k < |rows| && rows[k].name == f) <==>
      includeDangerous && Dangerous(f) && exists i :: 0 <= i < |imports| && f in imports[i].functions
    {
      DangerousSectionNames(imports, catalog, shown, f);
      DangerousFoundMembers(imports, f);
    }
  }
}
