/**
 * `extract_and_sort_imports`, after the binary has been parsed: import
 * records are grouped by library name, unnamed libraries and entries get
 * fallback names, and both the library keys and each library's function
 * list are sorted case-insensitively.  Nothing is deduplicated.
 */
module Imports {
  import opened Wrappers
  import opened Strings
  import opened Sorting

  /** One imported function: its name ("" when it is imported by ordinal only). */
  datatype ImportEntry = ImportEntry(name: string, ordinal: nat)

  /** One import-table record: library name ("" when missing) and its entries. */
  datatype ImportRecord = ImportRecord(name: string, entries: seq<ImportEntry>)

  /** One item of `sorted_imports`: a library and its sorted function names. */
  datatype Library = Library(name: string, functions: seq<string>)

  /** The message of the `ValueError` raised when parsing fails. */
  const NOT_A_PE: string := "Not a valid PE file."

  /** `imp.name or "UNKNOWN_DLL"`. */
  function LibraryName(r: ImportRecord): string {
    if r.name != "" then r.name else "UNKNOWN_DLL"
  }

  /** `entry.name if entry.name else f"Ordinal_{entry.ordinal}"`. */
  function FunctionName(e: ImportEntry): string {
    if e.name != "" then e.name else "Ordinal_" + Decimal(e.ordinal)
  }

  /** Every record and entry ends up with a non-empty name; a missing
      library name becomes `UNKNOWN_DLL`, and a missing function name becomes
      `Ordinal_` followed by the ordinal's decimal digits, from which the
      ordinal can be read back. */
  lemma FallbackNames(r: ImportRecord, e: ImportEntry)
    ensures LibraryName(r) != "" && FunctionName(e) != ""
    ensures LibraryName(r) == if r.name == "" then "UNKNOWN_DLL" else r.name
    ensures e.name != "" ==> FunctionName(e) == e.name
    ensures e.name == "" ==>
      var f := FunctionName(e);
      && |f| > 8 && f[..8] == "Ordinal_"
      && (forall i :: 8 <= i < |f| ==> IsDigit(f[i]))
      && ParseDecimal(f[8..]) == e.ordinal
  {
    if e.name == "" {
      var f := FunctionName(e);
      assert f[8..] == Decimal(e.ordinal);
      DecimalRoundTrip(e.ordinal);
    }
  }

  // ----- The specification of the grouping --------------------------------

  /** The resolved names of `entries`, in order. */
  function EntryNames(entries: seq<ImportEntry>): seq<string>
  {
    if entries == [] then []
    else EntryNames(entries[..|entries| - 1]) + [FunctionName(entries[|entries| - 1])]
  }

  /** The distinct resolved library names of `rs`, in order of first appearance
      (the key order of `imports_by_dll`). */
  function Libraries(rs: seq<ImportRecord>): seq<string>
  {
    if rs == [] then []
    else
      var prev, lib := Libraries(rs[..|rs| - 1]), LibraryName(rs[|rs| - 1]);
      if lib in prev then prev else prev + [lib]
  }

  /** All resolved function names filed under `lib`, in import order
      (the list `imports_by_dll[lib]` before it is sorted). */
  function FunctionsOf(rs: seq<ImportRecord>, lib: string): seq<string>
  {
    if rs == [] then []
    else
      var r := rs[|rs| - 1];
      FunctionsOf(rs[..|rs| - 1], lib) + (if LibraryName(r) == lib then EntryNames(r.entries) else [])
  }

  /** The value `extract_and_sort_imports` returns for the parsed records. */
  function Grouped(rs: seq<ImportRecord>): seq<Library>
  {
    var keys := SortByLower(Libraries(rs));
    seq(|keys|, i requires 0 <= i < |keys| => Library(keys[i], SortByLower(FunctionsOf(rs, keys[i]))))
  }

  // ----- The operation ----------------------------------------------------

  /** `extract_and_sort_imports` from the parser's result on (`None` when the
      file is not a PE image) to the sorted mapping. */
  method ExtractAndSortImports(parsed: Option<seq<ImportRecord>>) returns (r: Result<seq<Library>, string>)
    ensures parsed.None? ==> r == Failure(NOT_A_PE)
    ensures parsed.Some? ==> r == Success(Grouped(parsed.value))
  {
    if parsed.None? {
      return Failure(NOT_A_PE);
    }
    var records := parsed.value;
    var groups, order := GroupByLibrary(records);
    LibrariesDistinct(records);
    groups := SortEachGroup(groups, order, records);
    var keys := SortByLower(order);
    SortedKeysFiled(keys, order, groups);
    var sortedImports := seq(|keys|, m requires 0 <= m < |keys| => Library(keys[m], groups[keys[m]]));
    GroupedFromGroups(records, groups, sortedImports);
    return Success(sortedImports);
  }

  /** `groups` (keys in `order`) files the functions of the records `rs` by library. */
  ghost predicate Filed(groups: map<string, seq<string>>, order: seq<string>, rs: seq<ImportRecord>) {
    && order == Libraries(rs)
    && (forall d :: d in groups <==> d in order)
    && (forall d :: d in groups ==> groups[d] == FunctionsOf(rs, d))
  }

  /** The comprehension over the sorted keys builds `Grouped`, once every
      list has been sorted. */
  lemma GroupedFromGroups(rs: seq<ImportRecord>, groups: map<string, seq<string>>, built: seq<Library>)
    requires forall d :: d in groups <==> d in Libraries(rs)
    requires forall d :: d in groups ==> groups[d] == SortByLower(FunctionsOf(rs, d))
    requires var keys := SortByLower(Libraries(rs));
      |built| == |keys| &&
      forall m :: 0 <= m < |keys| ==> keys[m] in groups && built[m] == Library(keys[m], groups[keys[m]])
    ensures built == Grouped(rs)
  {
  }

  /** Every sorted key is a key of the mapping. */
  lemma SortedKeysFiled(keys: seq<string>, order: seq<string>, groups: map<string, seq<string>>)
    requires keys == SortByLower(order)
    requires forall d :: d in groups <==> d in order
    ensures forall m :: 0 <= m < |keys| ==> keys[m] in groups
  {
    SortByLowerPermutes(order);
    forall m | 0 <= m < |keys| ensures keys[m] in groups {
      assert keys[m] in multiset(order);
    }
  }

  /** The nested loops of `extract_and_sort_imports` that fill
      `imports_by_dll`; `order` is the dictionary's key order. */
  method GroupByLibrary(records: seq<ImportRecord>) returns (groups: map<string, seq<string>>, order: seq<string>)
    ensures order == Libraries(records)
    ensures forall d :: d in groups <==> d in order
    ensures forall d :: d in groups ==> groups[d] == FunctionsOf(records, d)
  {
    groups, order := map[], [];
    var i := 0;
    while i < |records|
      invariant 0 <= i <= |records|
      invariant Filed(groups, order, records[..i])
    {
      var imp := records[i];
      var dll := if imp.name != "" then imp.name else "UNKNOWN_DLL";
      ghost var before, keys := groups, order;
      if dll !in groups {
        groups := groups[dll := []];
        order := order + [dll];
      }
      ghost var listed := groups;
      groups := AppendEntries(groups, dll, imp.entries);
      FileRecord(records, i, before, keys, listed, groups, order);
      i := i + 1;
    }
    assert records[..i] == records;
  }

  /** One pass of the outer loop keeps `Filed`: a new library gets an empty
      list (`listed`) and a place at the end of the key order, then the
      record's entries are appended to its list. */
  lemma FileRecord(records: seq<ImportRecord>, i: nat, groups: map<string, seq<string>>, order: seq<string>,
                   listed: map<string, seq<string>>, result: map<string, seq<string>>, newOrder: seq<string>)
    requires i < |records| && Filed(groups, order, records[..i])
    requires var lib := LibraryName(records[i]);
      && listed == (if lib in groups then groups else groups[lib := []])
      && newOrder == (if lib in groups then order else order + [lib])
      && lib in listed && result == listed[lib := listed[lib] + EntryNames(records[i].entries)]
    ensures Filed(result, newOrder, records[..i + 1])
  {
    var lib, pre := LibraryName(records[i]), records[..i];
    RecordStep(records, i);
    if lib !in groups {
      NotListedHasNoFunctions(pre, lib);
    }
    forall d | d in result ensures result[d] == FunctionsOf(records[..i + 1], d) {
      if d != lib {
        assert result[d] == groups[d];
      }
    }
  }

  /** What visiting record `i` adds to the key order and to the lists. */
  lemma RecordStep(records: seq<ImportRecord>, i: nat)
    requires i < |records|
    ensures var pre, lib := records[..i], LibraryName(records[i]);
      && Libraries(records[..i + 1]) == (if lib in Libraries(pre) then Libraries(pre) else Libraries(pre) + [lib])
      && forall d :: FunctionsOf(records[..i + 1], d) ==
           FunctionsOf(pre, d) + (if lib == d then EntryNames(records[i].entries) else [])
  {
    assert records[..i + 1][..i] == records[..i];
  }

  /** The inner loop: appends the resolved name of every entry to `groups[dll]`. */
  method AppendEntries(groups: map<string, seq<string>>, dll: string, entries: seq<ImportEntry>)
    returns (result: map<string, seq<string>>)
    requires dll in groups
    ensures result == groups[dll := groups[dll] + EntryNames(entries)]
  {
    result := groups;
    var j := 0;
    assert EntryNames(entries[..0]) == [];
    while j < |entries|
      invariant 0 <= j <= |entries|
      invariant result.Keys == groups.Keys
      invariant forall d :: d in result && d != dll ==> result[d] == groups[d]
      invariant result[dll] == groups[dll] + EntryNames(entries[..j])
    {
      var entry := entries[j];
      var func := if entry.name != "" then entry.name else "Ordinal_" + Decimal(entry.ordinal);
      assert entries[..j + 1][..j] == entries[..j];
      assert EntryNames(entries[..j + 1]) == EntryNames(entries[..j]) + [func];
      result := result[dll := result[dll] + [func]];
      j := j + 1;
    }
    assert entries[..j] == entries;
  }

  /** `for dll in imports_by_dll: imports_by_dll[dll].sort(key=str.lower)`. */
  method SortEachGroup(groups: map<string, seq<string>>, keys: seq<string>, ghost records: seq<ImportRecord>)
    returns (result: map<string, seq<string>>)
    requires forall a, b :: 0 <= a < b < |keys| ==> keys[a] != keys[b]
    requires forall d :: d in groups <==> d in keys
    requires forall d :: d in groups ==> groups[d] == FunctionsOf(records, d)
    ensures forall d :: d in result <==> d in keys
    ensures forall d :: d in result ==> result[d] == SortByLower(FunctionsOf(records, d))
  {
    result := groups;
    var n := 0;
    while n < |keys|
      invariant 0 <= n <= |keys|
      invariant forall d :: d in result <==> d in keys
      invariant forall m :: 0 <= m < n ==> result[keys[m]] == SortByLower(FunctionsOf(records, keys[m]))
      invariant forall m :: n <= m < |keys| ==> result[keys[m]] == FunctionsOf(records, keys[m])
    {
      var dll := keys[n];
      ghost var prev := result;
      result := result[dll := SortByLower(result[dll])];
      assert forall m :: 0 <= m < |keys| && m != n ==> result[keys[m]] == prev[keys[m]];
      n := n + 1;
    }
    forall d | d in result ensures result[d] == SortByLower(FunctionsOf(records, d)) {
      var m :| 0 <= m < |keys| && keys[m] == d;
    }
  }

  // ----- Properties of the grouping ---------------------------------------

  lemma {:induction false} NotListedHasNoFunctions(rs: seq<ImportRecord>, lib: string)
    requires lib !in Libraries(rs)
    ensures FunctionsOf(rs, lib) == []
  {
    if rs != [] {
      NotListedHasNoFunctions(rs[..|rs| - 1], lib);
    }
  }

  /** Every library key appears once. */
  lemma {:induction false} LibrariesDistinct(rs: seq<ImportRecord>)
    ensures forall a, b :: 0 <= a < b < |Libraries(rs)| ==> Libraries(rs)[a] != Libraries(rs)[b]
  {
    if rs != [] {
      LibrariesDistinct(rs[..|rs| - 1]);
    }
  }

  /** Resolving names gives one name per import entry. */
  lemma {:induction false} EntryNamesLength(entries: seq<ImportEntry>)
    ensures |EntryNames(entries)| == |entries|
  {
    if entries != [] {
      EntryNamesLength(entries[..|entries| - 1]);
    }
  }

  /** The library keys are exactly the resolved library names of the records. */
  lemma {:induction false} LibrariesMembers(rs: seq<ImportRecord>, d: string)
    ensures d in Libraries(rs) <==> exists i :: 0 <= i < |rs| && LibraryName(rs[i]) == d
  {
    if rs != [] {
      var init := rs[..|rs| - 1];
      LibrariesMembers(init, d);
      if exists i :: 0 <= i < |init| && LibraryName(init[i]) == d {
        var i :| 0 <= i < |init| && LibraryName(init[i]) == d;
        assert LibraryName(rs[i]) == d;
      }
      if exists i :: 0 <= i < |rs| && LibraryName(rs[i]) == d {
        var i :| 0 <= i < |rs| && LibraryName(rs[i]) == d;
        if i < |init| {
          assert LibraryName(init[i]) == d;
        }
      }
    }
  }

  // ----- Grouping loses nothing -------------------------------------------

  /** The (library, function) pairs of the names `fs` filed under `lib`. */
  function Tagged(lib: string, fs: seq<string>): multiset<(string, string)>
  {
    if fs == [] then multiset{}
    else Tagged(lib, fs[..|fs| - 1]) + multiset{(lib, fs[|fs| - 1])}
  }

  lemma {:induction false} TaggedCount(lib: string, fs: seq<string>, p: (string, string))
    ensures Tagged(lib, fs)[p] == if p.0 == lib then multiset(fs)[p.1] else 0
  {
    if fs != [] {
      TaggedCount(lib, fs[..|fs| - 1], p);
      assert fs == fs[..|fs| - 1] + [fs[|fs| - 1]];
    }
  }

  lemma {:induction false} TaggedSize(lib: string, fs: seq<string>)
    ensures |Tagged(lib, fs)| == |fs|
  {
    if fs != [] {
      TaggedSize(lib, fs[..|fs| - 1]);
    }
  }

  /** One (library, function) pair per entry of the import table. */
  function RecordPairs(rs: seq<ImportRecord>): multiset<(string, string)>
  {
    if rs == [] then multiset{}
    else
      var r := rs[|rs| - 1];
      RecordPairs(rs[..|rs| - 1]) + Tagged(LibraryName(r), EntryNames(r.entries))
  }

  /** The number of entries of the import table. */
  function EntryCount(rs: seq<ImportRecord>): nat
  {
    if rs == [] then 0 else EntryCount(rs[..|rs| - 1]) + |rs[|rs| - 1].entries|
  }

  /** One (library, function) pair per listed function of a grouped table. */
  function GroupPairs(libs: seq<Library>): multiset<(string, string)>
  {
    if libs == [] then multiset{}
    else
      var l := libs[|libs| - 1];
      GroupPairs(libs[..|libs| - 1]) + Tagged(l.name, l.functions)
  }

  /** The number of listed functions of a grouped table. */
  function FunctionCount(libs: seq<Library>): nat
  {
    if libs == [] then 0 else FunctionCount(libs[..|libs| - 1]) + |libs[|libs| - 1].functions|
  }

  lemma {:induction false} GroupPairsSize(libs: seq<Library>)
    ensures |GroupPairs(libs)| == FunctionCount(libs)
  {
    if libs != [] {
      GroupPairsSize(libs[..|libs| - 1]);
      TaggedSize(libs[|libs| - 1].name, libs[|libs| - 1].functions);
    }
  }

  lemma {:induction false} RecordPairsSize(rs: seq<ImportRecord>)
    ensures |RecordPairs(rs)| == EntryCount(rs)
  {
    if rs != [] {
      var r := rs[|rs| - 1];
      RecordPairsSize(rs[..|rs| - 1]);
      TaggedSize(LibraryName(r), EntryNames(r.entries));
      EntryNamesLength(r.entries);
    }
  }

  /** Grouping keeps every entry: the grouped table holds exactly the
      (library, function) pairs of the import records, as a multiset — no
      entry is lost and no repeated entry is dropped — so the number of
      functions listed is the number of entries imported. */
  lemma GroupingPreservesEntries(rs: seq<ImportRecord>)
    ensures GroupPairs(Grouped(rs)) == RecordPairs(rs)
    ensures FunctionCount(Grouped(rs)) == EntryCount(rs)
  {
    forall p: (string, string) ensures GroupPairs(Grouped(rs))[p] == RecordPairs(rs)[p] {
      GroupedPairCount(rs, p);
    }
    GroupPairsSize(Grouped(rs));
    RecordPairsSize(rs);
  }

  lemma GroupedPairCount(rs: seq<ImportRecord>, p: (string, string))
    ensures GroupPairs(Grouped(rs))[p] == RecordPairs(rs)[p]
  {
    var g, libs := Grouped(rs), Libraries(rs);
    var keys := SortByLower(libs);
    RecordPairsCount(rs, p);
    if p.0 in keys {
      var i :| 0 <= i < |keys| && keys[i] == p.0;
      GroupedKeysDistinct(rs);
      GroupPairsAt(g, i, p);
      SortByLowerPermutes(FunctionsOf(rs, p.0));
    } else {
      SortByLowerPermutes(libs);
      assert p.0 !in multiset(libs);
      NotListedHasNoFunctions(rs, p.0);
      GroupPairsAbsent(g, p);
    }
  }

  /** How often a pair occurs among the records: as often as its function
      is filed under its library. */
  lemma {:induction false} RecordPairsCount(rs: seq<ImportRecord>, p: (string, string))
    ensures RecordPairs(rs)[p] == multiset(FunctionsOf(rs, p.0))[p.1]
  {
    if rs != [] {
      var before, r := rs[..|rs| - 1], rs[|rs| - 1];
      RecordPairsCount(before, p);
      TaggedCount(LibraryName(r), EntryNames(r.entries), p);
      var e := if LibraryName(r) == p.0 then EntryNames(r.entries) else [];
      assert FunctionsOf(rs, p.0) == FunctionsOf(before, p.0) + e;
    }
  }

  lemma {:induction false} GroupPairsAbsent(libs: seq<Library>, p: (string, string))
    requires forall i :: 0 <= i < |libs| ==> libs[i].name != p.0
    ensures GroupPairs(libs)[p] == 0
  {
    if libs != [] {
      var n := |libs| - 1;
      GroupPairsAbsent(libs[..n], p);
      TaggedCount(libs[n].name, libs[n].functions, p);
    }
  }

  lemma {:induction false} GroupPairsAt(libs: seq<Library>, i: int, p: (string, string))
    requires forall a, b :: 0 <= a < b < |libs| ==> libs[a].name != libs[b].name
    requires 0 <= i < |libs| && libs[i].name == p.0
    ensures GroupPairs(libs)[p] == multiset(libs[i].functions)[p.1]
  {
    var n := |libs| - 1;
    TaggedCount(libs[n].name, libs[n].functions, p);
    if i < n {
      GroupPairsAt(libs[..n], i, p);
    } else {
      GroupPairsAbsent(libs[..n], p);
    }
  }

  /** The keys of the grouped table are exactly the resolved library names. */
  lemma GroupedKeys(rs: seq<ImportRecord>, d: string)
    ensures (exists i :: 0 <= i < |Grouped(rs)| && Grouped(rs)[i].name == d) <==>
            (exists j :: 0 <= j < |rs| && LibraryName(rs[j]) == d)
  {
    var g, libs := Grouped(rs), Libraries(rs);
    var keys := SortByLower(libs);
    SortByLowerSpec(libs);
    LibrariesMembers(rs, d);
    assert d in keys <==> d in multiset(libs);
    if d in keys {
      var i :| 0 <= i < |keys| && keys[i] == d;
      assert g[i].name == d;
    }
  }

  /** Each library appears once. */
  lemma GroupedKeysDistinct(rs: seq<ImportRecord>)
    ensures var g := Grouped(rs);
      forall a, b :: 0 <= a < b < |g| ==> g[a].name != g[b].name
  {
    var g, libs := Grouped(rs), Libraries(rs);
    var keys := SortByLower(libs);
    SortByLowerPermutes(libs);
    LibrariesDistinct(rs);
    forall a, b | 0 <= a < b < |g| ensures g[a].name != g[b].name {
      DistinctPermutation(libs, keys, a, b);
    }
  }

  /** The library names of the result, in order. */
  function Names(g: seq<Library>): (names: seq<string>)
    ensures |names| == |g| && forall i :: 0 <= i < |g| ==> names[i] == g[i].name
  {
    if g == [] then [] else Names(g[..|g| - 1]) + [g[|g| - 1].name]
  }

  /** Each library appears once, and the keys are in case-insensitive order. */
  lemma GroupedKeysOrdered(rs: seq<ImportRecord>)
    ensures var g := Grouped(rs);
      forall a, b :: 0 <= a < b < |g| ==> g[a].name != g[b].name && KeyLe(g[a].name, g[b].name)
  {
    GroupedKeysDistinct(rs);
    SortByLowerSorted(Libraries(rs));
  }

  /** Library names equal up to case keep their order of first appearance:
      the sort of the keys is stable. */
  lemma GroupedKeysStable(rs: seq<ImportRecord>, k: string)
    ensures WithKey(Names(Grouped(rs)), k) == WithKey(Libraries(rs), k)
  {
    assert Names(Grouped(rs)) == SortByLower(Libraries(rs));
    SortByLowerStable(Libraries(rs), k);
  }

  /** Each library's list holds the names filed under it, in case-insensitive
      order, with names of equal key in import order (the sort is stable). */
  lemma GroupedFunctions(rs: seq<ImportRecord>, i: int)
    requires 0 <= i < |Grouped(rs)|
    ensures var l := Grouped(rs)[i];
      && multiset(l.functions) == multiset(FunctionsOf(rs, l.name))
      && SortedByLower(l.functions)
      && forall k :: WithKey(l.functions, k) == WithKey(FunctionsOf(rs, l.name), k)
  {
    var l := Grouped(rs)[i];
    SortByLowerSpec(FunctionsOf(rs, l.name));
    forall k ensures WithKey(l.functions, k) == WithKey(FunctionsOf(rs, l.name), k) {
      SortByLowerStable(FunctionsOf(rs, l.name), k);
    }
  }

  /** An element occurs at most once in a sequence without repeats. */
  lemma {:induction false} DistinctCount(s: seq<string>, x: string)
    requires forall i, j :: 0 <= i < j < |s| ==> s[i] != s[j]
    ensures multiset(s)[x] <= 1
  {
    if s != [] {
      var init := s[..|s| - 1];
      DistinctCount(init, x);
      assert s == init + [s[|s| - 1]];
      if s[|s| - 1] == x {
        assert x !in init;
      }
    }
  }

  lemma RepeatCount(t: seq<string>, a: int, b: int)
    requires 0 <= a < b < |t| && t[a] == t[b]
    ensures multiset(t)[t[a]] >= 2
  {
    var x := t[a];
    assert t == t[..a] + [x] + t[a + 1..b] + [x] + t[b + 1..];
  }

  /** A permutation of a sequence without repeats has no repeats. */
  lemma DistinctPermutation(s: seq<string>, t: seq<string>, a: int, b: int)
    requires forall i, j :: 0 <= i < j < |s| ==> s[i] != s[j]
    requires multiset(s) == multiset(t)
    requires 0 <= a < b < |t|
    ensures t[a] != t[b]
  {
    DistinctCount(s, t[a]);
    if t[a] == t[b] {
      RepeatCount(t, a, b);
      assert false;
    }
  }
}
