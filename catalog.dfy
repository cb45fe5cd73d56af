/**
 * The annotation catalog: per library an explanation and a map from API name
 * to explanation.  `extend_apis` pads a library's API map in place with
 * `placeholder_<i>` entries; the renderers look libraries and APIs up by
 * lower-cased name.
 */
module Catalog {
  import opened Wrappers
  import opened Strings

  /** `DEFAULT_EXPLANATION`, the text given to every placeholder API. */
  const DEFAULT_EXPLANATION: string := "No explanation available. Please refer to official documentation."

  /** The padding key `f"placeholder_{i}"`. */
  function PlaceholderKey(i: nat): string {
    "placeholder_" + Decimal(i)
  }

  lemma PlaceholderKeyInjective(i: nat, j: nat)
    requires PlaceholderKey(i) == PlaceholderKey(j)
    ensures i == j
  {
    var p := "placeholder_";
    assert PlaceholderKey(i)[|p|..] == Decimal(i);
    assert PlaceholderKey(j)[|p|..] == Decimal(j);
    DecimalInjective(i, j);
  }

  /** The entries `extend_apis` writes for `i` in `range(from + 1, to + 1)`. */
  function Placeholders(from: nat, to: int): map<string, string>
    decreases if to <= from then 0 else to - from
  {
    if to <= from then map[]
    else Placeholders(from + 1, to)[PlaceholderKey(from + 1) := DEFAULT_EXPLANATION]
  }

  /** The placeholders are `placeholder_<from+1>` .. `placeholder_<to>`, all
      distinct, each explained by `DEFAULT_EXPLANATION`. */
  lemma {:induction false} PlaceholdersShape(from: nat, to: int)
    ensures var r := Placeholders(from, to);
      && r.Keys == (set i: nat | from < i <= to :: PlaceholderKey(i))
      && (forall k :: k in r ==> r[k] == DEFAULT_EXPLANATION)
      && |r| == (if to <= from then 0 else to - from)
    decreases if to <= from then 0 else to - from
  {
    if to > from {
      PlaceholdersShape(from + 1, to);
      var r := Placeholders(from + 1, to);
      if PlaceholderKey(from + 1) in r {
        var i: nat :| from + 1 < i <= to && PlaceholderKey(i) == PlaceholderKey(from + 1);
        PlaceholderKeyInjective(i, from + 1);
      }
    }
  }

  /** The placeholders written after `placeholder_<i>` do not repeat its key. */
  lemma PlaceholderNotRepeated(i: nat, target: int)
    ensures PlaceholderKey(i) !in Placeholders(i, target)
  {
    PlaceholdersShape(i, target);
    if PlaceholderKey(i) in Placeholders(i, target) {
      var j: nat :| i < j <= target && PlaceholderKey(j) == PlaceholderKey(i);
      PlaceholderKeyInjective(i, j);
    }
  }

  /** The API map once the loop of `extend_apis` has run from `i` to `target`. */
  function PadFrom(apis: map<string, string>, i: nat, target: int): map<string, string>
    decreases if target < i then 0 else target - i + 1
  {
    if i > target then apis
    else PadFrom(apis[PlaceholderKey(i) := DEFAULT_EXPLANATION], i + 1, target)
  }

  /** The API map after `extend_apis(dll, target)`. */
  function Padded(apis: map<string, string>, target: int): map<string, string> {
    PadFrom(apis, |apis| + 1, target)
  }

  lemma UpdateThenUnion<K, V>(a: map<K, V>, b: map<K, V>, k: K, v: V)
    requires k !in b
    ensures a[k := v] + b == a + b[k := v]
  {
  }

  lemma DisjointUnionCard<K, V>(a: map<K, V>, b: map<K, V>)
    requires a.Keys !! b.Keys
    ensures |a + b| == |a| + |b|
  {
    assert (a + b).Keys == a.Keys + b.Keys;
  }

  /** Running the loop from `i` adds exactly the placeholders from `i` on. */
  lemma {:induction false} PadFromIsUnion(apis: map<string, string>, i: nat, target: int)
    requires i >= 1
    ensures PadFrom(apis, i, target) == apis + Placeholders(i - 1, target)
    decreases if target < i then 0 else target - i + 1
  {
    if i <= target {
      var k := PlaceholderKey(i);
      var rest := Placeholders(i, target);
      PadFromIsUnion(apis[k := DEFAULT_EXPLANATION], i + 1, target);
      PlaceholderNotRepeated(i, target);
      UpdateThenUnion(apis, rest, k, DEFAULT_EXPLANATION);
      assert Placeholders(i - 1, target) == rest[k := DEFAULT_EXPLANATION];
    }
  }

  /** No placeholder key `extend_apis` would write is already present. */
  predicate NoCollision(apis: map<string, string>, target: int) {
    forall i: nat :: |apis| < i <= target ==> PlaceholderKey(i) !in apis
  }

  /** The original map with the placeholders `from + 1` .. `to` added. */
  lemma {:induction false} UnionWithPlaceholders(apis: map<string, string>, from: nat, to: int)
    requires forall i: nat :: from < i <= to ==> PlaceholderKey(i) !in apis
    ensures var r := apis + Placeholders(from, to);
      && r.Keys == apis.Keys + (set i: nat | from < i <= to :: PlaceholderKey(i))
      && (forall k :: k in apis ==> r[k] == apis[k])
      && (forall i: nat :: from < i <= to ==> r[PlaceholderKey(i)] == DEFAULT_EXPLANATION)
      && |r| == |apis| + (if to <= from then 0 else to - from)
  {
    var p := Placeholders(from, to);
    PlaceholdersShape(from, to);
    assert apis.Keys !! p.Keys;
    DisjointUnionCard(apis, p);
  }

  lemma PaddedIsUnion(apis: map<string, string>, target: int)
    ensures Padded(apis, target) == apis + Placeholders(|apis|, target)
  {
    PadFromIsUnion(apis, |apis| + 1, target);
  }

  /** What `extend_apis` promises about the entries: the original ones are
      kept, and the new keys are `placeholder_<c+1>` .. `placeholder_<target>`
      (`c` the original count), each explained by `DEFAULT_EXPLANATION`. */
  lemma PaddedContents(apis: map<string, string>, target: int)
    requires NoCollision(apis, target)
    ensures var r := Padded(apis, target);
      && r.Keys == apis.Keys + (set i: nat | |apis| < i <= target :: PlaceholderKey(i))
      && (forall k :: k in apis ==> r[k] == apis[k])
      && (forall i: nat :: |apis| < i <= target ==> r[PlaceholderKey(i)] == DEFAULT_EXPLANATION)
  {
    PaddedIsUnion(apis, target);
    UnionWithPlaceholders(apis, |apis|, target);
  }

  /** What `extend_apis` promises about the size: a short map is padded to
      exactly `target` entries, any other map is left alone. */
  lemma PaddedSize(apis: map<string, string>, target: int)
    requires NoCollision(apis, target)
    ensures |apis| < target ==> |Padded(apis, target)| == target
    ensures |apis| >= target ==> Padded(apis, target) == apis
  {
    PaddedIsUnion(apis, target);
    UnionWithPlaceholders(apis, |apis|, target);
  }

  /** When a key the loop writes is already present, the map ends short of
      `target`: that write overwrites an entry instead of adding one. */
  lemma PaddedCollisionFallsShort(apis: map<string, string>, target: int, i: nat)
    requires |apis| < i <= target && PlaceholderKey(i) in apis
    ensures |Padded(apis, target)| < target
  {
    var p := Placeholders(|apis|, target);
    var r := Padded(apis, target);
    PaddedIsUnion(apis, target);
    PlaceholdersShape(|apis|, target);
    assert r.Keys == apis.Keys + p.Keys;
    assert PlaceholderKey(i) in apis.Keys * p.Keys;
    assert |apis.Keys + p.Keys| + |apis.Keys * p.Keys| == |apis.Keys| + |p.Keys|;
    assert |apis.Keys * p.Keys| >= 1;
  }

  /** One library of `dll_api_explanations`, whose API map is padded in place. */
  class DllRecord {
    var explanation: string
    var apis: map<string, string>

    constructor (explanation: string, apis: map<string, string>)
      ensures this.explanation == explanation && this.apis == apis
    {
      this.explanation := explanation;
      this.apis := apis;
    }

    /** `extend_apis(self, target)`. */
    method ExtendApis(target: int)
      modifies this
      ensures apis == Padded(old(apis), target)
      ensures explanation == old(explanation)
    {
      var current := |apis|;
      var i := current + 1;
      while i <= target
        invariant current + 1 <= i
        invariant PadFrom(apis, i, target) == Padded(old(apis), target)
        invariant explanation == old(explanation)
        decreases target - i
      {
        var key := "placeholder_" + Decimal(i);
        apis := apis[key := DEFAULT_EXPLANATION];
        i := i + 1;
      }
    }
  }

  /** The module-level loop that pads every catalog library; the analyzer
      runs it with `target` 100. */
  method ExtendCatalog(records: seq<DllRecord>, target: int)
    requires forall i, j :: 0 <= i < j < |records| ==> records[i] != records[j]
    modifies records
    ensures forall i :: 0 <= i < |records| ==>
      records[i].apis == Padded(old(records[i].apis), target) &&
      records[i].explanation == old(records[i].explanation)
  {
    var n := 0;
    while n < |records|
      invariant 0 <= n <= |records|
      invariant forall i :: 0 <= i < n ==>
        records[i].apis == Padded(old(records[i].apis), target) &&
        records[i].explanation == old(records[i].explanation)
      invariant forall i :: n <= i < |records| ==>
        records[i].apis == old(records[i].apis) &&
        records[i].explanation == old(records[i].explanation)
    {
      records[n].ExtendApis(target);
      n := n + 1;
    }
  }

  // ----- The catalog as the renderers read it -----------------------------

  /** One `nested_dict` entry: library key, explanation and API map, as the
      renderers read it.  It is the value view of a `DllRecord` (its
      `explanation` and `apis` fields) under the record's library key;
      `Entry` builds it from a record. */
  datatype CatalogEntry = CatalogEntry(name: string, explanation: string, apis: map<string, string>)

  /** The entry the renderers see for the record `r` filed under `name`. */
  function Entry(name: string, r: DllRecord): CatalogEntry
    reads r
  {
    CatalogEntry(name, r.explanation, r.apis)
  }

  /** `nested_dict`, in its insertion order. */
  type Catalog = seq<CatalogEntry>

  /** `nested_dict[key]` if `key in nested_dict`. */
  function Lookup(catalog: Catalog, key: string): (r: Option<CatalogEntry>)
    ensures r.Some? ==> r.value in catalog && r.value.name == key
    ensures r.None? <==> forall i :: 0 <= i < |catalog| ==> catalog[i].name != key
  {
    if catalog == [] then None
    else if catalog[0].name == key then Some(catalog[0])
    else Lookup(catalog[1..], key)
  }

  /** `catalog[i]` is the first library whose API map has `key`. */
  predicate FirstWithApi(catalog: Catalog, key: string, i: int) {
    0 <= i < |catalog| && key in catalog[i].apis &&
    forall j :: 0 <= j < i ==> key !in catalog[j].apis
  }

  /** The explanation of `key` in the first library (in catalog order) whose
      API map has it. */
  function FirstApi(catalog: Catalog, key: string): (r: Option<string>)
    ensures r.None? <==> forall i :: 0 <= i < |catalog| ==> key !in catalog[i].apis
    ensures r.Some? ==> exists i :: FirstWithApi(catalog, key, i) && catalog[i].apis[key] == r.value
  {
    if catalog == [] then None
    else if key in catalog[0].apis then
      assert FirstWithApi(catalog, key, 0);
      Some(catalog[0].apis[key])
    else
      var r := FirstApi(catalog[1..], key);
      if r.None? then r
      else
        var i :| FirstWithApi(catalog[1..], key, i) && catalog[1..][i].apis[key] == r.value;
        assert FirstWithApi(catalog, key, i + 1);
        r
  }
}
