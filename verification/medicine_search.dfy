/** Medicine search: `handleMedicineSearch` lower-cases the input and, once
    it is longer than two characters, `searchMedicines` keeps the catalogue
    entries whose lower-cased name or description contains it. */
module MedicineSearch {
  import opened Optional
  import opened Text

  datatype Stock = InStock | LowStock

  datatype Medicine = Medicine(name: string, description: string, price: string, availability: Stock)

  const Paracetamol := Medicine("Paracetamol 500mg", "Pain relief, fever reducer", "$8.99", InStock)
  const Aspirin := Medicine("Aspirin 100mg", "Blood thinner, heart health", "$12.50", LowStock)
  const Ibuprofen := Medicine("Ibuprofen 400mg", "Anti-inflammatory, pain relief", "$10.25", InStock)

  /** The catalogue defined inside `searchMedicines`. */
  const Catalogue: seq<Medicine> := [Paracetamol, Aspirin, Ibuprofen]

  /** A search runs only for queries longer than this. */
  const MinQueryLength := 2

  /** The filter callback of `searchMedicines`. */
  predicate Matches(m: Medicine, query: string) {
    Contains(Lower(m.name), query) || Contains(Lower(m.description), query)
  }

  /** `ys` is `xs` with some entries dropped and the rest in their order. */
  predicate IsSubsequence(ys: seq<Medicine>, xs: seq<Medicine>)
    decreases |xs|
  {
    if |ys| == 0 then true
    else if |xs| == 0 then false
    else if ys[0] == xs[0] then IsSubsequence(ys[1..], xs[1..])
    else IsSubsequence(ys, xs[1..])
  }

  /** `medicines.filter(...)`: exactly the matching entries, each as often
      as it occurs in `ms`, kept in their order. */
  function FilterMatches(ms: seq<Medicine>, query: string): (r: seq<Medicine>)
    ensures forall m :: m in r <==> m in ms && Matches(m, query)
    ensures forall m :: multiset(r)[m] == if Matches(m, query) then multiset(ms)[m] else 0
    ensures IsSubsequence(r, ms)
    decreases |ms|
  {
    if |ms| == 0 then []
    else
      assert ms == [ms[0]] + ms[1..];
      if Matches(ms[0], query) then [ms[0]] + FilterMatches(ms[1..], query)
      else FilterMatches(ms[1..], query)
  }

  /** `searchMedicines(query)`: the catalogue entries that match, in
      catalogue order; as the catalogue has no repeated entry, neither
      does the result. */
  function SearchMedicines(query: string): (r: seq<Medicine>)
    ensures forall m :: m in r <==> m in Catalogue && Matches(m, query)
    ensures IsSubsequence(r, Catalogue)
    ensures forall i, j :: 0 <= i < j < |r| ==> r[i] != r[j]
  {
    var r := FilterMatches(Catalogue, query);
    CatalogueOnce();
    assert forall m :: multiset(r)[m] <= 1;
    forall i, j | 0 <= i < j < |r|
      ensures r[i] != r[j]
    {
      if r[i] == r[j] {
        TwiceInMultiset(r, i, j);
      }
    }
    r
  }

  /** No medicine is listed twice in the catalogue. */
  lemma CatalogueOnce()
    ensures forall m :: multiset(Catalogue)[m] <= 1
  {
  }

  /** An entry at two different indices occurs at least twice. */
  lemma TwiceInMultiset(r: seq<Medicine>, i: nat, j: nat)
    requires i < j < |r| && r[i] == r[j]
    ensures multiset(r)[r[i]] >= 2
  {
    assert r == r[..i] + [r[i]] + r[i + 1..j] + [r[j]] + r[j + 1..];
  }

  /** `handleMedicineSearch`: `None` when no search runs (the results list
      is left as it was); otherwise the results shown, which are exactly
      the catalogue entries matching the lower-cased input, in catalogue
      order. */
  function HandleMedicineSearch(value: string): (r: Option<seq<Medicine>>)
    ensures r.None? <==> |value| <= MinQueryLength
    ensures r.Some? ==> forall m :: m in r.value <==> m in Catalogue && Matches(m, Lower(value))
    ensures r.Some? ==> IsSubsequence(r.value, Catalogue)
  {
    var query := Lower(value);
    if |query| > MinQueryLength then Some(SearchMedicines(query)) else None
  }

  /** The search ignores case: inputs that lower-case to the same query
      give the same outcome, and lower-casing the input first changes
      nothing. */
  lemma SearchIgnoresCase(v1: string, v2: string)
    requires Lower(v1) == Lower(v2)
    ensures HandleMedicineSearch(v1) == HandleMedicineSearch(v2)
    ensures HandleMedicineSearch(Lower(v1)) == HandleMedicineSearch(v1)
  {
    LowerIdempotent(v1);
  }
}
