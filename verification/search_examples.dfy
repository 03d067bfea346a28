/** Worked searches over the built-in catalogue: which medicines the
    queries "Heart" and "pain" list. */
module SearchExamples {
  import opened Optional
  import opened Text
  import opened MedicineSearch

  /** "heart" cannot occur in the lower-cased name or description of
      Paracetamol or Ibuprofen: none of them has an 'h' or 'H'. */
  lemma HeartAbsentFromOtherTexts()
    ensures !Contains(Lower("Paracetamol 500mg"), "heart") && !Contains(Lower("Pain relief, fever reducer"), "heart")
    ensures !Contains(Lower("Ibuprofen 400mg"), "heart") && !Contains(Lower("Anti-inflammatory, pain relief"), "heart")
  {
    AbsentLetterNotFound("Paracetamol 500mg", "heart");
    AbsentLetterNotFound("Pain relief, fever reducer", "heart");
    AbsentLetterNotFound("Ibuprofen 400mg", "heart");
    AbsentLetterNotFound("Anti-inflammatory, pain relief", "heart");
  }

  /** "pain" cannot occur in Aspirin's lower-cased texts: the description
      has no 'p' or 'P', and the only 'p' of the name is followed by 'i'. */
  lemma PainAbsentFromAspirinTexts()
    ensures !Contains(Lower("Blood thinner, heart health"), "pain") && !Contains(Lower("Aspirin 100mg"), "pain")
  {
    AbsentLetterNotFound("Blood thinner, heart health", "pain");
    PairAbsentNotFound("Aspirin 100mg", "pain");
  }

  lemma HeartMissesParacetamolAndIbuprofen()
    ensures !Matches(Paracetamol, "heart") && !Matches(Ibuprofen, "heart")
  {
    HeartAbsentFromOtherTexts();
  }

  lemma HeartMatchesAspirin()
    ensures Matches(Aspirin, "heart")
  {
    assert OccursAt(Lower(Aspirin.description), "heart", 15);
  }

  /** Searching for "Heart" lists Aspirin and nothing else. */
  lemma SearchHeartExample()
    ensures HandleMedicineSearch("Heart") == Some([Aspirin])
  {
    var q := "heart";
    assert Lower("Heart") == q;
    HeartMissesParacetamolAndIbuprofen();
    HeartMatchesAspirin();
    assert Catalogue[1..][1..] == [Ibuprofen];
    assert FilterMatches([Ibuprofen], q) == [];
    assert FilterMatches(Catalogue[1..], q) == [Aspirin];
  }

  /** "pain" does not occur in Aspirin's texts: the description has no
      'p', and the only 'p' of the name is followed by 'i'. */
  lemma PainMissesAspirin()
    ensures !Matches(Aspirin, "pain")
  {
    PainAbsentFromAspirinTexts();
  }

  /** "pain" opens Paracetamol's description and appears in Ibuprofen's. */
  lemma PainMatchesParacetamolAndIbuprofen()
    ensures Matches(Paracetamol, "pain") && Matches(Ibuprofen, "pain")
  {
    assert OccursAt(Lower(Paracetamol.description), "pain", 0);
    assert OccursAt(Lower(Ibuprofen.description), "pain", 19);
  }

  /** `searchMedicines('pain')` keeps Paracetamol and Ibuprofen and drops
      Aspirin. */
  lemma PainSearchResult()
    ensures SearchMedicines("pain") == [Paracetamol, Ibuprofen]
  {
    var q := "pain";
    PainMatchesParacetamolAndIbuprofen();
    PainMissesAspirin();
    assert [Ibuprofen][1..] == [];
    assert FilterMatches([Ibuprofen], q) == [Ibuprofen];
    assert [Aspirin, Ibuprofen][1..] == [Ibuprofen];
    assert FilterMatches([Aspirin, Ibuprofen], q) == [Ibuprofen];
    assert Catalogue[1..] == [Aspirin, Ibuprofen];
  }

  /** Searching for "pain" lists Paracetamol and Ibuprofen, in that order,
      and nothing else; "ab" is too short to start a search. */
  lemma SearchPainExample()
    ensures HandleMedicineSearch("pain") == Some([Paracetamol, Ibuprofen])
    ensures HandleMedicineSearch("ab") == None
  {
    LowerKeepsLowerCase("pain");
    PainSearchResult();
  }
}
