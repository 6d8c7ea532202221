/** The search-and-classification filter of the accommodation list page and
    its colour lookup (`client/src/pages/AccommodationList.tsx`). */
module AccommodationList {
  import opened Records
  import Text
  import Seqs

  /** The name or the location contains the search term, ignoring case. */
  predicate MatchesSearch(acc: Accommodation, searchTerm: string) {
    || Text.Contains(Text.ToLower(acc.name), Text.ToLower(searchTerm))
    || Text.Contains(Text.ToLower(acc.location), Text.ToLower(searchTerm))
  }

  /** `'all'` selects every classification; any other selection must equal it. */
  predicate MatchesClassification(acc: Accommodation, selected: string) {
    selected == "all" || ClassificationName(acc.safetyClassification) == selected
  }

  predicate Shown(acc: Accommodation, searchTerm: string, selected: string) {
    MatchesSearch(acc, searchTerm) && MatchesClassification(acc, selected)
  }

  /** `filteredAccommodations`. */
  function FilteredAccommodations(accs: seq<Accommodation>, searchTerm: string, selected: string): seq<Accommodation> {
    Seqs.Filter(accs, acc => Shown(acc, searchTerm, selected))
  }

  /** The filter keeps the accommodations that match, in their original order,
      and exactly those. */
  lemma FilteredSpec(accs: seq<Accommodation>, searchTerm: string, selected: string)
    ensures Seqs.IsSubsequence(FilteredAccommodations(accs, searchTerm, selected), accs)
    ensures forall acc :: acc in FilteredAccommodations(accs, searchTerm, selected) <==>
              acc in accs && MatchesSearch(acc, searchTerm) && MatchesClassification(acc, selected)
    ensures forall acc :: multiset(FilteredAccommodations(accs, searchTerm, selected))[acc] ==
              if Shown(acc, searchTerm, selected) then multiset(accs)[acc] else 0
  {
    var p := acc => Shown(acc, searchTerm, selected);
    Seqs.FilterIsSubsequence(accs, p);
    forall acc ensures acc in Seqs.Filter(accs, p) <==> acc in accs && p(acc) {
      Seqs.FilterMembership(accs, p, acc);
    }
    forall acc ensures multiset(Seqs.Filter(accs, p))[acc] == if p(acc) then multiset(accs)[acc] else 0 {
      Seqs.FilterCount(accs, p, acc);
    }
  }

  /** With an empty search and `'all'` selected, every accommodation is shown. */
  lemma FilteredShowsAll(accs: seq<Accommodation>)
    ensures FilteredAccommodations(accs, "", "all") == accs
  {
    forall i | 0 <= i < |accs| ensures Shown(accs[i], "", "all") {
      assert Text.ToLower("") == "";
      Text.ContainsEmpty(Text.ToLower(accs[i].name));
    }
    Seqs.FilterKeepsAll(accs, acc => Shown(acc, "", "all"));
  }

  /** Filtering the filtered list again with the same inputs changes nothing. */
  lemma FilteredIdempotent(accs: seq<Accommodation>, searchTerm: string, selected: string)
    ensures FilteredAccommodations(FilteredAccommodations(accs, searchTerm, selected), searchTerm, selected)
            == FilteredAccommodations(accs, searchTerm, selected)
  {
    Seqs.FilterIdempotent(accs, acc => Shown(acc, searchTerm, selected));
  }

  const Gray: string := "bg-gray-100 text-gray-800"

  /** `getClassificationColor`: the three known classifications have their own
      colour, anything else is gray. */
  function ClassificationColor(classification: string): (color: string)
    ensures color == Gray <==> classification !in {"Safe", "Risky", "High Risk"}
    ensures classification == "Safe" ==> color == "bg-green-100 text-green-800"
    ensures classification == "Risky" ==> color == "bg-yellow-100 text-yellow-800"
    ensures classification == "High Risk" ==> color == "bg-red-100 text-red-800"
  {
    match classification
    case "Safe" => "bg-green-100 text-green-800"
    case "Risky" => "bg-yellow-100 text-yellow-800"
    case "High Risk" => "bg-red-100 text-red-800"
    case _ => Gray
  }

  /** Every classification an accommodation can have gets a non-gray colour,
      and the three colours differ. */
  lemma ClassificationColorKnown(c: Classification, d: Classification)
    ensures ClassificationColor(ClassificationName(c)) != Gray
    ensures ClassificationColor(ClassificationName(c)) == ClassificationColor(ClassificationName(d)) <==> c == d
  {
  }
}
