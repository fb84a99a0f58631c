/** The signed-in storefront page (app/user/page.tsx): the same search, but over the
    title and location only. */
module UserHomePage {
  import Text
  import Seqs
  import opened ExperienceModel
  import HomePage

  /** Lines 40-41: the query occurs in the title or the location; the description is
      not searched. */
  predicate Matches(e: Experience, query: string) {
    HomePage.ContainsIgnoringCase(e.title, query) || HomePage.ContainsIgnoringCase(e.location, query)
  }

  /** `filteredExperiences` (lines 38-42). */
  function FilterExperiences(experiences: seq<Experience>, query: string): (r: seq<Experience>)
    ensures Seqs.IsSubsequence(r, experiences)
    ensures forall i :: 0 <= i < |r| ==> Matches(r[i], query)
    ensures forall e :: multiset(r)[e] == if Matches(e, query) then multiset(experiences)[e] else 0
  {
    Seqs.Filter(experiences, (e: Experience) => Matches(e, query))
  }

  lemma EmptyQueryKeepsAll(experiences: seq<Experience>)
    ensures FilterExperiences(experiences, "") == experiences
  {
    forall e: Experience ensures Matches(e, "") {
      assert Text.ToLower("") == "";
      Text.IncludesEmpty(Text.ToLower(e.title));
    }
    Seqs.FilterAll(experiences, (e: Experience) => Matches(e, ""));
  }

  /** This page shows a subsequence of what the home page shows for the same query:
      its condition implies the home page's. */
  lemma NarrowerThanHomePage(experiences: seq<Experience>, query: string)
    ensures Seqs.IsSubsequence(FilterExperiences(experiences, query),
                               HomePage.FilterExperiences(experiences, query))
  {
    Seqs.FilterMonotone(experiences, (e: Experience) => Matches(e, query),
                        (e: Experience) => HomePage.Matches(e, query));
  }

  /** A query found only in a description is shown on the home page but not here. */
  lemma DescriptionOnlyMatch(e: Experience)
    requires e.title == "Kayaking" && e.location == "Goa" && e.description == "Sunset paddle"
    ensures HomePage.Matches(e, "sunset") && !Matches(e, "sunset")
  {
    var q := Text.ToLower("sunset");
    assert q == "sunset";
    var d := Text.ToLower(e.description);
    assert d == "sunset paddle";
    assert Text.OccursAt(d, q, 0);
    assert Text.ToLower(e.title) == "kayaking";
    assert Text.ToLower(e.location) == "goa";
    assert !Text.Includes("goa", q) by {
      forall i: nat | i <= 3 ensures !Text.OccursAt("goa", q, i) { }
    }
    assert !Text.Includes("kayaking", q) by {
      forall i: nat | i <= 8 ensures !Text.OccursAt("kayaking", q, i) {
        if i <= 2 { assert "kayaking"[i] != 's'; }
      }
    }
  }
}
