/** The storefront home page (app/page.jsx): the search box filters the fetched
    experiences by a case-insensitive substring of the title, location or description,
    and a count line reports how many were found. */
module HomePage {
  import opened Wrappers
  import Text
  import Seqs
  import opened ExperienceModel

  /** The lower-cased query occurs in the lower-cased text. */
  predicate ContainsIgnoringCase(haystack: string, query: string) {
    Text.Includes(Text.ToLower(haystack), Text.ToLower(query))
  }

  /** Lines 46-49: the query occurs in the title, the location or the description. */
  predicate Matches(e: Experience, query: string) {
    ContainsIgnoringCase(e.title, query) || ContainsIgnoringCase(e.location, query)
    || ContainsIgnoringCase(e.description, query)
  }

  /** `filteredExperiences` (lines 45-50): the matching experiences, in their order. */
  function FilterExperiences(experiences: seq<Experience>, query: string): (r: seq<Experience>)
    ensures Seqs.IsSubsequence(r, experiences)
    ensures forall i :: 0 <= i < |r| ==> Matches(r[i], query)
    ensures forall e :: multiset(r)[e] == if Matches(e, query) then multiset(experiences)[e] else 0
  {
    Seqs.Filter(experiences, (e: Experience) => Matches(e, query))
  }

  /** An experience is kept exactly when it matches. */
  lemma KeptIffMatches(experiences: seq<Experience>, query: string, e: Experience)
    requires e in experiences
    ensures e in FilterExperiences(experiences, query) <==> Matches(e, query)
  {
    var r := FilterExperiences(experiences, query);
    assert multiset(experiences)[e] > 0;
    assert e in r <==> multiset(r)[e] > 0;
  }

  /** An empty query matches everything: the list is shown as it is. */
  lemma EmptyQueryKeepsAll(experiences: seq<Experience>)
    ensures FilterExperiences(experiences, "") == experiences
  {
    forall e: Experience ensures Matches(e, "") {
      assert Text.ToLower("") == "";
      Text.IncludesEmpty(Text.ToLower(e.title));
    }
    Seqs.FilterAll(experiences, (e: Experience) => Matches(e, ""));
  }

  /** `handleSearch` (lines 39-43): the list is fetched again only when the query is
      empty after trimming, that is when it is blank. */
  function SearchRefetches(query: string): (b: bool)
    ensures b <==> Text.IsBlank(query)
  {
    Text.TrimEmptyIffBlank(query);
    Text.Trim(query) == ""
  }

  /** Line 144: "Found n experience", with an "s" unless n is 1. */
  function CountLabel(n: nat): string {
    "Found " + Text.IntToString(n) + " experience" + (if n != 1 then "s" else "")
  }

  /** The label is plural exactly when the count is not 1, and names the count. */
  lemma CountLabelPlural(n: nat)
    ensures var s := CountLabel(n);
      && (s[|s| - 1] == 's' <==> n != 1)
      && s[6..6 + |Text.IntToString(n)|] == Text.IntToString(n)
  {
    var s := CountLabel(n);
    var digits := Text.IntToString(n);
    assert s[6..6 + |digits|] == digits;
    if n == 1 {
      assert s[|s| - 1] == 'e';
    }
  }

  /** What the list area shows (lines 113-153): a spinner while loading; when no
      experience is left to show, a message (and, for a search, a button that clears
      it); otherwise the count line, present only for a non-empty query, above the
      cards. */
  datatype ListView =
    | Spinner
    | NoResults(message: string, offersClear: bool)
    | Results(countLine: Option<string>, cards: seq<Experience>)

  function View(loading: bool, experiences: seq<Experience>, query: string): ListView {
    var shown := FilterExperiences(experiences, query);
    if loading then Spinner
    else if |shown| == 0 then
      NoResults(if query != "" then "No experiences found matching your search"
                else "No experiences available", query != "")
    else Results(if query != "" then Some(CountLabel(|shown|)) else None, shown)
  }

  /** Once loaded, the cards are the filtered experiences, and a count line is shown
      exactly when the query is not empty and something matches; it names the number
      of cards, which is at least 1 and at most the number of experiences. */
  lemma CountLineCounts(experiences: seq<Experience>, query: string)
    ensures var v, shown := View(false, experiences, query), FilterExperiences(experiences, query);
      && (v.Results? <==> shown != [])
      && (v.Results? ==> v.cards == shown && 1 <= |v.cards| <= |experiences|)
      && (v.Results? && v.countLine.Some? <==> query != "" && shown != [])
      && (v.Results? && v.countLine.Some? ==> v.countLine.value == CountLabel(|v.cards|))
  {
  }

  /** A search that matches no experience shows the "nothing found" message with the
      button that clears the search, and no count line. */
  lemma NoMatchShowsSearchMessage(experiences: seq<Experience>, query: string)
    requires query != ""
    requires forall i :: 0 <= i < |experiences| ==> !Matches(experiences[i], query)
    ensures View(false, experiences, query)
      == NoResults("No experiences found matching your search", true)
  {
  }

  /** A matching experience lets the page show its card. */
  lemma MatchShowsCard(experiences: seq<Experience>, query: string, e: Experience)
    requires e in experiences && Matches(e, query)
    ensures View(false, experiences, query).Results?
    ensures e in View(false, experiences, query).cards
  {
    KeptIffMatches(experiences, query, e);
  }
}
