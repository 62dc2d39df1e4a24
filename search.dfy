/** The search box and the status selector shared by the project list and the task
    list. */
module Search {
  import opened Text

  /** The search term matches when the lowercased title or the lowercased description
      contains the lowercased term. */
  predicate MatchesSearch(title: string, description: string, term: string) {
    Contains(Lower(title), Lower(term)) || Contains(Lower(description), Lower(term))
  }

  /** The status selector keeps a record when it is set to "all" or to the record's
      status. */
  predicate MatchesStatus(status: string, filter: string) {
    filter == "all" || status == filter
  }

  /** The empty search term matches every record. */
  lemma EmptySearchMatches(title: string, description: string)
    ensures MatchesSearch(title, description, "")
  {
    assert Lower("") == "";
    ContainsEmpty(Lower(title));
  }

  /** Typing the term in capitals, or lowercasing it first, matches the same records. */
  lemma SearchIgnoresCase(title: string, description: string, term: string)
    ensures MatchesSearch(title, description, Upper(term)) == MatchesSearch(title, description, term)
    ensures MatchesSearch(title, description, Lower(term)) == MatchesSearch(title, description, term)
  {
    LowerIgnoresCase(term);
  }
}
