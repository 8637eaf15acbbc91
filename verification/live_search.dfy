/** The search box in the navigation bar (src/components/LiveSearch.tsx):
    which queries are searched, which products are suggested, and what
    `handleSearch` does to the list of recent searches. Its only caller is
    a click on an entry of that list, so a typed query never enters it: a
    click moves the entry to the front and keeps the rest. */
module LiveSearch {
  import opened Sequences
  import opened Strings
  import opened Types

  /** At most this many suggestions and this many recent searches. */
  const MaxSuggestions: nat := 5
  const MaxRecentSearches: nat := 5

  /** The debounced effect searches only queries longer than two
      characters; shorter ones clear the suggestions. */
  predicate QueryIsSearched(query: string)
  {
    |query| > 2
  }

  /** The filter of `searchProducts`: the lower-cased title or category
      contains the lower-cased query. The empty query matches everything,
      and a query longer than both fields matches nothing. */
  predicate Matches(product: Product, query: string)
    ensures |query| == 0 ==> Matches(product, query)
    ensures Matches(product, query) ==> |query| <= |product.title| || |query| <= |product.category|
  {
    assert |query| == 0 ==> OccursAt(ToLower(product.title), ToLower(query), 0);
    Contains(ToLower(product.title), ToLower(query))
    || Contains(ToLower(product.category), ToLower(query))
  }

  /** Every matching product of the catalog, in catalog order. */
  function Matching(catalog: seq<Product>, query: string): (r: seq<Product>)
    ensures forall k :: 0 <= k < |r| ==> Matches(r[k], query)
    ensures forall k :: 0 <= k < |catalog| && Matches(catalog[k], query) ==> catalog[k] in r
    ensures IsSubsequence(r, catalog)
  {
    Filter(catalog, (p: Product) => Matches(p, query))
  }

  /** `searchProducts` on a fetched catalog: the first five matching
      products, in catalog order; fewer only when there are no more. */
  function Suggestions(catalog: seq<Product>, query: string): (r: seq<Product>)
    ensures |r| <= MaxSuggestions
    ensures forall k :: 0 <= k < |r| ==> Matches(r[k], query)
    ensures IsSubsequence(r, catalog)
    ensures |r| < MaxSuggestions ==>
      forall k :: 0 <= k < |catalog| && Matches(catalog[k], query) ==> catalog[k] in r
    ensures r == Take(Matching(catalog, query), MaxSuggestions)
  {
    var matching := Matching(catalog, query);
    var r := Take(matching, MaxSuggestions);
    PrefixIsSubsequence(matching, |r|);
    SubsequenceTransitive(r, matching, catalog);
    r
  }

  /** Which products are suggested: a matching product preceded in the
      catalog by fewer than five other matches is suggested, at the position
      given by the number of those matches. */
  lemma SuggestionsAreFirstMatches(catalog: seq<Product>, query: string, k: nat)
    requires k < |catalog| && Matches(catalog[k], query)
    requires |Matching(catalog[..k], query)| < MaxSuggestions
    ensures |Matching(catalog[..k], query)| < |Suggestions(catalog, query)|
    ensures Suggestions(catalog, query)[|Matching(catalog[..k], query)|] == catalog[k]
  {
    var keep := (p: Product) => Matches(p, query);
    FilterPosition(catalog, k, keep);
  }

  /** What the suggestion list becomes once the debounce fires. */
  function SuggestionsAfterDebounce(catalog: seq<Product>, query: string): (r: seq<Product>)
    ensures !QueryIsSearched(query) ==> r == []
    ensures QueryIsSearched(query) ==> r == Suggestions(catalog, query)
  {
    if QueryIsSearched(query) then Suggestions(catalog, query) else []
  }

  /** Case does not matter to the suggestions. */
  lemma SuggestionsIgnoreQueryCase(catalog: seq<Product>, a: string, b: string)
    requires ToLower(a) == ToLower(b)
    ensures Suggestions(catalog, a) == Suggestions(catalog, b)
  {
    var keepA := (p: Product) => Matches(p, a);
    var keepB := (p: Product) => Matches(p, b);
    FilterAgrees(catalog, keepA, keepB);
    assert Matching(catalog, a) == Matching(catalog, b);
  }

  /** No entry occurs twice. */
  ghost predicate NoRepeats(s: seq<string>)
  {
    forall i, j :: 0 <= i < j < |s| ==> s[i] != s[j]
  }

  /** The earlier searches other than `query`, in their order. */
  function OtherSearches(recent: seq<string>, query: string): (r: seq<string>)
    ensures forall k :: 0 <= k < |r| ==> r[k] != query
    ensures forall k :: 0 <= k < |recent| && recent[k] != query ==> recent[k] in r
    ensures IsSubsequence(r, recent)
  {
    Filter(recent, (s: string) => s != query)
  }

  /** The recent-search update of `handleSearch`: a query that is blank
      once trimmed is not recorded; otherwise the query, untrimmed, goes to
      the front, its earlier copies are dropped, and the list is cut to
      five. */
  function RecordSearch(recent: seq<string>, query: string): (r: seq<string>)
    ensures Trim(query) == "" ==> r == recent
    ensures Trim(query) != "" ==>
      && 0 < |r| <= MaxRecentSearches
      && r[0] == query
      && (forall k :: 0 < k < |r| ==> r[k] != query)
      && IsSubsequence(r[1..], recent)
    ensures Trim(query) != "" ==> r == Take([query] + OtherSearches(recent, query), MaxRecentSearches)
  {
    if Trim(query) == "" then recent
    else
      var others := OtherSearches(recent, query);
      var r := Take([query] + others, MaxRecentSearches);
      assert r[1..] == others[..|r| - 1];
      PrefixIsSubsequence(others, |r| - 1);
      SubsequenceTransitive(r[1..], others, recent);
      r
  }

  /** Which earlier searches survive: a search other than the query that
      has fewer than four other searches before it stays, moved back by one
      place behind the query and closed up over the dropped copies. */
  lemma RecordSearchKeepsRecent(recent: seq<string>, query: string, k: nat)
    requires Trim(query) != "" && k < |recent| && recent[k] != query
    requires |OtherSearches(recent[..k], query)| < MaxRecentSearches - 1
    ensures 1 + |OtherSearches(recent[..k], query)| < |RecordSearch(recent, query)|
    ensures RecordSearch(recent, query)[1 + |OtherSearches(recent[..k], query)|] == recent[k]
  {
    var keep := (s: string) => s != query;
    FilterPosition(recent, k, keep);
    var others := OtherSearches(recent, query);
    var i := |OtherSearches(recent[..k], query)|;
    assert others[i] == recent[k];
    assert ([query] + others)[1 + i] == others[i];
  }

  /** Recording keeps the list free of repeats. */
  lemma RecordSearchNoRepeats(recent: seq<string>, query: string)
    requires NoRepeats(recent)
    ensures NoRepeats(RecordSearch(recent, query))
  {
    var r := RecordSearch(recent, query);
    if Trim(query) != "" {
      var tail := r[1..];
      SubsequenceMembers(tail, recent);
      assert NoRepeats(tail) by {
        var id := (s: string) => s;
        assert DistinctBy(recent, id) by {
          forall i, j | 0 <= i < j < |recent| ensures id(recent[i]) != id(recent[j]) {
            assert recent[i] != recent[j];
          }
        }
        SubsequenceDistinctBy(tail, recent, id);
        forall i, j | 0 <= i < j < |tail| ensures tail[i] != tail[j] {
          assert id(tail[i]) != id(tail[j]);
        }
      }
      forall i, j | 0 <= i < j < |r| ensures r[i] != r[j] {
        if i > 0 {
          assert r[i] == tail[i - 1] && r[j] == tail[j - 1];
        }
      }
    }
  }

  /** Searching again for the latest search leaves the list as it is. */
  lemma RepeatSearchIsStable(recent: seq<string>, query: string)
    requires Trim(query) != "" && NoRepeats(recent) && |recent| <= MaxRecentSearches
    requires |recent| > 0 && recent[0] == query
    ensures RecordSearch(recent, query) == recent
  {
    var keep := (s: string) => s != query;
    assert recent == [query] + recent[1..];
    forall k | 0 <= k < |recent[1..]| ensures keep(recent[1..][k]) {
      assert recent[1..][k] == recent[k + 1];
    }
    FilterKeepsAll(recent[1..], keep);
    assert !keep(query);
    FilterConcat([query], recent[1..], keep);
  }

  /** The component state `handleSearch` touches. */
  datatype SearchBox = SearchBox(query: string, isOpen: bool, recentSearches: seq<string>)

  /** `handleSearch` on the search it is given: a non-blank one is
      recorded, the dropdown closes and the field is emptied (the navigation
      to the results page and the storage write are effects outside this
      model); a blank one changes nothing. */
  function HandleSearch(box: SearchBox, submitted: string): (r: SearchBox)
    ensures Trim(submitted) == "" ==> r == box
    ensures Trim(submitted) != "" ==>
      r == SearchBox("", false, RecordSearch(box.recentSearches, submitted))
  {
    if Trim(submitted) == "" then box
    else SearchBox("", false, RecordSearch(box.recentSearches, submitted))
  }

  /** In a list without repeats, the searches other than a listed one are
      the list with that one entry cut out. */
  lemma OtherSearchesOfListed(recent: seq<string>, i: nat)
    requires i < |recent| && NoRepeats(recent)
    ensures OtherSearches(recent, recent[i]) == recent[..i] + recent[i + 1..]
  {
    var query := recent[i];
    var before, after := recent[..i], recent[i + 1..];
    var keep := (s: string) => s != query;
    assert recent == before + ([query] + after);
    forall k | 0 <= k < |before| ensures keep(before[k]) {
      assert before[k] == recent[k];
    }
    forall k | 0 <= k < |after| ensures keep(after[k]) {
      assert after[k] == recent[i + 1 + k];
    }
    FilterConcat(before, [query] + after, keep);
    FilterConcat([query], after, keep);
    FilterKeepsAll(before, keep);
    FilterKeepsAll(after, keep);
  }

  /** Recording a search that is already listed, in a list without repeats
      and within the bound, only reorders the list: the same entries, each
      as often as before. */
  lemma RecordingListedSearchReorders(recent: seq<string>, query: string)
    requires query in recent && NoRepeats(recent) && |recent| <= MaxRecentSearches
    ensures multiset(RecordSearch(recent, query)) == multiset(recent)
    ensures |RecordSearch(recent, query)| == |recent|
  {
    if Trim(query) != "" {
      var i :| 0 <= i < |recent| && recent[i] == query;
      OtherSearchesOfListed(recent, i);
      MoveToFrontSameEntries(recent, i);
    }
  }

  /** Moving one entry to the front keeps every entry. */
  lemma MoveToFrontSameEntries(s: seq<string>, i: nat)
    requires i < |s|
    ensures multiset([s[i]] + (s[..i] + s[i + 1..])) == multiset(s)
  {
    assert s == s[..i] + [s[i]] + s[i + 1..];
  }

  /** A click on the `i`th recent search, the one caller of `handleSearch`:
      the clicked entry, unless blank, moves to the front, the field is
      emptied and the dropdown closed. */
  function ClickRecentSearch(box: SearchBox, i: nat): (r: SearchBox)
    requires i < |box.recentSearches|
    ensures Trim(box.recentSearches[i]) == "" ==> r == box
    ensures Trim(box.recentSearches[i]) != "" ==>
      |r.recentSearches| > 0 && r.recentSearches[0] == box.recentSearches[i] && r.query == "" && !r.isOpen
  {
    HandleSearch(box, box.recentSearches[i])
  }

  /** A click never adds or drops a recent search: on a list without repeats
      within the bound, the list after the click holds the same entries. */
  lemma ClickKeepsEntries(box: SearchBox, i: nat)
    requires i < |box.recentSearches|
    requires NoRepeats(box.recentSearches) && |box.recentSearches| <= MaxRecentSearches
    ensures multiset(ClickRecentSearch(box, i).recentSearches) == multiset(box.recentSearches)
    ensures NoRepeats(ClickRecentSearch(box, i).recentSearches)
  {
    RecordingListedSearchReorders(box.recentSearches, box.recentSearches[i]);
    RecordSearchNoRepeats(box.recentSearches, box.recentSearches[i]);
  }

  /** The Clear button of the recent-search list. */
  function ClearRecentSearches(box: SearchBox): (r: SearchBox)
    ensures r.recentSearches == [] && r.query == box.query && r.isOpen == box.isOpen
  {
    box.(recentSearches := [])
  }
}
