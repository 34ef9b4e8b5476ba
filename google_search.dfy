// app/tools/google.py: the Google search tool. The query may be prefixed with
// a site name, the search wrapper is asked for ten results, and the results
// are kept only when their link contains the requested site link.
module GoogleSearch {
  import opened Common

  /** One search result; `link` is what `result.get('link')` gives. */
  datatype SearchResult = SearchResult(title: string, link: Option<string>, snippet: string)

  /** `site_link not in None` raises TypeError; building the API wrapper can
      raise before anything else runs. */
  datatype SearchError = WrapperFailed | LinkTypeError

  /** The tool returns a message string or the list of kept results. */
  datatype Reply = Message(text: string) | Results(results: seq<SearchResult>)

  const MissingQueryMessage: string := "Please provide a query."
  const NumResults: nat := 10

  // ---------------------------------------------------------------------------
  // The query sent to the search wrapper

  /** `f'{site_name} {query}'` when `site_name` is truthy, `query` otherwise.
      The user's query always ends the search text; a site name starts it,
      followed by one space. */
  function SearchQuery(query: string, siteName: Option<string>): (q: string)
    ensures |q| >= |query| && q[|q| - |query|..] == query
    ensures TruthyOpt(siteName) ==>
      && |q| == |siteName.value| + 1 + |query|
      && q[..|siteName.value|] == siteName.value
      && q[|siteName.value|] == ' '
    ensures !TruthyOpt(siteName) ==> q == query
  {
    if TruthyOpt(siteName) then siteName.value + " " + query else query
  }

  // ---------------------------------------------------------------------------
  // The link filter

  /** A result survives the filter: no truthy site link was given, or its link
      contains the site link. */
  predicate Keeps(r: SearchResult, siteLink: Option<string>) {
    !TruthyOpt(siteLink) || (r.link.Some? && IsSubstring(siteLink.value, r.link.value))
  }

  /** The filter tests this result's link against a truthy site link, but the
      result has no link. */
  predicate Raises(r: SearchResult, siteLink: Option<string>) {
    TruthyOpt(siteLink) && r.link.None?
  }

  /** The loop over `search_results`, result by result: the first result that
      makes the membership test raise ends the call. */
  function KeepFromSite(results: seq<SearchResult>, siteLink: Option<string>): Result<seq<SearchResult>, SearchError> {
    if results == [] then Ok([])
    else if Raises(results[0], siteLink) then Err(LinkTypeError)
    else
      var rest :- KeepFromSite(results[1..], siteLink);
      Ok(if Keeps(results[0], siteLink) then [results[0]] + rest else rest)
  }

  /** `done` put in front of a filter outcome. */
  function Prepend(done: seq<SearchResult>, r: Result<seq<SearchResult>, SearchError>): Result<seq<SearchResult>, SearchError> {
    if r.Ok? then Ok(done + r.value) else r
  }

  /** The `for` loop of `google_search` with its `continue` and `append`. */
  method FilterResults(results: seq<SearchResult>, siteLink: Option<string>) returns (r: Result<seq<SearchResult>, SearchError>)
    ensures r == KeepFromSite(results, siteLink)
  {
    var resultSet := [];
    var i := 0;
    assert KeepFromSite(results, siteLink).Ok? ==> [] + KeepFromSite(results, siteLink).value == KeepFromSite(results, siteLink).value;
    assert results[0..] == results;
    while i < |results|
      invariant 0 <= i <= |results|
      invariant KeepFromSite(results, siteLink) == Prepend(resultSet, KeepFromSite(results[i..], siteLink))
    {
      var result := results[i];
      assert results[i..][0] == result && results[i..][1..] == results[i + 1..];
      ghost var rest := KeepFromSite(results[i + 1..], siteLink);
      assert rest.Ok? ==> resultSet + ([result] + rest.value) == (resultSet + [result]) + rest.value;
      var link := result.link;
      if TruthyOpt(siteLink) {
        if link.None? {
          return Err(LinkTypeError);
        }
        if !IsSubstring(siteLink.value, link.value) {
          i := i + 1;
          continue;
        }
      }
      resultSet := resultSet + [result];
      i := i + 1;
    }
    assert results[i..] == [] && resultSet + [] == resultSet;
    return Ok(resultSet);
  }

  /** `google_search(query, site_name, site_link)` with the wrapper's
      `results` method as `search`. `sent` is the text the wrapper was asked
      to search for, ten results at most, or None when no search was made. */
  method Search(wrapperFails: bool, query: Option<string>, siteName: Option<string>, siteLink: Option<string>,
                search: (string, nat) -> seq<SearchResult>)
    returns (r: Result<Reply, SearchError>, sent: Option<string>)
    ensures wrapperFails ==> r == Err(WrapperFailed) && sent.None?
    ensures !wrapperFails && !TruthyOpt(query) ==> r == Ok(Message(MissingQueryMessage)) && sent.None?
    ensures !wrapperFails && TruthyOpt(query) ==>
      && sent == Some(SearchQuery(query.value, siteName))
      && var filtered := KeepFromSite(search(sent.value, NumResults), siteLink);
      && (r.Ok? <==> filtered.Ok?)
      && (r.Ok? ==> r.value == Results(filtered.value))
      && (r.Err? ==> r.error == LinkTypeError)
  {
    sent := None;
    if wrapperFails {
      return Err(WrapperFailed), sent;
    }
    if !TruthyOpt(query) {
      return Ok(Message(MissingQueryMessage)), sent;
    }
    var q := SearchQuery(query.value, siteName);
    sent := Some(q);
    var searchResults := search(q, NumResults);
    var kept := FilterResults(searchResults, siteLink);
    KeepFromSiteFails(searchResults, siteLink);
    if kept.Err? {
      return Err(kept.error), sent;
    }
    return Ok(Results(kept.value)), sent;
  }

  // ---------------------------------------------------------------------------
  // Properties of the filter

  /** `a` is `b` with some elements left out, the rest in order. */
  predicate IsSubsequence(a: seq<SearchResult>, b: seq<SearchResult>)
    decreases |b|
  {
    if a == [] then true
    else if b == [] then false
    else (a[0] == b[0] && IsSubsequence(a[1..], b[1..])) || IsSubsequence(a, b[1..])
  }

  /** The filter fails exactly when a site link is given and some result has
      no link; the error is the TypeError of the membership test. */
  lemma {:induction false} KeepFromSiteFails(results: seq<SearchResult>, siteLink: Option<string>)
    ensures KeepFromSite(results, siteLink).Err? <==> exists i | 0 <= i < |results| :: Raises(results[i], siteLink)
    ensures KeepFromSite(results, siteLink).Err? ==> KeepFromSite(results, siteLink).error == LinkTypeError
  {
    if results != [] {
      KeepFromSiteFails(results[1..], siteLink);
      if exists i | 0 <= i < |results| :: Raises(results[i], siteLink) {
        var i :| 0 <= i < |results| && Raises(results[i], siteLink);
        if i > 0 {
          assert Raises(results[1..][i - 1], siteLink);
        }
      }
      if exists i | 0 <= i < |results| - 1 :: Raises(results[1..][i], siteLink) {
        var i :| 0 <= i < |results| - 1 && Raises(results[1..][i], siteLink);
        assert Raises(results[i + 1], siteLink);
      }
    }
  }

  /** The kept results are the input results that pass the filter, in their
      original order, each as many times as it occurs in the input. */
  lemma {:induction false} KeepFromSiteSelects(results: seq<SearchResult>, siteLink: Option<string>)
    requires KeepFromSite(results, siteLink).Ok?
    ensures var kept := KeepFromSite(results, siteLink).value;
      && IsSubsequence(kept, results)
      && (forall x :: x in kept <==> x in results && Keeps(x, siteLink))
      && (forall x :: multiset(kept)[x] == if Keeps(x, siteLink) then multiset(results)[x] else 0)
  {
    if results != [] {
      KeepFromSiteSelects(results[1..], siteLink);
      var rest := KeepFromSite(results[1..], siteLink).value;
      var kept := KeepFromSite(results, siteLink).value;
      if Keeps(results[0], siteLink) {
        assert kept == [results[0]] + rest;
        assert kept[1..] == rest;
      } else {
        assert kept == rest;
        if rest != [] {
          assert IsSubsequence(rest, results[1..]);
        }
      }
      assert results == [results[0]] + results[1..];
    }
  }

  /** Without a truthy site link every result is kept, in order. */
  lemma {:induction false} KeepFromSiteKeepsAll(results: seq<SearchResult>, siteLink: Option<string>)
    requires !TruthyOpt(siteLink)
    ensures KeepFromSite(results, siteLink) == Ok(results)
  {
    if results != [] {
      KeepFromSiteKeepsAll(results[1..], siteLink);
      assert [results[0]] + results[1..] == results;
    }
  }

  /** With a site link, a result whose link contains it is kept and one whose
      link does not is dropped. */
  lemma KeepFromSiteBySite(results: seq<SearchResult>, site: string, r: SearchResult)
    requires Truthy(site)
    requires KeepFromSite(results, Some(site)).Ok?
    requires r in results
    ensures r.link.Some?
    ensures r in KeepFromSite(results, Some(site)).value <==> IsSubstring(site, r.link.value)
  {
    KeepFromSiteFails(results, Some(site));
    KeepFromSiteSelects(results, Some(site));
    var i :| 0 <= i < |results| && results[i] == r;
    assert !Raises(results[i], Some(site));
  }
}
