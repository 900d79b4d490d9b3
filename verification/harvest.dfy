/** Stage one of the scrape: turning the `href` attributes of the company links
    on the fully scrolled result list into the list of detail-page URLs to visit. */
module Harvest {
  import opened Wrappers
  import opened Lexicographic

  /** An `href` survives the filter when the attribute exists and is non-empty
      (Python truthiness of the attribute value). */
  predicate Kept(href: Option<string>)
  {
    href.Some? && href.value != ""
  }

  /** Every distinct href that survives the filter. */
  function Observed(hrefs: seq<Option<string>>): set<string>
  {
    set i | 0 <= i < |hrefs| && Kept(hrefs[i]) :: hrefs[i].value
  }

  /** `sorted(set(href for every link if href))`, built by inserting the hrefs one
      at a time into an ascending list without repetitions. */
  function CompanyUrls(hrefs: seq<Option<string>>): (urls: seq<string>)
    ensures StrictlySorted(urls)
    ensures Elems(urls) == Observed(hrefs)
    decreases |hrefs|
  {
    if |hrefs| == 0 then
      []
    else
      var init := hrefs[..|hrefs| - 1];
      var last := hrefs[|hrefs| - 1];
      var prev := CompanyUrls(init);
      assert forall i :: 0 <= i < |init| ==> init[i] == hrefs[i];
      if Kept(last) then
        assert Observed(hrefs) == Observed(init) + {last.value};
        InsertUnique(prev, last.value)
      else
        assert Observed(hrefs) == Observed(init);
        prev
  }

  /** The harvested list is ascending, repeats nothing and holds no empty string. */
  lemma HarvestWellFormed(hrefs: seq<Option<string>>)
    ensures var urls := CompanyUrls(hrefs);
      && StrictlySorted(urls)
      && Distinct(urls)
      && (forall i :: 0 <= i < |urls| ==> urls[i] != "")
  {
    var urls := CompanyUrls(hrefs);
    SortedIsDistinct(urls);
    forall i | 0 <= i < |urls|
      ensures urls[i] != ""
    {
      assert urls[i] in Elems(urls);
    }
  }

  /** The harvested list is THE ascending listing of the distinct kept hrefs: any
      ascending, repetition-free list of exactly those strings is equal to it. */
  lemma HarvestIsSortedSet(hrefs: seq<Option<string>>, urls: seq<string>)
    requires StrictlySorted(urls)
    requires Elems(urls) == Observed(hrefs)
    ensures urls == CompanyUrls(hrefs)
  {
    SortedUnique(urls, CompanyUrls(hrefs));
  }

  /** Nothing is harvested exactly when no link carried a non-empty href. */
  lemma HarvestEmpty(hrefs: seq<Option<string>>)
    ensures CompanyUrls(hrefs) == [] <==> forall i :: 0 <= i < |hrefs| ==> !Kept(hrefs[i])
  {
    ElemsEmpty(CompanyUrls(hrefs));
    if exists i :: 0 <= i < |hrefs| && Kept(hrefs[i]) {
      var i :| 0 <= i < |hrefs| && Kept(hrefs[i]);
      assert hrefs[i].value in Observed(hrefs);
    }
  }
}
