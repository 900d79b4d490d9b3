/** `scrape_data`: wait for the result list, scroll it to the end, harvest the
    company URLs, then visit each URL in order and turn every page that loads
    into a record. Loading a page (navigation, waiting for the heading to become
    visible, parsing) is a parameter: it yields the parsed page, or `None` on
    any failure inside the per-URL `try`, including a progress message that
    cannot be written, which drops a page that did load. */
module Scrape {
  import opened Wrappers
  import opened Lexicographic
  import opened Urls
  import opened Harvest
  import opened Scroll
  import opened Extractors

  /** One key/value pair of a record. */
  type Entry = (string, string)

  /** A collected record: the scraper's dict, whose keys keep insertion order. */
  type Record = seq<Entry>

  /** The keys every record carries, in order; they become the columns of the export. */
  const Header: seq<string> := ["name", "address", "website", "phone", "link", "rating", "hours"]

  function Keys(rec: Record): seq<string>
  {
    seq(|rec|, i requires 0 <= i < |rec| => rec[i].0)
  }

  /** The value stored under `key`. */
  function Lookup(rec: Record, key: string): Option<string>
    decreases |rec|
  {
    if |rec| == 0 then None
    else if rec[0].0 == key then Some(rec[0].1)
    else Lookup(rec[1..], key)
  }

  /** The value under a key is the one of its first entry. */
  lemma {:induction false} LookupFirst(rec: Record, i: nat)
    requires i < |rec|
    requires forall j :: 0 <= j < i ==> rec[j].0 != rec[i].0
    ensures Lookup(rec, rec[i].0) == Some(rec[i].1)
    decreases i
  {
    if i > 0 {
      LookupFirst(rec[1..], i - 1);
    }
  }

  /** The dict built for one loaded page: the seven keys in their fixed order, the
      link stored as given, every other field from its extractor. */
  function BuildRecord(page: Page, link: string): (rec: Record)
    ensures Keys(rec) == Header
    ensures Lookup(rec, "name") == Some(GetText(page.heading))
    ensures Lookup(rec, "address") == Some(GetText(page.addressLink))
    ensures Lookup(rec, "website") == Some(GetWebsiteLink(page))
    ensures Lookup(rec, "phone") == Some(GetPhone(page))
    ensures Lookup(rec, "link") == Some(link)
    ensures Lookup(rec, "rating") == Some(GetRating(page))
    ensures Lookup(rec, "hours") == Some(GetHours(page))
  {
    var rec := [
      ("name", GetText(page.heading)),
      ("address", GetText(page.addressLink)),
      ("website", GetWebsiteLink(page)),
      ("phone", GetPhone(page)),
      ("link", link),
      ("rating", GetRating(page)),
      ("hours", GetHours(page))
    ];
    LookupFirst(rec, 0);
    LookupFirst(rec, 1);
    LookupFirst(rec, 2);
    LookupFirst(rec, 3);
    LookupFirst(rec, 4);
    LookupFirst(rec, 5);
    LookupFirst(rec, 6);
    rec
  }

  /** The outcome of one pass over `urls`: `kept` lists, in ascending order, the
      positions whose page loaded, and `records` holds one record per kept position,
      built from that page under the URL's canonical link. */
  ghost predicate Collected(urls: seq<string>, load: string -> Option<Page>, records: seq<Record>, kept: seq<nat>)
  {
    && |records| == |kept|
    && (forall k :: 0 <= k < |kept| ==> kept[k] < |urls|)
    && (forall k, l :: 0 <= k < l < |kept| ==> kept[k] < kept[l])
    && (forall i :: 0 <= i < |urls| ==> (load(urls[i]).Some? <==> i in kept))
    && (forall k :: 0 <= k < |kept| ==> RecordOf(urls, load, kept[k], records[k]))
  }

  /** `rec` is the record of position `i`: that URL's page loaded, and `rec` was
      built from it under the URL's canonical link. */
  ghost predicate RecordOf(urls: seq<string>, load: string -> Option<Page>, i: nat, rec: Record)
  {
    && i < |urls|
    && load(urls[i]).Some?
    && rec == BuildRecord(load(urls[i]).value, Canonical(urls[i]))
  }

  /** Stage two of `scrape_data`: one pass over the URLs in order; a URL whose page
      fails to load is skipped and the pass goes on with the next one. */
  method CollectDetails(urls: seq<string>, load: string -> Option<Page>)
    returns (records: seq<Record>, ghost kept: seq<nat>)
    ensures Collected(urls, load, records, kept)
    ensures |records| <= |urls|
    ensures forall k :: 0 <= k < |records| ==> Keys(records[k]) == Header
  {
    records := [];
    kept := [];
    var i := 0;
    while i < |urls|
      invariant 0 <= i <= |urls|
      invariant |records| == |kept| <= i
      invariant forall k :: 0 <= k < |kept| ==> kept[k] < i
      invariant forall k, l :: 0 <= k < l < |kept| ==> kept[k] < kept[l]
      invariant forall j :: 0 <= j < i ==> (load(urls[j]).Some? <==> j in kept)
      invariant forall k :: 0 <= k < |kept| ==> RecordOf(urls, load, kept[k], records[k])
      invariant forall k :: 0 <= k < |records| ==> Keys(records[k]) == Header
    {
      var url := urls[i];
      var cleanUrl := Canonical(url);
      var loaded := load(url);
      if loaded.Some? {
        var rec := BuildRecord(loaded.value, cleanUrl);
        assert RecordOf(urls, load, i, rec);
        records := records + [rec];
        kept := kept + [i];
      }
      i := i + 1;
    }
  }

  /** Two strictly increasing sequences with the same members are equal. */
  lemma {:induction false} IncreasingUnique(a: seq<nat>, b: seq<nat>)
    requires forall k, l :: 0 <= k < l < |a| ==> a[k] < a[l]
    requires forall k, l :: 0 <= k < l < |b| ==> b[k] < b[l]
    requires forall x :: x in a <==> x in b
    ensures a == b
    decreases |a|
  {
    assert |a| == 0 <==> |b| == 0 by {
      if |a| > 0 { assert a[0] in a; }
      if |b| > 0 { assert b[0] in b; }
    }
    if |a| > 0 {
      assert a[0] in b;
      var k :| 0 <= k < |b| && b[k] == a[0];
      assert b[0] in a;
      var m :| 0 <= m < |a| && a[m] == b[0];
      assert a[0] == b[0];
      forall x
        ensures x in a[1..] <==> x in b[1..]
      {
        if x in a[1..] {
          var i :| 0 <= i < |a[1..]| && a[1..][i] == x;
          assert a[0] < a[i + 1];
          assert x in b;
          var j :| 0 <= j < |b| && b[j] == x;
          assert j != 0;
          assert b[1..][j - 1] == x;
        }
        if x in b[1..] {
          var i :| 0 <= i < |b[1..]| && b[1..][i] == x;
          assert b[0] < b[i + 1];
          assert x in a;
          var j :| 0 <= j < |a| && a[j] == x;
          assert j != 0;
          assert a[1..][j - 1] == x;
        }
      }
      IncreasingUnique(a[1..], b[1..]);
      assert a == [a[0]] + a[1..];
      assert b == [b[0]] + b[1..];
    }
  }

  /** A pass has exactly one outcome: which URLs become records, and which records,
      is fixed by the URLs and by which pages load. */
  lemma CollectedUnique(urls: seq<string>, load: string -> Option<Page>,
                        records: seq<Record>, kept: seq<nat>,
                        records': seq<Record>, kept': seq<nat>)
    requires Collected(urls, load, records, kept)
    requires Collected(urls, load, records', kept')
    ensures kept == kept' && records == records'
  {
    forall x
      ensures x in kept <==> x in kept'
    {
      if x in kept {
        var k :| 0 <= k < |kept| && kept[k] == x;
      }
      if x in kept' {
        var k :| 0 <= k < |kept'| && kept'[k] == x;
      }
    }
    IncreasingUnique(kept, kept');
  }

  /** With three URLs of which only the second fails to load, exactly the first
      and the third become records, in that order. */
  lemma SecondOfThreeFails(urls: seq<string>, load: string -> Option<Page>, records: seq<Record>, kept: seq<nat>)
    requires |urls| == 3
    requires load(urls[0]).Some? && load(urls[1]).None? && load(urls[2]).Some?
    requires Collected(urls, load, records, kept)
    ensures |records| == 2
    ensures records[0] == BuildRecord(load(urls[0]).value, Canonical(urls[0]))
    ensures records[1] == BuildRecord(load(urls[2]).value, Canonical(urls[2]))
  {
    var expected := [
      BuildRecord(load(urls[0]).value, Canonical(urls[0])),
      BuildRecord(load(urls[2]).value, Canonical(urls[2]))
    ];
    assert Collected(urls, load, expected, [0, 2]);
    CollectedUnique(urls, load, records, kept, expected, [0, 2]);
  }

  /** How `scrape_data` ends: with its list of records; with an exception that
      escapes it (stage one reads the links outside any `try`); or never, because
      the scroll loop keeps going while the link count keeps changing. */
  datatype Scraped = Done(data: seq<Record>) | Raised | StillScrolling

  /** The scroll panel was found but no round of the observed counts completes
      three unchanged rounds: `scroll_to_end` has not returned. */
  ghost predicate ScrollHangs(panelFound: bool, counts: seq<nat>)
  {
    panelFound && forall m :: 0 <= m <= |counts| ==> !SettledAt(counts, m)
  }

  /** `scrape_data`. When the result list never becomes visible nothing is
      collected. While the scroll loop has not settled the function has not
      returned. Once scrolling is over (settled, or no panel), its effect on the
      page enters only through `links`, the hrefs of the company links read after
      scrolling, or `None` when reading them raised; such an error escapes. An
      empty harvest collects nothing; otherwise every harvested URL is visited in
      ascending order. */
  method ScrapeData(listVisible: bool, panelFound: bool, counts: seq<nat>,
                    links: Option<seq<Option<string>>>, load: string -> Option<Page>)
    returns (outcome: Scraped, ghost kept: seq<nat>)
    ensures !listVisible ==> outcome == Done([])
    ensures listVisible && ScrollHangs(panelFound, counts) ==> outcome == StillScrolling
    ensures listVisible && !ScrollHangs(panelFound, counts) && links.None? ==> outcome == Raised
    ensures listVisible && !ScrollHangs(panelFound, counts) && links.Some? ==> outcome.Done?
    ensures outcome.Done? && links.Some? && CompanyUrls(links.value) == [] ==> outcome == Done([])
    ensures listVisible && !ScrollHangs(panelFound, counts) && links.Some? ==>
      Collected(CompanyUrls(links.value), load, outcome.data, kept)
    ensures outcome.Done? ==> forall k :: 0 <= k < |outcome.data| ==> Keys(outcome.data[k]) == Header
  {
    if !listVisible {
      return Done([]), [];
    }
    var scroll, _ := ScrollToEnd(panelFound, counts);
    if scroll.Unsettled? {
      return StillScrolling, [];
    }
    if links.None? {
      return Raised, [];
    }
    var companyUrls := CompanyUrls(links.value);
    if companyUrls == [] {
      return Done([]), [];
    }
    var data;
    data, kept := CollectDetails(companyUrls, load);
    outcome := Done(data);
  }

  /** Harvested URLs are told apart by their full text, query included, so two of
      them can share one canonical link and yield two records with the same link. */
  lemma LinksMayRepeat(base: string)
    requires '?' !in base
    ensures var urls := CompanyUrls([Some(base + "?a"), Some(base + "?b")]);
      && |urls| == 2
      && Canonical(urls[0]) == base
      && Canonical(urls[1]) == base
  {
    var hrefs := [Some(base + "?a"), Some(base + "?b")];
    var urls := CompanyUrls(hrefs);
    assert (base + "?a")[|base| + 1] != (base + "?b")[|base| + 1];
    assert |base + "?a"| > 0 && |base + "?b"| > 0;
    assert Kept(hrefs[0]) && Kept(hrefs[1]);
    assert hrefs[0].value in Observed(hrefs) && hrefs[1].value in Observed(hrefs);
    assert Observed(hrefs) == {base + "?a", base + "?b"};
    assert |urls| == 2 by {
      HarvestWellFormed(hrefs);
      ElemsOfDistinct(urls);
    }
    forall i | 0 <= i < 2
      ensures Canonical(urls[i]) == base
    {
      assert urls[i] in Elems(urls);
      CanonicalUnique(urls[i], base);
    }
  }
}
