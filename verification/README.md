# 2GIS listing scraper: a Dafny model of its decision logic

`2gis.py` drives a browser through the 2GIS map search and collects one record per
company listed: name, address, website, phone, link, rating and opening hours.
Under the browser and HTML plumbing sit four small sequential decisions. This project
models each of them and proves properties about them:

1. **Scroll debounce** (`scroll_to_end`). The result panel is scrolled again and again
   until the number of company links stays the same for three rounds in a row. The
   browser is replaced by the finite sequence of link counts it reports, one per round
   (module `Scroll`).
2. **Link harvest and canonical links**. The `href`s of the company links are
   filtered, deduplicated and sorted (`Harvest`, using the string order of
   `Lexicographic`). Each URL's canonical link is `url.split('?')[0]` (`Urls`, with a
   model of Python's `str.split`).
3. **Detail collection** (stage two of `scrape_data`). Each harvested URL is visited
   in order, and every page that loads becomes a record. Loading a page (navigation,
   the wait for the `h1` heading, parsing) is a parameter `load: string -> Option<Page>`
   (`Scrape`).
4. **Field extractors** (`get_text`, `get_website_link`, `get_phone`, `get_rating`,
   `get_hours`). The parsed page is a `Page` value with one optional slot per element
   lookup the extractors perform. The extractors are total functions that fall back to
   the sentinels "Не указано" and "Нет рейтинга" (`Extractors`).

A record is modelled as the insertion-ordered dict the scraper builds: a sequence
of key/value pairs whose keys are always `name, address, website, phone, link,
rating, hours`.

Points where the code does something other than its comments or its purpose suggest; the model follows the code:

- The debounce compares counts with `==`. The comment at 2gis.py:60 speaks of new links
  being found, but a round whose count *drops* also resets the counter. The first
  round is compared with 0.
- Deduplication is on the full `href`, query included, although a listing is
  identified by its canonical link. Canonical links are computed only afterwards, so two records can carry the same `link` (`Scrape.LinksMayRepeat`).
- `get_rating` detects a missing value by comparing the value text with "Не указано".
  A value element whose text is literally "Не указано" is therefore treated as missing
  and gives "Нет рейтинга". The model keeps this behaviour.

## Model

| member | source | states |
|---|---|---|
| `Scroll.ScrollToEnd` | 2gis.py:43-69 | Without the panel nothing is scrolled. Otherwise the loop stops at the first round that ends three unchanged rounds in a row, never earlier, so it runs at least 3 rounds. The reported final count is the last count observed. After round j the counter equals the unchanged-streak ending at j. If the observations run out before that, no round settled. |
| `Scroll.StreakMeansUnchanged` | 2gis.py:51-62 | A counter value of at least k means exactly that the last k rounds each saw the count of the round before (0 before the first). Any change, up or down, breaks the streak. |
| `Scroll.ChangePostponesSettling` | 2gis.py:56-62 | After a round whose count changed, up or down, the loop cannot stop during the next two rounds. The earliest stop is three rounds later. |
| `Scroll.NullCycleThenGrowth` | 2gis.py:51-62 | For counts 5, 5, 8, 8, 8, 8, one quiet round followed by growth does not end the loop. It first settles after the sixth round. |
| `Lexicographic.LessTotal` | 2gis.py:91 | Of two different strings, exactly one sorts before the other in code-point order, as Python's string comparison does. |
| `Lexicographic.LessTransitive` | 2gis.py:91 | The string order used by `sorted` is transitive. |
| `Lexicographic.InsertUnique` | 2gis.py:91 | Inserting into a strictly ascending list keeps it strictly ascending and adds exactly the new string to its set of elements. |
| `Lexicographic.SortedUnique` | 2gis.py:91 | Two strictly ascending lists with the same elements are equal. So "sorted list of a set" has exactly one answer. |
| `Lexicographic.ElemsOfDistinct` | 2gis.py:91 | A list without repetitions has as many entries as distinct elements. |
| `Harvest.CompanyUrls` | 2gis.py:90-91 | The harvested list is strictly ascending. Its elements are exactly the distinct hrefs that exist and are non-empty. |
| `Harvest.HarvestWellFormed` | 2gis.py:91 | The harvested list has no duplicates and no empty string, and it is sorted. |
| `Harvest.HarvestIsSortedSet` | 2gis.py:91 | Any ascending, repetition-free listing of the kept hrefs is the harvested list, whatever order the links were found in. |
| `Harvest.HarvestEmpty` | 2gis.py:90-95 | The harvest is empty exactly when no link had a non-empty href. |
| `Urls.Split` | 2gis.py:103 | `str.split` with one separator gives at least one piece. No piece contains the separator, and joining the pieces back gives the input. |
| `Urls.SplitJoin` | 2gis.py:103 | Splitting undoes joining for pieces that do not contain the separator. |
| `Urls.Canonical` | 2gis.py:103 | The canonical link contains no '?'. It is a prefix of the URL that ends where the URL ends or at a '?'. It equals the URL when the URL has no '?'. |
| `Urls.CanonicalUnique` | 2gis.py:103 | Exactly one prefix has those properties, so the canonical link is the text before the first '?'. |
| `Urls.CanonicalIdempotent` | 2gis.py:103 | Canonicalising a canonical link changes nothing. |
| `Extractors.GetText` | 2gis.py:134-140 | Gives the element's text when the element is present, and "Не указано" when it is absent. |
| `Extractors.FirstFound` | 2gis.py:142-160 | A fallback chain gives the first candidate that found something, or the default when none did. |
| `Extractors.GetWebsiteLink` | 2gis.py:142-160 | The website test-id link's href wins whenever it is there. Otherwise the first link href in the "Веб-сайт" block's container is used. Otherwise the result is "Не указано". |
| `Extractors.ExtractorsAreStrategyChains` | 2gis.py:134-175 | Name, address, phone and hours are each one lookup with "Не указано" as fallback. The website is the chain "test id, then title block" with the same fallback. |
| `Extractors.GetPhone` | 2gis.py:163-175 | Gives the bold number text when both the phone link and its bold child are present, and "Не указано" otherwise. |
| `Extractors.GetRating` | 2gis.py:178-203 | Without the container, or without its value child, the result is "Нет рейтинга". With a value and no count child it is "<value> (0 оценок)". With both it is "<value> (<count>)". Both hold unless the value text is itself "Не указано", which also gives "Нет рейтинга". |
| `Extractors.RatingShape` | 2gis.py:178-203 | The rating is never the generic "Не указано". It is either "Нет рейтинга" or the page's value followed by a parenthesised count, where the count comes from the page or is the "0 оценок" default. |
| `Extractors.GetHours` | 2gis.py:205-214 | Gives the status text when it is present, and "Не указано" otherwise. |
| `Scrape.BuildRecord` | 2gis.py:114-122 | A record has exactly the keys name, address, website, phone, link, rating, hours, in that order. Each key holds its extractor's result, and `link` holds the canonical link passed in. |
| `Scrape.CollectDetails` | 2gis.py:101-131 | Records come from exactly the URLs whose page loaded, in harvest order. Each record's link is the canonical form of its URL. A failed URL is skipped and later URLs are still visited. There are at most as many records as URLs. Every record has the fixed keys. |
| `Scrape.CollectedUnique` | 2gis.py:101-131 | The URLs and the outcome of each page load fully determine which records a pass produces. |
| `Scrape.SecondOfThreeFails` | 2gis.py:101-131 | With three URLs where only the second fails to load, the result is exactly two records: the first URL's, then the third's. |
| `Scrape.ScrapeData` | 2gis.py:71-131 | If the list never becomes visible, the result is an empty list. If the panel was found but the observed counts never settle, `scrape_data` has not returned. Once scrolling is over (settled, or no panel), its effect on the page enters only through the hrefs read afterwards. If reading them raises, the error escapes `scrape_data` (no `try` covers lines 90-91). If nothing is harvested, the result is an empty list. Otherwise it is the collection pass over the harvested URLs, and every record has the fixed keys. |
| `Scrape.LinksMayRepeat` | 2gis.py:91-103 | Two hrefs that differ only in their query are both harvested, and both have the same canonical link. |

## Left out

- Browser control is left out: `setup_driver`, `perform_search` and its `urllib.parse.quote` call, `driver.get`, `execute_script` and `driver.quit` are Selenium or library I/O. Their effects enter only as parameters. One parameter says whether the result list became visible. Another says whether the scroll panel was found. A third gives the link counts per round, and a fourth gives the hrefs found after scrolling, or `None` when reading them raised. A last one is the per-URL page loader. The loader is a function of the URL text, so repeated URLs would load alike, whereas the source calls `driver.get` again each time; harvested URLs never repeat, so this does not matter for `scrape_data`.
- The `WebDriverWait` timeouts and the `time.sleep` pauses are wall-clock behaviour and are left out. A wait that times out is a `false` or a `None` input.
- BeautifulSoup and CSS-selector matching belong to a foreign library. Each lookup is an optional slot of `Page`. `get_text(strip=True)` is taken to give text that is already stripped. Since `bs4` elements are always truthy, "element found" means "slot present".
- `Scroll.ScrollToEnd` ends with `Unsettled` when the finite count sequence runs out before three unchanged rounds. On a page that keeps changing, the source would keep scrolling.
- An exception raised inside the scroll loop (2gis.py:68-69) is not modelled. The source reports it and goes on to harvest, as after a missing panel; in the model an unsettled scroll is `StillScrolling`, so the case where an error cuts a changing scroll short is not covered.
- `save_to_csv` and every `print` are file and console I/O and are left out. The one behaviour worth noting is that an empty record list writes no file. The progress `print` at 2gis.py:124 runs inside the per-URL `try` before the `append`; if it raises, a page that loaded is dropped. The loader's `None` stands for that case too.
- `Scrape.ScrapeData` reads each link's href once, while 2gis.py:91 calls `get_attribute('href')` twice per link (in the filter and for the value); both reads are assumed to give the same value. A failure of either read, or of `find_elements` at 2gis.py:90, is the single `None` outcome of the `links` input and is not told apart further.
- `Extractors`: the `try`/`except` blocks of the extractors are folded into the slots. A lookup that raises is a `None` slot, which gives the same sentinel the `except` returns. For example, the fallback website search at 2gis.py:150 raises `IndexError` on a `div` whose `class` attribute is empty, and 2gis.py:158 then returns "Не указано". So no extractor propagates an error.
