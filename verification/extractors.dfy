/** The field extractors of a company's detail page. The parsed page is replaced by
    the outcome of each element lookup the extractors perform: `None` where the
    selector matched nothing or the lookup raised (the fallback website search can
    fail on an element whose `class` attribute is empty, and the extractor then
    gives the sentinel, as when nothing matched), otherwise the element's already-stripped text or the
    parts of it that are read further. */
module Extractors {
  import opened Wrappers

  /** Sentinel for a field whose element is absent. */
  const Unknown: string := "Не указано"
  /** Sentinel for a page without a usable rating. */
  const NoRating: string := "Нет рейтинга"
  /** Review-count text used when the rating block has no review count. */
  const NoReviews: string := "0 оценок"

  /** An `<a>` element, with its `href` attribute when it has one. */
  datatype Anchor = Anchor(href: Option<string>)

  /** The "Веб-сайт" title block of the fallback website lookup: the enclosing
      container it is looked up in, if found, and that container's first link. */
  datatype WebsiteTitle = WebsiteTitle(container: Option<WebsiteContainer>)
  datatype WebsiteContainer = WebsiteContainer(firstLink: Option<Anchor>)

  /** The phone contact link and the text of its bold number child, if any. */
  datatype PhoneLink = PhoneLink(number: Option<string>)

  /** The rating block and the texts of its value and review-count children. */
  datatype RatingBlock = RatingBlock(value: Option<string>, reviews: Option<string>)

  datatype Page = Page(
    heading: Option<string>,             // `h1`
    addressLink: Option<string>,         // `a[data-testid="address-link"]`
    websiteLink: Option<Anchor>,         // `a[data-testid="website-link"]`
    websiteTitle: Option<WebsiteTitle>,  // the div titled "Веб-сайт"
    phoneLink: Option<PhoneLink>,        // `a[data-testid="contacts-phone-link"]`
    rating: Option<RatingBlock>,         // the rating container div
    hours: Option<string>)               // the opening-status div

  /** `get_text`: the element's text, or the sentinel when it is absent. */
  function GetText(element: Option<string>): (text: string)
    ensures element.Some? ==> text == element.value
    ensures element.None? ==> text == Unknown
  {
    if element.Some? then element.value else Unknown
  }

  /** The first of the candidate results that found something, or `default`
      when none did: the fallback-chain policy of the extractors. */
  function FirstFound(candidates: seq<Option<string>>, default: string): (r: string)
    ensures (forall i :: 0 <= i < |candidates| ==> candidates[i].None?) ==> r == default
    ensures forall i :: 0 <= i < |candidates| ==>
      (candidates[i].Some? && (forall j :: 0 <= j < i ==> candidates[j].None?) ==>
        r == candidates[i].value)
    decreases |candidates|
  {
    if |candidates| == 0 then default
    else if candidates[0].Some? then candidates[0].value
    else FirstFound(candidates[1..], default)
  }

  /** Primary website lookup: the href of the website test-id link. */
  function ByTestId(page: Page): Option<string>
  {
    if page.websiteLink.Some? then page.websiteLink.value.href else None
  }

  /** Fallback website lookup: the href of the first link in the container of
      the "Веб-сайт" title block. */
  function ByWebsiteTitle(page: Page): Option<string>
  {
    match page.websiteTitle
    case None => None
    case Some(title) =>
      match title.container
      case None => None
      case Some(container) =>
        if container.firstLink.Some? then container.firstLink.value.href else None
  }

  /** `get_website_link`: the test-id href wins whenever it is there; otherwise
      the fallback block's link; otherwise the sentinel. */
  function GetWebsiteLink(page: Page): (site: string)
    ensures ByTestId(page).Some? ==> site == ByTestId(page).value
    ensures ByTestId(page).None? && ByWebsiteTitle(page).Some? ==> site == ByWebsiteTitle(page).value
    ensures ByTestId(page).None? && ByWebsiteTitle(page).None? ==> site == Unknown
  {
    if page.websiteLink.Some? && page.websiteLink.value.href.Some? then
      page.websiteLink.value.href.value
    else if page.websiteTitle.Some? then
      var container := page.websiteTitle.value.container;
      if container.Some? && container.value.firstLink.Some? && container.value.firstLink.value.href.Some? then
        container.value.firstLink.value.href.value
      else
        Unknown
    else
      Unknown
  }

  /** `get_phone`: the bold number inside the phone link; the sentinel unless both
      the link and its number are there. */
  function GetPhone(page: Page): (phone: string)
    ensures page.phoneLink.Some? && page.phoneLink.value.number.Some? ==>
      phone == page.phoneLink.value.number.value
    ensures page.phoneLink.None? || page.phoneLink.value.number.None? ==> phone == Unknown
  {
    match page.phoneLink
    case None => Unknown
    case Some(link) => if link.number.Some? then link.number.value else Unknown
  }

  /** `get_rating`: "<value> (<review count>)", the count defaulting to "0 оценок";
      "Нет рейтинга" without the block or without a value. A value whose text is
      the "Не указано" sentinel itself cannot be told apart from a missing one and
      also gives "Нет рейтинга". */
  function GetRating(page: Page): (rating: string)
    ensures page.rating.None? ==> rating == NoRating
    ensures page.rating.Some? && page.rating.value.value.None? ==> rating == NoRating
    ensures page.rating.Some? && page.rating.value.value.Some? ==>
      var v := page.rating.value.value.value;
      var c := page.rating.value.reviews.GetOr(NoReviews);
      rating == if v != Unknown then v + " (" + c + ")" else NoRating
  {
    match page.rating
    case None => NoRating
    case Some(block) =>
      var ratingValue := if block.value.Some? then block.value.value else Unknown;
      var reviewCount := if block.reviews.Some? then block.reviews.value else NoReviews;
      if ratingValue != Unknown then ratingValue + " (" + reviewCount + ")" else NoRating
  }

  /** The rating text is either the "no rating" sentinel (never the generic one) or
      a value followed by a parenthesised review count that came from the page or
      is the "0 оценок" default. */
  lemma RatingShape(page: Page)
    ensures GetRating(page) != Unknown
    ensures GetRating(page) == NoRating ||
      (page.rating.Some? && page.rating.value.value.Some? &&
       exists c :: (c == NoReviews || Some(c) == page.rating.value.reviews) &&
         GetRating(page) == page.rating.value.value.value + " (" + c + ")")
  {
    if GetRating(page) != NoRating {
      var c := page.rating.value.reviews.GetOr(NoReviews);
      assert c == NoReviews || Some(c) == page.rating.value.reviews;
    }
    assert Unknown[2] != NoRating[2];
    if page.rating.Some? && page.rating.value.value.Some? {
      var v := page.rating.value.value.value;
      if v != Unknown {
        var c := page.rating.value.reviews.GetOr(NoReviews);
        var r := v + " (" + c + ")";
        assert r[|r| - 1] == ')';
        assert Unknown[|Unknown| - 1] != ')';
      }
    }
  }

  /** `get_hours`: the opening-status text, or the sentinel. */
  function GetHours(page: Page): (hours: string)
    ensures page.hours.Some? ==> hours == page.hours.value
    ensures page.hours.None? ==> hours == Unknown
  {
    GetText(page.hours)
  }

  /** Phone lookup: the number inside the phone link. */
  function ByPhoneLink(page: Page): Option<string>
  {
    if page.phoneLink.Some? then page.phoneLink.value.number else None
  }

  /** Every extractor except the rating one is a fallback chain ending in the
      "Не указано" sentinel: one lookup for name, address, phone and hours, and
      "test id, then title block" for the website. */
  lemma ExtractorsAreStrategyChains(page: Page)
    ensures GetText(page.heading) == FirstFound([page.heading], Unknown)
    ensures GetText(page.addressLink) == FirstFound([page.addressLink], Unknown)
    ensures GetWebsiteLink(page) == FirstFound([ByTestId(page), ByWebsiteTitle(page)], Unknown)
    ensures GetPhone(page) == FirstFound([ByPhoneLink(page)], Unknown)
    ensures GetHours(page) == FirstFound([page.hours], Unknown)
  {
  }
}
