/**
 * `Scraper.scrape`: for each postcode, read up to `page_limit` result pages, try each listing
 * card up to three times, keep the cards that pass every filter and follow the "next" button.
 * The browser and the geocoder are a `Site`: what each read returns is fixed by the url, the
 * page count, the card index and the attempt number.
 */
module Scraping {
  import opened PyStr
  import opened Records
  import opened Fields

  /** A paginator navigation button: the text of its label element (or the fault reading it), and its visibility. */
  datatype Button = Button(caption: Outcome<string>, displayed: bool)

  /**
   * The paginator of a result page: whether the navigation buttons appeared before the wait
   * expired, the buttons in page order, and whether the next page loaded after the click.
   */
  datatype Paginator = Paginator(present: bool, buttons: seq<Button>, loads: bool)

  /** What the browser and the geocoder answer. */
  datatype Site = Site(
    // how many listing containers the wait on page `page` of `url` found; 0 when the wait timed out or failed
    listings: (string, nat) -> nat,
    // the card at (url, page, index) as found on attempt `attempt`; an index past the end raises
    card: (string, nat, nat, nat) -> Outcome<Card>,
    // the paginator shown on page `page` of `url`
    paginator: (string, nat) -> Paginator,
    // `get_coordinates(street_address, area_name, state, postcode)`
    geocode: (string, string, string, int) -> Coords)

  // ---------------------------------------------------------------- next button

  /** A button whose label can be read and, lower-cased, contains "next". */
  predicate IsNextButton(b: Button) {
    b.caption.Ok? && Contains(Lower(b.caption.value), "next")
  }

  /** The index of the first "next" button, if any. */
  function NextButtonIndex(buttons: seq<Button>): (k: Option<nat>)
    ensures k.Some? ==> k.value < |buttons| && IsNextButton(buttons[k.value])
    ensures forall j :: 0 <= j < |buttons| && (k.None? || j < k.value) ==> !IsNextButton(buttons[j])
  {
    if buttons == [] then None
    else if IsNextButton(buttons[0]) then Some(0)
    else match NextButtonIndex(buttons[1..])
      case None => None
      case Some(k) => Some(k + 1)
  }

  /**
   * Whether `click_next_button` returns True: the buttons appeared, the first "next" button
   * is displayed, and the next page loaded after the click.
   */
  function NextPageLoaded(p: Paginator): (loaded: bool)
    ensures loaded <==>
      && p.present && p.loads
      && exists k :: 0 <= k < |p.buttons| && IsNextButton(p.buttons[k]) && p.buttons[k].displayed
           && forall j :: 0 <= j < k ==> !IsNextButton(p.buttons[j])
  {
    var k := NextButtonIndex(p.buttons);
    p.present && p.buttons != [] && k.Some? && p.buttons[k.value].displayed && p.loads
  }

  /** The selection loop of `click_next_button`: labels that cannot be read are skipped. */
  method FindNextButton(buttons: seq<Button>) returns (next: Option<nat>)
    ensures next == NextButtonIndex(buttons)
  {
    for i := 0 to |buttons|
      invariant forall j :: 0 <= j < i ==> !IsNextButton(buttons[j])
    {
      match buttons[i].caption
      case Raised(_) =>
      case Ok(text) =>
        if Contains(Lower(text), "next") {
          return Some(i);
        }
    }
    return None;
  }

  /** `click_next_button`. */
  method ClickNextButton(p: Paginator) returns (clicked: bool)
    ensures clicked == NextPageLoaded(p)
  {
    if !p.present || p.buttons == [] {
      return false;
    }
    var next := FindNextButton(p.buttons);
    if next.Some? && p.buttons[next.value].displayed {
      return p.loads;
    }
    return false;
  }

  // ---------------------------------------------------------------- one listing

  /** The search url of one postcode. */
  function SearchUrl(postcode: int, isRental: bool, excludeTaken: int): string
  {
    if isRental then RentUrlPrefix + IntToString(postcode) + "&excludedeposittaken=" + IntToString(excludeTaken)
    else SoldUrlPrefix + IntToString(postcode)
  }

  /** Each postcode has its own search url: `scrape` reads a different page for each. */
  lemma SearchUrlsDistinct(p: nat, q: nat, isRental: bool, excludeTaken: int)
    ensures SearchUrl(p, isRental, excludeTaken) == SearchUrl(q, isRental, excludeTaken) ==> p == q
  {
    var a, b := NatToString(p), NatToString(q);
    assert IntToString(p) == a && IntToString(q) == b;
    var x := "&excludedeposittaken=" + IntToString(excludeTaken);
    if isRental {
      var m, e := "&excludedeposittaken=", IntToString(excludeTaken);
      ConcatAssoc(RentUrlPrefix + a, m, e);
      ConcatAssoc(RentUrlPrefix + b, m, e);
      DigitsAfterPrefixAgree(RentUrlPrefix, a, x, b);
    } else {
      assert SoldUrlPrefix + a + [] == SoldUrlPrefix + a;
      assert SoldUrlPrefix + b + [] == SoldUrlPrefix + b;
      DigitsAfterPrefixAgree(SoldUrlPrefix, a, [], b);
    }
    NatToStringRoundTrip(p);
    NatToStringRoundTrip(q);
  }

  const RentUrlPrefix: string := "https://www.domain.com.au/rent/?postcode="
  const SoldUrlPrefix: string := "https://www.domain.com.au/sold-listings/?excludepricewithheld=1&postcode="

  /** How one attempt at a listing ends: a record, a `break` out of the retry loop, or another try. */
  datatype Attempt = Accepted(record: ListingRecord) | Skipped | Retry

  /** The two `except` clauses of the retry loop: a stale element is tried again, anything else gives up. */
  function OnFault(f: Fault): (a: Attempt)
    ensures a.Retry? <==> f == StaleElement
    ensures !a.Accepted?
  {
    if f == StaleElement then Retry else Skipped
  }

  /** What every appended record satisfies. */
  predicate Acceptable(r: ListingRecord, postcode: int) {
    && r.postcode == postcode
    && r.streetAddress != [] && ',' !in r.streetAddress && ',' !in r.unit
    && r.price >= 1
    && Truthy(r.latitude) && Truthy(r.longitude)
    && 0 <= r.bedrooms <= 9 && 0 <= r.bathrooms <= 9 && 0 <= r.parking <= 9
    && -1 <= r.propertyType <= 4
    && (r.propertyType == 4 ==> r.bedrooms == 0 && r.bathrooms == 0)
    && (!HasUnit(r.propertyType) ==> r.unit == "N/A")
    && r.description == ""
  }

  /**
   * The body of the retry loop on a card that was found: the reads in source order, each
   * filter ending the listing, and the record built from the fields read.
   */
  function ReadListing(listing: Card, state: string, postcode: int,
                       geocode: (string, string, string, int) -> Coords): Attempt
  {
    match ExtractAreaInfo(listing)
    case Raised(f) => OnFault(f)
    case Ok(area) =>
      if area.state != state then Skipped
      else match ExtractPropertyType(listing)
      case Raised(f) => OnFault(f)
      case Ok(code) =>
        var propertyType := MapPropertyType(code);
        match ExtractAddress(listing, propertyType)
        case None => Skipped
        case Some(address) =>
          if address.street == [] then Skipped
          else ReadCounts(listing, area, propertyType, address, state, postcode, geocode)
  }

  /**
   * The rest of the loop body once the address is known: the features, the car-space rule,
   * the price filter and the coordinates filter.
   */
  function ReadCounts(listing: Card, area: Area, propertyType: int, address: Address, state: string,
                      postcode: int, geocode: (string, string, string, int) -> Coords): Attempt
  {
    match FeaturesOf(listing)
    case Raised(f) => OnFault(f)
    case Ok(features) =>
      var bedrooms := if propertyType == 4 then 0 else features[0];
      var bathrooms := if propertyType == 4 then 0 else features[1];
      match ExtractPrice(listing)
      case Raised(f) => OnFault(f)
      case Ok(price) =>
        if price.None? || price.value == 0 then Skipped
        else
          var coords := geocode(address.street, area.name, state, postcode);
          if !Truthy(coords.latitude) || !Truthy(coords.longitude) then Skipped
          else
            Accepted(ListingRecord(postcode, address.unit, address.street, bedrooms, bathrooms,
                                   features[2], price.value, propertyType,
                                   coords.latitude, coords.longitude, ""))
  }

  /** The attempt numbered `attempt` at the listing at `index`. */
  function TryListing(site: Site, url: string, page: nat, index: nat, attempt: nat,
                      state: string, postcode: int): (a: Attempt)
    ensures site.card(url, page, index, attempt).Raised? ==>
      (a.Retry? <==> site.card(url, page, index, attempt).fault == StaleElement)
  {
    match site.card(url, page, index, attempt)
    case Raised(f) => OnFault(f)
    case Ok(listing) => ReadListing(listing, state, postcode, site.geocode)
  }

  /** The statements of one attempt, as the loop body runs them. */
  method ProcessListing(site: Site, url: string, page: nat, index: nat, attempt: nat,
                        state: string, postcode: int) returns (a: Attempt)
    ensures a == TryListing(site, url, page, index, attempt, state, postcode)
  {
    var found := site.card(url, page, index, attempt);
    if found.Raised? {
      return OnFault(found.fault);
    }
    var listing := found.value;
    var area := ExtractAreaInfo(listing);
    if area.Raised? {
      return OnFault(area.fault);
    }
    if area.value.state != state {
      return Skipped;
    }
    var code := ExtractPropertyType(listing);
    if code.Raised? {
      return OnFault(code.fault);
    }
    var propertyType := MapPropertyType(code.value);
    var address := ExtractAddress(listing, propertyType);
    if address.None? || address.value.street == [] {
      return Skipped;
    }
    var features := ExtractFeatures(listing);
    if features.Raised? {
      return OnFault(features.fault);
    }
    var bedrooms, bathrooms, parking := features.value[0], features.value[1], features.value[2];
    if propertyType == 4 {
      bedrooms, bathrooms := 0, 0;
    }
    var price := ExtractPrice(listing);
    if price.Raised? {
      return OnFault(price.fault);
    }
    if price.value.None? || price.value.value == 0 {
      return Skipped;
    }
    var coords := site.geocode(address.value.street, area.value.name, state, postcode);
    if !Truthy(coords.latitude) || !Truthy(coords.longitude) {
      return Skipped;
    }
    return Accepted(ListingRecord(postcode, address.value.unit, address.value.street, bedrooms, bathrooms,
                                  parking, price.value.value, propertyType,
                                  coords.latitude, coords.longitude, ""));
  }

  /**
   * A card is accepted only if it passed every filter, was of the requested state and showed
   * the record's price; a card of another state is skipped.
   */
  lemma ReadListingFilters(listing: Card, state: string, postcode: int,
                           geocode: (string, string, string, int) -> Coords)
    ensures var a := ReadListing(listing, state, postcode, geocode);
      && (a.Accepted? ==> Acceptable(a.record, postcode))
      && (a.Accepted? ==> ExtractAreaInfo(listing).Ok? && ExtractAreaInfo(listing).value.state == state)
      && (a.Accepted? ==> ExtractPrice(listing) == Ok(Some(a.record.price)))
      && (ExtractAreaInfo(listing).Ok? && ExtractAreaInfo(listing).value.state != state ==> a == Skipped)
  {
    var area := ExtractAreaInfo(listing);
    var code := ExtractPropertyType(listing);
    if area.Ok? && area.value.state == state && code.Ok? {
      var propertyType := MapPropertyType(code.value);
      var address := ExtractAddress(listing, propertyType);
      if address.Some? && address.value.street != [] {
        ExtractAddressParts(listing, propertyType);
        ReadCountsFilters(listing, area.value, propertyType, address.value, state, postcode, geocode);
      }
    }
  }

  /**
   * Once the address is known, a card is accepted only if it passed the remaining filters; the
   * record keeps the street and type read and the card's price.
   */
  lemma ReadCountsFilters(listing: Card, area: Area, propertyType: int, address: Address, state: string,
                          postcode: int, geocode: (string, string, string, int) -> Coords)
    requires -1 <= propertyType <= 4 && address.street != []
    requires ',' !in address.unit && ',' !in address.street
    requires !HasUnit(propertyType) ==> address.unit == "N/A"
    ensures var a := ReadCounts(listing, area, propertyType, address, state, postcode, geocode);
      && (a.Accepted? ==> Acceptable(a.record, postcode))
      && (a.Accepted? ==> ExtractPrice(listing) == Ok(Some(a.record.price)))
      && (a.Accepted? ==> a.record.streetAddress == address.street && a.record.propertyType == propertyType)
      && (a.Accepted? ==> a.record.unit == address.unit)
      && (a.Accepted? ==>
            && FeaturesOf(listing).Ok?
            && a.record.bedrooms == (if propertyType == 4 then 0 else FeaturesOf(listing).value[0])
            && a.record.bathrooms == (if propertyType == 4 then 0 else FeaturesOf(listing).value[1])
            && a.record.parking == FeaturesOf(listing).value[2])
      && (a.Accepted? ==>
            && a.record.latitude == geocode(address.street, area.name, state, postcode).latitude
            && a.record.longitude == geocode(address.street, area.name, state, postcode).longitude)
  {
    if listing.features.Ok? {
      FeaturesOfSlots(listing);
    }
  }

  /**
   * The converse of the filters: a card of the requested state whose reads all succeed, with a
   * street address, a non-zero price and two truthy coordinates, is accepted, and its record
   * is built from the fields read (no bedrooms or bathrooms for a car space).
   */
  lemma ReadListingAccepts(listing: Card, state: string, postcode: int,
                           geocode: (string, string, string, int) -> Coords)
    requires ExtractAreaInfo(listing).Ok? && ExtractAreaInfo(listing).value.state == state
    requires ExtractPropertyType(listing).Ok?
    requires ExtractAddress(listing, MapPropertyType(ExtractPropertyType(listing).value)).Some?
    requires ExtractAddress(listing, MapPropertyType(ExtractPropertyType(listing).value)).value.street != []
    requires FeaturesOf(listing).Ok?
    requires ExtractPrice(listing).Ok? && ExtractPrice(listing).value.Some? && ExtractPrice(listing).value.value != 0
    requires var address := ExtractAddress(listing, MapPropertyType(ExtractPropertyType(listing).value)).value;
      var c := geocode(address.street, ExtractAreaInfo(listing).value.name, state, postcode);
      Truthy(c.latitude) && Truthy(c.longitude)
    ensures var t := MapPropertyType(ExtractPropertyType(listing).value);
      var address := ExtractAddress(listing, t).value;
      var f := FeaturesOf(listing).value;
      var c := geocode(address.street, ExtractAreaInfo(listing).value.name, state, postcode);
      ReadListing(listing, state, postcode, geocode)
        == Accepted(ListingRecord(postcode, address.unit, address.street,
                                  if t == 4 then 0 else f[0], if t == 4 then 0 else f[1], f[2],
                                  ExtractPrice(listing).value.value, t, c.latitude, c.longitude, ""))
  {
  }

  /** An accepted attempt yields a record that passed every filter. */
  lemma TryListingFilters(site: Site, url: string, page: nat, index: nat, attempt: nat,
                          state: string, postcode: int)
    ensures var a := TryListing(site, url, page, index, attempt, state, postcode);
      var card := site.card(url, page, index, attempt);
      && (a.Accepted? ==> Acceptable(a.record, postcode))
      && (a.Accepted? ==> card.Ok? && ExtractAreaInfo(card.value).Ok? && ExtractAreaInfo(card.value).value.state == state)
  {
    var found := site.card(url, page, index, attempt);
    if found.Ok? {
      ReadListingFilters(found.value, state, postcode, site.geocode);
    }
  }

  /**
   * An address that cannot be read is not retried even when it is stale: `extract_address`
   * swallows the fault, and the missing street address ends the listing.
   */
  lemma StaleAddressNotRetried(listing: Card, state: string, postcode: int,
                               geocode: (string, string, string, int) -> Coords)
    requires ExtractAreaInfo(listing).Ok? && ExtractAreaInfo(listing).value.state == state
    requires ExtractPropertyType(listing).Ok?
    requires listing.addressLine == Raised(StaleElement)
    ensures ReadListing(listing, state, postcode, geocode) == Skipped
  {
  }

  /**
   * One of the reads an attempt makes on a found card raised a stale element: the area line,
   * the type label, the feature list or one of its first three features, or the price line.
   * The address read is not among them, since `extract_address` swallows its faults.
   */
  predicate StaleRead(listing: Card) {
    || listing.areaLine == Raised(StaleElement)
    || listing.typeLabel == Raised(StaleElement)
    || FeatureGoesStale(listing)
    || listing.priceLine == Raised(StaleElement)
  }

  /** A found card is tried again only if one of its reads raised a stale element. */
  lemma ReadListingRetry(listing: Card, state: string, postcode: int,
                         geocode: (string, string, string, int) -> Coords)
    ensures ReadListing(listing, state, postcode, geocode).Retry? ==> StaleRead(listing)
  {
    if listing.areaLine.Ok? {
      ExtractAreaInfoParts(listing);
    }
    FeaturesOfStale(listing);
  }

  /**
   * An attempt is tried again only if the card lookup or one of the reads on the card raised a
   * stale element; the first read raising it, the area line, is enough.
   */
  lemma TryListingRetry(site: Site, url: string, page: nat, index: nat, attempt: nat,
                        state: string, postcode: int)
    ensures var card := site.card(url, page, index, attempt);
      var a := TryListing(site, url, page, index, attempt, state, postcode);
      && (a.Retry? ==> card == Raised(StaleElement) || (card.Ok? && StaleRead(card.value)))
      && (card.Ok? && card.value.areaLine == Raised(StaleElement) ==> a == Retry)
      && (card.Ok? && card.value.areaLine == Raised(OtherError) ==> a == Skipped)
  {
    var card := site.card(url, page, index, attempt);
    if card.Ok? {
      ReadListingRetry(card.value, state, postcode, site.geocode);
    }
  }

  /** An attempt depends only on the card it finds and on the geocoder. */
  lemma TryListingAgree(site: Site, other: Site, url: string, page: nat, index: nat, attempt: nat,
                        state: string, postcode: int)
    requires site.geocode == other.geocode
    requires site.card(url, page, index, attempt) == other.card(url, page, index, attempt)
    ensures TryListing(site, url, page, index, attempt, state, postcode)
            == TryListing(other, url, page, index, attempt, state, postcode)
  {
  }

  // ---------------------------------------------------------------- searches

  /**
   * One search url as the page and retry loops see it: how many listings page `p` shows, whether
   * the next button of page `p` leads on, and how attempt `a` at listing `i` of page `p` ends.
   */
  datatype Search = Search(listings: nat -> nat, leadsOn: nat -> bool, attempt: (nat, nat, nat) -> Attempt)

  /** The search of `url` on a site, for the requested state and postcode. */
  function SearchOf(site: Site, url: string, state: string, postcode: int): Search
  {
    Search((p: nat) => site.listings(url, p),
           (p: nat) => NextPageLoaded(site.paginator(url, p)),
           (p: nat, i: nat, a: nat) => TryListing(site, url, p, i, a, state, postcode))
  }

  /** The search of each postcode, for the url `scrape` builds from it. */
  function SearchesOf(site: Site, state: string, isRental: bool, excludeTaken: int): int -> Search {
    (postcode: int) => SearchOf(site, SearchUrl(postcode, isRental, excludeTaken), state, postcode)
  }

  // ---------------------------------------------------------------- one listing, retried

  /** The retry loop from attempt `attempt` on: at most three attempts, only a stale fault tries again. */
  function ListingFrom(s: Search, page: nat, index: nat, attempt: nat): Option<ListingRecord>
    decreases 3 - attempt
  {
    if attempt >= 3 then None
    else match s.attempt(page, index, attempt)
      case Accepted(record) => Some(record)
      case Skipped => None
      case Retry => ListingFrom(s, page, index, attempt + 1)
  }

  /** A listing yields a record only if one of the attempts left accepted it. */
  lemma {:induction false} ListingFromAccepted(s: Search, page: nat, index: nat, attempt: nat)
    ensures var r := ListingFrom(s, page, index, attempt);
      r.Some? ==> exists a :: attempt <= a < 3 && s.attempt(page, index, a) == Accepted(r.value)
    decreases 3 - attempt
  {
    if attempt < 3 && s.attempt(page, index, attempt).Retry? {
      ListingFromAccepted(s, page, index, attempt + 1);
    }
  }

  /**
   * A listing that goes stale on each of its three attempts, whether the card lookup or the
   * first read on the card raises, is dropped.
   */
  lemma ThreeStaleAttemptsDropListing(site: Site, url: string, page: nat, index: nat,
                                      state: string, postcode: int)
    requires forall a :: 0 <= a < 3 ==>
      || site.card(url, page, index, a) == Raised(StaleElement)
      || (site.card(url, page, index, a).Ok? && site.card(url, page, index, a).value.areaLine == Raised(StaleElement))
    ensures ListingFrom(SearchOf(site, url, state, postcode), page, index, 0) == None
  {
    var s := SearchOf(site, url, state, postcode);
    TryListingRetry(site, url, page, index, 0, state, postcode);
    TryListingRetry(site, url, page, index, 1, state, postcode);
    TryListingRetry(site, url, page, index, 2, state, postcode);
    assert s.attempt(page, index, 0) == Retry;
    assert s.attempt(page, index, 1) == Retry;
    assert s.attempt(page, index, 2) == Retry;
  }

  /**
   * Any fault other than a stale element, on any of the three attempts, ends the listing at once
   * with nothing, whether the card lookup or the first read on the card raises it.
   */
  lemma OtherFaultNotRetried(site: Site, url: string, page: nat, index: nat, attempt: nat,
                             state: string, postcode: int)
    requires attempt < 3
    requires || site.card(url, page, index, attempt) == Raised(OtherError)
             || (site.card(url, page, index, attempt).Ok?
                 && site.card(url, page, index, attempt).value.areaLine == Raised(OtherError))
    ensures ListingFrom(SearchOf(site, url, state, postcode), page, index, attempt) == None
  {
    TryListingRetry(site, url, page, index, attempt, state, postcode);
    assert SearchOf(site, url, state, postcode).attempt(page, index, attempt) == Skipped;
  }

  /**
   * An attempt in which nothing raised a stale element is the last one: the listing is its
   * record if it was accepted and nothing otherwise, whatever later attempts would find.
   */
  lemma NoStaleReadNotRetried(site: Site, url: string, page: nat, index: nat, attempt: nat,
                              state: string, postcode: int)
    requires attempt < 3
    requires site.card(url, page, index, attempt) != Raised(StaleElement)
    requires site.card(url, page, index, attempt).Ok? ==> !StaleRead(site.card(url, page, index, attempt).value)
    ensures var a := TryListing(site, url, page, index, attempt, state, postcode);
      ListingFrom(SearchOf(site, url, state, postcode), page, index, attempt)
      == if a.Accepted? then Some(a.record) else None
  {
    TryListingRetry(site, url, page, index, attempt, state, postcode);
    var s := SearchOf(site, url, state, postcode);
    assert s.attempt(page, index, attempt) == TryListing(site, url, page, index, attempt, state, postcode);
  }

  /** A fourth attempt is never made: searches that agree on the first three attempts give the same listing. */
  lemma {:induction false} AtMostThreeAttempts(s: Search, t: Search, page: nat, index: nat, attempt: nat)
    requires forall a :: attempt <= a < 3 ==> s.attempt(page, index, a) == t.attempt(page, index, a)
    ensures ListingFrom(s, page, index, attempt) == ListingFrom(t, page, index, attempt)
    decreases 3 - attempt
  {
    if attempt < 3 {
      AtMostThreeAttempts(s, t, page, index, attempt + 1);
    }
  }

  /** The retry loop of one listing index, appending the record it yields. */
  method CollectListing(site: Site, url: string, page: nat, index: nat, state: string, postcode: int,
                        data: seq<ListingRecord>) returns (data': seq<ListingRecord>)
    ensures data' == data + OptionToSeq(ListingFrom(SearchOf(site, url, state, postcode), page, index, 0))
  {
    ghost var s := SearchOf(site, url, state, postcode);
    var retry := 0;
    while retry < 3
      invariant 0 <= retry <= 3
      invariant ListingFrom(s, page, index, 0) == ListingFrom(s, page, index, retry)
    {
      var attempt := ProcessListing(site, url, page, index, retry, state, postcode);
      assert attempt == s.attempt(page, index, retry);
      match attempt
      case Accepted(record) =>
        return data + [record];
      case Skipped =>
        return data;
      case Retry =>
        retry := retry + 1;
    }
    return data;
  }

  function OptionToSeq<T>(o: Option<T>): (s: seq<T>)
    ensures o.None? ==> s == []
    ensures o.Some? ==> s == [o.value]
  {
    if o.Some? then [o.value] else []
  }

  // ---------------------------------------------------------------- pages and postcodes

  /** The records of listing indices `0 .. count - 1` of one page, in index order. */
  function PageRecords(s: Search, page: nat, count: nat): (records: seq<ListingRecord>)
    ensures |records| <= count
  {
    if count == 0 then []
    else PageRecords(s, page, count - 1) + OptionToSeq(ListingFrom(s, page, count - 1, 0))
  }

  /**
   * The page loop of one postcode from page count `page` on: a page whose listings do not
   * appear ends it, and so does a next button that is missing, hidden or does not load.
   */
  function PostcodePages(s: Search, page: nat, limit: int): (records: seq<ListingRecord>)
    ensures page >= limit ==> records == []
    decreases limit - page
  {
    if page >= limit || s.listings(page) == 0 then []
    else
      var records := PageRecords(s, page, s.listings(page));
      if s.leadsOn(page) then records + PostcodePages(s, page + 1, limit)
      else records
  }

  /** The result of `scrape`: the records of each postcode's search, in postcode-list order. */
  function ScrapeAll(searches: int -> Search, postcodes: seq<int>, pageLimit: int): seq<ListingRecord>
  {
    if postcodes == [] then []
    else
      var last := postcodes[|postcodes| - 1];
      ScrapeAll(searches, postcodes[..|postcodes| - 1], pageLimit) + PostcodePages(searches(last), 0, pageLimit)
  }

  /** Every record of a page is the record of an accepting attempt at one of its listings. */
  lemma {:induction false} PageRecordsFromAttempts(s: Search, page: nat, count: nat)
    ensures forall r :: r in PageRecords(s, page, count) ==>
      exists i: nat, a: nat :: a < 3 && s.attempt(page, i, a) == Accepted(r)
  {
    if count > 0 {
      PageRecordsFromAttempts(s, page, count - 1);
      var last := ListingFrom(s, page, count - 1, 0);
      ListingFromAccepted(s, page, count - 1, 0);
      if last.Some? {
        assert OptionToSeq(last) == [last.value];
      }
    }
  }

  /** Every record of a postcode is the record of an accepting attempt on one of the pages read. */
  lemma {:induction false} PostcodePagesFromAttempts(s: Search, page: nat, limit: int)
    ensures forall r :: r in PostcodePages(s, page, limit) ==>
      exists p: nat, i: nat, a: nat :: a < 3 && s.attempt(p, i, a) == Accepted(r)
    decreases limit - page
  {
    if page < limit && s.listings(page) != 0 {
      PageRecordsFromAttempts(s, page, s.listings(page));
      if s.leadsOn(page) {
        PostcodePagesFromAttempts(s, page + 1, limit);
      }
    }
  }

  /** Every record of the scrape is the record of an accepting attempt in the search of one of the postcodes. */
  lemma {:induction false} ScrapeAllFromAttempts(searches: int -> Search, postcodes: seq<int>, pageLimit: int)
    ensures forall r :: r in ScrapeAll(searches, postcodes, pageLimit) ==>
      exists k, p: nat, i: nat, a: nat :: 0 <= k < |postcodes| && a < 3
        && searches(postcodes[k]).attempt(p, i, a) == Accepted(r)
  {
    if postcodes != [] {
      var front := postcodes[..|postcodes| - 1];
      ScrapeAllFromAttempts(searches, front, pageLimit);
      PostcodePagesFromAttempts(searches(postcodes[|postcodes| - 1]), 0, pageLimit);
      assert forall k :: 0 <= k < |front| ==> front[k] == postcodes[k];
    }
  }

  /**
   * Attempt `a` at listing `i` of page `p` found a card whose area line names the requested
   * state, and accepted `r` from it.
   */
  ghost predicate AcceptedFromCard(site: Site, url: string, p: nat, i: nat, a: nat, state: string, r: ListingRecord) {
    && a < 3
    && site.card(url, p, i, a).Ok?
    && ExtractAreaInfo(site.card(url, p, i, a).value).Ok?
    && ExtractAreaInfo(site.card(url, p, i, a).value).value.state == state
    && TryListing(site, url, p, i, a, state, r.postcode) == Accepted(r)
  }

  /**
   * Every record `scrape` returns comes from one of the requested postcodes, passed all
   * filters (street address, price, coordinates, car-space counts), and was accepted from a
   * card of the requested state in that postcode's search.
   */
  lemma ScrapeAcceptable(site: Site, state: string, postcodes: seq<int>, isRental: bool,
                         excludeTaken: int, pageLimit: int)
    ensures forall r :: r in ScrapeAll(SearchesOf(site, state, isRental, excludeTaken), postcodes, pageLimit) ==>
      && r.postcode in postcodes && Acceptable(r, r.postcode)
      && exists p: nat, i: nat, a: nat ::
           AcceptedFromCard(site, SearchUrl(r.postcode, isRental, excludeTaken), p, i, a, state, r)
  {
    var searches := SearchesOf(site, state, isRental, excludeTaken);
    ScrapeAllFromAttempts(searches, postcodes, pageLimit);
    forall r | r in ScrapeAll(searches, postcodes, pageLimit)
      ensures && r.postcode in postcodes && Acceptable(r, r.postcode)
              && exists p: nat, i: nat, a: nat ::
                   AcceptedFromCard(site, SearchUrl(r.postcode, isRental, excludeTaken), p, i, a, state, r)
    {
      var k, p: nat, i: nat, a: nat :| 0 <= k < |postcodes| && a < 3
        && searches(postcodes[k]).attempt(p, i, a) == Accepted(r);
      var postcode := postcodes[k];
      var url := SearchUrl(postcode, isRental, excludeTaken);
      assert TryListing(site, url, p, i, a, state, postcode) == Accepted(r);
      TryListingFilters(site, url, p, i, a, state, postcode);
      assert r.postcode == postcode;
      assert AcceptedFromCard(site, url, p, i, a, state, r);
    }
  }

  /** `Scraper.scrape`, with the default arguments `is_exclude_taken = 1` and `page_limit = 1` left to the caller. */
  method Scrape(site: Site, state: string, postcodes: seq<int>, isRental: bool, excludeTaken: int,
                pageLimit: int) returns (res: seq<ListingRecord>)
    ensures res == ScrapeAll(SearchesOf(site, state, isRental, excludeTaken), postcodes, pageLimit)
  {
    ghost var searches := SearchesOf(site, state, isRental, excludeTaken);
    res := [];
    for n := 0 to |postcodes|
      invariant res == ScrapeAll(searches, postcodes[..n], pageLimit)
    {
      var postcode := postcodes[n];
      var url := SearchUrl(postcode, isRental, excludeTaken);
      var rentalData := ScrapePostcode(site, url, state, postcode, pageLimit);
      assert searches(postcode) == SearchOf(site, url, state, postcode);
      assert postcodes[..n + 1][..n] == postcodes[..n];
      res := res + rentalData;
    }
    assert postcodes[..|postcodes|] == postcodes;
  }

  /** The page loop of `scrape` for one postcode. */
  method ScrapePostcode(site: Site, url: string, state: string, postcode: int, pageLimit: int)
    returns (rentalData: seq<ListingRecord>)
    ensures rentalData == PostcodePages(SearchOf(site, url, state, postcode), 0, pageLimit)
  {
    ghost var s := SearchOf(site, url, state, postcode);
    rentalData := [];
    var pageCount: nat := 0;
    while pageCount < pageLimit
      invariant PostcodePages(s, 0, pageLimit) == rentalData + PostcodePages(s, pageCount, pageLimit)
      decreases pageLimit - pageCount
    {
      var count := site.listings(url, pageCount);
      if count == 0 {
        assert rentalData == PostcodePages(s, 0, pageLimit);
        break;
      }
      ghost var rest := PostcodePages(s, pageCount, pageLimit);
      ghost var records := PageRecords(s, pageCount, count);
      ghost var earlier := rentalData;
      rentalData := ScrapePage(site, url, pageCount, count, state, postcode, rentalData);
      pageCount := pageCount + 1;
      var clicked := ClickNextButton(site.paginator(url, pageCount - 1));
      if !clicked {
        assert rest == records;
        assert rentalData == PostcodePages(s, 0, pageLimit);
        break;
      }
      ghost var later := PostcodePages(s, pageCount, pageLimit);
      assert rest == records + later;
      ConcatAssoc(earlier, records, later);
    }
  }

  /** The loop over the listing indices of one page, appending each listing's record. */
  method ScrapePage(site: Site, url: string, page: nat, count: nat, state: string, postcode: int,
                    data: seq<ListingRecord>) returns (data': seq<ListingRecord>)
    ensures data' == data + PageRecords(SearchOf(site, url, state, postcode), page, count)
  {
    ghost var s := SearchOf(site, url, state, postcode);
    data' := data;
    for i := 0 to count
      invariant data' == data + PageRecords(s, page, i)
    {
      data' := CollectListing(site, url, page, i, state, postcode, data');
      assert PageRecords(s, page, i + 1) == PageRecords(s, page, i) + OptionToSeq(ListingFrom(s, page, i, 0));
    }
  }

  /** `scrape` on two lists of postcodes one after the other gives the two results one after the other. */
  lemma {:induction false} ScrapeAllAppend(searches: int -> Search, first: seq<int>, second: seq<int>,
                                           pageLimit: int)
    ensures ScrapeAll(searches, first + second, pageLimit)
            == ScrapeAll(searches, first, pageLimit) + ScrapeAll(searches, second, pageLimit)
    decreases |second|
  {
    if second == [] {
      assert first + second == first;
    } else {
      var front := second[..|second| - 1];
      assert (first + second)[..|first + second| - 1] == first + front;
      ScrapeAllAppend(searches, first, front, pageLimit);
      ConcatAssoc(ScrapeAll(searches, first, pageLimit), ScrapeAll(searches, front, pageLimit),
                  PostcodePages(searches(second[|second| - 1]), 0, pageLimit));
    }
  }

  /** With a page budget below one, no page is read and nothing is returned. */
  lemma {:induction false} NoPageBudgetNoRecords(searches: int -> Search, postcodes: seq<int>, pageLimit: int)
    requires pageLimit <= 0
    ensures ScrapeAll(searches, postcodes, pageLimit) == []
  {
    if postcodes != [] {
      NoPageBudgetNoRecords(searches, postcodes[..|postcodes| - 1], pageLimit);
    }
  }

  /** Raising the page budget by one only adds records after those already collected. */
  lemma {:induction false} LargerBudgetExtends(s: Search, page: nat, limit: int)
    ensures PostcodePages(s, page, limit) <= PostcodePages(s, page, limit + 1)
    decreases limit - page
  {
    if page < limit && s.listings(page) != 0 && s.leadsOn(page) {
      LargerBudgetExtends(s, page + 1, limit);
    }
  }

  /** Two searches that show the same pages below page count `limit`. */
  ghost predicate SameBelow(s: Search, t: Search, limit: int) {
    && (forall p: nat :: p < limit ==> s.listings(p) == t.listings(p))
    && (forall p: nat :: p < limit ==> s.leadsOn(p) == t.leadsOn(p))
    && (forall p: nat, i: nat, a: nat :: p < limit ==> s.attempt(p, i, a) == t.attempt(p, i, a))
  }

  /** Pages at or past the budget are never read: searches that differ only there give the same records. */
  lemma {:induction false} PagesPastBudgetUnread(s: Search, t: Search, page: nat, limit: int)
    requires SameBelow(s, t, limit)
    ensures PostcodePages(s, page, limit) == PostcodePages(t, page, limit)
    decreases limit - page
  {
    if page < limit && s.listings(page) != 0 {
      PageRecordsAgree(s, t, page, s.listings(page));
      PagesPastBudgetUnread(s, t, page + 1, limit);
    }
  }

  /**
   * A page whose listings do not appear, or whose next button does not lead on, is the last one
   * read: searches that agree up to it give the same records, whatever later pages hold.
   */
  lemma {:induction false} StopPageEndsSearch(s: Search, t: Search, page: nat, stop: nat, limit: int)
    requires page <= stop && SameBelow(s, t, stop + 1)
    requires s.listings(stop) == 0 || !s.leadsOn(stop)
    ensures PostcodePages(s, page, limit) == PostcodePages(t, page, limit)
    decreases stop - page
  {
    if page < limit && s.listings(page) != 0 {
      PageRecordsAgree(s, t, page, s.listings(page));
      if page < stop {
        StopPageEndsSearch(s, t, page + 1, stop, limit);
      }
    }
  }

  /** Searches whose attempts on a page agree give the same records for it. */
  lemma {:induction false} PageRecordsAgree(s: Search, t: Search, page: nat, count: nat)
    requires forall i: nat, a: nat :: s.attempt(page, i, a) == t.attempt(page, i, a)
    ensures PageRecords(s, page, count) == PageRecords(t, page, count)
  {
    if count > 0 {
      PageRecordsAgree(s, t, page, count - 1);
      AtMostThreeAttempts(s, t, page, count - 1, 0);
    }
  }

  /** Two sites that show the same pages of `url` below page count `limit`, and geocode alike. */
  ghost predicate AgreeBelow(site: Site, other: Site, url: string, limit: int) {
    && site.geocode == other.geocode
    && (forall p: nat :: p < limit ==> site.listings(url, p) == other.listings(url, p))
    && (forall p: nat :: p < limit ==> site.paginator(url, p) == other.paginator(url, p))
    && (forall p: nat, i: nat, a: nat :: p < limit ==> site.card(url, p, i, a) == other.card(url, p, i, a))
  }

  /** Sites that agree below the budget give searches that agree below it. */
  lemma SitesAgreeBelow(site: Site, other: Site, url: string, limit: int, state: string, postcode: int)
    requires AgreeBelow(site, other, url, limit)
    ensures SameBelow(SearchOf(site, url, state, postcode), SearchOf(other, url, state, postcode), limit)
  {
    var s, t := SearchOf(site, url, state, postcode), SearchOf(other, url, state, postcode);
    forall p: nat, i: nat, a: nat | p < limit
      ensures s.attempt(p, i, a) == t.attempt(p, i, a)
    {
      TryListingAgree(site, other, url, p, i, a, state, postcode);
    }
  }
}
