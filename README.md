# PropertyValuation — a Dafny model of the scraper, the store and the valuators

PropertyValuation scrapes rental and sold listings from domain.com.au, stores them in two
PostGIS tables and values a property from its nearest comparables. This project models the
deterministic core of that pipeline:

- **Listing field parsers and the scrape loop** (`property/scraper/scraper.py`):
  - `filter_digit`, `extract_price`, `extract_property_type` with `map_property_type`,
    `extract_address`, `extract_features` and `extract_area_info`, over the text of a listing card;
  - the button selection of `click_next_button`;
  - `Scraper.scrape`. It loops over postcodes, pages, listing indices and up to three
    attempts per listing, and filters on state, street, price and coordinates.
- **The ingestion side of the database** (`property/database/database.py`):
  - `store_data_in_postgis`, as a class holding the `rental_properties` and
    `sold_properties` tables as sequences of rows;
  - the column order of `create_tables`;
  - the guard of `query_k_nearest_properties`.
- **The two comparable-sales heuristics** (`property/valuation/valuation.py`):
  - `income_based_valuation`: median weekly rent × 12 / 0.05;
  - `comparison_based_valuation`: median sale price.

The browser, the geocoder and the SQL procedure are abstract functions passed in:

- a `Site` gives the number of listing containers per page, each card's texts (or the fault
  raised while reading it) per attempt, the paginator, and the geocoder;
- the page, listing and retry loops of `scrape` are stated over a `Search`: per page, the
  listing count and whether the next button leads on; per listing and attempt, how the
  attempt ends. `SearchOf` builds the search of a url from a `Site`;
- the store takes the geocoder and the stored procedure `get_k_nearest_properties`;
- the valuators take the comparables source.

Files:

- `pystr.dfy`: the Python `str` builtins the parsers use (`strip`, `split(sep, 1)`,
  `replace`, `lower`, `in`, `int`/`str` on digits).
- `records.dfy`: exceptions as `Outcome`, coordinates, and the listing dictionary.
- `fields.dfy`: the field parsers.
- `scrape.dfy`: the next-button selection and `scrape`.
- `store.dfy`: the tables, `store_data_in_postgis` and `query_k_nearest_properties`.
- `valuation.dfy`: sorting, `np.median` and the two valuators.

Behaviour of the code worth knowing, all of it modelled:

- There is no de-duplication or upsert on insert. Storing a batch twice stores its rows
  twice (`Store.StoringTwiceDuplicates`).
- When the address has a "/", the street address is always the part after it. The part
  before it is kept as the unit only for apartments and townhouses (types 0 and 2).
- The unit is the string `"N/A"` when absent, not a missing value.
- The default `page_limit` of `scrape` is 1 (`property/scraper/scraper.py:203`), while its
  own docstring (`property/scraper/scraper.py:211`) says 10. The model takes the page budget
  as a parameter.

## Model

| member | source | states |
|---|---|---|
| Fields.PriceToken | property/scraper/scraper.py:25 | the `\d+(?:,\d+)*` search finds nothing iff the text has no digit; a match starts and ends with a digit and holds only digits and commas |
| Fields.MatchEnd | property/scraper/scraper.py:25 | the greedy match takes digits and commas followed by a digit, and stops where neither continues |
| Fields.FilterDigit | property/scraper/scraper.py:18-28 | `None` exactly when the text has no digit |
| Fields.FilterDigitReadsGrouped | property/scraper/scraper.py:18-28 | an amount written with thousands commas, after a digit-free prefix, is read back as that amount |
| Fields.FilterDigitReadsNumber | property/scraper/scraper.py:18-28 | an amount written in plain digits, after a digit-free prefix, is read back as that amount |
| Fields.PriceTokenOfNumber | property/scraper/scraper.py:25 | a number text between a digit-free prefix and a suffix that cannot extend it is exactly the match |
| Fields.GroupedDigits | property/scraper/scraper.py:27 | removing the commas of a grouped amount leaves digits whose value is the amount |
| Fields.ExtractPrice | property/scraper/scraper.py:30-39 | reading the price raises exactly when reading the element raises, and then with the element's fault |
| Fields.PriceIgnoresQualifier | property/scraper/scraper.py:38-39 | only the word before the first space is searched for a number |
| Fields.PriceWithoutQualifier | property/scraper/scraper.py:30-39 | a price text that is one word, as a sold price is, is searched whole, whatever whitespace surrounds it |
| Fields.SoldPriceExample | property/scraper/scraper.py:30-39 | the sold price "$1,250,000" gives 1250000 |
| Fields.WeeklyRentExample | property/scraper/scraper.py:22 | "$2,500 per week" gives 2500 |
| Fields.WithheldPriceExample | property/scraper/scraper.py:26-28 | a first word without digits, as in "Price Withheld", gives no price |
| Fields.MapPropertyType | property/scraper/scraper.py:192-200 | the code lies in -1..4 and is -1 exactly for characters outside A, S, T, H, C |
| Fields.MapPropertyTypeRoundTrip | property/scraper/scraper.py:163-169 | the mapping is a bijection between A, S, T, H, C and 0..4 |
| Fields.ExtractPropertyType | property/scraper/scraper.py:41-50 | a failed read raises the same fault; a label that was read but cannot be split raises an `OtherError`, never retried |
| Fields.TypeLetterIsFirstVisible | property/scraper/scraper.py:48-49 | the type letter is the first non-space character of the label when it comes before any "/"; otherwise the read raises |
| Fields.StripLeftSkips | property/scraper/scraper.py:49 | left stripping drops exactly the leading whitespace |
| Fields.FirstVisiblePrefix | property/scraper/scraper.py:49 | the first visible character of the text before "/" is that of the whole text, if it lies before the "/" |
| Fields.CleanAddress | property/scraper/scraper.py:62 | the prepared address holds no comma |
| Fields.ExtractAddress | property/scraper/scraper.py:52-76 | `(None, None)` iff reading the element raises, whatever the fault |
| Fields.ExtractAddressParts | property/scraper/scraper.py:60-74 | the unit and street hold no comma; without "/" the whole prepared text is the street and the unit is "N/A"; with "/" the street is what follows the first "/", and the unit is what precedes it for types 0 and 2 and "N/A" otherwise |
| Fields.UnitAddressRoundTrip | property/scraper/scraper.py:64-74 | "unit/street" is read back as (unit, street) for types 0 and 2 and as ("N/A", street) for the rest |
| Fields.StreetAddressRoundTrip | property/scraper/scraper.py:66-67 | an address without "/" is read back as ("N/A", address) |
| Fields.FeatureSlot | property/scraper/scraper.py:88-91 | slot i of `property_feature` holds a count 0..9 when it is read; `FeatureSlotShape` gives when it raises and with which fault |
| Fields.FeatureSlotShape | property/scraper/scraper.py:88-91 | a slot is a count 0..9; it raises exactly when feature i is missing, unreadable or blank, and a read fault is passed on unchanged |
| Fields.FeatureSlotReadsDigit | property/scraper/scraper.py:89-91 | a feature text starting with digit n sets the slot to n |
| Fields.FeatureSlotKeepsDefault | property/scraper/scraper.py:85-91 | a feature text starting with a non-digit leaves the default 1, 1 or 0 |
| Fields.FeaturesOf | property/scraper/scraper.py:78-93 | a failed read of the feature list raises the same fault; a result holds three counts |
| Fields.FeaturesOfSlots | property/scraper/scraper.py:85-93 | the three counts are the three slots in order, each 0..9 |
| Fields.FeaturesOfFirstFault | property/scraper/scraper.py:85-93 | a failure is the first failing slot's fault, in slot order; fewer than three features always raise |
| Fields.FeaturesOfStale | property/scraper/scraper.py:78-93 | the features raise a stale element only when the list or one of the first three features went stale |
| Fields.ExtractFeatures | property/scraper/scraper.py:85-93 | the slot-filling loop returns the counts or the first fault, as the specification function says |
| Fields.ExtractAreaInfo | property/scraper/scraper.py:95-105 | a failed read is passed on with its fault |
| Fields.ExtractAreaInfoParts | property/scraper/scraper.py:102-105 | a stripped line without a space raises, and every failure on a line that was read is an `OtherError`, never retried; the area and state are space-free and the line starts with "area state " |
| Fields.AreaInfoRoundTrip | property/scraper/scraper.py:102-105 | "area state rest" is read back as (area, state), whatever whitespace surrounds the line |
| Scraping.NextButtonIndex | property/scraper/scraper.py:125-133 | the first button whose readable, lower-cased label contains "next"; no button before it qualifies |
| Scraping.FindNextButton | property/scraper/scraper.py:125-133 | the selection loop, with unreadable labels skipped, finds the first "next" button |
| Scraping.NextPageLoaded | property/scraper/scraper.py:107-151 | True iff the buttons appeared, the first "next" button is displayed and the next page loaded |
| Scraping.ClickNextButton | property/scraper/scraper.py:114-147 | the statements of `click_next_button` return what the specification function says |
| Scraping.OnFault | property/scraper/scraper.py:269-274 | only a stale element leads to another attempt; no fault yields a record |
| Scraping.SearchUrl | property/scraper/scraper.py:217-220 | the rental url carries the postcode and the exclude-taken flag, the sold url the postcode; its partner is `SearchUrlsDistinct` |
| Scraping.SearchUrlsDistinct | property/scraper/scraper.py:216-220 | different postcodes give different search urls, in either mode |
| Scraping.Acceptable | property/scraper/scraper.py:237-267 | what an appended record satisfies: the postcode searched, a street, a price of at least 1, truthy coordinates, counts 0..9 with none for a car space, "N/A" as the unit outside types 0 and 2; `ReadListingFilters` and `ScrapeAcceptable` prove that every record meets it |
| Scraping.ReadListing | property/scraper/scraper.py:237-267 | the body of the retry loop on a found card; `ReadListingFilters` and `ReadListingAccepts` give both directions of acceptance, and `ReadListingRetry` says when it retries |
| Scraping.ReadCounts | property/scraper/scraper.py:246-267 | the loop body once the address is known; `ReadCountsFilters` ties every field of an accepted record to what was read |
| Scraping.ReadListingFilters | property/scraper/scraper.py:237-267 | an accepted record passes every filter, came from a card of the requested state and carries the card's price; a card of another state is skipped |
| Scraping.ReadListingAccepts | property/scraper/scraper.py:237-267 | a card of the requested state whose reads succeed, with a street address, a non-zero price and truthy coordinates, is accepted with the record built from the fields read |
| Scraping.ReadCountsFilters | property/scraper/scraper.py:246-267 | an accepted record passes every filter and is built from the fields read: the street, unit and type, the counts (bedrooms and bathrooms 0 for a car space), the card's price and the geocoded coordinates |
| Scraping.TryListing | property/scraper/scraper.py:235-274 | a card that cannot be found leads to another attempt iff its fault is a stale element |
| Scraping.TryListingFilters | property/scraper/scraper.py:235-267 | an accepted record passes every filter and comes from a found card whose area line names the requested state |
| Scraping.TryListingAgree | property/scraper/scraper.py:235-267 | an attempt depends only on the card found and the geocoder |
| Scraping.ReadListingRetry | property/scraper/scraper.py:237-274 | a read of a found card asks for another attempt only when its area line, type label, features or price went stale |
| Scraping.TryListingRetry | property/scraper/scraper.py:235-274 | another attempt follows only a stale card lookup or a stale read of the card; a stale area line is retried, any other fault on it is skipped |
| Scraping.SearchOf | property/scraper/scraper.py:224-285 | the listing counts, next-button outcomes and attempts that `scrape` sees for one url; `ScrapeAcceptable` and `SitesAgreeBelow` relate it back to the site |
| Scraping.SearchesOf | property/scraper/scraper.py:216-220 | the search of each postcode, at the url built for it; `SearchUrlsDistinct` shows the urls differ by postcode |
| Scraping.ListingFrom | property/scraper/scraper.py:233-275 | the retry loop as a function; `ListingFromAccepted`, `ThreeStaleAttemptsDropListing`, `OtherFaultNotRetried`, `NoStaleReadNotRetried` and `AtMostThreeAttempts` characterise it |
| Scraping.ProcessListing | property/scraper/scraper.py:235-274 | the statements of one attempt give the attempt's outcome |
| Scraping.ListingFromAccepted | property/scraper/scraper.py:233-275 | a listing yields a record only if one of the attempts left, before the fourth, accepted it |
| Scraping.ThreeStaleAttemptsDropListing | property/scraper/scraper.py:234-271 | a listing whose card lookup or area line goes stale on all three attempts yields nothing |
| Scraping.OtherFaultNotRetried | property/scraper/scraper.py:272-274 | on any attempt before the fourth, a fault other than a stale element, from the card lookup or the area line, ends the listing with nothing |
| Scraping.NoStaleReadNotRetried | property/scraper/scraper.py:235-274 | an attempt whose reads do not go stale is the last: the listing yields its record if accepted, else nothing |
| Scraping.StaleAddressNotRetried | property/scraper/scraper.py:243-245 | a stale address element is swallowed by `extract_address`, so the listing is skipped rather than retried |
| Scraping.AtMostThreeAttempts | property/scraper/scraper.py:234 | sites that agree on the first three attempts give the same listing: no fourth attempt is read |
| Scraping.CollectListing | property/scraper/scraper.py:233-275 | the retry loop appends exactly the listing's record, if any, to the page's data |
| Scraping.PageRecords | property/scraper/scraper.py:232-275 | a page yields at most one record per listing index |
| Scraping.PostcodePages | property/scraper/scraper.py:226-285 | no page at or past the budget yields records |
| Scraping.PageRecordsFromAttempts | property/scraper/scraper.py:232-275 | every record of a page was accepted by an attempt, before the fourth, at one of its listings |
| Scraping.PostcodePagesFromAttempts | property/scraper/scraper.py:226-285 | every record of a postcode was accepted by an attempt on one of its pages |
| Scraping.ScrapeAllFromAttempts | property/scraper/scraper.py:215-289 | every record returned was accepted by an attempt in the search of one of the requested postcodes |
| Scraping.ScrapeAcceptable | property/scraper/scraper.py:203-289 | every record `scrape` returns belongs to a requested postcode, passed the street, price, coordinate and count filters, and was accepted from a card of that postcode's search whose area line names the requested state |
| Scraping.Scrape | property/scraper/scraper.py:203-289 | the loop over postcodes returns the per-postcode records concatenated in postcode-list order |
| Scraping.ScrapePostcode | property/scraper/scraper.py:224-285 | the page loop collects the pages within the budget, stopping at a page without listings or a failed next click |
| Scraping.ScrapePage | property/scraper/scraper.py:232-275 | the loop over listing indices appends each index's record in index order |
| Scraping.ScrapeAll | property/scraper/scraper.py:215-289 | the postcode loop as a function; `ScrapeAllAppend`, `ScrapeAllFromAttempts` and `ScrapeAcceptable` characterise it |
| Scraping.ScrapeAllAppend | property/scraper/scraper.py:215-289 | scraping two postcode lists in turn is scraping their concatenation |
| Scraping.NoPageBudgetNoRecords | property/scraper/scraper.py:226 | a page budget below one returns nothing |
| Scraping.LargerBudgetExtends | property/scraper/scraper.py:226-278 | one more page of budget only appends records after those already collected |
| Scraping.PagesPastBudgetUnread | property/scraper/scraper.py:226 | pages at or past the budget are never read: searches that agree below it give the same records |
| Scraping.StopPageEndsSearch | property/scraper/scraper.py:226-285 | a page without listings, or whose next click fails, is the last read: searches that agree up to it give the same records whatever later pages hold |
| Scraping.PageRecordsAgree | property/scraper/scraper.py:232-236 | a page's records depend only on its attempts |
| Scraping.SitesAgreeBelow | property/scraper/scraper.py:226-275 | sites showing the same pages, cards and paginators below the budget, and geocoding alike, give searches that agree below it |
| Store.Columns | property/database/database.py:75-91 | a row has the thirteen columns of the table |
| Store.PriceIsColumnSix | property/database/database.py:76-83 | column 6 is named `price` and holds the row's price |
| Store.HasCoordinates | property/database/database.py:127 | the guard that both coordinates are truthy; `Qualifying` proves a record is kept exactly when it holds |
| Store.MakeRow | property/database/database.py:129-139 | the row of one INSERT carries the given id, and its point is built from the row's own longitude and latitude, in that order, with SRID 4326 |
| Store.InsertFrom | property/database/database.py:120-143 | the inserted rows are numbered consecutively, and there are at most as many as input records |
| Store.Qualifying | property/database/database.py:127 | the records kept for insertion are exactly those with both coordinates: all kept ones have them, and every one that has them is kept |
| Store.QualifyingSplit | property/database/database.py:126-127 | filtering a batch is filtering its front and its back in turn |
| Store.RowsFor | property/database/database.py:129-139 | one row per record |
| Store.RowsForAt | property/database/database.py:129-139 | row k is record k's row, with id `nextId + k` |
| Store.InsertedRowsShape | property/database/database.py:124-138 | every stored row has the batch's date, an empty description, the point (longitude, latitude) with SRID 4326, and non-zero coordinates |
| Store.NoFailureStoresEveryQualifyingRow | property/database/database.py:126-139 | without a failing insert, every record with coordinates is stored once, in input order |
| Store.FailureEndsBatch | property/database/database.py:120-143 | the records after the first failing insert are never stored |
| Store.NoCoordinatesStoresNothing | property/database/database.py:127 | records without coordinates store nothing |
| Store.StoringTwiceDuplicates | property/database/database.py:126-139 | a second store of the same batch appends the same rows again, with ids shifted |
| Store.PropertyStore.constructor | property/database/database.py:75-110 | both tables start empty |
| Store.PropertyStore.InsertRow | property/database/database.py:131-139 | one insert appends the record's row, with the next id, to the chosen table only; ids stay consecutive |
| Store.PropertyStore.StoreData | property/database/database.py:116-143 | a non-zero mode appends to the sold table, zero to the rental table; the other table is unchanged; rows stored before a failure stay; ids stay consecutive |
| Store.PropertyStore.QueryKNearest | property/database/database.py:146-176 | rows iff the address geocodes to two non-zero coordinates and the procedure succeeds; the rows are the procedure's, unchanged, called with longitude before latitude |
| Store.UnresolvedAddressSkipsProcedure | property/database/database.py:155-157 | without coordinates the procedure is not consulted and the result is `None` |
| Valuation.InsertSorted | property/valuation/valuation.py:67 | inserting into a sorted list keeps it sorted and adds exactly the value |
| Valuation.SortValues | property/valuation/valuation.py:67 | the sorted values are a sorted permutation of the input |
| Valuation.SortedUnique | property/valuation/valuation.py:67 | there is only one sorted arrangement of a multiset of values |
| Valuation.Median | property/valuation/valuation.py:67 | `np.median`: the middle sorted value or the mean of the two middle ones; `MedianSplitsSorted`, `MedianBounds` and `MedianOrderIndependent` characterise it |
| Valuation.MedianSplitsSorted | property/valuation/valuation.py:67 | the lower half of the sorted values lies at or below the median, the upper half at or above it |
| Valuation.MiddleBetweenMiddles | property/valuation/valuation.py:67 | the middle of sorted values lies between its two middle values, which coincide for an odd count |
| Valuation.MedianBounds | property/valuation/valuation.py:113 | the median lies between the smallest and the largest value |
| Valuation.MedianOrderIndependent | property/valuation/valuation.py:113 | reordering the values leaves the median unchanged |
| Valuation.PriceOf | property/valuation/valuation.py:65-66 | column 6 of a row is its price |
| Valuation.Prices | property/valuation/valuation.py:66 | one price per row |
| Valuation.PricesAreRowPrices | property/valuation/valuation.py:66 | the i-th price is the i-th row's price |
| Valuation.PricesAppend | property/valuation/valuation.py:66 | the prices of concatenated rows are the concatenated prices |
| Valuation.PricesPermute | property/valuation/valuation.py:66 | reordering the rows reorders the prices |
| Valuation.IncomeRequest | property/valuation/valuation.py:47-59 | the income approach asks for 10 rentals (mode 0) without a price band |
| Valuation.ComparisonRequest | property/valuation/valuation.py:93-105 | the comparison approach asks for 20 sales (mode 1) without a price band |
| Valuation.IncomeBasedValuation | property/valuation/valuation.py:30-74 | a value iff there are at least three comparables; it is 240 × the median rent |
| Valuation.ComparisonBasedValuation | property/valuation/valuation.py:76-115 | a value iff there are at least five comparables; it is the median sale price, and lies between the cheapest and the dearest comparable |
| Valuation.ValuationsIgnoreRowOrder | property/valuation/valuation.py:66-67 | sources that return the same comparables in another order give the same income and comparison valuations |
| Valuation.IncomeIgnoresRowOrder | property/valuation/valuation.py:60-74 | sources that return the same rentals in another order give the same income valuation |
| Valuation.ComparisonIgnoresRowOrder | property/valuation/valuation.py:106-115 | sources that return the same sales in another order give the same comparison valuation |
| Valuation.SameMedianPrice | property/valuation/valuation.py:65-67 | comparables that are a reordering of each other give the same median of the prices |

## Left out

- Selenium plumbing is not modelled: the driver, waits, `find_element(s)`, scrolling,
  clicking and `driver.get`. A card read, a page's listing count and a paginator are answers
  of the abstract `Site`, fixed by url, page, index and attempt.
- The geocoder (`property/utils/geolocation.py`) is an abstract function. Its network lookup
  is out of scope, and only the truthiness of a coordinate matters.
- `get_coordinates` is defined with two parameters but `scrape` calls it with four
  (`property/scraper/scraper.py:252`). As written, that call raises and every listing would
  be abandoned. The model instead passes a four-argument geocoder and leaves the failure out.
- The valuators pass `state=` and `postcode=` to `query_k_nearest_properties`, which takes
  neither. The valuators are modelled over an abstract comparables source, so this mismatch
  is out of scope.
- The stored procedure `get_k_nearest_properties` (loaded from a SQL file) is not part of
  this model. Its filtering, price band and distance ordering are an abstract function of
  the call arguments and the two tables.
- `connect_db`, `create_tables` (beyond its column order), `execute_sql_file` and the PostGIS
  extension are database I/O.
- Store.PropertyStore.StoreData: ids are `|table| + 1`, so a failed insert that consumes a
  SERIAL value (leaving a gap) is not captured.
- Store.PropertyStore.StoreData: the record date is a `today` parameter, since the clock is
  not modelled.
- Valuation.IncomeBasedValuation: prices and `np.median` are exact reals, not floating point,
  and the value is stated as median × 240.
- Valuation.ComparisonBasedValuation: `np.median` of the sale prices is an exact real, not a
  floating-point number (`property/valuation/valuation.py:113`).
- The ML methods of `PropertyValuator` (training and prediction with sklearn, pandas,
  joblib and the file system) are left out.
- `property/utils/postcode.py` (CSV/Excel I/O) is not part of this model.
- `property/main.py` is script wiring, and it calls a `fetch_rentals` that does not exist.
- `str.isdigit`, `str.lower` and `int()` are taken over ASCII only. Unicode digits and case
  mappings beyond ASCII are not modelled. `str.strip` uses Python's whitespace set.
- Printing and logging are left out.
