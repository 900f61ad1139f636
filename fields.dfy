/**
 * The field parsers of the listing scraper: each turns the text of one part of a listing
 * card into a typed field, or raises.
 */
module Fields {
  import opened PyStr
  import opened Records

  /**
   * What one listing card shows when it is read: each text is the element's `.text`, or the
   * exception that finding the element or reading its text raised (a missing element is an
   * `OtherError`, a card replaced under the reader a `StaleElement`).
   */
  datatype Card = Card(
    areaLine: Outcome<string>,                  // span[data-testid="address-line2"]
    typeLabel: Outcome<string>,                 // class css-11n8uyu
    addressLine: Outcome<string>,               // span[data-testid="address-line1"]
    features: Outcome<seq<Outcome<string>>>,    // the elements of class css-lvv8is, in order
    priceLine: Outcome<string>)                 // p[data-testid="listing-card-price"]

  // ---------------------------------------------------------------- price

  /** Index of the first ASCII digit of `s`, or `|s|`. */
  function FirstDigit(s: string): (k: nat)
    ensures k <= |s|
    ensures k < |s| ==> IsDigit(s[k])
    ensures forall j :: 0 <= j < k ==> !IsDigit(s[j])
  {
    if s == [] || IsDigit(s[0]) then 0 else 1 + FirstDigit(s[1..])
  }

  /** Position `m` lies inside a match ending at `e`: a digit, or a comma with a digit after it. */
  predicate InNumber(s: string, m: int, e: int)
    requires 0 <= m < e <= |s|
  {
    IsDigit(s[m]) || (s[m] == ',' && m + 1 < e && IsDigit(s[m + 1]))
  }

  /**
   * Where the greedy match of `\d+(?:,\d+)*` ends, given that it has reached position `j`
   * just after a digit: digits, and commas that are followed by a digit, are taken.
   */
  function MatchEnd(s: string, j: nat): (e: nat)
    requires 0 < j <= |s| && IsDigit(s[j - 1])
    ensures j <= e <= |s| && IsDigit(s[e - 1])
    ensures forall m :: j <= m < e ==> InNumber(s, m, e)
    ensures !(e < |s| && IsDigit(s[e]))
    ensures !(e + 1 < |s| && s[e] == ',' && IsDigit(s[e + 1]))
    decreases |s| - j
  {
    if j < |s| && IsDigit(s[j]) then MatchEnd(s, j + 1)
    else if j + 1 < |s| && s[j] == ',' && IsDigit(s[j + 1]) then MatchEnd(s, j + 2)
    else j
  }

  /** The text that `re.search(r"\d+(?:,\d+)*", s)` matches, if anything. */
  function PriceToken(s: string): (t: Option<string>)
    ensures t.None? <==> forall i :: 0 <= i < |s| ==> !IsDigit(s[i])
    ensures t.Some? ==> t.value != [] && IsDigit(t.value[0]) && IsDigit(t.value[|t.value| - 1])
    ensures t.Some? ==> forall i :: 0 <= i < |t.value| ==> IsDigit(t.value[i]) || t.value[i] == ','
  {
    var f := FirstDigit(s);
    if f == |s| then None
    else
      var e := MatchEnd(s, f + 1);
      assert forall i :: 0 <= i < e - f ==> s[f..e][i] == s[f + i] && InNumber(s, f + i, e);
      Some(s[f..e])
  }

  /** `filter_digit`: the first number of `s`, with its thousands commas dropped. */
  function FilterDigit(s: string): (r: Option<nat>)
    ensures r.None? <==> forall i :: 0 <= i < |s| ==> !IsDigit(s[i])
  {
    match PriceToken(s)
    case None => None
    case Some(t) =>
      var ds := Remove(t, ',');
      assert forall i :: 0 <= i < |ds| ==> IsDigit(ds[i]) by {
        forall i | 0 <= i < |ds| ensures IsDigit(ds[i]) {
          assert ds[i] in ds && ds[i] != ',';
        }
      }
      Some(DigitsValue(ds))
  }

  /** A number text ending where the pattern cannot go on is matched up to its end. */
  lemma {:induction false} MatchEndOfNumber(s: string, j: nat, e: nat)
    requires 0 < j <= e <= |s| && IsDigit(s[j - 1]) && IsDigit(s[e - 1])
    requires forall m :: j <= m < e ==> InNumber(s, m, e)
    requires !(e < |s| && IsDigit(s[e]))
    requires !(e + 1 < |s| && s[e] == ',' && IsDigit(s[e + 1]))
    ensures MatchEnd(s, j) == e
    decreases e - j
  {
    if j < e {
      if IsDigit(s[j]) {
        MatchEndOfNumber(s, j + 1, e);
      } else {
        assert InNumber(s, j, e);
        MatchEndOfNumber(s, j + 2, e);
      }
    }
  }

  /** A text made of digits and of commas each followed by a digit, starting and ending with a digit. */
  predicate IsNumberText(t: string) {
    t != [] && IsDigit(t[0]) && IsDigit(t[|t| - 1]) && forall m :: 0 <= m < |t| ==> InNumber(t, m, |t|)
  }

  /** How a listing shows an amount: `f"{n:,}"`, the decimal digits grouped by thousands. */
  function Grouped(n: nat): (t: string)
    ensures IsNumberText(t)
  {
    if n < 1000 then
      var d := NatToString(n);
      assert forall m :: 0 <= m < |d| ==> InNumber(d, m, |d|);
      d
    else
      var g, p := Grouped(n / 1000), Pad3(n % 1000);
      var t := g + "," + p;
      assert t[..|g|] == g;
      forall m | 0 <= m < |g| ensures InNumber(t, m, |t|) {
        assert InNumber(g, m, |g|);
      }
      assert t[|g|] == ',' && t[|g| + 1] == p[0];
      assert forall m :: |g| < m < |t| ==> t[m] == p[m - |g| - 1];
      t
  }

  /** Three digits, with leading zeros. */
  function Pad3(r: nat): (p: string)
    requires r < 1000
    ensures |p| == 3 && forall i :: 0 <= i < 3 ==> IsDigit(p[i])
  {
    [DigitChar(r / 100), DigitChar(r / 10 % 10), DigitChar(r % 10)]
  }

  /** One more digit on the right multiplies the value by ten and adds the digit. */
  lemma DigitsValueSnoc(ds: string, c: char)
    requires forall i :: 0 <= i < |ds| ==> IsDigit(ds[i])
    requires IsDigit(c)
    ensures DigitsValue(ds + [c]) == DigitsValue(ds) * 10 + DigitValue(c)
  {
    assert (ds + [c])[..|ds|] == ds;
  }

  /** Three padded digits on the right multiply the value by a thousand and add their value. */
  lemma DigitsValuePad3(ds: string, r: nat)
    requires forall i :: 0 <= i < |ds| ==> IsDigit(ds[i])
    requires r < 1000
    ensures forall i :: 0 <= i < |ds + Pad3(r)| ==> IsDigit((ds + Pad3(r))[i])
    ensures DigitsValue(ds + Pad3(r)) == DigitsValue(ds) * 1000 + r
  {
    var p := Pad3(r);
    DigitsValueSnoc(ds, p[0]);
    DigitsValueSnoc(ds + [p[0]], p[1]);
    DigitsValueSnoc(ds + [p[0]] + [p[1]], p[2]);
    assert ds + p == ds + [p[0]] + [p[1]] + [p[2]];
  }

  /** `replace` works piecewise on a concatenation. */
  lemma {:induction false} RemoveAppend(a: string, b: string, c: char)
    ensures Remove(a + b, c) == Remove(a, c) + Remove(b, c)
  {
    if a != [] {
      assert (a + b)[0] == a[0] && (a + b)[1..] == a[1..] + b;
      RemoveAppend(a[1..], b, c);
      assert Remove(a + b, c) == (if a[0] == c then [] else [a[0]]) + Remove(a[1..] + b, c);
    } else {
      assert a + b == b;
    }
  }

  /** Dropping the commas of a grouped amount leaves digits worth the amount. */
  lemma {:induction false} GroupedDigits(n: nat)
    ensures forall i :: 0 <= i < |Remove(Grouped(n), ',')| ==> IsDigit(Remove(Grouped(n), ',')[i])
    ensures DigitsValue(Remove(Grouped(n), ',')) == n
  {
    if n < 1000 {
      var d := NatToString(n);
      assert ',' !in d by {
        assert forall i :: 0 <= i < |d| ==> d[i] != ',';
      }
      NatToStringRoundTrip(n);
    } else {
      var g, p := Grouped(n / 1000), Pad3(n % 1000);
      GroupedDigits(n / 1000);
      assert ',' !in p by {
        assert forall i :: 0 <= i < |p| ==> p[i] != ',';
      }
      RemoveSeparator(g, p);
      DigitsValuePad3(Remove(g, ','), n % 1000);
    }
  }

  /** Dropping the commas of `g + "," + p`, where `p` has none, keeps `p` whole. */
  lemma RemoveSeparator(g: string, p: string)
    requires ',' !in p
    ensures Remove(g + "," + p, ',') == Remove(g, ',') + p
  {
    RemoveAppend(g + ",", p, ',');
    RemoveAppend(g, ",", ',');
    RemoveComma();
  }

  lemma RemoveComma()
    ensures Remove(",", ',') == []
  {
    assert ","[1..] == [];
  }

  /**
   * `filter_digit` reads back an amount shown with thousands commas, whatever text without
   * digits comes before it and whatever follows that does not continue the number.
   */
  lemma FilterDigitReadsGrouped(prefix: string, n: nat, suffix: string)
    requires forall i :: 0 <= i < |prefix| ==> !IsDigit(prefix[i])
    requires suffix != [] ==> !IsDigit(suffix[0])
    requires |suffix| > 1 ==> !(suffix[0] == ',' && IsDigit(suffix[1]))
    ensures FilterDigit(prefix + Grouped(n) + suffix) == Some(n)
  {
    PriceTokenOfNumber(prefix, Grouped(n), suffix);
    GroupedDigits(n);
  }

  /**
   * `filter_digit` reads back a number written by `str`, whatever text without digits comes
   * before it and whatever follows that does not continue the number.
   */
  lemma FilterDigitReadsNumber(prefix: string, n: nat, suffix: string)
    requires forall i :: 0 <= i < |prefix| ==> !IsDigit(prefix[i])
    requires suffix != [] ==> !IsDigit(suffix[0])
    requires |suffix| > 1 ==> !(suffix[0] == ',' && IsDigit(suffix[1]))
    ensures FilterDigit(prefix + NatToString(n) + suffix) == Some(n)
  {
    var d := NatToString(n);
    assert forall m :: 0 <= m < |d| ==> InNumber(d, m, |d|);
    PriceTokenOfNumber(prefix, d, suffix);
    assert ',' !in d by {
      assert forall i :: 0 <= i < |d| ==> d[i] != ',';
    }
    assert Remove(d, ',') == d;
    NatToStringRoundTrip(n);
  }

  /** A number text between text without digits and text that does not continue it is the match. */
  lemma PriceTokenOfNumber(prefix: string, t: string, suffix: string)
    requires forall i :: 0 <= i < |prefix| ==> !IsDigit(prefix[i])
    requires IsNumberText(t)
    requires suffix != [] ==> !IsDigit(suffix[0])
    requires |suffix| > 1 ==> !(suffix[0] == ',' && IsDigit(suffix[1]))
    ensures PriceToken(prefix + t + suffix) == Some(t)
  {
    var s := prefix + t + suffix;
    FirstDigitAfter(prefix, t + suffix);
    assert s == prefix + (t + suffix);
    var f := |prefix|;
    var e := |prefix| + |t|;
    assert forall m :: f <= m < e ==> s[m] == t[m - f];
    assert forall m :: f <= m < e ==> InNumber(t, m - f, |t|) ==> InNumber(s, m, e);
    assert e < |s| ==> s[e] == suffix[0];
    assert e + 1 < |s| ==> s[e + 1] == suffix[1];
    MatchEndOfNumber(s, f + 1, e);
    assert s[f..e] == t;
  }

  /** The first digit of a text is the first digit after a prefix that has none. */
  lemma {:induction false} FirstDigitAfter(prefix: string, rest: string)
    requires forall i :: 0 <= i < |prefix| ==> !IsDigit(prefix[i])
    requires rest != [] && IsDigit(rest[0])
    ensures FirstDigit(prefix + rest) == |prefix|
  {
    if prefix != [] {
      assert (prefix + rest)[1..] == prefix[1..] + rest;
      FirstDigitAfter(prefix[1..], rest);
    }
  }

  /** `extract_price`: the number in the price text before its first space. */
  function ExtractPrice(listing: Card): (r: Outcome<Option<nat>>)
    ensures listing.priceLine.Raised? <==> r.Raised?
    ensures listing.priceLine.Raised? ==> r == Raised(listing.priceLine.fault)
  {
    match listing.priceLine
    case Raised(f) => Raised(f)
    case Ok(text) => Ok(FilterDigit(SplitOnce(Strip(text), ' ')[0]))
  }

  /** A price text is read only up to its first space: the qualifier after it does not count. */
  lemma PriceIgnoresQualifier(listing: Card, head: string, tail: string)
    requires head != [] && forall i :: 0 <= i < |head| ==> !IsSpace(head[i])
    requires listing.priceLine == Ok(head + " " + tail)
    ensures ExtractPrice(listing) == Ok(FilterDigit(head))
  {
    WordBeforeSpace(head, tail);
  }

  /**
   * A price text without a space inside, such as the "$1,250,000" of a sold listing, is searched
   * whole, whatever whitespace surrounds it.
   */
  lemma PriceWithoutQualifier(listing: Card, lead: string, word: string, trail: string)
    requires forall i :: 0 <= i < |lead| ==> IsSpace(lead[i])
    requires forall i :: 0 <= i < |trail| ==> IsSpace(trail[i])
    requires word != [] && forall i :: 0 <= i < |word| ==> !IsSpace(word[i])
    requires listing.priceLine == Ok(lead + word + trail)
    ensures ExtractPrice(listing) == Ok(FilterDigit(word))
  {
    StripPadded(lead, word, trail);
    assert ' ' !in word by {
      assert forall i :: 0 <= i < |word| ==> word[i] != ' ';
    }
  }

  /** A sold price, read whole. */
  lemma SoldPriceExample(listing: Card)
    requires listing.priceLine == Ok("$1,250,000")
    ensures ExtractPrice(listing) == Ok(Some(1250000))
  {
    SoldWordHasNoSpace();
    PriceWithoutQualifier(listing, "", "$1,250,000", "");
    SoldAmountExample();
  }

  /** "$1,250,000" is one word: it has no whitespace. */
  lemma SoldWordHasNoSpace()
    ensures "$1,250,000" == "" + "$1,250,000" + ""
    ensures forall i :: 0 <= i < |"$1,250,000"| ==> !IsSpace("$1,250,000"[i])
  {
  }

  /** "$1,250,000" holds the amount 1250000. */
  lemma SoldAmountExample()
    ensures FilterDigit("$1,250,000") == Some(1250000)
  {
    GroupedMillionExample();
    assert "$" + Grouped(1250000) + "" == "$1,250,000";
    FilterDigitReadsGrouped("$", 1250000, "");
  }

  /** One million two hundred and fifty thousand is shown as "1,250,000". */
  lemma GroupedMillionExample()
    ensures Grouped(1250000) == "1,250,000"
  {
    assert Pad3(250) == "250" && Pad3(0) == "000";
    assert Grouped(1250) == Grouped(1) + "," + Pad3(250);
    assert Grouped(1250000) == Grouped(1250) + "," + Pad3(0);
  }

  /** Stripping a text that starts with a word and a space, then splitting at the space, gives the word. */
  lemma WordBeforeSpace(head: string, tail: string)
    requires head != [] && forall i :: 0 <= i < |head| ==> !IsSpace(head[i])
    ensures SplitOnce(Strip(head + " " + tail), ' ')[0] == head
  {
    var st := Strip(head + " " + tail);
    StripKeepsWord(head, tail);
    assert ' ' !in head by {
      assert forall i :: 0 <= i < |head| ==> head[i] != ' ';
    }
    if |st| == |head| {
      assert st == head;
    } else {
      assert IndexOf(st, ' ') == |head|;
    }
  }

  /** Stripping a text that starts with a word and a space keeps the word and, if anything follows, the space. */
  lemma StripKeepsWord(head: string, tail: string)
    requires head != [] && !IsSpace(head[0]) && !IsSpace(head[|head| - 1])
    ensures var st := Strip(head + " " + tail);
      |st| >= |head| && st[..|head|] == head && (|st| > |head| ==> st[|head|] == ' ')
  {
    var text := head + " " + tail;
    assert StripLeft(text) == text;
    StripRightDrops(text);
    assert !IsSpace(text[|head| - 1]);
  }

  /** The price a rental card shows most often is read as the weekly amount. */
  lemma WeeklyRentExample(listing: Card)
    requires listing.priceLine == Ok("$2,500 per week")
    ensures ExtractPrice(listing) == Ok(Some(2500))
  {
    DollarWordHasNoSpace();
    PriceIgnoresQualifier(listing, "$2,500", "per week");
    DollarAmountExample();
  }

  /** "$2,500 per week" is the word "$2,500", which has no space, and a qualifier. */
  lemma DollarWordHasNoSpace()
    ensures "$2,500 per week" == "$2,500" + " " + "per week"
    ensures forall i :: 0 <= i < |"$2,500"| ==> !IsSpace("$2,500"[i])
  {
  }

  /** "$2,500" holds the amount 2500. */
  lemma DollarAmountExample()
    ensures FilterDigit("$2,500") == Some(2500)
  {
    GroupedExample();
    assert "$" + Grouped(2500) + "" == "$2,500";
    FilterDigitReadsGrouped("$", 2500, "");
  }

  /** Two thousand five hundred is shown as "2,500". */
  lemma GroupedExample()
    ensures Grouped(2500) == "2,500"
  {
    assert Pad3(500) == "500";
    assert Grouped(2500) == Grouped(2) + "," + Pad3(500);
  }

  /** A price text whose first word has no digit, such as "Price Withheld", gives no price. */
  lemma WithheldPriceExample(listing: Card)
    requires listing.priceLine == Ok("Price Withheld")
    ensures ExtractPrice(listing) == Ok(None)
  {
    PriceWordHasNoDigit();
    PriceIgnoresQualifier(listing, "Price", "Withheld");
  }

  /** "Price Withheld" is the word "Price", which has no digit and no space, and a qualifier. */
  lemma PriceWordHasNoDigit()
    ensures "Price Withheld" == "Price" + " " + "Withheld"
    ensures forall i :: 0 <= i < |"Price"| ==> !IsSpace("Price"[i]) && !IsDigit("Price"[i])
    ensures FilterDigit("Price") == None
  {
  }

  // ---------------------------------------------------------------- property type

  /** `Scraper.PROPERTY_TYPE_MAPPING`. */
  const PropertyTypeMapping: map<char, int> := map['A' := 0, 'S' := 1, 'T' := 2, 'H' := 3, 'C' := 4]

  /** `Scraper.map_property_type`: the type code of a letter, -1 for any other character. */
  function MapPropertyType(code: char): (t: int)
    ensures -1 <= t <= 4
    ensures t == -1 <==> code !in {'A', 'S', 'T', 'H', 'C'}
  {
    if code in PropertyTypeMapping then PropertyTypeMapping[code] else -1
  }

  /** The letter a type code is written with: apartment, studio, townhouse, house, car space. */
  function TypeLetter(t: int): char
    requires 0 <= t <= 4
  {
    "ASTHC"[t]
  }

  /** The mapping is a bijection between its five letters and the codes 0 to 4. */
  lemma MapPropertyTypeRoundTrip(t: int, code: char)
    requires 0 <= t <= 4
    ensures MapPropertyType(TypeLetter(t)) == t
    ensures MapPropertyType(code) == t ==> code == TypeLetter(t)
  {
  }

  /** Index of the first non-whitespace character of `s`, or `|s|`. */
  function FirstVisible(s: string): (k: nat)
    ensures k <= |s|
    ensures k < |s| ==> !IsSpace(s[k])
    ensures forall j :: 0 <= j < k ==> IsSpace(s[j])
  {
    if s == [] || !IsSpace(s[0]) then 0 else 1 + FirstVisible(s[1..])
  }

  /** `extract_property_type`: the first character of the stripped label text before its first "/". */
  function ExtractPropertyType(listing: Card): (r: Outcome<char>)
    ensures listing.typeLabel.Raised? ==> r == Raised(listing.typeLabel.fault)
    ensures listing.typeLabel.Ok? && r.Raised? ==> r.fault == OtherError
  {
    match listing.typeLabel
    case Raised(f) => Raised(f)
    case Ok(text) =>
      var t := Strip(SplitOnce(text, '/')[0]);
      if t == [] then Raised(OtherError) else Ok(t[0])
  }

  /** Stripping on the left drops exactly the whitespace before the first visible character. */
  lemma {:induction false} StripLeftSkips(s: string)
    ensures StripLeft(s) == s[FirstVisible(s)..]
  {
    if s != [] && IsSpace(s[0]) {
      StripLeftSkips(s[1..]);
    }
  }

  /** The first visible character of a prefix is that of the whole text, if it lies in the prefix. */
  lemma {:induction false} FirstVisiblePrefix(s: string, n: nat)
    requires n <= |s|
    ensures FirstVisible(s[..n]) == if FirstVisible(s) < n then FirstVisible(s) else n
  {
    if n > 0 && IsSpace(s[0]) {
      assert s[..n][1..] == s[1..][..n - 1];
      FirstVisiblePrefix(s[1..], n - 1);
    }
  }

  /**
   * The type letter is the first visible character of the label, unless that is "/" or there
   * is none: then the lookup `[0]` on an empty string raises.
   */
  lemma TypeLetterIsFirstVisible(listing: Card)
    requires listing.typeLabel.Ok?
    ensures var text := listing.typeLabel.value;
            var k := FirstVisible(text);
            ExtractPropertyType(listing) == if k < |text| && text[k] != '/' then Ok(text[k]) else Raised(OtherError)
  {
    var text := listing.typeLabel.value;
    var k := FirstVisible(text);
    var slash := IndexOf(text, '/');
    var before := text[..slash];
    assert SplitOnce(text, '/')[0] == before;
    StripLeftSkips(before);
    StripRightDrops(StripLeft(before));
    FirstVisiblePrefix(text, slash);
    assert !IsSpace('/');
    assert k < |text| && text[k] != '/' ==> k < slash;
    assert k < slash ==> StripLeft(before) != [] && StripLeft(before)[0] == text[k];
  }

  // ---------------------------------------------------------------- address

  /** The (unit, street_address) pair `extract_address` returns when it does not fail. */
  datatype Address = Address(unit: string, street: string)

  /** `property_type == 0 or property_type == 2`: apartments and townhouses carry a unit. */
  predicate HasUnit(propertyType: int) {
    propertyType == 0 || propertyType == 2
  }

  /** The address text as `extract_address` prepares it: stripped, commas removed. */
  function CleanAddress(text: string): (p: string)
    ensures ',' !in p
  {
    Remove(Strip(text), ',')
  }

  /**
   * `extract_address`: `None` stands for `(None, None)`, returned when reading the element
   * raises anything at all (a stale card included).
   */
  function ExtractAddress(listing: Card, propertyType: int): (r: Option<Address>)
    ensures r.None? <==> listing.addressLine.Raised?
  {
    match listing.addressLine
    case Raised(_) => None
    case Ok(text) =>
      var processed := CleanAddress(text);
      var parts := SplitOnce(processed, '/');
      if |parts| > 1 then Some(Address(if HasUnit(propertyType) then parts[0] else "N/A", parts[1]))
      else Some(Address("N/A", processed))
  }

  /**
   * A read address has no comma. Without "/" it is the street, with unit "N/A". With "/" the
   * street is what follows the first "/", and the unit what precedes it for apartments and
   * townhouses; every other type has unit "N/A".
   */
  lemma ExtractAddressParts(listing: Card, propertyType: int)
    requires listing.addressLine.Ok?
    ensures var r := ExtractAddress(listing, propertyType);
      var p := CleanAddress(listing.addressLine.value);
      && r.Some? && ',' !in r.value.unit && ',' !in r.value.street
      && ('/' !in p ==> r.value == Address("N/A", p))
      && ('/' in p ==>
            && |r.value.street| < |p|
            && p[|p| - |r.value.street| - 1] == '/'
            && p[|p| - |r.value.street|..] == r.value.street
            && '/' !in p[..|p| - |r.value.street| - 1])
      && ('/' in p && HasUnit(propertyType) ==> r.value.unit + "/" + r.value.street == p)
      && (!HasUnit(propertyType) ==> r.value.unit == "N/A")
  {
    var processed := CleanAddress(listing.addressLine.value);
    if '/' in processed {
      SplitOnceParts(processed, '/');
    }
  }

  /**
   * An address written as unit, "/", street, without commas, is read back as that unit and
   * street for apartments and townhouses; other types keep only the street.
   */
  lemma UnitAddressRoundTrip(listing: Card, propertyType: int, unit: string, street: string)
    requires unit != [] && !IsSpace(unit[0]) && street != [] && !IsSpace(street[|street| - 1])
    requires '/' !in unit && ',' !in unit && ',' !in street
    requires listing.addressLine == Ok(unit + "/" + street)
    ensures ExtractAddress(listing, propertyType)
            == Some(Address(if HasUnit(propertyType) then unit else "N/A", street))
  {
    var text := unit + "/" + street;
    StripUnchanged(text);
    assert ',' !in text;
    SplitOnceAt(unit, '/', street);
  }

  /** An address without "/" or commas is the street address itself, with unit "N/A". */
  lemma StreetAddressRoundTrip(listing: Card, propertyType: int, street: string)
    requires street != [] && !IsSpace(street[0]) && !IsSpace(street[|street| - 1])
    requires '/' !in street && ',' !in street
    requires listing.addressLine == Ok(street)
    ensures ExtractAddress(listing, propertyType) == Some(Address("N/A", street))
  {
    StripUnchanged(street);
  }

  // ---------------------------------------------------------------- features

  /** The starting value of `property_feature`: bedrooms 1, bathrooms 1, parking 0. */
  const FeatureDefaults: seq<int> := [1, 1, 0]

  /**
   * What slot `i` of `property_feature` becomes: the digit the stripped text of feature `i`
   * starts with, the default when it starts with something else, or the exception raised
   * when there is no feature `i`, its text cannot be read or is empty.
   */
  function FeatureSlot(texts: seq<Outcome<string>>, i: nat): (r: Outcome<int>)
    requires i < 3
    ensures r.Ok? ==> 0 <= r.value <= 9
  {
    if i >= |texts| then Raised(OtherError)
    else match texts[i]
      case Raised(f) => Raised(f)
      case Ok(t) =>
        var s := Strip(t);
        if s == [] then Raised(OtherError)
        else if IsDigit(s[0]) then Ok(DigitValue(s[0]))
        else Ok(FeatureDefaults[i])
  }

  /**
   * A slot holds a count 0..9. It raises exactly when feature `i` is missing, unreadable or
   * blank; a read fault is passed on unchanged, anything else is an `OtherError`.
   */
  lemma FeatureSlotShape(texts: seq<Outcome<string>>, i: nat)
    requires i < 3
    ensures var r := FeatureSlot(texts, i);
      && (r.Ok? ==> 0 <= r.value <= 9)
      && (r.Ok? <==> i < |texts| && texts[i].Ok? && Strip(texts[i].value) != [])
      && (i < |texts| && texts[i].Raised? ==> r == Raised(texts[i].fault))
      && (r.Raised? && !(i < |texts| && texts[i].Raised?) ==> r.fault == OtherError)
  {
  }

  /** A feature text that starts with a digit, such as "3 beds", gives that digit. */
  lemma FeatureSlotReadsDigit(texts: seq<Outcome<string>>, i: nat, n: nat, caption: string)
    requires i < 3 && i < |texts| && n <= 9
    requires texts[i] == Ok([DigitChar(n)] + caption)
    ensures FeatureSlot(texts, i) == Ok(n)
  {
    var t := [DigitChar(n)] + caption;
    assert StripLeft(t) == t;
    StripRightDrops(t);
    assert Strip(t) != [];
  }

  /** A feature text whose first visible character is not a digit leaves the slot at its default. */
  lemma FeatureSlotKeepsDefault(texts: seq<Outcome<string>>, i: nat, t: string)
    requires i < 3 && i < |texts| && texts[i] == Ok(t)
    requires FirstVisible(t) < |t| && !IsDigit(t[FirstVisible(t)])
    ensures FeatureSlot(texts, i) == Ok(FeatureDefaults[i])
  {
    StripLeftSkips(t);
    StripRightDrops(StripLeft(t));
    assert StripRight(StripLeft(t)) != [];
  }

  /**
   * The result of `extract_features`: the three slots, or the first exception met while filling
   * them in order.
   */
  function FeaturesOf(listing: Card): (r: Outcome<seq<int>>)
    ensures listing.features.Raised? ==> r == Raised(listing.features.fault)
    ensures r.Ok? ==> |r.value| == 3
  {
    match listing.features
    case Raised(f) => Raised(f)
    case Ok(texts) =>
      var s0, s1, s2 := FeatureSlot(texts, 0), FeatureSlot(texts, 1), FeatureSlot(texts, 2);
      if s0.Raised? then Raised(s0.fault)
      else if s1.Raised? then Raised(s1.fault)
      else if s2.Raised? then Raised(s2.fault)
      else Ok([s0.value, s1.value, s2.value])
  }

  /** The counts are the three slots in order, each a count 0..9. */
  lemma FeaturesOfSlots(listing: Card)
    requires listing.features.Ok?
    ensures var texts, r := listing.features.value, FeaturesOf(listing);
      r.Ok? ==>
        && r.value == [FeatureSlot(texts, 0).value, FeatureSlot(texts, 1).value, FeatureSlot(texts, 2).value]
        && FeatureSlot(texts, 0).Ok? && FeatureSlot(texts, 1).Ok? && FeatureSlot(texts, 2).Ok?
        && forall k :: 0 <= k < 3 ==> 0 <= r.value[k] <= 9
  {
  }

  /**
   * Otherwise the fault is that of the first failing slot, in slot order, and fewer than three
   * features always raise.
   */
  lemma FeaturesOfFirstFault(listing: Card)
    requires listing.features.Ok?
    ensures var texts, r := listing.features.value, FeaturesOf(listing);
      var s0, s1, s2 := FeatureSlot(texts, 0), FeatureSlot(texts, 1), FeatureSlot(texts, 2);
      && (s0.Raised? ==> r == Raised(s0.fault))
      && (s0.Ok? && s1.Raised? ==> r == Raised(s1.fault))
      && (s0.Ok? && s1.Ok? && s2.Raised? ==> r == Raised(s2.fault))
      && (|texts| < 3 ==> r.Raised?)
  {
    if |listing.features.value| < 3 {
      FeatureSlotShape(listing.features.value, 2);
    }
  }

  /** Reading the feature list, or one of its first three features, raised a stale element. */
  predicate FeatureGoesStale(listing: Card) {
    || listing.features == Raised(StaleElement)
    || (listing.features.Ok? &&
        exists k :: 0 <= k < 3 && k < |listing.features.value| && listing.features.value[k] == Raised(StaleElement))
  }

  /** `extract_features` raises a stale element only when one of the reads it makes raised one. */
  lemma FeaturesOfStale(listing: Card)
    ensures FeaturesOf(listing) == Raised(StaleElement) ==> FeatureGoesStale(listing)
  {
    if listing.features.Ok? {
      var texts := listing.features.value;
      FeatureSlotShape(texts, 0);
      FeatureSlotShape(texts, 1);
      FeatureSlotShape(texts, 2);
      FeaturesOfFirstFault(listing);
    }
  }

  /** `extract_features`: fills `property_feature` slot by slot. */
  method ExtractFeatures(listing: Card) returns (r: Outcome<seq<int>>)
    ensures r == FeaturesOf(listing)
  {
    if listing.features.Raised? {
      return Raised(listing.features.fault);
    }
    var texts := listing.features.value;
    var propertyFeature := FeatureDefaults;
    for i := 0 to 3
      invariant |propertyFeature| == 3
      invariant forall j :: 0 <= j < i ==> FeatureSlot(texts, j) == Ok(propertyFeature[j])
    {
      var slot := FeatureSlot(texts, i);
      if slot.Raised? {
        return Raised(slot.fault);
      }
      propertyFeature := propertyFeature[i := slot.value];
    }
    assert propertyFeature == [FeatureSlot(texts, 0).value, FeatureSlot(texts, 1).value, FeatureSlot(texts, 2).value];
    return Ok(propertyFeature);
  }

  // ---------------------------------------------------------------- area

  /** The (area_name, state) pair `extract_area_info` returns. */
  datatype Area = Area(name: string, state: string)

  /**
   * `extract_area_info`: the first two of the three parts of `text.strip().split(" ", 2)`;
   * unpacking fewer than three parts raises.
   */
  function ExtractAreaInfo(listing: Card): (r: Outcome<Area>)
    ensures listing.areaLine.Raised? ==> r == Raised(listing.areaLine.fault)
  {
    match listing.areaLine
    case Raised(f) => Raised(f)
    case Ok(text) =>
      var line := Strip(text);
      var first := SplitOnce(line, ' ');
      if |first| < 2 then Raised(OtherError)
      else
        var second := SplitOnce(first[1], ' ');
        if |second| < 2 then Raised(OtherError)
        else Ok(Area(first[0], second[0]))
  }

  /**
   * A stripped line with fewer than three space-separated parts raises; otherwise the area and
   * the state hold no space and the line starts with the area, a space, the state and a space.
   */
  lemma ExtractAreaInfoParts(listing: Card)
    requires listing.areaLine.Ok?
    ensures var r := ExtractAreaInfo(listing);
      var line := Strip(listing.areaLine.value);
      && (' ' !in line ==> r == Raised(OtherError))
      && (r.Raised? ==> r.fault == OtherError)
      && (r.Ok? ==>
            && ' ' !in r.value.name && ' ' !in r.value.state
            && |r.value.name| + |r.value.state| + 2 <= |line|
            && line[..|r.value.name| + |r.value.state| + 2] == r.value.name + " " + r.value.state + " ")
  {
    var line := Strip(listing.areaLine.value);
    var first := SplitOnce(line, ' ');
    if |first| == 2 && |SplitOnce(first[1], ' ')| == 2 {
      SplitTwice(line, ' ');
    }
  }

  /**
   * Splitting gives back the area and state a line was written with, whatever whitespace
   * surrounds the line.
   */
  lemma AreaInfoRoundTrip(listing: Card, lead: string, name: string, state: string, rest: string, trail: string)
    requires forall i :: 0 <= i < |lead| ==> IsSpace(lead[i])
    requires forall i :: 0 <= i < |trail| ==> IsSpace(trail[i])
    requires ' ' !in name && ' ' !in state
    requires name != [] && !IsSpace(name[0]) && rest != [] && !IsSpace(rest[|rest| - 1])
    requires listing.areaLine == Ok(lead + (name + " " + state + " " + rest) + trail)
    ensures ExtractAreaInfo(listing) == Ok(Area(name, state))
  {
    var line := name + " " + state + " " + rest;
    StripPadded(lead, line, trail);
    assert line == name + [' '] + (state + " " + rest);
    SplitOnceAt(name, ' ', state + " " + rest);
    SplitOnceAt(state, ' ', rest);
  }
}
