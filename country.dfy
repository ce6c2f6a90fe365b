/**
 * `byCountry`: for every country, the volume it offers and the volume sent
 * to it. The offering country falls back to "N/A" and the destination to the
 * offering country; the country list is the offering countries followed by
 * the destinations not yet listed; rows are ranked by the sum of the two
 * columns and the twelve largest kept.
 */
module Country {
  import opened Offers
  import opened Fields
  import opened Groups
  import opened Sorting

  /** `pickString(o, ["country", "origin_country", "offering_country"]) || "N/A"`. */
  function OfferCountry(o: Offer): string { TextOr(o, OfferCountryKeys, "N/A") }

  /** `pickString(o, ["destination_country", "destination"]) || offerC`. */
  function DestCountry(o: Offer): string { TextOr(o, DestinationKeys, OfferCountry(o)) }

  datatype CountryItem = CountryItem(country: string, offering: real, destination: real)

  function CountryName(c: CountryItem): string { c.country }

  /** The ranking key: `offering + destination`. */
  function CountryTotal(c: CountryItem): real { c.offering + c.destination }

  /** `map.get(k) || 0`. */
  function Get0(total: map<string, real>, k: string): real {
    if k in total then total[k] else 0.0
  }

  /** One row per listed country, both columns converted. */
  function CountryRows(cs: seq<string>, offer: map<string, real>, dest: map<string, real>,
                       conv: real -> real): seq<CountryItem>
  {
    seq(|cs|, i requires 0 <= i < |cs| => CountryItem(cs[i], conv(Get0(offer, cs[i])), conv(Get0(dest, cs[i]))))
  }

  /** The country list of a pair of totals. */
  function Countries(offer: Sums, dest: Sums): seq<string> {
    Dedupe(offer.keys + dest.keys)
  }

  /** `byCountry` as a value. */
  function CountryView(filtered: seq<Offer>, conv: real -> real): seq<CountryItem> {
    var offer := Group(filtered, OfferCountry, Volume);
    var dest := Group(filtered, DestCountry, Volume);
    Take(SortDesc(CountryRows(Countries(offer, dest), offer.total, dest.total, conv), CountryTotal), 12)
  }

  /** The `byCountry` loop: each offer adds its volume to its offering and to its destination country. */
  method ByCountry(filtered: seq<Offer>, conv: real -> real) returns (items: seq<CountryItem>)
    ensures items == CountryView(filtered, conv)
  {
    var offer := Empty;
    var dest := Empty;
    for i := 0 to |filtered|
      invariant offer == Group(filtered[..i], OfferCountry, Volume)
      invariant dest == Group(filtered[..i], DestCountry, Volume)
    {
      var o := filtered[i];
      var picked := PickString(o, OfferCountryKeys);
      var offerC := picked.GetOr("N/A");
      var pickedDest := PickString(o, DestinationKeys);
      var destC := pickedDest.GetOr(offerC);
      var got := PickNumber(o, VolumeKeys);
      var vol := got.GetOr(0.0);
      offer := AddTo(offer, offerC, vol);
      dest := AddTo(dest, destC, vol);
      assert filtered[..i + 1][..i] == filtered[..i];
    }
    assert filtered[..|filtered|] == filtered;
    var countries := Dedupe(offer.keys + dest.keys);
    items := Take(SortDesc(CountryRows(countries, offer.total, dest.total, conv), CountryTotal), 12);
  }

  // --------------------------------------------------------------- properties

  /** Each country is listed once: it is an offering or a destination country of some offer. */
  lemma CountriesOfOffers(filtered: seq<Offer>, c: string)
    ensures var cs := Countries(Group(filtered, OfferCountry, Volume), Group(filtered, DestCountry, Volume));
      Unique(cs) &&
      (c in cs <==> exists i :: 0 <= i < |filtered| && (OfferCountry(filtered[i]) == c || DestCountry(filtered[i]) == c))
  {
    var offer := Group(filtered, OfferCountry, Volume);
    var dest := Group(filtered, DestCountry, Volume);
    DedupeProps(offer.keys + dest.keys);
    GroupKeys(filtered, OfferCountry, Volume, c);
    GroupKeys(filtered, DestCountry, Volume, c);
  }

  /** The offering countries come first, in the order offers first name them. */
  lemma OfferingCountriesFirst(filtered: seq<Offer>)
    ensures var offer := Group(filtered, OfferCountry, Volume);
      var cs := Countries(offer, Group(filtered, DestCountry, Volume));
      |offer.keys| <= |cs| && cs[..|offer.keys|] == offer.keys
  {
    var offer := Group(filtered, OfferCountry, Volume);
    var dest := Group(filtered, DestCountry, Volume);
    GroupValid(filtered, OfferCountry, Volume);
    DedupeUnique(offer.keys);
    DedupePrefix(offer.keys, dest.keys);
  }

  /** Each column of a row is the converted sum of the volumes offered by, or sent to, that country. */
  lemma CountryRowValues(filtered: seq<Offer>, conv: real -> real, c: string)
    ensures var offer := Group(filtered, OfferCountry, Volume);
      var dest := Group(filtered, DestCountry, Volume);
      Get0(offer.total, c) == BucketSum(filtered, OfferCountry, Volume, c) &&
      Get0(dest.total, c) == BucketSum(filtered, DestCountry, Volume, c)
  {
    var offer := Group(filtered, OfferCountry, Volume);
    var dest := Group(filtered, DestCountry, Volume);
    if c in offer.total {
      GroupTotals(filtered, OfferCountry, Volume, c);
    } else {
      BucketAbsent(filtered, OfferCountry, Volume, c);
    }
    if c in dest.total {
      GroupTotals(filtered, DestCountry, Volume, c);
    } else {
      BucketAbsent(filtered, DestCountry, Volume, c);
    }
  }

  /** Over the whole country list, each column adds up to the total volume of the filtered offers. */
  lemma CountryColumnsTotal(filtered: seq<Offer>)
    ensures var offer := Group(filtered, OfferCountry, Volume);
      var dest := Group(filtered, DestCountry, Volume);
      var cs := Countries(offer, dest);
      SumKeys(cs, offer.total) == SumOf(filtered, Volume) &&
      SumKeys(cs, dest.total) == SumOf(filtered, Volume)
  {
    var offer := Group(filtered, OfferCountry, Volume);
    var dest := Group(filtered, DestCountry, Volume);
    var cs := Countries(offer, dest);
    DedupeProps(offer.keys + dest.keys);
    GroupValid(filtered, OfferCountry, Volume);
    GroupValid(filtered, DestCountry, Volume);
    SumKeysSame(cs, offer.keys, offer.total);
    SumKeysSame(cs, dest.keys, dest.total);
    GroupSumsToTotal(filtered, OfferCountry, Volume);
    GroupSumsToTotal(filtered, DestCountry, Volume);
  }

  /** Twelve rows, or one per country when there are fewer, largest combined volume first; none left out larger than one kept. */
  lemma CountryShape(filtered: seq<Offer>, conv: real -> real)
    ensures var offer := Group(filtered, OfferCountry, Volume);
      var dest := Group(filtered, DestCountry, Volume);
      var rows := CountryRows(Countries(offer, dest), offer.total, dest.total, conv);
      var sorted := SortDesc(rows, CountryTotal);
      var r := CountryView(filtered, conv);
      var n := |Countries(offer, dest)|;
      |r| == (if n <= 12 then n else 12) && NonIncreasing(r, CountryTotal) && DistinctBy(r, CountryName) &&
      (forall x :: x in r ==> x in rows) &&
      (forall i, j :: 0 <= i < |r| <= j < |sorted| ==> CountryTotal(r[i]) >= CountryTotal(sorted[j]))
  {
    var offer := Group(filtered, OfferCountry, Volume);
    var dest := Group(filtered, DestCountry, Volume);
    var cs := Countries(offer, dest);
    DedupeProps(offer.keys + dest.keys);
    var rows := CountryRows(cs, offer.total, dest.total, conv);
    TopRows(rows, CountryTotal, CountryName, 12);
  }

  /** A row shows a country some offer names. */
  lemma CountryRowSource(filtered: seq<Offer>, conv: real -> real, x: CountryItem)
    requires x in CountryView(filtered, conv)
    ensures exists i :: 0 <= i < |filtered| && (OfferCountry(filtered[i]) == x.country || DestCountry(filtered[i]) == x.country)
  {
    CountryShape(filtered, conv);
    var offer := Group(filtered, OfferCountry, Volume);
    var dest := Group(filtered, DestCountry, Volume);
    var cs := Countries(offer, dest);
    var rows := CountryRows(cs, offer.total, dest.total, conv);
    var j :| 0 <= j < |rows| && rows[j] == x;
    assert x.country in cs;
    CountriesOfOffers(filtered, x.country);
  }

  /** A row holds both converted sums of its country. */
  lemma CountryRowTotals(filtered: seq<Offer>, conv: real -> real, x: CountryItem)
    requires x in CountryView(filtered, conv)
    ensures x.offering == conv(BucketSum(filtered, OfferCountry, Volume, x.country))
    ensures x.destination == conv(BucketSum(filtered, DestCountry, Volume, x.country))
  {
    CountryShape(filtered, conv);
    var offer := Group(filtered, OfferCountry, Volume);
    var dest := Group(filtered, DestCountry, Volume);
    var rows := CountryRows(Countries(offer, dest), offer.total, dest.total, conv);
    var j :| 0 <= j < |rows| && rows[j] == x;
    CountryRowValues(filtered, conv, x.country);
  }

  /** An offer without a destination field sends its volume to its own offering country. */
  lemma DestinationDefault(o: Offer)
    requires FirstOf(o, DestinationKeys, AsText).None?
    ensures DestCountry(o) == OfferCountry(o)
  {
    TextOrFallback(o, DestinationKeys, OfferCountry(o));
  }
}
