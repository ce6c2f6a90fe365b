/**
 * The lists of field names the dashboard tries, in order, and the per-offer
 * readings built from them with the pickers and their `||` defaults.
 */
module Fields {
  import opened Wrappers
  import opened Text
  import opened Offers

  const ProductKeys: seq<string> := ["product", "product_type"]
  const CountryKeys: seq<string> := ["country", "origin_country", "offering_country", "destination_country"]
  const CompanyKeys: seq<string> := ["company", "buyer", "seller"]
  const DateKeys: seq<string> := ["date", "published_at", "created_at", "deadline", "closing_date"]
  const SeriesDateKeys: seq<string> := ["date", "published_at", "created_at"]
  const DeadlineKeys: seq<string> := ["deadline", "closing_date"]
  const VolumeKeys: seq<string> := ["tendered_volume", "volume", "qty", "quantity"]
  const BarrelVolumeKeys: seq<string> := ["tendered_volume", "volume", "qty", "quantity", "bbl", "bbls"]
  const KpiVolumeKeys: seq<string> := ["tendered_volume", "awarded_volume", "volume", "qty", "quantity", "bbl", "bbls"]
  const AwardedVolumeKeys: seq<string> := ["awarded_volume", "volume", "qty", "quantity"]
  const PriceKeys: seq<string> := ["tendered_price", "price", "unit_price"]
  const BasinKeys: seq<string> := ["basin", "cuenca", "basin_name"]
  const DeliveryKeys: seq<string> :=
    ["delivery_location", "delivery", "location", "port", "terminal", "destination", "destination_port"]
  const OfferCountryKeys: seq<string> := ["country", "origin_country", "offering_country"]
  const DestinationKeys: seq<string> := ["destination_country", "destination"]
  const TitleKeys: seq<string> := ["title", "name", "product"]
  const ListCountryKeys: seq<string> := ["country", "destination_country", "offering_country"]

  /** `pickString(o, keys) || fallback`. */
  function TextOr(o: Offer, keys: seq<string>, fallback: string): string {
    FirstOf(o, keys, AsText).GetOr(fallback)
  }

  /** `pickNumber(o, keys) || 0`: a missing volume counts as zero. */
  function NumberOrZero(o: Offer, keys: seq<string>): real {
    FirstOf(o, keys, AsNumber).GetOr(0.0)
  }

  /** The volume most views add up. */
  function Volume(o: Offer): real { NumberOrZero(o, VolumeKeys) }

  /** The volume of the basin views, which also read barrel fields. */
  function BarrelVolume(o: Offer): real { NumberOrZero(o, BarrelVolumeKeys) }

  /** The tendered volume of the KPI cards, which also reads `awarded_volume`. */
  function KpiVolume(o: Offer): real { NumberOrZero(o, KpiVolumeKeys) }

  /** The awarded volume of an offer. */
  function AwardedVolume(o: Offer): real { NumberOrZero(o, AwardedVolumeKeys) }

  /** The unit price, when there is one. */
  function Price(o: Offer): Option<real> { FirstOf(o, PriceKeys, AsNumber) }

  /** `pickDateISO(o, ["deadline", "closing_date"]) || ""`. */
  function Deadline(o: Offer): string { FirstOf(o, DeadlineKeys, AsDate).GetOr("") }

  /** An offer without a usable field reads the fallback, trimmed or not as the view says. */
  lemma TextOrFallback(o: Offer, keys: seq<string>, fallback: string)
    ensures FirstOf(o, keys, AsText).None? ==> TextOr(o, keys, fallback) == fallback
    ensures FirstOf(o, keys, AsText).Some? ==> Trim(TextOr(o, keys, fallback)) != []
  {
    FirstOfEarliest(o, keys, AsText);
    if FirstOf(o, keys, AsText).Some? {
      var i :| EarliestAt(o, keys, AsText, i);
    }
  }

  /** The deadline is empty exactly when no deadline field holds a date. */
  lemma DeadlineEmpty(o: Offer)
    ensures Deadline(o) == [] <==> FirstOf(o, DeadlineKeys, AsDate).None?
  {
    PickedDateLength(o, DeadlineKeys);
  }
}
