/**
 * The filter panel: the product choices, whose short labels are told apart
 * by an upper-cased code when two products shorten to the same label, and
 * the updates the selects, the date pickers and the reset button make to the
 * filter state. `shortenProductName` and `shortCode` are parameters.
 */
module FilterPanel {
  import opened Wrappers
  import opened Text
  import opened Offers
  import opened Fields
  import opened Filter

  /** How many options shorten to `s`. */
  function Occurrences(options: seq<string>, shorten: string -> string, s: string): nat
    decreases |options|
  {
    if options == [] then 0
    else Occurrences(options[..|options| - 1], shorten, s) + (if shorten(options[|options| - 1]) == s then 1 else 0)
  }

  /** `counts.get(s) || 0`. */
  function CountIn(counts: map<string, nat>, s: string): nat {
    if s in counts then counts[s] else 0
  }

  /** The `counts` loop: one more for the short label of each option. */
  method LabelCounts(options: seq<string>, shorten: string -> string) returns (counts: map<string, nat>)
    ensures forall s :: CountIn(counts, s) == Occurrences(options, shorten, s)
    ensures forall s :: s in counts <==> exists i :: 0 <= i < |options| && shorten(options[i]) == s
  {
    counts := map[];
    for i := 0 to |options|
      invariant forall s :: CountIn(counts, s) == Occurrences(options[..i], shorten, s)
      invariant forall s :: s in counts <==> exists j :: 0 <= j < i && shorten(options[j]) == s
    {
      var s := shorten(options[i]);
      assert options[..i + 1][..i] == options[..i];
      counts := counts[s := CountIn(counts, s) + 1];
      assert forall t :: t in counts <==> (t == s || exists j :: 0 <= j < i && shorten(options[j]) == t);
    }
    assert options[..|options|] == options;
  }

  /** An option of the product select: the raw name as value and the caption shown. */
  datatype Choice = Choice(value: string, caption: string)

  /** The label of product `p`: its short name, with `(CODE)` appended when the short name is shared. */
  function Label(p: string, counts: map<string, nat>, shorten: string -> string, code: string -> string): string {
    var s := shorten(p);
    if CountIn(counts, s) > 1 then s + " (" + Upper(code(p)) + ")" else s
  }

  /** `productOptions.map(...)`: one choice per option, in order. */
  function Choices(options: seq<string>, counts: map<string, nat>, shorten: string -> string,
                   code: string -> string): seq<Choice>
  {
    seq(|options|, i requires 0 <= i < |options| => Choice(options[i], Label(options[i], counts, shorten, code)))
  }

  /** `e.target.value || undefined`: the empty choice means the field is not set. */
  function Selected(v: string): (r: Option<string>)
    ensures r.None? <==> v == []
    ensures r.Some? ==> r.value == v
  {
    if v == [] then None else Some(v)
  }

  function SelectProduct(local: Filters, v: string): Filters { local.(product := Selected(v)) }
  function SelectCountry(local: Filters, v: string): Filters { local.(country := Selected(v)) }
  function SelectCompany(local: Filters, v: string): Filters { local.(company := Selected(v)) }

  /** A date picker change: the picker's value, set or not, replaces the bound. */
  function SetFrom(local: Filters, d: Option<string>): Filters { local.(from := d) }
  function SetTo(local: Filters, d: Option<string>): Filters { local.(to := d) }

  /** `reset`: the empty filter. */
  function Reset(): Filters { Filters(None, None, None, None, None) }

  // --------------------------------------------------------------- properties

  /**
   * One choice per option, in order, valued by the raw name; a product whose
   * short name no other option has is labelled by the short name alone, and
   * one that shares it gets the short name and its upper-cased code.
   */
  lemma ChoiceLabels(options: seq<string>, counts: map<string, nat>, shorten: string -> string,
                     code: string -> string, i: nat)
    requires forall s :: CountIn(counts, s) == Occurrences(options, shorten, s)
    requires i < |options|
    ensures var r := Choices(options, counts, shorten, code);
      |r| == |options| && r[i].value == options[i] &&
      ((forall j :: 0 <= j < |options| && j != i ==> shorten(options[j]) != shorten(options[i])) ==>
         r[i].caption == shorten(options[i])) &&
      ((exists j :: 0 <= j < |options| && j != i && shorten(options[j]) == shorten(options[i])) ==>
         r[i].caption == shorten(options[i]) + " (" + Upper(code(options[i])) + ")")
  {
    if forall j :: 0 <= j < |options| && j != i ==> shorten(options[j]) != shorten(options[i]) {
      UniqueShortName(options, shorten, i);
    } else {
      var j :| 0 <= j < |options| && j != i && shorten(options[j]) == shorten(options[i]);
      if i < j {
        SharedShortName(options, shorten, i, j);
      } else {
        SharedShortName(options, shorten, j, i);
      }
    }
  }

  /** The count of a short name is the number of options that have it: it is at least one for an option's own. */
  lemma {:induction false} OccursOwn(options: seq<string>, shorten: string -> string, i: nat)
    requires i < |options|
    ensures Occurrences(options, shorten, shorten(options[i])) >= 1
    decreases |options|
  {
    var init := options[..|options| - 1];
    if i < |init| {
      assert init[i] == options[i];
      OccursOwn(init, shorten, i);
    }
  }

  /** Two options with the same short name are both told apart by their codes. */
  lemma {:induction false} SharedShortName(options: seq<string>, shorten: string -> string, i: nat, j: nat)
    requires i < j < |options| && shorten(options[i]) == shorten(options[j])
    ensures Occurrences(options, shorten, shorten(options[i])) >= 2
    decreases |options|
  {
    var init := options[..|options| - 1];
    if j < |init| {
      assert init[i] == options[i] && init[j] == options[j];
      SharedShortName(init, shorten, i, j);
    } else {
      assert init[i] == options[i];
      OccursOwn(init, shorten, i);
    }
  }

  /** A short name no other option has occurs once. */
  lemma {:induction false} UniqueShortName(options: seq<string>, shorten: string -> string, i: nat)
    requires i < |options|
    requires forall j :: 0 <= j < |options| && j != i ==> shorten(options[j]) != shorten(options[i])
    ensures Occurrences(options, shorten, shorten(options[i])) == 1
    decreases |options|
  {
    var init := options[..|options| - 1];
    var s := shorten(options[i]);
    if i < |init| {
      assert init[i] == options[i];
      forall j | 0 <= j < |init| && j != i ensures shorten(init[j]) != s {
        assert init[j] == options[j];
      }
      UniqueShortName(init, shorten, i);
    } else {
      NoOccurrence(init, shorten, s);
    }
  }

  lemma {:induction false} NoOccurrence(options: seq<string>, shorten: string -> string, s: string)
    requires forall j :: 0 <= j < |options| ==> shorten(options[j]) != s
    ensures Occurrences(options, shorten, s) == 0
    decreases |options|
  {
    if options != [] {
      NoOccurrence(options[..|options| - 1], shorten, s);
    }
  }

  /** Selecting the empty choice clears the field; selecting a value sets it; the other fields stay. */
  lemma SelectUpdates(local: Filters, v: string)
    ensures SelectProduct(local, "").product.None? && SelectCountry(local, "").country.None? &&
            SelectCompany(local, "").company.None?
    ensures v != [] ==> SelectProduct(local, v).product == Some(v)
    ensures var r := SelectProduct(local, v);
      r.country == local.country && r.company == local.company && r.from == local.from && r.to == local.to
    ensures var r := SelectCountry(local, v);
      r.product == local.product && r.company == local.company && r.from == local.from && r.to == local.to
    ensures var r := SelectCompany(local, v);
      r.product == local.product && r.country == local.country && r.from == local.from && r.to == local.to
  {
  }

  /** A date change replaces only its own bound. */
  lemma DateUpdates(local: Filters, d: Option<string>)
    ensures var r := SetFrom(local, d);
      r.from == d && r.product == local.product && r.country == local.country && r.company == local.company && r.to == local.to
    ensures var r := SetTo(local, d);
      r.to == d && r.product == local.product && r.country == local.country && r.company == local.company && r.from == local.from
  {
  }

  /** After `reset` every offer passes the filter, in its original order. */
  lemma ResetKeepsAll(offers: seq<Offer>)
    ensures FilterOffers(offers, Reset()) == offers
  {
    NoFiltersKeepAll(offers);
  }

  /** Clearing the product select lifts the product condition: any offer matching the rest matches. */
  lemma ClearedProductMatches(local: Filters, o: Offer)
    ensures Matches(SelectProduct(local, ""), o) <==>
      (TextOk(Needle(local.country), LowerField(o, CountryKeys)) &&
       TextOk(Needle(local.company), LowerField(o, CompanyKeys)) &&
       FromOk(local.from, FilterDate(o)) && ToOk(local.to, FilterDate(o)))
  {
  }
}
