/**
 * The dashboard filter: case-insensitive substring matches on product,
 * country and company, and lexicographic bounds on the offer's date.
 */
module Filter {
  import opened Wrappers
  import opened Text
  import opened Offers
  import opened Fields

  /** The filter state; `None` is a field the user has not set. */
  datatype Filters = Filters(
    product: Option<string>,
    country: Option<string>,
    company: Option<string>,
    from: Option<string>,
    to: Option<string>)

  /** The filter with nothing set. */
  const NoFilters := Filters(None, None, None, None, None)

  /** The filter text as compared: lower-cased and then trimmed; "" when unset. */
  function Needle(f: Option<string>): string {
    match f
    case None => ""
    case Some(p) => Trim(Lower(p))
  }

  /** An empty needle lets everything through; otherwise it must occur in the text. */
  predicate TextOk(needle: string, text: string) {
    needle == [] || Contains(text, needle)
  }

  /** A picked string lower-cased, "" when absent. */
  function LowerField(o: Offer, keys: seq<string>): string {
    Lower(FirstOf(o, keys, AsText).GetOr(""))
  }

  /** The offer's date for filtering, "" when it has none. */
  function FilterDate(o: Offer): string {
    FirstOf(o, DateKeys, AsDate).GetOr("")
  }

  /** `!from || (dateISO && dateISO >= from)`. */
  predicate FromOk(from: Option<string>, d: string) {
    from.None? || from.value == [] || (d != [] && !Less(d, from.value))
  }

  /** `!to || (dateISO && dateISO <= to)`. */
  predicate ToOk(to: Option<string>, d: string) {
    to.None? || to.value == [] || (d != [] && !Less(to.value, d))
  }

  /** The predicate passed to `offers.filter`. */
  predicate Matches(f: Filters, o: Offer) {
    TextOk(Needle(f.product), LowerField(o, ProductKeys)) &&
    TextOk(Needle(f.country), LowerField(o, CountryKeys)) &&
    TextOk(Needle(f.company), LowerField(o, CompanyKeys)) &&
    FromOk(f.from, FilterDate(o)) &&
    ToOk(f.to, FilterDate(o))
  }

  /** `offers.filter(keep)`. */
  function Select(offers: seq<Offer>, keep: Offer -> bool): seq<Offer>
    decreases |offers|
  {
    if offers == [] then []
    else (if keep(offers[0]) then [offers[0]] else []) + Select(offers[1..], keep)
  }

  function Matcher(f: Filters): Offer -> bool {
    (o: Offer) => Matches(f, o)
  }

  /** `filtered`: the offers that match, in their original order. */
  function FilterOffers(offers: seq<Offer>, f: Filters): seq<Offer> {
    Select(offers, Matcher(f))
  }

  /** `idx` is a strictly increasing list of positions of `ys` that spell out `xs`. */
  ghost predicate Embedding<T>(xs: seq<T>, ys: seq<T>, idx: seq<int>) {
    |idx| == |xs| &&
    (forall k :: 0 <= k < |idx| ==> 0 <= idx[k] < |ys| && xs[k] == ys[idx[k]]) &&
    (forall k, l :: 0 <= k < l < |idx| ==> idx[k] < idx[l])
  }

  /** Every position moved one place to the right. */
  ghost function Shift(idx: seq<int>): (r: seq<int>)
    ensures |r| == |idx| && forall k :: 0 <= k < |idx| ==> r[k] == idx[k] + 1
  {
    seq(|idx|, k requires 0 <= k < |idx| => idx[k] + 1)
  }

  /** The positions of `offers` whose offer matches, in increasing order. */
  ghost function Positions(offers: seq<Offer>, f: Filters): seq<int>
    decreases |offers|
  {
    if offers == [] then []
    else (if Matches(f, offers[0]) then [0] else []) + Shift(Positions(offers[1..], f))
  }

  lemma ShiftEmbedding<T>(xs: seq<T>, ys: seq<T>, idx: seq<int>)
    requires ys != [] && Embedding(xs, ys[1..], idx)
    ensures Embedding(xs, ys, Shift(idx))
    ensures Embedding([ys[0]] + xs, ys, [0] + Shift(idx))
  {
    var s := Shift(idx);
    assert forall k :: 0 <= k < |s| ==> ys[s[k]] == ys[1..][idx[k]];
  }

  lemma ShiftMembers(idx: seq<int>, i: int)
    requires forall k :: 0 <= k < |idx| ==> idx[k] >= 0
    ensures i in Shift(idx) <==> i >= 1 && i - 1 in idx
  {
    var s := Shift(idx);
    if i in s {
      var k :| 0 <= k < |s| && s[k] == i;
      assert idx[k] == i - 1;
    }
    if i >= 1 && i - 1 in idx {
      var k :| 0 <= k < |idx| && idx[k] == i - 1;
      assert s[k] == i;
    }
  }

  /**
   * `filtered` is the subsequence of `offers` at exactly the positions whose
   * offer matches: order is kept, and no matching offer is dropped.
   */
  lemma {:induction false} FilterPositions(offers: seq<Offer>, f: Filters)
    ensures Embedding(FilterOffers(offers, f), offers, Positions(offers, f))
    ensures forall i :: 0 <= i < |offers| ==> (i in Positions(offers, f) <==> Matches(f, offers[i]))
    decreases |offers|
  {
    if offers != [] {
      var rest := offers[1..];
      var idx0 := Positions(rest, f);
      FilterPositions(rest, f);
      ShiftEmbedding(FilterOffers(rest, f), offers, idx0);
      forall i | 0 <= i < |offers| ensures i in Positions(offers, f) <==> Matches(f, offers[i]) {
        ShiftMembers(idx0, i);
        if i > 0 {
          assert offers[i] == rest[i - 1];
        }
      }
    }
  }

  lemma {:induction false} SelectMembers(offers: seq<Offer>, keep: Offer -> bool, o: Offer)
    ensures o in Select(offers, keep) <==> o in offers && keep(o)
    decreases |offers|
  {
    if offers != [] {
      SelectMembers(offers[1..], keep, o);
      assert offers == [offers[0]] + offers[1..];
    }
  }

  /** An offer is in `filtered` exactly when it is among the offers and matches. */
  lemma FilterMembership(offers: seq<Offer>, f: Filters, o: Offer)
    ensures o in FilterOffers(offers, f) <==> o in offers && Matches(f, o)
  {
    SelectMembers(offers, Matcher(f), o);
  }

  /** No offer can fail a filter with nothing set. */
  lemma NoFiltersMatch(o: Offer)
    ensures Matches(NoFilters, o)
  {
  }

  /** A selection that keeps every offer changes nothing. */
  lemma {:induction false} SelectAll(offers: seq<Offer>, keep: Offer -> bool)
    requires forall i :: 0 <= i < |offers| ==> keep(offers[i])
    ensures Select(offers, keep) == offers
    decreases |offers|
  {
    if offers != [] {
      SelectAll(offers[1..], keep);
      assert offers == [offers[0]] + offers[1..];
    }
  }

  /** With nothing set, every offer is kept. */
  lemma NoFiltersKeepAll(offers: seq<Offer>)
    ensures FilterOffers(offers, NoFilters) == offers
  {
    forall i | 0 <= i < |offers| ensures Matcher(NoFilters)(offers[i]) {
      NoFiltersMatch(offers[i]);
    }
    SelectAll(offers, Matcher(NoFilters));
  }

  /** Filtering twice with the same filter is filtering once. */
  lemma {:induction false} FilterIdempotent(offers: seq<Offer>, f: Filters)
    ensures FilterOffers(FilterOffers(offers, f), f) == FilterOffers(offers, f)
    decreases |offers|
  {
    if offers != [] {
      FilterIdempotent(offers[1..], f);
      var head := if Matches(f, offers[0]) then [offers[0]] else [];
      FilterAppend(head, FilterOffers(offers[1..], f), f);
    }
  }

  /** Selecting distributes over concatenation. */
  lemma {:induction false} SelectAppend(a: seq<Offer>, b: seq<Offer>, keep: Offer -> bool)
    ensures Select(a + b, keep) == Select(a, keep) + Select(b, keep)
    decreases |a|
  {
    if a != [] {
      SelectAppend(a[1..], b, keep);
      assert (a + b)[1..] == a[1..] + b;
    } else {
      assert a + b == b;
    }
  }

  /** Filtering distributes over concatenation. */
  lemma FilterAppend(a: seq<Offer>, b: seq<Offer>, f: Filters)
    ensures FilterOffers(a + b, f) == FilterOffers(a, f) + FilterOffers(b, f)
  {
    SelectAppend(a, b, Matcher(f));
  }

  /** An offer without a usable date fails every `from` or `to` bound that is set. */
  lemma UndatedFailsBounds(f: Filters, o: Offer)
    requires FirstOf(o, DateKeys, AsDate).None?
    requires (f.from.Some? && f.from.value != []) || (f.to.Some? && f.to.value != [])
    ensures !Matches(f, o)
  {
  }

  /**
   * A date bound compares the whole raw date string, so a date with a time
   * suffix sorts after the same bare day: "2024-05-01T10:00" is not `<=` "2024-05-01".
   */
  lemma {:induction false} TimeSuffixAfterDay(day: string, suffix: string)
    requires suffix != []
    ensures !ToOk(Some(day), day + suffix) || day == []
    ensures FromOk(Some(day), day + suffix)
  {
    PrefixLess(day, suffix);
    LessAsymmetric(day, day + suffix);
  }

  /** A proper prefix sorts first. */
  lemma {:induction false} PrefixLess(day: string, suffix: string)
    requires suffix != []
    ensures Less(day, day + suffix)
    decreases |day|
  {
    if day != [] {
      assert (day + suffix)[1..] == day[1..] + suffix;
      PrefixLess(day[1..], suffix);
    }
  }

  /** Filter texts that differ only in case select the same offers. */
  lemma {:induction false} ProductCaseInsensitive(offers: seq<Offer>, f: Filters, p: string, q: string)
    requires Lower(p) == Lower(q)
    ensures FilterOffers(offers, f.(product := Some(p))) == FilterOffers(offers, f.(product := Some(q)))
    decreases |offers|
  {
    if offers != [] {
      ProductCaseInsensitive(offers[1..], f, p, q);
    }
  }
}
