/**
 * `kpis` and `funnel`: the headline figures of the filtered offers (tendered
 * and awarded volume, award rate, mean price, offers still open) and the
 * three-step funnel of offers, open offers and awarded offers. The current
 * time, `new Date().toISOString()`, is a parameter `now`.
 */
module Kpis {
  import opened Wrappers
  import opened Text
  import opened Offers
  import opened Fields
  import opened Groups
  import opened Status
  import opened Series

  /** `status === "active" || (!!deadline && deadline > now)`: the deadline string is compared with `now` as text. */
  predicate IsActive(o: Offer, now: string) {
    InferStatus(o) == Active || (Deadline(o) != [] && Less(now, Deadline(o)))
  }

  function ActiveAt(now: string): Offer -> bool {
    (o: Offer) => IsActive(o, now)
  }

  function IsAwarded(o: Offer): bool { InferStatus(o) == Awarded }

  /** The number of offers `p` holds for. */
  function CountOf(offers: seq<Offer>, p: Offer -> bool): nat
    decreases |offers|
  {
    if offers == [] then 0
    else CountOf(offers[..|offers| - 1], p) + (if p(offers[|offers| - 1]) then 1 else 0)
  }

  /** The prices the loop collects, in offer order. */
  function PricesOf(offers: seq<Offer>): seq<real>
    decreases |offers|
  {
    if offers == [] then []
    else
      var last := offers[|offers| - 1];
      PricesOf(offers[..|offers| - 1]) + (match Price(last) case Some(x) => [x] case None => [])
  }

  /** `xs.reduce((a, b) => a + b, 0)`. */
  function Sum(xs: seq<real>): real
    decreases |xs|
  {
    if xs == [] then 0.0 else Sum(xs[..|xs| - 1]) + xs[|xs| - 1]
  }

  /** `n ? count / n : 0`. */
  function Ratio(count: nat, n: nat): real {
    if n > 0 then count as real / n as real else 0.0
  }

  /** `xs.length ? sum / xs.length : 0`. */
  function Mean(xs: seq<real>): real {
    if |xs| > 0 then Sum(xs) / |xs| as real else 0.0
  }

  datatype Kpi = Kpi(tenderedVolume: real, awardedVolume: real, awardRate: real, avgPrice: real, activeOffers: nat)

  /** `kpis` as a value. */
  function KpiView(filtered: seq<Offer>, now: string, conv: real -> real): Kpi {
    Kpi(conv(SumOf(filtered, KpiVolume)), conv(SumOf(filtered, AwardedPart)),
        Ratio(CountOf(filtered, IsAwarded), |filtered|), Mean(PricesOf(filtered)),
        CountOf(filtered, ActiveAt(now)))
  }

  /** What the loop reads from one offer. */
  method ReadKpi(o: Offer) returns (vol: real, price: Option<real>, status: Status, deadline: string)
    ensures vol == KpiVolume(o) && price == Price(o) && status == InferStatus(o) && deadline == Deadline(o)
  {
    var got := PickNumber(o, KpiVolumeKeys);
    vol := got.GetOr(0.0);
    price := PickNumber(o, PriceKeys);
    status := InferStatus(o);
    var d := PickDateISO(o, DeadlineKeys);
    deadline := d.GetOr("");
  }

  /** The `kpis` loop and the two divisions after it. */
  method ComputeKpis(filtered: seq<Offer>, now: string, conv: real -> real) returns (k: Kpi)
    ensures k == KpiView(filtered, now, conv)
  {
    var tenderedVol := 0.0;
    var awardedVol := 0.0;
    var prices: seq<real> := [];
    var activeCount := 0;
    var awardedCount := 0;
    for i := 0 to |filtered|
      invariant tenderedVol == SumOf(filtered[..i], KpiVolume)
      invariant awardedVol == SumOf(filtered[..i], AwardedPart)
      invariant prices == PricesOf(filtered[..i])
      invariant activeCount == CountOf(filtered[..i], ActiveAt(now))
      invariant awardedCount == CountOf(filtered[..i], IsAwarded)
    {
      var o := filtered[i];
      var vol, price, status, deadline := ReadKpi(o);
      assert filtered[..i + 1][..i] == filtered[..i];
      tenderedVol := tenderedVol + vol;
      if status == Awarded {
        var n := PickNumber(o, AwardedVolumeKeys);
        awardedVol := awardedVol + n.GetOr(0.0);
        awardedCount := awardedCount + 1;
      }
      if status == Active || (deadline != [] && Less(now, deadline)) {
        activeCount := activeCount + 1;
      }
      if price.Some? {
        prices := prices + [price.value];
      }
    }
    assert filtered[..|filtered|] == filtered;
    var awardRate := if |filtered| > 0 then awardedCount as real / |filtered| as real else 0.0;
    var avgPrice := if |prices| > 0 then Sum(prices) / |prices| as real else 0.0;
    k := Kpi(conv(tenderedVol), conv(awardedVol), awardRate, avgPrice, activeCount);
  }

  datatype FunnelItem = FunnelItem(name: string, value: nat)

  /** `funnel` as a value. */
  function FunnelView(filtered: seq<Offer>, now: string): seq<FunnelItem> {
    [FunnelItem("Licitado", |filtered|),
     FunnelItem("Activas", CountOf(filtered, ActiveAt(now))),
     FunnelItem("Adjudicadas", CountOf(filtered, IsAwarded))]
  }

  /** The `funnel` loop. */
  method Funnel(filtered: seq<Offer>, now: string) returns (items: seq<FunnelItem>)
    ensures items == FunnelView(filtered, now)
  {
    var total := |filtered|;
    var active := 0;
    var awarded := 0;
    for i := 0 to |filtered|
      invariant active == CountOf(filtered[..i], ActiveAt(now))
      invariant awarded == CountOf(filtered[..i], IsAwarded)
    {
      var o := filtered[i];
      var status := InferStatus(o);
      var d := PickDateISO(o, DeadlineKeys);
      var deadline := d.GetOr("");
      assert filtered[..i + 1][..i] == filtered[..i];
      if status == Awarded {
        awarded := awarded + 1;
      }
      if status == Active || (deadline != [] && Less(now, deadline)) {
        active := active + 1;
      }
    }
    assert filtered[..|filtered|] == filtered;
    items := [FunnelItem("Licitado", total), FunnelItem("Activas", active), FunnelItem("Adjudicadas", awarded)];
  }

  // --------------------------------------------------------------- properties

  /** A count never exceeds the number of offers. */
  lemma {:induction false} CountBound(offers: seq<Offer>, p: Offer -> bool)
    ensures CountOf(offers, p) <= |offers|
    decreases |offers|
  {
    if offers != [] {
      CountBound(offers[..|offers| - 1], p);
    }
  }

  /** The count is the number of positions where `p` holds. */
  lemma {:induction false} CountZero(offers: seq<Offer>, p: Offer -> bool)
    ensures CountOf(offers, p) == 0 <==> forall i :: 0 <= i < |offers| ==> !p(offers[i])
    decreases |offers|
  {
    if offers != [] {
      var init := offers[..|offers| - 1];
      CountZero(init, p);
      assert forall i :: 0 <= i < |init| ==> init[i] == offers[i];
    }
  }

  /** The award rate is a fraction between 0 and 1, and 0 when no offer is shown. */
  lemma AwardRateBounds(filtered: seq<Offer>, now: string, conv: real -> real)
    ensures 0.0 <= KpiView(filtered, now, conv).awardRate <= 1.0
    ensures filtered == [] ==> KpiView(filtered, now, conv).awardRate == 0.0
  {
    var count := CountOf(filtered, IsAwarded);
    assert KpiView(filtered, now, conv).awardRate == Ratio(count, |filtered|);
    CountBound(filtered, IsAwarded);
    RatioBounds(count, |filtered|);
  }

  /** A ratio of a count to a total is between 0 and 1, times the total it gives back the count, and it is 0 for an empty total. */
  lemma RatioBounds(count: nat, n: nat)
    requires count <= n
    ensures 0.0 <= Ratio(count, n) <= 1.0 && Ratio(count, n) * n as real == count as real
    ensures n == 0 ==> Ratio(count, n) == 0.0
  {
    if n > 0 {
      var c := count as real;
      var m := n as real;
      assert (c / m) * m == c;
      assert c / m <= m / m;
    }
  }

  /** No more offers are open than there are offers. */
  lemma ActiveBound(filtered: seq<Offer>, now: string, conv: real -> real)
    ensures KpiView(filtered, now, conv).activeOffers <= |filtered|
  {
    CountBound(filtered, ActiveAt(now));
  }

  /** A price is collected exactly when some offer has it. */
  lemma {:induction false} PricesOfOffers(offers: seq<Offer>, x: real)
    ensures x in PricesOf(offers) <==> exists i :: 0 <= i < |offers| && Price(offers[i]) == Some(x)
    decreases |offers|
  {
    if offers != [] {
      var init := offers[..|offers| - 1];
      PricesOfOffers(init, x);
      if exists i :: 0 <= i < |init| && Price(init[i]) == Some(x) {
        var i :| 0 <= i < |init| && Price(init[i]) == Some(x);
        assert offers[i] == init[i];
      }
      if exists i :: 0 <= i < |offers| && Price(offers[i]) == Some(x) {
        var i :| 0 <= i < |offers| && Price(offers[i]) == Some(x);
        if i < |init| { assert init[i] == offers[i]; }
      }
    }
  }

  /** The sum of values between `lo` and `hi` is between `|xs| * lo` and `|xs| * hi`. */
  lemma {:induction false} SumBounds(xs: seq<real>, lo: real, hi: real)
    requires forall i :: 0 <= i < |xs| ==> lo <= xs[i] <= hi
    ensures |xs| as real * lo <= Sum(xs) <= |xs| as real * hi
    decreases |xs|
  {
    if xs != [] {
      SumBounds(xs[..|xs| - 1], lo, hi);
    }
  }

  /** The mean lies between any bounds of the values, and is 0 for no values. */
  lemma MeanBounds(xs: seq<real>, lo: real, hi: real)
    requires forall i :: 0 <= i < |xs| ==> lo <= xs[i] <= hi
    ensures xs == [] ==> Mean(xs) == 0.0
    ensures xs != [] ==> lo <= Mean(xs) <= hi
  {
    if xs != [] {
      SumBounds(xs, lo, hi);
      var n := |xs| as real;
      assert n * lo <= Sum(xs) <= n * hi;
      assert Sum(xs) / n >= lo by {
        assert (n * lo) / n == lo;
      }
      assert Sum(xs) / n <= hi by {
        assert (n * hi) / n == hi;
      }
    }
  }

  /** The mean price lies between the lowest and highest price of any offer with a price. */
  lemma AvgPriceBounds(filtered: seq<Offer>, now: string, conv: real -> real, lo: real, hi: real)
    requires forall i :: 0 <= i < |filtered| && Price(filtered[i]).Some? ==> lo <= Price(filtered[i]).value <= hi
    ensures PricesOf(filtered) != [] ==> lo <= KpiView(filtered, now, conv).avgPrice <= hi
  {
    var xs := PricesOf(filtered);
    forall j | 0 <= j < |xs| ensures lo <= xs[j] <= hi {
      PricesOfOffers(filtered, xs[j]);
    }
    MeanBounds(xs, lo, hi);
  }

  /** Without an awarded offer the awarded volume is zero. */
  lemma {:induction false} NoAwardNoVolume(offers: seq<Offer>)
    requires CountOf(offers, IsAwarded) == 0
    ensures SumOf(offers, AwardedPart) == 0.0
    decreases |offers|
  {
    if offers != [] {
      var init := offers[..|offers| - 1];
      NoAwardNoVolume(init);
    }
  }

  /** The funnel's steps are the KPI counts: all offers, the open ones, the awarded ones. */
  lemma FunnelMatchesKpis(filtered: seq<Offer>, now: string, conv: real -> real)
    ensures var f := FunnelView(filtered, now); var k := KpiView(filtered, now, conv);
      |f| == 3 && f[0].value == |filtered| && f[1].value == k.activeOffers &&
      k.awardRate == Ratio(f[2].value, f[0].value) &&
      f[1].value <= f[0].value && f[2].value <= f[0].value
  {
    CountBound(filtered, ActiveAt(now));
    CountBound(filtered, IsAwarded);
  }
}
