/**
 * The two per-offer lists of the dashboard: the price/volume `scatter`
 * (offers with both a price and a volume, at most a thousand, in offer
 * order) and `expiring` (offers with a deadline, soonest first, at most
 * ten). `Math.random()` is a parameter giving the number drawn for the
 * offer at each position.
 */
module Lists {
  import opened Wrappers
  import opened Text
  import opened Offers
  import opened Fields
  import opened Sorting
  import opened Status

  /** What a loop pushes when it pushes `f(o, i)` for each offer `o` at position `i` where that is defined. */
  function Collect<T>(offers: seq<Offer>, f: (Offer, nat) -> Option<T>): seq<T>
    decreases |offers|
  {
    if offers == [] then []
    else
      var n := |offers| - 1;
      Collect(offers[..n], f) + (match f(offers[n], n) case Some(x) => [x] case None => [])
  }

  /** A value is pushed exactly when it is what some offer gives. */
  lemma CollectMembers<T>(offers: seq<Offer>, f: (Offer, nat) -> Option<T>, x: T)
    ensures x in Collect(offers, f) <==> exists i :: 0 <= i < |offers| && f(offers[i], i) == Some(x)
  {
    if x in Collect(offers, f) {
      CollectSource(offers, f, x);
    }
    if exists i :: 0 <= i < |offers| && f(offers[i], i) == Some(x) {
      var i :| 0 <= i < |offers| && f(offers[i], i) == Some(x);
      CollectHas(offers, f, i);
    }
  }

  lemma {:induction false} CollectSource<T>(offers: seq<Offer>, f: (Offer, nat) -> Option<T>, x: T)
    requires x in Collect(offers, f)
    ensures exists i :: 0 <= i < |offers| && f(offers[i], i) == Some(x)
    decreases |offers|
  {
    var n := |offers| - 1;
    var init := offers[..n];
    if x in Collect(init, f) {
      CollectSource(init, f, x);
      var i :| 0 <= i < |init| && f(init[i], i) == Some(x);
      assert offers[i] == init[i];
    } else {
      assert f(offers[n], n) == Some(x);
    }
  }

  lemma {:induction false} CollectHas<T>(offers: seq<Offer>, f: (Offer, nat) -> Option<T>, i: nat)
    requires i < |offers| && f(offers[i], i).Some?
    ensures f(offers[i], i).value in Collect(offers, f)
    decreases |offers|
  {
    var n := |offers| - 1;
    var init := offers[..n];
    if i < n {
      assert init[i] == offers[i];
      CollectHas(init, f, i);
    }
  }

  /** At most one value per offer. */
  lemma {:induction false} CollectLength<T>(offers: seq<Offer>, f: (Offer, nat) -> Option<T>)
    ensures |Collect(offers, f)| <= |offers|
    decreases |offers|
  {
    if offers != [] {
      CollectLength(offers[..|offers| - 1], f);
    }
  }

  // ------------------------------------------------------------------ scatter

  datatype ScatterPoint = ScatterPoint(price: real, volume: real, status: Status)

  /** The point of an offer, when it has both a price and a volume (a volume of 0 counts). */
  function PointOf(o: Offer): Option<ScatterPoint> {
    match (Price(o), FirstOf(o, VolumeKeys, AsNumber))
    case (Some(p), Some(v)) => Some(ScatterPoint(p, v, InferStatus(o)))
    case _ => None
  }

  /** The point of an offer at any position. */
  function PointAt(o: Offer, i: nat): Option<ScatterPoint> { PointOf(o) }

  /** The points the loop pushes, in offer order. */
  function ScatterOf(offers: seq<Offer>): seq<ScatterPoint> {
    Collect(offers, PointAt)
  }

  /** `scatter` as a value: the first thousand points. */
  function ScatterView(filtered: seq<Offer>): seq<ScatterPoint> {
    Take(ScatterOf(filtered), 1000)
  }

  /** The `scatter` loop, skipping offers without a price or a volume. */
  method Scatter(filtered: seq<Offer>) returns (pts: seq<ScatterPoint>)
    ensures pts == ScatterView(filtered)
  {
    pts := [];
    for i := 0 to |filtered|
      invariant pts == ScatterOf(filtered[..i])
    {
      var o := filtered[i];
      assert filtered[..i + 1][..i] == filtered[..i];
      var price := PickNumber(o, PriceKeys);
      var vol := PickNumber(o, VolumeKeys);
      if price.None? || vol.None? {
        continue;
      }
      pts := pts + [ScatterPoint(price.value, vol.value, InferStatus(o))];
    }
    assert filtered[..|filtered|] == filtered;
    pts := Take(pts, 1000);
  }

  /** A point is in the list exactly when it is the point of some offer. */
  lemma ScatterMembers(offers: seq<Offer>, p: ScatterPoint)
    ensures p in ScatterOf(offers) <==> exists i :: 0 <= i < |offers| && PointOf(offers[i]) == Some(p)
  {
    CollectMembers(offers, PointAt, p);
    assert forall i :: 0 <= i < |offers| ==> PointAt(offers[i], i) == PointOf(offers[i]);
  }

  /** The points keep the order of the offers: the points of a concatenation are concatenated. */
  lemma {:induction false} ScatterAppend(a: seq<Offer>, b: seq<Offer>)
    ensures ScatterOf(a + b) == ScatterOf(a) + ScatterOf(b)
    decreases |b|
  {
    if b == [] {
      assert a + b == a;
    } else {
      var b' := b[..|b| - 1];
      ScatterAppend(a, b');
      assert (a + b)[..|a + b| - 1] == a + b';
    }
  }

  /** The first thousand points, or all of them when there are no more. */
  lemma ScatterShape(filtered: seq<Offer>)
    ensures var r := ScatterView(filtered); var all := ScatterOf(filtered);
      |r| == (if |all| <= 1000 then |all| else 1000) && r == all[..|r|] && (|all| <= 1000 ==> r == all) &&
      |all| <= |filtered|
  {
    CollectLength(filtered, PointAt);
  }

  // ----------------------------------------------------------------- expiring

  /** An item id: the offer's own `id` or `uuid`, or a random number. */
  datatype Ident = Given(v: Value) | Drawn(x: real)

  /** `o.id ?? o.uuid ?? Math.random()`: `??` passes over `undefined` and `null` only. */
  function IdOf(o: Offer, random: real): Ident {
    var id := Field(o, "id");
    var uuid := Field(o, "uuid");
    if id.Some? && id.value != Null then Given(id.value)
    else if uuid.Some? && uuid.value != Null then Given(uuid.value)
    else Drawn(random)
  }

  datatype ExpiringOffer = ExpiringOffer(id: Ident, title: string, closingDate: string,
                                         product: Option<string>, country: Option<string>)

  function ClosingDate(e: ExpiringOffer): string { e.closingDate }

  /** The item of an offer. */
  function ItemOf(o: Offer, random: real): ExpiringOffer {
    ExpiringOffer(IdOf(o, random), TextOr(o, TitleKeys, "Oferta"), Deadline(o),
                  FirstOf(o, ProductKeys, AsText), FirstOf(o, ListCountryKeys, AsText))
  }

  /** The item of the offer at position `i`, when it has a deadline; `random(i)` is the number drawn for it. */
  function ItemAt(random: nat -> real): (Offer, nat) -> Option<ExpiringOffer> {
    (o: Offer, i: nat) => if Deadline(o) != [] then Some(ItemOf(o, random(i))) else None
  }

  /** The items the loop pushes, in offer order. */
  function ItemsOf(offers: seq<Offer>, random: nat -> real): seq<ExpiringOffer> {
    Collect(offers, ItemAt(random))
  }

  /** `expiring` as a value: the ten soonest deadlines. */
  function ExpiringView(filtered: seq<Offer>, random: nat -> real): seq<ExpiringOffer> {
    Take(SortAsc(ItemsOf(filtered, random), ClosingDate), 10)
  }

  /** The `expiring` loop, skipping offers without a deadline, then sort and cut. */
  method Expiring(filtered: seq<Offer>, random: nat -> real) returns (items: seq<ExpiringOffer>)
    ensures items == ExpiringView(filtered, random)
  {
    items := [];
    for i := 0 to |filtered|
      invariant items == ItemsOf(filtered[..i], random)
    {
      var o := filtered[i];
      assert filtered[..i + 1][..i] == filtered[..i];
      var picked := PickDateISO(o, DeadlineKeys);
      var dateISO := picked.GetOr("");
      assert dateISO == Deadline(o);
      var step := ItemAt(random)(o, i);
      assert Collect(filtered[..i + 1], ItemAt(random)) ==
        items + (match step case Some(x) => [x] case None => []);
      if dateISO == [] {
        assert step == None;
        continue;
      }
      assert step == Some(ItemOf(o, random(i)));
      var id := IdOf(o, random(i));
      var title := PickString(o, TitleKeys);
      var product := PickString(o, ProductKeys);
      var country := PickString(o, ListCountryKeys);
      items := items + [ExpiringOffer(id, title.GetOr("Oferta"), dateISO, product, country)];
    }
    assert filtered[..|filtered|] == filtered;
    items := Take(SortAsc(items, ClosingDate), 10);
  }

  /** An item is listed exactly when it is the item of some offer with a deadline. */
  lemma ItemsOfOffers(offers: seq<Offer>, random: nat -> real, x: ExpiringOffer)
    ensures x in ItemsOf(offers, random) <==>
      exists i :: 0 <= i < |offers| && Deadline(offers[i]) != [] && x == ItemOf(offers[i], random(i))
  {
    CollectMembers(offers, ItemAt(random), x);
  }

  /**
   * Ten items, or all of them when there are fewer, soonest deadline first, all from offers with a
   * deadline; no item left out closes before one kept.
   */
  lemma ExpiringShape(filtered: seq<Offer>, random: nat -> real)
    ensures var items := ItemsOf(filtered, random);
      var sorted := SortAsc(items, ClosingDate);
      var r := ExpiringView(filtered, random);
      |r| == (if |items| <= 10 then |items| else 10) && NonDecreasing(r, ClosingDate) &&
      multiset(sorted) == multiset(items) &&
      (forall i, j :: 0 <= i < |r| <= j < |sorted| ==> !Less(sorted[j].closingDate, r[i].closingDate)) &&
      (|items| <= 10 ==> multiset(r) == multiset(items))
  {
    var items := ItemsOf(filtered, random);
    SortAscProps(items, ClosingDate);
    TakeNonDecreasing(SortAsc(items, ClosingDate), 10, ClosingDate);
  }

  /** Each item comes from an offer with a deadline and closes on that deadline. */
  lemma ExpiringSource(filtered: seq<Offer>, random: nat -> real, x: ExpiringOffer)
    requires x in ExpiringView(filtered, random)
    ensures exists i :: 0 <= i < |filtered| && x == ItemOf(filtered[i], random(i)) && x.closingDate == Deadline(filtered[i])
    ensures x.closingDate != []
  {
    var items := ItemsOf(filtered, random);
    SortAscProps(items, ClosingDate);
    assert x in multiset(SortAsc(items, ClosingDate));
    ItemsOfOffers(filtered, random, x);
  }

  /** A random id is drawn only for an offer whose `id` and `uuid` are both missing or null. */
  lemma DrawnOnlyWithoutIds(o: Offer, random: real)
    ensures IdOf(o, random).Drawn? <==>
      (Field(o, "id").None? || Field(o, "id") == Some(Null)) &&
      (Field(o, "uuid").None? || Field(o, "uuid") == Some(Null))
  {
  }
}
