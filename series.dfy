/**
 * `series`: tendered and awarded volume per day, in ascending date order.
 * The day is the first ten characters of the offer's date; offers without
 * a date are skipped.
 */
module Series {
  import opened Wrappers
  import opened Text
  import opened Offers
  import opened Fields
  import opened Groups
  import opened Sorting
  import opened Status

  /** `(pickDateISO(o, ["date", "published_at", "created_at"]) || "").slice(0, 10)`. */
  function Day(o: Offer): string {
    Prefix(FirstOf(o, SeriesDateKeys, AsDate).GetOr(""), 10)
  }

  /** What an offer adds to the awarded total of its day. */
  function AwardedPart(o: Offer): real {
    if InferStatus(o) == Awarded then AwardedVolume(o) else 0.0
  }

  /** The offers the loop does not skip, in order: those whose `key` is not empty. */
  function Keyed(offers: seq<Offer>, key: Offer -> string): seq<Offer>
    decreases |offers|
  {
    if offers == [] then []
    else
      var last := offers[|offers| - 1];
      Keyed(offers[..|offers| - 1], key) + (if key(last) != [] then [last] else [])
  }

  /** A map entry: the day and its two running totals. */
  datatype DayEntry = DayEntry(date: string, tendered: real, awarded: real)

  datatype TimePoint = TimePoint(date: string, tendered: real, awarded: real)

  function EntryDate(e: DayEntry): string { e.date }

  /** `Array.from(map.entries())`, the two totals read side by side. */
  function DayEntries(t: Sums, a: Sums): seq<DayEntry>
    requires forall k :: k in t.keys ==> k in t.total && k in a.total
  {
    seq(|t.keys|, i requires 0 <= i < |t.keys| => DayEntry(t.keys[i], t.total[t.keys[i]], a.total[t.keys[i]]))
  }

  /** The final `map` of the sorted entries, converting both totals. */
  function Convert(es: seq<DayEntry>, conv: real -> real): (r: seq<TimePoint>)
    ensures |r| == |es|
    ensures forall i :: 0 <= i < |es| ==> r[i] == TimePoint(es[i].date, conv(es[i].tendered), conv(es[i].awarded))
  {
    seq(|es|, i requires 0 <= i < |es| => TimePoint(es[i].date, conv(es[i].tendered), conv(es[i].awarded)))
  }

  /** The two totals, kept for the same days in the same order. */
  lemma TotalsAligned(offers: seq<Offer>)
    ensures var t := Group(offers, Day, Volume); var a := Group(offers, Day, AwardedPart);
      Valid(t) && Valid(a) && t.keys == a.keys &&
      forall k :: k in t.keys ==> k in t.total && k in a.total
  {
    GroupValid(offers, Day, Volume);
    GroupValid(offers, Day, AwardedPart);
    GroupKeysOnly(offers, Day, Volume, AwardedPart);
  }

  /** `series` as a value. */
  function SeriesView(filtered: seq<Offer>, conv: real -> real): seq<TimePoint> {
    var dated := Keyed(filtered, Day);
    TotalsAligned(dated);
    Convert(SortAsc(DayEntries(Group(dated, Day, Volume), Group(dated, Day, AwardedPart)), EntryDate), conv)
  }

  /** What the loop reads from one offer: its day, its volume and its awarded part. */
  method ReadOffer(o: Offer) returns (d: string, vol: real, aw: real)
    ensures d == Day(o) && vol == Volume(o) && aw == AwardedPart(o)
  {
    var picked := PickDateISO(o, SeriesDateKeys);
    d := Prefix(picked.GetOr(""), 10);
    var got := PickNumber(o, VolumeKeys);
    vol := got.GetOr(0.0);
    aw := 0.0;
    if InferStatus(o) == Awarded {
      var n := PickNumber(o, AwardedVolumeKeys);
      aw := n.GetOr(0.0);
    }
  }

  /** The `series` loop, skipping undated offers, then sort and convert. */
  method BuildSeries(filtered: seq<Offer>, conv: real -> real) returns (points: seq<TimePoint>)
    ensures points == SeriesView(filtered, conv)
  {
    var t := Empty;
    var a := Empty;
    for i := 0 to |filtered|
      invariant t == Group(Keyed(filtered[..i], Day), Day, Volume)
      invariant a == Group(Keyed(filtered[..i], Day), Day, AwardedPart)
    {
      var o := filtered[i];
      var d, vol, aw := ReadOffer(o);
      var kept := Keyed(filtered[..i], Day);
      KeyedStep(filtered, Day, i);
      if d == [] {
        assert Keyed(filtered[..i + 1], Day) == kept + [] == kept;
        continue;
      }
      assert Keyed(filtered[..i + 1], Day) == kept + [o];
      GroupStep(kept, o, Day, Volume);
      GroupStep(kept, o, Day, AwardedPart);
      t := AddTo(t, d, vol);
      a := AddTo(a, d, aw);
    }
    assert filtered[..|filtered|] == filtered;
    TotalsAligned(Keyed(filtered, Day));
    var entries := DayEntries(t, a);
    points := Convert(SortAsc(entries, EntryDate), conv);
  }

  // --------------------------------------------------------------- properties

  /** A day is the empty string or exactly ten characters. */
  lemma DayLength(o: Offer)
    ensures Day(o) == [] || |Day(o)| == 10
    ensures Day(o) == [] <==> FirstOf(o, SeriesDateKeys, AsDate).None?
  {
    PickedDateLength(o, SeriesDateKeys);
  }

  /** The loop keeps the offers with a key, and a non-empty key is some kept offer's exactly when it is some offer's. */
  lemma {:induction false} KeyedKeys(offers: seq<Offer>, key: Offer -> string, d: string)
    ensures HasKey(Keyed(offers, key), key, d) <==> d != [] && HasKey(offers, key, d)
    decreases |offers|
  {
    if offers != [] {
      var init := offers[..|offers| - 1];
      var last := offers[|offers| - 1];
      KeyedKeys(init, key, d);
      var rest := Keyed(init, key);
      var all := Keyed(offers, key);
      assert all[..|rest|] == rest;
      if exists i :: 0 <= i < |all| && key(all[i]) == d {
        var i :| 0 <= i < |all| && key(all[i]) == d;
        if i < |rest| {
          assert all[i] == rest[i];
          KeyedNonEmpty(init, key, i);
          var j :| 0 <= j < |init| && key(init[j]) == d;
          assert offers[j] == init[j];
        } else {
          assert all[i] == last;
        }
      }
      if d != [] && exists j :: 0 <= j < |offers| && key(offers[j]) == d {
        var j :| 0 <= j < |offers| && key(offers[j]) == d;
        if j < |init| {
          assert init[j] == offers[j];
          var i :| 0 <= i < |rest| && key(rest[i]) == d;
          assert all[i] == rest[i];
        } else {
          assert all[|rest|] == last;
        }
      }
    }
  }

  /** One more offer: kept at the end when it has a key, skipped otherwise. */
  lemma KeyedStep(offers: seq<Offer>, key: Offer -> string, i: nat)
    requires i < |offers|
    ensures Keyed(offers[..i + 1], key) ==
      Keyed(offers[..i], key) + (if key(offers[i]) != [] then [offers[i]] else [])
  {
    assert offers[..i + 1][..i] == offers[..i];
  }

  /** Every kept offer has a key. */
  lemma {:induction false} KeyedNonEmpty(offers: seq<Offer>, key: Offer -> string, i: nat)
    requires i < |Keyed(offers, key)|
    ensures key(Keyed(offers, key)[i]) != []
    decreases |offers|
  {
    var init := offers[..|offers| - 1];
    var rest := Keyed(init, key);
    if i < |rest| {
      KeyedNonEmpty(init, key, i);
      assert Keyed(offers, key)[i] == rest[i];
    }
  }

  /** Skipped offers add nothing under any non-empty key. */
  lemma {:induction false} KeyedBucket(offers: seq<Offer>, key: Offer -> string, vol: Offer -> real, d: string)
    requires d != []
    ensures BucketSum(Keyed(offers, key), key, vol, d) == BucketSum(offers, key, vol, d)
    decreases |offers|
  {
    if offers != [] {
      var init := offers[..|offers| - 1];
      var last := offers[|offers| - 1];
      KeyedBucket(init, key, vol, d);
      var kept := Keyed(offers, key);
      if key(last) != [] {
        assert kept[..|kept| - 1] == Keyed(init, key);
      } else {
        assert kept == Keyed(init, key);
      }
    }
  }

  /** The entries before sorting have pairwise different days. */
  lemma EntriesDistinct(dated: seq<Offer>)
    ensures var t := Group(dated, Day, Volume); var a := Group(dated, Day, AwardedPart);
      (forall k :: k in t.keys ==> k in t.total && k in a.total) &&
      DistinctBy(DayEntries(t, a), EntryDate)
  {
    TotalsAligned(dated);
  }

  /** The points are in strictly ascending date order: one point per day. */
  lemma SeriesAscending(filtered: seq<Offer>, conv: real -> real)
    ensures var r := SeriesView(filtered, conv);
      forall i, j :: 0 <= i < j < |r| ==> Less(r[i].date, r[j].date)
  {
    var dated := Keyed(filtered, Day);
    var t := Group(dated, Day, Volume);
    var a := Group(dated, Day, AwardedPart);
    EntriesDistinct(dated);
    var es := DayEntries(t, a);
    var sorted := SortAsc(es, EntryDate);
    SortAscProps(es, EntryDate);
    PermutationDistinct(es, sorted, EntryDate);
    StrictWhenDistinct(sorted, EntryDate);
  }

  /** Some point of the series is for day `d`. */
  ghost predicate HasPoint(r: seq<TimePoint>, d: string) {
    exists i :: 0 <= i < |r| && r[i].date == d
  }

  /** Some offer has key `d`. */
  ghost predicate HasKey(offers: seq<Offer>, key: Offer -> string, d: string) {
    exists j :: 0 <= j < |offers| && key(offers[j]) == d
  }

  /** The sorted, converted entries have a point for a day exactly when the day is a key. */
  lemma PointsOfKeys(t: Sums, a: Sums, conv: real -> real, d: string)
    requires forall k :: k in t.keys ==> k in t.total && k in a.total
    ensures HasPoint(Convert(SortAsc(DayEntries(t, a), EntryDate), conv), d) <==> d in t.keys
  {
    var es := DayEntries(t, a);
    var sorted := SortAsc(es, EntryDate);
    SortAscProps(es, EntryDate);
    var r := Convert(sorted, conv);
    if exists i :: 0 <= i < |r| && r[i].date == d {
      var i :| 0 <= i < |r| && r[i].date == d;
      assert sorted[i] in multiset(es);
      var m :| 0 <= m < |es| && es[m] == sorted[i];
      assert t.keys[m] == d;
    }
    if d in t.keys {
      var m :| 0 <= m < |t.keys| && t.keys[m] == d;
      assert es[m] in multiset(sorted);
      var i :| 0 <= i < |sorted| && sorted[i] == es[m];
      assert r[i].date == d;
    }
  }

  /** Each sorted, converted point carries the converted totals of its key. */
  lemma PointTotals(t: Sums, a: Sums, conv: real -> real, i: nat)
    requires forall k :: k in t.keys ==> k in t.total && k in a.total
    requires i < |Convert(SortAsc(DayEntries(t, a), EntryDate), conv)|
    ensures var p := Convert(SortAsc(DayEntries(t, a), EntryDate), conv)[i];
      p.date in t.keys && p.tendered == conv(t.total[p.date]) && p.awarded == conv(a.total[p.date])
  {
    var es := DayEntries(t, a);
    var sorted := SortAsc(es, EntryDate);
    SortAscProps(es, EntryDate);
    assert sorted[i] in multiset(es);
    var m :| 0 <= m < |es| && es[m] == sorted[i];
  }

  /** A day has a point exactly when some filtered offer has that day. */
  lemma SeriesDays(filtered: seq<Offer>, conv: real -> real, d: string)
    ensures HasPoint(SeriesView(filtered, conv), d) <==> d != [] && HasKey(filtered, Day, d)
  {
    var dated := Keyed(filtered, Day);
    var t := Group(dated, Day, Volume);
    var a := Group(dated, Day, AwardedPart);
    TotalsAligned(dated);
    assert SeriesView(filtered, conv) == Convert(SortAsc(DayEntries(t, a), EntryDate), conv);
    PointsOfKeys(t, a, conv, d);
    GroupKeys(dated, Day, Volume, d);
    KeyedKeys(filtered, Day, d);
    assert d in t.keys <==> HasKey(dated, Day, d);
  }

  /** Each point holds the converted tendered and awarded totals of its day over all filtered offers. */
  lemma SeriesTotals(filtered: seq<Offer>, conv: real -> real, i: nat)
    requires i < |SeriesView(filtered, conv)|
    ensures var p := SeriesView(filtered, conv)[i];
      p.tendered == conv(BucketSum(filtered, Day, Volume, p.date)) &&
      p.awarded == conv(BucketSum(filtered, Day, AwardedPart, p.date))
  {
    var dated := Keyed(filtered, Day);
    var t := Group(dated, Day, Volume);
    var a := Group(dated, Day, AwardedPart);
    TotalsAligned(dated);
    var r := SeriesView(filtered, conv);
    assert r == Convert(SortAsc(DayEntries(t, a), EntryDate), conv);
    PointTotals(t, a, conv, i);
    var d := r[i].date;
    GroupTotals(dated, Day, Volume, d);
    GroupTotals(dated, Day, AwardedPart, d);
    assert d != [] by {
      GroupKeys(dated, Day, Volume, d);
      var j :| 0 <= j < |dated| && Day(dated[j]) == d;
      KeyedNonEmpty(filtered, Day, j);
    }
    KeyedBucket(filtered, Day, Volume, d);
    KeyedBucket(filtered, Day, AwardedPart, d);
  }

  /** Only offers classified as awarded add to the awarded line. */
  lemma AwardedOnlyFromAwarded(o: Offer)
    requires InferStatus(o) != Awarded
    ensures AwardedPart(o) == 0.0
  {
  }
}
