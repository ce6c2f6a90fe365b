/**
 * `basinMapData`: the volume of every basin placed on the map of Argentina,
 * at the basin's position or, when the name resolves to none, at a default
 * point; largest first, with no cut.
 */
module BasinMap {
  import opened Wrappers
  import opened Offers
  import opened Fields
  import opened Groups
  import opened Sorting
  import opened Basins
  import opened Views

  datatype BasinPoint = BasinPoint(name: string, coordinates: Coord, value: real)

  function PointValue(p: BasinPoint): real { p.value }
  function PointName(p: BasinPoint): string { p.name }

  /** Where a basin without known coordinates is drawn. */
  const DefaultCoord := Coord(-64.0, -40.5)

  /** `getBasinCoords(name) || [-64.0, -40.5]`. */
  function Placed(name: string): Coord {
    GetBasinCoords(name).GetOr(DefaultCoord)
  }

  /** One point per bucket, in insertion order, placed by `place`. */
  function BasinPoints(g: Sums, conv: real -> real, place: string -> Coord): seq<BasinPoint>
    requires forall k :: k in g.keys ==> k in g.total
  {
    seq(|g.keys|, i requires 0 <= i < |g.keys| => BasinPoint(g.keys[i], place(g.keys[i]), conv(g.total[g.keys[i]])))
  }

  /** `basinMapData` as a value. */
  function BasinMapView(filtered: seq<Offer>, conv: real -> real): seq<BasinPoint> {
    GroupValid(filtered, BasinBucket, BarrelVolume);
    SortDesc(BasinPoints(Group(filtered, BasinBucket, BarrelVolume), conv, Placed), PointValue)
  }

  /** The second loop of `basinMapData`: one point per entry, in entry order. */
  method PushPoints(g: Sums, conv: real -> real) returns (arr: seq<BasinPoint>)
    requires forall k :: k in g.keys ==> k in g.total
    ensures arr == BasinPoints(g, conv, Placed)
  {
    arr := [];
    for i := 0 to |g.keys|
      invariant arr == BasinPoints(g, conv, Placed)[..i]
    {
      var name := g.keys[i];
      arr := arr + [BasinPoint(name, Placed(name), conv(g.total[name]))];
    }
  }

  /** `basinMapData`: sum by basin, push one point per entry, sort. */
  method BasinMapData(filtered: seq<Offer>, conv: real -> real) returns (points: seq<BasinPoint>)
    ensures points == BasinMapView(filtered, conv)
  {
    var g := SumBy(filtered, BasinBucket, BarrelVolume);
    GroupValid(filtered, BasinBucket, BarrelVolume);
    var arr := PushPoints(g, conv);
    points := SortDesc(arr, PointValue);
  }

  /** Every basin is drawn once, largest first. */
  lemma BasinMapShape(filtered: seq<Offer>, conv: real -> real)
    ensures var g := Group(filtered, BasinBucket, BarrelVolume); var r := BasinMapView(filtered, conv);
      (forall k :: k in g.keys ==> k in g.total) &&
      NonIncreasing(r, PointValue) && DistinctBy(r, PointName) &&
      multiset(r) == multiset(BasinPoints(g, conv, Placed))
  {
    var g := Group(filtered, BasinBucket, BarrelVolume);
    GroupValid(filtered, BasinBucket, BarrelVolume);
    var rows := BasinPoints(g, conv, Placed);
    TopRows(rows, PointValue, PointName, |rows|);
  }

  /** Each point is a basin some offer has, drawn at that basin's position. */
  lemma BasinMapPointSource(filtered: seq<Offer>, conv: real -> real, p: BasinPoint)
    requires p in BasinMapView(filtered, conv)
    ensures exists i :: 0 <= i < |filtered| && BasinBucket(filtered[i]) == p.name
    ensures p.coordinates == Placed(p.name)
  {
    BasinMapShape(filtered, conv);
    var g := Group(filtered, BasinBucket, BarrelVolume);
    var rows := BasinPoints(g, conv, Placed);
    assert p in multiset(rows);
    var j :| 0 <= j < |rows| && rows[j] == p;
    assert p.name == g.keys[j];
    GroupKeys(filtered, BasinBucket, BarrelVolume, p.name);
  }

  /** Each point carries the converted sum of its basin's volumes. */
  lemma BasinMapPointValue(filtered: seq<Offer>, conv: real -> real, p: BasinPoint)
    requires p in BasinMapView(filtered, conv)
    ensures p.value == conv(BucketSum(filtered, BasinBucket, BarrelVolume, p.name))
  {
    BasinMapShape(filtered, conv);
    var g := Group(filtered, BasinBucket, BarrelVolume);
    var rows := BasinPoints(g, conv, Placed);
    assert p in multiset(rows);
    var j :| 0 <= j < |rows| && rows[j] == p;
    assert p.name == g.keys[j];
    GroupTotals(filtered, BasinBucket, BarrelVolume, p.name);
  }

  /** No offer's basin is missing from the map. */
  lemma BasinMapCovers(filtered: seq<Offer>, conv: real -> real, i: nat)
    requires i < |filtered|
    ensures exists p :: p in BasinMapView(filtered, conv) && p.name == BasinBucket(filtered[i])
  {
    BasinMapShape(filtered, conv);
    var g := Group(filtered, BasinBucket, BarrelVolume);
    GroupKeys(filtered, BasinBucket, BarrelVolume, BasinBucket(filtered[i]));
    var j :| 0 <= j < |g.keys| && g.keys[j] == BasinBucket(filtered[i]);
    assert BasinPoints(g, conv, Placed)[j] in multiset(BasinMapView(filtered, conv));
  }

  /** A basin named exactly like a table key, sub-zones included, is drawn at that key's position. */
  lemma KeyedBasinPlaced(i: nat)
    requires i < |Table|
    ensures Placed(Table[i].0) == Table[i].1
  {
    KeysResolve(i);
  }

  /** Every point sits at a table position or at the default point. */
  lemma PlacedInTable(name: string)
    ensures Placed(name) == DefaultCoord || exists i :: 0 <= i < |Table| && Table[i].1 == Placed(name)
  {
    ResultInTable(name);
  }
}
