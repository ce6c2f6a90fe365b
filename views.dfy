/**
 * The group-and-rank views of the dashboard: volume by product, exports by
 * basin and the company leaderboard. Each adds every filtered offer's volume
 * into one bucket, converts the totals for display, sorts them by volume
 * (largest first, ties in insertion order) and keeps the first few.
 */
module Views {
  import opened Wrappers
  import opened Text
  import opened Offers
  import opened Fields
  import opened Groups
  import opened Sorting

  // ---------------------------------------------------------------- byProduct

  datatype ProductItem = ProductItem(product: string, volume: real)

  function ProductVolume(p: ProductItem): real { p.volume }
  function ProductName(p: ProductItem): string { p.product }

  /** `pickString(o, ["product", "product_type"]) || "Otro"`. */
  function ProductBucket(o: Offer): string { TextOr(o, ProductKeys, "Otro") }

  /** One row per bucket, in insertion order, with the total converted. */
  function ProductRows(g: Sums, conv: real -> real): seq<ProductItem>
    requires forall k :: k in g.keys ==> k in g.total
  {
    seq(|g.keys|, i requires 0 <= i < |g.keys| => ProductItem(g.keys[i], conv(g.total[g.keys[i]])))
  }

  /** `byProduct`: the twelve largest products. */
  function ProductView(filtered: seq<Offer>, conv: real -> real): seq<ProductItem> {
    GroupValid(filtered, ProductBucket, Volume);
    Take(SortDesc(ProductRows(Group(filtered, ProductBucket, Volume), conv), ProductVolume), 12)
  }

  method ByProduct(filtered: seq<Offer>, conv: real -> real) returns (items: seq<ProductItem>)
    ensures items == ProductView(filtered, conv)
  {
    var g := SumBy(filtered, ProductBucket, Volume);
    GroupValid(filtered, ProductBucket, Volume);
    items := Take(SortDesc(ProductRows(g, conv), ProductVolume), 12);
  }

  /**
   * Twelve rows, or one per product when there are fewer, largest first; no product left out
   * is larger than one shown; all of them when there are at most twelve.
   */
  lemma ProductViewProps(filtered: seq<Offer>, conv: real -> real)
    ensures var g := Group(filtered, ProductBucket, Volume); var r := ProductView(filtered, conv);
      (forall k :: k in g.keys ==> k in g.total) &&
      |r| == (if |g.keys| <= 12 then |g.keys| else 12) && NonIncreasing(r, ProductVolume) && DistinctBy(r, ProductName) &&
      (var sorted := SortDesc(ProductRows(g, conv), ProductVolume);
       forall i, j :: 0 <= i < |r| <= j < |sorted| ==> r[i].volume >= sorted[j].volume) &&
      (|g.keys| <= 12 ==> multiset(r) == multiset(ProductRows(g, conv)))
  {
    var g := Group(filtered, ProductBucket, Volume);
    GroupValid(filtered, ProductBucket, Volume);
    TopRows(ProductRows(g, conv), ProductVolume, ProductName, 12);
  }

  /** A row of the grouped totals is a key of some offer, with the converted sum of its values. */
  lemma ProductRowsSource(filtered: seq<Offer>, key: Offer -> string, vol: Offer -> real, conv: real -> real,
                          p: ProductItem)
    requires Valid(Group(filtered, key, vol))
    requires p in ProductRows(Group(filtered, key, vol), conv)
    ensures exists i :: 0 <= i < |filtered| && key(filtered[i]) == p.product
    ensures p.volume == conv(BucketSum(filtered, key, vol, p.product))
  {
    var rows := ProductRows(Group(filtered, key, vol), conv);
    var j :| 0 <= j < |rows| && rows[j] == p;
    GroupKeys(filtered, key, vol, p.product);
    GroupTotals(filtered, key, vol, p.product);
  }

  /** Each row is a product some offer has, with the converted sum of that product's volumes. */
  lemma ProductRowSource(filtered: seq<Offer>, conv: real -> real, p: ProductItem)
    requires p in ProductView(filtered, conv)
    ensures exists i :: 0 <= i < |filtered| && ProductBucket(filtered[i]) == p.product
    ensures p.volume == conv(BucketSum(filtered, ProductBucket, Volume, p.product))
  {
    ProductViewRows(filtered, conv, p);
    ProductRowsSource(filtered, ProductBucket, Volume, conv, p);
  }

  lemma ProductViewRows(filtered: seq<Offer>, conv: real -> real, p: ProductItem)
    requires p in ProductView(filtered, conv)
    ensures Valid(Group(filtered, ProductBucket, Volume))
    ensures p in ProductRows(Group(filtered, ProductBucket, Volume), conv)
  {
    GroupValid(filtered, ProductBucket, Volume);
    TopRows(ProductRows(Group(filtered, ProductBucket, Volume), conv), ProductVolume, ProductName, 12);
  }

  /** The product totals add up to the total volume of the filtered offers. */
  lemma ProductTotals(filtered: seq<Offer>)
    ensures var g := Group(filtered, ProductBucket, Volume);
      SumKeys(g.keys, g.total) == SumOf(filtered, Volume)
  {
    GroupSumsToTotal(filtered, ProductBucket, Volume);
  }

  /** An offer without a product field is counted under "Otro". */
  lemma ProductDefault(o: Offer)
    requires forall k :: k in ProductKeys ==> AsText(Field(o, k)).None?
    ensures ProductBucket(o) == "Otro"
  {
    FirstOfEarliest(o, ProductKeys, AsText);
  }

  // ----------------------------------------------------------- exportsByBasin

  datatype BasinBar = BasinBar(basin: string, volume: real)

  function BarVolume(b: BasinBar): real { b.volume }
  function BarName(b: BasinBar): string { b.basin }

  /** `(pickString(o, ["basin", "cuenca", "basin_name"]) || "Desconocida").trim()`. */
  function BasinBucket(o: Offer): string { Trim(TextOr(o, BasinKeys, "Desconocida")) }

  function BasinBars(g: Sums, conv: real -> real): seq<BasinBar>
    requires forall k :: k in g.keys ==> k in g.total
  {
    seq(|g.keys|, i requires 0 <= i < |g.keys| => BasinBar(g.keys[i], conv(g.total[g.keys[i]])))
  }

  /** `exportsByBasin`: the twelve basins with most volume. */
  function ExportsView(filtered: seq<Offer>, conv: real -> real): seq<BasinBar> {
    GroupValid(filtered, BasinBucket, BarrelVolume);
    Take(SortDesc(BasinBars(Group(filtered, BasinBucket, BarrelVolume), conv), BarVolume), 12)
  }

  method ExportsByBasin(filtered: seq<Offer>, conv: real -> real) returns (bars: seq<BasinBar>)
    ensures bars == ExportsView(filtered, conv)
  {
    var g := SumBy(filtered, BasinBucket, BarrelVolume);
    GroupValid(filtered, BasinBucket, BarrelVolume);
    bars := Take(SortDesc(BasinBars(g, conv), BarVolume), 12);
  }

  /**
   * Twelve bars, or one per basin name when there are fewer, largest first; each is the
   * converted sum of that basin's volumes; the bucket totals add up to the
   * total volume.
   */
  lemma ExportsViewProps(filtered: seq<Offer>, conv: real -> real)
    ensures var g := Group(filtered, BasinBucket, BarrelVolume); var r := ExportsView(filtered, conv);
      (forall k :: k in g.keys ==> k in g.total) &&
      |r| == (if |g.keys| <= 12 then |g.keys| else 12) && NonIncreasing(r, BarVolume) && DistinctBy(r, BarName) &&
      (forall b :: b in r ==>
         (exists i :: 0 <= i < |filtered| && BasinBucket(filtered[i]) == b.basin) &&
         b.volume == conv(BucketSum(filtered, BasinBucket, BarrelVolume, b.basin))) &&
      (|g.keys| <= 12 ==> multiset(r) == multiset(BasinBars(g, conv))) &&
      SumKeys(g.keys, g.total) == SumOf(filtered, BarrelVolume)
  {
    var g := Group(filtered, BasinBucket, BarrelVolume);
    GroupValid(filtered, BasinBucket, BarrelVolume);
    var rows := BasinBars(g, conv);
    TopRows(rows, BarVolume, BarName, 12);
    var r := ExportsView(filtered, conv);
    forall b | b in r
      ensures exists i :: 0 <= i < |filtered| && BasinBucket(filtered[i]) == b.basin
      ensures b.volume == conv(BucketSum(filtered, BasinBucket, BarrelVolume, b.basin))
    {
      assert b in rows;
      GroupKeys(filtered, BasinBucket, BarrelVolume, b.basin);
      GroupTotals(filtered, BasinBucket, BarrelVolume, b.basin);
    }
    GroupSumsToTotal(filtered, BasinBucket, BarrelVolume);
  }

  /** An offer without a basin field is counted under "Desconocida". */
  lemma BasinDefault(o: Offer)
    requires forall k :: k in BasinKeys ==> AsText(Field(o, k)).None?
    ensures BasinBucket(o) == "Desconocida"
  {
    FirstOfEarliest(o, BasinKeys, AsText);
    TrimNoWhite("Desconocida");
  }

  // ---------------------------------------------------------------- companies

  datatype CompanyRow = CompanyRow(company: string, volume: real, percent: real, offers: real)

  function CompanyVolume(c: CompanyRow): real { c.volume }
  function CompanyName(c: CompanyRow): string { c.company }

  /** `pickString(o, ["company", "buyer", "seller"]) || "N/A"`. */
  function CompanyBucket(o: Offer): string { TextOr(o, CompanyKeys, "N/A") }

  /** `totalVol ? v.volume / totalVol : 0`. */
  function Share(v: real, totalVol: real): real {
    if totalVol != 0.0 then v / totalVol else 0.0
  }

  /** One row per listed company, in list order. */
  function CompanyRows(keys: seq<string>, vols: map<string, real>, counts: map<string, real>,
                       totalVol: real, conv: real -> real): seq<CompanyRow>
    requires forall k :: k in keys ==> k in vols && k in counts
    decreases |keys|
  {
    if keys == [] then []
    else
      var k := keys[|keys| - 1];
      CompanyRows(keys[..|keys| - 1], vols, counts, totalVol, conv) +
      [CompanyRow(k, conv(vols[k]), Share(vols[k], totalVol), counts[k])]
  }

  /** `companies`: the twenty companies with most volume. */
  function CompanyView(filtered: seq<Offer>, conv: real -> real): seq<CompanyRow> {
    var vols := Group(filtered, CompanyBucket, Volume);
    var counts := Group(filtered, CompanyBucket, One);
    GroupValid(filtered, CompanyBucket, Volume);
    GroupValid(filtered, CompanyBucket, One);
    GroupKeysOnly(filtered, CompanyBucket, Volume, One);
    Take(SortDesc(CompanyRows(vols.keys, vols.total, counts.total, SumOf(filtered, Volume), conv), CompanyVolume), 20)
  }

  /** The `companies` loop: one pass adding volume and one offer to the company's entry. */
  method Companies(filtered: seq<Offer>, conv: real -> real) returns (rows: seq<CompanyRow>)
    ensures rows == CompanyView(filtered, conv)
  {
    var vols := Empty;
    var counts := Empty;
    var totalVol := 0.0;
    for i := 0 to |filtered|
      invariant vols == Group(filtered[..i], CompanyBucket, Volume)
      invariant counts == Group(filtered[..i], CompanyBucket, One)
      invariant totalVol == SumOf(filtered[..i], Volume)
    {
      var o := filtered[i];
      var picked := PickString(o, CompanyKeys);
      var company := picked.GetOr("N/A");
      var got := PickNumber(o, VolumeKeys);
      var vol := got.GetOr(0.0);
      totalVol := totalVol + vol;
      vols := AddTo(vols, company, vol);
      counts := AddTo(counts, company, 1.0);
      assert filtered[..i + 1][..i] == filtered[..i];
    }
    assert filtered[..|filtered|] == filtered;
    GroupValid(filtered, CompanyBucket, Volume);
    GroupValid(filtered, CompanyBucket, One);
    GroupKeysOnly(filtered, CompanyBucket, Volume, One);
    rows := Take(SortDesc(CompanyRows(vols.keys, vols.total, counts.total, totalVol, conv), CompanyVolume), 20);
  }

  function SumShares(rows: seq<CompanyRow>): real
    decreases |rows|
  {
    if rows == [] then 0.0 else SumShares(rows[..|rows| - 1]) + rows[|rows| - 1].percent
  }

  function SumOffers(rows: seq<CompanyRow>): real
    decreases |rows|
  {
    if rows == [] then 0.0 else SumOffers(rows[..|rows| - 1]) + rows[|rows| - 1].offers
  }

  lemma {:induction false} CompanyRowsSums(keys: seq<string>, vols: map<string, real>, counts: map<string, real>,
                                           totalVol: real, conv: real -> real)
    requires forall k :: k in keys ==> k in vols && k in counts
    ensures var rows := CompanyRows(keys, vols, counts, totalVol, conv);
      |rows| == |keys| &&
      (forall i :: 0 <= i < |rows| ==> rows[i].company == keys[i]) &&
      SumOffers(rows) == SumKeys(keys, counts) &&
      SumShares(rows) == (if totalVol != 0.0 then SumKeys(keys, vols) / totalVol else 0.0)
    decreases |keys|
  {
    if keys != [] {
      var init := keys[..|keys| - 1];
      var k := keys[|keys| - 1];
      CompanyRowsSums(init, vols, counts, totalVol, conv);
      var rows := CompanyRows(keys, vols, counts, totalVol, conv);
      var head := CompanyRows(init, vols, counts, totalVol, conv);
      assert rows[..|rows| - 1] == head;
      if totalVol != 0.0 {
        DivideSum(SumKeys(init, vols), vols[k], totalVol);
      }
    }
  }

  lemma DivideSum(a: real, b: real, c: real)
    requires c != 0.0
    ensures a / c + b / c == (a + b) / c
  {
  }

  /**
   * Twenty rows, or one per company when there are fewer, largest first; no company left out
   * has more volume than one shown, and all are shown when there are at most twenty.
   */
  lemma CompanyViewProps(filtered: seq<Offer>, conv: real -> real)
    ensures var r := CompanyView(filtered, conv);
      |r| <= 20 && NonIncreasing(r, CompanyVolume) && DistinctBy(r, CompanyName)
    ensures var vols := Group(filtered, CompanyBucket, Volume);
      var counts := Group(filtered, CompanyBucket, One);
      (forall k :: k in vols.keys ==> k in vols.total && k in counts.total) &&
      var rows := CompanyRows(vols.keys, vols.total, counts.total, SumOf(filtered, Volume), conv);
      var sorted := SortDesc(rows, CompanyVolume);
      var r := CompanyView(filtered, conv);
      |r| == (if |vols.keys| <= 20 then |vols.keys| else 20) &&
      (forall i, j :: 0 <= i < |r| <= j < |sorted| ==> r[i].volume >= sorted[j].volume) &&
      (|vols.keys| <= 20 ==> multiset(r) == multiset(rows))
  {
    var vols := Group(filtered, CompanyBucket, Volume);
    var counts := Group(filtered, CompanyBucket, One);
    CompanyBuckets(filtered);
    CompanyTop(vols.keys, vols.total, counts.total, SumOf(filtered, Volume), conv);
  }

  /** The sort and cut of the rows built from a list of distinct keys. */
  lemma CompanyTop(keys: seq<string>, vols: map<string, real>, counts: map<string, real>,
                   totalVol: real, conv: real -> real)
    requires forall k :: k in keys ==> k in vols && k in counts
    requires Unique(keys)
    ensures var rows := CompanyRows(keys, vols, counts, totalVol, conv);
      var sorted := SortDesc(rows, CompanyVolume);
      var r := Take(sorted, 20);
      |r| == (if |keys| <= 20 then |keys| else 20) &&
      NonIncreasing(r, CompanyVolume) && DistinctBy(r, CompanyName) &&
      (forall i, j :: 0 <= i < |r| <= j < |sorted| ==> r[i].volume >= sorted[j].volume) &&
      (|keys| <= 20 ==> multiset(r) == multiset(rows))
  {
    var rows := CompanyRows(keys, vols, counts, totalVol, conv);
    CompanyRowsSums(keys, vols, counts, totalVol, conv);
    TopRows(rows, CompanyVolume, CompanyName, 20);
  }

  /** A row of `CompanyRows` is a listed company with its converted volume, its share and its count. */
  lemma {:induction false} CompanyRowsMember(keys: seq<string>, vols: map<string, real>, counts: map<string, real>,
                                             totalVol: real, conv: real -> real, x: CompanyRow)
    requires forall k :: k in keys ==> k in vols && k in counts
    requires x in CompanyRows(keys, vols, counts, totalVol, conv)
    ensures x.company in keys && x.volume == conv(vols[x.company]) &&
            x.percent == Share(vols[x.company], totalVol) && x.offers == counts[x.company]
    decreases |keys|
  {
    var init := keys[..|keys| - 1];
    if x in CompanyRows(init, vols, counts, totalVol, conv) {
      CompanyRowsMember(init, vols, counts, totalVol, conv, x);
      assert forall k :: k in init ==> k in keys;
    }
  }

  /** The rows before sorting, over any grouping key and volume. */
  lemma CompanyRowsSource(filtered: seq<Offer>, key: Offer -> string, vol: Offer -> real, conv: real -> real,
                          x: CompanyRow)
    requires forall k :: k in Group(filtered, key, vol).keys ==>
      k in Group(filtered, key, vol).total && k in Group(filtered, key, One).total
    requires x in CompanyRows(Group(filtered, key, vol).keys, Group(filtered, key, vol).total,
                              Group(filtered, key, One).total, SumOf(filtered, vol), conv)
    ensures exists i :: 0 <= i < |filtered| && key(filtered[i]) == x.company
    ensures x.volume == conv(BucketSum(filtered, key, vol, x.company))
    ensures x.offers == BucketSum(filtered, key, One, x.company)
    ensures x.percent == Share(BucketSum(filtered, key, vol, x.company), SumOf(filtered, vol))
  {
    var vols := Group(filtered, key, vol);
    var counts := Group(filtered, key, One);
    CompanyRowsMember(vols.keys, vols.total, counts.total, SumOf(filtered, vol), conv, x);
    GroupKeys(filtered, key, vol, x.company);
    GroupTotals(filtered, key, vol, x.company);
    GroupTotals(filtered, key, One, x.company);
  }

  lemma CompanyViewRows(filtered: seq<Offer>, conv: real -> real, x: CompanyRow)
    requires x in CompanyView(filtered, conv)
    ensures var vols := Group(filtered, CompanyBucket, Volume);
      var counts := Group(filtered, CompanyBucket, One);
      (forall k :: k in vols.keys ==> k in vols.total && k in counts.total) &&
      x in CompanyRows(vols.keys, vols.total, counts.total, SumOf(filtered, Volume), conv)
  {
    var vols := Group(filtered, CompanyBucket, Volume);
    var counts := Group(filtered, CompanyBucket, One);
    CompanyBuckets(filtered);
    var rows := CompanyRows(vols.keys, vols.total, counts.total, SumOf(filtered, Volume), conv);
    CompanyRowsSums(vols.keys, vols.total, counts.total, SumOf(filtered, Volume), conv);
    TopRows(rows, CompanyVolume, CompanyName, 20);
  }

  /**
   * Each row is a company some offer names, with the converted sum of its
   * volumes, the number of its offers, and its unconverted share of the total.
   */
  lemma CompanyRowSource(filtered: seq<Offer>, conv: real -> real, x: CompanyRow)
    requires x in CompanyView(filtered, conv)
    ensures exists i :: 0 <= i < |filtered| && CompanyBucket(filtered[i]) == x.company
    ensures x.volume == conv(BucketSum(filtered, CompanyBucket, Volume, x.company))
    ensures x.offers == BucketSum(filtered, CompanyBucket, One, x.company)
    ensures x.percent == Share(BucketSum(filtered, CompanyBucket, Volume, x.company), SumOf(filtered, Volume))
  {
    CompanyViewRows(filtered, conv, x);
    CompanyRowsSource(filtered, CompanyBucket, Volume, conv, x);
  }

  /** The volume and count buckets list the same companies. */
  lemma CompanyBuckets(filtered: seq<Offer>)
    ensures var vols := Group(filtered, CompanyBucket, Volume);
      var counts := Group(filtered, CompanyBucket, One);
      Valid(vols) && Valid(counts) && vols.keys == counts.keys &&
      forall k :: k in vols.keys ==> k in vols.total && k in counts.total
  {
    GroupValid(filtered, CompanyBucket, Volume);
    GroupValid(filtered, CompanyBucket, One);
    GroupKeysOnly(filtered, CompanyBucket, Volume, One);
  }

  /** Before the cut, the offer counts add up to the number of filtered offers. */
  lemma CompanyOffersTotal(filtered: seq<Offer>, conv: real -> real)
    ensures var vols := Group(filtered, CompanyBucket, Volume);
      var counts := Group(filtered, CompanyBucket, One);
      (forall k :: k in vols.keys ==> k in vols.total && k in counts.total) &&
      SumOffers(CompanyRows(vols.keys, vols.total, counts.total, SumOf(filtered, Volume), conv)) == |filtered| as real
  {
    var vols := Group(filtered, CompanyBucket, Volume);
    var counts := Group(filtered, CompanyBucket, One);
    CompanyBuckets(filtered);
    CompanyRowsSums(vols.keys, vols.total, counts.total, SumOf(filtered, Volume), conv);
    GroupSumsToTotal(filtered, CompanyBucket, One);
    CountAll(filtered);
  }

  /** Before the cut, the shares add up to 1 whenever the total volume is not zero. */
  lemma CompanySharesTotal(filtered: seq<Offer>, conv: real -> real)
    ensures var vols := Group(filtered, CompanyBucket, Volume);
      var counts := Group(filtered, CompanyBucket, One);
      var totalVol := SumOf(filtered, Volume);
      (forall k :: k in vols.keys ==> k in vols.total && k in counts.total) &&
      (totalVol != 0.0 ==> SumShares(CompanyRows(vols.keys, vols.total, counts.total, totalVol, conv)) == 1.0)
  {
    var vols := Group(filtered, CompanyBucket, Volume);
    var counts := Group(filtered, CompanyBucket, One);
    var totalVol := SumOf(filtered, Volume);
    CompanyBuckets(filtered);
    CompanyRowsSums(vols.keys, vols.total, counts.total, totalVol, conv);
    GroupSumsToTotal(filtered, CompanyBucket, Volume);
    if totalVol != 0.0 {
      SharesTotal(SumKeys(vols.keys, vols.total), totalVol);
    }
  }

  lemma SharesTotal(a: real, b: real)
    requires a == b && b != 0.0
    ensures a / b == 1.0
  {
  }
}
