/**
 * The company leaderboard table: a sorted copy of its rows, largest first by
 * the column the user picked, volume until they pick another. The rows
 * themselves are a value and are not changed.
 */
module CompanyTable {
  import opened Offers
  import opened Sorting
  import opened Views

  /** The numeric columns a header click can sort by. */
  datatype Column = VolumeColumn | PercentColumn | OffersColumn

  /** `useState("volume")`. */
  const DefaultColumn: Column := VolumeColumn

  function CompanyPercent(c: CompanyRow): real { c.percent }
  function CompanyOffers(c: CompanyRow): real { c.offers }

  /** The value `b[sort]` reads from a row. */
  function ColumnKey(col: Column): CompanyRow -> real {
    match col
    case VolumeColumn => CompanyVolume
    case PercentColumn => CompanyPercent
    case OffersColumn => CompanyOffers
  }

  /** `[...rows].sort((a, b) => b[sort] - a[sort])`. */
  function SortedRows(rows: seq<CompanyRow>, col: Column): seq<CompanyRow> {
    SortDesc(rows, ColumnKey(col))
  }

  // --------------------------------------------------------------- properties

  /** The table shows every row exactly as often as it was given, largest first by the chosen column. */
  lemma SortedRowsProps(rows: seq<CompanyRow>, col: Column)
    ensures var r := SortedRows(rows, col);
      |r| == |rows| && multiset(r) == multiset(rows) &&
      forall i, j :: 0 <= i < j < |r| ==> ColumnKey(col)(r[i]) >= ColumnKey(col)(r[j])
  {
    SortDescProps(rows, ColumnKey(col));
  }

  /** Until a header is clicked, the rows are ordered by volume. */
  lemma DefaultByVolume(rows: seq<CompanyRow>)
    ensures var r := SortedRows(rows, DefaultColumn);
      forall i, j :: 0 <= i < j < |r| ==> r[i].volume >= r[j].volume
  {
    SortDescProps(rows, CompanyVolume);
  }

  /**
   * The dashboard's own leaderboard is already ranked by volume, so the
   * table's default sort shows it unchanged, ties included.
   */
  lemma DefaultKeepsLeaderboard(filtered: seq<Offer>, conv: real -> real)
    ensures SortedRows(CompanyView(filtered, conv), DefaultColumn) == CompanyView(filtered, conv)
  {
    CompanyViewProps(filtered, conv);
    SortDescSorted(CompanyView(filtered, conv), CompanyVolume);
  }
}
