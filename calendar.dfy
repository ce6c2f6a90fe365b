/**
 * The deadline calendar: 35 day cells from the start of the current month,
 * each with the count of the first data entry whose date begins with that
 * day's key, shaded in four steps. The calendar arithmetic that yields each
 * day's "yyyy-MM-dd" key is a parameter `keyOf`.
 */
module Calendar {
  import opened Wrappers
  import opened Text

  datatype CalendarDay = CalendarDay(date: string, count: real)

  /** A cell: its position from the start of the month and its count. */
  datatype Cell = Cell(day: nat, count: real)

  const DayCount: nat := 35

  /** The four shades, palest first. */
  const Shades: seq<string> := [
    "bg-muted",
    "bg-emerald-200 dark:bg-emerald-900/40",
    "bg-emerald-400 dark:bg-emerald-800/60",
    "bg-emerald-500 dark:bg-emerald-700"]

  /** `scale`: the shade of a count. */
  function Scale(n: real): string {
    if n == 0.0 then "bg-muted"
    else if n < 3.0 then "bg-emerald-200 dark:bg-emerald-900/40"
    else if n < 6.0 then "bg-emerald-400 dark:bg-emerald-800/60"
    else "bg-emerald-500 dark:bg-emerald-700"
  }

  /** The step of a count, as the thresholds define it: 0 for none, then below 3, below 6, and the rest. */
  function Level(n: real): (r: nat)
    ensures r < |Shades|
    ensures r == 0 <==> n == 0.0
    ensures r == 1 <==> n != 0.0 && n < 3.0
    ensures r == 2 <==> 3.0 <= n < 6.0
    ensures r == 3 <==> 6.0 <= n
  {
    if n == 0.0 then 0 else if n < 3.0 then 1 else if n < 6.0 then 2 else 3
  }

  /** `data.find((x) => x.date.startsWith(key))`. */
  function Find(data: seq<CalendarDay>, key: string): Option<CalendarDay>
    decreases |data|
  {
    if data == [] then None
    else if StartsWith(data[0].date, key) then Some(data[0])
    else Find(data[1..], key)
  }

  /** `found?.count ?? 0`. */
  function CountFor(data: seq<CalendarDay>, key: string): real {
    match Find(data, key)
    case Some(d) => d.count
    case None => 0.0
  }

  /** `days`: one cell per day of the 35-day window. */
  function Cells(keyOf: nat -> string, data: seq<CalendarDay>): (r: seq<Cell>)
    ensures |r| == DayCount
    ensures forall i :: 0 <= i < |r| ==> r[i].day == i && r[i].count == CountFor(data, keyOf(i))
  {
    seq(DayCount, i requires 0 <= i < DayCount => Cell(i, CountFor(data, keyOf(i))))
  }

  // --------------------------------------------------------------- properties

  /** The shade of a count is the shade of its step. */
  lemma ScaleByLevel(n: real)
    ensures Scale(n) == Shades[Level(n)]
  {
  }

  /** A count of zero is muted; negative counts share the palest green with 1 and 2. */
  lemma ZeroAndNegative(n: real)
    ensures Scale(0.0) == "bg-muted"
    ensures n < 0.0 ==> Level(n) == 1
  {
  }

  /** More closings never give a paler shade. */
  lemma LevelMonotone(n: real, m: real)
    requires 0.0 <= n <= m
    ensures Level(n) <= Level(m)
  {
  }

  /** A day's count is that of the first entry whose date begins with the day's key. */
  lemma {:induction false} FirstMatch(data: seq<CalendarDay>, key: string, j: nat)
    requires j < |data| && StartsWith(data[j].date, key)
    requires forall k :: 0 <= k < j ==> !StartsWith(data[k].date, key)
    ensures CountFor(data, key) == data[j].count
    decreases j
  {
    if j > 0 {
      assert !StartsWith(data[0].date, key);
      forall k | 0 <= k < j - 1 ensures !StartsWith(data[1..][k].date, key) {
        assert data[1..][k] == data[k + 1];
      }
      FirstMatch(data[1..], key, j - 1);
    }
  }

  /** A day that no entry's date begins with counts 0. */
  lemma {:induction false} NoMatch(data: seq<CalendarDay>, key: string)
    requires forall k :: 0 <= k < |data| ==> !StartsWith(data[k].date, key)
    ensures CountFor(data, key) == 0.0
    decreases |data|
  {
    if data != [] {
      forall k | 0 <= k < |data| - 1 ensures !StartsWith(data[1..][k].date, key) {
        assert data[1..][k] == data[k + 1];
      }
      NoMatch(data[1..], key);
    }
  }

  /** An entry that some earlier entry shadows is never read: entries after the first match can be anything. */
  lemma {:induction false} LaterEntriesIgnored(data: seq<CalendarDay>, more: seq<CalendarDay>, key: string)
    requires exists j :: 0 <= j < |data| && StartsWith(data[j].date, key)
    ensures CountFor(data + more, key) == CountFor(data, key)
    decreases |data|
  {
    if !StartsWith(data[0].date, key) {
      var j :| 0 <= j < |data| && StartsWith(data[j].date, key);
      assert data[1..][j - 1] == data[j];
      assert (data + more)[1..] == data[1..] + more;
      LaterEntriesIgnored(data[1..], more, key);
    }
  }
}
