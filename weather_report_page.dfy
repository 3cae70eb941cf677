/**
 * The report-history page: the two-report selection, the compare button, and the
 * sortable table whose rows and sort settings the page keeps in component state.
 */
module WeatherReportPage {
  import opened Wrappers
  import CreateReportDto
  import JsString

  /** A row of the table: a stored report as the API returns it. */
  datatype WeatherReport = WeatherReport(id: string, fields: CreateReportDto.ReportFields)

  // ---------------------------------------------------------------------------
  // selection

  /** `prev.filter((reportId) => reportId !== id)`. */
  function Without(prev: seq<string>, id: string): (next: seq<string>)
    ensures forall x :: x in next <==> x in prev && x != id
    ensures |next| <= |prev|
  {
    if prev == [] then []
    else if prev[0] == id then Without(prev[1..], id)
    else [prev[0]] + Without(prev[1..], id)
  }

  /**
   * `handleReportSelection`: clicking a selected id unselects it; clicking a new id
   * when two are selected drops the older of the two; otherwise the id is appended.
   */
  function ToggleSelection(prev: seq<string>, id: string): (next: seq<string>)
    ensures id in prev ==> next == Without(prev, id)
    ensures id !in prev && |prev| >= 2 ==> next == [prev[1], id]
    ensures id !in prev && |prev| < 2 ==> next == prev + [id]
  {
    if id in prev then Without(prev, id)
    else if |prev| >= 2 then [prev[1], id]
    else prev + [id]
  }

  /** What the page keeps true of its selection: at most two ids, no id twice. */
  ghost predicate Bounded(sel: seq<string>)
  {
    |sel| <= 2 && forall i, j :: 0 <= i < j < |sel| ==> sel[i] != sel[j]
  }

  /**
   * A click keeps the selection bounded; unselecting keeps the other id, and selecting
   * a third id drops the oldest and keeps the newer.
   */
  lemma ToggleKeepsBounded(prev: seq<string>, id: string)
    requires Bounded(prev)
    ensures Bounded(ToggleSelection(prev, id))
    ensures id in ToggleSelection(prev, id) <==> id !in prev
    ensures id in prev && |prev| == 2 ==> ToggleSelection(prev, id) == (if prev[0] == id then [prev[1]] else [prev[0]])
    ensures id !in prev && |prev| == 2 ==> prev[0] !in ToggleSelection(prev, id) && prev[1] in ToggleSelection(prev, id)
  {
    if id in prev {
      if |prev| == 1 {
        assert Without(prev, id) == Without([], id);
      } else {
        assert prev[1..] == [prev[1]] && [prev[1]][1..] == [];
        if prev[0] == id {
          assert Without(prev, id) == Without([prev[1]], id) == [prev[1]];
        } else {
          assert Without(prev, id) == [prev[0]] + Without([prev[1]], id) == [prev[0]];
        }
      }
    }
  }

  /** The selection after a series of clicks on the checkboxes. */
  function Replay(sel: seq<string>, clicks: seq<string>): seq<string>
    decreases |clicks|
  {
    if clicks == [] then sel else Replay(ToggleSelection(sel, clicks[0]), clicks[1..])
  }

  /** Starting from the empty selection, no series of clicks selects more than two ids or one id twice. */
  lemma {:induction false} ReplayFromEmptyBounded(clicks: seq<string>)
    ensures Bounded(Replay([], clicks))
  {
    ReplayKeepsBounded([], clicks);
  }

  lemma {:induction false} ReplayKeepsBounded(sel: seq<string>, clicks: seq<string>)
    requires Bounded(sel)
    ensures Bounded(Replay(sel, clicks))
    decreases |clicks|
  {
    if clicks != [] {
      ToggleKeepsBounded(sel, clicks[0]);
      ReplayKeepsBounded(ToggleSelection(sel, clicks[0]), clicks[1..]);
    }
  }

  /** `handleCompare`: navigate to `/compare/<first>/<second>` only with exactly two ids selected. */
  function CompareTarget(sel: seq<string>): (path: Option<string>)
    ensures path.Some? <==> |sel| == 2
    ensures path.Some? ==> path.value == "/compare/" + sel[0] + "/" + sel[1]
  {
    if |sel| != 2 then None else Some("/compare/" + sel[0] + "/" + sel[1])
  }

  // ---------------------------------------------------------------------------
  // sorting

  datatype SortKey = Id | Location | Timestamp | Temperature | Pressure | Humidity | CloudCover | Description | Icon
  datatype Direction = Ascending | Descending
  datatype SortConfig = SortConfig(key: SortKey, direction: Direction)

  /** Clicking the column that is sorted ascending turns it descending; every other click sorts ascending. */
  function NextDirection(config: Option<SortConfig>, key: SortKey): (d: Direction)
    ensures d == Descending <==> config == Some(SortConfig(key, Ascending))
  {
    if config.Some? && config.value.key == key && config.value.direction == Ascending then Descending
    else Ascending
  }

  /** A column's value: text for the string columns, a number for the others. */
  datatype Cell = Text(s: string) | Number(x: real)

  function CellOf(r: WeatherReport, key: SortKey): Cell
  {
    match key
    case Id => Text(r.id)
    case Location => Text(r.fields.location)
    case Description => Text(r.fields.description)
    case Icon => Text(r.fields.icon)
    case Timestamp => Number(r.fields.timestamp)
    case Temperature => Number(r.fields.temperature)
    case Pressure => Number(r.fields.pressure)
    case Humidity => Number(r.fields.humidity)
    case CloudCover => Number(r.fields.cloudCover)
  }

  /** JavaScript `<` between two values of one column. */
  predicate CellLess(a: Cell, b: Cell)
  {
    match (a, b)
    case (Text(s), Text(t)) => JsString.LexLess(s, t)
    case (Number(x), Number(y)) => x < y
    case _ => false
  }

  lemma CellLessIrreflexive(c: Cell)
    ensures !CellLess(c, c)
  {
    if c.Text? { JsString.LexTrichotomy(c.s, c.s); }
  }

  /** `a` may stand before `b` in the chosen direction: the comparator does not put `b` first. */
  predicate InOrder(a: WeatherReport, b: WeatherReport, key: SortKey, dir: Direction)
    ensures CellOf(a, key) == CellOf(b, key) ==> InOrder(a, b, key, dir)
    ensures CellOf(a, key).Number? ==> (InOrder(a, b, key, dir) <==>
      if dir == Ascending then CellOf(a, key).x <= CellOf(b, key).x
      else CellOf(b, key).x <= CellOf(a, key).x)
  {
    CellLessIrreflexive(CellOf(a, key));
    if dir == Ascending then !CellLess(CellOf(b, key), CellOf(a, key))
    else !CellLess(CellOf(a, key), CellOf(b, key))
  }

  ghost predicate SortedBy(rows: seq<WeatherReport>, key: SortKey, dir: Direction)
  {
    forall i, j :: 0 <= i < j < |rows| ==> InOrder(rows[i], rows[j], key, dir)
  }

  /** Two rows are always comparable, and "may stand before" is transitive. */
  lemma InOrderTotal(a: WeatherReport, b: WeatherReport, key: SortKey, dir: Direction)
    ensures InOrder(a, b, key, dir) || InOrder(b, a, key, dir)
  {
    var x, y := CellOf(a, key), CellOf(b, key);
    if x.Text? && y.Text? { JsString.LexTrichotomy(x.s, y.s); }
  }

  lemma InOrderTransitive(a: WeatherReport, b: WeatherReport, c: WeatherReport, key: SortKey, dir: Direction)
    requires InOrder(a, b, key, dir) && InOrder(b, c, key, dir)
    ensures InOrder(a, c, key, dir)
  {
    var x, y, z := CellOf(a, key), CellOf(b, key), CellOf(c, key);
    if x.Text? && y.Text? && z.Text? {
      JsString.LexTrichotomy(x.s, y.s);
      JsString.LexTrichotomy(y.s, z.s);
      JsString.LexTrichotomy(x.s, z.s);
      if dir == Ascending {
        if JsString.LexLess(z.s, x.s) {
          if JsString.LexLess(x.s, y.s) { JsString.LexTransitive(z.s, x.s, y.s); }
        }
      } else {
        if JsString.LexLess(x.s, z.s) {
          if JsString.LexLess(z.s, y.s) { JsString.LexTransitive(x.s, z.s, y.s); }
        }
      }
    }
  }

  /** Inserts `r` in front of the first row it may stand before. */
  function Insert(r: WeatherReport, rows: seq<WeatherReport>, key: SortKey, dir: Direction): (out: seq<WeatherReport>)
    requires SortedBy(rows, key, dir)
    ensures SortedBy(out, key, dir)
    ensures multiset(out) == multiset(rows) + multiset{r}
  {
    if rows == [] then [r]
    else if InOrder(r, rows[0], key, dir) then
      BeforeHeadBeforeAll(r, rows, key, dir);
      ConsSorted(r, rows, key, dir);
      [r] + rows
    else
      InOrderTotal(r, rows[0], key, dir);
      SortedTail(rows, key, dir);
      var tail := Insert(r, rows[1..], key, dir);
      HeadBeforeInserted(r, rows, tail, key, dir);
      ConsSorted(rows[0], tail, key, dir);
      assert rows == [rows[0]] + rows[1..];
      [rows[0]] + tail
  }

  lemma BeforeHeadBeforeAll(r: WeatherReport, rows: seq<WeatherReport>, key: SortKey, dir: Direction)
    requires SortedBy(rows, key, dir) && |rows| > 0 && InOrder(r, rows[0], key, dir)
    ensures forall x :: x in rows ==> InOrder(r, x, key, dir)
  {
    forall x | x in rows ensures InOrder(r, x, key, dir) {
      var j :| 0 <= j < |rows| && rows[j] == x;
      if j > 0 { InOrderTransitive(r, rows[0], rows[j], key, dir); }
    }
  }

  lemma SortedTail(rows: seq<WeatherReport>, key: SortKey, dir: Direction)
    requires SortedBy(rows, key, dir) && |rows| > 0
    ensures SortedBy(rows[1..], key, dir)
  {
    forall i, j | 0 <= i < j < |rows[1..]| ensures InOrder(rows[1..][i], rows[1..][j], key, dir) {
      assert rows[1..][i] == rows[i + 1] && rows[1..][j] == rows[j + 1];
    }
  }

  lemma ConsSorted(a: WeatherReport, t: seq<WeatherReport>, key: SortKey, dir: Direction)
    requires SortedBy(t, key, dir) && forall x :: x in t ==> InOrder(a, x, key, dir)
    ensures SortedBy([a] + t, key, dir)
  {
    forall i, j | 0 <= i < j < |[a] + t| ensures InOrder(([a] + t)[i], ([a] + t)[j], key, dir) {
      if i == 0 { assert t[j - 1] in t; }
      else { assert ([a] + t)[i] == t[i - 1] && ([a] + t)[j] == t[j - 1]; }
    }
  }

  /** The head of the rows may stand before every row of the insertion into the rest. */
  lemma HeadBeforeInserted(r: WeatherReport, rows: seq<WeatherReport>, tail: seq<WeatherReport>,
                           key: SortKey, dir: Direction)
    requires SortedBy(rows, key, dir) && |rows| > 0 && InOrder(rows[0], r, key, dir)
    requires multiset(tail) == multiset(rows[1..]) + multiset{r}
    ensures forall x :: x in tail ==> InOrder(rows[0], x, key, dir)
  {
    forall x | x in tail ensures InOrder(rows[0], x, key, dir) {
      assert x in multiset(tail);
      if x != r {
        assert x in multiset(rows[1..]);
        var j :| 0 <= j < |rows[1..]| && rows[1..][j] == x;
        assert rows[j + 1] == x;
      }
    }
  }

  /**
   * `[...weatherReports].sort(comparator)` for a column and a direction: the rows,
   * rearranged, in the chosen order.
   */
  function SortRows(rows: seq<WeatherReport>, key: SortKey, dir: Direction): (out: seq<WeatherReport>)
    ensures SortedBy(out, key, dir)
    ensures multiset(out) == multiset(rows)
  {
    if rows == [] then []
    else
      assert rows == [rows[0]] + rows[1..];
      Insert(rows[0], SortRows(rows[1..], key, dir), key, dir)
  }

  // ---------------------------------------------------------------------------
  // the page's state

  class ReportHistory {
    var weatherReports: seq<WeatherReport>
    var selectedReports: seq<string>
    var sortConfig: Option<SortConfig>

    ghost predicate Valid()
      reads this
    {
      Bounded(selectedReports)
    }

    constructor ()
      ensures Valid()
      ensures weatherReports == [] && selectedReports == [] && sortConfig == None
    {
      weatherReports, selectedReports, sortConfig := [], [], None;
    }

    /** The reports fetched for the current search term replace the rows. */
    method ReportsLoaded(reports: seq<WeatherReport>)
      requires Valid()
      modifies this
      ensures Valid()
      ensures weatherReports == reports
      ensures selectedReports == old(selectedReports) && sortConfig == old(sortConfig)
    {
      weatherReports := reports;
    }

    /** `handleSort`: the new direction for `key`, and the rows rearranged in that order. */
    method HandleSort(key: SortKey)
      requires Valid()
      modifies this
      ensures Valid()
      ensures sortConfig == Some(SortConfig(key, NextDirection(old(sortConfig), key)))
      ensures sortConfig.value.direction == Descending <==> old(sortConfig) == Some(SortConfig(key, Ascending))
      ensures SortedBy(weatherReports, key, sortConfig.value.direction)
      ensures multiset(weatherReports) == multiset(old(weatherReports))
      ensures selectedReports == old(selectedReports)
    {
      var direction := Ascending;
      if sortConfig.Some? && sortConfig.value.key == key && sortConfig.value.direction == Ascending {
        direction := Descending;
      }
      sortConfig := Some(SortConfig(key, direction));
      weatherReports := SortRows(weatherReports, key, direction);
    }

    /** `handleReportSelection`. */
    method HandleReportSelection(id: string)
      requires Valid()
      modifies this
      ensures Valid()
      ensures selectedReports == ToggleSelection(old(selectedReports), id)
      ensures weatherReports == old(weatherReports) && sortConfig == old(sortConfig)
    {
      ToggleKeepsBounded(selectedReports, id);
      selectedReports := ToggleSelection(selectedReports, id);
    }

    /** `handleCompare`: the page to open, if exactly two reports are selected, in selection order. */
    method HandleCompare() returns (target: Option<string>)
      requires Valid()
      ensures target.Some? <==> |selectedReports| == 2
      ensures target.Some? ==> target.value == "/compare/" + selectedReports[0] + "/" + selectedReports[1]
    {
      target := CompareTarget(selectedReports);
    }
  }
}
