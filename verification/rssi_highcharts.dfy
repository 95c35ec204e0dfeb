/**
 * demo_scripts/plotting/rssi_plot_highcharts.py: reads a throughput/RSSI CSV file into three
 * chart series and a growing list of SSID/BSSID categories, `[index, name]` pairs.
 */
module RssiHighcharts {
  import opened Wrappers

  /** The category every chart starts with, and the name an all-zero BSSID row gets. */
  const NO_SIGNAL := "No Signal"

  /** The SSID/BSSID text of a row that had no interface: empty SSID, all-zero BSSID. */
  const EMPTY_SSID_BSSID := " <br> 00:00:00:00:00:00"

  /** A category: its position in the list and its SSID/BSSID name. */
  type Category = (int, string)

  /** The name under which an SSID/BSSID text is looked up. */
  function Normalise(ssidBssid: string): string
  {
    if ssidBssid == EMPTY_SSID_BSSID then NO_SIGNAL else ssidBssid
  }

  /** Each category records its own position. */
  predicate Indexed(categories: seq<Category>)
  {
    forall i :: 0 <= i < |categories| ==> categories[i].0 == i
  }

  /** No two categories share a name. */
  predicate DistinctNames(categories: seq<Category>)
  {
    forall i, j :: 0 <= i < j < |categories| ==> categories[i].1 != categories[j].1
  }

  /** The position of the first category called `name`. */
  function FirstNamed(categories: seq<Category>, name: string): (r: Option<nat>)
    ensures r.Some? ==> r.value < |categories| && categories[r.value].1 == name
    ensures r.Some? ==> forall j :: 0 <= j < r.value ==> categories[j].1 != name
    ensures r.None? ==> forall j :: 0 <= j < |categories| ==> categories[j].1 != name
  {
    if categories == [] then None
    else if categories[0].1 == name then Some(0)
    else
      match FirstNamed(categories[1..], name)
      case None => None
      case Some(k) => Some(k + 1)
  }

  /**
   * `append_ssid_bssid` on values: the categories afterwards and the index returned. A known
   * name gives the index of its first category and changes nothing; a new name is appended
   * as `[len(categories), name]` and the old length is returned.
   */
  function AppendSsidBssid(categories: seq<Category>, ssidBssid: string): (r: (seq<Category>, int))
    ensures FirstNamed(categories, Normalise(ssidBssid)).Some? ==>
      r.0 == categories && r.1 == FirstNamed(categories, Normalise(ssidBssid)).value
    ensures FirstNamed(categories, Normalise(ssidBssid)).None? ==>
      r.0 == categories + [(|categories|, Normalise(ssidBssid))] && r.1 == |categories|
  {
    var name := Normalise(ssidBssid);
    match FirstNamed(categories, name)
    case Some(k) => (categories, k)
    case None => (categories + [(|categories|, name)], |categories|)
  }

  /**
   * After the call the returned index names the (normalised) text, earlier categories are
   * kept, and the list stays indexed and free of duplicate names.
   */
  lemma AppendKeepsCategories(categories: seq<Category>, ssidBssid: string)
    ensures var (after, index) := AppendSsidBssid(categories, ssidBssid);
      0 <= index < |after| && after[index].1 == Normalise(ssidBssid) &&
      |categories| <= |after| && after[..|categories|] == categories
    ensures Indexed(categories) ==> Indexed(AppendSsidBssid(categories, ssidBssid).0)
    ensures DistinctNames(categories) ==> DistinctNames(AppendSsidBssid(categories, ssidBssid).0)
  {
  }

  /** The categories of a chart, the list `append_ssid_bssid` grows in place. */
  class Categories {
    var pairs: seq<Category>

    /** `[[0, no_signal]]`, the list `read_from_csv` starts from. */
    constructor ()
      ensures pairs == [(0, NO_SIGNAL)]
      ensures Indexed(pairs) && DistinctNames(pairs)
    {
      pairs := [(0, NO_SIGNAL)];
    }

    /** `append_ssid_bssid`: walk the list with a counter, appending the name when it is absent. */
    method Append(ssidBssid: string) returns (index: int)
      modifies this
      ensures (pairs, index) == AppendSsidBssid(old(pairs), ssidBssid)
    {
      var name := ssidBssid;
      if name == EMPTY_SSID_BSSID {
        name := NO_SIGNAL;
      }
      var i := 0;
      while i < |pairs|
        invariant 0 <= i <= |pairs|
        invariant pairs == old(pairs)
        invariant forall j :: 0 <= j < i ==> pairs[j].1 != name
      {
        if pairs[i].1 == name {
          return i;
        }
        i := i + 1;
      }
      pairs := pairs + [(i, name)];
      index := i;
    }
  }

  /** The SSID/BSSID text of a CSV row: columns 6 and 7 joined by " <br> ". */
  function RowName(row: seq<string>): string
    requires |row| >= 8
  {
    row[6] + " <br> " + row[7]
  }

  /** Every data row before `n` (all rows but the header) has the eight columns the chart reads. */
  predicate CompleteUpTo(rows: seq<seq<string>>, n: nat)
  {
    forall k :: 1 <= k < n && k < |rows| ==> |rows[k]| >= 8
  }

  /** Every data row has the eight columns the chart reads. */
  predicate DataRowsComplete(rows: seq<seq<string>>)
  {
    CompleteUpTo(rows, |rows|)
  }

  /** The three series and the categories `read_from_csv` returns. */
  datatype Chart = Chart(
    throughput: seq<(real, real)>, rssi: seq<(real, real)>, ssidBssid: seq<(real, int)>,
    categories: seq<Category>)

  /**
   * One data row read into the chart: a point per series at the row's time, and the row's
   * name looked up in (or appended to) the categories.
   */
  function AddRow(c: Chart, row: seq<string>, millisOf: string -> real, floatOf: string -> real): Chart
    requires |row| >= 8
  {
    var millis := millisOf(row[0]);
    var appended := AppendSsidBssid(c.categories, RowName(row));
    Chart(c.throughput + [(millis, floatOf(row[4]))], c.rssi + [(millis, floatOf(row[5]))],
          c.ssidBssid + [(millis, appended.1)], appended.0)
  }

  /**
   * The chart after rows `0..n` have been read: the header row adds nothing, every later row
   * one point per series, at the row's time, and its name to the categories.
   */
  function ChartAfter(rows: seq<seq<string>>, n: nat, millisOf: string -> real, floatOf: string -> real): (c: Chart)
    requires n <= |rows| && CompleteUpTo(rows, n)
  {
    if n <= 1 then Chart([], [], [], [(0, NO_SIGNAL)])
    else AddRow(ChartAfter(rows, n - 1, millisOf, floatOf), rows[n - 1], millisOf, floatOf)
  }

  /**
   * After `n` rows each series holds one point per data row, in row order; each SSID/BSSID
   * point indexes the category carrying that row's normalised name; the categories start
   * with "No Signal", record their own positions and have distinct names.
   */
  lemma {:induction false} ChartAfterPoints(rows: seq<seq<string>>, n: nat, millisOf: string -> real, floatOf: string -> real)
    requires n <= |rows| && CompleteUpTo(rows, n)
    ensures var c := ChartAfter(rows, n, millisOf, floatOf);
      var points := if n == 0 then 0 else n - 1;
      |c.throughput| == points && |c.rssi| == points && |c.ssidBssid| == points &&
      |c.categories| >= 1 && c.categories[0] == (0, NO_SIGNAL) &&
      Indexed(c.categories) && DistinctNames(c.categories)
    ensures var c := ChartAfter(rows, n, millisOf, floatOf);
      forall k :: 0 <= k < n - 1 ==>
        c.throughput[k] == (millisOf(rows[k + 1][0]), floatOf(rows[k + 1][4])) &&
        c.rssi[k] == (millisOf(rows[k + 1][0]), floatOf(rows[k + 1][5])) &&
        c.ssidBssid[k].0 == millisOf(rows[k + 1][0]) &&
        0 <= c.ssidBssid[k].1 < |c.categories| &&
        c.categories[c.ssidBssid[k].1].1 == Normalise(RowName(rows[k + 1]))
  {
    if n > 1 {
      ChartAfterPoints(rows, n - 1, millisOf, floatOf);
      var before := ChartAfter(rows, n - 1, millisOf, floatOf);
      AppendKeepsCategories(before.categories, RowName(rows[n - 1]));
      var c := ChartAfter(rows, n, millisOf, floatOf);
      assert c.categories[..|before.categories|] == before.categories;
      forall k | 0 <= k < n - 2
        ensures 0 <= c.ssidBssid[k].1 < |c.categories|
        ensures c.categories[c.ssidBssid[k].1].1 == Normalise(RowName(rows[k + 1]))
      {
        assert c.ssidBssid[k] == before.ssidBssid[k];
        assert c.categories[c.ssidBssid[k].1] == before.categories[c.ssidBssid[k].1];
      }
    }
  }

  /**
   * `read_from_csv` over the rows of the file, one point per series for every row after the
   * first; a data row too short for column 7 is an IndexError. Time and number parsing are
   * parameters.
   */
  method ReadFromCsv(rows: seq<seq<string>>, millisOf: string -> real, floatOf: string -> real)
    returns (r: Result<Chart>)
    ensures r.Err? <==> !DataRowsComplete(rows)
    ensures r.Err? ==> r.error == IndexError
    ensures r.Ok? ==> r.value == ChartAfter(rows, |rows|, millisOf, floatOf)
  {
    var throughput: seq<(real, real)> := [];
    var rssi: seq<(real, real)> := [];
    var ssidBssid: seq<(real, int)> := [];
    var categories := new Categories();
    var skipHeader := true;
    for i := 0 to |rows|
      invariant skipHeader <==> i == 0
      invariant CompleteUpTo(rows, i)
      invariant Chart(throughput, rssi, ssidBssid, categories.pairs) == ChartAfter(rows, i, millisOf, floatOf)
    {
      if skipHeader {
        skipHeader := false;
      } else {
        var row := rows[i];
        if |row| < 8 {
          return Err(IndexError);
        }
        throughput, rssi, ssidBssid := ReadRow(row, throughput, rssi, ssidBssid, categories, millisOf, floatOf);
        assert CompleteUpTo(rows, i + 1);
      }
    }
    r := Ok(Chart(throughput, rssi, ssidBssid, categories.pairs));
  }

  /** The body of the `read_from_csv` loop for one data row: a point per series, the name to the categories. */
  method ReadRow(row: seq<string>, throughput: seq<(real, real)>, rssi: seq<(real, real)>, ssidBssid: seq<(real, int)>,
                 categories: Categories, millisOf: string -> real, floatOf: string -> real)
    returns (throughput': seq<(real, real)>, rssi': seq<(real, real)>, ssidBssid': seq<(real, int)>)
    requires |row| >= 8
    modifies categories
    ensures Chart(throughput', rssi', ssidBssid', categories.pairs)
         == AddRow(Chart(throughput, rssi, ssidBssid, old(categories.pairs)), row, millisOf, floatOf)
  {
    var millis := millisOf(row[0]);
    throughput' := throughput + [(millis, floatOf(row[4]))];
    rssi' := rssi + [(millis, floatOf(row[5]))];
    var index := categories.Append(RowName(row));
    ssidBssid' := ssidBssid + [(millis, index)];
  }

  /** `create_highcharts`: the category labels of the SSID/BSSID axis, the names in list order. */
  method CategoryLabels(categories: seq<Category>) returns (labels: seq<string>)
    ensures |labels| == |categories|
    ensures forall i :: 0 <= i < |categories| ==> labels[i] == categories[i].1
    ensures Indexed(categories) ==> forall i :: 0 <= i < |categories| ==> labels[categories[i].0] == categories[i].1
  {
    labels := [];
    for i := 0 to |categories|
      invariant |labels| == i
      invariant forall j :: 0 <= j < i ==> labels[j] == categories[j].1
    {
      labels := labels + [categories[i].1];
    }
  }
}
