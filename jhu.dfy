/** Johns Hopkins CSSE time series: each wide table (one row per location,
    one column per date) is melted into long form keyed by
    (Country/Region, Province/State, Date), and the three indicator tables are
    merged column-wise on that key. */
module JohnsHopkins {
  import opened Wrappers
  import opened Calendar
  import opened ReportingCutoff
  import opened Tables
  import M = Metadata

  // ---------------------------------------------------------------------------
  // The wide table as read from the CSV

  /** One location: the four id columns and one count per date column. */
  datatype WideRow = WideRow(country: string, province: Option<string>, lat: Value, long: Value, counts: seq<Cell>)

  /** The date columns (headers already parsed) and the rows under them. */
  datatype WideTable = WideTable(dates: seq<Date>, rows: seq<WideRow>)

  /** A data frame is rectangular: every row has one cell per date column. */
  predicate Rectangular(t: WideTable) {
    forall i :: 0 <= i < |t.rows| ==> |t.rows[i].counts| == |t.dates|
  }

  // ---------------------------------------------------------------------------
  // df.melt(id_vars=["Country/Region", "Province/State", "Lat", "Long"], var_name="Date")

  datatype MeltRow = MeltRow(country: string, province: Option<string>, lat: Value, long: Value, date: Date, value: Cell)

  /** The melted row for location `i` and date column `j`. */
  function Melted(t: WideTable, i: int, j: int): MeltRow
    requires Rectangular(t) && 0 <= i < |t.rows| && 0 <= j < |t.dates|
  {
    var row := t.rows[i];
    MeltRow(row.country, row.province, row.lat, row.long, t.dates[j], row.counts[j])
  }

  /** All locations for date column `j`, in row order. */
  function MeltColumn(t: WideTable, j: int): (ms: seq<MeltRow>)
    requires Rectangular(t) && 0 <= j < |t.dates|
    ensures |ms| == |t.rows|
    ensures forall i :: 0 <= i < |t.rows| ==> ms[i] == Melted(t, i, j)
  {
    seq(|t.rows|, i requires 0 <= i < |t.rows| => Melted(t, i, j))
  }

  /** The melt of the first `k` date columns: column after column. */
  function MeltUpTo(t: WideTable, k: int): (ms: seq<MeltRow>)
    requires Rectangular(t) && 0 <= k <= |t.dates|
    ensures |ms| == k * |t.rows|
  {
    if k == 0 then [] else MeltUpTo(t, k - 1) + MeltColumn(t, k - 1)
  }

  function Melt(t: WideTable): seq<MeltRow>
    requires Rectangular(t)
  {
    MeltUpTo(t, |t.dates|)
  }

  lemma {:induction false} MultiplyStep(j: int, i: int, n: int, k: int)
    requires 0 <= j < k && 0 <= i < n
    ensures 0 <= j * n + i < k * n
    ensures (k - 1) * n + n == k * n
  {
    assert (k - 1) * n + n == k * n;
    if j < k - 1 {
      MultiplyStep(j, i, n, k - 1);
    }
  }

  /** The melt is date-column-major: position `j * n + i` holds location `i`
      under date column `j`, for `n` locations. */
  lemma {:induction false} MeltIndex(t: WideTable, k: int, j: int, i: int)
    requires Rectangular(t) && 0 <= k <= |t.dates|
    requires 0 <= j < k && 0 <= i < |t.rows|
    ensures 0 <= j * |t.rows| + i < |MeltUpTo(t, k)|
    ensures MeltUpTo(t, k)[j * |t.rows| + i] == Melted(t, i, j)
  {
    var n := |t.rows|;
    MultiplyStep(j, i, n, k);
    if j < k - 1 {
      MeltIndex(t, k - 1, j, i);
    } else {
      assert |MeltUpTo(t, k - 1)| == j * n;
    }
  }

  /** Every melted row's date is one of the first `k` date columns. */
  lemma {:induction false} MeltDates(t: WideTable, k: int)
    requires Rectangular(t) && 0 <= k <= |t.dates|
    ensures forall p :: 0 <= p < |MeltUpTo(t, k)| ==> MeltUpTo(t, k)[p].date in t.dates[..k]
  {
    if k > 0 {
      MeltDates(t, k - 1);
      assert t.dates[..k] == t.dates[..k - 1] + [t.dates[k - 1]];
    }
  }

  /** Every melted cell is present exactly when every cell of those columns is. */
  lemma {:induction false} MeltPresent(t: WideTable, k: int)
    requires Rectangular(t) && 0 <= k <= |t.dates|
    ensures (forall p :: 0 <= p < |MeltUpTo(t, k)| ==> Present(MeltUpTo(t, k)[p].value))
        <==> (forall j, i :: 0 <= j < k && 0 <= i < |t.rows| ==> Present(t.rows[i].counts[j]))
  {
    if k > 0 {
      MeltPresent(t, k - 1);
      var prev: seq<MeltRow> := MeltUpTo(t, k - 1);
      var col: seq<MeltRow> := MeltColumn(t, k - 1);
      assert MeltUpTo(t, k) == prev + col;
      if forall j, i :: 0 <= j < k && 0 <= i < |t.rows| ==> Present(t.rows[i].counts[j]) {
        forall p | 0 <= p < |prev + col|
          ensures Present((prev + col)[p].value)
        {
          if p >= |prev| {
            assert (prev + col)[p] == col[p - |prev|];
          }
        }
      }
      if forall p :: 0 <= p < |prev + col| ==> Present((prev + col)[p].value) {
        forall j, i | 0 <= j < k && 0 <= i < |t.rows|
          ensures Present(t.rows[i].counts[j])
        {
          MeltIndex(t, k, j, i);
        }
      }
    }
  }

  // ---------------------------------------------------------------------------
  // clean_dataframe

  /** The long-form index: Province/State with NaN filled by "". */
  datatype Key = Key(country: string, province: string, date: Date)

  /** A row of the cleaned table: the index, Lat, Long and the count. */
  datatype LongRow = LongRow(key: Key, lat: Value, long: Value, value: int)

  /** The cleaned frame: index levels and value column named by `valueColumn`. */
  datatype LongTable = LongTable(valueColumn: string, rows: seq<LongRow>)

  const IndexNames := ["Country/Region", "Province/State", "Date"]

  function Columns(t: LongTable): seq<string> {
    ["Lat", "Long", t.valueColumn]
  }

  /** `fillna("")` on Province/State. */
  function Filled(province: Option<string>): string {
    if province.Some? then province.value else ""
  }

  function KeyOf(m: MeltRow): Key {
    Key(m.country, Filled(m.province), m.date)
  }

  /** `astype({"value": "int64"})` over the melted rows: every cell present and
      cast, or an error. */
  function Cast(ms: seq<MeltRow>): (r: Result<seq<LongRow>, CastError>)
    ensures r.Success? <==> forall p :: 0 <= p < |ms| ==> Present(ms[p].value)
    ensures r.Success? ==> |r.value| == |ms|
    ensures r.Success? ==> forall p :: 0 <= p < |ms| ==>
              r.value[p] == LongRow(KeyOf(ms[p]), ms[p].lat, ms[p].long, ToInt64(ms[p].value).value)
  {
    if ms == [] then Success([])
    else
      var n :- ToInt64(ms[0].value);
      var rest :- Cast(ms[1..]);
      Success([LongRow(KeyOf(ms[0]), ms[0].lat, ms[0].long, n)] + rest)
  }

  /** Every count cell of the wide table is present. */
  predicate AllPresent(t: WideTable)
    requires Rectangular(t)
  {
    forall j, i :: 0 <= j < |t.dates| && 0 <= i < |t.rows| ==> Present(t.rows[i].counts[j])
  }

  /** `clean_dataframe(df, valueColumn)`: the melt, with "" for a missing province,
      the values cast to int64 and the value column named `valueColumn`. */
  function CleanDataframe(t: WideTable, valueColumn: string): (r: Result<LongTable, CastError>)
    requires Rectangular(t)
    ensures r.Success? <==> AllPresent(t)
    ensures r.Success? ==> r.value.valueColumn == valueColumn && |r.value.rows| == |t.dates| * |t.rows|
  {
    MeltPresent(t, |t.dates|);
    assert Melt(t) == MeltUpTo(t, |t.dates|);
    assert AllPresent(t) <==> forall j, i :: 0 <= j < |t.dates| && 0 <= i < |t.rows| ==> Present(t.rows[i].counts[j]);
    assert AllPresent(t) <==> forall p :: 0 <= p < |Melt(t)| ==> Present(Melt(t)[p].value);
    var rows :- Cast(Melt(t));
    Success(LongTable(valueColumn, rows))
  }

  /** Row `j * n + i` of the cleaned table is location `i` on date `j`, with its
      id columns copied and the province filled. */
  lemma CleanDataframeRow(t: WideTable, valueColumn: string, j: int, i: int)
    requires Rectangular(t) && CleanDataframe(t, valueColumn).Success?
    requires 0 <= j < |t.dates| && 0 <= i < |t.rows|
    ensures var rows := CleanDataframe(t, valueColumn).value.rows;
            var row := t.rows[i];
            && 0 <= j * |t.rows| + i < |rows|
            && rows[j * |t.rows| + i]
               == LongRow(Key(row.country, Filled(row.province), t.dates[j]), row.lat, row.long, ToInt64(row.counts[j]).value)
  {
    MeltIndex(t, |t.dates|, j, i);
  }

  // ---------------------------------------------------------------------------
  // pandas.concat([cases, deaths.iloc[:, -1], recovered.iloc[:, -1]], axis=1)

  predicate UniqueKeys(rows: seq<LongRow>) {
    forall p, q :: 0 <= p < q < |rows| ==> rows[p].key != rows[q].key
  }

  function KeySet(rows: seq<LongRow>): set<Key> {
    set p | 0 <= p < |rows| :: rows[p].key
  }

  /** The row of a key, if any. */
  function Find(rows: seq<LongRow>, k: Key): (r: Option<LongRow>)
    ensures r.Some? <==> k in KeySet(rows)
    ensures r.Some? ==> r.value.key == k
  {
    if rows == [] then None
    else if rows[0].key == k then Some(rows[0])
    else
      var r := Find(rows[1..], k);
      assert KeySet(rows) == {rows[0].key} + KeySet(rows[1..]) by {
        forall x | x in KeySet(rows) ensures x in {rows[0].key} + KeySet(rows[1..]) {
          var p :| 0 <= p < |rows| && rows[p].key == x;
          if p > 0 {
            assert rows[1..][p - 1].key == x;
          }
        }
      }
      r
  }

  lemma {:induction false} FindUnique(rows: seq<LongRow>, p: int)
    requires UniqueKeys(rows) && 0 <= p < |rows|
    ensures Find(rows, rows[p].key) == Some(rows[p])
  {
    if p > 0 {
      FindUnique(rows[1..], p - 1);
    }
  }

  /** A merged row: Lat/Long from the cases table, one count per indicator;
      a key missing from a table is null in that table's columns. */
  datatype MergedRow = MergedRow(lat: Option<Value>, long: Option<Value>,
                                 cases: Option<int>, deaths: Option<int>, recovered: Option<int>)

  /** The rows of the concatenation. pandas joins three equal indexes position
      by position, repeated keys included; otherwise it aligns the tables on the
      union of their keys, one row per key. */
  datatype MergedRows = Positional(entries: seq<(Key, MergedRow)>) | Aligned(byKey: map<Key, MergedRow>)

  datatype MergedTable = MergedTable(indexNames: seq<string>, columns: seq<string>, rows: MergedRows)

  /** Aligning an index with repeated keys on the union fails. */
  datatype MergeError = DuplicateKey(valueColumn: string)

  /** The three tables have the same keys in the same order. */
  predicate SameIndex(c: seq<LongRow>, d: seq<LongRow>, r: seq<LongRow>) {
    && |c| == |d| == |r|
    && forall p :: 0 <= p < |c| ==> c[p].key == d[p].key && c[p].key == r[p].key
  }

  function Count(r: Option<LongRow>): Option<int> {
    if r.Some? then Some(r.value.value) else None
  }

  /** Row `p` of each table side by side. */
  function PositionalRows(c: seq<LongRow>, d: seq<LongRow>, r: seq<LongRow>): seq<(Key, MergedRow)>
    requires SameIndex(c, d, r)
  {
    seq(|c|, p requires 0 <= p < |c| =>
      (c[p].key, MergedRow(Some(c[p].lat), Some(c[p].long), Some(c[p].value), Some(d[p].value), Some(r[p].value))))
  }

  function MergeRows(c: seq<LongRow>, d: seq<LongRow>, r: seq<LongRow>): map<Key, MergedRow> {
    map k | k in KeySet(c) + KeySet(d) + KeySet(r) ::
      var fromCases := Find(c, k);
      MergedRow(if fromCases.Some? then Some(fromCases.value.lat) else None,
                if fromCases.Some? then Some(fromCases.value.long) else None,
                Count(fromCases), Count(Find(d, k)), Count(Find(r, k)))
  }

  /** The outer, column-wise concatenation of the three cleaned tables. */
  function Merge(c: LongTable, d: LongTable, r: LongTable): (res: Result<MergedTable, MergeError>)
    ensures res.Success? <==>
              SameIndex(c.rows, d.rows, r.rows) || (UniqueKeys(c.rows) && UniqueKeys(d.rows) && UniqueKeys(r.rows))
    ensures res.Success? ==>
              && res.value.indexNames == IndexNames
              && res.value.columns == ["Lat", "Long", c.valueColumn, d.valueColumn, r.valueColumn]
              && (res.value.rows.Positional? <==> SameIndex(c.rows, d.rows, r.rows))
    ensures res.Success? && res.value.rows.Positional? ==>
              && |res.value.rows.entries| == |c.rows|
              && forall p :: 0 <= p < |c.rows| ==> res.value.rows.entries[p].0 == c.rows[p].key
    ensures res.Success? && res.value.rows.Aligned? ==>
              res.value.rows.byKey.Keys == KeySet(c.rows) + KeySet(d.rows) + KeySet(r.rows)
  {
    var columns := ["Lat", "Long", c.valueColumn, d.valueColumn, r.valueColumn];
    if SameIndex(c.rows, d.rows, r.rows) then Success(MergedTable(IndexNames, columns, Positional(PositionalRows(c.rows, d.rows, r.rows))))
    else if !UniqueKeys(c.rows) then Failure(DuplicateKey(c.valueColumn))
    else if !UniqueKeys(d.rows) then Failure(DuplicateKey(d.valueColumn))
    else if !UniqueKeys(r.rows) then Failure(DuplicateKey(r.valueColumn))
    else Success(MergedTable(IndexNames, columns, Aligned(MergeRows(c.rows, d.rows, r.rows))))
  }

  /** Equal indexes: row `p` of the result joins row `p` of each table, even
      when its key repeats. */
  lemma MergePositional(c: LongTable, d: LongTable, r: LongTable, p: int)
    requires SameIndex(c.rows, d.rows, r.rows) && 0 <= p < |c.rows|
    ensures Merge(c, d, r).Success? && Merge(c, d, r).value.rows.Positional?
    ensures var e := Merge(c, d, r).value.rows.entries;
            && |e| == |c.rows| == |d.rows| == |r.rows|
            && e[p].0 == c.rows[p].key == d.rows[p].key == r.rows[p].key
            && e[p].1.lat == Some(c.rows[p].lat) && e[p].1.long == Some(c.rows[p].long)
            && e[p].1.cases == Some(c.rows[p].value)
            && e[p].1.deaths == Some(d.rows[p].value)
            && e[p].1.recovered == Some(r.rows[p].value)
  {
  }

  /** Each value lands in its key's row; Lat and Long come from the cases table
      only, and a key a table lacks is null (not 0) there. */
  lemma MergeValues(c: LongTable, d: LongTable, r: LongTable, k: Key)
    requires Merge(c, d, r).Success? && Merge(c, d, r).value.rows.Aligned?
    requires k in Merge(c, d, r).value.rows.byKey
    ensures var m := Merge(c, d, r).value.rows.byKey[k];
            && (forall p :: 0 <= p < |c.rows| && c.rows[p].key == k ==>
                  m.lat == Some(c.rows[p].lat) && m.long == Some(c.rows[p].long) && m.cases == Some(c.rows[p].value))
            && (forall p :: 0 <= p < |d.rows| && d.rows[p].key == k ==> m.deaths == Some(d.rows[p].value))
            && (forall p :: 0 <= p < |r.rows| && r.rows[p].key == k ==> m.recovered == Some(r.rows[p].value))
            && (k !in KeySet(c.rows) ==> m.lat == None && m.long == None && m.cases == None)
            && (k !in KeySet(d.rows) ==> m.deaths == None)
            && (k !in KeySet(r.rows) ==> m.recovered == None)
  {
    forall p | 0 <= p < |c.rows| && c.rows[p].key == k { FindUnique(c.rows, p); }
    forall p | 0 <= p < |d.rows| && d.rows[p].key == k { FindUnique(d.rows, p); }
    forall p | 0 <= p < |r.rows| && r.rows[p].key == k { FindUnique(r.rows, p); }
  }

  /** Where both ways of joining apply, equal indexes without repeated keys,
      they give the same row for every key. */
  lemma PositionalAgreesWithAligned(c: seq<LongRow>, d: seq<LongRow>, r: seq<LongRow>, p: int)
    requires SameIndex(c, d, r) && UniqueKeys(c) && 0 <= p < |c|
    ensures UniqueKeys(d) && UniqueKeys(r)
    ensures KeySet(c) == KeySet(d) == KeySet(r)
    ensures c[p].key in MergeRows(c, d, r) && MergeRows(c, d, r)[c[p].key] == PositionalRows(c, d, r)[p].1
  {
    assert forall q, q' :: 0 <= q < q' < |d| ==> d[q].key == c[q].key && d[q'].key == c[q'].key;
    assert forall q, q' :: 0 <= q < q' < |r| ==> r[q].key == c[q].key && r[q'].key == c[q'].key;
    assert KeySet(c) == KeySet(d) by {
      forall x | x in KeySet(d) ensures x in KeySet(c) { var q :| 0 <= q < |d| && d[q].key == x; assert c[q].key == x; }
    }
    assert KeySet(c) == KeySet(r) by {
      forall x | x in KeySet(r) ensures x in KeySet(c) { var q :| 0 <= q < |r| && r[q].key == x; assert c[q].key == x; }
    }
    FindUnique(c, p);
    FindUnique(d, p);
    FindUnique(r, p);
  }

  // ---------------------------------------------------------------------------
  // When the merge succeeds

  /** No two locations share (Country/Region, Province/State) once NaN is filled. */
  predicate DistinctLocations(t: WideTable) {
    forall a, b :: 0 <= a < b < |t.rows| ==>
      (t.rows[a].country, Filled(t.rows[a].province)) != (t.rows[b].country, Filled(t.rows[b].province))
  }

  predicate DistinctDates(t: WideTable) {
    forall a, b :: 0 <= a < b < |t.dates| ==> t.dates[a] != t.dates[b]
  }

  lemma {:induction false} MeltKeysUnique(t: WideTable, k: int)
    requires Rectangular(t) && 0 <= k <= |t.dates|
    requires DistinctLocations(t) && DistinctDates(t)
    ensures forall p, q :: 0 <= p < q < |MeltUpTo(t, k)| ==> KeyOf(MeltUpTo(t, k)[p]) != KeyOf(MeltUpTo(t, k)[q])
  {
    if k > 0 {
      var prev: seq<MeltRow> := MeltUpTo(t, k - 1);
      var col: seq<MeltRow> := MeltColumn(t, k - 1);
      MeltKeysUnique(t, k - 1);
      MeltDates(t, k - 1);
      assert MeltUpTo(t, k) == prev + col;
      assert t.dates[k - 1] !in t.dates[..k - 1];
      forall p, q | 0 <= p < q < |prev + col|
        ensures KeyOf((prev + col)[p]) != KeyOf((prev + col)[q])
      {
        if p >= |prev| {
          assert (prev + col)[p] == col[p - |prev|] && (prev + col)[q] == col[q - |prev|];
        } else if q >= |prev| {
          assert (prev + col)[p] == prev[p] && (prev + col)[q] == col[q - |prev|];
        } else {
          assert (prev + col)[p] == prev[p] && (prev + col)[q] == prev[q];
        }
      }
    }
  }

  /** Distinct locations and distinct date columns give a cleaned table without
      repeated keys. */
  lemma CleanKeysUnique(t: WideTable, valueColumn: string)
    requires Rectangular(t) && CleanDataframe(t, valueColumn).Success?
    requires DistinctLocations(t) && DistinctDates(t)
    ensures UniqueKeys(CleanDataframe(t, valueColumn).value.rows)
  {
    MeltKeysUnique(t, |t.dates|);
  }

  /** The merge of three cleaned tables, each with distinct locations and
      dates, succeeds. */
  lemma MergeOfCleanTablesSucceeds(cases: WideTable, deaths: WideTable, recovered: WideTable)
    requires Rectangular(cases) && Rectangular(deaths) && Rectangular(recovered)
    requires AllPresent(cases) && AllPresent(deaths) && AllPresent(recovered)
    requires DistinctLocations(cases) && DistinctLocations(deaths) && DistinctLocations(recovered)
    requires DistinctDates(cases) && DistinctDates(deaths) && DistinctDates(recovered)
    ensures Merge(CleanDataframe(cases, "Cases").value, CleanDataframe(deaths, "Deaths").value,
                  CleanDataframe(recovered, "Recovered").value).Success?
  {
    CleanKeysUnique(cases, "Cases");
    CleanKeysUnique(deaths, "Deaths");
    CleanKeysUnique(recovered, "Recovered");
  }

  // ---------------------------------------------------------------------------
  // Metadata

  /** The upstream location: one CSV URL, or the list of all three for the merged table. */
  datatype Location = Url(url: string) | Urls(urls: seq<string>)

  function Upstream(loc: Location): M.MetaValue {
    match loc
    case Url(u) => M.Text(u)
    case Urls(us) => M.Texts(us)
  }

  const Agency := "https://systems.jhu.edu/"
  const Background := "https://github.com/CSSEGISandData/COVID-19"
  const Keywords := ["covid-19", "cases", "deaths", "by country"]

  /** `get_metadata(now, location)`: the eight keys; the cutoff is the clock's
      own date at 00:00 UTC, so it cannot fail. */
  function GetMetadata(now: M.Instant, clock: Clock, location: Location): (m: M.Metadata)
    requires ValidClock(clock)
    ensures m.Keys == M.CutoffKeys
    ensures M.Describes(m, now, Upstream(location), Agency, Background, Keywords)
    ensures M.LicensedWithCutoff(m, Timestamp(clock.date, 0))
  {
    JohnsHopkinsCutoff(clock);
    M.CutoffMetadata(JohnsHopkins, clock, now, Upstream(location), Agency, Background, Keywords).value
  }

  /** `create_metadata(now, location)` of the legacy module: six keys, no
      cutoff and no license. */
  function CreateMetadata(now: M.Instant, location: string): (m: M.Metadata)
    ensures m.Keys == M.BaseKeys
    ensures M.Describes(m, now, M.Text(location), Agency, Background, Keywords)
    ensures "license" !in m && "estimatedReportingCutoff" !in m
  {
    M.BaseMetadata(now, M.Text(location), Agency, Background, Keywords)
  }
}
