/** New York Times state-level table: the CSV passed through with three
    columns cast, and its distinct states published as regions. */
module NewYorkTimes {
  import opened Wrappers
  import opened Calendar
  import opened ReportingCutoff
  import opened Tables
  import opened Regions
  import M = Metadata

  const Url := "https://github.com/nytimes/covid-19-data/raw/master/us-states.csv"
  const Agency := "https://www.nytimes.com"
  const Background := "https://github.com/nytimes/covid-19-data"
  const Keywords := ["covid-19", "cases", "deaths", "USA"]

  /** The dataset's columns that map onto the catalog's standard names. */
  const ColumnNames := [("region", "state"), ("date", "date"), ("total-cases", "cases"), ("total-deaths", "deaths")]

  /** A CSV record: `date` already parsed, `fips` carried through, the counts
      possibly missing. */
  datatype Record = Record(date: Date, state: string, fips: Value, cases: Cell, deaths: Cell)

  /** A record after `astype({"date": "datetime64[ns]", "cases": "int64", "deaths": "int64"})`. */
  datatype Typed = Typed(date: Date, state: string, fips: Value, cases: int, deaths: int)

  /** `get_data`: every record kept in order with its other columns unchanged;
      a missing cases or deaths cell makes the cast fail. */
  function GetData(recs: seq<Record>): (r: Result<seq<Typed>, CastError>)
    ensures r.Success? <==> forall i :: 0 <= i < |recs| ==> Present(recs[i].cases) && Present(recs[i].deaths)
    ensures r.Success? ==> |r.value| == |recs|
    ensures r.Success? ==> forall i :: 0 <= i < |recs| ==>
              r.value[i] == Typed(recs[i].date, recs[i].state, recs[i].fips, ToInt64(recs[i].cases).value, ToInt64(recs[i].deaths).value)
  {
    if recs == [] then Success([])
    else
      var cases :- ToInt64(recs[0].cases);
      var deaths :- ToInt64(recs[0].deaths);
      var rest :- GetData(recs[1..]);
      Success([Typed(recs[0].date, recs[0].state, recs[0].fips, cases, deaths)] + rest)
  }

  function States(data: seq<Typed>): (s: seq<string>)
    ensures |s| == |data| && forall i :: 0 <= i < |data| ==> s[i] == data[i].state
  {
    seq(|data|, i requires 0 <= i < |data| => data[i].state)
  }

  /** `[l for l in data.loc[:, "state"].unique()]`: every state once, in order
      of first appearance, and nothing that is not a state of the data. */
  function RegionList(data: seq<Typed>): (r: seq<string>)
    ensures Distinct(r)
    ensures forall i :: 0 <= i < |r| ==> exists j :: 0 <= j < |data| && data[j].state == r[i]
    ensures forall j :: 0 <= j < |data| ==> data[j].state in r
    ensures forall i, k :: 0 <= i < k < |r| ==> FirstIndex(States(data), r[i]) < FirstIndex(States(data), r[k])
  {
    var r := Unique(States(data));
    forall i | 0 <= i < |r|
      ensures exists j :: 0 <= j < |data| && data[j].state == r[i]
    {
      StateOccurs(data, r[i]);
    }
    r
  }

  /** A value of the state column is the state of some record. */
  lemma StateOccurs(data: seq<Typed>, x: string)
    requires x in States(data)
    ensures exists j :: 0 <= j < |data| && data[j].state == x
  {
    var j := FirstIndex(States(data), x);
    assert data[j].state == x;
  }

  /** `get_metadata(now, regions)` of the script: the eight keys with the NYT
      cutoff, plus `columnNames` and `regions`. */
  function GetMetadata(now: M.Instant, clock: Clock, regions: seq<string>): (r: Result<M.Metadata, DateError>)
    requires ValidClock(clock)
    ensures r.Success? <==> DaysBack(NewYorkTimes, clock.hour) < Ordinal(clock.date)
    ensures r.Success? ==>
              && r.value.Keys == M.CutoffKeys + {"columnNames", "regions"}
              && M.Describes(r.value, now, M.Text(Url), Agency, Background, Keywords)
              && M.LicensedWithCutoff(r.value, EstimatedReportingCutoff(NewYorkTimes, clock).value)
              && r.value["columnNames"] == M.Pairs(ColumnNames)
              && r.value["regions"] == M.Texts(regions)
  {
    var m :- M.CutoffMetadata(NewYorkTimes, clock, now, M.Text(Url), Agency, Background, Keywords);
    Success(M.WithRegions(m, ColumnNames, regions))
  }

  /** `get_metadata(now)` of the legacy module: the same eight keys, without
      `columnNames` and `regions`. */
  function GetMetadataLegacy(now: M.Instant, clock: Clock): (r: Result<M.Metadata, DateError>)
    requires ValidClock(clock)
    ensures r.Success? <==> DaysBack(NewYorkTimes, clock.hour) < Ordinal(clock.date)
    ensures r.Success? ==>
              && r.value.Keys == M.CutoffKeys
              && M.Describes(r.value, now, M.Text(Url), Agency, Background, Keywords)
              && M.LicensedWithCutoff(r.value, EstimatedReportingCutoff(NewYorkTimes, clock).value)
  {
    M.CutoffMetadata(NewYorkTimes, clock, now, M.Text(Url), Agency, Background, Keywords)
  }

  /** The script's metadata is the legacy dictionary with the two region keys added. */
  lemma MetadataExtendsLegacy(now: M.Instant, clock: Clock, regions: seq<string>)
    requires ValidClock(clock)
    ensures GetMetadata(now, clock, regions).Success? == GetMetadataLegacy(now, clock).Success?
    ensures GetMetadata(now, clock, regions).Success? ==>
              forall k :: k in GetMetadataLegacy(now, clock).value ==>
                k in GetMetadata(now, clock, regions).value
                && GetMetadata(now, clock, regions).value[k] == GetMetadataLegacy(now, clock).value[k]
  {
    var legacy := GetMetadataLegacy(now, clock);
    if legacy.Success? {
      assert GetMetadata(now, clock, regions) == Success(M.WithRegions(legacy.value, ColumnNames, regions));
    }
  }
}
