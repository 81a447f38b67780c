/** The metadata dictionaries every import script attaches to its dataset.

    The values are kept structured: the retrieval time and the cutoff are not
    rendered to text, and `columnNames` keeps the order of its dictionary literal. */
module Metadata {
  import opened Wrappers
  import opened Calendar
  import opened ReportingCutoff

  /** The `now` argument of `get_metadata`: an aware UTC datetime taken once per run. */
  datatype Instant = Instant(date: Date, hour: int, minute: int, second: int, microsecond: int)

  datatype MetaValue =
    | Text(text: string)
    | Texts(items: seq<string>)
    | Retrieved(at: Instant)
    | CutoffAt(cutoff: Timestamp)
    | Pairs(pairs: seq<(string, string)>)

  type Metadata = map<string, MetaValue>

  const Category := "covid-19"
  const License := "https://creativecommons.org/licenses/by-nc-sa/4.0/"

  /** The keys every metadata dictionary has. */
  const BaseKeys: set<string> :=
    {"datetimeRetrieved", "upstreamSource", "originalDataCollectionAgency",
     "dataBackgroundInformation", "category", "keywords"}

  /** The keys of a dictionary that also carries a reporting cutoff and a license. */
  const CutoffKeys: set<string> := BaseKeys + {"estimatedReportingCutoff", "license"}

  /** The shape the catalog expects: retrieval time, upstream location, the
      collecting agency, the background page, the fixed category and the given
      keyword list. */
  predicate Describes(m: Metadata, now: Instant, upstream: MetaValue, agency: string, background: string,
                      keywords: seq<string>) {
    && BaseKeys <= m.Keys
    && m["datetimeRetrieved"] == Retrieved(now)
    && m["upstreamSource"] == upstream
    && m["originalDataCollectionAgency"] == Text(agency)
    && m["dataBackgroundInformation"] == Text(background)
    && m["category"] == Text(Category)
    && m["keywords"] == Texts(keywords)
  }

  /** Published under CC BY-NC-SA and stamped with the given cutoff. */
  predicate LicensedWithCutoff(m: Metadata, cutoff: Timestamp) {
    && "license" in m && m["license"] == Text(License)
    && "estimatedReportingCutoff" in m && m["estimatedReportingCutoff"] == CutoffAt(cutoff)
  }

  /** The six-key dictionary of the scripts without a cutoff. */
  function BaseMetadata(now: Instant, upstream: MetaValue, agency: string, background: string,
                        keywords: seq<string>): (m: Metadata)
    ensures m.Keys == BaseKeys
    ensures Describes(m, now, upstream, agency, background, keywords)
    ensures "license" !in m && "estimatedReportingCutoff" !in m
  {
    map["datetimeRetrieved" := Retrieved(now),
        "upstreamSource" := upstream,
        "originalDataCollectionAgency" := Text(agency),
        "dataBackgroundInformation" := Text(background),
        "category" := Text(Category),
        "keywords" := Texts(keywords)]
  }

  /** The eight-key dictionary of the scripts with a cutoff. Computing the cutoff
      can raise, so the dictionary is a Result. */
  function CutoffMetadata(s: Source, clock: Clock, now: Instant, upstream: MetaValue,
                          agency: string, background: string, keywords: seq<string>)
    : (r: Result<Metadata, DateError>)
    requires ValidClock(clock)
    ensures r.Success? <==> EstimatedReportingCutoff(s, clock).Success?
    ensures r.Success? ==>
              && r.value.Keys == CutoffKeys
              && Describes(r.value, now, upstream, agency, background, keywords)
              && LicensedWithCutoff(r.value, EstimatedReportingCutoff(s, clock).value)
  {
    var cutoff :- EstimatedReportingCutoff(s, clock);
    Success(BaseMetadata(now, upstream, agency, background, keywords)
              ["estimatedReportingCutoff" := CutoffAt(cutoff)]
              ["license" := Text(License)])
  }

  /** The dictionary extended with the region-aware keys `columnNames` and `regions`. */
  function WithRegions(m: Metadata, columnNames: seq<(string, string)>, regions: seq<string>): (r: Metadata)
    ensures r.Keys == m.Keys + {"columnNames", "regions"}
    ensures r["columnNames"] == Pairs(columnNames) && r["regions"] == Texts(regions)
    ensures forall k :: k in m && k != "columnNames" && k != "regions" ==> r[k] == m[k]
  {
    m["columnNames" := Pairs(columnNames)]["regions" := Texts(regions)]
  }
}
