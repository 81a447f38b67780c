# COVID-19 data-import scripts, modelled in Dafny

The DouglasConnect covid19 repository imports public COVID-19 data into the
Edelweiss Data catalog. It does this once a day for four sources: Johns Hopkins
University (JHU), the Robert Koch Institute (RKI), the New York Times (NYT) and
Our World in Data (OWID). Each import script downloads a table, reshapes it,
attaches a metadata dictionary, and then creates or updates a dataset of that name.
If anything goes wrong, it posts a message to Slack.

This project models the deterministic core of those scripts and proves
properties of it:

- **Calendar and reporting cutoffs** (`calendar.dfy`, `cutoff.dfy`).
  - Proleptic Gregorian dates work as Python's `datetime` does: `toordinal`,
    `fromordinal` and `- timedelta(days=k)`. Stepping below 0001-01-01 raises
    OverflowError.
  - On top of that sits each source's "estimated reporting cutoff". The
    wall-clock reading is an explicit input.
- **Metadata dictionaries** (`metadata.dfy`). These are the six-key and
  eight-key dictionaries, and the region-aware `columnNames`/`regions` extension.
- **Table reshapes**:
  - the JHU wide-to-long melt and the three-way merge (`jhu.dfy`);
  - the RKI per-state time series: pivot sums, outer join, sort, and
    per-state running totals (`rki_timeseries.dfy`, with the string order in
    `lexical.dfy`);
  - the NYT cast (`nyt.dfy`);
  - the OWID codebook parser (`owid.dfy`);
  - `unique()` in order of first appearance (`regions.dfy`);
  - the old RKI HTML snapshot, relabelled in place (`rki_snapshot.dfy`).
- **The create-or-update publish protocol** (`publish.dfy`).
  - The catalog is a class, `Catalog`, that records every API call in a trace.
    An environment value (`Env`) decides what the lookup returns, which schema
    is inferred, and which kinds of call raise which fault.
  - The statements of each Python function are written as a `Script`: a call,
    `try/except: pass`, `except requests.HTTPError`, or `raise`. `Exec`
    interprets a script.
  - Every imperative method is proved to leave exactly the trace and outcome
    that `Exec` gives for its script. The lemmas state the protocol's
    properties on `Exec`.
  - The Slack webhook is a `Notifier` class.
- **The older per-source publish helpers** (`legacy_publish.dfy`). These are
  the five `shared.py` modules. They differ in four switches:
  - whether HTTPError is caught;
  - whether the index is written;
  - whether stale drafts are deleted;
  - which changelog they publish.

## Model

| member | source | states |
|---|---|---|
| Calendar.DaysInMonth | data-import-scripts/robert-koch-institute.py:18-22 | Every month has 28 to 31 days; February has 29 exactly in Gregorian leap years |
| Calendar.Ordinal | data-import-scripts/robert-koch-institute.py:18-22 | `toordinal` is at least 1 for every valid date |
| Calendar.NextDay | data-import-scripts/robert-koch-institute.py:18-22 | The successor of a valid date is valid and comes after it in calendar order |
| Calendar.PrevDay | data-import-scripts/robert-koch-institute.py:18-22 | The predecessor of a valid date after 0001-01-01 is valid and comes before it |
| Calendar.FromOrdinal | data-import-scripts/robert-koch-institute.py:18-22 | `fromordinal(n)` is a valid date whose ordinal is n, for every n >= 1 |
| Calendar.SubtractDays | data-import-scripts/robert-koch-institute.py:18-22 | `d - timedelta(days=k)` succeeds exactly when k < toordinal(d), and then lands k ordinals earlier |
| Calendar.OrdinalOrder | data-import-scripts/robert-koch-institute.py:18-22 | Calendar order and ordinal order coincide |
| Calendar.FromOrdinalOrdinal | data-import-scripts/robert-koch-institute.py:18-22 | Round trip: `fromordinal(toordinal(d)) == d` |
| Calendar.PrevNextDay | data-import-scripts/robert-koch-institute.py:18-22 | One day forward and then one day back returns to the start |
| Calendar.SubtractOneDay | data-import-scripts/robert-koch-institute.py:19 | Subtracting one day is the calendar predecessor, across month and year ends |
| Calendar.SubtractTwoDays | data-import-scripts/robert-koch-institute.py:21 | Subtracting two days is two predecessor steps |
| Calendar.DaysBeforeYearClosedForm | data-import-scripts/robert-koch-institute.py:18-22 | The days before a year equal Python's closed form n*365 + n//4 - n//100 + n//400, for n = y - 1 |
| ReportingCutoff.EstimatedReportingCutoff | data-import-scripts/robert-koch-institute.py:18-29 | The cutoff fails only by OverflowError when the reporting day would precede 0001-01-01. Otherwise it is a valid date exactly DaysBack(hour) days before the clock's date, at the source's UTC hour |
| ReportingCutoff.JohnsHopkinsCutoff | data-import-scripts/john-hopkins-university.py:47-56 | JHU: the clock's own date at 00:00 UTC, whatever the hour |
| ReportingCutoff.RobertKochCutoff | data-import-scripts/robert-koch-institute.py:18-29 | RKI: yesterday from hour 8 on, the day before yesterday earlier, at 22:00 UTC (robert-koch-institut-timeseries/shared.py:16-17 is the same rule) |
| ReportingCutoff.NewYorkTimesCutoff | data-import-scripts/new-york-times.py:13-24 | NYT: yesterday from hour 15 on, the day before yesterday earlier, at 20:00 UTC (new-york-times/shared.py:13-14 is the same rule) |
| ReportingCutoff.OurWorldInDataCutoff | data-import-scripts/our-world-in-data-complete.py:16-23 | OWID: today from hour 18 on, yesterday earlier, at 08:00 UTC (our-world-in-data-complete/shared.py:15-16 is the same rule) |
| ReportingCutoff.CutoffFailsOnlyAtCalendarStart | data-import-scripts/robert-koch-institute.py:18-22 | The only failure is on the first one or two days of the calendar; any clock date after 0001-01-02 succeeds |
| ReportingCutoff.CutoffNotAfterClockDate | data-import-scripts/our-world-in-data-complete.py:16 | The cutoff date never lies after the clock's date |
| ReportingCutoff.CutoffMonotone | data-import-scripts/robert-koch-institute.py:18-22 | A later clock reading never yields an earlier cutoff |
| ReportingCutoff.RobertKochYearEndExample | data-import-scripts/robert-koch-institute.py:18-29 | Before 08:00 on 2021-01-01 the RKI cutoff is 2020-12-30 22:00 UTC |
| ReportingCutoff.LeapYearExample | data-import-scripts/new-york-times.py:13-24 | On 2020-03-01 after 15:00 the NYT cutoff is 2020-02-29 20:00 UTC |
| ReportingCutoff.CommonYearExamples | data-import-scripts/new-york-times.py:13-24 | On 2021-03-01 the previous day is 2021-02-28; 2100 is not a leap year |
| Metadata.BaseMetadata | john-hopkins-university/shared.py:38-46 | Exactly the six keys, with the given retrieval time, upstream, agency URL, background URL and keywords, and category "covid-19". There is no cutoff and no license |
| Metadata.CutoffMetadata | data-import-scripts/john-hopkins-university.py:57-66 | Exactly the eight keys: the six with their given values, the computed cutoff and the CC BY-NC-SA license. It fails exactly when the cutoff does |
| Metadata.WithRegions | data-import-scripts/new-york-times.py:34-40 | Adds `columnNames` and `regions` and keeps every other key's value |
| Tables.ToInt64 | data-import-scripts/new-york-times.py:60-62 | `astype("int64")` fails exactly on a missing cell, rather than returning zero. It keeps an integer and truncates a float toward zero |
| Regions.FirstIndex | data-import-scripts/new-york-times.py:69 | Gives the position of the first occurrence: it holds the value, and no earlier position does |
| Regions.Unique | data-import-scripts/new-york-times.py:69 | `unique()` returns each value once, only values that occur, every value that occurs, ordered by first appearance |
| Regions.FirstIndexExtend | data-import-scripts/new-york-times.py:69 | Appending a value leaves earlier first occurrences unchanged |
| Lexical.StrLessTransitive | data-import-scripts/robert-koch-institute.py:64 | Python's string order, which `sort_index` uses, is transitive |
| Lexical.StrLessTotal | data-import-scripts/robert-koch-institute.py:64 | Python's string order is total on distinct strings |
| JohnsHopkins.MeltColumn | data-import-scripts/john-hopkins-university.py:14-16 | One date column melts into one row per location, in row order |
| JohnsHopkins.MeltUpTo | data-import-scripts/john-hopkins-university.py:14-16 | Melting k date columns gives k × (number of locations) rows |
| JohnsHopkins.MeltIndex | data-import-scripts/john-hopkins-university.py:14-16 | The melt is date-column-major: position j*n+i holds location i under date column j, with the id columns copied |
| JohnsHopkins.MeltDates | data-import-scripts/john-hopkins-university.py:14-17 | Every melted date is one of the table's date columns |
| JohnsHopkins.MeltPresent | data-import-scripts/john-hopkins-university.py:14-20 | Every melted value is present exactly when every count cell of the table is |
| JohnsHopkins.Cast | data-import-scripts/john-hopkins-university.py:20 | The int64 cast succeeds exactly when every value is present. It keeps every row, each with its cast value |
| JohnsHopkins.CleanDataframe | data-import-scripts/john-hopkins-university.py:13-22 | `clean_dataframe` succeeds exactly when no count is missing. It then has dates × locations rows and the value column renamed to the label. The copy at john-hopkins-university/shared.py:5-14 is the same pipeline |
| JohnsHopkins.CleanDataframeRow | data-import-scripts/john-hopkins-university.py:13-22 | Row j*n+i is keyed by (country, province or "" when missing, date j), with Lat, Long and the integer count of location i |
| JohnsHopkins.Find | data-import-scripts/john-hopkins-university.py:106 | Finds a row with the key exactly when the key occurs |
| JohnsHopkins.FindUnique | data-import-scripts/john-hopkins-university.py:106 | With unique keys, the row found for a key is that key's row |
| JohnsHopkins.Merge | data-import-scripts/john-hopkins-university.py:101-106 | The concat succeeds exactly when the three indexes are equal or no table repeats a key. Its columns are Lat, Long and the three labels. Equal indexes are joined position by position and keep the index, repeats included; otherwise the key set is the union of the three key sets |
| JohnsHopkins.MergeValues | data-import-scripts/john-hopkins-university.py:101-106 | When the tables are aligned on the union, each count lands in its key's row. Lat/Long come from the Cases table only, and a key a table lacks is null there, not 0 |
| JohnsHopkins.MergePositional | data-import-scripts/john-hopkins-university.py:101-106 | With equal indexes, row p of the result joins row p of each table, even when its key repeats |
| JohnsHopkins.PositionalAgreesWithAligned | data-import-scripts/john-hopkins-university.py:101-106 | With equal indexes and no repeated key, joining by position and aligning by key give the same row for every key |
| JohnsHopkins.MeltKeysUnique | data-import-scripts/john-hopkins-university.py:14-19 | Distinct locations and distinct dates give a melt without repeated keys |
| JohnsHopkins.CleanKeysUnique | data-import-scripts/john-hopkins-university.py:13-22 | The cleaned table of such a table has unique keys |
| JohnsHopkins.MergeOfCleanTablesSucceeds | data-import-scripts/john-hopkins-university.py:99-106 | The merge of three cleaned, duplicate-free tables succeeds |
| JohnsHopkins.GetMetadata | data-import-scripts/john-hopkins-university.py:46-66 | Eight keys: the given location as upstream, the JHU agency and background URLs, the fixed keywords, the license, and the clock date at 00:00 UTC as cutoff. It never fails |
| JohnsHopkins.CreateMetadata | john-hopkins-university/shared.py:38-46 | Exactly six keys, with the JHU agency and background URLs and no license or cutoff |
| RkiTimeseries.GetMetadata | data-import-scripts/robert-koch-institute.py:14-39 | Eight keys with the CSV URL, the RKI agency and the ArcGIS background URL, the RKI cutoff and the license. It fails exactly when the cutoff does. robert-koch-institut-timeseries/shared.py:12-26 builds the same dictionary |
| RkiTimeseries.PivotSum | data-import-scripts/robert-koch-institute.py:54-62 | One group per distinct (Bundesland, Meldedatum), strictly ascending, each holding the sum of its records' amounts |
| RkiTimeseries.OuterJoinSorted | data-import-scripts/robert-koch-institute.py:63-64 | The outer join of two ascending tables is ascending |
| RkiTimeseries.OuterJoinContents | data-import-scripts/robert-koch-institute.py:63 | The join's keys are the union of both sides' keys, and each value moves to its key's row |
| RkiTimeseries.OuterJoinPresence | data-import-scripts/robert-koch-institute.py:63 | A value is present in a joined row exactly when its side has the key |
| RkiTimeseries.DailyTable | data-import-scripts/robert-koch-institute.py:54-65 | Gives the sorted daily table: one row per distinct key in the records, ascending, holding that key's case and death sums |
| RkiTimeseries.CumSum | data-import-scripts/robert-koch-institute.py:66-67 | The scan keeps every row and adds running totals |
| RkiTimeseries.CumSumAt | data-import-scripts/robert-koch-institute.py:66-67 | Row p's totals are its state's sums over the rows up to and including p |
| RkiTimeseries.GetData | data-import-scripts/robert-koch-institute.py:52-70 | The index is (State, Date) and the columns are Cases, Deaths, TotalCases, TotalDeaths. The rows are the daily table, and each total is its state's prefix sum. robert-koch-institut-timeseries/shared.py:38-49 is the same pipeline |
| RkiTimeseries.CountsAreRecordSums | data-import-scripts/robert-koch-institute.py:54-62 | A row's Cases and Deaths are the sums of AnzahlFall and AnzahlTodesfall over all records with its key |
| RkiTimeseries.RunningTotalsRestart | data-import-scripts/robert-koch-institute.py:66-67 | A state's first row has totals equal to its daily counts; a later row adds its counts to the previous row's totals |
| RkiTimeseries.FinalTotalsConserve | data-import-scripts/robert-koch-institute.py:54-56 | Conservation: a state's last row's totals are the sums of AnzahlFall and AnzahlTodesfall over all of that state's records |
| NewYorkTimes.GetData | data-import-scripts/new-york-times.py:58-63 | The cast succeeds exactly when no cases or deaths cell is missing. It then keeps every record in order, with its counts cast and its other columns unchanged. new-york-times/shared.py:36-39 is the same cast |
| NewYorkTimes.RegionList | data-import-scripts/new-york-times.py:69 | Regions list every state of the data exactly once, nothing else, in order of first appearance |
| NewYorkTimes.GetMetadata | data-import-scripts/new-york-times.py:10-41 | Eight keys with the CSV URL, the NYT agency and background URLs and the NYT cutoff, plus `columnNames` (region→state, date→date, total-cases→cases, total-deaths→deaths) and `regions` |
| NewYorkTimes.GetMetadataLegacy | new-york-times/shared.py:10-23 | The eight keys with the CSV URL, the NYT agency and background URLs and the NYT cutoff |
| NewYorkTimes.MetadataExtendsLegacy | data-import-scripts/new-york-times.py:25-41 | The script's dictionary is the legacy one plus the two region keys, and both fail alike |
| OurWorldInData.IndexOfFirst | data-import-scripts/our-world-in-data-complete.py:65 | The search finds the first occurrence, and finds none exactly when there is none |
| OurWorldInData.MatchLineRender | data-import-scripts/our-world-in-data-complete.py:65 | Round trip: a line rendered from capturable groups (non-empty name without backtick, non-empty description without `\|`, non-empty source), plus a line ending, matches with exactly those groups |
| OurWorldInData.MatchLineSound | data-import-scripts/our-world-in-data-complete.py:65 | Whatever matches is the rendering of capturable groups, possibly followed by a line ending |
| OurWorldInData.Body | data-import-scripts/our-world-in-data-complete.py:71 | `codebook_markdown[4:]` drops exactly the first four lines |
| OurWorldInData.Fragments | data-import-scripts/our-world-in-data-complete.py:71 | One match result per body line |
| OurWorldInData.Collect | data-import-scripts/our-world-in-data-complete.py:72 | The groups are read only when every line matched; a None fragment fails |
| OurWorldInData.ToMapKeys | data-import-scripts/our-world-in-data-complete.py:73 | The dictionary's keys are exactly the entries' names |
| OurWorldInData.ToMapLastWins | data-import-scripts/our-world-in-data-complete.py:73 | A name maps to "description - Source: source" of its last entry |
| OurWorldInData.GetColumnDescriptions | data-import-scripts/our-world-in-data-complete.py:64-73 | Fewer than 3 lines is IndexError. A line 2 other than the header raises with line 0. Success holds exactly when the header is right and every line from 4 on matches |
| OurWorldInData.ColumnDescriptionKeys | data-import-scripts/our-world-in-data-complete.py:71-73 | The names of the result are exactly the names of lines 4 onward |
| OurWorldInData.ColumnDescriptionValue | data-import-scripts/our-world-in-data-complete.py:72-73 | Each name maps to "description - Source: source" of the last line carrying it |
| OurWorldInData.IgnoredLines | data-import-scripts/our-world-in-data-complete.py:68-71 | Lines 0, 1 and 3 never change a successful result, nor whether parsing succeeds |
| OurWorldInData.RegionList | data-import-scripts/our-world-in-data-complete.py:80 | Regions list every location exactly once, nothing else, in order of first appearance |
| OurWorldInData.GetMetadata | data-import-scripts/our-world-in-data-complete.py:13-43 | Eight keys with the CSV URL, the ECDC agency URL, the OWID background URL and the OWID cutoff, plus the fixed seven-entry `columnNames` and `regions` |
| OurWorldInData.GetMetadataLegacy | our-world-in-data-complete/shared.py:12-25 | The eight keys with the CSV URL, the ECDC agency URL, the OWID background URL and the OWID cutoff |
| OurWorldInData.MetadataExtendsLegacy | data-import-scripts/our-world-in-data-complete.py:24-43 | The script's dictionary is the legacy one plus the two region keys, and both fail alike |
| RkiSnapshot.GetMetadata | robert-koch-institut/shared.py:9-16 | Six fixed keys, the page URL as upstream and background, with no cutoff and no license |
| RkiSnapshot.Iloc | robert-koch-institut/shared.py:34 | An `iloc` position is in range exactly when -n <= i < n; a negative position counts from the end |
| RkiSnapshot.Frame.SetColumns | robert-koch-institut/shared.py:33 | Assigning labels of the wrong length raises ValueError and changes nothing. Otherwise only the labels change |
| RkiSnapshot.Frame.SetCell | robert-koch-institut/shared.py:34 | `iloc[i, j] = v` raises IndexError out of range. Otherwise exactly that cell changes |
| RkiSnapshot.GetData | robert-koch-institut/shared.py:28-35 | The first table is changed in place into `Snapshot` of its old contents, or fails with the same error. A wrong column count leaves the table unchanged; an empty table keeps its new labels and its rows |
| RkiSnapshot.SnapshotFails | robert-koch-institut/shared.py:32-34 | It fails with ValueError exactly when the table does not have five columns, and with IndexError when it has no row |
| RkiSnapshot.SnapshotContents | robert-koch-institut/shared.py:33-34 | The labels are the five names in order, with the same rows. The last row's first cell becomes "Germany" and every other cell is unchanged |
| RkiSnapshot.SnapshotIdempotent | robert-koch-institut/shared.py:33-34 | A second snapshot changes nothing |
| Publish.ExecFrom | data-import-scripts/shared.py:18-31 | A script only appends to the trace, and what it appends does not depend on the earlier calls |
| Publish.ExecAvoids | data-import-scripts/shared.py:18-31 | A script never makes a call it does not contain |
| Publish.ExecAgree | data-import-scripts/shared.py:49-53 | Faults in calls a script avoids do not change its run |
| Publish.FirstFault | data-import-scripts/shared.py:20-31 | Gives the first raising call of a plan: none before it raises, and it does unless the plan is exhausted |
| Publish.ExecStraight | data-import-scripts/shared.py:20-31 | Straight-line calls stop right after the first that raises, with its fault |
| Publish.Catalog.Invoke | data-import-scripts/shared.py:23-31 | A call is recorded and raises whatever the environment makes it raise |
| Publish.Catalog.GetPublishedDatasets | data-import-scripts/shared.py:14 | The lookup is recorded and returns the environment's listing unless it raises |
| Publish.Notifier.PostMessage | data-import-scripts/shared.py:72-74 | One message is appended to the posts |
| Publish.DatasetExists | data-import-scripts/shared.py:11-15 | `not datasets.empty`: true exactly when both axes of the listing are non-empty, after one recorded lookup |
| Publish.Described | data-import-scripts/shared.py:26-27 | The description loop keeps the schema's length |
| Publish.DescribedColumn | data-import-scripts/shared.py:26-27 | Each column keeps its name and gets `descs[name]`, or "" when absent |
| Publish.DescribedIgnoresOtherKeys | data-import-scripts/shared.py:27 | Entries that name no column do not change the schema |
| Publish.DescribeColumns | data-import-scripts/shared.py:26-27 | The loop leaves the draft's schema described as `Described` states |
| Publish.UploadDataAndPublish | data-import-scripts/shared.py:18-31 | The trace and outcome are those of the upload script. On success the schema is the inferred one, described when descriptions are given |
| Publish.UploadPlan | data-import-scripts/shared.py:20-31 | The plan has five calls, or six with the schema update, and only the last is the publish |
| Publish.UploadIsStraight | data-import-scripts/shared.py:20-31 | The upload makes its plan's calls one after another |
| Publish.UploadPublishesLast | data-import-scripts/shared.py:20-31 | The upload ends normally exactly when no call raises; then it made every call, the publish last. A raised upload stopped at its first failing call and raised that call's fault |
| Publish.EndsAtLastCallAfter | data-import-scripts/shared.py:18-31 | Earlier calls do not change how a run's end is told by its last call |
| Publish.CallThenEndsAtLastCall | data-import-scripts/shared.py:34-39 | A call in front of such a run keeps its end told by its last call |
| Publish.UploadEndsAtLastCall | data-import-scripts/shared.py:18-31 | An upload ends normally exactly when its last call is a publish that went through, and otherwise raises its last call's fault |
| Publish.BranchEndsAtLastCall | data-import-scripts/shared.py:34-55 | Past a guard that accepts the lookup, both the update and the creation end at their last call |

| Publish.CreateInitialDataset | data-import-scripts/shared.py:34-39 | Creates the draft, then uploads with changelog "Initial import of data at …" |
| Publish.UpdateDataset | data-import-scripts/shared.py:42-55 | Lookup, guard, swallowed stale-draft cleanup, new version, then upload with "Daily update of data at …" |
| Publish.CreateOrUpdateDataset | data-import-scripts/shared.py:58-75 | Authenticate, then update or create. Slack gets exactly `Notifications(name, outcome)` and the error is re-raised |
| Publish.GuardRaisesFirst | data-import-scripts/shared.py:46-47 | A lookup frame without exactly one column raises right after the lookup, before any draft, version or upload call |
| Publish.EmptyLookupRaises | data-import-scripts/shared.py:48 | With one column but no row, `iloc[0, -1]` raises right after the lookup |
| Publish.UpdatePastGuard | data-import-scripts/shared.py:48-54 | Past the guard, the stale-draft lookup and deletion are attempted, whatever they raise, and the revision follows |
| Publish.UpdateAlwaysVersions | data-import-scripts/shared.py:49-54 | Past the guard, `new_version` is always requested, right after the stale-draft calls |
| Publish.UploadAvoids | data-import-scripts/shared.py:18-31 | The upload makes no catalog-level call (authenticate, lookup, create, draft, version) |
| Publish.StaleDraftFaultsSwallowed | data-import-scripts/shared.py:49-53 | What the stale-draft calls raise changes neither the update's outcome nor any call from the new version on |
| Publish.CreateOrUpdateExclusive | data-import-scripts/shared.py:66-69 | After authenticate and lookup, exactly one path runs: an existing dataset is never created, a missing one never versioned |
| Publish.UpdateNeverCreates | data-import-scripts/shared.py:42-55 | An update starts with the lookup and never creates a dataset |
| Publish.CreateNeverVersions | data-import-scripts/shared.py:34-39 | A creation starts with the new draft and never requests a version |
| Publish.NotifiesOnlyOnFailure | data-import-scripts/shared.py:58-75 | Slack hears nothing exactly when the import's last call is a publish that went through. Otherwise it hears once, under the dataset's name: of the fault of the last call, or of the guard, which fires only when the listing has rows but not one column, right after the second lookup. `iloc` never reaches Slack |
| Publish.ImportPublishesWithoutFaults | data-import-scripts/shared.py:58-75 | With no faults and a lookup frame the guard accepts, the import ends normally with a publish |
| Publish.ShiftedImportNeverPublishes | data-import-scripts/john-hopkins-university.py:115 | Called with the extra `url`, the import always raises and reaches Slack, and never uploads or publishes. Without faults it raises AttributeError right after creating the draft or the new version |

| LegacyPublish.LegacyUploadBody | robert-koch-institut-timeseries/shared.py:53-61 | The trace and outcome are those of the `try` block: upload, infer_schema, metadata, description, publish |
| LegacyPublish.LegacyUploadData | robert-koch-institut-timeseries/shared.py:52-63 | As the body, except that an HTTPError is swallowed where the helper catches it |
| LegacyPublish.LegacyCreateDataset | new-york-times/shared.py:56-58 | Creates the draft, then uploads |
| LegacyPublish.LegacyUpdateDataset | new-york-times/shared.py:61-73 | Lookup, guard, stale-draft cleanup where the helper has it, new version, upload |
| LegacyPublish.JohnsHopkinsName | john-hopkins-university/shared.py:92 | The name is the fixed prefix followed by the label |
| LegacyPublish.JohnsHopkinsDescription | john-hopkins-university/shared.py:83-84 | The caller's description is used unchanged; the generated one is used only when it is None |
| LegacyPublish.JohnsHopkinsUploadDataset | john-hopkins-university/shared.py:91-93 | Creates the dataset named after the label and uploads with the chosen description |
| LegacyPublish.JohnsHopkinsUpdateDataset | john-hopkins-university/shared.py:96-104 | Lookup by the label's name, guard, new version, upload, with no stale-draft calls |
| LegacyPublish.LegacyBodyIsStraight | john-hopkins-university/shared.py:77-86 | The `try` block makes its five calls one after another |
| LegacyPublish.LegacyUploadOutcome | our-world-in-data-complete/shared.py:42-53 | The upload makes the plan's calls up to the first that raises. The raise is swallowed exactly when the helper catches HTTP errors and the fault is one |
| LegacyPublish.JohnsHopkinsUploadRaises | john-hopkins-university/shared.py:76-88 | The JHU upload raises exactly when a call raises: its handler cannot catch anything |
| LegacyPublish.HttpErrorsSwallowed | new-york-times/shared.py:43-53 | No HTTPError escapes an upload with the handler; if every fault is one, the upload ends normally |
| LegacyPublish.LegacyGuardRaisesFirst | robert-koch-institut-timeseries/shared.py:73-76 | The guard (or an empty lookup) raises right after the lookup, before any draft, version or upload call |
| LegacyPublish.LegacyUploadAvoids | robert-koch-institut/shared.py:38-49 | The upload makes no catalog-level call |
| LegacyPublish.NoDraftDeletion | robert-koch-institut/shared.py:57-64 | The JHU and old RKI updates never look up or delete a stale draft |
| LegacyPublish.LegacyUpdatePastGuard | robert-koch-institut-timeseries/shared.py:76-83 | Past the guard, the stale-draft calls are attempted where the helper has them, and then the revision |
| LegacyPublish.LegacyStaleDraftFaultsSwallowed | our-world-in-data-complete/shared.py:67-72 | What the stale-draft calls raise changes neither the outcome nor any call from the new version on |
| LegacyPublish.CreateWithoutFaults | our-world-in-data-complete/shared.py:56-58 | Without faults a creation makes exactly its six calls. OWID publishes "Initial import", the others "First import" |
| LegacyPublish.UpdateWithoutFaults | our-world-in-data-complete/shared.py:61-73 | Without faults an update makes exactly its calls. OWID publishes "Daily update", the others "First import" |

## Left out

- Network and file I/O are not modelled: `read_csv`, `requests.get`, `read_html` and the temporary CSV file. Fetched content is an input (a table or a list of lines), and the CSV upload is a recorded `UploadData(data, withIndex)` call carrying the table unchanged.
- The Edelweiss API and the Slack webhook are foreign services. They appear only as recorded calls on `Catalog` and `Notifier`. Whether a call raises is decided by the environment, per kind of call. A failure of the Slack post itself is not modelled.
- The wall clock (`datetime.datetime.now()`) is an input. Each reading is a separate parameter: the `now` argument, the clock for the cutoff, and the changelog time.
- Timestamps and cutoffs are kept structured. `"{}".format(now)` rendering is not modelled, and neither is the markdown text of the `get_description`/`create_description` templates, which is passed in as a string.
- Floats (Lat, Long, population rates) and the "1.234,5" number parsing of `read_html` are opaque `Value`s. Date strings are parsed abstractly to a `Date`. The RKI Meldedatum stays the string the CSV holds.
- The module-level driver code of the scripts (download, then metadata, description and the final call) is not modelled beyond its last call; see "## Findings" for that call. The Johns Hopkins (john-hopkins-university.py:115,120), New York Times (new-york-times.py:70) and Robert Koch (robert-koch-institute.py:77) scripts pass five positional arguments, which Python binds shifted by one place. That call is modelled by `Publish.ShiftedImportScript`. The Our World in Data script (our-world-in-data-complete.py:81) passes six, one more than the five parameters, so Python raises TypeError before the `try`: no call is made and Slack hears nothing. That case is not modelled further.
- The import-time downloads at robert-koch-institut-timeseries/shared.py:10 and our-world-in-data-complete/shared.py:10 are pure side effects and are left out.
- The standalone `*-full-data.py` scripts hold no logic beyond the shared modules and are left out.
- LegacyPublish.LegacyUploadData: the legacy `upload_data` evaluates `get_metadata(now)` inside its `try`. The model takes the dictionary as an input, so an OverflowError from the cutoff inside the upload is not modelled.
- LegacyPublish.LegacyUpdateDataset: the guard's message uses the undefined `datasetname`. The resulting NameError is modelled as the guard's own error (`NotExactlyOne`), since only the fact that it raises matters.
- LegacyPublish.JohnsHopkinsUploadRaises: the JHU `except requests.HTTPError` clause fails with NameError because `requests` is not imported. The model lets the original fault propagate instead of a NameError.
- Tables.ToInt64: counts are assumed to lie within int64. The OverflowError for a larger integer, the wrap-around of a float beyond int64 and the ValueError for non-numeric text in a count column are not modelled.
- RkiSnapshot.GetData: `read_html` returns at least one table or raises, so the model requires a non-empty list. The failure to find any table is not modelled.
- The stale-draft semantics of the catalog are not modelled: which draft exists, or what deleting it does. Only the calls and what they raise are recorded.
- JohnsHopkins.Merge: when the three indexes differ, the rows are a map keyed by (Country/Region, Province/State, Date), so their order is not modelled. A repeated key is then modelled as an error. pandas raises when it must reindex such a table, but whether it must depends on its version's index union.
- `get_data` of Our World in Data (script and legacy module) returns the downloaded table unchanged, so there is nothing to state about it beyond the region list.
- The upper calendar bound (year 9999) is not modelled, since the scripts only subtract days.

## Findings

| source | as written | input that shows it | evidently intended | confidence | as-written member | corrected member |
|---|---|---|---|---|---|---|
| data-import-scripts/new-york-times.py:70 (likewise john-hopkins-university.py:115,120 and robert-koch-institute.py:77) | `create_or_update_dataset(name, url, metadata, description, data)` binds `metadata` to the URL, `description` to the dictionary, `data` to the description text and `column_descriptions` to the table; `to_csv` on the text raises AttributeError inside the `try` | any run: with no faults and no published dataset, the draft is created, then AttributeError is raised, Slack is posted to and nothing is uploaded or published | `create_or_update_dataset(name, metadata, description, data)`, which publishes | not executed | Publish.ShiftedImportNeverPublishes | Publish.ImportPublishesWithoutFaults |
