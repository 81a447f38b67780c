/** Our World in Data complete dataset: the codebook parser that yields the
    column descriptions, the distinct locations published as regions, and
    the metadata dictionaries. */
module OurWorldInData {
  import opened Wrappers
  import opened Calendar
  import opened ReportingCutoff
  import opened Tables
  import opened Regions
  import M = Metadata

  // ---------------------------------------------------------------------------
  // One codebook line against ^`(?P<name>[^`]+)`\|(?P<description>[^\|]+)\|(?P<source>.+)$

  /** The three groups of a matching line. */
  datatype Entry = Entry(name: string, description: string, source: string)

  /** What the pattern can capture: a non-empty name without backticks, a
      non-empty description without bars, a non-empty source without a line
      feed (`.` does not match one). */
  predicate Capturable(e: Entry) {
    && |e.name| > 0 && '`' !in e.name
    && |e.description| > 0 && '|' !in e.description
    && |e.source| > 0 && '\n' !in e.source
  }

  /** The line the groups come from. */
  function Render(e: Entry): string {
    "`" + e.name + "`|" + e.description + "|" + e.source
  }

  /** The position of the first `c` in `s`. */
  function IndexOf(s: string, c: char): (r: Option<nat>)
    ensures r.Some? ==> r.value < |s|
  {
    if s == [] then None
    else if s[0] == c then Some(0)
    else
      var r := IndexOf(s[1..], c);
      if r.None? then None else Some(r.value + 1)
  }

  /** `IndexOf` finds the first occurrence, and finds none exactly when there is none. */
  lemma {:induction false} IndexOfFirst(s: string, c: char)
    ensures IndexOf(s, c).None? <==> c !in s
    ensures IndexOf(s, c).Some? ==> s[IndexOf(s, c).value] == c && c !in s[..IndexOf(s, c).value]
  {
    if s != [] && s[0] != c {
      IndexOfFirst(s[1..], c);
      assert s == [s[0]] + s[1..];
      var r := IndexOf(s[1..], c);
      if r.Some? {
        assert s[..r.value + 1] == [s[0]] + s[1..][..r.value];
      }
    }
  }

  lemma IndexOfAfter(a: string, c: char, b: string)
    requires c !in a
    ensures IndexOf(a + [c] + b, c) == Some(|a|)
  {
    var s := a + [c] + b;
    assert s[|a|] == c;
    assert s[..|a|] == a;
    IndexOfFirst(s, c);
  }

  /** A string cut around one position, with the part after it split again. */
  lemma SplitAround(s: string, k: int, after: string, suffix: string)
    requires 0 <= k < |s| && s[k + 1..] == after + suffix
    ensures s == s[..k] + [s[k]] + after + suffix
  {
    assert s == s[..k] + [s[k]] + s[k + 1..];
  }

  // The pattern in two stages: "`name`|" and then "description|source$".

  /** `` ^`(?P<name>[^`]+)`\| ``: the name is the run up to the first backtick
      after the opening one, and a bar must follow it. Yields the name and the
      rest of the line. */
  function NamePart(line: string): Option<(string, string)> {
    if |line| == 0 || line[0] != '`' then None
    else
      var rest := line[1..];
      var tick := IndexOf(rest, '`');
      if tick.None? || tick.value == 0 then None
      else
        var afterName := rest[tick.value + 1..];
        if |afterName| == 0 || afterName[0] != '|' then None
        else Some((rest[..tick.value], afterName[1..]))
  }

  /** `(?P<source>.+)$`: the non-empty remainder without a line feed, where
      `$` also matches before one final line feed. */
  function SourceGroup(remainder: string): Option<string> {
    var source := if |remainder| > 0 && remainder[|remainder| - 1] == '\n'
                  then remainder[..|remainder| - 1] else remainder;
    if |source| == 0 || '\n' in source then None else Some(source)
  }

  /** `(?P<description>[^\|]+)\|(?P<source>.+)$` after the name: the description
      is the run up to the first bar. */
  function MatchFields(name: string, tail: string): Option<Entry> {
    var bar := IndexOf(tail, '|');
    if bar.None? || bar.value == 0 then None
    else
      var source :- SourceGroup(tail[bar.value + 1..]);
      Some(Entry(name, tail[..bar.value], source))
  }

  /** `regex.match(line)`. */
  function MatchLine(line: string): Option<Entry> {
    var cut :- NamePart(line);
    MatchFields(cut.0, cut.1)
  }

  predicate LineEnding(suffix: string) {
    suffix == "" || suffix == "\n"
  }

  // ---------------------------------------------------------------------------
  // The name stage

  lemma NamePartRender(name: string, tail: string)
    requires |name| > 0 && '`' !in name
    ensures NamePart("`" + name + "`|" + tail) == Some((name, tail))
  {
    var line := "`" + name + "`|" + tail;
    var afterName := "|" + tail;
    assert line[1..] == name + ['`'] + afterName;
    IndexOfAfter(name, '`', afterName);
    assert line[1..][|name| + 1..] == afterName;
    assert line[1..][..|name|] == name;
  }

  lemma NamePartSound(line: string)
    requires NamePart(line).Some?
    ensures var (name, tail) := NamePart(line).value;
            |name| > 0 && '`' !in name && line == "`" + name + "`|" + tail
  {
    IndexOfFirst(line[1..], '`');
    CutName(line, IndexOf(line[1..], '`').value);
  }

  /** The string-level half of `NamePartSound`. */
  lemma CutName(line: string, tick: int)
    requires |line| > 0 && line[0] == '`' && 0 <= tick < |line| - 2
    requires line[1..][tick] == '`' && line[1..][tick + 1..][0] == '|'
    ensures line == "`" + line[1..][..tick] + "`|" + line[1..][tick + 1..][1..]
  {
    var rest := line[1..];
    var name, afterName := rest[..tick], rest[tick + 1..];
    var tail := afterName[1..];
    assert afterName == "|" + tail;
    assert rest == name + ("`" + afterName);
    assert line == "`" + rest;
    assert "`" + name + "`|" + tail == "`" + (name + ("`" + ("|" + tail)));
  }

  // ---------------------------------------------------------------------------
  // The fields stage

  lemma SourceGroupRender(source: string, suffix: string)
    requires |source| > 0 && '\n' !in source && LineEnding(suffix)
    ensures SourceGroup(source + suffix) == Some(source)
  {
    var remainder := source + suffix;
    if suffix == "\n" {
      assert remainder[..|remainder| - 1] == source;
    } else {
      assert remainder == source;
      assert source[|source| - 1] in source;
    }
  }

  lemma SourceGroupSound(remainder: string)
    requires SourceGroup(remainder).Some?
    ensures var source := SourceGroup(remainder).value;
            |source| > 0 && '\n' !in source && (remainder == source || remainder == source + "\n")
  {
    if |remainder| > 0 && remainder[|remainder| - 1] == '\n' {
      assert remainder == remainder[..|remainder| - 1] + "\n";
    }
  }

  lemma MatchFieldsRender(e: Entry, suffix: string)
    requires Capturable(e) && LineEnding(suffix)
    ensures MatchFields(e.name, e.description + "|" + e.source + suffix) == Some(e)
  {
    var tail := e.description + "|" + e.source + suffix;
    assert tail == e.description + ['|'] + (e.source + suffix);
    IndexOfAfter(e.description, '|', e.source + suffix);
    assert tail[|e.description| + 1..] == e.source + suffix;
    assert tail[..|e.description|] == e.description;
    SourceGroupRender(e.source, suffix);
  }

  lemma MatchFieldsSound(name: string, tail: string)
    requires MatchFields(name, tail).Some?
    ensures var e := MatchFields(name, tail).value;
            && e.name == name && |e.description| > 0 && '|' !in e.description
            && |e.source| > 0 && '\n' !in e.source
            && exists suffix :: LineEnding(suffix) && tail == e.description + "|" + e.source + suffix
  {
    IndexOfFirst(tail, '|');
    var bar := IndexOf(tail, '|').value;
    SourceGroupSound(tail[bar + 1..]);
    var source := SourceGroup(tail[bar + 1..]).value;
    SplitAround(tail, bar, source, if tail[bar + 1..] == source then "" else "\n");
  }

  // ---------------------------------------------------------------------------
  // The whole line

  /** A rendered line, cut after the name stage. */
  lemma RenderSplit(e: Entry, suffix: string)
    ensures Render(e) + suffix == "`" + e.name + "`|" + (e.description + "|" + e.source + suffix)
  {
  }

  /** Round trip: the line rendered from capturable groups matches with
      exactly those groups, with or without a trailing line feed. */
  lemma MatchLineRender(e: Entry, suffix: string)
    requires Capturable(e) && LineEnding(suffix)
    ensures MatchLine(Render(e) + suffix) == Some(e)
  {
    RenderSplit(e, suffix);
    NamePartRender(e.name, e.description + "|" + e.source + suffix);
    MatchFieldsRender(e, suffix);
  }

  /** Soundness: whatever matches is a capturable entry's line, possibly
      followed by one line feed. */
  lemma MatchLineSound(line: string)
    requires MatchLine(line).Some?
    ensures var e := MatchLine(line).value;
            Capturable(e) && exists suffix :: LineEnding(suffix) && line == Render(e) + suffix
  {
    var (name, tail) := NamePart(line).value;
    NamePartSound(line);
    MatchFieldsSound(name, tail);
    var e := MatchFields(name, tail).value;
    var suffix :| LineEnding(suffix) && tail == e.description + "|" + e.source + suffix;
    RenderSplit(e, suffix);
  }

  // ---------------------------------------------------------------------------
  // get_column_descriptions

  const Header := "Column|Description|Source"

  datatype CodebookError =
    | IndexError                      // fewer than three lines
    | UnexpectedHeader(line0: string) // the message quotes line 0, not line 2
    | NoMatch                         // `fragment.group` on None

  /** The dictionary value of an entry. */
  function Describe(e: Entry): string {
    e.description + " - Source: " + e.source
  }

  /** `codebook_markdown[4:]`. */
  function Body(lines: seq<string>): (body: seq<string>)
    ensures |body| == if |lines| >= 4 then |lines| - 4 else 0
    ensures forall i :: 4 <= i < |lines| ==> body[i - 4] == lines[i]
  {
    if |lines| >= 4 then lines[4..] else []
  }

  /** `[regex.match(line) for line in body]`. */
  function Fragments(body: seq<string>): (frags: seq<Option<Entry>>)
    ensures |frags| == |body|
    ensures forall k :: 0 <= k < |body| ==> frags[k] == MatchLine(body[k])
  {
    seq(|body|, k requires 0 <= k < |body| => MatchLine(body[k]))
  }

  /** The groups of every fragment; a fragment that is None fails the
      comprehension. */
  function Collect(frags: seq<Option<Entry>>): (r: Result<seq<Entry>, CodebookError>)
    ensures r.Success? <==> forall i :: 0 <= i < |frags| ==> frags[i].Some?
    ensures r.Success? ==> |r.value| == |frags| && forall i :: 0 <= i < |frags| ==> r.value[i] == frags[i].value
    ensures r.Failure? ==> r.error == NoMatch
  {
    if frags == [] then Success([])
    else if frags[0].None? then Failure(NoMatch)
    else
      var rest :- Collect(frags[1..]);
      Success([frags[0].value] + rest)
  }

  /** `{k: v for k, v in pairs}`: later pairs overwrite earlier ones. */
  function ToMap(es: seq<Entry>): map<string, string> {
    if es == [] then map[] else ToMap(es[..|es| - 1])[es[|es| - 1].name := Describe(es[|es| - 1])]
  }

  lemma {:induction false} ToMapKeys(es: seq<Entry>)
    ensures forall i :: 0 <= i < |es| ==> es[i].name in ToMap(es)
    ensures forall k :: k in ToMap(es) ==> exists i :: 0 <= i < |es| && es[i].name == k
  {
    if es != [] {
      var init := es[..|es| - 1];
      ToMapKeys(init);
      forall k | k in ToMap(es)
        ensures exists i :: 0 <= i < |es| && es[i].name == k
      {
        if k != es[|es| - 1].name {
          assert k in ToMap(init);
          var i :| 0 <= i < |init| && init[i].name == k;
          assert es[i].name == k;
        }
      }
      forall i | 0 <= i < |es| - 1
        ensures es[i].name in ToMap(es)
      {
        assert init[i] == es[i];
      }
    }
  }

  /** The value of a name is the description of its last entry. */
  lemma {:induction false} ToMapLastWins(es: seq<Entry>, i: int)
    requires 0 <= i < |es|
    requires forall j :: i < j < |es| ==> es[j].name != es[i].name
    ensures es[i].name in ToMap(es) && ToMap(es)[es[i].name] == Describe(es[i])
  {
    if i < |es| - 1 {
      ToMapLastWins(es[..|es| - 1], i);
    }
  }

  /** `get_column_descriptions` on the codebook's lines. */
  function GetColumnDescriptions(lines: seq<string>): (r: Result<map<string, string>, CodebookError>)
    ensures |lines| < 3 ==> r == Failure(IndexError)
    ensures |lines| >= 3 && lines[2] != Header ==> r == Failure(UnexpectedHeader(lines[0]))
    ensures r.Success? <==>
              |lines| >= 3 && lines[2] == Header && forall i :: 4 <= i < |lines| ==> MatchLine(lines[i]).Some?
  {
    if |lines| < 3 then Failure(IndexError)
    else if lines[2] != Header then Failure(UnexpectedHeader(lines[0]))
    else
      var entries :- Collect(Fragments(Body(lines)));
      Success(ToMap(entries))
  }

  /** The names of the codebook are exactly the names of its lines from index 4 on. */
  lemma ColumnDescriptionKeys(lines: seq<string>)
    requires GetColumnDescriptions(lines).Success?
    ensures forall i :: 4 <= i < |lines| ==> MatchLine(lines[i]).value.name in GetColumnDescriptions(lines).value
    ensures forall k :: k in GetColumnDescriptions(lines).value ==>
              exists i :: 4 <= i < |lines| && MatchLine(lines[i]).value.name == k
  {
    var entries := Collect(Fragments(Body(lines))).value;
    assert GetColumnDescriptions(lines).value == ToMap(entries);
    ToMapKeys(entries);
    forall i | 4 <= i < |lines|
      ensures MatchLine(lines[i]).value.name in ToMap(entries)
    {
      assert entries[i - 4] == MatchLine(lines[i]).value;
    }
    forall k | k in ToMap(entries)
      ensures exists i :: 4 <= i < |lines| && MatchLine(lines[i]).value.name == k
    {
      var i :| 0 <= i < |entries| && entries[i].name == k;
      assert entries[i] == MatchLine(lines[i + 4]).value;
    }
  }

  /** Each name maps to "description - Source: source" of the last line that
      names it. */
  lemma ColumnDescriptionValue(lines: seq<string>, i: int)
    requires GetColumnDescriptions(lines).Success?
    requires 4 <= i < |lines|
    requires forall j :: i < j < |lines| ==> MatchLine(lines[j]).value.name != MatchLine(lines[i]).value.name
    ensures var e := MatchLine(lines[i]).value;
            e.name in GetColumnDescriptions(lines).value
            && GetColumnDescriptions(lines).value[e.name] == Describe(e)
  {
    var entries := Collect(Fragments(Body(lines))).value;
    assert GetColumnDescriptions(lines).value == ToMap(entries);
    assert entries[i - 4] == MatchLine(lines[i]).value;
    forall j | i - 4 < j < |entries|
      ensures entries[j].name != entries[i - 4].name
    {
      assert Fragments(Body(lines))[j] == MatchLine(lines[j + 4]);
    }
    ToMapLastWins(entries, i - 4);
  }

  /** Lines 0, 1 and 3 never change a successful result. */
  lemma IgnoredLines(lines: seq<string>, other: seq<string>)
    requires |lines| == |other| >= 4 && lines[2] == other[2] && lines[4..] == other[4..]
    ensures GetColumnDescriptions(lines).Success? <==> GetColumnDescriptions(other).Success?
    ensures GetColumnDescriptions(lines).Success? ==> GetColumnDescriptions(lines) == GetColumnDescriptions(other)
  {
    assert Body(lines) == Body(other);
  }

  // ---------------------------------------------------------------------------
  // Regions and metadata

  const Url := "https://covid.ourworldindata.org/data/owid-covid-data.csv"
  const Agency := "https://www.ecdc.europa.eu/en/coronavirus"
  const Background := "https://ourworldindata.org/coronavirus-source-data"
  const Keywords := ["covid-19", "cases", "deaths", "by country", "testing"]
  const ColumnNames := [("region", "location"), ("date", "date"), ("daily-cases", "new_cases"),
                        ("total-cases", "total_cases"), ("daily-deaths", "new_deaths"),
                        ("total-deaths", "total_deaths"), ("population", "population")]

  /** A record of the CSV: its `location` and its other cells, carried unchanged. */
  datatype Record = Record(location: string, cells: seq<Value>)

  function Locations(data: seq<Record>): (s: seq<string>)
    ensures |s| == |data| && forall i :: 0 <= i < |data| ==> s[i] == data[i].location
  {
    seq(|data|, i requires 0 <= i < |data| => data[i].location)
  }

  /** `[l for l in data.loc[:, "location"].unique()]`. */
  function RegionList(data: seq<Record>): (r: seq<string>)
    ensures Distinct(r)
    ensures forall i :: 0 <= i < |r| ==> exists j :: 0 <= j < |data| && data[j].location == r[i]
    ensures forall j :: 0 <= j < |data| ==> data[j].location in r
    ensures forall i, k :: 0 <= i < k < |r| ==> FirstIndex(Locations(data), r[i]) < FirstIndex(Locations(data), r[k])
  {
    var r := Unique(Locations(data));
    forall i | 0 <= i < |r|
      ensures exists j :: 0 <= j < |data| && data[j].location == r[i]
    {
      LocationOccurs(data, r[i]);
    }
    r
  }

  /** A value of the location column is the location of some record. */
  lemma LocationOccurs(data: seq<Record>, x: string)
    requires x in Locations(data)
    ensures exists j :: 0 <= j < |data| && data[j].location == x
  {
    var j := FirstIndex(Locations(data), x);
    assert data[j].location == x;
  }

  /** `get_metadata(now, regions)` of the script: eight keys with the OWID
      cutoff, plus the seven-entry `columnNames` and `regions`. */
  function GetMetadata(now: M.Instant, clock: Clock, regions: seq<string>): (r: Result<M.Metadata, DateError>)
    requires ValidClock(clock)
    ensures r.Success? <==> DaysBack(OurWorldInData, clock.hour) < Ordinal(clock.date)
    ensures r.Success? ==>
              && r.value.Keys == M.CutoffKeys + {"columnNames", "regions"}
              && M.Describes(r.value, now, M.Text(Url), Agency, Background, Keywords)
              && M.LicensedWithCutoff(r.value, EstimatedReportingCutoff(OurWorldInData, clock).value)
              && r.value["columnNames"] == M.Pairs(ColumnNames)
              && r.value["regions"] == M.Texts(regions)
  {
    var m :- M.CutoffMetadata(OurWorldInData, clock, now, M.Text(Url), Agency, Background, Keywords);
    Success(M.WithRegions(m, ColumnNames, regions))
  }

  /** `get_metadata(now)` of the legacy module: the eight keys only. */
  function GetMetadataLegacy(now: M.Instant, clock: Clock): (r: Result<M.Metadata, DateError>)
    requires ValidClock(clock)
    ensures r.Success? <==> DaysBack(OurWorldInData, clock.hour) < Ordinal(clock.date)
    ensures r.Success? ==>
              && r.value.Keys == M.CutoffKeys
              && M.Describes(r.value, now, M.Text(Url), Agency, Background, Keywords)
              && M.LicensedWithCutoff(r.value, EstimatedReportingCutoff(OurWorldInData, clock).value)
  {
    M.CutoffMetadata(OurWorldInData, clock, now, M.Text(Url), Agency, Background, Keywords)
  }

  /** The script's metadata is the legacy dictionary with the two region keys added. */
  lemma MetadataExtendsLegacy(now: M.Instant, clock: Clock, regions: seq<string>)
    requires ValidClock(clock)
    ensures GetMetadata(now, clock, regions).Success? == GetMetadataLegacy(now, clock).Success?
    ensures GetMetadata(now, clock, regions).Success? ==>
              forall k :: k in GetMetadataLegacy(now, clock).value ==>
                k in GetMetadata(now, clock, regions).value
                && GetMetadata(now, clock, regions).value[k] == GetMetadataLegacy(now, clock).value[k]
  {
    var legacy := GetMetadataLegacy(now, clock);
    if legacy.Success? {
      assert GetMetadata(now, clock, regions) == Success(M.WithRegions(legacy.value, ColumnNames, regions));
    }
  }
}
