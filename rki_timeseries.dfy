/** The RKI time series: per-report case and death counts summed into
    (Bundesland, Meldedatum) groups, the two group tables outer-joined and
    sorted, and per-state running totals appended.

    pandas' pivot table, join, sort and group-wise cumulative sum are modelled on
    sequences of rows; `Meldedatum` stays the string the CSV holds, and
    the index order is Python's string order on (Bundesland, Meldedatum). */
module RkiTimeseries {
  import opened Wrappers
  import opened Lexical
  import opened Calendar
  import opened ReportingCutoff
  import opened Metadata

  const Url := "https://opendata.arcgis.com/datasets/dd4580c810204019a7b8eb3e0b329dd6_0.csv"
  const Agency := "https://www.rki.de"
  const Background := "https://npgeo-corona-npgeo-de.hub.arcgis.com/datasets/dd4580c810204019a7b8eb3e0b329dd6_0"
  const Keywords := ["covid-19", "cases", "deaths", "Germany"]

  /** `get_metadata`: the eight keys, with the RKI cutoff (yesterday from 08:00
      local time, else the day before, at 22:00 UTC). */
  function GetMetadata(now: Instant, clock: Clock): (r: Result<Metadata, DateError>)
    requires ValidClock(clock)
    ensures r.Success? <==> DaysBack(RobertKoch, clock.hour) < Ordinal(clock.date)
    ensures r.Success? ==>
              && r.value.Keys == CutoffKeys
              && Describes(r.value, now, Text(Url), Agency, Background, Keywords)
              && LicensedWithCutoff(r.value, EstimatedReportingCutoff(RobertKoch, clock).value)
  {
    CutoffMetadata(RobertKoch, clock, now, Text(Url), Agency, Background, Keywords)
  }

  /** One record of the RKI CSV, reduced to the columns the pipeline reads. */
  datatype Report = Report(bundesland: string, meldedatum: string, anzahlFall: int, anzahlTodesfall: int)

  /** The (Bundesland, Meldedatum) index of every intermediate table. */
  datatype Key = Key(state: string, date: string)

  datatype Measure = Cases | Deaths

  /** Which rows a sum ranges over: all of them, one state, or one key. */
  datatype Selector = AllKeys | StateIs(state: string) | KeyIs(key: Key)

  predicate Selects(sel: Selector, k: Key) {
    match sel
    case AllKeys => true
    case StateIs(s) => k.state == s
    case KeyIs(k') => k == k'
  }

  function KeyOf(r: Report): Key {
    Key(r.bundesland, r.meldedatum)
  }

  function Amount(r: Report, m: Measure): int {
    match m
    case Cases => r.anzahlFall
    case Deaths => r.anzahlTodesfall
  }

  // ---------------------------------------------------------------------------
  // Index order

  /** Lexicographic order on the two index levels, as `sort_index(level=[0, 1])`. */
  predicate KeyLess(a: Key, b: Key) {
    StrLess(a.state, b.state) || (a.state == b.state && StrLess(a.date, b.date))
  }

  lemma KeyLessIrreflexive(a: Key)
    ensures !KeyLess(a, a)
  {
    StrLessIrreflexive(a.state);
    StrLessIrreflexive(a.date);
  }

  lemma KeyLessTransitive(a: Key, b: Key, c: Key)
    requires KeyLess(a, b) && KeyLess(b, c)
    ensures KeyLess(a, c)
  {
    if StrLess(a.state, b.state) && StrLess(b.state, c.state) {
      StrLessTransitive(a.state, b.state, c.state);
    } else if a.state == b.state && b.state == c.state {
      StrLessTransitive(a.date, b.date, c.date);
    }
  }

  lemma KeyLessTotal(a: Key, b: Key)
    ensures a == b || KeyLess(a, b) || KeyLess(b, a)
  {
    StrLessTotal(a.state, b.state);
    StrLessTotal(a.date, b.date);
  }

  // ---------------------------------------------------------------------------
  // Reference sums over the input records

  /** The sum of measure `m` over the records whose key `sel` selects. */
  function SumWhere(recs: seq<Report>, m: Measure, sel: Selector): int {
    if recs == [] then 0
    else
      var last := recs[|recs| - 1];
      SumWhere(recs[..|recs| - 1], m, sel) + (if Selects(sel, KeyOf(last)) then Amount(last, m) else 0)
  }

  /** The distinct keys that occur in the records. */
  function RecordKeys(recs: seq<Report>): set<Key> {
    if recs == [] then {} else RecordKeys(recs[..|recs| - 1]) + {KeyOf(recs[|recs| - 1])}
  }

  // ---------------------------------------------------------------------------
  // pivot_table(df, values=..., index=["Bundesland", "Meldedatum"], aggfunc=numpy.sum)

  /** One row of a pivot table: a key and the sum of its records. */
  datatype Group = Group(key: Key, sum: int)

  predicate GroupsAscending(t: seq<Group>) {
    forall i, j :: 0 <= i < j < |t| ==> KeyLess(t[i].key, t[j].key)
  }

  function GroupKeys(t: seq<Group>): set<Key> {
    if t == [] then {} else {t[0].key} + GroupKeys(t[1..])
  }

  /** The sum of the group values whose key `sel` selects. */
  function GroupSum(t: seq<Group>, sel: Selector): int {
    if t == [] then 0 else (if Selects(sel, t[0].key) then t[0].sum else 0) + GroupSum(t[1..], sel)
  }

  /** Adds one record's amount to its group, creating the group at its sorted place. */
  function Insert(t: seq<Group>, k: Key, v: int): seq<Group> {
    if t == [] then [Group(k, v)]
    else if t[0].key == k then [Group(k, t[0].sum + v)] + t[1..]
    else if KeyLess(k, t[0].key) then [Group(k, v)] + t
    else [t[0]] + Insert(t[1..], k, v)
  }

  lemma {:induction false} InsertProperties(t: seq<Group>, k: Key, v: int)
    requires GroupsAscending(t)
    ensures GroupsAscending(Insert(t, k, v))
    ensures GroupKeys(Insert(t, k, v)) == GroupKeys(t) + {k}
    ensures forall sel :: GroupSum(Insert(t, k, v), sel) == GroupSum(t, sel) + (if Selects(sel, k) then v else 0)
  {
    if t == [] {
    } else if t[0].key == k {
      var r := Insert(t, k, v);
      assert r[1..] == t[1..];
      assert GroupKeys(r) == {k} + GroupKeys(t[1..]);
    } else if KeyLess(k, t[0].key) {
      var r := Insert(t, k, v);
      assert r[1..] == t;
      forall i, j | 0 <= i < j < |r|
        ensures KeyLess(r[i].key, r[j].key)
      {
        if i == 0 && j > 1 {
          KeyLessTransitive(k, t[0].key, t[j - 1].key);
        }
      }
    } else {
      KeyLessTotal(k, t[0].key);
      var rest := Insert(t[1..], k, v);
      InsertProperties(t[1..], k, v);
      var r := Insert(t, k, v);
      assert r == [t[0]] + rest;
      assert r[1..] == rest;
      forall i, j | 0 <= i < j < |r|
        ensures KeyLess(r[i].key, r[j].key)
      {
        if i == 0 {
          assert rest[j - 1].key in GroupKeys(rest) by { KeyAtInKeys(rest, j - 1); }
          if rest[j - 1].key != k {
            KeyInKeysAt(t[1..], rest[j - 1].key);
          }
        }
      }
    }
  }

  lemma {:induction false} KeyAtInKeys(t: seq<Group>, i: int)
    requires 0 <= i < |t|
    ensures t[i].key in GroupKeys(t)
  {
    if i > 0 {
      KeyAtInKeys(t[1..], i - 1);
    }
  }

  lemma {:induction false} KeyInKeysAt(t: seq<Group>, k: Key)
    requires k in GroupKeys(t)
    ensures exists i :: 0 <= i < |t| && t[i].key == k
  {
    if t[0].key != k {
      KeyInKeysAt(t[1..], k);
      var i :| 0 <= i < |t[1..]| && t[1..][i].key == k;
      assert t[i + 1].key == k;
    }
  }

  /** The pivot table: one group per distinct key, in index order, holding the
      sum of the measure over that key's records. */
  function PivotSum(recs: seq<Report>, m: Measure): (t: seq<Group>)
    ensures GroupsAscending(t)
    ensures GroupKeys(t) == RecordKeys(recs)
    ensures forall sel :: GroupSum(t, sel) == SumWhere(recs, m, sel)
  {
    if recs == [] then []
    else
      var last := recs[|recs| - 1];
      var t := PivotSum(recs[..|recs| - 1], m);
      InsertProperties(t, KeyOf(last), Amount(last, m));
      Insert(t, KeyOf(last), Amount(last, m))
  }

  /** Every key lies strictly above `k`. */
  predicate Below(k: Key, t: seq<Group>) {
    forall i :: 0 <= i < |t| ==> KeyLess(k, t[i].key)
  }

  lemma BelowNotIn(k: Key, t: seq<Group>)
    requires Below(k, t)
    ensures k !in GroupKeys(t)
  {
    if k in GroupKeys(t) {
      KeyInKeysAt(t, k);
      var i :| 0 <= i < |t| && t[i].key == k;
      KeyLessIrreflexive(k);
    }
  }

  lemma AscendingTailBelow(t: seq<Group>)
    requires GroupsAscending(t) && t != []
    ensures Below(t[0].key, t[1..])
  {
  }

  lemma BelowTransitive(k: Key, h: Key, t: seq<Group>)
    requires KeyLess(k, h) && (Below(h, t) || (t != [] && t[0].key == h && GroupsAscending(t)))
    ensures Below(k, t)
  {
    forall i | 0 <= i < |t|
      ensures KeyLess(k, t[i].key)
    {
      if t[i].key != h {
        KeyLessTransitive(k, h, t[i].key);
      }
    }
  }

  /** A sum that selects only one key is that key's group value. */
  lemma {:induction false} GroupSumAt(t: seq<Group>, i: int)
    requires GroupsAscending(t) && 0 <= i < |t|
    ensures GroupSum(t, KeyIs(t[i].key)) == t[i].sum
  {
    if i == 0 {
      AscendingTailBelow(t);
      BelowNotIn(t[0].key, t[1..]);
      GroupSumAbsent(t[1..], t[0].key);
    } else {
      KeyLessIrreflexive(t[0].key);
      GroupSumAt(t[1..], i - 1);
    }
  }

  lemma {:induction false} GroupSumAbsent(t: seq<Group>, k: Key)
    requires k !in GroupKeys(t)
    ensures GroupSum(t, KeyIs(k)) == 0
  {
    if t != [] {
      GroupSumAbsent(t[1..], k);
    }
  }

  // ---------------------------------------------------------------------------
  // cases.join(deaths, how="outer") followed by sort_index

  /** A row of the joined table; a key missing on one side is NaN there. */
  datatype Joined = Joined(key: Key, cases: Option<int>, deaths: Option<int>)

  /** The outer join of two tables in index order: the sorted union of their keys. */
  function OuterJoin(a: seq<Group>, b: seq<Group>): seq<Joined>
    decreases |a| + |b|
  {
    if a == [] && b == [] then []
    else if b == [] || (a != [] && KeyLess(a[0].key, b[0].key)) then
      [Joined(a[0].key, Some(a[0].sum), None)] + OuterJoin(a[1..], b)
    else if a == [] || KeyLess(b[0].key, a[0].key) then
      [Joined(b[0].key, None, Some(b[0].sum))] + OuterJoin(a, b[1..])
    else
      [Joined(a[0].key, Some(a[0].sum), Some(b[0].sum))] + OuterJoin(a[1..], b[1..])
  }

  predicate JoinedAscending(j: seq<Joined>) {
    forall p, q :: 0 <= p < q < |j| ==> KeyLess(j[p].key, j[q].key)
  }

  predicate JoinedBelow(k: Key, j: seq<Joined>) {
    forall p :: 0 <= p < |j| ==> KeyLess(k, j[p].key)
  }

  function JoinKeys(j: seq<Joined>): set<Key> {
    if j == [] then {} else {j[0].key} + JoinKeys(j[1..])
  }

  function Present(x: Joined, m: Measure): Option<int> {
    match m
    case Cases => x.cases
    case Deaths => x.deaths
  }

  /** pandas' sum of a column, which skips NaN. */
  function JoinSum(j: seq<Joined>, sel: Selector, m: Measure): int {
    if j == [] then 0
    else
      var v := Present(j[0], m);
      (if Selects(sel, j[0].key) && v.Some? then v.value else 0) + JoinSum(j[1..], sel, m)
  }

  /** The join keeps the index order. */
  lemma {:induction false} OuterJoinSorted(a: seq<Group>, b: seq<Group>)
    requires GroupsAscending(a) && GroupsAscending(b)
    ensures JoinedAscending(OuterJoin(a, b))
    ensures forall k :: Below(k, a) && Below(k, b) ==> JoinedBelow(k, OuterJoin(a, b))
    decreases |a| + |b|
  {
    var j := OuterJoin(a, b);
    if a == [] && b == [] {
    } else if b == [] || (a != [] && KeyLess(a[0].key, b[0].key)) {
      OuterJoinSorted(a[1..], b);
      AscendingTailBelow(a);
      if b != [] {
        BelowTransitive(a[0].key, b[0].key, b);
      }
      assert j[1..] == OuterJoin(a[1..], b);
      forall k | Below(k, a) && Below(k, b)
        ensures JoinedBelow(k, j)
      {
        assert Below(k, a[1..]);
      }
    } else if a == [] || KeyLess(b[0].key, a[0].key) {
      OuterJoinSorted(a, b[1..]);
      AscendingTailBelow(b);
      if a != [] {
        BelowTransitive(b[0].key, a[0].key, a);
      }
      assert j[1..] == OuterJoin(a, b[1..]);
      forall k | Below(k, a) && Below(k, b)
        ensures JoinedBelow(k, j)
      {
        assert Below(k, b[1..]);
      }
    } else {
      KeyLessTotal(a[0].key, b[0].key);
      OuterJoinSorted(a[1..], b[1..]);
      AscendingTailBelow(a);
      AscendingTailBelow(b);
      assert j[1..] == OuterJoin(a[1..], b[1..]);
      forall k | Below(k, a) && Below(k, b)
        ensures JoinedBelow(k, j)
      {
        assert Below(k, a[1..]) && Below(k, b[1..]);
      }
    }
  }

  /** The join drops no key of either side and moves every value into the row
      of its key, whatever the order of the two sides. */
  lemma {:induction false} OuterJoinContents(a: seq<Group>, b: seq<Group>)
    ensures JoinKeys(OuterJoin(a, b)) == GroupKeys(a) + GroupKeys(b)
    ensures forall sel :: JoinSum(OuterJoin(a, b), sel, Cases) == GroupSum(a, sel)
    ensures forall sel :: JoinSum(OuterJoin(a, b), sel, Deaths) == GroupSum(b, sel)
    decreases |a| + |b|
  {
    var j := OuterJoin(a, b);
    if a == [] && b == [] {
    } else if b == [] || (a != [] && KeyLess(a[0].key, b[0].key)) {
      OuterJoinContents(a[1..], b);
      assert j[1..] == OuterJoin(a[1..], b);
    } else if a == [] || KeyLess(b[0].key, a[0].key) {
      OuterJoinContents(a, b[1..]);
      assert j[1..] == OuterJoin(a, b[1..]);
    } else {
      KeyLessTotal(a[0].key, b[0].key);
      OuterJoinContents(a[1..], b[1..]);
      assert j[1..] == OuterJoin(a[1..], b[1..]);
    }
  }

  /** A value is present exactly where its side has the key. */
  lemma {:induction false} OuterJoinPresence(a: seq<Group>, b: seq<Group>)
    requires GroupsAscending(a) && GroupsAscending(b)
    ensures forall p :: 0 <= p < |OuterJoin(a, b)| ==>
              && (OuterJoin(a, b)[p].cases.Some? <==> OuterJoin(a, b)[p].key in GroupKeys(a))
              && (OuterJoin(a, b)[p].deaths.Some? <==> OuterJoin(a, b)[p].key in GroupKeys(b))
    decreases |a| + |b|
  {
    var j := OuterJoin(a, b);
    if a == [] && b == [] {
    } else if b == [] || (a != [] && KeyLess(a[0].key, b[0].key)) {
      OuterJoinPresence(a[1..], b);
      OuterJoinSorted(a[1..], b);
      OuterJoinContents(a[1..], b);
      AscendingTailBelow(a);
      if b != [] {
        BelowTransitive(a[0].key, b[0].key, b);
      }
      BelowNotIn(a[0].key, b);
      BelowNotIn(a[0].key, a[1..]);
      assert j[1..] == OuterJoin(a[1..], b);
      forall p | 1 <= p < |j|
        ensures j[p].key != a[0].key
      {
        KeyLessIrreflexive(a[0].key);
      }
    } else if a == [] || KeyLess(b[0].key, a[0].key) {
      OuterJoinPresence(a, b[1..]);
      OuterJoinSorted(a, b[1..]);
      OuterJoinContents(a, b[1..]);
      AscendingTailBelow(b);
      if a != [] {
        BelowTransitive(b[0].key, a[0].key, a);
      }
      BelowNotIn(b[0].key, a);
      BelowNotIn(b[0].key, b[1..]);
      assert j[1..] == OuterJoin(a, b[1..]);
      forall p | 1 <= p < |j|
        ensures j[p].key != b[0].key
      {
        KeyLessIrreflexive(b[0].key);
      }
    } else {
      KeyLessTotal(a[0].key, b[0].key);
      OuterJoinPresence(a[1..], b[1..]);
      OuterJoinSorted(a[1..], b[1..]);
      OuterJoinContents(a[1..], b[1..]);
      AscendingTailBelow(a);
      AscendingTailBelow(b);
      assert j[1..] == OuterJoin(a[1..], b[1..]);
      forall p | 1 <= p < |j|
        ensures j[p].key != a[0].key
      {
        KeyLessIrreflexive(a[0].key);
      }
    }
  }

  lemma {:induction false} JoinKeyAt(j: seq<Joined>, p: int)
    requires 0 <= p < |j|
    ensures j[p].key in JoinKeys(j)
  {
    if p > 0 {
      JoinKeyAt(j[1..], p - 1);
    }
  }

  // ---------------------------------------------------------------------------
  // sorted.columns = ["Cases", "Deaths"]

  /** A row of the sorted daily table. */
  datatype Daily = Daily(key: Key, cases: int, deaths: int)

  predicate Complete(j: seq<Joined>) {
    forall p :: 0 <= p < |j| ==> j[p].cases.Some? && j[p].deaths.Some?
  }

  function Unwrap(j: seq<Joined>): seq<Daily>
    requires Complete(j)
  {
    seq(|j|, p requires 0 <= p < |j| => Daily(j[p].key, j[p].cases.value, j[p].deaths.value))
  }

  predicate DailyAscending(ds: seq<Daily>) {
    forall p, q :: 0 <= p < q < |ds| ==> KeyLess(ds[p].key, ds[q].key)
  }

  function DailyKeys(ds: seq<Daily>): set<Key> {
    if ds == [] then {} else {ds[0].key} + DailyKeys(ds[1..])
  }

  function Count(d: Daily, m: Measure): int {
    match m
    case Cases => d.cases
    case Deaths => d.deaths
  }

  /** The sum of a column of the daily table over the rows `sel` selects. */
  function DailySum(ds: seq<Daily>, sel: Selector, m: Measure): int {
    if ds == [] then 0 else (if Selects(sel, ds[0].key) then Count(ds[0], m) else 0) + DailySum(ds[1..], sel, m)
  }

  lemma {:induction false} DailySumConcat(x: seq<Daily>, y: seq<Daily>, sel: Selector, m: Measure)
    ensures DailySum(x + y, sel, m) == DailySum(x, sel, m) + DailySum(y, sel, m)
  {
    if x == [] {
      assert x + y == y;
    } else {
      assert (x + y)[1..] == x[1..] + y;
      DailySumConcat(x[1..], y, sel, m);
    }
  }

  lemma {:induction false} UnwrapProperties(j: seq<Joined>)
    requires Complete(j)
    ensures DailyKeys(Unwrap(j)) == JoinKeys(j)
    ensures forall sel, m :: DailySum(Unwrap(j), sel, m) == JoinSum(j, sel, m)
  {
    if j != [] {
      assert Unwrap(j)[1..] == Unwrap(j[1..]);
      UnwrapProperties(j[1..]);
    }
  }

  /** The sorted daily table: cases and deaths per (Bundesland, Meldedatum),
      one row per key that occurs in the records, in index order, and no
      count lost or invented. */
  function DailyTable(recs: seq<Report>): (ds: seq<Daily>)
    ensures DailyAscending(ds)
    ensures DailyKeys(ds) == RecordKeys(recs)
    ensures forall sel, m :: DailySum(ds, sel, m) == SumWhere(recs, m, sel)
  {
    var cases := PivotSum(recs, Cases);
    var deaths := PivotSum(recs, Deaths);
    OuterJoinSorted(cases, deaths);
    OuterJoinContents(cases, deaths);
    OuterJoinPresence(cases, deaths);
    var joined := OuterJoin(cases, deaths);
    assert Complete(joined) by {
      forall p | 0 <= p < |joined|
        ensures joined[p].cases.Some? && joined[p].deaths.Some?
      {
        JoinKeyAt(joined, p);
      }
    }
    UnwrapProperties(joined);
    var ds := Unwrap(joined);
    assert DailyAscending(ds) by {
      forall p, q | 0 <= p < q < |ds|
        ensures KeyLess(ds[p].key, ds[q].key)
      {
        assert ds[p].key == joined[p].key && ds[q].key == joined[q].key;
      }
    }
    assert DailyKeys(ds) == GroupKeys(cases) + GroupKeys(deaths);
    forall sel, m
      ensures DailySum(ds, sel, m) == SumWhere(recs, m, sel)
    {
      assert DailySum(ds, sel, m) == JoinSum(joined, sel, m);
      if m == Cases {
        assert JoinSum(joined, sel, m) == GroupSum(cases, sel);
      } else {
        assert JoinSum(joined, sel, m) == GroupSum(deaths, sel);
      }
    }
    ds
  }

  // ---------------------------------------------------------------------------
  // sorted.groupby("Bundesland").cumsum(), joined back as TotalCases, TotalDeaths

  datatype Totals = Totals(cases: int, deaths: int)

  /** A row of the final table: the daily counts and the state's running totals. */
  datatype Row = Row(day: Daily, totalCases: int, totalDeaths: int)

  function Running(acc: map<string, Totals>, s: string): Totals {
    if s in acc then acc[s] else Totals(0, 0)
  }

  /** The accumulator after one more row: that row's state gains its counts. */
  function Advance(acc: map<string, Totals>, d: Daily): map<string, Totals> {
    var before := Running(acc, d.key.state);
    acc[d.key.state := Totals(before.cases + d.cases, before.deaths + d.deaths)]
  }

  /** A scan over the rows that keeps one pair of running totals per state. */
  function CumSum(ds: seq<Daily>, acc: map<string, Totals>): (rows: seq<Row>)
    ensures |rows| == |ds|
    ensures forall p :: 0 <= p < |ds| ==> rows[p].day == ds[p]
  {
    if ds == [] then []
    else
      var after := Advance(acc, ds[0]);
      var totals := after[ds[0].key.state];
      [Row(ds[0], totals.cases, totals.deaths)] + CumSum(ds[1..], after)
  }

  /** The accumulator holds each state's sums over the rows already scanned. */
  ghost predicate Tracks(acc: map<string, Totals>, done: seq<Daily>) {
    forall s :: Running(acc, s) == Totals(DailySum(done, StateIs(s), Cases), DailySum(done, StateIs(s), Deaths))
  }

  lemma TracksStep(acc: map<string, Totals>, done: seq<Daily>, d: Daily)
    requires Tracks(acc, done)
    ensures Tracks(Advance(acc, d), done + [d])
  {
    var acc' := Advance(acc, d);
    forall s
      ensures Running(acc', s) == Totals(DailySum(done + [d], StateIs(s), Cases), DailySum(done + [d], StateIs(s), Deaths))
    {
      DailySumConcat(done, [d], StateIs(s), Cases);
      DailySumConcat(done, [d], StateIs(s), Deaths);
    }
  }

  lemma PrefixShift(done: seq<Daily>, ds: seq<Daily>, p: int)
    requires 0 < p < |ds|
    ensures (done + [ds[0]]) + ds[1..][..p] == done + ds[..p + 1]
    ensures ds[1..][p - 1] == ds[p]
  {
    assert ds[..p + 1] == [ds[0]] + ds[1..][..p];
  }

  /** Row `p`'s totals are its state's sums up to and including row `p`. */
  lemma {:induction false} CumSumAt(done: seq<Daily>, ds: seq<Daily>, acc: map<string, Totals>, p: int)
    requires Tracks(acc, done) && 0 <= p < |ds|
    ensures CumSum(ds, acc)[p].totalCases == DailySum(done + ds[..p + 1], StateIs(ds[p].key.state), Cases)
    ensures CumSum(ds, acc)[p].totalDeaths == DailySum(done + ds[..p + 1], StateIs(ds[p].key.state), Deaths)
    decreases p
  {
    TracksStep(acc, done, ds[0]);
    if p == 0 {
      CumSumHead(done, ds, acc);
    } else {
      CumSumAt(done + [ds[0]], ds[1..], Advance(acc, ds[0]), p - 1);
      PrefixShift(done, ds, p);
      CumSumShift(ds, acc, p);
    }
  }

  /** Row `p` of the scan is row `p - 1` of the scan that starts one row later. */
  lemma CumSumShift(ds: seq<Daily>, acc: map<string, Totals>, p: int)
    requires 0 < p < |ds|
    ensures CumSum(ds, acc)[p] == CumSum(ds[1..], Advance(acc, ds[0]))[p - 1]
  {
  }

  /** The first row's totals add its counts to what the accumulator held. */
  lemma CumSumHead(done: seq<Daily>, ds: seq<Daily>, acc: map<string, Totals>)
    requires 0 < |ds| && Tracks(Advance(acc, ds[0]), done + [ds[0]])
    ensures CumSum(ds, acc)[0].totalCases == DailySum(done + ds[..1], StateIs(ds[0].key.state), Cases)
    ensures CumSum(ds, acc)[0].totalDeaths == DailySum(done + ds[..1], StateIs(ds[0].key.state), Deaths)
  {
    assert done + ds[..1] == done + [ds[0]];
    assert Running(Advance(acc, ds[0]), ds[0].key.state) == Advance(acc, ds[0])[ds[0].key.state];
  }

  // ---------------------------------------------------------------------------
  // The final table

  /** The returned frame: index names, column names and rows. */
  datatype Timeseries = Timeseries(indexNames: seq<string>, columns: seq<string>, rows: seq<Row>)

  function Days(rows: seq<Row>): seq<Daily> {
    seq(|rows|, p requires 0 <= p < |rows| => rows[p].day)
  }

  /** `get_data`: the sorted daily table with per-state running totals. */
  function GetData(recs: seq<Report>): (t: Timeseries)
    ensures t.indexNames == ["State", "Date"]
    ensures t.columns == ["Cases", "Deaths", "TotalCases", "TotalDeaths"]
    ensures Days(t.rows) == DailyTable(recs)
    ensures forall p :: 0 <= p < |t.rows| ==>
              var s := t.rows[p].day.key.state;
              && t.rows[p].totalCases == DailySum(Days(t.rows)[..p + 1], StateIs(s), Cases)
              && t.rows[p].totalDeaths == DailySum(Days(t.rows)[..p + 1], StateIs(s), Deaths)
  {
    var ds := DailyTable(recs);
    var rows := CumSum(ds, map[]);
    assert Days(rows) == ds;
    forall p | 0 <= p < |rows|
      ensures rows[p].totalCases == DailySum(ds[..p + 1], StateIs(rows[p].day.key.state), Cases)
      ensures rows[p].totalDeaths == DailySum(ds[..p + 1], StateIs(rows[p].day.key.state), Deaths)
    {
      CumSumAt([], ds, map[], p);
      assert [] + ds[..p + 1] == ds[..p + 1];
    }
    Timeseries(["State", "Date"], ["Cases", "Deaths", "TotalCases", "TotalDeaths"], rows)
  }

  // ---------------------------------------------------------------------------
  // Properties of the final table

  lemma {:induction false} DailySumNone(ds: seq<Daily>, sel: Selector, m: Measure)
    requires forall q :: 0 <= q < |ds| ==> !Selects(sel, ds[q].key)
    ensures DailySum(ds, sel, m) == 0
  {
    if ds != [] {
      DailySumNone(ds[1..], sel, m);
    }
  }

  /** In a table without repeated keys, the sum over one key is that key's row. */
  lemma {:induction false} DailySumAt(ds: seq<Daily>, p: int, m: Measure)
    requires DailyAscending(ds) && 0 <= p < |ds|
    ensures DailySum(ds, KeyIs(ds[p].key), m) == Count(ds[p], m)
  {
    if p == 0 {
      forall q | 0 <= q < |ds[1..]|
        ensures !Selects(KeyIs(ds[0].key), ds[1..][q].key)
      {
        assert KeyLess(ds[0].key, ds[q + 1].key);
        KeyLessIrreflexive(ds[0].key);
      }
      DailySumNone(ds[1..], KeyIs(ds[0].key), m);
    } else {
      KeyLessIrreflexive(ds[0].key);
      DailySumAt(ds[1..], p - 1, m);
    }
  }

  /** The index is sorted by state first, so a state's rows are contiguous:
      a row whose predecessor has another state has no earlier row of its state. */
  lemma StateStartsHere(ds: seq<Daily>, p: int)
    requires DailyAscending(ds) && 0 < p < |ds| && ds[p - 1].key.state != ds[p].key.state
    ensures forall q :: 0 <= q < p ==> ds[q].key.state != ds[p].key.state
  {
    forall q | 0 <= q < p
      ensures ds[q].key.state != ds[p].key.state
    {
      if q < p - 1 && ds[q].key.state == ds[p].key.state {
        assert KeyLess(ds[q].key, ds[p - 1].key);
        StrLessAsymmetric(ds[p - 1].key.state, ds[p].key.state);
      }
    }
  }

  /** ... and a row whose successor has another state has no later row of its state. */
  lemma StateEndsHere(ds: seq<Daily>, p: int)
    requires DailyAscending(ds) && 0 <= p < |ds| - 1 && ds[p + 1].key.state != ds[p].key.state
    ensures forall q :: p < q < |ds| ==> ds[q].key.state != ds[p].key.state
  {
    forall q | p < q < |ds|
      ensures ds[q].key.state != ds[p].key.state
    {
      if q > p + 1 && ds[q].key.state == ds[p].key.state {
        assert KeyLess(ds[p + 1].key, ds[q].key);
        StrLessAsymmetric(ds[p].key.state, ds[p + 1].key.state);
      }
    }
  }

  /** Cases and Deaths of a row are the sums of AnzahlFall and AnzahlTodesfall
      over all records with the row's (Bundesland, Meldedatum). */
  lemma CountsAreRecordSums(recs: seq<Report>, p: int)
    requires 0 <= p < |GetData(recs).rows|
    ensures var row := GetData(recs).rows[p];
            && row.day.cases == SumWhere(recs, Cases, KeyIs(row.day.key))
            && row.day.deaths == SumWhere(recs, Deaths, KeyIs(row.day.key))
  {
    var ds := DailyTable(recs);
    assert GetData(recs).rows[p].day == ds[p];
    DailySumAt(ds, p, Cases);
    DailySumAt(ds, p, Deaths);
  }

  /** The running totals restart at each state: a state's first row has totals
      equal to its daily counts, every later row adds its counts to the
      previous row's totals. */
  lemma RunningTotalsRestart(recs: seq<Report>, p: int)
    requires 0 <= p < |GetData(recs).rows|
    ensures var rows := GetData(recs).rows;
            if p == 0 || rows[p - 1].day.key.state != rows[p].day.key.state then
              rows[p].totalCases == rows[p].day.cases && rows[p].totalDeaths == rows[p].day.deaths
            else
              && rows[p].totalCases == rows[p - 1].totalCases + rows[p].day.cases
              && rows[p].totalDeaths == rows[p - 1].totalDeaths + rows[p].day.deaths
  {
    var rows := GetData(recs).rows;
    var ds := Days(rows);
    assert ds[p] == rows[p].day;
    PrefixSumStep(ds, p, Cases);
    PrefixSumStep(ds, p, Deaths);
    if p > 0 {
      assert ds[p - 1] == rows[p - 1].day;
      assert ds[..p - 1 + 1] == ds[..p];
    }
  }

  /** The prefix sum of a row's state starts afresh at the state's first row
      and otherwise extends the previous row's prefix sum. */
  lemma PrefixSumStep(ds: seq<Daily>, p: int, m: Measure)
    requires DailyAscending(ds) && 0 <= p < |ds|
    ensures DailySum(ds[..p + 1], StateIs(ds[p].key.state), m)
         == (if p == 0 || ds[p - 1].key.state != ds[p].key.state then 0
             else DailySum(ds[..p], StateIs(ds[p - 1].key.state), m))
            + Count(ds[p], m)
  {
    var s := ds[p].key.state;
    assert ds[..p + 1] == ds[..p] + [ds[p]];
    DailySumConcat(ds[..p], [ds[p]], StateIs(s), m);
    if p == 0 || ds[p - 1].key.state != s {
      if p > 0 {
        StateStartsHere(ds, p);
      }
      DailySumNone(ds[..p], StateIs(s), m);
    }
  }

  /** Conservation: the totals on a state's last row are the sums of
      AnzahlFall and AnzahlTodesfall over all of that state's records. */
  lemma FinalTotalsConserve(recs: seq<Report>, p: int)
    requires 0 <= p < |GetData(recs).rows|
    requires p == |GetData(recs).rows| - 1
          || GetData(recs).rows[p + 1].day.key.state != GetData(recs).rows[p].day.key.state
    ensures var row := GetData(recs).rows[p];
            && row.totalCases == SumWhere(recs, Cases, StateIs(row.day.key.state))
            && row.totalDeaths == SumWhere(recs, Deaths, StateIs(row.day.key.state))
  {
    var ds := DailyTable(recs);
    var s := ds[p].key.state;
    assert ds == ds[..p + 1] + ds[p + 1..];
    DailySumConcat(ds[..p + 1], ds[p + 1..], StateIs(s), Cases);
    DailySumConcat(ds[..p + 1], ds[p + 1..], StateIs(s), Deaths);
    if p < |ds| - 1 {
      StateEndsHere(ds, p);
    }
    DailySumNone(ds[p + 1..], StateIs(s), Cases);
    DailySumNone(ds[p + 1..], StateIs(s), Deaths);
  }
}
