/** The create-or-update publish protocol shared by the import scripts.

    The EdelweissData API is a remote catalog: every call on it is recorded in
    a trace, in order, and answers from an environment fixed in advance (the
    listing `get_published_datasets` returns for the name, the schema
    `infer_schema` produces, and which kinds of call raise). The Slack webhook
    is a notifier that records the messages posted to it.

    Each operation is an imperative method over these objects. Its contract
    ties the new trace and the outcome to `Exec`, the meaning of a small
    script (calls, `raise`, and the two `try` forms the scripts use) that
    spells out the operation's statements; the lemmas are about those scripts. */
module Publish {
  import opened Wrappers
  import M = Metadata

  // ---------------------------------------------------------------------------
  // The catalog and its calls

  type DatasetId = nat

  /** A schema column: its name and the description shown for it. */
  datatype Column = Column(name: string, description: string)

  /** The changelog a publish carries, with its structured timestamp. */
  datatype Changelog =
    | InitialImport(at: M.Instant)  // "Initial import of data at {}"
    | DailyUpdate(at: M.Instant)    // "Daily update of data at {}"
    | FirstImport(at: M.Instant)    // "First import on {}"

  /** One call on the API, with what it sends. `UploadData` carries the table
      and whether its index is written to the CSV. */
  datatype Call<D> =
    | Authenticate
    | GetPublished(name: string)
    | CreateInProgress(name: string)
    | GetInProgress(id: DatasetId)
    | DeleteDraft(id: DatasetId)
    | NewVersion(id: DatasetId)
    | UploadData(data: D, withIndex: bool)
    | InferSchema
    | UpdateSchema(schema: seq<Column>)
    | UploadMetadata(metadata: M.Metadata)
    | SetDescription(text: string)
    | Publish(changelog: Changelog)

  /** The kind of a call, which decides whether it raises. */
  datatype Op =
    | AuthenticateOp | GetPublishedOp | CreateInProgressOp | GetInProgressOp | DeleteDraftOp
    | NewVersionOp | UploadDataOp | InferSchemaOp | UpdateSchemaOp | UploadMetadataOp
    | SetDescriptionOp | PublishOp

  function OpOf<D>(c: Call<D>): Op {
    match c
    case Authenticate => AuthenticateOp
    case GetPublished(_) => GetPublishedOp
    case CreateInProgress(_) => CreateInProgressOp
    case GetInProgress(_) => GetInProgressOp
    case DeleteDraft(_) => DeleteDraftOp
    case NewVersion(_) => NewVersionOp
    case UploadData(_, _) => UploadDataOp
    case InferSchema => InferSchemaOp
    case UpdateSchema(_) => UpdateSchemaOp
    case UploadMetadata(_) => UploadMetadataOp
    case SetDescription(_) => SetDescriptionOp
    case Publish(_) => PublishOp
  }

  /** What a call can raise: `requests.HTTPError`, or any other exception. */
  datatype Fault = HttpError | ServiceError

  /** The frame `get_published_datasets` returns for a name: `rows` x `cols`,
      with the published dataset `first` in cell `iloc[0, -1]`. */
  datatype Listing = Listing(rows: nat, cols: nat, first: DatasetId)

  /** The catalog's answers: the listing, the inferred schema, and the fault
      each kind of call raises, if any. */
  datatype Env = Env(listing: Listing, inferred: seq<Column>, faults: map<Op, Fault>)

  function FaultAt(env: Env, op: Op): Option<Fault> {
    if op in env.faults then Some(env.faults[op]) else None
  }

  function Raises<D>(env: Env, c: Call<D>): Option<Fault> {
    FaultAt(env, OpOf(c))
  }

  /** Why an operation raised: a call raised, the lookup guard
      `datasets.shape[1] != 1` fired, `iloc[0, -1]` found no row, or
      `dataframe.to_csv` was looked up on something that is not a frame
      (AttributeError). */
  datatype Error = CallFailed(fault: Fault) | NotExactlyOne | NoRow | NotAFrame

  datatype Outcome = Done | Raised(error: Error)

  // ---------------------------------------------------------------------------
  // Scripts and their meaning

  /** The statements an operation runs. */
  datatype Script<D> =
    | End
    | Raise(error: Error)                                // `raise ...`
    | Do(call: Call<D>, next: Script<D>)                 // a call, then the rest
    | Swallow(body: Script<D>, next: Script<D>)          // `try: body except: pass`, then the rest
    | CatchHttp(body: Script<D>, next: Script<D>)        // `try: body except requests.HTTPError: print`, then the rest

  /** The trace so far and how the statements ended. */
  datatype State<D> = State(trace: seq<Call<D>>, outcome: Outcome)

  /** Runs a script after the calls `t`: each call is recorded, and one that
      raises ends the script unless a `try` around it catches the exception. */
  function Exec<D>(env: Env, t: seq<Call<D>>, s: Script<D>): State<D>
    decreases s
  {
    match s
    case End => State(t, Done)
    case Raise(e) => State(t, Raised(e))
    case Do(c, next) =>
      if Raises(env, c).Some? then State(t + [c], Raised(CallFailed(Raises(env, c).value)))
      else Exec(env, t + [c], next)
    case Swallow(body, next) =>
      Exec(env, Exec(env, t, body).trace, next)
    case CatchHttp(body, next) =>
      var r := Exec(env, t, body);
      if r.outcome.Raised? && r.outcome != Raised(CallFailed(HttpError)) then r
      else Exec(env, r.trace, next)
  }

  /** A script only appends to the trace, and what it appends does not depend
      on the calls made before it. */
  lemma {:induction false} ExecFrom<D>(env: Env, t: seq<Call<D>>, s: Script<D>)
    ensures Exec(env, t, s) == State(t + Exec(env, [], s).trace, Exec(env, [], s).outcome)
    decreases s
  {
    match s
    case End =>
    case Raise(_) =>
    case Do(c, next) =>
      if Raises(env, c).None? {
        ExecFrom(env, t + [c], next);
        ExecFrom(env, [c], next);
        assert [] + [c] == [c];
        assert t + [c] + Exec(env, [], next).trace == t + ([c] + Exec(env, [], next).trace);
      }
    case Swallow(body, next) =>
      var b := Exec(env, [], body);
      ExecFrom(env, t, body);
      ExecFrom(env, t + b.trace, next);
      ExecFrom(env, b.trace, next);
      assert t + b.trace + Exec(env, [], next).trace == t + (b.trace + Exec(env, [], next).trace);
    case CatchHttp(body, next) =>
      var b := Exec(env, [], body);
      ExecFrom(env, t, body);
      ExecFrom(env, t + b.trace, next);
      ExecFrom(env, b.trace, next);
      assert t + b.trace + Exec(env, [], next).trace == t + (b.trace + Exec(env, [], next).trace);
  }

  /** A script that starts with a call, run from the start. */
  lemma ExecDo<D>(env: Env, c: Call<D>, next: Script<D>)
    ensures Exec(env, [], Do(c, next))
         == if Raises(env, c).Some? then State([c], Raised(CallFailed(Raises(env, c).value)))
            else State([c] + Exec(env, [], next).trace, Exec(env, [], next).outcome)
  {
    assert [] + [c] == [c];
    ExecFrom(env, [c], next);
  }

  /** No call the script contains is of a kind in `ops`. */
  predicate Avoids<D>(s: Script<D>, ops: set<Op>)
    decreases s
  {
    match s
    case End => true
    case Raise(_) => true
    case Do(c, next) => OpOf(c) !in ops && Avoids(next, ops)
    case Swallow(body, next) => Avoids(body, ops) && Avoids(next, ops)
    case CatchHttp(body, next) => Avoids(body, ops) && Avoids(next, ops)
  }

  /** A script never makes a call it does not contain. */
  lemma {:induction false} ExecAvoids<D>(env: Env, s: Script<D>, ops: set<Op>)
    requires Avoids(s, ops)
    ensures forall i :: 0 <= i < |Exec(env, [], s).trace| ==> OpOf(Exec(env, [], s).trace[i]) !in ops
    decreases s
  {
    match s
    case End =>
    case Raise(_) =>
    case Do(c, next) =>
      ExecDo(env, c, next);
      if Raises(env, c).None? {
        ExecAvoids(env, next, ops);
        var r := Exec(env, [], next).trace;
        assert forall i :: 1 <= i < |[c] + r| ==> ([c] + r)[i] == r[i - 1];
      }
    case Swallow(body, next) =>
      var b := Exec(env, [], body).trace;
      ExecAvoids(env, body, ops);
      ExecAvoids(env, next, ops);
      ExecFrom(env, b, next);
      var r := Exec(env, [], next).trace;
      assert forall i :: |b| <= i < |b + r| ==> (b + r)[i] == r[i - |b|];
    case CatchHttp(body, next) =>
      var b := Exec(env, [], body).trace;
      ExecAvoids(env, body, ops);
      ExecAvoids(env, next, ops);
      ExecFrom(env, b, next);
      var r := Exec(env, [], next).trace;
      assert forall i :: |b| <= i < |b + r| ==> (b + r)[i] == r[i - |b|];
  }

  /** Two environments that raise alike on every kind of call outside `ops`
      run a script avoiding `ops` alike. */
  lemma {:induction false} ExecAgree<D>(e1: Env, e2: Env, t: seq<Call<D>>, s: Script<D>, ops: set<Op>)
    requires Avoids(s, ops)
    requires forall op :: op !in ops ==> FaultAt(e1, op) == FaultAt(e2, op)
    ensures Exec(e1, t, s) == Exec(e2, t, s)
    decreases s
  {
    match s
    case End =>
    case Raise(_) =>
    case Do(c, next) =>
      assert FaultAt(e1, OpOf(c)) == FaultAt(e2, OpOf(c));
      ExecAgree(e1, e2, t + [c], next, ops);
    case Swallow(body, next) =>
      ExecAgree(e1, e2, t, body, ops);
      ExecAgree(e1, e2, Exec(e1, t, body).trace, next, ops);
    case CatchHttp(body, next) =>
      ExecAgree(e1, e2, t, body, ops);
      ExecAgree(e1, e2, Exec(e1, t, body).trace, next, ops);
  }

  // ---------------------------------------------------------------------------
  // Straight-line calls

  /** The calls `cs` one after the other, then `next`. */
  function Straight<D>(cs: seq<Call<D>>, next: Script<D>): Script<D>
    decreases |cs|
  {
    if cs == [] then next else Do(cs[0], Straight(cs[1..], next))
  }

  /** The index of the first call in `cs` that raises, or `|cs|` when none does. */
  function FirstFault<D>(env: Env, cs: seq<Call<D>>): (k: nat)
    ensures k <= |cs|
    ensures forall i :: 0 <= i < k ==> Raises(env, cs[i]).None?
    ensures k < |cs| ==> Raises(env, cs[k]).Some?
  {
    if cs == [] then 0
    else if Raises(env, cs[0]).Some? then 0
    else FirstFault(env, cs[1..]) + 1
  }

  /** Straight-line calls stop at the first that raises, after recording it,
      and otherwise make every call and end normally. */
  lemma {:induction false} ExecStraight<D>(env: Env, t: seq<Call<D>>, cs: seq<Call<D>>)
    ensures var k := FirstFault(env, cs);
            Exec(env, t, Straight(cs, End))
            == if k == |cs| then State(t + cs, Done)
               else State(t + cs[..k + 1], Raised(CallFailed(Raises(env, cs[k]).value)))
    decreases |cs|
  {
    if cs == [] {
      assert t + cs == t;
    } else if Raises(env, cs[0]).Some? {
      assert cs[..1] == [cs[0]];
    } else {
      ExecStraight(env, t + [cs[0]], cs[1..]);
      var k := FirstFault(env, cs[1..]);
      if k == |cs[1..]| {
        assert t + [cs[0]] + cs[1..] == t + cs;
      } else {
        assert t + [cs[0]] + cs[1..][..k + 1] == t + cs[..k + 2];
      }
    }
  }

  lemma StraightCons<D>(c: Call<D>, cs: seq<Call<D>>, next: Script<D>)
    ensures Straight([c] + cs, next) == Do(c, Straight(cs, next))
  {
    assert ([c] + cs)[1..] == cs;
  }

  // ---------------------------------------------------------------------------
  // The objects the scripts act on

  class Catalog<D> {
    const env: Env
    var trace: seq<Call<D>>

    constructor (env: Env)
      ensures this.env == env && trace == []
    {
      this.env := env;
      trace := [];
    }

    /** One call on the API: recorded, then raising whatever the environment
        holds for its kind. */
    method Invoke(c: Call<D>) returns (outcome: Outcome)
      modifies this
      ensures trace == old(trace) + [c]
      ensures outcome == if Raises(env, c).Some? then Raised(CallFailed(Raises(env, c).value)) else Done
    {
      trace := trace + [c];
      outcome := if Raises(env, c).Some? then Raised(CallFailed(Raises(env, c).value)) else Done;
    }

    /** `api.get_published_datasets(condition=...)` for a name. */
    method GetPublishedDatasets(name: string) returns (r: Result<Listing, Error>)
      modifies this
      ensures trace == old(trace) + [GetPublished(name)]
      ensures r == if FaultAt(env, GetPublishedOp).Some?
                   then Failure(CallFailed(FaultAt(env, GetPublishedOp).value)) else Success(env.listing)
    {
      var outcome := Invoke(GetPublished(name));
      r := if outcome.Raised? then Failure(outcome.error) else Success(env.listing);
    }
  }

  /** An in-progress dataset; its schema is the one object the scripts change in place. */
  class Draft {
    var schema: seq<Column>

    constructor ()
      ensures schema == []
    {
      schema := [];
    }
  }

  /** A message posted to the Slack webhook. */
  datatype Post = ImportFailed(name: string, error: Error)  // "Importing {name} failed with error: {e}"

  class Notifier {
    var posts: seq<Post>

    constructor ()
      ensures posts == []
    {
      posts := [];
    }

    method PostMessage(p: Post)
      modifies this
      ensures posts == old(posts) + [p]
    {
      posts := posts + [p];
    }
  }

  // ---------------------------------------------------------------------------
  // dataset_exists

  /** `not datasets.empty`: a pandas frame is empty when either axis has length 0. */
  predicate Exists(l: Listing) {
    l.rows > 0 && l.cols > 0
  }

  method DatasetExists<D>(cat: Catalog<D>, name: string) returns (r: Result<bool, Error>)
    modifies cat
    ensures cat.trace == old(cat.trace) + [GetPublished(name)]
    ensures FaultAt(cat.env, GetPublishedOp).Some? ==>
              r == Failure(CallFailed(FaultAt(cat.env, GetPublishedOp).value))
    ensures FaultAt(cat.env, GetPublishedOp).None? ==>
              r.Success? && (r.value <==> cat.env.listing.rows > 0 && cat.env.listing.cols > 0)
  {
    var datasets := cat.GetPublishedDatasets(name);
    if datasets.Failure? {
      return Failure(datasets.error);
    }
    return Success(Exists(datasets.value));
  }

  // ---------------------------------------------------------------------------
  // upload_data_and_publish

  function Lookup(descs: map<string, string>, name: string): string {
    if name in descs then descs[name] else ""
  }

  /** The schema after `column.description = column_descriptions.get(column.name, "")`
      for every column, in order. */
  function Described(schema: seq<Column>, descs: map<string, string>): (r: seq<Column>)
    ensures |r| == |schema|
  {
    if schema == [] then []
    else [Column(schema[0].name, Lookup(descs, schema[0].name))] + Described(schema[1..], descs)
  }

  /** Describing keeps the columns, their order and their names; a column
      named in the map gets that description and any other the empty one. */
  lemma {:induction false} DescribedColumn(schema: seq<Column>, descs: map<string, string>, i: int)
    requires 0 <= i < |schema|
    ensures Described(schema, descs)[i].name == schema[i].name
    ensures schema[i].name in descs ==> Described(schema, descs)[i].description == descs[schema[i].name]
    ensures schema[i].name !in descs ==> Described(schema, descs)[i].description == ""
  {
    if i > 0 {
      DescribedColumn(schema[1..], descs, i - 1);
    }
  }

  /** Entries that name no column of the schema are ignored. */
  lemma {:induction false} DescribedIgnoresOtherKeys(schema: seq<Column>, descs: map<string, string>,
                                                      other: map<string, string>)
    requires forall i :: 0 <= i < |schema| ==> Lookup(descs, schema[i].name) == Lookup(other, schema[i].name)
    ensures Described(schema, descs) == Described(schema, other)
  {
    if schema != [] {
      assert Lookup(descs, schema[0].name) == Lookup(other, schema[0].name);
      DescribedIgnoresOtherKeys(schema[1..], descs, other);
    }
  }

  lemma {:induction false} DescribedSnoc(schema: seq<Column>, c: Column, descs: map<string, string>)
    ensures Described(schema + [c], descs) == Described(schema, descs) + [Column(c.name, Lookup(descs, c.name))]
  {
    if schema == [] {
      assert schema + [c] == [c];
    } else {
      assert (schema + [c])[1..] == schema[1..] + [c];
      DescribedSnoc(schema[1..], c, descs);
    }
  }

  /** The `for column in dataset.schema.columns` loop. */
  method DescribeColumns(draft: Draft, descs: map<string, string>)
    modifies draft
    ensures draft.schema == Described(old(draft.schema), descs)
  {
    ghost var original := draft.schema;
    var i := 0;
    while i < |draft.schema|
      invariant 0 <= i <= |draft.schema| == |original|
      invariant draft.schema[..i] == Described(original[..i], descs)
      invariant draft.schema[i..] == original[i..]
    {
      var column := draft.schema[i];
      assert column == original[i];
      DescribedSnoc(original[..i], column, descs);
      assert original[..i + 1] == original[..i] + [column];
      draft.schema := draft.schema[i := Column(column.name, Lookup(descs, column.name))];
      i := i + 1;
    }
    assert original[..i] == original;
    assert draft.schema == draft.schema[..i];
  }

  /** The schema update, made only when descriptions are given, then `next`. */
  function SchemaUpdate<D>(env: Env, descs: Option<map<string, string>>, next: Script<D>): Script<D> {
    if descs.Some? then Do(UpdateSchema(Described(env.inferred, descs.value)), next) else next
  }

  /** `upload_data_and_publish`: the data with its index, schema inference,
      the schema update when descriptions are given, then metadata,
      description and publish. */
  function UploadScript<D>(env: Env, data: D, metadata: M.Metadata, description: string,
                           descs: Option<map<string, string>>, changelog: Changelog): Script<D>
  {
    Do(UploadData(data, true),
    Do(InferSchema,
    SchemaUpdate(env, descs,
    Do(UploadMetadata(metadata),
    Do(SetDescription(description),
    Do(Publish(changelog), End))))))
  }

  method UploadDataAndPublish<D>(cat: Catalog<D>, draft: Draft, data: D, metadata: M.Metadata, description: string,
                                 descs: Option<map<string, string>>, changelog: Changelog)
    returns (outcome: Outcome)
    modifies cat, draft
    ensures State(cat.trace, outcome)
         == Exec(cat.env, old(cat.trace), UploadScript(cat.env, data, metadata, description, descs, changelog))
    ensures outcome.Done? ==>
              draft.schema == if descs.Some? then Described(cat.env.inferred, descs.value) else cat.env.inferred
  {
    ghost var spec := Exec(cat.env, cat.trace, UploadScript(cat.env, data, metadata, description, descs, changelog));
    ghost var tail := Do(UploadMetadata(metadata), Do(SetDescription(description), Do(Publish(changelog), End)));
    outcome := cat.Invoke(UploadData(data, true));
    if outcome.Raised? {
      return;
    }
    assert spec == Exec(cat.env, cat.trace, Do(InferSchema, SchemaUpdate(cat.env, descs, tail)));
    outcome := cat.Invoke(InferSchema);
    if outcome.Raised? {
      return;
    }
    assert spec == Exec(cat.env, cat.trace, SchemaUpdate(cat.env, descs, tail));
    draft.schema := cat.env.inferred;
    if descs.Some? {
      DescribeColumns(draft, descs.value);
      outcome := cat.Invoke(UpdateSchema(draft.schema));
      if outcome.Raised? {
        return;
      }
    }
    assert spec == Exec(cat.env, cat.trace, tail);
    outcome := cat.Invoke(UploadMetadata(metadata));
    if outcome.Raised? {
      return;
    }
    assert spec == Exec(cat.env, cat.trace, tail.next);
    outcome := cat.Invoke(SetDescription(description));
    if outcome.Raised? {
      return;
    }
    assert spec == Exec(cat.env, cat.trace, Do(Publish(changelog), End));
    outcome := cat.Invoke(Publish(changelog));
    assert Exec(cat.env, cat.trace, End) == State(cat.trace, Done);
  }

  // ---------------------------------------------------------------------------
  // create_initial_dataset, update_dataset, create_or_update_dataset

  function CreateScript<D>(env: Env, name: string, data: D, metadata: M.Metadata, description: string,
                           descs: Option<map<string, string>>, at: M.Instant): Script<D>
  {
    Do(CreateInProgress(name), UploadScript(env, data, metadata, description, descs, InitialImport(at)))
  }

  /** `if datasets.shape[1] != 1: raise`, then `datasets.iloc[0, -1]`, which
      raises IndexError on a frame without rows; otherwise `next`. */
  function Guard<D>(l: Listing, next: Script<D>): Script<D> {
    if l.cols != 1 then Raise(NotExactlyOne)
    else if l.rows == 0 then Raise(NoRow)
    else next
  }

  /** Looking up the stale draft of `id` and deleting it. */
  function Cleanup<D>(id: DatasetId): Script<D> {
    Do(GetInProgress(id), Do(DeleteDraft(id), End))
  }

  /** A new version of `id`, and the upload into it. */
  function Revise<D>(env: Env, id: DatasetId, data: D, metadata: M.Metadata, description: string,
                     descs: Option<map<string, string>>, at: M.Instant): Script<D>
  {
    Do(NewVersion(id), UploadScript(env, data, metadata, description, descs, DailyUpdate(at)))
  }

  function UpdateScript<D>(env: Env, name: string, data: D, metadata: M.Metadata, description: string,
                           descs: Option<map<string, string>>, at: M.Instant): Script<D>
  {
    var id := env.listing.first;
    Do(GetPublished(name),
    Guard(env.listing,
    Swallow(Cleanup(id), Revise(env, id, data, metadata, description, descs, at))))
  }

  /** The body of the `try` in `create_or_update_dataset`. */
  function ImportScript<D>(env: Env, name: string, data: D, metadata: M.Metadata, description: string,
                           descs: Option<map<string, string>>, at: M.Instant): Script<D>
  {
    Do(Authenticate,
    Do(GetPublished(name),
       if Exists(env.listing) then UpdateScript(env, name, data, metadata, description, descs, at)
       else CreateScript(env, name, data, metadata, description, descs, at)))
  }

  /** The `except` branch: one message for a failed import, none otherwise. */
  function Notifications(name: string, outcome: Outcome): seq<Post> {
    if outcome.Raised? then [ImportFailed(name, outcome.error)] else []
  }

  method CreateInitialDataset<D>(cat: Catalog<D>, name: string, data: D, metadata: M.Metadata, description: string,
                                 descs: Option<map<string, string>>, at: M.Instant)
    returns (outcome: Outcome)
    modifies cat
    ensures State(cat.trace, outcome)
         == Exec(cat.env, old(cat.trace), CreateScript(cat.env, name, data, metadata, description, descs, at))
  {
    outcome := cat.Invoke(CreateInProgress(name));
    if outcome.Raised? {
      return;
    }
    var draft := new Draft();
    outcome := UploadDataAndPublish(cat, draft, data, metadata, description, descs, InitialImport(at));
  }

  method UpdateDataset<D>(cat: Catalog<D>, name: string, data: D, metadata: M.Metadata, description: string,
                          descs: Option<map<string, string>>, at: M.Instant)
    returns (outcome: Outcome)
    modifies cat
    ensures State(cat.trace, outcome)
         == Exec(cat.env, old(cat.trace), UpdateScript(cat.env, name, data, metadata, description, descs, at))
  {
    ghost var spec := Exec(cat.env, cat.trace, UpdateScript(cat.env, name, data, metadata, description, descs, at));
    var datasets := cat.GetPublishedDatasets(name);
    if datasets.Failure? {
      return Raised(datasets.error);
    }
    if datasets.value.cols != 1 {
      return Raised(NotExactlyOne);
    }
    if datasets.value.rows == 0 {
      return Raised(NoRow);
    }
    var published := datasets.value.first;
    ghost var rest := Revise(cat.env, published, data, metadata, description, descs, at);
    ghost var looked := cat.trace;
    assert spec == Exec(cat.env, looked, Swallow(Cleanup<D>(published), rest));
    assert spec == Exec(cat.env, Exec(cat.env, looked, Cleanup<D>(published)).trace, rest);
    var lookup := cat.Invoke(GetInProgress(published));
    if lookup.Done? {
      assert Exec(cat.env, looked, Cleanup<D>(published)) == Exec(cat.env, cat.trace, Do(DeleteDraft(published), End));
      var deleted := cat.Invoke(DeleteDraft(published));
      assert Exec(cat.env, cat.trace, End).trace == cat.trace;
    }
    assert spec == Exec(cat.env, cat.trace, rest);
    outcome := cat.Invoke(NewVersion(published));
    if outcome.Raised? {
      return;
    }
    assert spec == Exec(cat.env, cat.trace, UploadScript(cat.env, data, metadata, description, descs, DailyUpdate(at)));
    var draft := new Draft();
    outcome := UploadDataAndPublish(cat, draft, data, metadata, description, descs, DailyUpdate(at));
  }

  method CreateOrUpdateDataset<D>(cat: Catalog<D>, slack: Notifier, name: string, metadata: M.Metadata,
                                  description: string, data: D, descs: Option<map<string, string>>, at: M.Instant)
    returns (outcome: Outcome)
    modifies cat, slack
    ensures State(cat.trace, outcome)
         == Exec(cat.env, old(cat.trace), ImportScript(cat.env, name, data, metadata, description, descs, at))
    ensures slack.posts == old(slack.posts) + Notifications(name, outcome)
  {
    ghost var spec := Exec(cat.env, cat.trace, ImportScript(cat.env, name, data, metadata, description, descs, at));
    ghost var branch := if Exists(cat.env.listing) then UpdateScript(cat.env, name, data, metadata, description, descs, at)
                        else CreateScript(cat.env, name, data, metadata, description, descs, at);
    outcome := cat.Invoke(Authenticate);
    if outcome.Done? {
      assert spec == Exec(cat.env, cat.trace, Do(GetPublished(name), branch));
      var found := DatasetExists(cat, name);
      if found.Failure? {
        outcome := Raised(found.error);
      } else {
        assert spec == Exec(cat.env, cat.trace, branch);
        if found.value {
          outcome := UpdateDataset(cat, name, data, metadata, description, descs, at);
        } else {
          outcome := CreateInitialDataset(cat, name, data, metadata, description, descs, at);
        }
      }
    }
    if outcome.Raised? {
      slack.PostMessage(ImportFailed(name, outcome.error));
    }
  }

  // ---------------------------------------------------------------------------
  // Properties of the protocol

  /** The calls of an upload, in order; the publish is the last and the only one. */
  function UploadPlan<D>(env: Env, data: D, metadata: M.Metadata, description: string,
                         descs: Option<map<string, string>>, changelog: Changelog): (plan: seq<Call<D>>)
    ensures |plan| == if descs.Some? then 6 else 5
    ensures plan[|plan| - 1] == Publish(changelog)
    ensures forall i :: 0 <= i < |plan| - 1 ==> !plan[i].Publish?
  {
    [UploadData(data, true), InferSchema]
    + (if descs.Some? then [UpdateSchema(Described(env.inferred, descs.value))] else [])
    + [UploadMetadata(metadata), SetDescription(description), Publish(changelog)]
  }

  /** The upload makes its calls one after the other, in the order of its plan. */
  lemma UploadIsStraight<D>(env: Env, data: D, metadata: M.Metadata, description: string,
                            descs: Option<map<string, string>>, changelog: Changelog)
    ensures UploadScript(env, data, metadata, description, descs, changelog)
         == Straight(UploadPlan(env, data, metadata, description, descs, changelog), End)
  {
    var c1, c2: Call<D> := UploadData(data, true), InferSchema;
    var c4, c5, c6: Call<D> := UploadMetadata(metadata), SetDescription(description), Publish(changelog);
    var tail := [c4, c5, c6];
    assert Straight(tail, End) == Do(c4, Do(c5, Do(c6, End))) by {
      assert [c6] == [c6] + [] && [c5, c6] == [c5] + [c6] && tail == [c4] + [c5, c6];
      StraightCons(c6, [], End);
      StraightCons(c5, [c6], End);
      StraightCons(c4, [c5, c6], End);
    }
    var rest := tail;
    if descs.Some? {
      var c3: Call<D> := UpdateSchema(Described(env.inferred, descs.value));
      rest := [c3] + tail;
      StraightCons(c3, tail, End);
    }
    StraightCons(c2, rest, End);
    StraightCons(c1, [c2] + rest, End);
    assert UploadPlan(env, data, metadata, description, descs, changelog) == [c1] + ([c2] + rest);
  }

  /** Publish comes last: an upload ends normally exactly when no call of its
      plan raises, and then it has made every call, the publish last; an
      upload that raised stopped right after the first call that raised, so
      a publish it made is the call that raised. */
  lemma UploadPublishesLast<D>(env: Env, data: D, metadata: M.Metadata, description: string,
                               descs: Option<map<string, string>>, changelog: Changelog)
    ensures var plan := UploadPlan(env, data, metadata, description, descs, changelog);
            var r := Exec(env, [], UploadScript(env, data, metadata, description, descs, changelog));
            && (r.outcome.Done? <==> FirstFault(env, plan) == |plan|)
            && (r.outcome.Done? ==> r.trace == plan && r.trace[|r.trace| - 1] == Publish(changelog))
            && (r.outcome.Raised? ==> r.trace == plan[..FirstFault(env, plan) + 1])
            && (r.outcome.Raised? ==> r.outcome == Raised(CallFailed(Raises(env, plan[FirstFault(env, plan)]).value)))
            && (r.outcome.Raised? ==>
                  forall i :: 0 <= i < |r.trace| && r.trace[i].Publish? ==> Raises(env, r.trace[i]).Some?)
  {
    var plan := UploadPlan(env, data, metadata, description, descs, changelog);
    UploadIsStraight(env, data, metadata, description, descs, changelog);
    ExecStraight(env, [], plan);
    assert [] + plan == plan;
    var k := FirstFault(env, plan);
    if k < |plan| {
      assert [] + plan[..k + 1] == plan[..k + 1];
    }
  }

  /** The guard raises before any draft, version or upload call when the
      lookup frame does not have exactly one column. */
  lemma GuardRaisesFirst<D>(env: Env, name: string, data: D, metadata: M.Metadata, description: string,
                            descs: Option<map<string, string>>, at: M.Instant)
    requires env.listing.cols != 1
    ensures var r := Exec(env, [], UpdateScript(env, name, data, metadata, description, descs, at));
            && r.trace == [GetPublished(name)]
            && r.outcome.Raised?
            && (FaultAt(env, GetPublishedOp).None? ==> r.outcome.error == NotExactlyOne)
  {
  }

  /** With one column but no row, `iloc[0, -1]` raises before any further call. */
  lemma EmptyLookupRaises<D>(env: Env, name: string, data: D, metadata: M.Metadata, description: string,
                             descs: Option<map<string, string>>, at: M.Instant)
    requires env.listing.cols == 1 && env.listing.rows == 0
    requires FaultAt(env, GetPublishedOp).None?
    ensures Exec(env, [], UpdateScript(env, name, data, metadata, description, descs, at))
         == State([GetPublished(name)], Raised(NoRow))
  {
  }

  /** Past the guard, the update runs the stale-draft calls, whatever they
      raise, and then the revision. */
  lemma UpdatePastGuard<D>(env: Env, name: string, data: D, metadata: M.Metadata, description: string,
                           descs: Option<map<string, string>>, at: M.Instant)
    requires FaultAt(env, GetPublishedOp).None? && env.listing.cols == 1 && env.listing.rows > 0
    ensures var id := env.listing.first;
            var cleaned: seq<Call<D>> := [GetPublished(name), GetInProgress(id)]
                                         + (if FaultAt(env, GetInProgressOp).None? then [DeleteDraft(id)] else []);
            var rest := Exec(env, [], Revise(env, id, data, metadata, description, descs, at));
            Exec(env, [], UpdateScript(env, name, data, metadata, description, descs, at))
            == State(cleaned + rest.trace, rest.outcome)
  {
    var id := env.listing.first;
    var lookup: seq<Call<D>> := [GetPublished(name)];
    assert [] + lookup == lookup;
    var cleaned: seq<Call<D>> := Exec(env, lookup, Cleanup<D>(id)).trace;
    var looked := lookup + [GetInProgress(id)];
    if FaultAt(env, GetInProgressOp).None? {
      assert Exec(env, lookup, Cleanup<D>(id)) == Exec(env, looked, Do(DeleteDraft(id), End));
      assert Exec(env, looked + [DeleteDraft(id)], End).trace == looked + [DeleteDraft(id)];
      assert cleaned == [GetPublished(name), GetInProgress(id)] + [DeleteDraft(id)];
    } else {
      assert cleaned == [GetPublished(name), GetInProgress(id)] + [];
    }
    assert Exec(env, [], UpdateScript(env, name, data, metadata, description, descs, at))
        == Exec(env, lookup, Swallow(Cleanup<D>(id), Revise(env, id, data, metadata, description, descs, at)));
    ExecFrom(env, cleaned, Revise(env, id, data, metadata, description, descs, at));
  }

  /** Once the lookup passes the guard, a new version is always requested,
      right after the stale-draft calls. */
  lemma UpdateAlwaysVersions<D>(env: Env, name: string, data: D, metadata: M.Metadata, description: string,
                                descs: Option<map<string, string>>, at: M.Instant)
    requires FaultAt(env, GetPublishedOp).None? && env.listing.cols == 1 && env.listing.rows > 0
    ensures var r := Exec(env, [], UpdateScript(env, name, data, metadata, description, descs, at));
            var id := env.listing.first;
            var k := if FaultAt(env, GetInProgressOp).Some? then 2 else 3;
            && |r.trace| > k
            && r.trace[k] == NewVersion(id)
            && (FaultAt(env, NewVersionOp).Some? ==> |r.trace| == k + 1)
  {
    var id := env.listing.first;
    UpdatePastGuard(env, name, data, metadata, description, descs, at);
    ExecDo(env, NewVersion(id), UploadScript(env, data, metadata, description, descs, DailyUpdate(at)));
    var cleaned: seq<Call<D>> := [GetPublished(name), GetInProgress(id)]
                                 + (if FaultAt(env, GetInProgressOp).None? then [DeleteDraft(id)] else []);
    var rest := Exec(env, [], Revise(env, id, data, metadata, description, descs, at)).trace;
    assert rest[0] == NewVersion(id);
    assert (cleaned + rest)[|cleaned|] == rest[0];
  }

  /** Two environments that differ at most in what the stale-draft calls raise. */
  predicate AgreeBeyondCleanup(e1: Env, e2: Env) {
    && e1.listing == e2.listing && e1.inferred == e2.inferred
    && forall op :: op != GetInProgressOp && op != DeleteDraftOp ==> FaultAt(e1, op) == FaultAt(e2, op)
  }

  /** The upload makes none of the catalog-level calls. */
  lemma UploadAvoids<D>(env: Env, data: D, metadata: M.Metadata, description: string,
                        descs: Option<map<string, string>>, changelog: Changelog, ops: set<Op>)
    requires forall op :: op in ops ==> op in {AuthenticateOp, GetPublishedOp, CreateInProgressOp,
                                               GetInProgressOp, DeleteDraftOp, NewVersionOp}
    ensures Avoids(UploadScript(env, data, metadata, description, descs, changelog), ops)
  {
    var tail: Script<D> := Do(UploadMetadata(metadata), Do(SetDescription(description), Do(Publish(changelog), End)));
    assert Avoids(tail.next.next, ops);
    assert Avoids(tail.next, ops);
    assert Avoids(tail, ops);
    assert Avoids(SchemaUpdate(env, descs, tail), ops);
  }

  /** Whatever the stale-draft lookup and deletion raise is swallowed: the
      update ends the same way and, from the new version on, makes the same calls. */
  lemma StaleDraftFaultsSwallowed<D>(e1: Env, e2: Env, name: string, data: D, metadata: M.Metadata,
                                     description: string, descs: Option<map<string, string>>, at: M.Instant)
    requires AgreeBeyondCleanup(e1, e2)
    ensures Exec(e1, [], UpdateScript(e1, name, data, metadata, description, descs, at)).outcome
         == Exec(e2, [], UpdateScript(e2, name, data, metadata, description, descs, at)).outcome
    ensures Exec(e1, [], Revise(e1, e1.listing.first, data, metadata, description, descs, at))
         == Exec(e2, [], Revise(e2, e2.listing.first, data, metadata, description, descs, at))
  {
    var id := e1.listing.first;
    var rest := Revise(e1, id, data, metadata, description, descs, at);
    assert rest == Revise(e2, id, data, metadata, description, descs, at);
    UploadAvoids(e1, data, metadata, description, descs, DailyUpdate(at), {GetInProgressOp, DeleteDraftOp});
    ExecAgree(e1, e2, [], rest, {GetInProgressOp, DeleteDraftOp});
    assert FaultAt(e1, GetPublishedOp) == FaultAt(e2, GetPublishedOp);
    if FaultAt(e1, GetPublishedOp).None? && e1.listing.cols == 1 && e1.listing.rows > 0 {
      UpdatePastGuard(e1, name, data, metadata, description, descs, at);
      UpdatePastGuard(e2, name, data, metadata, description, descs, at);
    }
  }

  /** Exactly one of the two paths runs, as `dataset_exists` decides: a
      missing dataset is created and never versioned, an existing one is
      never created again. */
  lemma CreateOrUpdateExclusive<D>(env: Env, name: string, data: D, metadata: M.Metadata, description: string,
                                   descs: Option<map<string, string>>, at: M.Instant)
    requires FaultAt(env, AuthenticateOp).None? && FaultAt(env, GetPublishedOp).None?
    ensures var r := Exec(env, [], ImportScript(env, name, data, metadata, description, descs, at));
            && |r.trace| > 2
            && r.trace[..2] == [Authenticate, GetPublished(name)]
            && (Exists(env.listing) ==> r.trace[2] == GetPublished(name))
            && (Exists(env.listing) ==> forall i :: 0 <= i < |r.trace| ==> OpOf(r.trace[i]) != CreateInProgressOp)
            && (!Exists(env.listing) ==> r.trace[2] == CreateInProgress(name))
            && (!Exists(env.listing) ==> forall i :: 0 <= i < |r.trace| ==> OpOf(r.trace[i]) != NewVersionOp)
  {
    var s := ImportScript(env, name, data, metadata, description, descs, at);
    var lookup: seq<Call<D>> := [Authenticate, GetPublished(name)];
    var branch := s.next.next;
    ExecDo(env, Authenticate, s.next);
    ExecDo(env, GetPublished(name), branch);
    var r := Exec(env, [], branch).trace;
    assert Exec(env, [], s).trace == [Authenticate] + ([GetPublished(name)] + r);
    assert forall i :: 2 <= i < |lookup + r| ==> (lookup + r)[i] == r[i - 2];
    assert [Authenticate] + ([GetPublished(name)] + r) == lookup + r;
    if Exists(env.listing) {
      UpdateNeverCreates(env, name, data, metadata, description, descs, at);
    } else {
      CreateNeverVersions(env, name, data, metadata, description, descs, at);
    }
  }

  /** An update starts with the lookup and never creates a dataset. */
  lemma UpdateNeverCreates<D>(env: Env, name: string, data: D, metadata: M.Metadata, description: string,
                              descs: Option<map<string, string>>, at: M.Instant)
    ensures var r := Exec(env, [], UpdateScript(env, name, data, metadata, description, descs, at));
            && 0 < |r.trace| && r.trace[0] == GetPublished(name)
            && forall i :: 0 <= i < |r.trace| ==> OpOf(r.trace[i]) != CreateInProgressOp
  {
    var s := UpdateScript<D>(env, name, data, metadata, description, descs, at);
    UploadAvoids(env, data, metadata, description, descs, DailyUpdate(at), {CreateInProgressOp});
    var id := env.listing.first;
    assert Avoids(Cleanup<D>(id), {CreateInProgressOp});
    assert Avoids(Revise(env, id, data, metadata, description, descs, at), {CreateInProgressOp});
    assert Avoids(s, {CreateInProgressOp});
    ExecAvoids(env, s, {CreateInProgressOp});
    ExecDo(env, GetPublished(name), s.next);
  }

  /** A creation starts with the new dataset and never requests a new version. */
  lemma CreateNeverVersions<D>(env: Env, name: string, data: D, metadata: M.Metadata, description: string,
                               descs: Option<map<string, string>>, at: M.Instant)
    ensures var r := Exec(env, [], CreateScript(env, name, data, metadata, description, descs, at));
            && 0 < |r.trace| && r.trace[0] == CreateInProgress(name)
            && forall i :: 0 <= i < |r.trace| ==> OpOf(r.trace[i]) != NewVersionOp
  {
    var s := CreateScript<D>(env, name, data, metadata, description, descs, at);
    UploadAvoids(env, data, metadata, description, descs, InitialImport(at), {NewVersionOp});
    ExecAvoids(env, s, {NewVersionOp});
    ExecDo(env, CreateInProgress(name), s.next);
  }

  // ---------------------------------------------------------------------------
  // What Slack hears

  /** The last call of a trace is a publish that went through. */
  predicate PublishedLast<D>(env: Env, trace: seq<Call<D>>) {
    0 < |trace| && trace[|trace| - 1].Publish? && Raises(env, trace[|trace| - 1]).None?
  }

  /** A run that made a call and whose end is told by its last call: it ended
      normally exactly when that call was a publish that went through, and
      otherwise it raised the fault of that call. */
  predicate EndsAtLastCall<D>(env: Env, r: State<D>) {
    && 0 < |r.trace|
    && (r.outcome.Done? <==> PublishedLast(env, r.trace))
    && (r.outcome.Raised? ==>
          r.outcome.error.CallFailed? && Raises(env, r.trace[|r.trace| - 1]) == Some(r.outcome.error.fault))
  }

  lemma EndsAtLastCallAfter<D>(env: Env, t: seq<Call<D>>, r: State<D>)
    requires EndsAtLastCall(env, r)
    ensures EndsAtLastCall(env, State(t + r.trace, r.outcome))
  {
    assert (t + r.trace)[|t + r.trace| - 1] == r.trace[|r.trace| - 1];
  }

  /** A call in front of a run whose end is told by its last call keeps it so. */
  lemma CallThenEndsAtLastCall<D>(env: Env, c: Call<D>, next: Script<D>)
    requires EndsAtLastCall(env, Exec(env, [], next))
    ensures EndsAtLastCall(env, Exec(env, [], Do(c, next)))
  {
    ExecDo(env, c, next);
    if Raises(env, c).None? {
      EndsAtLastCallAfter(env, [c], Exec(env, [], next));
    }
  }

  /** An upload ends at its last call: the publish when nothing raised, the
      call that raised otherwise. */
  lemma UploadEndsAtLastCall<D>(env: Env, data: D, metadata: M.Metadata, description: string,
                                descs: Option<map<string, string>>, changelog: Changelog)
    ensures EndsAtLastCall(env, Exec(env, [], UploadScript(env, data, metadata, description, descs, changelog)))
  {
    var plan := UploadPlan(env, data, metadata, description, descs, changelog);
    var r := Exec(env, [], UploadScript(env, data, metadata, description, descs, changelog));
    UploadPublishesLast(env, data, metadata, description, descs, changelog);
    var k := FirstFault(env, plan);
    if k < |plan| {
      assert r.trace[|r.trace| - 1] == plan[k];
    } else {
      assert Raises(env, plan[|plan| - 1]).None?;
    }
  }

  /** Past the lookup, both paths end at their last call, unless the guard
      fires. */
  lemma BranchEndsAtLastCall<D>(env: Env, name: string, data: D, metadata: M.Metadata, description: string,
                                descs: Option<map<string, string>>, at: M.Instant)
    requires FaultAt(env, GetPublishedOp).None?
    requires Exists(env.listing) ==> env.listing.cols == 1
    ensures EndsAtLastCall(env, Exec(env, [], if Exists(env.listing)
                                              then UpdateScript(env, name, data, metadata, description, descs, at)
                                              else CreateScript(env, name, data, metadata, description, descs, at)))
  {
    if Exists(env.listing) {
      var id := env.listing.first;
      UploadEndsAtLastCall(env, data, metadata, description, descs, DailyUpdate(at));
      CallThenEndsAtLastCall(env, NewVersion(id), UploadScript(env, data, metadata, description, descs, DailyUpdate(at)));
      UpdatePastGuard(env, name, data, metadata, description, descs, at);
      var cleaned: seq<Call<D>> := [GetPublished(name), GetInProgress(id)]
                                   + (if FaultAt(env, GetInProgressOp).None? then [DeleteDraft(id)] else []);
      EndsAtLastCallAfter(env, cleaned, Exec(env, [], Revise(env, id, data, metadata, description, descs, at)));
    } else {
      UploadEndsAtLastCall(env, data, metadata, description, descs, InitialImport(at));
      CallThenEndsAtLastCall(env, CreateInProgress(name), UploadScript(env, data, metadata, description, descs, InitialImport(at)));
    }
  }

  /** Slack hears nothing exactly when the import ended with a publish that
      went through. Otherwise it hears once, under the dataset's name, of the
      error the import raised: the fault of the last call made, or the lookup
      guard, right after the second lookup. `iloc[0, -1]` never reaches Slack,
      since `dataset_exists` already saw a row. */
  lemma NotifiesOnlyOnFailure<D>(env: Env, name: string, data: D, metadata: M.Metadata, description: string,
                                 descs: Option<map<string, string>>, at: M.Instant)
    ensures var r := Exec(env, [], ImportScript(env, name, data, metadata, description, descs, at));
            var posts := Notifications(name, r.outcome);
            && 0 < |r.trace| && |posts| <= 1
            && (posts == [] <==> PublishedLast(env, r.trace))
            && (forall p :: p in posts ==> p.name == name)
            && (posts != [] && posts[0].error.CallFailed? ==>
                  Raises(env, r.trace[|r.trace| - 1]) == Some(posts[0].error.fault))
            && (posts != [] && !posts[0].error.CallFailed? ==>
                  && posts[0].error == NotExactlyOne && Exists(env.listing) && env.listing.cols != 1
                  && r.trace == [Authenticate, GetPublished(name), GetPublished(name)])
  {
    var s := ImportScript(env, name, data, metadata, description, descs, at);
    var branch := s.next.next;
    ExecDo(env, Authenticate, s.next);
    ExecDo(env, GetPublished(name), branch);
    if FaultAt(env, AuthenticateOp).None? && FaultAt(env, GetPublishedOp).None? {
      var b := Exec(env, [], branch);
      assert Exec(env, [], s) == State([Authenticate] + ([GetPublished(name)] + b.trace), b.outcome);
      if Exists(env.listing) && env.listing.cols != 1 {
        GuardRaisesFirst(env, name, data, metadata, description, descs, at);
        var lookups: seq<Call<D>> := [Authenticate, GetPublished(name), GetPublished(name)];
        assert [Authenticate] + ([GetPublished(name)] + [GetPublished(name)]) == lookups;
      } else {
        BranchEndsAtLastCall(env, name, data, metadata, description, descs, at);
        EndsAtLastCallAfter(env, [GetPublished(name)], b);
        EndsAtLastCallAfter(env, [Authenticate], State([GetPublished(name)] + b.trace, b.outcome));
      }
    }
  }

  /** With no fault anywhere and a lookup frame the guard accepts, the import
      publishes: Slack hears nothing and the last call is the publish. */
  lemma ImportPublishesWithoutFaults<D>(env: Env, name: string, data: D, metadata: M.Metadata, description: string,
                                        descs: Option<map<string, string>>, at: M.Instant)
    requires env.faults == map[]
    requires Exists(env.listing) ==> env.listing.cols == 1
    ensures var r := Exec(env, [], ImportScript(env, name, data, metadata, description, descs, at));
            && r.outcome == Done
            && 0 < |r.trace| && r.trace[|r.trace| - 1].Publish?
  {
    NotifiesOnlyOnFailure(env, name, data, metadata, description, descs, at);
    var r := Exec(env, [], ImportScript(env, name, data, metadata, description, descs, at));
    assert Raises(env, r.trace[|r.trace| - 1]).None?;
  }

  // ---------------------------------------------------------------------------
  // The calls at the end of the import scripts

  /** `create_or_update_dataset(name, url, metadata, description, data)`, as
      the Johns Hopkins, New York Times and Robert Koch scripts call it. The
      extra `url` shifts every later argument one place: `metadata` receives
      the URL, `description` the metadata dictionary, `data` the description
      text and `column_descriptions` the table. The lookup, the guard, the
      stale-draft calls and the draft or new version run as usual; then
      `dataframe.to_csv` on the text raises AttributeError before any upload. */
  function ShiftedImportScript<D>(env: Env, name: string): Script<D> {
    var id := env.listing.first;
    Do(Authenticate,
    Do(GetPublished(name),
       if Exists(env.listing)
       then Do(GetPublished(name), Guard(env.listing, Swallow(Cleanup(id), Do(NewVersion(id), Raise(NotAFrame)))))
       else Do(CreateInProgress(name), Raise(NotAFrame))))
  }

  /** As the scripts call it, an import never uploads and never publishes,
      always raises, and so always reaches Slack. Without faults it leaves a
      new draft or a new version behind, unpublished. */
  lemma ShiftedImportNeverPublishes<D>(env: Env, name: string)
    ensures var r := Exec(env, [], ShiftedImportScript<D>(env, name));
            && r.outcome.Raised?
            && Notifications(name, r.outcome) != []
            && (forall i :: 0 <= i < |r.trace| ==> OpOf(r.trace[i]) != UploadDataOp && OpOf(r.trace[i]) != PublishOp)
    ensures env.faults == map[] && (Exists(env.listing) ==> env.listing.cols == 1) ==>
              var r := Exec(env, [], ShiftedImportScript<D>(env, name));
              && r.outcome == Raised(NotAFrame)
              && 0 < |r.trace|
              && r.trace[|r.trace| - 1] == if Exists(env.listing) then NewVersion(env.listing.first)
                                            else CreateInProgress(name)
  {
    var s := ShiftedImportScript<D>(env, name);
    var id := env.listing.first;
    var ops := {UploadDataOp, PublishOp};
    var revise: Script<D> := Do(NewVersion(id), Raise(NotAFrame));
    assert Avoids(Cleanup<D>(id), ops) && Avoids(revise, ops);
    assert Avoids(Guard(env.listing, Swallow(Cleanup<D>(id), revise)), ops);
    assert Avoids(s, ops);
    ExecAvoids(env, s, ops);
    if FaultAt(env, AuthenticateOp).None? && FaultAt(env, GetPublishedOp).None? {
      var looked: seq<Call<D>> := [Authenticate, GetPublished(name)];
      var authed: seq<Call<D>> := [Authenticate];
      assert [] + authed == authed && authed + [GetPublished(name)] == looked;
      assert Exec(env, [], s) == Exec(env, authed, s.next);
      assert Exec(env, [], s) == Exec(env, looked, s.next.next);
      if Exists(env.listing) {
        var t := looked + [GetPublished(name)];
        assert Exec(env, [], s) == Exec(env, t, Guard(env.listing, Swallow(Cleanup<D>(id), revise)));
        if env.listing.cols == 1 && env.listing.rows > 0 {
          var cleaned := Exec(env, t, Cleanup<D>(id)).trace;
          assert Exec(env, [], s) == Exec(env, cleaned, revise);
          if FaultAt(env, NewVersionOp).None? {
            assert Exec(env, cleaned, revise) == Exec(env, cleaned + [NewVersion(id)], Raise(NotAFrame));
          }
        }
      } else if FaultAt(env, CreateInProgressOp).None? {
        assert Exec(env, looked, s.next.next) == Exec(env, looked + [CreateInProgress(name)], Raise(NotAFrame));
      }
    }
  }
}
