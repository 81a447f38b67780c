/** The per-source publish helpers that predate the shared create-or-update
    protocol: each source directory has its own `upload_data`,
    `create_initial_dataset` and `update_dataset`. They differ from each other
    in four switches, collected in `Variant`; everything else (the call order,
    the lookup guard) they share.

    The upload runs inside `try: ... except requests.HTTPError: print(...)`:
    an HTTPError is reported and swallowed, any other exception propagates.
    In the Johns Hopkins helper `requests` is never imported, so evaluating
    that `except` clause itself raises and every exception propagates. */
module LegacyPublish {
  import opened Wrappers
  import M = Metadata
  import opened Publish

  /** How one source's helpers behave. */
  datatype Variant = Variant(
    catchesHttp: bool,      // the `except requests.HTTPError` clause can be evaluated
    withIndex: bool,        // `to_csv` writes the index
    deletesDrafts: bool,    // `update_dataset` deletes a stale in-progress draft first
    dailyChangelogs: bool)  // "Initial import" / "Daily update" instead of "First import"

  /** john-hopkins-university/shared.py */
  const JohnsHopkinsVariant := Variant(false, true, false, false)
  /** robert-koch-institut-timeseries/shared.py */
  const RkiTimeseriesVariant := Variant(true, true, true, false)
  /** new-york-times/shared.py */
  const NewYorkTimesVariant := Variant(true, false, true, false)
  /** our-world-in-data-complete/shared.py */
  const OurWorldInDataVariant := Variant(true, true, true, true)
  /** robert-koch-institut/shared.py */
  const RkiSnapshotVariant := Variant(true, false, false, false)

  function CreateChangelog(v: Variant, at: M.Instant): Changelog {
    if v.dailyChangelogs then InitialImport(at) else FirstImport(at)
  }

  function UpdateChangelog(v: Variant, at: M.Instant): Changelog {
    if v.dailyChangelogs then DailyUpdate(at) else FirstImport(at)
  }

  /** The calls of the `try` block of `upload_data`, in order. */
  function LegacyPlan<D>(v: Variant, data: D, metadata: M.Metadata, description: string,
                         changelog: Changelog): seq<Call<D>>
  {
    [UploadData(data, v.withIndex), InferSchema, UploadMetadata(metadata), SetDescription(description),
     Publish(changelog)]
  }

  /** The `try` block of `upload_data`. */
  function LegacyBody<D>(v: Variant, data: D, metadata: M.Metadata, description: string,
                         changelog: Changelog): Script<D>
  {
    Do(UploadData(data, v.withIndex),
    Do(InferSchema,
    Do(UploadMetadata(metadata),
    Do(SetDescription(description),
    Do(Publish(changelog), End)))))
  }

  /** `upload_data`: the `try` block and its `except requests.HTTPError`. */
  function LegacyUploadScript<D>(v: Variant, data: D, metadata: M.Metadata, description: string,
                                 changelog: Changelog): Script<D>
  {
    var body := LegacyBody(v, data, metadata, description, changelog);
    if v.catchesHttp then CatchHttp(body, End) else body
  }

  function LegacyCreateScript<D>(v: Variant, name: string, data: D, metadata: M.Metadata, description: string,
                                 at: M.Instant): Script<D>
  {
    Do(CreateInProgress(name), LegacyUploadScript(v, data, metadata, description, CreateChangelog(v, at)))
  }

  /** A new version of `id` and the upload into it. */
  function LegacyRevise<D>(v: Variant, id: DatasetId, data: D, metadata: M.Metadata, description: string,
                           at: M.Instant): Script<D>
  {
    Do(NewVersion(id), LegacyUploadScript(v, data, metadata, description, UpdateChangelog(v, at)))
  }

  /** `update_dataset`: the lookup, the guard (whose message itself raises a
      NameError in all but the Johns Hopkins helper, which still raises), the
      swallowed stale-draft deletion where the source has it, then the revision. */
  function LegacyUpdateScript<D>(v: Variant, env: Env, name: string, data: D, metadata: M.Metadata,
                                 description: string, at: M.Instant): Script<D>
  {
    var id := env.listing.first;
    var revise := LegacyRevise(v, id, data, metadata, description, at);
    Do(GetPublished(name),
    Guard(env.listing,
    if v.deletesDrafts then Swallow(Cleanup(id), revise) else revise))
  }

  // ---------------------------------------------------------------------------
  // The helpers as methods on the catalog

  method LegacyUploadBody<D>(cat: Catalog<D>, v: Variant, data: D, metadata: M.Metadata, description: string,
                             changelog: Changelog)
    returns (outcome: Outcome)
    modifies cat
    ensures State(cat.trace, outcome) == Exec(cat.env, old(cat.trace), LegacyBody(v, data, metadata, description, changelog))
  {
    ghost var spec := Exec(cat.env, cat.trace, LegacyBody(v, data, metadata, description, changelog));
    ghost var publish: Script<D> := Do(Publish(changelog), End);
    ghost var tail := Do(UploadMetadata(metadata), Do(SetDescription(description), publish));
    outcome := cat.Invoke(UploadData(data, v.withIndex));
    if outcome.Raised? {
      return;
    }
    assert spec == Exec(cat.env, cat.trace, Do(InferSchema, tail));
    outcome := cat.Invoke(InferSchema);
    if outcome.Raised? {
      return;
    }
    assert spec == Exec(cat.env, cat.trace, tail);
    outcome := cat.Invoke(UploadMetadata(metadata));
    if outcome.Raised? {
      return;
    }
    assert spec == Exec(cat.env, cat.trace, Do(SetDescription(description), publish));
    outcome := cat.Invoke(SetDescription(description));
    if outcome.Raised? {
      return;
    }
    assert spec == Exec(cat.env, cat.trace, publish);
    outcome := cat.Invoke(Publish(changelog));
    assert Exec(cat.env, cat.trace, End) == State(cat.trace, Done);
  }

  method LegacyUploadData<D>(cat: Catalog<D>, v: Variant, data: D, metadata: M.Metadata, description: string,
                             changelog: Changelog)
    returns (outcome: Outcome)
    modifies cat
    ensures State(cat.trace, outcome)
         == Exec(cat.env, old(cat.trace), LegacyUploadScript(v, data, metadata, description, changelog))
  {
    outcome := LegacyUploadBody(cat, v, data, metadata, description, changelog);
    if v.catchesHttp && outcome == Raised(CallFailed(HttpError)) {
      outcome := Done;  // print("not published: ", ...)
    }
    assert Exec(cat.env, cat.trace, End) == State(cat.trace, Done);
  }

  method LegacyCreateDataset<D>(cat: Catalog<D>, v: Variant, name: string, data: D, metadata: M.Metadata,
                                description: string, at: M.Instant)
    returns (outcome: Outcome)
    modifies cat
    ensures State(cat.trace, outcome)
         == Exec(cat.env, old(cat.trace), LegacyCreateScript(v, name, data, metadata, description, at))
  {
    outcome := cat.Invoke(CreateInProgress(name));
    if outcome.Raised? {
      return;
    }
    outcome := LegacyUploadData(cat, v, data, metadata, description, CreateChangelog(v, at));
  }

  method LegacyUpdateDataset<D>(cat: Catalog<D>, v: Variant, name: string, data: D, metadata: M.Metadata,
                                description: string, at: M.Instant)
    returns (outcome: Outcome)
    modifies cat
    ensures State(cat.trace, outcome)
         == Exec(cat.env, old(cat.trace), LegacyUpdateScript(v, cat.env, name, data, metadata, description, at))
  {
    ghost var spec := Exec(cat.env, cat.trace, LegacyUpdateScript(v, cat.env, name, data, metadata, description, at));
    var datasets := cat.GetPublishedDatasets(name);
    if datasets.Failure? {
      return Raised(datasets.error);
    }
    if datasets.value.cols != 1 {
      return Raised(NotExactlyOne);
    }
    if datasets.value.rows == 0 {
      return Raised(NoRow);
    }
    var published := datasets.value.first;
    ghost var rest := LegacyRevise(v, published, data, metadata, description, at);
    if v.deletesDrafts {
      ghost var looked := cat.trace;
      assert spec == Exec(cat.env, looked, Swallow(Cleanup<D>(published), rest));
      assert spec == Exec(cat.env, Exec(cat.env, looked, Cleanup<D>(published)).trace, rest);
      var lookup := cat.Invoke(GetInProgress(published));
      if lookup.Done? {
        assert Exec(cat.env, looked, Cleanup<D>(published)) == Exec(cat.env, cat.trace, Do(DeleteDraft(published), End));
        var deleted := cat.Invoke(DeleteDraft(published));
        assert Exec(cat.env, cat.trace, End).trace == cat.trace;
      }
    }
    assert spec == Exec(cat.env, cat.trace, rest);
    outcome := cat.Invoke(NewVersion(published));
    if outcome.Raised? {
      return;
    }
    outcome := LegacyUploadData(cat, v, data, metadata, description, UpdateChangelog(v, at));
  }

  // ---------------------------------------------------------------------------
  // Johns Hopkins: the dataset name and the default description

  /** "COVID-19 dataset by John Hopkins University - {label}" */
  function JohnsHopkinsName(sourceLabel: string): (r: string)
    ensures |JohnsHopkinsPrefix| <= |r|
    ensures r[..|JohnsHopkinsPrefix|] == JohnsHopkinsPrefix && r[|JohnsHopkinsPrefix|..] == sourceLabel
  {
    JohnsHopkinsPrefix + sourceLabel
  }

  const JohnsHopkinsPrefix := "COVID-19 dataset by John Hopkins University - "

  /** The caller's description, or the generated one when it passed None. */
  function JohnsHopkinsDescription(description: Option<string>, generated: string): (r: string)
    ensures description.Some? ==> r == description.value
    ensures description.None? ==> r == generated
  {
    if description.None? then generated else description.value
  }

  /** `upload_dataset`: create the dataset named after the source label. The
      generated description `create_description(now, label, url)` is a parameter. */
  method JohnsHopkinsUploadDataset<D>(cat: Catalog<D>, sourceLabel: string, data: D, metadata: M.Metadata,
                                      description: Option<string>, generated: string, at: M.Instant)
    returns (outcome: Outcome)
    modifies cat
    ensures State(cat.trace, outcome)
         == Exec(cat.env, old(cat.trace),
                 LegacyCreateScript(JohnsHopkinsVariant, JohnsHopkinsName(sourceLabel), data, metadata,
                                    JohnsHopkinsDescription(description, generated), at))
  {
    outcome := LegacyCreateDataset(cat, JohnsHopkinsVariant, JohnsHopkinsName(sourceLabel), data, metadata,
                                   JohnsHopkinsDescription(description, generated), at);
  }

  method JohnsHopkinsUpdateDataset<D>(cat: Catalog<D>, sourceLabel: string, data: D, metadata: M.Metadata,
                                      description: Option<string>, generated: string, at: M.Instant)
    returns (outcome: Outcome)
    modifies cat
    ensures State(cat.trace, outcome)
         == Exec(cat.env, old(cat.trace),
                 LegacyUpdateScript(JohnsHopkinsVariant, cat.env, JohnsHopkinsName(sourceLabel), data, metadata,
                                    JohnsHopkinsDescription(description, generated), at))
  {
    outcome := LegacyUpdateDataset(cat, JohnsHopkinsVariant, JohnsHopkinsName(sourceLabel), data, metadata,
                                   JohnsHopkinsDescription(description, generated), at);
  }

  // ---------------------------------------------------------------------------
  // Properties

  lemma LegacyBodyIsStraight<D>(v: Variant, data: D, metadata: M.Metadata, description: string,
                                changelog: Changelog)
    ensures LegacyBody(v, data, metadata, description, changelog)
         == Straight(LegacyPlan(v, data, metadata, description, changelog), End)
  {
    var c1, c2, c3: Call<D> := UploadData(data, v.withIndex), InferSchema, UploadMetadata(metadata);
    var c4, c5: Call<D> := SetDescription(description), Publish(changelog);
    StraightCons(c5, [], End);
    assert [c5] == [c5] + [];
    StraightCons(c4, [c5], End);
    StraightCons(c3, [c4] + [c5], End);
    StraightCons(c2, [c3] + ([c4] + [c5]), End);
    StraightCons(c1, [c2] + ([c3] + ([c4] + [c5])), End);
    assert LegacyPlan(v, data, metadata, description, changelog) == [c1] + ([c2] + ([c3] + ([c4] + [c5])));
  }

  /** What an upload does: the calls of the plan up to and including the
      first that raises; a raise is swallowed exactly when the helper can
      catch HTTP errors and the fault is one. */
  lemma LegacyUploadOutcome<D>(env: Env, v: Variant, data: D, metadata: M.Metadata, description: string,
                               changelog: Changelog)
    ensures var plan := LegacyPlan(v, data, metadata, description, changelog);
            var k := FirstFault(env, plan);
            var r := Exec(env, [], LegacyUploadScript(v, data, metadata, description, changelog));
            && (k == |plan| ==> r == State(plan, Done))
            && (k < |plan| ==>
                  var fault := Raises(env, plan[k]).value;
                  && r.trace == plan[..k + 1]
                  && r.outcome == if v.catchesHttp && fault == HttpError then Done else Raised(CallFailed(fault)))
  {
    var plan := LegacyPlan(v, data, metadata, description, changelog);
    LegacyBodyIsStraight(v, data, metadata, description, changelog);
    ExecStraight(env, [], plan);
    assert [] + plan == plan;
    var k := FirstFault(env, plan);
    if k < |plan| {
      assert [] + plan[..k + 1] == plan[..k + 1];
    }
  }

  /** Johns Hopkins lets every exception of the upload propagate. */
  lemma JohnsHopkinsUploadRaises<D>(env: Env, data: D, metadata: M.Metadata, description: string,
                                    changelog: Changelog)
    ensures var plan := LegacyPlan(JohnsHopkinsVariant, data, metadata, description, changelog);
            Exec(env, [], LegacyUploadScript(JohnsHopkinsVariant, data, metadata, description, changelog)).outcome.Raised?
            <==> FirstFault(env, plan) < |plan|
  {
    LegacyUploadOutcome(env, JohnsHopkinsVariant, data, metadata, description, changelog);
  }

  /** A helper with the HTTP handler never lets an HTTPError out of the upload;
      when every fault is an HTTPError, the upload always ends normally. */
  lemma HttpErrorsSwallowed<D>(env: Env, v: Variant, data: D, metadata: M.Metadata, description: string,
                               changelog: Changelog)
    requires v.catchesHttp
    ensures var r := Exec(env, [], LegacyUploadScript(v, data, metadata, description, changelog));
            && r.outcome != Raised(CallFailed(HttpError))
            && ((forall op :: op in env.faults ==> env.faults[op] == HttpError) ==> r.outcome == Done)
  {
    LegacyUploadOutcome(env, v, data, metadata, description, changelog);
  }

  /** The guard raises before any draft, version or upload call. */
  lemma LegacyGuardRaisesFirst<D>(v: Variant, env: Env, name: string, data: D, metadata: M.Metadata,
                                  description: string, at: M.Instant)
    requires env.listing.cols != 1 || env.listing.rows == 0
    ensures var r := Exec(env, [], LegacyUpdateScript(v, env, name, data, metadata, description, at));
            r.trace == [GetPublished(name)] && r.outcome.Raised?
  {
  }

  lemma LegacyUploadAvoids<D>(v: Variant, data: D, metadata: M.Metadata, description: string,
                              changelog: Changelog, ops: set<Op>)
    requires forall op :: op in ops ==> op in {AuthenticateOp, GetPublishedOp, CreateInProgressOp,
                                               GetInProgressOp, DeleteDraftOp, NewVersionOp}
    ensures Avoids(LegacyUploadScript(v, data, metadata, description, changelog), ops)
  {
    var body := LegacyBody(v, data, metadata, description, changelog);
    assert Avoids(body.next.next.next.next, ops);
    assert Avoids(body.next.next.next, ops);
    assert Avoids(body.next.next, ops);
  }

  /** The Johns Hopkins and old Robert Koch helpers never touch a stale draft. */
  lemma NoDraftDeletion<D>(v: Variant, env: Env, name: string, data: D, metadata: M.Metadata,
                           description: string, at: M.Instant)
    requires !v.deletesDrafts
    ensures var r := Exec(env, [], LegacyUpdateScript(v, env, name, data, metadata, description, at));
            forall i :: 0 <= i < |r.trace| ==> OpOf(r.trace[i]) !in {GetInProgressOp, DeleteDraftOp}
  {
    var ops := {GetInProgressOp, DeleteDraftOp};
    LegacyUploadAvoids(v, data, metadata, description, UpdateChangelog(v, at), ops);
    ExecAvoids(env, LegacyUpdateScript<D>(v, env, name, data, metadata, description, at), ops);
  }

  /** Past the guard, an update makes the stale-draft calls where the helper
      has them, whatever they raise, and then the revision. */
  lemma LegacyUpdatePastGuard<D>(v: Variant, env: Env, name: string, data: D, metadata: M.Metadata,
                                 description: string, at: M.Instant)
    requires FaultAt(env, GetPublishedOp).None? && env.listing.cols == 1 && env.listing.rows > 0
    ensures var id := env.listing.first;
            var cleaned: seq<Call<D>> :=
              [GetPublished(name)]
              + (if !v.deletesDrafts then []
                 else if FaultAt(env, GetInProgressOp).Some? then [GetInProgress(id)]
                 else [GetInProgress(id), DeleteDraft(id)]);
            var rest := Exec(env, [], LegacyRevise(v, id, data, metadata, description, at));
            Exec(env, [], LegacyUpdateScript(v, env, name, data, metadata, description, at))
            == State(cleaned + rest.trace, rest.outcome)
  {
    var id := env.listing.first;
    var rest := LegacyRevise<D>(v, id, data, metadata, description, at);
    var lookup: seq<Call<D>> := [GetPublished(name)];
    assert [] + lookup == lookup;
    if v.deletesDrafts {
      var cleaned := Exec(env, lookup, Cleanup<D>(id)).trace;
      if FaultAt(env, GetInProgressOp).None? {
        assert Exec(env, lookup, Cleanup<D>(id)) == Exec(env, lookup + [GetInProgress(id)], Do(DeleteDraft(id), End));
        assert Exec(env, lookup + [GetInProgress(id)] + [DeleteDraft(id)], End).trace
            == lookup + [GetInProgress(id), DeleteDraft(id)];
      } else {
        assert cleaned == lookup + [GetInProgress(id)];
      }
      assert Exec(env, [], LegacyUpdateScript(v, env, name, data, metadata, description, at))
          == Exec(env, lookup, Swallow(Cleanup<D>(id), rest));
      ExecFrom(env, cleaned, rest);
    } else {
      assert lookup + [] == lookup;
      ExecFrom(env, lookup, rest);
    }
  }

  /** Where the helper deletes stale drafts, what that lookup and deletion
      raise does not change how the update ends, nor any call from the new
      version on. */
  lemma LegacyStaleDraftFaultsSwallowed<D>(v: Variant, e1: Env, e2: Env, name: string, data: D,
                                           metadata: M.Metadata, description: string, at: M.Instant)
    requires AgreeBeyondCleanup(e1, e2)
    ensures Exec(e1, [], LegacyUpdateScript(v, e1, name, data, metadata, description, at)).outcome
         == Exec(e2, [], LegacyUpdateScript(v, e2, name, data, metadata, description, at)).outcome
    ensures Exec(e1, [], LegacyRevise(v, e1.listing.first, data, metadata, description, at))
         == Exec(e2, [], LegacyRevise(v, e2.listing.first, data, metadata, description, at))
  {
    var id := e1.listing.first;
    var ops := {GetInProgressOp, DeleteDraftOp};
    var rest := LegacyRevise<D>(v, id, data, metadata, description, at);
    LegacyUploadAvoids(v, data, metadata, description, UpdateChangelog(v, at), ops);
    ExecAgree(e1, e2, [], rest, ops);
    assert FaultAt(e1, GetPublishedOp) == FaultAt(e2, GetPublishedOp);
    if FaultAt(e1, GetPublishedOp).None? && e1.listing.cols == 1 && e1.listing.rows > 0 {
      LegacyUpdatePastGuard(v, e1, name, data, metadata, description, at);
      LegacyUpdatePastGuard(v, e2, name, data, metadata, description, at);
    }
  }

  /** The five helpers of the repository. */
  const LegacyVariants: set<Variant> :=
    {JohnsHopkinsVariant, RkiTimeseriesVariant, NewYorkTimesVariant, OurWorldInDataVariant, RkiSnapshotVariant}

  /** With no fault at all, a creation makes exactly these calls, publishing
      "Initial import" for Our World in Data and "First import" elsewhere. */
  lemma CreateWithoutFaults<D>(v: Variant, env: Env, name: string, data: D, metadata: M.Metadata,
                               description: string, at: M.Instant)
    requires v in LegacyVariants && env.faults == map[]
    ensures Exec(env, [], LegacyCreateScript(v, name, data, metadata, description, at))
         == State([CreateInProgress(name), UploadData(data, v.withIndex), InferSchema, UploadMetadata(metadata),
                   SetDescription(description),
                   Publish(if v == OurWorldInDataVariant then InitialImport(at) else FirstImport(at))], Done)
  {
    var changelog := CreateChangelog(v, at);
    LegacyUploadOutcome(env, v, data, metadata, description, changelog);
    ExecDo(env, CreateInProgress(name), LegacyUploadScript(v, data, metadata, description, changelog));
  }

  /** With no fault and one published dataset, an update makes exactly these
      calls: the stale-draft pair only where the helper has it, and "Daily
      update" for Our World in Data but "First import" elsewhere, even though
      it is an update. */
  lemma UpdateWithoutFaults<D>(v: Variant, env: Env, name: string, data: D, metadata: M.Metadata,
                               description: string, at: M.Instant)
    requires v in LegacyVariants && env.faults == map[] && env.listing.cols == 1 && env.listing.rows > 0
    ensures var id := env.listing.first;
            Exec(env, [], LegacyUpdateScript(v, env, name, data, metadata, description, at))
            == State([GetPublished(name)]
                     + (if v.deletesDrafts then [GetInProgress(id), DeleteDraft(id)] else [])
                     + [NewVersion(id), UploadData(data, v.withIndex), InferSchema, UploadMetadata(metadata),
                        SetDescription(description),
                        Publish(if v == OurWorldInDataVariant then DailyUpdate(at) else FirstImport(at))], Done)
  {
    var id := env.listing.first;
    var changelog := UpdateChangelog(v, at);
    LegacyUpdatePastGuard(v, env, name, data, metadata, description, at);
    LegacyUploadOutcome(env, v, data, metadata, description, changelog);
    ExecDo(env, NewVersion(id), LegacyUploadScript(v, data, metadata, description, changelog));
  }
}
