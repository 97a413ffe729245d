/**
 The original-area stage (`original_inference`). Unlike the other two stages
 it consults the job metadata: it reads the stage's output flag (creating the
 job record when absent) and, after a computation, sets that flag. Whether the
 stage's dependencies are ready (`dependencies_ready`) is given as `ready`,
 `None` standing for the exception that call raises inside the `try`;
 the model (`run_model`) is a collaborator given as a function, `None` standing
 for the exception it raises; the metadata store the runner reaches through
 `cache.meta` is passed in. The two leaf parameters go by names the job
 schema does not define, so they are parameters too.
 */
module OriginalInference {
  import opened Common
  import opened JobSchema
  import opened CacheService
  import opened StageRun
  import MetaStore

  /** A finished run together with the job metadata it leaves behind. */
  datatype OriginalRun = OriginalRun(run: Run, meta: MetaStore.Store)

  /** `params.get(...)` of both leaf parameters, when neither is missing or null. */
  function LeafParams(params: map<string, Value>, leafKey: string, widthsKey: string): (r: Option<(Value, Value)>)
    ensures r.Some? <==> leafKey in params && params[leafKey] != Null && widthsKey in params && params[widthsKey] != Null
    ensures r.Some? ==> r.value == (params[leafKey], params[widthsKey])
  {
    if leafKey in params && params[leafKey] != Null && widthsKey in params && params[widthsKey] != Null
    then Some((params[leafKey], params[widthsKey]))
    else None
  }

  /**
   The tail of a computation that produced `pred`: save the completed
   document, push the area into the defoliation parameters, set the output
   flag, print (which needs a number), schedule defoliation.
   */
  function Publish(c: Backend, meta: MetaStore.Store, entryId: string, done: Doc, pred: Value, now: int): (r: OriginalRun)
    ensures Save(c, entryId, OriginalArea, done, now).Err? ==>
              r == OriginalRun(Fail(c, entryId, OriginalArea, done, now), meta)
    ensures Save(c, entryId, OriginalArea, done, now).Ok? ==>
              var saved := Save(c, entryId, OriginalArea, done, now).value;
              var u := Update(saved.backend, entryId, Defoliation, map[OriginalArea := pred], now);
              && (u.Err? ==> r == OriginalRun(Fail(saved.backend, entryId, OriginalArea, done, now), meta))
              && (u.Ok? ==> MetaStore.UpdateField(meta, entryId, OutOriginal, Int(1), now) == Ok(r.meta))
              && (u.Ok? && Printable(pred) ==> r.run == Run(Returned(Some(pred)), u.value.backend, true))
              && (u.Ok? && !Printable(pred) ==> r.run == Fail(u.value.backend, entryId, OriginalArea, done, now))
  {
    match Save(c, entryId, OriginalArea, done, now)
    case Err(_) => OriginalRun(Fail(c, entryId, OriginalArea, done, now), meta)
    case Ok(saved) =>
      match Update(saved.backend, entryId, Defoliation, map[OriginalArea := pred], now)
      case Err(_) => OriginalRun(Fail(saved.backend, entryId, OriginalArea, done, now), meta)
      case Ok(u) =>
        assert IsSchemaField(OutOriginal);
        var flagged := MetaStore.UpdateField(meta, entryId, OutOriginal, Int(1), now).value;
        if Printable(pred) then OriginalRun(Run(Returned(Some(pred)), u.backend, true), flagged)
        else OriginalRun(Fail(u.backend, entryId, OriginalArea, done, now), flagged)
  }

  /** `original_inference(entry_id, state)`. */
  function Infer(c: Backend, meta: MetaStore.Store, entryId: string, state: Option<Doc>, ready: Option<bool>,
                 leafKey: string, widthsKey: string, model: (Value, Value) -> Option<Value>, now: int): (r: OriginalRun)
    ensures Given(c, entryId, OriginalArea, state).Err? ==>
              r == OriginalRun(Run(Raised(Given(c, entryId, OriginalArea, state).error), c, false), meta)
    ensures r.run.scheduled ==> r.run.exit.Returned? && r.run.exit.value.Some?
    ensures Given(c, entryId, OriginalArea, state).Ok? ==>
              var doc := Given(c, entryId, OriginalArea, state).value;
              var seen := MetaStore.EnsureExists(meta, entryId, now);
              && (ready.None? ==> r == OriginalRun(Fail(c, entryId, OriginalArea, doc, now), seen))
              && ((ready == Some(false) || (ready.Some? && doc.status == Waiting)) ==>
                    var waiting := doc.(status := Waiting);
                    && r.meta == seen && !r.run.scheduled
                    && (Save(c, entryId, OriginalArea, waiting, now).Ok? ==>
                          r.run.exit == Returned(None)
                          && r.run.backend == Save(c, entryId, OriginalArea, waiting, now).value.backend
                          && Load(r.run.backend, entryId, OriginalArea) == Ok(waiting.(lastUpdated := Some(now))))
                    && (Save(c, entryId, OriginalArea, waiting, now).Err? ==>
                          r.run == Fail(c, entryId, OriginalArea, waiting, now)))
              && (ready == Some(true) && doc.status == Completed ==>
                    r.meta == seen
                    && r.run == (if Cached(doc, OriginalArea).Some? then Run(Returned(Cached(doc, OriginalArea)), c, false)
                                 else Fail(c, entryId, OriginalArea, doc, now)))
              && (ready == Some(true) && doc.status in {Ready, Failed} && LeafParams(doc.params, leafKey, widthsKey).None? ==>
                    r == OriginalRun(Fail(c, entryId, OriginalArea, doc, now), seen))
              && (ready == Some(true) && doc.status in {Ready, Failed} && LeafParams(doc.params, leafKey, widthsKey).Some? ==>
                    var (leaf, widths) := LeafParams(doc.params, leafKey, widthsKey).value;
                    && (model(leaf, widths).None? ==> r == OriginalRun(Fail(c, entryId, OriginalArea, doc, now), seen))
                    && (model(leaf, widths).Some? ==>
                          var pred := model(leaf, widths).value;
                          r == Publish(c, seen, entryId,
                                       doc.(results := doc.results[OriginalArea := pred], status := Completed), pred, now)))
  {
    var loaded := Given(c, entryId, OriginalArea, state);
    if loaded.Err? then OriginalRun(Run(Raised(loaded.error), c, false), meta)
    else
      var doc := loaded.value;
      var seen := MetaStore.GetField(meta, entryId, OutOriginal, now).store;
      if ready.None? then OriginalRun(Fail(c, entryId, OriginalArea, doc, now), seen)
      else if !ready.value || doc.status == Waiting then
        var waiting := doc.(status := Waiting);
        match Save(c, entryId, OriginalArea, waiting, now)
        case Err(_) => OriginalRun(Fail(c, entryId, OriginalArea, waiting, now), seen)
        case Ok(saved) => OriginalRun(Run(Returned(None), saved.backend, false), seen)
      else if doc.status == Completed then
        if Cached(doc, OriginalArea).Some? then OriginalRun(Run(Returned(Cached(doc, OriginalArea)), c, false), seen)
        else OriginalRun(Fail(c, entryId, OriginalArea, doc, now), seen)
      else
        match LeafParams(doc.params, leafKey, widthsKey)
        case None => OriginalRun(Fail(c, entryId, OriginalArea, doc, now), seen)
        case Some((leaf, widths)) =>
          match model(leaf, widths)
          case None => OriginalRun(Fail(c, entryId, OriginalArea, doc, now), seen)
          case Some(pred) =>
            Publish(c, seen, entryId, doc.(results := doc.results[OriginalArea := pred], status := Completed), pred, now)
  }

  /**
   While the stage waits, has completed, or cannot learn whether its inputs
   are ready, the model is never consulted: any two models give the same run.
   */
  lemma NotReadyIgnoresModel(c: Backend, meta: MetaStore.Store, entryId: string, state: Option<Doc>, ready: Option<bool>,
                             leafKey: string, widthsKey: string, m1: (Value, Value) -> Option<Value>,
                             m2: (Value, Value) -> Option<Value>, now: int)
    requires Given(c, entryId, OriginalArea, state).Ok?
    requires ready != Some(true) || Given(c, entryId, OriginalArea, state).value.status in {Waiting, Completed}
    ensures Infer(c, meta, entryId, state, ready, leafKey, widthsKey, m1, now)
         == Infer(c, meta, entryId, state, ready, leafKey, widthsKey, m2, now)
  {
  }

  /**
   A computed area is published: the original-area document reads back
   completed with the area, the defoliation document holds it as a parameter,
   the job's `out_original` flag is 1, and defoliation is scheduled.
   */
  lemma {:induction false} ComputedIsPublished(c: Backend, meta: MetaStore.Store, entryId: string, leafKey: string,
                                               widthsKey: string, model: (Value, Value) -> Option<Value>, now: int)
    requires Load(c, entryId, OriginalArea).Ok?
    requires Load(c, entryId, OriginalArea).value.status in {Ready, Failed}
    requires Infer(c, meta, entryId, None, Some(true), leafKey, widthsKey, model, now).run.exit.Returned?
    ensures var r := Infer(c, meta, entryId, None, Some(true), leafKey, widthsKey, model, now);
            r.run.exit.value.Some? && Published(c, entryId, r, r.run.exit.value.value)
  {
    var doc := Load(c, entryId, OriginalArea).value;
    var pred := ReturnedMeansComputed(c, meta, entryId, leafKey, widthsKey, model, now);
    PublishPublishes(c, MetaStore.EnsureExists(meta, entryId, now), entryId,
                     doc.(results := doc.results[OriginalArea := pred], status := Completed), pred, now);
  }

  /**
   A ready run over a document to compute returns only when both leaf
   parameters were there and the model answered `pred`; the run is then the
   publication of `pred`.
   */
  lemma ReturnedMeansComputed(c: Backend, meta: MetaStore.Store, entryId: string, leafKey: string,
                              widthsKey: string, model: (Value, Value) -> Option<Value>, now: int)
    returns (pred: Value)
    requires Load(c, entryId, OriginalArea).Ok?
    requires Load(c, entryId, OriginalArea).value.status in {Ready, Failed}
    requires Infer(c, meta, entryId, None, Some(true), leafKey, widthsKey, model, now).run.exit.Returned?
    ensures var doc := Load(c, entryId, OriginalArea).value;
            && LeafParams(doc.params, leafKey, widthsKey).Some?
            && model(LeafParams(doc.params, leafKey, widthsKey).value.0, LeafParams(doc.params, leafKey, widthsKey).value.1)
               == Some(pred)
            && Infer(c, meta, entryId, None, Some(true), leafKey, widthsKey, model, now)
               == Publish(c, MetaStore.EnsureExists(meta, entryId, now), entryId,
                          doc.(results := doc.results[OriginalArea := pred], status := Completed), pred, now)
  {
    assert Given(c, entryId, OriginalArea, None) == Load(c, entryId, OriginalArea);
    var doc := Load(c, entryId, OriginalArea).value;
    var (leaf, widths) := LeafParams(doc.params, leafKey, widthsKey).value;
    pred := model(leaf, widths).value;
  }

  /** What a successful computation leaves behind, `pred` being the area it returned. */
  ghost predicate Published(c: Backend, entryId: string, r: OriginalRun, pred: Value) {
    && r.run.exit == Returned(Some(pred))
    && r.run.scheduled
    && Printable(pred)
    && Load(r.run.backend, entryId, OriginalArea).Ok?
    && Load(r.run.backend, entryId, OriginalArea).value.status == Completed
    && OriginalArea in Load(r.run.backend, entryId, OriginalArea).value.results
    && Load(r.run.backend, entryId, OriginalArea).value.results[OriginalArea] == pred
    && Load(r.run.backend, entryId, Defoliation).Ok?
    && OriginalArea in Load(r.run.backend, entryId, Defoliation).value.params
    && Load(r.run.backend, entryId, Defoliation).value.params[OriginalArea] == pred
    && entryId in r.meta.jobs && MetaStore.Field(r.meta.jobs[entryId], OutOriginal) == Some(Int(1))
  }

  lemma PublishPublishes(c: Backend, meta: MetaStore.Store, entryId: string, done: Doc, pred: Value, now: int)
    requires done.status == Completed && OriginalArea in done.results && done.results[OriginalArea] == pred
    requires Publish(c, meta, entryId, done, pred, now).run.exit.Returned?
    ensures Published(c, entryId, Publish(c, meta, entryId, done, pred, now), pred)
  {
    PublishSteps(c, meta, entryId, done, pred, now);
    var saved := Save(c, entryId, OriginalArea, done, now).value;
    UpdateKeepsOtherSteps(saved.backend, entryId, Defoliation, OriginalArea, map[OriginalArea := pred], now);
    assert OriginalArea in Schema[Defoliation].params;
    FlagSet(meta, entryId, now);
  }

  /** A publication that returned went through a successful save and a successful update. */
  lemma PublishSteps(c: Backend, meta: MetaStore.Store, entryId: string, done: Doc, pred: Value, now: int)
    requires Publish(c, meta, entryId, done, pred, now).run.exit.Returned?
    ensures Save(c, entryId, OriginalArea, done, now).Ok?
    ensures var saved := Save(c, entryId, OriginalArea, done, now).value;
            var u := Update(saved.backend, entryId, Defoliation, map[OriginalArea := pred], now);
            && u.Ok? && Printable(pred)
            && Publish(c, meta, entryId, done, pred, now)
               == OriginalRun(Run(Returned(Some(pred)), u.value.backend, true),
                              MetaStore.UpdateField(meta, entryId, OutOriginal, Int(1), now).value)
  {
  }

  /** Setting `out_original` through `update_field` leaves it reading 1. */
  lemma FlagSet(s: MetaStore.Store, entryId: string, now: int)
    ensures MetaStore.UpdateField(s, entryId, OutOriginal, Int(1), now).Ok?
    ensures var t := MetaStore.UpdateField(s, entryId, OutOriginal, Int(1), now).value;
            entryId in t.jobs && MetaStore.Field(t.jobs[entryId], OutOriginal) == Some(Int(1))
  {
    assert IsSchemaField(OutOriginal);
    assert OutOriginal != LastUpdated;
  }

  /**
   A computed area is reused: after a run has computed it, the next ready
   run returns the same value, saves nothing and only stamps the job as seen.
   */
  lemma {:induction false} ComputedThenCached(c: Backend, meta: MetaStore.Store, entryId: string, leafKey: string,
                                              widthsKey: string, model: (Value, Value) -> Option<Value>,
                                              now: int, later: int)
    requires Load(c, entryId, OriginalArea).Ok?
    requires Load(c, entryId, OriginalArea).value.status in {Ready, Failed}
    requires Infer(c, meta, entryId, None, Some(true), leafKey, widthsKey, model, now).run.exit.Returned?
    ensures var first := Infer(c, meta, entryId, None, Some(true), leafKey, widthsKey, model, now);
            var second := Infer(first.run.backend, first.meta, entryId, None, Some(true), leafKey, widthsKey, model, later);
            second == OriginalRun(Run(first.run.exit, first.run.backend, false), MetaStore.EnsureExists(first.meta, entryId, later))
  {
    ComputedIsPublished(c, meta, entryId, leafKey, widthsKey, model, now);
    var first := Infer(c, meta, entryId, None, Some(true), leafKey, widthsKey, model, now);
    var pred := first.run.exit.value.value;
    var doc := Load(first.run.backend, entryId, OriginalArea).value;
    assert Cached(doc, OriginalArea) == Some(pred);
    CompletedIsCached(first.run.backend, first.meta, entryId, leafKey, widthsKey, model, later);
  }

  /** A ready run over a completed document with a printable area answers from it and saves nothing. */
  lemma CompletedIsCached(c: Backend, meta: MetaStore.Store, entryId: string, leafKey: string,
                          widthsKey: string, model: (Value, Value) -> Option<Value>, now: int)
    requires Load(c, entryId, OriginalArea).Ok?
    requires Load(c, entryId, OriginalArea).value.status == Completed
    requires Cached(Load(c, entryId, OriginalArea).value, OriginalArea).Some?
    ensures Infer(c, meta, entryId, None, Some(true), leafKey, widthsKey, model, now)
         == OriginalRun(Run(Returned(Cached(Load(c, entryId, OriginalArea).value, OriginalArea)), c, false),
                        MetaStore.EnsureExists(meta, entryId, now))
  {
    assert Given(c, entryId, OriginalArea, None) == Load(c, entryId, OriginalArea);
  }
}
