/**
 The simulated-area stage (`simulated_inference`): a waiting document is left
 alone; a completed one answers from its stored result; any other status runs
 the video scanner on the `length` parameter, saves, and pushes the area into
 the defoliation parameters. Both answering paths schedule the defoliation
 stage. The cache service is bound only when the runner loads the document
 itself, so with a caller-supplied state every save raises `UnboundLocalError`.
 The scanner (`run_leafscan`) and `float()` on text are collaborators given as
 functions; `None` from either stands for the exception they raise.
 */
module SimulatedInference {
  import opened Common
  import opened CacheService
  import opened StageRun

  const LengthParam := "length"

  /** `float(params["length"])`: numbers pass, text goes through `float()`, anything else raises. */
  function Length(params: map<string, Value>, parseFloat: string -> Option<real>): (r: Option<real>)
    ensures LengthParam !in params ==> r.None?
    ensures LengthParam in params && params[LengthParam].Num? ==> r == Some(params[LengthParam].n)
    ensures LengthParam in params && params[LengthParam].Str? ==> r == parseFloat(params[LengthParam].s)
    ensures LengthParam in params && (params[LengthParam].Null? || params[LengthParam].List?) ==> r.None?
  {
    if LengthParam !in params then None
    else match params[LengthParam]
      case Num(n) => Some(n)
      case Str(s) => parseFloat(s)
      case _ => None
  }

  /**
   The `except` clause. With `cache` unbound, its own `cache.save` raises
   `UnboundLocalError` and nothing is stored.
   */
  function Failure(bound: bool, c: Backend, videoName: string, doc: Doc, now: int): (r: Run)
    ensures bound ==> r == Fail(c, videoName, SimulatedArea, doc, now)
    ensures !bound ==> r == Run(Raised(UnboundCache), c, false)
  {
    if bound then Fail(c, videoName, SimulatedArea, doc, now) else Run(Raised(UnboundCache), c, false)
  }

  /**
   The part after the scanner returned `pred`: save the completed document,
   push the area into the defoliation parameters, print (which needs a
   number), schedule defoliation.
   */
  function Publish(bound: bool, c: Backend, videoName: string, done: Doc, pred: Value, now: int): (r: Run)
    ensures !bound ==> r == Run(Raised(UnboundCache), c, false)
    ensures bound && Save(c, videoName, SimulatedArea, done, now).Err? ==> r == Fail(c, videoName, SimulatedArea, done, now)
    ensures bound && Save(c, videoName, SimulatedArea, done, now).Ok? ==>
              var saved := Save(c, videoName, SimulatedArea, done, now).value;
              var u := Update(saved.backend, videoName, Defoliation, map[SimulatedArea := pred], now);
              && (u.Ok? && Printable(pred) ==> r == Run(Returned(Some(pred)), u.value.backend, true))
              && (u.Err? ==> r == Fail(saved.backend, videoName, SimulatedArea, done, now))
              && (u.Ok? && !Printable(pred) ==> r == Fail(u.value.backend, videoName, SimulatedArea, done, now))
  {
    if !bound then Run(Raised(UnboundCache), c, false)
    else
      match Save(c, videoName, SimulatedArea, done, now)
      case Err(_) => Fail(c, videoName, SimulatedArea, done, now)
      case Ok(saved) =>
        match Update(saved.backend, videoName, Defoliation, map[SimulatedArea := pred], now)
        case Err(_) => Fail(saved.backend, videoName, SimulatedArea, done, now)
        case Ok(u) =>
          if Printable(pred) then Run(Returned(Some(pred)), u.backend, true)
          else Fail(u.backend, videoName, SimulatedArea, done, now)
  }

  /** `simulated_inference(video_name, state)`. */
  function Infer(c: Backend, videoName: string, state: Option<Doc>, parseFloat: string -> Option<real>,
                 scan: (string, real) -> Option<Value>, now: int): (r: Run)
    ensures state.None? && Load(c, videoName, SimulatedArea).Err? ==> r == Run(Raised(NoState), c, false)
    ensures r.scheduled ==> r.exit.Returned? && r.exit.value.Some?
    ensures state.Some? ==> r.backend == c
    ensures Given(c, videoName, SimulatedArea, state).Ok? ==>
              var doc := Given(c, videoName, SimulatedArea, state).value;
              && (doc.status == Waiting ==> r == Run(Returned(None), c, false))
              && (doc.status == Completed && Cached(doc, SimulatedArea).Some? ==>
                    r == Run(Returned(Cached(doc, SimulatedArea)), c, true))
              && (doc.status == Completed && Cached(doc, SimulatedArea).None? ==>
                    r == Failure(state.None?, c, videoName, doc, now))
              && (doc.status in {Ready, Failed} && Length(doc.params, parseFloat).None? ==>
                    r == Failure(state.None?, c, videoName, doc, now))
    ensures Given(c, videoName, SimulatedArea, state).Ok? ==>
              var doc := Given(c, videoName, SimulatedArea, state).value;
              doc.status in {Ready, Failed} && Length(doc.params, parseFloat).Some? ==>
                var pred := scan(videoName, Length(doc.params, parseFloat).value);
                && (pred.None? ==> r == Failure(state.None?, c, videoName, doc, now))
                && (pred.Some? ==>
                      r == Publish(state.None?, c, videoName,
                                   doc.(results := doc.results[SimulatedArea := pred.value], status := Completed),
                                   pred.value, now))
  {
    var bound := state.None?;
    var loaded := Given(c, videoName, SimulatedArea, state);
    if loaded.Err? then Run(Raised(NoState), c, false)
    else
      var doc := loaded.value;
      if doc.status == Waiting then Run(Returned(None), c, false)
      else if doc.status == Completed then
        if Cached(doc, SimulatedArea).Some? then Run(Returned(Cached(doc, SimulatedArea)), c, true)
        else Failure(bound, c, videoName, doc, now)
      else
        match Length(doc.params, parseFloat)
        case None => Failure(bound, c, videoName, doc, now)
        case Some(length) =>
          match scan(videoName, length)
          case None => Failure(bound, c, videoName, doc, now)
          case Some(pred) =>
            Publish(bound, c, videoName, doc.(results := doc.results[SimulatedArea := pred], status := Completed), pred, now)
  }

  /**
   A computed area is published: the simulated document reads back completed
   with the area, the defoliation document holds the area as a parameter, and
   defoliation is scheduled.
   */
  lemma {:induction false} ComputedIsPublished(c: Backend, videoName: string, parseFloat: string -> Option<real>,
                                               scan: (string, real) -> Option<Value>, now: int)
    requires Load(c, videoName, SimulatedArea).Ok?
    requires Load(c, videoName, SimulatedArea).value.status in {Ready, Failed}
    requires Infer(c, videoName, None, parseFloat, scan, now).exit.Returned?
    ensures var r := Infer(c, videoName, None, parseFloat, scan, now);
            r.exit.value.Some? && Published(videoName, r, r.exit.value.value)
  {
    var doc := Load(c, videoName, SimulatedArea).value;
    var pred := ReturnedMeansComputed(c, videoName, parseFloat, scan, now);
    PublishPublishes(c, videoName, doc.(results := doc.results[SimulatedArea := pred], status := Completed), pred, now);
  }

  /**
   A run over a loaded document to compute returns only when the length
   parsed and the scanner answered `pred`; the run is then the publication of
   `pred`.
   */
  lemma ReturnedMeansComputed(c: Backend, videoName: string, parseFloat: string -> Option<real>,
                              scan: (string, real) -> Option<Value>, now: int)
    returns (pred: Value)
    requires Load(c, videoName, SimulatedArea).Ok?
    requires Load(c, videoName, SimulatedArea).value.status in {Ready, Failed}
    requires Infer(c, videoName, None, parseFloat, scan, now).exit.Returned?
    ensures var doc := Load(c, videoName, SimulatedArea).value;
            && Length(doc.params, parseFloat).Some?
            && scan(videoName, Length(doc.params, parseFloat).value) == Some(pred)
            && Infer(c, videoName, None, parseFloat, scan, now)
               == Publish(true, c, videoName, doc.(results := doc.results[SimulatedArea := pred], status := Completed),
                          pred, now)
  {
    assert Given(c, videoName, SimulatedArea, None) == Load(c, videoName, SimulatedArea);
    var doc := Load(c, videoName, SimulatedArea).value;
    pred := scan(videoName, Length(doc.params, parseFloat).value).value;
  }

  /** What a successful computation leaves behind, `pred` being the area it returned. */
  ghost predicate Published(videoName: string, r: Run, pred: Value) {
    && r.exit == Returned(Some(pred))
    && r.scheduled
    && Printable(pred)
    && Load(r.backend, videoName, SimulatedArea).Ok?
    && Load(r.backend, videoName, SimulatedArea).value.status == Completed
    && SimulatedArea in Load(r.backend, videoName, SimulatedArea).value.results
    && Load(r.backend, videoName, SimulatedArea).value.results[SimulatedArea] == pred
    && Load(r.backend, videoName, Defoliation).Ok?
    && SimulatedArea in Load(r.backend, videoName, Defoliation).value.params
    && Load(r.backend, videoName, Defoliation).value.params[SimulatedArea] == pred
  }

  lemma PublishPublishes(c: Backend, videoName: string, done: Doc, pred: Value, now: int)
    requires done.status == Completed && SimulatedArea in done.results && done.results[SimulatedArea] == pred
    requires Publish(true, c, videoName, done, pred, now).exit.Returned?
    ensures Published(videoName, Publish(true, c, videoName, done, pred, now), pred)
  {
    var saved := Save(c, videoName, SimulatedArea, done, now).value;
    UpdateKeepsOtherSteps(saved.backend, videoName, Defoliation, SimulatedArea, map[SimulatedArea := pred], now);
    assert SimulatedArea in Schema[Defoliation].params;
  }

  /** With a caller-supplied state, a run that has to compute raises `UnboundLocalError` and stores nothing. */
  lemma {:induction false} SuppliedStateCannotSave(c: Backend, videoName: string, doc: Doc, parseFloat: string -> Option<real>,
                                                   scan: (string, real) -> Option<Value>, now: int)
    requires doc.status in {Ready, Failed}
    ensures Infer(c, videoName, Some(doc), parseFloat, scan, now) == Run(Raised(UnboundCache), c, false)
  {
    var length := Length(doc.params, parseFloat);
    if length.Some? && scan(videoName, length.value).Some? {
      var pred := scan(videoName, length.value).value;
      assert Infer(c, videoName, Some(doc), parseFloat, scan, now)
          == Publish(false, c, videoName, doc.(results := doc.results[SimulatedArea := pred], status := Completed), pred, now);
    }
  }
}
