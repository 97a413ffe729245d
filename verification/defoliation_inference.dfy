/**
 The defoliation stage (`defoliation_inference`): a waiting document is left
 alone, a completed one answers from its stored result, and any other status
 computes the percentage from the two area parameters and saves. The
 percentage itself, `(1 - simulated / original) * 100` in floating point, is
 the abstract `formula`; the model keeps the cases in which evaluating it raises.
 */
module DefoliationInference {
  import opened Common
  import opened CacheService
  import opened StageRun

  /**
   The two area parameters when the formula can be evaluated: both present,
   both numbers, and the original area nonzero. A missing key raises
   `KeyError`, a non-number `TypeError`, a zero original area `ZeroDivisionError`.
   */
  function Areas(params: map<string, Value>): (r: Option<(real, real)>)
    ensures r.Some? <==> OriginalArea in params && SimulatedArea in params
                         && params[OriginalArea].Num? && params[SimulatedArea].Num?
                         && params[OriginalArea].n != 0.0
    ensures r.Some? ==> r.value == (params[OriginalArea].n, params[SimulatedArea].n)
  {
    if OriginalArea in params && SimulatedArea in params
       && params[OriginalArea].Num? && params[SimulatedArea].Num? && params[OriginalArea].n != 0.0
    then Some((params[OriginalArea].n, params[SimulatedArea].n))
    else None
  }

  /** `defoliation_inference(video_name, state)`. */
  function Infer(c: Backend, videoName: string, state: Option<Doc>, formula: (real, real) -> real, now: int): (r: Run)
    ensures !r.scheduled
    ensures Given(c, videoName, Defoliation, state).Err? ==>
              r == Run(Raised(Given(c, videoName, Defoliation, state).error), c, false)
    ensures Given(c, videoName, Defoliation, state).Ok? ==>
              var doc := Given(c, videoName, Defoliation, state).value;
              && (doc.status == Waiting ==> r == Run(Returned(None), c, false))
              && (doc.status == Completed && Cached(doc, Defoliation).Some? ==>
                    r == Run(Returned(Cached(doc, Defoliation)), c, false))
              && (doc.status == Completed && Cached(doc, Defoliation).None? ==>
                    r == Fail(c, videoName, Defoliation, doc, now))
              && (doc.status in {Ready, Failed} && Areas(doc.params).None? ==>
                    r == Fail(c, videoName, Defoliation, doc, now))
    ensures Given(c, videoName, Defoliation, state).Ok? ==>
              var doc := Given(c, videoName, Defoliation, state).value;
              doc.status in {Ready, Failed} && Areas(doc.params).Some? ==>
                var (orig, sim) := Areas(doc.params).value;
                var done := doc.(results := doc.results[Defoliation := Num(formula(orig, sim))], status := Completed);
                && (Save(c, videoName, Defoliation, done, now).Ok? ==>
                      r == Run(Returned(Some(Num(formula(orig, sim)))), Save(c, videoName, Defoliation, done, now).value.backend, false)
                      && Load(r.backend, videoName, Defoliation) == Ok(done.(lastUpdated := Some(now))))
                && (Save(c, videoName, Defoliation, done, now).Err? ==> r == Fail(c, videoName, Defoliation, done, now))
  {
    var loaded := Given(c, videoName, Defoliation, state);
    if loaded.Err? then Run(Raised(loaded.error), c, false)
    else
      var doc := loaded.value;
      if doc.status == Waiting then Run(Returned(None), c, false)
      else if doc.status == Completed then
        if Cached(doc, Defoliation).Some? then Run(Returned(Cached(doc, Defoliation)), c, false)
        else Fail(c, videoName, Defoliation, doc, now)
      else
        match Areas(doc.params)
        case None => Fail(c, videoName, Defoliation, doc, now)
        case Some((orig, sim)) =>
          var pred := Num(formula(orig, sim));
          var done := doc.(results := doc.results[Defoliation := pred], status := Completed);
          match Save(c, videoName, Defoliation, done, now)
          case Err(_) => Fail(c, videoName, Defoliation, done, now)
          case Ok(saved) => Run(Returned(Some(pred)), saved.backend, false)
  }

  /**
   A computed percentage is reused: once a run has computed and saved it, the
   next run (without a state) returns the same value and saves nothing.
   */
  lemma ComputedThenCached(c: Backend, videoName: string, formula: (real, real) -> real, now: int, later: int)
    requires Load(c, videoName, Defoliation).Ok?
    requires Load(c, videoName, Defoliation).value.status in {Ready, Failed}
    requires Infer(c, videoName, None, formula, now).exit.Returned?
    ensures var first := Infer(c, videoName, None, formula, now);
            Infer(first.backend, videoName, None, formula, later) == Run(first.exit, first.backend, false)
  {
    var doc := Load(c, videoName, Defoliation).value;
    var (orig, sim) := Areas(doc.params).value;
    var pred := Num(formula(orig, sim));
    var done := doc.(results := doc.results[Defoliation := pred], status := Completed);
    assert Save(c, videoName, Defoliation, done, now).Ok?;
    var first := Infer(c, videoName, None, formula, now);
    assert Load(first.backend, videoName, Defoliation) == Ok(done.(lastUpdated := Some(now)));
    assert Cached(done.(lastUpdated := Some(now)), Defoliation) == Some(pred);
  }

  /** When the stage raises its own `RuntimeError`, the document is stored as failed. */
  lemma FailureIsRecorded(c: Backend, videoName: string, state: Option<Doc>, formula: (real, real) -> real, now: int)
    requires Given(c, videoName, Defoliation, state).Ok?
    requires Infer(c, videoName, state, formula, now).exit == Raised(StageFailed(Defoliation))
    ensures var r := Infer(c, videoName, state, formula, now);
            Load(r.backend, videoName, Defoliation).Ok? && Load(r.backend, videoName, Defoliation).value.status == Failed
  {
  }
}
