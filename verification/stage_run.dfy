/**
 What the three stage runners share: how a run ends (a returned value or a
 raised exception), the cache backend it leaves behind, whether it scheduled
 the defoliation stage, and the `except` clause every runner ends with
 (mark the state failed, save it, raise).
 */
module StageRun {
  import opened Common
  import opened CacheService

  /** The end of a run: `return value` (None for a bare `return`) or `raise`. */
  datatype Exit = Returned(value: Option<Value>) | Raised(error: Error)

  /** A finished run: how it ended, the backend afterwards, and whether defoliation was scheduled. */
  datatype Run = Run(exit: Exit, backend: Backend, scheduled: bool)

  /** The document a runner works on: the caller's state, or the stored one when none was given. */
  function Given(c: Backend, videoName: string, step: string, state: Option<Doc>): (r: Result<Doc>)
    ensures state.Some? ==> r == Ok(state.value)
    ensures state.None? ==> r == Load(c, videoName, step)
  {
    if state.Some? then Ok(state.value) else Load(c, videoName, step)
  }

  /** `f"{x:.2f}"` only accepts numbers; anything else raises inside the `try`. */
  predicate Printable(v: Value) {
    v.Num?
  }

  /** The stored result of a completed step, when it is there and printable. */
  function Cached(doc: Doc, step: string): (r: Option<Value>)
    ensures r.Some? <==> step in doc.results && Printable(doc.results[step])
    ensures r.Some? ==> r.value == doc.results[step]
  {
    if step in doc.results && Printable(doc.results[step]) then Some(doc.results[step]) else None
  }

  /**
   The `except` clause: the state is marked failed and saved, and the runner
   raises `RuntimeError`. When that save itself fails, its exception escapes
   instead and nothing is stored.
   */
  function Fail(c: Backend, videoName: string, step: string, doc: Doc, now: int): (r: Run)
    ensures r.exit.Raised? && !r.scheduled
    ensures Save(c, videoName, step, doc.(status := Failed), now).Ok? ==>
              r.exit == Raised(StageFailed(step))
              && r.backend == Save(c, videoName, step, doc.(status := Failed), now).value.backend
              && Load(r.backend, videoName, step) == Ok(doc.(status := Failed, lastUpdated := Some(now)))
    ensures Save(c, videoName, step, doc.(status := Failed), now).Err? ==>
              r.backend == c && r.exit == Raised(Save(c, videoName, step, doc.(status := Failed), now).error)
  {
    match Save(c, videoName, step, doc.(status := Failed), now)
    case Ok(saved) => Run(Raised(StageFailed(step)), saved.backend, false)
    case Err(e) => Run(Raised(e), c, false)
  }
}
