/**
 The schema-aware stage-artifact cache (`CacheService`): each (video, step)
 pair owns one JSON document holding a status, the step's parameters and its
 results. `sanitize` projects a document onto the step's declared keys and
 `update` is the one mutation that invalidates results when parameters change.
 The storage backend is the file-system cache holding documents; JSON encoding
 is taken to round-trip, so a stored file holds the document itself.
 */
module CacheService {
  import opened Common
  import FsCache

  datatype Status = Waiting | Ready | Completed | Failed

  /** A stage artifact: status, parameters, results and the time of the last save. */
  datatype Doc = Doc(status: Status, params: map<string, Value>, results: map<string, Value>, lastUpdated: Option<int>)

  datatype StageSchema = StageSchema(params: seq<string>, results: seq<string>)

  const OriginalArea := "original_area"
  const SimulatedArea := "simulated_area"
  const Defoliation := "defoliation"

  /** `CACHE_SCHEMA`. */
  const Schema: map<string, StageSchema> := map[
    OriginalArea := StageSchema(["leafNumber", "leafWidths"], [OriginalArea]),
    SimulatedArea := StageSchema(["video", "length"], [SimulatedArea]),
    Defoliation := StageSchema([OriginalArea, SimulatedArea], [Defoliation])
  ]

  /** The cache backend the service writes through. */
  type Backend = FsCache.Cache<Doc>

  /** What `load` returns for a step that has never been saved. */
  const Fresh := Doc(Waiting, map[], map[], None)

  /** `_key`. */
  function Key(videoName: string, step: string): string {
    videoName + ":" + step
  }

  /** `load`: the stored document, or a fresh waiting one when none is stored. */
  function Load(c: Backend, videoName: string, step: string): (r: Result<Doc>)
    ensures !FsCache.Exists(c, Key(videoName, step)) ==> r == Ok(Fresh)
    ensures FsCache.Exists(c, Key(videoName, step)) ==> r == FsCache.Get(c, Key(videoName, step))
  {
    var key := Key(videoName, step);
    if !FsCache.Exists(c, key) then Ok(Fresh) else FsCache.Get(c, key)
  }

  /** The outcome of a save: the stamped document and the backend holding it. */
  datatype Saved = Saved(doc: Doc, backend: Backend)

  /** `save`: stamps `last_updated` with the clock reading `now` and stores the document. */
  function Save(c: Backend, videoName: string, step: string, doc: Doc, now: int): (r: Result<Saved>)
    ensures r.Ok? ==> r.value.doc == doc.(lastUpdated := Some(now))
    ensures r.Ok? ==> Load(r.value.backend, videoName, step) == Ok(r.value.doc)
    ensures r.Ok? <==> FsCache.Put(c, Key(videoName, step), doc.(lastUpdated := Some(now))).Ok?
    ensures r.Ok? ==> r.value.backend == FsCache.Put(c, Key(videoName, step), r.value.doc).value
  {
    var stamped := doc.(lastUpdated := Some(now));
    var written :- FsCache.Put(c, Key(videoName, step), stamped);
    Ok(Saved(stamped, written))
  }

  /** `{k: m.get(k) for k in keys}`: the declared keys, absent ones as null. */
  function Project(m: map<string, Value>, keys: seq<string>): (r: map<string, Value>)
    ensures r.Keys == set k | k in keys
    ensures forall k :: k in keys && k in m ==> r[k] == m[k]
    ensures forall k :: k in keys && k !in m ==> r[k] == Null
  {
    map k | k in keys :: if k in m then m[k] else Null
  }

  /** `sanitize`: keeps exactly the step's declared parameters and results; an unknown step raises. */
  function Sanitize(step: string, doc: Doc): (r: Result<Doc>)
    ensures r.Err? <==> step !in Schema
    ensures r.Err? ==> r.error == UnknownStage(step)
    ensures r.Ok? ==> r.value.status == doc.status && r.value.lastUpdated == doc.lastUpdated
    ensures r.Ok? ==> r.value.params.Keys == (set k | k in Schema[step].params)
    ensures r.Ok? ==> r.value.results.Keys == (set k | k in Schema[step].results)
    ensures r.Ok? ==> forall k :: k in r.value.params ==>
                        r.value.params[k] == (if k in doc.params then doc.params[k] else Null)
    ensures r.Ok? ==> forall k :: k in r.value.results ==>
                        r.value.results[k] == (if k in doc.results then doc.results[k] else Null)
  {
    if step !in Schema then Err(UnknownStage(step))
    else
      var schema := Schema[step];
      Ok(doc.(params := Project(doc.params, schema.params), results := Project(doc.results, schema.results)))
  }

  /** A sanitized document is left as it is by a second `sanitize`. */
  lemma SanitizeIdempotent(step: string, doc: Doc)
    requires Sanitize(step, doc).Ok?
    ensures Sanitize(step, Sanitize(step, doc).value) == Sanitize(step, doc)
  {
    var once := Sanitize(step, doc).value;
    var twice := Sanitize(step, once).value;
    assert twice.params == once.params;
    assert twice.results == once.results;
  }

  /** The declared parameters whose new value differs from the current one (`updated`). */
  function Changes(current: map<string, Value>, declared: seq<string>, newParams: map<string, Value>): (u: map<string, Value>)
    ensures forall k :: k in u <==> k in declared && k in newParams && (k !in current || current[k] != newParams[k])
    ensures forall k :: k in u ==> u[k] == newParams[k]
  {
    map k | k in declared && k in newParams && (k !in current || current[k] != newParams[k]) :: newParams[k]
  }

  /** Every declared parameter holds a value (`all(... is not None)`). */
  predicate AllPresent(params: map<string, Value>, declared: seq<string>) {
    forall k :: k in declared ==> k in params && params[k] != Null
  }

  /** The outcome of an update: the resulting document, the backend, and whether it was saved. */
  datatype Updated = Updated(doc: Doc, backend: Backend, saved: bool)

  /**
   `update`: loads and sanitizes the step's document, collects the declared
   parameters whose value changes, and when there is any, writes them, clears
   the results, recomputes the status and saves.
   */
  function Update(c: Backend, videoName: string, step: string, newParams: map<string, Value>, now: int): (r: Result<Updated>)
    ensures r.Ok? ==> step in Schema && Load(c, videoName, step).Ok?
    ensures step !in Schema && Load(c, videoName, step).Ok? ==> r == Err(UnknownStage(step))
    ensures r.Ok? && !r.value.saved ==> r.value.backend == c
    ensures r.Ok? && !r.value.saved ==> Sanitize(step, Load(c, videoName, step).value) == Ok(r.value.doc)
    ensures r.Ok? && r.value.saved ==> r.value.doc.results == map[] && r.value.doc.lastUpdated == Some(now)
    ensures r.Ok? && r.value.saved ==>
              (r.value.doc.status == Ready <==> AllPresent(r.value.doc.params, Schema[step].params))
    ensures r.Ok? && r.value.saved ==>
              (r.value.doc.status == Waiting <==> !AllPresent(r.value.doc.params, Schema[step].params))
    ensures r.Ok? && r.value.saved ==> Load(r.value.backend, videoName, step) == Ok(r.value.doc)
    ensures r.Ok? && r.value.saved ==> r.value.backend == FsCache.Put(c, Key(videoName, step), r.value.doc).value
    ensures r.Ok? ==> forall k :: k in Schema[step].params && k in newParams ==>
                        k in r.value.doc.params && r.value.doc.params[k] == newParams[k]
    ensures r.Ok? ==>
              var current := Sanitize(step, Load(c, videoName, step).value).value;
              && r.value.doc.params.Keys == current.params.Keys
              && (forall k :: k in current.params && k !in newParams ==> r.value.doc.params[k] == current.params[k])
              && (r.value.saved <==> Changes(current.params, Schema[step].params, newParams) != map[])
  {
    var doc :- Load(c, videoName, step);
    var current :- Sanitize(step, doc);
    var declared := Schema[step].params;
    var updated := Changes(current.params, declared, newParams);
    if |updated| == 0 then
      assert forall k :: k in declared && k in newParams ==> current.params[k] == newParams[k] by {
        forall k | k in declared && k in newParams ensures current.params[k] == newParams[k] {
          assert k !in updated;
        }
      }
      Ok(Updated(current, c, false))
    else
      var params := current.params + updated;
      var status := if AllPresent(params, declared) then Ready else Waiting;
      var saved :- Save(c, videoName, step, current.(params := params, results := map[], status := status), now);
      Ok(Updated(saved.doc, saved.backend, true))
  }

  /** `update` only looks at the declared parameters of `new_params`. */
  lemma UpdateIgnoresUndeclared(c: Backend, videoName: string, step: string, newParams: map<string, Value>, now: int)
    requires step in Schema
    ensures Update(c, videoName, step, newParams, now)
         == Update(c, videoName, step, map k | k in newParams && k in Schema[step].params :: newParams[k], now)
  {
    var declared := Schema[step].params;
    var restricted := map k | k in newParams && k in declared :: newParams[k];
    var doc := Load(c, videoName, step);
    if doc.Ok? {
      ChangesRestricted(Sanitize(step, doc.value).value.params, declared, newParams);
    }
  }

  /** Which parameters change depends only on the declared part of the new values. */
  lemma ChangesRestricted(current: map<string, Value>, declared: seq<string>, newParams: map<string, Value>)
    ensures Changes(current, declared, newParams)
         == Changes(current, declared, map k | k in newParams && k in declared :: newParams[k])
  {
  }

  /** An update whose declared values all equal the stored ones saves nothing and returns the sanitized document. */
  lemma UpdateUnchanged(c: Backend, videoName: string, step: string, newParams: map<string, Value>, now: int)
    requires step in Schema && Load(c, videoName, step).Ok?
    requires var current := Sanitize(step, Load(c, videoName, step).value).value;
             forall k :: k in Schema[step].params && k in newParams ==> current.params[k] == newParams[k]
    ensures Update(c, videoName, step, newParams, now)
         == Ok(Updated(Sanitize(step, Load(c, videoName, step).value).value, c, false))
  {
    var current := Sanitize(step, Load(c, videoName, step).value).value;
    assert Changes(current.params, Schema[step].params, newParams) == map[];
  }

  /**
   Repeating an update that succeeded saves nothing the second time and finds
   the same parameters; only the cleared results come back as nulls.
   */
  lemma UpdateTwice(c: Backend, videoName: string, step: string, newParams: map<string, Value>, now: int, later: int)
    requires Update(c, videoName, step, newParams, now).Ok?
    ensures var first := Update(c, videoName, step, newParams, now).value;
            var second := Update(first.backend, videoName, step, newParams, later);
            second.Ok? && !second.value.saved && second.value.backend == first.backend
            && second.value.doc.params == first.doc.params && second.value.doc.status == first.doc.status
  {
    var first := Update(c, videoName, step, newParams, now).value;
    UpdateReloads(c, videoName, step, newParams, now);
    UpdateUnchanged(first.backend, videoName, step, newParams, later);
  }

  /**
   After an update, loading and sanitizing the step's document gives back the
   updated parameters and status (cleared results come back as nulls).
   */
  lemma UpdateReloads(c: Backend, videoName: string, step: string, newParams: map<string, Value>, now: int)
    requires Update(c, videoName, step, newParams, now).Ok?
    ensures var first := Update(c, videoName, step, newParams, now).value;
            && Load(first.backend, videoName, step).Ok?
            && Sanitize(step, Load(first.backend, videoName, step).value).Ok?
            && Sanitize(step, Load(first.backend, videoName, step).value).value.params == first.doc.params
            && Sanitize(step, Load(first.backend, videoName, step).value).value.status == first.doc.status
  {
    var first := Update(c, videoName, step, newParams, now).value;
    if first.saved {
      SavedIsSanitized(c, videoName, step, newParams, now);
    } else {
      SanitizeIdempotent(step, Load(c, videoName, step).value);
    }
  }

  /** A saved update stores parameters that `sanitize` leaves as they are. */
  lemma SavedIsSanitized(c: Backend, videoName: string, step: string, newParams: map<string, Value>, now: int)
    requires Update(c, videoName, step, newParams, now).Ok? && Update(c, videoName, step, newParams, now).value.saved
    ensures var first := Update(c, videoName, step, newParams, now).value;
            Sanitize(step, first.doc).Ok? && Sanitize(step, first.doc).value.params == first.doc.params
  {
    var first := Update(c, videoName, step, newParams, now).value;
    var current := Sanitize(step, Load(c, videoName, step).value).value;
    var updated := Changes(current.params, Schema[step].params, newParams);
    assert first.doc.params == current.params + updated;
    assert first.doc.params.Keys == set k | k in Schema[step].params;
    assert Sanitize(step, first.doc).value.params == first.doc.params;
  }

  /** The three steps' keys of one video never share a file: the step names differ in length. */
  lemma StepsDoNotAlias(videoName: string, s1: string, s2: string)
    requires s1 in Schema && s2 in Schema && s1 != s2
    ensures !FsCache.Aliases(Key(videoName, s1), Key(videoName, s2))
  {
    assert |s1| != |s2|;
  }

  /** Saving one step's document leaves the other steps of the video as they were. */
  lemma SaveKeepsOtherSteps(c: Backend, videoName: string, step: string, other: string, doc: Doc, now: int)
    requires step in Schema && other in Schema && step != other
    requires Save(c, videoName, step, doc, now).Ok?
    ensures Load(Save(c, videoName, step, doc, now).value.backend, videoName, other) == Load(c, videoName, other)
  {
    StepsDoNotAlias(videoName, step, other);
    FsCache.Frame(c, Key(videoName, step), doc.(lastUpdated := Some(now)), Key(videoName, other));
  }

  /** So does an update of one step. */
  lemma UpdateKeepsOtherSteps(c: Backend, videoName: string, step: string, other: string,
                              newParams: map<string, Value>, now: int)
    requires step in Schema && other in Schema && step != other
    requires Update(c, videoName, step, newParams, now).Ok?
    ensures Load(Update(c, videoName, step, newParams, now).value.backend, videoName, other) == Load(c, videoName, other)
  {
    var u := Update(c, videoName, step, newParams, now).value;
    if u.saved {
      StepsDoNotAlias(videoName, step, other);
      FsCache.Frame(c, Key(videoName, step), u.doc, Key(videoName, other));
    }
  }
}
