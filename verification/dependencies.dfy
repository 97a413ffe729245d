/**
 The readiness check of a pipeline stage (`check_dependencies`): a stage's
 requirements are flag fields of the job's metadata record; an absent raw
 input is reported missing, an absent derived output is checked recursively
 and its stage scheduled once its own requirements hold. Scheduling is an
 effect the model records as a list of stage names.
 */
module Dependencies {
  import opened Common
  import opened JobSchema
  import MetaStore

  /** `DEPENDENCY_SCHEMA`: each derived output and the flags it needs. */
  const Graph: map<string, seq<string>> := map[
    OutOriginal := [InParams],
    OutSimulated := [InVideo, InParams],
    OutDefoliation := [OutOriginal, OutSimulated]
  ]

  /** How far a flag lies from the raw inputs; requirements sit strictly lower. */
  function Depth(field: string): (d: nat)
    ensures field !in Graph ==> d == 0
  {
    if field == OutDefoliation then 2 else if field in Graph then 1 else 0
  }

  /** The raw inputs: required by some stage, derived by none. */
  predicate Raw(field: string) {
    field == InVideo || field == InParams
  }

  /**
   The graph is acyclic of depth two: every requirement is shallower than
   what needs it, and is either derived or raw.
   */
  lemma GraphAcyclic()
    ensures forall stage, i :: stage in Graph && 0 <= i < |Graph[stage]| ==> Depth(Graph[stage][i]) < Depth(stage)
    ensures forall stage, i :: stage in Graph && 0 <= i < |Graph[stage]| ==> Graph[stage][i] in Graph || Raw(Graph[stage][i])
    ensures forall stage :: stage in Graph ==> Depth(stage) <= 2
    ensures forall f :: Raw(f) ==> f !in Graph
  {
  }

  /** `bool(int(value))`: a flag reads as set when it is a non-zero integer; anything else raises. */
  function Present(rec: Record, field: string): (r: Result<bool>)
    ensures r.Ok? <==> field in rec && rec[field].Int?
    ensures r.Ok? ==> (r.value <==> rec[field].n != 0)
    ensures r.Err? ==> r.error == NotANumber
  {
    if field in rec && rec[field].Int? then Ok(rec[field].n != 0) else Err(NotANumber)
  }

  /** What one check yields: whether the stage is ready, the raw inputs it found missing, the stages it scheduled. */
  datatype Check = Check(satisfied: bool, missing: seq<string>, scheduled: seq<string>)

  const Nothing := Check(true, [], [])

  /** `check_dependencies` on the job's record; `missing` holds what this call appends. */
  function CheckStage(rec: Record, stage: string): (r: Result<Check>)
    decreases Depth(stage), 1
    ensures stage !in Graph ==> r == Ok(Nothing)
    ensures r.Err? ==> r.error == NotANumber
    ensures r.Ok? ==> forall m :: m in r.value.missing ==> Raw(m) && Present(rec, m) == Ok(false)
    ensures r.Ok? ==> forall x :: x in r.value.scheduled ==> x in Graph && Present(rec, x) == Ok(false)
    ensures r.Ok? ==> (r.value.satisfied <==> r.value.missing == [])
  {
    if stage !in Graph then Ok(Nothing) else CheckFrom(rec, stage, 0)
  }

  /** The loop over the stage's requirements from position `i` on; every one is examined. */
  function CheckFrom(rec: Record, stage: string, i: nat): (r: Result<Check>)
    decreases Depth(stage), 0, if stage in Graph && i <= |Graph[stage]| then |Graph[stage]| - i else 0
    ensures r.Err? ==> r.error == NotANumber
    ensures r.Ok? ==> forall m :: m in r.value.missing ==> Raw(m) && Present(rec, m) == Ok(false)
    ensures r.Ok? ==> forall x :: x in r.value.scheduled ==> x in Graph && Present(rec, x) == Ok(false)
    ensures r.Ok? ==> (r.value.satisfied <==> r.value.missing == [])
  {
    if stage !in Graph || i >= |Graph[stage]| then Ok(Nothing)
    else
      GraphAcyclic();
      var req := Graph[stage][i];
      var first :- CheckRequirement(rec, stage, req);
      var rest :- CheckFrom(rec, stage, i + 1);
      Ok(Check(first.satisfied && rest.satisfied, first.missing + rest.missing, first.scheduled + rest.scheduled))
  }

  /** One requirement: present, or derived and checked recursively, or raw and missing. */
  function CheckRequirement(rec: Record, stage: string, req: string): (r: Result<Check>)
    requires Depth(req) < Depth(stage)
    decreases Depth(stage), 0, 0
    ensures r.Err? ==> r.error == NotANumber
    ensures r.Ok? ==> forall m :: m in r.value.missing ==> (Raw(m) || (m == req && m !in Graph)) && Present(rec, m) == Ok(false)
    ensures r.Ok? ==> forall x :: x in r.value.scheduled ==> x in Graph && Present(rec, x) == Ok(false)
    ensures r.Ok? ==> (r.value.satisfied <==> r.value.missing == [])
  {
    var present :- Present(rec, req);
    if present then Ok(Nothing)
    else if req in Graph then
      var sub :- CheckStage(rec, req);
      Ok(Check(sub.satisfied, sub.missing, sub.scheduled + if sub.satisfied then [req] else []))
    else Ok(Check(false, [req], []))
  }

  /** The outcome of `check_dependencies` on the store: the store `get_field` leaves, and the check. */
  datatype Resolution = Resolution(store: MetaStore.Store, satisfied: bool, missing: seq<string>, scheduled: seq<string>)

  /**
   `check_dependencies(video_name, stage, missing_params)`: every flag is read
   with `get_field`, which creates the job first when it is unknown; what the
   check finds missing is appended to `missing`.
   */
  function CheckDependencies(s: MetaStore.Store, video: string, stage: string, missing: seq<string>, now: int): (r: Result<Resolution>)
    ensures stage !in Graph ==> r == Ok(Resolution(s, true, missing, []))
    ensures stage in Graph && r.Ok? ==> r.value.store == MetaStore.EnsureExists(s, video, now)
    ensures r.Ok? ==> |r.value.missing| >= |missing| && r.value.missing[..|missing|] == missing
    ensures r.Ok? ==> (r.value.satisfied <==> |r.value.missing| == |missing|)
    ensures r.Ok? ==> forall i :: |missing| <= i < |r.value.missing| ==> Raw(r.value.missing[i])
  {
    if stage !in Graph then Ok(Resolution(s, true, missing, []))
    else
      var rec := MetaStore.Seen(s, video, now);
      var c :- CheckStage(rec, stage);
      assert forall i :: |missing| <= i < |missing + c.missing| ==> (missing + c.missing)[i] in c.missing;
      Ok(Resolution(MetaStore.EnsureExists(s, video, now), c.satisfied, missing + c.missing, c.scheduled))
  }

  /** A field that holds an integer. */
  predicate Readable(rec: Record, field: string) {
    field in rec && rec[field].Int?
  }

  /** A flag that holds an integer, read as the check reads it. */
  function IsSet(rec: Record, field: string): bool
    requires Readable(rec, field)
  {
    rec[field].n != 0
  }

  /** The six flags the graph reads all hold integers. */
  predicate FlagsReadable(rec: Record) {
    && Readable(rec, InVideo) && Readable(rec, InParams)
    && Readable(rec, OutOriginal) && Readable(rec, OutSimulated) && Readable(rec, OutDefoliation)
  }

  /** The entry one raw input adds to `missing`. */
  function Unset(rec: Record, field: string): (r: seq<string>)
    requires Readable(rec, field)
    ensures r == [] <==> IsSet(rec, field)
  {
    if IsSet(rec, field) then [] else [field]
  }

  /** Closed forms of the two first-level stages. */
  lemma {:induction false} FirstLevel(rec: Record)
    requires FlagsReadable(rec)
    ensures CheckStage(rec, OutOriginal) == Ok(Check(IsSet(rec, InParams), Unset(rec, InParams), []))
    ensures CheckStage(rec, OutSimulated)
         == Ok(Check(IsSet(rec, InVideo) && IsSet(rec, InParams), Unset(rec, InVideo) + Unset(rec, InParams), []))
  {
    assert Graph[OutOriginal] == [InParams];
    assert CheckFrom(rec, OutOriginal, 1) == Ok(Nothing);
    assert InParams !in Graph && InVideo !in Graph;
    var p := CheckRequirement(rec, OutOriginal, InParams);
    assert p == Ok(Check(IsSet(rec, InParams), Unset(rec, InParams), []));
    assert Graph[OutOriginal][0] == InParams;
    var c := p.value;
    assert CheckFrom(rec, OutOriginal, 0) == Ok(Check(c.satisfied && true, c.missing + [], c.scheduled + []));
    assert c.missing + [] == c.missing && c.scheduled + [] == c.scheduled;

    assert Graph[OutSimulated] == [InVideo, InParams];
    assert CheckFrom(rec, OutSimulated, 2) == Ok(Nothing);
    assert CheckFrom(rec, OutSimulated, 1) == p;
    var v := CheckRequirement(rec, OutSimulated, InVideo);
    assert v == Ok(Check(IsSet(rec, InVideo), Unset(rec, InVideo), []));
    assert [InVideo, InParams][1..] == [InParams];
  }

  /** `CheckRequirement` of a derived requirement whose own check is known. */
  function Derived(rec: Record, req: string, sub: Check): Check
    requires Readable(rec, req)
  {
    if IsSet(rec, req) then Nothing
    else Check(sub.satisfied, sub.missing, sub.scheduled + if sub.satisfied then [req] else [])
  }

  /**
   The closed form of the defoliation stage: each output flag that is unset
   contributes its own stage's check, and an output whose inputs are present
   is scheduled.
   */
  lemma {:induction false} DefoliationClosedForm(rec: Record)
    requires FlagsReadable(rec)
    ensures var o := Derived(rec, OutOriginal, CheckStage(rec, OutOriginal).value);
            var sim := Derived(rec, OutSimulated, CheckStage(rec, OutSimulated).value);
            CheckStage(rec, OutDefoliation)
            == Ok(Check(o.satisfied && sim.satisfied, o.missing + sim.missing, o.scheduled + sim.scheduled))
  {
    FirstLevel(rec);
    GraphEntries();
    var o := Derived(rec, OutOriginal, CheckStage(rec, OutOriginal).value);
    var sim := Derived(rec, OutSimulated, CheckStage(rec, OutSimulated).value);
    assert CheckRequirement(rec, OutDefoliation, OutOriginal) == Ok(o);
    assert CheckRequirement(rec, OutDefoliation, OutSimulated) == Ok(sim);
    assert CheckFrom(rec, OutDefoliation, 2) == Ok(Nothing);
    assert CheckFrom(rec, OutDefoliation, 1) == Ok(Check(sim.satisfied && true, sim.missing + [], sim.scheduled + []));
    assert sim.missing + [] == sim.missing && sim.scheduled + [] == sim.scheduled;
  }

  /** The graph's entries, and the depths they give. */
  lemma GraphEntries()
    ensures Graph[OutOriginal] == [InParams] && Graph[OutSimulated] == [InVideo, InParams]
    ensures Graph[OutDefoliation] == [OutOriginal, OutSimulated]
    ensures InVideo !in Graph && InParams !in Graph
    ensures Depth(OutDefoliation) == 2 && Depth(OutOriginal) == 1 && Depth(OutSimulated) == 1
  {
  }

  /**
   A job no flag of which is set, as a fresh job is: the defoliation check
   walks both branches and reports `in_params` twice.
   */
  lemma FreshJobDefoliation(s: MetaStore.Store, video: string, now: int)
    requires video !in s.jobs
    ensures var r := CheckDependencies(s, video, OutDefoliation, [], now);
            r.Ok? && !r.value.satisfied && r.value.missing == [InParams, InVideo, InParams] && r.value.scheduled == []
  {
    var rec := MetaStore.DefaultRecord(now);
    DefaultValues();
    assert MetaStore.Seen(s, video, now) == rec;
    assert rec[InVideo] == Int(0) && rec[InParams] == Int(0);
    assert rec[OutOriginal] == Int(0) && rec[OutSimulated] == Int(0) && rec[OutDefoliation] == Int(0);
    AllUnset(rec);
  }

  /** No flag set: nothing is scheduled and every raw input is reported once per stage that needs it. */
  lemma AllUnset(rec: Record)
    requires FlagsReadable(rec)
    requires !IsSet(rec, InVideo) && !IsSet(rec, InParams)
    requires !IsSet(rec, OutOriginal) && !IsSet(rec, OutSimulated)
    ensures CheckStage(rec, OutDefoliation) == Ok(Check(false, [InParams, InVideo, InParams], []))
  {
    DefoliationClosedForm(rec);
    FirstLevel(rec);
    assert Unset(rec, InParams) == [InParams] && Unset(rec, InVideo) == [InVideo];
    assert Derived(rec, OutOriginal, CheckStage(rec, OutOriginal).value) == Check(false, [InParams], []);
    assert Derived(rec, OutSimulated, CheckStage(rec, OutSimulated).value) == Check(false, [InVideo, InParams], []);
    assert [InParams] + [InVideo, InParams] == [InParams, InVideo, InParams];
  }

  /** With every input present and no output yet, both first-level stages are scheduled and the stage is ready. */
  lemma InputsPresentSchedules(rec: Record)
    requires FlagsReadable(rec)
    requires IsSet(rec, InVideo) && IsSet(rec, InParams)
    requires !IsSet(rec, OutOriginal) && !IsSet(rec, OutSimulated)
    ensures CheckStage(rec, OutDefoliation) == Ok(Check(true, [], [OutOriginal, OutSimulated]))
  {
    DefoliationClosedForm(rec);
    FirstLevel(rec);
    assert [] + [OutOriginal] + ([] + [OutSimulated]) == [OutOriginal, OutSimulated];
  }

  /** A set output flag stops the walk there: nothing missing, nothing scheduled, whatever lies below. */
  lemma PresentOutputsSuffice(rec: Record)
    requires FlagsReadable(rec)
    requires IsSet(rec, OutOriginal) && IsSet(rec, OutSimulated)
    ensures CheckStage(rec, OutDefoliation) == Ok(Nothing)
  {
    DefoliationClosedForm(rec);
  }

  /** Every flag the graph reads holding an integer, the check never raises. */
  lemma ReadableNeverRaises(rec: Record, stage: string)
    requires FlagsReadable(rec)
    ensures CheckStage(rec, stage).Ok?
  {
    if stage == OutDefoliation {
      DefoliationClosedForm(rec);
    } else {
      FirstLevel(rec);
    }
  }
}
