/**
 The job metadata store (`CacheMetaStore`) as a value threaded through its
 operations. Redis holds one hash `job:{entry_id}` per job, the sorted sets
 `cache:lru` (recency) and `cache:bytes` (size), and the counters
 `cache:total_bytes` and `cache:max_bytes`; the store instance remembers the
 configured limit. Every operation takes the clock reading `now` it uses, and
 the backend's size computation arrives as a parameter.
 */
module MetaStore {
  import opened Common
  import opened JobSchema
  import SortedSet

  datatype Store = Store(
    jobs: map<string, Record>,
    lru: seq<SortedSet.Ranked>,
    byteRanks: seq<SortedSet.Ranked>,
    totalBytes: int,
    maxBytes: int,
    configuredMax: int)

  /** Fields the eviction rule reads; no operation of the store writes them. */
  const State := "state"
  const Inferencing := "INFERENCING"
  const VideoUploadDone := "video_upload_done"
  const OriginalUploadDone := "original_area_upload_done"
  const SimulatedUploadDone := "simulated_area_upload_done"
  const DefoliationUploadDone := "defoliation_upload_done"
  const ResultsFetched := "results_fetched"

  /** How many recency-ordered candidates one eviction looks at (`zrange(.., 0, 10)`). */
  const CandidateCount := 11

  /**
   The constructor: `setnx` of both counters, so limits already present in
   Redis are kept and only the instance's configured limit is new.
   */
  function Open(redis: Option<Store>, configuredMax: int): (s: Store)
    ensures s.configuredMax == configuredMax
    ensures redis.None? ==> s.jobs == map[] && s.lru == [] && s.byteRanks == []
    ensures redis.None? ==> s.totalBytes == 0 && s.maxBytes == configuredMax
    ensures redis.Some? ==> s.jobs == redis.value.jobs && s.lru == redis.value.lru && s.byteRanks == redis.value.byteRanks
    ensures redis.Some? ==> s.totalBytes == redis.value.totalBytes && s.maxBytes == redis.value.maxBytes
  {
    match redis
    case None => Store(map[], [], [], 0, configuredMax, configuredMax)
    case Some(prior) => prior.(configuredMax := configuredMax)
  }

  /** `job.get(field)` on a record. */
  function Field(rec: Record, field: string): (r: Option<Cell>)
    ensures r.Some? <==> field in rec
    ensures r.Some? ==> r.value == rec[field]
  {
    if field in rec then Some(rec[field]) else None
  }

  /** The record `init_entry` creates: the schema defaults stamped with `now`. */
  function DefaultRecord(now: int): (rec: Record)
    ensures rec.Keys == Defaults.Keys + {CreatedAt, LastUpdated}
    ensures forall f :: f in Defaults ==> rec[f] == Defaults[f]
    ensures rec[CreatedAt] == Int(now) && rec[LastUpdated] == Int(now)
  {
    TimestampsNotInSchema();
    Defaults[CreatedAt := Int(now)][LastUpdated := Int(now)]
  }

  /** `init_entry`: creates a job with default fields, recency `now` and size rank 0, unless it exists. */
  function InitEntry(s: Store, id: string, now: int): (r: Store)
    ensures id in r.jobs
    ensures id in s.jobs ==> r == s
    ensures id !in s.jobs ==> r.jobs == s.jobs[id := DefaultRecord(now)]
    ensures id !in s.jobs ==> SortedSet.SetsScore(s.lru, r.lru, id, now)
    ensures id !in s.jobs ==> SortedSet.SetsScore(s.byteRanks, r.byteRanks, id, 0)
    ensures r.totalBytes == s.totalBytes && r.maxBytes == s.maxBytes && r.configuredMax == s.configuredMax
  {
    if id in s.jobs then s
    else
      s.(jobs := s.jobs[id := DefaultRecord(now)],
         lru := SortedSet.Add(s.lru, id, now),
         byteRanks := SortedSet.Add(s.byteRanks, id, 0))
  }

  /** `ensure_exists`: the same check as `init_entry`, made once more by the caller. */
  function EnsureExists(s: Store, id: string, now: int): (r: Store)
    ensures id in r.jobs
    ensures r == InitEntry(s, id, now)
  {
    if id !in s.jobs then InitEntry(s, id, now) else s
  }

  /** The job's record once `ensure_exists` has run. */
  function Seen(s: Store, id: string, now: int): (rec: Record)
    ensures rec == EnsureExists(s, id, now).jobs[id]
    ensures id !in s.jobs ==> rec == DefaultRecord(now)
  {
    if id in s.jobs then s.jobs[id] else DefaultRecord(now)
  }

  /** What `get_field` returns together with the store it leaves behind. */
  datatype Read = Read(store: Store, value: Option<Cell>)

  /** `get_field`: creates the job when unknown, then reads one field. */
  function GetField(s: Store, id: string, field: string, now: int): (r: Read)
    ensures r.store == EnsureExists(s, id, now)
    ensures id in s.jobs ==> r.value == Field(s.jobs[id], field)
    ensures id !in s.jobs ==> r.value == Field(DefaultRecord(now), field)
  {
    var t := EnsureExists(s, id, now);
    Read(t, Field(t.jobs[id], field))
  }

  /** `touch`: stamps `last_updated` and moves the job to recency `now`. */
  function Touch(s: Store, id: string, now: int): (r: Store)
    ensures r.jobs == s.jobs[id := Seen(s, id, now)[LastUpdated := Int(now)]]
    ensures SortedSet.SetsScore(s.lru, r.lru, id, now)
    ensures r.byteRanks == EnsureExists(s, id, now).byteRanks
    ensures r.totalBytes == s.totalBytes && r.maxBytes == s.maxBytes && r.configuredMax == s.configuredMax
  {
    var t := EnsureExists(s, id, now);
    RecencySet(s, id, now);
    t.(jobs := s.jobs[id := Seen(s, id, now)[LastUpdated := Int(now)]], lru := SortedSet.Add(t.lru, id, now))
  }

  /** Whether or not `ensure_exists` ranked the job already, `touch` leaves it ranked at `now`. */
  lemma RecencySet(s: Store, id: string, now: int)
    ensures SortedSet.SetsScore(s.lru, SortedSet.Add(EnsureExists(s, id, now).lru, id, now), id, now)
  {
    if id !in s.jobs {
      var t := EnsureExists(s, id, now);
      SortedSet.SetsScoreTwice(s.lru, t.lru, SortedSet.Add(t.lru, id, now), id, now, now);
    }
  }

  /**
   `update_field`: refuses a name outside the schema before touching anything;
   otherwise writes the field and touches the job.
   */
  function UpdateField(s: Store, id: string, field: string, val: Cell, now: int): (r: Result<Store>)
    ensures r.Err? <==> !IsSchemaField(field)
    ensures r.Err? ==> r.error == UnknownField(field)
    ensures r.Ok? ==> r.value.jobs == s.jobs[id := Seen(s, id, now)[field := val][LastUpdated := Int(now)]]
    ensures r.Ok? ==> SortedSet.SetsScore(s.lru, r.value.lru, id, now)
    ensures r.Ok? ==> r.value.byteRanks == EnsureExists(s, id, now).byteRanks
    ensures r.Ok? ==> r.value.totalBytes == s.totalBytes && r.value.maxBytes == s.maxBytes
    ensures r.Ok? ==> r.value.configuredMax == s.configuredMax
  {
    if !IsSchemaField(field) then Err(UnknownField(field))
    else
      var t := EnsureExists(s, id, now);
      var written := t.(jobs := t.jobs[id := t.jobs[id][field := val]]);
      TouchJobs(written, s.jobs, id, Seen(s, id, now)[field := val], now);
      TouchLru(s, written, id, now);
      Ok(Touch(written, id, now))
  }

  /** `int(hget(key, "bytes") or 0)`: a missing or empty value reads as 0, other text raises. */
  function StoredSize(rec: Record): (r: Result<int>)
    ensures r.Err? <==> Bytes in rec && rec[Bytes].Text? && rec[Bytes].s != ""
    ensures r.Err? ==> r.error == NotANumber
  {
    match Field(rec, Bytes)
    case None => Ok(0)
    case Some(Int(n)) => Ok(n)
    case Some(Text(t)) => if t == "" then Ok(0) else Err(NotANumber)
  }

  /** `int(job.get("bytes", 0))`: a missing value reads as 0, any text raises. */
  function EvictionSize(rec: Record): (r: Result<int>)
    ensures r.Err? <==> Bytes in rec && rec[Bytes].Text?
    ensures r.Err? ==> r.error == NotANumber
  {
    match Field(rec, Bytes)
    case None => Ok(0)
    case Some(Int(n)) => Ok(n)
    case Some(Text(_)) => Err(NotANumber)
  }

  /** The size a record accounts for: its numeric `bytes`, else 0. Both readings agree with it whenever they succeed. */
  function SizeOf(rec: Record): (n: int)
    ensures StoredSize(rec).Ok? ==> StoredSize(rec).value == n
    ensures EvictionSize(rec).Ok? ==> EvictionSize(rec).value == n
    ensures Bytes in rec && rec[Bytes].Int? ==> n == rec[Bytes].n
  {
    if Bytes in rec && rec[Bytes].Int? then rec[Bytes].n else 0
  }

  /**
   The pipeline of `update_bytes`: the job's size becomes `newSize`, its size
   rank follows and the total moves by the difference. The old size is read
   before any write, so a size that does not parse changes nothing.
   */
  function WriteSize(s: Store, id: string, newSize: nat, now: int): (r: Result<Store>)
    ensures r.Err? <==> StoredSize(Seen(s, id, now)).Err?
    ensures r.Err? ==> r.error == NotANumber && id in s.jobs
    ensures r.Ok? ==> r.value.jobs == s.jobs[id := Seen(s, id, now)[Bytes := Int(newSize)]]
    ensures r.Ok? ==> r.value.totalBytes == s.totalBytes + newSize - SizeOf(Seen(s, id, now))
    ensures r.Ok? ==> r.value.lru == EnsureExists(s, id, now).lru
    ensures r.Ok? ==> SortedSet.SetsScore(s.byteRanks, r.value.byteRanks, id, newSize)
    ensures r.Ok? ==> r.value.byteRanks == SortedSet.Add(EnsureExists(s, id, now).byteRanks, id, newSize)
    ensures r.Ok? ==> r.value.maxBytes == s.maxBytes && r.value.configuredMax == s.configuredMax
  {
    var t := EnsureExists(s, id, now);
    var before :- StoredSize(Seen(s, id, now));
    SizeSet(s, id, newSize, now);
    Ok(t.(jobs := s.jobs[id := Seen(s, id, now)[Bytes := Int(newSize)]],
          byteRanks := SortedSet.Add(t.byteRanks, id, newSize),
          totalBytes := s.totalBytes + (newSize - before)))
  }

  /** Whether or not `ensure_exists` ranked the job already at size 0, the size ranking ends at `newSize`. */
  lemma SizeSet(s: Store, id: string, newSize: nat, now: int)
    ensures SortedSet.SetsScore(s.byteRanks, SortedSet.Add(EnsureExists(s, id, now).byteRanks, id, newSize), id, newSize)
  {
    if id !in s.jobs {
      var t := EnsureExists(s, id, now);
      SortedSet.SetsScoreTwice(s.byteRanks, t.byteRanks, SortedSet.Add(t.byteRanks, id, newSize), id, 0, newSize);
    }
  }

  /** The writes of `update_bytes` before garbage collection: the size pipeline, then `touch`. */
  function Resize(s: Store, id: string, newSize: nat, now: int): (r: Result<Store>)
    ensures r.Err? <==> StoredSize(Seen(s, id, now)).Err?
    ensures r.Err? ==> r.error == NotANumber && id in s.jobs
    ensures r.Ok? ==> r.value.jobs == s.jobs[id := Seen(s, id, now)[Bytes := Int(newSize)][LastUpdated := Int(now)]]
    ensures r.Ok? ==> r.value.totalBytes == s.totalBytes + newSize - SizeOf(Seen(s, id, now))
    ensures r.Ok? ==> SortedSet.SetsScore(s.lru, r.value.lru, id, now)
    ensures r.Ok? ==> SortedSet.SetsScore(s.byteRanks, r.value.byteRanks, id, newSize)
    ensures r.Ok? ==> r.value.maxBytes == s.maxBytes && r.value.configuredMax == s.configuredMax
  {
    var written :- WriteSize(s, id, newSize, now);
    TouchAfterWrite(s, id, newSize, now);
    Ok(Touch(written, id, now))
  }

  /** `touch` after the size pipeline: the stamp joins the new size, and the recency is set once more. */
  lemma TouchAfterWrite(s: Store, id: string, newSize: nat, now: int)
    requires WriteSize(s, id, newSize, now).Ok?
    ensures var r := Touch(WriteSize(s, id, newSize, now).value, id, now);
            && r.jobs == s.jobs[id := Seen(s, id, now)[Bytes := Int(newSize)][LastUpdated := Int(now)]]
            && SortedSet.SetsScore(s.lru, r.lru, id, now)
            && r.byteRanks == WriteSize(s, id, newSize, now).value.byteRanks
  {
    var written := WriteSize(s, id, newSize, now).value;
    TouchJobs(written, s.jobs, id, Seen(s, id, now)[Bytes := Int(newSize)], now);
    TouchLru(s, written, id, now);
  }

  lemma TouchJobs(written: Store, jobs: map<string, Record>, id: string, sized: Record, now: int)
    requires written.jobs == jobs[id := sized]
    ensures Touch(written, id, now).jobs == jobs[id := sized[LastUpdated := Int(now)]]
  {
    assert Seen(written, id, now) == sized;
  }

  lemma TouchLru(s: Store, written: Store, id: string, now: int)
    requires written.lru == EnsureExists(s, id, now).lru && id in written.jobs
    ensures SortedSet.SetsScore(s.lru, Touch(written, id, now).lru, id, now)
  {
    if id !in s.jobs {
      SortedSet.SetsScoreTwice(s.lru, written.lru, Touch(written, id, now).lru, id, now, now);
    }
  }

  /** A job that must not be evicted: inference running, or one of the listed uploads pending. */
  predicate Busy(rec: Record) {
    Field(rec, State) == Some(Text(Inferencing))
    || Field(rec, VideoUploadDone) == Some(Int(0))
    || Field(rec, OriginalUploadDone) == Some(Int(0))
    || Field(rec, SimulatedUploadDone) == Some(Int(0))
    || Field(rec, DefoliationUploadDone) == Some(Int(0))
  }

  /** `hgetall`: a job without a hash reads as the empty record. */
  function RecordOf(jobs: map<string, Record>, id: string): (rec: Record)
    ensures id in jobs ==> rec == jobs[id]
    ensures id !in jobs ==> rec == map[]
  {
    if id in jobs then jobs[id] else map[]
  }

  /** What one eviction decides. */
  datatype Choice =
    | NoCandidate
    | Intermediate(id: string)       // delete intermediate files, keep the record
    | Full(id: string, size: int)    // delete the whole entry
    | BadSize(id: string)            // `int(job.get("bytes", 0))` raised

  /** The loop of `_evict_one_safe_entry` over its candidates. */
  function Scan(jobs: map<string, Record>, candidates: seq<string>): (c: Choice)
    ensures c.NoCandidate? <==> forall i :: 0 <= i < |candidates| ==> Busy(RecordOf(jobs, candidates[i]))
    ensures !c.NoCandidate? ==>
              exists i :: 0 <= i < |candidates| && candidates[i] == c.id && !Busy(RecordOf(jobs, c.id))
                          && forall j :: 0 <= j < i ==> Busy(RecordOf(jobs, candidates[j]))
    ensures !c.NoCandidate? ==> (c.Intermediate? <==> Field(RecordOf(jobs, c.id), ResultsFetched) == Some(Int(0)))
    ensures c.Full? ==> EvictionSize(RecordOf(jobs, c.id)) == Ok(c.size)
    ensures c.BadSize? <==> !c.NoCandidate? && !c.Intermediate? && EvictionSize(RecordOf(jobs, c.id)).Err?
  {
    if candidates == [] then NoCandidate
    else
      var id := candidates[0];
      var job := RecordOf(jobs, id);
      if Busy(job) then
        var c := Scan(jobs, candidates[1..]);
        assert forall i :: 0 < i < |candidates| ==> candidates[i] == candidates[1..][i - 1];
        c
      else if Field(job, ResultsFetched) == Some(Int(0)) then Intermediate(id)
      else match EvictionSize(job)
        case Ok(size) => Full(id, size)
        case Err(_) => BadSize(id)
  }

  /** `_evict_one_safe_entry`: the decision for the eleven least recently used jobs. */
  function EvictOne(s: Store): (c: Choice)
    ensures !c.NoCandidate? ==>
              exists i :: 0 <= i < CandidateCount && i < |s.lru| && s.lru[i].member == c.id
                          && !Busy(RecordOf(s.jobs, c.id))
                          && forall j :: 0 <= j < i ==> Busy(RecordOf(s.jobs, s.lru[j].member))
    ensures c.NoCandidate? <==>
              forall i :: 0 <= i < CandidateCount && i < |s.lru| ==> Busy(RecordOf(s.jobs, s.lru[i].member))
    ensures !c.NoCandidate? ==> c.id in SortedSet.Members(s.lru)
  {
    var candidates := SortedSet.Lowest(s.lru, CandidateCount);
    var c := Scan(s.jobs, candidates);
    assert !c.NoCandidate? ==> c.id in SortedSet.Members(s.lru) by {
      if !c.NoCandidate? {
        var i :| 0 <= i < |candidates| && candidates[i] == c.id;
        assert s.lru[i].member == c.id;
      }
    }
    c
  }

  /** `_delete_full_entry`: drops the record and both ranks and takes `size` off the total. */
  function DeleteFullEntry(s: Store, id: string, size: int): (r: Store)
    ensures r.jobs == s.jobs - {id}
    ensures SortedSet.Members(r.lru) == SortedSet.Members(s.lru) - {id}
    ensures SortedSet.Members(r.byteRanks) == SortedSet.Members(s.byteRanks) - {id}
    ensures forall x :: x in r.lru <==> x in s.lru && x.member != id
    ensures forall x :: x in r.byteRanks <==> x in s.byteRanks && x.member != id
    ensures r.totalBytes == s.totalBytes - size
    ensures r.maxBytes == s.maxBytes && r.configuredMax == s.configuredMax
    ensures id in SortedSet.Members(s.lru) ==> |r.lru| < |s.lru|
  {
    s.(jobs := s.jobs - {id},
       lru := SortedSet.Remove(s.lru, id),
       byteRanks := SortedSet.Remove(s.byteRanks, id),
       totalBytes := s.totalBytes - size)
  }

  /** A deletion on the file system that eviction asks the backend for. */
  datatype Eviction =
    | IntermediateFiles(id: string)   // `backend.delete(entry_id=...)`
    | WholeEntry(id: string)          // `filesystem_backend.delete_all(...)`

  datatype Outcome =
    | Done                  // the loop ended: the total fits
    | Raised(error: Error)  // the loop raised
    | Stalled               // the loop would repeat the same intermediate deletion forever

  datatype GcRun = GcRun(store: Store, evictions: seq<Eviction>, outcome: Outcome)

  /**
   `run_gc`: evicts while the total exceeds the limit read at the start. An
   intermediate-only deletion changes no metadata, so the loop would choose the
   same job again forever; the model stops there with `Stalled`.
   */
  function RunGc(s: Store): (g: GcRun)
    decreases |s.lru|
    ensures g.store.maxBytes == s.maxBytes && g.store.configuredMax == s.configuredMax
    ensures g.outcome == Done <==> g.store.totalBytes <= g.store.maxBytes
    ensures forall id :: id in g.store.jobs ==> id in s.jobs && g.store.jobs[id] == s.jobs[id]
  {
    if s.totalBytes <= s.maxBytes then GcRun(s, [], Done)
    else match EvictOne(s)
      case NoCandidate => GcRun(s, [], Raised(CapacityExhausted))
      case BadSize(_) => GcRun(s, [], Raised(NotANumber))
      case Intermediate(id) => GcRun(s, [IntermediateFiles(id)], Stalled)
      case Full(id, size) =>
        var rest := RunGc(DeleteFullEntry(s, id, size));
        GcRun(rest.store, [WholeEntry(id)] + rest.evictions, rest.outcome)
  }

  /**
   Why `run_gc` stops short of the limit: with no evictable candidate it
   raises, with a size that does not parse it raises, and on a job whose
   results were not fetched it deletes intermediate files forever.
   */
  lemma {:induction false} GcStopsForCause(s: Store)
    decreases |s.lru|
    ensures var g := RunGc(s);
            var over := g.store.totalBytes > g.store.maxBytes;
            && (g.outcome.Raised? ==> g.outcome.error == CapacityExhausted || g.outcome.error == NotANumber)
            && (g.outcome == Raised(CapacityExhausted) <==> over && EvictOne(g.store).NoCandidate?)
            && (g.outcome == Raised(NotANumber) <==> over && EvictOne(g.store).BadSize?)
            && (g.outcome == Stalled <==> over && EvictOne(g.store).Intermediate?)
  {
    if s.totalBytes > s.maxBytes {
      var c := EvictOne(s);
      if c.Full? {
        GcStopsForCause(DeleteFullEntry(s, c.id, c.size));
      }
    }
  }

  /** Every job `run_gc` drops is logged as deleted in full. */
  lemma {:induction false} GcLogsDrops(s: Store)
    decreases |s.lru|
    ensures forall id :: id in s.jobs && id !in RunGc(s).store.jobs ==> WholeEntry(id) in RunGc(s).evictions
  {
    GcUnfold(s);
    if s.totalBytes > s.maxBytes && EvictOne(s).Full? {
      var c := EvictOne(s);
      GcLogsDrops(DeleteFullEntry(s, c.id, c.size));
    }
  }

  /** Every job `run_gc` logs as deleted in full is gone from the store it leaves. */
  lemma {:induction false} GcDropsLogged(s: Store)
    decreases |s.lru|
    ensures forall e :: e in RunGc(s).evictions && e.WholeEntry? ==> e.id !in RunGc(s).store.jobs
  {
    GcUnfold(s);
    if s.totalBytes > s.maxBytes && EvictOne(s).Full? {
      var c := EvictOne(s);
      GcDropsLogged(DeleteFullEntry(s, c.id, c.size));
    }
  }

  /** Every eviction of `run_gc` but the last deletes a whole entry. */
  lemma {:induction false} GcWholeUntilLast(s: Store)
    decreases |s.lru|
    ensures forall i :: 0 <= i < |RunGc(s).evictions| - 1 ==> RunGc(s).evictions[i].WholeEntry?
  {
    GcUnfold(s);
    if s.totalBytes > s.maxBytes && EvictOne(s).Full? {
      var c := EvictOne(s);
      var next := DeleteFullEntry(s, c.id, c.size);
      GcWholeUntilLast(next);
      WholeCons(c.id, RunGc(next).evictions);
    }
  }

  /** A whole-entry deletion in front keeps "all whole but the last". */
  lemma WholeCons(id: string, t: seq<Eviction>)
    requires forall i :: 0 <= i < |t| - 1 ==> t[i].WholeEntry?
    ensures var u := [WholeEntry(id)] + t;
            forall i :: 0 <= i < |u| - 1 ==> u[i].WholeEntry?
  {
    var u := [WholeEntry(id)] + t;
    forall i | 0 < i < |u| - 1 ensures u[i].WholeEntry? {
      assert u[i] == t[i - 1];
    }
  }

  /** One turn of `run_gc`'s loop, by what eviction decided. */
  lemma GcUnfold(s: Store)
    ensures s.totalBytes <= s.maxBytes ==> RunGc(s) == GcRun(s, [], Done)
    ensures s.totalBytes > s.maxBytes && EvictOne(s).NoCandidate? ==> RunGc(s) == GcRun(s, [], Raised(CapacityExhausted))
    ensures s.totalBytes > s.maxBytes && EvictOne(s).BadSize? ==> RunGc(s) == GcRun(s, [], Raised(NotANumber))
    ensures s.totalBytes > s.maxBytes && EvictOne(s).Intermediate? ==>
              RunGc(s) == GcRun(s, [IntermediateFiles(EvictOne(s).id)], Stalled)
    ensures s.totalBytes > s.maxBytes && EvictOne(s).Full? ==>
              var rest := RunGc(DeleteFullEntry(s, EvictOne(s).id, EvictOne(s).size));
              RunGc(s) == GcRun(rest.store, [WholeEntry(EvictOne(s).id)] + rest.evictions, rest.outcome)
  {
  }

  /** `run_gc` stalls exactly when its last eviction deleted intermediate files. */
  lemma {:induction false} GcStallsOnIntermediate(s: Store)
    decreases |s.lru|
    ensures var g := RunGc(s);
            g.outcome == Stalled <==> g.evictions != [] && g.evictions[|g.evictions| - 1].IntermediateFiles?
  {
    GcUnfold(s);
    if s.totalBytes > s.maxBytes && EvictOne(s).Full? {
      var c := EvictOne(s);
      var next := DeleteFullEntry(s, c.id, c.size);
      GcStallsOnIntermediate(next);
      LastOfCons(WholeEntry(c.id), RunGc(next).evictions);
    }
  }

  /** The last element of a sequence with one more element in front. */
  lemma LastOfCons<T>(x: T, t: seq<T>)
    ensures ([x] + t)[|[x] + t| - 1] == if t == [] then x else t[|t| - 1]
  {
  }

  /** When `run_gc` stalls, eviction would pick the job of its last eviction again. */
  lemma {:induction false} GcStallRepeats(s: Store)
    decreases |s.lru|
    ensures var g := RunGc(s);
            g.outcome == Stalled ==> g.evictions != [] && EvictOne(g.store) == Intermediate(g.evictions[|g.evictions| - 1].id)
  {
    GcUnfold(s);
    if s.totalBytes > s.maxBytes && EvictOne(s).Full? {
      var c := EvictOne(s);
      var next := DeleteFullEntry(s, c.id, c.size);
      GcStallRepeats(next);
      LastOfCons(WholeEntry(c.id), RunGc(next).evictions);
    }
  }

  /**
   `update_bytes`: records the recomputed size, touches the job and collects
   garbage. `newSize` stands for the backend's size computation.
   */
  function UpdateBytes(s: Store, id: string, newSize: nat, now: int): (r: Result<GcRun>)
    ensures r.Err? <==> Resize(s, id, newSize, now).Err?
    ensures r.Err? ==> r.error == NotANumber
    ensures r.Ok? ==> r.value == RunGc(Resize(s, id, newSize, now).value)
    ensures r.Ok? && r.value.outcome == Done ==> r.value.store.totalBytes <= s.maxBytes
  {
    var resized :- Resize(s, id, newSize, now);
    Ok(RunGc(resized))
  }

  /** `reset`: forgets every job and both sets, zeroes the total and restores the configured limit. */
  function Reset(s: Store): (r: Store)
    ensures r.jobs == map[] && r.lru == [] && r.byteRanks == []
    ensures r.totalBytes == 0 && r.maxBytes == s.configuredMax && r.configuredMax == s.configuredMax
  {
    Store(map[], [], [], 0, s.configuredMax, s.configuredMax)
  }
}
