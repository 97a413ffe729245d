/**
 The bookkeeping the metadata store promises: `cache:total_bytes` equals the
 sum of the jobs' `bytes`, and both sorted sets rank exactly the jobs that
 have a record. Which operations keep each promise, and the one that breaks it.
 */
module Accounting {
  import opened Common
  import opened JobSchema
  import SortedSet
  import opened MetaStore

  /** The size `jobs` holds for `id`, 0 when there is no record. */
  function Part(jobs: map<string, Record>, id: string): (n: int)
    ensures n == SizeOf(RecordOf(jobs, id))
  {
    if id in jobs then SizeOf(jobs[id]) else 0
  }

  /** The sizes of the jobs named in `keys`. */
  ghost function SumOver(jobs: map<string, Record>, keys: set<string>): int
    decreases keys
  {
    if keys == {} then 0
    else
      var k :| k in keys;
      Part(jobs, k) + SumOver(jobs, keys - {k})
  }

  /** Σ `bytes` over every job record. */
  ghost function SumBytes(jobs: map<string, Record>): int {
    SumOver(jobs, jobs.Keys)
  }

  /** Any key of the set can be taken out first. */
  lemma {:induction false} SumOverRemove(jobs: map<string, Record>, keys: set<string>, k: string)
    requires k in keys
    ensures SumOver(jobs, keys) == Part(jobs, k) + SumOver(jobs, keys - {k})
    decreases keys
  {
    var j :| j in keys && SumOver(jobs, keys) == Part(jobs, j) + SumOver(jobs, keys - {j});
    if j != k {
      SumOverRemove(jobs, keys - {j}, k);
      SumOverRemove(jobs, keys - {k}, j);
      assert keys - {j} - {k} == keys - {k} - {j};
    }
  }

  /** Two record maps whose parts agree on `keys` have the same sum over them. */
  lemma {:induction false} SumOverFrame(a: map<string, Record>, b: map<string, Record>, keys: set<string>)
    requires forall k :: k in keys ==> Part(a, k) == Part(b, k)
    ensures SumOver(a, keys) == SumOver(b, keys)
    decreases keys
  {
    if keys != {} {
      var j :| j in keys;
      SumOverRemove(a, keys, j);
      SumOverRemove(b, keys, j);
      SumOverFrame(a, b, keys - {j});
    }
  }

  /** Writing a record changes the sum by the size it replaces and the size it brings. */
  lemma SumUpdate(jobs: map<string, Record>, id: string, rec: Record)
    ensures SumBytes(jobs[id := rec]) == SumBytes(jobs) - Part(jobs, id) + SizeOf(rec)
  {
    var after := jobs[id := rec];
    SumOverRemove(after, after.Keys, id);
    SumOverFrame(after, jobs, after.Keys - {id});
    if id in jobs {
      SumOverRemove(jobs, jobs.Keys, id);
      assert after.Keys - {id} == jobs.Keys - {id};
    } else {
      assert after.Keys - {id} == jobs.Keys;
    }
  }

  /** Dropping a record takes its size off the sum. */
  lemma SumDelete(jobs: map<string, Record>, id: string)
    ensures SumBytes(jobs - {id}) == SumBytes(jobs) - Part(jobs, id)
  {
    var after := jobs - {id};
    SumOverFrame(after, jobs, after.Keys);
    if id in jobs {
      SumOverRemove(jobs, jobs.Keys, id);
      assert after.Keys == jobs.Keys - {id};
    } else {
      assert after.Keys == jobs.Keys;
    }
  }

  /** `cache:total_bytes` is the sum of the jobs' sizes. */
  ghost predicate Accounted(s: Store) {
    s.totalBytes == SumBytes(s.jobs)
  }

  /** Both sorted sets are well formed and rank exactly the jobs with a record. */
  ghost predicate Tracked(s: Store) {
    && SortedSet.Valid(s.lru) && SortedSet.Valid(s.byteRanks)
    && SortedSet.Members(s.lru) == s.jobs.Keys
    && SortedSet.Members(s.byteRanks) == s.jobs.Keys
  }

  lemma OpenAccounted(configuredMax: int)
    ensures Accounted(Open(None, configuredMax)) && Tracked(Open(None, configuredMax))
  {
  }

  lemma ResetAccounted(s: Store)
    ensures Accounted(Reset(s)) && Tracked(Reset(s))
  {
  }

  /** A new job's record accounts for no bytes. */
  lemma InitEntryKeeps(s: Store, id: string, now: int)
    ensures Accounted(s) ==> Accounted(InitEntry(s, id, now))
    ensures Tracked(s) ==> Tracked(InitEntry(s, id, now))
  {
    if id !in s.jobs {
      SumUpdate(s.jobs, id, DefaultRecord(now));
      if Tracked(s) {
        RanksAfterInit(s, id, now);
      }
    }
  }

  lemma RanksAfterInit(s: Store, id: string, now: int)
    requires id !in s.jobs && Tracked(s)
    ensures Tracked(InitEntry(s, id, now))
  {
    SortedSet.AddValid(s.lru, id, now);
    SortedSet.AddValid(s.byteRanks, id, 0);
  }

  lemma TouchKeeps(s: Store, id: string, now: int)
    ensures Accounted(s) ==> Accounted(Touch(s, id, now))
    ensures Tracked(s) ==> Tracked(Touch(s, id, now))
  {
    TouchKeepsSum(s, id, now);
    TouchKeepsRanks(s, id, now);
  }

  lemma TouchKeepsSum(s: Store, id: string, now: int)
    ensures Accounted(s) ==> Accounted(Touch(s, id, now))
  {
    var rec := Seen(s, id, now)[LastUpdated := Int(now)];
    SumUpdate(s.jobs, id, rec);
    assert SizeOf(rec) == Part(s.jobs, id);
  }

  lemma TouchKeepsRanks(s: Store, id: string, now: int)
    ensures Tracked(s) ==> Tracked(Touch(s, id, now))
  {
    var t := EnsureExists(s, id, now);
    InitEntryKeeps(s, id, now);
    if SortedSet.Valid(t.lru) { SortedSet.AddValid(t.lru, id, now); }
    assert Touch(s, id, now).jobs.Keys == t.jobs.Keys;
  }

  /** `update_field` of any field but `bytes` keeps both promises. */
  lemma UpdateFieldKeeps(s: Store, id: string, field: string, val: Cell, now: int)
    requires field != Bytes && IsSchemaField(field)
    ensures Accounted(s) ==> Accounted(UpdateField(s, id, field, val, now).value)
    ensures Tracked(s) ==> Tracked(UpdateField(s, id, field, val, now).value)
  {
    var t := EnsureExists(s, id, now);
    var written := t.(jobs := t.jobs[id := t.jobs[id][field := val]]);
    assert UpdateField(s, id, field, val, now).value == Touch(written, id, now);
    InitEntryKeeps(s, id, now);
    TouchKeeps(written, id, now);
    if Accounted(s) {
      SumUpdate(t.jobs, id, t.jobs[id][field := val]);
      assert SizeOf(t.jobs[id][field := val]) == SizeOf(t.jobs[id]);
    }
    assert Tracked(t) ==> Tracked(written) by {
      assert written.jobs.Keys == t.jobs.Keys;
    }
  }

  /**
   `update_field` accepts `bytes`, a schema field, and writes it without
   moving the total: setting a fresh job's size to 1 leaves the total at 0.
   */
  lemma UpdateFieldBreaksTotal(id: string, now: int)
    ensures var s := Open(None, 0);
            var r := UpdateField(s, id, Bytes, Int(1), now);
            Accounted(s) && r.Ok? && !Accounted(r.value)
  {
    var s := Open(None, 0);
    var r := UpdateField(s, id, Bytes, Int(1), now).value;
    assert r.jobs == map[id := DefaultRecord(now)[Bytes := Int(1)][LastUpdated := Int(now)]];
    SumUpdate(map[], id, DefaultRecord(now)[Bytes := Int(1)][LastUpdated := Int(now)]);
  }

  /** The size pipeline of `update_bytes` moves the total by exactly new − old. */
  lemma WriteSizeKeeps(s: Store, id: string, newSize: nat, now: int)
    requires WriteSize(s, id, newSize, now).Ok?
    ensures Accounted(s) ==> Accounted(WriteSize(s, id, newSize, now).value)
    ensures Tracked(s) ==> Tracked(WriteSize(s, id, newSize, now).value)
  {
    WriteSizeKeepsSum(s, id, newSize, now);
    WriteSizeKeepsRanks(s, id, newSize, now);
  }

  lemma WriteSizeKeepsSum(s: Store, id: string, newSize: nat, now: int)
    requires WriteSize(s, id, newSize, now).Ok?
    ensures Accounted(s) ==> Accounted(WriteSize(s, id, newSize, now).value)
  {
    SumUpdate(s.jobs, id, Seen(s, id, now)[Bytes := Int(newSize)]);
    assert SizeOf(Seen(s, id, now)) == Part(s.jobs, id);
  }

  lemma WriteSizeKeepsRanks(s: Store, id: string, newSize: nat, now: int)
    requires WriteSize(s, id, newSize, now).Ok?
    ensures Tracked(s) ==> Tracked(WriteSize(s, id, newSize, now).value)
  {
    if Tracked(s) {
      RanksAfterWrite(s, id, newSize, now);
    }
  }

  lemma RanksAfterWrite(s: Store, id: string, newSize: nat, now: int)
    requires WriteSize(s, id, newSize, now).Ok? && Tracked(s)
    ensures Tracked(WriteSize(s, id, newSize, now).value)
  {
    var t := EnsureExists(s, id, now);
    var w := WriteSize(s, id, newSize, now).value;
    if id !in s.jobs {
      RanksAfterInit(s, id, now);
    }
    assert t.jobs.Keys == s.jobs.Keys + {id};
    assert w.jobs.Keys == s.jobs.Keys + {id};
    RanksAfterSizing(t, w, id, newSize);
  }

  /** Re-ranking a job that already has a record keeps the rankings tracked. */
  lemma RanksAfterSizing(t: Store, w: Store, id: string, newSize: nat)
    requires Tracked(t) && id in t.jobs
    requires w.jobs.Keys == t.jobs.Keys && w.lru == t.lru && w.byteRanks == SortedSet.Add(t.byteRanks, id, newSize)
    ensures Tracked(w)
  {
    SortedSet.AddValid(t.byteRanks, id, newSize);
  }

  /** The writes of `update_bytes` before garbage collection keep both promises. */
  lemma ResizeKeeps(s: Store, id: string, newSize: nat, now: int)
    requires StoredSize(Seen(s, id, now)).Ok?
    ensures Accounted(s) ==> Accounted(Resize(s, id, newSize, now).value)
    ensures Tracked(s) ==> Tracked(Resize(s, id, newSize, now).value)
  {
    var w := WriteSize(s, id, newSize, now).value;
    assert Resize(s, id, newSize, now).value == Touch(w, id, now);
    WriteSizeKeeps(s, id, newSize, now);
    TouchKeeps(w, id, now);
  }

  /** `_delete_full_entry` with the record's own size keeps both promises. */
  lemma DeleteFullEntryKeeps(s: Store, id: string)
    ensures Accounted(s) ==> Accounted(DeleteFullEntry(s, id, SizeOf(RecordOf(s.jobs, id))))
    ensures Tracked(s) ==> Tracked(DeleteFullEntry(s, id, SizeOf(RecordOf(s.jobs, id))))
  {
    SumDelete(s.jobs, id);
    if SortedSet.Valid(s.lru) { SortedSet.RemoveValid(s.lru, id); }
    if SortedSet.Valid(s.byteRanks) { SortedSet.RemoveValid(s.byteRanks, id); }
  }

  /** A full eviction takes off exactly the evicted record's size. */
  lemma FullEvictionSize(s: Store)
    requires EvictOne(s).Full?
    ensures EvictOne(s).size == SizeOf(RecordOf(s.jobs, EvictOne(s).id))
  {
  }

  /** `run_gc` keeps both promises, whatever its outcome. */
  lemma {:induction false} RunGcKeeps(s: Store)
    decreases |s.lru|
    ensures Accounted(s) ==> Accounted(RunGc(s).store)
    ensures Tracked(s) ==> Tracked(RunGc(s).store)
  {
    if s.totalBytes > s.maxBytes {
      var c := EvictOne(s);
      if c.Full? {
        FullEvictionSize(s);
        DeleteFullEntryKeeps(s, c.id);
        RunGcKeeps(DeleteFullEntry(s, c.id, c.size));
      }
    }
  }

  /** `update_bytes` keeps both promises whenever it gets as far as garbage collection. */
  lemma UpdateBytesKeeps(s: Store, id: string, newSize: nat, now: int)
    requires StoredSize(Seen(s, id, now)).Ok?
    ensures Accounted(s) ==> Accounted(UpdateBytes(s, id, newSize, now).value.store)
    ensures Tracked(s) ==> Tracked(UpdateBytes(s, id, newSize, now).value.store)
  {
    ResizeKeeps(s, id, newSize, now);
    RunGcKeeps(Resize(s, id, newSize, now).value);
  }

  /** A record holding only schema fields and timestamps, with a numeric size. */
  predicate ShapedRecord(rec: Record) {
    && (forall f :: f in rec ==> IsSchemaField(f) || f == CreatedAt || f == LastUpdated)
    && (Bytes in rec ==> rec[Bytes].Int?)
  }

  /** Every record of the store is shaped by the schema. */
  ghost predicate Shaped(s: Store) {
    forall id :: id in s.jobs ==> ShapedRecord(s.jobs[id])
  }

  /**
   The fields the eviction rule reads are none of the schema's: a shaped
   record is never busy, never awaits its results, and has a readable size.
   */
  lemma ShapedRecordIdle(rec: Record)
    requires ShapedRecord(rec)
    ensures !Busy(rec) && Field(rec, ResultsFetched) == None
    ensures EvictionSize(rec) == Ok(SizeOf(rec))
  {
    assert State !in rec && ResultsFetched !in rec;
    assert VideoUploadDone !in rec && OriginalUploadDone !in rec;
    assert SimulatedUploadDone !in rec && DefoliationUploadDone !in rec;
  }

  lemma InitEntryShaped(s: Store, id: string, now: int)
    requires Shaped(s)
    ensures Shaped(InitEntry(s, id, now))
  {
  }

  lemma TouchShaped(s: Store, id: string, now: int)
    requires Shaped(s)
    ensures Shaped(Touch(s, id, now))
  {
    SeenShaped(s, id, now);
    ShapedStamp(Seen(s, id, now), LastUpdated, Int(now));
    ShapedPut(s, Touch(s, id, now), id, Seen(s, id, now)[LastUpdated := Int(now)]);
  }

  /** `update_field` keeps records shaped unless it writes text into `bytes`. */
  lemma UpdateFieldShaped(s: Store, id: string, field: string, val: Cell, now: int)
    requires Shaped(s) && UpdateField(s, id, field, val, now).Ok?
    requires field == Bytes ==> val.Int?
    ensures Shaped(UpdateField(s, id, field, val, now).value)
  {
    var rec := Seen(s, id, now)[field := val];
    SeenShaped(s, id, now);
    ShapedStamp(Seen(s, id, now), field, val);
    ShapedStamp(rec, LastUpdated, Int(now));
    ShapedPut(s, UpdateField(s, id, field, val, now).value, id, rec[LastUpdated := Int(now)]);
  }

  lemma ResizeShaped(s: Store, id: string, newSize: nat, now: int)
    requires Shaped(s) && Resize(s, id, newSize, now).Ok?
    ensures Shaped(Resize(s, id, newSize, now).value)
  {
    var rec := Seen(s, id, now)[Bytes := Int(newSize)];
    SeenShaped(s, id, now);
    ShapedStamp(Seen(s, id, now), Bytes, Int(newSize));
    ShapedStamp(rec, LastUpdated, Int(now));
    ShapedPut(s, Resize(s, id, newSize, now).value, id, rec[LastUpdated := Int(now)]);
  }

  /** The record `ensure_exists` leaves is shaped: the stored one, or the defaults. */
  lemma SeenShaped(s: Store, id: string, now: int)
    requires Shaped(s)
    ensures ShapedRecord(Seen(s, id, now))
  {
  }

  /** Writing a schema field or a timestamp keeps a record shaped, as long as a size stays a number. */
  lemma ShapedStamp(rec: Record, field: string, val: Cell)
    requires ShapedRecord(rec)
    requires IsSchemaField(field) || field == CreatedAt || field == LastUpdated
    requires field == Bytes ==> val.Int?
    ensures ShapedRecord(rec[field := val])
  {
  }

  /** Replacing one record by a shaped one keeps the store shaped. */
  lemma ShapedPut(s: Store, t: Store, id: string, rec: Record)
    requires Shaped(s) && ShapedRecord(rec) && t.jobs == s.jobs[id := rec]
    ensures Shaped(t)
  {
  }

  /** On a shaped, tracked store, eviction deletes the least recently used job in full. */
  lemma ShapedEvictsLru(s: Store)
    requires Tracked(s) && Shaped(s) && s.lru != []
    ensures s.lru[0].member in s.jobs
    ensures EvictOne(s) == Full(s.lru[0].member, SizeOf(s.jobs[s.lru[0].member]))
  {
    var m := s.lru[0].member;
    assert m in SortedSet.Members(s.lru);
    ShapedRecordIdle(s.jobs[m]);
    var candidates := SortedSet.Lowest(s.lru, CandidateCount);
    assert candidates[0] == m;
  }

  /** The bookkeeping and shape `run_gc` relies on. */
  ghost predicate Sound(s: Store) {
    Accounted(s) && Tracked(s) && Shaped(s)
  }

  /** A store over a non-negative budget holds some job, so its recency set is not empty. */
  lemma OverBudgetHasJobs(s: Store)
    requires Accounted(s) && Tracked(s) && s.maxBytes >= 0 && s.totalBytes > s.maxBytes
    ensures s.lru != [] && s.lru[0].member in s.jobs
  {
    assert s.jobs != map[];
    var id :| id in s.jobs;
    assert id in SortedSet.Members(s.lru);
    assert s.lru[0].member in SortedSet.Members(s.lru);
  }

  lemma DeleteShaped(s: Store, id: string, size: int)
    requires Shaped(s)
    ensures Shaped(DeleteFullEntry(s, id, size))
  {
  }

  /** One step of `run_gc` over budget on a sound store: the least recently used job goes. */
  lemma ShapedGcStep(s: Store)
    requires Sound(s) && s.maxBytes >= 0 && s.totalBytes > s.maxBytes
    ensures s.lru != [] && s.lru[0].member in s.jobs
    ensures var m := s.lru[0].member;
            var next := DeleteFullEntry(s, m, SizeOf(s.jobs[m]));
            && Sound(next) && next.lru == s.lru[1..] && next.maxBytes == s.maxBytes
            && RunGc(s) == GcRun(RunGc(next).store, [WholeEntry(m)] + RunGc(next).evictions, RunGc(next).outcome)
  {
    OverBudgetHasJobs(s);
    ShapedEvictsLru(s);
    var m := s.lru[0].member;
    DeleteFullEntryKeeps(s, m);
    DeleteShaped(s, m, SizeOf(s.jobs[m]));
    SortedSet.RemoveFirst(s.lru);
    GcUnfold(s);
  }

  /** On a sound store `run_gc` with a non-negative limit always completes. */
  lemma {:induction false} GcCompletesWhenShaped(s: Store)
    requires Sound(s) && s.maxBytes >= 0
    decreases |s.lru|
    ensures RunGc(s).outcome == Done
  {
    if s.totalBytes > s.maxBytes {
      ShapedGcStep(s);
      var m := s.lru[0].member;
      GcCompletesWhenShaped(DeleteFullEntry(s, m, SizeOf(s.jobs[m])));
    }
  }

  /** On a sound store `run_gc` deletes whole jobs, least recently used first. */
  lemma {:induction false} GcEvictsInLruOrder(s: Store)
    requires Sound(s) && s.maxBytes >= 0
    decreases |s.lru|
    ensures |RunGc(s).evictions| <= |s.lru|
    ensures forall i :: 0 <= i < |RunGc(s).evictions| ==> RunGc(s).evictions[i] == WholeEntry(s.lru[i].member)
  {
    GcUnfold(s);
    if s.totalBytes > s.maxBytes {
      ShapedGcStep(s);
      var m := s.lru[0].member;
      var next := DeleteFullEntry(s, m, SizeOf(s.jobs[m]));
      GcEvictsInLruOrder(next);
      InLruOrderCons(s.lru, RunGc(next).evictions);
    }
  }

  /** Deleting the first job in front of deletions that follow the rest of the order follows the order. */
  lemma InLruOrderCons(lru: seq<SortedSet.Ranked>, t: seq<Eviction>)
    requires lru != [] && |t| <= |lru| - 1
    requires forall i :: 0 <= i < |t| ==> t[i] == WholeEntry(lru[1..][i].member)
    ensures var u := [WholeEntry(lru[0].member)] + t;
            |u| <= |lru| && forall i :: 0 <= i < |u| ==> u[i] == WholeEntry(lru[i].member)
  {
    var u := [WholeEntry(lru[0].member)] + t;
    forall i | 0 < i < |u| ensures u[i] == WholeEntry(lru[i].member) {
      assert u[i] == t[i - 1];
      assert lru[1..][i - 1] == lru[i];
    }
  }
}
