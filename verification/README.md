# LeafScan node-local cache and job bookkeeping, in Dafny

LeafScan-Server runs a three-stage leaf analysis for each uploaded job:
- the original leaf area, computed by an ML model from leaf count and widths;
- the simulated area, computed by a video scanner from the video and a length;
- the defoliation percentage, computed from the two areas.

This project models the part of the server that holds these stages together:

- **Stage-artifact cache** (`CacheService`). Each (video, step) pair has one JSON document: a status, the step's parameters and its results. `sanitize` projects a document onto the keys `CACHE_SCHEMA` declares. `update` is the mutation that invalidates results when a parameter changes.
- **Job metadata store** (`MetaStore`, `Accounting`, `SortedSet`, `JobSchema`). Redis holds, per job, a hash of flags created from `JOB_SCHEMA`. Beside it are two sorted sets (recency and size), a byte total and a byte budget. `update_bytes` keeps the total and then runs eviction (`run_gc`). Eviction walks the eleven least recently used jobs and either deletes a job's intermediate files or deletes the whole entry.
- **Dependency resolver** (`Dependencies`, `Inputs`). `check_dependencies` walks the static requirement graph over flag names. It reports missing raw inputs and schedules derived stages that can run. `routes_to_rerun` maps the missing inputs to the upload routes a client must repeat.
- **Artifact registry and storage mapping** (`Artifacts`, `FsCache`, `PermanentStore`). File names are classified by glob pattern. A cache key becomes a file name with `:` replaced by `_`. The durable store keeps `{key}.bin` and `{key}.meta.json`.
- **Stage runners and upload** (`StageRun`, `OriginalInference`, `SimulatedInference`, `DefoliationInference`, `Upload`). Each runner is a small status machine: waiting, completed, recompute, failed. The upload is a bounded retry loop that sets the artifact's upload flag on success.

The model is functional. Every store is an immutable value threaded through pure functions. Each operation takes the clock reading it uses (`now`). Collaborators are parameters of the operations that call them: the ML model, the video scanner, the defoliation formula, `float()`, the transport, the digest, `dependencies_ready`, `finalize_job_if_complete` and the backend's size computation. A Python exception is an `Err` of the `Error` datatype in `common.dfy`.

Some of what the code does may surprise a reader, and the model keeps it:
- `load` returns the stored document without sanitizing it (core/cache.py:45-51).
- `save` only stamps and writes the document. It does not recompute bytes and does not schedule uploads.
- `update` touches no metadata flags and cascades nothing. It returns the sanitized document even when nothing changed.
- `reset` wipes all metadata and restores the configured limit. It does not reset one job.
- The requirement graph is over the flags `in_params`, `in_video` and the output flags, not over the individual parameters.
- The eviction safety rule reads `state`, the four `*_upload_done` fields and `results_fetched`. `JOB_SCHEMA` never writes any of these fields, and they are not its `up_*` flags.
- The upload never compares the server's checksum with the local one.

## Model

| member | source | states |
|---|---|---|
| CacheService.Load | LeafScanApp/core/cache.py:45-51 | A step that was never stored loads as a fresh waiting document with empty params and results. A stored one loads exactly as the backend holds it. |
| CacheService.Save | LeafScanApp/core/cache.py:53-59 | Save stamps `last_updated` with the clock reading and writes under the key `video:step`. Loading that step afterwards returns the stamped document. It fails exactly when the backend write fails. |
| CacheService.Sanitize | LeafScanApp/core/cache.py:61-74 | An unknown step raises. Otherwise the params keys are exactly the declared params and the results keys exactly the declared results. A present value is kept, an absent one becomes null, extra keys are dropped, and the status and timestamp are kept. |
| CacheService.SanitizeIdempotent | LeafScanApp/core/cache.py:61-74 | Sanitizing a sanitized document gives it back unchanged. |
| CacheService.Changes | LeafScanApp/core/cache.py:84-88 | The changed set holds exactly the declared params present in the new values whose value differs from the current one, each with its new value. |
| CacheService.Update | LeafScanApp/core/cache.py:76-101 | An unknown step raises. Every declared param given in the new values ends up holding it, and every declared param not given keeps its sanitized stored value. A save happens iff some declared param changes. With no change, the backend is kept and the sanitized loaded document is returned. With a change, results become empty, the status is ready iff every declared param is non-null (else waiting), and the saved document reads back. |
| CacheService.UpdateIgnoresUndeclared | LeafScanApp/core/cache.py:84-88 | Update with the new values gives the same outcome as update with only their declared keys. |
| CacheService.UpdateUnchanged | LeafScanApp/core/cache.py:83-90 | When every declared param in the new values equals the stored (sanitized) one, update saves nothing, leaves the backend as it was and returns the sanitized document. |
| CacheService.UpdateReloads | LeafScanApp/core/cache.py:45-51 | After a successful update, loading and sanitizing the step gives back the params and status the update returned. |
| CacheService.UpdateTwice | LeafScanApp/core/cache.py:76-101 | Repeating a successful update saves nothing the second time, keeps the backend, and finds the same params and status. |
| CacheService.SaveKeepsOtherSteps | LeafScanApp/core/cache.py:39-40 | Saving one step's document leaves what every other step of the same video loads unchanged: the step keys never share a file. |
| CacheService.UpdateKeepsOtherSteps | LeafScanApp/core/cache.py:90-99 | Updating one step leaves what every other step of the same video loads unchanged. |
| CacheService.StepsDoNotAlias | LeafScanApp/core/cache.py:6-19 | The keys of two different declared steps of one video never map to the same file name. |
| FsCache.FileName | LeafScanApp/storage/filesystem_cache.py:10-12 | The file name of a key has the key's length and contains no `:`. |
| FsCache.ColonAndUnderscoreAlias | LeafScanApp/storage/filesystem_cache.py:10-12 | Two different keys that differ by `:` against `_` map to the same file. |
| FsCache.Put | LeafScanApp/storage/filesystem_cache.py:14-16 | For a flat key, put writes the data under the key's file name and changes nothing else. It fails exactly on a directory. |
| FsCache.Get | LeafScanApp/storage/filesystem_cache.py:18-20 | Get returns a file's content. An absent path raises not-found, and a directory raises. |
| FsCache.Delete | LeafScanApp/storage/filesystem_cache.py:25-28 | Delete unlinks the key's file. An absent key changes nothing and raises nothing. A directory raises. |
| FsCache.Clear | LeafScanApp/storage/filesystem_cache.py:30-33 | In a flat directory, clear leaves exactly the sub-directories and removes every regular file. |
| FsCache.PutGet | LeafScanApp/storage/filesystem_cache.py:14-23 | Get after put returns the data put, exists is then true, and a second put overwrites the first. |
| FsCache.DeleteThenAbsent | LeafScanApp/storage/filesystem_cache.py:22-28 | After a delete, the key neither exists nor reads back. |
| FsCache.Frame | LeafScanApp/storage/filesystem_cache.py:14-28 | Among flat keys, put or delete of one key leaves every key that does not alias it unchanged. |
| FsCache.AliasShares | LeafScanApp/storage/filesystem_cache.py:10-20 | Data put under one key reads back under every aliasing key. |
| FsCache.ClearEmpties | LeafScanApp/storage/filesystem_cache.py:30-33 | After clear, no flat key reads back a value. |
| PermanentStore.Put | LeafScanApp/storage/filesystem_store.py:17-22 | For a flat key, the data file is written. The metadata file is written only for non-empty metadata, and otherwise left as it was. |
| PermanentStore.Get | LeafScanApp/storage/filesystem_store.py:24-25 | Get reads the data file and raises not-found when it is absent. |
| PermanentStore.NamesDisjoint | LeafScanApp/storage/filesystem_store.py:11-15 | No data file name ever equals a metadata file name. |
| PermanentStore.PutGet | LeafScanApp/storage/filesystem_store.py:17-28 | Get after put returns the data, whether or not metadata was given, and the key then exists. |
| PermanentStore.FalsyMetadataKeepsOld | LeafScanApp/storage/filesystem_store.py:21-22 | A put without metadata keeps an earlier metadata file untouched. |
| PermanentStore.ExistsIgnoresMetadata | LeafScanApp/storage/filesystem_store.py:27-28 | Exists depends only on the data file. |
| PermanentStore.PutFrame | LeafScanApp/storage/filesystem_store.py:17-28 | Among flat keys, a put of one key leaves the data and existence of every other key unchanged. |
| JobSchema.DefaultValues | LeafScanApp/storage/JobSchema.py:24-46 | Every input, output and upload flag defaults to 0. `defoliation_result` defaults to the sentinel -1 and `bytes` to 0. |
| JobSchema.SchemaShape | LeafScanApp/storage/JobSchema.py:24-46 | The schema has exactly eleven keys: two inputs, three outputs, four uploads, the result and the size. |
| JobSchema.TimestampsNotInSchema | LeafScanApp/storage/JobSchema.py:18-20 | `created_at` and `last_updated` are declared names but not schema keys. |
| SortedSet.Add | LeafScanApp/storage/CacheMetaStore.py:56-57 | ZADD leaves the member at the given score and every other entry as it was. |
| SortedSet.AddValid | LeafScanApp/storage/CacheMetaStore.py:84 | ZADD keeps the set ordered by score then member, each member once. |
| SortedSet.AddScores | LeafScanApp/storage/CacheMetaStore.py:106 | After ZADD the member reads its new score and every other member its old one. |
| SortedSet.Remove | LeafScanApp/storage/CacheMetaStore.py:169-170 | ZREM drops exactly the member's entries and keeps the rest. |
| SortedSet.RemoveValid | LeafScanApp/storage/CacheMetaStore.py:169-170 | ZREM keeps the set ordered with unique members. |
| SortedSet.InsertValid | LeafScanApp/storage/CacheMetaStore.py:56-57 | Inserting a new member at its position keeps the set ordered with unique members. |
| SortedSet.Lowest | LeafScanApp/storage/CacheMetaStore.py:131 | ZRANGE 0..n-1 gives the first n members in rank order, or all of them when fewer. |
| MetaStore.Open | LeafScanApp/storage/CacheMetaStore.py:31-38 | A new Redis starts empty with total 0 and the configured limit. Existing counters and jobs are kept, and only the instance's configured limit is new. |
| MetaStore.InitEntry | LeafScanApp/storage/CacheMetaStore.py:44-58 | An existing job changes nothing. A new job gets the schema defaults stamped with `now` for both timestamps, recency `now` and size rank 0. The counters are unchanged. |
| MetaStore.EnsureExists | LeafScanApp/storage/CacheMetaStore.py:60-63 | Afterwards the job exists, exactly as init_entry would leave it. |
| MetaStore.GetField | LeafScanApp/storage/CacheMetaStore.py:65-68 | The job is created if needed. The value read is the stored field of an existing job, or the default record's field of a new one. |
| MetaStore.Touch | LeafScanApp/storage/CacheMetaStore.py:74-85 | Only `last_updated` becomes `now`, the recency score becomes `now`, and the size ranks and counters are unchanged. |
| MetaStore.UpdateField | LeafScanApp/storage/CacheMetaStore.py:87-93 | A non-schema field raises and changes nothing. Otherwise the field, `last_updated` and the recency change, and nothing else. |
| MetaStore.WriteSize | LeafScanApp/storage/CacheMetaStore.py:97-108 | The job's bytes become the new size, its size rank follows, and the total moves by exactly new minus old. A stored size that does not parse raises before any write. |
| MetaStore.Resize | LeafScanApp/storage/CacheMetaStore.py:95-110 | The size write followed by touch: bytes, `last_updated`, both ranks and the total change as described, and the limits stay. |
| MetaStore.StoredSize | LeafScanApp/storage/CacheMetaStore.py:101 | `int(hget or 0)` raises exactly on non-empty text. |
| MetaStore.EvictionSize | LeafScanApp/storage/CacheMetaStore.py:156 | `int(job.get("bytes", 0))` raises exactly on text. |
| MetaStore.SizeOf | LeafScanApp/storage/CacheMetaStore.py:101 | The size a record accounts for agrees with both readings of `bytes` whenever they succeed. |
| MetaStore.Scan | LeafScanApp/storage/CacheMetaStore.py:133-160 | No choice iff every candidate is busy. Otherwise the choice is the first candidate that is not busy: intermediate iff `results_fetched` reads 0, full with its parsed size, or a raise when the size does not parse. |
| MetaStore.EvictOne | LeafScanApp/storage/CacheMetaStore.py:129-160 | The chosen job is among the eleven lowest-ranked by recency, every job ranked before it is busy, and nothing is chosen iff all eleven are busy. |
| MetaStore.DeleteFullEntry | LeafScanApp/storage/CacheMetaStore.py:165-172 | The record and both rank entries are removed, the other entries kept, and the total drops by the given size. |
| MetaStore.RunGc | LeafScanApp/storage/CacheMetaStore.py:117-127 | The run is done iff the final total is within the limit. The limits are unchanged, and every surviving job keeps its record. |
| MetaStore.GcStopsForCause | LeafScanApp/storage/CacheMetaStore.py:121-126 | Over budget with no evictable candidate raises capacity-exhausted, an unparsable size raises, and an intermediate-only eviction stalls. Each holds iff that is what eviction decides on the final store. |
| MetaStore.GcLogsDrops | LeafScanApp/storage/CacheMetaStore.py:121-172 | Every job run_gc removes is logged as a whole-entry deletion. |
| MetaStore.GcDropsLogged | LeafScanApp/storage/CacheMetaStore.py:165-172 | Every whole-entry deletion run_gc logs is gone from the final store. |
| MetaStore.GcWholeUntilLast | LeafScanApp/storage/CacheMetaStore.py:121-127 | All evictions but the last delete whole entries. |
| MetaStore.GcStallsOnIntermediate | LeafScanApp/storage/CacheMetaStore.py:151-153 | run_gc stalls exactly when its last eviction deleted only intermediate files. |
| MetaStore.GcStallRepeats | LeafScanApp/storage/CacheMetaStore.py:121-127 | When run_gc stalls, eviction on the final store would choose the same job's intermediate files again: the source loop never ends there. |
| MetaStore.UpdateBytes | LeafScanApp/storage/CacheMetaStore.py:95-111 | update_bytes raises iff the stored size does not parse. It is then run_gc after the writes, and a completed run leaves the total within the limit. |
| MetaStore.Reset | LeafScanApp/storage/CacheMetaStore.py:189-208 | No jobs remain, both sets are empty, the total is 0 and the limit is the configured one. |
| Accounting.OpenAccounted | LeafScanApp/storage/CacheMetaStore.py:37-38 | A fresh store has total equal to the sum of job sizes, and both sets rank exactly the jobs. |
| Accounting.ResetAccounted | LeafScanApp/storage/CacheMetaStore.py:189-208 | Reset restores both invariants. |
| Accounting.InitEntryKeeps | LeafScanApp/storage/CacheMetaStore.py:44-58 | init_entry keeps the total equal to the sum of job bytes, and keeps both sets well formed and ranking exactly the jobs. |
| Accounting.TouchKeeps | LeafScanApp/storage/CacheMetaStore.py:74-85 | touch keeps both invariants. |
| Accounting.UpdateFieldKeeps | LeafScanApp/storage/CacheMetaStore.py:87-93 | update_field of any field but `bytes` keeps both invariants. |
| Accounting.UpdateFieldBreaksTotal | LeafScanApp/storage/CacheMetaStore.py:88-92 | update_field accepts `bytes`: setting a fresh job's bytes to 1 leaves the total at 0, so the sum invariant breaks. |
| Accounting.WriteSizeKeeps | LeafScanApp/storage/CacheMetaStore.py:100-108 | The size pipeline of update_bytes keeps both invariants. |
| Accounting.ResizeKeeps | LeafScanApp/storage/CacheMetaStore.py:95-110 | The writes of update_bytes before eviction keep both invariants. |
| Accounting.DeleteFullEntryKeeps | LeafScanApp/storage/CacheMetaStore.py:165-172 | Deleting a whole entry with its record's size keeps both invariants. |
| Accounting.FullEvictionSize | LeafScanApp/storage/CacheMetaStore.py:156-157 | A full eviction takes off exactly the evicted record's size. |
| Accounting.RunGcKeeps | LeafScanApp/storage/CacheMetaStore.py:117-127 | run_gc keeps both invariants, whatever its outcome. |
| Accounting.UpdateBytesKeeps | LeafScanApp/storage/CacheMetaStore.py:95-111 | update_bytes keeps both invariants whenever it reaches eviction. |
| Accounting.ShapedRecordIdle | LeafScanApp/storage/CacheMetaStore.py:137-151 | A record holding only schema fields and timestamps is never busy, never awaits its results, and has a readable size: the fields the rule reads are not in the schema. |
| Accounting.ShapedEvictsLru | LeafScanApp/storage/CacheMetaStore.py:129-158 | On a tracked store of schema-shaped records, eviction deletes the least recently used job in full, with its own size. The deletion is the intended one: see the line on `self.filesystem_backend` under Left out. |
| Accounting.UpdateFieldShaped | LeafScanApp/storage/CacheMetaStore.py:87-93 | update_field keeps records schema-shaped unless it writes text into `bytes`. |
| Accounting.GcCompletesWhenShaped | LeafScanApp/storage/CacheMetaStore.py:117-127 | On an accounted, tracked, schema-shaped store with a non-negative limit, run_gc always completes. This holds with the intended whole-entry deletion. As written, the first full eviction raises `AttributeError` at line 166. |
| Accounting.GcEvictsInLruOrder | LeafScanApp/storage/CacheMetaStore.py:117-160 | On such a store run_gc deletes whole jobs in recency order, the least recently used first. This holds with the intended whole-entry deletion, as for GcCompletesWhenShaped. |
| Dependencies.GraphAcyclic | LeafScanApp/core/dependencies.py:4-8 | Every requirement is strictly shallower than its stage and is derived or raw. The depth is at most two, and the raw inputs have no entry. |
| Dependencies.Present | LeafScanApp/core/dependencies.py:17-18 | `bool(int(value))`: a flag is set iff it is a non-zero integer, and anything else raises. |
| Dependencies.CheckStage | LeafScanApp/core/dependencies.py:10-33 | A stage outside the graph is satisfied with nothing missing. Only raw inputs whose flag is 0 are reported missing, only derived stages whose flag is 0 are scheduled, and the check is satisfied iff nothing is missing. |
| Dependencies.CheckRequirement | LeafScanApp/core/dependencies.py:17-29 | One requirement's contribution: a raise only when a flag does not parse. Only raw inputs, or the requirement itself when it has no graph entry, are reported missing, each with a flag reading 0. Only derived stages whose flag reads 0 are scheduled, and the requirement is satisfied iff nothing is missing. |
| Dependencies.CheckDependencies | LeafScanApp/core/dependencies.py:10-33 | Flags are read after the job is created. The caller's missing list is extended only by raw inputs, and the result is true iff nothing was appended. |
| Dependencies.FirstLevel | LeafScanApp/core/dependencies.py:5-6 | The original-area check reports `in_params` iff it is unset. The simulated-area check reports `in_video` then `in_params`, each iff unset. |
| Dependencies.DefoliationClosedForm | LeafScanApp/core/dependencies.py:7-31 | The defoliation check is the concatenation of both derived requirements' outcomes, in order: no short-circuit. |
| Dependencies.FreshJobDefoliation | LeafScanApp/core/dependencies.py:15-31 | For a fresh job, the defoliation check fails, reports `[in_params, in_video, in_params]` and schedules nothing. |
| Dependencies.InputsPresentSchedules | LeafScanApp/core/dependencies.py:21-26 | With both inputs set and no output yet, defoliation is ready and both first-level stages are scheduled, original first. |
| Dependencies.PresentOutputsSuffice | LeafScanApp/core/dependencies.py:17-21 | With both area outputs set, the defoliation check is satisfied with nothing missing and nothing scheduled, whatever the inputs. |
| Dependencies.ReadableNeverRaises | LeafScanApp/core/dependencies.py:16-18 | When every flag holds an integer, the check never raises. |
| Inputs.RouteTable | LeafScanApp/core/inputs.py:5-10 | The table maps `in_video` to the video route and the three parameter names to the params route. |
| Inputs.RoutesToRerun | LeafScanApp/core/inputs.py:12-16 | The keys are exactly `video` and `params`. A route is true iff some missing name maps to it. |
| Inputs.OnlyTheSetMatters | LeafScanApp/core/inputs.py:14 | The answer is invariant under reordering and duplication of the missing names. |
| Inputs.UnknownIgnored | LeafScanApp/core/inputs.py:14 | A name the table does not know changes nothing. |
| Inputs.NothingMissing | LeafScanApp/core/inputs.py:14-16 | Nothing missing gives both routes false. |
| Inputs.ParamsRouteNeverRequested | LeafScanApp/core/inputs.py:5-16 | For what check_dependencies reports, the params route is never requested, and the video route is requested iff `in_video` is missing. |
| Artifacts.Lookup | LeafScanApp/storage/Artifacts.py:24-53 | `ARTIFACTS[name]` succeeds iff the name is registered, and returns that entry. |
| Artifacts.FirstMatch | LeafScanApp/storage/Artifacts.py:16-20 | The result is none iff no pattern matches. Otherwise it is a matching artifact preceded only by non-matching ones. |
| Artifacts.PatternMeaning | LeafScanApp/storage/Artifacts.py:24-53 | Each starred pattern matches exactly the names ending in its suffix. `params` matches only itself. |
| Artifacts.GlobStarSuffix | LeafScanApp/storage/Artifacts.py:18 | `fnmatch` of `*` followed by a literal holds iff the name ends with the literal. |
| Artifacts.ClassifyBySuffix | LeafScanApp/storage/Artifacts.py:16-53 | Each suffix classifies as its artifact and `params` as the params artifact. No other name is classified. |
| Artifacts.SuffixesExclusive | LeafScanApp/storage/Artifacts.py:24-53 | No name ends in two of the four suffixes, and `params` ends in none. |
| Artifacts.PatternsExclusive | LeafScanApp/storage/Artifacts.py:24-53 | No name matches two registry patterns, so registry order does not matter. |
| Artifacts.ArtifactFlags | LeafScanApp/storage/Artifacts.py:24-53 | The three stage artifacts carry output and upload flags and no input flag. Video carries input and upload flags only, and params only an input flag. Every upload flag is a schema field. |
| Upload.Extension | LeafScanApp/storage/Upload.py:38-40 | The extension is `mp4` iff the step is `video`, else `json`. |
| Upload.Headers | LeafScanApp/storage/Upload.py:42-47 | The headers carry the content type, the entry id, the step and the extension. |
| Upload.Budget | LeafScanApp/storage/Upload.py:49 | `range(1, max_attempts + 1)` is empty for a non-positive budget and has max_attempts elements otherwise. |
| Upload.UploadWithRetry | LeafScanApp/storage/Upload.py:34-74 | An unreadable file raises before any try. Otherwise at most the budget is tried, every try before the last failed, and success means the last try was accepted. Failure means the whole budget failed, zero tries for a non-positive budget. The checksum is the local digest. |
| Upload.OutcomeSucceeds | LeafScanApp/storage/Upload.py:49-74 | The upload succeeds iff some try within the budget is accepted. |
| Upload.OutcomeDetermined | LeafScanApp/storage/Upload.py:62-68 | Two transports that agree on which tries are accepted, whatever checksums they return, give the same answer after the same number of tries. |
| Upload.ServerChecksumIgnored | LeafScanApp/storage/Upload.py:62-66 | Changing the checksum in a reply does not change whether the try is accepted. |
| Upload.UploadFlag | LeafScanApp/storage/Upload.py:28 | An unknown step raises a key error, `params` raises unknown-field, and every other step's upload flag is a schema field. |
| Upload.UploadWithMark | LeafScanApp/storage/Upload.py:23-32 | It returns true iff some try was accepted. A readable file with no accepted try returns false with the metadata untouched, whatever the step. On success the upload flag is set and then the finalize check runs on the result. It raises only for an unreadable file or, after a success, a step without an upload flag. |
| StageRun.Given | LeafScanApp/inference/simulated_inference.py:11-13 | A runner works on the caller's state when one is given, else on the loaded one. |
| StageRun.Cached | LeafScanApp/inference/defoliation_inference.py:14-15 | A completed document answers only when its result is there and is a number that the `:.2f` print accepts. |
| StageRun.Fail | LeafScanApp/inference/defoliation_inference.py:30-33 | The except clause stores the state as failed, the resulting backend is exactly that save's, and the runner raises. If that save fails, its own error escapes and the backend is unchanged. |
| OriginalInference.LeafParams | LeafScanApp/inference/original_inference.py:42-49 | Both leaf parameters are used iff both are present and non-null. |
| OriginalInference.Publish | LeafScanApp/inference/original_inference.py:51-70 | The completed state is saved, then the area is pushed into the defoliation params, then `out_original` is set, and defoliation is scheduled. A failing step takes the failure path. |
| OriginalInference.Infer | LeafScanApp/inference/original_inference.py:8-75 | If `dependencies_ready` raises, the except path stores the loaded state as failed and raises. Not ready or waiting: the state is saved as waiting, the backend is exactly that save's, and None is returned. Completed and ready: the stored area is returned with no save. Missing leaf params or a failing model: failure path. Otherwise the prediction is published. Only a returned value is ever scheduled. |
| OriginalInference.NotReadyIgnoresModel | LeafScanApp/inference/original_inference.py:22-39 | While waiting, completed, or when `dependencies_ready` raises, the model is never called: any two models give the same run. |
| OriginalInference.ComputedIsPublished | LeafScanApp/inference/original_inference.py:51-70 | A computed area reads back completed in its own document and as a param of the defoliation document. The job's `out_original` flag reads 1, and defoliation is scheduled. |
| OriginalInference.ComputedThenCached | LeafScanApp/inference/original_inference.py:36-39 | After a computation, the next ready run returns the same value, saves nothing and only makes sure the job exists. |
| OriginalInference.FlagSet | LeafScanApp/inference/original_inference.py:59 | Setting `out_original` through update_field always succeeds and leaves it reading 1. |
| DefoliationInference.Areas | LeafScanApp/inference/defoliation_inference.py:17-21 | The formula is evaluated iff both areas are present numbers and the original area is non-zero. |
| DefoliationInference.Infer | LeafScanApp/inference/defoliation_inference.py:3-33 | Waiting returns None with nothing saved. Completed returns the stored result with no save. Otherwise the formula result is saved as completed and returned, and the run's backend is exactly the saved one. Missing or unusable areas, a missing stored result and a failing save all take the except path. It never schedules anything. |
| DefoliationInference.ComputedThenCached | LeafScanApp/inference/defoliation_inference.py:14-25 | After a computation, the next run returns the same value and saves nothing. |
| DefoliationInference.FailureIsRecorded | LeafScanApp/inference/defoliation_inference.py:30-33 | When the stage raises its own error, the stored document is failed. |
| SimulatedInference.Length | LeafScanApp/inference/simulated_inference.py:21-22 | `float(params["length"])`: a number passes, text goes through the parser, and a missing or other value raises. |
| SimulatedInference.Publish | LeafScanApp/inference/simulated_inference.py:28-38 | The completed state is saved, then the area is pushed into the defoliation params, then defoliation is scheduled. A failing save, update or print takes the except path. Without a bound cache it raises and stores nothing. |
| SimulatedInference.Infer | LeafScanApp/inference/simulated_inference.py:8-43 | Waiting returns None, unscheduled and unsaved. Completed with a stored number returns it and schedules defoliation. Otherwise it computes and publishes, or takes the failure path. A supplied state never changes the backend. |
| SimulatedInference.ComputedIsPublished | LeafScanApp/inference/simulated_inference.py:20-38 | A computed area reads back completed in its own document and as a param of the defoliation document, and defoliation is scheduled. |
| SimulatedInference.SuppliedStateCannotSave | LeafScanApp/inference/simulated_inference.py:11-13 | With a caller-supplied state, a run that must compute raises the unbound-variable error and stores nothing. |

## Left out

- The Flask routes, the application bootstrap and `core/paths.py` are left out. They do request parsing and directory setup, not cache logic.
- The ML model, the video scanner and the floating-point defoliation formula are function parameters. Their numeric behaviour is not part of this model.
- APScheduler is left out. Scheduling defoliation is a boolean of the run, and scheduling stages from `check_dependencies` is a list of stage names. `schedule_upload` and duplicate-job-id handling belong to the scheduler library.
- Redis is sequential here. Pipelines, concurrency and atomicity are not modelled.
- The lazy singletons `get_redis`, `get_meta_store` and `get_cache` are left out. Stores and backends are passed explicitly.
- The clock is one `now` reading per operation, as an integer. The float timestamps and `datetime.utcnow().isoformat()` strings are not modelled.
- JSON encoding and decoding are taken to round-trip. A stored cache file holds the document value itself.
- Redis hash cells are an integer or non-numeric text. Numeric strings in other forms (`"01"`, `" 1"`) are not distinguished.
- `compute_entry_size` is the `newSize` parameter of `update_bytes`. The file deletions eviction asks for (`backend.delete`, `filesystem_backend.delete_all`) are logged as `Eviction` events. `self.filesystem_backend` (CacheMetaStore.py:166) is never assigned, so the source would raise `AttributeError` there. The model treats the call as the intended whole-entry deletion.
- MetaStore.RunGc: when eviction chooses an intermediate-only deletion, the metadata does not change and the source loop would choose the same job forever. The model stops there with the outcome `Stalled`, and `GcStallRepeats` proves the repetition.
- `get_entry` and `get_total_bytes` are plain reads of `jobs` and `totalBytes`, so they have no members of their own. `get_entry` is only printed by the original-area runner.
- The flags `check_dependencies` reads are taken from the job record after `ensure_exists`. Its partial effects before a raise (scheduling done before a later flag fails to parse) are not kept.
- `dependencies_ready`, `finalize_job_if_complete`, `cache.meta`, `JobTypes` and `JobFields.IN_LENGTH`/`IN_LEAF`/`IN_WIDTHS` are not defined in the modules this model covers. They become parameters: `ready` (an optional boolean, absent when the call raises), `finalize`, a passed metadata store, the step-name constants of the cache schema, and the key names of the route table and leaf parameters.
- `sha256` is the `digest` parameter. The transport is an oracle of attempt outcomes, and `time.sleep` between retries is not modelled.
- `CacheService.reset` (`backend.clear()`) is covered by `FsCache.Clear` rather than a member of its own.
- `storage/cache.py`, `storage/permanent.py` (abstract interfaces) and `config/job_schema.py` (a superseded schema) are not part of this model.
- FsCache.Put: keys are flat names. A key with `/` whose parent directory is missing raises `FileNotFoundError` in the source, and that case is not modelled.
- FsCache.Frame: holds for flat keys only. pathlib makes `x/`, `./x` and `x` one path, and the model treats them as different names.
- FsCache.Clear: removes every regular file of a flat directory. Files inside sub-directories, which the source's `clear` keeps, are not modelled.
- FsCache.ClearEmpties: holds for flat keys only. A key naming a file in a sub-directory still reads back after the source's `clear`.
- PermanentStore.Put: keys are flat names and writes succeed. A missing parent directory, or a directory at `{key}.bin`, makes `write_bytes` raise in the source.
- PermanentStore.PutFrame: holds for flat keys only. pathlib makes `a//b` and `a/b` share `a/b.bin`.
- CacheService.UpdateReloads and CacheService.UpdateTwice compare only params and status. Results are cleared to `{}` by a saving update and come back from `sanitize` as nulls, so the documents themselves differ.
- A caller-supplied state that is an empty dict counts as absent in the source (`if not state`). In the model any supplied document is used as given.
- OriginalInference.ComputedThenCached and SimulatedInference.ComputedIsPublished cover only runs that load their own state. With a supplied state the simulated runner cannot save, as SuppliedStateCannotSave shows.
