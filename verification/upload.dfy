/**
 Shipping an artifact to the data node (`upload_with_retry`) and recording
 the shipment in the job metadata (`upload_with_mark`). The transport is an
 oracle: `attempts(k)` says what happened on the k-th try. The checksum of the
 local file is computed by an abstract digest and reported, but nothing
 compares it with the server's.
 */
module Upload {
  import opened Common
  import opened JobSchema
  import Artifacts
  import MetaStore

  /** Both entry points default to ten attempts. */
  const DefaultAttempts := 10

  /** The `X-Ext` header: `mp4` for the video, `json` for everything else. */
  function Extension(step: string): (r: string)
    ensures r == "mp4" <==> step == "video"
    ensures r == "json" <==> step != "video"
  {
    if step == "video" then "mp4" else "json"
  }

  /** The request headers: content type, entry, artifact and extension. */
  function Headers(entryId: string, step: string): (h: map<string, string>)
    ensures h.Keys == {"Content-Type", "X-Video-ID", "X-Artifact", "X-Ext"}
    ensures h["X-Video-ID"] == entryId && h["X-Artifact"] == step
    ensures h["X-Ext"] in {"mp4", "json"} && (h["X-Ext"] == "mp4" <==> step == "video")
  {
    map["Content-Type" := "application/octet-stream", "X-Video-ID" := entryId,
        "X-Artifact" := step, "X-Ext" := Extension(step)]
  }

  /** The reply body: a JSON object (with or without a `checksum`), other JSON, or no JSON at all. */
  datatype Body = JsonObject(checksum: Option<string>) | JsonOther

  datatype Reply = Reply(status: int, body: Option<Body>)

  /** One try: whether the file could be opened, and the reply if the POST got one. */
  datatype Attempt = Attempt(fileOpened: bool, reply: Option<Reply>)

  /**
   A try succeeds when nothing in the `try` block raises: the file opens, the
   POST gets a reply, `raise_for_status` accepts its status (it raises for
   400 to 599), and the body parses to a JSON object so that `.get` works.
   */
  predicate Accepted(a: Attempt) {
    && a.fileOpened
    && a.reply.Some?
    && !(400 <= a.reply.value.status < 600)
    && a.reply.value.body.Some?
    && a.reply.value.body.value.JsonObject?
  }

  /** `range(1, max_attempts + 1)` has this many elements. */
  function Budget(maxAttempts: int): (n: nat)
    ensures maxAttempts <= 0 ==> n == 0
    ensures maxAttempts > 0 ==> n == maxAttempts
  {
    if maxAttempts < 0 then 0 else maxAttempts
  }

  /**
   What the retry loop promises: `tries` attempts were made, all before the
   last failed, success means the last one was accepted, and failure means the
   whole budget was spent without an acceptance.
   */
  ghost predicate Outcome(attempts: nat -> Attempt, maxAttempts: int, ok: bool, tries: nat) {
    && tries <= Budget(maxAttempts)
    && (forall j: nat :: 1 <= j < tries ==> !Accepted(attempts(j)))
    && (ok ==> 1 <= tries && Accepted(attempts(tries)))
    && (!ok ==> tries == Budget(maxAttempts) && (tries == 0 || !Accepted(attempts(tries))))
  }

  datatype Shipment = Shipment(ok: bool, tries: nat, checksum: string)

  /**
   `upload_with_retry`. The checksum is taken before the loop, outside the
   `try`, so an unreadable file raises instead of retrying.
   */
  method UploadWithRetry(entryId: string, step: string, path: string, contents: Option<seq<byte>>,
                         digest: seq<byte> -> string, attempts: nat -> Attempt,
                         maxAttempts: int := DefaultAttempts)
    returns (r: Result<Shipment>)
    ensures r.Err? <==> contents.None?
    ensures r.Err? ==> r.error == NotFound(path)
    ensures r.Ok? ==> r.value.checksum == digest(contents.value)
    ensures r.Ok? ==> Outcome(attempts, maxAttempts, r.value.ok, r.value.tries)
  {
    if contents.None? {
      return Err(NotFound(path));
    }
    var checksum := digest(contents.value);
    var k := 1;
    while k <= maxAttempts
      invariant 1 <= k && k - 1 <= Budget(maxAttempts)
      invariant forall j: nat :: 1 <= j < k ==> !Accepted(attempts(j))
      decreases maxAttempts - k
    {
      if Accepted(attempts(k)) {
        return Ok(Shipment(true, k, checksum));
      }
      k := k + 1;
    }
    return Ok(Shipment(false, Budget(maxAttempts), checksum));
  }

  /** Success within budget exactly when some try within budget is accepted. */
  lemma {:induction false} OutcomeSucceeds(attempts: nat -> Attempt, maxAttempts: int, ok: bool, tries: nat)
    requires Outcome(attempts, maxAttempts, ok, tries)
    ensures ok <==> exists j: nat :: 1 <= j <= Budget(maxAttempts) && Accepted(attempts(j))
  {
    if !ok {
      forall j: nat | 1 <= j <= Budget(maxAttempts) ensures !Accepted(attempts(j)) {
        if j < tries {
        } else {
          assert j == tries;
        }
      }
    }
  }

  /**
   The outcome is fixed by which tries were accepted: two transports that
   agree on acceptance, whatever checksums their replies carry, give the same
   answer after the same number of tries.
   */
  lemma {:induction false} OutcomeDetermined(a1: nat -> Attempt, a2: nat -> Attempt, maxAttempts: int,
                                             ok1: bool, tries1: nat, ok2: bool, tries2: nat)
    requires forall j: nat :: Accepted(a1(j)) == Accepted(a2(j))
    requires Outcome(a1, maxAttempts, ok1, tries1) && Outcome(a2, maxAttempts, ok2, tries2)
    ensures ok1 == ok2 && tries1 == tries2
  {
    OutcomeSucceeds(a1, maxAttempts, ok1, tries1);
    OutcomeSucceeds(a2, maxAttempts, ok2, tries2);
  }

  /** The server's checksum plays no part in whether a try is accepted. */
  lemma ServerChecksumIgnored(a: Attempt, c: Option<string>)
    requires a.reply.Some? && a.reply.value.body == Some(JsonObject(c))
    ensures forall d: Option<string> ::
      Accepted(a) == Accepted(a.(reply := Some(a.reply.value.(body := Some(JsonObject(d))))))
  {
  }

  /**
   Registry steps that carry an upload flag name a schema field, so marking
   them cannot fail; `params` carries none, and `update_field(entry_id, None)`
   raises `Unknown field None`.
   */
  function UploadFlag(step: string): (r: Result<string>)
    ensures Artifacts.Lookup(step).Err? ==> r == Err(KeyMissing(step))
    ensures r.Ok? ==> IsSchemaField(r.value)
    ensures r.Ok? <==> Artifacts.Lookup(step).Ok? && Artifacts.Lookup(step).value.uploadFlag.Some?
    ensures step == "params" ==> r == Err(UnknownField("None"))
  {
    Artifacts.ArtifactFlags();
    var artifact :- Artifacts.Lookup(step);
    if artifact.uploadFlag.None? then Err(UnknownField("None"))
    else
      Ok(artifact.uploadFlag.value)
  }

  datatype Marked = Marked(store: MetaStore.Store, uploaded: bool)

  /**
   `upload_with_mark`: on success, set the artifact's upload flag and run the
   completion check (`finalize_job_if_complete`, a collaborator given here as
   `finalize`); on failure, return False and leave the metadata alone.
   */
  method UploadWithMark(meta: MetaStore.Store, entryId: string, step: string, path: string,
                        contents: Option<seq<byte>>, digest: seq<byte> -> string,
                        attempts: nat -> Attempt, finalize: (MetaStore.Store, string) -> MetaStore.Store,
                        now: int, maxAttempts: int := DefaultAttempts)
    returns (r: Result<Marked>)
    ensures contents.None? ==> r == Err(NotFound(path))
    ensures r.Ok? ==> (r.value.uploaded <==>
              exists j: nat :: 1 <= j <= Budget(maxAttempts) && Accepted(attempts(j)))
    ensures r.Ok? && !r.value.uploaded ==> r.value.store == meta
    ensures r.Ok? && r.value.uploaded ==>
              UploadFlag(step).Ok? &&
              MetaStore.UpdateField(meta, entryId, UploadFlag(step).value, Int(1), now).Ok? &&
              r.value.store == finalize(MetaStore.UpdateField(meta, entryId, UploadFlag(step).value, Int(1), now).value, entryId)
    ensures contents.Some? && UploadFlag(step).Ok? ==> r.Ok?
    ensures contents.Some? && !(exists j: nat :: 1 <= j <= Budget(maxAttempts) && Accepted(attempts(j))) ==>
              r == Ok(Marked(meta, false))
    ensures r.Err? ==> contents.None? || UploadFlag(step).Err?
  {
    var shipped := UploadWithRetry(entryId, step, path, contents, digest, attempts, maxAttempts);
    if shipped.Err? {
      return Err(shipped.error);
    }
    OutcomeSucceeds(attempts, maxAttempts, shipped.value.ok, shipped.value.tries);
    if !shipped.value.ok {
      return Ok(Marked(meta, false));
    }
    var flag := UploadFlag(step);
    if flag.Err? {
      return Err(flag.error);
    }
    var marked := MetaStore.UpdateField(meta, entryId, flag.value, Int(1), now);
    return Ok(Marked(finalize(marked.value, entryId), true));
  }
}
