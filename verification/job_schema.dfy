/**
 Field names of a job's metadata record and the default record every new job
 starts from (`JobFields` and `JOB_SCHEMA`).
 */
module JobSchema {

  /** A cell of a Redis hash: an integer, or a non-numeric string. */
  datatype Cell = Int(n: int) | Text(s: string)

  /** A job's metadata record, the `job:{entry_id}` hash. */
  type Record = map<string, Cell>

  const InVideo := "in_video"
  const InParams := "in_params"

  const OutOriginal := "out_original"
  const OutSimulated := "out_simulated"
  const OutDefoliation := "out_defoliation"

  const UpVideo := "up_video"
  const UpOriginal := "up_original"
  const UpSimulated := "up_simulated"
  const UpDefoliation := "up_defoliation"

  const ResultDefoliation := "defoliation_result"

  const Bytes := "bytes"
  const CreatedAt := "created_at"
  const LastUpdated := "last_updated"

  const Inputs: seq<string> := [InVideo, InParams]
  const Outputs: seq<string> := [OutOriginal, OutSimulated, OutDefoliation]
  const Uploads: seq<string> := [UpVideo, UpOriginal, UpSimulated, UpDefoliation]

  /** The value `defoliation_result` holds while no result exists. */
  const NoResult := -1

  /** `JOB_SCHEMA`: the default record; timestamps are added at runtime. */
  const Defaults: Record := map[
    InVideo := Int(0), InParams := Int(0),
    OutOriginal := Int(0), OutSimulated := Int(0), OutDefoliation := Int(0),
    UpVideo := Int(0), UpOriginal := Int(0), UpSimulated := Int(0), UpDefoliation := Int(0),
    ResultDefoliation := Int(NoResult),
    Bytes := Int(0)
  ]

  predicate IsSchemaField(field: string) {
    field in Defaults
  }

  /** Every flag defaults to 0, the result to the sentinel, the size to 0. */
  lemma DefaultValues()
    ensures forall f :: f in Inputs + Outputs + Uploads ==> f in Defaults && Defaults[f] == Int(0)
    ensures Defaults[ResultDefoliation] == Int(NoResult)
    ensures Defaults[Bytes] == Int(0)
  {
  }

  /** Exactly eleven fields: two inputs, three outputs, four uploads, the result and the size. */
  lemma SchemaShape()
    ensures Defaults.Keys == (set f | f in Inputs + Outputs + Uploads) + {ResultDefoliation, Bytes}
    ensures |Inputs| == 2 && |Outputs| == 3 && |Uploads| == 4
    ensures |Defaults| == 11
  {
    var names := Inputs + Outputs + Uploads + [ResultDefoliation, Bytes];
    assert Defaults.Keys == set f | f in names;
    DistinctCount(names);
  }

  /** A sequence of pairwise different strings has as many elements as its set. */
  lemma {:induction false} DistinctCount(names: seq<string>)
    requires forall i, j :: 0 <= i < j < |names| ==> names[i] != names[j]
    ensures |set f | f in names| == |names|
  {
    if names != [] {
      var rest := names[1..];
      DistinctCount(rest);
      assert (set f | f in names) == {names[0]} + set f | f in rest;
      assert names[0] !in rest;
    }
  }

  /** The timestamps are declared names but not schema fields. */
  lemma TimestampsNotInSchema()
    ensures !IsSchemaField(CreatedAt) && !IsSchemaField(LastUpdated)
  {
  }
}
