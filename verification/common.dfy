/**
 The values the LeafScan cache and metadata store move around: Python exceptions
 as an `Error` datatype, `Result`/`Option` wrappers for the error paths, JSON
 values, bytes, and the two small string operations the storage layer relies on
 (`str.replace` of one character and suffix matching).
 */
module Common {

  /** One byte of a stored blob. */
  newtype byte = x: int | 0 <= x < 256

  datatype Option<+T> = None | Some(value: T) {
    function GetOr(default: T): T {
      match this
      case Some(v) => v
      case None => default
    }
  }

  /** The exceptions the modelled code raises, named after their cause. */
  datatype Error =
    | UnknownStage(stage: string)   // ValueError("Unknown cache type")
    | UnknownField(field: string)   // ValueError("Unknown job field")
    | KeyMissing(key: string)       // KeyError on a dict lookup
    | NotFound(path: string)        // FileNotFoundError
    | IsADirectory(path: string)    // IsADirectoryError
    | NotANumber                    // int(), float() or ":.2f" applied to a non-number
    | CollaboratorFailed            // the ML model, video scanner or formula raised
    | CapacityExhausted             // RuntimeError from run_gc
    | StageFailed(stage: string)    // RuntimeError re-raised by a stage runner
    | UnboundCache                  // UnboundLocalError: `cache` used before assignment
    | NoState                       // TypeError: item assignment into a state that is None

  datatype Result<+T> = Ok(value: T) | Err(error: Error) {
    predicate IsFailure() {
      Err?
    }

    function PropagateFailure<U>(): Result<U>
      requires Err?
    {
      Err(error)
    }

    function Extract(): T
      requires Ok?
    {
      value
    }
  }

  /**
   A decoded JSON value. Python's int, float and bool all compare numerically
   with `==`, so they share one `Num` case and structural equality coincides
   with Python equality.
   */
  datatype Value = Null | Num(n: real) | Str(s: string) | List(items: seq<Value>)

  /** `s.replace(from, to)` for single characters. */
  function ReplaceChar(s: string, from: char, to: char): (r: string)
    ensures |r| == |s|
    ensures forall i :: 0 <= i < |s| ==> r[i] == (if s[i] == from then to else s[i])
    ensures from != to ==> from !in r
  {
    if s == [] then []
    else [if s[0] == from then to else s[0]] + ReplaceChar(s[1..], from, to)
  }

  /** `s.endswith(suffix)`, by peeling characters off the front of `s`. */
  predicate EndsWith(s: string, suffix: string)
    decreases |s|
  {
    if |s| < |suffix| then false
    else if |s| == |suffix| then s == suffix
    else EndsWith(s[1..], suffix)
  }

  /** The slice form of `EndsWith`. */
  lemma {:induction false} EndsWithSlice(s: string, suffix: string)
    ensures EndsWith(s, suffix) <==> |suffix| <= |s| && s[|s| - |suffix|..] == suffix
    decreases |s|
  {
    if |s| > |suffix| {
      EndsWithSlice(s[1..], suffix);
      assert s[1..][|s[1..]| - |suffix|..] == s[|s| - |suffix|..];
    } else if |s| == |suffix| {
      assert s[|s| - |suffix|..] == s;
    }
  }

  /** Two suffixes of one string: the shorter is a suffix of the longer. */
  lemma {:induction false} SuffixOfSuffix(s: string, a: string, b: string)
    requires EndsWith(s, a) && EndsWith(s, b) && |a| <= |b|
    ensures EndsWith(b, a)
  {
    EndsWithSlice(s, a);
    EndsWithSlice(s, b);
    EndsWithSlice(b, a);
    assert b[|b| - |a|..] == s[|s| - |a|..];
  }
}
