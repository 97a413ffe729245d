/**
 The artifact registry: which file names belong to which pipeline artifact, and
 which metadata flags each artifact drives (`Artifact`, `ARTIFACTS`,
 `artifact_from_filename`).
 */
module Artifacts {
  import opened Common
  import opened JobSchema

  datatype Artifact = Artifact(
    pattern: string,
    inputFlag: Option<string>,
    outputFlag: Option<string>,
    uploadFlag: Option<string>)

  /**
   `fnmatch` for patterns built from literal characters and `*` (the only
   wildcard the registry uses); `*` matches any run of characters, including
   none. Matching is case-sensitive, as on POSIX.
   */
  predicate Glob(name: string, pattern: string)
    decreases |pattern|, |name|
  {
    if pattern == [] then name == []
    else if pattern[0] == '*' then
      Glob(name, pattern[1..]) || (name != [] && Glob(name[1..], pattern))
    else name != [] && name[0] == pattern[0] && Glob(name[1..], pattern[1..])
  }

  /** A pattern with no wildcard matches exactly itself. */
  lemma {:induction false} GlobLiteral(name: string, literal: string)
    requires '*' !in literal
    ensures Glob(name, literal) <==> name == literal
  {
    if literal != [] && name != [] {
      assert literal[1..] == [] || '*' !in literal[1..] by {
        assert forall c :: c in literal[1..] ==> c in literal;
      }
      GlobLiteral(name[1..], literal[1..]);
      if name[1..] == literal[1..] && name[0] == literal[0] {
        assert name == [name[0]] + name[1..];
        assert literal == [literal[0]] + literal[1..];
      }
    }
  }

  /** `*` followed by a literal matches exactly the names ending in that literal. */
  lemma {:induction false} GlobStarSuffix(name: string, literal: string)
    requires '*' !in literal
    ensures Glob(name, "*" + literal) <==> EndsWith(name, literal)
    decreases |name|
  {
    var pattern := "*" + literal;
    assert pattern[0] == '*' && pattern[1..] == literal;
    GlobLiteral(name, literal);
    if name != [] {
      GlobStarSuffix(name[1..], literal);
    }
  }

  const VideoSuffix := "_video.mp4"
  const OriginalSuffix := "_original_area.json"
  const SimulatedSuffix := "_simulated_area.json"
  const DefoliationSuffix := "_defoliation.json"

  const VideoPattern := "*" + VideoSuffix
  const ParamsPattern := "params"
  const OriginalPattern := "*" + OriginalSuffix
  const SimulatedPattern := "*" + SimulatedSuffix
  const DefoliationPattern := "*" + DefoliationSuffix

  /** `ARTIFACTS`, in the dictionary's insertion order. */
  const Registry: seq<(string, Artifact)> := [
    ("video", Artifact(VideoPattern, Some(InVideo), None, Some(UpVideo))),
    ("params", Artifact(ParamsPattern, Some(InParams), None, None)),
    ("original_area", Artifact(OriginalPattern, None, Some(OutOriginal), Some(UpOriginal))),
    ("simulated_area", Artifact(SimulatedPattern, None, Some(OutSimulated), Some(UpSimulated))),
    ("defoliation", Artifact(DefoliationPattern, None, Some(OutDefoliation), Some(UpDefoliation)))
  ]

  /** `ARTIFACTS[name]`; a name not in the registry raises KeyError. */
  function Lookup(name: string): (r: Result<Artifact>)
    ensures r.Ok? <==> exists i :: 0 <= i < |Registry| && Registry[i].0 == name
    ensures r.Ok? ==> exists i :: 0 <= i < |Registry| && Registry[i] == (name, r.value)
  {
    LookupIn(Registry, name)
  }

  function LookupIn(entries: seq<(string, Artifact)>, name: string): (r: Result<Artifact>)
    ensures r.Ok? <==> exists i :: 0 <= i < |entries| && entries[i].0 == name
    ensures r.Ok? ==> exists i :: 0 <= i < |entries| && entries[i] == (name, r.value)
    ensures r.Err? ==> r.error == KeyMissing(name)
  {
    if entries == [] then Err(KeyMissing(name))
    else if entries[0].0 == name then Ok(entries[0].1)
    else
      var r := LookupIn(entries[1..], name);
      assert forall i :: 0 <= i < |entries[1..]| ==> entries[1..][i] == entries[i + 1];
      r
  }

  /** `artifact_from_filename`: the first registry artifact whose pattern matches. */
  function FromFilename(filename: string): (r: Option<Artifact>)
  {
    FirstMatch(Registry, filename)
  }

  function FirstMatch(entries: seq<(string, Artifact)>, filename: string): (r: Option<Artifact>)
    ensures r.None? <==> forall i :: 0 <= i < |entries| ==> !Glob(filename, entries[i].1.pattern)
    ensures r.Some? ==> exists i :: 0 <= i < |entries| && entries[i].1 == r.value
                                 && Glob(filename, r.value.pattern)
                                 && forall j :: 0 <= j < i ==> !Glob(filename, entries[j].1.pattern)
  {
    if entries == [] then None
    else if Glob(filename, entries[0].1.pattern) then Some(entries[0].1)
    else
      var r := FirstMatch(entries[1..], filename);
      assert forall i :: 0 <= i < |entries[1..]| ==> entries[1..][i] == entries[i + 1];
      r
  }

  /** One step of the search. */
  lemma FirstMatchCons(entries: seq<(string, Artifact)>, filename: string)
    requires entries != []
    ensures FirstMatch(entries, filename) ==
      if Glob(filename, entries[0].1.pattern) then Some(entries[0].1) else FirstMatch(entries[1..], filename)
  {
  }

  /** Which registry patterns a file name matches, in closed form. */
  lemma {:induction false} PatternMeaning(filename: string)
    ensures Glob(filename, VideoPattern) <==> EndsWith(filename, VideoSuffix)
    ensures Glob(filename, ParamsPattern) <==> filename == "params"
    ensures Glob(filename, OriginalPattern) <==> EndsWith(filename, OriginalSuffix)
    ensures Glob(filename, SimulatedPattern) <==> EndsWith(filename, SimulatedSuffix)
    ensures Glob(filename, DefoliationPattern) <==> EndsWith(filename, DefoliationSuffix)
  {
    SuffixPatternMeaning(filename);
    LiteralPattern(filename, ParamsPattern);
  }

  lemma {:induction false} SuffixPatternMeaning(filename: string)
    ensures Glob(filename, VideoPattern) <==> EndsWith(filename, VideoSuffix)
    ensures Glob(filename, OriginalPattern) <==> EndsWith(filename, OriginalSuffix)
    ensures Glob(filename, SimulatedPattern) <==> EndsWith(filename, SimulatedSuffix)
    ensures Glob(filename, DefoliationPattern) <==> EndsWith(filename, DefoliationSuffix)
  {
    GlobStarSuffix(filename, VideoSuffix);
    GlobStarSuffix(filename, OriginalSuffix);
    GlobStarSuffix(filename, SimulatedSuffix);
    GlobStarSuffix(filename, DefoliationSuffix);
  }

  lemma {:induction false} LiteralPattern(filename: string, literal: string)
    requires '*' !in literal
    ensures Glob(filename, literal) <==> filename == literal
  {
    GlobLiteral(filename, literal);
  }

  /** The four suffixes are pairwise exclusive and none fits the name `params`. */
  lemma {:induction false} SuffixesExclusive(filename: string)
    ensures !(EndsWith(filename, VideoSuffix) && EndsWith(filename, OriginalSuffix))
    ensures !(EndsWith(filename, VideoSuffix) && EndsWith(filename, SimulatedSuffix))
    ensures !(EndsWith(filename, VideoSuffix) && EndsWith(filename, DefoliationSuffix))
    ensures !(EndsWith(filename, OriginalSuffix) && EndsWith(filename, SimulatedSuffix))
    ensures !(EndsWith(filename, OriginalSuffix) && EndsWith(filename, DefoliationSuffix))
    ensures !(EndsWith(filename, SimulatedSuffix) && EndsWith(filename, DefoliationSuffix))
    ensures filename == "params" ==>
              !EndsWith(filename, VideoSuffix) && !EndsWith(filename, OriginalSuffix)
              && !EndsWith(filename, SimulatedSuffix) && !EndsWith(filename, DefoliationSuffix)
  {
    NotBothSuffixes(filename, VideoSuffix, OriginalSuffix, 0);
    NotBothSuffixes(filename, VideoSuffix, SimulatedSuffix, 0);
    NotBothSuffixes(filename, VideoSuffix, DefoliationSuffix, 0);
    NotBothSuffixes(filename, OriginalSuffix, SimulatedSuffix, 10);
    NotBothSuffixes(filename, OriginalSuffix, DefoliationSuffix, 5);
    NotBothSuffixes(filename, SimulatedSuffix, DefoliationSuffix, 5);
  }

  /** Two suffixes that differ `k` characters from the end cannot both end one name. */
  lemma {:induction false} NotBothSuffixes(filename: string, a: string, b: string, k: nat)
    requires k < |a| && k < |b| && a[|a| - 1 - k] != b[|b| - 1 - k]
    ensures !(EndsWith(filename, a) && EndsWith(filename, b))
  {
    EndsWithSlice(filename, a);
    EndsWithSlice(filename, b);
    if EndsWith(filename, a) && |b| <= |filename| {
      var n := |filename|;
      assert filename[n - |a|..][|a| - 1 - k] == filename[n - 1 - k];
      assert filename[n - |b|..][|b| - 1 - k] == filename[n - 1 - k];
    }
  }

  /** `artifact_from_filename` tries the registry patterns in order. */
  lemma {:induction false} FromFilenameUnfolded(filename: string)
    ensures FromFilename(filename) ==
      if Glob(filename, VideoPattern) then Some(Registry[0].1)
      else if Glob(filename, ParamsPattern) then Some(Registry[1].1)
      else if Glob(filename, OriginalPattern) then Some(Registry[2].1)
      else if Glob(filename, SimulatedPattern) then Some(Registry[3].1)
      else if Glob(filename, DefoliationPattern) then Some(Registry[4].1)
      else None
  {
    var r := Registry;
    FirstMatchCons(r, filename);
    FirstMatchCons(r[1..], filename);
    FirstMatchCons(r[1..][1..], filename);
    FirstMatchCons(r[1..][1..][1..], filename);
    FirstMatchCons(r[1..][1..][1..][1..], filename);
    assert r[1..][1..][1..][1..][1..] == [];
  }

  /** The classification of the four suffixed artifacts and of `params`; no other name is classified. */
  lemma {:induction false} ClassifyBySuffix(filename: string)
    ensures EndsWith(filename, VideoSuffix) ==> FromFilename(filename) == Some(Registry[0].1)
    ensures filename == "params" ==> FromFilename(filename) == Some(Registry[1].1)
    ensures EndsWith(filename, OriginalSuffix) ==> FromFilename(filename) == Some(Registry[2].1)
    ensures EndsWith(filename, SimulatedSuffix) ==> FromFilename(filename) == Some(Registry[3].1)
    ensures EndsWith(filename, DefoliationSuffix) ==> FromFilename(filename) == Some(Registry[4].1)
    ensures FromFilename(filename).None? <==>
      !EndsWith(filename, VideoSuffix) && filename != "params"
      && !EndsWith(filename, OriginalSuffix) && !EndsWith(filename, SimulatedSuffix)
      && !EndsWith(filename, DefoliationSuffix)
  {
    FromFilenameUnfolded(filename);
    PatternMeaning(filename);
    SuffixesExclusive(filename);
  }

  /** No file name matches two registry patterns, so registry order never matters. */
  lemma {:induction false} PatternsExclusive(filename: string, i: nat, j: nat)
    requires i < j < |Registry|
    ensures !(Glob(filename, Registry[i].1.pattern) && Glob(filename, Registry[j].1.pattern))
  {
    var pi, pj := Registry[i].1.pattern, Registry[j].1.pattern;
    assert pi == [VideoPattern, ParamsPattern, OriginalPattern, SimulatedPattern][i];
    assert pj == [ParamsPattern, OriginalPattern, SimulatedPattern, DefoliationPattern][j - 1];
    PatternMeaning(filename);
    SuffixesExclusive(filename);
    ExclusiveFlags(Glob(filename, VideoPattern), Glob(filename, ParamsPattern), Glob(filename, OriginalPattern),
                   Glob(filename, SimulatedPattern), Glob(filename, DefoliationPattern));
  }

  /** Five pairwise exclusive flags, read as a sequence: no two positions hold. */
  lemma ExclusiveFlags(v: bool, p: bool, o: bool, s: bool, d: bool)
    requires !(v && p) && !(v && o) && !(v && s) && !(v && d) && !(p && o) && !(p && s) && !(p && d)
    requires !(o && s) && !(o && d) && !(s && d)
    ensures var f := [v, p, o, s, d]; forall i, j :: 0 <= i < j < 5 ==> !(f[i] && f[j])
  {
  }

  /** Flags carried by each artifact kind. */
  lemma ArtifactFlags()
    ensures forall i :: 2 <= i < |Registry| ==>
      Registry[i].1.inputFlag.None? && Registry[i].1.outputFlag.Some? && Registry[i].1.uploadFlag.Some?
    ensures Registry[0].0 == "video" && Registry[0].1.inputFlag.Some?
      && Registry[0].1.outputFlag.None? && Registry[0].1.uploadFlag.Some?
    ensures Registry[1].0 == "params" && Registry[1].1.inputFlag.Some?
      && Registry[1].1.outputFlag.None? && Registry[1].1.uploadFlag.None?
    ensures forall i :: 0 <= i < |Registry| ==>
      (Registry[i].1.uploadFlag.Some? ==> IsSchemaField(Registry[i].1.uploadFlag.value))
  {
  }
}
