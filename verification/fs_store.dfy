/**
 The durable store on the file system (`FileSystemPermanentStore`): each key's
 data lives in `{key}.bin` and its optional metadata in `{key}.meta.json`.
 Keys are taken as flat names (no `/`), and writes are taken to succeed: a
 missing parent directory or a directory at a file's path is not modelled.
 */
module PermanentStore {
  import opened Common

  /**
   The directory's files by name: data files hold bytes, metadata files a JSON
   object. The two name families never meet (`NamesDisjoint`), so they are kept
   in two maps.
   */
  datatype Store = Store(baseDir: string, dataFiles: map<string, seq<byte>>, metaFiles: map<string, map<string, string>>)

  function DataName(key: string): string {
    key + ".bin"
  }

  function MetaName(key: string): string {
    key + ".meta.json"
  }

  /** `_data_path` and `_meta_path`. */
  function DataPath(s: Store, key: string): string {
    s.baseDir + "/" + DataName(key)
  }

  function MetaPath(s: Store, key: string): string {
    s.baseDir + "/" + MetaName(key)
  }

  /**
   `put`: writes the data file, then the metadata file only when `metadata` is
   truthy (a non-empty mapping; `None` and `{}` are both falsy and modelled as
   the empty map).
   */
  function Put(s: Store, key: string, data: seq<byte>, metadata: map<string, string>): (r: Store)
    ensures r.baseDir == s.baseDir
    ensures r.dataFiles == s.dataFiles[DataName(key) := data]
    ensures |metadata| > 0 ==> r.metaFiles == s.metaFiles[MetaName(key) := metadata]
    ensures |metadata| == 0 ==> r.metaFiles == s.metaFiles
  {
    var written := s.(dataFiles := s.dataFiles[DataName(key) := data]);
    if |metadata| > 0 then written.(metaFiles := s.metaFiles[MetaName(key) := metadata])
    else written
  }

  /** `get`: the data file's bytes; a missing file raises FileNotFoundError. */
  function Get(s: Store, key: string): (r: Result<seq<byte>>)
    ensures r.Ok? <==> DataName(key) in s.dataFiles
    ensures r.Ok? ==> r.value == s.dataFiles[DataName(key)]
    ensures r.Err? ==> r.error == NotFound(DataPath(s, key))
  {
    if DataName(key) in s.dataFiles then Ok(s.dataFiles[DataName(key)])
    else Err(NotFound(DataPath(s, key)))
  }

  /** `exists` looks at the data file only. */
  function Exists(s: Store, key: string): (b: bool)
    ensures b <==> DataName(key) in s.dataFiles
  {
    DataName(key) in s.dataFiles
  }

  /** A data file name never equals a metadata file name, whatever the two keys. */
  lemma {:induction false} NamesDisjoint(k1: string, k2: string)
    ensures DataName(k1) != MetaName(k2)
  {
    var d, m := DataName(k1), MetaName(k2);
    assert d[|d| - 1] == 'n' && m[|m| - 1] == 'n';
    assert d[|d| - 2] == 'i' && m[|m| - 2] == 'o';
  }

  /** Different keys use different data files. */
  lemma {:induction false} DataNamesInjective(k1: string, k2: string)
    requires k1 != k2
    ensures DataName(k1) != DataName(k2)
  {
    if |k1| == |k2| {
      var i :| 0 <= i < |k1| && k1[i] != k2[i];
      assert DataName(k1)[i] == k1[i] && DataName(k2)[i] == k2[i];
    } else {
      assert |DataName(k1)| != |DataName(k2)|;
    }
  }

  /** `get` after `put` returns the data put, whether or not metadata was given. */
  lemma PutGet(s: Store, key: string, data: seq<byte>, metadata: map<string, string>)
    ensures Get(Put(s, key, data, metadata), key) == Ok(data)
    ensures Exists(Put(s, key, data, metadata), key)
  {
  }

  /** Without metadata an earlier metadata file survives untouched. */
  lemma FalsyMetadataKeepsOld(s: Store, key: string, data: seq<byte>)
    ensures Put(s, key, data, map[]).metaFiles == s.metaFiles
  {
  }

  /** `exists` ignores metadata: a key with only a metadata file does not exist. */
  lemma ExistsIgnoresMetadata(s: Store, key: string, doc: map<string, string>)
    requires |doc| > 0
    ensures Exists(s.(metaFiles := s.metaFiles[MetaName(key) := doc]), key) == Exists(s, key)
  {
  }

  /** `put` of one key leaves every other key's data readable as before. */
  lemma {:induction false} PutFrame(s: Store, key: string, data: seq<byte>, metadata: map<string, string>, other: string)
    requires other != key
    ensures Get(Put(s, key, data, metadata), other) == Get(s, other)
    ensures Exists(Put(s, key, data, metadata), other) == Exists(s, other)
  {
    DataNamesInjective(key, other);
  }
}
