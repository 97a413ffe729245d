/**
 The node-local compute cache on the file system (`FileSystemComputeCache`): a
 directory whose regular files hold one blob per key. A key names the file
 `base_dir/` + the key with every `:` replaced by `_`. The directory may also
 hold sub-directories, which `clear` leaves in place and which cannot be read,
 written or unlinked as files. Keys are taken as flat names: the directory
 structure pathlib gives a key with `/` in it (nested files, `x/` or `./x`
 naming `x`, an absolute key replacing the base directory) is not modelled.
 */
module FsCache {
  import opened Common

  datatype Entry<V> = File(data: V) | Dir

  /** `entries` maps a name inside `baseDir` to what the directory holds under it. */
  datatype Cache<V> = Cache(baseDir: string, entries: map<string, Entry<V>>)

  /** The names that denote the base directory itself or its parent rather than a file in it. */
  predicate IsDirectoryName(name: string) {
    name == "" || name == "." || name == ".."
  }

  /** The file name a key is stored under (`key.replace(":", "_")`). */
  function FileName(key: string): (name: string)
    ensures |name| == |key| && ':' !in name
  {
    ReplaceChar(key, ':', '_')
  }

  /** `_path_for`. */
  function PathFor<V>(c: Cache<V>, key: string): string {
    c.baseDir + "/" + FileName(key)
  }

  /** What the path of `key` denotes, if anything. */
  function Lookup<V>(c: Cache<V>, key: string): Option<Entry<V>> {
    var name := FileName(key);
    if IsDirectoryName(name) then Some(Dir)
    else if name in c.entries then Some(c.entries[name])
    else None
  }

  /** `write_bytes`: creates or overwrites the file; fails on a directory. */
  function Put<V>(c: Cache<V>, key: string, data: V): (r: Result<Cache<V>>)
    ensures r.Ok? <==> Lookup(c, key) != Some(Dir)
    ensures r.Ok? ==> r.value == Cache(c.baseDir, c.entries[FileName(key) := File(data)])
    ensures r.Err? ==> r.error == IsADirectory(PathFor(c, key))
  {
    if Lookup(c, key) == Some(Dir) then Err(IsADirectory(PathFor(c, key)))
    else Ok(c.(entries := c.entries[FileName(key) := File(data)]))
  }

  /** `read_bytes`: the file's content; fails when absent or a directory. */
  function Get<V>(c: Cache<V>, key: string): (r: Result<V>)
    ensures r.Ok? <==> Lookup(c, key).Some? && Lookup(c, key).value.File?
    ensures r.Ok? ==> Lookup(c, key) == Some(File(r.value))
    ensures Lookup(c, key).None? ==> r == Err(NotFound(PathFor(c, key)))
  {
    match Lookup(c, key)
    case None => Err(NotFound(PathFor(c, key)))
    case Some(Dir) => Err(IsADirectory(PathFor(c, key)))
    case Some(File(d)) => Ok(d)
  }

  /** `Path.exists()`: true for files and directories alike. */
  function Exists<V>(c: Cache<V>, key: string): (b: bool)
    ensures b <==> Lookup(c, key).Some?
  {
    IsDirectoryName(FileName(key)) || FileName(key) in c.entries
  }

  /** `delete`: unlinks an existing file, does nothing when the path is absent, fails on a directory. */
  function Delete<V>(c: Cache<V>, key: string): (r: Result<Cache<V>>)
    ensures r.Ok? <==> Lookup(c, key) != Some(Dir)
    ensures r.Ok? ==> r.value == Cache(c.baseDir, c.entries - {FileName(key)})
    ensures Lookup(c, key).None? ==> r == Ok(c)
  {
    if !Exists(c, key) then Ok(c)
    else if Lookup(c, key) == Some(Dir) then Err(IsADirectory(PathFor(c, key)))
    else Ok(c.(entries := c.entries - {FileName(key)}))
  }

  /** `clear`: unlinks every regular file directly in the directory and keeps sub-directories. */
  function Clear<V>(c: Cache<V>): (r: Cache<V>)
    ensures r.baseDir == c.baseDir
    ensures forall name :: name in r.entries ==> name in c.entries && r.entries[name] == Dir
    ensures forall name :: name in c.entries && c.entries[name] == Dir ==> name in r.entries
  {
    c.(entries := map name | name in c.entries && c.entries[name].Dir? :: c.entries[name])
  }

  /** Keys alias exactly when they agree after `:` is replaced by `_`. */
  predicate Aliases(k1: string, k2: string) {
    FileName(k1) == FileName(k2)
  }

  lemma ColonAndUnderscoreAlias(prefix: string, suffix: string)
    ensures Aliases(prefix + ":" + suffix, prefix + "_" + suffix)
    ensures prefix + ":" + suffix != prefix + "_" + suffix
  {
    var k1, k2 := prefix + ":" + suffix, prefix + "_" + suffix;
    assert k1[|prefix|] != k2[|prefix|];
  }

  /** As a string, a key's path is the base directory, a `/`, then the key's file name. */
  lemma PathShape<V>(c: Cache<V>, key: string)
    ensures PathFor(c, key)[..|c.baseDir| + 1] == c.baseDir + "/"
    ensures EndsWith(PathFor(c, key), FileName(key))
  {
    var p := PathFor(c, key);
    assert p[|p| - |FileName(key)|..] == FileName(key);
    EndsWithSlice(p, FileName(key));
  }

  /** `get` after a successful `put` returns the data put; a second `put` overwrites. */
  lemma PutGet<V>(c: Cache<V>, key: string, data: V, other: V)
    requires Put(c, key, data).Ok?
    ensures Get(Put(c, key, data).value, key) == Ok(data)
    ensures Exists(Put(c, key, data).value, key)
    ensures Put(Put(c, key, other).value, key, data) == Put(c, key, data)
  {
    var name := FileName(key);
    assert c.entries[name := File(other)][name := File(data)] == c.entries[name := File(data)];
  }

  /** `exists` is false after `delete`, unless the name is a directory (which `delete` refuses). */
  lemma DeleteThenAbsent<V>(c: Cache<V>, key: string)
    requires Delete(c, key).Ok? && !IsDirectoryName(FileName(key))
    ensures !Exists(Delete(c, key).value, key)
    ensures Get(Delete(c, key).value, key).Err?
  {
  }

  /** `put` and `delete` of one key leave every key that does not alias it unchanged. */
  lemma Frame<V>(c: Cache<V>, key: string, data: V, other: string)
    requires !Aliases(key, other)
    ensures Put(c, key, data).Ok? ==> Lookup(Put(c, key, data).value, other) == Lookup(c, other)
    ensures Delete(c, key).Ok? ==> Lookup(Delete(c, key).value, other) == Lookup(c, other)
  {
  }

  /** Writing a key is visible under every key that aliases it. */
  lemma AliasShares<V>(c: Cache<V>, key: string, data: V, other: string)
    requires Aliases(key, other) && Put(c, key, data).Ok?
    ensures Get(Put(c, key, data).value, other) == Ok(data)
  {
  }

  /** After `clear`, no key reads back a value. */
  lemma ClearEmpties<V>(c: Cache<V>, key: string)
    ensures Get(Clear(c), key).Err?
  {
  }
}
