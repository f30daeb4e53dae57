/** The local filesystem and the snowflake id generator, as the saver sees
    them. hutool's `FileUtil` and `IdUtil` are not part of this model. */
module FileSystem {
  import opened Common

  /** Content written to a file. `None` is a write of a null String: the
      bytes that end up on disk are left unspecified. */
  type Content = Option<string>

  /** One `writeString(content, path)` of a sequence of writes. */
  datatype Write = Write(path: string, content: Content)

  /** The disk: file contents by path, the directories that exist, and the
      set of paths where a write throws (an I/O failure, decided by the
      environment). */
  class Disk {
    var files: map<string, Content>
    var dirs: set<string>
    const broken: set<string>

    constructor (files0: map<string, Content>, dirs0: set<string>, broken0: set<string>)
      ensures files == files0 && dirs == dirs0 && broken == broken0
    {
      files := files0;
      dirs := dirs0;
      broken := broken0;
    }

    /** `FileUtil.mkdir(path)`: the directory exists afterwards. */
    method Mkdir(path: string)
      modifies this
      ensures dirs == old(dirs) + {path}
      ensures files == old(files)
    {
      dirs := dirs + {path};
    }

    /** `FileUtil.writeString(content, path, UTF_8)`: replaces the file at
        `path` and nothing else, or throws and changes nothing. */
    method WriteString(content: Content, path: string) returns (ok: bool)
      modifies this
      ensures ok == (path !in broken)
      ensures files == if ok then old(files)[path := content] else old(files)
      ensures dirs == old(dirs)
    {
      ok := path !in broken;
      if ok {
        files := files[path := content];
      }
    }
  }

  /** Where a sequence of writes leaves the files, and the path of the write
      that threw, if one did. */
  datatype WriteOutcome = WriteOutcome(files: map<string, Content>, failed: Option<string>)

  /** Runs the writes in order; the first one that throws stops the rest,
      and the writes before it stay (there is no rollback). */
  function RunWrites(files: map<string, Content>, writes: seq<Write>, broken: set<string>): (o: WriteOutcome)
    ensures o.failed.Some? ==> o.failed.value in broken
    decreases |writes|
  {
    if writes == [] then WriteOutcome(files, None)
    else if writes[0].path in broken then WriteOutcome(files, Some(writes[0].path))
    else RunWrites(files[writes[0].path := writes[0].content], writes[1..], broken)
  }

  /** The paths a sequence of writes targets. */
  function Paths(writes: seq<Write>): (ps: set<string>)
    ensures forall k :: 0 <= k < |writes| ==> writes[k].path in ps
    ensures forall p :: p in ps ==> exists k :: 0 <= k < |writes| && writes[k].path == p
  {
    set k | 0 <= k < |writes| :: writes[k].path
  }

  /** No two writes target the same path. */
  predicate DistinctPaths(writes: seq<Write>)
  {
    forall j, k :: 0 <= j < k < |writes| ==> writes[j].path != writes[k].path
  }

  /** A path no write targets keeps its file, or keeps having none. */
  lemma {:induction false} RunWritesFrame(files: map<string, Content>, writes: seq<Write>, broken: set<string>, p: string)
    requires forall k :: 0 <= k < |writes| ==> writes[k].path != p
    ensures p in RunWrites(files, writes, broken).files <==> p in files
    ensures p in files ==> RunWrites(files, writes, broken).files[p] == files[p]
    decreases |writes|
  {
    if writes != [] && writes[0].path !in broken {
      RunWritesFrame(files[writes[0].path := writes[0].content], writes[1..], broken, p);
    }
  }

  /** The write fails exactly when one of its paths is broken, and then it
      is the first broken one that is reported. */
  lemma {:induction false} RunWritesFailsIff(files: map<string, Content>, writes: seq<Write>, broken: set<string>)
    ensures RunWrites(files, writes, broken).failed.None? <==>
      forall k :: 0 <= k < |writes| ==> writes[k].path !in broken
    ensures RunWrites(files, writes, broken).failed.Some? ==>
      exists j :: 0 <= j < |writes| && writes[j].path == RunWrites(files, writes, broken).failed.value &&
        forall k :: 0 <= k < j ==> writes[k].path !in broken
    decreases |writes|
  {
    if writes != [] && writes[0].path !in broken {
      var rest := writes[1..];
      RunWritesFailsIff(files[writes[0].path := writes[0].content], rest, broken);
      var o := RunWrites(files, writes, broken);
      if o.failed.Some? {
        var j :| 0 <= j < |rest| && rest[j].path == o.failed.value &&
          forall k :: 0 <= k < j ==> rest[k].path !in broken;
        assert writes[j + 1] == rest[j];
        assert forall k :: 1 <= k < j + 1 ==> writes[k] == rest[k - 1];
      } else {
        assert forall k :: 1 <= k < |writes| ==> writes[k] == rest[k - 1];
      }
    }
  }

  /** When no write throws and the paths are distinct, every file holds the
      content written to it. */
  lemma {:induction false} RunWritesStores(files: map<string, Content>, writes: seq<Write>, broken: set<string>, k: nat)
    requires DistinctPaths(writes) && k < |writes|
    requires forall j :: 0 <= j < |writes| ==> writes[j].path !in broken
    ensures writes[k].path in RunWrites(files, writes, broken).files
    ensures RunWrites(files, writes, broken).files[writes[k].path] == writes[k].content
    decreases |writes|
  {
    var f1 := files[writes[0].path := writes[0].content];
    if k == 0 {
      RunWritesFrame(f1, writes[1..], broken, writes[0].path);
    } else {
      RunWritesStores(f1, writes[1..], broken, k - 1);
    }
  }

  /** A write that throws keeps what the earlier writes did: the outcome is
      that of the writes before it. */
  lemma {:induction false} RunWritesNoRollback(files: map<string, Content>, writes: seq<Write>, broken: set<string>, j: nat)
    requires j < |writes| && writes[j].path in broken
    requires forall k :: 0 <= k < j ==> writes[k].path !in broken
    ensures RunWrites(files, writes, broken) == WriteOutcome(RunWrites(files, writes[..j], broken).files, Some(writes[j].path))
    decreases |writes|
  {
    if j > 0 {
      assert writes[1..][..j - 1] == writes[..j][1..];
      RunWritesNoRollback(files[writes[0].path := writes[0].content], writes[1..], broken, j - 1);
    }
  }

  /** The snowflake generator: every call gives an id larger than all the
      earlier ones. */
  class IdGenerator {
    var last: nat

    constructor ()
      ensures last == 0
    {
      last := 0;
    }

    /** `IdUtil.getSnowflakeNextId()`. */
    method NextId() returns (id: nat)
      modifies this
      ensures old(last) < id && last == id
    {
      last := last + 1;
      id := last;
    }
  }
}
