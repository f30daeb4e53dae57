/** CodeFileSaverTemplate and its two subclasses: the template method that
    validates a generated artifact, creates a fresh output directory and
    writes the artifact's files into it. */
module CodeFileSaver {
  import opened Common
  import opened JavaText
  import opened Artifacts
  import opened FileSystem

  /** `File.separator`, taken to be the POSIX one. */
  const Separator := "/"

  /** Message of the BusinessException raised for a null artifact. */
  const NullResultMessage := "参数不能为空"

  /** The two concrete templates. */
  datatype Template = HtmlTemplate | MultiFileTemplate
  {
    /** `getCodeType()`. */
    function CodeType(): (k: CodeGenType)
      ensures !k.Unsupported?
      ensures (k == Html) <==> this == HtmlTemplate
    {
      match this
      case HtmlTemplate => Html
      case MultiFileTemplate => MultiFile
    }

    /** The artifact shape the template's type parameter admits. */
    predicate Accepts(r: CodeResult)
    {
      match this
      case HtmlTemplate => r.HtmlResult?
      case MultiFileTemplate => r.MultiFileResult?
    }
  }

  /** `{type}_{id}`, the name `buildUniqueDir` gives the directory. */
  function UniqueDirName(kind: CodeGenType, id: nat): string
  {
    kind.Value() + "_" + DecimalString(id)
  }

  /** `FILE_SAVE_ROOT_DIR + File.separator + uniqueDirName`. */
  function UniqueDirPath(root: string, kind: CodeGenType, id: nat): (p: string)
    ensures |root| + 1 <= |p| && p[..|root| + 1] == root + Separator
    ensures p[|root| + 1..] == kind.Value() + "_" + DecimalString(id)
  {
    root + Separator + UniqueDirName(kind, id)
  }

  /** `dirPath + File.separator + filename`, as `writeToFile` builds it. */
  function FilePath(dir: string, name: string): string
  {
    dir + Separator + name
  }

  /** The writes `saveFile` performs for an artifact, in order. */
  function Layout(dir: string, result: CodeResult): (ws: seq<Write>)
    ensures |ws| == if result.HtmlResult? then 1 else 3
    ensures ws[0].path == FilePath(dir, "index.html")
    ensures result.HtmlResult? ==> ws[0].content == result.html.htmlCode
    ensures result.MultiFileResult? ==>
      && ws[0].content == result.multi.htmlCode
      && ws[1] == Write(FilePath(dir, "style.css"), result.multi.cssCode)
      && ws[2] == Write(FilePath(dir, "script.js"), result.multi.jsCode)
  {
    match result
    case HtmlResult(h) => [Write(FilePath(dir, "index.html"), h.htmlCode)]
    case MultiFileResult(m) =>
      [ Write(FilePath(dir, "index.html"), m.htmlCode),
        Write(FilePath(dir, "style.css"), m.cssCode),
        Write(FilePath(dir, "script.js"), m.jsCode) ]
  }

  /** State after one save, and what it returned or threw. */
  datatype SaveOutcome = SaveOutcome(files: map<string, Content>, dirs: set<string>, result: Result<string>)

  /** What `saver` does, given the id the generator hands out: a null
      artifact fails before anything exists; otherwise the directory is
      created and the files are written until one write throws. */
  function SaverSpec(files: map<string, Content>, dirs: set<string>, broken: set<string>,
                     root: string, t: Template, id: nat, result: Option<CodeResult>): (o: SaveOutcome)
    ensures result.None? ==> o == SaveOutcome(files, dirs, Fail(Business(ParamsError, NullResultMessage)))
    ensures result.Some? ==> o.dirs == dirs + {UniqueDirPath(root, t.CodeType(), id)}
    ensures o.result.Ok? ==> o.result.value == UniqueDirPath(root, t.CodeType(), id)
    ensures result.Some? && o.result.Fail? ==> o.result.error.WriteFailed? && o.result.error.path in broken
  {
    match result
    case None => SaveOutcome(files, dirs, Fail(Business(ParamsError, NullResultMessage)))
    case Some(a) =>
      var dir := UniqueDirPath(root, t.CodeType(), id);
      var o := RunWrites(files, Layout(dir, a), broken);
      SaveOutcome(o.files, dirs + {dir},
                  if o.failed.None? then Ok(dir) else Fail(WriteFailed(o.failed.value)))
  }

  // ----------------------------------------------------------- properties

  /** Different file names give different paths in one directory. */
  lemma FilePathInjective(dir: string, a: string, b: string)
    ensures FilePath(dir, a) == FilePath(dir, b) ==> a == b
  {
    assert FilePath(dir, a)[|dir| + 1..] == a;
    assert FilePath(dir, b)[|dir| + 1..] == b;
  }

  /** Every file of the layout lies directly in the directory, and no two
      writes target the same file. */
  lemma LayoutInsideDir(dir: string, result: CodeResult)
    ensures DistinctPaths(Layout(dir, result))
    ensures forall k :: 0 <= k < |Layout(dir, result)| ==>
      |dir| + 1 <= |Layout(dir, result)[k].path| && Layout(dir, result)[k].path[..|dir| + 1] == dir + Separator
  {
    FilePathInjective(dir, "index.html", "style.css");
    FilePathInjective(dir, "index.html", "script.js");
    FilePathInjective(dir, "style.css", "script.js");
    FilePathInDir(dir, "index.html");
    FilePathInDir(dir, "style.css");
    FilePathInDir(dir, "script.js");
    var ws := Layout(dir, result);
    if result.MultiFileResult? {
      assert ws[0].path == FilePath(dir, "index.html");
      assert ws[1].path == FilePath(dir, "style.css");
      assert ws[2].path == FilePath(dir, "script.js");
    } else {
      assert ws[0].path == FilePath(dir, "index.html");
    }
  }

  lemma FilePathInDir(dir: string, name: string)
    ensures |dir| + 1 <= |FilePath(dir, name)| && FilePath(dir, name)[..|dir| + 1] == dir + Separator
  {
    assert (dir + Separator + name)[..|dir| + 1] == dir + Separator;
  }

  /** A null artifact is rejected with PARAMS_ERROR, and no directory or
      file is created. */
  lemma SaverRejectsNull(files: map<string, Content>, dirs: set<string>, broken: set<string>, root: string, t: Template, id: nat)
    ensures SaverSpec(files, dirs, broken, root, t, id, None) == SaveOutcome(files, dirs, Fail(Business(ParamsError, NullResultMessage)))
  {
  }

  /** The HTML template writes exactly one file, `index.html`, holding the
      artifact's HTML, in a directory named `html_{id}`, and returns that
      directory. */
  lemma HtmlSaverWritesIndex(files: map<string, Content>, dirs: set<string>, broken: set<string>, root: string, id: nat, h: HtmlCodeResult)
    requires FilePath(UniqueDirPath(root, Html, id), "index.html") !in broken
    ensures var dir := root + "/html_" + DecimalString(id);
      SaverSpec(files, dirs, broken, root, HtmlTemplate, id, Some(HtmlResult(h)))
        == SaveOutcome(files[dir + "/index.html" := h.htmlCode], dirs + {dir}, Ok(dir))
  {
    var dir := UniqueDirPath(root, Html, id);
    assert dir == root + "/html_" + DecimalString(id);
    assert FilePath(dir, "index.html") == dir + "/index.html";
    var ws := Layout(dir, HtmlResult(h));
    assert ws[1..] == [];
    assert RunWrites(files, ws, broken) == RunWrites(files[dir + "/index.html" := h.htmlCode], [], broken);
  }

  /** The multi-file template writes exactly `index.html`, `style.css` and
      `script.js`, three distinct files, with the three fields in that order,
      whether or not a field was extracted, in a directory named
      `multi_file_{id}`. */
  lemma MultiFileSaverWritesThree(files: map<string, Content>, dirs: set<string>, broken: set<string>, root: string, id: nat, m: MultiFileCodeResult)
    requires FilePath(UniqueDirPath(root, MultiFile, id), "index.html") !in broken
    requires FilePath(UniqueDirPath(root, MultiFile, id), "style.css") !in broken
    requires FilePath(UniqueDirPath(root, MultiFile, id), "script.js") !in broken
    ensures var dir := root + "/multi_file_" + DecimalString(id);
      && dir + "/index.html" != dir + "/style.css" && dir + "/index.html" != dir + "/script.js"
      && dir + "/style.css" != dir + "/script.js"
      && SaverSpec(files, dirs, broken, root, MultiFileTemplate, id, Some(MultiFileResult(m)))
         == SaveOutcome(files[dir + "/index.html" := m.htmlCode][dir + "/style.css" := m.cssCode][dir + "/script.js" := m.jsCode],
                        dirs + {dir}, Ok(dir))
  {
    var dir := UniqueDirPath(root, MultiFile, id);
    MultiFileDirIs(root, id);
    assert FilePath(dir, "index.html") == dir + "/index.html";
    assert FilePath(dir, "style.css") == dir + "/style.css";
    assert FilePath(dir, "script.js") == dir + "/script.js";
    FilePathInjective(dir, "index.html", "style.css");
    FilePathInjective(dir, "index.html", "script.js");
    FilePathInjective(dir, "style.css", "script.js");
    MultiFileSaverSteps(files, dirs, broken, root, id, m);
  }

  /** The multi-file directory path spelled out. */
  lemma MultiFileDirIs(root: string, id: nat)
    ensures UniqueDirPath(root, MultiFile, id) == root + "/multi_file_" + DecimalString(id)
  {
    var d := DecimalString(id);
    assert "/" + ("multi_file" + "_" + d) == "/multi_file_" + d;
  }

  /** The multi-file save written with the template's own path functions. */
  lemma MultiFileSaverSteps(files: map<string, Content>, dirs: set<string>, broken: set<string>, root: string, id: nat, m: MultiFileCodeResult)
    requires FilePath(UniqueDirPath(root, MultiFile, id), "index.html") !in broken
    requires FilePath(UniqueDirPath(root, MultiFile, id), "style.css") !in broken
    requires FilePath(UniqueDirPath(root, MultiFile, id), "script.js") !in broken
    ensures var dir := UniqueDirPath(root, MultiFile, id);
      SaverSpec(files, dirs, broken, root, MultiFileTemplate, id, Some(MultiFileResult(m)))
        == SaveOutcome(files[FilePath(dir, "index.html") := m.htmlCode][FilePath(dir, "style.css") := m.cssCode]
                            [FilePath(dir, "script.js") := m.jsCode], dirs + {dir}, Ok(dir))
  {
    var dir := UniqueDirPath(root, MultiFile, id);
    RunThreeWrites(files, Layout(dir, MultiFileResult(m)), broken);
  }

  lemma RunThreeWrites(files: map<string, Content>, ws: seq<Write>, broken: set<string>)
    requires |ws| == 3 && ws[0].path !in broken && ws[1].path !in broken && ws[2].path !in broken
    ensures RunWrites(files, ws, broken)
         == WriteOutcome(files[ws[0].path := ws[0].content][ws[1].path := ws[1].content][ws[2].path := ws[2].content], None)
  {
    var f1 := files[ws[0].path := ws[0].content];
    var f2 := f1[ws[1].path := ws[1].content];
    assert ws[1..][0] == ws[1] && ws[1..][1..][0] == ws[2] && ws[1..][1..][1..] == [];
    assert RunWrites(files, ws, broken) == RunWrites(f1, ws[1..], broken);
    assert RunWrites(f1, ws[1..], broken) == RunWrites(f2, ws[1..][1..], broken);
    assert RunWrites(f2, ws[1..][1..], broken) == RunWrites(f2[ws[2].path := ws[2].content], [], broken);
  }

  /** When the `style.css` write throws, `index.html` stays written, the
      script is never written, and the failure reaches the caller. */
  lemma MultiFileSaverNoRollback(files: map<string, Content>, dirs: set<string>, broken: set<string>, root: string, id: nat, m: MultiFileCodeResult)
    requires FilePath(UniqueDirPath(root, MultiFile, id), "index.html") !in broken
    requires FilePath(UniqueDirPath(root, MultiFile, id), "style.css") in broken
    ensures var dir := UniqueDirPath(root, MultiFile, id);
      SaverSpec(files, dirs, broken, root, MultiFileTemplate, id, Some(MultiFileResult(m)))
        == SaveOutcome(files[FilePath(dir, "index.html") := m.htmlCode], dirs + {dir}, Fail(WriteFailed(FilePath(dir, "style.css"))))
  {
    var dir := UniqueDirPath(root, MultiFile, id);
    var ws := Layout(dir, MultiFileResult(m));
    assert ws[1..][0] == ws[1];
    assert RunWrites(files, ws, broken) == RunWrites(files[FilePath(dir, "index.html") := m.htmlCode], ws[1..], broken);
  }

  /** A save changes only files inside its own directory, and a successful
      save returns the directory it created. */
  lemma SaverStaysInItsDir(files: map<string, Content>, dirs: set<string>, broken: set<string>, root: string, t: Template, id: nat, result: Option<CodeResult>, p: string)
    requires !(|UniqueDirPath(root, t.CodeType(), id)| + 1 <= |p| && p[..|UniqueDirPath(root, t.CodeType(), id)| + 1] == UniqueDirPath(root, t.CodeType(), id) + Separator)
    ensures var o := SaverSpec(files, dirs, broken, root, t, id, result);
      && (p in o.files <==> p in files)
      && (p in files ==> o.files[p] == files[p])
      && (o.result.Ok? ==> o.result.value == UniqueDirPath(root, t.CodeType(), id) && o.result.value in o.dirs)
  {
    if result.Some? {
      var dir := UniqueDirPath(root, t.CodeType(), id);
      LayoutInsideDir(dir, result.value);
      RunWritesFrame(files, Layout(dir, result.value), broken, p);
    }
  }

  /** A `_` followed by digits at the end of a name fixes where the digits start. */
  lemma DigitSuffixInjective(x1: string, d1: string, x2: string, d2: string)
    requires forall k :: 0 <= k < |d1| ==> '0' <= d1[k] <= '9'
    requires forall k :: 0 <= k < |d2| ==> '0' <= d2[k] <= '9'
    ensures x1 + "_" + d1 == x2 + "_" + d2 ==> x1 == x2 && d1 == d2
  {
    var s1 := x1 + "_" + d1;
    var s2 := x2 + "_" + d2;
    if s1 == s2 {
      var n := |s1|;
      assert s1[n - 1 - |d1|] == '_';
      assert s2[n - 1 - |d2|] == '_';
      forall x | n - |d1| <= x < n ensures s1[x] != '_' {
        assert s1[x] == d1[x - (n - |d1|)];
      }
      forall x | n - |d2| <= x < n ensures s2[x] != '_' {
        assert s2[x] == d2[x - (n - |d2|)];
      }
      assert |d1| == |d2|;
      assert d1 == s1[n - |d1|..] && d2 == s2[n - |d2|..];
      assert x1 == s1[..|x1|] && x2 == s2[..|x2|];
    }
  }

  /** Two saves given different ids never share a directory, whatever
      their kinds. */
  lemma DistinctIdsDistinctDirs(root: string, k1: CodeGenType, id1: nat, k2: CodeGenType, id2: nat)
    requires id1 != id2
    ensures UniqueDirPath(root, k1, id1) != UniqueDirPath(root, k2, id2)
  {
    var d1, d2 := DecimalString(id1), DecimalString(id2);
    DecimalStringInjective(id1, id2);
    DirPathRegroup(root, k1.Value(), d1);
    DirPathRegroup(root, k2.Value(), d2);
    DigitSuffixInjective(root + Separator + k1.Value(), d1, root + Separator + k2.Value(), d2);
  }

  lemma DirPathRegroup(root: string, v: string, d: string)
    ensures root + Separator + (v + "_" + d) == (root + Separator + v) + "_" + d
  {
  }

  // ------------------------------------------------------------ templates

  /** One template instance, sharing the disk and the id generator with the
      rest of the program. */
  class CodeFileSaverTemplate {
    const template: Template
    const root: string
    const disk: Disk
    const ids: IdGenerator

    constructor (template: Template, root: string, disk: Disk, ids: IdGenerator)
      ensures this.template == template && this.root == root && this.disk == disk && this.ids == ids
    {
      this.template := template;
      this.root := root;
      this.disk := disk;
      this.ids := ids;
    }

    /** `saver(result)`: validate, then build the directory, then save. */
    method Saver(result: Option<CodeResult>) returns (r: Result<string>)
      requires result.Some? ==> template.Accepts(result.value)
      modifies disk, ids
      ensures result.None? ==> ids.last == old(ids.last)
      ensures result.Some? ==> old(ids.last) < ids.last
      ensures SaveOutcome(disk.files, disk.dirs, r)
           == SaverSpec(old(disk.files), old(disk.dirs), disk.broken, root, template, ids.last, result)
    {
      var invalid := ValidateParams(result);
      if invalid.Some? {
        return Fail(invalid.value);
      }
      var dir := BuildUniqueDir();
      var failed := SaveFile(result.value, dir);
      r := if failed.None? then Ok(dir) else Fail(WriteFailed(failed.value));
    }

    /** `validateParams`: only a null artifact is rejected. */
    static function ValidateParams(result: Option<CodeResult>): (e: Option<Error>)
      ensures e.Some? <==> result.None?
      ensures e.Some? ==> e.value == Business(ParamsError, NullResultMessage)
    {
      if result.None? then Some(Business(ParamsError, NullResultMessage)) else None
    }

    /** `buildUniqueDir`: a fresh id, and the directory named after it. */
    method BuildUniqueDir() returns (dir: string)
      modifies disk, ids
      ensures old(ids.last) < ids.last
      ensures dir == UniqueDirPath(root, template.CodeType(), ids.last)
      ensures disk.dirs == old(disk.dirs) + {dir} && disk.files == old(disk.files)
    {
      var id := ids.NextId();
      dir := UniqueDirPath(root, template.CodeType(), id);
      disk.Mkdir(dir);
    }

    /** `saveFile`: one write for HTML, three in a row for multi-file,
        stopping at the first that throws. */
    method SaveFile(result: CodeResult, dir: string) returns (failed: Option<string>)
      requires template.Accepts(result)
      modifies disk
      ensures disk.files == RunWrites(old(disk.files), Layout(dir, result), disk.broken).files
      ensures failed == RunWrites(old(disk.files), Layout(dir, result), disk.broken).failed
      ensures disk.dirs == old(disk.dirs)
    {
      match result
      case HtmlResult(h) =>
        assert Layout(dir, result)[1..] == [];
        failed := WriteToFile(disk, dir, "index.html", h.htmlCode);
      case MultiFileResult(m) =>
        ghost var ws := Layout(dir, result);
        ghost var b := disk.broken;
        assert ws[1..] == [ws[1], ws[2]] && ws[1..][1..] == [ws[2]] && ws[1..][1..][1..] == [];
        ghost var f0 := disk.files;
        failed := WriteToFile(disk, dir, "index.html", m.htmlCode);
        if failed.Some? { return; }
        assert RunWrites(f0, ws, b) == RunWrites(disk.files, ws[1..], b);
        ghost var f1 := disk.files;
        failed := WriteToFile(disk, dir, "style.css", m.cssCode);
        if failed.Some? { return; }
        assert RunWrites(f1, ws[1..], b) == RunWrites(disk.files, ws[1..][1..], b);
        failed := WriteToFile(disk, dir, "script.js", m.jsCode);
    }

    /** `writeToFile`: writes `dir/name` and no other path. */
    static method WriteToFile(disk: Disk, dir: string, name: string, content: Content) returns (failed: Option<string>)
      modifies disk
      ensures failed == if FilePath(dir, name) in disk.broken then Some(FilePath(dir, name)) else None
      ensures disk.files == if failed.None? then old(disk.files)[FilePath(dir, name) := content] else old(disk.files)
      ensures disk.dirs == old(disk.dirs)
    {
      var path := FilePath(dir, name);
      var ok := disk.WriteString(content, path);
      failed := if ok then None else Some(path);
    }
  }
}
