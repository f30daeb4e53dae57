/** CodeFileSaverExecutor: picks the saver template for a generation kind
    and downcasts the artifact to the template's type. */
module CodeFileSaverExecutor {
  import opened Common
  import opened Artifacts
  import opened FileSystem
  import opened CodeFileSaver

  /** Message of the BusinessException raised for an unknown kind. */
  const UnknownKindMessage := "不存在类型"

  /** The template a kind dispatches to. */
  function TemplateFor(kind: CodeGenType): (t: Option<Template>)
    ensures t.Some? <==> !kind.Unsupported?
    ensures t.Some? ==> t.value.CodeType() == kind
  {
    match kind
    case Html => Some(HtmlTemplate)
    case MultiFile => Some(MultiFileTemplate)
    case Unsupported(_, _) => None
  }

  /** A save reaches `buildUniqueDir` (and so draws an id) exactly when the
      kind is supported and the cast succeeds; casting null always succeeds. */
  predicate DrawsId(result: Option<CodeResult>, kind: CodeGenType)
  {
    TemplateFor(kind).Some? && result.Some? && TemplateFor(kind).value.Accepts(result.value)
  }

  /** What `executeSaver` does, given the id the generator hands out. */
  function ExecuteSaverSpec(files: map<string, Content>, dirs: set<string>, broken: set<string>,
                            root: string, kind: CodeGenType, id: nat, result: Option<CodeResult>): (o: SaveOutcome)
    ensures kind.Unsupported? ==> o == SaveOutcome(files, dirs, Fail(Business(ParamsError, UnknownKindMessage)))
    ensures !DrawsId(result, kind) ==> o.files == files && o.dirs == dirs && o.result.Fail?
    ensures o.result.Ok? ==> !kind.Unsupported? && o.result.value == UniqueDirPath(root, kind, id)
  {
    match TemplateFor(kind)
    case None => SaveOutcome(files, dirs, Fail(Business(ParamsError, UnknownKindMessage)))
    case Some(t) =>
      if result.Some? && !t.Accepts(result.value) then SaveOutcome(files, dirs, Fail(ClassCast))
      else SaverSpec(files, dirs, broken, root, t, id, result)
  }

  /** Any other kind raises PARAMS_ERROR and touches nothing. */
  lemma UnknownKindWritesNothing(files: map<string, Content>, dirs: set<string>, broken: set<string>,
                                 root: string, kind: CodeGenType, id: nat, result: Option<CodeResult>)
    requires kind.Unsupported?
    ensures ExecuteSaverSpec(files, dirs, broken, root, kind, id, result)
         == SaveOutcome(files, dirs, Fail(Business(ParamsError, UnknownKindMessage)))
  {
  }

  /** HTML and MULTI_FILE delegate to their template, whose result, on
      success, is the directory it created for that kind. */
  lemma SupportedKindDelegates(files: map<string, Content>, dirs: set<string>, broken: set<string>,
                               root: string, kind: CodeGenType, id: nat, result: Option<CodeResult>)
    requires !kind.Unsupported?
    requires result.Some? ==> (result.value.HtmlResult? <==> kind == Html)
    ensures var o := ExecuteSaverSpec(files, dirs, broken, root, kind, id, result);
      && o == SaverSpec(files, dirs, broken, root, TemplateFor(kind).value, id, result)
      && (o.result.Ok? ==> o.result.value == UniqueDirPath(root, kind, id) && o.result.value in o.dirs)
  {
  }

  /** An artifact of the other shape is a ClassCastException before any
      validation, directory or write. */
  lemma WrongShapeIsClassCast(files: map<string, Content>, dirs: set<string>, broken: set<string>,
                              root: string, kind: CodeGenType, id: nat, a: CodeResult)
    requires !kind.Unsupported? && (a.HtmlResult? <==> kind != Html)
    ensures ExecuteSaverSpec(files, dirs, broken, root, kind, id, Some(a)) == SaveOutcome(files, dirs, Fail(ClassCast))
  {
  }

  /** The executor: the two shared template singletons over one disk and
      one id generator. */
  class CodeFileSaverExecutor {
    const htmlSaver: CodeFileSaverTemplate
    const multiFileSaver: CodeFileSaverTemplate
    const root: string
    const disk: Disk
    const ids: IdGenerator

    ghost predicate Valid()
    {
      && htmlSaver.template == HtmlTemplate && multiFileSaver.template == MultiFileTemplate
      && htmlSaver.root == root && multiFileSaver.root == root
      && htmlSaver.disk == disk && multiFileSaver.disk == disk
      && htmlSaver.ids == ids && multiFileSaver.ids == ids
    }

    constructor (root: string, disk: Disk, ids: IdGenerator)
      ensures Valid() && this.root == root && this.disk == disk && this.ids == ids
    {
      this.root := root;
      this.disk := disk;
      this.ids := ids;
      htmlSaver := new CodeFileSaverTemplate(HtmlTemplate, root, disk, ids);
      multiFileSaver := new CodeFileSaverTemplate(MultiFileTemplate, root, disk, ids);
    }

    /** `executeSaver(result, codeGenType, appId)`; `appId` is passed
        through and does not affect the save. */
    method ExecuteSaver(result: Option<CodeResult>, kind: CodeGenType, appId: Option<int>) returns (r: Result<string>)
      requires Valid()
      modifies disk, ids
      ensures DrawsId(result, kind) ==> old(ids.last) < ids.last
      ensures !DrawsId(result, kind) ==> ids.last == old(ids.last)
      ensures SaveOutcome(disk.files, disk.dirs, r)
           == ExecuteSaverSpec(old(disk.files), old(disk.dirs), disk.broken, root, kind, ids.last, result)
    {
      match kind
      case Html =>
        if result.Some? && !result.value.HtmlResult? {
          return Fail(ClassCast);
        }
        r := htmlSaver.Saver(result);
      case MultiFile =>
        if result.Some? && !result.value.MultiFileResult? {
          return Fail(ClassCast);
        }
        r := multiFileSaver.Saver(result);
      case Unsupported(_, _) =>
        r := Fail(Business(ParamsError, UnknownKindMessage));
    }
  }
}
