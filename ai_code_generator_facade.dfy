/** AiCodeGeneratorFacade: asks the language model for code of a given kind
    and saves it, either from a structured answer or from a token stream
    that is forwarded while it is collected. */
module AiCodeGeneratorFacade {
  import opened Common
  import opened Artifacts
  import opened FileSystem
  import opened CodeFileSaver
  import opened CodeParserExecutor
  import opened CodeFileSaverExecutor
  import opened AiProvider
  import MultiFileCodeParser

  /** Messages of the SYSTEM_ERROR guards. */
  const NullKindMessage := "生成类型为空"
  const UnsupportedKindPrefix := "不支持的生成类型："

  /** The guard both entry points run before calling the model: a null kind
      and any kind other than HTML and MULTI_FILE are SYSTEM_ERRORs, the
      latter naming the kind's value. */
  function KindGuard(kind: Option<CodeGenType>): (e: Option<Error>)
    ensures e.None? <==> kind == Some(Html) || kind == Some(MultiFile)
    ensures e.Some? ==> e.value.Business? && e.value.code == SystemError
    ensures kind.None? ==> e == Some(Business(SystemError, NullKindMessage))
    ensures kind.Some? && kind.value.Unsupported? ==>
      e == Some(Business(SystemError, UnsupportedKindPrefix + kind.value.value))
  {
    match kind
    case None => Some(Business(SystemError, NullKindMessage))
    case Some(Unsupported(_, v)) => Some(Business(SystemError, UnsupportedKindPrefix + v))
    case Some(_) => None
  }

  /** What `StringBuilder.append` over the tokens builds: their in-order
      concatenation. */
  function Concat(tokens: seq<string>): (text: string)
    ensures |tokens| == 1 ==> text == tokens[0]
    ensures (forall k :: 0 <= k < |tokens| ==> tokens[k] == "") ==> text == ""
  {
    if tokens == [] then "" else Concat(tokens[..|tokens| - 1]) + tokens[|tokens| - 1]
  }

  /** Collecting two runs of tokens one after the other is collecting each. */
  lemma {:induction false} ConcatAppend(a: seq<string>, b: seq<string>)
    ensures Concat(a + b) == Concat(a) + Concat(b)
    decreases |b|
  {
    if b == [] {
      assert a + b == a;
    } else {
      var b' := b[..|b| - 1];
      assert (a + b)[..|a + b| - 1] == a + b';
      assert (a + b)[|a + b| - 1] == b[|b| - 1];
      assert Concat(a + b) == Concat(a + b') + b[|b| - 1];
      ConcatAppend(a, b');
      assert Concat(b) == Concat(b') + b[|b| - 1];
    }
  }

  /** The text keeps every char of every token in order: each token sits at
      its offset, between the text of the tokens before it and the text of
      the tokens after it. */
  lemma {:induction false} ConcatHoldsTokens(tokens: seq<string>, k: nat)
    requires k < |tokens|
    ensures var off := |Concat(tokens[..k])|;
      && |Concat(tokens)| == off + |tokens[k]| + |Concat(tokens[k + 1..])|
      && Concat(tokens)[off..off + |tokens[k]|] == tokens[k]
  {
    assert tokens == tokens[..k] + ([tokens[k]] + tokens[k + 1..]);
    ConcatAppend(tokens[..k], [tokens[k]] + tokens[k + 1..]);
    ConcatAppend([tokens[k]], tokens[k + 1..]);
    assert [tokens[k]][..0] == [];
  }

  /** What the completion step does with the collected text: parse it for
      the kind, then save the parsed artifact. */
  function ParseThenSaveSpec(files: map<string, Content>, dirs: set<string>, broken: set<string>, root: string,
                             kind: CodeGenType, id: nat, text: string, htmlParse: string -> HtmlCodeResult): (o: SaveOutcome)
    ensures kind.Unsupported? ==> o.files == files && o.dirs == dirs && o.result.Fail? && o.result.error.IllegalArgument?
    ensures !kind.Unsupported? ==> o.dirs == dirs + {UniqueDirPath(root, kind, id)}
    ensures o.result.Ok? ==> o.result.value == UniqueDirPath(root, kind, id)
  {
    match ExecuteParser(text, kind, htmlParse)
    case Fail(e) => SaveOutcome(files, dirs, Fail(e))
    case Ok(a) => ExecuteSaverSpec(files, dirs, broken, root, kind, id, Some(a))
  }

  /** For the kinds the facade lets through, the parser's artifact always
      has the shape the saver casts to and is never null: the save ends in
      the new directory or in a failed write, nothing else. */
  lemma ParseThenSaveOnlyWritesFail(files: map<string, Content>, dirs: set<string>, broken: set<string>, root: string,
                                    kind: CodeGenType, id: nat, text: string, htmlParse: string -> HtmlCodeResult)
    requires !kind.Unsupported?
    ensures var o := ParseThenSaveSpec(files, dirs, broken, root, kind, id, text, htmlParse);
      && o.dirs == dirs + {UniqueDirPath(root, kind, id)}
      && (o.result.Ok? ==> o.result.value == UniqueDirPath(root, kind, id))
      && (o.result.Fail? ==> o.result.error.WriteFailed?)
  {
  }

  /** A completed MULTI_FILE stream saves exactly the three fields the
      parser draws from the whole text. */
  lemma StreamedMultiFileSavesParsedFields(files: map<string, Content>, dirs: set<string>, broken: set<string>, root: string,
                                           id: nat, tokens: seq<string>, htmlParse: string -> HtmlCodeResult)
    requires forall name :: name in {"index.html", "style.css", "script.js"} ==>
      FilePath(UniqueDirPath(root, MultiFile, id), name) !in broken
    ensures var p := MultiFileCodeParser.Parse(Concat(tokens));
      var dir := UniqueDirPath(root, MultiFile, id);
      ParseThenSaveSpec(files, dirs, broken, root, MultiFile, id, Concat(tokens), htmlParse)
        == SaveOutcome(files[dir + "/index.html" := p.htmlCode][dir + "/style.css" := p.cssCode][dir + "/script.js" := p.jsCode],
                       dirs + {dir}, Ok(dir))
  {
    var dir := UniqueDirPath(root, MultiFile, id);
    assert FilePath(dir, "index.html") !in broken;
    assert FilePath(dir, "style.css") !in broken;
    assert FilePath(dir, "script.js") !in broken;
    MultiFileSaverWritesThree(files, dirs, broken, root, id, MultiFileCodeParser.Parse(Concat(tokens)));
  }

  /** What the completion step logs. */
  datatype LogEntry = Saved(dir: string) | SaveFailed(error: Error)

  function LogFor(r: Result<string>): LogEntry
  {
    match r
    case Ok(dir) => Saved(dir)
    case Fail(e) => SaveFailed(e)
  }

  /** The artifact as the saver receives it (`Object`, possibly null). */
  function AsHtml(h: Option<HtmlCodeResult>): Option<CodeResult>
  {
    match h
    case None => None
    case Some(v) => Some(HtmlResult(v))
  }

  function AsMultiFile(m: Option<MultiFileCodeResult>): Option<CodeResult>
  {
    match m
    case None => None
    case Some(v) => Some(MultiFileResult(v))
  }

  class Facade {
    const provider: Provider
    const saver: CodeFileSaverExecutor
    /** The single-file parser, which is not part of this model. */
    const htmlParse: string -> HtmlCodeResult
    /** What `log.info` / `log.error` recorded about saves. */
    var log: seq<LogEntry>

    ghost predicate Valid()
    {
      saver.Valid()
    }

    constructor (provider: Provider, saver: CodeFileSaverExecutor, htmlParse: string -> HtmlCodeResult)
      requires saver.Valid()
      ensures Valid() && log == []
      ensures this.provider == provider && this.saver == saver && this.htmlParse == htmlParse
    {
      this.provider := provider;
      this.saver := saver;
      this.htmlParse := htmlParse;
      log := [];
    }

    /** `processCode`: the structured answer goes to the saver unparsed. */
    method ProcessCode(result: Option<CodeResult>, kind: CodeGenType) returns (r: Result<string>)
      requires Valid()
      modifies saver.disk, saver.ids
      ensures DrawsId(result, kind) ==> old(saver.ids.last) < saver.ids.last
      ensures !DrawsId(result, kind) ==> saver.ids.last == old(saver.ids.last)
      ensures SaveOutcome(saver.disk.files, saver.disk.dirs, r)
           == ExecuteSaverSpec(old(saver.disk.files), old(saver.disk.dirs), saver.disk.broken, saver.root, kind, saver.ids.last, result)
    {
      r := saver.ExecuteSaver(result, kind, None);
    }

    /** `generateAndSaveCode`: guard, one call to the model, then save. */
    method GenerateAndSaveCode(prompt: string, kind: Option<CodeGenType>) returns (r: Result<string>)
      requires Valid()
      modifies provider, saver.disk, saver.ids
      ensures KindGuard(kind).Some? ==>
        && r == Fail(KindGuard(kind).value)
        && provider.calls == old(provider.calls)
        && saver.disk.files == old(saver.disk.files) && saver.disk.dirs == old(saver.disk.dirs)
        && saver.ids.last == old(saver.ids.last)
      ensures kind == Some(Html) ==>
        && provider.calls == old(provider.calls) + [HtmlCall(prompt)]
        && SaveOutcome(saver.disk.files, saver.disk.dirs, r)
           == ExecuteSaverSpec(old(saver.disk.files), old(saver.disk.dirs), saver.disk.broken, saver.root,
                               Html, saver.ids.last, AsHtml(provider.html(prompt)))
        && (if provider.html(prompt).Some? then old(saver.ids.last) < saver.ids.last
            else saver.ids.last == old(saver.ids.last))
      ensures kind == Some(MultiFile) ==>
        && provider.calls == old(provider.calls) + [MultiFileCall(prompt)]
        && SaveOutcome(saver.disk.files, saver.disk.dirs, r)
           == ExecuteSaverSpec(old(saver.disk.files), old(saver.disk.dirs), saver.disk.broken, saver.root,
                               MultiFile, saver.ids.last, AsMultiFile(provider.multiFile(prompt)))
        && (if provider.multiFile(prompt).Some? then old(saver.ids.last) < saver.ids.last
            else saver.ids.last == old(saver.ids.last))
    {
      var guard := KindGuard(kind);
      if guard.Some? {
        return Fail(guard.value);
      }
      match kind.value
      case Html =>
        var h := provider.GenerateHtmlCode(prompt);
        r := ProcessCode(AsHtml(h), Html);
      case MultiFile =>
        var m := provider.GenerateMultiFileCode(prompt);
        r := ProcessCode(AsMultiFile(m), MultiFile);
    }

    /** `processCodeStreaming`, run to the end of the stream: every token is
        passed on unchanged and appended to a builder; on completion the
        text is parsed and saved, and any failure is only logged; on error
        nothing is saved. */
    method ProcessCodeStreaming(stream: TokenStream, kind: CodeGenType) returns (out: TokenStream)
      requires Valid()
      modifies this, saver.disk, saver.ids
      ensures out == stream
      ensures stream.end.Error? ==>
        && saver.disk.files == old(saver.disk.files) && saver.disk.dirs == old(saver.disk.dirs)
        && saver.ids.last == old(saver.ids.last) && log == old(log)
      ensures stream.end.Complete? ==>
        var o := ParseThenSaveSpec(old(saver.disk.files), old(saver.disk.dirs), saver.disk.broken, saver.root,
                                   kind, saver.ids.last, Concat(stream.tokens), htmlParse);
        && saver.disk.files == o.files && saver.disk.dirs == o.dirs
        && log == old(log) + [LogFor(o.result)]
      ensures stream.end.Complete? && !kind.Unsupported? ==> old(saver.ids.last) < saver.ids.last
      ensures kind.Unsupported? ==> saver.ids.last == old(saver.ids.last)
    {
      var builder := "";
      var emitted: seq<string> := [];
      var i := 0;
      while i < |stream.tokens|
        invariant 0 <= i <= |stream.tokens|
        invariant emitted == stream.tokens[..i]
        invariant builder == Concat(stream.tokens[..i])
      {
        assert stream.tokens[..i + 1][..i] == stream.tokens[..i];
        emitted := emitted + [stream.tokens[i]];
        builder := builder + stream.tokens[i];
        i := i + 1;
      }
      assert stream.tokens[..i] == stream.tokens;
      out := TokenStream(emitted, stream.end);
      if stream.end.Complete? {
        var parsed := ExecuteParser(builder, kind, htmlParse);
        var r: Result<string>;
        if parsed.Fail? {
          r := Fail(parsed.error);
        } else {
          r := saver.ExecuteSaver(Some(parsed.value), kind, None);
        }
        log := log + [LogFor(r)];
      }
    }

    /** `generateAndSaveCodeStreaming`, with the returned stream consumed to
        its end. */
    method GenerateAndSaveCodeStreaming(prompt: string, kind: Option<CodeGenType>) returns (r: Result<TokenStream>)
      requires Valid()
      modifies this, provider, saver.disk, saver.ids
      ensures KindGuard(kind).Some? ==>
        && r == Fail(KindGuard(kind).value)
        && provider.calls == old(provider.calls) && log == old(log)
        && saver.disk.files == old(saver.disk.files) && saver.disk.dirs == old(saver.disk.dirs)
        && saver.ids.last == old(saver.ids.last)
      ensures kind == Some(Html) ==>
        provider.calls == old(provider.calls) + [HtmlStreamCall(prompt)] && r == Ok(provider.htmlStream(prompt))
      ensures kind == Some(MultiFile) ==>
        provider.calls == old(provider.calls) + [MultiFileStreamCall(prompt)] && r == Ok(provider.multiFileStream(prompt))
      ensures r.Ok? && r.value.end.Complete? ==>
        var o := ParseThenSaveSpec(old(saver.disk.files), old(saver.disk.dirs), saver.disk.broken, saver.root,
                                   kind.value, saver.ids.last, Concat(r.value.tokens), htmlParse);
        && saver.disk.files == o.files && saver.disk.dirs == o.dirs
        && log == old(log) + [LogFor(o.result)]
        && old(saver.ids.last) < saver.ids.last
      ensures r.Ok? && r.value.end.Error? ==>
        && saver.disk.files == old(saver.disk.files) && saver.disk.dirs == old(saver.disk.dirs) && log == old(log)
        && saver.ids.last == old(saver.ids.last)
    {
      var guard := KindGuard(kind);
      if guard.Some? {
        return Fail(guard.value);
      }
      var stream: TokenStream;
      if kind.value == Html {
        stream := provider.GenerateHtmlCodeStreaming(prompt);
      } else {
        stream := provider.GenerateMultiFileCodeStreaming(prompt);
      }
      var out := ProcessCodeStreaming(stream, kind.value);
      r := Ok(out);
    }
  }
}
