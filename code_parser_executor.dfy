/** CodeParserExecutor: picks the parser for a generation kind. */
module CodeParserExecutor {
  import opened Common
  import opened Artifacts
  import MultiFileCodeParser

  /** Prefix of the IllegalArgumentException message for an unknown kind. */
  const UnsupportedKindMessage := "不支持的类型: "

  /** `executeParser`. The single-file parser is not part of this model, so
      it is the parameter `htmlParse`; the multi-file parser is
      MultiFileCodeParser.Parse. Both are stateless, so the result is a
      function of the content and the kind alone. */
  function ExecuteParser(content: string, kind: CodeGenType, htmlParse: string -> HtmlCodeResult): (r: Result<CodeResult>)
    ensures r.Ok? <==> !kind.Unsupported?
    ensures r.Ok? ==> (r.value.HtmlResult? <==> kind == Html)
  {
    match kind
    case Html => Ok(HtmlResult(htmlParse(content)))
    case MultiFile => Ok(MultiFileResult(MultiFileCodeParser.Parse(content)))
    case Unsupported(_, _) => Fail(IllegalArgument(UnsupportedKindMessage + kind.Name()))
  }

  /** HTML content goes to the single-file parser, unchanged. */
  lemma HtmlKindUsesHtmlParser(content: string, htmlParse: string -> HtmlCodeResult)
    ensures ExecuteParser(content, Html, htmlParse) == Ok(HtmlResult(htmlParse(content)))
  {
  }

  /** MULTI_FILE content goes to the multi-file parser, and the result does
      not depend on the single-file parser. */
  lemma MultiFileKindUsesMultiFileParser(content: string, h1: string -> HtmlCodeResult, h2: string -> HtmlCodeResult)
    ensures ExecuteParser(content, MultiFile, h1) == Ok(MultiFileResult(MultiFileCodeParser.Parse(content)))
    ensures ExecuteParser(content, MultiFile, h1) == ExecuteParser(content, MultiFile, h2)
  {
  }

  /** Any other kind is an IllegalArgumentException naming the constant. */
  lemma OtherKindRejected(content: string, kind: CodeGenType, htmlParse: string -> HtmlCodeResult)
    requires kind.Unsupported?
    ensures ExecuteParser(content, kind, htmlParse) == Fail(IllegalArgument(UnsupportedKindMessage + kind.name))
  {
  }
}
