/** The generation kinds and the two artifact shapes the language model produces. */
module Artifacts {
  import opened Common

  /** The code-generation kind. HTML and MULTI_FILE are the kinds the core
      handles; `Unsupported` stands for any further constant of the
      enumeration (its constant name and its value), which every dispatch
      rejects in its default branch. */
  datatype CodeGenType = Html | MultiFile | Unsupported(name: string, value: string)
  {
    /** The constant's name, which is what `toString()` of an enum gives. */
    function Name(): string
    {
      match this
      case Html => "HTML"
      case MultiFile => "MULTI_FILE"
      case Unsupported(n, _) => n
    }

    /** The enumeration value (`getValue()`), used as the output directory prefix. */
    function Value(): string
    {
      match this
      case Html => "html"
      case MultiFile => "multi_file"
      case Unsupported(_, v) => v
    }
  }

  /** Single-file artifact: one HTML payload (null when nothing was extracted). */
  datatype HtmlCodeResult = HtmlCodeResult(htmlCode: Option<string>)

  /** Multi-file artifact: three independent payloads, each possibly null. */
  datatype MultiFileCodeResult =
    MultiFileCodeResult(htmlCode: Option<string>, cssCode: Option<string>, jsCode: Option<string>)

  /** What the parser dispatch returns as `Object`: one of the two shapes. */
  datatype CodeResult = HtmlResult(html: HtmlCodeResult) | MultiFileResult(multi: MultiFileCodeResult)

  /** The record `new MultiFileCodeResult()` builds: every field null. */
  const EmptyMultiFile := MultiFileCodeResult(None, None, None)
}
