/** The language-model service the facade calls (AiCodeGeneratorService).
    What the model answers is not part of this model: the answers are fixed
    functions of the prompt, and the service records which calls were made. */
module AiProvider {
  import opened Common
  import opened Artifacts

  /** How a token stream ends. */
  datatype Signal = Complete | Error(message: string)

  /** A finished subscription to a `Flux<String>`: the tokens in order, then
      the terminal signal. */
  datatype TokenStream = TokenStream(tokens: seq<string>, end: Signal)

  /** One call into the service. */
  datatype Call =
    | HtmlCall(prompt: string)
    | MultiFileCall(prompt: string)
    | HtmlStreamCall(prompt: string)
    | MultiFileStreamCall(prompt: string)

  class Provider {
    var calls: seq<Call>
    const html: string -> Option<HtmlCodeResult>
    const multiFile: string -> Option<MultiFileCodeResult>
    const htmlStream: string -> TokenStream
    const multiFileStream: string -> TokenStream

    constructor (html: string -> Option<HtmlCodeResult>, multiFile: string -> Option<MultiFileCodeResult>,
                 htmlStream: string -> TokenStream, multiFileStream: string -> TokenStream)
      ensures calls == []
      ensures this.html == html && this.multiFile == multiFile
      ensures this.htmlStream == htmlStream && this.multiFileStream == multiFileStream
    {
      calls := [];
      this.html := html;
      this.multiFile := multiFile;
      this.htmlStream := htmlStream;
      this.multiFileStream := multiFileStream;
    }

    /** `generateHtmlCode`: a structured answer, possibly null. */
    method GenerateHtmlCode(prompt: string) returns (r: Option<HtmlCodeResult>)
      modifies this
      ensures calls == old(calls) + [HtmlCall(prompt)] && r == html(prompt)
    {
      calls := calls + [HtmlCall(prompt)];
      r := html(prompt);
    }

    /** `generateMultiFileCode`. */
    method GenerateMultiFileCode(prompt: string) returns (r: Option<MultiFileCodeResult>)
      modifies this
      ensures calls == old(calls) + [MultiFileCall(prompt)] && r == multiFile(prompt)
    {
      calls := calls + [MultiFileCall(prompt)];
      r := multiFile(prompt);
    }

    /** `generateHtmlCodeStreaming`. */
    method GenerateHtmlCodeStreaming(prompt: string) returns (r: TokenStream)
      modifies this
      ensures calls == old(calls) + [HtmlStreamCall(prompt)] && r == htmlStream(prompt)
    {
      calls := calls + [HtmlStreamCall(prompt)];
      r := htmlStream(prompt);
    }

    /** `generateMultiFileCodeStreaming`. */
    method GenerateMultiFileCodeStreaming(prompt: string) returns (r: TokenStream)
      modifies this
      ensures calls == old(calls) + [MultiFileStreamCall(prompt)] && r == multiFileStream(prompt)
    {
      calls := calls + [MultiFileStreamCall(prompt)];
      r := multiFileStream(prompt);
    }
  }
}
