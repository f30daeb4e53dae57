# ai-code-mother code-generation pipeline, modelled in Dafny

This project models the core of ai-code-mother, a service that:

- asks a language model to generate web code, either as a structured result or as a stream of text tokens;
- extracts the HTML, CSS and JavaScript blocks from the streamed text;
- saves them into a freshly named output directory.

It also models the small services around that pipeline:

- replaying a conversation's stored chat history into the model's memory;
- the message-type lookup;
- the guards of the chat-history page and delete calls;
- the registration validator and the login session of the user service.

The modules follow the Java classes:

- `MultiFileCodeParser`: the fenced-block extractor. The regular expression `` ```label\s*\n([\s\S]*?)``` `` (case-insensitive) is written as an explicit scanner over `string`. The scanner is proved equal to a declarative description of the regex match: leftmost start, first alternative, greedy `\s*`, lazy body. The parse result is then related to the text's first block.
- `CodeParserExecutor`: the parser dispatch on the generation kind. The HTML parser's source is not part of this model, so it is a function parameter.
- `FileSystem`: a `Disk` class holding a file map and a directory set. A fixed set of paths whose writes fail stands for a full disk or a permission error. It also holds the specification `RunWrites` of a sequence of writes that stops at the first failure, and an `IdGenerator` class standing for the snowflake id source.
- `CodeFileSaver`: the template-method saver. It validates, creates `{kind}_{id}` under the output root, then writes the kind's file layout. The class `CodeFileSaverTemplate` is proved against the function `SaverSpec`.
- `CodeFileSaverExecutor`: the saver dispatch.
- `AiProvider`: the language-model service, abstracted to given functions of the prompt. It records the calls made on it.
- `AiCodeGeneratorFacade`: the kind guards, the non-streaming path, and the streaming tee. The tee passes every token on unchanged, accumulates them, and parses and saves only on completion; a save failure is only logged.
- `MessageType`, `Entities`, `ChatHistoryService`, `UserService`: the history replay, the page/delete guards, registration, login, current user and logout.
- `JavaText`: the Java and hutool string behaviour the core relies on: `trim()`, ASCII case folding, `isBlank`, and decimal rendering of ids.
- `Common`, `Artifacts`: Java's `null` as `Option`, thrown exceptions as `Result`, error codes, generation kinds and the artifact records.

Points of behaviour worth stating plainly:

- **A missing or blank block.** A missing or blank block leaves the field `null`; it is never set to `""`.
- **What the multi-file saver writes.** The saver writes whatever the field holds, `null` included. The model records the write of a null field, but does not say which bytes end up in the file.
- **Kind names.** The kinds the core handles are the constants `HTML` and `MULTI_FILE`. Their directory prefixes are taken to be `html` and `multi_file` (see "Left out").
- **History preload.** The query skips the app's newest row, takes at most `maxCount` rows of any message type, and only then drops the rows that are neither `user` nor `ai`.

## Model

| member | source | states |
|---|---|---|
| MultiFileCodeParser.Parse | src/main/java/com/example/aicodemother/cores/parser/MultiFileCodeParser.java:15-31 | `parse` never throws. Each field is null or a non-empty string with no char up to U+0020 at either end, and a field whose pattern matches nowhere is null. |
| MultiFileCodeParser.ParseField | src/main/java/com/example/aicodemother/cores/parser/MultiFileCodeParser.java:18-29 | one field: null or non-empty with no char up to U+0020 at either end, and null when its pattern matches nowhere |
| MultiFileCodeParser.BodyField | src/main/java/com/example/aicodemother/cores/parser/MultiFileCodeParser.java:21-29 | an extracted block is stored as null exactly when every char of it is at most U+0020, and otherwise as a string trimmed at both ends |
| MultiFileCodeParser.ExtractByPattern | src/main/java/com/example/aicodemother/cores/parser/MultiFileCodeParser.java:33-39 | null exactly when the pattern matches nowhere; otherwise group 1 of the match `find()` reports |
| MultiFileCodeParser.MatchAltCorrect | src/main/java/com/example/aicodemother/cores/parser/MultiFileCodeParser.java:10-12 | the scanner for one label at one position finds a match exactly when the regex matches there. That match has the last newline of the whitespace run after the label and the first closing fence after it. |
| MultiFileCodeParser.Find | src/main/java/com/example/aicodemother/cores/parser/MultiFileCodeParser.java:33-35 | `matcher.find()`: the result is the leftmost match, using the first alternative that matches at that start. If it returns nothing, no position and no alternative matches anywhere. |
| MultiFileCodeParser.FirstMatchUnique | src/main/java/com/example/aicodemother/cores/parser/MultiFileCodeParser.java:33-37 | the first match of a pattern in a text is unique, so the extracted group is well defined |
| MultiFileCodeParser.ParseFieldOfFirstBlock | src/main/java/com/example/aicodemother/cores/parser/MultiFileCodeParser.java:21-29 | when the first match is r, the field is the trimmed body of r, or null if that trimmed body is empty |
| MultiFileCodeParser.ParseFieldWithoutBlock | src/main/java/com/example/aicodemother/cores/parser/MultiFileCodeParser.java:35-38 | a text with no match leaves the field null, and nothing is thrown |
| MultiFileCodeParser.ParseFieldSetIff | src/main/java/com/example/aicodemother/cores/parser/MultiFileCodeParser.java:21-29 | a field is set iff a block is found and its body is not blank after `trim()`. When set, the field is the trimmed body of the first block, with no blank char at either end. |
| MultiFileCodeParser.ParseFieldsTrimmed | src/main/java/com/example/aicodemother/cores/parser/MultiFileCodeParser.java:15-31 | `parse` always returns a record, and each of its three fields is either null or a non-empty string that `trim()` leaves unchanged |
| MultiFileCodeParser.TrimmedField | src/main/java/com/example/aicodemother/cores/parser/MultiFileCodeParser.java:21-22 | one field is null or non-empty and already trimmed |
| MultiFileCodeParser.ParseFieldsIndependent | src/main/java/com/example/aicodemother/cores/parser/MultiFileCodeParser.java:18-20 | once the text up to some point holds a block for a field's label, anything inserted after that point, blocks for the other labels included, leaves that field unchanged |
| MultiFileCodeParser.InsertionKeepsField | src/main/java/com/example/aicodemother/cores/parser/MultiFileCodeParser.java:10-12 | for one label: text inserted after a prefix that holds a block leaves the field unchanged |
| MultiFileCodeParser.NoNewlineNoBlock | src/main/java/com/example/aicodemother/cores/parser/MultiFileCodeParser.java:10-12 | an opener needs a line break after the label, so a text without a newline gives a null field |
| MultiFileCodeParser.UnterminatedFenceNoBlock | src/main/java/com/example/aicodemother/cores/parser/MultiFileCodeParser.java:10-12 | a text with at most one three-backtick position (an opener with no closing fence) gives a null field |
| MultiFileCodeParser.FindIgnoresSuffix | src/main/java/com/example/aicodemother/cores/parser/MultiFileCodeParser.java:33-37 | once a text contains a match, appending anything (including further blocks with the same label) does not change the match found |
| MultiFileCodeParser.ParseFieldIgnoresLaterBlocks | src/main/java/com/example/aicodemother/cores/parser/MultiFileCodeParser.java:33-37 | only the leftmost block for a label is used; later blocks with that label are ignored |
| MultiFileCodeParser.OpenerPrecedesFence | src/main/java/com/example/aicodemother/cores/parser/MultiFileCodeParser.java:10-12 | the line break ending an opener comes before any later three-backtick position |
| MultiFileCodeParser.SingleBlockRoundTrip | src/main/java/com/example/aicodemother/cores/parser/MultiFileCodeParser.java:10-12 | for prose, then a fence labelled with any case spelling of a label, then a body, then a closing fence, then anything: the field is the trimmed body, or null when the trimmed body is empty |
| MultiFileCodeParser.BlockAfterPrefixRoundTrip | src/main/java/com/example/aicodemother/cores/parser/MultiFileCodeParser.java:10-12 | a block anywhere in the text, when nothing before it matches the label: the field is the trimmed body, or null when the body is blank |
| MultiFileCodeParser.ThreeBlockRoundTrip | src/main/java/com/example/aicodemother/cores/parser/MultiFileCodeParser.java:15-31 | for a text made of a fenced `html` block, a newline, a fenced `css` block, a newline and a fenced `js` block, with backtick-free bodies h, c and j, the three fields are h, c and j each trimmed, or null where that body is blank |
| MultiFileCodeParser.UnclosedBlockEndsAtNextFence | src/main/java/com/example/aicodemother/cores/parser/MultiFileCodeParser.java:10-12 | the lazy body stops at the first fence of any block: an unclosed `html` block alone gives a null field, and the same block followed by a `css` block gives the text up to the `css` opener |
| MultiFileCodeParser.MixedCaseJavaScriptBlock | src/main/java/com/example/aicodemother/cores/parser/MultiFileCodeParser.java:12 | the js pattern accepts the `javascript` spelling in mixed case, and the field is the trimmed body |
| JavaText.Trim | src/main/java/com/example/aicodemother/cores/parser/MultiFileCodeParser.java:21-22 | `trim()` gives a string no longer than its input, with no char up to U+0020 at either end |
| JavaText.IsBlank | src/main/java/com/example/aicodemother/service/impl/UserServiceImpl.java:46-48 | hutool `isBlank`: null and "" are blank, a non-empty string made only of blank chars (such as spaces) is blank too, and a string holding any char that is not a blank char is not blank |
| JavaText.TrimEmptyIff | src/main/java/com/example/aicodemother/cores/parser/MultiFileCodeParser.java:21 | `s.trim().isEmpty()` holds exactly when every char of s is at most U+0020 |
| JavaText.TrimIdempotent | src/main/java/com/example/aicodemother/cores/parser/MultiFileCodeParser.java:22 | trimming a trimmed string changes nothing |
| JavaText.TrimIsSlice | src/main/java/com/example/aicodemother/cores/parser/MultiFileCodeParser.java:22 | the trimmed string is the slice left after dropping a prefix and a suffix of chars at most U+0020 |
| JavaText.DecimalRoundTrip | src/main/java/com/example/aicodemother/cores/saver/CodeFileSaverTemplate.java:40 | the decimal id in a directory name reads back as the id |
| CodeParserExecutor.ExecuteParser | src/main/java/com/example/aicodemother/cores/parser/CodeParserExecutor.java:12-18 | the dispatch succeeds exactly for HTML and MULTI_FILE, and the HTML kind alone yields the single-file shape |
| CodeParserExecutor.HtmlKindUsesHtmlParser | src/main/java/com/example/aicodemother/cores/parser/CodeParserExecutor.java:14 | HTML returns the HTML parser's result on the content |
| CodeParserExecutor.MultiFileKindUsesMultiFileParser | src/main/java/com/example/aicodemother/cores/parser/CodeParserExecutor.java:15 | MULTI_FILE returns exactly `MultiFileCodeParser.parse(content)`, whatever the HTML parser is |
| CodeParserExecutor.OtherKindRejected | src/main/java/com/example/aicodemother/cores/parser/CodeParserExecutor.java:16 | any other kind throws IllegalArgumentException with "不支持的类型: " followed by the constant's name |
| FileSystem.Disk.Mkdir | src/main/java/com/example/aicodemother/cores/saver/CodeFileSaverTemplate.java:42 | creating the directory adds it to the directory set and leaves the files unchanged |
| FileSystem.Disk.WriteString | src/main/java/com/example/aicodemother/cores/saver/CodeFileSaverTemplate.java:47 | a write either stores the content at the path and nothing else, or fails and changes nothing |
| FileSystem.IdGenerator.NextId | src/main/java/com/example/aicodemother/cores/saver/CodeFileSaverTemplate.java:40 | each call hands out an id larger than every earlier one |
| FileSystem.RunWrites | src/main/java/com/example/aicodemother/cores/saver/MultiFileCodeFileSaverTemplate.java:9-11 | writes run in order until one throws; the path it reports is one whose write fails |
| FileSystem.RunWritesFrame | src/main/java/com/example/aicodemother/cores/saver/CodeFileSaverTemplate.java:45-48 | a path not written by the sequence keeps its presence and its content |
| FileSystem.RunWritesFailsIff | src/main/java/com/example/aicodemother/cores/saver/MultiFileCodeFileSaverTemplate.java:9-11 | the writes succeed iff no target path fails. On failure, the reported path is the first failing one in order. |
| FileSystem.RunWritesStores | src/main/java/com/example/aicodemother/cores/saver/MultiFileCodeFileSaverTemplate.java:9-11 | when no write fails and the paths are distinct, every path holds the content written to it |
| FileSystem.RunWritesNoRollback | src/main/java/com/example/aicodemother/cores/saver/MultiFileCodeFileSaverTemplate.java:9-11 | a failing write leaves the earlier writes in place and stops the later ones |
| CodeFileSaver.Template.CodeType | src/main/java/com/example/aicodemother/cores/saver/HtmlCodeFileSaverTemplate.java:13-16 | each template's kind is a supported one, and it is HTML exactly for the HTML template |
| CodeFileSaver.UniqueDirPath | src/main/java/com/example/aicodemother/cores/saver/CodeFileSaverTemplate.java:38-41 | the directory lies directly under the root, and its name is the kind's value, "_", and the id in decimal |
| CodeFileSaver.Layout | src/main/java/com/example/aicodemother/cores/saver/MultiFileCodeFileSaverTemplate.java:8-12 | the HTML layout is one write of the html code to `index.html`; the multi-file layout writes the three fields to `index.html`, `style.css` and `script.js`, in that order |
| CodeFileSaver.SaverSpec | src/main/java/com/example/aicodemother/cores/saver/CodeFileSaverTemplate.java:20-29 | a null result is PARAMS_ERROR "参数不能为空" with nothing changed. Otherwise the directory for the id is created; the result is that directory, or a write failure on a path whose write fails. |
| CodeFileSaver.CodeFileSaverTemplate.ValidateParams | src/main/java/com/example/aicodemother/cores/saver/CodeFileSaverTemplate.java:32-36 | validation fails exactly on a null result, with PARAMS_ERROR and "参数不能为空" |
| CodeFileSaver.SaverRejectsNull | src/main/java/com/example/aicodemother/cores/saver/CodeFileSaverTemplate.java:20-23 | a null result throws PARAMS_ERROR before any directory is created or file written |
| CodeFileSaver.HtmlSaverWritesIndex | src/main/java/com/example/aicodemother/cores/saver/HtmlCodeFileSaverTemplate.java:8-11 | the HTML saver creates `root/html_{id}`, writes only `index.html` with the html code, and returns that directory |
| CodeFileSaver.MultiFileSaverWritesThree | src/main/java/com/example/aicodemother/cores/saver/MultiFileCodeFileSaverTemplate.java:7-12 | the multi-file saver creates `root/multi_file_{id}` and writes `index.html`, `style.css` and `script.js` with the three fields. The files are written in that order and unconditionally, and the saver returns the directory. |
| CodeFileSaver.MultiFileSaverNoRollback | src/main/java/com/example/aicodemother/cores/saver/MultiFileCodeFileSaverTemplate.java:9-11 | when `style.css` fails, `index.html` remains written, `script.js` is not written and the save fails naming `style.css` |
| CodeFileSaver.SaverStaysInItsDir | src/main/java/com/example/aicodemother/cores/saver/CodeFileSaverTemplate.java:25-28 | a save touches no file outside its own new directory |
| CodeFileSaver.LayoutInsideDir | src/main/java/com/example/aicodemother/cores/saver/CodeFileSaverTemplate.java:45-47 | every file of a layout lies directly in the directory, and no two targets coincide |
| CodeFileSaver.FilePathInjective | src/main/java/com/example/aicodemother/cores/saver/CodeFileSaverTemplate.java:46 | different file names give different paths in one directory |
| CodeFileSaver.DistinctIdsDistinctDirs | src/main/java/com/example/aicodemother/cores/saver/CodeFileSaverTemplate.java:38-41 | two distinct ids never give the same directory, whatever the kinds |
| CodeFileSaver.CodeFileSaverTemplate.Saver | src/main/java/com/example/aicodemother/cores/saver/CodeFileSaverTemplate.java:20-29 | `saver` runs validate, create directory, write files. Its new disk state and result are `SaverSpec` of the old state and the id drawn, and only a non-null result draws an id. |
| CodeFileSaver.CodeFileSaverTemplate.BuildUniqueDir | src/main/java/com/example/aicodemother/cores/saver/CodeFileSaverTemplate.java:38-44 | a fresh id is drawn, the directory `root/{kind value}_{id}` is created and returned, and the files are unchanged |
| CodeFileSaver.CodeFileSaverTemplate.SaveFile | src/main/java/com/example/aicodemother/cores/saver/MultiFileCodeFileSaverTemplate.java:8-12 | the writes of the template's layout run in order, as `RunWrites` specifies |
| CodeFileSaver.CodeFileSaverTemplate.WriteToFile | src/main/java/com/example/aicodemother/cores/saver/CodeFileSaverTemplate.java:45-48 | the content goes to `dir/filename` only, or the write fails naming that path |
| CodeFileSaverExecutor.TemplateFor | src/main/java/com/example/aicodemother/cores/saver/CodeFileSaverExecutor.java:15-19 | only HTML and MULTI_FILE have a saver, and the saver picked is tagged with that kind |
| CodeFileSaverExecutor.ExecuteSaverSpec | src/main/java/com/example/aicodemother/cores/saver/CodeFileSaverExecutor.java:14-20 | an unsupported kind is PARAMS_ERROR "不存在类型"; when no saver runs, the call fails and nothing changes; a success is the directory of that kind and id |
| CodeFileSaverExecutor.UnknownKindWritesNothing | src/main/java/com/example/aicodemother/cores/saver/CodeFileSaverExecutor.java:18 | any other kind throws PARAMS_ERROR "不存在类型" and leaves the disk unchanged |
| CodeFileSaverExecutor.SupportedKindDelegates | src/main/java/com/example/aicodemother/cores/saver/CodeFileSaverExecutor.java:16-17 | HTML and MULTI_FILE give exactly the outcome of their own saver |
| CodeFileSaverExecutor.WrongShapeIsClassCast | src/main/java/com/example/aicodemother/cores/saver/CodeFileSaverExecutor.java:16-17 | a result of the other shape fails the downcast before validation, and nothing is written |
| CodeFileSaverExecutor.CodeFileSaverExecutor.ExecuteSaver | src/main/java/com/example/aicodemother/cores/saver/CodeFileSaverExecutor.java:14-20 | the new disk state and result are `ExecuteSaverSpec` of the old state, and an id is drawn only when a saver actually runs |
| AiProvider.Provider.GenerateHtmlCode | src/main/java/com/example/aicodemother/ai/AiCodeGeneratorService.java:17 | records one HTML call and returns the provider's structured result |
| AiProvider.Provider.GenerateMultiFileCode | src/main/java/com/example/aicodemother/ai/AiCodeGeneratorService.java:24 | records one multi-file call and returns the provider's structured result |
| AiProvider.Provider.GenerateHtmlCodeStreaming | src/main/java/com/example/aicodemother/ai/AiCodeGeneratorService.java:32 | records one HTML streaming call and returns its token stream |
| AiProvider.Provider.GenerateMultiFileCodeStreaming | src/main/java/com/example/aicodemother/ai/AiCodeGeneratorService.java:39 | records one multi-file streaming call and returns its token stream |
| AiCodeGeneratorFacade.KindGuard | src/main/java/com/example/aicodemother/cores/AiCodeGeneratorFacade.java:56-74 | a null kind is SYSTEM_ERROR "生成类型为空". Any other unsupported kind is SYSTEM_ERROR "不支持的生成类型：" followed by its value. Only HTML and MULTI_FILE pass. |
| AiCodeGeneratorFacade.Concat | src/main/java/com/example/aicodemother/cores/AiCodeGeneratorFacade.java:31-36 | the builder's text: one token gives that token, and empty tokens give the empty text |
| AiCodeGeneratorFacade.ParseThenSaveSpec | src/main/java/com/example/aicodemother/cores/AiCodeGeneratorFacade.java:36-38 | an unsupported kind fails in the parser with IllegalArgumentException and changes nothing; a supported kind always creates its directory, and a success returns it |
| AiCodeGeneratorFacade.ConcatAppend | src/main/java/com/example/aicodemother/cores/AiCodeGeneratorFacade.java:31-33 | the accumulated text of two token runs is the concatenation of their texts |
| AiCodeGeneratorFacade.ConcatHoldsTokens | src/main/java/com/example/aicodemother/cores/AiCodeGeneratorFacade.java:31-33 | each token appears unchanged in the buffer, at the offset given by the tokens before it, and the buffer's length is that offset plus the token's length plus the length of the tokens after it |
| AiCodeGeneratorFacade.ParseThenSaveOnlyWritesFail | src/main/java/com/example/aicodemother/cores/AiCodeGeneratorFacade.java:34-38 | for a supported kind, parse-then-save can fail only with a write failure, and it always creates its directory |
| AiCodeGeneratorFacade.StreamedMultiFileSavesParsedFields | src/main/java/com/example/aicodemother/cores/AiCodeGeneratorFacade.java:34-38 | for MULTI_FILE, the three files hold the parsed fields of the concatenated tokens |
| AiCodeGeneratorFacade.Facade.ProcessCode | src/main/java/com/example/aicodemother/cores/AiCodeGeneratorFacade.java:45-47 | the provider's result goes straight to the saver dispatch, unparsed |
| AiCodeGeneratorFacade.Facade.GenerateAndSaveCode | src/main/java/com/example/aicodemother/cores/AiCodeGeneratorFacade.java:56-74 | a rejected kind fails before any provider call or write. Otherwise one provider call is made for the kind and its result is saved. A fresh id is drawn exactly when the provider's result is non-null, so later saves never reuse the directory. |
| AiCodeGeneratorFacade.Facade.ProcessCodeStreaming | src/main/java/com/example/aicodemother/cores/AiCodeGeneratorFacade.java:30-44 | the stream is passed on unchanged and in order. On completion, the concatenated tokens are parsed, saved once and the outcome logged, and the stream still completes. For a supported kind the save draws a fresh id. On error nothing is saved or logged and no id is drawn. |
| AiCodeGeneratorFacade.Facade.GenerateAndSaveCodeStreaming | src/main/java/com/example/aicodemother/cores/AiCodeGeneratorFacade.java:83-101 | a rejected kind fails before any provider call. Otherwise it makes one streaming call for the kind and returns that stream with the completion-only save, which draws a fresh id. On stream error nothing is saved and no id is drawn. |
| MessageType.FindByValue | src/main/java/com/example/aicodemother/model/enums/MessageTypeEnum.java:26-30 | the scan returns the constant whose value equals the string, or null when none does |
| MessageType.GetEnumByValue | src/main/java/com/example/aicodemother/model/enums/MessageTypeEnum.java:22-32 | a constant is returned only for its own value |
| MessageType.GetEnumByValueRoundTrip | src/main/java/com/example/aicodemother/model/enums/MessageTypeEnum.java:9-11 | `getEnumByValue(e.value) == e` for USER, AI and ERROR |
| MessageType.GetEnumByValueNullIff | src/main/java/com/example/aicodemother/model/enums/MessageTypeEnum.java:23-31 | the lookup yields null exactly for null, "" or a string that is none of "user", "ai", "error" |
| MessageType.GetEnumByValueCaseSensitive | src/main/java/com/example/aicodemother/model/enums/MessageTypeEnum.java:27 | matching is case-sensitive ("USER", "AI", "Error" map to null) |
| ChatHistoryService.ForApp | src/main/java/com/example/aicodemother/service/impl/ChatHistoryServiceImpl.java:50 | the app filter keeps only the app's rows |
| ChatHistoryService.ForAppAppend | src/main/java/com/example/aicodemother/service/impl/ChatHistoryServiceImpl.java:50-51 | the app filter keeps table order: filtering two runs of rows is filtering each in turn, and one row is kept exactly when it belongs to the app |
| ChatHistoryService.HistoryQuery | src/main/java/com/example/aicodemother/service/impl/ChatHistoryServiceImpl.java:49-53 | the query returns at most maxCount rows, all of the app |
| ChatHistoryService.HistoryQueryWindow | src/main/java/com/example/aicodemother/service/impl/ChatHistoryServiceImpl.java:49-53 | the query gives at most maxCount of the app's rows: those just before its last row in table order, read from the later to the earlier |
| ChatHistoryService.HistoryQueryByCreateTime | src/main/java/com/example/aicodemother/service/impl/ChatHistoryServiceImpl.java:49-52 | on a table in `createTime` order, the rows come newest first, the skipped row is the app's newest, and every app row left out is no newer than any row returned |
| ChatHistoryService.ForAppChronological | src/main/java/com/example/aicodemother/service/impl/ChatHistoryServiceImpl.java:50-51 | the app filter keeps the table's `createTime` order |
| ChatHistoryService.ForAppNoLater | src/main/java/com/example/aicodemother/service/impl/ChatHistoryServiceImpl.java:50 | the rows the app filter keeps are no later than a bound all rows keep |
| ChatHistoryService.Turn | src/main/java/com/example/aicodemother/service/impl/ChatHistoryServiceImpl.java:64-70 | a row gives a memory message exactly when its type is `user` or `ai`. The message keeps the row's text, and the role matches the type. |
| ChatHistoryService.Replay | src/main/java/com/example/aicodemother/service/impl/ChatHistoryServiceImpl.java:58-71 | the replay adds no message exactly when no row is a `user` or `ai` row |
| ChatHistoryService.ReplayAppend | src/main/java/com/example/aicodemother/service/impl/ChatHistoryServiceImpl.java:63-71 | replaying two runs of rows is replaying each in turn |
| ChatHistoryService.ReplayAtMostRows | src/main/java/com/example/aicodemother/service/impl/ChatHistoryServiceImpl.java:60-73 | the loaded count never exceeds the number of rows |
| ChatHistoryService.ReplayOfRows | src/main/java/com/example/aicodemother/service/impl/ChatHistoryServiceImpl.java:63-71 | a skipped row adds nothing; a `user`/`ai` row adds exactly its message |
| ChatHistoryService.ChatMemory.Clear | src/main/java/com/example/aicodemother/service/impl/ChatHistoryServiceImpl.java:62 | clearing empties the memory |
| ChatHistoryService.ChatMemory.Add | src/main/java/com/example/aicodemother/service/impl/ChatHistoryServiceImpl.java:65 | adding appends one message at the end |
| ChatHistoryService.ChatHistoryTable.LoadChatHistoryToMemory | src/main/java/com/example/aicodemother/service/impl/ChatHistoryServiceImpl.java:46-79 | a failing query or empty result returns 0 and leaves memory untouched. Otherwise memory is replaced by the `user`/`ai` turns of the window oldest-first, and the count is their number, at most maxCount. |
| ChatHistoryService.ChatHistoryTable.DeleteByAppId | src/main/java/com/example/aicodemother/service/impl/ChatHistoryServiceImpl.java:134-139 | a null appId is PARAMS_ERROR with nothing removed. Otherwise exactly the app's rows are removed, and the call returns whether any were. The rows stay in `createTime` order. |
| ChatHistoryService.WithoutAppChronological | src/main/java/com/example/aicodemother/service/impl/ChatHistoryServiceImpl.java:136-138 | the rows a delete keeps stay in `createTime` order |
| ChatHistoryService.WithoutAppNoLater | src/main/java/com/example/aicodemother/service/impl/ChatHistoryServiceImpl.java:136-138 | the rows a delete keeps are no later than a bound all rows keep |
| ChatHistoryService.DeleteSplitsRows | src/main/java/com/example/aicodemother/service/impl/ChatHistoryServiceImpl.java:136-138 | the removed and the kept rows together are exactly the table, as a multiset |
| ChatHistoryService.PageGuard | src/main/java/com/example/aicodemother/service/impl/ChatHistoryServiceImpl.java:87-93 | the page query passes exactly when appId and user are non-null, the app exists, and the user is an admin or the app's creator |
| ChatHistoryService.PageGuardFirstFailure | src/main/java/com/example/aicodemother/service/impl/ChatHistoryServiceImpl.java:87-93 | the first failing check decides the error: PARAMS_ERROR, PARAMS_ERROR, OPERATION_ERROR, then NO_AUTH_ERROR |
| UserService.RegisterCheck | src/main/java/com/example/aicodemother/service/impl/UserServiceImpl.java:46-57 | every rejection is PARAMS_ERROR, and a pass means all three inputs are non-null |
| UserService.RegisterCheckPassesIff | src/main/java/com/example/aicodemother/service/impl/UserServiceImpl.java:46-57 | validation passes exactly when none is blank, the passwords are equal, the account has at least 4 chars and the password at least 8 |
| UserService.RegisterCheckOrder | src/main/java/com/example/aicodemother/service/impl/UserServiceImpl.java:46-57 | the checks run in source order: any blank field gives PARAMS_ERROR; then unequal passwords "两次密码不一致"; then an account under 4 chars "用户账号过短"; then a password under 8 chars "用户密码过短" |
| UserService.EncryptPasswordInjective | src/main/java/com/example/aicodemother/service/impl/UserServiceImpl.java:80-84 | salting with "123456" on both sides loses nothing: with a digest that tells strings apart, two passwords that encrypt alike are equal |
| UserService.WrongPasswordRefused | src/main/java/com/example/aicodemother/service/impl/UserServiceImpl.java:94-100 | with unique accounts and a digest that tells strings apart, logging in to an account whose row holds the encryption of p with any other password fails with "用户账号不存在或密码错误" |
| UserService.SpacesAccountIsBlank | src/main/java/com/example/aicodemother/service/impl/UserServiceImpl.java:46-53 | an account of four spaces is blank, so it fails with the plain PARAMS_ERROR before the length check |
| UserService.LoginOutcome | src/main/java/com/example/aicodemother/service/impl/UserServiceImpl.java:89-100 | a blank account or password is PARAMS_ERROR. A success is a stored user with that account and encrypted password. Otherwise no stored row matches, and the error is PARAMS_ERROR "用户账号不存在或密码错误". |
| UserService.LoginState | src/main/java/com/example/aicodemother/service/impl/UserServiceImpl.java:111-116 | the current user is the one under `user_login`; with no such attribute the call is NOT_LOGIN_ERROR |
| UserService.NewUser | src/main/java/com/example/aicodemother/service/impl/UserServiceImpl.java:66-72 | a new user has the account, userName equal to the account, role "user" and the salted-MD5 password |
| UserService.FindUser | src/main/java/com/example/aicodemother/service/impl/UserServiceImpl.java:94-97 | the lookup returns a stored user with that account and encrypted password, or null when there is none |
| UserService.RegisterThenLogin | src/main/java/com/example/aicodemother/service/impl/UserServiceImpl.java:59-100 | after a registration that passes, accounts stay unique, and logging in with the same account and password finds the new user |
| UserService.LoginStateAfterLoginAndLogout | src/main/java/com/example/aicodemother/service/impl/UserServiceImpl.java:111-127 | the current user after setting the attribute is that user; after removing it, the lookup fails with NOT_LOGIN_ERROR |
| UserService.UserServiceImpl.Register | src/main/java/com/example/aicodemother/service/impl/UserServiceImpl.java:41-78 | a failed validation or a taken account changes nothing. A failed save is OPERATION_ERROR. Otherwise the new user is appended and its id returned. That id differs from every stored user's id, and the id counter moves on by one exactly when a user is saved. Unique accounts and ids below the counter are kept throughout. |
| UserService.UserServiceImpl.Login | src/main/java/com/example/aicodemother/service/impl/UserServiceImpl.java:87-108 | blank input or no matching user fails with PARAMS_ERROR and leaves the session unchanged. Otherwise the matched user is stored under the login key and its view returned. |
| UserService.UserServiceImpl.GetLoginUser | src/main/java/com/example/aicodemother/service/impl/UserServiceImpl.java:111-117 | it returns the session's user, or NOT_LOGIN_ERROR when there is none |
| UserService.UserServiceImpl.Logout | src/main/java/com/example/aicodemother/service/impl/UserServiceImpl.java:120-127 | not logged in is NOT_LOGIN_ERROR "用户未登录", with the session unchanged. Otherwise the attribute is removed and the call returns true. |

## Left out

- The generation-session cache (`AiCodeGeneratorServiceFactory`): its size, time-to-live, single-flight and eviction policy live inside the Caffeine library, and depend on concurrency and wall-clock time. The LangChain4j memory window of 10 messages is left out too, so the model's memory is an unbounded sequence.
- The language model itself, its prompts and the HTML parser: the provider is given functions of the prompt, and the HTML parser is a function parameter. `HtmlCodeParser.java` is not part of this model.
- Reactor scheduling, back-pressure and cancellation: a stream is a finite token sequence with a final Complete or Error signal, consumed to its end.
- `AppServiceImpl`, the controllers, DTOs and VOs, configuration and the frontend: database plumbing and the HTTP surface.
- The deprecated parser helpers and facade methods: they duplicate the modelled ones or refer to classes that do not exist.
- MD5 (`DigestUtils`), snowflake id generation and hutool `FileUtil`. MD5 is a function parameter. Ids come from a counter that only grows, so they are fresh. The bytes written for a null field are not specified.
- FileSystem.Disk.WriteString: whether a write fails depends only on its path, so a null field is taken to be written without an exception whenever its path is writable. hutool's writer may throw on a null content; its source is not part of this model.
- `CodeGenTypeEnum.java`, `UserConstant.java`, `UserRoleEnum.java` and `ErrorCode.java` are not part of this model. The model takes their values to be:
  - kind values `html` and `multi_file`;
  - session key `user_login`;
  - roles `user` and `admin`;
  - an empty default message for an error code thrown without one.
- The root output directory (`user.dir` + `/tmp/code_output`) is a parameter, and `File.separator` is taken to be `/`.
- The calls in the shown files disagree with each other's signatures. The passed-through `appId` is accepted and ignored, and `saver` takes the result alone.
- A failing `mkdir`, and exceptions from `memory.add`, from building the messages (`UserMessage.from`, `AiMessage.from`) or from the parser, are not modelled. The only failures modelled are a failing query in the history load and a failing file write.
- String lengths are counted in Dafny chars, not Java UTF-16 code units.
- The body of the chat-history page query (`getQueryWrapper`, `LocalDateTime.now()`, pagination) is left out: only its guards are modelled.
- How MyBatis-Flex `getOne` behaves when several rows match is not part of this model. `Register` keeps accounts unique, so at most one row matches.
- The `(User)` cast in `getLoginUser` cannot fail in the model, because the session holds only users.
- ChatHistoryService.ChatHistoryTable.LoadChatHistoryToMemory: appId is non-null and maxCount non-negative. A null appId or a negative limit would reach the database layer, which is not modelled.
- MultiFileCodeParser.SingleBlockRoundTrip: requires no backtick in the prose before the block or in the body. Only a fence of three backticks ends a block, so a body with single backticks (a JavaScript template literal, say) is still read whole; excluding every backtick only keeps the proof short.
- MultiFileCodeParser.BlockAfterPrefixRoundTrip: requires nothing before the block to match the label, and a body with no backtick. A body holding single backticks but no fence is not covered, for the same reason as above.
- MultiFileCodeParser.ThreeBlockRoundTrip: covers only an HTML, a CSS and a JavaScript block in that order, separated by single newlines, with bodies holding no backtick. Other layouts and bodies with single backticks are not covered.
- UserService.WrongPasswordRefused: takes the digest to tell strings apart, as `EncryptPasswordInjective` does. Real MD5 has collisions, so a colliding wrong password would be accepted; the model does not cover that.
- ChatHistoryService.HistoryQuery: table order stands for `createTime` order. The table's invariant keeps its rows in `createTime` order, because each row is stamped when it is written and appended after the rows before it. Rows with equal `createTime` are ordered by their place in the table, the later one counting as newer; the database leaves their order unspecified.
- ChatHistoryService.HistoryQueryWindow: states the window in table order. `HistoryQueryByCreateTime` restates it by `createTime` on a table in that order, with ties broken by position as above.
