# An HTTP debugging proxy, modelled and verified

These modules model the parts of an HTTP debugging proxy whose behaviour is hard to see from any one function, and
prove what the program promises of them. Everything is stated over all inputs, all runs or all reachable states.

**Texts of requests.** A `.http` file is read by two independent parsers. The form (`HttpForm`) reads it line by line
and prints it back; the grammar (`HttpGrammar`, `HttpBlocks`) reads it with positions, and is what runs. The form
modules prove what printing and parsing give back for every file the form can hold, and exactly when switching between
form and raw text leaves the text alone; `HttpFormReads` says how the form reads lines that were typed. `HttpSend` and
`HttpSendFile` prove that what runs is what the form shows, and `HttpPlaceholders` what it puts in the place of each
placeholder. `HttpScan`, `HttpShift` and `HttpEnds` prove how the grammar's loop tiles a source, that it does not
depend on what is behind it, and exactly when it returns; `HttpVersions` and `HttpSpans` that every field read is the
source where it stands, request lines with a version included. `Highlight`, `HighlightHtml` and `HighlightRender`
prove that the painted overlay is the source, rune for rune; `HighlightFields` and `HighlightKinds` that each stretch
is painted as the field it belongs to. `Caret` relates lines and UTF-16 offsets.

**Capture files.** `Bytes`, `Crc32c`, `Capture`, `CaptureIo` model the record format, its writer and its streaming reader.
`CaptureRoundTrip` proves which records read back; `CaptureDamage` what a cut or a changed byte does. `Sink` is a state
machine of any number of goroutines writing, enabling and disabling, with a crash or a failed write between any two
file writes; `SinkLaws` and `SinkFaults` prove what is in the files afterwards, with failed writes and without, and
`SinkSwitch` what turning the sink on and off does.

**Authentication to an upstream proxy.** `UpstreamAuth` holds the handler as a class whose every read, write, connection
and token comes from an adversarial world, and a monitor that watches its events. `UpstreamAuthLaws` proves the laws of
every monitored run: what is answered, in which field, with whose token, and what goes to the client. `UpstreamHeaders` and
`UpstreamDrain` model the request it sends and the body it discards, against sections 6.3 and 7.1 of RFC 9112;
`UpstreamMeaning` says what its tests on headers, offers and lengths mean.

**Configuration and runtime.** `ConfigEditor`, `ConfigLaws`, `ConfigText`, `ConfigSections` model the line editor of the
YAML file and its algebra; `ConfigRead` reads the written lines back as the settings; `ConfigUnended` and `ConfigPair` say
what it does to unterminated files and to two sections. `Runtime` models listeners, the decrypting pipeline and the
supervisor's commands with failures at every outer call; `RequestStore` the bounded store of exchanges.

Code that works by assignment is a method with a loop, an array or a class here, proved against a function; the laws
are then lemmas about those functions. Text is a sequence of code points. Calls into code that is not part of this
model are parameters: `HttpGrammar.Env` (character classes beyond ASCII and `url.Parse`), `UpstreamAuth.Codec` (package
names and base64), `UpstreamAuth.World` (the gateway and the authentication packages), `ConfigSections.Formats` (number
and string formatting), `Runtime.Faults` (which outer calls fail).

## What the proofs found

- `ParseHttpFile` does not always return. A `#` note on the last line of a request's header section, with no line break
  after it, is looked at forever: `composer/http_file_parser.go:242-245` goes on whenever the line starts with `#`, but
  the comment parser needs the line break. `HttpEnds.EndlessExactlyWhen` gives the exact condition for every source,
  `HttpEnds.UnclosedNoteHangs` a source of thirteen characters. The editor's overlay is computed from the text as it is
  typed, so it meets this state.
- Switching between form and raw text is not always stable, although `webui/wasm/components/composer/httpfile.go:202-205`
  asks for it. `HttpFormStable.StaysExactlyWhenSettled` gives the exact condition (`HttpFormSwitch.Settled`): no target
  holds a blank, no title opens with `#`, no note and no body line ends in a carriage return, a block without target, header
  rows and body (written as its title alone) comes last only, and no block has header rows that are all unnamed with
  neither target nor body. `HttpFormStable.SpacedTargetChanges` is an input that fails.
- The documentation of a record distinguishes an absent body from an empty one (`storage/capture_record.go:133-135`); the
  reader returns absent for both (`storage/binary_reader.go:59-61`). The very record comes back if and only if its fields
  are within the limits and its body is not present but empty (`CaptureRoundTrip.ReadsBackUnchanged`);
  `CaptureRoundTrip.EmptyBodyIsLost` and `CaptureRoundTrip.BareRequest` are the inputs that fail.
- After a write that failed half-way the sink goes on appending to the same file. Whatever the records, the tear and the
  next record, the file then never reads back cleanly to the records it completed (`SinkFaults.TornNeverClean`), and over
  all runs a file reads back cleanly if and only if no record was begun on it after a failed write
  (`SinkFaults.CleanExactlyWhenUnspoiled`). `SinkFaults.FailedWriteSpoils` is such a run from a new sink, and
  `SinkFaults.CrashWithoutFailures` the crash guarantee without any such condition for runs without failed writes.
- A challenge with both a transfer coding other than chunked and a Content-Length is drained by its length, where
  section 6.3 of RFC 9112 reads to the close. `UpstreamDrain.FramingsAgreeExactlyWhenPlain` gives the exact condition.
- Rewriting a configuration section of a file whose last line is not terminated may join the first written line to it.
  `ConfigUnended.StandsExactlyWhenFitting` gives the exact condition on any text under which the written lines are lines of
  the result: something follows the section, or the last line kept in front of the new ones ends in a line break.
  `ConfigUnended.UnterminatedLineFails` and `ConfigUnended.UnterminatedHeaderFails` are inputs on which the later of two
  saves does not win, or finds no section any more.
- Saving access control for the proxy and the web interface together is last-write-wins where neither section holds the
  other's header (`ConfigPair.PairLastWins`). In `ConfigPair.NestedSectionFails` one holds the other in a block of a replaced
  key: the first save drops the only proxy section, and the next save writes nothing.
- A connection whose request cannot be read is untracked and not closed (`Runtime.ProxyServer.Finish`): shutdown closes the
  tracked connections only.

## Model

| member | source | states |
|---|---|---|
| HttpForm.ParseHTTP | webui/wasm/components/composer/httpfile.go:117-200 | the line loop, its current block and its section, computes the fold the laws below are about |
| HttpForm.ToHTTP | webui/wasm/components/composer/httpfile.go:206-242 | the builder writes exactly the printed lines: ticked variables, titles, notes, request lines, unticked headers behind their marker, bodies |
| HttpForm.WriteBlock | webui/wasm/components/composer/httpfile.go:216-239 | one block appended to the text, piece by piece, and nothing before it touched |
| HttpForm.WriteHeaders | webui/wasm/components/composer/httpfile.go:226-235 | unnamed rows dropped, unticked rows behind `# `, the rest as they are |
| HttpFormImage.ParsedHasShape | webui/wasm/components/composer/httpfile.go:117-200 | whatever the text, the parsed file has the shape the printer's laws ask for, and no unticked or unnamed variable and no unnamed header |
| HttpFormShape.PrintedReadsBack | webui/wasm/components/composer/httpfile.go:117-242 | for every file of that shape, what its printed text parses to, merged blocks and lost targets included |
| HttpFormSwitch.ParseUndoesPrint | webui/wasm/components/composer/httpfile.go:117-242 | a readable file comes back from its own text, up to rows that are never written |
| HttpFormSwitch.SettledStays | webui/wasm/components/composer/httpfile.go:202-205 | a settled file prints the same after a switch to the raw editor and back |
| HttpFormStable.StaysExactlyWhenSettled | webui/wasm/components/composer/httpfile.go:202-205 | the switch leaves the text alone if and only if the file is settled |
| HttpFormStable.EditorSwitch | webui/wasm/components/composer/httpfile.go:202-205 | the same for any text typed in the raw editor: the second switch changes nothing exactly when the first one gave a settled file |
| HttpFormStable.SpacedTargetChanges | webui/wasm/components/composer/httpfile.go:163-164 | a request line kept whole as its URL does not come back |
| HttpFormStable.BlankTargetMoves | webui/wasm/components/composer/httpfile.go:163-164 | every target with a blank in it is printed back with another length |
| HttpFormLines.TitleReads | webui/wasm/components/composer/httpfile.go:123-137 | a title survives printing exactly when it does not open with a marker of its own |
| HttpFormReturns.SwitchAddsNoReturn | webui/wasm/components/composer/httpfile.go:117-242 | a switch never adds a carriage return |
| HttpFormReturns.StableHasNoCrlf | webui/wasm/components/composer/httpfile.go:117-242 | a text that comes back unchanged holds no CRLF |
| HttpFormReads.RequestLineReads | webui/wasm/components/composer/httpfile.go:155-165 | a line `verb target HTTP/version`, the verb in any case, the version optional, gives its block the canonical verb and that target |
| HttpFormReads.RequestLineIsThere | webui/wasm/components/composer/httpfile.go:89-89 | only such a line is taken apart |
| HttpFormReads.OtherLineReads | webui/wasm/components/composer/httpfile.go:155-165 | any other line gives its block a verb when, trimmed, it is one in any case, and is the target otherwise |
| HttpFormReads.TextReads | webui/wasm/components/composer/httpfile.go:117-166 | a text that opens with a title and such a line, under either line break, has that verb and that target in its first request, whatever follows |
| HttpFormReads.HeaderLineReads | webui/wasm/components/composer/httpfile.go:172-183 | `name: value`, blanks allowed on either side of the colon, is a ticked row, and an unticked one behind a `#` |
| HttpFormReads.HeaderLineIsThere | webui/wasm/components/composer/httpfile.go:90-90 | nothing else is a header row |
| HttpFormReads.VariableLineReads | webui/wasm/components/composer/httpfile.go:138-141 | `@name = value` with any blanks is a variable |
| HttpFormReads.VariableLineIsThere | webui/wasm/components/composer/httpfile.go:88-88 | nothing else is |
| HttpGrammar.MeasureSpan | composer/http_file_parser.go:24-38 | the two cursor loops compute the span without leading blanks and trailing cut characters |
| HttpGrammarLines.HeaderReads | composer/http_file_parser.go:264-294 | a printed header row reads back with its name and value, up to its line break |
| HttpGrammarLines.VariableReads | composer/http_file_parser.go:138-175 | a printed variable reads back with its name and value |
| HttpBlocks.ParseCommentLines | composer/http_file_parser.go:299-310 | the note loop gathers exactly the note lines, after those already there |
| HttpBlocks.ParseBody | composer/http_file_parser.go:315-337 | the body is the text up to the next separator, one blank line skipped, trailing breaks trimmed |
| HttpBlocks.ParseHeaders | composer/http_file_parser.go:241-252 | the header loop, as the specification's recursion, its endless case included |
| HttpBlocks.ParseItem | composer/http_file_parser.go:228-259 | one request block: notes, request line, headers, body |
| HttpBlocks.SkipUnreadableBlock | composer/http_file_scan.go:52-62 | the issue's span and the place the loop goes on from |
| HttpBlocks.ParseHttpFile | composer/http_file_scan.go:14-47 | the loop gathers the variables, requests and issues of the stretches in order; nothing is returned exactly when the loop never ends |
| HttpVersions.VersionedLineReads | composer/http_file_parser.go:103-133 | a line `verb target HTTP/major.minor`, the verb in any case, is read as the canonical verb, exactly that target and exactly that version, each at its own offsets, whatever follows |
| HttpVersions.VersionedFileReads | composer/http_file_scan.go:14-47 | a source that opens with such a line has it as the head of its first request, at offset 0 |
| HttpSpans.FieldsAreSource | composer/http_file_parser.go:24-46 | every name, value, target, version, body and note of a parsed file is the source where it stands, verbs aside from case, and no target holds ` HTTP/` |
| HttpEnds.EndlessExactlyWhen | composer/http_file_scan.go:14-47 | the parse never returns if and only if, with a line break added, the source's last line is a note of a request |
| HttpEnds.ClosedFileEnds | composer/http_file_scan.go:14-47 | every source that is empty or ends in a line break is parsed to its end |
| HttpEnds.UnclosedNoteHangs | composer/http_file_parser.go:241-245 | a request line and an unterminated note hang the parse, whatever the environment |
| HttpScan.StretchesTile | composer/http_file_scan.go:14-62 | stretches are consecutive and disjoint with only blank text between, no body line starts with a separator, an issue or request ends at a separator or at the end |
| HttpScan.SpansInSource | composer/http_file_parser.go:24-38 | every span of every variable, request and issue lies inside the source |
| HttpShift.FileFromIsFileOfRest | composer/http_file_scan.go:14-47 | from any place of the source the result is that of the rest of the text, every position moved, whether it returns or not |
| HttpSend.ResolveForm | webui/wasm/components/composer/composer.go:911-925 | the header loop computes the map of ticked, named rows, values interpolated, the body only for methods that carry one |
| HttpSend.ResolveBlock | webui/wasm/components/composer/composer.go:927-948 | the same of a parsed block and the file's variables |
| HttpSendFile.RunsWhatTheFormShows | webui/wasm/components/composer/composer.go:911-948 | a sendable file, printed and read by the grammar, has no issue and one request per block in order, and each resolves to what its form resolves to |
| HttpPlaceholders.KnownIsFilled | webui/wasm/components/composer/httpfile.go:285-295 | the first placeholder of a text, blanks allowed inside its braces, is replaced by the value of the first ticked row of its name, and the rest of the text is substituted on |
| HttpPlaceholders.UnknownStays | webui/wasm/components/composer/httpfile.go:283-295 | without a ticked row of its name it stays as it is written |
| HttpPlaceholders.LooseBracesStay | webui/wasm/components/composer/httpfile.go:91-91 | braces that open no placeholder stay, and the second of them is looked at again |
| HttpPlaceholders.NothingToFill | webui/wasm/components/composer/httpfile.go:285-295 | a text with no double opening brace is unchanged |
| HttpPlaceholders.PlaceholderIsThere | webui/wasm/components/composer/httpfile.go:91-91 | nothing but such a placeholder is read as one |
| HttpPlaceholders.FormSends | webui/wasm/components/composer/composer.go:911-925 | method, URL, the last ticked row of each header name and the body are sent, substituted, and no other header |
| HttpPlaceholders.FormFillsKnown | webui/wasm/components/composer/composer.go:911-925 | so a placeholder with a value never leaves the form in URL, header or body |
| HttpPlaceholders.BlockSends | webui/wasm/components/composer/composer.go:927-948 | the same of a block, with all its named headers and the variables of the file |
| HttpPlaceholders.BlockFillsKnown | webui/wasm/components/composer/composer.go:927-948 | and a placeholder the file gives a value never leaves it |
| HttpSendFile.FileReads | composer/http_file_scan.go:14-47 | the printed variables and blocks come back as the file's variables and requests, in order |
| HttpSend.HeadersRead | composer/http_file_parser.go:241-252 | the printed rows read back as the ticked ones only; an unticked header stays a note |
| Highlight.LexUnreadableBlock | composer/highlight.go:117-162 | line by line, the tokens the line lexer finds in a block that could not be read |
| Highlight.DropOverlaps | composer/highlight.go:210-221 | in place, the first tokens of the array become exactly the non-empty ones that start where the last kept one ended or later |
| Highlight.SortedKeeps | composer/highlight.go:76 | sorting orders the tokens by start and loses none |
| Highlight.SortedIsStable | composer/highlight.go:76 | tokens with the same start keep their order |
| Highlight.DroppedOverlapOwner | composer/highlight.go:210-221 | from sorted tokens, each one left out was empty or overlaps one that is kept |
| HighlightHtml.FindRunes | composer/highlight.go:255-263 | the first place of a needle in a stretch, or none |
| HighlightHtml.SplitPlaceholders | composer/highlight.go:225-253 | the cursor loops split every token that may host a placeholder, in order |
| HighlightHtml.SplitTiles | composer/highlight.go:225-253 | split tokens are ordered, disjoint and non-empty, tile exactly the tokens they came from, and every placeholder starts with `{{` and ends with `}}` |
| HighlightHtml.LexLineEnds | composer/highlight.go:130-176 | no token of a lexed line reaches the line break the lexer adds |
| HighlightHtml.CollectedEnds | composer/highlight.go:53-74 | every token collected from a file ends inside the source |
| HighlightRender.Tokenize | composer/highlight.go:49-78 | collecting, sorting, dropping and splitting compute the painted tokens; nothing when the parse never returns |
| HighlightRender.TokensAreOrdered | composer/highlight.go:49-78 | the painted tokens are in order, apart, non-empty, inside the source, tile the kept ones, placeholders braced |
| HighlightRender.DroppedForAReason | composer/highlight.go:210-221 | every token read is painted, or covers nothing, or shares a rune with a painted one |
| HighlightRender.WriteEscaped | composer/highlight.go:265-278 | the rune loop writes the escaped text |
| HighlightRender.HighlightHTML | composer/highlight.go:88-111 | the markup is the rendering of the painted tokens, for exactly the sources that parse |
| HighlightRender.StripRender | composer/highlight_test.go:143-182 | without its tags the markup is the escaped source and a line break |
| HighlightRender.UnescapeEscape | composer/highlight_test.go:173 | unescaping undoes escaping, whatever follows |
| HighlightRender.OverlayIsTheSource | composer/highlight_test.go:150-152 | stripped and unescaped, the overlay is the source rune for rune and one line break, broken sources included |
| HighlightRender.PaintsWhatParses | composer/highlight.go:49-78 | a source is painted exactly when it parses |
| HighlightRender.ClosedSourceIsPainted | composer/highlight.go:88-111 | a source that is empty or ends in a line break is always painted, and painted whole |
| HighlightFields.CollectedIsFields | composer/highlight.go:49-76 | a token is collected if and only if it is a field of what was read, under the kind of that field, or what a line of an unreadable block is read as |
| HighlightFields.FileFieldsApart | composer/highlight.go:207-221 | two fields of a file that share a rune are the same field |
| HighlightKinds.PaintedIsField | composer/highlight.go:49-79 | everything painted is a stretch of a field of its kind, a note as a separator exactly when it is `###`, or a placeholder in a target, a value or a body |
| HighlightKinds.FieldOwnsOrMeets | composer/highlight.go:210-221 | every field, of a readable block or of a lexed line, is kept or shares a rune with one that is |
| HighlightKinds.FieldIsPainted | composer/highlight.go:49-79 | in a file without issues every rune of every field is painted, as that field or as a placeholder |
| HighlightKinds.PlaceholdersAreLeftmost | composer/highlight.go:225-263 | in a file without issues the placeholders of a target, a value or a body are exactly its leftmost `{{`, `}}` pairs, and no other field has any |
| HighlightKinds.OwnerHoles | composer/highlight.go:225-263 | the same of every token kept, whatever the file |
| HighlightKinds.TokenIsMarked | composer/highlight.go:93-104 | each painted token stands escaped between the tags of its style class, behind the markup of the text before it |
| Caret.Utf16LineOffset | webui/wasm/components/composer/composer.go:449-460 | the loop over line breaks computes the UTF-16 offset of a line |
| Caret.Utf16LineAt | webui/wasm/components/composer/composer.go:463-479 | the loop over runes computes the line an offset falls on, negative and too large offsets included |
| Caret.CaretGalois | webui/wasm/components/composer/composer.go:449-479 | a line starts at or before an offset if and only if it is at most the line the offset falls on, surrogate pairs included |
| Caret.LineAtIsGreatest | webui/wasm/components/composer/composer.go:463-479 | the line of an offset is the last one that starts at or before it |
| Caret.LineAndBack | webui/wasm/components/composer/composer.go:449-479 | a line, to its offset and back, is itself |
| Caret.DecodeEncode | webui/wasm/components/composer/composer.go:449-460 | the code units counted are those of UTF-16: decoded, surrogate pairs included, they are the text again |
| Caret.OffsetIsEncoded | webui/wasm/components/composer/composer.go:449-460 | a line starts behind the code units of everything up to the line break before it |
| Caret.OffsetOfNoLine | webui/wasm/components/composer/composer.go:449-460 | line 1, and any number below it, starts the text; a line past the last starts at its end |
| Bytes.UintOfLittleEndian | storage/binary_reader.go:33-56 | an integer written in little-endian bytes is read back |
| Crc32c.StateTold | storage/capture_session_writer.go:9-13 | one step of the register is injective in the register |
| Crc32c.ByteTold | storage/capture_session_writer.go:9-13 | one step of the register is injective in the byte |
| Crc32c.ChecksumTellsOneByte | storage/capture_session_writer.go:9-13 | no change of one byte keeps the checksum, at any length and position |
| Crc32c.RegisterOfTrailer | storage/capture_session_writer.go:128-136 | a trailer written is the register read back |
| Crc32c.CheckValue | storage/capture_session_writer.go:9-13 | the checksum of the digits 1 to 9 is the published check value of CRC32-C |
| CaptureIo.EncodePayload | storage/capture_session_writer.go:62-124 | the fields appended one after the other are the record's payload |
| CaptureIo.WriteHeaders | storage/capture_session_writer.go:161-176 | the count and every pair, appended in order |
| CaptureIo.CaptureReader.Read | storage/capture_session_reader.go:76-111 | the streaming reader returns what the format says at its place, stands behind the record after a whole, corrupt or refused one, and at the end after a truncation |
| CaptureIo.CaptureReader.TakePayload | storage/capture_session_reader.go:77-98 | the payload is parsed and exactly its bytes are teed, also when a read comes short |
| CaptureIo.CaptureReader.TakePairs | storage/capture_session_reader.go:220-244 | the header loop reads the pairs the count announces |
| CaptureRoundTrip.RecordReadsBack | storage/capture_session_reader.go:76-111 | a record within the field limits reads back wherever it stands, an empty body as an absent one |
| CaptureRoundTrip.ReadsBackExactlyWhenSized | storage/capture_session_reader.go:205-258 | a written record reads back if and only if its fields are within the limits |
| CaptureRoundTrip.ReadsBackUnchanged | storage/binary_reader.go:58-67 | the very record comes back if and only if its fields are within the limits and its body is not present but empty |
| CaptureRoundTrip.EmptyBodyIsLost | storage/binary_reader.go:59-61 | a body present but empty comes back absent |
| CaptureRoundTrip.ReadFits | storage/capture_session_reader.go:205-258 | from any bytes, the reader never returns a field longer than it admits |
| CaptureRoundTrip.HeaderReadsBack | storage/capture_session_reader.go:113-137 | the file header reads back |
| CaptureRoundTrip.HeaderBytes | storage/capture_session_writer.go:49-60 | the eleven bytes a session file opens with |
| CaptureRoundTrip.HeaderMeans | storage/capture_session_reader.go:113-137 | a file is opened if and only if its header is whole, with these letters and this version; other letters are refused before another version, and that before a short file |
| CaptureRoundTrip.FramesReadBack | storage/capture_session_reader.go:76-111 | whatever follows, the records of a session are read first, in order |
| CaptureRoundTrip.SessionReadsBack | storage/capture_session_reader.go:76-137 | a header and any number of records read back to those records and a clean end |
| CaptureDamage.RecordCut | storage/capture_session_reader.go:262-267 | a record cut anywhere strictly inside is a truncation, never a record and never a clean end |
| CaptureDamage.SessionCutInside | storage/capture_session_reader.go:76-111 | a session cut inside record k gives the first k records and a truncation |
| CaptureDamage.SessionCutBetween | storage/capture_session_reader.go:76-111 | a session cut between two records gives the records before the cut and a clean end |
| CaptureDamage.HeaderCut | storage/capture_session_reader.go:113-137 | a file shorter than its header is not opened |
| CaptureDamage.RecordChanged | storage/capture_session_reader.go:100-110 | one byte changed outside the type byte, the lengths and the count: the record is reported corrupt, and passed |
| CaptureDamage.SessionChanged | storage/capture_session_reader.go:76-111 | every other record of the session is still returned, in order |
| SinkLaws.StepKeepsSound | storage/storage_sink.go:40-104 | every step of every goroutine keeps the invariant over locks, the current session and all files |
| SinkLaws.RunKeepsSound | storage/storage_sink.go:40-104 | so does every interleaving |
| SinkLaws.SessionsOpenOneAtATime | storage/storage_sink.go:40-104 | in every run at most one session is open, and a closed one is never written again |
| SinkSwitch.ShutCloses | storage/storage_sink.go:54-60 | after any run a Disable leaves no current session and every file closed with the bytes it had |
| SinkSwitch.OffUntilCreated | storage/storage_sink.go:62-78 | from then until a session is made no step of any goroutine changes any file |
| SinkSwitch.WriterPasses | storage/storage_sink.go:62-69 | a writer of a sink that is off passes through without waiting and without a trace |
| SinkSwitch.EnableOpens | storage/storage_sink.go:40-52 | Enable of a sink that is off leaves one file more, open, headed and current, and every other as it was |
| SinkSwitch.EnableTwice | storage/storage_sink.go:38-45 | Enable of a sink that is on changes neither the files nor the session |
| SinkSwitch.RecordIsLast | storage/storage_sink.go:62-78 | when a writer that found a session ends unfailed, whatever others did meanwhile, its record is the last of that session, behind all that was there, and the session is still current |
| SinkSwitch.RecordIsDropped | storage/storage_sink.go:62-69 | a record whose writer finds no session reaches no file |
| SinkLaws.CrashReadsBack | storage/storage_sink.go:62-78 | wherever a run is cut short, failed writes included, a headed file with no record begun after a failed write reads back to exactly its completed records in lock order, then a clean end or one truncation |
| SinkFaults.CrashWithoutFailures | storage/storage_sink.go:40-104 | wherever a run without failed writes is cut short, every file is either shorter than its header, empty of records and not opened, or reads back to exactly the records it completed, those that took its mutex but for one at most, then a clean end or one truncation |
| SinkFaults.CleanExactlyWhenUnspoiled | storage/capture_session_writer.go:128-136 | in any run, a file with nothing half-written at its end reads back cleanly to its completed records if and only if no record was begun on it after a failed write |
| SinkFaults.TornNeverClean | storage/capture_session_writer.go:128-136 | a record written behind a torn one, whatever the records and the tear, is completed and makes every reading of the file unclean |
| SinkFaults.RecordTakes | storage/capture_session_reader.go:76-111 | a record read from any bytes takes exactly as many bytes as it is written in |
| SinkLaws.CrashInHeader | storage/capture_session_writer.go:49-60 | a file cut inside its header holds a prefix of it and is not opened |
| SinkFaults.FailedWriteSpoils | storage/capture_session_writer.go:128-136 | a run from a new sink that ends in such a file, for any two records and any tear that left bytes |
| UpstreamAuth.SelectPackage | proxy/middlewares/forward_proxy_server_with_authentication_windows.go:178-204 | the loop over the offers computes the choice of package and server token, bad encodings refused |
| UpstreamAuth.SelectKeeps | proxy/middlewares/forward_proxy_server_with_authentication_windows.go:189-203 | the package stays the active one, NTLM wins when free to choose, the token is one of the offers |
| UpstreamAuth.Handler.HandleProxyRequest | proxy/middlewares/forward_proxy_server_with_authentication_windows.go:32-263 | whatever the gateway, the packages and the network answer, every event obeys the monitor's rules and every exit leaves no connection open and no context live |
| UpstreamAuth.Handler.Restart | proxy/middlewares/forward_proxy_server_with_authentication_windows.go:83-113 | a new connection, a fresh copy of the request and a new context of the same package, at most twice |
| UpstreamAuth.Handler.Exchange | proxy/middlewares/forward_proxy_server_with_authentication_windows.go:115-262 | one turn of the loop writes exactly once and may go on only after a challenge or when starting over is safe |
| UpstreamAuth.Handler.Respond | proxy/middlewares/forward_proxy_server_with_authentication_windows.go:166-249 | a challenge is forwarded when it offers nothing usable, refused when its token cannot be decoded, answered on a new connection when it closes its own, on its own otherwise |
| UpstreamAuth.Handler.SetToken | proxy/middlewares/forward_proxy_server_with_authentication_windows.go:79-82 | exactly one field of the active challenge, made of the active package and the token given; the request is otherwise the client's copy |
| UpstreamAuthLaws.BoundedAndBalanced | proxy/middlewares/forward_proxy_server_with_authentication_windows.go:42-139 | at most 8 requests over at most 3 connections, as many closes as connections and releases as contexts |
| UpstreamAuthLaws.ConnectionClosedOnce | proxy/middlewares/forward_proxy_server_with_authentication_windows.go:47-51 | every connection is closed before the next one and before the end |
| UpstreamAuthLaws.ContextReleasedOnce | proxy/middlewares/forward_proxy_server_with_authentication_windows.go:67-71 | every context is released before the next one and before the end |
| UpstreamAuthLaws.TokensAreTheConnections | proxy/middlewares/forward_proxy_server_with_authentication_windows.go:104-111 | a token sent was computed by the context created for the connection it is sent on |
| UpstreamAuthLaws.ServerTokensAreTheConnections | proxy/middlewares/forward_proxy_server_with_authentication_windows.go:166-239 | a server token fed to a context was offered for its package, in `Proxy-Authenticate` of a 407 or `WWW-Authenticate` of a 401, on the same connection, in answer to the request last sent |
| UpstreamAuthLaws.UpdatesStayOnTheConnection | proxy/middlewares/forward_proxy_server_with_authentication_windows.go:230-242 | and that context was created on that connection |
| UpstreamAuthLaws.OnePackage | proxy/middlewares/forward_proxy_server_with_authentication_windows.go:189-192 | all contexts of a run are of one package |
| UpstreamAuthLaws.UnsafeOnlyAfterChallenge | proxy/middlewares/forward_proxy_server_with_authentication_windows.go:119-139 | a request that may not be restarted is sent again only after a challenge answered its previous copy |
| UpstreamAuthLaws.SentIsAccounted | proxy/middlewares/upstream_auth_connection.go:45-73 | what is sent is the client's request made to keep the connection, and tokens, nothing else |
| UpstreamAuthLaws.AnswersTheLastChallenge | proxy/middlewares/forward_proxy_server_with_authentication_windows.go:146-248 | a request sent again carries exactly one field `Proxy-Authorization` when the last challenge was a 407 and `Authorization` when it was a 401, made of the last context's package and the token computed last, after both |
| UpstreamAuthLaws.FinalIsForwarded | proxy/middlewares/forward_proxy_server_with_authentication_windows.go:146-161 | a head that is neither a 407 nor, where these count, a 401 goes to the client at once, and then there is only cleaning up |
| UpstreamAuthLaws.ForwardsOnlyTheLastWord | proxy/middlewares/forward_proxy_server_with_authentication_windows.go:146-214 | what goes to the client is the head just read: no challenge, or one behind a finished handshake, or one that offers nothing usable |
| UpstreamAuthLaws.WritesBehindTheMessage | proxy/middlewares/forward_proxy_server_with_authentication_windows.go:217-225 | a connection is written again only behind a head that keeps it, and after the body was drained |
| UpstreamHeaders.HeaderHasToken | proxy/middlewares/upstream_auth_connection.go:75-84 | the nested loops find a token of a comma-separated list, case and blanks aside |
| UpstreamHeaders.SetHeaderInPlace | proxy/middlewares/upstream_auth_connection.go:65-73 | the filter in the array's own storage and the append leave the other fields in order and the new one last |
| UpstreamHeaders.CopyUpstream | proxy/middlewares/upstream_auth_connection.go:45-63 | the copy is the upstream request, and the client's fields are not written |
| UpstreamHeaders.SetReadsBack | proxy/middlewares/upstream_auth_connection.go:65-73 | a field set reads back alone, every other field as before |
| UpstreamHeaders.UpstreamKeepsAlive | proxy/middlewares/upstream_auth_connection.go:45-63 | the copy asks to keep the connection in both fields, never to close it, and keeps every other token and field |
| UpstreamHeaders.CanRestartAfterEof | proxy/middlewares/upstream_auth_connection.go:102-119 | safe methods without a body only |
| UpstreamMeaning.RestartsExactlyWhenSafe | proxy/middlewares/upstream_auth_connection.go:102-119 | a request may be sent again blindly if and only if it is GET, HEAD, OPTIONS or CONNECT and announces no body |
| UpstreamMeaning.ClosesExactlyWhen | proxy/middlewares/upstream_auth_connection.go:86-100 | a challenge closes its connection if and only if it says so, is of HTTP/1.0 without asking to keep it, or has no other end |
| UpstreamMeaning.LookupIsFields | proxy/middlewares/upstream_auth_connection.go:75-84 | the values looked up are those of the fields of that name, case aside, and none exactly when there is no such field |
| UpstreamMeaning.OfferReads | proxy/middlewares/forward_proxy_server_with_authentication_windows.go:182-203 | an offer is its scheme and, behind the first blank, the token to decode |
| UpstreamMeaning.SelectPicks | proxy/middlewares/forward_proxy_server_with_authentication_windows.go:178-204 | the offer chosen is the last NTLM one that may be taken, or else the first that may; none only if none may |
| UpstreamDrain.NetworkStream.ReadLine | http/network_stream.go:67-87 | a line without its break, or the end of the stream |
| UpstreamDrain.NetworkStream.Drain | proxy/middlewares/upstream_auth_connection.go:13-43 | a successful drain leaves the stream exactly where the framing ends |
| UpstreamDrain.ChunkedIsDrained | proxy/middlewares/upstream_auth_connection.go:22-34 | every chunked body, extensions and trailers included, is drained to its last byte whatever follows |
| UpstreamDrain.CutChunkedIsRefused | proxy/middlewares/upstream_auth_connection.go:22-34 | a chunked body cut anywhere is an error |
| UpstreamMeaning.FinalCodingReads | proxy/middlewares/upstream_auth_connection.go:17-17 | in the framing of section 6.3 of RFC 9112 the final transfer coding is what stands behind the last comma of the last field |
| UpstreamMeaning.SizedLineReads | proxy/middlewares/upstream_auth_connection.go:18-18 | a chunk line, a size in hexadecimal of either case and any extensions, is read as that size |
| UpstreamMeaning.SizeReadsExactlyWhen | proxy/middlewares/upstream_auth_connection.go:18-18 | any other size is refused: a chunk line is read if and only if it has one to sixteen hexadecimal digits before its extensions |
| UpstreamMeaning.LengthReads | proxy/middlewares/upstream_auth_connection.go:37-40 | a decimal length is read as itself when it fits 63 bits and refused when it does not or is negative |
| UpstreamDrain.DrainsTheMessage | proxy/middlewares/upstream_auth_connection.go:13-43 | a plainly framed challenge kept on its connection is drained to the first byte after it |
| UpstreamDrain.FramingsAgreeExactlyWhenPlain | proxy/middlewares/upstream_auth_connection.go:13-43 | the code frames a kept challenge as section 6.3 of RFC 9112 does if and only if it is plainly framed |
| UpstreamDrain.GzipWithLengthIsMisframed | proxy/middlewares/upstream_auth_connection.go:13-43 | a challenge where they differ |
| ConfigEditor.FindSection | configuration/config_persistence.go:401-425 | the index loop finds the last header of the section, its indent and where it ends |
| ConfigEditor.SkipBlock | configuration/config_persistence.go:278-290 | the last line of a key's block |
| ConfigEditor.ReplaceSection | configuration/config_persistence.go:401-437 | the rewritten lines, or nothing when there is no section |
| ConfigLaws.LastWriteWins | configuration/config_persistence.go:401-437 | on any list of lines, of two rewrites only the last one shows |
| ConfigLaws.RewriteFrame | configuration/config_persistence.go:401-437 | lines before and after the section stay, lines outside the replaced keys' blocks stay in order, the blocks go, the new lines come last |
| ConfigText.JoinOfSplit | configuration/config_persistence.go:382-399 | splitting behind line breaks and joining gives the text back |
| ConfigText.RewriteLastWins | configuration/config_persistence.go:156-199 | last write wins on terminated texts, and the result is terminated |
| ConfigSections.AccessLastWins | configuration/config_persistence.go:401-475 | for the access-control section of the proxy and of the web interface |
| ConfigSections.UpstreamLastWins | configuration/config_persistence.go:292-380 | for the upstream settings |
| ConfigSections.CaptureLastWins | configuration/config_persistence.go:156-199 | for the capture rules |
| ConfigRead.UpstreamReadsBack | configuration/config_persistence.go:358-380 | the lines written for upstream settings read back as these settings, the URI trimmed |
| ConfigRead.AccessReadsBack | configuration/config_persistence.go:460-475 | those written for access control as it |
| ConfigRead.CaptureReadsBack | configuration/config_persistence.go:477-495 | those written for capture rules as them, each rule with the one limit that counts |
| ConfigPair.PersistAccessControl | configuration/config_persistence.go:382-399 | both sections in one write, or none: the pair the laws below are about |
| ConfigPair.PairLastWins | configuration/config_persistence.go:382-399 | where neither section holds the other's header, both are always written and of two saves only the last one shows |
| ConfigPair.PairOfLinesLastWins | configuration/config_persistence.go:401-437 | the same for any two editors of different sections on any lines, whichever comes first |
| ConfigPair.BelowStays | configuration/config_persistence.go:405-420 | a section below is found where it was, whatever the body of the one above becomes |
| ConfigPair.NestedSectionFails | configuration/config_persistence.go:382-399 | a file on which the first save drops the section the next one needs |
| ConfigUnended.StandsExactlyWhenFitting | configuration/config_persistence.go:401-437 | on any text, the lines of the result are the lines written if and only if nothing unterminated is left in front of the new ones |
| ConfigUnended.FittingLastWins | configuration/config_persistence.go:401-437 | where they are, of two rewrites only the last one shows |
| ConfigUnended.TerminatedFits | configuration/config_persistence.go:401-437 | every text that ends in a line break is such a text |
| ConfigUnended.LooseLineFails | configuration/config_persistence.go:401-437 | where a loose last line of the section is kept, the first of two rewrites shows through the second |
| ConfigUnended.UnterminatedLineFails | configuration/config_persistence.go:401-437 | such a file, for any settings |
| ConfigUnended.UnterminatedHeaderFails | configuration/config_persistence.go:401-437 | a file that is only a header: after one save the next finds no section |
| Runtime.ProxyServer.Close | proxy_server.go:82-91 | the listener and every tracked connection closed |
| Runtime.ProxyServer.StopAccepting | proxy_server.go:96-110 | the listener closed, connections left alone |
| Runtime.ProxyServer.TrackConnection | proxy_server.go:162-173 | a connection is tracked exactly when the server is not closed |
| Runtime.ProxyServer.Accept | proxy_server.go:129-154 | an accepted connection is open and tracked when access control allows it and the server is not closed, and closed at once otherwise |
| Runtime.ProxyServer.Finish | proxy_server.go:149-152 | a served connection is no longer tracked, and closed exactly when its request could be read |
| Runtime.DecryptRuntime.Observe | proxy/middlewares/switchable_middleware.go:27-45 | over any switches and new bases with any failures, what a request finds at any moment is an interceptor exactly when it is told that decryption is on, over a base put in place before |
| Runtime.DecryptRuntime.ApplyInitial | decrypt_https_runtime.go:40-55 | afterwards the target is an interceptor over the base exactly when decryption is on |
| Runtime.DecryptRuntime.SetEnabled | decrypt_https_runtime.go:57-91 | keeps that, and a failure changes nothing |
| Runtime.DecryptRuntime.ReplaceBase | decrypt_https_runtime.go:95-112 | keeps that over the new base, and a failure leaves the old one |
| Runtime.Supervisor.Start | runtime_supervisor.go:121-134 | a proxy that was not running is a new server that listens; a failure changes nothing |
| Runtime.Supervisor.CloseAllProxies | runtime_supervisor.go:145-155 | every listener ever created and every connection it tracks is closed |
| Runtime.Supervisor.ChangeUpstream | runtime_supervisor.go:157-182 | exactly what the command leaves, for every combination of failures: nothing changed when the pipeline cannot be built, the configured pipeline back after a failed write, the refused one when it cannot be built again |
| Runtime.Supervisor.ChangeAccess | runtime_supervisor.go:184-221 | exactly what the command leaves: settings and a listener that accepts, the old settings after a failure, and no listener only when both tries to listen fail |
| Runtime.Supervisor.Apply | runtime_supervisor.go:66-119 | each command answers and leaves exactly what its specification says, and the invariant over all servers holds |
| Runtime.Supervisor.Run | runtime_supervisor.go:54-64 | any commands, failures, arrivals and departures leave what the commands' specifications leave one after the other |
| Runtime.StepListens | runtime_supervisor.go:184-221 | after a command the proxy listens, on the host it shows, exactly when it runs, if and only if the command did not fail together with its rollback |
| Runtime.RunListens | runtime_supervisor.go:121-221 | so over any run without such a double failure a proxy that runs listens, on the host it shows |
| Runtime.RunFollows | runtime_supervisor.go:157-182 | over any run the pipeline is on the configured settings, unless a failed upstream change could not be undone |
| Runtime.RunShows | runtime_supervisor.go:157-221 | whatever fails, the session shows what the configuration holds |
| Runtime.SuccessTakes | runtime_supervisor.go:66-221 | a command that succeeds takes its argument, and one none of whose calls fails succeeds |
| Runtime.RunTakes | runtime_supervisor.go:54-221 | after any run each setting is what the last successful command for it asked for, or as it was when there was none |
| Runtime.FailureKeeps | runtime_supervisor.go:157-221 | a failed command changes nothing a session shows, and nothing at all if and only if its rollback did not fail as well |
| Runtime.Supervisor.RunAndShutDown | runtime_supervisor.go:145-155 | after any run, with clients arriving late on stopped servers and connections ending, shutdown leaves nothing listening and no tracked connection open |
| Runtime.Supervisor.OneListener | runtime_supervisor.go:121-221 | at most one listener accepts, and none once stopped |
| RequestStore.Store.PutPart | storage/request_store.go:63-99 | a put appends to the log the store stands for |
| RequestStore.Store.Enqueue | storage/request_store.go:103-111 | a new exchange at the back, the oldest evicted |
| RequestStore.Store.Evict | storage/request_store.go:107-110 | exactly the last `max` stay, queue and map with the same ids |
| RequestStore.Store.Get | storage/request_store.go:116-124 | present exactly when resident, with the latest parts put since its admission |
| RequestStore.Store.Len | storage/request_store.go:127-131 | the number of residents, at most `max` |
| RequestStore.Admits | storage/request_store.go:103-111 | an id that is not resident is admitted behind the last `max` admissions |
| RequestStore.Stays | storage/request_store.go:63-99 | a put of a resident id admits and evicts nothing |
| RequestStore.ResidentDistinct | storage/request_store.go:103-111 | resident ids are distinct |
| RequestStore.LastPutIsResident | storage/request_store.go:63-111 | the id put last is resident, and the residents number the smaller of `max` and the admissions |
| RequestStore.ShowsTheLastParts | storage/request_store.go:63-99 | an exchange shows, of each of its three parts, the one put last since it was admitted, and none that was not |

## Left out

- User interface, its server and its events, certificates, trust stores, TLS, SSPI, path resolution, logging, timing, update checks and the desktop shell.
- Access-control CIDR tests, no-proxy matching, version comparison, MIME limits, body limits, timing spans and paging of captures: true but easy.
- Ids, file names and line numbers of the form model; URL parameters (`SplitURL`, `JoinURL`); saving and opening files.
- Line and column numbers of text positions (offsets are modelled), issue messages, the host and port a target resolves to, and the number a version stands for.
- HttpBlocks.ParseHeaders: the loop that never ends is modelled as the result `Stuck`, detected where the code goes round without moving.
- HttpSendFile.RunsWhatTheFormShows: assumes of the environment that its blanks stay on their line (`HttpSend.BlanksStayOnLine`), so that skipping blanks does not skip a line break; notes must be `#` notes, because only one of the parsers reads `//`.
- HttpFormStable.StaysExactlyWhenSettled: for files of the parser's shape, which every parsed file has; a file assembled otherwise may hold line breaks inside fields.
- HttpVersions.VersionedLineReads: for targets without blanks; one that holds a placeholder and blanks is read up to ` HTTP/` too, which HttpSpans.FieldsAreSource covers.
- HighlightKinds.FieldIsPainted: for files without issues; elsewhere a line of an unreadable block and a block read before it may claim the same stretch, and `FieldOwnsOrMeets` says that one of them is painted.
- ConfigRead.UpstreamReadsBack: assumes that quoted strings and written numbers read back (`ConfigRead.Inverts`); the reader is one of lines, keys and items, not all of YAML.
- UpstreamDrain.NetworkStream.Drain: the limits of the standard library's chunked reader on line length and overhead are not modelled.
- UpstreamDrain.DrainsTheMessage: lengths that do not fit 64 bits are refused by the code and excluded here.
- UpstreamAuth.Handler.HandleProxyRequest: the tunnel after the final response is one event; the two copying goroutines are not modelled, nor is what the gateway sends through them.
- The two editors that change a single value (`persistStorageEnabled`, `persistDecryptHttpsEnabled`) and the commands for storage and body capture.
- Runtime classes are modelled as run under their mutexes; goroutines that serve connections are the `Accept`, `TrackConnection` and `UntrackConnection` steps.
- A flush and the operating system's write cache; a file is the bytes written to it.
- ConfigPair.PairLastWins: its condition is enough, not needed: a section held by the other outside the blocks of replaced keys may survive too. It is for files that end in a line break; what becomes of other files is said for one section at a time.
- Runtime.Supervisor.ChangeAccess: the configuration file on disk is not modelled, so neither is a rollback whose write fails; the values in memory are.
- RequestStore: creation times, and the mutex.
- Invalid UTF-8: text is a sequence of code points.
