# AgentTape: verified models of its algorithms and protocols

AgentTape captures the traffic between coding agents and model providers, normalises it, and shows and replays it. Most of
it is plumbing, but it holds several algorithms and small protocols whose correctness is not obvious from reading
one function. This project models them in Dafny and proves what they promise.

| modules | what they model |
|---|---|
| `Diff` | the alignment of two message sequences: the LCS table filled in place, the greedy walk, the compaction hint |
| `Sse`, `SseFields` | parsing a server-sent-event stream, against a renderer, against free writers of its lines and against edits of the stream |
| `Neutral`, `Anthropic`, `AnthropicStreams`, `AnthropicRefinement`, `AnthropicFields` | rebuilding an Anthropic response from a stream, against the single-message parser, and which wire field each part comes from |
| `Chat`, `ChatStreams`, `ChatFields` | the same for Chat Completions |
| `Fold`, `FoldText` | bracket folding in the JSON editor, against a two-kind stack matcher and against a writer of JSON strings |
| `Compaction`, `CompactionEvidence` | the compaction detector: whitespace normalisation, anchor windows, majority vote, hook intervals, and the grade each kind of evidence earns |
| `Curl`, `CurlBuilder` | the printed curl commands, read back by a shell tokenizer |
| `Sessions`, `SessionProtocol` | the session registry, its persisted copy, and every interleaving of their steps |
| `CodexConfig`, `CodexToml`, `CodexDesktop` | the line-level config merge, what it does to TOML, and install/restore under crashes and failed operations |
| `SeedDigest`, `Seeds` | the fingerprint of the built-in replay cases and seeding that may be interrupted |
| `TurnFlow` | grouping events into turns and linking hooks to completions |
| `Options`, `Sequences`, `Text`, `Sorting`, `StringSort` | the option type, shared equations and library functions (trim, split, join, contains, sort) |

Code that loops or updates state is a method or a class here and is proved equal to a specification function; the lemmas
say what that function means. Where a stream is rebuilt in one pass, the specification is not a pass at all: it looks at each
block's own events only. That is what makes independence of the interleaving visible.

## Findings

Properties that one might expect and that the code does not have, each with a case and the exact condition:

- A session whose remove runs between its publish and its save is persisted although it is gone, and comes back with the next
  restart (`SessionProtocol.RemovedSessionMayReturn`). A restart keeps every route exactly when the saved records are the live
  sessions (`RestartKeepsRoutesIff`).
- A crash between the last two removes of a restore leaves a record without its backup (`CodexDesktop.CrashMayLeaveTheRecord`).
  A run leaves one exactly when a restore has used the backup up and left the record (`StuckIff`). It is the one kind of disk on
  which no install and no restore changes anything any more (`HandlersAreHelplessIff`). The user's config is intact.
- An install leaves an injection without a record exactly when it writes the config and not the record, and a mere failure of the
  latter is reported as success (`CodexDesktop.InstallGoesUnrecordedIff`). As long as the config can be read, no install and no
  restore changes anything about that either (`HandlersAreHelplessIff`). An install that cannot read the config replaces the
  injection by one without an original (`UnrecordedInjectionMayBeReplaced`); a further install changes nothing exactly under the
  condition of `InstallDoesNotStackIff`.
- An existing config that cannot be read is taken for absent and overwritten, and a restore then removes it. After an install its
  bytes are in the config or the backup if and only if it could be read, or a record was there, or the second write was not
  carried out, or an earlier backup holds them (`CodexDesktop.InstallKeepsBytesIff`).
- After a restore that died between rewriting the config and removing the backup, nothing is injected any more, but an edit made
  then is overwritten by the next restore (`CodexDesktop.EditMayBeOverwritten`). An edit survives exactly when there is no record,
  or one that has nothing else to put back (`EditSurvivesRestoreIff`). Over whole runs the user's config is lost exactly at the
  steps that `Loses` describes (`OriginalSurvivesIff`), and a restore gives it back exactly when the install on record saw it, or
  an earlier restore has used the backup up (`RestoreGivesBackTheOriginalIff`).
- A stored digest of a seed set does not mean that its rows still are as embedded: an interrupted open of another set may leave
  its rows behind, and going back reinstalls nothing (`Seeds.InterruptedUpgradeMayStick`). The seeds are as embedded exactly when
  the last write to each one's row was that seed, and an open writes only when its digest is not the stored one
  (`RowsAreLastWrites`, `SeedsAreInstalledIff`).
- The one-kind bracket count may fold text that is not well nested (`Fold.MismatchedTextMayStillFold`). A line folds as a matcher
  calls for, whatever the rest of the document looks like, unless the matcher meets a bracket that fits no open one before the
  line's opener is closed and closers of the opener's kind outnumber its openers afterwards (`FoldIsRightIff`). Brackets are those
  the editor sees, each line lexed on its own; they are the document's when no string crosses a line (`LinesLexLikeTheDocument`).
- A streamed Chat reply has the same output message as the single reply if and only if the content is missing, a non-empty string,
  an empty array or an array of one non-empty text part (`ChatStreams.StreamRefinesReply`). With content null beside tool calls,
  the everyday case, the single form has an empty text block more (`NullContentAddsABlock`). Text, calls, stop reason, usage and
  model always agree.
- Two tools that start at once in a Chat stream come out in the order of their first deltas (`ChatStreams.FirstDeltasDecideTheOrder`).
  Neighbouring tool deltas may be swapped exactly when one of the tools was seen before or both calls come out equal
  (`ToolDeltasCommuteIff`).
- `ParseSSE` swallows an event whose data is `[DONE]` (`Sse.EndMarkerIsSwallowed`). It gives back a rendered list exactly when no
  event has such data, a data line ending in a carriage return, or a name with outer blanks or a newline (`ParseUndoesRender`).
- `ParseSSE` delivers an event that the input breaks off in, which section 9.2.6 of the WHATWG HTML Standard discards
  (`Sse.UnfinishedEventIsDelivered`). The flush at the end changes nothing exactly when nothing, or only `[DONE]`, is being
  collected then (`FlushIsSilentIff`).
- The line-level strip of the Codex config is not TOML's: a provider key in quotes survives beside ours
  (`CodexToml.QuotedKeySurvives`), so does one after a row of an array (`ArrayRowEndsTheTop`); of a value that spans lines only the
  first goes (`LongValueIsTorn`), and a text may lose a line (`TextLosesALine`). The strip does what TOML calls for exactly when
  the lines that look like assignments before the first line that looks like a header are those of TOML's top-level assignments
  (`LinesAgreeWithTomlIff`), so on all plain configs (`PlainConfigsAgree`).

Where code and comment disagree the model follows the code: the comment on `seedDigest` says that every written field is hashed,
but source and creation time are not.

## Model

| member | source | states |
|---|---|---|
| Diff.FillTable | frontend/src/viewmodel/diff.ts:83-89 | the table filled backwards in place holds at every position the LCS length of the two suffixes |
| Diff.FillEntry | frontend/src/viewmodel/diff.ts:86-88 | one entry computed from its three neighbours extends the part that is filled |
| Diff.DiffMessages | frontend/src/viewmodel/diff.ts:77-110 | the walk over the table emits exactly the edit script the lemmas below characterise |
| Diff.LcsIsUpperBound | frontend/src/viewmodel/diff.ts:83-89 | no common subsequence, of whatever kind, is longer than the table's entry |
| Diff.EditScriptYieldsLeft | frontend/src/viewmodel/diff.ts:91-109 | the operations not "added" project to left's keys in order |
| Diff.EditScriptYieldsRight | frontend/src/viewmodel/diff.ts:91-109 | the operations not "removed" are right's messages themselves, in order |
| Diff.EditScriptKeepsLcs | frontend/src/viewmodel/diff.ts:94-106 | the greedy choices keep as many messages as the table's first entry promises |
| Diff.EditScriptIsOptimal | frontend/src/viewmodel/diff.ts:73-110 | the kept keys are a longest common subsequence, the script has n+m minus kept operations, and no sound script has fewer changes |
| Diff.RemovalsComeFirst | frontend/src/viewmodel/diff.ts:99-105 | the tie-break never puts an addition directly before a removal |
| Diff.AppendShowsTheTail | frontend/src/viewmodel/diff.ts:73-76 | when left is a prefix of right, the prefix is unchanged and exactly the rest is added |
| Diff.CompactionSuspected | frontend/src/viewmodel/diff.ts:19-40 | the hint is set exactly when some three consecutive operations are removals |
| Sse.ParseSSE | internal/normalize/shared/sse.go:19-53 | the scan with its flush closure computes the events the lemmas below characterise |
| Sse.Flush | internal/normalize/shared/sse.go:24-34 | a flush appends the pending event unless it is empty or `[DONE]`, and clears it |
| Sse.ParseUndoesRender | internal/normalize/shared/sse.go:16-53 | parsing a rendered event list gives it back if and only if every event is printable |
| Sse.EndMarkerIsSwallowed | internal/normalize/shared/sse.go:29-32 | an event whose data is the end marker is not given back |
| Sse.ParseIsAdditive | internal/normalize/shared/sse.go:38-52 | a stream may be cut after any blank line and parsed in pieces |
| Sse.EventsSkipIgnored | internal/normalize/shared/sse.go:40-49 | a line that is neither blank nor an event or data field changes nothing, wherever it stands |
| Sse.CommentsAreInvisible | internal/normalize/shared/sse.go:43-44 | a comment line inserted at any line boundary of the text changes nothing |
| Sse.RenderedIsSSEIff | internal/normalize/shared/sse.go:57-60 | a rendered stream is recognised as a stream exactly when it has an event |
| Sse.FlushComesLast | internal/normalize/shared/sse.go:38-52 | the events are those that blank lines complete, then what is being collected when the lines end |
| Sse.FlushIsSilentIff | internal/normalize/shared/sse.go:51-52 | the final flush delivers nothing exactly when nothing or only the end marker is pending, so after every blank line |
| Sse.UnfinishedEventIsDelivered | internal/normalize/shared/sse.go:51-52 | a stream that breaks off after a data line, whose event is delivered all the same |
| SseFields.WrittenStreamParses | internal/normalize/shared/sse.go:38-52 | whatever blanks a writer leaves out or puts in, and wherever comments stand, each group of lines gives its last name and its values joined by newlines; a value is the rest of its line but for one blank |
| SseFields.CRLFIsLF | internal/normalize/shared/sse.go:36-39 | carriage returns before the newlines change nothing |
| SseFields.IsSSEIff | internal/normalize/shared/sse.go:57-60 | a body is taken for a stream exactly when after its leading layout it begins with an event or a data field |
| Anthropic.ReassembleSSE | internal/normalize/anthropic/response.go:65-133 | the one-pass rebuild over the accumulator map equals the rebuild from each block's own events |
| Anthropic.CollectEvents | internal/normalize/anthropic/response.go:71-122 | the loop leaves in its variables what the message level, the start order and each block's own events amount to |
| Anthropic.FinishBlocks | internal/normalize/anthropic/response.go:124-131 | the blocks come out in start order, streamed tool arguments filled in when they are valid JSON |
| Anthropic.OnMessageDelta | internal/normalize/anthropic/response.go:113-120 | a present stop reason and a non-zero output count replace the old ones, and the total follows |
| Anthropic.BuildResponse | internal/normalize/anthropic/response.go:135-153 | final text joins the text blocks, tool calls are those of the tool blocks, both in order |
| Anthropic.StartedBlocksAccumulate | internal/normalize/anthropic/response.go:96-104 | a block has an accumulator exactly when it was started |
| AnthropicStreams.ReassemblyIsConfluent | internal/normalize/anthropic/response.go:71-132 | streams with the same start order, per-block events and message-level events give the same response, well formed or not |
| AnthropicStreams.NeighboursCommute | internal/normalize/anthropic/response.go:71-132 | neighbouring events of different blocks, or of a block and the message level, may be swapped in any stream |
| AnthropicStreams.CutsAreInvisible | internal/normalize/anthropic/response.go:105-112 | cutting one text, thinking or partial-JSON delta in two changes nothing |
| AnthropicRefinement.BlockRefines | internal/normalize/anthropic/blocks.go:49-75 | a streamed block equals the mapped whole block if and only if its deltas complete it |
| AnthropicRefinement.UsageTotalsAddUp | internal/normalize/anthropic/response.go:93-120 | in every stream the total is input plus output, with int64 wrap-around |
| AnthropicRefinement.StreamRefinesMessage | internal/normalize/anthropic/response.go:44-133 | every legal chunking of a message, whatever its content is and however its blocks are interleaved, gives the response and model of the single-message parser |
| AnthropicRefinement.BodyRefinesMessage | internal/normalize/anthropic/response.go:13-18 | the same from the rendered text on, through the event parser and the stream detection |
| AnthropicRefinement.StreamingRoundTrip | internal/normalize/anthropic/response.go:44-133 | every message with valid tool inputs has a legal chunking, and streaming it loses nothing |
| AnthropicFields.MappedIsOf | internal/normalize/anthropic/blocks.go:49-75 | every part of a mapped block comes from its own wire field, for nested tool results as well |
| AnthropicFields.MessageFields | internal/normalize/anthropic/response.go:22-58 | of a single message the k-th call has id, name and input of the k-th tool_use block, the final text joins the text fields in order, each usage entry is its own count |
| AnthropicFields.ContentFields | internal/normalize/anthropic/blocks.go:29-47 | content of any kind gives one assistant message with the blocks it stands for, or none |
| AnthropicFields.BlockComesFromItsStart | internal/normalize/anthropic/response.go:96-112 | in any stream a block is its last start with the later text, thinking and JSON of its index, and nothing else |
| AnthropicFields.CallComesFromItsStart | internal/normalize/anthropic/response.go:96-104 | id and name of a streamed call are those of the last start event of its index |
| AnthropicFields.StreamFields | internal/normalize/anthropic/response.go:124-153 | the response of any stream has one block per start in order, and text and calls gathered from these |
| AnthropicFields.StreamMetaFields | internal/normalize/anthropic/response.go:93-120 | model and usage come from the last message start, output count and stop reason from the last delta that gives one |
| AnthropicFields.StreamWithoutStart | internal/normalize/anthropic/response.go:65-72 | without a message start there is no model and no count but the output of a delta |
| Neutral.Int64Wraps | internal/normalize/anthropic/response.go:29-34 | a total is in 64-bit range, congruent to the sum, and the sum itself when that is in range |
| Chat.ReassembleChatSSE | internal/normalize/openai/chat_stream.go:12-72 | the nested loops over chunks, choices and tool deltas equal the rebuild from each tool's own deltas |
| Chat.OnToolDelta | internal/normalize/openai/chat_stream.go:45-57 | the three tool variables keep holding the last non-empty id and name and the joined arguments of every index |
| Chat.FinishContent | internal/normalize/openai/chat_stream.go:61-69 | the content is the text, when there is any, then the calls in order of first appearance |
| Chat.BuildChatResponse | internal/normalize/openai/chat.go:203-220 | final text and tool calls are those of the message's blocks, in order |
| ChatStreams.ReassemblyIsConfluent | internal/normalize/openai/chat_stream.go:19-71 | two chunk streams with the same text pieces, finish reasons, models, usages, per-tool deltas and order of first appearance give the same response, however these are interleaved and packed |
| ChatStreams.NeighboursCommute | internal/normalize/openai/chat_stream.go:19-58 | in any stream two neighbouring chunks may be swapped when they share no kind of information, no tool, and do not both start tools |
| ChatStreams.ChoicesCommute | internal/normalize/openai/chat_stream.go:40-58 | the same for neighbouring runs of choices, however packed into chunks |
| ChatStreams.ToolDeltasCommuteIff | internal/normalize/openai/chat_stream.go:45-57 | swapping neighbouring deltas of two tools keeps the response exactly when one tool was seen before or both calls come out equal |
| ChatStreams.FirstDeltasDecideTheOrder | internal/normalize/openai/chat_stream.go:46-49 | two first deltas with ids of their own give different responses in the two orders |
| ChatStreams.CutsAreInvisible | internal/normalize/openai/chat_stream.go:40-57 | cutting a choice in two, between its parts, inside its text or inside one delta's arguments, keeps the response of any stream |
| ChatStreams.StreamRefinesReply | internal/normalize/openai/chat.go:165-184 | a streamed single-choice reply has the single reply's text, calls, stop reason, usage and model; the output message agrees exactly when the content is nothing or one non-empty text |
| ChatStreams.NullContentAddsABlock | internal/normalize/openai/items.go:82-89 | with content null the single form has one empty text block more than the stream |
| ChatStreams.BodyRefinesReply | internal/normalize/openai/chat.go:165-168 | the same from the rendered text on, which is detected as a stream exactly when it has an event |
| ChatStreams.StreamingIsLegal | internal/normalize/openai/chat_stream.go:12-72 | every single-choice reply of an assistant has a legal chunking |
| ChatFields.UsageFields | internal/normalize/openai/chat.go:192-201 | a usage without counts is none; otherwise each entry is its own count and a missing total is the sum |
| ChatFields.ReplyFields | internal/normalize/openai/chat.go:165-184 | of a reply the k-th call has id, name and arguments of the k-th wire call, the text joins the text parts, model, finish and usage are its own, the content is the parts and then the calls |
| ChatFields.ToolReplyFields | internal/normalize/openai/chat.go:124-133 | a message of a tool is one result block with its id and content, and no call |
| ChatFields.NoChoiceNoReply | internal/normalize/openai/chat.go:177-179 | exactly a reply without choices gives nothing |
| ChatFields.StreamFields | internal/normalize/openai/chat_stream.go:19-71 | in any stream the text is joined, model, finish and usage are the last given, and there is one call per tool in the order of the first deltas, each made of its own deltas |
| ChatFields.ToolIsMade | internal/normalize/openai/chat_stream.go:45-65 | a streamed call has the last id and the last name given for its tool, and its arguments joined when they are valid JSON |
| ChatFields.SeenInOrder | internal/normalize/openai/chat_stream.go:46-49 | the tools seen are exactly those with a delta, in the order of their first one |
| Fold.BracketTokens | frontend/src/ui/CodeEditor.tsx:104-127 | the scan with two flags finds exactly the brackets outside strings, as section 7 of RFC 8259 lexes them |
| Fold.LastOpenerOnLine | frontend/src/ui/CodeEditor.tsx:94-102 | the line's opener is its last bracket, when that one opens |
| Fold.JsonBracketFold | frontend/src/ui/CodeEditor.tsx:75-92 | the nested loops compute the one-kind count over all later lines, and its range |
| Fold.LinesLexLikeTheDocument | frontend/src/ui/CodeEditor.tsx:104-127 | lexing line by line equals lexing the whole document when no string crosses a line |
| Fold.CountFollowsTheRun | frontend/src/ui/CodeEditor.tsx:80-90 | from any stack of open brackets the one-kind count finds the bracket that closes the outermost one, finds nothing when nothing does, and goes on counting after a mismatch |
| Fold.CountEndsIff | frontend/src/ui/CodeEditor.tsx:83-87 | the count ends exactly when closers of its kind outnumber openers by its depth at some point |
| Fold.FoldIsRightIff | frontend/src/ui/CodeEditor.tsx:75-102 | in any document, nested or not, a line folds as the matcher calls for if and only if it is not misled by a mismatch before the closer |
| Fold.RunAgreesWithMatcher | frontend/src/ui/CodeEditor.tsx:80-90 | on well-nested text the matcher started on one opener alone ends where the whole matching pairs it |
| Fold.FoldAgreesWithMatcher | frontend/src/ui/CodeEditor.tsx:75-102 | on well-nested documents no line is misled: every line folds exactly to the closer a two-kind stack matcher pairs with its last bracket, and not at all when that is no opener |
| Fold.FoldsAreNestedOrDisjoint | frontend/src/ui/CodeEditor.tsx:75-92 | two folds that are not misled, so any two of a well-nested document, are nested or disjoint |
| Fold.MismatchedTextMayStillFold | frontend/src/ui/CodeEditor.tsx:83-86 | a text the matcher rejects for which the count still folds |
| FoldText.StringIsHidden | frontend/src/ui/CodeEditor.tsx:108-122 | a JSON string of whatever body, escaped quotes and backslashes included, leaves no bracket behind and ends where it ends |
| FoldText.QuoteIsHidden | frontend/src/ui/CodeEditor.tsx:108-122 | so does any text written as a string with the escapes of section 7 of RFC 8259 |
| FoldText.PlainTextTokens | frontend/src/ui/CodeEditor.tsx:116-124 | without quotation marks the tokens are exactly the four kinds of brackets with their positions |
| FoldText.FoldIsInText | frontend/src/ui/CodeEditor.tsx:75-92 | in the document's text a fold begins behind an opening bracket and ends before a closing one of its kind |
| FoldText.FoldSkipsStrings | frontend/src/ui/CodeEditor.tsx:75-92 | brackets in a string between two others do not move the fold, whatever the string holds |
| Compaction.NormalizeConcat | internal/server/compaction.go:165-169 | the normal form of a concatenation is the two normal forms with at most one space between |
| Compaction.SurroundingTextKeepsContent | internal/server/compaction.go:165-169 | whatever text surrounds it, a text's normal form stays contained |
| Compaction.AnchorChunks | internal/server/compaction.go:172-187 | the loop returns nothing for short texts and otherwise the n windows, each of the chunk length |
| Compaction.StartsAreInOrder | internal/server/compaction.go:177-183 | windows start in bounds, from 0 to the last possible start, in non-decreasing order |
| Compaction.WindowsCover | internal/server/compaction.go:171-187 | the five windows of 80 cover every rune if and only if there are at most 400 |
| Compaction.MessagesText | internal/server/compaction.go:152-163 | the nested loops collect the non-empty text blocks, a newline after each |
| Compaction.ResponseCarried | internal/server/compaction.go:97-114 | true exactly when the normalised summary has 80 runes and at least three of its five windows occur in the request |
| Compaction.CarriedSummaryIsRecognised | internal/server/compaction.go:92-114 | a text block with the summary's words in order, re-wrapped in any way, with any text around it, is recognised |
| Compaction.CompactHookBetween | internal/server/compaction.go:116-125 | the loop finds a hook in the half-open interval exactly when there is one |
| Compaction.DetectCompactionEpisodes | internal/server/compaction.go:41-65 | the loop over adjacent pairs, with its early exits, emits the episodes of all boundaries in order |
| Compaction.ConfirmedNeverExceedHooks | internal/server/compaction.go:41-77 | for completions in time order there are at most as many confirmed episodes as hooks |
| Compaction.MoreHooksNeverWeaken | internal/server/compaction.go:49-61 | adding hooks keeps every episode, with its events and token counts, and never lowers its grade |
| CompactionEvidence.EpisodesAreEarned | internal/server/compaction.go:41-77 | a pair gives an episode exactly with a hook in between or a collapsed history; confirmed exactly with a hook, strong exactly without one and with lineage, else weak; events and tokens are those of the pair |
| CompactionEvidence.MoreEvidenceNeverWeakens | internal/server/compaction.go:67-77 | more evidence of any kind never lowers the grade |
| CompactionEvidence.CarriedIff | internal/server/compaction.go:97-114 | lineage means that the summary's words fill 80 runes and three different windows of them, spread evenly, occur among the words of the request |
| CompactionEvidence.HaystackIsWords | internal/server/compaction.go:152-169 | the text searched is the words of the request's text blocks in order, a space between |
| CompactionEvidence.RequestIsLined | internal/server/compaction.go:152-163 | the collected text is the non-empty texts of the text blocks, each ended by a newline |
| CompactionEvidence.WordsOfSpread | internal/server/compaction.go:165-169 | the words of a text are found however much white space of whatever kind is between and around them |
| Curl.QuotedReadsBack | internal/server/launch_api.go:346-349 | a quoted NUL-free string is read by the shell as one word, the string itself |
| Curl.CommandReadsBackIff | internal/server/case_curl.go:99-136 | by sections 2.2.1, 2.2.2 and 2.3 of the Shell Command Language (POSIX.1-2017, XCU) the command reads as exactly its argument vector, if and only if no part holds a NUL |
| Curl.ArgvIs | internal/server/case_curl.go:113-135 | place by place the arguments are curl, -X, method, target, a -H pair per header in order, and the body's pair when there is a body |
| CurlBuilder.BuildDirectCurl | internal/server/case_curl.go:110-136 | for every header map the printed command reads back as curl, method, target, one -H pair per kept value in sorted key order, and the body when there is one |
| CurlBuilder.OperandsOfAnyListing | internal/server/case_curl.go:116-131 | whatever order the map is walked in, the header words of the sorted names are the same, so the iteration order leaves no trace |
| CurlBuilder.CollectKeys | internal/server/case_curl.go:116-122 | the loop collects exactly the names that are not skipped, each once |
| CurlBuilder.BuildProxyCurl | internal/server/case_curl.go:99-108 | the through-proxy command reads back with its one content-type header |
| CurlBuilder.MaskedCommandHidesSecrets | internal/server/case_curl.go:110-173 | two header maps that differ only in skipped headers and in the secrets of sensitive ones, but not in their schemes, give the same masked command |
| CurlBuilder.MaskKeepsTheScheme | internal/server/case_curl.go:165-172 | the scheme is shown exactly for a known scheme, a space and something more |
| CurlBuilder.MaskShowsThreeKinds | internal/server/case_curl.go:165-172 | Bearer, Basic and Token credentials keep that word and four stars, all else becomes four stars |
| CurlBuilder.OperandsAreShown | internal/server/case_curl.go:116-131 | one operand per value of each kept header, names ascending; the value itself when not sensitive or when secrets are to be shown, its mask otherwise |
| CurlBuilder.SkippedAre | internal/server/case_curl.go:140-146 | skipped are exactly the five headers curl computes itself, in any case of their letters |
| CurlBuilder.SensitiveAre | internal/server/case_curl.go:151-161 | a header is sensitive exactly when its name holds one of five words in any case; the listed names all do |
| StringSort.SortIgnoresOrder | internal/store/cases.go:206 | sorting gives one arrangement, whatever order it starts from |
| StringSort.LeqIff | internal/server/case_curl.go:123 | the order is by the first character in which two strings differ, a prefix first |
| Sessions.Registry.BindPersister | internal/source/httpcap/session.go:91-108 | attaching a persister publishes all saved rows in the order read; rows with tokens of their own bring back exactly both indexes, and no headers or keys |
| Sessions.PublishAllIndexes | internal/source/httpcap/session.go:98-102 | whatever the rows hold, every saved id is back and every saved token is routed to a row that holds it, all else as before |
| Sessions.PublishAllRehydrates | internal/source/httpcap/session.go:98-102 | publishing all rows in turn gives the indexes of the saved records |
| Sessions.Registry.PublishSession | internal/source/httpcap/session.go:139-143 | the critical section of Register enters the session in both indexes and changes nothing else |
| Sessions.Registry.Register | internal/source/httpcap/session.go:130-150 | without interruption a session is published and saved, its upstream without trailing slashes |
| Sessions.Registry.Remove | internal/source/httpcap/session.go:209-227 | a live session leaves both indexes, both header maps and the database; an unknown id changes nothing |
| Sessions.Registry.NeedsKey | internal/source/httpcap/session.go:156-161 | true exactly for a live key-mode session without a key in memory |
| Sessions.Registry.Lookup | internal/source/httpcap/session.go:164-168 | while the indexes agree, as in every run, the result is the live session that holds the token, and none exactly when no live session does |
| Sessions.RoutesFollowTheSteps | internal/source/httpcap/session.go:139-143 | publishing routes the session's token to it, removing ends the session's own route, every other route stays |
| Sessions.ForgetTakesOneSession | internal/source/httpcap/session.go:209-220 | removing a live session takes its id, its token, its headers and its key away, and nothing of any other session |
| Sessions.Registry.Get | internal/source/httpcap/session.go:170-175 | while the indexes agree, the result is the session with the id to which its own token is routed, and none exactly when no token is routed to one |
| Sessions.Registry.RememberHeaders | internal/source/httpcap/session.go:110-116 | sets the remembered headers of one id and nothing else, whether the session is live or not |
| Sessions.Registry.RememberInject | internal/source/httpcap/session.go:179-183 | sets the injected headers of one id and nothing else |
| SessionProtocol.EveryRunIsAccounted | internal/source/httpcap/session.go:91-227 | in every interleaving the indexes agree one to one, every live session is saved, pending or had its save fail, and a saved session that is not live was overtaken by its remove or had its deletion fail |
| SessionProtocol.RestartKeepsRoutesIff | internal/source/httpcap/session.go:86-108 | a restart leaves every token's route unchanged if and only if the saved records are the live sessions |
| SessionProtocol.QuietRestartKeepsRoutes | internal/source/httpcap/session.go:86-108 | with no save pending, nothing failed and nothing overtaken, a restart changes no route |
| SessionProtocol.KeysDoNotSurviveRestart | internal/source/httpcap/session.go:152-161 | after a restart exactly the saved key-mode sessions need their key, and supplying it ends that |
| SessionProtocol.RemovedSessionMayReturn | internal/source/httpcap/session.go:143-148 | the run in which a removed session is saved late and comes back |
| CodexConfig.StripTopLevelModelProvider | internal/launcher/codex_desktop.go:62-76 | the loop with its flag computes the stripped lines |
| CodexConfig.StripKeepsTheRest | internal/launcher/codex_desktop.go:59-76 | stripping drops exactly the assignments before the first header; all else survives in order, tables untouched |
| CodexConfig.StripIsIdempotent | internal/launcher/codex_desktop.go:62-76 | stripping twice is stripping once |
| CodexConfig.MergeCodexDesktopConfig | internal/launcher/codex_desktop.go:35-57 | the builder writes our lines, the stripped original, our tables |
| CodexConfig.MergedLines | internal/launcher/codex_desktop.go:40-47 | line by line the merged file is our two lines, the surviving lines, our table |
| CodexConfig.OriginalLinesSurvive | internal/launcher/codex_desktop.go:38-45 | what is missing from the original is its top-level assignments and blank lines at its end |
| CodexConfig.MergeAssignsOurProviderOnly | internal/launcher/codex_desktop.go:26-57 | for every original the merged file assigns the provider once before its first header, and that line is ours |
| CodexConfig.AssignmentIff | internal/launcher/codex_desktop.go:24 | a line is an assignment exactly when it is white space, the key, white space, an equals sign and a rest |
| CodexConfig.HeaderIff | internal/launcher/codex_desktop.go:67-69 | a line opens a table exactly when a bracket is the first of its characters that is no white space |
| CodexConfig.OurProviderIsDefined | internal/launcher/codex_desktop.go:42-47 | the provider our assignment names is the one our table defines |
| CodexConfig.TableBodyLines | internal/launcher/codex_desktop.go:48-55 | our table line by line: name, base URL, wire API, authentication, hook tables behind a blank line when there are any, the closing mark |
| CodexToml.LinesAgreeWithTomlIff | internal/launcher/codex_desktop.go:26-76 | the line-level strip drops what TOML calls for if and only if the lines it takes for top-level assignments are TOML's, quoted keys and values that span lines included |
| CodexToml.PlainConfigsAgree | internal/launcher/codex_desktop.go:59-76 | it does so when each line means in TOML what it looks like and no value of the key spans lines |
| CodexToml.QuotedKeySurvives | internal/launcher/codex_desktop.go:24 | a top-level assignment with the key in quotes is kept |
| CodexToml.ArrayRowEndsTheTop | internal/launcher/codex_desktop.go:67-69 | a document with an array of arrays whose later top-level assignment TOML's strip drops and the line-level strip keeps |
| CodexToml.LongValueIsTorn | internal/launcher/codex_desktop.go:70-72 | of an assignment whose value spans lines only the first line is dropped |
| CodexToml.TextLosesALine | internal/launcher/codex_desktop.go:70-72 | a line within a text that looks like an assignment is dropped |
| CodexConfig.MergedHasMarker | internal/launcher/codex_desktop.go:78-81 | an injected file is recognised as injected |
| CodexDesktop.Desktop.HandleInstall | internal/server/codex_desktop_api.go:100-156 | from the state check on, the writes in order with every early return, crash and ignored failure; a conflict exactly when an injection is on record or in a config that could be read; success only with the injection written and the original backed up |
| CodexDesktop.Desktop.HandleRestore | internal/server/codex_desktop_api.go:180-200 | the restoring operations in order, likewise; an error whenever the backup is gone, success only with the backup's bytes back in the config |
| CodexDesktop.OriginalSurvivesIff | internal/server/codex_desktop_api.go:79-200 | in every run, with unreadable configs, crashes and edits against a record, the user's bytes are in the config or the backup until a losing step, which does lose them; never more than one injection is in the config |
| CodexDesktop.OriginalIsNeverLost | internal/server/codex_desktop_api.go:79-200 | when installs can read the config and edits do not go against a record, no step is a losing one and the config is the user's own or that with one injection |
| CodexDesktop.HistoryTells | internal/server/codex_desktop_api.go:100-199 | in every run the record and the backup on disk are what the history says: what the install on record saw, and whether a restore has used the backup up |
| CodexDesktop.StaleIff | internal/server/codex_desktop_api.go:180-199 | a record is stale exactly when that install saw something else than the user last wrote and the backup is not used up |
| CodexDesktop.StuckIff | internal/server/codex_desktop_api.go:185-199 | a record is without its backup exactly when a restore has used that up and left the record |
| CodexDesktop.RestoreGivesBackTheOriginalIff | internal/server/codex_desktop_api.go:168-200 | after any run that lost nothing, a restore that is carried out gives back the user's bytes or their absence exactly when the install on record saw them or the backup is used up |
| CodexDesktop.RestoreGivesBackTheOriginal | internal/server/codex_desktop_api.go:168-200 | after any run of fair steps it always does |
| CodexDesktop.EditSurvivesRestoreIff | internal/server/codex_desktop_api.go:180-199 | an edit survives a restore exactly when there is no record or it has nothing else to put back |
| CodexDesktop.EditMayBeOverwritten | internal/server/codex_desktop_api.go:190-196 | the run in which an edit after a crashed restore is overwritten by the next |
| CodexDesktop.InstallThenRestore | internal/server/codex_desktop_api.go:137-199 | a completed install and a completed restore leave config and record as they were |
| CodexDesktop.InstalledLines | internal/server/codex_desktop_api.go:126-156 | a completed install on a clean disk records its session and writes our assignment, what survives of the config that was read, and our table with this injection's base URL and hooks |
| CodexDesktop.InstallDoesNotStackIff | internal/server/codex_desktop_api.go:100-145 | after an injection into a clean disk a further install changes nothing exactly when the first is on record, or the second can read the config, or does not get to write, or writes the same; it never writes a second injection into one |
| CodexDesktop.UnrecordedInjectionMayBeReplaced | internal/server/codex_desktop_api.go:109-156 | an unrecorded injection replaced by an install that cannot read it, after which a restore removes the config |
| CodexDesktop.HandlersAreHelplessIff | internal/server/codex_desktop_api.go:100-199 | no install and no restore changes anything exactly on a record without its backup; when the config can be read, exactly there and on an injection without its record |
| CodexDesktop.CrashMayLeaveTheRecord | internal/server/codex_desktop_api.go:195-199 | a crash between the last two removes leaves such a record |
| CodexDesktop.InstallGoesUnrecordedIff | internal/server/codex_desktop_api.go:110-156 | an install on a clean disk leaves an injection without its record exactly when it writes the config and not the record; what it read is then in the backup |
| CodexDesktop.InstallKeepsBytesIff | internal/server/codex_desktop_api.go:110-145 | for every outcome of the writes, an existing config's bytes are kept exactly when it was readable, on record, not overwritten or backed up before |
| SeedDigest.ComputeDigest | internal/store/cases.go:199-213 | the loops hash the sorted lines, each followed by a newline |
| SeedDigest.DigestIgnoresOrder | internal/store/cases.go:195-213 | the digest is the same for every permutation of the seeds |
| SeedDigest.DigestDetectsEveryChange | internal/store/cases.go:195-213 | without hash collisions, NULs in fields and newlines in ids, two seed sets have the same digest exactly when they hash the same fields, although bodies may hold newlines |
| SeedDigest.DigestDetectsEveryField | internal/store/cases.go:195-213 | under the same conditions two seed sets have the same digest exactly when they are the same cases but for source and creation time, so a change of any other field is noticed |
| SeedDigest.LineIsAmbiguousIff | internal/store/cases.go:202-204 | eight fields can be read off their line if and only if none of them holds the separator |
| SeedDigest.NulsMayCollide | internal/store/cases.go:202-204 | two different seeds with NULs in a field that have the same digest, whatever the hash |
| SeedDigest.NewlinesMayCollide | internal/store/cases.go:206-211 | two different seed sets with a newline in an id that have the same digest, whatever the hash |
| Seeds.CaseTable.SeedCases | internal/store/cases.go:135-193 | rows first, digest next, old flag last, stopping anywhere |
| Seeds.CaseTable.AddCase | internal/store/cases.go:101-114 | inserts or replaces the row with that id and touches nothing else |
| Seeds.CaseTable.DeleteCase | internal/store/cases.go:116-121 | removes the row with that id and touches nothing else |
| Seeds.SeedingLeavesOthersAlone | internal/store/cases.go:132-134 | rows outside the seed set are never touched, however far an open gets |
| Seeds.CompletedOpenInstallsIff | internal/store/cases.go:169-190 | a completed open leaves every seed as embedded exactly when the stored digest differed or they already were; an equal digest changes no row |
| Seeds.OldFlagGoes | internal/store/cases.go:185-192 | the flag of the old scheme goes with a completed install and with nothing else |
| Seeds.StoredDigestMeansInstalled | internal/store/cases.go:169-190 | over every history a stored digest means that some open installed all of a seed set with that digest |
| Seeds.UserRowsAreTheUsers | internal/store/cases.go:132-134 | over every history a row outside the seed sets is what the user last made of it |
| Seeds.RowsAreLastWrites | internal/store/cases.go:101-193 | over every history each row is what was last written to it by the user or by a reached statement of an open whose digest differed from the stored one |
| Seeds.SeedsAreInstalledIff | internal/store/cases.go:169-190 | after every history the seeds are as embedded if and only if the last write to each one's row was that seed |
| Seeds.InterruptedUpgradeMayStick | internal/store/cases.go:169-184 | a history after which the stored digest is that of a set whose row is not as embedded |
| TurnFlow.SortIsStable | frontend/src/viewmodel/detail.ts:39 | events of the same time keep their order |
| TurnFlow.GroupIntoTurns | frontend/src/viewmodel/detail.ts:35-59 | null exactly without prompts; otherwise the turns partition the sorted events, each later turn starts at its only prompt, counts and indices are right |
| TurnFlow.OnEvent | frontend/src/viewmodel/detail.ts:43-57 | the loop body keeps that description true of the events seen |
| TurnFlow.GroupingIsUnique | frontend/src/viewmodel/detail.ts:31-59 | there is only one such grouping |
| TurnFlow.TurnFields | frontend/src/viewmodel/detail.ts:43-57 | each turn's key, start, counts and index read off its events, and prompts at the heads only |
| TurnFlow.BuildTurnFlow | frontend/src/viewmodel/detail.ts:87-116 | the hooks in time order, each with the reference found by counting completions, for every event list, also one with repeated ids |
| TurnFlow.FlowIsOfHooks | frontend/src/viewmodel/detail.ts:88-101 | the flow has one node per hook event in time order and refers to completions only; other requests take no part |
| TurnFlow.ReferenceIsToACompletion | frontend/src/viewmodel/detail.ts:96-113 | whatever a node refers to is a completion of the turn, and only tool hooks and prompts refer to one |
| TurnFlow.NumberCompletions | frontend/src/viewmodel/detail.ts:93-95 | the map holds exactly the completions' ids, each with its last ordinal |
| TurnFlow.IndexIsACount | frontend/src/viewmodel/detail.ts:92-112 | in the flow of events with distinct ids a tool hook's index is the number of completions at or before it, none when that is zero; a prompt's is one plus the number strictly before it when that completion exists |
| TurnFlow.FindReference | frontend/src/viewmodel/detail.ts:101-112 | one hook's reference, found by scan or search and numbered, is the one found by counting |
| TurnFlow.FindProducer | frontend/src/viewmodel/detail.ts:103-107 | the scan with its break stops at the completion whose ordinal is the number at or before the hook |
| TurnFlow.FindTriggered | frontend/src/viewmodel/detail.ts:110 | the search finds the completion after the number strictly before the prompt |
| TurnFlow.CountIsPosition | frontend/src/viewmodel/detail.ts:104-107 | among sorted completions exactly those at positions below the count are at or before a time |
| TurnFlow.ToolReferencesNeverCross | frontend/src/viewmodel/detail.ts:61-75 | in the flow a later tool hook never refers to an earlier completion than an earlier one does |
| TurnFlow.ReferencesAreCausal | frontend/src/viewmodel/detail.ts:61-70 | in the flow a tool hook's completion is the latest not after it, a prompt's the earliest not before it |

## Left out

- HTTP serving, the reverse proxy, process launching, SQLite, React, file permissions: input and output only.
- JSON decoding, JSON validity, SHA-256, `%q` quoting and the hook tables' text are parameters (`decode`, `valid`, `hash`, `base`, `hooks`); decoded events are datatypes.
- `ContentBlock.Raw`, the evidence texts of episodes, and `Message.Raw`: carried along, never read by the modelled code.
- Message identity (`messageKey`, `blockKey`) is an opaque key. The real key joins parts with separators, so two different messages may share one.
- `summarizeDiff` beyond its compaction hint, `orderEvents`, `groupIntoRounds`, the filters and percentage helpers: easy members.
- The scanner's 16 MiB line limit: lines are assumed to fit.
- Strings are sequences of code points, not bytes. Go's byte-wise containment, order and slicing at rune boundaries agree with that on valid UTF-8; invalid UTF-8 is not modelled.
- Timestamps are keys of a total order. The strings drop trailing zeros of the fraction, so their own order is not always time order; for the flow, `localeCompare` and `<=` are assumed to agree.
- Token counts of the compaction detector are unbounded integers; `Int64` models wrap-around where usage totals are added.
- Sse.ParseSSE: the flush closure shares variables with the loop; here they are passed in and out.
- Anthropic.ReassembleSSE: accumulators are values in a map, not shared pointers, so aliasing of blocks is not captured. The loops and the `message_delta` case are methods of their own.
- TurnFlow.GroupIntoTurns: the current turn is a value kept apart from the finished ones, while the source appends to an object already in the list.
- TurnFlow.IndexIsACount: speaks of events with distinct ids, as ids are primary keys; so do `ToolReferencesNeverCross` and `ReferencesAreCausal`.
- Fold.JsonBracketFold: takes the line's number instead of a position in it.
- CurlBuilder.BuildDirectCurl: header names are ASCII, as HTTP tokens are, so lower-casing is ASCII only; the shell's reading is stated for methods that are plain words.
- Compaction.ConfirmedNeverExceedHooks: requires completions in time order, in which the query delivers them.
- Sessions.Registry.BindPersister: requires that each saved row is stored under its own id, as the id is the table's primary key.
- Seeds.CaseTable.AddCase: takes the case with its creation time and endpoint already filled in.
- SessionProtocol.EveryRunIsAccounted: a restart whose reading of the saved rows fails is not a step, and headers remembered after a remove are not confined to live ids, as in the code.
- CodexDesktop.OriginalSurvivesIff: handlers do not overlap in time, a single write is not torn, the backup and the state file can be read when they exist, and the user edits the config only while nothing is injected into it; removing an injection by hand is no step.
- SeedDigest.DigestDetectsEveryChange: does not cover fields with a NUL and ids with a newline, where `NulsMayCollide` and `NewlinesMayCollide` show collisions; the seeds are compiled in, and none is known to hold either. `DigestDetectsEveryField` has the same conditions.
- CodexToml.LinesAgreeWithTomlIff: keys with escapes inside quotes and dotted keys are not assignments of the key here, and the config is assumed to be valid TOML.
- CodexDesktop.Desktop.HandleInstall: the checks of origin, launch permission and paths before the state check, and registering the session.
- Seeds.StoredDigestMeansInstalled: speaks of a seed set with the stored digest, since the hash may collide; `SeedDigest.DigestDetectsEveryChange` says when it is the set itself.
