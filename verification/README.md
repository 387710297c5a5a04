# BreezyBox for Cardputer: the verified core

A Dafny 4.11 model of the state machines, parsers and logs of the BreezyBox
firmware, with proofs of what they do on every input. `dafny verify
dfyconfig.toml` checks the whole project.

Code that updates buffers, fields or files in place is modelled that way: classes
with the same fields, arrays written by the same loops, files as the bytes they
hold. Each such method is proved against a specification written another way: a
parser that sees the whole stream, an interpreter over a syntax tree, a row shift
in closed form, an RFC 8259 parser, the longest suffix that fits. C strings are
Dafny strings, read up to their first NUL.

| component | files |
|---|---|
| Server-Sent Events parser | `Sse.dfy` (whole-stream parser), `SseParser.dfy` (the buffered one), `SseRoundTrip.dfy` |
| Shell line interpreter and tokenizer | `ShellScript.dfy` (syntax tree, interpreter), `ShellLaws.dfy` (what a run obeys), `Shell.dfy` (the scanner), `Args.dfy`, `ArgsSpelling.dfy` (what text spells which arguments) |
| Terminal emulator | `Terminal.dfy` (one byte as a function), `TerminalProofs.dfy`, `TerminalEffects.dfy` (what each sequence does), `TerminalCells.dfy`, `SshTerm.dfy` |
| JSON writer | `Json.dfy` (text and parser), `JsonRoundTrip.dfy`, `JsonWriter.dfy` |
| Transcript log | `Transcript.dfy`, `Session.dfy` |
| Tool calls and repeat detection | `ToolCall.dfy` |
| Agent loop | `Agent.dfy` |
| Text overrides | `Formats.dfy` |
| Shell history | `History.dfy` |
| Lent-memory arena | `Arena.dfy` |
| C strings, lines | `CStrings.dfy`, `TextLines.dfy` |

## What the proofs found

The model follows the code. In these places the code does less than its comments,
its tests or the standard it implements would suggest; each has a lemma that says
exactly when.

- SSE: a newline that joins data lines is dropped without setting `truncated` when
  the event buffer is full and the next data line is empty. An open event has lost
  something in silence if and only if that happened to it
  (`SseReference.LostInSilence`; an input in `SseReference.SilentLoss`), and only
  newlines can be lost so (`SseReference.UnflaggedLosesOnlyNewlines`).
- SSE: a line longer than 2047 bytes that is not a data line loses its first 2047
  bytes, and what follows them is read as a line of its own, so an ignored comment can
  bring data with it (`SseReference.CommentBecomesData`). A stream whose events fit
  means what its lines spell if and only if only data lines exceed that length
  (`SseReference.ParseMeansFields`). The whole-stream parser reads such lines as the
  code does, so the main theorem holds for every stream with no condition on line
  lengths.
- Terminal: the `;` after a parameter takes a parameter slot of its own. Cursor
  position with two parameters (section 8.3.21 of ECMA-48) therefore always goes to
  the first column, and setting both scroll margins always resets the region. Each is
  right exactly when that was what was asked for (`TerminalProofs.CursorPosition`,
  `TerminalProofs.RegionFromTwoParams`). Between two colours the `;` resets the pen, so
  the first counts if and only if the second overrides all it would leave
  (`TerminalEffects.TwoColoursHonoured`).
- Session: the replay indexes the first 256 turns, though its comment says that the
  older ones are left out. From the 257th turn on, the question just asked is not
  sent (`Transcript.LastTurnIsIndexed`, `Transcript.LaterTurnsAreUnseen`). All turns on
  the suffix come back if and only if no line is longer than 4296 bytes
  (`Transcript.AllReadable`); escaping can make it so, as 4096 quotes do
  (`Transcript.LineLength`, `Transcript.QuotesAreSkipped`).
- Tool calls: the overflow flag survives into the next block, so a tool call can be
  refused as too large because an unnamed block before it was
  (`ToolEvents.OverflowIsOwn`).
- Agent: an ask that runs out of memory between recording the question and the first
  request leaves the question without an answer. Roles on disk alternate exactly when
  no ask did (`AgentTurns.RolesAlternate`, `AgentTranscript.RolesOnDisk`).
- Text overrides: the comparison is of spelling, so `%i` is refused for `%d` and `%d%d`
  for `%*d` though printf takes the same arguments for both. Formats that take the
  same arguments are compatible if and only if no specifier is spelled another way and
  they are short enough to compare (`Formats.CompatibleTakesSameArguments`,
  `Formats.SpellingRefused`, `Formats.WidthRefused`). Well-formedness of an override
  is not checked; a lone `%` at its end passes (`Formats.LonePercentIsUnseen`).

## Model

| member | source | states |
|---|---|---|
| SseParser.Run | breezybox-cardputer/claw/claw_sse.c:5-152 | For every byte stream and every way of cutting it into feeds, init, feeds and finish make exactly the callbacks of the whole-stream parser and set the truncation flag exactly as it does. |
| SseParser.Parser.Feed | breezybox-cardputer/claw/claw_sse.c:115-139 | Feeding any bytes in any state keeps the relation between the two fixed buffers and the whole stream so far, with a carry of at most 2047 bytes, data of at most 8191, and a non-empty carry while an overlong line is being drained. |
| SseParser.Parser.Finish | breezybox-cardputer/claw/claw_sse.c:141-152 | At end of input all callbacks ever made, and the flag, are those of the whole stream; a last line without a newline and a pending event are flushed. |
| SseParser.Parser.LinePartial | breezybox-cardputer/claw/claw_sse.c:30-61 | Flushing a full carry buffer moves it into the data value in progress, the field name and one blank skipped once, or drops it and sets the flag. |
| SseParser.Parser.Line | breezybox-cardputer/claw/claw_sse.c:63-113 | A terminated line has the effect of the field it spells, or completes the value being drained. |
| SseParser.Parser.Dispatch | breezybox-cardputer/claw/claw_sse.c:12-25 | An event without data only clears the name; otherwise the callback gets name and data as C strings and both are cleared. |
| SseParser.MidPush | breezybox-cardputer/claw/claw_sse.c:117-138 | Reading one more byte of a line, with the flush it may cause, is a step of the whole-line state. |
| SseParser.MidClose | breezybox-cardputer/claw/claw_sse.c:30-76 | Draining a line of any length through the small buffer piece by piece applies exactly that line, one carriage return stripped at its very end. |
| SseParser.DrainClose | breezybox-cardputer/claw/claw_sse.c:65-76 | The pieces of a drained data value add up to the whole value, capped once. |
| SseReference.FlagIsExact | breezybox-cardputer/claw/claw_sse.c:50-58 | At the end of any stream the flag is set if and only if some line, a last one without its newline included, lost a byte of a data value or was an overlong line other than data. |
| SseReference.UnflaggedLosesOnlyNewlines | breezybox-cardputer/claw/claw_sse.c:99-111 | Without the flag, what an event loses at the buffer limit is joining newlines only. |
| SseReference.LostInSilence | breezybox-cardputer/claw/claw_sse.c:99-111 | Without the flag, an open event exceeds the buffer if and only if one of its empty data lines came when the buffer was full. |
| SseReference.LineOverLimit | breezybox-cardputer/claw/claw_sse.c:99-111 | One line does so exactly when it is such a line, or the event was over the limit and stays open. |
| SseReference.LineMeansField | breezybox-cardputer/claw/claw_sse.c:30-61 | A line has the effect of the field it spells if and only if it is at most 2047 bytes long or a data line. |
| SseReference.ParseMeansFields | breezybox-cardputer/claw/claw_sse.c:30-61 | A stream that fits the event buffer has the meaning of its lines, read without any limit, if and only if all of its lines are like that. |
| SseReference.CommentBecomesData | breezybox-cardputer/claw/claw_sse.c:30-61 | A comment longer than 2047 bytes whose rest reads `data:` and a value puts that value into the event. |
| SseReference.SilentLoss | breezybox-cardputer/claw/claw_sse.c:101-110 | Such a newline is lost in silence: a value that fills the buffer followed by an empty data line. |
| SseRoundTrip.EventsRoundTrip | breezybox-cardputer/claw/claw_sse.c:63-139 | Any list of events, their data split over data lines of any length, sent with any mix of LF and CR LF endings and with comments and unknown fields anywhere between the lines, is parsed back to that list, names cut at 63 bytes and data at 8191, with nothing flagged when all data fits. |
| SseRoundTrip.WireMeansText | breezybox-cardputer/claw/claw_sse.c:119-125 | Exactly one carriage return goes with a line ending; any other stays in the line. |
| SseRoundTrip.ReadsKept | breezybox-cardputer/claw/claw_sse.c:77-112 | Comments and lines of other fields change nothing, wherever they stand. |
| SseRoundTrip.PendingIsFlushed | breezybox-cardputer/claw/claw_sse.c:141-152 | The end of the stream sends off the event that no blank line has. |
| SseRoundTrip.LastEndingIsOptional | breezybox-cardputer/claw/claw_sse.c:141-152 | The last line means the same with and without its line ending. |
| SseRoundTrip.NameAloneIsDropped | breezybox-cardputer/claw/claw_sse.c:12-25 | A name without data is forgotten at the blank line, and nothing is sent. |
| SseRoundTrip.EmptyValue | breezybox-cardputer/claw/claw_sse.c:95-112 | An empty first data value adds nothing, an empty later one a line break. |
| TextLines.SplitIsExact | breezybox-cardputer/claw/claw_sse.c:119-125 | Cutting a text into lines cuts exactly at the newlines and loses nothing. |
| ShellExec.Exec | breezybox-cardputer/breezy_exec.c:622-684 | For every command line and whatever commands return, the commands run, in order, and the result are those of the interpreter over the parsed script, although the scanner rescans from each operator and overwrites the line; they obey the rules of `ShellLaws.IsRun`, and the result is 0 or what the last command returned for all that ran. |
| ShellExec.FindTopLevelOperator | breezybox-cardputer/breezy_exec.c:61-88 | Finds the first place outside quotes where the operator stands, or none. |
| ShellExec.SkipList | breezybox-cardputer/breezy_exec.c:667-680 | After a failed command before `&&`, goes on with what follows the next `;`, or ends with the failure when only blanks follow. |
| ShellBuffer.TrimInPlace | breezybox-cardputer/breezy_exec.c:43-59 | Returns the trimmed C string, leaving every byte behind the string and, when only blanks are there, the whole buffer as it was. |
| ShellScript.CutAtFirst | breezybox-cardputer/breezy_exec.c:636-665 | The operator that comes first cuts a line where one left-to-right pass cuts it, and reading on with fresh quote state is reading on. |
| ShellScript.CutAtSemicolon | breezybox-cardputer/breezy_exec.c:667-675 | The next top-level `;` ends exactly the current `&&` list, however many operators the list still holds. |
| ShellScript.ParseLosesNothing | breezybox-cardputer/breezy_exec.c:636-665 | The parsed script spells the line it came from. |
| ShellLaws.RunIsRun | breezybox-cardputer/breezy_exec.c:622-684 | Segment by segment in line order: a command that is reached runs and its code is the code, a blank one before an operator gives 0, after `&&` the next segment is reached only on 0, after `;` always. |
| ShellLaws.SegmentsAreTheLine | breezybox-cardputer/breezy_exec.c:636-665 | Those segments with their operators are the line, byte for byte. |
| ShellLaws.AndGates | breezybox-cardputer/breezy_exec.c:657-668 | Of two commands joined by `&&`, the second runs if and only if the first returned 0, and whose code stands follows from that. |
| ShellLaws.FailureEndsList | breezybox-cardputer/breezy_exec.c:667-680 | After a failure nothing more of the `&&` list runs, its code stays, and after `;` the next list starts. |
| ShellLaws.CodeIsFromLast | breezybox-cardputer/breezy_exec.c:649-665 | The result is 0 or the last command's code, and the latter whenever something ran and no segment before an operator is blank. |
| ShellLaws.RanGrows | breezybox-cardputer/breezy_exec.c:636-665 | What has run is never taken back, and a segment adds at most one command. |
| ShellLaws.TrimIs | breezybox-cardputer/breezy_exec.c:43-59 | A command is its segment without the blanks around it. |
| ShellLaws.ScriptRoundTrip | breezybox-cardputer/breezy_exec.c:61-88 | Any script whose commands close their quotes is read back from its text: operators between quotes, and a lone `&`, are not operators, all others are. |
| ShellScript.RunTrimRight | breezybox-cardputer/breezy_exec.c:674-678 | Erasing blanks at the end of the line, inside an open quote too, changes neither commands nor result. |
| Args.ParseArgs | breezybox-cardputer/breezy_exec.c:168-239 | The count of the first pass is the number of tokens, every stored pointer leads to its token as a C string in the buffer the second pass overwrites, and the last pointer is NULL. |
| Args.CountArgs | breezybox-cardputer/breezy_exec.c:180-198 | The first pass counts the tokens although it stops in front of the blank that the second pass overwrites. |
| Args.FillArgs | breezybox-cardputer/breezy_exec.c:212-231 | The second pass stores one pointer for each token and never damages a token found before. |
| Tokenizer.QuotedRoundTrip | breezybox-cardputer/breezy_exec.c:190-197 | Any argument list, each argument lacking one of the two quotes, is what tokenizing its quoted form gives. |
| ArgsSpelling.SpelledRoundTrip | breezybox-cardputer/breezy_exec.c:180-231 | Arguments written bare, between quotes or after a quote left open at the end, with any blanks before, between and behind them, are read back; a quote inside a bare word belongs to it. |
| ArgsSpelling.EveryLineIsSpelled | breezybox-cardputer/breezy_exec.c:180-231 | Every line is such a spelling, so this is all there is to say about its tokens. |
| Terminal.Step | breezybox-cardputer/cmd/ssh.c:600-691 | Every byte keeps the cursor and saved cursor on the screen or one past its last column, the scroll region in order, the parameter buffer and colours in range. |
| SshTerm.Emulator.ProcessBytes | breezybox-cardputer/cmd/ssh.c:693-700 | After any bytes the arrays, cursor, region, attributes and parser flags are those the pure terminal reaches, with every cell and buffer access in bounds. |
| SshTerm.Emulator.HandleCsi | breezybox-cardputer/cmd/ssh.c:410-598 | A complete CSI sequence has the effect of its final byte on its parameters, private modes apart. |
| SshTerm.Emulator.ReadParams | breezybox-cardputer/cmd/ssh.c:412-429 | The eight slots hold the parameters as the separator rule of the code gives them, and -1 beyond. |
| SshTerm.Emulator.PutChar | breezybox-cardputer/cmd/ssh.c:325-345 | Writes one cell with the current attributes, wrapping and scrolling first when the cursor is past the last column. |
| TerminalCells.ScrollUp | breezybox-cardputer/cmd/ssh.c:283-302 | Moving rows up one at a time, any number of times, is one shift by that number with the vacated rows blank and rows outside untouched. |
| TerminalCells.ScrollDown | breezybox-cardputer/cmd/ssh.c:304-323 | The same downwards. |
| TerminalCells.DeleteCells | breezybox-cardputer/cmd/ssh.c:541-549 | The loop that overwrites the row it reads deletes n cells at the cursor and fills the end with blanks. |
| TerminalCells.InsertCells | breezybox-cardputer/cmd/ssh.c:550-558 | The loop from the end of the row inserts n blanks at the cursor and drops the cells pushed out. |
| TerminalProofs.StepKeeps | breezybox-cardputer/cmd/ssh.c:435-458 | One byte leaves the screen behind and the saved cursor alone unless it enters or leaves the alternate screen or saves the cursor, and then does exactly that. |
| TerminalProofs.ScreensAreApart | breezybox-cardputer/cmd/ssh.c:229-232 | On the alternate screen the main cells never change; off it the alternate cells change only by being cleared on entry. |
| TerminalProofs.AltSession | breezybox-cardputer/cmd/ssh.c:440-453 | Over any bytes between entering and leaving the alternate screen the main screen is unchanged, and the cursor returns to where it was unless it was saved again meanwhile. |
| TerminalProofs.PrintText | breezybox-cardputer/cmd/ssh.c:341-344 | Text that fits on the line is written cell by cell from the cursor on and changes nothing else. |
| TerminalProofs.RowsUpAdd | breezybox-cardputer/cmd/ssh.c:293-300 | Scrolling by m and then by n is scrolling by m + n. |
| TerminalProofs.RunConcat | breezybox-cardputer/cmd/ssh.c:693-697 | How the bytes are split into reads does not matter. |
| TerminalProofs.TwoParams | breezybox-cardputer/cmd/ssh.c:417-429 | Two numbers with a `;` between them are read as three parameters, the middle one zero. |
| TerminalProofs.FinalByte | breezybox-cardputer/cmd/ssh.c:600-691 | The bytes of a control sequence, read in any idle state, end in the effect of its final byte on exactly those parameter bytes. |
| TerminalProofs.CursorPosition | breezybox-cardputer/cmd/ssh.c:492-500 | The bytes of cursor position with a row and a column reach that row and always the first column, so it is right if and only if the first column was meant or there is only one. |
| TerminalProofs.RegionFromTwoParams | breezybox-cardputer/cmd/ssh.c:573-584 | The bytes that set both margins always make the region the whole screen, so margins within the screen are honoured if and only if they are its first and last row. |
| TerminalEffects.UpDown | breezybox-cardputer/cmd/ssh.c:461-491 | Up and down by n rows, stopping at the region's margins, E and F at the first column; nothing else changes. |
| TerminalEffects.LeftRight | breezybox-cardputer/cmd/ssh.c:469-476 | Right and left by n columns, stopping at the screen's edges. |
| TerminalEffects.ToPosition | breezybox-cardputer/cmd/ssh.c:487-500 | To column or row n counted from 1; a row alone goes to its first column. |
| TerminalEffects.RegionFrom | breezybox-cardputer/cmd/ssh.c:573-584 | One margin makes the region reach from there to the foot of the screen, if that is two rows or more. |
| TerminalEffects.SavedComesBack | breezybox-cardputer/cmd/ssh.c:585-593 | After anything that neither saves nor changes screens, restoring brings the saved cursor back. |
| TerminalEffects.EraseInLine | breezybox-cardputer/cmd/ssh.c:522-534 | Cell by cell: which cells of the line K blanks, in the current colours; all others stay. |
| TerminalEffects.EraseInDisplay | breezybox-cardputer/cmd/ssh.c:501-521 | The same for J and the screen, and when the cursor goes home. |
| TerminalEffects.InsertLines | breezybox-cardputer/cmd/ssh.c:535-537 | Row by row: where each line comes from after L, also with the cursor below the region. |
| TerminalEffects.DeleteLines | breezybox-cardputer/cmd/ssh.c:538-540 | The same for M. |
| TerminalEffects.ScrollRegionUp | breezybox-cardputer/cmd/ssh.c:559-561 | S moves the rows of the region up by n, blanks the rest and touches no other. |
| TerminalEffects.ScrollRegionDown | breezybox-cardputer/cmd/ssh.c:562-564 | T moves them down. |
| TerminalEffects.DeleteChars | breezybox-cardputer/cmd/ssh.c:541-549 | Where each cell of the line comes from after P. |
| TerminalEffects.InsertChars | breezybox-cardputer/cmd/ssh.c:550-558 | Where each cell of the line comes from after @. |
| TerminalEffects.Colours | breezybox-cardputer/cmd/ssh.c:380-407 | Foreground, background and boldness after one SGR parameter, as numbers. |
| TerminalEffects.TwoColoursHonoured | breezybox-cardputer/cmd/ssh.c:367-407 | Two SGR parameters act like two sequences if and only if the second overrides all that the first would leave. |
| TerminalEffects.LineFeedBytes | breezybox-cardputer/cmd/ssh.c:662-669 | Down one row, or the region up by one at its foot and below it. |
| TerminalEffects.ReverseLineFeed | breezybox-cardputer/cmd/ssh.c:644-650 | Up one row, or the region down by one at its head and above it. |
| TerminalEffects.Tab | breezybox-cardputer/cmd/ssh.c:676-682 | To the next multiple of eight or past the last column, blanks written on the way. |
| TerminalEffects.Wraps | breezybox-cardputer/cmd/ssh.c:325-338 | A character past the last column comes after a return and a line feed. |
| TerminalEffects.OscIsIgnored | breezybox-cardputer/cmd/ssh.c:602-610 | An operating system command leaves no trace. |
| TerminalEffects.SwitchScreens | breezybox-cardputer/cmd/ssh.c:435-457 | The bytes that enter and leave the alternate screen, and all they change. |
| TerminalEffects.OtherFinals | breezybox-cardputer/cmd/ssh.c:594-596 | A sequence with any other final byte changes nothing. |
| TerminalEffects.DecimalMeans | breezybox-cardputer/cmd/ssh.c:417-420 | Every number is meant by its decimal digits. |
| JsonWriter.WriteItem | breezybox-cardputer/claw/claw_json_write.c:54-101 | Appends the text of the tree to the file, recursing over the linked children. |
| JsonWriter.WriteString | breezybox-cardputer/claw/claw_json_write.c:19-40 | Appends the quoted, escaped C string, up to its NUL. |
| JsonRoundTrip.RoundTrip | breezybox-cardputer/claw/claw_json_write.c:54-101 | An RFC 8259 parser applied to the text of any tree returns that tree, missing strings read as empty and unknown nodes as null, and consumes the whole text. |
| JsonRoundTrip.ProperRoundTrip | breezybox-cardputer/claw/claw_json_write.c:54-101 | For a tree with all strings present and NUL-free, the very same tree. |
| JsonRoundTrip.ValueTrip | breezybox-cardputer/claw/claw_json_write.c:54-101 | The same in front of any following text that cannot continue a number. |
| JsonRoundTrip.CharsTrip | breezybox-cardputer/claw/claw_json_write.c:22-38 | Escaping any string and reading it up to its closing quote gives the string back. |
| JsonRoundTrip.NumberTrip | breezybox-cardputer/claw/claw_json_write.c:42-49 | Every integer up to 2^53 in magnitude is read back from its digits. |
| JsonRoundTrip.PrintableItem | breezybox-cardputer/claw/claw_json_write.c:31-36 | No byte below 0x20, a newline in particular, is ever written raw. |
| JsonRoundTrip.EscapesAreStandard | breezybox-cardputer/claw/claw_json_write.c:22-38 | The escapes are those of section 7 of RFC 8259, and every other byte stands as it is. |
| JsonRoundTrip.SampleArray | breezybox-cardputer/claw/claw_json_write.c:42-80 | A number and a literal in an array, as they stand in the text. |
| Session.Store.Append | breezybox-cardputer/claw/claw_session.c:139-186 | Ends the file with exactly one more line, the content cut at 4096 bytes plus marker. |
| Session.Store.Rollback | breezybox-cardputer/claw/claw_session.c:202-241 | Leaves the first `mark` bytes of the file, or all of it when it is shorter. |
| Session.Store.Index | breezybox-cardputer/claw/claw_session.c:280-297 | The two tables locate exactly the first 256 complete lines. |
| Session.Store.FindFirst | breezybox-cardputer/claw/claw_session.c:299-310 | The backward walk finds the longest suffix of the indexed lines within the budget, or the last line alone. |
| Session.Store.Replay | breezybox-cardputer/claw/claw_session.c:266-348 | For any file and budget, returns the turns on that suffix in order, skipping empty, overlong and unreadable lines. |
| Transcript.FitsOnce | breezybox-cardputer/claw/claw_session.c:299-310 | Every longer suffix is over the budget, so the one found is the only one. |
| Transcript.DecodeLine | breezybox-cardputer/claw/claw_session.c:332-339 | An appended line decodes to the turn that was appended, as stored. |
| Transcript.ReplayIsSuffix | breezybox-cardputer/claw/claw_session.c:266-348 | For a session of at most 256 appended turns a replay returns the longest suffix that fits, minus the turns whose line is over 4296 bytes. |
| Session.AppendThenReplay | breezybox-cardputer/claw/claw_session.c:139-348 | Turns appended to a new session and replayed: of the first 256 the longest suffix that fits comes back in order, without those whose line is over 4296 bytes. |
| Transcript.AllReadable | breezybox-cardputer/claw/claw_session.c:325-327 | No turn of the suffix is missing if and only if every line is at most 4296 bytes. |
| Transcript.LineIs | breezybox-cardputer/claw/claw_session.c:139-186 | A line byte for byte: role and content, escaped, under their names. |
| Transcript.StoredIs | breezybox-cardputer/claw/claw_session.c:152-163 | Content up to 4096 bytes is stored whole, longer content as its first 4096 bytes and the marker. |
| Transcript.BytesAreInFile | breezybox-cardputer/claw/claw_session.c:299-310 | The budget counts the bytes that the lines take up in the file, newlines apart. |
| Transcript.DecodeNeedsBrace | breezybox-cardputer/claw/claw_session.c:332-339 | A line that does not start with a brace is no turn. |
| Transcript.DecodeNeedsMembers | breezybox-cardputer/claw/claw_session.c:332-339 | Nor is an object without a role or without content. |
| Transcript.LineLength | breezybox-cardputer/claw/claw_session.c:139-186 | The length of a line is that of its escaped role and content and 24 bytes more. |
| Transcript.QuotesAreSkipped | breezybox-cardputer/claw/claw_session.c:325-327 | A turn of 4096 quotes is stored whole and never read back. |
| Transcript.LaterTurnsAreUnseen | breezybox-cardputer/claw/claw_session.c:19-21 | From the 257th turn on, what a replay looks at no longer changes. |
| Transcript.LastTurnIsIndexed | breezybox-cardputer/claw/claw_session.c:287-297 | The turn just appended is looked at if and only if there are at most 256. |
| ToolCall.Receive | breezybox-cardputer/claw/claw_agent.c:162-166 | A stream of content blocks through a fresh accumulator yields the call the blocks define. |
| ToolCall.Accum.Add | breezybox-cardputer/claw/claw_backend.h:47-61 | Appends what fits of a fragment and flags what does not. |
| ToolCall.Accum.Extract | breezybox-cardputer/claw/claw_backend_anthropic.c:113-157 | One event opens, extends or closes the call, and reports it ready when a named one closes. |
| ToolEvents.Reassembly | breezybox-cardputer/claw/claw_backend_anthropic.c:113-157 | For any sequential blocks and any fragmentation, the call handed over is the first completed named tool_use block, its JSON the first 8191 bytes of the joined fragments or `{}` for none, and no later event changes it. |
| ToolEvents.OverflowIsOwn | breezybox-cardputer/claw/claw_backend_anthropic.c:130-133 | Its overflow flag is set if and only if its own arguments or those of an unnamed block before it exceed 8191 bytes. |
| ToolEvents.CallArrives | breezybox-cardputer/claw/claw_backend_anthropic.c:113-157 | After any prose, the first call arrives with its name and id up to 63 bytes, its joined fragments up to 8191, `{}` for none, and the flag exactly when they are longer. |
| RepeatedCall.PrimeIsInvertible | breezybox-cardputer/claw/claw_agent.c:889-892 | The FNV prime times 899433627 is 1 modulo 2^32, so the wrapping multiplication can be undone. |
| RepeatedCall.MixInjective | breezybox-cardputer/claw/claw_agent.c:890-892 | One hash step is a bijection of the state and tells any two bytes apart. |
| RepeatedCall.OneByteApart | breezybox-cardputer/claw/claw_agent.c:880-892 | Argument texts of any length that differ in exactly one byte never share a hash. |
| RepeatedCall.Fnv | breezybox-cardputer/claw/claw_agent.c:889-892 | The loop computes the 32-bit FNV-1a hash of the text. |
| Agent.CorrectionIsNoRepeat | breezybox-cardputer/claw/claw_agent.c:880-906 | Two calls whose printed arguments, whatever they are, differ in exactly one byte are never taken for the same. |
| AgentConnection.Conn.Send | breezybox-cardputer/claw/claw_agent.c:439-509 | The connection is opened at most twice, the second time exactly when a reused socket failed. |
| AgentConnection.Conn.Get | breezybox-cardputer/claw/claw_agent.c:245-280 | Keeps the client only for the same address and certificate, otherwise starts afresh with no live socket. |
| AgentConnection.Run | breezybox-cardputer/claw/claw_agent.c:288-629 | One round, exactly: it succeeds if and only if headers arrived, on the first pass or the second, with a 2xx status and nothing failed or dropped; text, tool call, status, number of opens, and the connection kept are given by equations. |
| Agent.RoundWithRetries | breezybox-cardputer/claw/claw_agent.c:797-827 | At most three retries, each only while no status was ever recorded. |
| Agent.RunRounds | breezybox-cardputer/claw/claw_agent.c:786-982 | Whatever network and model do, one ask calls the round at most 11 times and runs at most 8 tools, no two in a row alike, and retries only before the first recorded status. The calls made are exactly those that their replies lead to: a retry if and only if the call failed with no status on record and fewer than three retries, a next round if and only if the tool ran and fewer than 8 did; the reply is the first 4096 bytes of all that was streamed, and the ask succeeds if and only if the last call did and asked for no tool. |
| Agent.TakeCall | breezybox-cardputer/claw/claw_agent.c:833-981 | A tool runs if and only if its arguments fitted, its output buffer exists and its name or the hash of its printed arguments differs from the run before it; one byte of difference in the arguments is enough. |
| Agent.OneCallIsEnough | breezybox-cardputer/claw/claw_agent.c:786-831 | A first reply of some text and no tool call makes one call, and that text is the reply. |
| Agent.GivesUp | breezybox-cardputer/claw/claw_agent.c:797-827 | Without any reply it takes exactly four calls to give up. |
| Agent.UsedIsNames | breezybox-cardputer/claw/claw_agent.c:907-914 | The note names every tool that ran, in order, as long as they fit. |
| Agent.Ask | breezybox-cardputer/claw/claw_agent.c:631-1025 | Writes exactly the turns its ending stands for: question and answer, question and note, the question alone, or nothing, in which case the transcript is byte for byte as it was; a first reply of text is answered and recorded with exactly that text. |
| Agent.Chat | breezybox-cardputer/claw/claw_agent.c:988-1006 | After any asks from an empty session the lines on disk decode to user and assistant in turn if and only if none of them ran out of memory before its first request. |
| AgentTurns.RolesAlternate | breezybox-cardputer/claw/claw_agent.c:988-1006 | The same for the conversation as a list of turns. |
| AgentTurns.WrittenIsAfter | breezybox-cardputer/claw/claw_agent.c:988-1006 | The bytes an ask writes are the turns it adds. |
| AgentTranscript.RolesOnDisk | breezybox-cardputer/claw/claw_session.h:39-46 | The decoded lines alternate if and only if no ask was stranded. |
| Formats.CompatibleTakesSameArguments | breezybox-cardputer/claw/claw_text.c:124-135 | Two compatible well-formed formats take arguments of the same types in the same order, widths and precisions included; the converse holds if and only if no specifier is spelled another way and the encoding is shorter than 64 bytes. |
| Formats.CompatibleIsSameSpecs | breezybox-cardputer/claw/claw_text.c:124-135 | Compatibility is equality of the specifiers and length modifiers, where their encoding is shorter than 64 bytes. |
| Formats.SpellingRefused | breezybox-cardputer/claw/claw_text.c:124-135 | `%d` and `%i` take the same int and are not compatible. |
| Formats.WidthRefused | breezybox-cardputer/claw/claw_text.c:68-79 | `%*d` and `%d%d` take the same two ints and are not compatible. |
| Formats.ScanIsEncoding | breezybox-cardputer/claw/claw_text.c:47-122 | On a well-formed format the scanner writes down exactly the specifiers that take an argument, in order. |
| Formats.EncodeInjective | breezybox-cardputer/claw/claw_text.c:68-73 | The compact encoding of a list of specifiers is uniquely decodable. |
| Formats.LonePercentIsUnseen | breezybox-cardputer/claw/claw_text.c:57-60 | A well-formed format is compatible with itself and a lone percent sign at its end if and only if its encoding is shorter than 64 bytes. |
| TextOverrides.Specifiers | breezybox-cardputer/claw/claw_text.c:47-122 | The scan writes the specifiers and their NUL into the buffer if and only if they fit, for any buffer size. |
| TextOverrides.AreCompatible | breezybox-cardputer/claw/claw_text.c:124-135 | Compares the specifiers of both formats and refuses what does not fit in 64 bytes. |
| TextOverrides.Table.Text | breezybox-cardputer/claw/claw_text.c:216-234 | Returns the override when it is present, not empty and compatible, the fallback otherwise, and counts the refusals. |
| TextOverrides.OverrideIsUsed | breezybox-cardputer/claw/claw_text.c:216-234 | A well-formed override is used if and only if it is not empty and spells the same specifiers, within the limit. |
| TextOverrides.OverrideIsSound | breezybox-cardputer/claw/claw_text.c:216-234 | With well-formed overrides the text that `Table.Text` returns is a well-formed format that takes exactly the arguments of the call site's own. |
| History.Log.Append | breezybox-cardputer/breezybox.c:887-907 | Keeps the file a suffix of what was written since the last clear, with at most 200 lines and at least the last 100, and rewrites it at most once in 101 appends even though a clear leaves the counter stale. |
| History.Log.Trim | breezybox-cardputer/breezybox.c:845-885 | The in-place rewrite keeps exactly the last 100 lines, and the counter is right afterwards. |
| History.Run | breezybox-cardputer/breezybox.c:757-775 | The same over any interleaving of commands, clears and on/off switches, and k rewrites in a run take more than 101 (k - 1) appends. |
| History.KeptStory | breezybox-cardputer/breezybox.c:757-775 | Lines typed while saving is off are not kept, a clear works only while it is on, and switching it back on keeps what was there. |
| History.SplitConcat | breezybox-cardputer/breezybox.c:870-879 | Cutting a file after a newline splits its lines there. |
| Arena.Allocator.Free | breezybox-cardputer/claw/claw_arena.c:59-69 | A live block goes back to the heap it came from, and only that block is released. |
| Arena.Allocator.End | breezybox-cardputer/claw/claw_arena.c:104-116 | Gives the memory back if and only if nothing lives in it; otherwise the range stays known. |
| Arena.Allocator.Begin | breezybox-cardputer/claw/claw_arena.c:71-92 | Keeps the arena of a session that left something behind, otherwise adopts the lent range. |
| Arena.Allocator.InArenaIsOwner | breezybox-cardputer/claw/claw_arena.c:30-34 | The address test answers which heap a live pointer came from. |
| Arena.Run | breezybox-cardputer/claw/claw_arena.c:30-116 | Over any interleaving of begin, malloc, calloc, free of live pointers and end, the address test sends every free where a ledger of owners says, and end answers as the ledger does. |
| Arena.StaysHome | breezybox-cardputer/claw/claw_arena.c:59-69 | A block stays with its heap through any later sessions, so it is freed there whenever that happens. |
| Arena.SessionStory | breezybox-cardputer/claw/claw_arena.c:71-116 | The lent memory is used between begin and end and not after, and it comes back at the first end that finds it empty. |
| Arena.WrapsIff | breezybox-cardputer/claw/claw_arena.c:47-52 | The division test refuses exactly the products above SIZE_MAX. |

## Left out

- Pipes and redirections inside one command, external programs and builtins: a command is an oracle that returns a code, which may depend on every command run before it.
- NULL arguments and failed `strdup`/`malloc` in the shell and tokenizer; `breezybox_exec` and `parse_args` then return -1.
- Terminal parameters beyond the range of `int`, and the display refresh and cursor sync calls.
- SshTerm.Emulator.ProcessBytes: the flat cell arrays are two-dimensional arrays here, so an access is in bounds by its row and column; the offset computed from them is not part of the model.
- The screen size is a parameter of at least two rows and one column; the firmware fixes it at compile time.
- JsonWriter.WriteItem: numbers with a fraction or exponent and `cJSON_Raw` nodes are not part of the model, and its parser refuses fractions and exponents.
- Transcript lines are printed with the model's writer instead of `cJSON_PrintUnformatted`, and parsed with its parser instead of `cJSON_Parse`.
- I/O errors: file operations succeed. Session ids, paths and the choice between card and flash; one session and one history path are modelled.
- The OpenAI and Gemini backends, error events in the stream, and request building; a reply is what reached the loop.
- HTTP, TLS, Wi-Fi, heap sizes and timers are parameters of a round; the wait between retries is not modelled.
- What tools do, and what parsing and printing their arguments gives, which is a parameter; the tool result appended to the request; the memory and prompt turns put in front of a replay.
- Message catalogues and their loading: the override table is a map.
- Copying the history to the card, and the NVS setting that keeps the on/off switch.
- The two allocators behind the arena: they hand out addresses in their own range that are not in use. That `claw_calloc` zeroes its block.
- Arena.Allocator.Malloc: a request of zero bytes never gets a block from the private heap, because an empty block at the end of the lent range could not be told from a general one by its address.
