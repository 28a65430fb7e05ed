# Kathara engine model

A Dafny model of the parts of kathara-go that do real work on their own: the terminal emulator and the multiplexer around
it, the boot order of devices, network id allocation, the glob translation, the device and link association, the scanners
and matchers that are written out by hand, and the file system in memory.

Each part has a description on values, with its laws, and where the Go code changes things in place, classes and loops that
are proved to do what the values say.

| files | what they model |
|---|---|
| `wrappers.dfy` | what several parts need |
| `utf8.dfy`, `decode.dfy` | UTF-8 by section 4 of RFC 3629, the failure scanner, line splitting |
| `screen_model.dfy`, `screen_parser.dfy`, `screen_laws.dfy`, `screen.dfy` | the terminal emulator on values, its byte parser, its laws, and the object whose rows move by reference |
| `screen_sequences.dfy`, `screen_commands.dfy` | for each control sequence, escape, control and character: the bytes, and the whole screen that writing them leaves |
| `mux_model.dfy`, `mux_laws.dfy`, `mux.dfy` | one update of the multiplexer, on values, what each message leaves and when the loop ends, and the update on pane objects |
| `mux_protocol.dfy`, `mux_runs.dfy` | the multiplexer as a transition system of loop, openers, pumps, channel and shutdown, and what holds on all its runs |
| `mux_traffic.dfy`, `mux_order.dfy` | what sessions send, from the read to the screen, over all its runs |
| `ordered.dfy`, `depgen.dfy`, `boot_order.dfy` | the insertion-ordered map, lab.dep's graph, the order it gives the lab |
| `glob_meaning.dfy`, `glob_laws.dfy`, `fnmatch.dfy` | what globs and RE2 expressions mean, and the translation between them |
| `vni.dfy` | the network id allocator |
| `shlex.dfy`, `shlex_grammar.dfy` | the two word splitters and quoting, and the grammar of the lines that they take apart |
| `deviceline.dfy`, `deviceline_laws.dfy` | the lab.conf device line |
| `lab_model.dfy`, `lab_laws.dfy`, `lab.dfy`, `numbering.dfy` | devices and links on values and as objects, and the numbering check |
| `tree.dfy`, `tree_laws.dfy`, `memfs.dfy` | the file tree on values, and the file system, its writers and the walk as objects |

`dafny verify dfyconfig.toml` checks all of it.

## How claims are stated

- Cursor sums wrap at 64 bits, as in Go. `MoveFits` is the exact condition under which a motion stays on the screen,
  `Followed` says it of a whole write, and `CursorDownWraps` is an input that fails it. From a cursor off the screen all
  goes on as in Go: what needs no row or column by the cursor works, some of it brings the cursor back, and an index that is
  out of range is a panic, which is an outcome of `Write` like any other. `PanicTraced` says what has come before it.
- A panic in the multiplexer's update is the effect `Crash`. Nothing runs in the loop after it but shutdown, which sees the
  sessions as the panic left them; the rows that a panicking write had changed are not looked at again.
- `wrapNext` is kept exactly where the code keeps it, also off the last column.
- In the protocol any message that a command has taken off the channel may be the next one handled. What Open and Read
  answer is free, but for two facts asked of them: Open returns once it is cancelled, and Read fails once its session is
  closed.
- The laws about sequences are over `Write` and the bytes themselves. `Listens` says that a screen is in the middle of no
  character and hears an ESC; `Quiet` is that screen with whatever was being read cut short.
- Output is handled in the order in which it was read as long as the channel has one reader. A write to a session that fails
  makes a second one, as the end of that session is told past the channel and answered by a new reader all the same:
  `HandledInOrder` asks that none fails, `RefusedKeyAddsReader` and `TwoReadersReorder` are what happens otherwise.
- The search for the last reset of an SGR takes numbers of colours for resets. `CutsColourExactly` says exactly when a colour
  is cut, and `ColourIsReset` is a colour that is.
- The glob translation does not always preserve meaning. `TranslatePreserves` says exactly when it does, and `BangExample`
  gives a pattern for which it does not; the comment in the source promises CPython's translation, which has the same flaw.
- Removing a device can stop halfway, a device can be made under a name that is not its own, and a closing writer can store
  a file without a parent. `RemoveKeepsExactly`, `ConnectKeepsExactly` and `StoreKeepsExactly` say when the structure
  survives; `UnstrippedName` and `OrphanExample` are runs in which it does not.
- Leaving the alternate screen can be swallowed by an unfinished escape. `AltScreenIsolated` says exactly when the primary
  screen comes back, and `LoneEscape` is an output behind which it does not.

## Model

| member | source | states |
|---|---|---|
| `Utf8.CharPrefixIsPrefix` | labfile/decode.go:65-180 | A byte string passes the byte-by-byte tests exactly when some bytes complete it to one UTF-8 character (section 4 of RFC 3629). |
| `Utf8.PrefixFree` | labfile/decode.go:70-180 | No character is the beginning of another, so a string has at most one character at its front. |
| `Utf8.WellFormedConcat` | labfile/decode.go:70-180 | Behind a well-formed beginning, the whole is well formed exactly when the rest is. |
| `Utf8.DecodeStable` | term/screen.go:150-168 | Once a rune is complete, bytes that follow it change neither the rune nor its size. |
| `Decode.ScanChar` | labfile/decode.go:74-176 | One round of the scan: the size of the character at the place, or the report of why none begins there. |
| `Decode.Utf8Failure` | labfile/decode.go:70-180 | Reaches its last line exactly on well-formed input; on any other, the bytes before start are well formed and [start, end) is the longest beginning of a character there, or the one byte that begins none. |
| `Decode.FailureUnique` | labfile/decode.go:70-180 | A string has at most one failure report. |
| `Decode.FailureRefutes` | labfile/decode.go:70-180 | A string with a failure report is not well formed. |
| `Decode.DecodeUtf8` | labfile/decode.go:50-63 | The text itself when it is well formed, and else the one error that fits it. |
| `Decode.ReadLines` | labfile/decode.go:184-196 | The lines put together are the file; none is empty, a newline stands only at an end, and only the last may lack it. |
| `Decode.LinesUnique` | labfile/decode.go:184-196 | There is only one way to cut a file into such lines. |
| `ScreenModel.NewScreen` | term/screen.go:88-129 | A fresh screen satisfies the invariant, with the size asked for, at least 1 by 1. |
| `ScreenModel.ScrollUp1` | term/screen.go:350-372 | One line of scrolling keeps grid, saved screen, region, styles and history well formed, loses no history line that fits, leaves history alone on the alternate screen, and touches nothing but rows and history. |
| `ScreenModel.ScrollUp` | term/screen.go:350-372 | The same for any amount, past the region height too. |
| `ScreenModel.ScrollDown` | term/screen.go:374-383 | Scrolling down changes rows of the grid and nothing else, the history and the cursor included. |
| `ScreenModel.Index` | term/screen.go:326-335 | Line feed takes the cursor down by a row, but at the end of the region and on the last row, from wherever the cursor is, and keeps it on the screen if it was. |
| `ScreenModel.ReverseIndex` | term/screen.go:337-345 | Reverse index keeps it there too, and the history as it was. |
| `ScreenModel.Print` | term/screen.go:296-324 | Printing a rune of any width keeps the invariant and leaves the cursor on the screen, with and without a wrap put off, wherever the cell is there to print to; a rune of no width changes nothing. |
| `ScreenModel.Control` | term/screen.go:235-259 | Every C0 control keeps the invariant, and the cursor on the screen if it was. |
| `ScreenModel.EraseDisplay` | term/screen.go:532-549 | ED in every mode, known or not, changes cells of the grid and nothing else. |
| `ScreenModel.InsertLines` | term/screen.go:576-589 | IL changes rows of the grid and nothing else, outside the region too. |
| `ScreenModel.DeleteLines` | term/screen.go:591-604 | So does DL. |
| `ScreenModel.SetAltScreen` | term/screen.go:513-530 | Switching screens keeps the invariant; while the alternate screen is up, the saved grid, its cursor and the history stay as they were. |
| `ScreenModel.SetPrivateModes` | term/screen.go:500-512 | A list of private modes ends on the alternate screen exactly as its screen-switching modes say. |
| `ScreenModel.InternStyle` | term/screen.go:662-677 | Styles and index stay inverse, the table stays within 16 bits, and an index other than 0 names the style asked for. |
| `ScreenModel.Sgr` | term/screen.go:628-660 | SGR with any parameters leaves a style that is in the table. |
| `ScreenModel.ParamSpell` | term/screen.go:941-961 | A parameter spelled in decimal is read back as itself, and as 0 beyond 64 bits. |
| `ScreenModel.SetTitle` | term/screen.go:679-707 | OSC 0 and OSC 2 set the title to the printable runes of their text, as many as fit in 128 bytes and the one that takes it past them; any other OSC changes nothing. |
| `ScreenModel.SanitizeExactly` | term/screen.go:696-707 | The title is the text without its control characters, as far as the limit or with the one rune that takes it past it. |
| `ScreenModel.Reset` | term/screen.go:709-718 | RIS leaves a blank primary screen with the cursor on it, and the history and the style table as they were. |
| `ScreenModel.Spill` | term/screen.go:760-795 | What a new size pushes off the primary grid goes to the history within its cap, which loses no line that fits. |
| `ScreenModel.Resize` | term/screen.go:726-758 | Resizing gives the size asked for, keeps the history lines that fit, and puts the cursor on the screen wherever it was; a screen in any state satisfies the invariant afterwards. Which cells stay is ScreenLaws.ResizeCells. |
| `ScreenParser.Target` | term/screen.go:400-432 | From a cursor on the screen, a motion stays on it exactly when no 64-bit sum in it wraps; an absolute position is on the screen from anywhere. |
| `ScreenParser.Move` | term/screen.go:385-432 | The motions change the cursor and the wrap to come, and nothing else; they keep the cursor on the screen exactly when their sum fits. Where each goes is ScreenSequences.PositionMoves and those behind it. |
| `ScreenParser.ControlSequence` | term/screen.go:385-484 | Every CSI final with every parameter string keeps the invariant; it leaves the alternate screen exactly when it is the private reset that says so. |
| `ScreenParser.Escape` | term/screen.go:262-294 | Every escape keeps the invariant; only RIS leaves the alternate screen. |
| `ScreenParser.FinishString` | term/screen.go:215-221 | A string sequence ends in the ground state, having set at most the title. |
| `ScreenParser.Feed` | term/screen.go:173-233 | Any byte in any parser state that indexes what is there keeps the invariant; a cursor on the screen stays on it exactly when the byte ends no motion that wraps. |
| `ScreenParser.Write` | term/screen.go:145-171 | Output of any length, from wherever the cursor is, panics or keeps the invariant and every history line that fits; it does not panic, and leaves the cursor on the screen, where no motion in it leaves 64 bits; on the alternate screen, output without a way out leaves the saved screen alone. |
| `ScreenParser.RunConcat` | term/screen.go:145-171 | Running on a concatenation is running on the first part and writing the second, a panic in either included. |
| `ScreenParser.WriteConcat` | term/screen.go:145-171 | Two writes reach the screen that one write of both reaches, also where the cut is inside a character or a sequence. |
| `ScreenParser.WriteChunks` | term/screen.go:145-213 | So does any number of writes. |
| `ScreenLaws.ScrollUpLength` | term/screen.go:350-372 | Full-height scrolling by n grows the history by n lines up to its cap. |
| `ScreenLaws.ScrollUpIsQueue` | term/screen.go:350-372 | History and primary grid together are one bounded queue into which scrolling enters blank lines. |
| `ScreenLaws.ScrollUpRows` | term/screen.go:350-372 | Scrolling by any n moves the rows of the region up as one block and no row outside it. |
| `ScreenLaws.ScrollDownRows` | term/screen.go:374-383 | Scrolling down moves them down as one block. |
| `ScreenLaws.InsertLinesRows` | term/screen.go:576-589 | IL moves the rows from the cursor to the end of the region down as one block. |
| `ScreenLaws.DeleteLinesRows` | term/screen.go:591-604 | DL moves them up as one block. |
| `ScreenLaws.DeleteUndoesInsert` | term/screen.go:576-604 | DL after IL of the same count brings back every row that was not pushed out of the region. |
| `ScreenLaws.DeleteCharsUndoesInsert` | term/screen.go:606-626 | DCH after ICH of the same count brings the row back but for what was pushed off its end. |
| `ScreenLaws.TextAppears` | term/screen.go:296-324 | Text that fits in the row appears from the cursor on in the current style and nowhere else, and the cursor ends behind it or on the last column with the wrap put off. |
| `ScreenLaws.EraseDisplayCells` | term/screen.go:532-574 | ED blanks the cells from the cursor on, up to it, or all, in the current background, and no other cell. |
| `ScreenLaws.OutputPushes` | term/screen.go:350-372 | Any output makes the history the last lines, within its cap, of what it was and the lines pushed, which are counted by the line feeds, wraps and SU that scroll the primary screen. |
| `ScreenLaws.HistoryIsPrefix` | term/screen.go:350-372 | As long as there is room for the lines that output scrolls off, the history only grows, by just those lines, even where that fills it up. |
| `ScreenLaws.ResizeKeepsLines` | term/screen.go:726-812 | Resizing loses no line at or above the cursor of the primary screen, shown or saved: history and screen down to the cursor are the same queue of lines, each in the new width. |
| `ScreenLaws.ResizeCells` | term/screen.go:726-812 | Cell by cell: rows come off the top of the primary screen, shown or saved, only as far as its cursor needs it; each row that stays, or goes to the history, keeps its cells from the left, with blank ones behind them; the history is the newest lines that there is room for. |
| `ScreenLaws.ResizeElse` | term/screen.go:726-758 | The alternate screen while it is shown is treated alike, its rows that come off lost; the region is the whole height again, no wrap is to come, columns are brought inside, and nothing else changes. |
| `ScreenLaws.AltScreenIsolated` | term/screen.go:262-294 | ESC[?1049h, any output with no way out in it, and ESC[?1049l give back every cell, the cursor and the history, unless one of them panics, if and only if the output does not end right behind an ESC or in a charset designation; an unfinished character, sequence or string is no hindrance. Leaving panics from no screen that shows its cursor. |
| `ScreenLaws.LoneEscape` | term/screen.go:513-530 | The shortest output that keeps the primary screen from coming back, one ESC: the leave sequence is printed instead. |
| `ScreenLaws.RunSequence` | term/screen.go:173-213 | A whole control sequence does what its final byte says, whatever sequence or string it cuts short. |
| `ScreenLaws.CursorDownWraps` | term/screen.go:419 | The concrete sequence, CUD by 9223372036854775807, that puts the cursor above row 0, without a panic. |
| `ScreenLaws.FromAbove` | term/screen.go:296-324 | From there a printed rune panics, a cursor position comes back to the screen, and entering the alternate screen saves the cursor where it is. |
| `ScreenLaws.LostCursor` | term/screen.go:145-171 | Behind that sequence ESC[H brings the cursor back to the top left, and a letter panics. |
| `ScreenLaws.FollowedExactly` | term/screen.go:400-432 | The motions of a write stay within 64 bits exactly when the cursor is on the screen after each beginning of it that does not panic; no write panics before its cursor has left the screen. |
| `ScreenLaws.PanicTraced` | term/screen.go:400-432 | A write that begins with the cursor on the screen and panics has come to a motion whose sum left 64 bits, and then, with the cursor off the screen, to what indexes by it. |
| `ScreenLaws.LastResetExactly` | term/screen.go:643-660 | The place found is that of the last parameter that is empty, 0 or 00, and there is none exactly when no parameter is; those of a colour are parameters too. |
| `ScreenLaws.CutsColourExactly` | term/screen.go:643-660 | A colour is cut in front of one of its numbers exactly where that number is empty, 0 or 00 and no parameter behind it is. |
| `ScreenLaws.ColourIsReset` | term/screen.go:643-660 | In 38;5;0 the number of the colour is taken for a reset, where the comment in the source says that it must not be. |
| `ScreenLaws.Driven` | term/screen.go:145-171 | Any interleaving of writes and size changes, wherever the cursor goes, panics or keeps the invariant, the cap, and every history line that fits; if no motion in any of the writes wraps, it does not panic, and the cursor is on the screen at the end. |
| `ScreenLaws.Happen` | term/screen.go:726-758 | One write or size change does; without a motion that wraps, it does not panic and keeps the cursor on the screen. |
| `ScreenSequences.NumbersRead` | term/screen.go:941-961 | Any parameters, written out, are read back one by one: a number up to 64 bits as itself, and none, or a greater one, as 0; what stands behind a colon counts for nothing. |
| `ScreenSequences.Heard` | term/screen.go:385-484 | From any screen that hears an ESC, ESC [, the parameters written out, and the final byte do what the final byte says with those parameters, or panic where it indexes what is not there. |
| `ScreenSequences.PositionMoves` | term/screen.go:439-442 | CUP and HVP, from anywhere: the row is the first number and the column the second, both from 1 and no further than the last; no wrap is to come, and nothing else changes. |
| `ScreenSequences.ColumnMoves` | term/screen.go:433-435 | CHA and HPA are that in the column alone. |
| `ScreenSequences.RowMoves` | term/screen.go:436-438 | VPA is that in the row alone. |
| `ScreenSequences.UpMoves` | term/screen.go:415-417 | CUU goes up by its count, no further than to the top of the region from in or below it, and else to the top of the screen. |
| `ScreenSequences.DownMoves` | term/screen.go:418-420 | CUD goes down by its count likewise, as long as the sum is one of 64 bits. |
| `ScreenSequences.RightMoves` | term/screen.go:421-423 | CUF goes right by its count, no further than to the last column, likewise. |
| `ScreenSequences.LeftMoves` | term/screen.go:424-426 | CUB goes left by its count, no further than to the first. |
| `ScreenSequences.NextLineMoves` | term/screen.go:427-429 | CNL goes to the first column of the row so many below, past the end of the region too, and leaves a wrap to come. |
| `ScreenSequences.PreviousLineMoves` | term/screen.go:430-432 | CPL goes to the first column of the row so many above, and leaves a wrap to come. |
| `ScreenSequences.DownUndoesUp` | term/screen.go:415-420 | CUD of the same count comes back from a CUU that the top did not stop, unless the region was entered from below: then its bottom stops the way back. |
| `ScreenSequences.LeftUndoesRight` | term/screen.go:421-426 | CUB comes back from a CUF that the last column did not stop. |
| `ScreenSequences.InsertLinesMove` | term/screen.go:576-589 | IL, as bytes: the rows from the cursor to the end of the region go down by the count, blank ones come in, and nothing else changes. |
| `ScreenSequences.DeleteLinesMove` | term/screen.go:591-604 | DL, as bytes: they go up. |
| `ScreenSequences.ScrollUpMoves` | term/screen.go:350-372 | SU, as bytes: the rows of the region go up by the count; the history grows by as many lines, up to its cap, where the region is the whole primary screen, and else not. |
| `ScreenSequences.ScrollDownMoves` | term/screen.go:374-383 | SD, as bytes: they go down, and nothing else changes. |
| `ScreenSequences.CellsEdited` | term/screen.go:443-461 | ED, EL, ECH, ICH and DCH, as bytes, cell by cell: which cells are erased, in the current background, which move by the count, and that nothing else changes. |
| `ScreenCommands.ReturnGoesBack` | term/screen.go:239-241 | CR goes to the first column, and no wrap is to come; in the middle of a control sequence too, as all controls. |
| `ScreenCommands.BackspaceGoesLeft` | term/screen.go:242-247 | BS takes back a wrap that is to come, or else goes one column left. |
| `ScreenCommands.TabGoesRight` | term/screen.go:248-254 | HT goes to the next column that is a multiple of 8, or to the last. |
| `ScreenCommands.OtherControlsSilent` | term/screen.go:255-260 | The other controls do nothing. |
| `ScreenCommands.FeedFeeds` | term/screen.go:237-238 | LF, VT and FF go down one row; at the bottom of the region its rows go up instead, the top one into the history where the region is the whole primary screen; below it, the last row stops them. |
| `ScreenCommands.FeedsSaid` | term/screen.go:281-287 | ESC D does that, ESC E from the first column, and ESC M the reverse: one row up, or at the top of the region its rows down. |
| `ScreenCommands.CursorNoted` | term/screen.go:276-277 | ESC 7 and CSI s note cursor and style, and change nothing else. |
| `ScreenCommands.CursorTakenUp` | term/screen.go:278-280 | ESC 8 and CSI u take them up again, brought inside the screen, and change nothing else. |
| `ScreenCommands.CursorGivenBack` | term/screen.go:276-280 | ESC 8 gives back cursor and style of the ESC 7, whatever was written in between, as long as that noted no other and did not panic or stop right behind an ESC. |
| `ScreenCommands.ResetSaid` | term/screen.go:709-718 | ESC c leaves a blank primary screen with the cursor at its first cell, the default style, the whole height as the region and the modes as at the start; the history, the styles and the noted cursor stay. |
| `ScreenCommands.NewIsReset` | term/screen.go:88-112 | A new screen is one that a reset leaves as it is, with room for 2000 lines of history where 0 is asked for, and none for less. |
| `ScreenCommands.OtherEscapesSilent` | term/screen.go:262-294 | ESC and any other byte that opens nothing do nothing. |
| `ScreenCommands.CharsetSilent` | term/screen.go:210-211 | A charset designation takes one byte more, whatever that is, and changes nothing. |
| `ScreenCommands.RegionSet` | term/screen.go:466-472 | DECSTBM sets a region of at least two rows and puts the cursor at its first cell, the bottom being the last row where none is given; anything less changes nothing. |
| `ScreenCommands.ModesSaid` | term/screen.go:500-530 | Private modes, as many as are given, one after another: 7 and 25, and the alternate screen, which is entered blank with the cursor at its first cell, the primary one and its cursor put aside, and left for what was put aside; any other final byte does nothing. |
| `ScreenCommands.StyleSet` | term/screen.go:628-677 | SGR: a lone reset is the default style; else the style is spelled as the current one with these parameters, or with those from the last reset on alone, found in the table or entered behind it, and the default one where the table is full. |
| `ScreenCommands.OtherFinalsSilent` | term/screen.go:385-484 | Any other final byte does nothing, whatever parameters and intermediate bytes stand in front of it. |
| `ScreenCommands.TitleSaid` | term/screen.go:679-707 | OSC 0 and OSC 2, ended by BEL or by ESC and a backslash, set the title to the visible text within the limit, of at most the first 1024 bytes, and change nothing else; any other OSC changes nothing. |
| `ScreenCommands.StringSilent` | term/screen.go:197-209 | DCS, SOS, PM and APC strings are passed over to their end. |
| `ScreenCommands.RuneShown` | term/screen.go:296-323 | One character, as its bytes: its cell in the current style, the next one too where it is wide, the cursor behind it, or on the last column with a wrap to come; and nothing at all where it has no width. |
| `ScreenCommands.WrapIsNewLine` | term/screen.go:303-307 | Where a wrap is due, a character comes to the same as a carriage return, a line feed and the character. |
| `ScreenCommands.TextHeard` | term/screen.go:145-169 | Text of any length, as its bytes in UTF-8, is shown character by character. |
| `ScreenCommands.StrayShown` | term/screen.go:155-163 | A byte that begins no character is shown as the replacement character. |
| `ScreenHeap.LiveScreen.constructor` | term/screen.go:88-129 | The object starts as the fresh screen, with rows that nothing else holds. |
| `ScreenHeap.LiveScreen.ScrollUp` | term/screen.go:350-372 | Rotating row references in place is the scrolling of the values, and no two places ever hold one row; a row that leaves the grid for the history goes there by reference, and a new one takes its place. |
| `ScreenHeap.LiveScreen.ScrollDown` | term/screen.go:374-383 | Rotating down is. |
| `ScreenHeap.LiveScreen.Index` | term/screen.go:326-335 | Line feed in place is line feed on values. |
| `ScreenHeap.LiveScreen.Print` | term/screen.go:296-324 | Writing cells of a row in place is printing on values; every cell it writes to is there. |
| `ScreenHeap.LiveScreen.Control` | term/screen.go:235-259 | Every control in place is that of the values. |
| `ScreenHeap.LiveScreen.EraseLine` | term/screen.go:558-574 | EL in place is. |
| `ScreenHeap.LiveScreen.EraseDisplay` | term/screen.go:532-549 | ED in place is. |
| `ScreenHeap.LiveScreen.InsertLines` | term/screen.go:576-589 | IL by row rotation is. |
| `ScreenHeap.LiveScreen.DeleteLines` | term/screen.go:591-604 | DL by row rotation is. |
| `ScreenHeap.LiveScreen.DeleteChars` | term/screen.go:606-613 | DCH by shifting cells within the row array is. |
| `ScreenHeap.LiveScreen.InsertChars` | term/screen.go:615-626 | ICH is. |
| `ScreenHeap.LiveScreen.SetAlt` | term/screen.go:513-530 | Entering saves the grid by reference, leaving drops the alternate one: the values are exchanged and nothing is shared. |
| `ScreenHeap.LiveScreen.SetModes` | term/screen.go:500-512 | The loop over private modes is the fold of the values. |
| `ScreenHeap.LiveScreen.Reset` | term/screen.go:709-718 | RIS in place is. |
| `ScreenHeap.LiveScreen.InternStyle` | term/screen.go:662-677 | The table grown in place stays inverse to its index. |
| `ScreenHeap.LiveScreen.Sgr` | term/screen.go:628-660 | SGR in place, with the search for the last reset, is. |
| `ScreenHeap.LiveScreen.CsiFinal` | term/screen.go:385-484 | Every CSI final in place is. |
| `ScreenHeap.LiveScreen.EscapeByte` | term/screen.go:262-294 | Every escape in place is. |
| `ScreenHeap.LiveScreen.FeedByte` | term/screen.go:173-233 | One byte in place is one byte on values. |
| `ScreenHeap.LiveScreen.WriteBytes` | term/screen.go:145-171 | The loop over a write, with the incomplete character held back, is Write on values, wherever the cursor goes; its result says whether that went without a panic. |
| `ScreenHeap.LiveScreen.Resize` | term/screen.go:726-812 | Rebuilding both grids row by row, with the spill into the history, is Resize on values, and leaves no row in two places. |
| `MuxModel.PaneOutput` | term/mux_model.go:77-94 | Output that does not panic keeps the view inside the history and the attach as it is. |
| `MuxModel.OutputKeepsView` | term/mux_model.go:77-94 | As long as the history has room for the lines that output scrolls off, output to a scrolled-up pane neither moves its view nor changes a history line in it. |
| `MuxModel.Activate` | term/mux_model.go:53-67 | Switching to a tab starts an attach exactly when it is idle, with a new generation; a tab that is not there is not switched to. |
| `MuxModel.Reattach` | term/mux_model.go:297-307 | Re-attaching starts an attach exactly for a tab whose session ended, with the next generation, unless its notice panics; of any other tab it changes nothing. |
| `MuxModel.ResizeAll` | term/mux_model.go:163-176 | A new window size resizes every pane to it, changes no attach, and keeps every view inside its history; one that is none changes nothing. |
| `MuxModel.SendKey` | term/mux_model.go:219-240 | A key returns the pane to the tail of its history and changes no attach; a failed write to a live session is reported as the end of the current generation, and nothing else has an effect. |
| `MuxModel.MoveSelection` | term/mux_model.go:318-337 | Every scroll motion leaves the selection cursor in the view and the view inside the history. |
| `MuxModel.ScrollKey` | term/mux_model.go:318-371 | No scroll key changes an attach. |
| `MuxModel.PrefixCommand` | term/mux_model.go:243-290 | A prefix command asks to detach, starts one attach, reports one failed write, panics in a notice, or does none of these. |
| `MuxModel.KeyStep` | term/mux_model.go:195-216 | So does every key in every mode. |
| `MuxModel.ClosedPane` | term/mux_model.go:120-141 | A pane whose session has ended holds none and keeps its generation, whether or not its notice panics. |
| `MuxModel.Update` | term/mux_model.go:69-147 | Every message that the protocol can deliver keeps the invariant: live exactly with a session, offset within the history. What each leaves, and when the loop ends, is in MuxLaws. |
| `MuxLaws.OutputShown` | term/mux_model.go:77-94 | Output of the newest attach leaves the screen of its tab as a write of just those bytes does, and changes nothing else but that a scrolled-up view goes up by the lines that the history gained; output of an earlier one changes nothing; a write that panics ends the loop. |
| `MuxLaws.OpenedShown` | term/mux_model.go:96-118 | A session that was opened is that of its tab, which is live, and its output is read; one for a tab that has moved on is closed. |
| `MuxLaws.ClosedShown` | term/mux_model.go:106-141 | The end of a session, or that none could be had, closes its tab, with the error that came, the line saying so written, and the session closed if there was one; no other tab changes. |
| `MuxLaws.WindowShown` | term/mux_model.go:163-176 | A window size resizes the screen of every tab to it, the two lines of the multiplexer off, and one that is none changes nothing. |
| `MuxLaws.QuitExactly` | term/mux_model.go:137-160 | For every message: the loop quits exactly when it is asked to detach, or when the end of a session has closed its tab, with its line written, and then every tab is closed and none has failed. |
| `MuxLaws.CrashExactly` | term/mux_model.go:69-147 | For every message: it panics exactly where output, or a line of its own, cannot be written to the screen that it is for. |
| `MuxLaws.PrefixTaken` | term/mux_model.go:195-202 | The prefix waits for one key, and no other key waits for another. |
| `MuxLaws.NextShows` | term/mux_model.go:262-264 | n, right and tab show the tab to the right, from the last the first, and attach it if it is idle. |
| `MuxLaws.PreviousShows` | term/mux_model.go:265-267 | p, left and shift+tab show the one to the left, from the first the last. |
| `MuxLaws.DigitShows` | term/mux_model.go:278-288 | A digit shows that tab, counted from 1, and 0 the tenth; one that is not there changes nothing. |
| `MuxLaws.OtherCommands` | term/mux_model.go:259-274 | d and q ask to detach, [ begins to look back from the last line in view, ? shows the help, and none of them changes a tab. |
| `MuxLaws.ReattachShows` | term/mux_model.go:297-307 | r opens a closed tab again as its next attach, with a line saying so written and the error forgotten, and changes nothing for any other. |
| `MuxLaws.TypingShows` | term/mux_model.go:219-235 | Any other key, and the prefix behind the prefix, brings the view of its tab back to the tail and changes nothing else. |
| `MuxLaws.CursorSteps` | term/mux_model.go:318-357 | Looking back: up and k move the selection cursor by -1, down and j by 1, pages by the height of the view, the ends by all lines; by just that much as far as there are lines; the view moves only until the cursor is on its first or last line, and the other end of a selection stays. |
| `MuxLaws.DownUndoesUp` | term/mux_model.go:345-348 | Down brings the selection cursor back from up. |
| `MuxLaws.ScrollEnds` | term/mux_model.go:341-370 | esc, q and y go back to the tail and forget the selection, v begins one at the cursor or drops it. |
| `MuxHeap.LiveMux.Activate` | term/mux_model.go:53-67 | In place, with one pane object for each tab, the step is that of the values. |
| `MuxHeap.LiveMux.Reattach` | term/mux_model.go:297-307 | Idle, notice, activate, in place; a notice that panics leaves the tab idle. |
| `MuxHeap.LiveMux.ResizeAll` | term/mux_model.go:163-176 | The loop over the panes resizes each once. |
| `MuxHeap.LiveMux.SendKey` | term/mux_model.go:219-240 | In place, on the pane objects, the step is that of the values. |
| `MuxHeap.LiveMux.MoveSelection` | term/mux_model.go:325-337 | The closure that moves selection and view, in place. |
| `MuxHeap.LiveMux.ScrollKey` | term/mux_model.go:318-371 | In place, on the pane objects, the step is that of the values. |
| `MuxHeap.LiveMux.PrefixCommand` | term/mux_model.go:243-290 | In place, on the pane objects, the step is that of the values. |
| `MuxHeap.LiveMux.HandleKey` | term/mux_model.go:195-216 | In place, on the pane objects, the step is that of the values. |
| `MuxHeap.LiveMux.HandleOutput` | term/mux_model.go:77-94 | In place: the offset grows by what the write added. |
| `MuxHeap.LiveMux.HandleOpened` | term/mux_model.go:96-118 | In place: a late session is closed, a current one goes live with one pump. |
| `MuxHeap.LiveMux.HandleOpenFailed` | term/mux_model.go:106-112 | In place, on the pane objects, the step is that of the values. |
| `MuxHeap.LiveMux.HandleEnded` | term/mux_model.go:120-141 | In place: the session is let go of and closed once. |
| `MuxHeap.LiveMux.HandleMessage` | term/mux_model.go:69-147 | The whole update is that of the values, for every message, and no two tabs come to share a pane. |
| `MuxHeap.Build` | term/mux.go:132-138 | One pane object for each device, none of them shared, in the state that the multiplexer starts in. |
| `MuxProtocol.StepKeeps` | term/mux.go:144-258 | Every step of the loop, an opener, a pump, a reader of the channel or shutdown keeps the invariant: announcements are unique and come first, pumps serve the session of their tab or a closed one, no returned session is forgotten, the wait group counts the goroutines at work. |
| `MuxProtocol.InitialWorld` | term/mux.go:91-137 | The multiplexer starts in it. |
| `MuxProtocol.TakenDeliverable` | term/mux_model.go:96-141 | Whatever order messages arrive in, none reaches a tab that is not ready for it. |
| `MuxProtocol.AnnounceKeeps` | term/mux.go:247-257 | An opener announces its session once and keeps the invariant. |
| `MuxRuns.RegisteredBeforeAnnounced` | term/mux.go:247-257 | On every run, a session is on the register before it is announced, and is on it as long as its announcement is on its way and shutdown has not taken the register over. |
| `MuxProtocol.GiveUpOpeningKeeps` | term/mux.go:253-257 | An opener that gives up keeps the invariant: its session is not forgotten. |
| `MuxProtocol.EmitKeeps` | term/mux.go:215-235 | Output and end of a session are sent only for an attach that the loop has seen succeed, and keep the invariant. What is sent is MuxTraffic.OutputConserved and MuxTraffic.EndReported. |
| `MuxProtocol.SessionsUnderShutdown` | term/mux.go:153-177 | What shutdown moves from the register to the list it closes stays accounted for. |
| `MuxRuns.NoSessionLeaks` | term/mux.go:144-178 | On every run, once shutdown has returned, every session that any Open returned has been closed and no goroutine is at work. |
| `MuxRuns.NobodyIsStuck` | term/mux.go:190-258 | From the moment shutdown waits, every unfinished opener and pump can step and waits for nobody, given that Open returns once cancelled and Read once closed. |
| `MuxRuns.WorkGetsDone` | term/mux.go:190-258 | Each such step brings its goroutine closer to its end, and no other step sets one back. |
| `MuxRuns.WaitIsBounded` | term/mux.go:144-178 | So the wait ends after a number of their steps that is known when it starts, however the steps interleave. |
| `MuxRuns.ShutdownProgresses` | term/mux.go:144-178 | From the moment done is closed, no step of anyone puts the end of shutdown off; its own steps bring it closer, and while it waits, so do those of the goroutines. |
| `MuxRuns.ShutdownNeverStuck` | term/mux.go:144-178 | Until shutdown has returned, a step that brings it closer to its end can be taken. |
| `MuxRuns.ShutdownEnds` | term/mux.go:144-178 | However the steps interleave, at most as many of them bring shutdown closer to its end as remained when done was closed, and it has returned exactly when none remains. |
| `MuxRuns.ReaderNeverLost` | term/mux.go:200-212 | While the loop has neither quit nor panicked and shutdown has not begun, a command waits on the channel and can take the next message, or the loop has one at hand, and handling it leaves a command waiting or ends the loop: no opener and no pump is kept waiting for good. |
| `MuxRuns.RunGrows` | term/mux_model.go:53-67 | Generations only grow. |
| `MuxRuns.StaleMessagesIgnored` | term/mux_model.go:69-141 | Once a tab has moved on, no output and no end of an earlier attach changes anything, however late. |
| `MuxRuns.AnswersAreCurrent` | term/mux_model.go:96-119 | An answer of an Open is always that of the newest attach of its tab, which waits for it: a session that is handled goes live, and the branch that would close one that came too late is never taken. |
| `MuxRuns.GenerationSafety` | term/mux_model.go:53-141 | In every reachable world: live exactly with a session, at most one outstanding attach a tab, no output or end before the announcement was handled, each announcement in flight once and expected, every offset within its history. |
| `MuxTraffic.OutputConserved` | term/mux.go:215-235 | Over every run, whatever happens in between: all that the reads of an attach have returned, joined, is all the output sent for it, joined in the order of sending, and then what its pump holds; as long as the pump does not give up. |
| `MuxTraffic.OutputInOrder` | term/mux.go:192-235 | Where it gives up, which it can only under shutdown, what was sent is a beginning of what was read. |
| `MuxTraffic.EndReported` | term/mux.go:228-234 | A pump that does not give up tells the end of its session exactly once, behind all of its output, with the error, or none, that the last read ended with; and not before. |
| `MuxTraffic.AnswersTold` | term/mux.go:240-258 | Over every run, the loop is told that an attach succeeded only with the session that its Open returned, and that it failed only where Open did. |
| `MuxOrder.HandledInOrder` | term/mux.go:200-212 | Over every run in which no write to a session fails, there is one reader of the channel, and what the loop has handled of an attach, what it has at hand and what is in the channel are, in this order, what was sent. |
| `MuxOrder.EveryByteInOrder` | term/mux.go:200-235 | From the start, over such runs: every byte that a read returned has been handled, is at hand, in the channel or with its pump, in the order in which it was read. |
| `MuxOrder.TwoReadersReorder` | term/mux.go:200-212 | Two readers can hand the loop two messages in the wrong order. |
| `MuxOrder.RefusedKeyAddsReader` | term/mux_model.go:229-239 | A key that a session refuses leaves the channel with one reader more, once the end of the session is handled: the condition of the order is that no write fails. |
| `MuxOrder.TabShows` | term/mux_model.go:77-94 | Over every run in which a tab stays attached and no new size comes, its screen is what all the output that the loop has handled of that attach makes of it, written as one, whatever else happens in it and elsewhere. |
| `MuxOrder.SessionShown` | term/mux.go:215-235 | What a session sends is what its tab shows: all that reads have returned since the attach began is written to the screen of its tab, in order, but for what is still on its way. |
| `MuxOrder.LoopQuits` | term/mux_model.go:137-160 | Of every step of the protocol: it quits exactly where it handles a request to detach, or the end of a session behind which nothing is left. |
| `MuxOrder.QuitsOnlyAtTheEnd` | term/mux_model.go:137-160 | Over every run, the loop quits only if the user has asked to leave, or with no tab idle, opening or live, and none failed. |
| `Ordered.SortStable` | model/ordered.go:108-117 | The result has ascending ranks and keeps elements of one rank in their order. |
| `Ordered.StableUnique` | model/ordered.go:108-117 | There is only one such result. |
| `Ordered.SortIsPermutation` | model/ordered.go:108-117 | It loses and repeats nothing. |
| `Ordered.OrderedMap.Get` | model/ordered.go:32-39 | The value of a key, or zero, and whether it is there. |
| `Ordered.OrderedMap.Set` | model/ordered.go:49-56 | A new key goes to the end, an old one keeps its place; the previous value is returned. |
| `Ordered.OrderedMap.Delete` | model/ordered.go:59-69 | The key goes, the others keep their order. |
| `Ordered.OrderedMap.SortStableFunc` | model/ordered.go:108-117 | The keys are stably sorted in place and the values untouched. |
| `Depgen.LoopsOn` | labfile/depgen.go:31-44 | A chain from a new device meets something again exactly when one from a dependency does. |
| `Depgen.HasLoopFrom` | labfile/depgen.go:31-44 | Ends on every graph, with true exactly when some walk meets itself or what was seen. |
| `Depgen.HasLoop` | labfile/depgen.go:18-27 | True exactly when the graph has a directed cycle. |
| `Depgen.InvertedEdges` | labfile/depgen.go:64-73 | Inverting turns every edge round and adds or loses none. |
| `Depgen.OrderSound` | labfile/depgen.go:104-122 | Every depth found is the length of a walk that meets nothing twice and nothing of the path. |
| `Depgen.OrderComplete` | labfile/depgen.go:104-122 | No such walk is longer than the depth found. |
| `Depgen.OrderKeysExplained` | labfile/depgen.go:89-100 | Every depth entered is that of a walk that ends at its device. |
| `Depgen.OrderKeysComplete` | labfile/depgen.go:89-100 | Every walk from a dependent bounds the depth of its end from below. |
| `Depgen.FlattenIsStableSort` | labfile/depgen.go:48-60 | Laying out the layers is the stable sort of the devices by depth. |
| `Depgen.FlattenListsOnce` | labfile/depgen.go:48-60 | Of any graph, cyclic or not, every device on an edge is listed once and no other. |
| `Depgen.DepthGrows` | labfile/depgen.go:89-122 | Along an edge of an acyclic graph the depth grows strictly. |
| `Depgen.FlattenOrders` | labfile/depgen.go:48-60 | Of an acyclic graph, every dependency is listed strictly before what depends on it. |
| `Depgen.InvertDeps` | labfile/depgen.go:64-73 | The loop that inverts is the inversion. |
| `Depgen.MergeMaxInto` | labfile/depgen.go:127-133 | The merge in place keeps the greater depth of each name. |
| `Depgen.OrderFromMap` | labfile/depgen.go:104-122 | The recursion over cloned paths ends on every graph and finds those depths. |
| `Depgen.OrderAllMap` | labfile/depgen.go:89-100 | The loop over all entries does. |
| `Depgen.InvertOrderMap` | labfile/depgen.go:77-84 | The loop that groups by depth keeps the order within each depth. |
| `Depgen.FlattenGraph` | labfile/depgen.go:48-60 | The whole computation is Flatten. |
| `BootOrder.Positions` | model/lab.go:436-441 | The loop finds, for every name, one more than the place it first takes, and 0 for a name not listed. |
| `BootOrder.ApplyDependencies` | model/lab.go:435-447 | The devices are stably sorted by that position, in place. |
| `BootOrder.AbsentFirst` | model/lab.go:435-447 | Devices that lab.dep does not name come first in their old order. |
| `BootOrder.ListedOrder` | model/lab.go:435-447 | Where lab.dep orders two devices of the lab, the lab then holds them in that order. |
| `BootOrder.BootOrderKept` | model/lab.go:435-447 | Parse to boot: no device is lost or repeated, unnamed ones come first, and every device comes after those of the lab it depends on. |
| `Matching.CollapseLosesNothing` | labfile/folder.go:192-196 | Collapsing consecutive stars changes no match. |
| `Matching.ShortestAreProduct` | labfile/folder.go:158-169 | Among its shortest strings a list of steps accepts just the product of its sets. |
| `GlobLaws.EmptyDenotes` | labfile/folder.go:173-302 | The empty pattern denotes the empty name alone. |
| `GlobLaws.StarDenotes` | labfile/folder.go:191-195 | A star takes any beginning of a name, and the pattern behind it the rest. |
| `GlobLaws.AnyDenotes` | labfile/folder.go:197-198 | A question mark takes any one character. |
| `GlobLaws.LiteralDenotes` | labfile/folder.go:286-288 | A character that is none of *?[ takes itself. |
| `GlobLaws.ClassDenotes` | labfile/folder.go:201-214 | A class takes one character that its list holds, or with a ! in front one that it does not; a ] closes it unless it comes first, behind the ! if there is one. |
| `GlobLaws.UnclosedDenotes` | labfile/folder.go:213-217 | A bracket that nothing closes takes itself. |
| `GlobLaws.RangeLists` | labfile/folder.go:225-250 | A character, a dash and a character hold what lies between them, and the list goes on behind. |
| `GlobLaws.CharLists` | labfile/folder.go:225-250 | Any other character holds itself. |
| `GlobLaws.BracketExample` | labfile/folder.go:204-212 | [!]x] denotes every single character but those two. |
| `FnTranslate.OneChunk` | labfile/folder.go:219-250 | A class without an inner `-` is one chunk. |
| `FnTranslate.FirstChunk` | labfile/folder.go:225-240 | The first `-` with something on both sides ends the first chunk, as reading the class from left to right says. |
| `FnTranslate.FoldChunks` | labfile/folder.go:251-264 | Folding from the right removes just the ranges that run backwards. |
| `FnTranslate.FoldingKeepsChars` | labfile/folder.go:251-264 | And leaves the characters of the class as they were. |
| `FnTranslate.JoinedChunks` | labfile/folder.go:265-270 | Escaped and joined, the chunks are the members written out. |
| `FnTranslate.ClassBodyRender` | labfile/folder.go:308-324 | Escaping for RE2 escapes every member and copies what is escaped already. |
| `FnTranslate.ReadClass` | labfile/folder.go:265-288 | RE2 reads the text of a class back as its members, and no range in it runs backwards. |
| `FnTranslate.ClassMeaning` | labfile/folder.go:207-288 | Every class compiles to a set, which is that of the class, unless folding exposed a `!`; or to nothing, exactly where it is not negated and lists no character. |
| `FnTranslate.TextsMeaning` | labfile/folder.go:173-302 | The expression is always well formed, with the steps of the items. |
| `FnTranslate.TranslateMeaning` | labfile/folder.go:173-302 | So is the anchored whole, and no expression is given only where a class is empty. |
| `FnTranslate.MisreadDiffers` | labfile/folder.go:273-288 | A class in which folding exposes a `!` always gains or loses a character. |
| `FnTranslate.TranslatePreserves` | labfile/folder.go:158-302 | The matcher accepts exactly the names that the pattern denotes, if and only if folding exposes no `!`, or some class is empty so that nothing matches either way. |
| `FnTranslate.BangExample` | labfile/folder.go:273-288 | The pattern [b-a!] denotes the one name "!" and accepts every single character. |
| `FnTranslate.FindRune` | labfile/folder.go:328-341 | The first index of a rune between two bounds, or -1. |
| `FnTranslate.CutClass` | labfile/folder.go:219-250 | The loop over `-` cuts a class into those chunks, the `!` in the first. |
| `FnTranslate.FoldClass` | labfile/folder.go:251-264 | The loop from the right folds them. |
| `FnTranslate.ClassStuff` | labfile/folder.go:214-270 | The text of a class is its forward members, written out. |
| `FnTranslate.EscapeBrackets` | labfile/folder.go:308-324 | The loop of re2ClassBody is that escaping. |
| `FnTranslate.FindClose` | labfile/folder.go:204-214 | The closing bracket, a `]` right after `[` or `!` being a member. |
| `FnTranslate.TranslatePattern` | labfile/folder.go:173-302 | The loop over the pattern gives that expression, or none. |
| `Vni.FreeExists` | backend/kubernetes/link.go:294-308 | Some id is free exactly when fewer than all are reserved. |
| `Vni.SearchEnds` | backend/kubernetes/link.go:294-308 | Probing finds a free id exactly then; else it has no end. |
| `Vni.FirstFreeUnique` | backend/kubernetes/link.go:294-308 | The first free probe is one. |
| `Vni.Allocator.constructor` | backend/kubernetes/link.go:283-289 | Exactly the ids in use are reserved, repeated or not. |
| `Vni.Allocator.Allocate` | backend/kubernetes/link.go:294-308 | Ends, with (h + k) mod M for the least free k, and reserves just that. |
| `Vni.AllocateAll` | backend/kubernetes/link.go:59-68 | One pass gives ids that are in range, pairwise different and in use nowhere, each the first free one for its link. |
| `Vni.NoRoom` | backend/kubernetes/link.go:59-68 | More links than free ids cannot be served at all. |
| `Shlex.ShlexSplit` | backend/kubernetes/shlex.go:37-109 | The nested loops follow the word machine, errors included. |
| `Shlex.ReadQuoted` | backend/kubernetes/shlex.go:66-98 | The inner loop takes a quoted part up to its closing quote. |
| `Shlex.FlatSplit` | term/external.go:137-194 | The flat loop over bytes follows it too, with its own look ahead. |
| `Shlex.StepEncoded` | term/external.go:137-194 | A code point moves the machine as its bytes do. |
| `Shlex.EncodeTextInjective` | term/external.go:137-194 | Different texts have different bytes. |
| `Shlex.SplittersAgree` | term/external.go:137-194 | Both splitters take the same lines and find the same words: the bytes found are those of the words, and of no others; they name the error differently exactly on lines that end in a backslash inside double quotes. |
| `Shlex.RunQuoted` | backend/kubernetes/shlex.go:121-142 | A quoted word is read back as itself, an empty one too. |
| `Shlex.SplitJoin` | backend/kubernetes/shlex.go:37-142 | Splitting undoes joining, for every list of words. |
| `ShlexGrammar.SplitMeans` | backend/kubernetes/shlex.go:37-109 | Splitting a line that is written by the grammar gives what the grammar says: words between white space, each of plain characters, characters behind a backslash, quoted text, and double-quoted text in which a backslash counts only before a quote or a backslash; or the error for what the line stops in the middle of. |
| `ShlexGrammar.SplitExactly` | backend/kubernetes/shlex.go:37-109 | Every line whatever is one of the grammar, so this says what splitting gives for all of them. |
| `ShlexGrammar.QuotedExactly` | backend/kubernetes/shlex.go:121-142 | Quoting leaves a word as it is exactly when it is not empty and holds only letters, digits and the ten marks that need no quotes. |
| `DeviceLine.HeadUnique` | labfile/deviceline.go:21-50 | Name and argument can be read in one way only. |
| `DeviceLine.PreferredUnique` | labfile/deviceline.go:52-92 | A line has at most one preferred match. |
| `DeviceLine.MatchCommentTail` | labfile/deviceline.go:97-120 | True exactly on what an optional comment and the end of the line match, a lone newline excepted. |
| `DeviceLine.FindValue` | labfile/deviceline.go:64-92 | The longest value that a closing quote and the end of the line may follow. |
| `DeviceLine.MatchDeviceLine` | labfile/deviceline.go:15-94 | On every stripped line, a match is found exactly when the pattern has one, and it is the preferred one: quote first, then the longest value. |
| `DeviceLineLaws.QuotedLine` | labfile/deviceline.go:50-92 | Name, argument and a value in quotes are read as just these, whatever comment stands behind them. |
| `DeviceLineLaws.PlainLine` | labfile/deviceline.go:50-92 | Without any quotes, all that follows is the value, what looks like a comment too. |
| `DeviceLineLaws.OpenQuoteFails` | labfile/deviceline.go:64-92 | A quote that is not closed, or is closed by the other one, makes the line none. |
| `DeviceLineLaws.NoValueFails` | labfile/deviceline.go:71-76 | So does a value that is empty, in quotes or not. |
| `DeviceLineLaws.NamesAgree` | labfile/deviceline.go:19-33 | The names that a device line can have are just those that a lab takes. |
| `LabModel.InsertSorted` | model/machine.go:136-139 | Inserting a new number keeps the slots in strict order. |
| `LabModel.ConnectKeeps` | model/lab.go:325-337 | Connecting, with any outcome, keeps the association of devices and links where the name fits. |
| `LabModel.ConnectKeepsExactly` | model/lab.go:194-207 | Connecting keeps the association exactly when the device is there already, its name is a stripped one, or what stripping leaves is refused. |
| `LabModel.RemoveInterfaceKeeps` | model/machine.go:143-156 | Removing an interface keeps it. |
| `LabModel.LeaveLinksLeaves` | model/lab.go:216-227 | Leaving takes the device off the links before its first tombstone and no others, and fails exactly where there is one. |
| `LabModel.RemoveKeepsExactly` | model/lab.go:210-229 | Removing a device keeps the association exactly when it has no tombstone, or its first slot is one. |
| `LabModel.ApplyKeeps` | model/lab.go:210-337 | An operation keeps the association exactly when it makes no device under an unstripped name and removes none that has a tombstone behind a live interface. |
| `LabModel.BuiltLabs` | model/lab.go:210-337 | So does every lab that such operations build up from nothing. |
| `LabModel.NumbersNeverReused` | model/machine.go:92-99 | Over any operations at all, as long as the device is not removed, a number that was taken is held by what held it or by its tombstone. |
| `LabModel.UnstrippedName` | model/lab.go:194-207 | Two names that strip to one break the association: the concrete run. |
| `LabLaws.ConnectAdds` | model/machine.go:110-133 | Connecting fails exactly where something stands in the way, with the error for what is looked at first, and then adds nothing to a device or link; else the device has just one slot more, in order of number, on that link, with that address and the number asked for, or else the number of slots it had, and comes last on the link. |
| `LabLaws.NextNumberGiven` | model/machine.go:110-114 | A device with numbers 0 to n-1 gives an interface without a number the number n, behind the others, and never finds it taken. |
| `LabLaws.NextNumber` | model/machine.go:110-114 | One interface more keeps the numbers without a gap exactly when it has the next. |
| `LabLaws.BuiltNumbered` | model/machine.go:173-222 | Whatever is connected, detached and removed, with any outcomes: as long as no interface is asked for by number, every device has the numbers 0 to n, and the check of the numbering finds nothing wrong. |
| `LabLaws.RemoveInterfaceLeaves` | model/machine.go:143-156 | Taking a device off a link leaves a tombstone with the number of its interface, and the link without it, and changes nothing else; a device that is not on the link is an error that changes nothing. |
| `LabLaws.RemoveMachineLeaves` | model/lab.go:210-229 | Removing a device without tombstones takes it off every link and out of the lab, and changes no other device and no link that it was not on. |
| `LabHeap.Device.InterfaceIndex` | model/machine.go:102-106 | Binary search finds the first slot not below a number, and whether it is there. |
| `LabHeap.Device.InsertInterface` | model/machine.go:136-139 | Insertion in place is that of the values. |
| `LabHeap.Device.AddInterface` | model/machine.go:110-133 | Device and domain change together, or not at all, with the error that comes first: number, connected, address. Which number an interface gets is LabLaws.ConnectAdds. |
| `LabHeap.Device.RemoveInterface` | model/machine.go:143-156 | The interface becomes a tombstone and the domain forgets the device. |
| `LabHeap.Scenario.GetOrNewMachine` | model/lab.go:194-207 | Finds the device or makes one, under its own name or another, refusing a bad name. |
| `LabHeap.Scenario.GetOrNewLink` | model/lab.go:308-317 | Finds the domain or makes one. |
| `LabHeap.Scenario.ConnectMachineToLink` | model/lab.go:325-337 | On the objects, connecting is that of the values for every name, and devices and domains keep pointing at each other exactly when the name fits. |
| `LabHeap.Scenario.RemoveInterface` | model/machine.go:143-156 | So does removing an interface. |
| `LabHeap.Scenario.LeaveDomains` | model/lab.go:216-227 | The loop over the slots leaves just those domains. |
| `LabHeap.Scenario.RemoveMachine` | model/lab.go:210-229 | Removing a device is that of the values, where it fails halfway too. |
| `Numbering.Search` | model/machine.go:193-199 | The binary search for the place of the bridged number. |
| `Numbering.CheckNumbering` | model/machine.go:173-222 | The first index at which the numbers, sorted together with the bridged one, are not 0, 1 and so on; none exactly when there is no such index; always one for a NaN. |
| `Numbering.SucceedsExactly` | model/machine.go:173-222 | No index is reported exactly when the sorted list is 0 to n. |
| `Numbering.SortedUnique` | model/machine.go:173-222 | That list is the only sorted one. |
| `Tree.OpenKeeps` | vfs/memory.go:128-170 | Opening for writing keeps the tree, and on success the entry is there. |
| `Tree.MkdirFromKeeps` | vfs/memory.go:172-197 | Making directories keeps the tree and every node in it, and on success the directory is there. |
| `Tree.MkdirAllOrNothing` | vfs/memory.go:172-197 | It fails exactly where a component is a file, and then has changed nothing. |
| `Tree.RemoveKeeps` | vfs/memory.go:199-223 | Removing keeps the tree. |
| `Tree.StoreKeepsExactly` | vfs/memory.go:225-229 | The store of a closing writer keeps the tree exactly when the parent is still a directory and nothing lies below the path. |
| `Tree.ApplyKeeps` | vfs/memory.go:128-319 | While no path with an open writer is removed, every operation keeps the tree and the files of all open writers. |
| `Tree.ApplyKeepsExactly` | vfs/memory.go:128-319 | An operation keeps the tree and the files of all open writers exactly when it does not remove one of them. |
| `Tree.TreeKeptExactly` | vfs/memory.go:128-319 | Whatever has been removed before, an operation keeps the tree exactly when it is no close of a writer whose parent is gone or no directory, or below whose path something lies. |
| `Tree.BuiltTrees` | vfs/memory.go:128-319 | From an empty file system on, every such run gives a tree. |
| `Tree.OrphanExample` | vfs/memory.go:312-319 | The run that leaves a file without a parent. |
| `TreeLaws.FileWritten` | vfs/memory.go:128-170 | Opening to append keeps the text of a file, opening to create empties it at once; whatever happens in between, closing stores that text and all that was written with that writer behind it, in order, and changes no other path. |
| `TreeLaws.ClosedIsSilent` | vfs/memory.go:300-319 | Writing to a closed writer, or closing it again, changes nothing. |
| `TreeLaws.OpenExactly` | vfs/memory.go:128-152 | Opening succeeds exactly where the path is no directory and its parent is one, and an error changes nothing. |
| `TreeLaws.MkdirExactly` | vfs/memory.go:172-197 | Making directories fails exactly where a file is on the way, and then changes nothing; else it makes just those on the way that are missing. |
| `TreeLaws.RemoveExactly` | vfs/memory.go:199-223 | Removing takes away just a file, or a directory that nothing lies in and that is not the root; else it says which of the three errors it is, and changes nothing. |
| `TreeLaws.RemoveUndoesMkdir` | vfs/memory.go:172-223 | Removing a directory that has just been made leaves everything as it was. |
| `MemFs.MemFS.OpenWrite` | vfs/memory.go:128-170 | The map after it, its error and the writer's starting text. |
| `MemFs.MemFS.MkdirAll` | vfs/memory.go:172-197 | The loop over the components, all or nothing. |
| `MemFs.MemFS.ChildrenLocked` | vfs/memory.go:98-116 | Exactly the names directly in a directory, each once, in order, whatever order the map gives. |
| `MemFs.MemFS.Remove` | vfs/memory.go:199-223 | The map after it and its error. |
| `MemFs.MemFS.WalkFollow` | vfs/walk.go:49-83 | The walk ends and keeps every wanted node below its start exactly once. |
| `MemFs.MemFS.Collect` | vfs/walk.go:102-142 | Files and Dirs list exactly the files, or the directories but the root, each once and sorted. |
| `MemFs.JoinedInjective` | vfs/walk.go:102-142 | Different paths below the root are different texts. |
| `MemFs.MemWriter.Close` | vfs/memory.go:312-319 | The text lands at the first close and never again. |

## Left out

- Rendering, plain text, titles on the tab bar, status line, help text and the text that yank copies: output only.
- Display width beyond ASCII, Unicode letter and space classes, name stripping, the MAC pattern and the sha256 of a name:
  parameters, with the few facts asked of them stated where they are used.
- utf8.FullRune and utf8.DecodeRune: modelled from what Go documents of them.
- The scanner's one long switch is a method of its own, ScanChar, called from the loop.
- A row cut to a smaller width keeps its array in Go; in the object model it is a fresh, shorter row.
- A pane's screen is a value of ScreenModel in the multiplexer, not the screen object: aliasing of a screen from outside a
  pane is not modelled. The selection is a value too.
- Key names arrive as text together with the bytes they encode to and the number they spell: the key table is not modelled.
- Whether a write to a session fails, and the wording of notices, are parameters of a step. What is written to a session, and
  the sizes it is told, are not modelled.
- MuxRuns.ShutdownEnds: counts steps; that a step which can be taken is taken sooner or later is up to the scheduler.
- What bubbletea does with a panic in an update, but that the loop is over and shutdown runs; in the protocol, as after a
  quit, nothing keeps other messages from being handled before that.
- Screens with more rows or columns than Go can make slices of.
- Ordered.OrderedMap.SortStableFunc: takes a rank instead of a comparison, since its one use compares positions.
- lab.dep's line pattern, reading of files, and warnings.
- Locks and the chunked deployment around the allocator; which links are selected.
- Glob directory listing, hidden names and path joining.
- ConnectMachineObjToLink with a device of another lab: the association is stated for the devices of one lab.
- Deleting a device's files, metadata and the other accessors of devices and labs.
- The parsing of the bridged number, and the meta key it comes from.
- CleanPath: paths come as lists of clean components. Modes and times of nodes, and reading through open files.
- SkipDir and SkipAll of walk callbacks, which collect never returns; symbolic links, which memory does not have.
- The Docker copy of the splitter, which is the Kubernetes one again.
- Docker and Kubernetes calls, ptys, signals, external terminals, settings and events.
