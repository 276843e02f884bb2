# TodoCLI in Dafny

TodoCLI is a full-screen terminal to-do manager. Topics hold todos. Each todo
has a name, a priority, a completion flag, a creation date, an optional
deadline and free-text notes. The screen has four panels: Topics, Todos, Info
and Notes. Keys move between the tabs, select rows, run prompts (new topic,
the three-step new-todo prompt, delete confirmations), cycle the todo sort
order and edit the notes of the selected todo in an editor with a caret, a
selection anchor and a clipboard.

This project models the core of `Todo.py` and the three prototype modules
`src/layout.py`, `src/frame.py` and `src/core/vector2d.py`:

- `base.dfy` (`Base`): Python slicing and negative indices, `Option`, `Repeat`.
- `todos.dfy` (`Todos`): the todo record, priorities and `deadline_status`.
- `styled.dfy` (`Styled`): strings with embedded SGR colour escapes (section
  8.3.117 of ECMA-48), as tokens, with the scan the canvas writer performs.
- `boxes.dfy` (`Boxes`): `draw_box`.
- `canvas.dfy` (`Canvas`): the cell grid of `render_frame`, with
  `color_cell_write` and `write_box_to_canvas` as methods on an `array2`.
- `panels.dfy` (`PanelLayout`): the panel split, the scroll window and the
  per-cell caret and selection rule of the notes panel.
- `geometry.dfy` (`TextGeometry`): `build_display_lines`, `offset_to_rowcol`
  and `rowcol_to_offset`. Each is a method with the source's loops, proved
  equal to a recursive specification function.
- `order.dfy` (`SortProjection`): `get_todo_display_order`, a stable sort of
  storage indices.
- `notes.dfy` (`NotesEditor`): the notes editor commands on an editor value.
- `appstate.dfy` (`AppModel`): `app_state` as a record and the topic/todo
  lifecycle functions and prompt steps as functions on it.
- `dispatch.dfy` (`Dispatch`): `handle_input` as a function from the state and
  the key bytes to the new state and what the main loop does next.
- `app.dfy` (`TodoApp`): `app_state` as an object whose methods update it in
  place, each proved to end in the state the matching function computes.
- `proto_vector2d.dfy` (`Vector2D`), `proto_frame.dfy` (`PrototypeFrame`),
  `proto_layout.dfy` (`PrototypeLayout`): the prototype renderer's vectors,
  frame objects and layout.

The clock, the date parser and the terminal width are parameters. `now` is
the creation timestamp text. `isDate` says whether `strptime` accepts a
deadline, and `parse` reads it as a date. `notesWidth` is the notes panel
width.

Where the source's behaviour is surprising, the model keeps it and a lemma
exhibits it:

- Up can move the notes caret to a negative offset (`NotesEditor.UpCanMakeCursorNegative`).
- Down can move the caret past the end of the text (`NotesEditor.DownCanPassTheEnd`).
- `offset_to_rowcol` and `rowcol_to_offset` are not inverse (`TextGeometry.NotInverseAcrossParagraphs`).
- Deadlines sort as DD-MM-YYYY strings, not by date (`SortProjection.DeadlineOrderIsNotChronological`).
- Enter on a stale todo selection raises, which ends the program (`Dispatch.StaleSelectionAfterTopicChange`).
- A terminal under 30 columns makes `draw_box` fail (`PanelLayout.BoxesFitIff`).

The comment at src/frame.py:16 says the setters reset the initialized flag.
The code does not do that, and the model follows the code.

## Model

| member | source | states |
|---|---|---|
| Todos.DeadlineStatus | Todo.py:339-355 | deadline_status: Ok for an empty or unparsable deadline, Past before today, DueToday on today, Ok after; characterised in Todos.DeadlineStatusOkIff |
| Todos.DateOrder | Todo.py:339-355 | the date order used for deadlines is irreflexive, transitive and total |
| Todos.DeadlineStatusOkIff | Todo.py:339-355 | a deadline is Ok exactly when it is empty, unreadable or after today; it is DueToday exactly when it is today |
| Styled.CodeLenFacts | Todo.py:545-551 | an escape scan takes at least one character: everything up to and including the first 'm', or the whole string when there is no 'm' |
| Styled.PlainFacts | Todo.py:545-551 | text without ESC prints as itself, shows as itself and scans as one token per character |
| Styled.PlainAppend | Todo.py:545-551 | plain tokens of a concatenation are the concatenation of the plain tokens |
| Styled.RenderLex | Todo.py:545-551 | the tokens the canvas scan cuts a string into print back to the string |
| Styled.LexRender | Todo.py:545-551 | well-formed tokens survive printing and scanning unchanged |
| Styled.CodeLenOfCode | Todo.py:545-551 | the scan takes a complete escape whole, up to its 'm' |
| Styled.LastStyleEndsWith | Todo.py:545-551 | a line that ends in an escape leaves that escape in effect for the next row |
| Styled.ColorsAreCodes | Todo.py:25-46 | every colour constant of the program is a complete SGR escape |
| Styled.UnterminatedEscapeSwallowsText | Todo.py:545-551 | an escape with no closing 'm' swallows the visible characters after it |
| Boxes.TopRow | Todo.py:386-402 | draw_box's top row: border colour, left corner, the title coloured by tab state, the rule filling the rest, right corner, reset; its shape is Boxes.TopFacts |
| Boxes.MiddleRow | Todo.py:403-403 | draw_box's middle row: border colour, two verticals around width-2 spaces, reset; its shape is Boxes.MiddleFacts |
| Boxes.BottomRow | Todo.py:404-404 | draw_box's bottom row: border colour, corners around width-2 rules, reset; its shape is Boxes.BottomFacts |
| Boxes.DrawBox | Todo.py:384-411 | under the asserts' condition on the title, the box has max(2, height) rows, each scanning as `width` columns that start in the border colour and end with a reset; top, middle and bottom rows show the corners, title, spaces and rules |
| Boxes.TopFacts | Todo.py:386-402 | the top row shows the corners, the padded title and the rule, `width` columns wide |
| Boxes.MiddleFacts | Todo.py:403-403 | a middle row shows two verticals around width-2 spaces |
| Boxes.BottomFacts | Todo.py:404-404 | the bottom row shows the corners around width-2 rules |
| Canvas.CellIsOneColumn | Todo.py:327-336 | a written cell shows exactly one character |
| Canvas.ColorCellWrite | Todo.py:327-336 | the cells from `col` on hold the coloured characters of `text` up to the right edge; every other cell is unchanged |
| Canvas.ScanEscape | Todo.py:545-551 | the inner loop pops the escape the scan function describes off the front |
| Canvas.WriteLine | Todo.py:540-555 | one line writes exactly the cells the token scan predicts and reports the style left in effect; other cells are unchanged |
| Canvas.WriteBox | Todo.py:535-555 | every canvas cell equals BoxCell: rows of the box from row y to the bottom edge are written with the style carried over; the rest is unchanged |
| Canvas.LineCellsShape | Todo.py:540-555 | a line writes one cell per visible character up to the room left, each in the style of the last escape before it |
| Canvas.LineEndColorUnclipped | Todo.py:540-555 | a line that does not reach the edge leaves its last escape in effect |
| Canvas.StartsWithStyle | Todo.py:535-555 | a line starting with an escape writes the same cells whatever style came before |
| Canvas.BoxRowOnCanvas | Todo.py:535-555 | a draw_box row inside the canvas fills exactly `width` cells with its visible characters |
| Canvas.UnterminatedEscapeWritesNothing | Todo.py:545-551 | characters after an escape with no 'm' are never written |
| PanelLayout.Layout | Todo.py:520-530 | the side column is min(max(20, tw // 4), tw // 3), the main column the rest; the usable rows (all but the last) are split between Topics and Todos, and between the Info panel and Notes; its arithmetic is PanelLayout.LayoutSplit |
| PanelLayout.WindowStart | Todo.py:624-639 | the first row of the scroll window: the selection minus half the visible rows, kept within [0, total - visible]; PanelLayout.WindowShowsSelection and PanelLayout.WindowCentres state its meaning |
| PanelLayout.NoteCell | Todo.py:872-885 | one notes cell: a '|' caret on the cursor offset when the caret is on (in reverse video inside the selection), otherwise the character, in reverse video inside the selection; PanelLayout.NoteCellFacts states the rule |
| PanelLayout.LayoutSplit | Todo.py:520-530 | the side and main columns fill the width; the Topics and Todos panels, and the Info and Notes panels, fill the rows above the help row; the side column is at most a third of the width and at least 20 from 60 columns on |
| PanelLayout.BoxesFitIff | Todo.py:405-407 | the draw_box asserts hold for all four panels exactly when the terminal is at least 30 columns wide |
| PanelLayout.VisibleRows | Todo.py:623-623 | a panel shows at least one row, and height-2 rows when it has room |
| PanelLayout.WindowShowsSelection | Todo.py:624-639 | the selected row is inside the scroll window, which shows min(visible, total) existing rows |
| PanelLayout.WindowCentres | Todo.py:626-626 | away from both ends of the list the selection sits at row visible // 2 of the window |
| PanelLayout.SelectedDisplayPos | Todo.py:662-668 | on the Todos tab the result is the first display row holding the selected index; otherwise, or when no row holds it, 0 |
| PanelLayout.NoteCellFacts | Todo.py:872-885 | every notes cell shows one column; the caret replaces the character at the cursor; a cell is in reverse video exactly when its offset is in the selection |
| PanelLayout.CaretReversedIff | Todo.py:876-879 | the caret is drawn in reverse video exactly when the anchor lies to its right |
| PanelLayout.DrawNotes | Todo.py:872-885 | every canvas cell equals NotesCellAt: the first `height` display lines, cut at the panel width, with the caret and selection rule; the rest is unchanged |
| PanelLayout.DrawEndCaret | Todo.py:887-893 | the end caret is drawn after the last shown line exactly when the caret is on, the cursor is at the end and that line has a free column; otherwise nothing changes |
| PanelLayout.NoTextCellAtEnd | Todo.py:872-893 | no character cell has the end-of-text offset, so the end caret is the only caret then |
| TextGeometry.Split | Todo.py:248-248 | the paragraphs list is never empty |
| TextGeometry.SplitFacts | Todo.py:248-248 | the paragraphs hold no newline and, joined with newlines, give back the text |
| TextGeometry.DisplayLines | Todo.py:239-261 | build_display_lines' lines: each paragraph of raw.split('\n') cut into chunks of `width` characters, an empty paragraph giving one ""; TextGeometry.DisplayLinesLaid and TextGeometry.ParagraphLines state their meaning |
| TextGeometry.AppendChunks | Todo.py:249-256 | the inner loop appends exactly the chunks of the paragraph and their raw offsets |
| TextGeometry.BuildDisplayLines | Todo.py:239-261 | the method returns the lines and starts of the specification functions |
| TextGeometry.DisplayLinesLaid | Todo.py:239-261 | lines and starts have equal length; each line is the slice of the text at its start, at most `width` long; empty lines only for empty paragraphs; starts strictly increase |
| TextGeometry.ParagraphLines | Todo.py:245-259 | an empty paragraph gives one "", a non-empty one gives chunks of 1..width characters, all but the last full, that join back to it |
| TextGeometry.RowColOf | Todo.py:264-298 | an offset at or before 0 is reported at (0, 0) |
| TextGeometry.OffsetToRowCol | Todo.py:264-298 | the method with the source's loops returns what RowColOf specifies |
| TextGeometry.RowColBounds | Todo.py:264-298 | offset_to_rowcol never reports a negative row or a column past `width` |
| TextGeometry.OffsetAt | Todo.py:301-324 | a negative row maps to offset 0 |
| TextGeometry.RowColToOffset | Todo.py:301-324 | the method with the source's loops returns what OffsetAt specifies |
| TextGeometry.OffsetAtNonNegative | Todo.py:301-324 | for a non-negative column the offset is never negative |
| TextGeometry.OffsetAtUnwrappedBound | Todo.py:301-324 | when no paragraph wraps the offset stays within [0, len(raw)] |
| TextGeometry.SingleLineRowCol | Todo.py:264-298 | on one unwrapped line an offset o is at row 0, column o clamped to [0, len(raw)] |
| TextGeometry.SingleLineOffset | Todo.py:301-324 | on one unwrapped line (0, col) maps to min(col, len(raw)) and later rows to len(raw) |
| TextGeometry.SingleLineRoundTrip | Todo.py:264-324 | on one unwrapped line the two mappings are inverse in both directions |
| TextGeometry.NotInverseAcrossParagraphs | Todo.py:264-324 | offset 3 of "ab\ncd" maps to (1, 0), which maps back to 2 |
| TextGeometry.NotInverseOnceWrapped | Todo.py:278-278 | the end of "abcdefg" at width 3 is reported at (2, -5), which maps back to 5 |
| TextGeometry.OffsetAtCanExceedLength | Todo.py:316-317 | row 1, column 2 of "abcdef" at width 3 maps to 8, past the end |
| TextGeometry.RowPastLastLine | Todo.py:283-285 | the end of "ab\n" is put on row 2 of a two-line layout |
| SortProjection.KeyOf | Todo.py:367-378 | the sort key of one todo: (priority, deadline or "9999-12-31") in priority mode, (deadline or "9999-12-31", priority) in deadline mode, created_at in created mode; SortProjection.KeyOrder shows the keys are totally ordered |
| SortProjection.DisplayOrder | Todo.py:358-382 | get_todo_display_order: range(len(todos)) stably sorted by KeyOf; SortProjection.DisplayOrderFacts states it is a permutation sorted by key with ties in storage order |
| SortProjection.StrLessIrreflexive | Todo.py:358-382 | no string sorts before itself |
| SortProjection.StrLessTransitive | Todo.py:358-382 | string order is transitive |
| SortProjection.StrLessTotal | Todo.py:358-382 | of two different strings one sorts first |
| SortProjection.AtomOrder | Todo.py:358-382 | key components are strictly totally ordered |
| SortProjection.KeyOrder | Todo.py:358-382 | sort keys are strictly totally ordered, so the sort is well defined |
| SortProjection.CreatedKeyOrder | Todo.py:377-378 | in created mode one key is below another exactly when its `created_at` string is |
| SortProjection.InsertFacts | Todo.py:380-382 | inserting an index keeps the order stably sorted and adds exactly that index |
| SortProjection.SortIndicesFacts | Todo.py:380-382 | the sorted indices are a stably sorted permutation of range(n) |
| SortProjection.DisplayOrderFacts | Todo.py:358-382 | get_todo_display_order lists every storage index exactly once, by non-decreasing key, equal keys in storage order |
| SortProjection.DisplayOrderListsEach | Todo.py:358-382 | each stored todo appears exactly once in the display order |
| SortProjection.DeadlineOrderIsNotChronological | Todo.py:367-373 | "01-02-2025" (1 February) sorts before "02-01-2025" (2 January) |
| SortProjection.NoDeadlineSortsLast | Todo.py:367-373 | a todo without a deadline sorts after one whose deadline starts below '9' |
| NotesEditor.InsertChar | Todo.py:1117-1122 | a printable key inserts its character at the caret (Python slicing, so a negative caret counts from the end) and moves the caret one right; stated in NotesEditor.InsertThenBackspace |
| NotesEditor.Newline | Todo.py:1088-1091 | Enter inserts '\n' at the caret and moves the caret one right; stated in NotesEditor.NewlineThenBackspace |
| NotesEditor.Backspace | Todo.py:1094-1106 | Backspace deletes the selection and clears the anchor, or deletes the character before the caret, or does nothing at offset 0; stated in NotesEditor.BackspaceFacts |
| NotesEditor.Copy | Todo.py:1052-1063 | Ctrl-C copies the selection, or the whole text without one, to the clipboard; stated in NotesEditor.CopyFacts |
| NotesEditor.Cut | Todo.py:1066-1077 | Ctrl-X moves the selection to the clipboard, puts the caret at its start and clears the anchor; stated in NotesEditor.CutThenPaste and NotesEditor.CutWithoutSelection |
| NotesEditor.Paste | Todo.py:1080-1085 | Ctrl-V inserts the clipboard at the caret and moves past it; stated in NotesEditor.PasteFacts |
| NotesEditor.Left | Todo.py:1024-1025 | the caret moves one left, not below 0; stated in NotesEditor.LeftRightFacts |
| NotesEditor.Right | Todo.py:1026-1027 | the caret moves one right, not past the end; stated in NotesEditor.LeftRightFacts |
| NotesEditor.Up | Todo.py:1015-1018 | the caret goes to the same column one display row up (row 0 stays on row 0) through offset_to_rowcol and rowcol_to_offset; stated in NotesEditor.SingleLineUpDown and NotesEditor.UpCanMakeCursorNegative |
| NotesEditor.Down | Todo.py:1020-1022 | the caret goes to the same column one display row down through the same two mappings; stated in NotesEditor.SingleLineUpDown and NotesEditor.DownCanPassTheEnd |
| NotesEditor.InsertThenBackspace | Todo.py:1117-1122 | typing puts the character at the caret, keeps the rest of the text, and Backspace restores text and caret |
| NotesEditor.NewlineThenBackspace | Todo.py:1088-1091 | Enter inserts a newline at the caret and keeps the anchor; without a selection Backspace undoes it |
| NotesEditor.BackspaceFacts | Todo.py:1094-1106 | Backspace deletes exactly the selection, or the character before the caret, or nothing at offset 0 |
| NotesEditor.CutThenPaste | Todo.py:1066-1085 | Cut copies the selection to the clipboard, and Paste at the caret gives back the text |
| NotesEditor.CutWithoutSelection | Todo.py:1066-1077 | without a selection Cut changes nothing |
| NotesEditor.CopyFacts | Todo.py:1052-1063 | Copy changes only the clipboard, to the selection or the whole text |
| NotesEditor.PasteFacts | Todo.py:1080-1085 | Paste inserts the clipboard at the caret and moves past it; an empty clipboard does nothing |
| NotesEditor.ToggleTwice | Todo.py:1109-1114 | 'v' sets the anchor at the caret, and a second 'v' clears it |
| NotesEditor.LeftRightFacts | Todo.py:1024-1027 | Left and Right keep the caret in the text and undo each other away from the ends |
| NotesEditor.EditsKeepInBounds | Todo.py:1052-1122 | every command but Up and Down keeps caret and anchor in the text |
| NotesEditor.SingleLineUpDown | Todo.py:1015-1022 | on one unwrapped line Up keeps the caret and Down moves it to the end |
| NotesEditor.UpCanMakeCursorNegative | Todo.py:1015-1018 | at width 10, the narrowest notes panel, Up from offset 12 of a 15-character line puts the caret at -8 |
| NotesEditor.DownCanPassTheEnd | Todo.py:1020-1022 | at width 10, Down from offset 2 of a 15-character line puts the caret at 17 |
| NotesEditor.InsertAtNegativeCursor | Todo.py:1117-1122 | at caret -8 a typed character goes eight places before the end |
| AppModel.ParseInt | Todo.py:446-446 | Python `int()` on ASCII text: optional blanks, an optional sign, digits with single underscores between them; None where it raises; stated in AppModel.PriorityOfFacts and AppModel.PriorityOfPadded |
| AppModel.CreateTopic | Todo.py:413-423 | create_topic: the name is appended to the topics and selected, and the prompt ends in topics focus; stated in Dispatch.NewTopicByTyping |
| AppModel.DeleteTopic | Todo.py:425-433 | delete_topic: an index in range removes the topic and its todo list and clamps the selection; stated in AppModel.DeleteTopicFacts |
| AppModel.CreateTodo | Todo.py:435-441 | create_todo: keeps the name and asks for the priority; stated in AppModel.CreateTodoFlow |
| AppModel.PriorityStepOf | Todo.py:443-459 | todo_priority_step: keeps PriorityOf(input) and asks for the deadline; stated in AppModel.CreateTodoFlow and AppModel.PriorityOfFacts |
| AppModel.DeadlineOf | Todo.py:466-476 | the deadline todo_deadline_step keeps: none for empty input or 's'/'S', the stripped input when it parses as a date, none otherwise; stated in TodoApp.App.ReadDeadline |
| AppModel.DeadlineStepOf | Todo.py:461-499 | todo_deadline_step: with a name and topics the new todo is appended to the current topic and selected; the step data is cleared and the prompt ends in todos focus; stated in AppModel.CreateTodoFlow and AppModel.DeadlineStepEnds |
| AppModel.DeleteTodo | Todo.py:501-508 | delete_todo: a todo that exists is popped and the selection clamped; stated in AppModel.DeleteTodoFacts |
| AppModel.ToggleTodo | Todo.py:510-515 | toggle_todo: a todo that exists has its completed flag flipped; stated in AppModel.ToggleTodoFacts |
| AppModel.RunContinuation | Todo.py:943-948 | the prompt callback named by the state runs on the entered text; the delete confirmations act only on 'y' or 'Y'; stated in Dispatch.RunContinuationValid |
| AppModel.InitValid | Todo.py:66-91 | the initial state satisfies the state invariant |
| AppModel.StripLeftFacts | Todo.py:472-473 | `strip()`'s left half: the result is the input with exactly its leading blanks removed (a suffix of it, every dropped character a blank, and not starting with a blank) |
| AppModel.StripRightFacts | Todo.py:472-473 | `strip()`'s right half: the result is the input with exactly its trailing blanks removed (a prefix of it, every dropped character a blank, and not ending with a blank) |
| AppModel.RemoveAt | Todo.py:428-430 | `pop(i)` leaves one element fewer: the ones before i, then the ones after |
| AppModel.PriorityOfFacts | Todo.py:443-459 | the priority prompt maps "1" to "4" to indices 0 to 3, and every answer gives a valid priority index |
| AppModel.PriorityOfPadded | Todo.py:447-450 | `int()` accepts padding, a sign and underscores, so " +0_2 " chooses index 1, while "2a" gives the default |
| AppModel.DeleteTopicFacts | Todo.py:425-433 | an index out of range changes nothing; otherwise one topic fewer remains, the deleted topic's todo list is gone and the selection is min(index, len-1), a valid topic when any remain |
| AppModel.DeleteSharedTopic | Todo.py:425-433 | topics with the same name share one list, so deleting one empties the other |
| AppModel.ToggleTodoFacts | Todo.py:510-515 | with no todo at the indices nothing changes; otherwise only that todo's `completed` flag flips and every other todo and state entry is kept; toggling twice gives back the state |
| AppModel.DeleteTodoFacts | Todo.py:501-508 | delete_todo changes nothing when the todo does not exist; otherwise exactly that todo is removed and the selection moves to min(index, len-2), an existing todo when any remain |
| AppModel.CreateTodoFlow | Todo.py:435-499 | a name, then "2", then "s" append one todo with that name, priority index 1, no deadline and the given creation time |
| AppModel.DeadlineStepEnds | Todo.py:461-499 | the deadline step always clears the step data and ends in todos focus with the prompt closed |
| Dispatch.InputKey | Todo.py:934-967 | input mode: Enter runs the callback on the buffer, Escape abandons the prompt, Backspace drops the last byte, other plain bytes are appended; stated in Dispatch.InputKeyValid, Dispatch.TypingFillsBuffer and Dispatch.TypeThenBackspace |
| Dispatch.TopicMove | Todo.py:981-986 | Up and Down on the topics tab move the topic index by one, clamped at 0 and at the last topic; stated in Dispatch.EmptyTopicsSelection and Dispatch.ExtendedKeyValid |
| Dispatch.TodoMove | Todo.py:987-1000 | Up and Down on the todos tab select the todo one display row up or down; stated in Dispatch.TodoMoveSelects and Dispatch.TodoMoveRow |
| Dispatch.ExtendedKey | Todo.py:970-1028 | an arrow key moves the topic or todo selection, or the notes caret on the notes tab; stated in Dispatch.ExtendedKeyValid |
| Dispatch.NotesKey | Todo.py:1033-1124 | a key in the notes editor applies its editor command to the selected todo's notes, or leaves the editor on Escape; stated in Dispatch.NotesKeysFollowEditor and Dispatch.NotesKeyFrame |
| Dispatch.CommandKey | Todo.py:1127-1240 | a command key outside prompts and the notes editor: quit, save, sort cycle, Enter, new topic or todo, delete, toggle, tab switches; stated in Dispatch.CommandKeyValid and Dispatch.EffectIff |
| Dispatch.HandleInput | Todo.py:928-1242 | handle_input: routes a key press to the prompt, the arrow keys, the notes editor or the commands; stated in Dispatch.HandleInputValid and Dispatch.EffectIff |
| Dispatch.PosOfFacts | Todo.py:992-996 | the position of a listed index is its first row; an unlisted one gives 0 |
| Dispatch.StoreUnchanged | Todo.py:1040-1044 | writing back the editor state the object already holds changes nothing |
| Dispatch.RunContinuationValid | Todo.py:935-952 | every prompt callback keeps the state valid |
| Dispatch.InputKeyValid | Todo.py:934-967 | every key in input mode keeps the state valid |
| Dispatch.ExtendedKeyValid | Todo.py:970-1028 | every arrow key keeps the state valid |
| Dispatch.NotesKeyValid | Todo.py:1033-1124 | every key in the notes editor keeps the state valid |
| Dispatch.CommandKeyValid | Todo.py:1127-1240 | every command key keeps the state valid |
| Dispatch.HandleInputValid | Todo.py:928-1242 | every key press keeps the state valid, so every reachable state is valid |
| Dispatch.EffectIff | Todo.py:1127-1170 | the program quits exactly on 'q' outside a prompt and the notes editor, saves exactly on 'S' under the same condition, and raises exactly on Enter in todos focus with a stale todo index |
| Dispatch.StaleSelectionAfterTopicChange | Todo.py:1142-1161 | after moving to a topic with fewer todos, Enter on the todos tab raises |
| Dispatch.PosOfUnique | Todo.py:992-996 | the position of an index listed exactly once is the row that lists it |
| Dispatch.TodoMoveSelects | Todo.py:987-1000 | Up and Down on the todos tab change only the todo index, always to an existing todo |
| Dispatch.RowOfSelection | Todo.py:992-996 | a selected todo that exists sits at its display row |
| Dispatch.TodoMoveRow | Todo.py:996-999 | Up selects the todo one display row up, Down one row down, clamped at the ends |
| Dispatch.DownThenUp | Todo.py:996-999 | Down then Up returns to the same state except on the last row |
| Dispatch.UpThenDown | Todo.py:996-999 | Up then Down returns to the same state except on the first row |
| Dispatch.EmptyTopicsSelection | Todo.py:1209-1215 | with no topics 'j' selects topic -1 and 'k' brings the index back to 0 |
| Dispatch.SortModeCycle | Todo.py:1132-1140 | priority, deadline and created form a cycle of three |
| Dispatch.SortKeyCycles | Todo.py:1132-1140 | 's' in todos focus changes only the sort mode, and three presses restore the state |
| Dispatch.NavSwitchTwice | Todo.py:1235-1240 | in nav mode 'j' and 'k' only switch between the topics and todos tabs, and two presses return to the start |
| Dispatch.EnterThenEscape | Todo.py:1147-1161 | Enter on an existing todo opens its notes with the caret at the end; Escape then gives back the old state with the caret at the end and the selection cleared |
| Dispatch.TypingFillsBuffer | Todo.py:962-967 | typing plain bytes into a prompt appends them to the buffer and changes nothing else |
| Dispatch.TypeThenBackspace | Todo.py:958-960 | Backspace in a prompt takes back the byte just typed |
| Dispatch.NewTopicByTyping | Todo.py:1172-1177 | 'n' on the topics tab, a name, then Enter: the name becomes the last topic and is selected |
| Dispatch.NotesKeysFollowEditor | Todo.py:1045-1124 | each key in the notes editor does to the state exactly what the editor command does |
| Dispatch.NotesKeyFrame | Todo.py:1033-1124 | a notes key changes only the selected todo's notes and the editor state |
| Dispatch.NotesTypeThenBackspace | Todo.py:1094-1122 | a printable character then Backspace leaves the notes as they were |
| TodoApp.App.constructor | Todo.py:66-91 | a new app holds the initial state, which is valid |
| TodoApp.App.CreateTopic | Todo.py:413-423 | the state becomes AppModel.CreateTopic of the old state |
| TodoApp.App.DeleteTopic | Todo.py:425-433 | the state becomes AppModel.DeleteTopic of the old state |
| TodoApp.App.CreateTodo | Todo.py:435-441 | the state becomes AppModel.CreateTodo of the old state |
| TodoApp.App.TodoPriorityStep | Todo.py:443-459 | the state becomes AppModel.PriorityStepOf of the old state |
| TodoApp.App.ReadDeadline | Todo.py:461-480 | the result is DeadlineOf of the input; a deadline is only kept when it is non-empty, not "s" and a date |
| TodoApp.App.TodoDeadlineStep | Todo.py:461-499 | the state becomes AppModel.DeadlineStepOf of the old state |
| TodoApp.App.DeleteTodo | Todo.py:501-508 | the state becomes AppModel.DeleteTodo of the old state |
| TodoApp.App.ToggleTodo | Todo.py:510-515 | the state becomes AppModel.ToggleTodo of the old state |
| TodoApp.App.RunCallback | Todo.py:943-948 | the state becomes RunContinuation of the old state |
| TodoApp.App.InputKey | Todo.py:934-967 | the state becomes Dispatch.InputKey of the old state |
| TodoApp.App.MoveTodo | Todo.py:987-1000 | the state becomes Dispatch.TodoMove of the old state |
| TodoApp.App.MoveTopic | Todo.py:981-986 | the state becomes Dispatch.TopicMove of the old state |
| TodoApp.App.ExtendedKey | Todo.py:970-1028 | the state becomes Dispatch.ExtendedKey of the old state |
| TodoApp.App.SetNotes | Todo.py:1040-1044 | only the selected todo's notes change, to the given text |
| TodoApp.App.NotesKey | Todo.py:1033-1124 | the state becomes Dispatch.NotesKey of the old state |
| TodoApp.App.CommandKey | Todo.py:1127-1240 | state and result are those of Dispatch.CommandKey |
| TodoApp.App.HandleInput | Todo.py:928-1242 | state and result are those of Dispatch.HandleInput, and the state stays valid |
| Vector2D.X | src/core/vector2d.py:7-8 | component 0; read back in Vector2D.NewFacts |
| Vector2D.Y | src/core/vector2d.py:13-14 | component 1; read back in Vector2D.NewFacts |
| Vector2D.Area | src/core/vector2d.py:26-27 | the product of the two components; stated in Vector2D.NewFacts and Vector2D.AreaOfMul |
| Vector2D.Flatten | src/core/vector2d.py:61-62 | the row-major index y * width + x; stated in Vector2D.FlattenInjective and Vector2D.FlattenDivMod |
| Vector2D.New | src/core/vector2d.py:4-5 | a new vector has two components, x and y |
| Vector2D.NewFacts | src/core/vector2d.py:4-27 | the default vector is [0, 0]; `x` and `y` read back what `new` was given; its area is x * y |
| Vector2D.Add | src/core/vector2d.py:29-30 | the sum is a fresh two-component vector, componentwise |
| Vector2D.Sub | src/core/vector2d.py:33-34 | the difference is a fresh two-component vector, componentwise |
| Vector2D.Mul | src/core/vector2d.py:37-38 | the product is a fresh two-component vector, componentwise |
| Vector2D.SubAdd | src/core/vector2d.py:29-34 | sub(add(a, b), b) gives back the first two components of a |
| Vector2D.AddMulCommute | src/core/vector2d.py:29-38 | add and mul do not depend on the order of their arguments |
| Vector2D.AreaOfMul | src/core/vector2d.py:26-38 | the area of a componentwise product is the product of the areas |
| Vector2D.FlattenInjective | src/core/vector2d.py:61-62 | when both x components lie in [0, width), two points flatten to the same index exactly when they are equal |
| Vector2D.FlattenDivMod | src/core/vector2d.py:61-62 | for x in [0, width) the flat index divided by width gives y, with remainder x |
| Vector2D.Set | src/core/vector2d.py:16-18 | both components are overwritten in place and nothing else changes |
| Vector2D.SetX | src/core/vector2d.py:20-21 | only component 0 changes |
| Vector2D.SetY | src/core/vector2d.py:23-24 | only component 1 changes |
| Vector2D.SetMatchesNew | src/core/vector2d.py:16-24 | `set` on a two-component vector gives `new` of the same values; set_x keeps y and set_y keeps x |
| PrototypeFrame.Frame.constructor | src/frame.py:5-13 | a new frame has size (0, 0), position (0, 0), the given content and is not initialized |
| PrototypeFrame.Frame.GetSize | src/frame.py:17-18 | returns the size |
| PrototypeFrame.Frame.GetPosition | src/frame.py:23-24 | returns the position |
| PrototypeFrame.Frame.GetContent | src/frame.py:29-30 | returns the content |
| PrototypeFrame.Frame.IsInitialized | src/frame.py:35-36 | returns the initialized flag |
| PrototypeFrame.Frame.SetSize | src/frame.py:20-21 | overwrites both size components and nothing else; the flag is kept |
| PrototypeFrame.Frame.SetPosition | src/frame.py:26-27 | overwrites both position components and nothing else; the flag is kept |
| PrototypeFrame.Frame.SetContent | src/frame.py:32-33 | replaces the content and nothing else; the flag is kept |
| PrototypeFrame.Frame.Init | src/frame.py:39-54 | returns true exactly when the content has `height` lines of `width` characters; sets the flag only then; never changes size, position or content |
| PrototypeFrame.FreshFrameFits | src/frame.py:8-13 | a fresh frame passes init exactly when its content is empty |
| PrototypeFrame.FitsDeterminesSize | src/frame.py:43-50 | content fits at most one height, and at most one width when it has lines |
| PrototypeFrame.FitsAfterLineReplace | src/frame.py:47-50 | replacing a line by one of the same length keeps the content fitting |
| PrototypeFrame.NoSetterClearsTheFlag | src/frame.py:17-33 | resizing, moving and refilling a frame keeps its initialized flag |
| PrototypeFrame.SetThenInit | src/frame.py:20-54 | after setting a size and content that fits it, init succeeds and the frame is initialized |
| PrototypeLayout.TopRow | src/layout.py:6-6 | make_box's top row: corner, title, rules filling the width, corner; stated in PrototypeLayout.MakeBoxShape |
| PrototypeLayout.MiddleRow | src/layout.py:7-7 | make_box's middle row: verticals around width-2 spaces; stated in PrototypeLayout.MakeBoxShape |
| PrototypeLayout.BottomRow | src/layout.py:8-8 | make_box's bottom row: corners around width-2 rules; stated in PrototypeLayout.MakeBoxShape |
| PrototypeLayout.MakeBox | src/layout.py:5-9 | a box has max(2, height) rows |
| PrototypeLayout.MakeBoxShape | src/layout.py:5-9 | the top row is the corner, the title, rules and the corner, max(len(title)+2, width) long; middle rows are verticals around spaces; the bottom row is corners around rules |
| PrototypeLayout.MakeBoxWidths | src/layout.py:6-8 | every row is `width` long exactly when the title is at most width-2 long; otherwise the top row is len(title)+2 long |
| PrototypeLayout.BoxFitsIff | src/layout.py:5-9 | a box passes the frame's init check for its own size exactly when height >= 2 and the title fits between the corners |
| PrototypeLayout.Plan | src/layout.py:12-50 | update places five frames |
| PrototypeLayout.PlanSplits | src/layout.py:15-49 | left width + 1 + right width == cols; the two left heights add up to rows, and so do the three right ones; each lower frame starts where the one above ends |
| PrototypeLayout.PlanFitsIff | src/layout.py:26-50 | every frame's outline passes init for its size exactly when cols >= 42 and rows >= 9 |
| PrototypeLayout.Place | src/layout.py:27-29 | the frame gets the placement's size, position and outline, and keeps its flag |
| PrototypeLayout.Update | src/layout.py:12-50 | each of the first five frames gets the size and position of Plan and the outline make_box draws for exactly that size; the flags are kept |

## Left out

- Saving and loading the data file (`save_data`, `load_data`, `get_data_path`): file I/O. The file is a `TODO_V1` header line followed by `TOPIC:`, `NUM_TODOS:` and `TODO_META:` lines, each todo's fields separated by the byte 0x1F and its notes base64-encoded. Effect `Save` and the `finally` save on exit stand for the write.
- Terminal I/O: `msvcrt` key reads, `init_windows_terminal`, `clear_screen`, `get_terminal_size`, writing the frame to stdout. Key bytes and sizes are parameters.
- The clock: creation timestamps are the `now` parameter. The caret blink and the expiry of status messages are not modelled.
- `strptime`: deadline parsing is the `isDate`/`parse` parameter.
- `strip_ansi`: its regular expression is not modelled. Its only callers are `draw_box`'s title measurement and its three asserts, and `Boxes.DrawBox` measures with the token scan `Styled.Visible` instead. The two agree on what `draw_box` is given: text whose escapes are complete SGR escapes, and ESC-free titles.
- Exceptions raised inside a prompt callback are swallowed by the source. The model's callbacks raise none.
- Float widths: the notes width is the `notesWidth` parameter.
- The painting of the Info panel, the topic and todo rows, the sort badge and the help line in `render_frame`. Only the layout, the scroll window and the notes panel are modelled.
- `main`'s loop, including reading the terminal size every frame and the outer exception handling. An exception in `handle_input` is the effect `Fault`.
- Unicode input: bytes from 0x80 up decode to nothing and have no effect.
- Titles containing ESC: `Boxes.DrawBox` requires ESC-free titles.
- TodoApp.App: `app_state` is held as one record field and not as seventeen separate object fields. Each method rewrites the entries the source assigns, mostly one at a time in the source's order; `App.TodoDeadlineStep` sets its last four entries in one update.
- Dispatch.HandleInput: requires the state invariant `Valid`. States outside it cannot be reached from the initial state (`Dispatch.HandleInputValid`).
- TextGeometry and NotesEditor.Up/Down: a notes width below 1 is not modelled, because the source's loops do not terminate there.
- PanelLayout.LayoutSplit: terminals under 11 rows, where panel heights go negative, are only covered by the arithmetic.
- PanelLayout.DrawNotes, PanelLayout.DrawEndCaret: require the shown rows to fit the canvas, and DrawEndCaret requires a notes panel at least one row high. The source's drawing when `notes_height <= 0` (Todo.py:887-893) on such short terminals is therefore not modelled.
- Vector2D: the float helpers `half`, `div`, `floor_mul`, `floor_div`, `round_mul` and `scale`, because they work on floats. Components are integers.
- src/vector2.py, src/renderer.py and the rest of the prototype renderer are not part of this model.
- PrototypeFrame.Frame: the size and position are copied out by the getters. The source returns the vector objects themselves, so a caller could alias and change them.
- PrototypeFrame.Frame.Init: the messages `init` prints on failure are left out.
- PrototypeLayout.Update: frame positions are exact rationals. The source's float rounding is not modelled.
- PrototypeLayout.Update: requires non-zero `cols` and `rows`, where the source raises ZeroDivisionError after placing the first frames. It also requires the five frames to be distinct objects.
