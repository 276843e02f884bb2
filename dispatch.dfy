/** handle_input (Todo.py:928-1242) as a function of the state and the key
    read. The keyboard is a parameter: `key` is the byte getch returned and
    `next` the byte a second getch returns after the 0xE0 prefix of an arrow
    key. The notes width for Up and Down, the creation time and the date check
    are parameters too. */
module Dispatch {
  import opened Base
  import opened Todos
  import opened AppModel
  import SortProjection
  import NotesEditor

  /** What the main loop does next: go on, save then go on, stop, or stop on an
      uncaught exception. */
  datatype Effect = Continue | Save | Quit | Fault

  const ENTER: byte := 13
  const ESCAPE: byte := 27
  const BACKSPACE: byte := 8
  const EXTENDED: byte := 0xE0
  const ARROW_UP: byte := 0x48
  const ARROW_DOWN: byte := 0x50
  const ARROW_LEFT: byte := 0x4B
  const ARROW_RIGHT: byte := 0x4D

  /** `key.decode('utf-8', errors='ignore')` of one byte: a character below
      0x80, nothing otherwise. */
  function Decode(key: byte): Option<char>
  {
    if key < 128 then Some(key as char) else None
  }

  // ---------------------------------------------------------------------------
  // Input mode (Todo.py:934-967)

  /** Enter runs the callback on the buffer, Escape abandons the prompt,
      Backspace drops the last character, and any other byte below 0x80 is
      appended (`key.decode('utf-8')` fails on the others). */
  function InputKey(s: State, key: byte, now: string, isDate: string -> bool): State
  {
    if key == ENTER then
      var buffer := s.inputBuffer;
      var s1 := s.(inputBuffer := "", inputMode := false);
      var s2 := if s.callback.Some? then RunContinuation(s1, s.callback.value, buffer, now, isDate) else s1;
      if s2.inputMode then s2 else s2.(callback := None)
    else if key == ESCAPE then s.(inputMode := false, inputBuffer := "", callback := None)
    else if key == BACKSPACE then s.(inputBuffer := Prefix(s.inputBuffer, -1))
    else if key < 128 then s.(inputBuffer := s.inputBuffer + [key as char])
    else s
  }

  // ---------------------------------------------------------------------------
  // Moving the selection

  /** `ordered.index(x)`, or 0 where it raises ValueError. */
  function PosOf(order: seq<nat>, x: int): (p: nat)
    ensures order != [] ==> p < |order|
  {
    if order == [] || order[0] == x then 0
    else if x in order[1..] then 1 + PosOf(order[1..], x)
    else 0
  }

  /** The position of a listed index is the first row that lists it; an
      unlisted index gives 0, as the ValueError handler does. */
  lemma {:induction false} PosOfFacts(order: seq<nat>, x: int)
    ensures x in order ==> order[PosOf(order, x)] == x
    ensures x in order ==> forall e :: 0 <= e < PosOf(order, x) ==> order[e] != x
    ensures x !in order ==> PosOf(order, x) == 0
  {
    if order != [] && order[0] != x {
      var rest := order[1..];
      assert order == [order[0]] + rest;
      if x in rest {
        PosOfFacts(rest, x);
        var p := PosOf(rest, x);
        assert PosOf(order, x) == 1 + p;
        forall e | 0 <= e < 1 + p ensures order[e] != x {
          if e > 0 { assert order[e] == rest[e - 1]; }
        }
      }
    }
  }

  datatype Move = Up | Down | Stay

  function TopicMove(s: State, m: Move): State
  {
    var ti := match m
      case Up => Max(0, s.topicIndex - 1)
      case Down => Min(|s.topics| - 1, s.topicIndex + 1)
      case Stay => s.topicIndex;
    s.(topicIndex := ti, lastTopicIndex := ti)
  }

  function CurrentTopic(s: State): string
    requires Valid(s) && s.topics != []
  {
    s.topics[s.topicIndex]
  }

  /** Up and Down on the todos tab move through the display order; the new
      selection is the storage index at the neighbouring display row. */
  function TodoMove(s: State, m: Move): State
    requires Valid(s) && s.topics != []
  {
    var todos := TodosOf(s, CurrentTopic(s));
    if todos == [] then s
    else
      var ordered := SortProjection.DisplayOrder(s.sortMode, todos);
      var pos := PosOf(ordered, s.todoIndex);
      var newpos := match m
        case Up => Max(0, pos - 1)
        case Down => Min(|ordered| - 1, pos + 1)
        case Stay => pos;
      s.(todoIndex := ordered[newpos])
  }

  // ---------------------------------------------------------------------------
  // Arrow keys (Todo.py:970-1028)

  function ArrowMove(next: byte): Move
  {
    if next == ARROW_UP then Up else if next == ARROW_DOWN then Down else Stay
  }

  /** The notes being edited, with the editor state of app_state. */
  function EditorOf(s: State): NotesEditor.Editor
    requires Valid(s) && s.tab == NotesTab
  {
    var todos := TodosOf(s, CurrentTopic(s));
    NotesEditor.Editor(todos[s.todoIndex].notes, s.notesCursor, s.anchor, s.clipboard)
  }

  function ExtendedKey(s: State, next: byte, notesWidth: int): State
    requires Valid(s) && !s.inputMode && notesWidth >= 1
  {
    if s.navMode then
      if next == ARROW_UP || next == ARROW_DOWN then
        if s.tab == TopicsTab then s.(tab := TodosTab, todoIndex := 0)
        else if s.tab == TodosTab then s.(tab := TopicsTab, topicIndex := 0)
        else s
      else s
    else if s.tab == TopicsTab then TopicMove(s, ArrowMove(next))
    else if s.tab == TodosTab then
      if s.topics != [] then TodoMove(s, ArrowMove(next)) else s
    else
      var e := EditorOf(s);
      if next == ARROW_UP then s.(notesCursor := NotesEditor.Up(e, notesWidth).cursor)
      else if next == ARROW_DOWN then s.(notesCursor := NotesEditor.Down(e, notesWidth).cursor)
      else if next == ARROW_LEFT then s.(notesCursor := NotesEditor.Left(e).cursor)
      else if next == ARROW_RIGHT then s.(notesCursor := NotesEditor.Right(e).cursor)
      else s
  }

  // ---------------------------------------------------------------------------
  // The notes editor (Todo.py:1033-1124)

  /** Writes an edited notes text and the editor state back. */
  function StoreEdit(s: State, e: NotesEditor.Editor): State
    requires Valid(s) && s.tab == NotesTab
  {
    var topic := CurrentTopic(s);
    var list := TodosOf(s, topic);
    s.(todos := s.todos[topic := list[s.todoIndex := list[s.todoIndex].(notes := e.text)]],
       notesCursor := e.cursor, anchor := e.anchor, clipboard := e.clipboard)
  }

  /** Storing the editor state the object already holds changes nothing. */
  lemma StoreUnchanged(s: State)
    requires Valid(s) && s.tab == NotesTab
    ensures StoreEdit(s, EditorOf(s)) == s
  {
    var topic := CurrentTopic(s);
    var list := s.todos[topic];
    assert list[s.todoIndex := list[s.todoIndex]] == list;
    assert s.todos[topic := list] == s.todos;
  }

  function NotesKey(s: State, k: Option<char>): State
    requires Valid(s) && s.tab == NotesTab
  {
    var e := EditorOf(s);
    if k.None? then s
    else
      var c := k.value;
      if c == '\U{1B}' then s.(tab := TodosTab, navMode := false, anchor := None)
      else if c == '\U{03}' then
        s.(clipboard := NotesEditor.Copy(e).clipboard,
           statusMsg := if s.anchor.None? then "Copied all notes" else "Copied selection")
      else if c == '\U{18}' then
        if s.anchor.Some? then StoreEdit(s, NotesEditor.Cut(e)).(statusMsg := "Cut selection") else s
      else if c == '\U{16}' then StoreEdit(s, NotesEditor.Paste(e))
      else if c == '\r' then StoreEdit(s, NotesEditor.Newline(e))
      else if c == '\U{08}' || c == '\U{7F}' then StoreEdit(s, NotesEditor.Backspace(e))
      else if c == 'v' then s.(anchor := NotesEditor.ToggleAnchor(e).anchor)
      else if ' ' <= c <= '~' then StoreEdit(s, NotesEditor.InsertChar(e, c))
      else s
  }

  // ---------------------------------------------------------------------------
  // Commands outside the notes editor (Todo.py:1127-1240)

  function NextSortMode(m: SortProjection.SortMode): SortProjection.SortMode
  {
    match m
    case ByPriority => SortProjection.ByDeadline
    case ByDeadline => SortProjection.ByCreated
    case ByCreated => SortProjection.ByPriority
  }

  function Prompt(s: State, text: string, cb: Continuation): State
  {
    s.(inputMode := true, inputPrompt := text, callback := Some(cb))
  }

  /** Enter: leaves nav mode, or goes from topics to todos, or opens the
      selected todo's notes with the caret at the end. A selection past the
      end of the list raises IndexError. */
  function EnterKey(s: State): (State, Effect)
    requires Valid(s) && !(s.tab == NotesTab && !s.navMode)
  {
    if s.navMode then (s.(navMode := false), Continue)
    else if s.tab == TopicsTab then (s.(tab := TodosTab), Continue)
    else if s.topics == [] then (s, Continue)
    else
      var todos := TodosOf(s, CurrentTopic(s));
      if todos == [] then (s.(statusMsg := "No todos in topic"), Continue)
      else if s.todoIndex >= |todos| then (s, Fault)
      else (s.(notesCursor := |todos[s.todoIndex].notes|, tab := NotesTab, navMode := false), Continue)
  }

  function DeleteKey(s: State): State
    requires Valid(s)
  {
    if s.tab == TopicsTab && s.topics != [] then
      Prompt(s, "Delete topic '" + CurrentTopic(s) + "' (y/n)? ", ConfirmDeleteTopic)
    else if s.tab == TodosTab && s.topics != [] then
      var topic := CurrentTopic(s);
      if topic in s.todos && s.todos[topic] != [] && s.todoIndex < |s.todos[topic]| then
        Prompt(s, "Delete todo '" + s.todos[topic][s.todoIndex].name + "' (y/n)? ", ConfirmDeleteTodo(s.todoIndex))
      else s
    else s
  }

  function SpaceKey(s: State): State
    requires Valid(s) && s.tab == TodosTab && s.topics != []
  {
    var topic := CurrentTopic(s);
    if topic in s.todos && s.todos[topic] != [] && s.todoIndex < |s.todos[topic]| then
      ToggleTodo(s, s.topicIndex, s.todoIndex)
    else s
  }

  function CommandKey(s: State, k: Option<char>): (State, Effect)
    requires Valid(s) && !s.inputMode && !(s.tab == NotesTab && !s.navMode)
  {
    if k.None? then (s, Continue)
    else
      var c := k.value;
      if c == 'S' then (s, Save)
      else if c == 's' && !s.navMode && s.tab == TodosTab && s.topics != [] then
        (s.(sortMode := NextSortMode(s.sortMode)), Continue)
      else if c == '\r' then EnterKey(s)
      else if c == '\U{1B}' then (s.(navMode := true), Continue)
      else if c == 'q' then (s, Quit)
      else if c == 'n' then
        if s.tab == TopicsTab then (Prompt(s, "Enter new topic name: ", NewTopic), Continue)
        else if s.tab == TodosTab && s.topics != [] then (Prompt(s, "Enter todo name: ", NewTodo), Continue)
        else (s, Continue)
      else if c == 'd' then (DeleteKey(s), Continue)
      else if c == ' ' && s.tab == TodosTab && s.topics != [] then (SpaceKey(s), Continue)
      else if !s.navMode then
        if s.tab == TopicsTab then
          (if c == 'k' then TopicMove(s, Up) else if c == 'j' then TopicMove(s, Down) else s, Continue)
        else if (c == 'j' || c == 'k') && s.topics != [] then
          (TodoMove(s, if c == 'k' then Up else Down), Continue)
        else (s, Continue)
      else if c == 'j' || c == 'k' then
        if s.tab == TopicsTab then (s.(tab := TodosTab), Continue)
        else if s.tab == TodosTab then (s.(tab := TopicsTab), Continue)
        else (s, Continue)
      else (s, Continue)
  }

  /** handle_input for one key press. */
  function HandleInput(s: State, key: byte, next: byte, notesWidth: int, now: string, isDate: string -> bool)
    : (State, Effect)
    requires Valid(s) && notesWidth >= 1
  {
    if s.inputMode then (InputKey(s, key, now, isDate), Continue)
    else if key == EXTENDED then (ExtendedKey(s, next, notesWidth), Continue)
    else if !s.navMode && s.tab == NotesTab then (NotesKey(s, Decode(key)), Continue)
    else CommandKey(s, Decode(key))
  }

  // ---------------------------------------------------------------------------
  // Typing into a prompt

  /** A byte the prompt appends: below 0x80 and none of Enter, Escape and
      Backspace. */
  predicate PlainKey(k: byte)
  {
    k < 128 && k != ENTER && k != ESCAPE && k != BACKSPACE
  }

  function Chars(keys: seq<byte>): (r: string)
    ensures |r| == |keys| && forall i :: 0 <= i < |keys| ==> r[i] == keys[i] as char
  {
    if keys == [] then [] else [keys[0] as char] + Chars(keys[1..])
  }

  /** One handle_input call per byte, in input mode. */
  function TypeKeys(s: State, keys: seq<byte>, now: string, isDate: string -> bool): State
    decreases |keys|
  {
    if keys == [] then s else TypeKeys(InputKey(s, keys[0], now, isDate), keys[1..], now, isDate)
  }

  // ---------------------------------------------------------------------------
  // Properties

  /** Every key press keeps the state Valid, so every state the program reaches
      from INIT is Valid. */
  lemma RunContinuationValid(s: State, cb: Continuation, input: string, now: string, isDate: string -> bool)
    requires Valid(s) && s.tab != NotesTab
    requires cb.ConfirmDeleteTodo? ==> cb.todoIndex >= 0
    ensures Valid(RunContinuation(s, cb, input, now, isDate))
  {
    match cb
    case ConfirmDeleteTopic => DeleteTopicFacts(s, s.topicIndex);
    case _ =>
  }

  lemma InputKeyValid(s: State, key: byte, now: string, isDate: string -> bool)
    requires Valid(s) && s.inputMode
    ensures Valid(InputKey(s, key, now, isDate))
  {
    if key == ENTER && s.callback.Some? {
      RunContinuationValid(s.(inputBuffer := "", inputMode := false), s.callback.value, s.inputBuffer, now, isDate);
    }
  }

  lemma ExtendedKeyValid(s: State, next: byte, notesWidth: int)
    requires Valid(s) && !s.inputMode && notesWidth >= 1
    ensures Valid(ExtendedKey(s, next, notesWidth))
  {
  }

  lemma NotesKeyValid(s: State, k: Option<char>)
    requires Valid(s) && s.tab == NotesTab
    ensures Valid(NotesKey(s, k))
  {
  }

  lemma CommandKeyValid(s: State, k: Option<char>)
    requires Valid(s) && !s.inputMode && !(s.tab == NotesTab && !s.navMode)
    ensures Valid(CommandKey(s, k).0)
  {
    if k.Some? {
      var c := k.value;
      if c == '\r' {
        EnterKeyValid(s);
      } else if c == 'd' {
        DeleteKeyValid(s);
      } else if c == ' ' && s.tab == TodosTab && s.topics != [] {
        SpaceKeyValid(s);
      } else if c == 'j' || c == 'k' {
        MoveKeyValid(s, c);
      }
    }
  }

  lemma EnterKeyValid(s: State)
    requires Valid(s) && !s.inputMode && !(s.tab == NotesTab && !s.navMode)
    ensures Valid(EnterKey(s).0)
  {
  }

  lemma DeleteKeyValid(s: State)
    requires Valid(s) && !s.inputMode && !(s.tab == NotesTab && !s.navMode)
    ensures Valid(DeleteKey(s))
  {
  }

  lemma SpaceKeyValid(s: State)
    requires Valid(s) && !s.inputMode && s.tab == TodosTab && s.topics != []
    ensures Valid(SpaceKey(s))
  {
  }

  lemma MoveKeyValid(s: State, c: char)
    requires Valid(s) && !s.inputMode && !(s.tab == NotesTab && !s.navMode)
    requires c == 'j' || c == 'k'
    ensures Valid(CommandKey(s, Some(c)).0)
  {
    if !s.navMode && s.tab == TodosTab && s.topics != [] {
      var r := TodoMove(s, if c == 'k' then Up else Down);
      assert r.todoIndex >= 0;
    }
  }

  lemma HandleInputValid(s: State, key: byte, next: byte, notesWidth: int, now: string, isDate: string -> bool)
    requires Valid(s) && notesWidth >= 1
    ensures Valid(HandleInput(s, key, next, notesWidth, now, isDate).0)
  {
    if s.inputMode {
      InputKeyValid(s, key, now, isDate);
    } else if key == EXTENDED {
      ExtendedKeyValid(s, next, notesWidth);
    } else if !s.navMode && s.tab == NotesTab {
      NotesKeyValid(s, Decode(key));
    } else {
      CommandKeyValid(s, Decode(key));
    }
  }

  /** handle_input returns False only for 'q', outside a prompt and the notes
      editor; it saves only for 'S' there; and it raises only for Enter on a
      todos list whose selection is past its end. */
  lemma EffectIff(s: State, key: byte, next: byte, notesWidth: int, now: string, isDate: string -> bool)
    requires Valid(s) && notesWidth >= 1
    ensures var eff := HandleInput(s, key, next, notesWidth, now, isDate).1;
      (eff == Quit <==> !s.inputMode && s.tab != NotesTab && Decode(key) == Some('q'))
      && (eff == Save <==> !s.inputMode && s.tab != NotesTab && Decode(key) == Some('S'))
      && (eff == Fault <==>
            !s.inputMode && s.tab == TodosTab && !s.navMode && key == ENTER && s.topics != []
            && TodosOf(s, CurrentTopic(s)) != [] && s.todoIndex >= |TodosOf(s, CurrentTopic(s))|)
  {
  }

  /** A topic change keeps todo_index, so the selection can be stale: with two
      todos under "a" and the second selected, moving to "b" (one todo) and
      pressing Enter twice raises IndexError. */
  lemma StaleSelectionAfterTopicChange(t: Todo, now: string, isDate: string -> bool)
    ensures var s0 := INIT.(navMode := false, topics := ["a", "b"], todos := map["a" := [t, t], "b" := [t]],
                            todoIndex := 1);
      Valid(s0)
      && var s1 := HandleInput(s0, 'j' as byte, 0, 1, now, isDate).0;
      s1.topicIndex == 1 && s1.todoIndex == 1 && Valid(s1)
      && var s2 := HandleInput(s1, ENTER, 0, 1, now, isDate).0;
      s2.tab == TodosTab && Valid(s2)
      && HandleInput(s2, ENTER, 0, 1, now, isDate).1 == Fault
  {
  }

  /** The PosOf of a todo listed once is its row. */
  lemma PosOfUnique(order: seq<nat>, k: nat)
    requires k < |order| && multiset(order)[order[k]] == 1
    ensures PosOf(order, order[k]) == k
  {
    var p := PosOf(order, order[k]);
    PosOfFacts(order, order[k]);
    if p < k {
      TwiceListed(order, p, k);
    }
  }

  lemma TwiceListed(order: seq<nat>, p: nat, k: nat)
    requires p < k < |order| && order[p] == order[k]
    ensures multiset(order)[order[k]] >= 2
  {
    var x := order[k];
    assert order == order[..k] + order[k..];
    assert x == order[..k][p] && x == order[k..][0];
    assert multiset(order)[x] == multiset(order[..k])[x] + multiset(order[k..])[x];
  }

  /** Up and Down on the todos tab always select an existing todo; an
      unlisted (stale) selection snaps to the top row. Nothing else changes. */
  lemma TodoMoveSelects(s: State, m: Move)
    requires Valid(s) && s.topics != [] && TodosOf(s, CurrentTopic(s)) != []
    ensures var todos := TodosOf(s, CurrentTopic(s));
      var ordered := SortProjection.DisplayOrder(s.sortMode, todos);
      TodoMove(s, m) == s.(todoIndex := TodoMove(s, m).todoIndex)
      && TodoMove(s, m).todoIndex < |todos|
      && (s.todoIndex >= |todos| ==> TodoMove(s, Stay).todoIndex == ordered[0])
  {
    var todos := TodosOf(s, CurrentTopic(s));
    SortProjection.DisplayOrderFacts(s.sortMode, todos);
    if s.todoIndex >= |todos| {
      var ordered := SortProjection.DisplayOrder(s.sortMode, todos);
      assert s.todoIndex !in ordered;
      PosOfFacts(ordered, s.todoIndex);
    }
  }

  /** A selection that exists on the current list sits at a row of the display
      order, and the todo at any row q is found at row q. */
  lemma RowOfSelection(s: State, q: nat)
    requires Valid(s) && s.topics != [] && s.todoIndex < |TodosOf(s, CurrentTopic(s))|
    requires q < |TodosOf(s, CurrentTopic(s))|
    ensures var todos := TodosOf(s, CurrentTopic(s));
      var order := SortProjection.DisplayOrder(s.sortMode, todos);
      var p := PosOf(order, s.todoIndex);
      |order| == |todos| && p < |order| && order[p] == s.todoIndex
      && order[q] < |todos| && PosOf(order, order[q]) == q
  {
    var todos := TodosOf(s, CurrentTopic(s));
    var order := SortProjection.DisplayOrder(s.sortMode, todos);
    SortProjection.DisplayOrderFacts(s.sortMode, todos);
    SortProjection.DisplayOrderListsEach(s.sortMode, todos, s.todoIndex);
    assert s.todoIndex in multiset(order);
    PosOfFacts(order, s.todoIndex);
    SortProjection.DisplayOrderListsEach(s.sortMode, todos, order[q]);
    PosOfUnique(order, q);
  }

  lemma TodoMoveRow(s: State, m: Move)
    requires Valid(s) && s.topics != [] && TodosOf(s, CurrentTopic(s)) != []
    ensures var order := SortProjection.DisplayOrder(s.sortMode, TodosOf(s, CurrentTopic(s)));
      var p := PosOf(order, s.todoIndex);
      TodoMove(s, m) == s.(todoIndex := order[match m
        case Up => Max(0, p - 1)
        case Down => Min(|order| - 1, p + 1)
        case Stay => p])
  {
    var todos := TodosOf(s, CurrentTopic(s));
    var order := SortProjection.DisplayOrder(s.sortMode, todos);
    var p: int := PosOf(order, s.todoIndex);
    var q: int := match m
      case Up => Max(0, p - 1)
      case Down => Min(|order| - 1, p + 1)
      case Stay => p;
    assert TodoMove(s, m) == s.(todoIndex := order[q]);
  }

  /** Down then Up comes back to the same todo, except on the last row; Up
      then Down, except on the first. */
  lemma DownThenUp(s: State)
    requires Valid(s) && s.tab == TodosTab && s.topics != []
    requires var todos := TodosOf(s, CurrentTopic(s));
      s.todoIndex < |todos| && PosOf(SortProjection.DisplayOrder(s.sortMode, todos), s.todoIndex) < |todos| - 1
    ensures Valid(TodoMove(s, Down)) && TodoMove(TodoMove(s, Down), Up) == s
  {
    var order := SortProjection.DisplayOrder(s.sortMode, TodosOf(s, CurrentTopic(s)));
    var p := PosOf(order, s.todoIndex);
    RowOfSelection(s, p + 1);
    var s1 := s.(todoIndex := order[p + 1]);
    TodoMoveRow(s, Down);
    assert TodoMove(s, Down) == s1;
    TodoMoveRow(s1, Up);
    assert TodoMove(s1, Up) == s;
  }

  lemma UpThenDown(s: State)
    requires Valid(s) && s.tab == TodosTab && s.topics != []
    requires var todos := TodosOf(s, CurrentTopic(s));
      s.todoIndex < |todos| && PosOf(SortProjection.DisplayOrder(s.sortMode, todos), s.todoIndex) > 0
    ensures Valid(TodoMove(s, Up)) && TodoMove(TodoMove(s, Up), Down) == s
  {
    var order := SortProjection.DisplayOrder(s.sortMode, TodosOf(s, CurrentTopic(s)));
    var p := PosOf(order, s.todoIndex);
    RowOfSelection(s, p - 1);
    var s1 := s.(todoIndex := order[p - 1]);
    TodoMoveRow(s, Up);
    assert TodoMove(s, Up) == s1;
    TodoMoveRow(s1, Down);
    assert TodoMove(s1, Down) == s;
  }

  /** With no topics, 'j' in topics focus selects -1 and 'k' brings it back to 0. */
  lemma EmptyTopicsSelection(s: State)
    requires Valid(s) && !s.inputMode && !s.navMode && s.tab == TopicsTab && s.topics == []
    ensures CommandKey(s, Some('j')).0.topicIndex == -1
    ensures CommandKey(s, Some('k')).0.topicIndex == 0
  {
  }

  /** The sort modes form a cycle of three. */
  lemma SortModeCycle(m: SortProjection.SortMode)
    ensures NextSortMode(m) != m && NextSortMode(NextSortMode(m)) != m
    ensures NextSortMode(NextSortMode(NextSortMode(m))) == m
  {
  }

  /** In todos focus, 's' changes the sort mode and nothing else; three
      presses give the state back. */
  lemma SortKeyCycles(s: State)
    requires Valid(s) && !s.inputMode && !s.navMode && s.tab == TodosTab && s.topics != []
    ensures var s1 := CommandKey(s, Some('s')).0;
      s1 == s.(sortMode := NextSortMode(s.sortMode)) && Valid(s1)
      && var s2 := CommandKey(s1, Some('s')).0;
      Valid(s2) && CommandKey(s2, Some('s')).0 == s
  {
    SortModeCycle(s.sortMode);
  }

  /** In nav mode 'j' and 'k' switch between the topics and todos tabs;
      two presses come back. */
  lemma NavSwitchTwice(s: State, c1: char, c2: char)
    requires Valid(s) && !s.inputMode && s.navMode && (s.tab == TopicsTab || s.tab == TodosTab)
    requires (c1 == 'j' || c1 == 'k') && (c2 == 'j' || c2 == 'k')
    ensures var s1 := CommandKey(s, Some(c1)).0;
      s1.tab != s.tab && Valid(s1) && CommandKey(s1, Some(c2)).0 == s
  {
  }

  /** Enter on an existing todo opens its notes with the caret at the end;
      Escape closes them again, dropping only the selection anchor. */
  lemma EnterThenEscape(s: State)
    requires Valid(s) && !s.inputMode && !s.navMode && s.tab == TodosTab && s.topics != []
    requires s.todoIndex < |TodosOf(s, CurrentTopic(s))|
    ensures var notes := TodosOf(s, CurrentTopic(s))[s.todoIndex].notes;
      var (s1, eff) := EnterKey(s);
      eff == Continue && Valid(s1) && s1.tab == NotesTab
      && EditorOf(s1) == NotesEditor.Editor(notes, |notes|, s.anchor, s.clipboard)
      && NotesKey(s1, Some('\U{1B}')) == s.(notesCursor := |notes|, anchor := None)
  {
  }

  /** Typing plain bytes into a prompt appends them to the buffer and changes
      nothing else. */
  lemma {:induction false} TypingFillsBuffer(s: State, keys: seq<byte>, now: string, isDate: string -> bool)
    requires s.inputMode && forall i :: 0 <= i < |keys| ==> PlainKey(keys[i])
    ensures TypeKeys(s, keys, now, isDate) == s.(inputBuffer := s.inputBuffer + Chars(keys))
    decreases |keys|
  {
    if keys != [] {
      var c := keys[0] as char;
      assert PlainKey(keys[0]);
      var s1 := InputKey(s, keys[0], now, isDate);
      assert s1 == s.(inputBuffer := s.inputBuffer + [c]);
      TypingFillsBuffer(s1, keys[1..], now, isDate);
      assert Chars(keys) == [c] + Chars(keys[1..]);
      AppendAssoc(s.inputBuffer, [c], Chars(keys[1..]));
    }
  }

  /** Backspace in a prompt takes back the byte just typed. */
  lemma TypeThenBackspace(s: State, key: byte, now: string, isDate: string -> bool)
    requires s.inputMode && PlainKey(key)
    ensures InputKey(InputKey(s, key, now, isDate), BACKSPACE, now, isDate) == s
  {
    var b := s.inputBuffer + [key as char];
    assert Prefix(b, -1) == b[..|b| - 1] == s.inputBuffer;
  }

  /** 'n' on the topics tab, a name, then Enter: the name becomes the last
      topic and is selected, and the prompt is closed. */
  lemma NewTopicByTyping(s: State, keys: seq<byte>, now: string, isDate: string -> bool)
    requires Valid(s) && !s.inputMode && s.tab == TopicsTab
    requires forall i :: 0 <= i < |keys| ==> PlainKey(keys[i])
    ensures var s1 := CommandKey(s, Some('n')).0;
      s1.inputMode && s1.callback == Some(NewTopic)
      && var s2 := InputKey(TypeKeys(s1.(inputBuffer := ""), keys, now, isDate), ENTER, now, isDate);
      s2.topics == s.topics + [Chars(keys)] && s2.topicIndex == |s.topics| && s2.todos == s.todos
      && !s2.inputMode && s2.callback.None? && s2.inputBuffer == [] && s2.tab == TopicsTab
  {
    var s1 := CommandKey(s, Some('n')).0;
    assert s1 == Prompt(s, "Enter new topic name: ", NewTopic);
    var t := s1.(inputBuffer := "");
    TypingFillsBuffer(t, keys, now, isDate);
    assert [] + Chars(keys) == Chars(keys);
    var t1 := TypeKeys(t, keys, now, isDate);
    assert t1.inputBuffer == Chars(keys) && t1.callback == Some(NewTopic) && t1.topics == s.topics;
    assert InputKey(t1, ENTER, now, isDate) == CreateTopic(t1.(inputBuffer := "", inputMode := false), Chars(keys));
  }

  /** In the notes editor each key does to the editor state of app_state what
      the editor command does; 'v' toggles the anchor and is never typed. */
  lemma NotesKeysFollowEditor(s: State, c: char)
    requires Valid(s) && s.tab == NotesTab
    ensures var s1 := NotesKey(s, Some(c)); var e := EditorOf(s);
      (c != '\U{1B}' ==> (Valid(s1) && s1.tab == NotesTab
        && (c == '\U{03}' ==> EditorOf(s1) == NotesEditor.Copy(e))
        && (c == '\U{18}' ==> EditorOf(s1) == NotesEditor.Cut(e))
        && (c == '\U{16}' ==> EditorOf(s1) == NotesEditor.Paste(e))
        && (c == '\r' ==> EditorOf(s1) == NotesEditor.Newline(e))
        && (c == '\U{08}' || c == '\U{7F}' ==> EditorOf(s1) == NotesEditor.Backspace(e))
        && (c == 'v' ==> EditorOf(s1) == NotesEditor.ToggleAnchor(e))
        && (' ' <= c <= '~' && c != 'v' ==> EditorOf(s1) == NotesEditor.InsertChar(e, c))
        && (c < ' ' && c !in "\U{03}\U{18}\U{16}\r\U{08}" ==> s1 == s)))
  {
  }

  /** A key in the notes editor changes only the notes of the selected todo:
      the other todos, the other fields of that todo and the selection stay. */
  lemma NotesKeyFrame(s: State, k: Option<char>)
    requires Valid(s) && s.tab == NotesTab
    ensures var s1 := NotesKey(s, k); var topic := CurrentTopic(s); var j := s.todoIndex;
      s1.topics == s.topics && s1.topicIndex == s.topicIndex && s1.todoIndex == j
      && s1.todos.Keys == s.todos.Keys && topic in s.todos
      && (forall t :: t in s.todos && t != topic ==> s1.todos[t] == s.todos[t])
      && |s1.todos[topic]| == |s.todos[topic]|
      && (forall i :: 0 <= i < |s.todos[topic]| && i != j ==> s1.todos[topic][i] == s.todos[topic][i])
      && s1.todos[topic][j] == s.todos[topic][j].(notes := s1.todos[topic][j].notes)
  {
    var e1 := NotesKeyEdits(s, k);
    StoreEditFrame(s, e1);
  }

  /** A notes key either leaves the todos alone or stores some edit of the
      notes; it never moves the selection. */
  lemma NotesKeyEdits(s: State, k: Option<char>) returns (e1: NotesEditor.Editor)
    requires Valid(s) && s.tab == NotesTab
    ensures var s1 := NotesKey(s, k);
      (s1.todos == s.todos || s1.todos == StoreEdit(s, e1).todos)
      && s1.topics == s.topics && s1.topicIndex == s.topicIndex && s1.todoIndex == s.todoIndex
  {
    var e := EditorOf(s);
    e1 := e;
    if k.Some? {
      var c := k.value;
      if c == '\U{1B}' || c == '\U{03}' {
      } else if c == '\U{18}' {
        e1 := NotesEditor.Cut(e);
      } else if c == '\U{16}' {
        e1 := NotesEditor.Paste(e);
      } else if c == '\r' {
        e1 := NotesEditor.Newline(e);
      } else if c == '\U{08}' || c == '\U{7F}' {
        e1 := NotesEditor.Backspace(e);
      } else if c != 'v' && ' ' <= c <= '~' {
        e1 := NotesEditor.InsertChar(e, c);
      }
    }
  }

  /** Storing an edit changes only the notes of the selected todo. */
  lemma StoreEditFrame(s: State, e: NotesEditor.Editor)
    requires Valid(s) && s.tab == NotesTab
    ensures var s1 := StoreEdit(s, e); var topic := CurrentTopic(s); var j := s.todoIndex;
      s1.topics == s.topics && s1.topicIndex == s.topicIndex && s1.todoIndex == j
      && s1.todos.Keys == s.todos.Keys && topic in s.todos
      && (forall t :: t in s.todos && t != topic ==> s1.todos[t] == s.todos[t])
      && |s1.todos[topic]| == |s.todos[topic]|
      && (forall i :: 0 <= i < |s.todos[topic]| && i != j ==> s1.todos[topic][i] == s.todos[topic][i])
      && s1.todos[topic][j] == s.todos[topic][j].(notes := e.text)
  {
  }

  /** Typing a printable character in the notes and then Backspace gives the
      state back, when there is no selection and the caret is inside the text. */
  lemma NotesTypeThenBackspace(s: State, c: char)
    requires Valid(s) && s.tab == NotesTab && s.anchor.None? && NotesEditor.InBounds(EditorOf(s))
    requires ' ' <= c <= '~' && c != 'v'
    ensures var s1 := NotesKey(s, Some(c));
      Valid(s1) && s1.tab == NotesTab && NotesKey(s1, Some('\U{7F}')) == s
  {
    var e := EditorOf(s);
    NotesEditor.InsertThenBackspace(e, c);
    var e1 := NotesEditor.InsertChar(e, c);
    var topic, j := CurrentTopic(s), s.todoIndex;
    var list := s.todos[topic];
    var s1 := NotesKey(s, Some(c));
    assert s1 == StoreEdit(s, e1);
    assert s1.todos[topic] == list[j := list[j].(notes := e1.text)];
    assert EditorOf(s1) == e1;
    assert NotesKey(s1, Some('\U{7F}')) == StoreEdit(s1, e);
    assert list[j := list[j].(notes := e1.text)][j := list[j].(notes := e.text)] == list;
    assert s.todos[topic := list] == s.todos;
  }
}
