/** app_state (Todo.py:66-91) as an object that the lifecycle functions and
    handle_input update in place. Every method is proved to leave the object
    in the state the matching function of AppModel or Dispatch computes, so
    the lemmas proved there hold of the object. */
module TodoApp {
  import opened Base
  import opened Todos
  import opened AppModel
  import SortProjection
  import NotesEditor
  import Dispatch

  /** app_state is one dictionary that the program writes entry by entry;
      App holds it as the record `state` and each method overwrites its
      entries one statement at a time, in the order the source does. */
  class App {
    var state: State

    constructor()
      ensures state == INIT && Valid(state)
    {
      state := INIT;
    }

    // -------------------------------------------------------------------------
    // Lifecycle (Todo.py:413-515)

    method CreateTopic(name: string)
      modifies this
      ensures state == AppModel.CreateTopic(old(state), name)
    {
      state := state.(topics := state.topics + [name]);
      state := state.(topicIndex := |state.topics| - 1);
      state := state.(lastTopicIndex := state.topicIndex);
      state := state.(tab := TopicsTab);
      state := state.(navMode := false);
      state := state.(inputMode := false);
      state := state.(callback := None);
    }

    method DeleteTopic(index: int)
      modifies this
      ensures state == AppModel.DeleteTopic(old(state), index)
    {
      if 0 <= index < |state.topics| {
        var topic := state.topics[index];
        state := state.(topics := RemoveAt(state.topics, index));
        if topic in state.todos {
          state := state.(todos := state.todos - {topic});
        } else {
          assert state.todos - {topic} == state.todos;
        }
        state := state.(topicIndex := Min(index, Max(0, |state.topics| - 1)));
        state := state.(lastTopicIndex := state.topicIndex);
      }
    }

    method CreateTodo(name: string)
      modifies this
      ensures state == AppModel.CreateTodo(old(state), name)
    {
      state := state.(multiStep := state.multiStep.(name := Some(name)));
      state := state.(inputMode := true);
      state := state.(inputPrompt := PRIORITY_PROMPT);
      state := state.(callback := Some(PriorityStep));
    }

    method TodoPriorityStep(input: string)
      modifies this
      ensures state == AppModel.PriorityStepOf(old(state), input)
    {
      var priorityIndex: int;
      var parsed := ParseInt(input);
      if parsed.Some? {
        priorityIndex := parsed.value - 1;
        if !(0 <= priorityIndex < |PRIORITIES|) {
          priorityIndex := |PRIORITIES| - 1;
        }
      } else {
        priorityIndex := |PRIORITIES| - 1;
      }
      state := state.(multiStep := state.multiStep.(priority := Some(priorityIndex)));
      state := state.(inputMode := true);
      state := state.(inputPrompt := DEADLINE_PROMPT);
      state := state.(callback := Some(DeadlineStep));
    }

    /** The deadline answer of todo_deadline_step: "s" skips, a date that
        `isDate` accepts is kept stripped, anything else is no deadline. */
    static method ReadDeadline(input: string, isDate: string -> bool) returns (deadline: Option<string>)
      ensures deadline == DeadlineOf(input, isDate)
      ensures deadline.Some? ==> input != [] && !LowerIs(input, 's') && isDate(deadline.value)
    {
      deadline := None;
      if input != [] && LowerIs(input, 's') {
        deadline := None;
      } else if input != [] {
        if isDate(Strip(input)) {
          deadline := Some(Strip(input));
        }
      }
    }

    /** Appends `todo` to the list of `topic`, creating the list when the
        topic has none, and selects the new last row. */
    method AppendTodo(topic: string, todo: Todo)
      modifies this
      ensures var list := TodosOf(old(state), topic) + [todo];
        state == old(state).(todos := old(state).todos[topic := list], todoIndex := |list| - 1)
    {
      ghost var s0 := state;
      ghost var list := TodosOf(s0, topic) + [todo];
      if topic !in state.todos {
        state := state.(todos := state.todos[topic := []]);
        MapUpdateTwice(s0.todos, topic, [], list);
      }
      state := state.(todos := state.todos[topic := state.todos[topic] + [todo]]);
      state := state.(todoIndex := |state.todos[topic]| - 1);
    }

    /** The IndexError of `topics[topic_index]` returns before any field has
        changed; the caller swallows it. */
    method TodoDeadlineStep(input: string, now: string, isDate: string -> bool)
      modifies this
      ensures state == AppModel.DeadlineStepOf(old(state), input, now, isDate)
    {
      var name := if state.multiStep.name.Some? then state.multiStep.name.value else "";
      var priorityIndex := if state.multiStep.priority.Some? then state.multiStep.priority.value else |PRIORITIES| - 1;
      var deadline := ReadDeadline(input, isDate);
      if name != [] && state.topics != [] {
        if !PyValid(|state.topics|, state.topicIndex) {
          return;
        }
        var currentTopic := state.topics[PyNorm(|state.topics|, state.topicIndex)];
        AppendTodo(currentTopic, Todo(name, priorityIndex, false, now, deadline, ""));
      }
      state := state.(multiStep := MultiStep(None, None), inputMode := false, navMode := false, tab := TodosTab);
    }

    method DeleteTodo(ti: int, tj: int)
      modifies this
      ensures state == AppModel.DeleteTodo(old(state), ti, tj)
    {
      if ti < |state.topics| && PyValid(|state.topics|, ti) {
        var topic := state.topics[PyNorm(|state.topics|, ti)];
        if topic in state.todos && tj < |state.todos[topic]| && PyValid(|state.todos[topic]|, tj) {
          state := state.(todos := state.todos[topic := RemoveAt(state.todos[topic], PyNorm(|state.todos[topic]|, tj))]);
          state := state.(todoIndex := Min(tj, Max(0, |state.todos[topic]| - 1)));
        }
      }
    }

    method ToggleTodo(ti: int, tj: int)
      modifies this
      ensures state == AppModel.ToggleTodo(old(state), ti, tj)
    {
      if ti < |state.topics| && PyValid(|state.topics|, ti) {
        var topic := state.topics[PyNorm(|state.topics|, ti)];
        if topic in state.todos && tj < |state.todos[topic]| && PyValid(|state.todos[topic]|, tj) {
          var list := state.todos[topic];
          var k := PyNorm(|list|, tj);
          state := state.(todos := state.todos[topic := list[k := list[k].(completed := !list[k].completed)]]);
        }
      }
    }

    method RunCallback(cb: Continuation, input: string, now: string, isDate: string -> bool)
      modifies this
      ensures state == RunContinuation(old(state), cb, input, now, isDate)
    {
      match cb
      case NewTopic => CreateTopic(input);
      case NewTodo => CreateTodo(input);
      case PriorityStep => TodoPriorityStep(input);
      case DeadlineStep => TodoDeadlineStep(input, now, isDate);
      case ConfirmDeleteTopic =>
        if LowerIs(input, 'y') {
          DeleteTopic(state.topicIndex);
        }
      case ConfirmDeleteTodo(j) =>
        if LowerIs(input, 'y') {
          DeleteTodo(state.topicIndex, j);
        }
    }

    // -------------------------------------------------------------------------
    // handle_input (Todo.py:928-1242)

    method InputKey(key: byte, now: string, isDate: string -> bool)
      modifies this
      ensures state == Dispatch.InputKey(old(state), key, now, isDate)
    {
      if key == Dispatch.ENTER {
        var buffer := state.inputBuffer;
        var cb := state.callback;
        state := state.(inputBuffer := "");
        state := state.(inputMode := false);
        if cb.Some? {
          RunCallback(cb.value, buffer, now, isDate);
        }
        if !state.inputMode {
          state := state.(callback := None);
        }
      } else if key == Dispatch.ESCAPE {
        state := state.(inputMode := false);
        state := state.(inputBuffer := "");
        state := state.(callback := None);
      } else if key == Dispatch.BACKSPACE {
        state := state.(inputBuffer := Prefix(state.inputBuffer, -1));
      } else if key < 128 {
        state := state.(inputBuffer := state.inputBuffer + [key as char]);
      }
    }

    /** The todos-tab selection move, through the display order. */
    method MoveTodo(m: Dispatch.Move)
      requires Valid(state) && state.topics != []
      modifies this
      ensures state == Dispatch.TodoMove(old(state), m)
    {
      var currentTopic := state.topics[state.topicIndex];
      var list := TodosOf(state, currentTopic);
      if list != [] {
        var ordered := SortProjection.DisplayOrder(state.sortMode, list);
        var pos: int := Dispatch.PosOf(ordered, state.todoIndex);
        var newpos: int;
        match m {
          case Up => newpos := Max(0, pos - 1);
          case Down => newpos := Min(|ordered| - 1, pos + 1);
          case Stay => newpos := pos;
        }
        state := state.(todoIndex := ordered[newpos]);
      }
    }

    method MoveTopic(m: Dispatch.Move)
      modifies this
      ensures state == Dispatch.TopicMove(old(state), m)
    {
      match m {
        case Up => state := state.(topicIndex := Max(0, state.topicIndex - 1));
        case Down => state := state.(topicIndex := Min(|state.topics| - 1, state.topicIndex + 1));
        case Stay =>
      }
      state := state.(lastTopicIndex := state.topicIndex);
    }

    method ExtendedKey(next: byte, notesWidth: int)
      requires Valid(state) && !state.inputMode && notesWidth >= 1
      modifies this
      ensures state == Dispatch.ExtendedKey(old(state), next, notesWidth)
    {
      if state.navMode {
        if next == Dispatch.ARROW_UP || next == Dispatch.ARROW_DOWN {
          if state.tab == TopicsTab {
            state := state.(tab := TodosTab);
            state := state.(todoIndex := 0);
          } else if state.tab == TodosTab {
            state := state.(tab := TopicsTab);
            state := state.(topicIndex := 0);
          }
        }
      } else if state.tab == TopicsTab {
        MoveTopic(Dispatch.ArrowMove(next));
      } else if state.tab == TodosTab {
        if state.topics != [] {
          MoveTodo(Dispatch.ArrowMove(next));
        }
      } else {
        var e := Dispatch.EditorOf(state);
        if next == Dispatch.ARROW_UP {
          state := state.(notesCursor := NotesEditor.Up(e, notesWidth).cursor);
        } else if next == Dispatch.ARROW_DOWN {
          state := state.(notesCursor := NotesEditor.Down(e, notesWidth).cursor);
        } else if next == Dispatch.ARROW_LEFT {
          state := state.(notesCursor := Max(0, state.notesCursor - 1));
        } else if next == Dispatch.ARROW_RIGHT {
          state := state.(notesCursor := Min(|e.text|, state.notesCursor + 1));
        }
      }
    }

    /** `todo["notes"] = text` on the selected todo. */
    method SetNotes(text: string)
      requires Valid(state) && state.tab == NotesTab
      modifies this
      ensures state == old(state).(todos := Dispatch.StoreEdit(old(state), NotesEditor.Editor(text, 0, None, "")).todos)
    {
      var topic := state.topics[state.topicIndex];
      var list := state.todos[topic];
      state := state.(todos := state.todos[topic := list[state.todoIndex := list[state.todoIndex].(notes := text)]]);
    }

    method NotesKey(k: Option<char>)
      requires Valid(state) && state.tab == NotesTab
      modifies this
      ensures state == Dispatch.NotesKey(old(state), k)
    {
      var raw := Dispatch.EditorOf(state).text;
      var cur := state.notesCursor;
      if k.None? {
        return;
      }
      var key := k.value;
      if key == '\U{1B}' {
        state := state.(tab := TodosTab);
        state := state.(navMode := false);
        state := state.(anchor := None);
      } else if key == '\U{03}' {
        if state.anchor.None? {
          state := state.(clipboard := raw);
          state := state.(statusMsg := "Copied all notes");
        } else {
          var a, b := Min(state.anchor.value, cur), Max(state.anchor.value, cur);
          state := state.(clipboard := Slice(raw, a, b));
          state := state.(statusMsg := "Copied selection");
        }
      } else if key == '\U{18}' {
        if state.anchor.Some? {
          var a, b := Min(state.anchor.value, cur), Max(state.anchor.value, cur);
          state := state.(clipboard := Slice(raw, a, b));
          SetNotes(Prefix(raw, a) + Suffix(raw, b));
          state := state.(anchor := None);
          state := state.(notesCursor := a);
          state := state.(statusMsg := "Cut selection");
        }
      } else if key == '\U{16}' {
        if state.clipboard != [] {
          SetNotes(Prefix(raw, cur) + state.clipboard + Suffix(raw, cur));
          state := state.(notesCursor := cur + |state.clipboard|);
        } else {
          Dispatch.StoreUnchanged(state);
        }
      } else if key == '\r' {
        SetNotes(Prefix(raw, cur) + "\n" + Suffix(raw, cur));
        state := state.(notesCursor := cur + 1);
      } else if key == '\U{08}' || key == '\U{7F}' {
        if state.anchor.Some? {
          var a, b := Min(state.anchor.value, cur), Max(state.anchor.value, cur);
          SetNotes(Prefix(raw, a) + Suffix(raw, b));
          state := state.(notesCursor := a);
          state := state.(anchor := None);
        } else if cur > 0 {
          SetNotes(Prefix(raw, cur - 1) + Suffix(raw, cur));
          state := state.(notesCursor := cur - 1);
        } else {
          Dispatch.StoreUnchanged(state);
        }
      } else if key == 'v' {
        state := state.(anchor := if state.anchor.None? then Some(cur) else None);
      } else if ' ' <= key <= '~' {
        SetNotes(Prefix(raw, cur) + [key] + Suffix(raw, cur));
        state := state.(notesCursor := cur + 1);
        state := state.(anchor := None);
      }
    }

    method CommandKey(k: Option<char>) returns (effect: Dispatch.Effect)
      requires Valid(state) && !state.inputMode && !(state.tab == NotesTab && !state.navMode)
      modifies this
      ensures (state, effect) == Dispatch.CommandKey(old(state), k)
    {
      effect := Dispatch.Continue;
      if k.None? {
        return;
      }
      var key := k.value;
      if key == 'S' {
        effect := Dispatch.Save;
      } else if key == 's' && !state.navMode && state.tab == TodosTab && state.topics != [] {
        state := state.(sortMode := Dispatch.NextSortMode(state.sortMode));
      } else if key == '\r' {
        if state.navMode {
          state := state.(navMode := false);
        } else if state.tab == TopicsTab {
          state := state.(tab := TodosTab);
        } else if state.topics != [] {
          var list := TodosOf(state, state.topics[state.topicIndex]);
          if list == [] {
            state := state.(statusMsg := "No todos in topic");
          } else if state.todoIndex >= |list| {
            effect := Dispatch.Fault;
          } else {
            state := state.(notesCursor := |list[state.todoIndex].notes|);
            state := state.(tab := NotesTab);
            state := state.(navMode := false);
          }
        }
      } else if key == '\U{1B}' {
        state := state.(navMode := true);
      } else if key == 'q' {
        effect := Dispatch.Quit;
      } else if key == 'n' {
        if state.tab == TopicsTab {
          state := state.(inputMode := true, inputPrompt := "Enter new topic name: ", callback := Some(NewTopic));
        } else if state.tab == TodosTab && state.topics != [] {
          state := state.(inputMode := true, inputPrompt := "Enter todo name: ", callback := Some(NewTodo));
        }
      } else if key == 'd' {
        if state.tab == TopicsTab && state.topics != [] {
          state := state.(inputMode := true);
          state := state.(inputPrompt := "Delete topic '" + state.topics[state.topicIndex] + "' (y/n)? ");
          state := state.(callback := Some(ConfirmDeleteTopic));
        } else if state.tab == TodosTab && state.topics != [] {
          var currentTopic := state.topics[state.topicIndex];
          if currentTopic in state.todos && state.todos[currentTopic] != [] && state.todoIndex < |state.todos[currentTopic]| {
            state := state.(inputMode := true);
            state := state.(inputPrompt := "Delete todo '" + state.todos[currentTopic][state.todoIndex].name + "' (y/n)? ");
            state := state.(callback := Some(ConfirmDeleteTodo(state.todoIndex)));
          }
        }
      } else if key == ' ' && state.tab == TodosTab && state.topics != [] {
        var currentTopic := state.topics[state.topicIndex];
        if currentTopic in state.todos && state.todos[currentTopic] != [] && state.todoIndex < |state.todos[currentTopic]| {
          ToggleTodo(state.topicIndex, state.todoIndex);
        }
      } else if !state.navMode {
        if state.tab == TopicsTab {
          if key == 'k' {
            MoveTopic(Dispatch.Up);
          } else if key == 'j' {
            MoveTopic(Dispatch.Down);
          }
        } else if (key == 'j' || key == 'k') && state.topics != [] {
          MoveTodo(if key == 'k' then Dispatch.Up else Dispatch.Down);
        }
      } else if key == 'j' || key == 'k' {
        if state.tab == TopicsTab {
          state := state.(tab := TodosTab);
        } else if state.tab == TodosTab {
          state := state.(tab := TopicsTab);
        }
      }
    }

    /** One handle_input call; the result says whether the program goes on,
        saves, quits or raises. The object stays Valid. */
    method HandleInput(key: byte, next: byte, notesWidth: int, now: string, isDate: string -> bool)
      returns (effect: Dispatch.Effect)
      requires Valid(state) && notesWidth >= 1
      modifies this
      ensures (state, effect) == Dispatch.HandleInput(old(state), key, next, notesWidth, now, isDate)
      ensures Valid(state)
    {
      Dispatch.HandleInputValid(state, key, next, notesWidth, now, isDate);
      effect := Dispatch.Continue;
      if state.inputMode {
        InputKey(key, now, isDate);
      } else if key == Dispatch.EXTENDED {
        ExtendedKey(next, notesWidth);
      } else if !state.navMode && state.tab == NotesTab {
        NotesKey(Dispatch.Decode(key));
      } else {
        effect := CommandKey(Dispatch.Decode(key));
      }
    }
  }
}
