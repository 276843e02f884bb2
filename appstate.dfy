/** The state of the application (`app_state`, Todo.py:66-91) as a value, and
    the topic and todo lifecycle operations of Todo.py:413-515 as functions of
    it. The class TodoApp.App updates the same state in place; these functions
    are its specification. */
module AppModel {
  import opened Base
  import opened Todos
  import SortProjection

  datatype Tab = TopicsTab | TodosTab | NotesTab

  /** The prompt callbacks, as a closed set: `create_topic`, `create_todo`,
      `todo_priority_step`, `todo_deadline_step` and the two delete
      confirmations; the todo one keeps the todo index it was made with. */
  datatype Continuation = NewTopic | NewTodo | PriorityStep | DeadlineStep
                        | ConfirmDeleteTopic | ConfirmDeleteTodo(todoIndex: int)

  /** `multi_step_data` of the three-step todo prompt. */
  datatype MultiStep = MultiStep(name: Option<string>, priority: Option<int>)

  /** The fields of app_state that the program reads. The caret blink and the
      expiry time of the status message depend on the clock and are left out. */
  datatype State = State(
    tab: Tab, navMode: bool,
    topics: seq<string>, todos: map<string, seq<Todo>>,
    topicIndex: int, todoIndex: int, lastTopicIndex: int,
    inputMode: bool, inputPrompt: string, inputBuffer: string, callback: Option<Continuation>,
    multiStep: MultiStep, sortMode: SortProjection.SortMode, statusMsg: string,
    notesCursor: int, anchor: Option<int>, clipboard: string)

  /** app_state as the program starts, before any file is loaded. */
  const INIT: State := State(TopicsTab, true, [], map[], 0, 0, 0, false, "", "", None,
                             MultiStep(None, None), SortProjection.ByPriority, "", 0, None, "")

  /** `app_state["todos"].get(topic, [])`. */
  function TodosOf(s: State, topic: string): seq<Todo>
  {
    if topic in s.todos then s.todos[topic] else []
  }

  /** What every reachable state satisfies: the topic index is a valid
      position (or 0 or -1 with no topics), the todo index is never negative
      (it may be past the end of the current topic's list), and the notes tab
      is only open on an existing todo, in focus mode and outside a prompt. */
  ghost predicate Valid(s: State)
  {
    (s.topics == [] ==> s.topicIndex == 0 || s.topicIndex == -1)
    && (s.topics != [] ==> 0 <= s.topicIndex < |s.topics|)
    && s.todoIndex >= 0
    && (s.callback.Some? && s.callback.value.ConfirmDeleteTodo? ==> s.callback.value.todoIndex >= 0)
    && (s.tab == NotesTab ==>
          !s.navMode && !s.inputMode && s.topics != []
          && s.todoIndex < |TodosOf(s, s.topics[s.topicIndex])|)
  }

  lemma InitValid()
    ensures Valid(INIT)
  {
  }

  // ---------------------------------------------------------------------------
  // Python's text helpers, on the ASCII text a prompt can hold

  /** Characters `str.strip()` removes from ASCII text. */
  predicate IsSpace(c: char)
  {
    c == ' ' || ('\t' <= c <= '\r') || ('\U{1C}' <= c <= '\U{1F}')
  }

  /** `lstrip()`: drops exactly the leading blanks (StripLeftFacts). */
  function StripLeft(s: string): (r: string)
    ensures |r| <= |s| && (r != [] ==> !IsSpace(r[0]))
  {
    if s != [] && IsSpace(s[0]) then StripLeft(s[1..]) else s
  }

  /** What lstrip() leaves is a suffix of the input that does not start with
      a blank, and every character it drops is a blank. */
  lemma {:induction false} StripLeftFacts(s: string)
    ensures var r := StripLeft(s);
      |r| <= |s| && r == s[|s| - |r|..]
      && (forall i :: 0 <= i < |s| - |r| ==> IsSpace(s[i]))
      && (r != [] ==> !IsSpace(r[0]))
    decreases |s|
  {
    if s != [] && IsSpace(s[0]) {
      StripLeftFacts(s[1..]);
      var r := StripLeft(s);
      forall i | 0 <= i < |s| - |r| ensures IsSpace(s[i]) {
        if i > 0 { assert s[i] == s[1..][i - 1]; }
      }
    }
  }

  /** `rstrip()`: drops exactly the trailing blanks (StripRightFacts). */
  function StripRight(s: string): (r: string)
    ensures |r| <= |s| && (r != [] ==> !IsSpace(r[|r| - 1]))
  {
    if s != [] && IsSpace(s[|s| - 1]) then StripRight(s[..|s| - 1]) else s
  }

  /** What rstrip() leaves is a prefix of the input that does not end with a
      blank, and every character it drops is a blank. */
  lemma {:induction false} StripRightFacts(s: string)
    ensures var r := StripRight(s);
      |r| <= |s| && r == s[..|r|]
      && (forall i :: |r| <= i < |s| ==> IsSpace(s[i]))
      && (r != [] ==> !IsSpace(r[|r| - 1]))
    decreases |s|
  {
    if s != [] && IsSpace(s[|s| - 1]) {
      var t := s[..|s| - 1];
      StripRightFacts(t);
      var r := StripRight(s);
      assert r == StripRight(t);
      assert r == s[..|r|] by { assert t[..|r|] == s[..|r|]; }
      forall i | |r| <= i < |s| ensures IsSpace(s[i]) {
        if i < |s| - 1 { assert s[i] == t[i]; }
      }
    }
  }

  /** `str.strip()`. */
  function Strip(s: string): string
  {
    StripRight(StripLeft(s))
  }

  predicate IsDigit(c: char)
  {
    '0' <= c <= '9'
  }

  /** Decimal value of a string of digits and single underscores. */
  function DigitsValue(s: string): int
  {
    if s == [] then 0
    else if s[|s| - 1] == '_' then DigitsValue(s[..|s| - 1])
    else DigitsValue(s[..|s| - 1]) * 10 + (s[|s| - 1] as int - '0' as int)
  }

  /** The digits part that `int()` accepts: digits, with single underscores
      only between two digits. */
  predicate DigitsForm(s: string)
  {
    s != [] && IsDigit(s[0]) && IsDigit(s[|s| - 1])
    && (forall i :: 0 <= i < |s| ==> IsDigit(s[i]) || s[i] == '_')
    && (forall i :: 0 <= i < |s| - 1 ==> s[i] == '_' ==> s[i + 1] != '_')
  }

  /** Python `int(s)` on ASCII text, None where it raises ValueError. */
  function ParseInt(s: string): Option<int>
  {
    var t := Strip(s);
    if t != [] && (t[0] == '+' || t[0] == '-') then
      (if DigitsForm(t[1..]) then Some(if t[0] == '-' then -DigitsValue(t[1..]) else DigitsValue(t[1..])) else None)
    else if DigitsForm(t) then Some(DigitsValue(t))
    else None
  }

  /** `x.lower() == c` for a lower-case ASCII letter `c`. */
  predicate LowerIs(x: string, c: char)
    requires 'a' <= c <= 'z'
  {
    x == [c] || x == [(c as int - 32) as char]
  }

  // ---------------------------------------------------------------------------
  // Lifecycle (Todo.py:413-515)

  /** create_topic: appends the name, selects it, and ends the prompt in topics focus. */
  function CreateTopic(s: State, name: string): State
  {
    var ts := s.topics + [name];
    s.(topics := ts, topicIndex := |ts| - 1, lastTopicIndex := |ts| - 1, tab := TopicsTab,
       navMode := false, inputMode := false, callback := None)
  }

  /** Python `list.pop(i)`'s remainder. */
  function RemoveAt<T>(xs: seq<T>, i: nat): (r: seq<T>)
    requires i < |xs|
    ensures |r| == |xs| - 1
    ensures forall k :: 0 <= k < |r| ==> r[k] == if k < i then xs[k] else xs[k + 1]
  {
    xs[..i] + xs[i + 1..]
  }

  /** delete_topic: out-of-range indices do nothing; otherwise the topic and
      the todos filed under its name go, and the selection is clamped. */
  function DeleteTopic(s: State, index: int): State
  {
    if 0 <= index < |s.topics| then
      var topic := s.topics[index];
      var ts := RemoveAt(s.topics, index);
      var sel := Min(index, Max(0, |ts| - 1));
      s.(topics := ts, todos := s.todos - {topic}, topicIndex := sel, lastTopicIndex := sel)
    else s
  }

  const PRIORITY_PROMPT: string := "Priority? (1=High,2=Medium,3=Low,4=None): "
  const DEADLINE_PROMPT: string := "Deadline? (DD-MM-YYYY) or press 's' to skip: "

  /** create_todo: step 1, keeps the name and asks for the priority. */
  function CreateTodo(s: State, name: string): State
  {
    s.(multiStep := s.multiStep.(name := Some(name)), inputMode := true,
       inputPrompt := PRIORITY_PROMPT, callback := Some(PriorityStep))
  }

  /** The priority index of todo_priority_step: `int(input) - 1` when that is
      0 to 3, and 3 ("None") otherwise or when `int` fails. */
  function PriorityOf(input: string): int
  {
    match ParseInt(input)
    case Some(v) => if 0 <= v - 1 < |PRIORITIES| then v - 1 else DEFAULT_PRIORITY
    case None => DEFAULT_PRIORITY
  }

  /** todo_priority_step: step 2, keeps the priority and asks for the deadline. */
  function PriorityStepOf(s: State, input: string): State
  {
    s.(multiStep := s.multiStep.(priority := Some(PriorityOf(input))), inputMode := true,
       inputPrompt := DEADLINE_PROMPT, callback := Some(DeadlineStep))
  }

  /** The deadline of todo_deadline_step: none for "s" or "S" or empty input,
      the stripped input if `isDate` accepts it, none otherwise. `isDate`
      stands for `time.strptime(_, "%d-%m-%Y")` succeeding. */
  function DeadlineOf(input: string, isDate: string -> bool): Option<string>
  {
    if input == [] || LowerIs(input, 's') then None
    else if isDate(Strip(input)) then Some(Strip(input))
    else None
  }

  /** todo_deadline_step: step 3. With a name and a topic the todo is appended to
      the current topic's list and selected; in every case the step data is
      cleared and the prompt ends in todos focus. `now` is the creation time
      text. A topic index Python cannot use raises IndexError, which the prompt
      swallows: the state is then left as it was. */
  function DeadlineStepOf(s: State, input: string, now: string, isDate: string -> bool): State
  {
    var name := if s.multiStep.name.Some? then s.multiStep.name.value else "";
    var priority := if s.multiStep.priority.Some? then s.multiStep.priority.value else DEFAULT_PRIORITY;
    var deadline := DeadlineOf(input, isDate);
    if name != [] && s.topics != [] && !PyValid(|s.topics|, s.topicIndex) then s
    else
      var s1 :=
        if name != [] && s.topics != [] then
          var topic := s.topics[PyNorm(|s.topics|, s.topicIndex)];
          var list := TodosOf(s, topic) + [Todo(name, priority, false, now, deadline, "")];
          s.(todos := s.todos[topic := list], todoIndex := |list| - 1)
        else s;
      s1.(multiStep := MultiStep(None, None), inputMode := false, navMode := false, tab := TodosTab)
  }

  /** delete_todo: only when the topic index passes `< len(topics)` and the
      todo index passes `< len(list)`; Python then indexes (negative values
      count from the end) and the todo selection is clamped. Where Python
      would raise IndexError, nothing changes. */
  function DeleteTodo(s: State, topicIndex: int, todoIndex: int): State
  {
    if topicIndex < |s.topics| && PyValid(|s.topics|, topicIndex) then
      var topic := s.topics[PyNorm(|s.topics|, topicIndex)];
      if topic in s.todos && todoIndex < |s.todos[topic]| && PyValid(|s.todos[topic]|, todoIndex) then
        var list := RemoveAt(s.todos[topic], PyNorm(|s.todos[topic]|, todoIndex));
        s.(todos := s.todos[topic := list], todoIndex := Min(todoIndex, Max(0, |list| - 1)))
      else s
    else s
  }

  /** toggle_todo: flips `completed` of that todo, under the same checks. */
  function ToggleTodo(s: State, topicIndex: int, todoIndex: int): State
  {
    if topicIndex < |s.topics| && PyValid(|s.topics|, topicIndex) then
      var topic := s.topics[PyNorm(|s.topics|, topicIndex)];
      if topic in s.todos && todoIndex < |s.todos[topic]| && PyValid(|s.todos[topic]|, todoIndex) then
        var list := s.todos[topic];
        var k := PyNorm(|list|, todoIndex);
        s.(todos := s.todos[topic := list[k := list[k].(completed := !list[k].completed)]])
      else s
    else s
  }

  /** Runs a prompt callback on the entered text. */
  function RunContinuation(s: State, cb: Continuation, input: string, now: string, isDate: string -> bool): State
  {
    match cb
    case NewTopic => CreateTopic(s, input)
    case NewTodo => CreateTodo(s, input)
    case PriorityStep => PriorityStepOf(s, input)
    case DeadlineStep => DeadlineStepOf(s, input, now, isDate)
    case ConfirmDeleteTopic => if LowerIs(input, 'y') then DeleteTopic(s, s.topicIndex) else s
    case ConfirmDeleteTodo(j) => if LowerIs(input, 'y') then DeleteTodo(s, s.topicIndex, j) else s
  }

  // ---------------------------------------------------------------------------
  // Properties

  /** The priority prompt maps "1" to "4" to indices 0 to 3; every answer
      gives an index of PRIORITIES. */
  lemma PriorityOfFacts(input: string, d: char)
    requires '1' <= d <= '4'
    ensures 0 <= PriorityOf(input) < |PRIORITIES|
    ensures PriorityOf([d]) == d as int - '1' as int
  {
    assert Strip([d]) == [d] by {
      assert StripLeft([d]) == [d];
      assert StripRight([d]) == [d];
    }
    assert [d][..0] == [];
    assert DigitsForm([d]);
    assert DigitsValue([d]) == d as int - '0' as int;
    assert ParseInt([d]) == Some(d as int - '0' as int);
  }

  /** `int` accepts padding, a sign and underscores, so the priority prompt
      does too: " +0_2 " selects Medium. Anything `int` rejects, such as "2a",
      selects None. */
  lemma PriorityOfPadded()
    ensures PriorityOf(" +0_2 ") == 1
    ensures PriorityOf("2a") == DEFAULT_PRIORITY
  {
    assert StripLeft(" +0_2 ") == "+0_2 ";
    assert StripRight("+0_2 ") == "+0_2";
    var t := "0_2";
    assert "+0_2"[1..] == t;
    assert DigitsForm(t);
    assert t[..2] == "0_" && "0_"[..1] == "0" && "0"[..0] == [];
    assert DigitsValue("0") == 0;
    assert DigitsValue("0_") == 0;
    assert DigitsValue(t) == 2;
    assert StripLeft("2a") == "2a" && StripRight("2a") == "2a";
    assert !IsDigit("2a"[1]);
  }

  /** delete_topic and delete_todo do nothing for indices out of range, and
      otherwise leave the selection on an existing entry (or 0). */
  lemma DeleteTopicFacts(s: State, index: int)
    ensures !(0 <= index < |s.topics|) ==> DeleteTopic(s, index) == s
    ensures 0 <= index < |s.topics| ==>
      var s1 := DeleteTopic(s, index);
      |s1.topics| == |s.topics| - 1 && s.topics[index] !in s1.todos
      && s1.topicIndex == Min(index, Max(0, |s1.topics| - 1))
      && (s1.topics != [] ==> 0 <= s1.topicIndex < |s1.topics|)
  {
  }

  /** Topics with the same name share one todo list: deleting one of them
      deletes the todos shown under the other. */
  lemma DeleteSharedTopic(s: State, i: int, j: int)
    requires 0 <= i < |s.topics| && 0 <= j < |s.topics| && i < j && s.topics[i] == s.topics[j]
    ensures var s1 := DeleteTopic(s, i);
      s1.topics[j - 1] == s.topics[j] && TodosOf(s1, s1.topics[j - 1]) == []
  {
  }

  lemma DeleteTodoFacts(s: State, ti: int, tj: int)
    requires 0 <= ti < |s.topics| && tj >= 0
    ensures var topic := s.topics[ti];
      !(topic in s.todos && tj < |s.todos[topic]|) ==> DeleteTodo(s, ti, tj) == s
    ensures var topic := s.topics[ti];
      topic in s.todos && tj < |s.todos[topic]| ==>
        var s1 := DeleteTodo(s, ti, tj);
        s1.todos[topic] == RemoveAt(s.todos[topic], tj)
        && s1.todoIndex == Min(tj, Max(0, |s.todos[topic]| - 2))
        && (s1.todos[topic] != [] ==> s1.todoIndex < |s1.todos[topic]|)
  {
  }

  /** toggle_todo flips the `completed` flag of exactly one existing todo and
      changes nothing else; with no such todo it changes nothing; toggling
      the same todo twice gives back the state. */
  lemma ToggleTodoFacts(s: State, ti: int, tj: int)
    requires 0 <= ti < |s.topics| && tj >= 0
    ensures var topic := s.topics[ti];
      !(topic in s.todos && tj < |s.todos[topic]|) ==> ToggleTodo(s, ti, tj) == s
    ensures var topic := s.topics[ti];
      topic in s.todos && tj < |s.todos[topic]| ==>
        var s1 := ToggleTodo(s, ti, tj);
        var list := s.todos[topic];
        s1 == s.(todos := s1.todos) && s1.todos.Keys == s.todos.Keys
        && (forall t :: t in s.todos && t != topic ==> s1.todos[t] == s.todos[t])
        && |s1.todos[topic]| == |list|
        && (forall k :: 0 <= k < |list| && k != tj ==> s1.todos[topic][k] == list[k])
        && s1.todos[topic][tj] == list[tj].(completed := !list[tj].completed)
    ensures ToggleTodo(ToggleTodo(s, ti, tj), ti, tj) == s
  {
    var topic := s.topics[ti];
    if topic in s.todos && tj < |s.todos[topic]| {
      var list := s.todos[topic];
      var s1 := ToggleTodo(s, ti, tj);
      assert s1.todos[topic] == list[tj := list[tj].(completed := !list[tj].completed)];
      assert s1.todos[topic][tj := list[tj]] == list;
      assert s1.todos[topic := list] == s.todos;
    }
  }

  /** The three prompt steps together: a name, then "2", then "s" append one
      todo with priority Medium, no deadline and empty notes to the current
      topic and select it. */
  lemma CreateTodoFlow(s: State, name: string, now: string, isDate: string -> bool)
    requires name != [] && s.topics != [] && 0 <= s.topicIndex < |s.topics|
    ensures var topic := s.topics[s.topicIndex];
      var s1 := DeadlineStepOf(PriorityStepOf(CreateTodo(s, name), "2"), "s", now, isDate);
      s1.todos[topic] == TodosOf(s, topic) + [Todo(name, 1, false, now, None, "")]
      && s1.todoIndex == |TodosOf(s, topic)|
      && s1.tab == TodosTab && !s1.navMode && !s1.inputMode && s1.multiStep == MultiStep(None, None)
  {
    PriorityOfFacts("2", '2');
  }

  /** todo_deadline_step always clears the step data and ends in todos focus,
      unless it raised (then nothing changed). */
  lemma DeadlineStepEnds(s: State, input: string, now: string, isDate: string -> bool)
    requires s.topics != [] ==> 0 <= s.topicIndex < |s.topics|
    ensures var s1 := DeadlineStepOf(s, input, now, isDate);
      s1.multiStep == MultiStep(None, None) && s1.tab == TodosTab && !s1.navMode && !s1.inputMode
  {
  }
}
