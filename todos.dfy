/** The todo record of Todo.py and deadline_status (Todo.py:339-355). */
module Todos {
  import opened Base

  /** PRIORITIES (Todo.py:17): index 0 is the highest. */
  const PRIORITIES: seq<string> := ["High", "Medium", "Low", "None"]

  /** The priority a todo gets when none is given or the input is invalid. */
  const DEFAULT_PRIORITY: int := |PRIORITIES| - 1

  /** One todo. `deadline` is None or the stripped text the user typed, which
      passed the DD-MM-YYYY check; `createdAt` is "DD-MM-YYYY HH:MM:SS". A
      priority read back from a file can be any integer. */
  datatype Todo = Todo(name: string, priority: int, completed: bool, createdAt: string,
                       deadline: Option<string>, notes: string)

  /** `todo.get('deadline') or ""`. */
  function DeadlineText(t: Todo): string
  {
    if t.deadline.Some? then t.deadline.value else ""
  }

  /** A calendar date, ordered by year, then month, then day. */
  datatype Date = Date(year: int, month: int, day: int)

  predicate DateLess(a: Date, b: Date)
  {
    a.year < b.year || (a.year == b.year && (a.month < b.month || (a.month == b.month && a.day < b.day)))
  }

  datatype DeadlineState = Ok | DueToday | Past

  /** deadline_status: empty or unreadable deadlines are Ok. `parse` stands
      for `strptime(s, "%d-%m-%Y")` and `today` for the clock. */
  function DeadlineStatus(s: string, parse: string -> Option<Date>, today: Date): DeadlineState
  {
    if s == [] then Ok
    else match parse(s)
      case None => Ok
      case Some(d) => if DateLess(d, today) then Past else if d == today then DueToday else Ok
  }

  /** The date order is a strict total order. */
  lemma DateOrder(a: Date, b: Date, c: Date)
    ensures !DateLess(a, a)
    ensures DateLess(a, b) && DateLess(b, c) ==> DateLess(a, c)
    ensures a == b || DateLess(a, b) || DateLess(b, a)
  {
  }

  /** A deadline is Ok exactly when it is empty, unreadable, or later than
      today; so exactly one of the three states applies. */
  lemma DeadlineStatusOkIff(s: string, parse: string -> Option<Date>, today: Date)
    ensures DeadlineStatus(s, parse, today) == Ok <==>
      s == [] || parse(s).None? || DateLess(today, parse(s).value)
    ensures DeadlineStatus(s, parse, today) == Past <==>
      s != [] && parse(s).Some? && DateLess(parse(s).value, today)
  {
    if s != [] && parse(s).Some? {
      DateOrder(parse(s).value, today, today);
    }
  }
}
