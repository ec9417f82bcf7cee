# To-do list API: the task table and its handlers, in Dafny

The repository is a small Flask service for a to-do list. It keeps one table,
`tasks`, whose rows have an id, a description, a completed flag, an optional
priority and an optional due date. Seven HTTP handlers sit over that table:
create, get by id, update by id, delete by id, list all, list completed and
list uncompleted. This project models the logic those handlers add on top of
the web framework and the ORM. Each handler becomes a pure transition from
(table, request) to (status code, new table). The request body is an
already-decoded JSON value.

Modules, one per concern of `todoapp/todo.py`:

- `Optional` (`optional.dfy`): the `Option` datatype, standing for Python's `None`.
- `Json` (`json.dfy`): the decoded request body `Value`, plus the Python
  semantics every field check relies on. `Truthy` is Python truthiness.
  `HasLen` says whether `len()` accepts a value. `Member` is `dict.get`:
  a missing key and an explicit `null` read the same.
- `Dates` (`dates.dfy`): the due-date format `%d-%m-%Y %H:%M:%S` in its
  zero-padded form, plus calendar validity as Python's `datetime` enforces
  it. `Format` prints that form, `Parse` reads it, and `FormatListAll` prints
  the list-all variant `%d-%m_%Y %H:%M:%S`.
- `Todo` (`todo.dfy`): the `Task` row, the table `Db`, the `Status` codes, and
  the create / get / update / delete handlers. It also holds the table
  invariant `Valid`: every row sits under its own id below the sequence's
  next value, every description is non-empty, and every priority is absent,
  `""` or one of `high`, `medium`, `low`.
- `Listings` (`listings.dfy`): `ORDER BY id` as a sort of the key set, the
  three listing handlers, and the completed/uncompleted filter.
- `Scenario` (`scenario.dfy`): one request sequence from an empty table,
  checked end to end.

The table is `Db(tasks: map<int, Task>, nextId: int)`. `nextId` stands for
the id column's sequence. It only grows, so a created task's id is provably
fresh. The initial table is `Todo.Empty()`.

In a few places the code behaves differently from what its error messages and column definitions suggest. The model follows the code:

- Create with a missing or `null` description, or with no body at all,
  answers 500, not 400. The debug `print(len(data.get('description')))` at
  `todoapp/todo.py:55` raises before the 400 can be returned. Only a
  description that is falsy and has a length (`""`, `[]`, `{}`) reaches
  the 400.
- A due date that is truthy but not a string answers 500, not 400.
  `strptime` raises `TypeError`, which the `except ValueError` does not catch.
- A falsy priority or due date (`0`, `false`, `""`, ...) is never the reason
  for a 400. A falsy due date is stored as no due date. A `null` priority is
  stored as none, and `""` is stored as given.
- The list-all handler prints due dates with an underscore between month and
  year. The model keeps that, and `FormatListAll` proves the input format
  cannot read such a date back.

## Model

| member | source | states |
|---|---|---|
| `Json.FalsyValues` | todoapp/todo.py:135-147 | A body value is falsy exactly when it is null, false, 0, "", [] or {}. These are the values every `if data.get(...)` test treats as absent. |
| `Dates.DaysInMonth` | todoapp/todo.py:63 | Months have 28 to 31 days. Exactly February of a leap year has 29. |
| `Dates.Format` | todoapp/todo.py:118 | The hyphen format prints 19 characters, and parsing them gives back the same date and time. |
| `Dates.FormatParse` | todoapp/todo.py:63 | Any string the parser accepts is exactly the hyphen formatter's output for the parsed value, so the padded form is canonical. |
| `Dates.Parse` | todoapp/todo.py:149 | A string that parses has the padded `DD-MM-YYYY HH:MM:SS` shape, and the result is a real calendar date and time. |
| `Dates.FormatListAll` | todoapp/todo.py:96 | The list-all format prints 19 characters with `_` at index 5, so the input format rejects its output. |
| `Todo.Serialize` | todoapp/todo.py:91-97 | The response row has the stored id, description and flag. Its priority is null exactly when the stored one is absent or `""`, and otherwise the stored one. Its due date is null exactly when none is stored. In the hyphen style the text is `Format` of the date and parses back to it. In the underscore style it is `FormatListAll` of the date and does not parse at all. |
| `Todo.Empty` | todoapp/todo.py:31 | The empty table, with the id sequence of the integer primary key at 1, satisfies the table invariant. |
| `Todo.Create` | todoapp/todo.py:49-80 | Only 201, 400 or 500. Anything but 201 leaves the table unchanged. The answer is 201 exactly when the body is an object whose description is a non-empty string, whose due date is falsy or a parseable string, and whose priority is null, `""` or an option. The answer is 400 exactly when the body is an object and one of three holds: the description is falsy but has a length, or it is truthy and the due date is an unparseable string, or it is truthy, the due date is acceptable and a truthy priority is not an option. Every other body gets 500. A missing or null description, or a non-object body, gives 500. An empty-string description gives 400. A truthy, unparseable due-date string gives 400 whatever the priority. With an acceptable due date, a truthy priority outside the options gives 400. A falsy due date or priority is never the reason for a 400. On 201 exactly one row is added, under the sequence's next id, which was not in the table. That row is uncompleted, whatever the body says. Its description, priority and parsed due date come from the body, and every other row is unchanged. The table invariant is preserved. |
| `Todo.Get` | todoapp/todo.py:106-122 | 200 exactly when the id is present, otherwise 404 with no task. The shown task has the stored id, description and flag. An absent or empty priority shows as null. The printed due date parses back to the stored one. |
| `Todo.UpdateError` | todoapp/todo.py:135-154 | A non-object body gives 500. A non-null, non-boolean `completed` gives 400. So does a truthy priority outside the options, and a due-date string that does not parse. Any of these refuses the whole body, whatever fields came before it. A 400 happens only for one of these three reasons. Once `completed` and priority pass, a truthy non-string due date gives 500. Once the due date also passes, a truthy non-string description gives 500. A body is accepted exactly when it is an object whose supplied fields are all well-typed. |
| `Todo.Patch` | todoapp/todo.py:135-150 | The id never changes. Description changes only when the body's description is truthy, `completed` only when it is non-null, priority only when it is truthy, and due date only when it is truthy. Each such field then takes the body's value, or the parsed date. A PUT never writes an empty priority. |
| `Todo.Update` | todoapp/todo.py:127-157 | 404 exactly when the id is absent, checked before any field of the body is looked at. Any refusal reports `UpdateError`'s status and leaves the table unchanged. A present id with a body `UpdateError` accepts gets 200. On 200 only the addressed row changes, exactly as `Patch` describes. The keys and the id sequence stay the same, and the table invariant is preserved, including the legal-priority rule. |
| `Todo.Delete` | todoapp/todo.py:162-172 | 404 with no change exactly when the id is absent. On 200 exactly that key is gone, the other rows are unchanged, the row count drops by one, and a later get of the id answers 404. The table invariant is preserved. |
| `Todo.CreateThenGet` | todoapp/todo.py:60-78 | After a successful create, getting the new id answers 200 with the body's description and `completed` false. When a due date was sent, the printed due date parses to the same date as the text sent, and for the padded form the model reads it is that very text. When none was sent, the due date is null. |
| `Listings.Sort` | todoapp/todo.py:87 | The result is strictly ascending and holds every key of the set exactly once. |
| `Listings.OrderById` | todoapp/todo.py:87 | The table's keys, each exactly once, in strictly ascending order, and nothing else. |
| `Listings.Matching` | todoapp/todo.py:179 | The filter keeps exactly the ids whose row has the requested completed flag, and never more ids than it was given. |
| `Listings.MatchingPartition` | todoapp/todo.py:179-201 | Every id lands in exactly one of the completed and uncompleted selections, and together the two hold as many ids as the input. |
| `Listings.ListAll` | todoapp/todo.py:85-101 | 200 with one row per task, in strictly ascending id order. Every stored id appears. Each row is its task serialised with the underscore date format. |
| `Listings.CompletedTasks` | todoapp/todo.py:177-195 | 200 with exactly the completed tasks, each once, serialised with the hyphen date format. |
| `Listings.UncompletedTasks` | todoapp/todo.py:199-217 | 200 with exactly the uncompleted tasks, each once, serialised with the hyphen date format. |
| `Scenario.BuyMilk` | todoapp/todo.py:49-155 | From an empty table, posting "buy milk" with priority "low" answers 201. Getting task 1 shows it uncompleted with no due date. A PUT setting `completed` to true answers 200. Afterwards the completed filter selects task 1 and the uncompleted filter does not. |

## Left out

- Flask routing, `request.get_json` and `jsonify` are not modelled. A body that fails to decode makes `get_json` raise, which gives a 500. The model starts from the decoded value, so both "no body" and a literal `null` are `Json.Null`.
- Update reads the body before it looks the id up (`todoapp/todo.py:129-133`). A body that fails to decode therefore gives 500 even for an absent id. So does a request without a JSON content type on recent Flask versions. The model has no undecodable body, so it answers 404 for every absent id.
- The route's `<int:task_id>` converter rejects negative ids before any handler runs, with a 404. The model's handlers accept any integer id. Stored ids are at least 1, so a negative id answers 404 in both.
- SQLAlchemy sessions, the PostgreSQL connection and the environment configuration (`todoapp/todo.py:8-25`) are not modelled, and neither is `db.create_all` at start-up (`todoapp/todo.py:221-224`). They are I/O and library code. An immutable `Db` value stands for the table, and `Todo.Empty` for a freshly created one.
- The `except Exception` wrappers are modelled only for the failures the handler code itself raises: `len(None)`, `.get` on a non-object, and `strptime` on a non-string. Database and driver failures cannot be reproduced, so the listings and get always answer 200 or 404.
- Response message texts, `__repr__` and the debug `print` output are left out. Only status codes, tables and serialised rows are modelled.
- Concurrent requests are left out. The id sequence is modelled as advancing once per successful create. A real sequence can also skip values on failed inserts. The model relies only on the fact that ids are never reused.
- JSON numbers are integers only. A fractional number behaves like a non-zero integer in every check, except that Python treats `0.0` as falsy.
- Dates.Parse: accepts only the zero-padded, ASCII-digit form. Python's `strptime` also accepts single-digit fields, a space-padded day, runs of whitespace between date and time, and non-ASCII digits. The source answers 201/200 to such strings, where the model answers 400. On the strings the model accepts, both give the same date.
- Dates.FormatWith: prints the year with four digits. Some C libraries print years below 1000 with fewer digits under `%Y`.
- Todo.CreateThenGet: the source also accepts lenient due-date text, such as single-digit fields, and prints it back zero-padded. Only "parses to the same date" holds there. The model reads only the padded form, so it also proves the text is returned unchanged.
- Todo.Create: treats a non-text value that reaches a text column as refused at commit, with a 500. That means a truthy non-string description, or a falsy priority other than null and `""` (`false`, `0`, `[]`). The real outcome depends on PostgreSQL's assignment casts and the driver's adaptation of Python values, which may instead store the value's text form. For example, `{"description": "x", "priority": 0}` would then most likely answer 201 and store the priority `"0"`. The legal-priority part of the table invariant `Valid` holds in the model only because of this choice. If the text form were stored, create could write priorities outside `""`, `high`, `medium` and `low`.
- Todo.UpdateError: refuses a truthy non-string description at commit, with a 500, for the same reason as `Todo.Create`.
- Listings.CompletedTasks, Listings.UncompletedTasks: the source's filtered queries have no `ORDER BY`, so the database may return rows in any order. The model returns them ascending by id, which is one of those orders.
