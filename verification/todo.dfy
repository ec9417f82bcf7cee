/**
 * The task table and the create / get / update / delete handlers, each a pure
 * transition from the table and the request to a status code and the new table.
 */
module Todo {
  import opened Optional
  import opened Json
  import opened Dates

  /** The only priorities a request may set. */
  const PriorityOptions: seq<string> := ["high", "medium", "low"]

  /** One row of the `tasks` table. */
  datatype Task = Task(id: int, description: string, completed: bool, priority: Option<string>, dueDate: Option<Date>)

  /**
   * The table: rows by primary key, and the next value of the id sequence.
   * The sequence only moves forward, so an id is never handed out twice.
   */
  datatype Db = Db(tasks: map<int, Task>, nextId: int)

  datatype Status = Ok | Created | BadRequest | NotFound | ServerError {
    function Code(): int {
      match this
      case Ok => 200
      case Created => 201
      case BadRequest => 400
      case NotFound => 404
      case ServerError => 500
    }
  }

  /** The answer of a handler that may write: its status and the table after it. */
  datatype Change = Change(status: Status, db: Db)

  /** A task as a response body shows it: an empty priority reads as null, the due date as text. */
  datatype TaskView = TaskView(id: int, description: string, completed: bool, priority: Option<string>, dueDate: Option<string>)

  /** The answer of get-by-id: its status and, on 200, the task. */
  datatype Lookup = Lookup(status: Status, task: Option<TaskView>)

  /** What a request value becomes in a nullable text column. */
  datatype Cell = NullCell | TextCell(text: string) | Unstorable

  function ToCell(v: Value): Cell {
    match v
    case Null => NullCell
    case Str(s) => TextCell(s)
    case _ => Unstorable
  }

  predicate IsPriorityOption(v: Value) {
    v.Str? && v.s in PriorityOptions
  }

  /** A priority the handlers can have stored: none, the empty string, or one of the options. */
  predicate LegalPriority(p: Option<string>) {
    p.None? || p.value == "" || p.value in PriorityOptions
  }

  /** Every row is stored under its own id. */
  predicate Keyed(tasks: map<int, Task>) {
    forall k :: k in tasks ==> tasks[k].id == k
  }

  /** What the handlers keep true of the table. */
  predicate Valid(db: Db) {
    && 1 <= db.nextId
    && Keyed(db.tasks)
    && forall k :: k in db.tasks ==>
         && 1 <= k < db.nextId
         && db.tasks[k].description != ""
         && LegalPriority(db.tasks[k].priority)
  }

  /** The table as created at start-up: no rows, the id sequence at 1. */
  function Empty(): (db: Db)
    ensures Valid(db)
    ensures |db.tasks| == 0
    ensures db.nextId == 1
  {
    Db(map[], 1)
  }

  /** A due-date field a handler lets through: falsy, or a string in the date format. */
  predicate DueDateAccepted(due: Value) {
    !Truthy(due) || (due.Str? && Parse(due.s).Some?)
  }

  /**
   * A POST priority that the model stores: null (no priority), the empty
   * string, or one of the options. Other falsy values are refused at commit (see README).
   */
  predicate StorablePriority(prio: Value) {
    prio.Null? || (prio.Str? && (prio.s == "" || prio.s in PriorityOptions))
  }

  /** The two date formats responses use: "%d-%m-%Y" in get-by-id and the filters, "%d-%m_%Y" in list-all. */
  datatype DateStyle = Hyphen | Underscore

  /** The response dictionary every handler builds from a row. */
  function Serialize(t: Task, style: DateStyle): (v: TaskView)
    ensures v.id == t.id && v.description == t.description && v.completed == t.completed
    // `task.priority if task.priority else None`
    ensures v.priority == None <==> t.priority == None || t.priority == Some("")
    ensures v.priority != None ==> v.priority == t.priority
    ensures v.dueDate == None <==> t.dueDate == None
    // the hyphen text reads back as the stored date; the underscore text does not read back at all
    ensures v.dueDate != None && style == Hyphen ==>
              v.dueDate.value == Format(t.dueDate.value) && Parse(v.dueDate.value) == t.dueDate
    ensures v.dueDate != None && style == Underscore ==>
              v.dueDate.value == FormatListAll(t.dueDate.value) && Parse(v.dueDate.value) == None
  {
    TaskView(t.id, t.description, t.completed,
             if t.priority.Some? && t.priority.value != "" then t.priority else None,
             match t.dueDate
             case None => None
             case Some(d) => Some(if style == Hyphen then Format(d) else FormatListAll(d)))
  }

  /** POST /tasks. */
  function Create(db: Db, body: Value): (r: Change)
    ensures r.status == Created || r.status == BadRequest || r.status == ServerError
    ensures r.status != Created ==> r.db == db
    // when a body is accepted
    ensures r.status == Created <==>
              && body.Object?
              && Member(body, "description").Str? && Member(body, "description").s != ""
              && DueDateAccepted(Member(body, "due_date"))
              && StorablePriority(Member(body, "priority"))
    // when it is refused with 400; every other refusal is a 500
    ensures r.status == BadRequest <==>
              && body.Object?
              && (|| (!Truthy(Member(body, "description")) && HasLen(Member(body, "description")))
                  || (Truthy(Member(body, "description")) && Member(body, "due_date").Str?
                      && !DueDateAccepted(Member(body, "due_date")))
                  || (Truthy(Member(body, "description")) && DueDateAccepted(Member(body, "due_date"))
                      && Truthy(Member(body, "priority")) && !IsPriorityOption(Member(body, "priority"))))
    // the debug print calls len() on a missing description, or .get on a missing body
    ensures !body.Object? || Member(body, "description").Null? ==> r.status == ServerError
    ensures Member(body, "description") == Str("") ==> r.status == BadRequest
    // the due date is checked before the priority
    ensures (Truthy(Member(body, "description")) && Member(body, "due_date").Str?
             && !DueDateAccepted(Member(body, "due_date"))) ==> r.status == BadRequest
    ensures (Truthy(Member(body, "description")) && DueDateAccepted(Member(body, "due_date"))
             && Truthy(Member(body, "priority")) && !IsPriorityOption(Member(body, "priority"))) ==> r.status == BadRequest
    // a falsy due date or priority is never a reason for 400
    ensures r.status == BadRequest && Truthy(Member(body, "description")) ==>
              Truthy(Member(body, "due_date")) || Truthy(Member(body, "priority"))
    ensures r.status == Created ==>
              && body.Object?
              && r.db.nextId == db.nextId + 1
              && r.db.tasks.Keys == db.tasks.Keys + {db.nextId}
              && (forall k :: k in db.tasks && k != db.nextId ==> r.db.tasks[k] == db.tasks[k])
              && var t := r.db.tasks[db.nextId];
                 && t.id == db.nextId
                 && !t.completed
                 && Member(body, "description") == Str(t.description)
                 && (Member(body, "priority").Null? ==> t.priority == None)
                 && (Member(body, "priority").Str? ==> t.priority == Some(Member(body, "priority").s))
                 && (!Truthy(Member(body, "due_date")) ==> t.dueDate == None)
                 && (Truthy(Member(body, "due_date")) ==>
                      Member(body, "due_date").Str? && t.dueDate.Some? && t.dueDate == Parse(Member(body, "due_date").s))
    ensures Valid(db) ==> Valid(r.db)
    ensures Valid(db) && r.status == Created ==> db.nextId !in db.tasks && |r.db.tasks| == |db.tasks| + 1
  {
    if !body.Object? then
      // `data.get` raises on a body that is not a JSON object, None included
      Change(ServerError, db)
    else
      var desc := Member(body, "description");
      if !Truthy(desc) then
        // `print(len(...))` runs before the 400 is returned
        Change(if HasLen(desc) then BadRequest else ServerError, db)
      else
        var due := Member(body, "due_date");
        if Truthy(due) && !due.Str? then
          // strptime raises TypeError, which only the outer handler catches
          Change(ServerError, db)
        else if Truthy(due) && Parse(due.s).None? then
          Change(BadRequest, db)
        else
          var prio := Member(body, "priority");
          if Truthy(prio) && !IsPriorityOption(prio) then
            Change(BadRequest, db)
          else
            var descCell, prioCell := ToCell(desc), ToCell(prio);
            if !descCell.TextCell? || prioCell.Unstorable? then
              // a non-text value bound for a text column: modelled as refused at commit (see README)
              Change(ServerError, db)
            else
              var t := Task(db.nextId, descCell.text, false,
                            if prioCell.TextCell? then Some(prioCell.text) else None,
                            if Truthy(due) then Parse(due.s) else None);
              Change(Created, Db(db.tasks[db.nextId := t], db.nextId + 1))
  }

  /** GET /tasks/{id}. */
  function Get(db: Db, id: int): (r: Lookup)
    ensures r.status == Ok || r.status == NotFound
    ensures r.status == Ok <==> id in db.tasks
    ensures r.status == NotFound ==> r.task == None
    ensures r.status == Ok ==>
              && r.task.Some?
              && var (t, v) := (db.tasks[id], r.task.value);
                 && v.id == t.id && v.description == t.description && v.completed == t.completed
                 && (v.priority == None <==> t.priority == None || t.priority == Some(""))
                 && (v.priority != None ==> v.priority == t.priority)
                 && (v.dueDate == None <==> t.dueDate == None)
                 // the printed due date reads back as the stored one
                 && (v.dueDate != None ==> Parse(v.dueDate.value) == t.dueDate)
  {
    if id !in db.tasks then Lookup(NotFound, None)
    else
      var t := db.tasks[id];
      Lookup(Ok, Some(Serialize(t, Hyphen)))
  }

  /**
   * The first reason a PUT body is refused, in the order the handler tests the
   * fields, or None when it may be committed.
   */
  function UpdateError(body: Value): (e: Option<Status>)
    ensures !body.Object? ==> e == Some(ServerError)
    ensures e == None || e == Some(BadRequest) || e == Some(ServerError)
    // any bad field refuses the whole body, whatever came before it
    ensures body.Object? && !Member(body, "completed").Null? && !Member(body, "completed").Bool? ==> e == Some(BadRequest)
    ensures (body.Object? && Truthy(Member(body, "priority")) && !IsPriorityOption(Member(body, "priority")))
            ==> e == Some(BadRequest)
    ensures (body.Object? && Member(body, "due_date").Str? && !DueDateAccepted(Member(body, "due_date")))
            ==> e == Some(BadRequest)
    ensures e == Some(BadRequest) ==>
              || (!Member(body, "completed").Null? && !Member(body, "completed").Bool?)
              || (Truthy(Member(body, "priority")) && !IsPriorityOption(Member(body, "priority")))
              || (Member(body, "due_date").Str? && !DueDateAccepted(Member(body, "due_date")))
    // a truthy non-string due date or description is a 500, once the earlier fields pass
    ensures (&& body.Object? && (Member(body, "completed").Null? || Member(body, "completed").Bool?)
             && (Truthy(Member(body, "priority")) ==> IsPriorityOption(Member(body, "priority")))
             && Truthy(Member(body, "due_date")) && !Member(body, "due_date").Str?)
            ==> e == Some(ServerError)
    ensures (&& body.Object? && (Member(body, "completed").Null? || Member(body, "completed").Bool?)
             && (Truthy(Member(body, "priority")) ==> IsPriorityOption(Member(body, "priority")))
             && DueDateAccepted(Member(body, "due_date"))
             && Truthy(Member(body, "description")) && !Member(body, "description").Str?)
            ==> e == Some(ServerError)
    // exactly the well-typed bodies are accepted
    ensures e == None <==>
              && body.Object?
              && (Member(body, "completed").Null? || Member(body, "completed").Bool?)
              && (Truthy(Member(body, "priority")) ==> IsPriorityOption(Member(body, "priority")))
              && (Truthy(Member(body, "due_date")) ==> Member(body, "due_date").Str? && DueDateAccepted(Member(body, "due_date")))
              && (Truthy(Member(body, "description")) ==> Member(body, "description").Str?)
  {
    if !body.Object? then Some(ServerError)
    else
      var desc, completed := Member(body, "description"), Member(body, "completed");
      var prio, due := Member(body, "priority"), Member(body, "due_date");
      if !completed.Null? && !completed.Bool? then Some(BadRequest)
      else if Truthy(prio) && !IsPriorityOption(prio) then Some(BadRequest)
      // strptime raises TypeError on a non-string, which only the outer handler catches
      else if Truthy(due) && !due.Str? then Some(ServerError)
      else if Truthy(due) && Parse(due.s).None? then Some(BadRequest)
      // a non-text description: modelled as refused at commit (see README)
      else if Truthy(desc) && !desc.Str? then Some(ServerError)
      else None
  }

  /** The task after an accepted PUT body: only the supplied fields change. */
  function Patch(t: Task, body: Value): (t': Task)
    requires UpdateError(body) == None
    ensures t'.id == t.id
    ensures if Truthy(Member(body, "description")) then Member(body, "description") == Str(t'.description)
            else t'.description == t.description
    ensures if Member(body, "completed").Null? then t'.completed == t.completed
            else Member(body, "completed") == Bool(t'.completed)
    ensures if Truthy(Member(body, "priority")) then t'.priority.Some? && Member(body, "priority") == Str(t'.priority.value)
            else t'.priority == t.priority
    ensures if Truthy(Member(body, "due_date")) then t'.dueDate.Some? && t'.dueDate == Parse(Member(body, "due_date").s)
            else t'.dueDate == t.dueDate
    // a PUT never writes an empty priority
    ensures t'.priority == Some("") ==> t.priority == Some("")
  {
    var desc, completed := Member(body, "description"), Member(body, "completed");
    var prio, due := Member(body, "priority"), Member(body, "due_date");
    t.(description := if Truthy(desc) then desc.s else t.description,
       completed := if completed.Bool? then completed.b else t.completed,
       priority := if Truthy(prio) then Some(prio.s) else t.priority,
       dueDate := if Truthy(due) then Parse(due.s) else t.dueDate)
  }

  /** PUT /tasks/{id}: a partial update, all of it or nothing. */
  function Update(db: Db, id: int, body: Value): (r: Change)
    ensures r.status == Ok || r.status == BadRequest || r.status == NotFound || r.status == ServerError
    ensures r.status != Ok ==> r.db == db
    // the 404 comes before any field of the body is looked at
    ensures r.status == NotFound <==> id !in db.tasks
    ensures id in db.tasks && UpdateError(body).Some? ==> Some(r.status) == UpdateError(body)
    ensures id in db.tasks && UpdateError(body) == None ==> r.status == Ok
    // nothing but the one task changes
    ensures r.status == Ok ==>
              && UpdateError(body) == None
              && r.db.nextId == db.nextId
              && r.db.tasks.Keys == db.tasks.Keys
              && (forall k :: k in db.tasks && k != id ==> r.db.tasks[k] == db.tasks[k])
              && r.db.tasks[id] == Patch(db.tasks[id], body)
    ensures Valid(db) ==> Valid(r.db)
  {
    if id !in db.tasks then Change(NotFound, db)
    else
      match UpdateError(body)
      case Some(status) => Change(status, db)
      case None => Change(Ok, Db(db.tasks[id := Patch(db.tasks[id], body)], db.nextId))
  }

  /** DELETE /tasks/{id}. */
  function Delete(db: Db, id: int): (r: Change)
    ensures r.status == Ok || r.status == NotFound
    ensures r.status == NotFound <==> id !in db.tasks
    ensures r.status == NotFound ==> r.db == db
    ensures r.status == Ok ==>
              && r.db.nextId == db.nextId
              && r.db.tasks.Keys == db.tasks.Keys - {id}
              && (forall k :: k in r.db.tasks ==> r.db.tasks[k] == db.tasks[k])
              && |r.db.tasks| == |db.tasks| - 1
              && Get(r.db, id).status == NotFound
    ensures Valid(db) ==> Valid(r.db)
  {
    if id !in db.tasks then Change(NotFound, db)
    else Change(Ok, Db(db.tasks - {id}, db.nextId))
  }

  /**
   * A created task reads back with the body's description and, when one was given,
   * a due-date text that parses to the same date as the text sent (and, for the
   * padded form the model reads, is that very text).
   */
  lemma CreateThenGet(db: Db, body: Value)
    requires Valid(db)
    requires Create(db, body).status == Created
    ensures var g := Get(Create(db, body).db, db.nextId);
            && g.status == Ok
            && g.task.value.id == db.nextId
            && Member(body, "description") == Str(g.task.value.description)
            && !g.task.value.completed
            && (Truthy(Member(body, "due_date")) ==>
                  && g.task.value.dueDate.Some?
                  && Parse(g.task.value.dueDate.value) == Parse(Member(body, "due_date").s)
                  && g.task.value.dueDate == Some(Member(body, "due_date").s))
            && (!Truthy(Member(body, "due_date")) ==> g.task.value.dueDate == None)
  {
    var due := Member(body, "due_date");
    if Truthy(due) {
      FormatParse(due.s);
    }
  }
}
