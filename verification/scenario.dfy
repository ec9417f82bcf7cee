/** A request sequence from an empty table, stated as a lemma over the handlers. */
module Scenario {
  import opened Optional
  import opened Json
  import opened Todo
  import opened Listings

  /**
   * POST {"description": "buy milk", "priority": "low"} answers 201 and stores task 1;
   * GET /tasks/1 shows it uncompleted with no due date; PUT /tasks/1 {"completed": true}
   * answers 200, after which the completed filter selects task 1 and the uncompleted one does not.
   */
  lemma BuyMilk()
    ensures var created := Create(Empty(), Object(map["description" := Str("buy milk"), "priority" := Str("low")]));
            && created.status.Code() == 201
            && Get(created.db, 1) == Lookup(Ok, Some(TaskView(1, "buy milk", false, Some("low"), None)))
            && var updated := Update(created.db, 1, Object(map["completed" := Bool(true)]));
               && updated.status.Code() == 200
               && Matching(updated.db.tasks, [1], true) == [1]
               && Matching(updated.db.tasks, [1], false) == []
  {
  }
}
