/** The four endpoints as a state machine over the task table: a reference
    definition of one request (Step) and of a run of requests (Run), and what
    they guarantee. */
module Requests {

  import opened Wrappers
  import opened Tasks
  import opened Http

  /** The four routes. The body of a create is given already read and decoded:
      None when reading or decoding it fails. */
  datatype Request =
    | ListTasks                       // GET /tasks
    | PostTask(body: Option<Task>)    // POST /tasks
    | GetTask(id: string)             // GET /tasks/{id}
    | DeleteTask(id: string)          // DELETE /tasks/{id}

  /** One request together with whether the JSON encoder fails while it is handled. */
  datatype Call = Call(request: Request, marshalFails: bool)

  datatype Outcome = Outcome(response: Response, store: Store)

  /** The response to one request and the table it leaves behind. */
  function Step(m: Store, c: Call): (o: Outcome)
  {
    match c.request
    case ListTasks =>
      if c.marshalFails then Outcome(Response(InternalServerError, LibraryError), m)
      else Outcome(Response(OK, AllTasks(m)), m)
    case PostTask(body) =>
      if body.None? then Outcome(Response(BadRequest, LibraryError), m)
      else if body.value.id in m then Outcome(Response(BadRequest, Message(DuplicateIdMessage)), m)
      else Outcome(Response(Created, NoContent), m[body.value.id := body.value])
    case GetTask(id) =>
      if id !in m then Outcome(Response(NotFound, Message(NotFoundMessage)), m)
      else if c.marshalFails then Outcome(Response(InternalServerError, LibraryError), m)
      else Outcome(Response(OK, OneTask(m[id])), m)
    case DeleteTask(id) =>
      if id !in m then Outcome(Response(NotFound, Message(NotFoundMessage)), m)
      // the entry is removed before the remaining table is encoded
      else if c.marshalFails then Outcome(Response(BadRequest, LibraryError), m - {id})
      else Outcome(Response(OK, NoContent), m - {id})
  }

  /** The table after handling the calls one after another. */
  function Run(m: Store, calls: seq<Call>): (r: Store)
    decreases |calls|
  {
    if calls == [] then m else Run(Step(m, calls[0]).store, calls[1..])
  }

  /** A call that only reads the table. */
  predicate ReadOnly(c: Call)
  {
    c.request.ListTasks? || c.request.GetTask?
  }

  /** One request keeps every key equal to its task's ID. */
  lemma StepPreservesWellKeyed(m: Store, c: Call)
    requires WellKeyed(m)
    ensures WellKeyed(Step(m, c).store)
  {
  }

  /** Any run of requests from a well-keyed table keeps it well keyed. */
  lemma {:induction false} RunPreservesWellKeyed(m: Store, calls: seq<Call>)
    requires WellKeyed(m)
    ensures WellKeyed(Run(m, calls))
    decreases |calls|
  {
    if calls != [] {
      StepPreservesWellKeyed(m, calls[0]);
      RunPreservesWellKeyed(Step(m, calls[0]).store, calls[1..]);
    }
  }

  /** Whatever requests arrive after start-up, every key is its task's ID. */
  lemma ServedTableIsWellKeyed(calls: seq<Call>)
    ensures WellKeyed(Run(SeedTasks(), calls))
  {
    RunPreservesWellKeyed(SeedTasks(), calls);
  }

  /** The table changes exactly when a create succeeds or a delete finds its ID;
      in the second case the status may be 400 although the entry is gone. */
  lemma StepChangesStoreOnlyOnWrites(m: Store, c: Call)
    ensures Step(m, c).store != m <==>
      Step(m, c).response.status == Created || (c.request.DeleteTask? && c.request.id in m)
    ensures Step(m, c).store != m ==>
      Step(m, c).response.status in {Created, OK, BadRequest}
  {
  }

  /** The numeric status each request answers with, in both directions:
      201 only for a create under a fresh ID, 404 only for a get or delete of
      an absent ID, 500 only when encoding fails in a list or in a get that
      found its ID, 400 for an unreadable body, a taken ID, or a delete whose
      encoding fails, and 200 otherwise. */
  lemma StepWireCodes(m: Store, c: Call)
    ensures var code := Step(m, c).response.status.Code();
      var r := c.request;
      && (code == 201 <==> r.PostTask? && r.body.Some? && r.body.value.id !in m)
      && (code == 404 <==> (r.GetTask? || r.DeleteTask?) && r.id !in m)
      && (code == 500 <==> c.marshalFails && (r.ListTasks? || (r.GetTask? && r.id in m)))
      && (code == 400 <==>
            (r.PostTask? && (r.body.None? || r.body.value.id in m))
            || (r.DeleteTask? && r.id in m && c.marshalFails))
      && (code == 200 <==>
            !c.marshalFails && (r.ListTasks? || ((r.GetTask? || r.DeleteTask?) && r.id in m)))
  {
  }

  /** List and Get never change the table, however many of them run. */
  lemma {:induction false} ReadOnlyRunKeepsStore(m: Store, calls: seq<Call>)
    requires forall i :: 0 <= i < |calls| ==> ReadOnly(calls[i])
    ensures Run(m, calls) == m
    decreases |calls|
  {
    if calls != [] {
      assert ReadOnly(calls[0]);
      assert Step(m, calls[0]).store == m;
      ReadOnlyRunKeepsStore(m, calls[1..]);
    }
  }

  /** Creating a task under a fresh ID and then fetching that ID gives back
      the same task. */
  lemma CreateThenGet(m: Store, t: Task)
    requires t.id !in m
    ensures Step(m, Call(PostTask(Some(t)), false)).response.status == Created
    ensures var m' := Step(m, Call(PostTask(Some(t)), false)).store;
      Step(m', Call(GetTask(t.id), false)).response == Response(OK, OneTask(t))
  {
  }

  /** A second create with the same ID is refused and changes nothing. */
  lemma CreateTwiceRejectsSecond(m: Store, t: Task, u: Task)
    requires t.id !in m && u.id == t.id
    ensures var m' := Step(m, Call(PostTask(Some(t)), false)).store;
      Step(m', Call(PostTask(Some(u)), false)) ==
        Outcome(Response(BadRequest, Message(DuplicateIdMessage)), m')
  {
  }

  /** After a delete of an ID, whether or not it was present, fetching it is 404. */
  lemma DeleteThenGet(m: Store, id: string, deleteMarshalFails: bool, getMarshalFails: bool)
    ensures var m' := Step(m, Call(DeleteTask(id), deleteMarshalFails)).store;
      id !in m' &&
      Step(m', Call(GetTask(id), getMarshalFails)).response == Response(NotFound, Message(NotFoundMessage))
  {
  }

  /** Creating a task under a fresh ID and then deleting it restores the table. */
  lemma CreateThenDeleteRestores(m: Store, t: Task, f: bool)
    requires t.id !in m
    ensures var m' := Step(m, Call(PostTask(Some(t)), false)).store;
      Step(m', Call(DeleteTask(t.id), f)).store == m
  {
  }

  /** A successful create adds exactly one entry, a delete that finds its ID
      removes exactly one, and every other request keeps the size. */
  lemma StepSize(m: Store, c: Call)
    ensures var o := Step(m, c);
      |o.store| ==
        if o.response.status == Created then |m| + 1
        else if c.request.DeleteTask? && c.request.id in m then |m| - 1
        else |m|
  {
  }

  /** The table never holds more than its initial entries plus the number of
      requests handled. */
  lemma {:induction false} RunSizeBound(m: Store, calls: seq<Call>)
    ensures |Run(m, calls)| <= |m| + |calls|
    decreases |calls|
  {
    if calls != [] {
      StepSize(m, calls[0]);
      RunSizeBound(Step(m, calls[0]).store, calls[1..]);
    }
  }
}
