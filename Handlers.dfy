/** The service: the process-wide task table and the four HTTP handlers that
    read and change it in place. */
module Handlers {

  import opened Wrappers
  import opened Tasks
  import opened Http
  import opened Requests

  class TaskStore {
    /** The shared table, updated in place by Post and Delete. */
    var tasks: Store

    /** The table holds the two start-up tasks. */
    constructor ()
      ensures tasks == SeedTasks()
      ensures tasks.Keys == {"1", "2"} && WellKeyed(tasks)
    {
      tasks := SeedTasks();
    }

    /** GET /tasks: the whole table, or 500 if it cannot be encoded. */
    method List(marshalFails: bool) returns (resp: Response)
      ensures !marshalFails ==> resp.status == OK && resp.body == AllTasks(tasks)
      ensures marshalFails ==> resp == Response(InternalServerError, LibraryError)
    {
      if marshalFails {
        return Response(InternalServerError, LibraryError);
      }
      resp := Response(OK, AllTasks(tasks));
    }

    /** POST /tasks: insert a new task under its own ID. An unreadable body and
        a taken ID are both 400; an existing task is never overwritten. */
    method Post(body: Option<Task>) returns (resp: Response)
      modifies this
      ensures body.None? ==> resp == Response(BadRequest, LibraryError) && tasks == old(tasks)
      ensures body.Some? && body.value.id in old(tasks) ==>
        resp == Response(BadRequest, Message(DuplicateIdMessage)) && tasks == old(tasks)
      ensures body.Some? && body.value.id !in old(tasks) ==>
        resp == Response(Created, NoContent) && tasks == old(tasks)[body.value.id := body.value]
      ensures forall k :: k in old(tasks) ==> k in tasks && tasks[k] == old(tasks)[k]
      ensures WellKeyed(old(tasks)) ==> WellKeyed(tasks)
    {
      if body.None? {
        return Response(BadRequest, LibraryError);
      }
      var task := body.value;
      if task.id in tasks {
        return Response(BadRequest, Message(DuplicateIdMessage));
      }
      tasks := tasks[task.id := task];
      resp := Response(Created, NoContent);
    }

    /** GET /tasks/{id}: the stored task, 404 if the ID is absent, or 500 if
        the task cannot be encoded. */
    method Get(id: string, marshalFails: bool) returns (resp: Response)
      ensures id !in tasks ==> resp == Response(NotFound, Message(NotFoundMessage))
      ensures id in tasks && !marshalFails ==> resp == Response(OK, OneTask(tasks[id]))
      ensures id in tasks && marshalFails ==> resp == Response(InternalServerError, LibraryError)
      ensures resp.status == OK <==> id in tasks && !marshalFails
    {
      if id !in tasks {
        return Response(NotFound, Message(NotFoundMessage));
      }
      var task := tasks[id];
      if marshalFails {
        return Response(InternalServerError, LibraryError);
      }
      resp := Response(OK, OneTask(task));
    }

    /** DELETE /tasks/{id}: remove the entry, 404 if the ID is absent. The entry
        is removed before the remaining table is encoded, so an encoding failure
        answers 400 with the entry already gone. */
    method Delete(id: string, marshalFails: bool) returns (resp: Response)
      modifies this
      ensures tasks == old(tasks) - {id}
      ensures id !in old(tasks) ==> resp == Response(NotFound, Message(NotFoundMessage)) && tasks == old(tasks)
      ensures id in old(tasks) && !marshalFails ==> resp == Response(OK, NoContent)
      ensures id in old(tasks) && marshalFails ==> resp == Response(BadRequest, LibraryError)
      ensures forall k :: k in old(tasks) && k != id ==> k in tasks && tasks[k] == old(tasks)[k]
      ensures WellKeyed(old(tasks)) ==> WellKeyed(tasks)
    {
      if id !in tasks {
        return Response(NotFound, Message(NotFoundMessage));
      }
      tasks := tasks - {id};
      if marshalFails {
        return Response(BadRequest, LibraryError);
      }
      resp := Response(OK, NoContent);
    }

    /** The router: hand each request to its handler. The handlers together
        behave exactly as the reference state machine Step. */
    method Handle(c: Call) returns (resp: Response)
      modifies this
      ensures Outcome(resp, tasks) == Step(old(tasks), c)
    {
      match c.request
      case ListTasks => resp := List(c.marshalFails);
      case PostTask(body) => resp := Post(body);
      case GetTask(id) => resp := Get(id, c.marshalFails);
      case DeleteTask(id) => resp := Delete(id, c.marshalFails);
    }
  }
}
