/** The parts of an HTTP response that the handlers decide: a status and a body. */
module Http {

  import opened Tasks

  /** The status codes the handlers answer with (section 15 of RFC 9110). */
  datatype Status = OK | Created | BadRequest | NotFound | InternalServerError
  {
    /** The numeric code sent on the wire. */
    function Code(): (c: int)
      ensures 200 <= c <= 599
      ensures Successful() <==> 200 <= c <= 299
      ensures this == BadRequest || this == NotFound <==> 400 <= c <= 499
    {
      match this
      case OK => 200
      case Created => 201
      case BadRequest => 400
      case NotFound => 404
      case InternalServerError => 500
    }

    /** The 2xx class: the request was accepted. */
    predicate Successful()
    {
      this == OK || this == Created
    }
  }

  /** What the handler writes as the response body. */
  datatype Payload =
    | NoContent               // headers only, nothing written
    | AllTasks(tasks: Store)  // the whole table, encoded as one JSON object
    | OneTask(task: Task)     // one task, encoded as a JSON object
    | Message(text: string)   // a fixed plain-text error message
    | LibraryError            // the text of an error raised by the body reader or the JSON codec

  datatype Response = Response(status: Status, body: Payload)

  /** The plain-text message for a create whose ID is already taken. */
  const DuplicateIdMessage := "Элемент с таким id уже существует"

  /** The plain-text message for a get or delete of an absent ID. */
  const NotFoundMessage := "Задача не найдена"
}
