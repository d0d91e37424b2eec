# Task store of a minimal REST service

This project models the core of a small Go HTTP service that keeps a table of
tasks in memory and exposes four endpoints: list all tasks, create a task, fetch
one task by ID, and delete one task by ID. A task has an ID, a description, a
note and an ordered list of application names. The table is a package-level
map from ID to task. It starts with two seed tasks, "1" and "2". The create and
delete handlers change it in place.

The Dafny modules follow the pieces of `precode.go`:

- `Tasks` (Tasks.dfy): the `Task` record, the `Store` table type, the seed
  table `SeedTasks`, and the invariant `WellKeyed`. It says every key is the ID
  of the task stored under it.
- `Http` (Http.dfy): the response statuses (200, 201, 400, 404 and 500, as in
  section 15 of RFC 9110), the response bodies, and the two fixed error messages.
- `Handlers` (Handlers.dfy): the class `TaskStore`. Its `tasks` field is the
  shared map. Its methods `List`, `Post`, `Get` and `Delete` are the four
  handlers, and `Handle` is the router that dispatches a request to them.
- `Requests` (Requests.dfy): a reference state machine. `Step` gives the
  response to one request and the table it leaves. `Run` gives the table after
  a sequence of requests. The lemmas state the properties across requests:
  the invariant is kept, a create followed by a get gives back the task, and
  so on. `TaskStore.Handle` is proved to behave exactly as `Step`.

The request body arrives already read and decoded, as an `Option<Task>`.
`None` stands for both failures the handler checks: reading the body and
decoding the JSON. Each failure answers 400. Whether the JSON encoder fails is
an input flag, `marshalFails`, so the encoder-failure branches are modelled too.
In `deleteTask` that branch runs after the entry has been removed. So a delete
can answer 400 even though the entry is gone. `Handlers.TaskStore.Delete` and
`Requests.StepChangesStoreOnlyOnWrites` both state this.

This code rejects a duplicate ID with 400 (not 409 Conflict), and never
overwrites an existing entry. A get of an absent ID answers 404. The model
follows the code on all three points.

## Model

| member | source | states |
|---|---|---|
| Tasks.SeedTasks | precode.go:21-43 | the initial table has exactly the keys "1" and "2"; each key is its task's ID; the two application lists are as seeded |
| Http.Status.Code | precode.go:46-157 | every status is an HTTP code between 200 and 599; OK and Created are exactly the 2xx codes; BadRequest and NotFound are exactly the 4xx ones (the exact number of each status is stated by `Requests.StepWireCodes`) |
| Handlers.TaskStore.constructor | precode.go:21-43 | a new store holds the seed table: keys "1" and "2", each mapped to a task with that ID |
| Handlers.TaskStore.List | precode.go:46-68 | answers 200 with the whole table, or 500 if encoding fails; the table is only read |
| Handlers.TaskStore.Post | precode.go:71-97 | an undecodable body gives 400 and no change; a taken ID gives 400 with the duplicate message and no change; otherwise 201 and the table becomes the old one with the task added under its ID; no existing entry is removed or overwritten; the key/ID invariant is kept |
| Handlers.TaskStore.Get | precode.go:100-129 | 404 with the not-found message when the ID is absent; otherwise 200 with the stored task, or 500 if encoding fails; 200 exactly when the ID is present and encoding succeeds; the table is only read |
| Handlers.TaskStore.Delete | precode.go:131-157 | the table always becomes the old one minus the ID; an absent ID gives 404 and no change; a present ID gives 200, or 400 if encoding the rest fails, with the entry already removed; all other entries are untouched; the key/ID invariant is kept |
| Handlers.TaskStore.Handle | precode.go:159-178 | dispatching a request to its handler gives exactly the response and new table of the reference state machine `Step` |
| Requests.StepPreservesWellKeyed | precode.go:86-93 | no request breaks "every key is its task's ID" |
| Requests.RunPreservesWellKeyed | precode.go:71-157 | any sequence of requests from a well-keyed table leaves it well keyed |
| Requests.ServedTableIsWellKeyed | precode.go:21-43 | after start-up and any sequence of requests, every key is its task's ID |
| Requests.StepChangesStoreOnlyOnWrites | precode.go:131-157 | a request changes the table if and only if it is a successful create or a delete of a present ID; such a request answers 201, 200 or (a delete whose encoding fails) 400 |
| Requests.StepWireCodes | precode.go:46-157 | the numeric code of every response, in both directions: 201 exactly for a create under a fresh ID; 404 exactly for a get or delete of an absent ID; 500 exactly when encoding fails in a list or in a get that found its ID; 400 exactly for an unreadable body, a taken ID, or a delete of a present ID whose encoding fails; 200 in every other case |
| Requests.ReadOnlyRunKeepsStore | precode.go:46-129 | any sequence of list and get requests leaves the table unchanged |
| Requests.CreateThenGet | precode.go:93-109 | creating a task under a fresh ID answers 201, and then getting that ID answers 200 with the same task |
| Requests.CreateTwiceRejectsSecond | precode.go:86-93 | after a successful create, a second create with the same ID answers 400 with the duplicate message and leaves the table as it was |
| Requests.DeleteThenGet | precode.go:100-143 | after a delete of an ID, present or not, the ID is absent and getting it answers 404 |
| Requests.CreateThenDeleteRestores | precode.go:71-157 | a create under a fresh ID followed by a delete of that ID restores the original table |
| Requests.StepSize | precode.go:86-143 | a successful create grows the table by one entry, a delete of a present ID shrinks it by one, and every other request keeps its size |
| Requests.RunSizeBound | precode.go:71-157 | after a sequence of requests the table holds at most its initial entries plus one per request |

## Left out

- Routing through the `chi` router and starting the server (precode.go:159-184). These are a third-party library and network I/O. `Handle` covers only the four registered routes. Unmatched paths and methods are the router's business. The create handler does not check the ID, so a body without an `id` is stored under the empty ID; the router's `{id}` pattern is not expected to match an empty path segment, so such an entry may be unreachable by get or delete over HTTP, while `Handle` accepts `GetTask("")` and `DeleteTask("")`. The router is not part of this model.
- JSON encoding and decoding and reading the request body. These are library calls. Decoding is the `Option<Task>` input, and encoder failure is the `marshalFails` input. The text of a library error is not modelled: the `LibraryError` body stands for it. A body without `applications` stores a nil Go slice, which is encoded as `null`, while an explicit empty list is encoded as `[]`; the model's `seq<string>` does not tell the two apart.
- Response headers, `w.Write` and its logged error (precode.go:56-67, precode.go:119-128). They are output plumbing and do not affect the status or the table.
- Http.Status.Code: its contract states only the class of each status (2xx, 4xx); the number each handler sends is stated by `Requests.StepWireCodes`.
- Concurrent access to the shared map from handler goroutines. Go does not synchronise it, and the model is single-threaded.
- Go slices are references, but the stored task's `Applications` is a value here. Nothing in the service mutates it after it is stored.
