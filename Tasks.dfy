/** The task record and the in-memory table of tasks, with the two entries it starts with. */
module Tasks {

  /** One task: its key, two free-text fields and an ordered list of application names. */
  datatype Task = Task(id: string, description: string, note: string, applications: seq<string>)

  /** The shared table, from task ID to task. */
  type Store = map<string, Task>

  /** Every key of the table is the ID of the task stored under it. */
  predicate WellKeyed(m: Store)
  {
    forall k :: k in m ==> m[k].id == k
  }

  /** The table as it is when the process starts: tasks "1" and "2". */
  function SeedTasks(): (m: Store)
    ensures m.Keys == {"1", "2"}
    ensures WellKeyed(m)
    ensures m["1"].applications == ["VS Code", "Terminal", "git"]
    ensures m["2"].applications == ["VS Code", "Terminal", "git", "Postman"]
  {
    map[
      "1" := Task(
        "1",
        "Сделать финальное задание темы REST API",
        "Если сегодня сделаю, то завтра будет свободный день. Ура!",
        ["VS Code", "Terminal", "git"]),
      "2" := Task(
        "2",
        "Протестировать финальное задание с помощью Postmen",
        "Лучше это делать в процессе разработки, каждый раз, когда запускаешь сервер и проверяешь хендлер",
        ["VS Code", "Terminal", "git", "Postman"])
    ]
  }
}
