/** The task record, and the subtask record as the views and the admin use it. */
module TaskModels {
  import opened Common

  const TitleMaxLength: nat := 255

  /** A stored task. `createUser` is the creator's primary key; the task has no team of its own. */
  datatype Task = Task(createUser: nat, title: string, content: string,
                       isComplete: bool, completedDate: Option<Time>,
                       createdAt: Time, modifiedAt: Time)

  /** A freshly saved task: not complete, no completion date, both stamps set to `now`. */
  function NewTask(creator: nat, title: string, content: string, now: Time): (t: Task)
    ensures t.createUser == creator && t.title == title && t.content == content
    ensures !t.isComplete && t.completedDate == None
    ensures t.createdAt == now && t.modifiedAt == now
  {
    Task(creator, title, content, false, None, now, now)
  }

  /** The string form of a task. */
  function TaskString(t: Task): string {
    t.title
  }

  /** A stored subtask: its parent task, its creator, and the names of its responsible teams. */
  datatype SubTask = SubTask(task: nat, createUser: nat, subTitle: string, subContent: string,
                             teams: set<string>, isComplete: bool, completedDate: Option<Time>)

  /** A completion flag agrees with its date: set exactly when there is a date. */
  predicate CompletionConsistent(isComplete: bool, completedDate: Option<Time>) {
    isComplete <==> completedDate.Some?
  }

  /** The tasks that survive deleting a user: the creator key cascades. */
  function TasksAfterUserDelete(tasks: map<nat, Task>, user: nat): (r: map<nat, Task>)
    ensures forall id :: id in r <==> id in tasks && tasks[id].createUser != user
    ensures forall id :: id in r ==> r[id] == tasks[id]
  {
    map id | id in tasks && tasks[id].createUser != user :: tasks[id]
  }

  /** The cascade keeps the store's foreign keys intact: once the user's key is
      gone, every surviving task's creator is still a stored user. */
  lemma UserDeleteKeepsCreatorsStored(tasks: map<nat, Task>, userKeys: set<nat>, user: nat)
    requires forall id :: id in tasks ==> tasks[id].createUser in userKeys
    ensures forall id :: id in TasksAfterUserDelete(tasks, user) ==>
      TasksAfterUserDelete(tasks, user)[id].createUser in userKeys - {user}
  {
  }
}
