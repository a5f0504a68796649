/** The decisions the task views take over the rows they read: who may change
    what, how completion dates move, how completion reaches the parent task,
    and which rows the list endpoints return. */
module TaskRules {
  import opened Common
  import opened UserModels
  import opened TaskModels
  import opened TaskSerializers

  // ---------------------------------------------------------------------------
  // Tasks

  /** Only the creator may update or delete a task; an anonymous caller never is the creator. */
  predicate IsCreator(p: Principal, t: Task) {
    p.Authenticated? && p.pk == t.createUser
  }

  /** The view compares `validated_data.get("is_complete")` with the stored flag:
      an absent flag reads as None, which differs from both stored values. */
  predicate TaskFlagChanged(p: TaskPatch, stored: bool) {
    p.isComplete != Some(stored)
  }

  /** The validated data after the view has written `completed_date` into it. */
  function WithCompletionDate(p: TaskPatch, stored: bool, now: Time): TaskPatch {
    if TaskFlagChanged(p, stored) then
      p.(completedDate := Some(if p.isComplete == Some(true) then Some(now) else None))
    else p
  }

  /** The task an accepted update saves. */
  function UpdatedTask(t: Task, p: TaskPatch, now: Time): (r: Task)
    ensures r.createUser == t.createUser && r.createdAt == t.createdAt && r.modifiedAt == now
    ensures r.title == p.title.GetOr(t.title) && r.content == p.content.GetOr(t.content)
    ensures r.isComplete == p.isComplete.GetOr(t.isComplete)
    // a real transition stamps or clears the date, whatever date the body carried
    ensures p.isComplete.Some? && p.isComplete.value != t.isComplete ==>
      r.completedDate == if p.isComplete.value then Some(now) else None
    // a body without `is_complete` clears the date and keeps the flag
    ensures p.isComplete.None? ==> r.completedDate == None
    // a body repeating the stored flag writes the body's date, if any
    ensures p.isComplete == Some(t.isComplete) ==> r.completedDate == p.completedDate.GetOr(t.completedDate)
  {
    ApplyPatch(t, WithCompletionDate(p, t.isComplete, now), now)
  }

  /** A real transition leaves flag and date in agreement. */
  lemma TransitionKeepsCompletionConsistent(t: Task, p: TaskPatch, now: Time)
    requires p.isComplete.Some? && p.isComplete.value != t.isComplete
    ensures CompletionConsistent(UpdatedTask(t, p, now).isComplete, UpdatedTask(t, p, now).completedDate)
  {
  }

  /** A body without `is_complete` (a title-only edit, say) on a completed task
      leaves it completed without a completion date. */
  lemma PatchWithoutFlagClearsDate(t: Task, p: TaskPatch, now: Time)
    requires t.isComplete && p.isComplete.None?
    ensures UpdatedTask(t, p, now).isComplete && UpdatedTask(t, p, now).completedDate == None
    ensures !CompletionConsistent(UpdatedTask(t, p, now).isComplete, UpdatedTask(t, p, now).completedDate)
  {
  }

  // ---------------------------------------------------------------------------
  // Subtasks

  /** Only a member of the task creator's team may add a subtask. */
  predicate MayAddSubTask(callerTeam: Team, creatorTeam: Team) {
    callerTeam == creatorTeam
  }

  /** Update and delete: the caller is in the parent creator's team, or the
      subtask is tagged with a team of the caller's team's name. */
  predicate MayChangeSubTask(callerTeam: Team, ownerTeam: Team, sub: SubTask) {
    callerTeam == ownerTeam || TeamName(callerTeam) in sub.teams
  }

  /** A subtask update body. Whether the subtask serializer accepts it is decided outside this model. */
  datatype SubTaskPatch = SubTaskPatch(subTitle: Option<string>, subContent: Option<string>,
                                       teams: Option<set<string>>, isComplete: Option<bool>)

  const UncompleteOnly: SubTaskPatch := SubTaskPatch(None, None, None, Some(false))

  /** The completed-subtask guard: the data handed to the serializer, or None for a 403.
      While complete, only a body with `is_complete` false gets through, and then only that field. */
  function GuardedInput(sub: SubTask, req: SubTaskPatch): (r: Option<SubTaskPatch>)
    ensures r.None? <==> sub.isComplete && req.isComplete != Some(false)
    ensures sub.isComplete && r.Some? ==> r.value == UncompleteOnly
    ensures !sub.isComplete ==> r == Some(req)
  {
    if !sub.isComplete then Some(req)
    else if req.isComplete == Some(false) then Some(UncompleteOnly)
    else None
  }

  /** Nothing is saved unless the validated flag differs from the stored one (absent counts as different). */
  predicate SubTaskFlagChanged(sub: SubTask, data: SubTaskPatch) {
    data.isComplete != Some(sub.isComplete)
  }

  /** The subtask saved by an update whose flag changed. */
  function SavedSubTask(sub: SubTask, data: SubTaskPatch, now: Time): (r: SubTask)
    ensures r.task == sub.task && r.createUser == sub.createUser
    ensures r.subTitle == data.subTitle.GetOr(sub.subTitle)
    ensures r.subContent == data.subContent.GetOr(sub.subContent)
    ensures r.teams == data.teams.GetOr(sub.teams)
    ensures r.isComplete == data.isComplete.GetOr(sub.isComplete)
    ensures data.isComplete == Some(true) ==> r.completedDate == Some(now)
    ensures data.isComplete != Some(true) ==> r.completedDate == None
  {
    SubTask(sub.task, sub.createUser,
            data.subTitle.GetOr(sub.subTitle), data.subContent.GetOr(sub.subContent),
            data.teams.GetOr(sub.teams), data.isComplete.GetOr(sub.isComplete),
            if data.isComplete == Some(true) then Some(now) else None)
  }

  /** What a subtask update comes to before anything is written. */
  datatype SubTaskStep = Refuse | Invalid | NoChange | Save(data: SubTaskPatch)

  /** The update handler's decision: the team rule, the completed-subtask guard,
      the serializer's verdict (it only sees a body on an incomplete subtask, since
      the guard's own `{"is_complete": false}` is always valid), and the flag test. */
  function SubTaskUpdateStep(callerTeam: Team, ownerTeam: Team, sub: SubTask, req: SubTaskPatch,
                             accepted: bool): (r: SubTaskStep)
    ensures r.Refuse? <==>
      !MayChangeSubTask(callerTeam, ownerTeam, sub) || (sub.isComplete && req.isComplete != Some(false))
    ensures r.Invalid? <==>
      MayChangeSubTask(callerTeam, ownerTeam, sub) && !sub.isComplete && !accepted
    ensures r.NoChange? ==> MayChangeSubTask(callerTeam, ownerTeam, sub) && !sub.isComplete && req.isComplete == Some(false)
    ensures r.Save? ==> MayChangeSubTask(callerTeam, ownerTeam, sub) && SubTaskFlagChanged(sub, r.data)
    ensures r.Save? && sub.isComplete ==> r.data == UncompleteOnly
    ensures r.Save? && !sub.isComplete ==> r.data == req && req.isComplete != Some(false)
  {
    if !MayChangeSubTask(callerTeam, ownerTeam, sub) then Refuse
    else
      match GuardedInput(sub, req)
      case None => Refuse
      case Some(data) =>
        if !sub.isComplete && !accepted then Invalid
        else if SubTaskFlagChanged(sub, data) then Save(data)
        else NoChange
  }

  /** Every save the decision allows leaves the subtask's flag and date in agreement. */
  lemma SaveKeepsCompletionConsistent(callerTeam: Team, ownerTeam: Team, sub: SubTask, req: SubTaskPatch,
                                      accepted: bool, now: Time)
    requires SubTaskUpdateStep(callerTeam, ownerTeam, sub, req, accepted).Save?
    ensures var saved := SavedSubTask(sub, SubTaskUpdateStep(callerTeam, ownerTeam, sub, req, accepted).data, now);
      CompletionConsistent(saved.isComplete, saved.completedDate)
  {
  }

  /** Every subtask of the task is complete (true when it has none). */
  predicate AllComplete(subs: map<nat, SubTask>, taskId: nat) {
    forall id :: id in subs && subs[id].task == taskId ==> subs[id].isComplete
  }

  /** The parent after recomputation: complete iff all subtasks are, date stamped or cleared, saved. */
  function Propagated(t: Task, allComplete: bool, now: Time): (r: Task)
    ensures r.isComplete == allComplete && CompletionConsistent(r.isComplete, r.completedDate)
    ensures allComplete ==> r.completedDate == Some(now)
    ensures r.createUser == t.createUser && r.title == t.title && r.content == t.content
    ensures r.createdAt == t.createdAt && r.modifiedAt == now
  {
    t.(isComplete := allComplete, completedDate := if allComplete then Some(now) else None, modifiedAt := now)
  }

  /** Replacing one subtask of a task: all are complete iff the new one is and every sibling is. */
  lemma AllCompleteAfterSave(subs: map<nat, SubTask>, id: nat, s: SubTask)
    requires id in subs && s.task == subs[id].task
    ensures AllComplete(subs[id := s], s.task) <==>
      s.isComplete && forall o :: o in subs && o != id && subs[o].task == s.task ==> subs[o].isComplete
  {
    var m := subs[id := s];
    if AllComplete(m, s.task) {
      assert id in m && m[id].task == s.task;
      forall o | o in subs && o != id && subs[o].task == s.task ensures subs[o].isComplete {
        assert m[o] == subs[o];
      }
    }
    if s.isComplete && forall o :: o in subs && o != id && subs[o].task == s.task ==> subs[o].isComplete {
      forall k | k in m && m[k].task == s.task ensures m[k].isComplete {
        if k != id {
          assert m[k] == subs[k];
        }
      }
    }
  }

  /** Un-completing a subtask always un-completes its parent. */
  lemma UncompletingBlocksParent(subs: map<nat, SubTask>, id: nat, now: Time)
    requires id in subs
    ensures !AllComplete(subs[id := SavedSubTask(subs[id], UncompleteOnly, now)], subs[id].task)
  {
    AllCompleteAfterSave(subs, id, SavedSubTask(subs[id], UncompleteOnly, now));
  }

  /** A task without subtasks counts as complete. */
  lemma NoSubTasksIsComplete(subs: map<nat, SubTask>, taskId: nat)
    requires forall id :: id in subs ==> subs[id].task != taskId
    ensures AllComplete(subs, taskId)
  {
  }

  // ---------------------------------------------------------------------------
  // List filters

  /** Tasks whose creator's team value is `name`. */
  function TasksOfTeam(tasks: map<nat, Task>, users: map<nat, User>, name: string): (ids: set<nat>)
    ensures forall id :: id in ids <==>
      id in tasks && tasks[id].createUser in users && TeamName(users[tasks[id].createUser].team) == name
  {
    set id | id in tasks && tasks[id].createUser in users && TeamName(users[tasks[id].createUser].team) == name
  }

  /** Subtasks tagged with a team named `name`. */
  function SubTasksOfTeam(subs: map<nat, SubTask>, name: string): (ids: set<nat>)
    ensures forall id :: id in ids <==> id in subs && name in subs[id].teams
  {
    set id | id in subs && name in subs[id].teams
  }

  /** The two response shapes of the list endpoint. */
  datatype Listing = AllTasks(tasks: set<nat>) | TeamListing(tasks: set<nat>, subtasks: set<nat>)

  /** The list endpoint: a non-empty `team` query parameter filters, otherwise every task. */
  function TaskListing(tasks: map<nat, Task>, users: map<nat, User>, subs: map<nat, SubTask>,
                       team: Option<string>): (r: Listing)
    ensures team.None? || team.value == "" ==> r == AllTasks(tasks.Keys)
    ensures team.Some? && team.value != "" ==>
      && r.TeamListing?
      && (forall id :: id in r.tasks <==>
            id in tasks && tasks[id].createUser in users && TeamName(users[tasks[id].createUser].team) == team.value)
      && (forall id :: id in r.subtasks <==> id in subs && team.value in subs[id].teams)
  {
    if team.Some? && team.value != "" then
      TeamListing(TasksOfTeam(tasks, users, team.value), SubTasksOfTeam(subs, team.value))
    else AllTasks(tasks.Keys)
  }

  /** The my-team endpoint. */
  function MyTeamListing(tasks: map<nat, Task>, users: map<nat, User>, subs: map<nat, SubTask>,
                         team: Team): Listing
  {
    TeamListing(TasksOfTeam(tasks, users, TeamName(team)), SubTasksOfTeam(subs, TeamName(team)))
  }

  /** The my-team list is the team filter keyed on the caller's team. */
  lemma MyTeamListingIsTeamFilter(tasks: map<nat, Task>, users: map<nat, User>, subs: map<nat, SubTask>, team: Team)
    ensures MyTeamListing(tasks, users, subs, team) == TaskListing(tasks, users, subs, Some(TeamName(team)))
  {
  }

  /** The union of the team filters over a list of teams. */
  function TasksOfTeams(tasks: map<nat, Task>, users: map<nat, User>, ts: seq<Team>): set<nat>
    decreases |ts|
  {
    if ts == [] then {} else TasksOfTeam(tasks, users, TeamName(ts[0])) + TasksOfTeams(tasks, users, ts[1..])
  }

  lemma {:induction false} TasksOfTeamsMembers(tasks: map<nat, Task>, users: map<nat, User>, ts: seq<Team>)
    ensures forall id :: id in TasksOfTeams(tasks, users, ts) <==>
      id in tasks && tasks[id].createUser in users && users[tasks[id].createUser].team in ts
    decreases |ts|
  {
    if ts != [] {
      TasksOfTeamsMembers(tasks, users, ts[1..]);
      forall id | id in tasks && tasks[id].createUser in users
        ensures id in TasksOfTeam(tasks, users, TeamName(ts[0])) <==> users[tasks[id].createUser].team == ts[0]
      {
        TeamNameInjective(users[tasks[id].createUser].team, ts[0]);
      }
      assert ts == [ts[0]] + ts[1..];
    }
  }

  /** The seven team listings together hold every task. */
  lemma TeamListingsCoverTasks(tasks: map<nat, Task>, users: map<nat, User>)
    requires forall id :: id in tasks ==> tasks[id].createUser in users
    ensures TasksOfTeams(tasks, users, Teams) == tasks.Keys
  {
    TasksOfTeamsMembers(tasks, users, Teams);
    forall t: Team ensures t in Teams {
      TeamsAreSevenValues();
    }
  }

  /** No task is in two team listings. */
  lemma TeamListingsDisjoint(tasks: map<nat, Task>, users: map<nat, User>, t1: Team, t2: Team)
    requires t1 != t2
    ensures TasksOfTeam(tasks, users, TeamName(t1)) !! TasksOfTeam(tasks, users, TeamName(t2))
  {
    TeamNameInjective(t1, t2);
  }

  /** A name that is not a team value lists no task (subtask tags are free names and may still match). */
  lemma UnknownTeamListsNoTask(tasks: map<nat, Task>, users: map<nat, User>, name: string)
    requires ParseTeam(name).None?
    ensures TasksOfTeam(tasks, users, name) == {}
  {
  }
}
