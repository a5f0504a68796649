/** The service: one store of users, tasks and subtasks, and one method per
    request handler. Every handler receives the request's principal explicitly,
    and every handler that stamps a time receives the clock reading `now`. */
module Service {
  import opened Common
  import opened UserModels
  import opened UserSerializers
  import opened UserViews
  import opened TaskModels
  import opened TaskSerializers
  import opened TaskRules

  class Store {
    /** The credential hasher; a stored password is its image of the plaintext. */
    const hasher: string -> string

    var users: map<nat, User>
    var tasks: map<nat, Task>
    var subtasks: map<nat, SubTask>
    // the next primary key each table hands out
    var nextUser: nat
    var nextTask: nat
    var nextSubTask: nat

    /** The store invariant: keys below their counters, every task's creator is
        stored, usernames unique, and every subtask's flag agrees with its date. */
    ghost predicate Valid()
      reads this
    {
      && (forall pk :: pk in users ==> pk < nextUser)
      && (forall id :: id in tasks ==> id < nextTask && tasks[id].createUser in users)
      && (forall id :: id in subtasks ==> id < nextSubTask)
      && (forall id :: id in subtasks ==> CompletionConsistent(subtasks[id].isComplete, subtasks[id].completedDate))
      && UniqueUsernames(users)
    }

    /** An authenticated principal names a stored user. */
    predicate Known(p: Principal)
      reads this
    {
      p.Authenticated? ==> p.pk in users
    }

    /** What no handler ever changes: users stay, and a task keeps its creator and creation time. */
    twostate predicate RecordsKept()
      reads this
    {
      && old(users).Keys <= users.Keys
      && (forall id :: id in old(tasks) && id in tasks ==>
            tasks[id].createUser == old(tasks[id].createUser) && tasks[id].createdAt == old(tasks[id].createdAt))
    }

    constructor (hasher: string -> string)
      ensures Valid() && this.hasher == hasher
      ensures users == map[] && tasks == map[] && subtasks == map[]
    {
      this.hasher := hasher;
      users, tasks, subtasks := map[], map[], map[];
      nextUser, nextTask, nextSubTask := 1, 1, 1;
    }

    // -------------------------------------------------------------------------
    // users/views.py

    /** Sign-up: validate the form against the stored usernames, then insert the user. */
    method SignUp(form: SignupForm, now: Time) returns (status: Status, reply: SignupReply)
      requires Valid()
      modifies this
      ensures Valid() && RecordsKept()
      ensures tasks == old(tasks) && subtasks == old(subtasks)
      ensures var v := ValidateSignup(form, Usernames(old(users)), hasher);
        && (v.Reject? ==> status == BadRequest && reply == SignupInvalid(v.errors) && unchanged(this))
        && (v.Accept? ==>
              var pk := old(nextUser);
              && status == Created && pk !in old(users)
              && users == old(users)[pk := NewUser(v.username, v.passwordHash, v.team, now)]
              && reply == SignedUp(pk, v.username, v.team, SignupMessage(v.team, v.username)))
      ensures status == Created ==> |users| == |old(users)| + 1
      ensures status != Created ==> users == old(users)
    {
      var v := ValidateSignup(form, Usernames(users), hasher);
      if v.Reject? {
        return BadRequest, SignupInvalid(v.errors);
      }
      var pk := nextUser;
      var user := NewUser(v.username, v.passwordHash, v.team, now);
      AddFreshNameKeepsUnique(users, pk, user);
      assert |users[pk := user]| == |users| + 1;
      users := users[pk := user];
      nextUser := nextUser + 1;
      status, reply := Created, SignedUp(pk, user.username, user.team, SignupMessage(user.team, user.username));
    }

    /** The user with this username whose stored hash is the hash of this password. */
    predicate CredentialsMatch(pk: nat, username: string, password: string)
      reads this
    {
      pk in users && users[pk].username == username && users[pk].password == hasher(password)
    }

    /** Authentication: the stored user the credentials identify, if any. */
    method Authenticate(username: string, password: string) returns (found: Option<nat>)
      requires Valid()
      ensures found.Some? ==> CredentialsMatch(found.value, username, password)
      ensures found.None? ==> forall pk :: !CredentialsMatch(pk, username, password)
    {
      if pk :| pk in users && CredentialsMatch(pk, username, password) {
        found := Some(pk);
      } else {
        found := None;
      }
    }

    /** Log-in: 400 when a field is missing, 200 and a new session principal when the
        credentials match, and 401 with one message whichever field was wrong. */
    method LogIn(principal: Principal, form: LoginForm, now: Time)
      returns (status: Status, reply: LoginReply, session: Principal)
      requires Valid()
      modifies this
      ensures Valid() && RecordsKept()
      ensures tasks == old(tasks) && subtasks == old(subtasks)
      ensures MissingCredentials(form) ==>
        status == BadRequest && reply == LoginRefused(MissingCredentialsMessage)
        && session == principal && unchanged(this)
      ensures !MissingCredentials(form) && (forall pk :: !old(CredentialsMatch(pk, form.username.value, form.password.value))) ==>
        status == Unauthorized && reply == LoginRefused(BadCredentialsMessage)
        && session == principal && unchanged(this)
      ensures !MissingCredentials(form) && (exists pk :: old(CredentialsMatch(pk, form.username.value, form.password.value))) ==>
        && status == OK && session.Authenticated?
        && old(CredentialsMatch(session.pk, form.username.value, form.password.value))
        && users == old(users)[session.pk := old(users)[session.pk].(lastLogin := now)]
        && reply == LoggedIn(session.pk, old(users)[session.pk].username, old(users)[session.pk].team,
                             LoginMessage(old(users)[session.pk].team, old(users)[session.pk].username))
    {
      if MissingCredentials(form) {
        return BadRequest, LoginRefused(MissingCredentialsMessage), principal;
      }
      var found := Authenticate(form.username.value, form.password.value);
      if found.None? {
        forall pk ensures !old(CredentialsMatch(pk, form.username.value, form.password.value)) {
          assert !CredentialsMatch(pk, form.username.value, form.password.value);
        }
        return Unauthorized, LoginRefused(BadCredentialsMessage), principal;
      }
      var pk := found.value;
      var user := users[pk];
      users := users[pk := user.(lastLogin := now)];
      status, session := OK, Authenticated(pk);
      reply := LoggedIn(pk, user.username, user.team, LoginMessage(user.team, user.username));
    }

    /** Log-out: reachable only by an authenticated principal; the session becomes anonymous. */
    method LogOut(principal: Principal) returns (status: Status, message: string, session: Principal)
      requires principal.Authenticated?
      ensures status == OK && message == LogoutMessage && session == Anonymous
    {
      status, message, session := OK, LogoutMessage, Anonymous;
    }

    // -------------------------------------------------------------------------
    // tasks/views.py: tasks

    /** Task creation: 401 for an anonymous caller; the creator is the principal, never the body. */
    method CreateTask(principal: Principal, req: CreateRequest, now: Time)
      returns (status: Status, out: Option<CreatedTask>, errors: set<TaskField>)
      requires Valid() && Known(principal)
      modifies this
      ensures Valid() && RecordsKept()
      ensures users == old(users) && subtasks == old(subtasks)
      ensures principal.Anonymous? ==> status == Unauthorized && out == None && unchanged(this)
      ensures principal.Authenticated? && CreateErrors(req) != {} ==>
        status == BadRequest && errors == CreateErrors(req) && out == None && unchanged(this)
      ensures principal.Authenticated? && CreateErrors(req) == {} ==>
        var id := old(nextTask);
        && status == Created && id !in old(tasks)
        && tasks == old(tasks)[id := NewTask(principal.pk, req.title.value, req.content.value, now)]
        && out == Some(CreateOutput(id, tasks[id], users[principal.pk]))
    {
      if principal.Anonymous? {
        return Unauthorized, None, {};
      }
      errors := CreateErrors(req);
      if errors != {} {
        return BadRequest, None, errors;
      }
      var id := nextTask;
      var task := NewTask(principal.pk, req.title.value, req.content.value, now);
      tasks := tasks[id := task];
      nextTask := nextTask + 1;
      status, out := Created, Some(CreateOutput(id, task, users[principal.pk]));
    }

    /** Task update: 404, then 403 for anyone but the creator, then 400, then the
        partial update with the completion-date rule. */
    method UpdateTask(principal: Principal, id: nat, patch: TaskPatch, now: Time)
      returns (status: Status, out: Option<TaskOut>, errors: set<TaskField>)
      requires Valid() && Known(principal)
      modifies this
      ensures Valid() && RecordsKept()
      ensures id !in old(tasks) ==> status == NotFound && unchanged(this)
      ensures id in old(tasks) && !IsCreator(principal, old(tasks)[id]) ==> status == Forbidden && unchanged(this)
      ensures id in old(tasks) && IsCreator(principal, old(tasks)[id]) && PatchErrors(patch) != {} ==>
        status == BadRequest && errors == PatchErrors(patch) && unchanged(this)
      ensures id in old(tasks) && IsCreator(principal, old(tasks)[id]) && PatchErrors(patch) == {} ==>
        && status == OK
        && tasks == old(tasks)[id := UpdatedTask(old(tasks)[id], patch, now)]
        && users == old(users) && subtasks == old(subtasks)
        && out == Some(Represent(id, tasks[id], users[tasks[id].createUser]))
    {
      if id !in tasks {
        return NotFound, None, {};
      }
      var task := tasks[id];
      if !IsCreator(principal, task) {
        return Forbidden, None, {};
      }
      errors := PatchErrors(patch);
      if errors != {} {
        return BadRequest, None, errors;
      }
      var data := patch;
      if TaskFlagChanged(data, task.isComplete) {
        if data.isComplete == Some(true) {
          data := data.(completedDate := Some(Some(now)));
        } else {
          data := data.(completedDate := Some(None));
        }
      }
      var saved := ApplyPatch(task, data, now);
      tasks := tasks[id := saved];
      status, out := OK, Some(Represent(id, saved, users[saved.createUser]));
    }

    /** Task deletion: 404, then 403 for anyone but the creator, then 204. What the
        database does with the task's own subtasks is left open; others are kept. */
    method DeleteTask(principal: Principal, id: nat) returns (status: Status)
      requires Valid() && Known(principal)
      modifies this
      ensures Valid() && RecordsKept()
      ensures id !in old(tasks) ==> status == NotFound && unchanged(this)
      ensures id in old(tasks) && !IsCreator(principal, old(tasks)[id]) ==> status == Forbidden && unchanged(this)
      ensures id in old(tasks) && IsCreator(principal, old(tasks)[id]) ==>
        && status == NoContent
        && tasks == old(tasks) - {id} && users == old(users)
        && subtasks.Keys <= old(subtasks).Keys
        && (forall s :: s in old(subtasks) && old(subtasks)[s].task != id ==> s in subtasks && subtasks[s] == old(subtasks)[s])
    {
      if id !in tasks {
        return NotFound;
      }
      if !IsCreator(principal, tasks[id]) {
        return Forbidden;
      }
      tasks := tasks - {id};
      status := NoContent;
    }

    /** The task list, filtered by a non-empty `team` query parameter. */
    method ListTasks(team: Option<string>) returns (status: Status, listing: Listing)
      requires Valid()
      ensures status == OK && listing == TaskListing(tasks, users, subtasks, team)
    {
      status, listing := OK, TaskListing(tasks, users, subtasks, team);
    }

    /** The caller's team's tasks and the subtasks tagged with it. */
    method ListMyTeam(principal: Principal) returns (status: Status, listing: Listing)
      requires Valid() && principal.Authenticated? && Known(principal)
      ensures status == OK && listing == TaskListing(tasks, users, subtasks, Some(TeamName(users[principal.pk].team)))
    {
      MyTeamListingIsTeamFilter(tasks, users, subtasks, users[principal.pk].team);
      status, listing := OK, MyTeamListing(tasks, users, subtasks, users[principal.pk].team);
    }

    // -------------------------------------------------------------------------
    // tasks/views.py: subtasks

    /** The team of the user who created the parent of `sub`. */
    function OwnerTeam(sub: SubTask): Team
      reads this
      requires Valid() && sub.task in tasks
    {
      users[tasks[sub.task].createUser].team
    }

    /** Subtask creation: 404 for an unknown task, 403 outside the creator's team,
        400 when the serializer refuses the body; the parent is not recomputed. */
    method CreateSubTask(principal: Principal, taskId: nat, subTitle: string, subContent: string,
                         teams: set<string>, accepted: bool)
      returns (status: Status, newId: Option<nat>)
      requires Valid() && principal.Authenticated? && Known(principal)
      modifies this
      ensures Valid() && RecordsKept()
      ensures taskId !in old(tasks) ==> status == NotFound && unchanged(this)
      ensures taskId in old(tasks) && !MayAddSubTask(old(users)[principal.pk].team, old(users)[old(tasks)[taskId].createUser].team) ==>
        status == Forbidden && unchanged(this)
      ensures taskId in old(tasks) && MayAddSubTask(old(users)[principal.pk].team, old(users)[old(tasks)[taskId].createUser].team) && !accepted ==>
        status == BadRequest && unchanged(this)
      ensures taskId in old(tasks) && MayAddSubTask(old(users)[principal.pk].team, old(users)[old(tasks)[taskId].createUser].team) && accepted ==>
        var id := old(nextSubTask);
        && status == Created && newId == Some(id) && id !in old(subtasks)
        && subtasks == old(subtasks)[id := SubTask(taskId, principal.pk, subTitle, subContent, teams, false, None)]
        && tasks == old(tasks) && users == old(users)
    {
      if taskId !in tasks {
        return NotFound, None;
      }
      if !MayAddSubTask(users[principal.pk].team, users[tasks[taskId].createUser].team) {
        return Forbidden, None;
      }
      if !accepted {
        return BadRequest, None;
      }
      var id := nextSubTask;
      subtasks := subtasks[id := SubTask(taskId, principal.pk, subTitle, subContent, teams, false, None)];
      nextSubTask := nextSubTask + 1;
      status, newId := Created, Some(id);
    }

    /** The save of a changed subtask followed by the parent's recomputation:
        the parent is complete exactly when all of its subtasks now are. */
    method SaveAndPropagate(subId: nat, saved: SubTask, now: Time)
      requires Valid() && subId in subtasks && saved.task == subtasks[subId].task && saved.task in tasks
      requires CompletionConsistent(saved.isComplete, saved.completedDate)
      modifies this
      ensures Valid() && RecordsKept()
      ensures subtasks == old(subtasks)[subId := saved]
      ensures tasks == old(tasks)[saved.task := Propagated(old(tasks)[saved.task], AllComplete(subtasks, saved.task), now)]
      ensures users == old(users) && nextUser == old(nextUser)
      ensures nextTask == old(nextTask) && nextSubTask == old(nextSubTask)
    {
      subtasks := subtasks[subId := saved];
      var parent := saved.task;
      var task := tasks[parent];
      if AllComplete(subtasks, parent) {
        task := task.(isComplete := true, completedDate := Some(now));
      } else {
        task := task.(isComplete := false, completedDate := None);
      }
      tasks := tasks[parent := task.(modifiedAt := now)];
    }

    /** Subtask update. The subtask is found by its own key; `taskPk` plays no part.
        `accepted` is the subtask serializer's verdict on a body that reached it.
        A save re-derives the parent's completion from all of its subtasks. */
    method UpdateSubTask(principal: Principal, taskPk: nat, subId: nat, req: SubTaskPatch,
                         accepted: bool, now: Time)
      returns (status: Status)
      requires Valid() && principal.Authenticated? && Known(principal)
      requires subId in subtasks ==> subtasks[subId].task in tasks
      modifies this
      ensures Valid() && RecordsKept()
      ensures subId !in old(subtasks) ==> status == NotFound && unchanged(this)
      ensures subId in old(subtasks) ==>
        var sub := old(subtasks)[subId];
        var step := SubTaskUpdateStep(old(users)[principal.pk].team, old(OwnerTeam(sub)), sub, req, accepted);
        && (step.Refuse? ==> status == Forbidden && unchanged(this))
        && (step.Invalid? ==> status == BadRequest && unchanged(this))
        && (step.NoChange? ==> status == OK && unchanged(this))
        && (step.Save? ==>
              && status == OK
              && subtasks == old(subtasks)[subId := SavedSubTask(sub, step.data, now)]
              && tasks == old(tasks)[sub.task := Propagated(old(tasks)[sub.task], AllComplete(subtasks, sub.task), now)]
              && users == old(users))
    {
      if subId !in subtasks {
        return NotFound;
      }
      var sub := subtasks[subId];
      ghost var step := SubTaskUpdateStep(users[principal.pk].team, OwnerTeam(sub), sub, req, accepted);
      if !MayChangeSubTask(users[principal.pk].team, OwnerTeam(sub), sub) {
        return Forbidden;
      }
      var data: SubTaskPatch;
      if sub.isComplete {
        if req.isComplete == Some(false) {
          data := UncompleteOnly;
        } else {
          return Forbidden;
        }
      } else {
        if !accepted {
          return BadRequest;
        }
        data := req;
      }
      if SubTaskFlagChanged(sub, data) {
        assert step == Save(data);
        SaveKeepsCompletionConsistent(users[principal.pk].team, OwnerTeam(sub), sub, req, accepted, now);
        SaveAndPropagate(subId, SavedSubTask(sub, data, now), now);
      }
      status := OK;
    }

    /** Subtask deletion: 404, 403 by the same rule as update, 403 while complete,
        then 204; the parent is not recomputed. */
    method DeleteSubTask(principal: Principal, taskPk: nat, subId: nat) returns (status: Status)
      requires Valid() && principal.Authenticated? && Known(principal)
      requires subId in subtasks ==> subtasks[subId].task in tasks
      modifies this
      ensures Valid() && RecordsKept()
      ensures subId !in old(subtasks) ==> status == NotFound && unchanged(this)
      ensures subId in old(subtasks) ==>
        var sub, caller := old(subtasks)[subId], old(users)[principal.pk].team;
        var may := MayChangeSubTask(caller, old(OwnerTeam(sub)), sub);
        && (!may ==> status == Forbidden && unchanged(this))
        && (may && sub.isComplete ==> status == Forbidden && unchanged(this))
        && (may && !sub.isComplete ==>
              status == NoContent && subtasks == old(subtasks) - {subId}
              && tasks == old(tasks) && users == old(users))
    {
      if subId !in subtasks {
        return NotFound;
      }
      var sub := subtasks[subId];
      if !MayChangeSubTask(users[principal.pk].team, OwnerTeam(sub), sub) {
        return Forbidden;
      }
      if sub.isComplete {
        return Forbidden;
      }
      subtasks := subtasks - {subId};
      status := NoContent;
    }
  }
}
