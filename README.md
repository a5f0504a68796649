# team-task in Dafny

This is a verified model of the decision layer of the team-task service. The service is a Django REST back end. Users sign up into one of seven teams. They create tasks, and the members of a team work on subtasks under those tasks.

The model has these parts:

- **Records.** The user record, the team enumeration, the task record and a minimal subtask record (`UserModels`, `TaskModels`).
- **Signup serializer.** The username and password validators are modelled down to how Python's `re.match` runs an anchored `{lo,hi}` pattern. That includes the `$` that also matches before one final newline. The serializer's per-field errors are modelled too (`UserSerializers`).
- **Task serializers.** They fix which fields a create and a partial update may write, and they derive the output `team` through the creator (`TaskSerializers`).
- **View rules** (`TaskRules`):
  - the creator and team permission rules;
  - the completion-date rule on task update, with its quirk;
  - the completed-subtask guard;
  - how a subtask's completion propagates to its parent task;
  - the team filters of the list endpoints.
- **Handlers.** `Service.Store` is a class that holds the users, tasks and subtasks as maps, with one method per request handler. Every handler that reads the caller receives the request's principal explicitly. Every handler that stamps a time receives the clock reading `now`. Each handler answers with the status code and updates the maps in place.

The user views live in `UserViews` and `Service.Store.SignUp`, `LogIn` and `LogOut`. The task views are the remaining `Service.Store` methods.

The store's invariant `Valid()` holds that:

- primary keys lie below their counters;
- every task's creator is stored;
- usernames are unique;
- every subtask's completion flag agrees with its completion date.

Every handler preserves `Valid()`. It also preserves `RecordsKept()`: no user disappears, and a task keeps its creator and its creation time.

## Model

| member | source | states |
|---|---|---|
| UserModels.ParseTeam | users/models.py:7-14 | a submitted string is read as team `t` exactly when it equals `t`'s stored value |
| UserModels.TeamsAreSevenValues | users/models.py:7-14 | exactly seven teams, with distinct values; a string parses as a team iff it is one of Danbi, Darae, BlahBlah, Cheolro, Ddange, Haetae, Supie |
| UserModels.TeamNameInjective | users/models.py:7-14 | two teams with the same stored value are the same team |
| UserModels.NewUser | users/models.py:21-33 | a new user is active, not staff, not admin; both timestamps are the creation time; the password field holds the hash |
| UserModels.Usernames | users/models.py:16 | the taken names are exactly the usernames of stored users |
| UserModels.AddFreshNameKeepsUnique | users/models.py:16 | inserting a user under a new key with an untaken name keeps usernames unique |
| UserSerializers.GreedyRun | users/serializers.py:15 | the greedy `[a-zA-Z0-9_]{0,max}` run covers only class characters, and stops at the bound, at the end, or at a non-class character |
| UserSerializers.BacktrackOnlyAtGreedyEnd | users/serializers.py:15 | giving back repetitions never lets `$` match: the pattern matches only where the greedy run ends |
| UserSerializers.PatternMatchesIffAccepted | users/serializers.py:14-26 | the regex engine's answer equals the declarative one: `lo` to `hi` class characters, optionally followed by exactly one newline |
| UserSerializers.ValidateUsername | users/serializers.py:14-19 | a username is accepted iff it is 4 to 16 class characters, optionally with one trailing newline; the value is returned unchanged |
| UserSerializers.ValidatePassword | users/serializers.py:21-26 | a password is accepted iff it is 8 to 16 class characters, optionally with one trailing newline; what is kept is its hash, never the plaintext |
| UserSerializers.AcceptedWithoutNewline | users/serializers.py:14-26 | for values without a newline, acceptance is exactly the length bound plus the character class |
| UserSerializers.TrailingNewline | users/serializers.py:15 | a valid value followed by one newline passes; followed by two, it fails |
| UserSerializers.SignupErrors | users/serializers.py:9-26 | the username errs iff missing, taken or not matching; the password errs iff missing or not matching; the team errs iff given and not a team value |
| UserSerializers.ValidateSignup | users/serializers.py:9-26 | rejection iff some field errs, with exactly those fields; on acceptance: the submitted username, the hash of the submitted password, and the submitted team or Danbi when none is given |
| UserViews.NoSpaceInTeamName | users/models.py:7-14 | no team value contains a space |
| UserViews.TeamPrefixDetermined | users/views.py:30 | two messages that begin with a team value and then a space agree on the team and on the rest |
| UserViews.SignupMessageIdentifiesUser | users/views.py:30 | the signup message determines the team and the username it was built from |
| TaskModels.NewTask | tasks/models.py:12-17 | a new task is not complete, has no completion date, and has both timestamps set to the creation time |
| TaskModels.TasksAfterUserDelete | tasks/models.py:7-11 | deleting a user removes exactly that user's tasks and keeps every other task unchanged |
| TaskModels.UserDeleteKeepsCreatorsStored | tasks/models.py:7-11 | after the cascade, every surviving task's creator is still among the remaining users |
| TaskSerializers.CreateErrors | tasks/models.py:12-13 | the title errs iff missing, empty or longer than 255 characters; the content errs iff missing or empty; no error iff both are fine |
| TaskSerializers.CreateOutput | tasks/serializers.py:5-25 | the create output shows the creator's string form and the creator's team, with the task's title, content and creation time |
| TaskSerializers.Represent | tasks/serializers.py:28-44 | the detail output shows the task's key and every stored field of the task, plus the creator's team |
| TaskSerializers.PatchErrors | tasks/views.py:160-165 | a partial update errs only on a supplied title or content that fails its field rule |
| TaskSerializers.ApplyPatch | tasks/serializers.py:28-44 | each supplied writable field is written and every other field kept; creator and creation time never change; the modification time is refreshed |
| TaskSerializers.ApplyPatchCompose | tasks/serializers.py:28-44 | two partial updates in a row equal one update in which the later values win |
| TaskSerializers.ApplyPatchIdempotent | tasks/serializers.py:28-44 | applying the same partial update twice equals applying it once |
| TaskRules.UpdatedTask | tasks/views.py:165-176 | a flag transition stamps `now` or clears the date whatever the body says; a body without `is_complete` clears the date and keeps the flag; a repeated flag keeps the body's date or the stored one |
| TaskRules.TransitionKeepsCompletionConsistent | tasks/views.py:166-174 | after a real flag transition the task's flag and date agree |
| TaskRules.PatchWithoutFlagClearsDate | tasks/views.py:166-174 | on a completed task, an update without `is_complete` leaves it complete with no completion date |
| TaskRules.GuardedInput | tasks/views.py:310-330 | a completed subtask refuses every body except one whose `is_complete` is false, and then only that field is used; an incomplete subtask passes the body through |
| TaskRules.SavedSubTask | tasks/views.py:333-339 | the saved subtask keeps its parent and creator, takes each supplied field, and its date is `now` iff completed by this update, else none |
| TaskRules.SubTaskUpdateStep | tasks/views.py:302-339 | refusal iff the caller is outside both team rules or the subtask is complete and is not being un-completed; invalid iff allowed, incomplete and not accepted; a save only when the flag changes |
| TaskRules.SaveKeepsCompletionConsistent | tasks/views.py:333-339 | every subtask save the update allows leaves its flag and date in agreement |
| TaskRules.Propagated | tasks/views.py:342-349 | the recomputed parent is complete iff all its subtasks are; its date is `now` when complete and none otherwise; its modification time is refreshed; everything else is kept |
| TaskRules.AllCompleteAfterSave | tasks/views.py:343 | after one subtask is replaced, all of the task's subtasks are complete iff the new one is and every sibling is |
| TaskRules.UncompletingBlocksParent | tasks/views.py:310-349 | un-completing a subtask always leaves its parent incomplete |
| TaskRules.NoSubTasksIsComplete | tasks/views.py:343 | a task without subtasks counts as all-complete |
| TaskRules.TasksOfTeam | tasks/views.py:100 | exactly the tasks whose creator's team value is the given name |
| TaskRules.SubTasksOfTeam | tasks/views.py:102 | exactly the subtasks tagged with the given team name |
| TaskRules.TaskListing | tasks/views.py:95-119 | a non-empty `team` gives the team's tasks and tagged subtasks; a missing or empty one gives every task |
| TaskRules.MyTeamListingIsTeamFilter | tasks/views.py:69-83 | the my-team list equals the list filtered by the caller's team value |
| TaskRules.TasksOfTeamsMembers | tasks/views.py:98-102 | the union of the team filters over a list of teams holds exactly the tasks whose creator is in one of those teams |
| TaskRules.TeamListingsCoverTasks | tasks/views.py:98-102 | the seven team filters together return every task |
| TaskRules.TeamListingsDisjoint | tasks/views.py:98-102 | no task appears under two different teams |
| TaskRules.UnknownTeamListsNoTask | tasks/views.py:98-102 | a name that is not a team value lists no task |
| Service.Store.SignUp | users/views.py:21-34 | 400 with the serializer's errors and nothing stored, or 201 with one new user under a fresh key, its key, username, team and the signup message |
| Service.Store.Authenticate | users/views.py:56 | finds a stored user whose username and password hash match, and finds none only when no such user exists |
| Service.Store.LogIn | users/views.py:48-71 | 400 when a field is missing; 401 with one message whatever was wrong when no stored user matches; 200 whenever one matches, with the matched user as the new session, its last-login stamped, and the login message |
| Service.Store.LogOut | users/views.py:79-92 | an authenticated caller gets 200, the logout message and an anonymous session |
| Service.Store.CreateTask | tasks/views.py:33-58 | 401 for an anonymous caller, 400 with the field errors, else 201 with a new task under a fresh key whose creator is the principal; nothing changes on failure |
| Service.Store.UpdateTask | tasks/views.py:151-179 | 404, then 403 for anyone but the creator, 400 with the field errors, all without change; else 200 and the task replaced by the completion-rule update |
| Service.Store.DeleteTask | tasks/views.py:181-200 | 404, then 403 for anyone but the creator, without change; else 204, the task removed, users and other tasks' subtasks kept |
| Service.Store.ListTasks | tasks/views.py:95-119 | 200 with the team-filtered or full listing of the current store |
| Service.Store.ListMyTeam | tasks/views.py:69-83 | 200 with the listing filtered by the caller's own team |
| Service.Store.CreateSubTask | tasks/views.py:227-254 | 404 for an unknown task, 403 outside the creator's team, 400 when refused, all without change; else 201 and a new incomplete subtask of that task, created by the caller; the parent is not recomputed |
| Service.Store.SaveAndPropagate | tasks/views.py:339-349 | stores the saved subtask and replaces its parent by the recomputed parent; nothing else changes |
| Service.Store.UpdateSubTask | tasks/views.py:299-352 | the subtask is looked up by its own key only; 404, 403 or 400 without change as the update decision says; 200 without change when the flag is unchanged; 200 with the save and the parent's recomputation otherwise |
| Service.Store.DeleteSubTask | tasks/views.py:354-372 | 404; 403 outside both team rules; 403 for a completed subtask; else 204 and only that subtask removed, the parent not recomputed |

## Left out

- Service.Store.DeleteTask: does not state what happens to the deleted task's own subtasks. The subtask model, with its foreign-key deletion rule, is not part of this model. So the store's invariant does not require a subtask's parent to exist, and the subtask handlers require it for the subtask they touch.
- The subtask and team models and the subtask serializers are not part of this model. The subtask record holds only the fields the views use. A new subtask is taken to start incomplete.
- Service.Store.CreateSubTask and Service.Store.UpdateSubTask: the subtask serializer's verdict is the parameter `accepted`, not a rule. The subtask handlers' response bodies are not modelled.
- Anonymous callers of subtask create, update and delete, of logout and of the my-team list are excluded by precondition. The code either raises on them or is guarded by the framework's authentication permission.
- TaskSerializers.CreateErrors and UserSerializers.SignupErrors: the framework's string fields also reject a value that contains a NUL character. That rule is not modelled, so such a title, content or username gets an error from the service but none in the model.
- The framework trims whitespace in string fields before the validators see them. That is not modelled: the validators see the raw value.
- `is_complete` in a request body is a boolean in the model. Python truthiness of other JSON values (`0`, `""`) is not modelled.
- Django's `authenticate`, `login` and `logout` are left out. So are sessions, `make_password`, and the inactive-user check in authentication. Authentication is a lookup of the username and the image of the password under an uninterpreted `hasher`. A successful login stamps `last_login`.
- The clock is the parameter `now`. Date formatting in the serializers is left out.
- Response messages of the task handlers and the GET usage-hint handlers are left out. Status codes are an enumeration, and `Common.Code` gives their numbers.
- The ORM is left out: query sets, `.distinct()`, ordering of list results (listings are sets of keys), and the serializer machinery.
- Concurrency is left out. There is no locking in the service.
- `UserModels.UserString` and `TaskModels.TaskString` (the string forms: username and title) are plain projections and state nothing of their own. `UserString` is the creator shown by `TaskSerializers.CreateOutput` and `TaskSerializers.Represent`. `TaskString` is used only by the admin and the shell, which are not part of this model.
