/** The task serializers: which fields a create and a partial update may write,
    and what a task looks like in a response. */
module TaskSerializers {
  import opened Common
  import opened UserModels
  import opened TaskModels

  datatype TaskField = TitleField | ContentField

  /** The body values the create endpoint reads. `pk` is passed on and ignored. */
  datatype CreateRequest = CreateRequest(pk: Option<nat>, title: Option<string>, content: Option<string>)

  /** `title`: required, not blank, at most 255 characters. */
  predicate TitleFine(title: string) {
    0 < |title| <= TitleMaxLength
  }

  /** `content`: required, not blank. */
  predicate ContentFine(content: string) {
    0 < |content|
  }

  function CreateErrors(req: CreateRequest): (errs: set<TaskField>)
    ensures TitleField in errs <==> req.title.None? || !TitleFine(req.title.value)
    ensures ContentField in errs <==> req.content.None? || !ContentFine(req.content.value)
    ensures errs == {} <==> req.title.Some? && req.content.Some? && TitleFine(req.title.value) && ContentFine(req.content.value)
  {
    (if req.title.Some? && TitleFine(req.title.value) then {} else {TitleField})
    + (if req.content.Some? && ContentFine(req.content.value) then {} else {ContentField})
  }

  /** The create serializer's output. `team` is read through the creator. */
  datatype CreatedTask = CreatedTask(pk: nat, createUser: string, team: Team,
                                     title: string, content: string, createdAt: Time)

  function CreateOutput(pk: nat, t: Task, creator: User): (out: CreatedTask)
    ensures out.pk == pk && out.title == t.title && out.content == t.content && out.createdAt == t.createdAt
    ensures out.createUser == UserString(creator) && out.team == creator.team
  {
    CreatedTask(pk, UserString(creator), creator.team, t.title, t.content, t.createdAt)
  }

  /** The detail serializer's output: every model field, plus the creator's team. */
  datatype TaskOut = TaskOut(pk: nat, createUser: string, team: Team, title: string, content: string,
                             isComplete: bool, completedDate: Option<Time>,
                             createdAt: Time, modifiedAt: Time)

  function Represent(pk: nat, t: Task, creator: User): (out: TaskOut)
    ensures out.pk == pk
    ensures out.createUser == UserString(creator) && out.team == creator.team
    ensures out.title == t.title && out.content == t.content
    ensures out.isComplete == t.isComplete && out.completedDate == t.completedDate
    ensures out.createdAt == t.createdAt && out.modifiedAt == t.modifiedAt
  {
    TaskOut(pk, UserString(creator), creator.team, t.title, t.content,
            t.isComplete, t.completedDate, t.createdAt, t.modifiedAt)
  }

  /** A partial update: one optional per writable field. The read-only fields
      (pk, create_user, team, created_at, modified_at) have no slot, so a body
      cannot change them. `completedDate == Some(None)` is an explicit null. */
  datatype TaskPatch = TaskPatch(title: Option<string>, content: Option<string>,
                                 isComplete: Option<bool>, completedDate: Option<Option<Time>>)

  function PatchErrors(p: TaskPatch): (errs: set<TaskField>)
    ensures TitleField in errs <==> p.title.Some? && !TitleFine(p.title.value)
    ensures ContentField in errs <==> p.content.Some? && !ContentFine(p.content.value)
  {
    (if p.title.Some? && !TitleFine(p.title.value) then {TitleField} else {})
    + (if p.content.Some? && !ContentFine(p.content.value) then {ContentField} else {})
  }

  /** Saving a partial update: each supplied field is written, the rest are kept,
      and `modified_at` is refreshed. */
  function ApplyPatch(t: Task, p: TaskPatch, now: Time): (r: Task)
    ensures r.createUser == t.createUser && r.createdAt == t.createdAt && r.modifiedAt == now
    ensures p.title.Some? ==> r.title == p.title.value
    ensures p.title.None? ==> r.title == t.title
    ensures p.content.Some? ==> r.content == p.content.value
    ensures p.content.None? ==> r.content == t.content
    ensures p.isComplete.Some? ==> r.isComplete == p.isComplete.value
    ensures p.isComplete.None? ==> r.isComplete == t.isComplete
    ensures p.completedDate.Some? ==> r.completedDate == p.completedDate.value
    ensures p.completedDate.None? ==> r.completedDate == t.completedDate
  {
    t.(title := p.title.GetOr(t.title),
       content := p.content.GetOr(t.content),
       isComplete := p.isComplete.GetOr(t.isComplete),
       completedDate := p.completedDate.GetOr(t.completedDate),
       modifiedAt := now)
  }

  /** The patch that supplies what `q` supplies and otherwise what `p` supplies. */
  function Merge(p: TaskPatch, q: TaskPatch): TaskPatch {
    TaskPatch(if q.title.Some? then q.title else p.title,
              if q.content.Some? then q.content else p.content,
              if q.isComplete.Some? then q.isComplete else p.isComplete,
              if q.completedDate.Some? then q.completedDate else p.completedDate)
  }

  /** Two partial updates in a row are one update with the later values winning. */
  lemma ApplyPatchCompose(t: Task, p: TaskPatch, q: TaskPatch, n1: Time, n2: Time)
    ensures ApplyPatch(ApplyPatch(t, p, n1), q, n2) == ApplyPatch(t, Merge(p, q), n2)
  {
  }

  /** A partial update is idempotent. */
  lemma ApplyPatchIdempotent(t: Task, p: TaskPatch, now: Time)
    ensures ApplyPatch(ApplyPatch(t, p, now), p, now) == ApplyPatch(t, p, now)
  {
  }
}
