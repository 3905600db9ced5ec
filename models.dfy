/** The server's stored records (todos/models.py): the Todo row with its
    choices and defaults, the Category row with its (name, user) uniqueness,
    and the `completed_at` rule that `Todo.save` applies before persisting. */
module Models {
  import opened Common

  type UserId = nat
  type TodoId = string
  type CategoryId = string

  datatype Priority = Low | Medium | High

  /** The stored code of each priority choice. */
  function PriorityCode(p: Priority): string {
    match p
    case Low => "low"
    case Medium => "medium"
    case High => "high"
  }

  /** Choice validation: only the three codes are accepted. */
  function ParsePriority(s: string): (r: Option<Priority>)
    ensures r.Some? <==> s in {"low", "medium", "high"}
    ensures r.Some? ==> PriorityCode(r.value) == s
  {
    if s == "low" then Some(Low)
    else if s == "medium" then Some(Medium)
    else if s == "high" then Some(High)
    else None
  }

  datatype Recurrence = NoRecurrence | Daily | Weekly | Monthly | Yearly

  function RecurrenceCode(r: Recurrence): string {
    match r
    case NoRecurrence => "none"
    case Daily => "daily"
    case Weekly => "weekly"
    case Monthly => "monthly"
    case Yearly => "yearly"
  }

  function ParseRecurrence(s: string): (r: Option<Recurrence>)
    ensures r.Some? <==> s in {"none", "daily", "weekly", "monthly", "yearly"}
    ensures r.Some? ==> RecurrenceCode(r.value) == s
  {
    if s == "none" then Some(NoRecurrence)
    else if s == "daily" then Some(Daily)
    else if s == "weekly" then Some(Weekly)
    else if s == "monthly" then Some(Monthly)
    else if s == "yearly" then Some(Yearly)
    else None
  }

  /** Every choice has a distinct code, so parsing a stored code gives the choice back. */
  lemma CodesRoundTrip(p: Priority, r: Recurrence)
    ensures ParsePriority(PriorityCode(p)) == Some(p)
    ensures ParseRecurrence(RecurrenceCode(r)) == Some(r)
  {
  }

  /** A Todo row. Timestamps are whole seconds; the many-to-many
      `shared_with` relation is held as the set of user ids, and
      `parent_todo` as the parent's id. */
  datatype Todo = Todo(
    id: TodoId,
    owner: UserId,
    title: string,
    description: string,
    category: Option<CategoryId>,
    priority: Priority,
    dueDate: Option<int>,
    completed: bool,
    completedAt: Option<int>,
    createdAt: int,
    isPinned: bool,
    isArchived: bool,
    position: int,
    parent: Option<TodoId>,
    isShared: bool,
    sharedWith: set<UserId>,
    isRecurring: bool,
    recurrence: Recurrence,
    tags: seq<string>,
    estimatedMinutes: Option<int>)

  /** A row created with only its required fields given: every other
      field takes the default the model declares. */
  function NewTodo(id: TodoId, owner: UserId, title: string, createdAt: int): (t: Todo)
    ensures t.priority == Medium && t.position == 0 && !t.isArchived
    ensures t.recurrence == NoRecurrence && !t.isRecurring
    ensures !t.completed && t.completedAt == None && !t.isPinned && !t.isShared
    ensures t.description == "" && t.category == None && t.dueDate == None
    ensures t.tags == [] && t.sharedWith == {} && t.estimatedMinutes == None && t.parent == None
    ensures t.id == id && t.owner == owner && t.title == title && t.createdAt == createdAt
  {
    Todo(id, owner, title, "", None, Medium, None, false, None, createdAt,
         false, false, 0, None, false, {}, false, NoRecurrence, [], None)
  }

  /** The invariant `save` establishes: a completion time exactly when completed. */
  predicate CompletionConsistent(t: Todo) {
    t.completedAt.None? <==> !t.completed
  }

  /** The row `Todo.save` persists, given the clock reading `now`. */
  function Saved(t: Todo, now: int): (r: Todo)
    ensures CompletionConsistent(r)
    ensures t.completed && t.completedAt.Some? ==> r.completedAt == t.completedAt
    ensures t.completed && t.completedAt.None? ==> r.completedAt == Some(now)
    ensures r == t.(completedAt := r.completedAt)
  {
    if t.completed && t.completedAt.None? then t.(completedAt := Some(now))
    else if !t.completed then t.(completedAt := None)
    else t
  }

  /** Saving twice is saving once: the second save finds the row consistent. */
  lemma SaveIdempotent(t: Todo, now: int, later: int)
    ensures Saved(Saved(t, now), later) == Saved(t, now)
  {
  }

  /** A model instance whose fields `save` updates in place. */
  class TodoInstance {
    var row: Todo

    constructor (t: Todo)
      ensures row == t
    {
      row := t;
    }

    /** Applies the `completed_at` rule to the instance's fields; the
        database write that follows is not modelled. */
    method Save(now: int)
      modifies this
      ensures row == Saved(old(row), now)
      ensures CompletionConsistent(row)
    {
      if row.completed && row.completedAt.None? {
        row := row.(completedAt := Some(now));
      } else if !row.completed {
        row := row.(completedAt := None);
      }
    }
  }

  datatype Category = Category(id: CategoryId, name: string, owner: UserId, color: string, icon: string)

  /** A category created with only its name and owner given. */
  function NewCategory(id: CategoryId, name: string, owner: UserId): (c: Category)
    ensures c.color == "#6366f1" && c.icon == "📁"
    ensures c.id == id && c.name == name && c.owner == owner
  {
    Category(id, name, owner, "#6366f1", "📁")
  }

  /** The `unique_together = ['name', 'user']` constraint over the table. */
  predicate UniqueNamePerUser(cats: seq<Category>) {
    forall i, j :: 0 <= i < j < |cats| ==>
      !(cats[i].name == cats[j].name && cats[i].owner == cats[j].owner)
  }

  datatype DbError = IntegrityError

  /** Inserting a category: the database refuses a second (name, user) pair. */
  function InsertCategory(cats: seq<Category>, c: Category): (r: Result<seq<Category>, DbError>)
    ensures r.Ok? <==> forall i :: 0 <= i < |cats| ==> !(cats[i].name == c.name && cats[i].owner == c.owner)
    ensures r.Ok? ==> r.value == cats + [c]
    ensures r.Err? ==> exists i :: 0 <= i < |cats| && cats[i].name == c.name && cats[i].owner == c.owner
  {
    if exists i :: 0 <= i < |cats| && cats[i].name == c.name && cats[i].owner == c.owner
    then Err(IntegrityError)
    else Ok(cats + [c])
  }

  /** Every successful insert keeps the table free of duplicate pairs. */
  lemma InsertKeepsUnique(cats: seq<Category>, c: Category)
    requires UniqueNamePerUser(cats)
    requires InsertCategory(cats, c).Ok?
    ensures UniqueNamePerUser(InsertCategory(cats, c).value)
  {
    var r := cats + [c];
    forall i, j | 0 <= i < j < |r|
      ensures !(r[i].name == r[j].name && r[i].owner == r[j].owner)
    {
      if j == |cats| {
        assert r[i] == cats[i];
      } else {
        assert r[i] == cats[i] && r[j] == cats[j];
      }
    }
  }
}
