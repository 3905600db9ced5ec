// The application shell of static/js/app.js: the activity feed's icon and
// message tables, the share dialog's recipient list, the bulk removal of
// completed tasks and the keyboard shortcuts. `escapeHtml` and
// `capitalizeFirst` are defined elsewhere, so they are parameters.

module App {
  import opened Common
  import opened Models

  // ---------------------------------------------------------------------
  // Activity feed

  /** The action codes the activity log records. */
  const LoggedActions: seq<string> :=
    ["created", "updated", "completed", "deleted", "shared", "commented", "attached"]

  /** The icon of each known action. */
  const ActivityIcons: map<string, string> := map[
    "created" := "\U{2795}",
    "updated" := "\U{270F}\U{FE0F}",
    "completed" := "\U{2705}",
    "deleted" := "\U{1F5D1}\U{FE0F}",
    "shared" := "\U{1F91D}",
    "commented" := "\U{1F4AC}",
    "attached" := "\U{1F4CE}"
  ]

  /** The pin shown for any other action. */
  const DefaultIcon: string := "\U{1F4CC}"

  /** `getActivityIcon`: the action's own icon, else the pin. */
  function ActivityIcon(action: string): (r: string)
    ensures action in ActivityIcons ==> r == ActivityIcons[action]
    ensures action !in ActivityIcons ==> r == DefaultIcon
    ensures r != ""
  {
    if action in ActivityIcons then ActivityIcons[action] else DefaultIcon
  }

  /** Every action the log records has an icon of its own: none shows the
      pin and no two share one. */
  lemma LoggedActionsHaveOwnIcons()
    ensures forall a :: a in LoggedActions ==> ActivityIcon(a) != DefaultIcon
    ensures forall j, k :: 0 <= j < k < |LoggedActions| ==>
              ActivityIcon(LoggedActions[j]) != ActivityIcon(LoggedActions[k])
  {
    assert forall a :: a in LoggedActions ==> a in ActivityIcons;
  }

  /** The verb phrase of each known action. */
  const ActivityVerbs: map<string, string> := map[
    "created" := "Created task",
    "completed" := "Completed task",
    "updated" := "Updated task",
    "deleted" := "Deleted task",
    "shared" := "Shared task",
    "commented" := "Commented on",
    "attached" := "Attached file to"
  ]

  /** The quoted, bold title that ends every message. */
  function BoldTitle(escapedTitle: string): string {
    "\"<strong>" + escapedTitle + "</strong>\""
  }

  /** `getActivityMessage`: the action's phrase, or the capitalised action
      for an unknown one, then the escaped title in bold quotes. */
  function ActivityMessage(action: string, title: string, escape: string -> string, capitalize: string -> string): (r: string)
    ensures action in ActivityVerbs ==> r == ActivityVerbs[action] + " " + BoldTitle(escape(title))
    ensures action !in ActivityVerbs ==> r == capitalize(action) + " " + BoldTitle(escape(title))
  {
    var head := if action in ActivityVerbs then ActivityVerbs[action] else capitalize(action);
    head + " " + BoldTitle(escape(title))
  }

  /** Every message ends with the bold, quoted, escaped title; a known
      action's message does not depend on how names are capitalised. */
  lemma MessageEndsWithTitle(action: string, title: string, escape: string -> string,
                             capitalize: string -> string, capitalize2: string -> string)
    ensures var m := ActivityMessage(action, title, escape, capitalize);
            var t := BoldTitle(escape(title));
            |m| > |t| && m[|m| - |t|..] == t
    ensures action in LoggedActions ==>
              ActivityMessage(action, title, escape, capitalize) == ActivityMessage(action, title, escape, capitalize2)
  {
    assert forall a :: a in LoggedActions ==> a in ActivityVerbs;
  }

  datatype Activity = Activity(action: string, todoTitle: string, timestamp: int)

  /** One rendered row of the feed (its relative time is left out). */
  datatype FeedRow = FeedRow(icon: string, message: string)

  datatype Feed = NoRecentActivity | Rows(rows: seq<FeedRow>)

  /** `renderActivityFeed`: a placeholder when there is nothing, else one
      row for each of the first ten activities, in order. */
  function ActivityFeed(activities: seq<Activity>, escape: string -> string, capitalize: string -> string): (r: Feed)
    ensures r.NoRecentActivity? <==> activities == []
    ensures r.Rows? ==> |r.rows| == if |activities| < 10 then |activities| else 10
    ensures r.Rows? ==> forall k :: 0 <= k < |r.rows| ==>
              r.rows[k] == FeedRow(ActivityIcon(activities[k].action),
                                   ActivityMessage(activities[k].action, activities[k].todoTitle, escape, capitalize))
  {
    if activities == [] then NoRecentActivity
    else
      var shown := Take(activities, 10);
      Rows(seq(|shown|, k requires 0 <= k < |shown| =>
        FeedRow(ActivityIcon(shown[k].action), ActivityMessage(shown[k].action, shown[k].todoTitle, escape, capitalize))))
  }

  // ---------------------------------------------------------------------
  // Sharing

  /** A recipient picked in the share dialog; ids arrive as text. */
  datatype ShareUser = ShareUser(id: string, username: string)

  predicate DistinctUserIds(users: seq<ShareUser>) {
    forall j, k :: 0 <= j < k < |users| ==> users[j].id != users[k].id
  }

  /** The recipients' ids, in the order they were picked. */
  function Ids(users: seq<ShareUser>): (r: seq<string>)
    ensures |r| == |users|
    ensures forall k :: 0 <= k < |users| ==> r[k] == users[k].id
  {
    seq(|users|, k requires 0 <= k < |users| => users[k].id)
  }

  /** The request `shareTodo` sends: the todo and the recipients' ids. */
  datatype ShareRequest = ShareRequest(todo: TodoId, userIds: seq<string>)

  /** `currentTodoForShare` and `selectedUsersForShare`. */
  class ShareDialog {
    var currentTodo: Option<TodoId>
    var selected: seq<ShareUser>

    predicate Valid()
      reads this
    {
      DistinctUserIds(selected)
    }

    constructor ()
      ensures currentTodo.None? && selected == [] && Valid()
    {
      currentTodo := None;
      selected := [];
    }

    /** `showShareModal`: a fresh dialog for `todoId`. */
    method Open(todoId: TodoId)
      modifies this
      ensures currentTodo == Some(todoId) && selected == [] && Valid()
    {
      currentTodo := Some(todoId);
      selected := [];
    }

    /** `selectUserForShare`: an id already chosen is ignored; a new one is
        added at the end. */
    method SelectUser(userId: string, username: string)
      requires Valid()
      modifies this
      ensures Valid()
      ensures (exists k :: 0 <= k < |old(selected)| && old(selected)[k].id == userId) ==> selected == old(selected)
      ensures (forall k :: 0 <= k < |old(selected)| ==> old(selected)[k].id != userId) ==>
                selected == old(selected) + [ShareUser(userId, username)]
      ensures currentTodo == old(currentTodo)
    {
      var k := 0;
      while k < |selected|
        invariant 0 <= k <= |selected|
        invariant forall m :: 0 <= m < k ==> selected[m].id != userId
      {
        if selected[k].id == userId {
          return;
        }
        k := k + 1;
      }
      selected := selected + [ShareUser(userId, username)];
    }

    /** `removeUserFromShare`: every entry with that id goes, the others
        keep their order. */
    method RemoveUser(userId: string)
      requires Valid()
      modifies this
      ensures Valid()
      ensures selected == Filter(old(selected), (u: ShareUser) => u.id != userId)
      ensures forall u :: u in selected <==> u in old(selected) && u.id != userId
      ensures currentTodo == old(currentTodo)
    {
      var kept := Filter(selected, (u: ShareUser) => u.id != userId);
      FilterKeepsDistinctIds(selected, userId);
      selected := kept;
    }

    /** `shareTodo`'s guard: with no todo or no recipient it warns and sends
        nothing; otherwise it sends the recipients' ids in order. */
    method ShareTodo() returns (request: Option<ShareRequest>, warned: bool)
      ensures warned <==> !Truthy(currentTodo) || selected == []
      ensures request.None? <==> warned
      ensures request.Some? ==> request.value == ShareRequest(currentTodo.value, Ids(selected))
    {
      if !Truthy(currentTodo) || |selected| == 0 {
        return None, true;
      }
      request := Some(ShareRequest(currentTodo.value, Ids(selected)));
      warned := false;
    }
  }

  /** Removing recipients keeps the ids distinct. */
  lemma {:induction false} FilterKeepsDistinctIds(users: seq<ShareUser>, userId: string)
    requires DistinctUserIds(users)
    ensures DistinctUserIds(Filter(users, (u: ShareUser) => u.id != userId))
    decreases |users|
  {
    if |users| > 0 {
      FilterKeepsDistinctIds(users[1..], userId);
    }
  }

  /** Selecting twice the same id leaves one entry. */
  lemma SelectingTwiceKeepsOne(selected: seq<ShareUser>, u: ShareUser)
    requires forall k :: 0 <= k < |selected| ==> selected[k].id != u.id
    ensures var once := selected + [u];
            (exists k :: 0 <= k < |once| && once[k].id == u.id)
            && |Filter(once, (v: ShareUser) => v.id != u.id)| == |selected|
  {
    var once := selected + [u];
    assert once[|selected|].id == u.id;
    FilterAppend(selected, [u], (v: ShareUser) => v.id != u.id);
    FilterAll(selected, (v: ShareUser) => v.id != u.id);
  }

  // ---------------------------------------------------------------------
  // Deleting completed tasks

  /** What `deleteCompleted` leads to. */
  datatype DeleteOutcome =
    | ThrowsTypeError                            // reading a member of `undefined`
    | NothingToDelete                            // the info toast
    | ConfirmDelete(prompt: string, ids: seq<TodoId>, doneText: string)

  /** `window.x` for a script's top-level `let` binding `x` (the task list,
      the edit target): such a binding never becomes a property of the
      global object, so the read gives `undefined`. */
  function ThroughWindow<T>(): (r: Option<T>)
    ensures r.None?
  {
    None
  }

  predicate IsCompleted(t: Todo) { t.completed }

  /** The ids of `ts`, in order. Kept apart from `Ids`, which reads the
      share dialog's recipients: those ids are the text of checkbox values,
      these are the numeric ids of todos. */
  function TodoIds(ts: seq<Todo>): (r: seq<TodoId>)
    ensures |r| == |ts|
    ensures forall k :: 0 <= k < |ts| ==> r[k] == ts[k].id
  {
    seq(|ts|, k requires 0 <= k < |ts| => ts[k].id)
  }

  /** `deleteCompleted` reading the list it was given. */
  function DeleteCompletedFrom(list: Option<seq<Todo>>): DeleteOutcome {
    if list.None? then ThrowsTypeError
    else
      var done := Filter(list.value, IsCompleted);
      if |done| == 0 then NothingToDelete
      else ConfirmDelete("Delete " + NatText(|done|) + " completed tasks?", TodoIds(done),
                         NatText(|done|) + " completed tasks deleted")
  }

  /** `deleteCompleted` as written, through `window.todos`. */
  function DeleteCompletedAsWritten(): DeleteOutcome
  {
    DeleteCompletedFrom(ThroughWindow<seq<Todo>>())
  }

  /** As written, the Ctrl+D shortcut always fails before deciding anything. */
  lemma DeleteCompletedAlwaysThrows()
    ensures DeleteCompletedAsWritten() == ThrowsTypeError
  {
  }

  /** `deleteCompleted` reading the task list itself: no completed task
      shows the info toast; otherwise the confirmation asks to delete the
      completed tasks' ids, in list order, and counts them. */
  function DeleteCompleted(todos: seq<Todo>): (r: DeleteOutcome)
    ensures !r.ThrowsTypeError?
    ensures r.NothingToDelete? <==> forall t :: t in todos ==> !t.completed
    ensures r.ConfirmDelete? ==> r.ids == TodoIds(Filter(todos, IsCompleted))
    ensures r.ConfirmDelete? ==> r.prompt == "Delete " + NatText(|r.ids|) + " completed tasks?"
  {
    var done := Filter(todos, IsCompleted);
    assert |done| > 0 ==> done[0] in done;
    DeleteCompletedFrom(Some(todos))
  }

  /** The ids sent are exactly those of the completed tasks. */
  lemma DeleteCompletedTargetsCompleted(todos: seq<Todo>)
    requires DeleteCompleted(todos).ConfirmDelete?
    ensures forall id :: id in DeleteCompleted(todos).ids <==> exists t :: t in todos && t.completed && t.id == id
  {
    var ids := DeleteCompleted(todos).ids;
    var done := Filter(todos, IsCompleted);
    forall id ensures id in ids <==> exists t :: t in todos && t.completed && t.id == id {
      if id in ids {
        var k :| 0 <= k < |ids| && ids[k] == id;
        assert done[k] in done;
      }
      if exists t :: t in todos && t.completed && t.id == id {
        var t :| t in todos && t.completed && t.id == id;
        assert t in done;
        var k :| 0 <= k < |done| && done[k] == t;
        assert ids[k] == id;
      }
    }
  }

  // ---------------------------------------------------------------------
  // Keyboard shortcuts

  datatype KeyEvent = KeyEvent(targetTag: string, key: string, ctrlKey: bool, metaKey: bool, shiftKey: bool)

  datatype Command =
    | FocusTitle | FocusSearch | ExportTodos | ToggleTheme | DeleteCompletedTasks
    | SubmitTodoForm | ShowShortcuts | StopEditing

  /** The keydown handler given whether it sees a todo being edited: keys
      typed into a text field are ignored; Ctrl/Cmd with n, f, e, t, d or s
      picks a command (s only while editing); '?' with Shift shows the
      shortcuts and Escape stops editing. */
  function KeyCommands(e: KeyEvent, editing: bool): (r: seq<Command>)
    ensures e.targetTag == "INPUT" || e.targetTag == "TEXTAREA" ==> r == []
    ensures |r| <= 2
    ensures var free := e.targetTag != "INPUT" && e.targetTag != "TEXTAREA";
      var combo := free && (e.ctrlKey || e.metaKey);
      && (FocusTitle in r <==> combo && Lower(e.key) == "n")
      && (FocusSearch in r <==> combo && Lower(e.key) == "f")
      && (ExportTodos in r <==> combo && Lower(e.key) == "e")
      && (ToggleTheme in r <==> combo && Lower(e.key) == "t")
      && (DeleteCompletedTasks in r <==> combo && Lower(e.key) == "d")
      && (SubmitTodoForm in r <==> combo && editing && Lower(e.key) == "s")
      && (StopEditing in r <==> free && editing && e.key == "Escape")
      && (ShowShortcuts in r <==> free && e.key == "?" && e.shiftKey)
  {
    if e.targetTag == "INPUT" || e.targetTag == "TEXTAREA" then []
    else
      var k := Lower(e.key);
      var combo: seq<Command> :=
        if !(e.ctrlKey || e.metaKey) then []
        else if k == "n" then [FocusTitle]
        else if k == "f" then [FocusSearch]
        else if k == "e" then [ExportTodos]
        else if k == "t" then [ToggleTheme]
        else if k == "d" then [DeleteCompletedTasks]
        else if k == "s" && editing then [SubmitTodoForm]
        else [];
      var single: seq<Command> :=
        if e.key == "?" && e.shiftKey then [ShowShortcuts]
        else if e.key == "Escape" && editing then [StopEditing]
        else [];
      combo + single
  }

  /** The handler as written, reading `window.editingId`. */
  function KeyCommandsAsWritten(e: KeyEvent): seq<Command>
  {
    KeyCommands(e, ThroughWindow<TodoId>().Some?)
  }

  /** As written, Ctrl+S never submits and Escape never stops editing. */
  lemma SaveAndEscapeAreDead(e: KeyEvent)
    ensures SubmitTodoForm !in KeyCommandsAsWritten(e)
    ensures StopEditing !in KeyCommandsAsWritten(e)
  {
  }

  /** The handler reading the edit target itself. */
  function KeyCommandsFixed(e: KeyEvent, editingId: Option<TodoId>): seq<Command>
  {
    KeyCommands(e, editingId.Some?)
  }

  /** With the edit target read directly, Ctrl+S outside a text field
      submits and Escape stops editing while a todo is being edited. */
  lemma SaveAndEscapeWhileEditing(id: TodoId, tag: string)
    requires tag != "INPUT" && tag != "TEXTAREA"
    ensures KeyCommandsFixed(KeyEvent(tag, "s", true, false, false), Some(id)) == [SubmitTodoForm]
    ensures KeyCommandsFixed(KeyEvent(tag, "Escape", false, false, false), Some(id)) == [StopEditing]
  {
    assert Lower("s") == "s";
    assert Lower("Escape") == "escape";
  }
}
