/** The server's request handlers (todos/views.py) as operations on an
    in-memory table of Todo rows: the list filter of `TodoViewSet`, the
    `toggle`, `share`, `reorder` and `bulk_action` actions, and the guards
    of `login_user` and `search_users`. The clock reading `now`, the query
    parameters and the user table are parameters. */
module TodoViews {
  import opened Common
  import opened Models
  import opened Serializers

  /** One `ActivityLog` row. */
  datatype LogEntry = LogEntry(user: UserId, action: string, todo: Option<TodoId>, todoTitle: string)

  /** The HTTP status of a reply, together with the table and the activity
      log as the request leaves them. */
  datatype Outcome = Outcome(status: int, rows: seq<Todo>, log: seq<LogEntry>)

  /** `request.query_params.get(key, None)`. */
  function Param(params: map<string, string>, key: string): (r: Option<string>)
    ensures r.Some? <==> key in params
    ensures r.Some? ==> r.value == params[key]
  {
    if key in params then Some(params[key]) else None
  }

  // ---------------------------------------------------------------------
  // TodoViewSet.get_queryset

  /** The text a JSON list of tags is stored as (`json.dumps` separators). */
  function TagsJson(tags: seq<string>): string {
    "[" + Join(Quoted(tags), ", ") + "]"
  }

  /** Each tag as a JSON string literal. */
  function Quoted(tags: seq<string>): (r: seq<string>)
    ensures |r| == |tags|
    ensures forall i :: 0 <= i < |tags| ==> r[i] == "\"" + tags[i] + "\""
  {
    seq(|tags|, i requires 0 <= i < |tags| => "\"" + tags[i] + "\"")
  }

  /** Owned by the requester or shared with them. */
  predicate VisibleTo(t: Todo, requester: UserId) {
    t.owner == requester || requester in t.sharedWith
  }

  predicate CategoryKeeps(t: Todo, category: Option<string>) {
    Truthy(category) && category.value != "all" ==> t.category == Some(category.value)
  }

  predicate PriorityKeeps(t: Todo, priority: Option<string>) {
    Truthy(priority) ==> PriorityCode(t.priority) == priority.value
  }

  predicate CompletedKeeps(t: Todo, completed: Option<string>) {
    completed.Some? ==> t.completed == (Lower(completed.value) == "true")
  }

  predicate ArchivedKeeps(t: Todo, archived: Option<string>) {
    if archived.Some? then t.isArchived == (Lower(archived.value) == "true") else !t.isArchived
  }

  predicate SearchKeeps(t: Todo, search: Option<string>) {
    Truthy(search) ==>
      IContains(t.title, search.value) || IContains(t.description, search.value)
      || IContains(TagsJson(t.tags), search.value)
  }

  /** The `due_date` filter; a NULL due date never passes a date comparison. */
  predicate DueKeeps(t: Todo, dueDate: Option<string>, now: int) {
    var today := DayOf(now);
    if !Truthy(dueDate) then true
    else if dueDate.value == "today" then t.dueDate.Some? && DayOf(t.dueDate.value) == today
    else if dueDate.value == "week" then t.dueDate.Some? && today <= DayOf(t.dueDate.value) <= today + 7
    else if dueDate.value == "overdue" then t.dueDate.Some? && t.dueDate.value < now && !t.completed
    else true
  }

  /** Whether a row survives every filter of `get_queryset`. */
  predicate Listed(t: Todo, requester: UserId, params: map<string, string>, now: int) {
    && VisibleTo(t, requester)
    && CategoryKeeps(t, Param(params, "category"))
    && PriorityKeeps(t, Param(params, "priority"))
    && CompletedKeeps(t, Param(params, "completed"))
    && ArchivedKeeps(t, Param(params, "archived"))
    && SearchKeeps(t, Param(params, "search"))
    && DueKeeps(t, Param(params, "due_date"), now)
  }

  /** The rows the list endpoint returns, in table order. */
  function GetQueryset(rows: seq<Todo>, requester: UserId, params: map<string, string>, now: int): (r: seq<Todo>)
    ensures |r| <= |rows|
    ensures forall t :: t in r <==> t in rows && Listed(t, requester, params, now)
  {
    Filter(rows, t => Listed(t, requester, params, now))
  }

  /** With a `completed` parameter, every listed row's flag equals
      `completed.lower() == 'true'`. */
  lemma CompletedRule(rows: seq<Todo>, requester: UserId, params: map<string, string>, now: int)
    requires "completed" in params
    ensures forall t :: t in GetQueryset(rows, requester, params, now)
                        ==> t.completed == (Lower(params["completed"]) == "true")
  {
    forall t | t in GetQueryset(rows, requester, params, now)
      ensures t.completed == (Lower(params["completed"]) == "true")
    {
      assert Listed(t, requester, params, now);
      assert CompletedKeeps(t, Param(params, "completed"));
    }
  }

  /** Without an `archived` parameter no archived row is listed; with one,
      exactly the rows whose flag equals `archived.lower() == 'true'` are. */
  lemma ArchivedRule(rows: seq<Todo>, requester: UserId, params: map<string, string>, now: int)
    ensures "archived" !in params ==>
      forall t :: t in GetQueryset(rows, requester, params, now) ==> !t.isArchived
    ensures "archived" in params ==>
      forall t :: t in GetQueryset(rows, requester, params, now) ==>
        t.isArchived == (Lower(params["archived"]) == "true")
  {
  }

  /** Filters whose predicates agree on every element select the same elements. */
  lemma {:induction false} FilterAgrees<T>(s: seq<T>, p: T -> bool, q: T -> bool)
    requires forall k :: 0 <= k < |s| ==> p(s[k]) == q(s[k])
    ensures Filter(s, p) == Filter(s, q)
    decreases |s|
  {
    if |s| > 0 {
      FilterAgrees(s[1..], p, q);
    }
  }

  /** `category=all` lists the same rows as no category parameter. */
  lemma CategoryAllIsNoFilter(rows: seq<Todo>, requester: UserId, params: map<string, string>, now: int)
    ensures GetQueryset(rows, requester, params["category" := "all"], now)
         == GetQueryset(rows, requester, params - {"category"}, now)
  {
    var p1 := params["category" := "all"];
    var p2 := params - {"category"};
    forall k | 0 <= k < |rows|
      ensures Listed(rows[k], requester, p1, now) == Listed(rows[k], requester, p2, now)
    {
      assert Param(p1, "category") == Some("all");
      assert Param(p2, "category") == None;
      assert forall key :: key != "category" ==> Param(p1, key) == Param(p2, key);
    }
    FilterAgrees(rows, t => Listed(t, requester, p1, now), t => Listed(t, requester, p2, now));
  }

  /** A parameter `get_queryset` does not read changes nothing it lists. */
  lemma UnreadParamIgnored(rows: seq<Todo>, requester: UserId, params: map<string, string>, now: int, extra: string, v: string)
    requires extra !in {"category", "priority", "completed", "archived", "search", "due_date"}
    ensures GetQueryset(rows, requester, params[extra := v], now) == GetQueryset(rows, requester, params, now)
  {
    var p1 := params[extra := v];
    forall k | 0 <= k < |rows|
      ensures Listed(rows[k], requester, p1, now) == Listed(rows[k], requester, params, now)
    {
      assert Param(p1, "category") == Param(params, "category");
      assert Param(p1, "priority") == Param(params, "priority");
      assert Param(p1, "completed") == Param(params, "completed");
      assert Param(p1, "archived") == Param(params, "archived");
      assert Param(p1, "search") == Param(params, "search");
      assert Param(p1, "due_date") == Param(params, "due_date");
    }
    FilterAgrees(rows, t => Listed(t, requester, p1, now), t => Listed(t, requester, params, now));
  }

  /** `get_queryset` never reads `is_pinned` or `is_shared`: adding either
      parameter, as the client's pinned and shared views do, lists the same rows. */
  lemma PinnedAndSharedIgnored(rows: seq<Todo>, requester: UserId, params: map<string, string>, now: int, v: string)
    ensures GetQueryset(rows, requester, params["is_pinned" := v], now) == GetQueryset(rows, requester, params, now)
    ensures GetQueryset(rows, requester, params["is_shared" := v], now) == GetQueryset(rows, requester, params, now)
  {
    UnreadParamIgnored(rows, requester, params, now, "is_pinned", v);
    UnreadParamIgnored(rows, requester, params, now, "is_shared", v);
  }

  /** The `completed` parameter is compared without regard to case. */
  lemma CompletedIgnoresCase(rows: seq<Todo>, requester: UserId, params: map<string, string>, now: int)
    ensures GetQueryset(rows, requester, params["completed" := "TRUE"], now)
         == GetQueryset(rows, requester, params["completed" := "true"], now)
  {
    var p1 := params["completed" := "TRUE"];
    var p2 := params["completed" := "true"];
    assert Lower("TRUE") == "true";
    forall k | 0 <= k < |rows|
      ensures Listed(rows[k], requester, p1, now) == Listed(rows[k], requester, p2, now)
    {
      assert forall key :: key != "completed" ==> Param(p1, key) == Param(p2, key);
    }
    FilterAgrees(rows, t => Listed(t, requester, p1, now), t => Listed(t, requester, p2, now));
  }

  /** The `overdue` view lists only rows the serializer reports as overdue,
      and `today` only rows due on the current day. */
  lemma DueDateViews(rows: seq<Todo>, requester: UserId, params: map<string, string>, now: int)
    ensures Param(params, "due_date") == Some("overdue") ==>
      forall t :: t in GetQueryset(rows, requester, params, now) ==> IsOverdue(t.dueDate, t.completed, now)
    ensures Param(params, "due_date") == Some("today") ==>
      forall t :: t in GetQueryset(rows, requester, params, now) ==> t.dueDate.Some? && DayOf(t.dueDate.value) == DayOf(now)
  {
  }

  /** Lower-casing distributes over concatenation. */
  lemma LowerAppend(a: string, b: string)
    ensures Lower(a + b) == Lower(a) + Lower(b)
  {
    var l := Lower(a + b);
    assert forall i :: 0 <= i < |l| ==> l[i] == (Lower(a) + Lower(b))[i];
  }

  /** A substring of a middle part is a substring of the whole. */
  lemma ContainsInfix(a: string, m: string, b: string, sub: string)
    requires Contains(m, sub)
    ensures Contains(a + m + b, sub)
  {
    var i: nat :| i <= |m| && OccursAt(m, sub, i);
    var w := a + m + b;
    assert w[|a| + i..|a| + i + |sub|] == m[i..i + |sub|];
    assert OccursAt(w, sub, |a| + i);
  }

  /** Each part of a join appears in it between two strings. */
  lemma {:induction false} JoinHasPart(parts: seq<string>, sep: string, k: nat) returns (before: string, after: string)
    requires k < |parts|
    ensures Join(parts, sep) == before + parts[k] + after
    decreases |parts|
  {
    if |parts| == 1 {
      before, after := "", "";
    } else if k == 0 {
      before, after := "", sep + Join(parts[1..], sep);
    } else {
      var b, a := JoinHasPart(parts[1..], sep, k - 1);
      before, after := parts[0] + sep + b, a;
    }
  }

  /** A search found (case-insensitively) in one tag matches the row's tags
      column, whose text is the JSON list holding that tag. */
  lemma SearchFindsTag(t: Todo, search: string, k: nat)
    requires k < |t.tags| && IContains(t.tags[k], search)
    ensures SearchKeeps(t, Some(search))
  {
    var quoted := Quoted(t.tags);
    var b, a := JoinHasPart(quoted, ", ", k);
    var pre := "[" + b + "\"";
    var post := "\"" + a + "]";
    assert quoted[k] == "\"" + t.tags[k] + "\"";
    assert TagsJson(t.tags) == "[" + (b + ("\"" + t.tags[k] + "\"") + a) + "]";
    assert TagsJson(t.tags) == pre + t.tags[k] + post;
    LowerAppend(pre, t.tags[k]);
    LowerAppend(pre + t.tags[k], post);
    ContainsInfix(Lower(pre), Lower(t.tags[k]), Lower(post), Lower(search));
  }

  // ---------------------------------------------------------------------
  // Detail actions

  /** `get_object()`: the first listed row with the requested id. */
  function FindListed(rows: seq<Todo>, requester: UserId, params: map<string, string>, now: int, id: TodoId): (r: Option<nat>)
    ensures r.Some? ==> r.value < |rows| && rows[r.value].id == id && Listed(rows[r.value], requester, params, now)
    ensures r.Some? ==> forall j :: 0 <= j < r.value ==> !(rows[j].id == id && Listed(rows[j], requester, params, now))
    ensures r.None? <==> forall t :: t in GetQueryset(rows, requester, params, now) ==> t.id != id
  {
    var r := FirstIndex(rows, (t: Todo) => t.id == id && Listed(t, requester, params, now));
    assert r.Some? ==> rows[r.value] in GetQueryset(rows, requester, params, now);
    r
  }

  /** `toggle`: flip `completed`, save, and log 'completed' when the todo is
      now complete and 'updated' otherwise. A row the requester cannot list
      is a 404 and changes nothing. */
  function Toggle(rows: seq<Todo>, log: seq<LogEntry>, requester: UserId, params: map<string, string>,
                  id: TodoId, now: int): (r: Outcome)
    ensures r.status == 404 <==> forall t :: t in GetQueryset(rows, requester, params, now) ==> t.id != id
    ensures r.status != 404 ==> r.status == 200
    ensures r.status == 404 ==> r.rows == rows && r.log == log
    ensures r.status == 200 ==>
      && |r.rows| == |rows| && |r.log| == |log| + 1 && r.log[..|log|] == log
      && exists i :: (0 <= i < |rows| && rows[i].id == id && Listed(rows[i], requester, params, now)
                     && r.rows[i] == Saved(rows[i].(completed := !rows[i].completed), now)
                     && r.rows[i].completed == !rows[i].completed
                     && CompletionConsistent(r.rows[i])
                     && (forall j :: 0 <= j < |rows| && j != i ==> r.rows[j] == rows[j])
                     && r.log[|log|] == LogEntry(requester, r.log[|log|].action, Some(id), rows[i].title)
                     && (r.log[|log|].action == "completed" <==> r.rows[i].completed)
                     && (r.log[|log|].action == "updated" <==> !r.rows[i].completed))
  {
    var found := FindListed(rows, requester, params, now, id);
    if found.None? then Outcome(404, rows, log)
    else
      var i := found.value;
      var saved := Saved(rows[i].(completed := !rows[i].completed), now);
      var action := if saved.completed then "completed" else "updated";
      var r := Outcome(200, rows[i := saved], log + [LogEntry(requester, action, Some(id), saved.title)]);
      assert r.rows[i] == saved && r.log[|log|] == LogEntry(requester, action, Some(id), rows[i].title);
      r
  }

  /** `share`: after the object lookup, an empty `user_ids` is a 400;
      otherwise the todo is shared with exactly the existing users named
      and marked shared, even when none of the ids names a user. */
  function Share(rows: seq<Todo>, log: seq<LogEntry>, requester: UserId, params: map<string, string>,
                 id: TodoId, userIds: seq<UserId>, existingUsers: set<UserId>, now: int): (r: Outcome)
    ensures r.status == 404 <==> forall t :: t in GetQueryset(rows, requester, params, now) ==> t.id != id
    ensures r.status == 400 <==> r.status != 404 && userIds == []
    ensures r.status != 404 && r.status != 400 ==> r.status == 200
    ensures r.status != 200 ==> r.rows == rows && r.log == log
    ensures r.status == 200 ==>
      && |r.rows| == |rows| && |r.log| == |log| + 1 && r.log[..|log|] == log
      && exists i :: (0 <= i < |rows| && rows[i].id == id && Listed(rows[i], requester, params, now)
                     && r.rows[i] == Saved(rows[i].(sharedWith := r.rows[i].sharedWith, isShared := true), now)
                     && (forall u :: u in r.rows[i].sharedWith <==> u in userIds && u in existingUsers)
                     && (forall j :: 0 <= j < |rows| && j != i ==> r.rows[j] == rows[j])
                     && r.log[|log|] == LogEntry(requester, "shared", Some(id), rows[i].title))
  {
    var found := FindListed(rows, requester, params, now, id);
    if found.None? then Outcome(404, rows, log)
    else if userIds == [] then Outcome(400, rows, log)
    else
      var i := found.value;
      var saved := Saved(rows[i].(sharedWith := MatchingUsers(userIds, existingUsers), isShared := true), now);
      var r := Outcome(200, rows[i := saved], log + [LogEntry(requester, "shared", Some(id), saved.title)]);
      assert saved.sharedWith == MatchingUsers(userIds, existingUsers) && saved.title == rows[i].title;
      assert r.rows[i] == saved && r.log[|log|] == LogEntry(requester, "shared", Some(id), rows[i].title);
      r
  }

  // ---------------------------------------------------------------------
  // reorder

  /** `Todo.objects.filter(id=id, user=requester).update(position=pos)`. */
  function WithPosition(rows: seq<Todo>, requester: UserId, id: TodoId, pos: int): (r: seq<Todo>)
    ensures |r| == |rows|
    ensures forall j :: 0 <= j < |rows| ==>
      r[j] == if rows[j].id == id && rows[j].owner == requester then rows[j].(position := pos) else rows[j]
  {
    seq(|rows|, j requires 0 <= j < |rows| =>
      if rows[j].id == id && rows[j].owner == requester then rows[j].(position := pos) else rows[j])
  }

  /** The table after the position updates of `positions`, applied in order. */
  function Reordered(rows: seq<Todo>, requester: UserId, positions: seq<(TodoId, int)>): seq<Todo>
    decreases |positions|
  {
    if |positions| == 0 then rows
    else
      var last := positions[|positions| - 1];
      WithPosition(Reordered(rows, requester, positions[..|positions| - 1]), requester, last.0, last.1)
  }

  /** The keys of a decoded JSON object are distinct. */
  predicate DistinctKeys(positions: seq<(TodoId, int)>) {
    forall a, b :: 0 <= a < b < |positions| ==> positions[a].0 != positions[b].0
  }

  /** After `reorder`, each of the requester's rows named in `positions`
      has the position given for it, and every other row is unchanged. */
  lemma ReorderedRows(rows: seq<Todo>, requester: UserId, positions: seq<(TodoId, int)>)
    requires DistinctKeys(positions)
    ensures |Reordered(rows, requester, positions)| == |rows|
    ensures forall j, k :: (0 <= j < |rows| && 0 <= k < |positions|
                            && rows[j].owner == requester && rows[j].id == positions[k].0
                            ==> Reordered(rows, requester, positions)[j] == rows[j].(position := positions[k].1))
    ensures forall j :: (0 <= j < |rows|
                         && (rows[j].owner != requester || forall k :: 0 <= k < |positions| ==> positions[k].0 != rows[j].id)
                         ==> Reordered(rows, requester, positions)[j] == rows[j])
  {
    ReorderedLength(rows, requester, positions);
    forall j | 0 <= j < |rows| {
      ReorderedRow(rows, requester, positions, j);
    }
    forall k | 0 <= k < |positions| {
      LookupDistinctKey(positions, k);
    }
  }

  lemma {:induction false} ReorderedLength(rows: seq<Todo>, requester: UserId, positions: seq<(TodoId, int)>)
    ensures |Reordered(rows, requester, positions)| == |rows|
    decreases |positions|
  {
    if |positions| > 0 {
      ReorderedLength(rows, requester, positions[..|positions| - 1]);
    }
  }

  /** One row after `reorder`: a row of the requester takes the last
      position posted for its id; any other row is unchanged. */
  lemma {:induction false} ReorderedRow(rows: seq<Todo>, requester: UserId, positions: seq<(TodoId, int)>, j: nat)
    requires j < |rows|
    ensures |Reordered(rows, requester, positions)| == |rows|
    ensures Reordered(rows, requester, positions)[j]
         == if rows[j].owner == requester && Lookup(positions, rows[j].id).Some?
            then rows[j].(position := Lookup(positions, rows[j].id).value) else rows[j]
    decreases |positions|
  {
    ReorderedLength(rows, requester, positions);
    if |positions| > 0 {
      var n := |positions| - 1;
      ReorderedRow(rows, requester, positions[..n], j);
    }
  }

  /** With distinct keys, the value looked up for a key is the one posted with it. */
  lemma {:induction false} LookupDistinctKey(positions: seq<(TodoId, int)>, k: nat)
    requires DistinctKeys(positions) && k < |positions|
    ensures Lookup(positions, positions[k].0) == Some(positions[k].1)
    decreases |positions|
  {
    var n := |positions| - 1;
    if k < n {
      var init := positions[..n];
      assert DistinctKeys(init) by {
        forall a, b | 0 <= a < b < n ensures init[a].0 != init[b].0 {
          assert init[a] == positions[a] && init[b] == positions[b];
        }
      }
      assert init[k] == positions[k];
      LookupDistinctKey(init, k);
    }
  }

  /** `reorder`: the loop over the posted positions. */
  method Reorder(rows: seq<Todo>, requester: UserId, positions: seq<(TodoId, int)>) returns (r: seq<Todo>)
    ensures r == Reordered(rows, requester, positions)
  {
    r := rows;
    var i := 0;
    while i < |positions|
      invariant 0 <= i <= |positions|
      invariant r == Reordered(rows, requester, positions[..i])
    {
      assert positions[..i + 1][..i] == positions[..i];
      r := WithPosition(r, requester, positions[i].0, positions[i].1);
      i := i + 1;
    }
    assert positions[..i] == positions;
  }

  // ---------------------------------------------------------------------
  // bulk_action

  /** Rows named in the request and owned by the requester. */
  predicate BulkSelected(t: Todo, requester: UserId, todoIds: seq<TodoId>) {
    t.id in todoIds && t.owner == requester
  }

  /** A queryset `update()`: the change goes straight to the table,
      bypassing `save`. */
  function UpdateSelected(rows: seq<Todo>, requester: UserId, todoIds: seq<TodoId>, change: Todo -> Todo): (r: seq<Todo>)
    ensures |r| == |rows|
    ensures forall j :: 0 <= j < |rows| ==>
      r[j] == if BulkSelected(rows[j], requester, todoIds) then change(rows[j]) else rows[j]
  {
    seq(|rows|, j requires 0 <= j < |rows| =>
      if BulkSelected(rows[j], requester, todoIds) then change(rows[j]) else rows[j])
  }

  /** The ids of the rows in the table. */
  function RowIds(rows: seq<Todo>): (r: set<TodoId>)
    ensures forall t :: t in rows ==> t.id in r
    ensures forall id :: id in r ==> exists t :: t in rows && t.id == id
  {
    set t | t in rows :: t.id
  }

  /** A set of ids that holds every subtask of each of its members. */
  predicate ClosedUnderSubtasks(rows: seq<Todo>, doomed: set<TodoId>) {
    forall t :: t in rows && t.parent.Some? && t.parent.value in doomed ==> t.id in doomed
  }

  /** The ids of the rows whose `parent_todo` is in `doomed`. */
  function Subtasks(rows: seq<Todo>, doomed: set<TodoId>): (r: set<TodoId>)
    ensures forall t :: t in rows && t.parent.Some? && t.parent.value in doomed ==> t.id in r
    ensures forall id :: id in r ==> exists t :: t in rows && t.parent.Some? && t.parent.value in doomed && t.id == id
  {
    set t | t in rows && t.parent.Some? && t.parent.value in doomed :: t.id
  }

  /** What deleting the rows `doomed` removes: `parent_todo` is a foreign
      key with `on_delete=CASCADE`, so the collector follows it from each
      deleted row to its subtasks, and from those to theirs, whoever owns
      them. */
  function Cascade(rows: seq<Todo>, doomed: set<TodoId>): (r: set<TodoId>)
    ensures doomed <= r
    ensures ClosedUnderSubtasks(rows, r)
    ensures forall id :: id in r && id !in doomed ==> id in RowIds(rows)
    decreases |RowIds(rows) - doomed|
  {
    var next := doomed + Subtasks(rows, doomed);
    if next <= doomed then doomed
    else
      CascadeGrows(rows, doomed, next);
      Cascade(rows, next)
  }

  /** Each round of the cascade adds a row of the table, so fewer remain. */
  lemma CascadeGrows(rows: seq<Todo>, doomed: set<TodoId>, next: set<TodoId>)
    requires next == doomed + Subtasks(rows, doomed) && !(next <= doomed)
    ensures |RowIds(rows) - next| < |RowIds(rows) - doomed|
  {
    var ids := RowIds(rows);
    var id :| id in next && id !in doomed;
    assert id in ids;
    var left := ids - doomed;
    assert ids - next <= left - {id};
    SubsetCardinality(ids - next, left - {id});
  }

  lemma {:induction false} SubsetCardinality<T>(a: set<T>, b: set<T>)
    requires a <= b
    ensures |a| <= |b|
    decreases |b|
  {
    if a != {} {
      var x :| x in a;
      SubsetCardinality(a - {x}, b - {x});
    }
  }

  /** The cascade removes nothing it does not have to: it lies inside every
      set that holds the seeds and is closed under subtasks. */
  lemma {:induction false} CascadeLeast(rows: seq<Todo>, doomed: set<TodoId>, s: set<TodoId>)
    requires doomed <= s && ClosedUnderSubtasks(rows, s)
    ensures Cascade(rows, doomed) <= s
    decreases |RowIds(rows) - doomed|
  {
    var next := doomed + Subtasks(rows, doomed);
    if !(next <= doomed) {
      CascadeGrows(rows, doomed, next);
      CascadeLeast(rows, next, s);
    }
  }

  /** The ids of the rows `Todo.objects.filter(id__in=todo_ids, user=requester)` selects. */
  function SelectedIds(rows: seq<Todo>, requester: UserId, todoIds: seq<TodoId>): (r: set<TodoId>)
    ensures forall t :: t in rows && BulkSelected(t, requester, todoIds) ==> t.id in r
    ensures forall id :: id in r ==> exists t :: t in rows && BulkSelected(t, requester, todoIds) && t.id == id
  {
    set t | t in rows && BulkSelected(t, requester, todoIds) :: t.id
  }

  /** `todos.delete()`: the selected rows go, and the cascade takes every
      row below them with them; the rest keep their order. */
  function BulkDelete(rows: seq<Todo>, requester: UserId, todoIds: seq<TodoId>): (r: seq<Todo>)
    ensures forall t :: t in r <==> t in rows && t.id !in Cascade(rows, SelectedIds(rows, requester, todoIds))
    ensures |r| <= |rows|
  {
    var doomed := Cascade(rows, SelectedIds(rows, requester, todoIds));
    Filter(rows, (t: Todo) => t.id !in doomed)
  }

  /** `bulk_action`: a missing action or an empty id list is a 400; every
      other request succeeds, and only an action of the five known names
      changes anything. `delete` removes the selected rows and, through
      the cascade, every row below them. */
  function BulkAction(rows: seq<Todo>, requester: UserId, action: Option<string>, todoIds: seq<TodoId>, now: int): (r: (int, seq<Todo>))
    ensures r.0 == 400 <==> !Truthy(action) || todoIds == []
    ensures r.0 != 400 ==> r.0 == 200
    ensures r.0 == 400 || action.value !in {"complete", "incomplete", "archive", "unarchive", "delete"} ==> r.1 == rows
    ensures r.0 == 200 && action.value != "delete" ==>
      |r.1| == |rows| && forall j :: 0 <= j < |rows| && !BulkSelected(rows[j], requester, todoIds) ==> r.1[j] == rows[j]
    ensures r.0 == 200 && action.value == "complete" ==>
      forall j :: 0 <= j < |rows| && BulkSelected(rows[j], requester, todoIds) ==>
        r.1[j] == rows[j].(completed := true, completedAt := Some(now))
    ensures r.0 == 200 && action.value == "incomplete" ==>
      forall j :: 0 <= j < |rows| && BulkSelected(rows[j], requester, todoIds) ==>
        r.1[j] == rows[j].(completed := false, completedAt := None)
    ensures r.0 == 200 && (action.value == "archive" || action.value == "unarchive") ==>
      forall j :: 0 <= j < |rows| && BulkSelected(rows[j], requester, todoIds) ==>
        r.1[j] == rows[j].(isArchived := action.value == "archive")
    ensures r.0 == 200 && action.value == "delete" ==>
      forall t :: t in r.1 <==> t in rows && t.id !in Cascade(rows, SelectedIds(rows, requester, todoIds))
  {
    if !Truthy(action) || todoIds == [] then (400, rows)
    else if action.value == "complete" then
      (200, UpdateSelected(rows, requester, todoIds, (t: Todo) => t.(completed := true, completedAt := Some(now))))
    else if action.value == "incomplete" then
      (200, UpdateSelected(rows, requester, todoIds, (t: Todo) => t.(completed := false, completedAt := None)))
    else if action.value == "archive" then
      (200, UpdateSelected(rows, requester, todoIds, (t: Todo) => t.(isArchived := true)))
    else if action.value == "unarchive" then
      (200, UpdateSelected(rows, requester, todoIds, (t: Todo) => t.(isArchived := false)))
    else if action.value == "delete" then
      (200, BulkDelete(rows, requester, todoIds))
    else (200, rows)
  }

  /** The success message names the action as sent, known or not. */
  function BulkMessage(action: string): (m: string)
    ensures |m| == |action| + 28
    ensures m[..5] == "Bulk " && m[|m| - 23..] == " completed successfully"
    ensures m[5..|m| - 23] == action
  {
    "Bulk " + action + " completed successfully"
  }

  /** The table's primary key: no two rows share an id. */
  predicate KeyedById(rows: seq<Todo>) {
    forall u, v :: u in rows && v in rows && u.id == v.id ==> u == v
  }

  /** Every subtask belongs to the owner of its parent. */
  predicate SubtasksShareOwner(rows: seq<Todo>) {
    forall c, p :: c in rows && p in rows && c.parent == Some(p.id) ==> c.owner == p.owner
  }

  /** The ids of the requester's own rows. */
  function OwnedIds(rows: seq<Todo>, requester: UserId): (r: set<TodoId>)
    ensures forall t :: t in rows && t.owner == requester ==> t.id in r
    ensures forall id :: id in r ==> exists t :: t in rows && t.owner == requester && t.id == id
  {
    set t | t in rows && t.owner == requester :: t.id
  }

  /** When every subtask has its parent's owner, a bulk action leaves the
      other users' rows in the table: the filter selects only the
      requester's rows, and the cascade then stays among them. */
  lemma BulkTouchesOnlyOwnRows(rows: seq<Todo>, requester: UserId, action: Option<string>, todoIds: seq<TodoId>, now: int, t: Todo)
    requires KeyedById(rows) && SubtasksShareOwner(rows)
    requires t in rows && t.owner != requester
    ensures t in BulkAction(rows, requester, action, todoIds, now).1
  {
    var r := BulkAction(rows, requester, action, todoIds, now);
    if r.0 == 200 && action.value != "delete" {
      var j :| 0 <= j < |rows| && rows[j] == t;
      assert r.1[j] == t;
    } else if r.0 == 200 {
      var owned := OwnedIds(rows, requester);
      CascadeLeast(rows, SelectedIds(rows, requester, todoIds), owned);
      assert t.id !in owned;
    }
  }

  /** Without that ownership rule the cascade crosses users: deleting your
      own todo removes another user's subtask of it. */
  lemma BulkDeleteReachesOtherUsers(p: Todo, c: Todo, now: int)
    requires p.owner != c.owner && p.id != c.id && c.parent == Some(p.id)
    ensures var r := BulkAction([p, c], p.owner, Some("delete"), [p.id], now);
      r.0 == 200 && p !in r.1 && c !in r.1
  {
    DeleteReachesSubtask([p, c], p, c);
  }

  /** Deleting a todo also deletes each subtask of it, whoever owns the subtask. */
  lemma DeleteReachesSubtask(rows: seq<Todo>, p: Todo, c: Todo)
    requires p in rows && c in rows && c.parent == Some(p.id)
    ensures p !in BulkDelete(rows, p.owner, [p.id]) && c !in BulkDelete(rows, p.owner, [p.id])
  {
    var doomed := Cascade(rows, SelectedIds(rows, p.owner, [p.id]));
    assert p.id in doomed;
  }

  // ---------------------------------------------------------------------
  // Login and user search

  datatype LoginReply = LoggedIn(user: UserId) | LoginRefused(status: int, message: string)

  /** `login_user`: both fields must be given and non-empty (400); then the
      credentials must authenticate (401). `authenticate` is the password
      check of the authentication backend. */
  function LoginUser(username: Option<string>, password: Option<string>,
                     authenticate: (string, string) -> Option<UserId>): (r: LoginReply)
    ensures r.LoginRefused? && r.status == 400 <==> !Truthy(username) || !Truthy(password)
    ensures r.LoginRefused? && r.status == 401 <==>
      Truthy(username) && Truthy(password) && authenticate(username.value, password.value).None?
    ensures r.LoggedIn? ==>
              Truthy(username) && Truthy(password) && authenticate(username.value, password.value) == Some(r.user)
    ensures Truthy(username) && Truthy(password) && authenticate(username.value, password.value).Some? ==>
              r == LoggedIn(authenticate(username.value, password.value).value)
  {
    if !Truthy(username) || !Truthy(password) then
      LoginRefused(400, "Please provide both username and password")
    else
      match authenticate(username.value, password.value)
      case Some(u) => LoggedIn(u)
      case None => LoginRefused(401, "Invalid credentials")
  }

  /** One entry of the search result. */
  datatype UserHit = UserHit(id: UserId, username: string, email: string, fullName: string)

  /** The query matches one of the four name fields, ignoring case. */
  predicate UserMatches(u: UserRecord, query: string) {
    IContains(u.username, query) || IContains(u.email, query)
    || IContains(u.firstName, query) || IContains(u.lastName, query)
  }

  /** Django's `User.get_full_name()`: "first last" with surrounding
      whitespace stripped (no username fallback here). */
  function Hit(u: UserRecord): (h: UserHit)
    ensures h.id == u.id && h.username == u.username && h.email == u.email
    ensures h.fullName == PyStrip(u.firstName + " " + u.lastName)
  {
    UserHit(u.id, u.username, u.email, PyStrip(u.firstName + " " + u.lastName))
  }

  /** The users a search may return, in table order. */
  function SearchMatches(users: seq<UserRecord>, query: string, requester: UserId): (r: seq<UserRecord>)
    ensures forall u :: u in r <==> u in users && UserMatches(u, query) && u.id != requester
  {
    Filter(users, u => UserMatches(u, query) && u.id != requester)
  }

  /** `search_users`: nothing for a query shorter than two characters;
      otherwise the first ten matching users other than the requester. */
  function SearchUsers(users: seq<UserRecord>, query: string, requester: UserId): (r: seq<UserHit>)
    ensures |query| < 2 ==> r == []
    ensures |r| <= 10
    ensures forall k :: 0 <= k < |r| ==>
      exists u :: u in users && r[k] == Hit(u) && UserMatches(u, query) && u.id != requester
    ensures |query| >= 2 ==>
      && |r| == (if |SearchMatches(users, query, requester)| < 10 then |SearchMatches(users, query, requester)| else 10)
      && forall k :: 0 <= k < |r| ==> r[k] == Hit(SearchMatches(users, query, requester)[k])
  {
    if |query| < 2 then []
    else
      var found := Take(SearchMatches(users, query, requester), 10);
      assert forall k :: 0 <= k < |found| ==> found[k] in users && UserMatches(found[k], query) && found[k].id != requester;
      seq(|found|, k requires 0 <= k < |found| => Hit(found[k]))
  }

  /** When fewer than ten users match, every matching user other than the
      requester is in the result. */
  lemma SearchFindsAllFewMatches(users: seq<UserRecord>, query: string, requester: UserId, u: UserRecord)
    requires |query| >= 2
    requires |SearchMatches(users, query, requester)| <= 10
    requires u in users && UserMatches(u, query) && u.id != requester
    ensures Hit(u) in SearchUsers(users, query, requester)
  {
    var matching := SearchMatches(users, query, requester);
    assert Take(matching, 10) == matching;
    var k :| 0 <= k < |matching| && matching[k] == u;
    assert SearchUsers(users, query, requester)[k] == Hit(u);
  }
}
