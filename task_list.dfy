/** The browser's task-list state (static/js/todos.js): the module-level
    `todos`, `currentFilter`, `currentCategory`, `editingId`,
    `selectedTodos` and `bulkSelectMode` bindings, held as the fields of one
    object; drag-and-drop reordering, bulk selection and the bulk actions,
    the filter-to-query mapping, tag parsing, the search gate and the
    edit-form lookup. Replies of the server are parameters. */
module TodoList {
  import opened Common
  import opened Models
  import TodoViews

  /** A member of the `selectedTodos` set: a todo id, or `undefined` when
      `toggleBulkSelect` is called with no argument. */
  datatype SelKey = Id(id: TodoId) | Undefined

  /** A `todoAPI.bulkAction` call. */
  datatype BulkRequest = BulkRequest(action: string, ids: seq<SelKey>)

  /** A toast shown to the user. */
  datatype Notice = Warning(text: string) | Success(text: string) | ErrorNotice(text: string) | Info(text: string)

  // ---------------------------------------------------------------------
  // Drag and drop

  /** `todos.findIndex(t => t.id === id)`, None for -1. */
  function FindIndex(s: seq<Todo>, id: TodoId): (r: Option<nat>)
    ensures r.Some? ==> r.value < |s| && s[r.value].id == id
    ensures r.Some? ==> forall j :: 0 <= j < r.value ==> s[j].id != id
    ensures r.None? ==> forall j :: 0 <= j < |s| ==> s[j].id != id
    decreases |s|
  {
    if |s| == 0 then None
    else if s[0].id == id then Some(0)
    else
      var rest := FindIndex(s[1..], id);
      if rest.Some? then Some(rest.value + 1) else None
  }

  /** `s.splice(i, 1)`: the sequence without its element at `i`. */
  function RemoveAt<T>(s: seq<T>, i: nat): (r: seq<T>)
    requires i < |s|
    ensures |r| == |s| - 1
    ensures forall k :: 0 <= k < |r| ==> r[k] == if k < i then s[k] else s[k + 1]
  {
    s[..i] + s[i + 1..]
  }

  /** `s.splice(i, 0, x)`: the sequence with `x` inserted before index `i`. */
  function InsertAt<T>(s: seq<T>, i: nat, x: T): (r: seq<T>)
    requires i <= |s|
    ensures |r| == |s| + 1 && r[i] == x
    ensures forall k :: 0 <= k < |r| && k != i ==> r[k] == if k < i then s[k] else s[k - 1]
  {
    s[..i] + [x] + s[i..]
  }

  /** The list after `handleDrop`'s two splices: the dragged item is taken
      out, then inserted at the target's index as it was before the removal. */
  function Moved<T>(s: seq<T>, from: nat, to: nat): seq<T>
    requires from < |s| && to < |s|
  {
    InsertAt(RemoveAt(s, from), to, s[from])
  }

  /** A move keeps every item and puts the dragged one at the target index. */
  lemma MovedIsPermutation<T>(s: seq<T>, from: nat, to: nat)
    requires from < |s| && to < |s|
    ensures |Moved(s, from, to)| == |s|
    ensures multiset(Moved(s, from, to)) == multiset(s)
    ensures Moved(s, from, to)[to] == s[from]
  {
    RemoveAtMultiset(s, from);
    InsertAtMultiset(RemoveAt(s, from), to, s[from]);
  }

  /** Taking one item out removes exactly one occurrence of it. */
  lemma RemoveAtMultiset<T>(s: seq<T>, i: nat)
    requires i < |s|
    ensures multiset(RemoveAt(s, i)) + multiset{s[i]} == multiset(s)
  {
    assert s == s[..i] + ([s[i]] + s[i + 1..]);
  }

  /** Inserting one item adds exactly one occurrence of it. */
  lemma InsertAtMultiset<T>(s: seq<T>, i: nat, x: T)
    requires i <= |s|
    ensures multiset(InsertAt(s, i, x)) == multiset(s) + multiset{x}
  {
    assert InsertAt(s, i, x) == s[..i] + ([x] + s[i..]);
    assert s == s[..i] + s[i..];
  }

  /** A move keeps the relative order of all the items it does not drag. */
  lemma MovedKeepsOrder<T>(s: seq<T>, from: nat, to: nat)
    requires from < |s| && to < |s|
    ensures |Moved(s, from, to)| == |s|
    ensures RemoveAt(Moved(s, from, to), to) == RemoveAt(s, from)
  {
    var rest := RemoveAt(s, from);
    var m := Moved(s, from, to);
    assert m == rest[..to] + [s[from]] + rest[to..];
    assert m[..to] == rest[..to];
    assert m[to + 1..] == rest[to..];
  }

  /** No two todos share an id. */
  predicate DistinctIds(s: seq<Todo>) {
    forall i, j :: 0 <= i < j < |s| ==> s[i].id != s[j].id
  }

  /** Moving an item keeps the ids distinct. */
  lemma MovedKeepsDistinctIds(s: seq<Todo>, from: nat, to: nat)
    requires from < |s| && to < |s| && DistinctIds(s)
    ensures DistinctIds(Moved(s, from, to))
  {
    RemoveAtKeepsDistinctIds(s, from);
    InsertAtKeepsDistinctIds(RemoveAt(s, from), to, s[from]);
  }

  /** Taking an item out leaves distinct ids, none of them the item's. */
  lemma RemoveAtKeepsDistinctIds(s: seq<Todo>, i: nat)
    requires i < |s| && DistinctIds(s)
    ensures DistinctIds(RemoveAt(s, i))
    ensures forall k :: 0 <= k < |RemoveAt(s, i)| ==> RemoveAt(s, i)[k].id != s[i].id
  {
    var rest := RemoveAt(s, i);
    forall a, b | 0 <= a < b < |rest| ensures rest[a].id != rest[b].id {
      var sa := if a < i then a else a + 1;
      var sb := if b < i then b else b + 1;
      assert rest[a] == s[sa] && rest[b] == s[sb] && sa < sb;
    }
    forall k | 0 <= k < |rest| ensures rest[k].id != s[i].id {
      if k < i {
        assert rest[k] == s[k];
      } else {
        assert rest[k] == s[k + 1];
      }
    }
  }

  /** Inserting an item whose id is new keeps the ids distinct. */
  lemma InsertAtKeepsDistinctIds(s: seq<Todo>, i: nat, x: Todo)
    requires i <= |s| && DistinctIds(s)
    requires forall k :: 0 <= k < |s| ==> s[k].id != x.id
    ensures DistinctIds(InsertAt(s, i, x))
  {
    var m := InsertAt(s, i, x);
    forall a, b | 0 <= a < b < |m| ensures m[a].id != m[b].id {
      if a == i {
        assert m[b] == s[b - 1];
      } else if b == i {
        assert m[a] == s[a];
      } else {
        var sa := if a < i then a else a - 1;
        var sb := if b < i then b else b - 1;
        assert m[a] == s[sa] && m[b] == s[sb] && sa < sb;
      }
    }
  }

  /** The `positions` object built by `todos.forEach((todo, index) => ...)`:
      later entries overwrite earlier ones with the same id. */
  function PositionMap(s: seq<Todo>): map<TodoId, int>
    decreases |s|
  {
    if |s| == 0 then map[]
    else PositionMap(s[..|s| - 1])[s[|s| - 1].id := |s| - 1]
  }

  /** With distinct ids, the positions object sends every id to its index,
      and its values are exactly 0 .. n-1. */
  lemma PositionMapIndices(s: seq<Todo>)
    requires DistinctIds(s)
    ensures PositionMap(s).Keys == set i | 0 <= i < |s| :: s[i].id
    ensures forall i :: 0 <= i < |s| ==> PositionMap(s)[s[i].id] == i
    ensures forall v :: v in PositionMap(s).Values <==> 0 <= v < |s|
  {
    PositionMapKeys(s);
    PositionMapAt(s);
    PositionMapValues(s);
  }

  /** The positions object has one key per id in the list. */
  lemma {:induction false} PositionMapKeys(s: seq<Todo>)
    ensures PositionMap(s).Keys == set i | 0 <= i < |s| :: s[i].id
    decreases |s|
  {
    if |s| > 0 {
      var n := |s| - 1;
      var init := s[..n];
      PositionMapKeys(init);
      var ids := set i | 0 <= i < |s| :: s[i].id;
      var initIds := set i | 0 <= i < n :: init[i].id;
      forall x | x in ids ensures x in initIds + {s[n].id} {
        var i :| 0 <= i < |s| && s[i].id == x;
        if i < n { assert init[i].id == x; }
      }
      forall x | x in initIds ensures x in ids {
        var i :| 0 <= i < n && init[i].id == x;
        assert s[i].id == x;
      }
      assert ids == initIds + {s[n].id};
    }
  }

  /** The prefix of a list with distinct ids has distinct ids. */
  lemma PrefixDistinctIds(s: seq<Todo>, n: nat)
    requires n <= |s| && DistinctIds(s)
    ensures DistinctIds(s[..n])
  {
    forall i, j | 0 <= i < j < n ensures s[..n][i].id != s[..n][j].id {
      assert s[..n][i] == s[i] && s[..n][j] == s[j];
    }
  }

  /** With distinct ids, every id is sent to its own index. */
  lemma {:induction false} PositionMapAt(s: seq<Todo>)
    requires DistinctIds(s)
    ensures forall i :: 0 <= i < |s| ==> s[i].id in PositionMap(s) && PositionMap(s)[s[i].id] == i
    decreases |s|
  {
    if |s| > 0 {
      var n := |s| - 1;
      var init := s[..n];
      PrefixDistinctIds(s, n);
      PositionMapAt(init);
      forall i | 0 <= i < |s| ensures s[i].id in PositionMap(s) && PositionMap(s)[s[i].id] == i {
        if i < n {
          assert init[i] == s[i];
          assert s[i].id != s[n].id;
        }
      }
    }
  }

  /** With distinct ids, the values are exactly 0 .. n-1. */
  lemma {:induction false} PositionMapValues(s: seq<Todo>)
    requires DistinctIds(s)
    ensures forall v :: v in PositionMap(s).Values <==> 0 <= v < |s|
    decreases |s|
  {
    if |s| > 0 {
      var n := |s| - 1;
      var init := s[..n];
      PrefixDistinctIds(s, n);
      PositionMapValues(init);
      PositionMapKeys(init);
      var m := PositionMap(init);
      forall i | 0 <= i < n ensures init[i].id != s[n].id {
        assert init[i] == s[i];
      }
      ExtendedValues(m, PositionMap(s), s[n].id, n);
    }
  }

  /** Adding a fresh key with value `n` to a map whose values are exactly
      0 .. n-1 gives one whose values are exactly 0 .. n. */
  lemma ExtendedValues(m: map<TodoId, int>, extended: map<TodoId, int>, key: TodoId, n: nat)
    requires key !in m && extended == m[key := n]
    requires forall v :: v in m.Values <==> 0 <= v < n
    ensures forall v :: v in extended.Values <==> 0 <= v < n + 1
  {
    forall v | v in extended.Values ensures 0 <= v < n + 1 {
      var k :| k in extended && extended[k] == v;
      if k != key {
        assert k in m && extended[k] == m[k];
        assert m[k] in m.Values;
      } else {
        assert v == n;
      }
    }
    forall v | 0 <= v < n + 1 ensures v in extended.Values {
      if v < n {
        assert v in m.Values;
        var k :| k in m && m[k] == v;
        assert extended[k] == v;
      } else {
        assert extended[key] == v;
      }
    }
  }

  // ---------------------------------------------------------------------
  // The selection set

  /** `selectedTodos.has(key) ? delete(key) : add(key)`. */
  function Toggled(s: seq<SelKey>, key: SelKey): (r: seq<SelKey>)
    ensures key in r <==> key !in s
    ensures forall x :: x != key ==> (x in r <==> x in s)
    ensures NoDuplicates(s) ==> NoDuplicates(r)
  {
    if key in s then
      var r := Filter(s, x => x != key);
      assert NoDuplicates(s) ==> NoDuplicates(r) by {
        if NoDuplicates(s) {
          FilterKeepsNoDuplicates(s, x => x != key);
        }
      }
      r
    else s + [key]
  }

  /** Toggling the same key twice gives back the same set of members. */
  lemma ToggleTwice(s: seq<SelKey>, key: SelKey)
    ensures forall x :: x in Toggled(Toggled(s, key), key) <==> x in s
  {
  }

  /** As written, a bulk action that succeeded toggles `undefined` instead
      of leaving bulk mode: the selection keeps the ids it held. */
  lemma BulkLeavesStaleSelection()
    ensures Toggled([Id("a")], Undefined) == [Id("a"), Undefined]
  {
    assert Undefined !in [Id("a")];
  }

  /** The kinds of bulk action the toolbar offers. */
  datatype BulkKind = CompleteKind | ArchiveKind | DeleteKind

  function BulkActionName(kind: BulkKind): string {
    match kind
    case CompleteKind => "complete"
    case ArchiveKind => "archive"
    case DeleteKind => "delete"
  }

  /** The success toast: the selection size, then the action's wording. */
  function BulkDoneText(kind: BulkKind, n: nat): string {
    NatText(n) + match kind
      case CompleteKind => " tasks marked as complete"
      case ArchiveKind => " tasks archived"
      case DeleteKind => " tasks deleted"
  }

  function BulkFailText(kind: BulkKind): string {
    match kind
    case CompleteKind => "Failed to complete tasks"
    case ArchiveKind => "Failed to archive tasks"
    case DeleteKind => "Failed to delete tasks"
  }

  /** The request a bulk button sends: none for an empty selection, none
      for a delete the user did not confirm; otherwise the action with the
      selection in insertion order. */
  function BulkGuard(selected: seq<SelKey>, kind: BulkKind, confirmed: bool): (r: Option<BulkRequest>)
    ensures selected == [] ==> r.None?
    ensures r.None? <==> selected == [] || (kind == DeleteKind && !confirmed)
    ensures r.Some? ==> r.value.ids == selected && r.value.action in {"complete", "archive", "delete"}
    ensures r.Some? ==> (r.value.action == "complete" <==> kind == CompleteKind)
                        && (r.value.action == "archive" <==> kind == ArchiveKind)
                        && (r.value.action == "delete" <==> kind == DeleteKind)
  {
    if selected == [] || (kind == DeleteKind && !confirmed) then None
    else Some(BulkRequest(BulkActionName(kind), selected))
  }

  // ---------------------------------------------------------------------
  // Filters to query parameters

  /** The query dictionary the server reads; a repeated key keeps its last value. */
  function ToMap(pairs: seq<(string, string)>): (m: map<string, string>)
    ensures forall key :: key in m <==> Lookup(pairs, key).Some?
    ensures forall key :: key in m ==> m[key] == Lookup(pairs, key).value
    decreases |pairs|
  {
    if |pairs| == 0 then map[]
    else ToMap(pairs[..|pairs| - 1])[pairs[|pairs| - 1].0 := pairs[|pairs| - 1].1]
  }

  /** The value of a key among at most one category pair and at most one
      filter pair: the filter pair comes last, so it wins. */
  lemma LookupOfTwo(c: seq<(string, string)>, f: seq<(string, string)>, key: string)
    requires |c| <= 1 && |f| <= 1
    ensures Lookup(c + f, key)
         == if |f| == 1 && f[0].0 == key then Some(f[0].1)
            else if |c| == 1 && c[0].0 == key then Some(c[0].1)
            else None
  {
    if |f| == 1 {
      assert (c + f)[..|c + f| - 1] == c;
      assert (c + f)[|c + f| - 1] == f[0];
    } else {
      assert c + f == c;
    }
    if |c| == 1 {
      assert c[..0] == [];
      assert Lookup(c[..0], key) == None;
    }
  }

  /** The pair a filter tab adds: at most one key, none for 'all'. */
  function FilterParams(currentFilter: string): (r: seq<(string, string)>)
    ensures |r| <= 1
    ensures |r| == 1 <==> currentFilter in {"active", "completed", "today", "overdue", "pinned", "shared"}
  {
    if currentFilter == "active" then [("completed", "false")]
    else if currentFilter == "completed" then [("completed", "true")]
    else if currentFilter == "today" then [("due_date", "today")]
    else if currentFilter == "overdue" then [("due_date", "overdue")]
    else if currentFilter == "pinned" then [("is_pinned", "true")]
    else if currentFilter == "shared" then [("is_shared", "true")]
    else []
  }

  /** The `loadTodos` parameters: the category unless it is 'all', then at
      most one key for the filter tab. */
  function LoadTodosParams(currentCategory: string, currentFilter: string): (r: seq<(string, string)>)
    ensures |r| <= 2
    ensures forall k :: 0 <= k < |r| ==> r[k].0 in {"category", "completed", "due_date", "is_pinned", "is_shared"}
  {
    (if currentCategory != "all" then [("category", currentCategory)] else []) + FilterParams(currentFilter)
  }

  /** What each query key of `loadTodos` holds: `category` iff the category
      is not 'all'; `completed` for the 'active' and 'completed' tabs;
      `due_date` for 'today' and 'overdue'; `is_pinned` and `is_shared` for
      their tabs; nothing else. */
  lemma LoadTodosParamsRules(currentCategory: string, currentFilter: string)
    ensures Lookup(LoadTodosParams(currentCategory, currentFilter), "category")
         == (if currentCategory != "all" then Some(currentCategory) else None)
    ensures Lookup(LoadTodosParams(currentCategory, currentFilter), "completed")
         == (if currentFilter == "active" then Some("false")
             else if currentFilter == "completed" then Some("true")
             else None)
    ensures Lookup(LoadTodosParams(currentCategory, currentFilter), "due_date")
         == (if currentFilter in {"today", "overdue"} then Some(currentFilter) else None)
    ensures Lookup(LoadTodosParams(currentCategory, currentFilter), "is_pinned")
         == (if currentFilter == "pinned" then Some("true") else None)
    ensures Lookup(LoadTodosParams(currentCategory, currentFilter), "is_shared")
         == (if currentFilter == "shared" then Some("true") else None)
  {
    var c := if currentCategory != "all" then [("category", currentCategory)] else [];
    var f := FilterParams(currentFilter);
    assert LoadTodosParams(currentCategory, currentFilter) == c + f;
    LookupOfTwo(c, f, "category");
    LookupOfTwo(c, f, "completed");
    LookupOfTwo(c, f, "due_date");
    LookupOfTwo(c, f, "is_pinned");
    LookupOfTwo(c, f, "is_shared");
  }

  /** A tab that sends `completed=value` after the category pair lists
      only rows whose flag equals `value.lower() == 'true'`. */
  lemma CompletionTab(rows: seq<Todo>, requester: UserId, c: seq<(string, string)>, value: string, now: int)
    ensures forall t :: t in TodoViews.GetQueryset(rows, requester, ToMap(c + [("completed", value)]), now)
                        ==> t.completed == (Lower(value) == "true")
  {
    ToMapSnoc(c, ("completed", value));
    TodoViews.CompletedRule(rows, requester, ToMap(c + [("completed", value)]), now);
  }

  /** The 'active' tab lists only incomplete todos and the 'completed' tab
      only completed ones. */
  lemma CompletionTabs(rows: seq<Todo>, requester: UserId, currentCategory: string, now: int)
    ensures forall t :: t in TodoViews.GetQueryset(rows, requester, ToMap(LoadTodosParams(currentCategory, "active")), now)
                        ==> !t.completed
    ensures forall t :: t in TodoViews.GetQueryset(rows, requester, ToMap(LoadTodosParams(currentCategory, "completed")), now)
                        ==> t.completed
  {
    var c := if currentCategory != "all" then [("category", currentCategory)] else [];
    assert LoadTodosParams(currentCategory, "active") == c + [("completed", "false")];
    assert LoadTodosParams(currentCategory, "completed") == c + [("completed", "true")];
    CompletionTab(rows, requester, c, "false", now);
    CompletionTab(rows, requester, c, "true", now);
    assert Lower("false") == "false";
    assert Lower("true") == "true";
  }

  /** A pair appended last overrides the key's earlier value. */
  lemma ToMapSnoc(pairs: seq<(string, string)>, p: (string, string))
    ensures ToMap(pairs + [p]) == ToMap(pairs)[p.0 := p.1]
  {
    assert (pairs + [p])[..|pairs|] == pairs;
  }

  /** The server ignores `is_pinned` and `is_shared`, so the 'pinned' and
      'shared' tabs list the same todos as 'all'. */
  lemma PinnedAndSharedTabsListAll(rows: seq<Todo>, requester: UserId, currentCategory: string, now: int)
    ensures TodoViews.GetQueryset(rows, requester, ToMap(LoadTodosParams(currentCategory, "pinned")), now)
         == TodoViews.GetQueryset(rows, requester, ToMap(LoadTodosParams(currentCategory, "all")), now)
    ensures TodoViews.GetQueryset(rows, requester, ToMap(LoadTodosParams(currentCategory, "shared")), now)
         == TodoViews.GetQueryset(rows, requester, ToMap(LoadTodosParams(currentCategory, "all")), now)
  {
    var base := LoadTodosParams(currentCategory, "all");
    var all := ToMap(base);
    assert LoadTodosParams(currentCategory, "pinned") == base + [("is_pinned", "true")];
    assert LoadTodosParams(currentCategory, "shared") == base + [("is_shared", "true")];
    ToMapSnoc(base, ("is_pinned", "true"));
    ToMapSnoc(base, ("is_shared", "true"));
    TodoViews.UnreadParamIgnored(rows, requester, all, now, "is_pinned", "true");
    TodoViews.UnreadParamIgnored(rows, requester, all, now, "is_shared", "true");
  }

  // ---------------------------------------------------------------------
  // Tags

  /** `.map(tag => tag.trim())`. */
  function TrimAll(parts: seq<string>): (r: seq<string>)
    ensures |r| == |parts|
    ensures forall i :: 0 <= i < |parts| ==> r[i] == JsTrim(parts[i])
  {
    seq(|parts|, i requires 0 <= i < |parts| => JsTrim(parts[i]))
  }

  predicate NonEmptyTag(t: string) { |t| > 0 }

  /** The tags of the form: split on commas, trimmed, empty pieces dropped. */
  function ParseTags(raw: string): (r: seq<string>)
    ensures forall k :: 0 <= k < |r| ==> r[k] != "" && Trimmed(r[k], IsJsSpace) && ',' !in r[k]
  {
    var trimmed := TrimAll(Split(raw, ','));
    TrimmedPieces(Split(raw, ','));
    var r := Filter(trimmed, NonEmptyTag);
    assert forall k :: 0 <= k < |r| ==> r[k] in trimmed && NonEmptyTag(r[k]);
    r
  }

  /** Trimmed comma-free pieces are comma-free and trimmed. */
  lemma TrimmedPieces(pieces: seq<string>)
    requires forall k :: 0 <= k < |pieces| ==> ',' !in pieces[k]
    ensures forall x | x in TrimAll(pieces) :: ',' !in x && Trimmed(x, IsJsSpace)
  {
    var trimmed := TrimAll(pieces);
    forall x | x in trimmed ensures ',' !in x && Trimmed(x, IsJsSpace) {
      var i :| 0 <= i < |pieces| && trimmed[i] == x;
      assert x == JsTrim(pieces[i]) && ',' !in pieces[i];
    }
  }

  /** A piece without the separator splits to itself. */
  lemma {:induction false} SplitWithoutSep(s: string, c: char)
    requires c !in s
    ensures Split(s, c) == [s]
    decreases |s|
  {
    if |s| > 0 {
      SplitWithoutSep(s[1..], c);
      assert [s[0]] + s[1..] == s;
    }
  }

  /** Splitting after a separator-free first piece. */
  lemma {:induction false} SplitAfterPiece(a: string, c: char, b: string)
    requires c !in a
    ensures Split(a + [c] + b, c) == [a] + Split(b, c)
    decreases |a|
  {
    var s := a + [c] + b;
    if |a| == 0 {
      assert s[1..] == b;
    } else {
      assert s[1..] == a[1..] + [c] + b;
      SplitAfterPiece(a[1..], c, b);
      assert [a[0]] + a[1..] == a;
    }
  }

  /** A leading space does not change what a piece trims to. */
  lemma TrimLeadingSpace(s: string)
    ensures JsTrim(" " + s) == JsTrim(s)
  {
    assert (" " + s)[1..] == s;
  }

  /** Trimming a list with one more piece in front. */
  lemma TrimAllCons(a: string, parts: seq<string>)
    ensures TrimAll([a] + parts) == [JsTrim(a)] + TrimAll(parts)
  {
    var l := TrimAll([a] + parts);
    var r := [JsTrim(a)] + TrimAll(parts);
    assert |l| == |r|;
    forall i | 0 <= i < |l| ensures l[i] == r[i] {
      if i > 0 {
        assert ([a] + parts)[i] == parts[i - 1];
      }
    }
  }

  /** A piece not starting with the separator grows the first split piece. */
  lemma SplitLeadingChar(c: char, x: string, sep: char)
    requires c != sep
    ensures Split([c] + x, sep) == [[c] + Split(x, sep)[0]] + Split(x, sep)[1..]
  {
    assert ([c] + x)[1..] == x;
  }

  /** A leading space does not change the parsed tags. */
  lemma ParseIgnoresLeadingSpace(x: string)
    ensures ParseTags(" " + x) == ParseTags(x)
  {
    var p := Split(x, ',');
    SplitLeadingChar(' ', x, ',');
    assert Split(" " + x, ',') == [" " + p[0]] + p[1..];
    TrimLeadingSpace(p[0]);
    TrimAllCons(" " + p[0], p[1..]);
    TrimAllCons(p[0], p[1..]);
    assert [p[0]] + p[1..] == p;
    assert TrimAll(Split(" " + x, ',')) == TrimAll(p);
  }

  /** A clean first tag followed by a comma is parsed and the rest follows. */
  lemma ParseAfterTag(a: string, b: string)
    requires a != "" && Trimmed(a, IsJsSpace) && ',' !in a
    ensures ParseTags(a + [','] + b) == [a] + ParseTags(b)
  {
    SplitAfterPiece(a, ',', b);
    TrimOfTrimmed(a, IsJsSpace);
    var tail := TrimAll(Split(b, ','));
    TrimAllCons(a, Split(b, ','));
    assert TrimAll(Split(a + [','] + b, ',')) == [a] + tail;
    FilterAppend([a], tail, NonEmptyTag);
    assert Filter([a], NonEmptyTag) == [a];
  }

  /** The empty field parses to no tags. */
  lemma ParseEmpty()
    ensures ParseTags("") == []
  {
    assert Split("", ',') == [""];
    assert TrimAll([""]) == [""];
  }

  /** A single clean tag parses to itself. */
  lemma ParseOneTag(a: string)
    requires a != "" && Trimmed(a, IsJsSpace) && ',' !in a
    ensures ParseTags(a) == [a]
  {
    SplitWithoutSep(a, ',');
    TrimOfTrimmed(a, IsJsSpace);
    assert TrimAll([a]) == [a];
  }

  /** Joining with ", " puts a comma and a space after the first tag. */
  lemma JoinCons(tags: seq<string>)
    requires |tags| >= 2
    ensures Join(tags, ", ") == tags[0] + [','] + (" " + Join(tags[1..], ", "))
  {
  }

  /** `editTodo` writes the tags as `tags.join(', ')`; submitting the form
      parses that text back to the same tags whenever each tag is
      non-empty, has no surrounding whitespace and holds no comma. */
  lemma {:induction false} TagsRoundTrip(tags: seq<string>)
    requires forall k :: 0 <= k < |tags| ==> tags[k] != "" && Trimmed(tags[k], IsJsSpace) && ',' !in tags[k]
    ensures ParseTags(Join(tags, ", ")) == tags
    decreases |tags|
  {
    if |tags| == 0 {
      ParseEmpty();
    } else if |tags| == 1 {
      ParseOneTag(tags[0]);
    } else {
      var rest := Join(tags[1..], ", ");
      JoinCons(tags);
      ParseAfterTag(tags[0], " " + rest);
      ParseIgnoresLeadingSpace(rest);
      TagsRoundTrip(tags[1..]);
      assert [tags[0]] + tags[1..] == tags;
    }
  }

  // ---------------------------------------------------------------------
  // Search

  datatype SearchStep = ReloadAll | IgnoreInput | SearchWith(params: seq<(string, string)>)

  /** The debounced search handler: an empty trimmed query reloads the list,
      a one-character one is ignored, and a longer one searches within the
      current category. */
  function SearchGate(input: string, currentCategory: string): (r: SearchStep)
    ensures r == ReloadAll <==> JsTrim(input) == ""
    ensures r == IgnoreInput <==> |JsTrim(input)| == 1
    ensures r.SearchWith? ==> |JsTrim(input)| >= 2 && Lookup(r.params, "search") == Some(JsTrim(input))
    ensures r.SearchWith? ==> (Lookup(r.params, "category").Some? <==> currentCategory != "all")
    ensures r.SearchWith? && currentCategory != "all" ==> Lookup(r.params, "category") == Some(currentCategory)
  {
    var query := JsTrim(input);
    if |query| == 0 then ReloadAll
    else if |query| < 2 then IgnoreInput
    else SearchWith([("search", query)] + (if currentCategory != "all" then [("category", currentCategory)] else []))
  }

  // ---------------------------------------------------------------------
  // Edit form

  /** The form fields `editTodo` fills from a todo. The due date is shown
      to the minute (`toISOString().slice(0, 16)`), held here as that
      minute's timestamp. A recurrence pattern of None leaves the pattern
      field as it was: it is written only for a recurring todo. */
  datatype EditForm = EditForm(title: string, description: string, category: string, priority: string,
                               dueMinute: Option<int>, estimate: Option<int>, isPinned: bool,
                               isRecurring: bool, tagsText: string, recurrence: Option<string>)

  function FormFor(t: Todo): (f: EditForm)
    ensures f.title == t.title && f.description == t.description && f.priority == PriorityCode(t.priority)
    ensures f.category == if t.category.Some? then t.category.value else ""
    ensures f.dueMinute.Some? <==> t.dueDate.Some?
    ensures f.dueMinute.Some? ==>
              f.dueMinute.value % 60 == 0 && f.dueMinute.value <= t.dueDate.value < f.dueMinute.value + 60
    ensures f.estimate.Some? <==> t.estimatedMinutes.Some? && t.estimatedMinutes.value != 0
    ensures f.estimate.Some? ==> f.estimate == t.estimatedMinutes
    ensures f.isPinned == t.isPinned && f.isRecurring == t.isRecurring
    ensures f.tagsText == Join(t.tags, ", ")
    ensures f.recurrence.Some? <==> t.isRecurring
    ensures f.recurrence.Some? ==> ParseRecurrence(f.recurrence.value) == Some(t.recurrence)
  {
    CodesRoundTrip(t.priority, t.recurrence);
    EditForm(t.title, t.description,
             if t.category.Some? then t.category.value else "",
             PriorityCode(t.priority),
             if t.dueDate.Some? then Some(t.dueDate.value / 60 * 60) else None,
             if t.estimatedMinutes.Some? && t.estimatedMinutes.value != 0 then t.estimatedMinutes else None,
             t.isPinned, t.isRecurring, Join(t.tags, ", "),
             if t.isRecurring then Some(RecurrenceCode(t.recurrence)) else None)
  }

  // ---------------------------------------------------------------------
  // The state object

  class TaskList {
    var todos: seq<Todo>
    var categories: seq<Category>
    var currentFilter: string
    var currentCategory: string
    var editingId: Option<TodoId>
    var selectedTodos: seq<SelKey>
    var bulkSelectMode: bool

    /** A JS Set never holds a member twice. */
    predicate Valid()
      reads this
    {
      NoDuplicates(selectedTodos)
    }

    constructor ()
      ensures todos == [] && categories == [] && currentFilter == "all" && currentCategory == "all"
      ensures editingId == None && selectedTodos == [] && !bulkSelectMode
      ensures Valid()
    {
      todos := [];
      categories := [];
      currentFilter := "all";
      currentCategory := "all";
      editingId := None;
      selectedTodos := [];
      bulkSelectMode := false;
    }

    /** `loadTodos` given the settled `todoAPI.getAll` reply, already read
        as `response.results || response`: a list replaces `todos`; a
        failure only shows an error and keeps the list. */
    method LoadTodos(reply: Option<seq<Todo>>)
      modifies this
      ensures todos == if reply.Some? then reply.value else old(todos)
      ensures categories == old(categories) && editingId == old(editingId)
      ensures selectedTodos == old(selectedTodos) && bulkSelectMode == old(bulkSelectMode)
      ensures currentFilter == old(currentFilter) && currentCategory == old(currentCategory)
    {
      if reply.Some? {
        todos := reply.value;
      }
    }

    /** `handleDrop`: unless the item is dropped on itself or either id is
        unknown, move the dragged todo to the target's index and send every
        todo's new index. Returns the `positions` sent, if any. When the
        server refuses them (`reorderOk` false) the list is reloaded, with
        `reloaded` the reply of that reload. */
    method HandleDrop(sameElement: bool, draggedId: TodoId, targetId: TodoId, reorderOk: bool, reloaded: Option<seq<Todo>>)
      returns (sent: Option<map<TodoId, int>>)
      modifies this
      ensures sameElement || FindIndex(old(todos), draggedId).None? || FindIndex(old(todos), targetId).None? ==>
                todos == old(todos) && sent.None?
      ensures !sameElement && FindIndex(old(todos), draggedId).Some? && FindIndex(old(todos), targetId).Some? ==>
                var moved := Moved(old(todos), FindIndex(old(todos), draggedId).value, FindIndex(old(todos), targetId).value);
                && sent == Some(PositionMap(moved))
                && todos == if !reorderOk && reloaded.Some? then reloaded.value else moved
      ensures currentFilter == old(currentFilter) && currentCategory == old(currentCategory)
      ensures editingId == old(editingId) && selectedTodos == old(selectedTodos) && bulkSelectMode == old(bulkSelectMode)
      ensures categories == old(categories)
    {
      sent := None;
      if sameElement {
        return;
      }
      var draggedIndex := FindIndex(todos, draggedId);
      var targetIndex := FindIndex(todos, targetId);
      if draggedIndex.None? || targetIndex.None? {
        return;
      }
      var dragged := todos[draggedIndex.value];
      todos := RemoveAt(todos, draggedIndex.value);
      todos := InsertAt(todos, targetIndex.value, dragged);
      var positions: map<TodoId, int> := map[];
      var i := 0;
      while i < |todos|
        invariant 0 <= i <= |todos|
        invariant positions == PositionMap(todos[..i])
      {
        assert todos[..i + 1][..i] == todos[..i];
        positions := positions[todos[i].id := i];
        i := i + 1;
      }
      assert todos[..i] == todos;
      sent := Some(positions);
      if !reorderOk {
        LoadTodos(reloaded);
      }
    }

    /** The first `toggleBulkSelect` declaration: flip bulk mode and empty
        the selection. */
    method ToggleBulkMode()
      modifies this
      ensures bulkSelectMode == !old(bulkSelectMode) && selectedTodos == []
      ensures Valid()
      ensures todos == old(todos) && categories == old(categories) && editingId == old(editingId)
      ensures currentFilter == old(currentFilter) && currentCategory == old(currentCategory)
    {
      bulkSelectMode := !bulkSelectMode;
      selectedTodos := [];
    }

    /** The second `toggleBulkSelect(id)` declaration, the one JavaScript
        keeps: flip the membership of `key` and nothing else. */
    method ToggleBulkSelect(key: SelKey)
      modifies this
      requires Valid()
      ensures Valid()
      ensures selectedTodos == Toggled(old(selectedTodos), key)
      ensures bulkSelectMode == old(bulkSelectMode) && todos == old(todos) && editingId == old(editingId)
      ensures categories == old(categories)
      ensures currentFilter == old(currentFilter) && currentCategory == old(currentCategory)
    {
      if key in selectedTodos {
        FilterKeepsNoDuplicates(selectedTodos, x => x != key);
        selectedTodos := Filter(selectedTodos, x => x != key);
      } else {
        selectedTodos := selectedTodos + [key];
      }
    }

    /** The shared part of `bulkComplete`, `bulkArchive` and `bulkDelete`
        up to the server's reply: the guard, the request, and the toast. */
    method SendBulk(kind: BulkKind, confirmed: bool, succeeded: bool) returns (request: Option<BulkRequest>, notice: Option<Notice>)
      ensures request == BulkGuard(selectedTodos, kind, confirmed)
      ensures selectedTodos == [] ==> notice == Some(Warning("No tasks selected"))
      ensures selectedTodos != [] && request.None? ==> notice.None?
      ensures request.Some? && succeeded ==> notice == Some(Success(BulkDoneText(kind, |selectedTodos|)))
      ensures request.Some? && !succeeded ==> notice == Some(ErrorNotice(BulkFailText(kind)))
    {
      request := BulkGuard(selectedTodos, kind, confirmed);
      if selectedTodos == [] {
        notice := Some(Warning("No tasks selected"));
      } else if request.None? {
        notice := None;
      } else if succeeded {
        notice := Some(Success(BulkDoneText(kind, |selectedTodos|)));
      } else {
        notice := Some(ErrorNotice(BulkFailText(kind)));
      }
    }

    /** A bulk button as written: after a successful request it reloads
        the list (`reloaded` is that reload's reply) and calls
        `toggleBulkSelect()` with no argument, which resolves to the second
        declaration and toggles `undefined` in the selection. */
    method RunBulkAsWritten(kind: BulkKind, confirmed: bool, succeeded: bool, reloaded: Option<seq<Todo>>) returns (request: Option<BulkRequest>, notice: Option<Notice>)
      modifies this
      requires Valid()
      ensures Valid()
      ensures request == BulkGuard(old(selectedTodos), kind, confirmed)
      ensures request.Some? && succeeded ==>
                selectedTodos == Toggled(old(selectedTodos), Undefined) && bulkSelectMode == old(bulkSelectMode)
      ensures !(request.Some? && succeeded) ==>
                selectedTodos == old(selectedTodos) && bulkSelectMode == old(bulkSelectMode)
      ensures request.Some? && succeeded ==> todos == if reloaded.Some? then reloaded.value else old(todos)
      ensures !(request.Some? && succeeded) ==> todos == old(todos)
      ensures categories == old(categories) && editingId == old(editingId)
      ensures currentFilter == old(currentFilter) && currentCategory == old(currentCategory)
    {
      request, notice := SendBulk(kind, confirmed, succeeded);
      if request.Some? && succeeded {
        LoadTodos(reloaded);
        ToggleBulkSelect(Undefined);
      }
    }

    /** A bulk button calling the mode toggle it was written to call: after
        success the list is reloaded, bulk mode is left and the selection
        is empty. */
    method RunBulk(kind: BulkKind, confirmed: bool, succeeded: bool, reloaded: Option<seq<Todo>>) returns (request: Option<BulkRequest>, notice: Option<Notice>)
      modifies this
      requires Valid()
      ensures Valid()
      ensures request == BulkGuard(old(selectedTodos), kind, confirmed)
      ensures request.Some? && succeeded ==> selectedTodos == [] && bulkSelectMode == !old(bulkSelectMode)
      ensures !(request.Some? && succeeded) ==>
                selectedTodos == old(selectedTodos) && bulkSelectMode == old(bulkSelectMode)
      ensures request.Some? && succeeded ==> todos == if reloaded.Some? then reloaded.value else old(todos)
      ensures !(request.Some? && succeeded) ==> todos == old(todos)
      ensures categories == old(categories) && editingId == old(editingId)
      ensures currentFilter == old(currentFilter) && currentCategory == old(currentCategory)
    {
      request, notice := SendBulk(kind, confirmed, succeeded);
      if request.Some? && succeeded {
        LoadTodos(reloaded);
        ToggleBulkMode();
      }
    }

    /** `editTodo`: an unknown id does nothing; otherwise the todo becomes
        the one being edited and the form is filled from it. */
    method EditTodo(id: TodoId) returns (form: Option<EditForm>)
      modifies this
      ensures FindIndex(old(todos), id).None? ==> form.None? && editingId == old(editingId)
      ensures FindIndex(old(todos), id).Some? ==>
                editingId == Some(id) && form == Some(FormFor(old(todos)[FindIndex(old(todos), id).value]))
      ensures todos == old(todos) && selectedTodos == old(selectedTodos) && bulkSelectMode == old(bulkSelectMode)
      ensures categories == old(categories)
      ensures currentFilter == old(currentFilter) && currentCategory == old(currentCategory)
    {
      var found := FindIndex(todos, id);
      if found.None? {
        return None;
      }
      editingId := Some(id);
      form := Some(FormFor(todos[found.value]));
    }
  }
}
