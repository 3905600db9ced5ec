# Todo app: a verified model of its logic

The project is a Django REST backend with a vanilla-JavaScript single-page
client and a service worker. Most of it is DOM, fetch and ORM glue. What this
Dafny project models is the logic under that glue, over in-memory records.
The clock, the network, the cache store and the password check are
parameters.

- **Server rules** (`todos/views.py`, `todos/serializers.py`,
  `todos/models.py`, `todos/admin.py`; modules `TodoViews`, `Serializers`,
  `Models`, `Admin`).
  - The list filter of `TodoViewSet.get_queryset`.
  - `toggle`, `share`, `reorder` and `bulk_action` as operations on the
    Todo table and the activity log.
  - The guards of `login_user` and `search_users`.
  - Registration validation and user creation.
  - The `update`/`create` semantics of the Todo and preferences serializers.
  - The `Todo.save` rule tying `completed_at` to `completed`.
  - Field choices and defaults, and category uniqueness.
  - The admin's comment preview, owner-scoped change lists and read-only
    activity log.
- **Task-list state** (`static/js/todos.js`, module `TodoList`).
  - The page's globals form the class `TaskList`.
  - Drag-and-drop reorder and its position map.
  - Both `toggleBulkSelect` declarations and the bulk buttons.
  - The `loadTodos` query mapping.
  - Tag parsing and its round trip with `editTodo`.
  - The search gate.
- **Request layer** (`static/js/api.js`, module `Api`).
  - Header composition, including the CSRF rule and the `upload` override.
  - Dropping null/undefined query parameters.
  - `ApiError` and its message fallback.
  - `checkAuth`.
  - The `RealtimeConnection` state machine: listeners and the bounded
    reconnect counter.
- **Auth page** (`static/js/auth.js`, module `Auth`).
  - `checkAuthentication`, `handleLogin`, `handleRegister` and
    `handleLogout` as methods of `AuthPage`.
  - The login and registration error messages.
  - Avatar initials and the display name.
- **UI helpers** (`static/js/ui.js`, module `Ui`).
  - The pagination window, built by a loop and proved against a
    specification.
  - The theme toggle and its fallback chain.
  - The one-open accordion, over an array.
  - The singleton toast.
- **App helpers** (`static/js/app.js`, module `App`).
  - Activity icons and messages, and the capped feed.
  - The share dialog's recipient list.
  - Delete-completed.
  - The keyboard shortcuts.
- **Service worker** (`static/sw.js`, module `ServiceWorker`).
  - Fetch routing: passthrough, network-only API with an offline 503, and
    cache-first with a conditional store.
  - Eviction of old caches on activation.

Shared helpers live in `Common`: `Option`/`Result`, trimming, splitting,
joining, ASCII case, substring search and filtering. Times are integer
seconds. The server's tables are sequences of records. The browser's
mutable state is held in classes whose methods state their complete new
state.

## Model

| member | source | states |
|---|---|---|
| Models.ParsePriority | todo_project/todos/models.py:37-41 | Only 'low', 'medium' and 'high' are accepted priorities, and an accepted code names the choice stored under it |
| Models.ParseRecurrence | todo_project/todos/models.py:43-49 | Only the five recurrence codes are accepted, each naming its own choice |
| Models.CodesRoundTrip | todo_project/todos/models.py:37-49 | Every priority and recurrence choice parses back from its stored code |
| Models.NewTodo | todo_project/todos/models.py:51-87 | A new row defaults to priority medium, position 0, no parent, not archived, recurrence 'none', not completed, no completion time, no tags and no sharing |
| Models.Saved | todo_project/todos/models.py:100-108 | After save the completion time is set exactly when completed; an existing time is kept, a missing one becomes now; no other field changes |
| Models.SaveIdempotent | todo_project/todos/models.py:100-108 | Saving again later changes nothing: the saved row already satisfies the rule |
| Models.TodoInstance.Save | todo_project/todos/models.py:100-108 | The instance's fields become the saved row, which keeps the completion invariant |
| Models.NewCategory | todo_project/todos/models.py:18-26 | A new category has color '#6366f1' and the folder icon |
| Models.InsertCategory | todo_project/todos/models.py:27-29 | An insert succeeds iff no category of the same user has the same name; on success the row is appended |
| Models.InsertKeepsUnique | todo_project/todos/models.py:29 | Successful inserts preserve uniqueness of (name, user) over the table |
| Admin.CommentPreview | todo_project/todos/admin.py:85-87 | Comments of at most 50 characters are unchanged; longer ones become their first 50 characters plus '...', so a preview never exceeds 53 |
| Admin.OwnerScoped | todo_project/todos/admin.py:30-35 | A superuser sees every row; anyone else sees exactly their own rows |
| Admin.CategoryAdminRows | todo_project/todos/admin.py:30-35 | A non-superuser's category change list holds exactly their own rows, none missing; a superuser's holds every row |
| Admin.TodoAdminRows | todo_project/todos/admin.py:71-76 | A non-superuser's todo change list holds exactly their own rows, none missing; a superuser's holds every row |
| Admin.TemplateAdminRows | todo_project/todos/admin.py:131-136 | A non-superuser's template change list holds exactly their own rows, none missing; a superuser's holds every row |
| Admin.ActivityLogPermission | todo_project/todos/admin.py:108-122 | Activity logs can never be added or changed through the admin; viewing and deleting follow the user's model permission |
| Serializers.UsernameProblems | todo_project/todos/serializers.py:37-40 | The username passes iff it is present and, once trimmed, non-empty, at most 150 characters of word characters and `.@+-`, and not taken; missing is 'required', blank is 'blank', and 'taken' is reported iff the trimmed name is in use |
| Serializers.EmailProblems | todo_project/todos/serializers.py:37-40 | The email passes iff it is blank once trimmed, or at most 254 characters and a valid address; it is never required |
| Serializers.NameProblems | todo_project/todos/serializers.py:37-40 | A first or last name passes iff it is at most 150 characters once trimmed; length is its only check |
| Serializers.PasswordProblems | todo_project/todos/serializers.py:34 | The password passes iff it is present and at least 8 characters once trimmed; a whitespace-only one is blank |
| Serializers.ConfirmProblems | todo_project/todos/serializers.py:35 | The confirmation passes iff it is present and not blank once trimmed; a whitespace-only one is blank |
| Serializers.ValidateRegistration | todo_project/todos/serializers.py:32-45 | Registration is accepted iff every field passes and the trimmed passwords are equal, and then the validated data holds the trimmed values; a mismatch is reported only for two present, differing passwords; a taken username is reported iff it is taken |
| Serializers.DefaultPreferences | todo_project/todos/models.py:178-199 | A new preferences row has the model's defaults: reminders and weekly summary on, list view, 20 per page, medium priority, no default category, private profile, sharing allowed |
| Serializers.CreateUserArguments | todo_project/todos/serializers.py:47-50 | Both password fields are removed before `create_user`; every other validated field is passed through unchanged |
| Serializers.CreateUser | todo_project/todos/serializers.py:47-57 | The new user gets the validated password through `set_password` and a default preferences row |
| Serializers.FullName | todo_project/todos/serializers.py:26-27 | The display name is the stripped "first last", or the username when that is empty |
| Serializers.FullNameOfCleanNames | todo_project/todos/serializers.py:26-27 | With two clean non-empty names the display name is "first last" |
| Serializers.FullNameFallsBack | todo_project/todos/serializers.py:26-27 | With no names the display name is the username |
| Serializers.IsOverdue | todo_project/todos/serializers.py:147-151 | Overdue iff a due date is set, the todo is not completed and the due date is before now |
| Serializers.AssignOne | todo_project/todos/serializers.py:180-181 | One `setattr` sets its own field and leaves every other field alone |
| Serializers.AssignAllFields | todo_project/todos/serializers.py:180-181 | After the assignment loop each field holds its last assigned value, or its old value when unassigned |
| Serializers.OwnedCategory | todo_project/todos/serializers.py:183-188 | A category id is found iff some category with that id belongs to the owner |
| Serializers.MatchingUsers | todo_project/todos/serializers.py:190-191 | The matched users are exactly the given ids that name existing users |
| Serializers.UpdateAssignsFields | todo_project/todos/serializers.py:176-196 | `update` assigns every validated field and leaves the fixed fields unchanged |
| Serializers.UpdateCategoryRule | todo_project/todos/serializers.py:183-188 | An absent category id keeps the category; a given one sets it to the owned category, or to none when unknown or foreign |
| Serializers.UpdateSharingRule | todo_project/todos/serializers.py:190-193 | Given ids, the todo is shared with exactly the matching users, and `is_shared` says whether any exist; without ids sharing is unchanged |
| Serializers.CreateSemantics | todo_project/todos/serializers.py:153-174 | `create` raises `is_shared` only when some named user exists, and sets the requested category exactly when the owner has it |
| Serializers.CreatedCategory | todo_project/todos/serializers.py:159-165 | A created todo has a category iff the requested id names one of the owner's categories, and it is then the requested one |
| Serializers.CreatedSharing | todo_project/todos/serializers.py:167-172 | A created todo is shared when a named user exists, and otherwise only when the client set `is_shared` |
| Serializers.OtherAssignmentsKeepCategory | todo_project/todos/serializers.py:231-241 | Preference assignments that do not name the default category leave it and the owner unchanged |
| Serializers.AssignPreferencesAppend | todo_project/todos/serializers.py:241 | Applying two batches of preference assignments equals applying their concatenation |
| Serializers.PreferencesCategoryRule | todo_project/todos/serializers.py:231-241 | A default category id the user does not own is ignored; an owned one becomes the default category |
| TodoViews.GetQueryset | todo_project/todos/views.py:134-179 | The list holds exactly the rows visible to the requester that pass every filter, and never more rows than the table |
| TodoViews.CompletedRule | todo_project/todos/views.py:154-155 | With `completed`, every listed row's flag equals whether the lower-cased parameter is 'true' |
| TodoViews.ArchivedRule | todo_project/todos/views.py:157-160 | Without `archived` no archived row is listed; with it, listed rows' flag equals whether the lower-cased parameter is 'true' |
| TodoViews.CategoryAllIsNoFilter | todo_project/todos/views.py:148-149 | `category=all` lists the same rows as no category parameter |
| TodoViews.UnreadParamIgnored | todo_project/todos/views.py:134-179 | A parameter the filter does not read never changes the listed rows |
| TodoViews.PinnedAndSharedIgnored | todo_project/todos/views.py:141-146 | `is_pinned` and `is_shared` never change the listed rows |
| TodoViews.CompletedIgnoresCase | todo_project/todos/views.py:154-155 | 'TRUE' and 'true' list the same rows |
| TodoViews.DueDateViews | todo_project/todos/views.py:169-177 | 'overdue' lists only rows the serializer reports overdue; 'today' lists only rows due on the current day |
| TodoViews.SearchFindsTag | todo_project/todos/views.py:162-167 | A search term found, ignoring case, in one tag matches the row through its JSON tags column |
| TodoViews.FindListed | todo_project/todos/views.py:216 | The object lookup finds the first listed row with the id, and fails iff no listed row has it |
| TodoViews.Toggle | todo_project/todos/views.py:214-227 | 404 and no change when the todo is not listed; otherwise only the listed row with the id changes, to its saved copy with completion flipped, and one entry is logged for the requester and that todo, 'completed' iff it is now completed and 'updated' otherwise |
| TodoViews.Share | todo_project/todos/views.py:230-254 | 404 when not listed; 400 and no change for empty `user_ids`; otherwise only that row changes, to its saved copy shared with exactly the existing named users, and one 'shared' entry is logged for the requester and that todo |
| TodoViews.WithPosition | todo_project/todos/views.py:261-262 | Only the requester's row with the id gets the new position; every other row is unchanged |
| TodoViews.ReorderedRows | todo_project/todos/views.py:257-264 | After reorder each of the requester's rows named in the request has its requested position, and every other row is unchanged |
| TodoViews.ReorderedRow | todo_project/todos/views.py:261-262 | A row of the requester takes the last position posted for its id, only its position changes, and any other row is unchanged |
| TodoViews.LookupDistinctKey | todo_project/todos/views.py:259-261 | With distinct keys in the posted object, each key's value is the one posted with it |
| TodoViews.Reorder | todo_project/todos/views.py:257-264 | The loop over the posted positions yields the reordered table |
| TodoViews.UpdateSelected | todo_project/todos/views.py:275-286 | A queryset update changes exactly the requester's rows named in the request |
| TodoViews.Subtasks | todo_project/todos/models.py:67 | The ids of exactly the rows whose parent is in the given set |
| TodoViews.Cascade | todo_project/todos/models.py:67 | Deleting a set of rows removes them, every subtask of a removed row, and nothing outside the table |
| TodoViews.CascadeLeast | todo_project/todos/models.py:67 | The cascade lies inside every set that holds the deleted rows and all their subtasks |
| TodoViews.BulkDelete | todo_project/todos/views.py:286 | The table keeps exactly the rows outside the cascade from the requester's selected rows |
| TodoViews.SelectedIds | todo_project/todos/views.py:275 | The selected ids are exactly those of the requester's rows named in the request |
| TodoViews.BulkAction | todo_project/todos/views.py:267-288 | 400 and no change iff the action is missing or the id list empty; each known update changes only the requester's named rows as named; delete removes exactly the rows in the cascade from the selected rows; an unknown action changes nothing yet succeeds |
| TodoViews.BulkMessage | todo_project/todos/views.py:288 | The success message names the action exactly as sent |
| TodoViews.BulkTouchesOnlyOwnRows | todo_project/todos/views.py:267-288 | With unique ids and every subtask owned by its parent's owner, another user's row survives every bulk action |
| TodoViews.OwnedIds | todo_project/todos/views.py:275 | The ids of exactly the requester's rows |
| TodoViews.DeleteReachesSubtask | todo_project/todos/views.py:286 | A bulk delete of one's own todo removes it and every subtask of it, whoever owns the subtask |
| TodoViews.BulkDeleteReachesOtherUsers | todo_project/todos/views.py:286 | Deleting one's own todo also deletes another user's subtask of it |
| TodoViews.LoginUser | todo_project/todos/views.py:75-96 | 400 iff either field is missing or empty; otherwise 401 iff the credentials do not authenticate, and a login as exactly the authenticated user iff they do |
| TodoViews.Hit | todo_project/todos/views.py:454-459 | A search hit carries the user's id, username, email and stripped full name |
| TodoViews.SearchMatches | todo_project/todos/views.py:447-451 | The candidates are exactly the users other than the requester with the query in a name field, ignoring case |
| TodoViews.SearchUsers | todo_project/todos/views.py:440-459 | Queries shorter than 2 give nothing; otherwise the first ten matching users other than the requester (all of them when fewer), in table order |
| TodoViews.SearchFindsAllFewMatches | todo_project/todos/views.py:447-452 | With at most ten candidates every matching user appears in the result |
| TodoList.FindIndex | todo_project/static/js/todos.js:491-492 | The index of the first todo with the id, or none when no todo has it |
| TodoList.MovedIsPermutation | todo_project/static/js/todos.js:496-497 | A drop keeps the length and the multiset of todos and puts the dragged todo at the target index |
| TodoList.MovedKeepsOrder | todo_project/static/js/todos.js:496-497 | All todos but the dragged one keep their relative order |
| TodoList.MovedKeepsDistinctIds | todo_project/static/js/todos.js:496-497 | A drop keeps the todo ids distinct |
| TodoList.PositionMapIndices | todo_project/static/js/todos.js:500-503 | The position map sends every id to its index, and its values are exactly 0..n-1 |
| TodoList.PositionMapKeys | todo_project/static/js/todos.js:500-503 | The position map has exactly one key per todo id in the list |
| TodoList.TaskList.HandleDrop | todo_project/static/js/todos.js:482-517 | A drop on itself or with an unknown id changes nothing and sends nothing; otherwise the moved list's position map is sent and the list becomes the moved list, or the reloaded one when the server refuses |
| TodoList.TaskList.LoadTodos | todo_project/static/js/todos.js:102-141 | A loaded list replaces the todos; a failed load keeps them; nothing else changes |
| TodoList.TaskList.ToggleBulkMode | todo_project/static/js/todos.js:318-325 | The first declaration flips bulk mode and empties the selection |
| TodoList.Toggled | todo_project/static/js/todos.js:327-333 | The key's membership flips and every other member stays as it was |
| TodoList.ToggleTwice | todo_project/static/js/todos.js:327-333 | Toggling the same key twice restores the selection's members |
| TodoList.TaskList.ToggleBulkSelect | todo_project/static/js/todos.js:327-333 | The selection becomes the toggled set; nothing else changes |
| TodoList.BulkGuard | todo_project/static/js/todos.js:335-389 | No request for an empty selection or an unconfirmed delete; otherwise the request carries exactly the selection and the action named by the button |
| TodoList.TaskList.SendBulk | todo_project/static/js/todos.js:335-389 | An empty selection only warns 'No tasks selected'; a sent request is followed by the success or failure toast of its action |
| TodoList.BulkLeavesStaleSelection | todo_project/static/js/todos.js:327-345 | As written, the post-success toggle adds `undefined` to the selection |
| TodoList.TaskList.RunBulkAsWritten | todo_project/static/js/todos.js:341-345 | After a successful request the list is reloaded, the selection is toggled on `undefined` and bulk mode is unchanged; otherwise nothing changes |
| TodoList.TaskList.RunBulk | todo_project/static/js/todos.js:318-345 | After a successful request the list is reloaded, bulk mode flips and the selection is empty; otherwise nothing changes |
| Common.Lookup | todo_project/static/js/todos.js:104-131 | A key's value among pairs, present iff some pair has the key; the last pair wins |
| TodoList.ToMap | todo_project/static/js/todos.js:133 | The query the server reads holds exactly the keys of the pairs, each with its looked-up value |
| TodoList.FilterParams | todo_project/static/js/todos.js:110-131 | A filter tab adds at most one pair, and one exactly for the six named tabs |
| TodoList.LoadTodosParams | todo_project/static/js/todos.js:102-131 | At most two query pairs are sent, with keys only among `category`, `completed`, `due_date`, `is_pinned` and `is_shared` |
| TodoList.LoadTodosParamsRules | todo_project/static/js/todos.js:102-131 | `category` is sent iff the category is not 'all'; 'active'/'completed' send `completed` 'false'/'true'; 'today'/'overdue' send `due_date`; 'pinned'/'shared' send `is_pinned`/`is_shared` 'true' |
| TodoList.CompletionTab | todo_project/static/js/todos.js:112-117 | Any query extended with a `completed` pair lists only todos whose completion matches it |
| TodoList.CompletionTabs | todo_project/static/js/todos.js:112-117 | The 'active' tab lists only incomplete todos and the 'completed' tab only completed ones |
| TodoList.ToMapSnoc | todo_project/static/js/todos.js:104-131 | A pair added last overrides its key |
| TodoList.PinnedAndSharedTabsListAll | todo_project/static/js/todos.js:124-129 | The 'pinned' and 'shared' tabs list the same rows as 'all' |
| TodoList.TrimAll | todo_project/static/js/todos.js:222 | Every piece is trimmed and none is lost |
| TodoList.ParseTags | todo_project/static/js/todos.js:220-223 | Every parsed tag is non-empty, has no surrounding whitespace and holds no comma |
| TodoList.ParseIgnoresLeadingSpace | todo_project/static/js/todos.js:220-223 | A leading space in the field does not change the tags |
| TodoList.ParseAfterTag | todo_project/static/js/todos.js:220-223 | A clean tag followed by a comma is parsed first and the rest follows |
| TodoList.ParseEmpty | todo_project/static/js/todos.js:220-223 | An empty field gives no tags |
| TodoList.ParseOneTag | todo_project/static/js/todos.js:220-223 | A single clean tag parses to itself |
| TodoList.TagsRoundTrip | todo_project/static/js/todos.js:220-223 | Clean tags written by `editTodo` as `join(', ')` parse back to the same list |
| TodoList.SearchGate | todo_project/static/js/todos.js:400-416 | An empty trimmed query reloads, a one-character query is ignored, a longer one searches the trimmed text with the category unless it is 'all' |
| TodoList.FormFor | todo_project/static/js/todos.js:263-284 | The edit form shows the title, description, category id, priority code, due date to the minute, a non-zero estimate, the flags, the comma-joined tags, and the recurrence code, which parses back to the todo's pattern, only for a recurring todo |
| TodoList.TaskList.EditTodo | todo_project/static/js/todos.js:263-289 | An unknown id does nothing; otherwise the todo becomes the one being edited and its form is filled |
| Api.Member | todo_project/static/js/api.js:16 | Property access is defined iff the value is an object holding the key |
| Api.FinalHeaders | todo_project/static/js/api.js:24-37 | Given headers replace the defaults entirely; otherwise JSON content type, plus the CSRF token exactly when a non-GET method is given and a token is held |
| Api.UploadSendsNoHeaders | todo_project/static/js/api.js:90-95 | An upload carries neither a content type nor a CSRF token |
| Api.CsrfByHelper | todo_project/static/js/api.js:33-35 | post, put, patch and delete carry a held token; get never does |
| Api.ApiClient.Init | todo_project/static/js/api.js:12-20 | The token becomes the reply's `csrfToken` member; a failed fetch keeps the old token |
| Api.ErrorMessage | todo_project/static/js/api.js:102 | The error's message is `data.error`, else `data.message`, else 'API Error' |
| Api.Settle | todo_project/static/js/api.js:37-44 | A failed fetch rejects; an ok reply resolves with its body; any other rejects with an ApiError carrying its status and body, except a `null` error body, which (and only which) fails reading `.error` |
| Api.UnreadableErrorBody | todo_project/static/js/api.js:40-41 | A non-ok reply whose body is not JSON reports 'Request failed' |
| Api.Request | todo_project/static/js/api.js:23-45 | `request` resolves exactly with the body of an ok JSON reply; a failed fetch, and only that, rejects as a network failure; a non-ok reply rejects with an ApiError keeping its status, or with the `.error` read failure exactly when its body is `null` |
| Api.Outgoing | todo_project/static/js/api.js:24-37 | The fetched request keeps the URL and method and always includes credentials; a GET on the default headers never carries the CSRF token, and any other method carries a held one |
| Api.AppendedKeepsValues | todo_project/static/js/api.js:50-54 | Exactly the parameters that are neither null nor undefined are appended |
| Api.AppendParams | todo_project/static/js/api.js:50-54 | The loop appends exactly the defined parameters to the query, in order |
| Api.ParseUrl | todo_project/static/js/api.js:49 | A URL without a base parses iff it opens with a scheme (the only part of URL parsing modelled) |
| Api.GetAlwaysRejects | todo_project/static/js/api.js:48-56 | As written every `get` rejects before reaching the network |
| Api.Get | todo_project/static/js/api.js:48-56 | With the path resolved against the origin, `get` requests the API URL with the defined parameters |
| Api.CheckAuth | todo_project/static/js/api.js:123-130 | Authenticated iff the reply resolved, carrying its `user`; any failure gives not authenticated with a null user |
| Api.CheckAuthAsWrittenSignedOut | todo_project/static/js/api.js:123-130 | As written `checkAuth` never reports a signed-in user |
| Api.CheckAuthFixed | todo_project/static/js/api.js:123-130 | With the URL resolved, a signed-in session reports its user |
| Api.SocketUrl | todo_project/static/js/api.js:244-245 | The socket URL is secure iff the page is |
| Api.RealtimeConnection.Connect | todo_project/static/js/api.js:241-247 | Nothing happens while a socket is held; otherwise a socket opens at the page's URL |
| Api.RealtimeConnection.OnOpen | todo_project/static/js/api.js:249-252 | A successful open resets the reconnect counter |
| Api.RealtimeConnection.AttemptReconnect | todo_project/static/js/api.js:277-288 | At the limit nothing is scheduled; below it the counter goes up by one; it never passes the limit |
| Api.RealtimeConnection.OnClose | todo_project/static/js/api.js:263-267 | A close drops the socket and tries to reconnect |
| Api.RealtimeConnection.Disconnect | todo_project/static/js/api.js:270-275 | Disconnecting drops the socket and keeps the counter and listeners |
| Api.RealtimeConnection.Send | todo_project/static/js/api.js:311-318 | Only an open socket sends |
| Api.RealtimeConnection.On | todo_project/static/js/api.js:290-295 | A callback is appended to its event's list, created if absent |
| Api.RealtimeConnection.Off | todo_project/static/js/api.js:297-301 | Every occurrence of the callback is removed and the rest keep their order |
| Api.RealtimeConnection.Emit | todo_project/static/js/api.js:303-309 | An event's callbacks are called in registration order; an unknown event calls none |
| Api.OffRemovesEveryOccurrence | todo_project/static/js/api.js:300 | After `off` the callback is gone, and removal distributes over appended lists |
| Api.ReconnectsAreBounded | todo_project/static/js/api.js:277-283 | Consecutive closes schedule at most five reconnects in all |
| Auth.ThrownBy | todo_project/static/js/api.js:100-106 | Only an ApiError carries a status and data |
| Auth.LoginErrorText | todo_project/static/js/auth.js:108-114 | 401 gives 'Invalid username or password'; else a truthy `data.error`; in every other case 'Login failed. Please try again.' |
| Auth.LoginMessageRules | todo_project/static/js/auth.js:105-114 | A network failure shows the generic message, any 401 the credentials message, and any other status with a non-empty `error` string that string |
| Auth.ValidationErrors | todo_project/static/js/auth.js:137-167 | Each failing check writes its own message into its own slot, every other slot is cleared, and all slots are clear iff the form passes |
| Auth.FieldMessage | todo_project/static/js/auth.js:185-196 | A field's slot shows the first message of its list, or nothing when the field is absent |
| Auth.ServerErrors | todo_project/static/js/auth.js:183-199 | Without error data the general slot shows 'Registration failed. Please try again.'; with it each of username, email, password and non_field_errors fills its own slot |
| Auth.DuplicateUsernameShown | todo_project/static/js/auth.js:185-187 | Whatever the status and however many messages follow, a rejected username's first message appears under the username field and the other slots stay empty |
| Auth.Initials | todo_project/static/js/auth.js:43-45 | Two upper-cased first letters of first and last name when both are given, else the upper-cased first letter of the username |
| Auth.DisplayName | todo_project/static/js/auth.js:48 | The full name when non-empty, else the username |
| Auth.DisplayNameIsServerFullName | todo_project/static/js/auth.js:48 | The badge shows the server's full name, which already falls back to the username |
| Auth.AuthPage.CheckAuthentication | todo_project/static/js/auth.js:10-22 | The page is signed in iff the check resolved; it then holds the reported user, otherwise a null user |
| Auth.AuthPage.HandleLogin | todo_project/static/js/auth.js:85-121 | Signed in iff the reply carries a user; failures write the selected message and leave the auth state alone |
| Auth.AuthPage.HandleRegister | todo_project/static/js/auth.js:124-205 | Nothing is sent iff validation fails, and then the slots show the validation messages; a sent form shows the server's errors or signs in |
| Auth.AuthPage.HandleLogout | todo_project/static/js/auth.js:208-234 | A successful logout clears the auth state, todos, categories, the edited id, the selection and both forms' error lines; a failed one changes nothing |
| Auth.AuthPage.ClearAuthForms | todo_project/static/js/auth.js:68-82 | Every error line of the login and registration forms is emptied; the sign-in state is unchanged |
| Ui.CeilDiv | todo_project/static/js/ui.js:341 | The page count is the ceiling of items over page size, and is at most one iff the items fit one page |
| Ui.PageEntry | todo_project/static/js/ui.js:353-361 | The current page is a plain entry; page 1, the last page and pages within 2 are buttons; '...' only at distance 3; others omitted |
| Ui.EntriesMembership | todo_project/static/js/ui.js:353-361 | The entries are exactly the pages that get an entry |
| Ui.EntriesIncreasing | todo_project/static/js/ui.js:353-361 | Entries appear in strictly increasing page order |
| Ui.PageRange | todo_project/static/js/ui.js:353-361 | Every page near the current one or at either end has its button, and '...' marks exactly the pages at distance 3 |
| Ui.PrevAndNext | todo_project/static/js/ui.js:347-366 | Previous leads iff the current page is above 1 and Next ends iff it is below the last |
| Ui.EntriesAreNotLinks | todo_project/static/js/ui.js:353-361 | The page entries of the bar are never Previous or Next links |
| Ui.CreatePagination | todo_project/static/js/ui.js:340-371 | The loop builds the specified layout, and nothing is rendered iff everything fits one page |
| Ui.NextTheme | todo_project/static/js/ui.js:6-7 | 'light' when the theme is 'dark', otherwise 'dark' |
| Ui.ToggleTwice | todo_project/static/js/ui.js:6-7 | Two toggles restore either theme |
| Ui.InitialTheme | todo_project/static/js/ui.js:19-21 | The stored theme, else the preference, else 'light' |
| Ui.ThemeSwitch.LoadTheme | todo_project/static/js/ui.js:18-23 | The page theme becomes the fallback choice |
| Ui.ThemeSwitch.ToggleTheme | todo_project/static/js/ui.js:4-16 | The page and stored theme flip together; the preference is sent iff signed in |
| Ui.ReloadKeepsToggle | todo_project/static/js/ui.js:4-23 | A reload after a toggle shows the toggled theme |
| Ui.AfterClick | todo_project/static/js/ui.js:383-395 | Only the clicked header can be open afterwards, open iff it was closed |
| Ui.OnlyOneOpen | todo_project/static/js/ui.js:383-395 | With every other header closed at most one is open |
| Ui.ClickLeavesAtMostOne | todo_project/static/js/ui.js:383-395 | After a click at most one header is open; clicking an open one leaves none open |
| Ui.ClickHeader | todo_project/static/js/ui.js:383-395 | The loop over the headers yields the specified state |
| Ui.ToastArea.ShowNotification | todo_project/static/js/ui.js:87-113 | Any existing toast is removed before the new one is appended, so exactly one toast shows |
| Ui.ToastArea.Remove | todo_project/static/js/ui.js:107-111 | The timed removal takes away only its own toast |
| App.ActivityIcon | todo_project/static/js/app.js:129-140 | The mapped glyph for the seven logged actions, '📌' for anything else |
| App.LoggedActionsHaveOwnIcons | todo_project/static/js/app.js:129-140 | Every logged action has its own glyph, distinct from the others and from the fallback |
| App.ActivityMessage | todo_project/static/js/app.js:143-165 | A fixed phrase per known action, else the capitalised action, followed by the bold escaped title |
| App.MessageEndsWithTitle | todo_project/static/js/app.js:143-165 | Every message ends with the bold escaped title, and a logged action's message never depends on the capitalisation helper |
| App.ActivityFeed | todo_project/static/js/app.js:101-126 | No activity gives the empty notice; otherwise at most the first 10, each with its icon and message |
| App.Ids | todo_project/static/js/app.js:434-435 | The request carries the selected users' ids in order |
| App.ShareDialog.Open | todo_project/static/js/app.js:354-359 | Opening sets the todo and empties the selection |
| App.ShareDialog.SelectUser | todo_project/static/js/app.js:395-413 | An already selected id is not added again; a new user is appended |
| App.ShareDialog.RemoveUser | todo_project/static/js/app.js:415-425 | Every entry with the id is dropped and the others keep their order |
| App.ShareDialog.ShareTodo | todo_project/static/js/app.js:427-444 | Without a todo or a selected user it only warns; otherwise it requests sharing with exactly the selected ids |
| App.FilterKeepsDistinctIds | todo_project/static/js/app.js:416 | Removing a user keeps the selected ids distinct |
| App.SelectingTwiceKeepsOne | todo_project/static/js/app.js:396-398 | Selecting the same user twice lists them once |
| App.DeleteCompletedAlwaysThrows | todo_project/static/js/app.js:298 | As written delete-completed always throws |
| App.DeleteCompleted | todo_project/static/js/app.js:297-319 | Nothing to delete iff no todo is completed; otherwise it confirms deleting exactly the completed todos' ids |
| App.DeleteCompletedTargetsCompleted | todo_project/static/js/app.js:305-310 | The deleted ids are exactly the ids of completed todos |
| App.KeyCommands | todo_project/static/js/app.js:241-294 | Outside text fields, Ctrl/Cmd with n, f, e, t and d picks exactly focus-title, focus-search, export, theme and delete-completed; Ctrl/Cmd+S submits and Escape stops editing exactly while editing; '?' with Shift shows the shortcuts; nothing while typing in an INPUT or TEXTAREA |
| App.SaveAndEscapeAreDead | todo_project/static/js/app.js:270-291 | As written Ctrl+S and Escape never act |
| App.SaveAndEscapeWhileEditing | todo_project/static/js/app.js:270-291 | With the page's edited id, Ctrl+S submits and Escape stops editing |
| ServiceWorker.RouteOf | todo_project/static/sw.js:53-84 | Non-GET passes through, GETs of '/api/' URLs are network-only, every other GET is cache-first |
| ServiceWorker.MatchIn | todo_project/static/sw.js:79-84 | A lookup hits iff some cache holds the key, and returns the entry of the first such cache in creation order |
| ServiceWorker.CacheStore.Match | todo_project/static/sw.js:79-84 | A lookup hits iff some cache holds the key |
| ServiceWorker.CacheStore.Put | todo_project/static/sw.js:99-102 | The response is stored under the key in the current cache, which is created if needed |
| ServiceWorker.CacheStore.HandleFetch | todo_project/static/sw.js:53-114 | API failures answer the offline 503; a hit is returned without storing; a miss stores only a 200 same-origin reply and returns it; failed documents fall back to the cached '/' |
| ServiceWorker.StoredEntryIsFound | todo_project/static/sw.js:89-104 | After a miss is stored, the next lookup of that URL returns it |
| ServiceWorker.CacheStore.Activate | todo_project/static/sw.js:37-50 | Every cache but 'todo-app-v1' is deleted and that one is kept intact |

## Left out

- `static/js/charts.js`, the migrations and both `urls.py` files are not part of this model. They hold chart plumbing, a generated schema and routing.
- DOM rendering, markup, animations and console logging are left out. Each handler's effect is reduced to the state it changes and the toast it shows.
- Timers are left out: the 300 ms debounce, the toast auto-close delay, the reconnect delay and periodic refreshes. Only the fact that a reconnect or removal is scheduled is modelled.
- Uninterpreted helpers are parameters: `isValidEmail` (an `emailValid` flag), `escapeHtml` and `capitalizeFirst` (functions), and `authenticate` (a function to an optional user). Sessions and `login` are left out.
- `timezone.now()` and `new Date()` are an integer `now` in seconds. Calendar days are whole-day divisions. Time zones and the week view's date arithmetic are not modelled.
- The Todo table is a sequence of records. Database ordering, `select_related`, `distinct()` and pagination of the list endpoint are left out, and so are the ORM's other filters such as priority and category joins beyond equality.
- TodoViews.Toggle, TodoViews.Share and TodoViews.BulkAction: the in-place row saves are modelled as new table values rather than updates through model instances.
- Case-insensitive search uses ASCII case folding only. Python `str.lower` and JavaScript `toLowerCase` on other scripts are not modelled. String lengths count code points, not UTF-16 units.
- TodoViews.SearchFindsTag: the tags column is modelled as `json.dumps` output without escaping of quotes, backslashes or non-ASCII characters.
- The order of `Object.keys` for integer-like keys is not modelled. Query parameters keep the order in which they were added.
- Emitting while a callback mutates its own listener list is not modelled. `emit` calls the list as it was when it started.
- `handleDrop` with `draggedElement` still null (a drop without a drag start) is not modelled.
- Ui.CreatePagination and Ui.CeilDiv require a positive page size. The source divides by it, and with zero it would produce an infinite page count.
- Floating point (progress percentages, completion rates, file sizes) is not part of this model. `Math.ceil` of the page count is integer ceiling division.
- `icons[action]` for keys inherited from `Object.prototype` (such as `constructor`) is not modelled. Such keys are treated as unknown actions.
- The activity feed's relative time (`formatRelativeTime`) is not part of this model.
- Service worker: the `install` pre-cache, background `sync` and `push` handlers are left out. Cache keys are absolute URLs, and the document fallback looks up `origin + '/'`.
- Auth.AuthPage.HandleLogin: a throw from `showApp`/`initializeApp` after a successful login would also reach the catch block; loading the app is outside this model.
- The profile form (`updateProfile`/`showProfile`) is left out apart from the initials and display name it shares with `showApp`.
- Auth.AuthPage.CheckAuthentication: its catch branch is unreachable because `checkAuth` never throws, so it is not modelled separately.
- The WebSocket transport and JSON message parsing (`onmessage`) are not modelled. Callbacks are identities, and `emit` returns the callbacks it would call.
- TodoViews.BulkAction: a delete also removes the deleted todos' comments and attachments, whose foreign keys cascade, and sets the `todo` of their activity-log rows to null. Those tables are not inputs of this operation, so only the Todo table's cascade through `parent_todo` is modelled.
- TodoViews.BulkTouchesOnlyOwnRows: holds only for a table whose subtasks all belong to their parent's owner. Nothing in the serializer enforces that, and TodoViews.BulkDeleteReachesOtherUsers shows a delete reaching another user's subtask otherwise.
- The `parent_todo` a client writes is taken as validated data: the check that the id names an existing todo belongs to the request parsing, which is not modelled.
- Todo columns that no modelled operation reads (`recurrence_end_date`, `actual_minutes`, `reminder_date`, `reminder_sent`, `updated_at`) are not part of the record, so `editTodo`'s recurrence end-date field is left out.
- Serializers.CreateUser: `create_user` normalizes the username (Unicode NFKC) and lower-cases the email's domain part. The model stores the validated strings as given.
- Serializers.ValidateRegistration: the rejection of NUL characters that every DRF text field applies is not modelled. Python's Unicode word class for usernames is the parameter `wordChar`, and the email check is the parameter `validEmail`.
- Api.ApiClient.Init: a `csrfToken` member that is not a string is read as no token, while the source stores whatever value the reply holds; a number or object token would be sent as its text.
- Api.ParseUrl: tests only whether the text opens with a scheme. Host, port, path and percent-encoding rules of the URL standard are not modelled; every URL the client builds is a bare path, which fails at the scheme test already.

## Findings

| source | as written | input that shows it | evidently intended | confidence | as-written member | corrected member |
|---|---|---|---|---|---|---|
| todo_project/static/js/api.js:49 | `new URL('/api' + endpoint)` is parsed without a base URL, so it throws for every endpoint | `api.get('/auth/user/')`: the path '/api/auth/user/' is not an absolute URL | Resolve the path against the page origin (`new URL(path, window.location.origin)`) | not executed | Api.GetAlwaysRejects | Api.Get |
| todo_project/static/js/api.js:123-130 | `checkAuth` goes through `get`, so it always reports signed out | Any signed-in session: `checkAuth()` gives `{isAuthenticated: false}` | Report the signed-in user | not executed | Api.CheckAuthAsWrittenSignedOut | Api.CheckAuthFixed |
| todo_project/static/js/todos.js:318-345 | `toggleBulkSelect` is declared twice; the later one-argument body wins, so the no-argument call after a bulk action adds `undefined` to the selection | Select one todo 'a', run Complete successfully: the selection becomes {'a', undefined} and bulk mode stays on | Leave bulk mode and clear the selection | not executed | TodoList.TaskList.RunBulkAsWritten | TodoList.TaskList.RunBulk |
| todo_project/static/js/app.js:298 | `window.todos` is undefined, because a top-level `let` does not create a `window` property, so `.filter` throws | Press Ctrl+D with completed tasks listed | Filter the module's `todos` list | not executed | App.DeleteCompletedAlwaysThrows | App.DeleteCompleted |
| todo_project/static/js/app.js:272,287 | `window.editingId` is always undefined, so the Ctrl+S and Escape branches never run | Edit a todo, then press Ctrl+S | Test the module's `editingId` | not executed | App.SaveAndEscapeAreDead | App.SaveAndEscapeWhileEditing |
