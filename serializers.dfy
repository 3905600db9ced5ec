/** The REST serializers' own rules (todos/serializers.py): registration
    validation and user creation, the display name, the overdue flag,
    the Todo create/update semantics and the preferences update. */
module Serializers {
  import opened Common
  import opened Models

  // ---------------------------------------------------------------------
  // Registration

  /** The registration payload as posted. The username and both password
      fields may be missing; a missing email or name behaves as an empty
      one, since those fields are optional and default to ''. */
  datatype RegistrationData = RegistrationData(
    username: Option<string>, email: string, firstName: string, lastName: string,
    password: Option<string>, passwordConfirm: Option<string>)

  /** One failed check of a field. A field reports every validator that
      fails on it, so its problems form a set. */
  datatype FieldProblem = Required | Blank | TooShort | TooLong | Invalid | Taken

  datatype RegistrationErrors =
    | FieldErrors(username: set<FieldProblem>, email: set<FieldProblem>, firstName: set<FieldProblem>,
                  lastName: set<FieldProblem>, password: set<FieldProblem>, passwordConfirm: set<FieldProblem>)
    | PasswordsDontMatch

  const MinPasswordLength: nat := 8
  const MaxUsernameLength: nat := 150
  const MaxNameLength: nat := 150
  const MaxEmailLength: nat := 254

  // Every field below is a `CharField` with `trim_whitespace`: its checks
  // see the value with surrounding whitespace stripped, and a value that is
  // empty after stripping is blank.

  /** The characters `UnicodeUsernameValidator` admits: word characters
      (as `wordChar` classifies them) and `.`, `@`, `+`, `-`. */
  predicate UsernameChar(c: char, wordChar: char -> bool) {
    wordChar(c) || c == '.' || c == '@' || c == '+' || c == '-'
  }

  /** A trimmed username the User model accepts. */
  predicate UsernameAcceptable(v: string, taken: set<string>, wordChar: char -> bool) {
    v != "" && |v| <= MaxUsernameLength && (forall i :: 0 <= i < |v| ==> UsernameChar(v[i], wordChar)) && v !in taken
  }

  /** The `username` field: required, not blank, at most 150 characters of
      the admitted kinds, and not already some user's username. */
  function UsernameProblems(u: Option<string>, taken: set<string>, wordChar: char -> bool): (r: set<FieldProblem>)
    ensures r == {} <==> u.Some? && UsernameAcceptable(PyStrip(u.value), taken, wordChar)
    ensures u.None? ==> r == {Required}
    ensures u.Some? && PyStrip(u.value) == "" ==> r == {Blank}
    ensures Taken in r <==> u.Some? && PyStrip(u.value) != "" && PyStrip(u.value) in taken
  {
    if u.None? then {Required}
    else
      var v := PyStrip(u.value);
      if v == "" then {Blank}
      else
        (if |v| > MaxUsernameLength then {TooLong} else {})
        + (if forall i :: 0 <= i < |v| ==> UsernameChar(v[i], wordChar) then {} else {Invalid})
        + (if v in taken then {Taken} else {})
  }

  /** The `email` field: may be blank; otherwise at most 254 characters
      and a valid address. */
  function EmailProblems(e: string, validEmail: string -> bool): (r: set<FieldProblem>)
    ensures r == {} <==> PyStrip(e) == "" || (|PyStrip(e)| <= MaxEmailLength && validEmail(PyStrip(e)))
    ensures Blank !in r && Required !in r
  {
    var v := PyStrip(e);
    if v == "" then {}
    else (if |v| > MaxEmailLength then {TooLong} else {}) + (if validEmail(v) then {} else {Invalid})
  }

  /** `first_name` and `last_name`: may be blank, at most 150 characters. */
  function NameProblems(n: string): (r: set<FieldProblem>)
    ensures r == {} <==> |PyStrip(n)| <= MaxNameLength
    ensures r <= {TooLong}
  {
    if |PyStrip(n)| > MaxNameLength then {TooLong} else {}
  }

  /** The password field: required, not blank, at least eight characters
      once trimmed. */
  function PasswordProblems(p: Option<string>): (r: set<FieldProblem>)
    ensures r == {} <==> p.Some? && |PyStrip(p.value)| >= MinPasswordLength
    ensures r == {Blank} <==> p.Some? && PyStrip(p.value) == ""
  {
    if p.None? then {Required}
    else if PyStrip(p.value) == "" then {Blank}
    else if |PyStrip(p.value)| < MinPasswordLength then {TooShort}
    else {}
  }

  /** The confirmation field: required and not blank once trimmed. */
  function ConfirmProblems(p: Option<string>): (r: set<FieldProblem>)
    ensures r == {} <==> p.Some? && PyStrip(p.value) != ""
    ensures r == {Blank} <==> p.Some? && PyStrip(p.value) == ""
  {
    if p.None? then {Required}
    else if PyStrip(p.value) == "" then {Blank}
    else {}
  }

  /** Field validation first, over every field; `validate` compares the
      trimmed passwords only when every field passed. The validated data
      holds the trimmed values. */
  function ValidateRegistration(d: RegistrationData, taken: set<string>, wordChar: char -> bool,
                                validEmail: string -> bool): (r: Result<RegistrationData, RegistrationErrors>)
    ensures r.Ok? <==> (d.username.Some? && UsernameAcceptable(PyStrip(d.username.value), taken, wordChar)
                        && (PyStrip(d.email) == "" || (|PyStrip(d.email)| <= MaxEmailLength && validEmail(PyStrip(d.email))))
                        && |PyStrip(d.firstName)| <= MaxNameLength && |PyStrip(d.lastName)| <= MaxNameLength
                        && d.password.Some? && d.passwordConfirm.Some?
                        && |PyStrip(d.password.value)| >= MinPasswordLength
                        && PyStrip(d.password.value) == PyStrip(d.passwordConfirm.value))
    ensures r.Ok? ==> r.value.username == Some(PyStrip(d.username.value)) && r.value.email == PyStrip(d.email)
                      && r.value.firstName == PyStrip(d.firstName) && r.value.lastName == PyStrip(d.lastName)
                      && r.value.password == Some(PyStrip(d.password.value))
                      && r.value.passwordConfirm == r.value.password
    ensures r == Err(PasswordsDontMatch) ==>
              d.password.Some? && d.passwordConfirm.Some? && PyStrip(d.password.value) != PyStrip(d.passwordConfirm.value)
    ensures r.Err? && r.error.FieldErrors? ==>
              (Taken in r.error.username <==> d.username.Some? && PyStrip(d.username.value) != "" && PyStrip(d.username.value) in taken)
  {
    var errors := FieldErrors(UsernameProblems(d.username, taken, wordChar), EmailProblems(d.email, validEmail),
                              NameProblems(d.firstName), NameProblems(d.lastName),
                              PasswordProblems(d.password), ConfirmProblems(d.passwordConfirm));
    if errors.username != {} || errors.email != {} || errors.firstName != {} || errors.lastName != {}
       || errors.password != {} || errors.passwordConfirm != {}
    then Err(errors)
    else if PyStrip(d.password.value) != PyStrip(d.passwordConfirm.value) then Err(PasswordsDontMatch)
    else Ok(RegistrationData(Some(PyStrip(d.username.value)), PyStrip(d.email), PyStrip(d.firstName), PyStrip(d.lastName),
                             Some(PyStrip(d.password.value)), Some(PyStrip(d.passwordConfirm.value))))
  }

  datatype PasswordState = Unusable | PasswordSetTo(raw: string)

  datatype UserRecord = UserRecord(
    id: UserId, username: string, email: string, firstName: string, lastName: string,
    password: PasswordState, themePreference: string)

  datatype Preferences = Preferences(
    owner: UserId,
    emailReminders: bool, emailDailySummary: bool, emailWeeklySummary: bool,
    defaultView: string, itemsPerPage: int, showCompleted: bool,
    defaultPriority: Priority, defaultCategory: Option<CategoryId>,
    profilePublic: bool, allowSharing: bool)

  /** A preferences row created with only its user given. */
  function DefaultPreferences(owner: UserId): (p: Preferences)
    ensures p.emailReminders && !p.emailDailySummary && p.emailWeeklySummary
    ensures p.defaultView == "list" && p.itemsPerPage == 20 && p.showCompleted
    ensures p.defaultPriority == Medium && p.defaultCategory == None
    ensures !p.profilePublic && p.allowSharing && p.owner == owner
  {
    Preferences(owner, true, false, true, "list", 20, true, Medium, None, false, true)
  }

  /** The keyword arguments `create` hands to `create_user`: the validated
      data with both password fields popped. */
  function CreateUserArguments(validated: map<string, string>): (kwargs: map<string, string>)
    requires "password" in validated && "password_confirm" in validated
    ensures "password" !in kwargs && "password_confirm" !in kwargs
    ensures forall k :: k in validated && k != "password" && k != "password_confirm" ==> k in kwargs && kwargs[k] == validated[k]
    ensures kwargs.Keys <= validated.Keys
  {
    validated - {"password_confirm", "password"}
  }

  function Field(m: map<string, string>, k: string): string {
    if k in m then m[k] else ""
  }

  /** `UserRegistrationSerializer.create`: the user is created without a
      password (an unusable one), then the popped password is set on it,
      and a default preferences row is created beside it. */
  function CreateUser(validated: map<string, string>, newId: UserId): (r: (UserRecord, Preferences))
    requires "password" in validated && "password_confirm" in validated
    ensures r.0.password == PasswordSetTo(validated["password"])
    ensures r.0.id == newId && r.1 == DefaultPreferences(newId)
    ensures r.0.username == Field(validated, "username") && r.0.email == Field(validated, "email")
  {
    var kwargs := CreateUserArguments(validated);
    var created := UserRecord(newId, Field(kwargs, "username"), Field(kwargs, "email"),
                              Field(kwargs, "first_name"), Field(kwargs, "last_name"),
                              Unusable, "light");
    (created.(password := PasswordSetTo(validated["password"])), DefaultPreferences(newId))
  }

  // ---------------------------------------------------------------------
  // Display name and overdue flag

  /** `UserSerializer.get_full_name`: Django's "first last" with surrounding
      whitespace stripped, or the username when that is empty. */
  function FullName(firstName: string, lastName: string, username: string): (r: string)
    ensures PyStrip(firstName + " " + lastName) == "" ==> r == username
    ensures PyStrip(firstName + " " + lastName) != "" ==> r == PyStrip(firstName + " " + lastName)
  {
    var full := PyStrip(firstName + " " + lastName);
    if full != "" then full else username
  }

  /** With both names non-empty and free of surrounding whitespace, the
      display name is exactly "first last". */
  lemma FullNameOfCleanNames(firstName: string, lastName: string, username: string)
    requires firstName != "" && lastName != ""
    requires Trimmed(firstName, IsPySpace) && Trimmed(lastName, IsPySpace)
    ensures FullName(firstName, lastName, username) == firstName + " " + lastName
  {
    var s := firstName + " " + lastName;
    assert s[0] == firstName[0];
    assert s[|s| - 1] == lastName[|lastName| - 1];
    TrimOfTrimmed(s, IsPySpace);
  }

  /** With both names empty the display name falls back to the username. */
  lemma FullNameFallsBack(username: string)
    ensures FullName("", "", username) == username
  {
    assert "" + " " + "" == " ";
    assert IsPySpace(' ');
    assert TrimStart(" ", IsPySpace) == TrimStart(" "[1..], IsPySpace);
    assert " "[1..] == "";
  }

  /** `TodoSerializer.get_is_overdue`. */
  function IsOverdue(dueDate: Option<int>, completed: bool, now: int): (r: bool)
    ensures r <==> dueDate.Some? && !completed && dueDate.value < now
  {
    if dueDate.Some? && !completed then dueDate.value < now else false
  }

  // ---------------------------------------------------------------------
  // Todo create and update

  /** The writable Todo fields the client sends. */
  datatype TodoField =
    | TitleField | DescriptionField | PriorityField | DueDateField | CompletedField
    | PinnedField | ArchivedField | PositionField | ParentField | SharedField | RecurringField
    | RecurrenceField | TagsField | EstimateField

  /** One `setattr(instance, attr, value)` of validated data. */
  datatype Assignment =
    | SetTitle(title: string)
    | SetDescription(description: string)
    | SetPriority(priority: Priority)
    | SetDueDate(dueDate: Option<int>)
    | SetCompleted(completed: bool)
    | SetPinned(pinned: bool)
    | SetArchived(archived: bool)
    | SetPosition(position: int)
    | SetParent(parent: Option<TodoId>)
    | SetShared(shared: bool)
    | SetRecurring(recurring: bool)
    | SetRecurrence(recurrence: Recurrence)
    | SetTags(tags: seq<string>)
    | SetEstimate(minutes: Option<int>)

  function FieldOf(a: Assignment): TodoField {
    match a
    case SetTitle(_) => TitleField
    case SetDescription(_) => DescriptionField
    case SetPriority(_) => PriorityField
    case SetDueDate(_) => DueDateField
    case SetCompleted(_) => CompletedField
    case SetPinned(_) => PinnedField
    case SetArchived(_) => ArchivedField
    case SetPosition(_) => PositionField
    case SetParent(_) => ParentField
    case SetShared(_) => SharedField
    case SetRecurring(_) => RecurringField
    case SetRecurrence(_) => RecurrenceField
    case SetTags(_) => TagsField
    case SetEstimate(_) => EstimateField
  }

  /** The current value of a field, as the assignment that would set it. */
  function ValueOf(t: Todo, f: TodoField): (a: Assignment)
    ensures FieldOf(a) == f
  {
    match f
    case TitleField => SetTitle(t.title)
    case DescriptionField => SetDescription(t.description)
    case PriorityField => SetPriority(t.priority)
    case DueDateField => SetDueDate(t.dueDate)
    case CompletedField => SetCompleted(t.completed)
    case PinnedField => SetPinned(t.isPinned)
    case ArchivedField => SetArchived(t.isArchived)
    case PositionField => SetPosition(t.position)
    case ParentField => SetParent(t.parent)
    case SharedField => SetShared(t.isShared)
    case RecurringField => SetRecurring(t.isRecurring)
    case RecurrenceField => SetRecurrence(t.recurrence)
    case TagsField => SetTags(t.tags)
    case EstimateField => SetEstimate(t.estimatedMinutes)
  }

  function Assign(t: Todo, a: Assignment): Todo {
    match a
    case SetTitle(x) => t.(title := x)
    case SetDescription(x) => t.(description := x)
    case SetPriority(x) => t.(priority := x)
    case SetDueDate(x) => t.(dueDate := x)
    case SetCompleted(x) => t.(completed := x)
    case SetPinned(x) => t.(isPinned := x)
    case SetArchived(x) => t.(isArchived := x)
    case SetPosition(x) => t.(position := x)
    case SetParent(x) => t.(parent := x)
    case SetShared(x) => t.(isShared := x)
    case SetRecurring(x) => t.(isRecurring := x)
    case SetRecurrence(x) => t.(recurrence := x)
    case SetTags(x) => t.(tags := x)
    case SetEstimate(x) => t.(estimatedMinutes := x)
  }

  /** The fields no assignment can touch. */
  predicate SameFixedFields(t: Todo, u: Todo) {
    u.id == t.id && u.owner == t.owner && u.category == t.category
    && u.completedAt == t.completedAt && u.createdAt == t.createdAt
    && u.sharedWith == t.sharedWith
  }

  /** One assignment sets its own field and leaves every other one alone. */
  lemma AssignOne(t: Todo, a: Assignment, f: TodoField)
    ensures ValueOf(Assign(t, a), f) == if FieldOf(a) == f then a else ValueOf(t, f)
    ensures SameFixedFields(t, Assign(t, a))
  {
    AssignKeepsFixedFields(t, a);
    match f
    case TitleField =>
    case DescriptionField =>
    case PriorityField =>
    case DueDateField =>
    case CompletedField =>
    case PinnedField =>
    case ArchivedField =>
    case PositionField =>
    case ParentField =>
    case SharedField =>
    case RecurringField =>
    case RecurrenceField =>
    case TagsField =>
    case EstimateField =>
  }

  /** No assignment touches the fixed fields. */
  lemma AssignKeepsFixedFields(t: Todo, a: Assignment)
    ensures SameFixedFields(t, Assign(t, a))
  {
    match a
    case SetTitle(_) =>
    case SetDescription(_) =>
    case SetPriority(_) =>
    case SetDueDate(_) =>
    case SetCompleted(_) =>
    case SetPinned(_) =>
    case SetArchived(_) =>
    case SetPosition(_) =>
    case SetParent(_) =>
    case SetShared(_) =>
    case SetRecurring(_) =>
    case SetRecurrence(_) =>
    case SetTags(_) =>
    case SetEstimate(_) =>
  }

  /** The `for attr, value in validated_data.items()` loop, in order. */
  function AssignAll(t: Todo, data: seq<Assignment>): Todo
    decreases |data|
  {
    if |data| == 0 then t else Assign(AssignAll(t, data[..|data| - 1]), data[|data| - 1])
  }

  /** The last assignment in `data` to field `f`, if any. */
  function LastAssignment(data: seq<Assignment>, f: TodoField): (r: Option<Assignment>)
    ensures r.Some? ==> r.value in data && FieldOf(r.value) == f
    ensures r.None? ==> forall k :: 0 <= k < |data| ==> FieldOf(data[k]) != f
    decreases |data|
  {
    if |data| == 0 then None
    else if FieldOf(data[|data| - 1]) == f then Some(data[|data| - 1])
    else LastAssignment(data[..|data| - 1], f)
  }

  /** The value a field should hold after the loop. */
  function ExpectedValue(t: Todo, data: seq<Assignment>, f: TodoField): Assignment {
    var last := LastAssignment(data, f);
    if last.Some? then last.value else ValueOf(t, f)
  }

  /** After the loop every field holds the value last assigned to it (validated
      data has one entry per field), and every unassigned field is as before. */
  lemma {:induction false} AssignAllFields(t: Todo, data: seq<Assignment>, f: TodoField)
    ensures ValueOf(AssignAll(t, data), f) == ExpectedValue(t, data, f)
    ensures SameFixedFields(t, AssignAll(t, data))
    decreases |data|
  {
    if |data| > 0 {
      var init := data[..|data| - 1];
      AssignAllFields(t, init, f);
      AssignOne(AssignAll(t, init), data[|data| - 1], f);
    }
  }

  /** The validated payload of a Todo write: the plain fields, plus the two
      write-only fields that `create` and `update` pop first. */
  datatype TodoPayload = TodoPayload(
    assignments: seq<Assignment>,
    categoryId: Option<CategoryId>,
    sharedWithIds: Option<seq<UserId>>)

  /** `Category.objects.get(id=..., user=...)`: found only when owned. */
  function OwnedCategory(categories: seq<Category>, id: CategoryId, owner: UserId): (r: Option<CategoryId>)
    ensures r.Some? <==> exists k :: 0 <= k < |categories| && categories[k].id == id && categories[k].owner == owner
    ensures r.Some? ==> r.value == id
  {
    if exists k :: 0 <= k < |categories| && categories[k].id == id && categories[k].owner == owner
    then Some(id) else None
  }

  /** `User.objects.filter(id__in=ids)`: the ids that name existing users. */
  function MatchingUsers(ids: seq<UserId>, existingUsers: set<UserId>): (r: set<UserId>)
    ensures forall u :: u in r <==> u in ids && u in existingUsers
  {
    set u | u in ids && u in existingUsers
  }

  /** The row `TodoSerializer.update` saves. */
  function UpdatedTodo(t: Todo, p: TodoPayload, categories: seq<Category>, existingUsers: set<UserId>, now: int): Todo
  {
    var afterLoop := AssignAll(t, p.assignments);
    var withCategory :=
      if p.categoryId.Some? then afterLoop.(category := OwnedCategory(categories, p.categoryId.value, t.owner))
      else afterLoop;
    var users := if p.sharedWithIds.Some? then MatchingUsers(p.sharedWithIds.value, existingUsers) else {};
    var withSharing :=
      if p.sharedWithIds.Some? then withCategory.(sharedWith := users, isShared := users != {})
      else withCategory;
    Saved(withSharing, now)
  }

  /** `update` assigns every field named in the validated data, leaves every
      other plain field as it was, and never touches the row's identity. */
  lemma UpdateAssignsFields(t: Todo, p: TodoPayload, categories: seq<Category>, existingUsers: set<UserId>, now: int, f: TodoField)
    requires f != SharedField || p.sharedWithIds.None?
    ensures ValueOf(UpdatedTodo(t, p, categories, existingUsers, now), f) == ExpectedValue(t, p.assignments, f)
    ensures var u := UpdatedTodo(t, p, categories, existingUsers, now);
      u.id == t.id && u.owner == t.owner && u.createdAt == t.createdAt && CompletionConsistent(u)
  {
    AssignAllFields(t, p.assignments, f);
  }

  /** An absent (or null) `category_id` keeps the category; a given one
      becomes the category when the todo's owner owns it, and None otherwise. */
  lemma UpdateCategoryRule(t: Todo, p: TodoPayload, categories: seq<Category>, existingUsers: set<UserId>, now: int)
    ensures var u := UpdatedTodo(t, p, categories, existingUsers, now);
      && (p.categoryId.None? ==> u.category == t.category)
      && (p.categoryId.Some? ==> u.category == OwnedCategory(categories, p.categoryId.value, t.owner))
  {
    AssignAllFields(t, p.assignments, TitleField);
  }

  /** Given ids, the todo is shared with exactly the existing users among
      them and is marked shared exactly when there is one; without ids the
      sharing is left as it was. */
  lemma UpdateSharingRule(t: Todo, p: TodoPayload, categories: seq<Category>, existingUsers: set<UserId>, now: int)
    ensures var u := UpdatedTodo(t, p, categories, existingUsers, now);
      && (p.sharedWithIds.None? ==> u.sharedWith == t.sharedWith)
      && (p.sharedWithIds.Some? ==> u.sharedWith == MatchingUsers(p.sharedWithIds.value, existingUsers))
      && (p.sharedWithIds.Some? ==> (u.isShared <==> exists k :: 0 <= k < |p.sharedWithIds.value| && p.sharedWithIds.value[k] in existingUsers))
  {
    AssignAllFields(t, p.assignments, TitleField);
    if p.sharedWithIds.Some? {
      var ids := p.sharedWithIds.value;
      if exists k :: 0 <= k < |ids| && ids[k] in existingUsers {
        var k :| 0 <= k < |ids| && ids[k] in existingUsers;
        assert ids[k] in MatchingUsers(ids, existingUsers);
      }
    }
  }

  /** The row `TodoSerializer.create` leaves: defaults, then the assigned
      fields, then the owned category, then sharing when ids were given. */
  function CreatedTodo(id: TodoId, owner: UserId, createdAt: int, p: TodoPayload,
                       categories: seq<Category>, existingUsers: set<UserId>, now: int): Todo
  {
    var created := Saved(AssignAll(NewTodo(id, owner, "", createdAt), p.assignments), now);
    var withCategory :=
      if p.categoryId.Some? && OwnedCategory(categories, p.categoryId.value, owner).Some?
      then created.(category := Some(p.categoryId.value))
      else created;
    var users := if p.sharedWithIds.Some? then MatchingUsers(p.sharedWithIds.value, existingUsers) else {};
    if p.sharedWithIds.Some? && p.sharedWithIds.value != [] then
      withCategory.(sharedWith := users, isShared := if users != {} then true else withCategory.isShared)
    else withCategory
  }

  /** `create` raises the shared flag only when some named user exists and
      never lowers it; a foreign or unknown category is silently dropped. */
  lemma CreateSemantics(id: TodoId, owner: UserId, createdAt: int, p: TodoPayload,
                        categories: seq<Category>, existingUsers: set<UserId>, now: int)
    ensures var c := CreatedTodo(id, owner, createdAt, p, categories, existingUsers, now);
      && c.owner == owner && c.id == id
      && (c.category.Some? ==> c.category == p.categoryId)
      && (c.category.Some? <==> p.categoryId.Some?
                                && exists k :: 0 <= k < |categories| && categories[k].id == p.categoryId.value && categories[k].owner == owner)
      && (p.sharedWithIds.Some? && (exists k :: 0 <= k < |p.sharedWithIds.value| && p.sharedWithIds.value[k] in existingUsers) ==> c.isShared)
      && (c.isShared && LastAssignment(p.assignments, SharedField) != Some(SetShared(true)) ==>
            p.sharedWithIds.Some? && exists k :: 0 <= k < |p.sharedWithIds.value| && p.sharedWithIds.value[k] in existingUsers)
      && CompletionConsistent(c)
  {
    AssignAllFields(NewTodo(id, owner, "", createdAt), p.assignments, SharedField);
    CreatedCategory(id, owner, createdAt, p, categories, existingUsers, now);
    CreatedSharing(id, owner, createdAt, p, categories, existingUsers, now);
  }

  /** A created todo has the requested category exactly when the owner has
      a category with that id, and no category otherwise. */
  lemma CreatedCategory(id: TodoId, owner: UserId, createdAt: int, p: TodoPayload,
                        categories: seq<Category>, existingUsers: set<UserId>, now: int)
    ensures var c := CreatedTodo(id, owner, createdAt, p, categories, existingUsers, now);
      && (c.category.Some? ==> c.category == p.categoryId)
      && (c.category.Some? <==> p.categoryId.Some?
                                && exists k :: 0 <= k < |categories| && categories[k].id == p.categoryId.value && categories[k].owner == owner)
  {
    AssignAllFields(NewTodo(id, owner, "", createdAt), p.assignments, TitleField);
  }

  /** The shared flag of a created todo: raised by an existing named user,
      otherwise only by the client's own `is_shared`. */
  lemma CreatedSharing(id: TodoId, owner: UserId, createdAt: int, p: TodoPayload,
                       categories: seq<Category>, existingUsers: set<UserId>, now: int)
    ensures var c := CreatedTodo(id, owner, createdAt, p, categories, existingUsers, now);
      && (p.sharedWithIds.Some? && (exists k :: 0 <= k < |p.sharedWithIds.value| && p.sharedWithIds.value[k] in existingUsers) ==> c.isShared)
      && (c.isShared && LastAssignment(p.assignments, SharedField) != Some(SetShared(true)) ==>
            p.sharedWithIds.Some? && exists k :: 0 <= k < |p.sharedWithIds.value| && p.sharedWithIds.value[k] in existingUsers)
  {
    var base := NewTodo(id, owner, "", createdAt);
    AssignAllFields(base, p.assignments, SharedField);
    if p.sharedWithIds.Some? {
      var ids := p.sharedWithIds.value;
      if exists k :: 0 <= k < |ids| && ids[k] in existingUsers {
        var k :| 0 <= k < |ids| && ids[k] in existingUsers;
        assert ids[k] in MatchingUsers(ids, existingUsers);
      }
      var users := MatchingUsers(ids, existingUsers);
      if users != {} {
        var u :| u in users;
        assert u in ids;
      }
    }
  }

  // ---------------------------------------------------------------------
  // Preferences update

  datatype PreferenceAssignment =
    | SetEmailReminders(on: bool)
    | SetDailySummary(on: bool)
    | SetWeeklySummary(on: bool)
    | SetDefaultView(view: string)
    | SetItemsPerPage(count: int)
    | SetShowCompleted(on: bool)
    | SetDefaultPriority(priority: Priority)
    | SetProfilePublic(on: bool)
    | SetAllowSharing(on: bool)
    | SetDefaultCategory(category: CategoryId)

  function AssignPreference(p: Preferences, a: PreferenceAssignment): Preferences {
    match a
    case SetEmailReminders(x) => p.(emailReminders := x)
    case SetDailySummary(x) => p.(emailDailySummary := x)
    case SetWeeklySummary(x) => p.(emailWeeklySummary := x)
    case SetDefaultView(x) => p.(defaultView := x)
    case SetItemsPerPage(x) => p.(itemsPerPage := x)
    case SetShowCompleted(x) => p.(showCompleted := x)
    case SetDefaultPriority(x) => p.(defaultPriority := x)
    case SetProfilePublic(x) => p.(profilePublic := x)
    case SetAllowSharing(x) => p.(allowSharing := x)
    case SetDefaultCategory(x) => p.(defaultCategory := Some(x))
  }

  function AssignPreferences(p: Preferences, data: seq<PreferenceAssignment>): Preferences
    decreases |data|
  {
    if |data| == 0 then p else AssignPreferences(AssignPreference(p, data[0]), data[1..])
  }

  /** `UserPreferencesSerializer.update`: the popped `default_category_id`
      becomes a `default_category` assignment only when that category
      belongs to the user; then the model serializer assigns the rest. */
  function UpdatedPreferences(p: Preferences, data: seq<PreferenceAssignment>, defaultCategoryId: Option<CategoryId>,
                              categories: seq<Category>): Preferences
  {
    var extra :=
      if defaultCategoryId.Some? && OwnedCategory(categories, defaultCategoryId.value, p.owner).Some?
      then [SetDefaultCategory(defaultCategoryId.value)] else [];
    AssignPreferences(p, data + extra)
  }

  predicate SetsDefaultCategory(a: PreferenceAssignment) { a.SetDefaultCategory? }

  /** One assignment that does not name the default category leaves it alone. */
  lemma OtherAssignmentKeepsCategory(p: Preferences, a: PreferenceAssignment)
    requires !SetsDefaultCategory(a)
    ensures AssignPreference(p, a).defaultCategory == p.defaultCategory
    ensures AssignPreference(p, a).owner == p.owner
  {
    match a
    case SetEmailReminders(_) =>
    case SetDailySummary(_) =>
    case SetWeeklySummary(_) =>
    case SetDefaultView(_) =>
    case SetItemsPerPage(_) =>
    case SetShowCompleted(_) =>
    case SetDefaultPriority(_) =>
    case SetProfilePublic(_) =>
    case SetAllowSharing(_) =>
  }

  /** Assignments that do not name the default category leave it alone. */
  lemma {:induction false} OtherAssignmentsKeepCategory(p: Preferences, data: seq<PreferenceAssignment>)
    requires forall k :: 0 <= k < |data| ==> !SetsDefaultCategory(data[k])
    ensures AssignPreferences(p, data).defaultCategory == p.defaultCategory
    ensures AssignPreferences(p, data).owner == p.owner
    decreases |data|
  {
    if |data| > 0 {
      OtherAssignmentKeepsCategory(p, data[0]);
      assert forall k :: 0 <= k < |data[1..]| ==> data[1..][k] == data[k + 1];
      OtherAssignmentsKeepCategory(AssignPreference(p, data[0]), data[1..]);
    }
  }

  lemma {:induction false} AssignPreferencesAppend(p: Preferences, a: seq<PreferenceAssignment>, b: seq<PreferenceAssignment>)
    ensures AssignPreferences(p, a + b) == AssignPreferences(AssignPreferences(p, a), b)
    decreases |a|
  {
    if |a| == 0 {
      assert a + b == b;
    } else {
      assert (a + b)[0] == a[0];
      assert (a + b)[1..] == a[1..] + b;
      AssignPreferencesAppend(AssignPreference(p, a[0]), a[1..], b);
    }
  }

  /** A default category id that the user does not own is ignored; one
      that the user owns becomes the new default. */
  lemma PreferencesCategoryRule(p: Preferences, data: seq<PreferenceAssignment>, id: Option<CategoryId>, categories: seq<Category>)
    requires forall k :: 0 <= k < |data| ==> !SetsDefaultCategory(data[k])
    ensures var q := UpdatedPreferences(p, data, id, categories);
      && (id.Some? && OwnedCategory(categories, id.value, p.owner).Some? ==> q.defaultCategory == id)
      && (id.None? || OwnedCategory(categories, id.value, p.owner).None? ==> q.defaultCategory == p.defaultCategory)
  {
    OtherAssignmentsKeepCategory(p, data);
    var mid := AssignPreferences(p, data);
    if id.Some? && OwnedCategory(categories, id.value, p.owner).Some? {
      AssignPreferencesAppend(p, data, [SetDefaultCategory(id.value)]);
      assert AssignPreferences(mid, [SetDefaultCategory(id.value)]) == AssignPreferences(AssignPreference(mid, SetDefaultCategory(id.value)), []);
    } else {
      assert data + [] == data;
    }
  }
}
