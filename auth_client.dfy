// The browser's authentication flows (static/js/auth.js): checking the
// session, signing in, registering, signing out, and the user badge.
// The DOM becomes fields of one `AuthPage` object: each error slot is the
// text its element shows. `isValidEmail` is defined elsewhere, so its
// verdict is a parameter.

module Auth {
  import opened Common
  import opened Models
  import Api
  import TodoList
  import Serializers

  // ---------------------------------------------------------------------
  // What an element shows

  /** The decimal text of an integer, as `String(n)` writes it. */
  function IntText(n: int): (r: string)
    ensures n >= 0 ==> r == NatText(n)
    ensures n < 0 ==> r == "-" + NatText(-n)
  {
    if n >= 0 then NatText(n) else "-" + NatText(-n)
  }

  /** `String(j)` for a value a reply can hold: `null` prints as the empty
      string inside a join, arrays are joined with commas, objects print as
      `[object Object]`. */
  function JsonText(j: Api.Json): (r: string)
    ensures j.JNull? ==> r == ""
    ensures j.JString? ==> r == j.s
    ensures j.JArray? && |j.items| == 1 ==> r == JsonText(j.items[0])
  {
    match j
    case JNull => ""
    case JBool(b) => if b then "true" else "false"
    case JNumber(n) => IntText(n)
    case JString(s) => s
    case JArray(items) => Join(seq(|items|, i requires 0 <= i < |items| => JsonText(items[i])), ",")
    case JObject(_) => "[object Object]"
  }

  /** The text an element shows after `textContent = v`: `null` and
      `undefined` (None) clear it. */
  function DomText(v: Option<Api.Json>): (r: string)
    ensures v.None? ==> r == ""
    ensures v.Some? ==> r == JsonText(v.value)
  {
    if v.None? then "" else JsonText(v.value)
  }

  /** `v[0]` on a defined, non-null value: the first element of an array,
      the first character of a string, the member "0" of an object;
      `undefined` (None) otherwise. */
  function First(v: Api.Json): (r: Option<Api.Json>)
    ensures v.JArray? ==> (r.Some? <==> |v.items| > 0)
    ensures v.JArray? && |v.items| > 0 ==> r == Some(v.items[0])
    ensures v.JString? ==> (r.Some? <==> |v.s| > 0)
    ensures v.JString? && |v.s| > 0 ==> r == Some(Api.JString([v.s[0]]))
    ensures v.JNull? || v.JBool? || v.JNumber? ==> r.None?
  {
    match v
    case JArray(items) => if |items| > 0 then Some(items[0]) else None
    case JString(s) => if |s| > 0 then Some(Api.JString([s[0]])) else None
    case JObject(_) => Api.Member(v, "0")
    case _ => None
  }

  /** The `status` and `data` members of a caught error: an `ApiError`
      carries both, a `TypeError` or `SyntaxError` neither. */
  datatype Thrown = Thrown(status: Option<int>, data: Option<Api.Json>)

  function ThrownBy(failure: Api.Failure): (e: Thrown)
    ensures failure.ApiErr? <==> e.status.Some?
    ensures failure.ApiErr? ==> e == Thrown(Some(failure.status), Some(failure.data))
    ensures !failure.ApiErr? ==> e.data.None?
  {
    if failure.ApiErr? then Thrown(Some(failure.status), Some(failure.data)) else Thrown(None, None)
  }

  /** Reading `.user` of a `null` reply throws a `TypeError`. */
  const NullReplyError: Thrown := Thrown(None, None)

  // ---------------------------------------------------------------------
  // Login

  const InvalidCredentials: string := "Invalid username or password"
  const LoginFailed: string := "Login failed. Please try again."

  /** The login error text: a 401 names bad credentials; otherwise the
      server's `error` member when there is one; otherwise a generic line. */
  function LoginErrorText(e: Thrown): (r: string)
    ensures e.status == Some(401) ==> r == InvalidCredentials
    ensures (e.status != Some(401) && e.data.Some? && Api.JsTruthy(e.data) && Api.JsTruthy(Api.Member(e.data.value, "error")))
              ==> r == DomText(Api.Member(e.data.value, "error"))
    ensures (e.status != Some(401) && !(Api.JsTruthy(e.data) && Api.JsTruthy(Api.Member(e.data.value, "error"))))
              ==> r == LoginFailed
    ensures r == InvalidCredentials || r == LoginFailed || (e.data.Some? && r == DomText(Api.Member(e.data.value, "error")))
  {
    if e.status == Some(401) then InvalidCredentials
    else if Api.JsTruthy(e.data) && Api.JsTruthy(Api.Member(e.data.value, "error")) then
      DomText(Api.Member(e.data.value, "error"))
    else LoginFailed
  }

  /** A failure that never reached the server (no status, no data) always
      shows the generic line, and a 401 shows the credentials line whatever
      its body says. */
  lemma LoginMessageRules(failure: Api.Failure, data: Api.Json, status: int, msg: string, message: Api.Json)
    ensures !failure.ApiErr? ==> LoginErrorText(ThrownBy(failure)) == LoginFailed
    ensures LoginErrorText(ThrownBy(Api.ApiErr(401, data, message))) == InvalidCredentials
    ensures status != 401 && msg != "" ==>
              LoginErrorText(ThrownBy(Api.ApiErr(status, Api.JObject(map["error" := Api.JString(msg)]), message))) == msg
  {
    var d := Api.JObject(map["error" := Api.JString(msg)]);
    assert Api.Member(d, "error") == Some(Api.JString(msg));
  }

  // ---------------------------------------------------------------------
  // Registration

  datatype RegisterForm = RegisterForm(
    username: string, email: string, firstName: string, lastName: string,
    password: string, passwordConfirm: string)

  /** The five message slots of the registration form. */
  datatype RegisterErrors = RegisterErrors(
    username: string, email: string, password: string, passwordConfirm: string, general: string)

  const Cleared: RegisterErrors := RegisterErrors("", "", "", "", "")

  const UsernameRequired: string := "Username is required"
  const InvalidEmail: string := "Invalid email address"
  const PasswordTooShort: string := "Password must be at least 8 characters"
  const PasswordMismatch: string := "Passwords do not match"
  const RegistrationFailed: string := "Registration failed. Please try again."

  /** A form the client refuses to send. */
  predicate Rejected(form: RegisterForm, emailValid: bool) {
    form.username == "" || !emailValid || |form.password| < 8 || form.password != form.passwordConfirm
  }

  /** The slots after client-side validation: each check that fails fills
      its own slot, and the general slot stays empty. */
  function ValidationErrors(form: RegisterForm, emailValid: bool): (r: RegisterErrors)
    ensures r.username != "" <==> form.username == ""
    ensures r.email != "" <==> !emailValid
    ensures r.password != "" <==> |form.password| < 8
    ensures r.passwordConfirm != "" <==> form.password != form.passwordConfirm
    ensures r.general == ""
    ensures r == Cleared <==> !Rejected(form, emailValid)
  {
    RegisterErrors(
      if form.username == "" then UsernameRequired else "",
      if !emailValid then InvalidEmail else "",
      if |form.password| < 8 then PasswordTooShort else "",
      if form.password != form.passwordConfirm then PasswordMismatch else "",
      "")
  }

  /** The message a server field error puts in its slot: the first entry
      of the field when the field is present and truthy, else nothing. */
  function FieldMessage(data: Api.Json, field: string): (r: string)
    ensures !Api.JsTruthy(Api.Member(data, field)) ==> r == ""
    ensures Api.Member(data, field).Some? && Api.Member(data, field).value.JArray?
            && |Api.Member(data, field).value.items| > 0
            ==> r == DomText(Some(Api.Member(data, field).value.items[0]))
  {
    var v := Api.Member(data, field);
    if Api.JsTruthy(v) then DomText(First(v.value)) else ""
  }

  /** The slots after the server refused a registration: with error data,
      the first message of `username`, `email`, `password` and
      `non_field_errors` goes to the matching slot; without it the general
      slot says the registration failed. */
  function ServerErrors(e: Thrown): (r: RegisterErrors)
    ensures r.passwordConfirm == ""
    ensures !Api.JsTruthy(e.data) ==> r == Cleared.(general := RegistrationFailed)
    ensures Api.JsTruthy(e.data) ==>
              && r.username == FieldMessage(e.data.value, "username")
              && r.email == FieldMessage(e.data.value, "email")
              && r.password == FieldMessage(e.data.value, "password")
              && r.general == FieldMessage(e.data.value, "non_field_errors")
  {
    if Api.JsTruthy(e.data) then
      var d := e.data.value;
      RegisterErrors(FieldMessage(d, "username"), FieldMessage(d, "email"), FieldMessage(d, "password"), "",
                     FieldMessage(d, "non_field_errors"))
    else Cleared.(general := RegistrationFailed)
  }

  /** A typical DRF reply: a duplicate username shows its first message
      and leaves the other slots empty. */
  lemma DuplicateUsernameShown(status: Option<int>, msg: string, more: seq<Api.Json>)
    ensures ServerErrors(Thrown(status, Some(Api.JObject(map["username" := Api.JArray([Api.JString(msg)] + more)]))))
            == Cleared.(username := msg)
  {
    var d := Api.JObject(map["username" := Api.JArray([Api.JString(msg)] + more)]);
    assert Api.Member(d, "username") == Some(Api.JArray([Api.JString(msg)] + more));
    assert Api.Member(d, "email").None? && Api.Member(d, "password").None?;
    assert Api.Member(d, "non_field_errors").None?;
  }

  // ---------------------------------------------------------------------
  // The user badge

  /** The avatar letters: both initials upper-cased when both names are
      given, else the username's first letter upper-cased; None when the
      username is empty too, where `username[0].toUpperCase()` throws. */
  function Initials(firstName: string, lastName: string, username: string): (r: Option<string>)
    ensures firstName != "" && lastName != "" ==> r == Some([UpperChar(firstName[0]), UpperChar(lastName[0])])
    ensures (firstName == "" || lastName == "") ==> (r.Some? <==> username != "")
    ensures (firstName == "" || lastName == "") && r.Some? ==> r.value == [UpperChar(username[0])]
    ensures r.Some? ==> 1 <= |r.value| <= 2 && forall i :: 0 <= i < |r.value| ==> !('a' <= r.value[i] <= 'z')
  {
    if firstName != "" && lastName != "" then Some([UpperChar(firstName[0]), UpperChar(lastName[0])])
    else if username != "" then Some([UpperChar(username[0])])
    else None
  }

  /** The name line: `full_name || username`. */
  function DisplayName(fullName: string, username: string): (r: string)
    ensures fullName != "" ==> r == fullName
    ensures fullName == "" ==> r == username
  {
    if fullName != "" then fullName else username
  }

  /** The server's `full_name` already falls back to the username, so the
      client's own fallback never changes what is shown. */
  lemma {:induction false} DisplayNameIsServerFullName(firstName: string, lastName: string, username: string)
    ensures DisplayName(Serializers.FullName(firstName, lastName, username), username)
            == Serializers.FullName(firstName, lastName, username)
  {
    var full := Serializers.FullName(firstName, lastName, username);
    if full == "" {
      assert PyStrip(firstName + " " + lastName) == "";
      assert full == username;
    }
  }

  // ---------------------------------------------------------------------
  // The page

  /** The `auth` object and the form message slots. `user` is None while
      `undefined` and Some(JNull) while `null`. */
  class AuthPage {
    var isAuthenticated: bool
    var user: Option<Api.Json>
    var loginError: string
    var registerErrors: RegisterErrors

    constructor ()
      ensures !isAuthenticated && user == Some(Api.JNull)
      ensures loginError == "" && registerErrors == Cleared
    {
      isAuthenticated := false;
      user := Some(Api.JNull);
      loginError := "";
      registerErrors := Cleared;
    }

    /** `checkAuthentication`: copy the status `checkAuth` reports. That
        helper never rejects, so the `catch` branch, which would also sign
        out, is not reachable; a rejected request signs out all the same. */
    method CheckAuthentication(reply: Api.Settled) returns (signedIn: bool)
      modifies this
      ensures signedIn == isAuthenticated
      ensures signedIn <==> reply.Resolved? && !reply.value.JNull?
      ensures signedIn ==> user == Api.Member(reply.value, "user")
      ensures !signedIn ==> user == Some(Api.JNull)
      ensures loginError == old(loginError) && registerErrors == old(registerErrors)
    {
      var status := Api.CheckAuth(reply);
      isAuthenticated := status.isAuthenticated;
      user := status.user;
      signedIn := status.isAuthenticated;
    }

    /** `handleLogin` given the settled `authAPI.login` call: a reply with
        a truthy `user` signs in; a refusal writes the matching message; a
        reply without a user changes nothing. */
    method HandleLogin(reply: Api.Settled) returns (signedIn: bool)
      modifies this
      ensures signedIn <==> reply.Resolved? && !reply.value.JNull? && Api.JsTruthy(Api.Member(reply.value, "user"))
      ensures signedIn ==> isAuthenticated && user == Api.Member(reply.value, "user") && loginError == ""
      ensures !signedIn ==> isAuthenticated == old(isAuthenticated) && user == old(user)
      ensures reply.Rejected? ==> loginError == LoginErrorText(ThrownBy(reply.failure))
      ensures reply.Resolved? && reply.value.JNull? ==> loginError == LoginFailed
      ensures reply.Resolved? && !reply.value.JNull? ==> loginError == ""
      ensures registerErrors == old(registerErrors)
    {
      loginError := "";
      signedIn := false;
      if reply.Rejected? {
        loginError := LoginErrorText(ThrownBy(reply.failure));
      } else if reply.value.JNull? {
        loginError := LoginErrorText(NullReplyError);
      } else if Api.JsTruthy(Api.Member(reply.value, "user")) {
        isAuthenticated := true;
        user := Api.Member(reply.value, "user");
        signedIn := true;
      }
    }

    /** `handleRegister` given the email check's verdict and the settled
        `authAPI.register` call: the slots are cleared, each failed check
        sets `hasError`, and only a form that passes every check is sent. */
    method HandleRegister(form: RegisterForm, emailValid: bool, reply: Api.Settled) returns (sent: Option<RegisterForm>)
      modifies this
      ensures sent.None? <==> Rejected(form, emailValid)
      ensures sent.Some? ==> sent.value == form
      ensures sent.None? ==> registerErrors == ValidationErrors(form, emailValid)
      ensures sent.None? ==> isAuthenticated == old(isAuthenticated) && user == old(user)
      ensures sent.Some? && reply.Rejected? ==> registerErrors == ServerErrors(ThrownBy(reply.failure))
      ensures sent.Some? && reply.Resolved? && reply.value.JNull? ==> registerErrors == Cleared.(general := RegistrationFailed)
      ensures sent.Some? && reply.Resolved? && !reply.value.JNull? ==> registerErrors == Cleared
      ensures (sent.Some? && reply.Resolved? && !reply.value.JNull? && Api.JsTruthy(Api.Member(reply.value, "user")))
              ==> isAuthenticated && user == Api.Member(reply.value, "user")
      ensures !(sent.Some? && reply.Resolved? && !reply.value.JNull? && Api.JsTruthy(Api.Member(reply.value, "user")))
              ==> isAuthenticated == old(isAuthenticated) && user == old(user)
      ensures loginError == old(loginError)
    {
      registerErrors := Cleared;
      var hasError := false;
      if form.username == "" {
        registerErrors := registerErrors.(username := UsernameRequired);
        hasError := true;
      }
      if !emailValid {
        registerErrors := registerErrors.(email := InvalidEmail);
        hasError := true;
      }
      if |form.password| < 8 {
        registerErrors := registerErrors.(password := PasswordTooShort);
        hasError := true;
      }
      if form.password != form.passwordConfirm {
        registerErrors := registerErrors.(passwordConfirm := PasswordMismatch);
        hasError := true;
      }
      if hasError {
        return None;
      }
      sent := Some(form);
      if reply.Rejected? {
        registerErrors := ServerErrors(ThrownBy(reply.failure));
      } else if reply.value.JNull? {
        registerErrors := ServerErrors(NullReplyError);
      } else if Api.JsTruthy(Api.Member(reply.value, "user")) {
        isAuthenticated := true;
        user := Api.Member(reply.value, "user");
      }
    }

    /** `handleLogout` given the settled `authAPI.logout` call: on success
        the session and the task list's loaded data, edit target and
        selection are reset; on failure nothing changes. */
    method HandleLogout(reply: Api.Settled, list: TodoList.TaskList) returns (loggedOut: bool)
      modifies this, list
      ensures loggedOut <==> reply.Resolved?
      ensures loggedOut ==> !isAuthenticated && user == Some(Api.JNull)
      ensures loggedOut ==> list.todos == [] && list.categories == [] && list.editingId == None
      ensures loggedOut ==> list.selectedTodos == [] && list.Valid()
      ensures !loggedOut ==> isAuthenticated == old(isAuthenticated) && user == old(user)
      ensures !loggedOut ==> list.todos == old(list.todos) && list.categories == old(list.categories)
      ensures !loggedOut ==> list.editingId == old(list.editingId) && list.selectedTodos == old(list.selectedTodos)
      ensures list.bulkSelectMode == old(list.bulkSelectMode)
      ensures list.currentFilter == old(list.currentFilter) && list.currentCategory == old(list.currentCategory)
      ensures loggedOut ==> loginError == "" && registerErrors == Cleared
      ensures !loggedOut ==> loginError == old(loginError) && registerErrors == old(registerErrors)
    {
      loggedOut := reply.Resolved?;
      if loggedOut {
        isAuthenticated := false;
        user := Some(Api.JNull);
        list.todos := [];
        list.categories := [];
        list.editingId := None;
        list.selectedTodos := [];
        ClearAuthForms();
      }
    }

    /** `clearAuthForms`, run by `showLogin` and `showRegister`: every error
        line of both forms is emptied; the sign-in state is untouched. */
    method ClearAuthForms()
      modifies this
      ensures loginError == "" && registerErrors == Cleared
      ensures isAuthenticated == old(isAuthenticated) && user == old(user)
    {
      loginError := "";
      registerErrors := Cleared;
    }
  }
}
