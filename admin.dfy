/** The admin site's own logic (todos/admin.py): the comment preview column,
    the owner scoping of the Category, Todo and TodoTemplate change lists,
    and the read-only activity log. */
module Admin {
  import opened Common
  import opened Models

  const PreviewLength: nat := 50

  /** The "Comment Preview" column: long comments are cut to their first
      fifty characters followed by an ellipsis. */
  function CommentPreview(comment: string): (r: string)
    ensures |comment| <= PreviewLength ==> r == comment
    ensures |comment| > PreviewLength ==> |r| == PreviewLength + 3 && r[..PreviewLength] == comment[..PreviewLength] && r[PreviewLength..] == "..."
    ensures |r| <= PreviewLength + 3
  {
    if |comment| > PreviewLength then comment[..PreviewLength] + "..." else comment
  }

  /** The change list of an owned model: everything for a superuser,
      otherwise only the requester's own rows, in table order. */
  function OwnerScoped<T>(rows: seq<T>, owner: T -> UserId, requester: UserId, isSuperuser: bool): (r: seq<T>)
    ensures isSuperuser ==> r == rows
    ensures !isSuperuser ==> forall k :: 0 <= k < |r| ==> owner(r[k]) == requester && r[k] in rows
    ensures !isSuperuser ==> forall x :: x in rows && owner(x) == requester ==> x in r
  {
    if isSuperuser then rows else Filter(rows, (x: T) => owner(x) == requester)
  }

  /** `CategoryAdmin.get_queryset`. */
  function CategoryAdminRows(cats: seq<Category>, requester: UserId, isSuperuser: bool): (r: seq<Category>)
    ensures !isSuperuser ==> forall k :: 0 <= k < |r| ==> r[k].owner == requester && r[k] in cats
    ensures !isSuperuser ==> forall x :: x in cats && x.owner == requester ==> x in r
    ensures isSuperuser ==> r == cats
  {
    OwnerScoped(cats, (c: Category) => c.owner, requester, isSuperuser)
  }

  /** `TodoAdmin.get_queryset`. */
  function TodoAdminRows(todos: seq<Todo>, requester: UserId, isSuperuser: bool): (r: seq<Todo>)
    ensures !isSuperuser ==> forall k :: 0 <= k < |r| ==> r[k].owner == requester && r[k] in todos
    ensures !isSuperuser ==> forall x :: x in todos && x.owner == requester ==> x in r
    ensures isSuperuser ==> r == todos
  {
    OwnerScoped(todos, (t: Todo) => t.owner, requester, isSuperuser)
  }

  datatype TodoTemplate = TodoTemplate(id: string, owner: UserId, name: string, description: string)

  /** `TodoTemplateAdmin.get_queryset`. */
  function TemplateAdminRows(templates: seq<TodoTemplate>, requester: UserId, isSuperuser: bool): (r: seq<TodoTemplate>)
    ensures !isSuperuser ==> forall k :: 0 <= k < |r| ==> r[k].owner == requester && r[k] in templates
    ensures !isSuperuser ==> forall x :: x in templates && x.owner == requester ==> x in r
    ensures isSuperuser ==> r == templates
  {
    OwnerScoped(templates, (t: TodoTemplate) => t.owner, requester, isSuperuser)
  }

  datatype AdminOperation = AddRow | ChangeRow | ViewRow | DeleteRow

  /** The activity-log admin: adding and changing are refused to everyone;
      viewing and deleting fall back to the user's model permissions. */
  function ActivityLogPermission(op: AdminOperation, userHasModelPermission: bool): (allowed: bool)
    ensures op == AddRow || op == ChangeRow ==> !allowed
    ensures op == ViewRow || op == DeleteRow ==> (allowed <==> userHasModelPermission)
  {
    match op
    case AddRow => false
    case ChangeRow => false
    case _ => userHasModelPermission
  }
}
