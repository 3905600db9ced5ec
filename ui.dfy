// Interface logic of static/js/ui.js: the pagination bar, the theme
// switch, the one-open accordion and the single notification toast.
// Markup and styles are left out; each widget keeps only the state its
// handlers decide.

module Ui {
  import opened Common

  // ---------------------------------------------------------------------
  // Pagination

  /** `Math.ceil(a / b)` for whole item counts. */
  function CeilDiv(a: nat, b: nat): (r: nat)
    requires b > 0
    ensures r * b >= a
    ensures a > 0 ==> (r - 1) * b < a
    ensures a == 0 <==> r == 0
    ensures r <= 1 <==> a <= b
  {
    CeilDivBounds(a, b);
    (a + b - 1) / b
  }

  lemma CeilDivBounds(a: nat, b: nat)
    requires b > 0
    ensures (a + b - 1) / b * b >= a
    ensures a > 0 ==> ((a + b - 1) / b - 1) * b < a
    ensures a == 0 <==> (a + b - 1) / b == 0
    ensures (a + b - 1) / b <= 1 <==> a <= b
  {
    var q := (a + b - 1) / b;
    var m := (a + b - 1) % b;
    assert q * b + m == a + b - 1 && 0 <= m < b;
    assert (q - 1) * b == q * b - b;
    if q >= 2 {
      assert q * b >= 2 * b;
    }
    if q == 0 {
      assert a + b - 1 == m;
    }
  }

  /** One piece of the bar. The ellipsis records the page whose place it
      stands in. */
  datatype PageItem =
    | Prev(page: int)
    | Current(page: int)
    | PageButton(page: int)
    | Ellipsis(page: int)
    | Next(page: int)

  /** What the loop writes for page `i`: the current page as plain text,
      the first and last pages and those within two of the current one as
      buttons, an ellipsis at distance three, and nothing otherwise. */
  function PageEntry(i: int, current: int, totalPages: int): (r: Option<PageItem>)
    ensures r.Some? ==> r.value.page == i && !r.value.Prev? && !r.value.Next?
    ensures r.Some? && r.value.Current? <==> i == current
    ensures (i == 1 || i == totalPages || current - 2 <= i <= current + 2) ==> r.Some? && !r.value.Ellipsis?
    ensures r.Some? && r.value.Ellipsis? <==> i != 1 && i != totalPages && (i == current - 3 || i == current + 3)
    ensures r.None? <==> i != 1 && i != totalPages && (i < current - 3 || i > current + 3)
  {
    if i == current then Some(Current(i))
    else if i == 1 || i == totalPages || (i >= current - 2 && i <= current + 2) then Some(PageButton(i))
    else if i == current - 3 || i == current + 3 then Some(Ellipsis(i))
    else None
  }

  /** The entries for pages 1..n, in loop order. */
  function Entries(current: int, totalPages: int, n: nat): seq<PageItem>
    decreases n
  {
    if n == 0 then []
    else
      var e := PageEntry(n, current, totalPages);
      Entries(current, totalPages, n - 1) + (if e.Some? then [e.value] else [])
  }

  /** The whole bar for at least two pages. */
  function Layout(current: int, totalPages: nat): seq<PageItem> {
    (if current > 1 then [Prev(current - 1)] else [])
    + Entries(current, totalPages, totalPages)
    + (if current < totalPages then [Next(current + 1)] else [])
  }

  /** `createPagination`: nothing (the empty string) for at most one page. */
  function Pagination(totalItems: nat, currentPage: int, itemsPerPage: nat): Option<seq<PageItem>>
    requires itemsPerPage > 0
  {
    var totalPages := CeilDiv(totalItems, itemsPerPage);
    if totalPages <= 1 then None else Some(Layout(currentPage, totalPages))
  }

  /** Exactly the entries `PageEntry` yields for some page of 1..n. */
  lemma {:induction false} EntriesMembership(current: int, totalPages: int, n: nat)
    ensures forall x :: x in Entries(current, totalPages, n) <==>
              exists i :: 1 <= i <= n && PageEntry(i, current, totalPages) == Some(x)
    decreases n
  {
    if n > 0 {
      EntriesMembership(current, totalPages, n - 1);
    }
  }

  /** Entries stand in strictly increasing page order, within 1..n. */
  lemma {:induction false} EntriesIncreasing(current: int, totalPages: int, n: nat)
    ensures forall k :: 0 <= k < |Entries(current, totalPages, n)| ==>
              1 <= Entries(current, totalPages, n)[k].page <= n
    ensures forall j, k :: 0 <= j < k < |Entries(current, totalPages, n)| ==>
              Entries(current, totalPages, n)[j].page < Entries(current, totalPages, n)[k].page
    decreases n
  {
    if n > 0 {
      EntriesIncreasing(current, totalPages, n - 1);
    }
  }

  /** Page entries are never a Previous or Next link. */
  lemma {:induction false} EntriesAreNotLinks(current: int, totalPages: int, n: nat)
    ensures forall k :: 0 <= k < |Entries(current, totalPages, n)| ==>
              !Entries(current, totalPages, n)[k].Prev? && !Entries(current, totalPages, n)[k].Next?
    decreases n
  {
    if n > 0 {
      EntriesAreNotLinks(current, totalPages, n - 1);
    }
  }

  /** Every page of the range that the rules keep appears, and nothing
      else: pages 1 and `totalPages` and those within two of the current
      one always, an ellipsis only at distance exactly three. */
  lemma PageRange(current: int, totalPages: nat, i: int)
    requires 1 <= i <= totalPages
    ensures (i == 1 || i == totalPages || current - 2 <= i <= current + 2) ==>
              (i == current ==> Current(i) in Entries(current, totalPages, totalPages))
              && (i != current ==> PageButton(i) in Entries(current, totalPages, totalPages))
    ensures Ellipsis(i) in Entries(current, totalPages, totalPages) <==>
              i != 1 && i != totalPages && (i == current - 3 || i == current + 3)
  {
    EntriesMembership(current, totalPages, totalPages);
    assert PageEntry(i, current, totalPages).Some? ==> PageEntry(i, current, totalPages).value.page == i;
  }

  /** Previous opens the bar exactly when the current page is past the
      first, Next closes it exactly when it is before the last, and every
      page entry stands between them. */
  lemma PrevAndNext(current: int, totalPages: nat)
    ensures var l := Layout(current, totalPages);
      && (|l| > 0 && l[0] == Prev(current - 1) <==> current > 1)
      && (|l| > 0 && l[|l| - 1] == Next(current + 1) <==> current < totalPages)
      && (forall k :: 0 <= k < |l| && l[k].Prev? ==> k == 0 && l[k].page == current - 1)
      && (forall k :: 0 <= k < |l| && l[k].Next? ==> k == |l| - 1 && l[k].page == current + 1)
  {
    var e := Entries(current, totalPages, totalPages);
    EntriesAreNotLinks(current, totalPages, totalPages);
    var pre: seq<PageItem> := if current > 1 then [Prev(current - 1)] else [];
    var post: seq<PageItem> := if current < totalPages then [Next(current + 1)] else [];
    assert Layout(current, totalPages) == pre + e + post;
  }

  /** `createPagination`, appending one piece at a time as the loop does. */
  method CreatePagination(totalItems: nat, currentPage: int, itemsPerPage: nat) returns (r: Option<seq<PageItem>>)
    requires itemsPerPage > 0
    ensures r == Pagination(totalItems, currentPage, itemsPerPage)
    ensures r.None? <==> totalItems <= itemsPerPage
  {
    var totalPages := CeilDiv(totalItems, itemsPerPage);
    if totalPages <= 1 {
      assert totalItems <= itemsPerPage;
      return None;
    }
    var items: seq<PageItem> := [];
    if currentPage > 1 {
      items := items + [Prev(currentPage - 1)];
    }
    var prefix := items;
    var i := 1;
    while i <= totalPages
      invariant 1 <= i <= totalPages + 1
      invariant items == prefix + Entries(currentPage, totalPages, i - 1)
    {
      if i == currentPage {
        items := items + [Current(i)];
      } else if i == 1 || i == totalPages || (i >= currentPage - 2 && i <= currentPage + 2) {
        items := items + [PageButton(i)];
      } else if i == currentPage - 3 || i == currentPage + 3 {
        items := items + [Ellipsis(i)];
      }
      i := i + 1;
    }
    if currentPage < totalPages {
      items := items + [Next(currentPage + 1)];
    }
    assert items == Layout(currentPage, totalPages);
    r := Some(items);
  }

  // ---------------------------------------------------------------------
  // Theme

  /** `toggleTheme`'s choice: 'light' after 'dark', 'dark' after anything
      else, a missing attribute included. */
  function NextTheme(current: Option<string>): (r: string)
    ensures r in {"light", "dark"}
    ensures r == "light" <==> current == Some("dark")
  {
    if current == Some("dark") then "light" else "dark"
  }

  /** Two toggles from either theme return to it. */
  lemma ToggleTwice(theme: string)
    requires theme in {"light", "dark"}
    ensures NextTheme(Some(NextTheme(Some(theme)))) == theme
  {
  }

  /** `loadTheme`: the stored theme, else the user's preference, else 'light'. */
  function InitialTheme(stored: Option<string>, preference: Option<string>): (r: string)
    ensures Truthy(stored) ==> r == stored.value
    ensures !Truthy(stored) && Truthy(preference) ==> r == preference.value
    ensures !Truthy(stored) && !Truthy(preference) ==> r == "light"
    ensures r != ""
  {
    if Truthy(stored) then stored.value
    else if Truthy(preference) then preference.value
    else "light"
  }

  /** The page's theme attribute and the theme kept in local storage. */
  class ThemeSwitch {
    var dataTheme: Option<string>
    var storedTheme: Option<string>

    constructor (stored: Option<string>)
      ensures dataTheme.None? && storedTheme == stored
    {
      dataTheme := None;
      storedTheme := stored;
    }

    /** `loadTheme`. */
    method LoadTheme(preference: Option<string>)
      modifies this
      ensures dataTheme == Some(InitialTheme(old(storedTheme), preference))
      ensures storedTheme == old(storedTheme)
    {
      dataTheme := Some(InitialTheme(storedTheme, preference));
    }

    /** `toggleTheme`: set and store the other theme; a signed-in user's
        preference is updated with it (the returned request body). */
    method ToggleTheme(isAuthenticated: bool) returns (preferenceUpdate: Option<string>)
      modifies this
      ensures dataTheme == Some(NextTheme(old(dataTheme))) && storedTheme == dataTheme
      ensures preferenceUpdate.Some? <==> isAuthenticated
      ensures isAuthenticated ==> preferenceUpdate == dataTheme
    {
      var newTheme := NextTheme(dataTheme);
      dataTheme := Some(newTheme);
      storedTheme := Some(newTheme);
      preferenceUpdate := if isAuthenticated then Some(newTheme) else None;
    }
  }

  /** After a toggle, the next page load shows the toggled theme whatever
      the user's preference says. */
  lemma ReloadKeepsToggle(before: Option<string>, preference: Option<string>)
    ensures InitialTheme(Some(NextTheme(before)), preference) == NextTheme(before)
  {
  }

  // ---------------------------------------------------------------------
  // Accordion

  /** The flags after a click on header `k`: every header closed, then `k`
      opened unless it was open before. */
  function AfterClick(active: seq<bool>, k: nat): (r: seq<bool>)
    requires k < |active|
    ensures |r| == |active|
  {
    seq(|active|, j requires 0 <= j < |active| => j == k && !active[k])
  }

  /** The number of open headers. */
  function OpenCount(active: seq<bool>): nat
    decreases |active|
  {
    if |active| == 0 then 0 else OpenCount(active[..|active| - 1]) + (if active[|active| - 1] then 1 else 0)
  }

  /** No header open but `k` gives at most one open header. */
  lemma {:induction false} OnlyOneOpen(active: seq<bool>, k: nat)
    requires forall j :: 0 <= j < |active| && j != k ==> !active[j]
    ensures OpenCount(active) <= 1
    ensures k < |active| ==> (OpenCount(active) == 1 <==> active[k])
    ensures k >= |active| ==> OpenCount(active) == 0
    decreases |active|
  {
    if |active| > 0 {
      var init := active[..|active| - 1];
      OnlyOneOpen(init, k);
      if |active| - 1 != k && k < |active| {
        assert init[k] == active[k];
      }
    }
  }

  /** After any click at most one header is open, and clicking the open
      header leaves none open. */
  lemma ClickLeavesAtMostOne(active: seq<bool>, k: nat)
    requires k < |active|
    ensures OpenCount(AfterClick(active, k)) <= 1
    ensures active[k] ==> OpenCount(AfterClick(active, k)) == 0
    ensures !active[k] ==> AfterClick(active, k)[k]
  {
    OnlyOneOpen(AfterClick(active, k), k);
  }

  /** The click handler on the `active` class of each header. */
  method ClickHeader(active: array<bool>, k: nat)
    requires k < active.Length
    modifies active
    ensures active[..] == AfterClick(old(active[..]), k)
  {
    var isOpen := active[k];
    var j := 0;
    while j < active.Length
      invariant 0 <= j <= active.Length
      invariant forall m :: 0 <= m < j ==> !active[m]
      invariant forall m :: j <= m < active.Length ==> active[m] == old(active[m])
    {
      active[j] := false;
      j := j + 1;
    }
    if !isOpen {
      active[k] := true;
    }
  }

  // ---------------------------------------------------------------------
  // Notifications

  /** A toast; `serial` tells apart toasts showing the same message. */
  datatype Toast = Toast(serial: nat, message: string, kind: string, autoClose: bool)

  /** The document body's toasts. */
  class ToastArea {
    var toasts: seq<Toast>
    var shown: nat

    predicate Valid()
      reads this
    {
      |toasts| <= 1 && forall k :: 0 <= k < |toasts| ==> toasts[k].serial < shown
    }

    constructor ()
      ensures toasts == [] && shown == 0 && Valid()
    {
      toasts := [];
      shown := 0;
    }

    /** `showNotification`: remove the toast on the page, if any, then
        append the new one; it closes itself only for a positive duration. */
    method ShowNotification(message: string, kind: string, duration: int)
      requires Valid()
      modifies this
      ensures Valid()
      ensures toasts == [Toast(old(shown), message, kind, duration > 0)]
      ensures shown == old(shown) + 1
    {
      if |toasts| > 0 {
        toasts := toasts[1..];
      }
      toasts := toasts + [Toast(shown, message, kind, duration > 0)];
      shown := shown + 1;
    }

    /** A toast's timer or close button: `remove()` on that element, which
        does nothing once a newer toast has replaced it. */
    method Remove(serial: nat)
      requires Valid()
      modifies this
      ensures Valid()
      ensures toasts == Filter(old(toasts), (t: Toast) => t.serial != serial)
      ensures shown == old(shown)
    {
      toasts := Filter(toasts, (t: Toast) => t.serial != serial);
    }
  }
}
