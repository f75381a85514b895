/** The sidebar's list of the caller's sessions, its loading flag and the
    open per-session menu, with the handlers that reconcile the list with
    the session endpoints after each request. */
module Sidebar {

  import opened Wrappers
  import opened Protocol
  import Lists
  import Prisma
  import Disclosure

  const CreateFailed: string := "Failed to create session"
  const CreateError: string := "Unexpected error creating session"
  const RenameFailed: string := "Failed to rename session"
  const DeleteFailed: string := "Failed to delete session"

  function IdOf(s: Summary): string
  {
    s.id
  }

  function Ids(list: seq<Summary>): seq<string>
  {
    Lists.Map(list, IdOf)
  }

  /** The ids the sidebar lists are the ids of the rows it was sent. */
  lemma {:induction false} ProjectIds(rows: seq<Prisma.SessionRow>)
    ensures Ids(Prisma.Project(rows)) == Prisma.SessionIds(rows)
  {
    var p := Prisma.Project(rows);
    forall k | 0 <= k < |rows| ensures Ids(p)[k] == Prisma.SessionIds(rows)[k] {
      assert p[k] == Prisma.Summarize(rows[k]);
    }
  }

  /** `prev.map((s) => (s.id === id ? updated : s))`. */
  function ReplaceById(list: seq<Summary>, id: string, updated: Summary): (r: seq<Summary>)
    ensures |r| == |list|
  {
    seq(|list|, k requires 0 <= k < |list| => if list[k].id == id then updated else list[k])
  }

  /** Renaming replaces exactly the entries with that id, in place; when the
      replacement keeps the id, the ids and their order are unchanged. */
  lemma ReplaceByIdSpec(list: seq<Summary>, id: string, updated: Summary)
    ensures var r := ReplaceById(list, id, updated);
      && (forall k :: 0 <= k < |list| && list[k].id == id ==> r[k] == updated)
      && (forall k :: 0 <= k < |list| && list[k].id != id ==> r[k] == list[k])
      && (id !in Ids(list) ==> r == list)
      && (updated.id == id ==> Ids(r) == Ids(list))
  {
    var r := ReplaceById(list, id, updated);
    if id !in Ids(list) {
      assert forall k :: 0 <= k < |list| ==> Ids(list)[k] != id;
    }
  }

  /** Applying the same rename twice is applying it once. */
  lemma ReplaceByIdIdempotent(list: seq<Summary>, id: string, updated: Summary)
    requires updated.id == id
    ensures ReplaceById(ReplaceById(list, id, updated), id, updated) == ReplaceById(list, id, updated)
  {
  }

  function NotId(id: string): Summary -> bool
  {
    (s: Summary) => s.id != id
  }

  /** `prev.filter((s) => s.id !== id)`. */
  function RemoveById(list: seq<Summary>, id: string): (r: seq<Summary>)
    ensures id !in Ids(r)
    ensures forall k :: 0 <= k < |r| ==> r[k] in list
    ensures forall k :: 0 <= k < |list| && list[k].id != id ==> list[k] in r
    ensures id !in Ids(list) ==> r == list
  {
    var r := Lists.Filter(list, NotId(id));
    Lists.FilterMembers(list, NotId(id));
    assert forall k :: 0 <= k < |r| ==> Ids(r)[k] != id by {
      forall k | 0 <= k < |r| ensures Ids(r)[k] != id {
        assert NotId(id)(r[k]);
      }
    }
    assert id !in Ids(list) ==> forall k :: 0 <= k < |list| ==> NotId(id)(list[k]) by {
      if id !in Ids(list) {
        forall k | 0 <= k < |list| ensures NotId(id)(list[k]) {
          assert Ids(list)[k] == list[k].id;
        }
      }
    }
    r
  }

  lemma ProjectCons(row: Prisma.SessionRow, rows: seq<Prisma.SessionRow>)
    ensures Prisma.Project([row] + rows) == [Summary(row.id, row.title)] + Prisma.Project(rows)
  {
    assert forall k :: 1 <= k < |rows| + 1 ==> ([row] + rows)[k] == rows[k - 1];
  }

  /** The local delete agrees with the server's: filtering the listed
      summaries by id gives the summaries of the rows left after the
      session is deleted. */
  lemma {:induction false} DeleteAgrees(rows: seq<Prisma.SessionRow>, id: string)
    ensures RemoveById(Prisma.Project(rows), id) == Prisma.Project(Lists.Filter(rows, Prisma.NotSession(id)))
    decreases |rows|
  {
    if rows != [] {
      var rest := rows[1..];
      assert rows == [rows[0]] + rest;
      ProjectCons(rows[0], rest);
      DeleteAgrees(rest, id);
      var p := Prisma.Project(rows);
      assert p[1..] == Prisma.Project(rest);
      if rows[0].id != id {
        ProjectCons(rows[0], Lists.Filter(rest, Prisma.NotSession(id)));
      }
    }
  }

  /** The local rename agrees with the server's: over a list of the
      caller's own sessions, replacing the entry with the returned
      `{ id, title }` gives the summaries of the retitled rows. */
  lemma RenameAgrees(rows: seq<Prisma.SessionRow>, owner: string, id: string, title: string)
    requires forall k :: 0 <= k < |rows| ==> rows[k].userId == owner
    ensures ReplaceById(Prisma.Project(rows), id, Summary(id, title))
         == Prisma.Project(Prisma.Retitled(rows, id, Some(owner), title))
  {
  }

  class Panel {
    var sessions: seq<Summary>
    var loading: bool
    var openMenuId: Option<string>

    constructor()
      ensures sessions == [] && !loading && openMenuId == None
    {
      sessions, loading, openMenuId := [], false, None;
    }

    /** `fetchSessions()`: the list becomes the returned one, or empty when
        the request fails or is refused. */
    method FetchSessions(listed: Fetched<seq<Summary>>)
      modifies this
      ensures sessions == (if listed.Ok? then listed.body else [])
      ensures loading == old(loading) && openMenuId == old(openMenuId)
    {
      match listed
      case Ok(list) =>
        sessions := list;
      case _ =>
        sessions := [];
    }

    /** `handleNew()` up to its request: the button shows it is busy. */
    method BeginNew()
      modifies this
      ensures loading
      ensures sessions == old(sessions) && openMenuId == old(openMenuId)
    {
      loading := true;
    }

    /** `handleNew()` after its request: a created session goes on top and
        is passed to `onNewSession`; otherwise the list stays as it was and
        an alert is raised. The `finally` clears the busy flag either way. */
    method FinishNew(created: Fetched<Summary>) returns (selected: Option<string>, alert: Option<string>)
      modifies this
      ensures !loading
      ensures created.Ok? ==> sessions == [created.body] + old(sessions) && selected == Some(created.body.id) && alert == None
      ensures created.NotOk? ==> sessions == old(sessions) && selected == None && alert == Some(CreateFailed)
      ensures created.Throws? ==> sessions == old(sessions) && selected == None && alert == Some(CreateError)
      ensures openMenuId == old(openMenuId)
    {
      selected, alert := None, None;
      match created {
        case Ok(session) =>
          sessions := [session] + sessions;
          selected := Some(session.id);
        case NotOk =>
          alert := Some(CreateFailed);
        case Throws =>
          alert := Some(CreateError);
      }
      loading := false;
    }

    /** `handleRename(id)`: the menu closes; a cancelled or empty answer to
        the prompt sends nothing; otherwise `{ id, title }` is sent and a
        successful reply replaces the entries with that id. */
    method HandleRename(id: string, answer: Option<string>, renamed: Fetched<Summary>)
      returns (request: Option<Summary>, alert: Option<string>)
      modifies this
      ensures openMenuId == None && loading == old(loading)
      ensures (answer.None? || answer.value == "") ==> request == None && alert == None && sessions == old(sessions)
      ensures answer.Some? && answer.value != "" ==>
        && request == Some(Summary(id, answer.value))
        && (renamed.Ok? ==> sessions == ReplaceById(old(sessions), id, renamed.body) && alert == None)
        && (!renamed.Ok? ==> sessions == old(sessions) && alert == Some(RenameFailed))
    {
      openMenuId := None;
      request, alert := None, None;
      if answer.None? || answer.value == "" {
        return;
      }
      request := Some(Summary(id, answer.value));
      if renamed.Ok? {
        sessions := ReplaceById(sessions, id, renamed.body);
      } else {
        alert := Some(RenameFailed);
      }
    }

    /** `handleDelete(id)`: the menu closes; without confirmation nothing is
        sent; a successful delete drops the entries with that id and clears
        the page's selection when that session was the active one. */
    method HandleDelete(id: string, activeSessionId: Option<string>, confirmed: bool, deleted: Fetched<()>)
      returns (sent: bool, deselect: bool, alert: Option<string>)
      modifies this
      ensures openMenuId == None && loading == old(loading)
      ensures !confirmed ==> !sent && !deselect && alert == None && sessions == old(sessions)
      ensures confirmed ==>
        && sent
        && (deleted.Ok? ==> sessions == RemoveById(old(sessions), id) && alert == None
                            && (deselect <==> activeSessionId == Some(id)))
        && (!deleted.Ok? ==> sessions == old(sessions) && !deselect && alert == Some(DeleteFailed))
    {
      openMenuId := None;
      sent, deselect, alert := false, false, None;
      if !confirmed {
        return;
      }
      sent := true;
      if deleted.Ok? {
        sessions := RemoveById(sessions, id);
        deselect := activeSessionId == Some(id);
      } else {
        alert := Some(DeleteFailed);
      }
    }

    /** `toggleMenu(e, id)`. */
    method ToggleMenu(id: string)
      modifies this
      ensures openMenuId == Disclosure.Toggle(old(openMenuId), id)
      ensures sessions == old(sessions) && loading == old(loading)
    {
      openMenuId := if openMenuId == Some(id) then None else Some(id);
    }

    /** A click anywhere in the document. The listener that closes the menu
        is attached only while `openMenuId` is truthy, so a click with no
        menu open, or with the falsy id "" recorded, changes nothing. */
    method ClickOutside()
      modifies this
      ensures openMenuId == if old(openMenuId).Some? && old(openMenuId).value != "" then None else old(openMenuId)
      ensures sessions == old(sessions) && loading == old(loading)
    {
      if openMenuId.Some? && openMenuId.value != "" {
        openMenuId := None;
      }
    }
  }
}
