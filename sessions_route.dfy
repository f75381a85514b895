/** The session endpoints `GET`, `POST`, `PATCH` and `DELETE /api/sessions`:
    every query and write is scoped to the signed-in user, and deletion of a
    session with its messages is one transaction. */
module SessionsRoute {

  import opened Wrappers
  import opened Protocol
  import opened Prisma
  import Lists

  /** The JSON bodies the handlers answer with. */
  datatype Json = Summaries(list: seq<Summary>) | One(summary: Summary) | Failure(error: string) | Success

  datatype Reply = Reply(status: int, json: Json)

  /** A JSON field or query parameter that is missing or the empty string is falsy. */
  predicate Present(value: Option<string>)
  {
    value.Some? && value.value != ""
  }

  /** `GET`: the caller's sessions as `{ id, title }`, newest first;
      `queryFails` is a query that throws, answered with an empty list. */
  method Get(db: Database, user: Option<string>, queryFails: bool) returns (reply: Reply)
    ensures !Authenticated(user) ==> reply == Reply(401, Summaries([]))
    ensures Authenticated(user) && queryFails ==> reply == Reply(500, Summaries([]))
    ensures Authenticated(user) && !queryFails ==> reply.status == 200 && reply.json.Summaries?
    ensures Authenticated(user) && !queryFails ==>
      exists rows :: && reply.json.list == Project(rows)
                     && Lists.SortedDesc(rows, CreatedAt)
                     && multiset(rows) == multiset(Lists.Filter(db.sessions, OwnedBy(user.value)))
  {
    if !Authenticated(user) {
      return Reply(401, Summaries([]));
    }
    if queryFails {
      return Reply(500, Summaries([]));
    }
    var rows := OwnedNewestFirst(db.sessions, user.value);
    reply := Reply(200, Summaries(Project(rows)));
  }

  /** `POST`: one new session titled "Untitled Chat" owned by the caller;
      `freshId` and `now` are the identifier and timestamp the store assigns. */
  method Post(db: Database, user: Option<string>, freshId: string, now: int) returns (reply: Reply)
    requires db.Valid()
    modifies db
    ensures db.Valid()
    ensures !Authenticated(user) ==> reply == Reply(401, Failure("Unauthorized")) && db.sessions == old(db.sessions) && db.messages == old(db.messages)
    ensures Authenticated(user) && freshId !in SessionIds(old(db.sessions)) ==>
      && reply == Reply(200, One(Summary(freshId, DefaultTitle)))
      && db.sessions == old(db.sessions) + [SessionRow(freshId, user.value, DefaultTitle, now)]
      && db.messages == old(db.messages)
    ensures Authenticated(user) && freshId in SessionIds(old(db.sessions)) ==>
      reply == Reply(500, Failure("Failed to create session")) && db.sessions == old(db.sessions) && db.messages == old(db.messages)
  {
    if !Authenticated(user) {
      return Reply(401, Failure("Unauthorized"));
    }
    var ok := db.CreateSession(SessionRow(freshId, user.value, DefaultTitle, now));
    if ok {
      reply := Reply(200, One(Summary(freshId, DefaultTitle)));
    } else {
      reply := Reply(500, Failure("Failed to create session"));
    }
  }

  /** The fields `{ id, title }` of a `PATCH` body that parsed as JSON. */
  datatype RenameBody = RenameBody(id: Option<string>, title: Option<string>)

  /** `PATCH`: renames the one session matching both `id` and the caller;
      with no such session the update throws and nothing changes. `body` is
      `None` when `req.json()` throws, which the handler's `catch` answers
      like a failed update. */
  method Patch(db: Database, user: Option<string>, body: Option<RenameBody>) returns (reply: Reply)
    requires db.Valid()
    modifies db
    ensures db.Valid()
    ensures !Authenticated(user) ==> reply == Reply(401, Failure("Unauthorized")) && db.sessions == old(db.sessions) && db.messages == old(db.messages)
    ensures Authenticated(user) && body.None? ==>
      reply == Reply(500, Failure("Failed to update session")) && db.sessions == old(db.sessions) && db.messages == old(db.messages)
    ensures Authenticated(user) && body.Some? && !(Present(body.value.id) && Present(body.value.title)) ==>
      reply == Reply(400, Failure("Missing id or title")) && db.sessions == old(db.sessions) && db.messages == old(db.messages)
    ensures Authenticated(user) && body.Some? && Present(body.value.id) && Present(body.value.title) ==>
      var (id, title) := (body.value.id.value, body.value.title.value);
      && db.messages == old(db.messages)
      && db.sessions == Retitled(old(db.sessions), id, user, title)
      && (FindOwned(old(db.sessions), id, user.value).Some? ==>
            reply == Reply(200, One(Summary(id, title))))
      && (FindOwned(old(db.sessions), id, user.value).None? ==>
            reply == Reply(500, Failure("Failed to update session")) && db.sessions == old(db.sessions))
  {
    if !Authenticated(user) {
      return Reply(401, Failure("Unauthorized"));
    }
    if body.None? {
      return Reply(500, Failure("Failed to update session"));
    }
    var RenameBody(id, title) := body.value;
    if !(Present(id) && Present(title)) {
      return Reply(400, Failure("Missing id or title"));
    }
    var before := db.sessions;
    var ok := db.UpdateTitle(id.value, user, title.value);
    if ok {
      reply := Reply(200, One(Summary(id.value, title.value)));
    } else {
      RetitledNoMatch(before, id.value, user, title.value);
      reply := Reply(500, Failure("Failed to update session"));
    }
  }

  /** `DELETE ?id=`: removes the caller's session and every message of it in
      one transaction; for a session the caller does not own the transaction
      fails and no row of either table is removed. */
  method Delete(db: Database, user: Option<string>, id: Option<string>) returns (reply: Reply)
    requires db.Valid()
    modifies db
    ensures db.Valid()
    ensures !Authenticated(user) ==> reply == Reply(401, Failure("Unauthorized")) && db.sessions == old(db.sessions) && db.messages == old(db.messages)
    ensures Authenticated(user) && !Present(id) ==> reply == Reply(400, Failure("Missing id")) && db.sessions == old(db.sessions) && db.messages == old(db.messages)
    ensures Authenticated(user) && Present(id) && FindOwned(old(db.sessions), id.value, user.value).None? ==>
      reply == Reply(500, Failure("Failed to delete session")) && db.sessions == old(db.sessions) && db.messages == old(db.messages)
    ensures Authenticated(user) && Present(id) && FindOwned(old(db.sessions), id.value, user.value).Some? ==>
      && reply == Reply(200, Success)
      && db.sessions == Lists.Filter(old(db.sessions), NotSession(id.value))
      && db.messages == Lists.Filter(old(db.messages), NotOfSession(id.value))
      && id.value !in SessionIds(db.sessions)
      && forall k :: 0 <= k < |db.messages| ==> db.messages[k].sessionId != id.value
  {
    if !Authenticated(user) {
      return Reply(401, Failure("Unauthorized"));
    }
    if !Present(id) {
      return Reply(400, Failure("Missing id"));
    }
    var committed := db.DeleteSessionWithMessages(id.value, user.value);
    if committed {
      reply := Reply(200, Success);
    } else {
      reply := Reply(500, Failure("Failed to delete session"));
    }
  }
}
