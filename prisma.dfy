/** The relational store behind the route handlers: a table of chat sessions
    and a table of messages, and the single-statement operations and the
    one transaction the handlers issue against them. Each operation either
    applies fully or reports failure (the thrown Prisma error) and leaves
    both tables as they were. */
module Prisma {

  import opened Wrappers
  import opened Protocol
  import Lists

  /** The title every new session row starts with. */
  const DefaultTitle: string := "Untitled Chat"

  datatype SessionRow = SessionRow(id: string, userId: string, title: string, createdAt: int)

  datatype MessageRow = MessageRow(sessionId: string, role: Role, content: string)

  function RowId(row: SessionRow): string
  {
    row.id
  }

  /** The primary keys of the session table, in row order. */
  function SessionIds(rows: seq<SessionRow>): seq<string>
  {
    Lists.Map(rows, RowId)
  }

  /** `id` is the primary key of the session table. */
  predicate UniqueIds(rows: seq<SessionRow>)
  {
    forall p, q :: 0 <= p < q < |rows| ==> rows[p].id != rows[q].id
  }

  /** The foreign key from messages to sessions. */
  predicate MessagesReferToSessions(rows: seq<SessionRow>, msgs: seq<MessageRow>)
  {
    forall k :: 0 <= k < |msgs| ==> msgs[k].sessionId in SessionIds(rows)
  }

  /** A `where` clause `{ id }` or `{ id, userId }`. */
  predicate Matches(row: SessionRow, id: string, owner: Option<string>)
  {
    row.id == id && (owner.None? || row.userId == owner.value)
  }

  /** The position of the one row a `where` clause on the primary key selects. */
  function Lookup(rows: seq<SessionRow>, id: string, owner: Option<string>): (r: Option<nat>)
    requires UniqueIds(rows)
    ensures r.Some? ==> r.value < |rows| && Matches(rows[r.value], id, owner)
    ensures r.None? <==> forall k :: 0 <= k < |rows| ==> !Matches(rows[k], id, owner)
  {
    match Lists.FirstIndex(SessionIds(rows), id)
    case None => None
    case Some(k) => if Matches(rows[k], id, owner) then Some(k) else None
  }

  /** `chatSession.findUnique({ where: { id, userId } })`: ownership is part
      of the search predicate, so another user's session is not found. */
  function FindOwned(rows: seq<SessionRow>, id: string, owner: string): (r: Option<SessionRow>)
    requires UniqueIds(rows)
    ensures r.Some? ==> r.value in rows && r.value.id == id && r.value.userId == owner
    ensures r.None? <==> forall k :: 0 <= k < |rows| ==> rows[k].id != id || rows[k].userId != owner
  {
    match Lookup(rows, id, Some(owner))
    case None => None
    case Some(k) => Some(rows[k])
  }

  /** The table after `update({ where, data: { title } })`: the rows the
      `where` clause selects get the new title, nothing else changes. */
  function Retitled(rows: seq<SessionRow>, id: string, owner: Option<string>, title: string): (r: seq<SessionRow>)
    ensures |r| == |rows| && SessionIds(r) == SessionIds(rows)
  {
    seq(|rows|, k requires 0 <= k < |rows| =>
      if Matches(rows[k], id, owner) then rows[k].(title := title) else rows[k])
  }

  /** An update whose `where` clause selects nothing changes nothing. */
  lemma RetitledNoMatch(rows: seq<SessionRow>, id: string, owner: Option<string>, title: string)
    requires forall k :: 0 <= k < |rows| ==> !Matches(rows[k], id, owner)
    ensures Retitled(rows, id, owner, title) == rows
  {
  }

  function CreatedAt(row: SessionRow): int
  {
    row.createdAt
  }

  function OwnedBy(owner: string): SessionRow -> bool
  {
    (row: SessionRow) => row.userId == owner
  }

  function NotSession(id: string): SessionRow -> bool
  {
    (row: SessionRow) => row.id != id
  }

  function NotOfSession(id: string): MessageRow -> bool
  {
    (m: MessageRow) => m.sessionId != id
  }

  /** `chatSession.findMany({ where: { userId }, orderBy: { createdAt: "desc" } })`:
      exactly the owner's rows, newest first. */
  function OwnedNewestFirst(rows: seq<SessionRow>, owner: string): (r: seq<SessionRow>)
    ensures Lists.SortedDesc(r, CreatedAt)
    ensures forall k :: 0 <= k < |r| ==> r[k] in rows && r[k].userId == owner
    ensures forall k :: 0 <= k < |rows| && rows[k].userId == owner ==> rows[k] in r
    ensures multiset(r) == multiset(Lists.Filter(rows, OwnedBy(owner)))
  {
    var owned := Lists.Filter(rows, OwnedBy(owner));
    Lists.FilterMembers(rows, OwnedBy(owner));
    var r := Lists.SortDesc(owned, CreatedAt);
    forall k | 0 <= k < |r| ensures r[k] in owned {
      assert r[k] in multiset(r);
    }
    forall k | 0 <= k < |rows| && rows[k].userId == owner ensures rows[k] in r {
      assert rows[k] in owned;
      assert rows[k] in multiset(owned);
    }
    r
  }

  /** `select: { id: true, title: true }`. */
  function Summarize(row: SessionRow): Summary
  {
    Summary(row.id, row.title)
  }

  function Project(rows: seq<SessionRow>): seq<Summary>
  {
    Lists.Map(rows, Summarize)
  }

  /** Removing the rows with one id keeps the other sessions' ids. */
  lemma KeptSessionIds(rows: seq<SessionRow>, id: string, x: string)
    requires x in SessionIds(rows) && x != id
    ensures x in SessionIds(Lists.Filter(rows, NotSession(id)))
  {
    var k :| 0 <= k < |rows| && SessionIds(rows)[k] == x;
    var r := Lists.Filter(rows, NotSession(id));
    Lists.FilterMembers(rows, NotSession(id));
    assert rows[k] in r;
    var j :| 0 <= j < |r| && r[j] == rows[k];
    assert SessionIds(r)[j] == x;
  }

  class Database {
    var sessions: seq<SessionRow>
    var messages: seq<MessageRow>

    ghost predicate Valid()
      reads this
    {
      UniqueIds(sessions) && MessagesReferToSessions(sessions, messages)
    }

    constructor ()
      ensures Valid() && sessions == [] && messages == []
    {
      sessions, messages := [], [];
    }

    /** `chatSession.create`; a duplicate primary key makes it throw. */
    method CreateSession(row: SessionRow) returns (ok: bool)
      requires Valid()
      modifies this
      ensures Valid()
      ensures ok <==> row.id !in SessionIds(old(sessions))
      ensures sessions == if ok then old(sessions) + [row] else old(sessions)
      ensures messages == old(messages)
    {
      ok := row.id !in SessionIds(sessions);
      if ok {
        var before := sessions;
        sessions := sessions + [row];
        assert forall k :: 0 <= k < |before| ==> SessionIds(sessions)[k] == SessionIds(before)[k];
        forall k | 0 <= k < |messages| ensures messages[k].sessionId in SessionIds(sessions) {
          var j :| 0 <= j < |before| && SessionIds(before)[j] == messages[k].sessionId;
          assert SessionIds(sessions)[j] == messages[k].sessionId;
        }
      }
    }

    /** `chatSession.update({ where, data: { title } })`; throws when no row
        matches the `where` clause. Only that row's title changes. */
    method UpdateTitle(id: string, owner: Option<string>, title: string) returns (ok: bool)
      requires Valid()
      modifies this
      ensures Valid()
      ensures ok <==> Lookup(old(sessions), id, owner).Some?
      ensures sessions == Retitled(old(sessions), id, owner, title)
      ensures messages == old(messages)
    {
      var found := Lookup(sessions, id, owner);
      ok := found.Some?;
      var before := sessions;
      if ok {
        var k := found.value;
        sessions := sessions[k := sessions[k].(title := title)];
        forall j | 0 <= j < |before| && j != k ensures !Matches(before[j], id, owner) {
          assert before[j].id != before[k].id;
        }
        assert SessionIds(sessions) == SessionIds(before);
      }
      assert sessions == Retitled(before, id, owner, title);
    }

    /** `message.create`; the foreign key makes it throw for a missing session. */
    method CreateMessage(m: MessageRow) returns (ok: bool)
      requires Valid()
      modifies this
      ensures Valid()
      ensures ok <==> m.sessionId in SessionIds(old(sessions))
      ensures messages == if ok then old(messages) + [m] else old(messages)
      ensures sessions == old(sessions)
    {
      ok := m.sessionId in SessionIds(sessions);
      if ok {
        messages := messages + [m];
      }
    }

    /** `$transaction([message.deleteMany({ where: { sessionId: id } }),
        chatSession.delete({ where: { id, userId } })])`: the first statement
        runs against a working copy; the second throws unless the owner's
        session exists, and then the working copy is rolled back. */
    method DeleteSessionWithMessages(id: string, owner: string) returns (committed: bool)
      requires Valid()
      modifies this
      ensures Valid()
      ensures committed <==> FindOwned(old(sessions), id, owner).Some?
      ensures committed ==> sessions == Lists.Filter(old(sessions), NotSession(id))
      ensures committed ==> messages == Lists.Filter(old(messages), NotOfSession(id))
      ensures !committed ==> sessions == old(sessions) && messages == old(messages)
    {
      var remaining := Lists.Filter(messages, NotOfSession(id));
      Lists.FilterMembers(messages, NotOfSession(id));
      var target := FindOwned(sessions, id, owner);
      if target.None? {
        committed := false;
        return;
      }
      var before := sessions;
      sessions := Lists.Filter(sessions, NotSession(id));
      Lists.FilterPairwise(before, NotSession(id), (a: SessionRow, b: SessionRow) => a.id != b.id);
      forall k | 0 <= k < |remaining| ensures remaining[k].sessionId in SessionIds(sessions) {
        assert remaining[k] in messages;
        KeptSessionIds(before, id, remaining[k].sessionId);
      }
      messages := remaining;
      committed := true;
    }
  }
}
