/** The module-level in-memory session list of `lib/SessionStore.ts`: new
    sessions go to the front, messages are appended to the first session
    with the id, and the first user message renames a "New Chat". */
module SessionStore {

  import opened Wrappers
  import opened Protocol
  import Lists

  const NewChatTitle: string := "New Chat"
  const TitleLength: nat := 30

  datatype Session = Session(id: string, title: string, messages: seq<Message>, createdAt: int)

  function IdOf(s: Session): string
  {
    s.id
  }

  function Ids(sessions: seq<Session>): seq<string>
  {
    Lists.Map(sessions, IdOf)
  }

  /** The title after `addMessage(role, content)`: only a user message on a
      session still titled "New Chat" renames it, to the first 30 characters
      of the content followed by "...". */
  function TitleAfter(title: string, role: Role, content: string): string
  {
    if title == NewChatTitle && role == User
    then content[..if |content| < TitleLength then |content| else TitleLength] + "..."
    else title
  }

  /** The rule in full: the title changes exactly when a user message meets
      "New Chat", and then to the first 30 characters of the content (all of
      it when shorter) followed by "...". */
  lemma TitleRule(title: string, role: Role, content: string)
    ensures var t := TitleAfter(title, role, content);
      && (t != title <==> title == NewChatTitle && role == User)
      && (t != title ==> exists p :: p <= content && |p| == (if |content| < TitleLength then |content| else TitleLength) && t == p + "...")
  {
    var t := TitleAfter(title, role, content);
    if title == NewChatTitle && role == User {
      var p := content[..if |content| < TitleLength then |content| else TitleLength];
      assert t == p + "...";
      assert t[|t| - 1] == '.' != NewChatTitle[|NewChatTitle| - 1];
    }
  }

  /** A renamed title is final: no later message renames it again. */
  lemma {:induction false} RenamedTitleIsFinal(title: string, role: Role, content: string, role': Role, content': string)
    requires TitleAfter(title, role, content) != title
    ensures var t := TitleAfter(title, role, content);
      TitleAfter(t, role', content') == t
  {
    var t := TitleAfter(title, role, content);
    assert t[|t| - 1] == '.';
    assert t != NewChatTitle by {
      assert NewChatTitle[|NewChatTitle| - 1] == 't';
    }
  }

  class Store {
    /** The shared `sessions` array. */
    var sessions: seq<Session>
    /** The ids in the order `createSession` produced them. */
    ghost var created: seq<string>

    ghost predicate Valid()
      reads this
    {
      Ids(sessions) == Reversed(created)
    }

    constructor ()
      ensures Valid() && sessions == [] && created == []
    {
      sessions, created := [], [];
    }

    /** `createSession`: `id` and `now` stand for `uuid()` and `new Date()`. */
    method CreateSession(id: string, now: int) returns (s: Session)
      requires Valid()
      modifies this
      ensures Valid()
      ensures s == Session(id, NewChatTitle, [], now)
      ensures sessions == [s] + old(sessions)
      ensures created == old(created) + [id]
    {
      s := Session(id, NewChatTitle, [], now);
      Lists.MapAppend([s], sessions, IdOf);
      ReversedAppend(created, [id]);
      sessions := [s] + sessions;
      created := created + [id];
    }

    /** `getSessions` hands out the list itself: the most recently created
        session first. */
    method GetSessions() returns (r: seq<Session>)
      requires Valid()
      ensures r == sessions
      ensures Ids(r) == Reversed(created)
    {
      r := sessions;
    }

    /** `getSession`: the first session with the id, if any. */
    function GetSession(id: string): (r: Option<Session>)
      reads this
      ensures r.Some? ==> r.value.id == id && r.value in sessions
      ensures r.Some? ==> exists k :: 0 <= k < |sessions| && sessions[k] == r.value && id !in Ids(sessions[..k])
      ensures r.None? <==> id !in Ids(sessions)
    {
      match Lists.FirstIndex(Ids(sessions), id)
      case None => None
      case Some(k) =>
        assert Ids(sessions[..k]) == Ids(sessions)[..k];
        Some(sessions[k])
    }

    /** `addMessage`: on an unknown id nothing changes; otherwise the first
        session with the id gets the message appended and its title updated
        by the title rule, and every other session is left as it was. */
    method AddMessage(sessionId: string, role: Role, content: string)
      requires Valid()
      modifies this
      ensures Valid() && created == old(created)
      ensures sessionId !in Ids(old(sessions)) ==> sessions == old(sessions)
      ensures sessionId in Ids(old(sessions)) ==>
        var k := Lists.FirstIndex(Ids(old(sessions)), sessionId).value;
        var s := old(sessions)[k];
        sessions == old(sessions)[k := s.(messages := s.messages + [Message(role, content)],
                                          title := TitleAfter(s.title, role, content))]
    {
      var found := Lists.FirstIndex(Ids(sessions), sessionId);
      if found.Some? {
        var k := found.value;
        var s := sessions[k];
        var s' := s.(messages := s.messages + [Message(role, content)],
                     title := TitleAfter(s.title, role, content));
        assert Ids(sessions[k := s']) == Ids(sessions);
        sessions := sessions[k := s'];
      }
    }
  }

  /** `s` back to front. */
  ghost function Reversed(s: seq<string>): (r: seq<string>)
    ensures |r| == |s|
  {
    if s == [] then [] else Reversed(s[1..]) + [s[0]]
  }

  /** Reversing an appended sequence reverses and swaps the parts. */
  lemma {:induction false} ReversedAppend(a: seq<string>, b: seq<string>)
    ensures Reversed(a + b) == Reversed(b) + Reversed(a)
    decreases |a|
  {
    if a == [] {
      assert a + b == b;
    } else {
      assert (a + b)[1..] == a[1..] + b;
      ReversedAppend(a[1..], b);
    }
  }

  /** Reversing twice gives the sequence back. */
  lemma {:induction false} ReversedReversed(s: seq<string>)
    ensures Reversed(Reversed(s)) == s
  {
    if s != [] {
      ReversedAppend(Reversed(s[1..]), [s[0]]);
      ReversedReversed(s[1..]);
      assert [s[0]] + s[1..] == s;
    }
  }
}
