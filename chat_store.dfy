/** The browser-side session list of `utils/chatStore.ts`, kept as JSON under
    one `localStorage` key. Every operation reads the whole list, and the
    writing ones store the whole list back. `localStorage` is the state of
    the class; `JSON.parse` is abstracted into what it recognises in the
    stored text. */
module ChatStore {

  import opened Wrappers
  import Lists

  const StorageKey: string := "gm.chat.sessions.v1"
  const DefaultTitle: string := "New Chat"

  datatype Sender = UserSender | Counselor

  datatype ChatMessage = ChatMessage(id: string, sender: Sender, text: string, timestamp: int)

  datatype ChatSession = ChatSession(id: string, title: string, messages: seq<ChatMessage>, updatedAt: int)

  /** What `JSON.parse` makes of the stored text: it throws, it yields
      something other than an array, or it yields the sessions. */
  datatype Decoded = NotJson | NotArray | SessionArray(sessions: seq<ChatSession>)

  /** The string under the key: empty, or text with its parse. */
  datatype StoredItem = EmptyText | Text(decoded: Decoded)

  function IdOf(s: ChatSession): string
  {
    s.id
  }

  function Ids(sessions: seq<ChatSession>): seq<string>
  {
    Lists.Map(sessions, IdOf)
  }

  function UpdatedAt(s: ChatSession): int
  {
    s.updatedAt
  }

  function NotId(id: string): ChatSession -> bool
  {
    (s: ChatSession) => s.id != id
  }

  /** `sessions.filter(s => s.id !== id)`: every session with the id is gone,
      the others stay in order, and an absent id changes nothing. */
  function Without(sessions: seq<ChatSession>, id: string): (r: seq<ChatSession>)
    ensures forall k :: 0 <= k < |r| ==> r[k].id != id && r[k] in sessions
    ensures forall k :: 0 <= k < |sessions| && sessions[k].id != id ==> sessions[k] in r
    ensures id !in Ids(sessions) ==> r == sessions
  {
    Lists.FilterMembers(sessions, NotId(id));
    Lists.Filter(sessions, NotId(id))
  }

  /** Deleting twice is deleting once. */
  lemma WithoutIdempotent(sessions: seq<ChatSession>, id: string)
    ensures Without(Without(sessions, id), id) == Without(sessions, id)
  {
    Lists.FilterIdempotent(sessions, NotId(id));
  }

  class ChatStorage {
    /** `typeof window !== 'undefined'`. */
    const hasWindow: bool
    /** `localStorage.getItem(StorageKey)`, `None` for `null`. */
    var item: Option<StoredItem>

    constructor (hasWindow: bool, item: Option<StoredItem>)
      ensures this.hasWindow == hasWindow && this.item == item
    {
      this.hasWindow, this.item := hasWindow, item;
    }

    /** `readAll`: the stored array, and the empty list in every other case
        (no window, nothing stored, empty text, unparsable text, not an array). */
    function ReadAll(): (r: seq<ChatSession>)
      reads this
      ensures r != [] ==> hasWindow && item == Some(Text(SessionArray(r)))
    {
      if !hasWindow then []
      else match item
        case Some(Text(SessionArray(sessions))) => sessions
        case _ => []
    }

    /** `writeAll`: without a window nothing is written. */
    method WriteAll(sessions: seq<ChatSession>)
      modifies this
      ensures hasWindow ==> item == Some(Text(SessionArray(sessions))) && ReadAll() == sessions
      ensures !hasWindow ==> item == old(item)
    {
      if hasWindow {
        item := Some(Text(SessionArray(sessions)));
      }
    }

    /** `createSession(title = 'New Chat')`; `title` is `None` when the
        argument is omitted, `id` and `now` stand for the random id and
        `Date.now()`. The new session is stored in front of the others. */
    method CreateSession(title: Option<string>, id: string, now: int) returns (s: ChatSession)
      modifies this
      ensures s == ChatSession(id, if title.Some? then title.value else DefaultTitle, [], now)
      ensures hasWindow ==> ReadAll() == [s] + old(ReadAll())
      ensures !hasWindow ==> item == old(item)
    {
      var sessions := ReadAll();
      s := ChatSession(id, if title.Some? then title.value else DefaultTitle, [], now);
      WriteAll([s] + sessions);
    }

    /** `listSessions`: the stored sessions, most recently updated first,
        sessions with equal `updatedAt` in stored order. */
    function ListSessions(): (r: seq<ChatSession>)
      reads this
      ensures Lists.SortedDesc(r, UpdatedAt)
      ensures multiset(r) == multiset(ReadAll())
    {
      Lists.SortDesc(ReadAll(), UpdatedAt)
    }

    /** `getSession`: the first stored session with the id. */
    function GetSession(id: string): (r: Option<ChatSession>)
      reads this
      ensures r.Some? ==> r.value.id == id && r.value in ReadAll()
      ensures r.Some? ==> exists k :: 0 <= k < |ReadAll()| && ReadAll()[k] == r.value && id !in Ids(ReadAll()[..k])
      ensures r.None? <==> id !in Ids(ReadAll())
    {
      var all := ReadAll();
      match Lists.FirstIndex(Ids(all), id)
      case None => None
      case Some(k) =>
        assert Ids(all[..k]) == Ids(all)[..k];
        Some(all[k])
    }

    /** `appendMessage`: unknown id, nothing written; otherwise the session
        at its index gets the message and the new `updatedAt`, and the list
        is written back with every other session in place. */
    method AppendMessage(sessionId: string, message: ChatMessage, now: int) returns (r: Option<ChatSession>)
      modifies this
      ensures r.None? <==> sessionId !in Ids(old(ReadAll()))
      ensures r.None? ==> item == old(item)
      ensures r.Some? ==>
        var k := Lists.FirstIndex(Ids(old(ReadAll())), sessionId).value;
        var s := old(ReadAll())[k];
        && r.value == s.(messages := s.messages + [message], updatedAt := now)
        && ReadAll() == old(ReadAll())[k := r.value]
    {
      var sessions := ReadAll();
      var idx := Lists.FirstIndex(Ids(sessions), sessionId);
      if idx.None? {
        return None;
      }
      var k := idx.value;
      var updated := sessions[k].(messages := sessions[k].messages + [message], updatedAt := now);
      sessions := sessions[k := updated];
      WriteAll(sessions);
      r := Some(updated);
    }

    /** `renameSession`: like `appendMessage`, replacing only the title and
        `updatedAt`; the messages are kept. */
    method RenameSession(sessionId: string, title: string, now: int) returns (r: Option<ChatSession>)
      modifies this
      ensures r.None? <==> sessionId !in Ids(old(ReadAll()))
      ensures r.None? ==> item == old(item)
      ensures r.Some? ==>
        var k := Lists.FirstIndex(Ids(old(ReadAll())), sessionId).value;
        var s := old(ReadAll())[k];
        && r.value == s.(title := title, updatedAt := now)
        && r.value.messages == s.messages
        && ReadAll() == old(ReadAll())[k := r.value]
    {
      var sessions := ReadAll();
      var idx := Lists.FirstIndex(Ids(sessions), sessionId);
      if idx.None? {
        return None;
      }
      var k := idx.value;
      sessions := sessions[k := sessions[k].(title := title, updatedAt := now)];
      WriteAll(sessions);
      r := Some(sessions[k]);
    }

    /** `deleteSession`: the filtered list is always written back, so with a
        window even an unreadable stored value becomes a stored list. */
    method DeleteSession(sessionId: string)
      modifies this
      ensures hasWindow ==> ReadAll() == Without(old(ReadAll()), sessionId)
      ensures hasWindow ==> item == Some(Text(SessionArray(Without(old(ReadAll()), sessionId))))
      ensures !hasWindow ==> item == old(item)
    {
      var sessions := Without(ReadAll(), sessionId);
      WriteAll(sessions);
    }
  }
}
