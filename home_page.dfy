/** The state of the home page component: the active session, its
    transcript, the mobile sidebar, the sidebar refresh counter and the open
    FAQ entry, with the handlers that change them. Each `await` is a
    parameter: the outcome of the request it waits for. */
module HomePage {

  import opened Wrappers
  import opened Text
  import opened Protocol
  import Disclosure

  /** What `fetch("/api/sessions/" + id)` and `res.json()` end with: a
      rejection, or a body whose `messages` field may be missing. The status
      is not checked. */
  datatype SessionFetch = LoadThrows | LoadedBody(messages: Option<seq<Message>>)

  /** `session?.messages || []`, or `[]` when the request throws. */
  function LoadedMessages(fetched: SessionFetch): (r: seq<Message>)
    ensures fetched.LoadedBody? && fetched.messages.Some? ==> r == fetched.messages.value
    ensures fetched.LoadThrows? || fetched.messages.None? ==> r == []
  {
    if fetched.LoadedBody? && fetched.messages.Some? then fetched.messages.value else []
  }

  const CreateFailed: string := "Failed to create session"
  const CreateError: string := "Unexpected error creating session"

  class Home {
    var sessionId: Option<string>
    var messages: seq<Message>
    var isSidebarOpen: bool
    var refreshTrigger: nat
    var openFAQ: Option<nat>

    /** The active id is never the empty string: `loadSession("")` stores
        `null` instead. */
    predicate Valid()
      reads this
    {
      sessionId != Some("")
    }

    /** The chat window is shown, rather than the landing page, exactly
        when a session is active. */
    predicate ShowsChat()
      reads this
    {
      sessionId.Some? && sessionId.value != ""
    }

    constructor()
      ensures Valid()
      ensures sessionId == None && messages == [] && !isSidebarOpen
      ensures refreshTrigger == 0 && openFAQ == None
    {
      sessionId, messages, isSidebarOpen := None, [], false;
      refreshTrigger, openFAQ := 0, None;
    }

    /** `loadSession(id)`: an empty id clears the page without a request;
        any other id becomes active, closes the sidebar and takes the
        fetched transcript. */
    method LoadSession(id: string, fetched: SessionFetch)
      modifies this
      ensures Valid()
      ensures id == "" ==> sessionId == None && messages == [] && isSidebarOpen == old(isSidebarOpen)
      ensures id != "" ==> sessionId == Some(id) && !isSidebarOpen && messages == LoadedMessages(fetched)
      ensures refreshTrigger == old(refreshTrigger) && openFAQ == old(openFAQ)
    {
      if id == "" {
        sessionId := None;
        messages := [];
        return;
      }
      sessionId := Some(id);
      isSidebarOpen := false;
      messages := LoadedMessages(fetched);
    }

    /** `handleSend(msg, onStreamUpdate)`: without an active session nothing
        happens; otherwise the transcript grows as `SendTranscript` says,
        `request` is the body posted, `updates` the chunks passed to
        `onStreamUpdate` and `settled` how the returned promise ends. */
    method HandleSend(msg: string, fetch: StreamFetch) returns (request: Option<ChatBody>, updates: seq<string>, settled: Settled)
      requires Valid()
      modifies this
      ensures Valid()
      ensures !old(ShowsChat()) ==> request == None && updates == [] && settled == Resolved && messages == old(messages)
      ensures old(ShowsChat()) ==>
        && request == Some(ChatBody(old(sessionId).value, msg))
        && updates == StreamUpdates(fetch)
        && settled == SendSettled(fetch)
        && messages == SendTranscript(old(messages), msg, fetch)
      ensures sessionId == old(sessionId) && isSidebarOpen == old(isSidebarOpen)
      ensures refreshTrigger == old(refreshTrigger) && openFAQ == old(openFAQ)
    {
      request, updates, settled := None, [], Resolved;
      if sessionId.None? || sessionId.value == "" {
        return;
      }
      messages := messages + [Message(User, msg)];
      request := Some(ChatBody(sessionId.value, msg));
      match fetch
      case FetchRejects =>
        settled := Rejected;
      case NoBody =>
        return;
      case Body(chunks, completes) =>
        var reply;
        updates, reply := ReadBody(chunks);
        if !completes {
          settled := Rejected;
          return;
        }
        messages := messages + [Message(Assistant, reply)];
    }

    /** The New Chat button: a created session is loaded and the sidebar is
        told to refresh; a refused or failed request only raises an alert. */
    method NewChat(created: Fetched<Summary>, fetched: SessionFetch) returns (alert: Option<string>)
      requires Valid()
      modifies this
      ensures Valid()
      ensures created.Throws? ==> alert == Some(CreateError)
      ensures created.NotOk? ==> alert == Some(CreateFailed)
      ensures !created.Ok? ==>
        && sessionId == old(sessionId) && messages == old(messages) && isSidebarOpen == old(isSidebarOpen)
        && refreshTrigger == old(refreshTrigger)
      ensures created.Ok? ==>
        && alert == None
        && refreshTrigger == old(refreshTrigger) + 1
        && (created.body.id != "" ==> sessionId == Some(created.body.id) && !isSidebarOpen && messages == LoadedMessages(fetched))
        && (created.body.id == "" ==> sessionId == None && messages == [] && isSidebarOpen == old(isSidebarOpen))
      ensures openFAQ == old(openFAQ)
    {
      match created
      case Throws =>
        alert := Some(CreateError);
      case NotOk =>
        alert := Some(CreateFailed);
      case Ok(session) =>
        LoadSession(session.id, fetched);
        refreshTrigger := refreshTrigger + 1;
        alert := None;
    }

    /** A click on FAQ entry `index`. */
    method ToggleFAQ(index: nat)
      modifies this
      ensures openFAQ == Disclosure.Toggle(old(openFAQ), index)
      ensures sessionId == old(sessionId) && messages == old(messages) && isSidebarOpen == old(isSidebarOpen)
      ensures refreshTrigger == old(refreshTrigger)
    {
      openFAQ := if openFAQ == Some(index) then None else Some(index);
    }
  }
}
