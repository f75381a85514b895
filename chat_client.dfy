/** The `ChatClient` wrapper: a transcript for a fixed session id and the
    `onSend` it hands to the chat window. Unlike the home page it sends
    without checking for an active session. */
module ChatClient {

  import opened Text
  import opened Protocol

  class Client {
    const activeSessionId: string
    var messages: seq<Message>

    constructor(activeSessionId: string)
      ensures this.activeSessionId == activeSessionId && messages == []
    {
      this.activeSessionId := activeSessionId;
      messages := [];
    }

    /** `onSend(message, onStreamUpdate)`: appends the user's message, posts
        it for the fixed session, passes each chunk on in order and appends
        their concatenation as the assistant's reply when the body was read
        to the end. */
    method OnSend(message: string, fetch: StreamFetch) returns (request: ChatBody, updates: seq<string>, settled: Settled)
      modifies this
      ensures request == ChatBody(activeSessionId, message)
      ensures updates == StreamUpdates(fetch)
      ensures settled == SendSettled(fetch)
      ensures messages == SendTranscript(old(messages), message, fetch)
    {
      messages := messages + [Message(User, message)];
      request := ChatBody(activeSessionId, message);
      updates, settled := [], Resolved;
      match fetch
      case FetchRejects =>
        settled := Rejected;
      case NoBody =>
        return;
      case Body(chunks, completes) =>
        var reply;
        updates, reply := ReadBody(chunks);
        if !completes {
          settled := Rejected;
          return;
        }
        messages := messages + [Message(Assistant, reply)];
    }
  }
}
