/** The values that cross the HTTP boundary between the browser components
    and the route handlers, and the client's reader loop over a streamed
    response body. */
module Protocol {

  import opened Wrappers
  import opened Text

  /** `role: "user" | "assistant"`. */
  datatype Role = User | Assistant

  /** A transcript entry `{ role, content }`. */
  datatype Message = Message(role: Role, content: string)

  /** The `{ id, title }` projection the session endpoints return. */
  datatype Summary = Summary(id: string, title: string)

  /** The JSON body `{ sessionId, message }` posted to the chat endpoint. */
  datatype ChatBody = ChatBody(sessionId: string, message: string)

  /** `session?.user?.id` is truthy: present and not the empty string. */
  predicate Authenticated(user: Option<string>)
  {
    user.Some? && user.value != ""
  }

  /** What a client's `fetch("/api/chat", …)` turns out to be, with the body
      already decoded into text chunks. `completes` is false when a
      `reader.read()` rejects after the listed chunks. */
  datatype StreamFetch =
    | FetchRejects
    | NoBody
    | Body(chunks: seq<string>, completes: bool)

  /** How an `async` handler ended. */
  datatype Settled = Resolved | Rejected

  /** What a `fetch` of a JSON endpoint followed by `res.json()` ends with
      when the caller checks `res.ok`: a rejection (network failure or a
      body that does not parse), a status outside 200-299, or the body. */
  datatype Fetched<T> = Throws | NotOk | Ok(body: T)

  /** The transcript after `onSend(msg)`: the user's message is appended
      before the request; the assistant's reply is appended after it only
      when the body was read to the end. */
  function SendTranscript(prev: seq<Message>, msg: string, fetch: StreamFetch): (r: seq<Message>)
    ensures |prev| + 1 <= |r| <= |prev| + 2
    ensures r[..|prev| + 1] == prev + [Message(User, msg)]
    ensures |r| == |prev| + 2 <==> fetch.Body? && fetch.completes
    ensures |r| == |prev| + 2 ==> r[|prev| + 1] == Message(Assistant, Concat(fetch.chunks))
  {
    var sent := prev + [Message(User, msg)];
    if fetch.Body? && fetch.completes then sent + [Message(Assistant, Concat(fetch.chunks))] else sent
  }

  /** How `onSend` ends: it rejects when `fetch` or a `reader.read()`
      rejects, and resolves otherwise, including when there is no body. */
  function SendSettled(fetch: StreamFetch): (s: Settled)
    ensures s == Rejected <==> fetch.FetchRejects? || (fetch.Body? && !fetch.completes)
  {
    match fetch
    case FetchRejects => Rejected
    case NoBody => Resolved
    case Body(_, completes) => if completes then Resolved else Rejected
  }

  /** The chunks handed to `onStreamUpdate`, in order. */
  function StreamUpdates(fetch: StreamFetch): (r: seq<string>)
    ensures fetch.Body? ==> r == fetch.chunks
    ensures !fetch.Body? ==> r == []
  {
    if fetch.Body? then fetch.chunks else []
  }

  /** The `while (true) { reader.read() … }` loop: each chunk is handed to
      `onStreamUpdate` in order (`forwarded` is the sequence of those calls)
      and `assistantReply` accumulates them. */
  method ReadBody(chunks: seq<string>) returns (forwarded: seq<string>, reply: string)
    ensures forwarded == chunks
    ensures reply == Concat(chunks)
  {
    forwarded, reply := [], "";
    var k := 0;
    while k < |chunks|
      invariant 0 <= k <= |chunks|
      invariant forwarded == chunks[..k]
      invariant reply == Concat(forwarded)
    {
      reply := reply + chunks[k];
      forwarded := forwarded + [chunks[k]];
      k := k + 1;
    }
    assert chunks[..k] == chunks;
  }
}
