/** The streaming chat endpoint `POST /api/chat`: an authentication gate, an
    owner-scoped session lookup, the relay of generated fragments into the
    response stream, the derived title, the best-effort persistence of the
    exchange, and the inline error marker. The generative backend is given
    as the fragments it produces and how their sequence ends. */
module ChatRoute {

  import opened Wrappers
  import opened Text
  import opened Protocol
  import opened Prisma
  import Lists

  const NotFoundBody: string := "Session not found or access denied"
  const Ellipsis: string := "\U{2026}"
  const TitleTokens: nat := 6

  /** A thrown value: an `Error` with its `message`, or anything else. */
  datatype Thrown = ErrorObject(message: string) | NonError

  /** `\n[Error: <message>]`, with "Unknown error" for a non-`Error`. */
  function ErrorMarker(e: Thrown): (m: string)
    ensures "\n[Error: " <= m && m[|m| - 1] == ']'
    ensures e.NonError? ==> m == "\n[Error: Unknown error]"
    ensures e.ErrorObject? ==> m == "\n[Error: " + e.message + "]"
  {
    "\n[Error: " + (match e case ErrorObject(text) => text case NonError => "Unknown error") + "]"
  }

  /** How the backend's fragment stream ends: it is exhausted, or it (or the
      call that opens it) throws. */
  datatype GenerationEnd = Exhausted | Raises(error: Thrown)

  /** `result.stream`: the texts of the chunks in production order, then its end. */
  datatype Generation = Generation(fragments: seq<string>, end: GenerationEnd)

  /** Which of the three writes under `Promise.allSettled` succeed. */
  datatype WriteOutcomes = WriteOutcomes(userMessage: bool, assistantMessage: bool, title: bool)

  /** A plain response, or a 200 `text/plain` stream given by the texts
      enqueued into it before it closes. */
  datatype Response = Plain(status: int, body: string) | Streamed(chunks: seq<string>)

  predicate NonEmpty(s: string)
  {
    s != ""
  }

  function Forwarded(fragments: seq<string>): seq<string>
  {
    Lists.Filter(fragments, NonEmpty)
  }

  /** Dropping the empty fragments does not change the text the backend
      produced, so the forwarded text is the whole reply. */
  lemma {:induction false} ForwardedText(fragments: seq<string>)
    ensures Concat(Forwarded(fragments)) == Concat(fragments)
  {
    if fragments != [] {
      ForwardedText(fragments[1..]);
      assert fragments == [fragments[0]] + fragments[1..];
      ConcatAppend([fragments[0]], fragments[1..]);
      if NonEmpty(fragments[0]) {
        ConcatAppend([fragments[0]], Forwarded(fragments[1..]));
      } else {
        assert Concat([fragments[0]]) == "";
      }
    }
  }

  /** The `for await` loop: a non-empty fragment is added to `fullReply` and
      enqueued; an empty one is skipped. */
  method ForwardFragments(fragments: seq<string>) returns (enqueued: seq<string>, fullReply: string)
    ensures enqueued == Forwarded(fragments)
    ensures forall k :: 0 <= k < |enqueued| ==> enqueued[k] != ""
    ensures fullReply == Concat(enqueued) == Concat(fragments)
  {
    enqueued, fullReply := [], "";
    var k := 0;
    while k < |fragments|
      invariant 0 <= k <= |fragments|
      invariant enqueued == Forwarded(fragments[..k])
      invariant fullReply == Concat(enqueued)
    {
      var text := fragments[k];
      Lists.FilterAppend(fragments[..k], [text], NonEmpty);
      assert fragments[..k + 1] == fragments[..k] + [text];
      if text != "" {
        fullReply := fullReply + text;
        enqueued := enqueued + [text];
      }
      k := k + 1;
    }
    assert fragments[..k] == fragments;
    ForwardedText(fragments);
  }

  /** `message.split(" ").slice(0, 6).join(" ") + (more than 6 ? "…" : "")`. */
  function TitleFor(message: string): string
  {
    var tokens := Split(message, ' ');
    if |tokens| > TitleTokens then Join(" ", tokens[..TitleTokens]) + Ellipsis
    else Join(" ", tokens)
  }

  /** A message of at most six space-separated tokens is its own title. */
  lemma ShortMessageTitle(message: string)
    requires |Split(message, ' ')| <= TitleTokens
    ensures TitleFor(message) == message
  {
    JoinSplit(message, ' ');
  }

  /** A longer message gives its first six tokens followed by the ellipsis:
      the title without the ellipsis, and then a space, begins the message,
      and it splits into exactly six tokens. */
  lemma LongMessageTitle(message: string)
    requires |Split(message, ' ')| > TitleTokens
    ensures var t := TitleFor(message);
      && t == t[..|t| - 1] + Ellipsis
      && t[..|t| - 1] + " " <= message
      && Split(t[..|t| - 1], ' ') == Split(message, ' ')[..TitleTokens]
  {
    var tokens := Split(message, ' ');
    var head := Join(" ", tokens[..TitleTokens]);
    JoinPrefix(" ", tokens, TitleTokens);
    JoinSplit(message, ' ');
    SplitJoin(tokens[..TitleTokens], ' ');
    var t := TitleFor(message);
    assert t == head + Ellipsis;
    assert t[..|t| - 1] == head;
  }

  /** Only the empty message derives the empty title. */
  lemma EmptyTitle(message: string)
    ensures TitleFor(message) == "" <==> message == ""
  {
    if |Split(message, ' ')| <= TitleTokens {
      ShortMessageTitle(message);
    }
  }

  /** `maybeTitle`: computed only while the stored title is "Untitled Chat". */
  function MaybeTitle(stored: string, message: string): (r: Option<string>)
    ensures r.Some? <==> stored == DefaultTitle
    ensures r.Some? && |Split(message, ' ')| <= TitleTokens ==> r.value == message
  {
    if stored == DefaultTitle then
      if |Split(message, ' ')| <= TitleTokens then ShortMessageTitle(message); Some(TitleFor(message))
      else Some(TitleFor(message))
    else None
  }

  /** The title update is issued only for a truthy `maybeTitle`: a derived
      title that is the empty string (from an empty message) is not written. */
  function TitleUpdate(stored: string, message: string): (r: Option<string>)
    ensures r.Some? <==> stored == DefaultTitle && message != ""
    ensures r.Some? ==> r == MaybeTitle(stored, message)
  {
    match MaybeTitle(stored, message)
    case Some(t) =>
      if t != "" then Some(t)
      else
        EmptyTitle(message);
        None
    case None => None
  }

  /** The message rows the settled writes add, user message first. */
  function ExchangeRows(sessionId: string, message: string, reply: string, writes: WriteOutcomes): (r: seq<MessageRow>)
    ensures |r| == (if writes.userMessage then 1 else 0) + (if writes.assistantMessage then 1 else 0)
    ensures writes.userMessage ==> r[0] == MessageRow(sessionId, User, message)
    ensures writes.assistantMessage ==> r[|r| - 1] == MessageRow(sessionId, Assistant, reply)
  {
    (if writes.userMessage then [MessageRow(sessionId, User, message)] else [])
    + (if writes.assistantMessage then [MessageRow(sessionId, Assistant, reply)] else [])
  }

  /** The `Promise.allSettled` block: each write that succeeds is applied, a
      failed one is ignored, and the block itself never fails. */
  method PersistExchange(db: Database, sessionId: string, message: string, reply: string,
                         title: Option<string>, writes: WriteOutcomes)
    requires db.Valid()
    requires sessionId in SessionIds(db.sessions)
    modifies db
    ensures db.Valid()
    ensures db.messages == old(db.messages) + ExchangeRows(sessionId, message, reply, writes)
    ensures db.sessions == if writes.title && title.Some?
      then Retitled(old(db.sessions), sessionId, None, title.value)
      else old(db.sessions)
  {
    if writes.userMessage {
      var ok := db.CreateMessage(MessageRow(sessionId, User, message));
    }
    if writes.assistantMessage {
      var ok := db.CreateMessage(MessageRow(sessionId, Assistant, reply));
    }
    if writes.title && title.Some? {
      var ok := db.UpdateTitle(sessionId, None, title.value);
    }
  }

  /** The handler. `user` is the authenticated user id (if any), `body` the
      parsed JSON body (`None` when parsing fails), `lookupFault` a failure of
      the session query, `gen` what the backend produces; `backendCalls`
      counts calls to the backend. */
  method Post(db: Database, user: Option<string>, body: Option<ChatBody>, lookupFault: Option<Thrown>,
              gen: Generation, writes: WriteOutcomes)
    returns (response: Response, backendCalls: nat)
    requires db.Valid()
    modifies db
    ensures db.Valid()
    ensures !Authenticated(user) ==>
      response == Plain(401, "Unauthorized") && backendCalls == 0 && db.sessions == old(db.sessions) && db.messages == old(db.messages)
    ensures Authenticated(user) && body.None? ==>
      response == Plain(500, "Internal Server Error") && backendCalls == 0 && db.sessions == old(db.sessions) && db.messages == old(db.messages)
    ensures Authenticated(user) && body.Some? && lookupFault.Some? ==>
      response == Streamed([ErrorMarker(lookupFault.value)]) && backendCalls == 0 && db.sessions == old(db.sessions) && db.messages == old(db.messages)
    ensures Authenticated(user) && body.Some? && lookupFault.None? ==>
      var found := FindOwned(old(db.sessions), body.value.sessionId, user.value);
      && (found.None? ==> response == Streamed([NotFoundBody]) && backendCalls == 0 && db.sessions == old(db.sessions) && db.messages == old(db.messages))
      && (found.Some? ==> backendCalls == 1)
      && (found.Some? && gen.end.Raises? ==>
            response == Streamed(Forwarded(gen.fragments) + [ErrorMarker(gen.end.error)]) && db.sessions == old(db.sessions) && db.messages == old(db.messages))
      && (found.Some? && gen.end.Exhausted? ==>
            && response == Streamed(Forwarded(gen.fragments))
            && db.messages == old(db.messages)
                 + ExchangeRows(body.value.sessionId, body.value.message, Concat(response.chunks), writes)
            && var title := TitleUpdate(found.value.title, body.value.message);
               db.sessions == if writes.title && title.Some?
                 then Retitled(old(db.sessions), body.value.sessionId, None, title.value)
                 else old(db.sessions))
  {
    backendCalls := 0;
    if !Authenticated(user) {
      return Plain(401, "Unauthorized"), 0;
    }
    if body.None? {
      return Plain(500, "Internal Server Error"), 0;
    }
    var userId, sessionId, message := user.value, body.value.sessionId, body.value.message;
    // the stream's start(controller)
    if lookupFault.Some? {
      return Streamed([ErrorMarker(lookupFault.value)]), 0;
    }
    var chatSession := FindOwned(db.sessions, sessionId, userId);
    if chatSession.None? {
      return Streamed([NotFoundBody]), 0;
    }
    backendCalls := 1;
    var enqueued, fullReply := ForwardFragments(gen.fragments);
    if gen.end.Raises? {
      return Streamed(enqueued + [ErrorMarker(gen.end.error)]), backendCalls;
    }
    var maybeTitle := TitleUpdate(chatSession.value.title, message);
    assert sessionId in SessionIds(db.sessions) by {
      var row := chatSession.value;
      var k :| 0 <= k < |db.sessions| && db.sessions[k] == row;
      assert SessionIds(db.sessions)[k] == sessionId;
    }
    PersistExchange(db, sessionId, message, fullReply, maybeTitle, writes);
    response := Streamed(enqueued);
  }
}
