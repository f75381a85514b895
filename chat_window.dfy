/** The chat window's own state: the text being typed, the reply streamed
    so far and the typing flag, with the submit handler that moves them
    through a send, and the conditions under which the typing dots, the
    input preview and the streaming bubble are shown. */
module ChatWindow {

  import opened Wrappers
  import opened Text
  import opened Protocol

  class Window {
    var input: string
    var streamingReply: string
    var isTyping: bool

    constructor()
      ensures input == "" && streamingReply == "" && !isTyping
    {
      input, streamingReply, isTyping := "", "", false;
    }

    /** The bouncing dots before the first chunk. */
    predicate ShowsTypingDots()
      reads this
    {
      isTyping && streamingReply == ""
    }

    /** The faded preview of what is being typed. */
    predicate ShowsInputPreview()
      reads this
    {
      Trim(input) != ""
    }

    /** The assistant bubble with the reply streamed so far. */
    predicate ShowsStreamingBubble()
      reads this
    {
      streamingReply != ""
    }

    /** The dots and the streaming bubble never show together: the dots
        give way to the bubble with the first chunk. */
    lemma DotsGiveWayToBubble()
      ensures !(ShowsTypingDots() && ShowsStreamingBubble())
      ensures isTyping ==> (ShowsTypingDots() || ShowsStreamingBubble())
    {
    }

    /** The textarea's `onChange`. */
    method Edit(text: string)
      modifies this
      ensures input == text
      ensures streamingReply == old(streamingReply) && isTyping == old(isTyping)
    {
      input := text;
    }

    /** `handleSubmit` up to the call of `onSend`: blank input is ignored;
        otherwise the untrimmed input is what will be sent, the box is
        cleared and the dots appear. */
    method BeginSubmit() returns (sent: Option<string>)
      modifies this
      ensures Trim(old(input)) == "" ==>
        sent == None && input == old(input) && streamingReply == old(streamingReply) && isTyping == old(isTyping)
      ensures Trim(old(input)) != "" ==>
        && sent == Some(old(input)) && input == "" && streamingReply == "" && isTyping
        && ShowsTypingDots() && !ShowsStreamingBubble() && !ShowsInputPreview()
    {
      if Trim(input) == "" {
        return None;
      }
      sent := Some(input);
      input := "";
      streamingReply := "";
      isTyping := true;
    }

    /** The `onStreamUpdate` callback passed to `onSend`. */
    method OnStreamUpdate(chunk: string)
      modifies this
      ensures streamingReply == old(streamingReply) + chunk
      ensures input == old(input) && isTyping == old(isTyping)
      ensures chunk != "" ==> ShowsStreamingBubble() && !ShowsTypingDots()
    {
      streamingReply := streamingReply + chunk;
    }

    /** `handleSubmit` after `onSend` ends: the `finally` clears the typing
        flag either way; the streamed text is dropped only when `onSend`
        resolved, since a rejection leaves the handler before that line. */
    method FinishSubmit(settled: Settled)
      modifies this
      ensures !isTyping && !ShowsTypingDots()
      ensures streamingReply == (if settled == Resolved then "" else old(streamingReply))
      ensures input == old(input)
    {
      isTyping := false;
      if settled == Resolved {
        streamingReply := "";
      }
    }

    /** A whole submit with `onSend` passing on `updates` and then ending as
        `settled`: the streamed text is always the concatenation of the
        updates so far, and what is left at the end is that concatenation
        after a rejection and nothing after a resolution. */
    method HandleSubmit(updates: seq<string>, settled: Settled) returns (sent: Option<string>)
      modifies this
      ensures Trim(old(input)) == "" ==>
        sent == None && input == old(input) && streamingReply == old(streamingReply) && isTyping == old(isTyping)
      ensures Trim(old(input)) != "" ==>
        && sent == Some(old(input)) && input == "" && !isTyping
        && streamingReply == (if settled == Resolved then "" else Concat(updates))
    {
      sent := BeginSubmit();
      if sent.None? {
        return;
      }
      var k := 0;
      while k < |updates|
        invariant 0 <= k <= |updates|
        invariant streamingReply == Concat(updates[..k])
        invariant input == "" && isTyping
      {
        assert updates[..k + 1][..k] == updates[..k];
        OnStreamUpdate(updates[k]);
        k := k + 1;
      }
      assert updates[..k] == updates;
      FinishSubmit(settled);
    }
  }
}
