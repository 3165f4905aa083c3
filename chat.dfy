/** The mentor chat: `send()` of `ChatPage` in `App.jsx`, `MentorChat` in `final.js` and `Chat` in `t.js`. */
module Chat {
  import opened Text

  datatype Sender = Me | Mentor

  /** One chat line; the id is supplied by the caller (`uid("m")` or `Date.now()`). */
  datatype Message = Message(id: nat, from: Sender, text: string)

  /** The messages after `send()` with the current draft: a blank draft sends nothing, any other
      draft is appended verbatim, untrimmed, as the user's own message. */
  function AfterSend(messages: seq<Message>, draft: string, id: nat): seq<Message> {
    if Blank(draft) then messages else messages + [Message(id, Me, draft)]
  }

  /** A draft made only of white space (or empty) leaves the conversation unchanged. */
  lemma SendBlank(messages: seq<Message>, draft: string, id: nat)
    requires AllSpace(draft)
    ensures AfterSend(messages, draft, id) == messages
  {
    BlankIff(draft);
  }

  /** A draft with one visible character is appended whole, spaces included, from the user. */
  lemma SendVisible(messages: seq<Message>, draft: string, id: nat, k: int)
    requires 0 <= k < |draft| && !IsSpace(draft[k])
    ensures AfterSend(messages, draft, id) == messages + [Message(id, Me, draft)]
  {
    BlankIff(draft);
  }

  /** Sending never rewrites history: the old messages stay a prefix and at most one is added. */
  lemma SendAppendsOnly(messages: seq<Message>, draft: string, id: nat)
    ensures |messages| <= |AfterSend(messages, draft, id)| <= |messages| + 1
    ensures AfterSend(messages, draft, id)[..|messages|] == messages
  {
  }

  /** The chat component: its message list and the draft in the text box. */
  class ChatPanel {
    var messages: seq<Message>
    var draft: string

    /** The two seeded messages, and an empty draft. */
    constructor (seeded: seq<Message>)
      ensures messages == seeded && draft == ""
    {
      messages := seeded;
      draft := "";
    }

    /** Typing into the box: `setText(e.target.value)`. */
    method Type(value: string)
      modifies this
      ensures draft == value && messages == old(messages)
    {
      draft := value;
    }

    /** `send()`: a blank draft is kept as typed; otherwise the draft is sent and the box cleared.
        The mentor's reply, scheduled with a timer, is not modelled. */
    method Send(id: nat)
      modifies this
      ensures messages == AfterSend(old(messages), old(draft), id)
      ensures draft == if Blank(old(draft)) then old(draft) else ""
    {
      if Blank(draft) {
        return;
      }
      messages := messages + [Message(id, Me, draft)];
      draft := "";
    }
  }
}
