/**
 * Flattening a Gradio chat history into role-tagged messages: every
 * conversation is a list of messages, some of them missing; a message's
 * position in its conversation decides whether the user or the assistant
 * said it, and missing messages are dropped after their position counted.
 */
module ChatHistory {
  import opened Wrappers
  import opened Strings

  /** The `{"role": ..., "content": ...}` record handed to the chat model. */
  datatype Message<T> = Message(role: string, content: T)

  /** Even positions are the user's, odd positions the assistant's. */
  function Role(i: nat): string {
    if i % 2 == 0 then "user" else "assistant"
  }

  /** The record made for the message at position `i`, or none when it is missing. */
  function Entry<T>(i: nat, message: Option<T>): seq<Message<T>> {
    if message.Some? then [Message(Role(i), message.value)] else []
  }

  /** The records of one conversation, in order: `enumerate` with the `is not None` filter. */
  function Messages<T>(conversation: seq<Option<T>>): seq<Message<T>> {
    if conversation == [] then []
    else
      var n := |conversation| - 1;
      Messages(conversation[..n]) + Entry(n, conversation[n])
  }

  /** `format_history`: the conversations' records, one conversation after another. */
  function FormatHistory<T>(history: seq<seq<Option<T>>>): seq<Message<T>> {
    if history == [] then []
    else
      var n := |history| - 1;
      FormatHistory(history[..n]) + Messages(history[n])
  }

  /** The number of messages that are present. */
  function CountPresent<T>(conversation: seq<Option<T>>): nat {
    if conversation == [] then 0
    else
      var n := |conversation| - 1;
      CountPresent(conversation[..n]) + (if conversation[n].Some? then 1 else 0)
  }

  /** The number of present messages over all conversations. */
  function TotalPresent<T>(history: seq<seq<Option<T>>>): nat {
    if history == [] then 0
    else
      var n := |history| - 1;
      TotalPresent(history[..n]) + CountPresent(history[n])
  }

  /** A conversation yields one record per present message. */
  lemma {:induction false} MessagesLength<T>(conversation: seq<Option<T>>)
    ensures |Messages(conversation)| == CountPresent(conversation)
    decreases |conversation|
  {
    if conversation != [] {
      MessagesLength(conversation[..|conversation| - 1]);
    }
  }

  /** The history yields one record per present message of any conversation. */
  lemma {:induction false} HistoryLength<T>(history: seq<seq<Option<T>>>)
    ensures |FormatHistory(history)| == TotalPresent(history)
    decreases |history|
  {
    if history != [] {
      HistoryLength(history[..|history| - 1]);
      MessagesLength(history[|history| - 1]);
    }
  }

  /**
   * The present message at position `i` becomes the record right after the
   * records of the present messages before it, tagged by the parity of `i`
   * itself: missing messages before it still count toward its position.
   */
  lemma {:induction false} MessageAt<T>(conversation: seq<Option<T>>, i: nat)
    requires i < |conversation| && conversation[i].Some?
    ensures CountPresent(conversation[..i]) < |Messages(conversation)|
    ensures Messages(conversation)[CountPresent(conversation[..i])] == Message(Role(i), conversation[i].value)
    decreases |conversation|
  {
    var n := |conversation| - 1;
    var front := conversation[..n];
    MessagesLength(front);
    if i < n {
      assert front[..i] == conversation[..i];
      MessageAt(front, i);
    } else {
      assert front == conversation[..i];
    }
  }

  /**
   * Every record comes from a present message of the conversation, with that
   * message unchanged as its content and the role of that message's position.
   */
  lemma {:induction false} MessageSource<T>(conversation: seq<Option<T>>, k: nat)
    requires k < |Messages(conversation)|
    ensures exists i ::
      0 <= i < |conversation| && conversation[i] == Some(Messages(conversation)[k].content)
      && Messages(conversation)[k].role == Role(i)
    decreases |conversation|
  {
    var n := |conversation| - 1;
    var front := conversation[..n];
    if k < |Messages(front)| {
      MessageSource(front, k);
      var i :| 0 <= i < |front| && front[i] == Some(Messages(front)[k].content) && Messages(front)[k].role == Role(i);
      assert conversation[i] == front[i];
    } else {
      assert conversation[n] == Some(Messages(conversation)[k].content);
    }
  }

  /** With no message missing, record `i` is message `i` with the role of position `i`. */
  lemma {:induction false} AllPresent<T>(conversation: seq<Option<T>>)
    requires forall i :: 0 <= i < |conversation| ==> conversation[i].Some?
    ensures |Messages(conversation)| == |conversation|
    ensures forall i :: 0 <= i < |conversation| ==> Messages(conversation)[i] == Message(Role(i), conversation[i].value)
    decreases |conversation|
  {
    if conversation != [] {
      var n := |conversation| - 1;
      AllPresent(conversation[..n]);
    }
  }

  /** The history's records keep the conversations' order. */
  lemma {:induction false} HistoryAppend<T>(h1: seq<seq<Option<T>>>, h2: seq<seq<Option<T>>>)
    ensures FormatHistory(h1 + h2) == FormatHistory(h1) + FormatHistory(h2)
    decreases |h2|
  {
    if h2 == [] {
      assert h1 + h2 == h1;
    } else {
      var n := |h2| - 1;
      SnocConcat(h1, h2);
      HistoryAppend(h1, h2[..n]);
      SeqAssoc(FormatHistory(h1), FormatHistory(h2[..n]), Messages(h2[n]));
    }
  }

  /** A history of one conversation is that conversation's records. */
  lemma SingleConversation<T>(conversation: seq<Option<T>>)
    ensures FormatHistory([conversation]) == Messages(conversation)
  {
    assert [conversation][..0] == [];
  }

  /**
   * A missing reply does not shift the roles: in `hi`, `hello`, (missing),
   * `bye`, the last message sits at the odd position 3 and is the
   * assistant's, and the next conversation starts again with the user.
   */
  lemma MissingReplyKeepsRoles()
    ensures FormatHistory([[Some("hi"), Some("hello"), None, Some("bye")], [Some("again")]])
      == [Message("user", "hi"), Message("assistant", "hello"), Message("assistant", "bye"), Message("user", "again")]
  {
    var c1: seq<Option<string>> := [Some("hi"), Some("hello"), None, Some("bye")];
    var c2: seq<Option<string>> := [Some("again")];
    assert c1[..3][..2][..1][..0] == [];
    assert Messages(c1[..3][..2][..1]) == [Message("user", "hi")];
    assert Messages(c1[..3][..2]) == [Message("user", "hi"), Message("assistant", "hello")];
    assert Messages(c1[..3]) == Messages(c1[..3][..2]);
    assert Messages(c1) == [Message("user", "hi"), Message("assistant", "hello"), Message("assistant", "bye")];
    assert c2[..0] == [];
    assert Messages(c2) == [Message("user", "again")];
    HistoryAppend([c1], [c2]);
    SingleConversation(c1);
    SingleConversation(c2);
    assert [c1] + [c2] == [c1, c2];
  }
}
