/** `chat2text`: the chat history rendered as one line per message,
    `[time] @user: text`, joined by newlines. */
module ChatText {
  import opened Values
  import opened Text
  import opened Models

  const LineSeparator := "\n"

  /** The line for one message; a missing text renders as the empty string and
      the text is stripped of surrounding whitespace. */
  function Line(m: Message, formatTime: Timestamp -> string, user: string -> string): string {
    "[" + formatTime(m.timestamp) + "] @" + user(m.senderJid) + ": " + Strip(TextOr(m.text))
  }

  /** The lines of a history, in history order. */
  function Lines(history: seq<Message>, formatTime: Timestamp -> string, user: string -> string): (lines: seq<string>)
    ensures |lines| == |history|
    ensures forall i | 0 <= i < |history| :: lines[i] == Line(history[i], formatTime, user)
  {
    seq(|history|, i requires 0 <= i < |history| => Line(history[i], formatTime, user))
  }

  /** The text `chat2text` returns. */
  function Render(history: seq<Message>, formatTime: Timestamp -> string, user: string -> string): string {
    Join(Lines(history, formatTime, user), LineSeparator)
  }

  /** `chat2text`: the loop that collects one formatted line per message, then the join. */
  method Chat2Text(history: seq<Message>, formatTime: Timestamp -> string, user: string -> string)
    returns (text: string)
    ensures text == Render(history, formatTime, user)
  {
    var formatted: seq<string> := [];
    for i := 0 to |history|
      invariant formatted == Lines(history[..i], formatTime, user)
    {
      assert history[..i + 1] == history[..i] + [history[i]];
      formatted := formatted + [Line(history[i], formatTime, user)];
    }
    assert history[..|history|] == history;
    text := Join(formatted, LineSeparator);
  }

  /** An empty history renders as the empty string. */
  lemma EmptyHistory(formatTime: Timestamp -> string, user: string -> string)
    ensures Render([], formatTime, user) == ""
  {
  }

  /** When no rendered line contains a newline, splitting the text on newlines
      gives back exactly one line per message, in history order. */
  lemma OneLinePerMessage(history: seq<Message>, formatTime: Timestamp -> string, user: string -> string)
    requires |history| >= 1
    requires forall i | 0 <= i < |history| :: !Contains(Line(history[i], formatTime, user), LineSeparator)
    ensures SplitOn(Render(history, formatTime, user), LineSeparator) == Lines(history, formatTime, user)
    ensures forall i | 0 <= i < |history| ::
      SplitOn(Render(history, formatTime, user), LineSeparator)[i]
        == "[" + formatTime(history[i].timestamp) + "] @" + user(history[i].senderJid) + ": " + Strip(TextOr(history[i].text))
  {
    SplitJoin(Lines(history, formatTime, user), LineSeparator);
  }

  /** Every message's line appears in the rendered history. */
  lemma EveryLineRendered(history: seq<Message>, formatTime: Timestamp -> string, user: string -> string, i: nat)
    requires i < |history|
    ensures Contains(Render(history, formatTime, user), Line(history[i], formatTime, user))
  {
    JoinContainsParts(Lines(history, formatTime, user), LineSeparator, i);
  }

  /** A message without text renders with an empty body. */
  lemma MissingTextRendersEmpty(m: Message, formatTime: Timestamp -> string, user: string -> string)
    requires m.text.None?
    ensures Line(m, formatTime, user) == "[" + formatTime(m.timestamp) + "] @" + user(m.senderJid) + ": "
  {
    assert Strip("") == "";
  }
}
