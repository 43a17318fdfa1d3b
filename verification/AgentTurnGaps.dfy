/**
 Empty messages in a conversation that grows by whole turns.

 A turn adds the message of the user, which is empty once a blank one is stripped, and the reply, which
 may be empty too. `TurnsCommuteIff` says for which logs trimming now is harmless whatever turns follow;
 `EmptyRepliesDisagree` is a log whose stored history is not one trim of it.
 */
module AgentTurnGaps {
  import opened Wrappers
  import opened AgentHistory
  import opened AgentHistoryLaws
  import opened AgentSession
  import opened AgentSessionLaws

  /** The number of empty messages among the last `n`. */
  function Gaps(xs: seq<Message>, n: nat): nat {
    if xs == [] || n == 0 then 0
    else Gaps(xs[..|xs| - 1], n - 1) + if Text(xs[|xs| - 1]) == "" then 1 else 0
  }

  lemma GapsLast(older: seq<Message>, m: Message, n: nat)
    requires n > 0
    ensures Gaps(older + [m], n) == Gaps(older, n - 1) + if Text(m) == "" then 1 else 0
  {
    assert (older + [m])[..|older|] == older;
  }

  /** Every empty message looked at costs a place. */
  lemma {:induction false} KeepCounts(xs: seq<Message>, n: nat, room: nat, started: bool)
    ensures |Keep(xs, n, room, started)| + Gaps(xs, n) <= n
    decreases |xs|
  {
    GapsAtMost(xs, n);
    if xs != [] && n > 0 {
      var m, older := xs[|xs| - 1], xs[..|xs| - 1];
      GapsAtMost(older, n - 1);
      if Text(m) == "" {
        KeepCounts(older, n - 1, room, started);
      } else if |Text(m)| < room {
        KeepCounts(older, n - 1, room - |Text(m)|, true);
      }
    }
  }

  lemma {:induction false} GapsAtMost(xs: seq<Message>, n: nat)
    ensures Gaps(xs, n) <= n
  {
    if xs != [] && n > 0 { GapsAtMost(xs[..|xs| - 1], n - 1); }
  }

  lemma {:induction false} NoGaps(xs: seq<Message>, n: nat)
    requires n <= |xs|
    ensures Gaps(xs, n) == 0 <==> NoneEmpty(xs, n)
  {
    if n > 0 {
      var m, older := xs[|xs| - 1], xs[..|xs| - 1];
      NoGaps(older, n - 1);
      assert xs == older + [m];
      if NoneEmpty(xs, n) { NoneEmptyLast(older, m, n); }
      if NoneEmpty(older, n - 1) && Text(m) != "" {
        forall i | |xs| - n <= i < |xs| ensures 0 <= i ==> Text(xs[i]) != "" { assert i < |older| ==> xs[i] == older[i]; }
      }
    }
  }

  lemma {:induction false} GapsOlder(xs: seq<Message>, n: nat)
    requires n < |xs|
    ensures Gaps(xs, n + 1) == Gaps(xs, n) + if Text(xs[|xs| - n - 1]) == "" then 1 else 0
  {
    if n > 0 { GapsOlder(xs[..|xs| - 1], n - 1); }
  }

  // ---------------------------------------------------------------- a reply without text

  /** The only empty message newer than the oldest kept one, if any, is the reply to it. */
  predicate OnlyReplyGap(xs: seq<Message>, n: nat, room: nat) {
    var k := |Bounded(xs, n, room)|;
    k % 2 == 1 && k < |xs| && NoneEmpty(xs, k - 1) && Text(xs[|xs| - k - 1]) != ""
  }

  lemma {:induction false} KeepEnough(ms: seq<Message>, n: nat, n': nat, room: nat, started: bool)
    requires |ms| <= n && |ms| <= n'
    ensures Keep(ms, n, room, started) == Keep(ms, n', room, started)
    decreases |ms|
  {
    if ms != [] {
      var m, older := ms[|ms| - 1], ms[..|ms| - 1];
      KeepEnough(older, n - 1, n' - 1, room, started);
      if |Text(m)| < room { KeepEnough(older, n - 1, n' - 1, room - |Text(m)|, true); }
    }
  }

  /** The newest kept messages are as many as are asked for. */
  lemma {:induction false} KeptFill(xs: seq<Message>, n: nat, room: nat, started: bool, n': nat)
    requires room > 0 && n' <= |Keep(xs, n, room, started)|
    ensures |Keep(Keep(xs, n, room, started), n', room, started)| == n'
    decreases |xs|
  {
    hide Keep;
    var kept := Keep(xs, n, room, started);
    if n' == 0 {
      KeepEnd(kept, n', room, started);
    } else if xs == [] || n == 0 {
      KeepEnd(xs, n, room, started);
    } else {
      var m, older := xs[|xs| - 1], xs[..|xs| - 1];
      var c := Text(m);
      assert xs == older + [m];
      KeepLast(older, m, n, room, started);
      if c == "" {
        KeptFill(older, n - 1, room, started, n');
      } else if |c| < room {
        KeepLast(Keep(older, n - 1, room - |c|, true), Selected(m, c), n', room, started);
        KeptFill(older, n - 1, room - |c|, true, n' - 1);
      } else if kept != [] {
        assert kept == [] + [kept[0]];
        KeepLast([], kept[0], n', room, started);
      }
    }
  }

  /** With such a gap the kept part still answers every query that does not end between the reply and its message. */
  lemma {:induction false} KeepOfKeptReply(xs: seq<Message>, n: nat, room: nat, started: bool, n': nat, room': nat, started': bool)
    requires n' <= n && 0 < room' <= room
    requires started ==> started'
    requires if started' then started || room' < room else room' == room
    requires var k := |Keep(xs, n, room, started)|;
             1 <= k < |xs| && k != n' && NoneEmpty(xs, k - 1) && Text(xs[|xs| - k - 1]) != ""
    ensures Keep(Keep(xs, n, room, started), n', room', started') == Keep(xs, n', room', started')
    decreases |xs|
  {
    hide Keep, NoneEmpty;
    var kept := Keep(xs, n, room, started);
    var m, older := xs[|xs| - 1], xs[..|xs| - 1];
    var c := Text(m);
    assert xs == older + [m];
    if n == 0 { KeepEnd(xs, n, room, started); }
    if n' == 0 {
      KeepEnd(xs, n', room', started');
      KeepEnd(kept, n', room', started');
    } else if |kept| == 1 && c == "" {
      KeepLast(older, m, n, room, started);
      KeepLast(older, m, n', room', started');
      LastNotEmpty(older);
      KeepOfKept(older, n - 1, room, started, n' - 1, room', started');
      KeepEnough(kept, n', n' - 1, room', started');
    } else if |kept| == 1 {
      LastNotEmpty(xs);
      KeepOfKept(xs, n, room, started, n', room', started');
    } else {
      NoneEmptyLast(older, m, |kept| - 1);
      KeepLast(older, m, n, room, started);
      if |c| >= room {
        KeepOfLast(older, m, n, room, started, n', room', started');
      } else {
        if |c| < room' { KeepOfKeptReply(older, n - 1, room - |c|, true, n' - 1, room' - |c|, true); }
        KeepOfKeptStep(older, m, n, room, started, n', room', started');
      }
    }
  }

  lemma LastNotEmpty(xs: seq<Message>)
    requires xs != [] && Text(xs[|xs| - 1]) != ""
    ensures NoneEmpty(xs, 1)
  {
  }

  lemma ReplyGapCommutes(xs: seq<Message>, ys: seq<Message>, n: nat, room: nat)
    requires n > 0 && n % 2 == 0 && |ys| % 2 == 0 && room > 0 && OnlyReplyGap(xs, n, room)
    ensures Bounded(Bounded(xs, n, room) + ys, n, room) == Bounded(xs + ys, n, room)
  {
    hide Keep, NoneEmpty;
    var kept := Bounded(xs, n, room);
    forall n': nat, room': nat, st: bool | n' <= n && n' != |kept| && 0 < room' <= room && (st <==> room' < room)
      ensures Keep(kept, n', room', st) == Keep(xs, n', room', st)
    {
      KeepOfKeptReply(xs, n, room, false, n', room', st);
    }
    SameBelowNewer(kept, xs, ys, n, room, false, n, room, |kept|);
  }

  // ---------------------------------------------------------------- blank turns

  /** A turn of which nothing is left: a blank message, an empty reply. */
  function Blank(): Chat { Chat("", "", "", Reply("", [], [], None), None) }

  function BlankTurns(k: nat): seq<Chat> { seq(k, _ => Blank()) }

  lemma {:induction false} BlankConversation(k: nat)
    ensures |Conversation(BlankTurns(k))| == 2 * k && forall m | m in Conversation(BlankTurns(k)) :: Text(m) == ""
  {
    if k > 0 {
      assert BlankTurns(k)[..k - 1] == BlankTurns(k - 1);
      BlankConversation(k - 1);
    }
  }

  /** Without either condition some blank turns tell the stored history from the log. */
  lemma TurnsDisagree(xs: seq<Message>, n: nat, room: nat)
    requires n > 0 && n % 2 == 0 && room > 0 && !Gapless(xs, n, room) && !OnlyReplyGap(xs, n, room)
    ensures exists j: nat :: var ys := Conversation(BlankTurns(j));
              Bounded(Bounded(xs, n, room) + ys, n, room) != Bounded(xs + ys, n, room)
  {
    hide Keep, NoneEmpty, Conversation, Gaps;
    var kept := Bounded(xs, n, room);
    var k := |kept|;
    KeepCounts(xs, n, room, false);
    NoGaps(xs, k);
    GapIsBelow(xs, n, room);
    if k % 2 == 0 {
      TurnsDisagreeAt(xs, n, room, k);
    } else {
      NoGaps(xs, k - 1);
      GapsOlder(xs, k - 1);
      GapsOlder(xs, k);
      TurnsDisagreeAt(xs, n, room, if Gaps(xs, k - 1) > 0 then k - 1 else k + 1);
    }
  }

  /** A gap leaves fewer messages kept than there are. */
  lemma GapIsBelow(xs: seq<Message>, n: nat, room: nat)
    requires !Gapless(xs, n, room)
    ensures 0 < |Bounded(xs, n, room)| < |xs|
  {
    hide Keep;
    var k := |Bounded(xs, n, room)|;
    var i :| |xs| - k <= i < |xs| && 0 <= i && Text(xs[i]) == "";
    if k == |xs| {
      KeepCounts(xs, n, room, false);
      KeepEnough(xs, n, k, room, false);
      KeepCounts(xs, k, room, false);
      NoGaps(xs, k);
    }
  }

  /** Room for `n'` messages is where the kept part has more to show than the log. */
  lemma TurnsDisagreeAt(xs: seq<Message>, n: nat, room: nat, n': nat)
    requires n % 2 == 0 && n' % 2 == 0 && n' <= n && room > 0
    requires var k := |Bounded(xs, n, room)|; n' - Gaps(xs, n') < if n' < k then n' else k
    ensures exists j: nat :: var ys := Conversation(BlankTurns(j));
              Bounded(Bounded(xs, n, room) + ys, n, room) != Bounded(xs + ys, n, room)
  {
    hide Keep, Conversation, Gaps, BlankTurns;
    var kept, j := Bounded(xs, n, room), (n - n') / 2;
    var ys := Conversation(BlankTurns(j));
    BlankConversation(j);
    KeepUnderEmpty(kept, ys, n, room);
    KeepUnderEmpty(xs, ys, n, room);
    KeepCounts(xs, n', room, false);
    if n' < |kept| {
      KeptFill(xs, n, room, false, n');
    } else {
      KeepStable(xs, n, room, false, n');
    }
    assert Bounded(kept + ys, n, room) != Bounded(xs + ys, n, room);
  }

  lemma {:induction false} ConversationMore(log: seq<Chat>, more: seq<Chat>)
    ensures Conversation(log + more) == Conversation(log) + Conversation(more)
    ensures |Conversation(more)| == 2 * |more|
  {
    if more == [] {
      assert log + more == log;
    } else {
      var earlier, c := more[..|more| - 1], more[|more| - 1];
      assert (log + more)[..|log + more| - 1] == log + earlier;
      ConversationMore(log, earlier);
    }
  }

  /** Trimming the conversation now agrees with the log on whatever turns follow. */
  ghost predicate TrimsForGood(log: seq<Chat>) {
    forall more: seq<Chat> ::
      Bounded(Bounded(Conversation(log), MAX_SESSION_MESSAGES, MAX_HISTORY_CHARACTERS) + Conversation(more),
              MAX_SESSION_MESSAGES, MAX_HISTORY_CHARACTERS)
      == Bounded(Conversation(log + more), MAX_SESSION_MESSAGES, MAX_HISTORY_CHARACTERS)
  }

  /**
   The stored history answers for the log after every further turns if and only if no empty message is
   newer than the oldest kept one, save the reply to it.
   */
  lemma TurnsCommuteIff(log: seq<Chat>)
    ensures TrimsForGood(log) <==>
              || Gapless(Conversation(log), MAX_SESSION_MESSAGES, MAX_HISTORY_CHARACTERS)
              || OnlyReplyGap(Conversation(log), MAX_SESSION_MESSAGES, MAX_HISTORY_CHARACTERS)
  {
    hide Bounded, Gapless, OnlyReplyGap, Conversation;
    var xs := Conversation(log);
    forall more: seq<Chat> ensures Conversation(log + more) == xs + Conversation(more) && |Conversation(more)| % 2 == 0 {
      ConversationMore(log, more);
    }
    if Gapless(xs, MAX_SESSION_MESSAGES, MAX_HISTORY_CHARACTERS) {
      forall more: seq<Chat> { GaplessCommutes(xs, Conversation(more), MAX_SESSION_MESSAGES, MAX_HISTORY_CHARACTERS); }
    } else if OnlyReplyGap(xs, MAX_SESSION_MESSAGES, MAX_HISTORY_CHARACTERS) {
      forall more: seq<Chat> { ReplyGapCommutes(xs, Conversation(more), MAX_SESSION_MESSAGES, MAX_HISTORY_CHARACTERS); }
    } else {
      TurnsDisagree(xs, MAX_SESSION_MESSAGES, MAX_HISTORY_CHARACTERS);
    }
  }

  /** The stored history is one trim of the log as long as that condition held before every turn. */
  lemma {:induction false} StoredWhileSafe(log: seq<Chat>)
    requires forall i | 0 <= i < |log| ::
               || Gapless(Conversation(log[..i]), MAX_SESSION_MESSAGES, MAX_HISTORY_CHARACTERS)
               || OnlyReplyGap(Conversation(log[..i]), MAX_SESSION_MESSAGES, MAX_HISTORY_CHARACTERS)
    ensures Trimmed(log) == Bounded(Conversation(log), MAX_SESSION_MESSAGES, MAX_HISTORY_CHARACTERS)
  {
    hide Bounded, Gapless, OnlyReplyGap, Conversation;
    if log == [] {
      NothingSaid();
    } else {
      var older, c := log[..|log| - 1], log[|log| - 1];
      forall i | 0 <= i < |older| ensures older[..i] == log[..i] {}
      StoredWhileSafe(older);
      assert log[..|log| - 1] == older && older + [c] == log;
      TurnsCommuteIff(older);
      OneTurn(c);
    }
  }

  lemma NothingSaid()
    ensures Conversation([]) == [] && Bounded([], MAX_SESSION_MESSAGES, MAX_HISTORY_CHARACTERS) == []
  {
  }

  lemma OneTurn(c: Chat)
    ensures Conversation([c]) == Messages(c)
  {
    assert [c][..0] == [] && [] + Messages(c) == Messages(c);
  }

  // ---------------------------------------------------------------- a log whose stored history differs

  /** A turn with a message and an empty reply. */
  function Mute(): Chat { Chat("", "", "m", Reply("", [], [], None), None) }

  function Mutes(k: nat): seq<Chat> { seq(k, _ => Mute()) }

  function Ms(k: nat): seq<Message> { seq(k, _ => Message(Some("user"), Some("m"), [])) }

  lemma {:induction false} KeepMs(k: nat, n: nat, room: nat, started: bool)
    requires k <= n && k < room
    ensures Keep(Ms(k), n, room, started) == Ms(k)
  {
    if k > 0 {
      assert Ms(k)[..k - 1] == Ms(k - 1);
      KeepMs(k - 1, n - 1, room - 1, true);
    }
  }

  lemma {:induction false} TrimmedMutes(k: nat)
    requires k < MAX_SESSION_MESSAGES
    ensures Trimmed(Mutes(k)) == Ms(k)
  {
    hide Keep;
    if k > 0 {
      assert Mutes(k)[..k - 1] == Mutes(k - 1);
      TrimmedMutes(k - 1);
      var reply := Messages(Mute())[1];
      assert Ms(k - 1) + Messages(Mute()) == Ms(k) + [reply];
      KeepLast(Ms(k), reply, MAX_SESSION_MESSAGES, MAX_HISTORY_CHARACTERS, false);
      KeepMs(k, MAX_SESSION_MESSAGES - 1, MAX_HISTORY_CHARACTERS, false);
    }
  }

  lemma {:induction false} GapsOfMutes(k: nat, n: nat)
    requires n <= k
    ensures Gaps(Conversation(Mutes(k)), 2 * n) == n
  {
    hide Gaps, Conversation;
    if n == 0 {
      NoGapsAsked(Conversation(Mutes(k)));
    } else {
      var older, mute := Conversation(Mutes(k - 1)), Messages(Mute());
      MutesMore(k - 1);
      GapsLast(older + [mute[0]], mute[1], 2 * n);
      GapsLast(older, mute[0], 2 * n - 1);
      GapsOfMutes(k - 1, n - 1);
    }
  }

  lemma NoGapsAsked(xs: seq<Message>)
    ensures Gaps(xs, 0) == 0
  {
  }

  lemma MutesMore(k: nat)
    ensures Conversation(Mutes(k + 1)) == (Conversation(Mutes(k)) + [Messages(Mute())[0]]) + [Messages(Mute())[1]]
  {
    assert Mutes(k + 1)[..k] == Mutes(k);
  }

  /** After eleven turns without a reply text the stored history holds eleven messages, one trim of the log ten. */
  lemma EmptyRepliesDisagree()
    ensures var log := Mutes(11);
            && |Trimmed(log)| == 11
            && |Bounded(Conversation(log), MAX_SESSION_MESSAGES, MAX_HISTORY_CHARACTERS)| <= 10
  {
    hide Keep, Gaps, Trimmed, Conversation;
    TrimmedMutes(11);
    GapsOfMutes(11, 10);
    KeepCounts(Conversation(Mutes(11)), MAX_SESSION_MESSAGES, MAX_HISTORY_CHARACTERS, false);
  }
}
