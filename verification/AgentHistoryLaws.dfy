/** When trimming the stored history is as good as trimming the full log. */
module AgentHistoryLaws {
  import opened Wrappers
  import opened AgentHistory

  /** No empty message is newer than the oldest kept one. */
  predicate Gapless(xs: seq<Message>, n: nat, room: nat) {
    NoneEmpty(xs, |Bounded(xs, n, room)|)
  }

  /** None of the last `k` messages is empty. */
  predicate NoneEmpty(xs: seq<Message>, k: nat) {
    forall i | |xs| - k <= i < |xs| :: 0 <= i ==> Text(xs[i]) != ""
  }

  lemma NoneEmptyNone(xs: seq<Message>)
    ensures NoneEmpty(xs, 0)
  {
  }

  lemma NoneEmptyLast(older: seq<Message>, m: Message, k: nat)
    requires NoneEmpty(older + [m], k) && k > 0
    ensures Text(m) != "" && NoneEmpty(older, k - 1)
  {
    assert (older + [m])[|older|] == m;
    forall i | |older| - (k - 1) <= i < |older| ensures 0 <= i ==> Text(older[i]) != "" {
      assert 0 <= i ==> (older + [m])[i] == older[i];
    }
  }

  /**
   The kept part of `xs` answers every later, tighter query as `xs` itself does. The tighter budgets
   are those a newer part of the history leaves over.
   */
  lemma {:induction false} KeepOfKept(xs: seq<Message>, n: nat, room: nat, started: bool, n': nat, room': nat, started': bool)
    requires n' <= n && 0 < room' <= room
    requires started ==> started'
    requires if started' then started || room' < room else room' == room
    requires NoneEmpty(xs, |Keep(xs, n, room, started)|)
    ensures Keep(Keep(xs, n, room, started), n', room', started') == Keep(xs, n', room', started')
    decreases |xs|
  {
    hide Keep, NoneEmpty;
    var kept := Keep(xs, n, room, started);
    if xs == [] || n == 0 || n' == 0 {
      KeepEnd(xs, n', room', started');
      if n' != 0 { KeepEnd(xs, n, room, started); }
      KeepEnd(kept, n', room', started');
    } else {
      var m, older := xs[|xs| - 1], xs[..|xs| - 1];
      var c := Text(m);
      assert xs == older + [m];
      KeepLast(older, m, n, room, started);
      if c == "" {
        KeepLast(older, m, n', room', started');
        if kept != [] { NoneEmptyLast(older, m, |kept|); }
        NoneEmptyNone(older);
        KeepOfKept(older, n - 1, room, started, n' - 1, room', started');
        KeepEnd([], n', room', started');
        KeepEnd([], n' - 1, room', started');
      } else if |c| >= room {
        KeepOfLast(older, m, n, room, started, n', room', started');
      } else {
        NoneEmptyLast(older, m, |kept|);
        if |c| < room' { KeepOfKept(older, n - 1, room - |c|, true, n' - 1, room' - |c|, true); }
        KeepOfKeptStep(older, m, n, room, started, n', room', started');
      }
    }
  }

  /** One kept message further: what agrees on the older part agrees with it. */
  lemma KeepOfKeptStep(older: seq<Message>, m: Message, n: nat, room: nat, started: bool, n': nat, room': nat, started': bool)
    requires 0 < n' <= n && 0 < room' <= room && 0 < |Text(m)| < room
    requires if started' then started || room' < room else room' == room
    requires |Text(m)| < room' ==>
               Keep(Keep(older, n - 1, room - |Text(m)|, true), n' - 1, room' - |Text(m)|, true) == Keep(older, n' - 1, room' - |Text(m)|, true)
    ensures Keep(Keep(older + [m], n, room, started), n', room', started') == Keep(older + [m], n', room', started')
  {
    hide Keep;
    var c := Text(m);
    KeepLast(older, m, n, room, started);
    KeepLast(older, m, n', room', started');
    KeepLast(Keep(older, n - 1, room - |c|, true), Selected(m, c), n', room', started');
  }

  /** A newest message that uses up the room ends both queries. */
  lemma KeepOfLast(older: seq<Message>, m: Message, n: nat, room: nat, started: bool, n': nat, room': nat, started': bool)
    requires 0 < n' <= n && 0 < room' <= room <= |Text(m)|
    requires started ==> started'
    requires if started' then started || room' < room else room' == room
    ensures Keep(Keep(older + [m], n, room, started), n', room', started') == Keep(older + [m], n', room', started')
  {
    hide Keep;
    var kept := Keep(older + [m], n, room, started);
    KeepLast(older, m, n, room, started);
    KeepLast(older, m, n', room', started');
    if kept == [] {
      KeepEnd(kept, n', room', started');
    } else {
      assert kept == [] + [kept[0]];
      KeepLast([], kept[0], n', room', started');
    }
  }

  /** Trimming what was trimmed with the same budgets, or more messages, changes nothing. */
  lemma {:induction false} KeepStable(xs: seq<Message>, n: nat, room: nat, started: bool, n': nat)
    requires room > 0 && n' >= |Keep(xs, n, room, started)|
    ensures Keep(Keep(xs, n, room, started), n', room, started) == Keep(xs, n, room, started)
    decreases |xs|
  {
    hide Keep;
    var kept := Keep(xs, n, room, started);
    if xs == [] || n == 0 {
      KeepEnd(xs, n, room, started);
      KeepEnd(kept, n', room, started);
    } else {
      var m, older := xs[|xs| - 1], xs[..|xs| - 1];
      var c := Text(m);
      assert xs == older + [m];
      KeepLast(older, m, n, room, started);
      if c == "" {
        KeepStable(older, n - 1, room, started, n');
      } else if |c| < room {
        KeepLast(Keep(older, n - 1, room - |c|, true), Selected(m, c), n', room, started);
        KeepStable(older, n - 1, room - |c|, true, n' - 1);
      } else if kept != [] {
        assert kept == [] + [kept[0]];
        KeepLast([], kept[0], n', room, started);
      } else {
        KeepEnd([], n', room, started);
      }
    }
  }

  /** An empty message inside the window costs a place. */
  lemma {:induction false} EmptyCostsPlace(xs: seq<Message>, n: nat, room: nat, started: bool, i: nat)
    requires |xs| - n <= i < |xs| && Text(xs[i]) == ""
    ensures |Keep(xs, n, room, started)| < n
    decreases |xs|
  {
    hide Keep;
    var c := Text(xs[|xs| - 1]);
    assert xs == xs[..|xs| - 1] + [xs[|xs| - 1]];
    KeepLast(xs[..|xs| - 1], xs[|xs| - 1], n, room, started);
    if i < |xs| - 1 && 0 < |c| < room {
      EmptyCostsPlace(xs[..|xs| - 1], n - 1, room - |c|, true, i);
    } else if i < |xs| - 1 && c == "" {
      EmptyCostsPlace(xs[..|xs| - 1], n - 1, room, started, i);
    }
  }

  /**
   Newer messages are read first, from either history alike. The older histories need not agree on
   looking at `skip` messages when the newer ones never leave over that many.
   */
  lemma {:induction false} SameBelowNewer(xs: seq<Message>, ys: seq<Message>, zs: seq<Message>, n: nat, room: nat, started: bool,
                                          n0: nat, room0: nat, skip: int)
    requires 0 < room <= room0 && n <= n0 && (started <==> room < room0) && (skip >= 0 ==> n - |zs| != skip)
    requires forall n': nat, room': nat, st: bool | n' <= n0 && n' != skip && 0 < room' <= room0 && (st <==> room' < room0) ::
               Keep(xs, n', room', st) == Keep(ys, n', room', st)
    ensures Keep(xs + zs, n, room, started) == Keep(ys + zs, n, room, started)
    decreases |zs|
  {
    hide Keep;
    if zs == [] {
      assert xs + zs == xs && ys + zs == ys;
    } else if n > 0 {
      var m, older := zs[|zs| - 1], zs[..|zs| - 1];
      assert xs + zs == (xs + older) + [m] && ys + zs == (ys + older) + [m];
      KeepLast(xs + older, m, n, room, started);
      KeepLast(ys + older, m, n, room, started);
      if Text(m) == "" {
        SameBelowNewer(xs, ys, older, n - 1, room, started, n0, room0, skip);
      } else if |Text(m)| < room {
        SameBelowNewer(xs, ys, older, n - 1, room - |Text(m)|, true, n0, room0, skip);
      }
    } else {
      KeepEnd(xs + zs, n, room, started);
      KeepEnd(ys + zs, n, room, started);
    }
  }

  lemma GaplessCommutes(xs: seq<Message>, ys: seq<Message>, n: nat, room: nat)
    requires n > 0 && room > 0 && Gapless(xs, n, room)
    ensures Bounded(Bounded(xs, n, room) + ys, n, room) == Bounded(xs + ys, n, room)
  {
    hide Keep;
    forall n': nat, room': nat, st: bool | n' <= n && 0 < room' <= room && (st <==> room' < room)
      ensures Keep(Bounded(xs, n, room), n', room', st) == Keep(xs, n', room', st)
    {
      KeepOfKept(xs, n, room, false, n', room', st);
    }
    SameBelowNewer(Bounded(xs, n, room), xs, ys, n, room, false, n, room, -1);
  }

  /** `k` messages without content. */
  function Blanks(k: nat): seq<Message> {
    seq(k, _ => Message(None, None, []))
  }

  /** Empty messages on top only use up places. */
  lemma {:induction false} KeepUnderEmpty(xs: seq<Message>, zs: seq<Message>, n: nat, room: nat)
    requires |zs| <= n && forall m | m in zs :: Text(m) == ""
    ensures Keep(xs + zs, n, room, false) == Keep(xs, n - |zs|, room, false)
    decreases |zs|
  {
    hide Keep;
    if zs == [] {
      assert xs + zs == xs;
    } else {
      var m, older := zs[|zs| - 1], zs[..|zs| - 1];
      assert xs + zs == (xs + older) + [m];
      KeepLast(xs + older, m, n, room, false);
      KeepUnderEmpty(xs, older, n - 1, room);
    }
  }

  /** After a gap there is a continuation on which the stored history and the log disagree. */
  lemma GapDisagrees(xs: seq<Message>, n: nat, room: nat)
    requires n > 0 && room > 0 && !Gapless(xs, n, room)
    ensures var ys := Blanks(n - |Bounded(xs, n, room)|);
            Bounded(Bounded(xs, n, room) + ys, n, room) != Bounded(xs + ys, n, room)
  {
    var kept := Bounded(xs, n, room);
    hide Keep;
    var i :| |xs| - |kept| <= i < |xs| && Text(xs[i]) == "";
    KeepUnderEmpty(kept, Blanks(n - |kept|), n, room);
    KeepUnderEmpty(xs, Blanks(n - |kept|), n, room);
    KeepStable(xs, n, room, false, |kept|);
    EmptyCostsPlace(xs, |kept|, room, false, i);
  }

  /** Trimming first is harmless for every continuation if and only if the kept part has no gap. */
  lemma TrimCommutes(xs: seq<Message>, n: nat, room: nat)
    requires n > 0 && room > 0
    ensures (forall ys :: Bounded(Bounded(xs, n, room) + ys, n, room) == Bounded(xs + ys, n, room)) <==> Gapless(xs, n, room)
  {
    if Gapless(xs, n, room) {
      forall ys ensures Bounded(Bounded(xs, n, room) + ys, n, room) == Bounded(xs + ys, n, room) {
        GaplessCommutes(xs, ys, n, room);
      }
    } else {
      GapDisagrees(xs, n, room);
    }
  }

  function Characters(ms: seq<Message>): nat {
    if ms == [] then 0 else Characters(ms[..|ms| - 1]) + |Text(ms[|ms| - 1])|
  }

  /** Messages as they are stored: role and content set. */
  function AllSelected(ms: seq<Message>): seq<Message> {
    seq(|ms|, i requires 0 <= i < |ms| => Selected(ms[i], Text(ms[i])))
  }

  lemma Grows(ms: seq<Message>, m: Message)
    ensures AllSelected(ms + [m]) == AllSelected(ms) + [Selected(m, Text(m))]
    ensures Characters(ms + [m]) == Characters(ms) + |Text(m)|
  {
    assert (ms + [m])[..|ms|] == ms;
  }

  /** `r` is the longest suffix of `xs` within both budgets. */
  predicate LongestSuffix(xs: seq<Message>, n: nat, room: nat, r: seq<Message>) {
    && |r| <= |xs| && |r| <= n && Characters(r) <= room
    && r == AllSelected(xs[|xs| - |r|..])
    && (|r| == |xs| || |r| == n || Characters(r) + |Text(xs[|xs| - |r| - 1])| > room)
  }

  lemma SelectedText(m: Message)
    ensures Text(Selected(m, Text(m))) == Text(m)
  {
  }

  lemma LongestSuffixGrows(older: seq<Message>, m: Message, n: nat, room: nat, r: seq<Message>)
    requires LongestSuffix(older, n, room, r)
    ensures LongestSuffix(older + [m], n + 1, room + |Text(m)|, r + [Selected(m, Text(m))])
  {
    hide AllSelected, Characters, Selected, Text;
    var xs := older + [m];
    SelectedText(m);
    Grows(r, Selected(m, Text(m)));
    Grows(older[|older| - |r|..], m);
    assert xs[|xs| - |r| - 1..] == older[|older| - |r|..] + [m];
  }

  /**
   What trimming keeps of a history without empty messages: the last `room` characters of the newest
   message if that alone is too long, and otherwise the longest suffix within both budgets.
   */
  lemma {:induction false} KeepsLongestSuffix(xs: seq<Message>, n: nat, room: nat, started: bool)
    requires room > 0 && NoneEmpty(xs, |xs|)
    ensures var r := Keep(xs, n, room, started);
            if xs != [] && n > 0 && !started && |Text(xs[|xs| - 1])| > room then
              r == [Selected(xs[|xs| - 1], Text(xs[|xs| - 1])[|Text(xs[|xs| - 1])| - room..])]
            else
              LongestSuffix(xs, n, room, r)
    decreases |xs|
  {
    hide Keep, NoneEmpty, LongestSuffix, Text, Selected;
    if xs == [] || n == 0 {
      KeepEnd(xs, n, room, started);
      NothingKept(xs, n, room);
    } else {
      var m, older := xs[|xs| - 1], xs[..|xs| - 1];
      var c := Text(m);
      assert xs == older + [m];
      KeepLast(older, m, n, room, started);
      NoneEmptyLast(older, m, |xs|);
      if |c| < room {
        KeepsLongestSuffix(older, n - 1, room - |c|, true);
        LongestSuffixGrows(older, m, n - 1, room - |c|, Keep(older, n - 1, room - |c|, true));
      } else {
        KeepsAtLimit(older, m, n, room, started);
      }
    }
  }

  lemma KeepsAtLimit(older: seq<Message>, m: Message, n: nat, room: nat, started: bool)
    requires n > 0 && room > 0 && |Text(m)| >= room && NoneEmpty(older + [m], |older| + 1)
    ensures var xs := older + [m];
            var r := Keep(xs, n, room, started);
            if !started && |Text(m)| > room then r == [Selected(m, Text(m)[|Text(m)| - room..])]
            else LongestSuffix(xs, n, room, r)
  {
    hide Keep, NoneEmpty, LongestSuffix, Text, Selected;
    KeepLast(older, m, n, room, started);
    NoneEmptyLast(older, m, |older| + 1);
    if older != [] {
      assert older == older[..|older| - 1] + [older[|older| - 1]];
      NoneEmptyLast(older[..|older| - 1], older[|older| - 1], |older|);
    }
    NothingOlderFits(older, m, n, room);
  }

  lemma NothingKept(xs: seq<Message>, n: nat, room: nat)
    requires xs == [] || n == 0
    ensures LongestSuffix(xs, n, room, [])
  {
    assert xs[|xs|..] == [];
  }

  lemma NothingOlderFits(older: seq<Message>, m: Message, n: nat, room: nat)
    requires n > 0 && |Text(m)| >= room && (older != [] ==> Text(older[|older| - 1]) != "")
    ensures |Text(m)| == room ==> LongestSuffix(older + [m], n, room, [Selected(m, Text(m))])
    ensures |Text(m)| > room ==> LongestSuffix(older + [m], n, room, [])
  {
    var xs := older + [m];
    assert xs[|xs| - 1..] == [m] && xs[|xs|..] == [];
    assert [Selected(m, Text(m))][..0] == [];
  }
}
