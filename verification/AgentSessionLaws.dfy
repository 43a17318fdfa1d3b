/** What runs of chats, retries and deletions keep of a session. */
module AgentSessionLaws {
  import opened Wrappers
  import opened AgentHistory
  import opened AgentHistoryLaws
  import opened AgentSession
  import opened TextOrder

  datatype Event = Attempt(chat: Chat, seeded: bool, quotaFull: bool) | Delete

  /** The session after a run, and the chats committed since it was created. */
  function Run(order: Order, events: seq<Event>): (Option<Session>, seq<Chat>) {
    if events == [] then (None, [])
    else Step(order, Run(order, events[..|events| - 1]), events[|events| - 1])
  }

  /** What a commit makes of the store and of the log. */
  function Step(order: Order, before: (Option<Session>, seq<Chat>), e: Event): (Option<Session>, seq<Chat>) {
    match e
    case Delete => (None, [])
    case Attempt(c, seeded, quotaFull) =>
      var (next, outcome) := Commit(order, before.0, c, seeded, quotaFull);
      (next, if outcome.Answered? then before.1 + [c] else before.1)
  }

  /** The cache entries of the committed chats that carried a turn id. */
  function TurnsOf(log: seq<Chat>): seq<Turn> {
    if log == [] then []
    else TurnsOf(log[..|log| - 1]) + (if log[|log| - 1].turnId == "" then [] else [Turn(log[|log| - 1].turnId, log[|log| - 1].reply)])
  }

  /** The whole conversation as it was committed. */
  function Conversation(log: seq<Chat>): seq<Message> {
    if log == [] then [] else Conversation(log[..|log| - 1]) + Messages(log[|log| - 1])
  }

  /** The history trimmed again after every turn. */
  function Trimmed(log: seq<Chat>): seq<Message> {
    if log == [] then []
    else Bounded(Trimmed(log[..|log| - 1]) + Messages(log[|log| - 1]), MAX_SESSION_MESSAGES, MAX_HISTORY_CHARACTERS)
  }

  // ---------------------------------------------------------------- the cache as the stores return it

  predicate Distinct(turns: seq<Turn>) {
    forall i, j | 0 <= i < j < |turns| :: turns[i].id != turns[j].id
  }

  function Ids(turns: seq<Turn>): set<string> { set i | 0 <= i < |turns| :: turns[i].id }

  /** A strict total order on keys. */
  ghost predicate Total(less: (string, string) -> bool) {
    && (forall a, b :: a == b || less(a, b) || less(b, a))
    && (forall a, b :: !(less(a, b) && less(b, a)) && !less(a, a))
    && (forall a, b, c :: less(a, b) && less(b, c) ==> less(a, c))
  }

  /** The file store's sorted keys are such an order. */
  lemma FileStoreIsKeyed()
    ensures Total((a: string, b: string) => Before(a, b))
  {
    forall a: string, b: string ensures (a == b || Before(a, b) || Before(b, a)) && !(Before(a, b) && Before(b, a)) && !Before(a, a) {
      BeforeTotal(a, b);
    }
    forall a: string, b: string, c: string | Before(a, b) && Before(b, c) ensures Before(a, c) { BeforeTransitive(a, b, c); }
  }

  ghost predicate Lawful(order: Order) { order.Keyed? ==> Total(order.less) }

  predicate Ascending(less: (string, string) -> bool, turns: seq<Turn>) {
    forall i, j | 0 <= i < j < |turns| :: less(turns[i].id, turns[j].id)
  }

  /** The turns are in the order the store returns them in. */
  predicate InOrder(order: Order, turns: seq<Turn>) { order.Keyed? ==> Ascending(order.less, turns) }

  lemma {:induction false} PlacedSame(less: (string, string) -> bool, s: seq<Turn>, t: Turn)
    ensures multiset(Placed(less, s, t)) == multiset(s) + multiset{t}
  {
    if s != [] && !less(t.id, s[0].id) {
      assert s == [s[0]] + s[1..];
      PlacedSame(less, s[1..], t);
    }
  }

  lemma Headed(less: (string, string) -> bool, x: Turn, s: seq<Turn>)
    requires Ascending(less, s) && forall t | t in s :: less(x.id, t.id)
    ensures Ascending(less, [x] + s)
  {
    var r := [x] + s;
    forall i, j | 0 <= i < j < |r| ensures less(r[i].id, r[j].id) {
      assert r[j] == s[j - 1];
      if i > 0 { assert r[i] == s[i - 1]; }
    }
  }

  lemma HeadIsLeast(less: (string, string) -> bool, s: seq<Turn>)
    requires s != [] && Ascending(less, s)
    ensures Ascending(less, s[1..]) && (forall t | t in s[1..] :: less(s[0].id, t.id))
    ensures Ids(s) == Ids(s[1..]) + {s[0].id}
  {
    assert forall i | 0 <= i < |s[1..]| :: s[1..][i] == s[i + 1];
    forall t | t in s[1..] ensures less(s[0].id, t.id) {
      var i :| 0 <= i < |s[1..]| && s[1..][i] == t;
    }
    forall id | id in Ids(s) ensures id in Ids(s[1..]) + {s[0].id} {
      var i :| 0 <= i < |s| && s[i].id == id;
      if i > 0 { assert s[1..][i - 1].id == id; }
    }
  }

  lemma {:induction false} PlacedAscends(less: (string, string) -> bool, s: seq<Turn>, t: Turn)
    requires Total(less) && Ascending(less, s) && t.id !in Ids(s)
    ensures Ascending(less, Placed(less, s, t))
  {
    hide Ascending, Ids;
    if s == [] {
      Alone(less, t);
    } else {
      assert s == [s[0]] + s[1..];
      HeadIsLeast(less, s);
      if less(t.id, s[0].id) {
        forall x | x in s ensures less(t.id, x.id) { assert x == s[0] || x in s[1..]; }
        Headed(less, t, s);
      } else {
        PlacedAscends(less, s[1..], t);
        PlacedSame(less, s[1..], t);
        var rest := Placed(less, s[1..], t);
        forall x | x in rest ensures less(s[0].id, x.id) {
          assert x in multiset(rest);
          assert x == t || x in s[1..];
        }
        Headed(less, s[0], rest);
      }
    }
  }

  lemma Alone(less: (string, string) -> bool, t: Turn)
    ensures Ascending(less, [t] + [])
  {
  }

  lemma {:induction false} SortedSame(less: (string, string) -> bool, s: seq<Turn>)
    ensures multiset(SortedBy(less, s)) == multiset(s)
  {
    if s != [] {
      assert s == [s[0]] + s[1..];
      SortedSame(less, s[1..]);
      PlacedSame(less, SortedBy(less, s[1..]), s[0]);
    }
  }

  lemma SameTurns(s: seq<Turn>, t: seq<Turn>)
    requires multiset(s) == multiset(t)
    ensures |s| == |t| && Ids(s) == Ids(t) && (forall x :: x in s <==> x in t)
  {
    assert |multiset(s)| == |multiset(t)|;
    forall x ensures x in s <==> x in t { assert x in multiset(s) <==> x in multiset(t); }
    IdsWithin(s, t);
    IdsWithin(t, s);
  }

  lemma IdsWithin(s: seq<Turn>, t: seq<Turn>)
    requires forall x | x in s :: x in t
    ensures Ids(s) <= Ids(t)
  {
    forall id | id in Ids(s) ensures id in Ids(t) {
      var i :| 0 <= i < |s| && s[i].id == id;
      assert s[i] in s;
      var j :| 0 <= j < |t| && t[j] == s[i];
    }
  }

  lemma {:induction false} SortedAscends(less: (string, string) -> bool, s: seq<Turn>)
    requires Total(less) && Distinct(s)
    ensures Ascending(less, SortedBy(less, s))
  {
    if s != [] {
      assert forall i | 0 <= i < |s[1..]| :: s[1..][i] == s[i + 1];
      SortedAscends(less, s[1..]);
      SortedSame(less, s[1..]);
      SameTurns(SortedBy(less, s[1..]), s[1..]);
      PlacedAscends(less, SortedBy(less, s[1..]), s[0]);
    }
  }

  lemma {:induction false} SortedFixed(less: (string, string) -> bool, s: seq<Turn>)
    requires Total(less) && Ascending(less, s)
    ensures SortedBy(less, s) == s
  {
    if s != [] {
      assert s == [s[0]] + s[1..];
      assert forall i | 0 <= i < |s[1..]| :: s[1..][i] == s[i + 1];
      SortedFixed(less, s[1..]);
      if |s| > 1 { assert less(s[0].id, s[1].id); }
    }
  }

  lemma AscendingDistinct(less: (string, string) -> bool, s: seq<Turn>)
    requires Total(less) && Ascending(less, s)
    ensures Distinct(s)
  {
  }

  /** Saving keeps the turns, and puts them in the store's order. */
  lemma ReloadedIs(order: Order, turns: seq<Turn>)
    requires Lawful(order) && Distinct(turns)
    ensures multiset(Reloaded(order, turns)) == multiset(turns) && Distinct(Reloaded(order, turns))
    ensures InOrder(order, Reloaded(order, turns))
    ensures InOrder(order, turns) ==> Reloaded(order, turns) == turns
  {
    if order.Keyed? {
      SortedSame(order.less, turns);
      SortedAscends(order.less, turns);
      AscendingDistinct(order.less, SortedBy(order.less, turns));
      if Ascending(order.less, turns) { SortedFixed(order.less, turns); }
    }
  }

  /** The cache after commits of these turns, one save each. */
  function CacheOf(order: Order, turns: seq<Turn>): seq<Turn> {
    if turns == [] then []
    else
      var t := turns[|turns| - 1];
      Reloaded(order, LastN(PutTurn(CacheOf(order, turns[..|turns| - 1]), t.id, t.reply), MAX_SESSION_TURNS))
  }

  lemma {:induction false} PutNew(turns: seq<Turn>, id: string, reply: Reply)
    requires !Holds(turns, id)
    ensures PutTurn(turns, id, reply) == turns + [Turn(id, reply)]
  {
    if turns != [] {
      forall i | 0 <= i < |turns[1..]| ensures turns[1..][i].id != id { assert turns[1..][i] == turns[i + 1]; }
      PutNew(turns[1..], id, reply);
    }
  }

  /** A turn stored again under its id keeps its place and takes the new reply; no other is touched. */
  lemma {:induction false} PutKnown(turns: seq<Turn>, i: nat, reply: Reply)
    requires Distinct(turns) && i < |turns|
    ensures PutTurn(turns, turns[i].id, reply) == turns[i := Turn(turns[i].id, reply)]
  {
    if i > 0 {
      TailDistinct(turns);
      assert turns[0].id != turns[i].id && turns[1..][i - 1] == turns[i];
      hide Distinct;
      PutKnown(turns[1..], i - 1, reply);
      var t := Turn(turns[i].id, reply);
      assert [turns[0]] + turns[1..][i - 1 := t] == turns[i := t];
    }
  }

  lemma TailDistinct(turns: seq<Turn>)
    requires turns != [] && Distinct(turns)
    ensures Distinct(turns[1..])
  {
    assert forall k | 0 <= k < |turns[1..]| :: turns[1..][k] == turns[k + 1];
  }

  /** What one save of a new turn makes of a cache: the turn joins, and of a full cache the first one leaves. */
  lemma PutInto(order: Order, cache: seq<Turn>, t: Turn)
    requires Lawful(order) && Distinct(cache) && |cache| <= MAX_SESSION_TURNS && !Holds(cache, t.id)
    ensures var kept := if |cache| == MAX_SESSION_TURNS then cache[1..] else cache;
            var next := Reloaded(order, LastN(PutTurn(cache, t.id, t.reply), MAX_SESSION_TURNS));
            && LastN(PutTurn(cache, t.id, t.reply), MAX_SESSION_TURNS) == kept + [t]
            && multiset(next) == multiset(kept) + multiset{t} && Distinct(next) && InOrder(order, next)
            && |next| <= MAX_SESSION_TURNS && Ids(next) == Ids(kept) + {t.id}
  {
    hide PutTurn, Reloaded, LastN, Ids, Distinct, Holds;
    PutNew(cache, t.id, t.reply);
    var kept := if |cache| == MAX_SESSION_TURNS then cache[1..] else cache;
    LastOf(cache, t);
    Joined(cache, kept, t);
    ReloadedIs(order, kept + [t]);
    SameTurns(Reloaded(order, kept + [t]), kept + [t]);
  }

  lemma LastOf(cache: seq<Turn>, t: Turn)
    requires |cache| <= MAX_SESSION_TURNS
    ensures LastN(cache + [t], MAX_SESSION_TURNS) == (if |cache| == MAX_SESSION_TURNS then cache[1..] else cache) + [t]
  {
  }

  lemma Joined(cache: seq<Turn>, kept: seq<Turn>, t: Turn)
    requires Distinct(cache) && !Holds(cache, t.id) && (kept == cache || (cache != [] && kept == cache[1..]))
    ensures Distinct(kept + [t]) && Ids(kept + [t]) == Ids(kept) + {t.id}
  {
    var all := kept + [t];
    forall i, j | 0 <= i < j < |all| ensures all[i].id != all[j].id {
      var k := if kept == cache then 0 else 1;
      assert all[i] == cache[i + k];
      if j < |kept| { assert all[j] == cache[j + k]; }
    }
    assert all[|kept|] == t;
    assert forall i | 0 <= i < |kept| :: all[i] == kept[i];
  }

  // ---------------------------------------------------------------- runs against the log

  /** The reply last committed for a turn id. */
  function LastReply(turns: seq<Turn>, id: string): Option<Reply> {
    if turns == [] then None
    else if turns[|turns| - 1].id == id then Some(turns[|turns| - 1].reply)
    else LastReply(turns[..|turns| - 1], id)
  }

  /** The store agrees with the log of committed chats. */
  predicate Agrees(order: Order, store: Option<Session>, log: seq<Chat>) {
    if store.None? then log == []
    else
      && store.value.version == |log|
      && store.value.turns == CacheOf(order, TurnsOf(log))
      && store.value.messages == Trimmed(log)
  }

  /** No committed id was in the cache when it was committed: those chats were replayed instead. */
  predicate Fresh(order: Order, turns: seq<Turn>) {
    forall n | 0 <= n < |turns| :: !Holds(CacheOf(order, turns[..n]), turns[n].id)
  }

  /** A cache holds at most 20 distinct ids in the store's order, each with the reply last committed for it. */
  lemma {:induction false} CacheIs(order: Order, turns: seq<Turn>)
    requires Lawful(order) && Fresh(order, turns)
    ensures var cache := CacheOf(order, turns);
            && |cache| <= MAX_SESSION_TURNS && Distinct(cache) && InOrder(order, cache)
            && (forall t | t in cache :: LastReply(turns, t.id) == Some(t.reply))
            && (turns != [] ==> turns[|turns| - 1] in cache)
    decreases |turns|
  {
    hide PutTurn, Reloaded, LastN, Ids, InOrder, CacheOf, Fresh, Distinct, Holds;
    if turns == [] {
      NoTurns(order);
    } else {
      var before, t := turns[..|turns| - 1], turns[|turns| - 1];
      FreshBefore(order, turns);
      CacheIs(order, before);
      var cache, next := CacheOf(order, before), CacheOf(order, turns);
      PutInto(order, cache, t);
      assert turns[..|turns| - 1 + 1] == turns;
      CacheStep(order, turns, |turns| - 1);
      assert t in multiset(next);
      forall x | x in next ensures LastReply(turns, x.id) == Some(x.reply) {
        assert x in multiset(next);
        if x != t {
          assert x in cache;
          HeldId(cache, x);
        }
      }
    }
  }

  lemma HeldId(turns: seq<Turn>, x: Turn)
    requires x in turns
    ensures Holds(turns, x.id)
  {
    var i :| 0 <= i < |turns| && turns[i] == x;
  }

  lemma NoTurns(order: Order)
    ensures CacheOf(order, []) == [] && InOrder(order, []) && Distinct([])
  {
  }

  lemma RunStep(order: Order, events: seq<Event>, e: Event)
    ensures Run(order, events + [e]) == Step(order, Run(order, events), e)
  {
    assert (events + [e])[..|events|] == events;
  }

  lemma LogStep(log: seq<Chat>, c: Chat)
    ensures TurnsOf(log + [c]) == if c.turnId == "" then TurnsOf(log) else TurnsOf(log) + [Turn(c.turnId, c.reply)]
    ensures Trimmed(log + [c]) == Bounded(Trimmed(log) + Messages(c), MAX_SESSION_MESSAGES, MAX_HISTORY_CHARACTERS)
  {
    hide Bounded;
    assert (log + [c])[..|log|] == log;
  }

  lemma CommitAgrees(order: Order, s: Session, log: seq<Chat>, c: Chat)
    requires Lawful(order) && Fresh(order, TurnsOf(log))
    requires s.turns == CacheOf(order, TurnsOf(log)) && s.messages == Trimmed(log)
    requires c.turnId == "" || !Holds(s.turns, c.turnId)
    ensures Fresh(order, TurnsOf(log + [c]))
    ensures Saved(order, Append(s, c)).turns == CacheOf(order, TurnsOf(log + [c]))
    ensures Saved(order, Append(s, c)).messages == Trimmed(log + [c])
  {
    hide Bounded, PutTurn, Reloaded, LastN, Trimmed, TurnsOf, Holds;
    LogStep(log, c);
    CacheIs(order, TurnsOf(log));
    if c.turnId == "" {
      ReloadedIs(order, s.turns);
    } else {
      var turns, t := TurnsOf(log), Turn(c.turnId, c.reply);
      assert (turns + [t])[..|turns|] == turns;
      forall n | 0 <= n < |turns + [t]| ensures !Holds(CacheOf(order, (turns + [t])[..n]), (turns + [t])[n].id) {
        if n < |turns| { assert (turns + [t])[..n] == turns[..n]; }
      }
    }
  }

  /** After every run the store holds what its own log of committed chats says. */
  lemma {:induction false} RunAgrees(order: Order, events: seq<Event>)
    requires Lawful(order)
    ensures Agrees(order, Run(order, events).0, Run(order, events).1) && Fresh(order, TurnsOf(Run(order, events).1))
  {
    hide Append, Saved, Lawful, CacheOf, Trimmed, Fresh, TurnsOf;
    if events == [] {
      EmptyAgrees(order);
    } else {
      var before, e := events[..|events| - 1], events[|events| - 1];
      RunAgrees(order, before);
      var (store, log) := Run(order, before);
      EmptyAgrees(order);
      if e.Attempt? && Commit(order, store, e.chat, e.seeded, e.quotaFull).1.Answered? {
        if store.Some? {
          CommitAgrees(order, store.value, log, e.chat);
          SavedVersion(order, store.value, e.chat);
        } else {
          NothingHeld(e.chat.turnId);
          CommitAgrees(order, Session(e.chat.workspace, 1, [], []), [], e.chat);
          SavedVersion(order, Session(e.chat.workspace, 1, [], []), e.chat);
        }
      }
    }
  }

  lemma NothingHeld(id: string)
    ensures !Holds([], id)
  {
  }

  lemma EmptyAgrees(order: Order)
    ensures TurnsOf([]) == [] && CacheOf(order, []) == [] && Trimmed([]) == [] && Fresh(order, TurnsOf([]))
  {
  }

  lemma SavedVersion(order: Order, s: Session, c: Chat)
    ensures var a, b := Saved(order, Append(s, c)), Saved(order, Append(s, c).(version := s.version + 1));
            a.version == s.version && b == a.(version := s.version + 1) && a.workspace == s.workspace
  {
  }

  // ---------------------------------------------------------------- retries

  lemma {:induction false} StoredAt(turns: seq<Turn>, i: nat)
    requires i < |turns| && Distinct(turns)
    ensures Holds(turns, turns[i].id) && Stored(turns, turns[i].id) == turns[i].reply
  {
    if i > 0 {
      assert turns[0].id != turns[i].id;
      assert turns[1..][i - 1] == turns[i];
      StoredAt(turns[1..], i - 1);
    }
  }

  /** The session's cache holds the turn after these events. */
  predicate HeldAfter(order: Order, events: seq<Event>, id: string) {
    id != "" && Run(order, events).0.Some? && id in Ids(CacheOf(order, TurnsOf(Run(order, events).1)))
  }

  /** A commit replays exactly the turns the cache holds then, with the last committed reply; the newest turn is one of them. */
  lemma HeldIsStored(order: Order, events: seq<Event>, id: string)
    requires Lawful(order) && Run(order, events).0.Some? && id != ""
    ensures var (store, log) := Run(order, events);
            var (s, turns) := (store.value, TurnsOf(log));
            && (HeldAfter(order, events, id) <==> Holds(s.turns, id))
            && (Holds(s.turns, id) ==> LastReply(turns, id) == Some(Stored(s.turns, id)))
            && (turns != [] && turns[|turns| - 1].id == id ==> HeldAfter(order, events, id))
  {
    hide CacheOf, Append, Saved, LastReply, InOrder, Lawful;
    RunAgrees(order, events);
    var turns := TurnsOf(Run(order, events).1);
    CacheIs(order, turns);
    var cache := CacheOf(order, turns);
    if Holds(cache, id) {
      var i :| 0 <= i < |cache| && cache[i].id == id;
      StoredAt(cache, i);
      assert cache[i] in cache;
    }
  }

  /**
   A chat that begins after `events` and commits after the `later` ones, which may be other chats, retries of
   the same turn or deletions: the store it leaves, and its answer.
   */
  function Whole(order: Order, events: seq<Event>, later: seq<Event>, c: Chat, fullThen: bool, fullNow: bool): (Option<Session>, Outcome) {
    match Begin(Run(order, events).0, c.workspace, c.turnId, fullThen)
    case Stopped(outcome) => (Run(order, events + later).0, outcome)
    case Asked(snapshot, _) => Commit(order, Run(order, events + later).0, c.(snapshot := snapshot), true, fullNow)
  }

  predicate InWorkspace(order: Order, events: seq<Event>, workspace: string) {
    Run(order, events).0.Some? ==> Run(order, events).0.value.workspace == workspace
  }

  /**
   A retried turn is replayed if and only if the cache held it when the chat began, then without asking the
   model, or holds it when the chat would commit: nothing is appended, and the reply is the one last
   committed for that id. The newest turn is always held.
   */
  lemma RetryIsReplayed(order: Order, events: seq<Event>, later: seq<Event>, retry: Chat, fullThen: bool, fullNow: bool)
    requires Lawful(order) && retry.turnId != "" && (Run(order, events).0.None? ==> !fullThen)
    requires InWorkspace(order, events, retry.workspace) && InWorkspace(order, events + later, retry.workspace)
    ensures var (next, outcome) := Whole(order, events, later, retry, fullThen, fullNow);
            var begun := Begin(Run(order, events).0, retry.workspace, retry.turnId, fullThen);
            && (begun.Stopped? <==> HeldAfter(order, events, retry.turnId))
            && (outcome.Replayed? <==> HeldAfter(order, events, retry.turnId) || HeldAfter(order, events + later, retry.turnId))
            && (outcome.Replayed? ==> next == Run(order, events + later).0)
            && (outcome.Replayed? ==>
                  Some(outcome.reply) == LastReply(TurnsOf(Run(order, if begun.Stopped? then events else events + later).1), retry.turnId))
  {
    hide CacheOf, Append, Saved, LastReply, Lawful, Run, Ids;
    if Run(order, events).0.Some? { HeldIsStored(order, events, retry.turnId); }
    if Run(order, events + later).0.Some? { HeldIsStored(order, events + later, retry.turnId); }
  }

  /**
   How a chat begins, after any run: over the quota it stops if there is no session yet, in another workspace's
   session it stops, and a turn the cache holds is replayed. Otherwise it reads the number of chats committed.
   */
  lemma BeginIs(order: Order, events: seq<Event>, workspace: string, turnId: string, quotaFull: bool)
    requires Lawful(order)
    ensures var (store, log) := Run(order, events);
            var begun := Begin(store, workspace, turnId, quotaFull);
            && (begun == Stopped(Limit) <==> store.None? && quotaFull)
            && (begun == Stopped(Conflict) <==> store.Some? && store.value.workspace != workspace)
            && (begun.Stopped? && begun.outcome.Replayed? <==>
                  store.Some? && store.value.workspace == workspace && HeldAfter(order, events, turnId))
            && (begun.Asked? ==> begun.snapshot == (if store.None? then None else Some(|log|)) && (store.None? ==> begun.shown == []))
            && (begun.Stopped? ==> !begun.outcome.Answered?)
  {
    hide Bounded, Run, Bare, CacheOf, Lawful;
    RunAgrees(order, events);
    if Run(order, events).0.Some? && turnId != "" { HeldIsStored(order, events, turnId); }
  }

  lemma {:induction false} KeepBare(ms: seq<Message>, n: nat, room: nat, started: bool)
    ensures Keep(Bare(ms), n, room, started) == Bare(Keep(ms, n, room, started))
    decreases |ms|
  {
    hide Keep;
    if ms == [] || n == 0 {
      KeepEnd(ms, n, room, started);
      KeepEnd(Bare(ms), n, room, started);
    } else {
      var m, older := ms[|ms| - 1], ms[..|ms| - 1];
      var c := Text(m);
      assert ms == older + [m];
      assert Bare(ms) == Bare(older) + [m.(extra := [])];
      KeepLast(older, m, n, room, started);
      KeepLast(Bare(older), m.(extra := []), n, room, started);
      if c == "" {
        KeepBare(older, n - 1, room, started);
      } else if |c| < room {
        KeepBare(older, n - 1, room - |c|, true);
        var kept := Keep(older, n - 1, room - |c|, true);
        assert Bare(kept + [Selected(m, c)]) == Bare(kept) + [Selected(m, c).(extra := [])];
      }
    }
  }

  lemma {:induction false} TrimmedIsStable(log: seq<Chat>)
    ensures Bounded(Trimmed(log), MAX_SESSION_MESSAGES, MAX_HISTORY_CHARACTERS) == Trimmed(log)
  {
    hide Keep;
    if log != [] {
      var xs := Trimmed(log[..|log| - 1]) + Messages(log[|log| - 1]);
      KeepStable(xs, MAX_SESSION_MESSAGES, MAX_HISTORY_CHARACTERS, false, MAX_SESSION_MESSAGES);
    } else {
      KeepEnd([], MAX_SESSION_MESSAGES, MAX_HISTORY_CHARACTERS, false);
    }
  }

  /** After any run the model is shown every stored message: the trim before the call drops nothing more. */
  lemma ShownIsStored(order: Order, events: seq<Event>, workspace: string, turnId: string, quotaFull: bool)
    requires Lawful(order)
    ensures var (store, begun) := (Run(order, events).0, Begin(Run(order, events).0, workspace, turnId, quotaFull));
            begun.Asked? && store.Some? ==> begun.shown == Bare(store.value.messages)
  {
    hide Bounded, Run, Holds, Stored, CacheOf;
    RunAgrees(order, events);
    var (store, log) := Run(order, events);
    if store.Some? {
      TrimmedIsStable(log);
      BoundedBare(store.value.messages);
    }
  }

  lemma BoundedBare(ms: seq<Message>)
    ensures Bounded(Bare(ms), MAX_SESSION_MESSAGES, MAX_HISTORY_CHARACTERS) == Bare(Bounded(ms, MAX_SESSION_MESSAGES, MAX_HISTORY_CHARACTERS))
  {
    KeepBare(ms, MAX_SESSION_MESSAGES, MAX_HISTORY_CHARACTERS, false);
  }

  // ---------------------------------------------------------------- is the cache the most recent 20?

  /** Kept in order of insertion, the cache is exactly the last 20 committed turns, in that order. */
  lemma {:induction false} InsertionIsRecent(turns: seq<Turn>)
    requires Fresh(Insertion, turns)
    ensures CacheOf(Insertion, turns) == LastN(turns, MAX_SESSION_TURNS)
    decreases |turns|
  {
    hide PutTurn, CacheOf, LastN, Holds, Fresh;
    if turns == [] {
      NoTurns(Insertion);
      LastOfLast([], Turn("", Reply("", [], [], None)));
    } else {
      var before, t := turns[..|turns| - 1], turns[|turns| - 1];
      FreshBefore(Insertion, turns);
      InsertionIsRecent(before);
      assert turns[..|turns| - 1 + 1] == turns;
      CacheStep(Insertion, turns, |turns| - 1);
      PutNew(LastN(before, MAX_SESSION_TURNS), t.id, t.reply);
      LastOfLast(before, t);
      assert turns == before + [t];
    }
  }

  lemma LastOfLast(before: seq<Turn>, t: Turn)
    ensures LastN(LastN(before, MAX_SESSION_TURNS) + [t], MAX_SESSION_TURNS) == LastN(before + [t], MAX_SESSION_TURNS)
    ensures before == [] ==> LastN(before, MAX_SESSION_TURNS) == []
  {
  }

  lemma FreshBefore(order: Order, turns: seq<Turn>)
    requires turns != [] && Fresh(order, turns)
    ensures Fresh(order, turns[..|turns| - 1])
    ensures !Holds(CacheOf(order, turns[..|turns| - 1]), turns[|turns| - 1].id)
  {
    hide CacheOf, Holds;
    var before := turns[..|turns| - 1];
    forall n | 0 <= n < |before| ensures !Holds(CacheOf(order, before[..n]), before[n].id) { assert before[..n] == turns[..n]; }
  }

  /** After any run on such a store: the last 20 committed turns that carried an id, in commit order. */
  lemma CacheIsRecent(events: seq<Event>)
    requires Run(Insertion, events).0.Some?
    ensures Run(Insertion, events).0.value.turns == LastN(TurnsOf(Run(Insertion, events).1), MAX_SESSION_TURNS)
  {
    RunAgrees(Insertion, events);
    InsertionIsRecent(TurnsOf(Run(Insertion, events).1));
  }

  ghost predicate RecentAt(order: Order, turns: seq<Turn>, n: nat)
    requires n <= |turns|
  {
    Ids(CacheOf(order, turns[..n])) == Ids(LastN(turns[..n], MAX_SESSION_TURNS))
  }

  lemma {:induction false} LastReplyAmong(turns: seq<Turn>, id: string)
    ensures LastReply(turns, id).Some? ==> id in Ids(turns)
  {
    if turns != [] {
      var before := turns[..|turns| - 1];
      LastReplyAmong(before, id);
      assert forall i | 0 <= i < |before| :: before[i] == turns[i];
      assert turns[|turns| - 1].id in Ids(turns);
    }
  }

  /** Turn ids that are used once are never in the cache before they are committed. */
  lemma {:induction false} DistinctIsFresh(order: Order, turns: seq<Turn>, n: nat)
    requires Lawful(order) && Distinct(turns) && n <= |turns|
    ensures Fresh(order, turns[..n])
  {
    hide CacheOf, LastReply, InOrder, Lawful, Distinct, Holds;
    if n > 0 {
      DistinctIsFresh(order, turns, n - 1);
      CacheIs(order, turns[..n - 1]);
      NotYetHeld(order, turns, n - 1);
      forall k | 0 <= k < n ensures !Holds(CacheOf(order, turns[..n][..k]), turns[..n][k].id) {
        assert turns[..n][..k] == turns[..k];
        if k < n - 1 { assert turns[..n - 1][..k] == turns[..k] && turns[..n - 1][k] == turns[k]; }
      }
    }
  }

  lemma NotYetHeld(order: Order, turns: seq<Turn>, n: nat)
    requires Distinct(turns) && n < |turns|
    requires forall t | t in CacheOf(order, turns[..n]) :: LastReply(turns[..n], t.id) == Some(t.reply)
    ensures !Holds(CacheOf(order, turns[..n]), turns[n].id)
  {
    hide CacheOf, LastReply;
    var cache := CacheOf(order, turns[..n]);
    forall i | 0 <= i < |cache| ensures cache[i].id != turns[n].id {
      assert cache[i] in cache;
      LastReplyAmong(turns[..n], cache[i].id);
    }
  }

  lemma {:induction false} IdsCount(turns: seq<Turn>)
    requires Distinct(turns)
    ensures |Ids(turns)| == |turns|
  {
    if turns != [] {
      var before, t := turns[..|turns| - 1], turns[|turns| - 1];
      IdsCount(before);
      assert Ids(turns) == Ids(before) + {t.id};
    }
  }

  lemma IdsTail(turns: seq<Turn>)
    requires turns != [] && Distinct(turns)
    ensures Ids(turns[1..]) == Ids(turns) - {turns[0].id} && turns[0].id in Ids(turns)
  {
    assert forall i | 0 <= i < |turns[1..]| :: turns[1..][i] == turns[i + 1];
  }

  /** The first turn of a cache in order is the one with the given id exactly when that id is the least. */
  lemma LeastIsFirst(less: (string, string) -> bool, cache: seq<Turn>, id: string)
    requires Total(less) && Ascending(less, cache) && cache != [] && id in Ids(cache)
    ensures cache[0].id == id <==> forall other | other in Ids(cache) && other != id :: less(id, other)
  {
    assert cache[0].id in Ids(cache);
    var i :| 0 <= i < |cache| && cache[i].id == id;
    if i > 0 { assert less(cache[0].id, id); }
    if i == 0 {
      forall other | other in Ids(cache) && other != id ensures less(id, other) {
        var j :| 0 <= j < |cache| && cache[j].id == other;
      }
    }
  }

  /** The window of the last 20, before and after turn `n`. */
  lemma WindowStep(turns: seq<Turn>, n: nat)
    requires Distinct(turns) && n < |turns|
    ensures var w, next := LastN(turns[..n], MAX_SESSION_TURNS), LastN(turns[..n + 1], MAX_SESSION_TURNS);
            && Distinct(w) && |w| == (if n < MAX_SESSION_TURNS then n else MAX_SESSION_TURNS)
            && turns[n].id !in Ids(w)
            && Ids(next) == (if n < MAX_SESSION_TURNS then Ids(w) else Ids(w) - {turns[n - MAX_SESSION_TURNS].id}) + {turns[n].id}
            && (n >= MAX_SESSION_TURNS ==>
                  Ids(w) == set j | n - MAX_SESSION_TURNS <= j < n :: turns[j].id)
  {
    var w := LastN(turns[..n], MAX_SESSION_TURNS);
    WindowIs(turns, n);
    assert Distinct(w) && turns[n].id !in Ids(w);
    hide Ids, LastN, Distinct;
    var kept := if n < MAX_SESSION_TURNS then w else w[1..];
    IdsJoin(kept, turns[n]);
    if n >= MAX_SESSION_TURNS {
      IdsTail(w);
      WindowIds(turns, n, w);
    }
  }

  lemma WindowIs(turns: seq<Turn>, n: nat)
    requires n < |turns|
    ensures var w := LastN(turns[..n], MAX_SESSION_TURNS);
            && |w| == (if n < MAX_SESSION_TURNS then n else MAX_SESSION_TURNS) && w == turns[n - |w|..n]
            && LastN(turns[..n + 1], MAX_SESSION_TURNS) == (if n < MAX_SESSION_TURNS then w else w[1..]) + [turns[n]]
  {
  }

  lemma IdsJoin(kept: seq<Turn>, t: Turn)
    ensures Ids(kept + [t]) == Ids(kept) + {t.id}
  {
    var all := kept + [t];
    assert all[|kept|] == t && forall i | 0 <= i < |kept| :: all[i] == kept[i];
  }

  lemma WindowIds(turns: seq<Turn>, n: nat, w: seq<Turn>)
    requires MAX_SESSION_TURNS <= n < |turns| && w == turns[n - MAX_SESSION_TURNS..n]
    ensures Ids(w) == set j | n - MAX_SESSION_TURNS <= j < n :: turns[j].id
  {
    var k := n - MAX_SESSION_TURNS;
    forall id | id in Ids(w) ensures exists j :: k <= j < n && turns[j].id == id {
      var i :| 0 <= i < |w| && w[i].id == id;
      assert turns[k + i].id == id;
    }
    forall j | k <= j < n ensures turns[j].id in Ids(w) { assert w[j - k].id == turns[j].id; }
  }

  /** Of the 20 turns from `k` on, the first has the least id. */
  predicate FirstLeast(less: (string, string) -> bool, turns: seq<Turn>, k: nat)
    requires k + MAX_SESSION_TURNS <= |turns|
  {
    forall j | k < j < k + MAX_SESSION_TURNS :: less(turns[k].id, turns[j].id)
  }

  /** Turn `n` leaves a recent cache recent exactly when the oldest of the 20 before it has the least id. */
  lemma RecentStep(less: (string, string) -> bool, turns: seq<Turn>, n: nat)
    requires Total(less) && Distinct(turns) && n < |turns| && RecentAt(Keyed(less), turns, n)
    ensures RecentAt(Keyed(less), turns, n + 1) <==>
              n < MAX_SESSION_TURNS || FirstLeast(less, turns, n - MAX_SESSION_TURNS)
  {
    hide PutTurn, Reloaded, Total, LastN, Ids, Distinct, LastReply, Holds, CacheOf, Ascending, FirstLeast;
    var order := Keyed(less);
    var cache, w := CacheOf(order, turns[..n]), LastN(turns[..n], MAX_SESSION_TURNS);
    DistinctIsFresh(order, turns, n);
    CacheIs(order, turns[..n]);
    NotYetHeld(order, turns, n);
    PutInto(order, cache, turns[n]);
    CacheStep(order, turns, n);
    WindowStep(turns, n);
    IdsCount(cache);
    IdsCount(w);
    if n >= MAX_SESSION_TURNS {
      IdsTail(cache);
      Evicted(less, turns, n, cache);
    }
  }

  lemma CacheStep(order: Order, turns: seq<Turn>, n: nat)
    requires n < |turns|
    ensures CacheOf(order, turns[..n + 1])
         == Reloaded(order, LastN(PutTurn(CacheOf(order, turns[..n]), turns[n].id, turns[n].reply), MAX_SESSION_TURNS))
  {
    assert turns[..n + 1][..n] == turns[..n];
  }

  lemma Evicted(less: (string, string) -> bool, turns: seq<Turn>, n: nat, cache: seq<Turn>)
    requires Total(less) && Distinct(turns) && MAX_SESSION_TURNS <= n < |turns| && cache != [] && Ascending(less, cache)
    requires Ids(cache) == set j | n - MAX_SESSION_TURNS <= j < n :: turns[j].id
    ensures cache[0].id == turns[n - MAX_SESSION_TURNS].id <==> FirstLeast(less, turns, n - MAX_SESSION_TURNS)
  {
    hide Ids, Ascending;
    var k := n - MAX_SESSION_TURNS;
    assert turns[k].id in Ids(cache);
    LeastIsFirst(less, cache, turns[k].id);
    if FirstLeast(less, turns, k) {
      forall other | other in Ids(cache) && other != turns[k].id ensures less(turns[k].id, other) {
        var j :| k <= j < n && turns[j].id == other;
      }
    }
    if forall other | other in Ids(cache) && other != turns[k].id :: less(turns[k].id, other) {
      forall j | k < j < n ensures less(turns[k].id, turns[j].id) { assert turns[j].id in Ids(cache); }
    }
  }

  /**
   On a store that returns keys in an order of its own, for turn ids used once: the cache is the most
   recent 20 after every commit if and only if, whenever a turn is evicted, the oldest has the least id.
   Ids drawn at random do not meet this; ids that grow with time do.
   */
  lemma {:induction false} KeyedIsRecentIff(less: (string, string) -> bool, turns: seq<Turn>, n: nat)
    requires Total(less) && Distinct(turns) && n <= |turns|
    ensures (forall m | 0 <= m <= n :: RecentAt(Keyed(less), turns, m)) <==>
              (forall k: nat | k + MAX_SESSION_TURNS < n :: FirstLeast(less, turns, k))
  {
    hide RecentAt, Total, Distinct, FirstLeast;
    if n == 0 {
      RecentAtStart(less, turns);
    } else {
      KeyedIsRecentIff(less, turns, n - 1);
      if forall m | 0 <= m <= n - 1 :: RecentAt(Keyed(less), turns, m) {
        assert RecentAt(Keyed(less), turns, n - 1);
        RecentStep(less, turns, n - 1);
        if forall k: nat | k + MAX_SESSION_TURNS < n :: FirstLeast(less, turns, k) {
          if n > MAX_SESSION_TURNS { assert FirstLeast(less, turns, n - 1 - MAX_SESSION_TURNS); }
        }
      }
    }
  }

  lemma RecentAtStart(less: (string, string) -> bool, turns: seq<Turn>)
    ensures RecentAt(Keyed(less), turns, 0)
  {
    assert turns[..0] == [];
  }

  /**
   The turn with the least id of a full cache, even the newest, is forgotten by the next commit; its
   retry is then not replayed but answered and appended a second time.
   */
  lemma LeastIsForgotten(less: (string, string) -> bool, s: Session, next: Chat, retry: Chat)
    requires Total(less) && Ascending(less, s.turns) && |s.turns| == MAX_SESSION_TURNS && s.turns[0].id == retry.turnId
    requires next.workspace == retry.workspace == s.workspace && next.snapshot == Some(s.version)
    requires next.turnId != "" && !Holds(s.turns, next.turnId) && next.turnId != retry.turnId
    ensures var (t, outcome) := Commit(Keyed(less), Some(s), next, true, false);
            && outcome.Answered? && t.Some? && retry.turnId !in Ids(t.value.turns)
            && Commit(Keyed(less), t, retry.(snapshot := Some(t.value.version)), true, false).1.Answered?
  {
    hide Bounded, PutTurn, Reloaded, LastN, Total, Ids;
    AscendingDistinct(less, s.turns);
    PutInto(Keyed(less), s.turns, Turn(next.turnId, next.reply));
    IdsTail(s.turns);
    var t := Commit(Keyed(less), Some(s), next, true, false).0.value;
    assert Ids(t.turns) == Ids(s.turns[1..]) + {next.turnId};
    NotHeld(t.turns, retry.turnId);
  }

  lemma NotHeld(turns: seq<Turn>, id: string)
    ensures id in Ids(turns) <==> Holds(turns, id)
  {
  }

  // ---------------------------------------------------------------- history and versions

  /** The stored history equals one trim of the whole conversation, as long as no gap ever opened. */
  lemma {:induction false} StoredIsTrimmedLog(log: seq<Chat>)
    requires forall i | 0 <= i < |log| :: Gapless(Conversation(log[..i]), MAX_SESSION_MESSAGES, MAX_HISTORY_CHARACTERS)
    ensures Trimmed(log) == Bounded(Conversation(log), MAX_SESSION_MESSAGES, MAX_HISTORY_CHARACTERS)
  {
    if log != [] {
      var older, c := log[..|log| - 1], log[|log| - 1];
      forall i | 0 <= i < |older| ensures Gapless(Conversation(older[..i]), MAX_SESSION_MESSAGES, MAX_HISTORY_CHARACTERS) {
        assert older[..i] == log[..i];
      }
      StoredIsTrimmedLog(older);
      GaplessCommutes(Conversation(older), Messages(c), MAX_SESSION_MESSAGES, MAX_HISTORY_CHARACTERS);
    }
  }

  lemma {:induction false} FullTurnsHaveNoGap(log: seq<Chat>)
    requires forall c | c in log :: c.message != "" && c.reply.message != ""
    ensures forall m | m in Conversation(log) :: Text(m) != ""
  {
    if log != [] { FullTurnsHaveNoGap(log[..|log| - 1]); }
  }

  lemma NoEmptyNoGap(xs: seq<Message>)
    requires forall m | m in xs :: Text(m) != ""
    ensures Gapless(xs, MAX_SESSION_MESSAGES, MAX_HISTORY_CHARACTERS)
  {
    hide Bounded, Text;
  }

  /** After any run whose turns all have text, the stored messages are the trimmed full log. */
  lemma StoredHistoryIsTrimmedLog(order: Order, events: seq<Event>)
    requires Lawful(order) && Run(order, events).0.Some?
    requires forall c | c in Run(order, events).1 :: c.message != "" && c.reply.message != ""
    ensures Run(order, events).0.value.messages
         == Bounded(Conversation(Run(order, events).1), MAX_SESSION_MESSAGES, MAX_HISTORY_CHARACTERS)
  {
    hide Run, Bounded, Gapless, Lawful;
    var log := Run(order, events).1;
    RunAgrees(order, events);
    forall i | 0 <= i < |log| ensures Gapless(Conversation(log[..i]), MAX_SESSION_MESSAGES, MAX_HISTORY_CHARACTERS) {
      FullTurnsHaveNoGap(log[..i]);
      NoEmptyNoGap(Conversation(log[..i]));
    }
    StoredIsTrimmedLog(log);
  }

  /** An answered chat is what the stored messages end with: the request as the user's, then the reply with its sources. */
  lemma AnsweredTurnIsLast(order: Order, events: seq<Event>, c: Chat, quotaFull: bool)
    requires Lawful(order) && Commit(order, Run(order, events).0, c, true, quotaFull).1.Answered?
    requires c.message != "" && c.reply.message != "" && |c.message| + |c.reply.message| <= 40_000
    ensures var next := Run(order, events + [Attempt(c, true, quotaFull)]).0;
            next.Some? && next.value.workspace == c.workspace
            && var messages := next.value.messages;
               |messages| >= 2 && messages[|messages| - 2..] ==
                 [Message(Some("user"), Some(c.message), []),
                  Message(Some("assistant"), Some(c.reply.message), c.reply.citations + c.reply.sources)]
  {
    hide Run, Keep, Holds, Stored, Reloaded, PutTurn, LastN;
    RunStep(order, events, Attempt(c, true, quotaFull));
    var store := Run(order, events).0;
    var older := if store.Some? then store.value.messages else [];
    LastTwo(older, c);
  }

  lemma LastTwo(older: seq<Message>, c: Chat)
    requires c.message != "" && c.reply.message != "" && |c.message| + |c.reply.message| <= 40_000
    ensures var messages := Bounded(older + Messages(c), MAX_SESSION_MESSAGES, MAX_HISTORY_CHARACTERS);
            |messages| >= 2 && messages[|messages| - 2..] == Messages(c)
  {
    hide Keep;
    var user, assistant := Messages(c)[0], Messages(c)[1];
    assert older + Messages(c) == (older + [user]) + [assistant];
    KeepLast(older + [user], assistant, MAX_SESSION_MESSAGES, MAX_HISTORY_CHARACTERS, false);
    KeepLast(older, user, MAX_SESSION_MESSAGES - 1, MAX_HISTORY_CHARACTERS - |c.reply.message|, true);
  }

  /** Without deletions a chat commits only onto the very session it read: no turn is lost in between. */
  lemma CommitsOntoWhatItRead(order: Order, before: seq<Event>, later: seq<Event>, c: Chat, quotaFull: bool)
    requires forall e | e in later :: !e.Delete?
    requires Run(order, before).0.Some? && c.snapshot == Some(Run(order, before).0.value.version)
    requires Commit(order, Run(order, before + later).0, c, true, quotaFull).1.Answered?
    ensures Run(order, before + later) == Run(order, before)
  {
    VersionsGrow(order, before, later);
  }

  lemma {:induction false} VersionsGrow(order: Order, before: seq<Event>, later: seq<Event>)
    requires Run(order, before).0.Some? && forall e | e in later :: !e.Delete?
    ensures var (s, t) := (Run(order, before).0, Run(order, before + later).0);
            t.Some? && t.value.version >= s.value.version && (t.value.version == s.value.version ==> Run(order, before + later) == Run(order, before))
  {
    if later == [] {
      assert before + later == before;
    } else {
      var mid := later[..|later| - 1];
      assert before + later == (before + mid) + [later[|later| - 1]];
      VersionsGrow(order, before, mid);
      assert (before + later)[..|before + later| - 1] == before + mid;
    }
  }

  /**
   How a commit ends, after any run. A chat that read version `v` is answered exactly when the chats committed
   since the session was last created number `v`, whichever session that is, the workspace is its own and its
   turn is not held; a chat that read no session exactly when there still is none and the quota is not full.
   Otherwise nothing is stored, and it is a replay if the cache holds its turn, over the limit if it would
   have to create a session, and else a conflict.
   */
  lemma CommitsIff(order: Order, events: seq<Event>, c: Chat, quotaFull: bool)
    requires Lawful(order)
    ensures var (store, log) := Run(order, events);
            var (next, outcome) := Commit(order, store, c, true, quotaFull);
            var mine := store.Some? && store.value.workspace == c.workspace;
            && (outcome.Answered? <==>
                  if c.snapshot.Some? then mine && |log| == c.snapshot.value && !HeldAfter(order, events, c.turnId)
                  else store.None? && !quotaFull)
            && (outcome.Replayed? <==> mine && HeldAfter(order, events, c.turnId))
            && (outcome.Limit? <==> store.None? && c.snapshot.None? && quotaFull)
            && (outcome.Answered? ==> outcome.reply == c.reply && Run(order, events + [Attempt(c, true, quotaFull)]).1 == log + [c])
            && (!outcome.Answered? ==> next == store)
    ensures Commit(order, Run(order, events).0, c, false, quotaFull) == (Run(order, events).0, Conflict)
  {
    hide Append, Saved, CacheOf, Ids, Lawful, Run;
    RunAgrees(order, events);
    RunStep(order, events, Attempt(c, true, quotaFull));
    if Run(order, events).0.Some? {
      NotHeld(Run(order, events).0.value.turns, c.turnId);
    }
  }

  /**
   In the log of a session each chat read exactly the chats before it: the first read no session, and no other
   chat that read none was ever appended, however many had begun before the session existed.
   */
  lemma {:induction false} EachReadTheOnesBefore(order: Order, events: seq<Event>)
    requires Lawful(order)
    ensures var log := Run(order, events).1;
            forall i | 0 <= i < |log| :: log[i].snapshot == if i == 0 then None else Some(i)
  {
    hide Commit, Lawful, HeldAfter, CacheOf, Trimmed, Fresh;
    if events != [] {
      var before, e := events[..|events| - 1], events[|events| - 1];
      EachReadTheOnesBefore(order, before);
      RunAgrees(order, before);
      SessionsHoldACommit(order, before);
      if e.Attempt? { CommitsIff(order, before, e.chat, e.quotaFull); }
    }
  }

  /** A chat without a turn id, for the session's next version. */
  function Filler(workspace: string, reply: Reply, n: nat): Chat {
    Chat(workspace, "", "m", reply, if n == 0 then None else Some(n))
  }

  function Fillers(workspace: string, reply: Reply, n: nat): seq<Chat> { seq(n, i requires 0 <= i => Filler(workspace, reply, i)) }

  /** A deletion, then `n` such chats. */
  function Refill(workspace: string, reply: Reply, n: nat): seq<Event> {
    if n == 0 then [Delete] else Refill(workspace, reply, n - 1) + [Attempt(Filler(workspace, reply, n - 1), true, false)]
  }

  lemma {:induction false} RefillRuns(order: Order, before: seq<Event>, workspace: string, reply: Reply, n: nat)
    ensures var (store, log) := Run(order, before + Refill(workspace, reply, n));
            && log == Fillers(workspace, reply, n)
            && (if n == 0 then store.None?
                else store.Some? && store.value.version == n && store.value.workspace == workspace && store.value.turns == [])
  {
    hide Run, Bounded;
    if n == 0 {
      RunStep(order, before, Delete);
      assert Fillers(workspace, reply, 0) == [];
    } else {
      var earlier, e := Refill(workspace, reply, n - 1), Attempt(Filler(workspace, reply, n - 1), true, false);
      RefillRuns(order, before, workspace, reply, n - 1);
      assert before + Refill(workspace, reply, n) == (before + earlier) + [e];
      RunStep(order, before + earlier, e);
      assert Fillers(workspace, reply, n) == Fillers(workspace, reply, n - 1) + [Filler(workspace, reply, n - 1)];
    }
  }

  lemma {:induction false} SessionsHoldACommit(order: Order, events: seq<Event>)
    ensures Run(order, events).0.Some? ==> Run(order, events).0.value.version >= 1
  {
    hide Append;
    if events != [] {
      SessionsHoldACommit(order, events[..|events| - 1]);
      forall s: Session, c: Chat ensures Append(s, c).version == s.version { AppendKeepsVersion(s, c); }
    }
  }

  lemma AppendKeepsVersion(s: Session, c: Chat)
    ensures Append(s, c).version == s.version
  {
  }

  /**
   With a deletion in between versions repeat. Whatever a chat read, after one deletion and as many new
   chats as it read it commits onto a session of which it read nothing.
   */
  lemma RecreatedSessionIsMistaken(order: Order, before: seq<Event>, c: Chat, reply: Reply)
    requires Run(order, before).0.Some? && c.snapshot == Some(Run(order, before).0.value.version)
    ensures var later := Refill(c.workspace, reply, c.snapshot.value);
            var (store, log) := Run(order, before + later);
            && log == Fillers(c.workspace, reply, c.snapshot.value)
            && Commit(order, store, c, true, false).1.Answered?
  {
    hide Run, Append;
    SessionsHoldACommit(order, before);
    RefillRuns(order, before, c.workspace, reply, c.snapshot.value);
  }
}
