/**
 The serial upload queue: one asynchronous drain over a list that can be added to, filtered, closed and
 reopened while a task is being awaited.

 `Queue` is its state between two turns of the event loop, `Step` what one call or one settled task does
 to it. Tickets number the enqueued items; `undefined` items are `None`.
 */
module UploadQueue {
  import opened Wrappers

  datatype Entry<T> = Entry(ticket: nat, item: Option<T>)

  /**
   `awaiting` are the tickets whose task a suspended drain awaits. `started`, `removed`, `dropped` and
   `skipped` record what became of the tickets that left `pending`.
   */
  datatype Queue<T> = Queue(
    pending: seq<Entry<T>>, running: bool, closed: bool, awaiting: set<nat>,
    started: seq<nat>, removed: set<nat>, dropped: set<nat>, skipped: set<nat>, next: nat)

  datatype Event<!T> = Enqueue(items: seq<Option<T>>) | Remove(match': Option<T> -> bool) | Close | Open | Settle(ticket: nat)

  function Tickets<T>(pending: seq<Entry<T>>): set<nat> { set i | 0 <= i < |pending| :: pending[i].ticket }

  /** The drain's loop up to its next `await` or its end. */
  function Loop<T>(q: Queue<T>): Queue<T>
    decreases |q.pending|
  {
    if q.closed || q.pending == [] then q.(running := false)
    else
      var e := q.pending[0];
      var rest := q.(pending := q.pending[1..]);
      if e.item.None? then Loop(rest.(skipped := q.skipped + {e.ticket}))
      else rest.(awaiting := q.awaiting + {e.ticket}, started := q.started + [e.ticket])
  }

  function Drain<T>(q: Queue<T>): Queue<T> {
    if q.running || q.closed then q else Loop(q.(running := true))
  }

  function Numbered<T>(items: seq<Option<T>>, next: nat): (r: seq<Entry<T>>)
    ensures |r| == |items| && forall i | 0 <= i < |items| :: r[i] == Entry(next + i, items[i])
  {
    seq(|items|, i requires 0 <= i < |items| => Entry(next + i, items[i]))
  }

  function Kept<T>(pending: seq<Entry<T>>, match': Option<T> -> bool): seq<Entry<T>> {
    if pending == [] then []
    else (if match'(pending[0].item) then [] else [pending[0]]) + Kept(pending[1..], match')
  }

  lemma KeptAt<T>(pending: seq<Entry<T>>, i: nat, match': Option<T> -> bool)
    requires i <= |pending|
    ensures i == |pending| ==> Kept(pending[i..], match') == []
    ensures i < |pending| ==>
              Kept(pending[i..], match') == (if match'(pending[i].item) then [] else [pending[i]]) + Kept(pending[i + 1..], match')
  {
    if i < |pending| { assert pending[i..][1..] == pending[i + 1..]; }
  }

  function Step<T>(q: Queue<T>, event: Event<T>): Queue<T> {
    match event
    case Enqueue(items) =>
      if q.closed || items == [] then q
      else Drain(q.(pending := q.pending + Numbered(items, q.next), next := q.next + |items|))
    case Remove(match') =>
      var kept := Kept(q.pending, match');
      q.(pending := kept, removed := q.removed + (Tickets(q.pending) - Tickets(kept)))
    case Close => q.(closed := true, pending := [], dropped := q.dropped + Tickets(q.pending))
    case Open => Drain(q.(closed := false))
    case Settle(ticket) => if ticket in q.awaiting then Loop(q.(awaiting := q.awaiting - {ticket})) else q
  }

  function New<T>(): Queue<T> { Queue([], false, false, {}, [], {}, {}, {}, 0) }

  function Run<T>(events: seq<Event<T>>): Queue<T> {
    if events == [] then New() else Step(Run(events[..|events| - 1]), events[|events| - 1])
  }

  /** The queue as the closure keeps it. */
  class SerialTaskQueue<T> {
    var pending: seq<Entry<T>>
    var running: bool
    var closed: bool
    var awaiting: set<nat>
    ghost var started: seq<nat>
    ghost var removed: set<nat>
    ghost var dropped: set<nat>
    ghost var skipped: set<nat>
    var next: nat

    ghost function Now(): Queue<T>
      reads this
    {
      Queue(pending, running, closed, awaiting, started, removed, dropped, skipped, next)
    }

    constructor ()
      ensures Now() == New()
    {
      pending, running, closed, awaiting, next := [], false, false, {}, 0;
      started, removed, dropped, skipped := [], {}, {}, {};
    }

    /** The drain from its loop head to its next `await`, or through its `finally`. */
    method DrainLoop()
      modifies this
      ensures Now() == Loop(old(Now()))
    {
      while !closed && pending != []
        invariant Loop(Now()) == Loop(old(Now()))
        decreases |pending|
      {
        var e := pending[0];
        pending := pending[1..];
        if e.item.Some? {
          awaiting, started := awaiting + {e.ticket}, started + [e.ticket];
          return;
        }
        skipped := skipped + {e.ticket};
      }
      // the loop's exit makes the restart in `finally` impossible
      running := false;
    }

    method StartDrain()
      modifies this
      ensures Now() == Drain(old(Now()))
    {
      if running || closed { return; }
      running := true;
      DrainLoop();
    }

    method EnqueueItems(items: seq<Option<T>>)
      modifies this
      ensures Now() == Step(old(Now()), Enqueue(items))
    {
      hide Loop, Numbered;
      if closed || items == [] { return; }
      pending, next := pending + Numbered(items, next), next + |items|;
      StartDrain();
    }

    method RemoveItems(match': Option<T> -> bool)
      modifies this
      ensures Now() == Step(old(Now()), Remove(match'))
    {
      var kept, i := [], 0;
      assert pending[0..] == pending && kept + Kept(pending, match') == Kept(pending, match');
      while i < |pending|
        invariant 0 <= i <= |pending| && Now() == old(Now())
        invariant kept + Kept(pending[i..], match') == Kept(pending, match')
      {
        KeptAt(pending, i, match');
        var rest := Kept(pending[i + 1..], match');
        assert kept + ([] + rest) == kept + rest && kept + ([pending[i]] + rest) == (kept + [pending[i]]) + rest;
        if !match'(pending[i].item) { kept := kept + [pending[i]]; }
        i := i + 1;
      }
      KeptAt(pending, i, match');
      assert kept + [] == kept;
      removed := removed + (Tickets(pending) - Tickets(kept));
      pending := kept;
    }

    method CloseQueue()
      modifies this
      ensures Now() == Step(old(Now()), Close)
    {
      closed, dropped := true, dropped + Tickets(pending);
      pending := [];
    }

    method OpenQueue()
      modifies this
      ensures Now() == Step(old(Now()), Open)
    {
      closed := false;
      StartDrain();
    }

    /** The awaited task resolved or rejected: its drain goes on. */
    method TaskSettled(ticket: nat)
      requires ticket in awaiting
      modifies this
      ensures Now() == Step(old(Now()), Settle(ticket))
    {
      awaiting := awaiting - {ticket};
      DrainLoop();
    }
  }

  // ---------------------------------------------------------------- what every run keeps

  predicate Increasing(s: seq<nat>) { forall i, j | 0 <= i < j < |s| :: s[i] < s[j] }

  function TicketsOf<T>(pending: seq<Entry<T>>): seq<nat> { seq(|pending|, i requires 0 <= i < |pending| => pending[i].ticket) }

  /** At most one task runs, started and pending tickets are in enqueue order, open queues are served. */
  predicate Serial<T>(q: Queue<T>) {
    && (q.running <==> q.awaiting != {})
    && (q.running ==> q.started != [] && q.awaiting == {q.started[|q.started| - 1]})
    && Increasing(q.started + TicketsOf(q.pending))
    && (q.closed ==> q.pending == [])
    && (!q.closed && q.pending != [] ==> q.running)
  }

  /** How often a ticket occurs among the five fates. */
  function Fates<T>(q: Queue<T>, ticket: nat): nat {
    (if ticket in Tickets(q.pending) then 1 else 0) + (if ticket in q.started then 1 else 0)
    + (if ticket in q.removed then 1 else 0) + (if ticket in q.dropped then 1 else 0)
    + if ticket in q.skipped then 1 else 0
  }

  /** Every ticket given out has exactly one fate, no other ticket has any. */
  ghost predicate Accounted<T>(q: Queue<T>) {
    forall ticket: nat :: Fates(q, ticket) == if ticket < q.next then 1 else 0
  }

  /** Between loop head and `await`: what a drain that holds `running` may rely on. */
  predicate AtHead<T>(q: Queue<T>) {
    q.running && q.awaiting == {} && Increasing(q.started + TicketsOf(q.pending)) && (q.closed ==> q.pending == [])
  }

  lemma {:induction false} LoopServes<T>(q: Queue<T>)
    requires AtHead(q) && Accounted(q)
    ensures Serial(Loop(q)) && Accounted(Loop(q))
    ensures Loop(q).next == q.next && Loop(q).closed == q.closed && q.started <= Loop(q).started
    decreases |q.pending|
  {
    hide Accounted;
    if q.closed || q.pending == [] {
      SameFates(q, q.(running := false));
    } else {
      var e := q.pending[0];
      var rest := q.(pending := q.pending[1..]);
      HeadTicket(q);
      if e.item.None? {
        var skip := rest.(skipped := q.skipped + {e.ticket});
        assert TicketsOf(q.pending) == [e.ticket] + TicketsOf(skip.pending);
        assert forall i, j | 0 <= i < j < |q.started + TicketsOf(skip.pending)| ::
            (q.started + TicketsOf(skip.pending))[i] < (q.started + TicketsOf(skip.pending))[j] by {
          DropMiddle(q.started, e.ticket, TicketsOf(skip.pending));
        }
        LoopServes(skip);
      } else {
        var t := rest.(awaiting := q.awaiting + {e.ticket}, started := q.started + [e.ticket]);
        assert t.started + TicketsOf(t.pending) == q.started + TicketsOf(q.pending);
      }
    }
  }

  lemma DropMiddle(a: seq<nat>, x: nat, b: seq<nat>)
    requires Increasing(a + ([x] + b))
    ensures Increasing(a + b)
  {
    var s, t := a + ([x] + b), a + b;
    forall i, j | 0 <= i < j < |t| ensures t[i] < t[j] {
      var k, l := if i < |a| then i else i + 1, if j < |a| then j else j + 1;
      assert s[k] == t[i] && s[l] == t[j];
    }
  }

  /** Taking the head off changes only the head's fate. */
  lemma HeadTicket<T>(q: Queue<T>)
    requires q.pending != [] && Increasing(q.started + TicketsOf(q.pending)) && Accounted(q)
    ensures var e := q.pending[0];
            var rest := q.(pending := q.pending[1..]);
            && Accounted(rest.(skipped := q.skipped + {e.ticket}))
            && Accounted(rest.(awaiting := q.awaiting + {e.ticket}, started := q.started + [e.ticket]))
  {
    var e := q.pending[0];
    var rest := q.(pending := q.pending[1..]);
    forall i | 0 <= i < |rest.pending| ensures rest.pending[i].ticket != e.ticket {
      var s, n := q.started + TicketsOf(q.pending), |q.started|;
      assert s[n] == e.ticket && s[n + 1 + i] == rest.pending[i].ticket;
    }
    var skip, start := rest.(skipped := q.skipped + {e.ticket}), rest.(awaiting := q.awaiting + {e.ticket}, started := q.started + [e.ticket]);
    assert q.pending == [e] + rest.pending;
    assert e.ticket in Tickets(q.pending) && e.ticket !in Tickets(rest.pending);
    forall ticket: nat
      ensures Fates(skip, ticket) == Fates(start, ticket) == if ticket < q.next then 1 else 0
    {
      assert Fates(q, ticket) == if ticket < q.next then 1 else 0;
      assert ticket in Tickets(q.pending) <==> ticket == e.ticket || ticket in Tickets(rest.pending) by {
        assert forall i | 0 <= i < |rest.pending| :: rest.pending[i] == q.pending[i + 1];
      }
    }
  }

  lemma SameFates<T>(q: Queue<T>, t: Queue<T>)
    requires t == q.(running := t.running, awaiting := t.awaiting, closed := t.closed) && Accounted(q)
    ensures Accounted(t)
  {
    forall ticket: nat ensures Fates(t, ticket) == Fates(q, ticket) {}
  }

  // ---------------------------------------------------------------- the calls

  lemma DrainServes<T>(q: Queue<T>)
    requires Accounted(q) && Increasing(q.started + TicketsOf(q.pending)) && (q.closed ==> q.pending == [])
    requires (q.running <==> q.awaiting != {}) && (q.running ==> q.started != [] && q.awaiting == {q.started[|q.started| - 1]})
    ensures Serial(Drain(q)) && Accounted(Drain(q)) && Drain(q).next == q.next && q.started <= Drain(q).started
  {
    hide Accounted, Increasing, Loop;
    if !q.running && !q.closed {
      SameFates(q, q.(running := true));
      LoopServes(q.(running := true));
    }
  }

  lemma EnqueueServes<T>(q: Queue<T>, items: seq<Option<T>>)
    requires Serial(q) && Accounted(q) && !q.closed
    ensures var t := q.(pending := q.pending + Numbered(items, q.next), next := q.next + |items|);
            Accounted(t) && Increasing(t.started + TicketsOf(t.pending))
  {
    var added := Numbered(items, q.next);
    var t := q.(pending := q.pending + added, next := q.next + |items|);
    AllGivenOut(q);
    var s, u := q.started + TicketsOf(q.pending), TicketsOf(added);
    assert t.started + TicketsOf(t.pending) == s + u;
    forall i, j | 0 <= i < j < |s + u| ensures (s + u)[i] < (s + u)[j] {
      if i < |s| <= j {
        assert s[i] in s && s[i] < q.next;
        assert added[j - |s|] == Entry(q.next + (j - |s|), items[j - |s|]) && u[j - |s|] == q.next + (j - |s|);
      } else if |s| <= i {
        assert added[i - |s|] == Entry(q.next + (i - |s|), items[i - |s|]);
        assert added[j - |s|] == Entry(q.next + (j - |s|), items[j - |s|]);
      }
    }
    forall ticket: nat ensures Fates(t, ticket) == if ticket < t.next then 1 else 0 {
      assert Fates(q, ticket) == if ticket < q.next then 1 else 0;
      AddedTickets(q.pending, items, q.next, ticket);
    }
  }

  lemma AddedTickets<T>(pending: seq<Entry<T>>, items: seq<Option<T>>, next: nat, ticket: nat)
    ensures ticket in Tickets(pending + Numbered(items, next)) <==>
              ticket in Tickets(pending) || next <= ticket < next + |items|
  {
    var added := Numbered(items, next);
    var both := pending + added;
    if ticket in Tickets(pending) {
      var i :| 0 <= i < |pending| && pending[i].ticket == ticket;
      assert both[i].ticket == ticket;
    }
    if next <= ticket < next + |items| { assert both[|pending| + ticket - next].ticket == ticket; }
  }

  lemma AllGivenOut<T>(q: Queue<T>)
    requires Accounted(q)
    ensures forall x | x in q.started + TicketsOf(q.pending) :: x < q.next
  {
    forall x | x in q.started + TicketsOf(q.pending) ensures x < q.next {
      assert Fates(q, x) == if x < q.next then 1 else 0;
      if x !in q.started {
        var i :| 0 <= i < |q.pending| && q.pending[i].ticket == x;
        assert x in Tickets(q.pending);
      }
    }
  }

  /** Filtering keeps order, and keeps or removes each ticket. */
  lemma {:induction false} KeptOrder<T>(a: seq<nat>, pending: seq<Entry<T>>, match': Option<T> -> bool)
    requires Increasing(a + TicketsOf(pending))
    ensures Increasing(a + TicketsOf(Kept(pending, match')))
    decreases |pending|
  {
    hide Increasing;
    if pending != [] {
      var e, rest := pending[0], pending[1..];
      assert TicketsOf(pending) == [e.ticket] + TicketsOf(rest);
      if match'(e.item) {
        DropMiddle(a, e.ticket, TicketsOf(rest));
        KeptOrder(a, rest, match');
        assert Kept(pending, match') == Kept(rest, match');
      } else {
        assert a + TicketsOf(pending) == (a + [e.ticket]) + TicketsOf(rest);
        KeptOrder(a + [e.ticket], rest, match');
        var kept := Kept(rest, match');
        assert Kept(pending, match') == [e] + kept;
        assert a + TicketsOf([e] + kept) == (a + [e.ticket]) + TicketsOf(kept);
      }
    }
  }

  lemma {:induction false} KeptTickets<T>(pending: seq<Entry<T>>, match': Option<T> -> bool)
    ensures Tickets(Kept(pending, match')) <= Tickets(pending)
    decreases |pending|
  {
    if pending != [] {
      var e, rest := pending[0], pending[1..];
      KeptTickets(rest, match');
      assert forall i | 0 <= i < |rest| :: rest[i] == pending[i + 1];
      var kept := Kept(rest, match');
      assert forall i | 0 <= i < |kept| :: ([e] + kept)[i + 1] == kept[i];
      assert Tickets([e] + kept) <= {e.ticket} + Tickets(kept);
      assert pending[0].ticket in Tickets(pending) && Tickets(rest) <= Tickets(pending);
      assert match'(e.item) ==> Kept(pending, match') == kept;
    }
  }

  lemma RemoveServes<T>(q: Queue<T>, match': Option<T> -> bool)
    requires Serial(q) && Accounted(q)
    ensures Serial(Step(q, Remove(match'))) && Accounted(Step(q, Remove(match')))
  {
    hide Increasing;
    var t := Step(q, Remove(match'));
    KeptOrder(q.started, q.pending, match');
    KeptTickets(q.pending, match');
    forall ticket: nat ensures Fates(t, ticket) == if ticket < t.next then 1 else 0 {
      assert Fates(q, ticket) == if ticket < q.next then 1 else 0;
    }
    if q.pending == [] { assert t.pending == []; }
  }

  lemma CloseServes<T>(q: Queue<T>)
    requires Serial(q) && Accounted(q)
    ensures Serial(Step(q, Close)) && Accounted(Step(q, Close))
  {
    var t := Step(q, Close);
    forall ticket: nat ensures Fates(t, ticket) == if ticket < t.next then 1 else 0 {
      assert Fates(q, ticket) == if ticket < q.next then 1 else 0;
    }
    assert t.started + TicketsOf(t.pending) == q.started;
    assert forall i | 0 <= i < |q.started| :: (q.started + TicketsOf(q.pending))[i] == q.started[i];
  }

  lemma SettleServes<T>(q: Queue<T>, ticket: nat)
    requires Serial(q) && Accounted(q)
    ensures var t := Step(q, Settle(ticket)); Serial(t) && Accounted(t) && t.next == q.next && q.started <= t.started
  {
    hide Accounted, Increasing, Loop;
    if ticket in q.awaiting {
      assert q.awaiting - {ticket} == {};
      SameFates(q, q.(awaiting := q.awaiting - {ticket}));
      LoopServes(q.(awaiting := q.awaiting - {ticket}));
    }
  }

  /**
   Whatever is called and however tasks settle: at most one task runs, tasks start in the order they
   were enqueued, every enqueued item is exactly one of pending, started, removed, dropped by a close
   or skipped as `undefined`, and an open queue with pending items is being drained.
   */
  lemma {:induction false} AlwaysSerial<T>(events: seq<Event<T>>)
    ensures Serial(Run(events)) && Accounted(Run(events))
  {
    hide Serial, Accounted, Step;
    if events == [] {
      StartsSerial<T>();
    } else {
      AlwaysSerial(events[..|events| - 1]);
      StepServes(Run(events[..|events| - 1]), events[|events| - 1]);
    }
  }

  lemma StartsSerial<T>()
    ensures Serial(New<T>()) && Accounted(New<T>())
  {
  }

  lemma StepServes<T>(q: Queue<T>, event: Event<T>)
    requires Serial(q) && Accounted(q)
    ensures Serial(Step(q, event)) && Accounted(Step(q, event))
  {
    hide Accounted, Increasing, Loop, Drain;
    match event
    case Enqueue(items) =>
      if !q.closed && items != [] {
        EnqueueServes(q, items);
        DrainServes(q.(pending := q.pending + Numbered(items, q.next), next := q.next + |items|));
      }
    case Remove(match') => RemoveServes(q, match');
    case Close => CloseServes(q);
    case Open =>
      SameFates(q, q.(closed := false));
      DrainServes(q.(closed := false));
    case Settle(ticket) => SettleServes(q, ticket);
  }

  /** Started tickets are never forgotten or reordered. */
  lemma StartedGrows<T>(q: Queue<T>, event: Event<T>)
    requires Serial(q) && Accounted(q)
    ensures q.started <= Step(q, event).started
  {
    hide Accounted, Increasing, Loop, Drain;
    match event
    case Enqueue(items) =>
      if !q.closed && items != [] {
        EnqueueServes(q, items);
        DrainServes(q.(pending := q.pending + Numbered(items, q.next), next := q.next + |items|));
      }
    case Remove(match') =>
    case Close =>
    case Open =>
      SameFates(q, q.(closed := false));
      DrainServes(q.(closed := false));
    case Settle(ticket) => SettleServes(q, ticket);
  }

  // ---------------------------------------------------------------- an open queue empties itself

  /** The running task settles, again and again, with no other call. */
  function Settled<T>(q: Queue<T>, times: nat): Queue<T>
    decreases times
  {
    if times == 0 || q.started == [] then q else Settled(Step(q, Settle(q.started[|q.started| - 1])), times - 1)
  }

  /** The tickets a drain will start: the pending ones that are not `undefined`, in order. */
  function ToStart<T>(pending: seq<Entry<T>>): seq<nat> {
    if pending == [] then [] else (if pending[0].item.Some? then [pending[0].ticket] else []) + ToStart(pending[1..])
  }

  lemma {:induction false} LoopStarts<T>(q: Queue<T>)
    requires !q.closed && q.running
    ensures var t := Loop(q);
            && !t.closed && t.started + ToStart(t.pending) == q.started + ToStart(q.pending)
            && (|t.pending| < |q.pending| || (t.pending == [] && !t.running && t.awaiting == q.awaiting))
            && (t.running || t.pending == [])
    decreases |q.pending|
  {
    if q.pending != [] {
      var e := q.pending[0];
      var rest := q.(pending := q.pending[1..]);
      if e.item.None? {
        LoopStarts(rest.(skipped := q.skipped + {e.ticket}));
      } else {
        assert q.started + ([e.ticket] + ToStart(rest.pending)) == (q.started + [e.ticket]) + ToStart(rest.pending);
      }
    }
  }

  /** Left alone, an open queue starts everything that was pending, in order, and comes to rest. */
  lemma {:induction false} OpenQueueDrains<T>(q: Queue<T>, times: nat)
    requires Serial(q) && Accounted(q) && !q.closed && times > |q.pending|
    ensures var t := Settled(q, times); t.pending == [] && !t.running && t.started == q.started + ToStart(q.pending)
    decreases times
  {
    hide Accounted, Increasing, Loop, ToStart;
    if q.running {
      var last := q.started[|q.started| - 1];
      SettleServes(q, last);
      LoopStarts(q.(awaiting := q.awaiting - {last}));
      var t := Step(q, Settle(last));
      if |t.pending| < |q.pending| {
        OpenQueueDrains(t, times - 1);
      } else {
        AtRest(t, times - 1);
        NothingToStart<T>();
      }
    } else {
      AtRest(q, times);
      NothingToStart<T>();
    }
  }

  lemma NothingToStart<T>()
    ensures ToStart<T>([]) == []
  {
  }

  lemma {:induction false} AtRest<T>(q: Queue<T>, times: nat)
    requires q.awaiting == {}
    ensures Settled(q, times) == q
  {
    if times > 0 && q.started != [] { AtRest(q, times - 1); }
  }

  // ---------------------------------------------------------------- what each call does

  lemma {:induction false} KeptIs<T>(pending: seq<Entry<T>>, match': Option<T> -> bool)
    ensures forall e :: e in Kept(pending, match') <==> e in pending && !match'(e.item)
    decreases |pending|
  {
    if pending != [] {
      KeptIs(pending[1..], match');
      assert pending == [pending[0]] + pending[1..];
    }
  }

  /**
   Removing takes exactly the pending items the caller's predicate matches, and touches neither the task that
   is running nor any that has run.
   */
  lemma RemoveTakesMatches<T>(q: Queue<T>, match': Option<T> -> bool)
    requires Serial(q) && Accounted(q)
    ensures var t := Step(q, Remove(match'));
            && (forall e :: e in t.pending <==> e in q.pending && !match'(e.item))
            && (forall e | e in q.pending :: e.ticket in t.removed <==> match'(e.item))
            && q.removed <= t.removed && t == q.(pending := t.pending, removed := t.removed)
  {
    hide Accounted, Increasing;
    var t := Step(q, Remove(match'));
    KeptIs(q.pending, match');
    forall e | e in q.pending ensures e.ticket in t.removed <==> match'(e.item) {
      OnceOnly(q, e);
      var i :| 0 <= i < |q.pending| && q.pending[i] == e;
      assert e.ticket in Tickets(q.pending);
      if e in t.pending {
        var k :| 0 <= k < |t.pending| && t.pending[k] == e;
        assert e.ticket in Tickets(t.pending);
      }
      if e.ticket in Tickets(t.pending) {
        var k :| 0 <= k < |t.pending| && t.pending[k].ticket == e.ticket;
        assert t.pending[k] in t.pending;
      }
    }
  }

  /** A pending ticket is pending once, and has no other fate. */
  lemma OnceOnly<T>(q: Queue<T>, e: Entry<T>)
    requires Serial(q) && Accounted(q) && e in q.pending
    ensures e.ticket !in q.removed && forall f | f in q.pending && f.ticket == e.ticket :: f == e
  {
    var i :| 0 <= i < |q.pending| && q.pending[i] == e;
    assert Fates(q, e.ticket) <= 1 && e.ticket in Tickets(q.pending);
    forall f | f in q.pending && f.ticket == e.ticket ensures f == e {
      var k :| 0 <= k < |q.pending| && q.pending[k] == f;
      var s, n := q.started + TicketsOf(q.pending), |q.started|;
      assert s[n + i] == s[n + k] == e.ticket;
    }
  }

  lemma ToStartFirst<T>(s: seq<Entry<T>>)
    requires s != []
    ensures ToStart(s) == (if s[0].item.Some? then [s[0].ticket] else []) + ToStart(s[1..])
  {
  }

  lemma {:induction false} ToStartMore<T>(a: seq<Entry<T>>, b: seq<Entry<T>>)
    ensures ToStart(a + b) == ToStart(a) + ToStart(b)
    decreases |a|
  {
    if a == [] {
      assert a + b == b;
    } else {
      hide ToStart;
      ToStartMore(a[1..], b);
      ToStartFirst(a);
      assert a + b == [a[0]] + (a[1..] + b) && (a + b)[1..] == a[1..] + b;
      ToStartFirst(a + b);
      var first := if a[0].item.Some? then [a[0].ticket] else [];
      assert first + (ToStart(a[1..]) + ToStart(b)) == (first + ToStart(a[1..])) + ToStart(b);
    }
  }

  /**
   Enqueuing on an open queue puts the new items behind everything that is started or waiting, in the order they
   are given; on a closed queue it does nothing.
   */
  lemma EnqueueGoesLast<T>(q: Queue<T>, items: seq<Option<T>>)
    requires Serial(q) && Accounted(q)
    ensures var t := Step(q, Enqueue(items));
            && (q.closed ==> t == q)
            && (!q.closed ==>
                  !t.closed && t.started + ToStart(t.pending) == q.started + (ToStart(q.pending) + ToStart(Numbered(items, q.next))))
  {
    hide Accounted, Increasing, Loop;
    if !q.closed && items != [] {
      ToStartMore(q.pending, Numbered(items, q.next));
      LoopStarts(q.(pending := q.pending + Numbered(items, q.next), next := q.next + |items|, running := true));
    } else {
      assert Numbered<T>([], q.next) == [];
      assert ToStart(q.pending) + [] == ToStart(q.pending);
    }
  }

  /** Closing drops everything that waits and starts nothing; the running task is left to finish. */
  lemma CloseDropsPending<T>(q: Queue<T>)
    ensures var t := Step(q, Close);
            && t.closed && t.pending == [] && t == q.(closed := true, pending := [], dropped := t.dropped)
            && forall ticket :: ticket in t.dropped <==> ticket in q.dropped || exists e :: e in q.pending && e.ticket == ticket
  {
    var t := Step(q, Close);
    forall ticket ensures ticket in t.dropped <==> ticket in q.dropped || exists e :: e in q.pending && e.ticket == ticket {
      if ticket in Tickets(q.pending) {
        var i :| 0 <= i < |q.pending| && q.pending[i].ticket == ticket;
        assert q.pending[i] in q.pending;
      }
    }
  }

  /** Opening serves what waits, and changes neither what has started nor the order of the rest. */
  lemma OpenServesOn<T>(q: Queue<T>)
    requires Serial(q)
    ensures var t := Step(q, Open);
            !t.closed && t.started + ToStart(t.pending) == q.started + ToStart(q.pending) && t.removed == q.removed && t.dropped == q.dropped
  {
    hide Increasing;
    if !q.running {
      LoopStarts(q.(closed := false, running := true));
      LoopFates(q.(closed := false, running := true));
    }
  }

  lemma {:induction false} LoopFates<T>(q: Queue<T>)
    ensures Loop(q).removed == q.removed && Loop(q).dropped == q.dropped
    decreases |q.pending|
  {
    if !q.closed && q.pending != [] && q.pending[0].item.None? {
      LoopFates(q.(pending := q.pending[1..], skipped := q.skipped + {q.pending[0].ticket}));
    }
  }

  lemma RunStep<T>(events: seq<Event<T>>, event: Event<T>)
    ensures Run(events + [event]) == Step(Run(events), event)
  {
    assert (events + [event])[..|events|] == events;
  }

  /**
   Items given to a new queue are all started, in the order given, one as the other settles, and then it rests.
   */
  lemma FirstBatch<T>(items: seq<Option<T>>)
    ensures var q := Run([Enqueue(items)]);
            var t := Settled(q, |items| + 1);
            t.pending == [] && !t.running && t.started == ToStart(Numbered(items, 0))
  {
    hide Loop;
    RunStep<T>([], Enqueue(items));
    assert [] + [Enqueue(items)] == [Enqueue(items)];
    StartsSerial<T>();
    AlwaysSerial([Enqueue(items)]);
    EnqueueGoesLast(New<T>(), items);
    var q := Run([Enqueue(items)]);
    PendingFits(items);
    OpenQueueDrains(q, |items| + 1);
    NothingToStart<T>();
    assert [] + ([] + ToStart(Numbered(items, 0))) == ToStart(Numbered(items, 0));
  }

  lemma PendingFits<T>(items: seq<Option<T>>)
    ensures |Step(New<T>(), Enqueue(items)).pending| <= |items|
  {
    if items != [] { LoopShorter(New<T>().(pending := [] + Numbered(items, 0), next := |items|, running := true)); }
  }

  lemma {:induction false} LoopShorter<T>(q: Queue<T>)
    ensures |Loop(q).pending| <= |q.pending|
    decreases |q.pending|
  {
    if !q.closed && q.pending != [] && q.pending[0].item.None? {
      LoopShorter(q.(pending := q.pending[1..], skipped := q.skipped + {q.pending[0].ticket}));
    }
  }
}
