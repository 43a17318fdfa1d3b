/** The sliding-window limiter with key eviction, refined against an ever-growing admission log. */
module RateLimiter {
  import opened Wrappers

  type Events = map<string, seq<real>>

  /** `popleft` while the oldest event is at or before the cutoff. */
  function Prune(s: seq<real>, cutoff: real): seq<real> {
    if s != [] && s[0] <= cutoff then Prune(s[1..], cutoff) else s
  }

  function Ceil(x: real): int { -((-x).Floor) }

  function Max(a: int, b: int): int { if a >= b then a else b }

  /** Seconds until the event at `t` leaves the window, at least 1. */
  function Wait(window: real, now: real, t: real): int { Max(1, Ceil(window - (now - t))) }

  /** The eviction pass over all keys: stale events go, then keys without events. */
  function Evict(events: Events, cutoff: real): Events {
    map k | k in events && Prune(events[k], cutoff) != [] :: Prune(events[k], cutoff)
  }

  /** The table after the key lookup: an unknown key may first evict others. */
  function Looked(events: Events, key: string, cutoff: real, maxKeys: nat): Events {
    if key !in events && |events| >= maxKeys then Evict(events, cutoff) else events
  }

  predicate Saturated(events: Events, key: string, cutoff: real, maxKeys: nat) {
    key !in events && |Looked(events, key, cutoff, maxKeys)| >= maxKeys
  }

  /** The live events of a key that is not refused for saturation. */
  function Live(events: Events, key: string, cutoff: real): seq<real> {
    if key in events then Prune(events[key], cutoff) else []
  }

  predicate Admits(events: Events, key: string, limit: nat, cutoff: real, maxKeys: nat) {
    !Saturated(events, key, cutoff, maxKeys) && |Live(events, key, cutoff)| < limit
  }

  /** The table after a check. */
  function Checked(events: Events, key: string, limit: nat, window: real, now: real, maxKeys: nat): Events {
    var table := Looked(events, key, now - window, maxKeys);
    var live := Live(events, key, now - window);
    if Saturated(events, key, now - window, maxKeys) then table
    else if |live| < limit then table[key := live + [now]]
    else table[key := live]
  }

  lemma EvictIs(events: Events, evicted: Events, cutoff: real)
    requires forall k | k in evicted :: k in events
    requires forall k | k in events ::
               if Prune(events[k], cutoff) == [] then k !in evicted
               else k in evicted && evicted[k] == Prune(events[k], cutoff)
    ensures evicted == Evict(events, cutoff)
  {
    hide Prune;
  }

  lemma EvictLeaves(events: Events, cutoff: real)
    ensures forall k | k in Evict(events, cutoff) :: Evict(events, cutoff)[k] != []
    ensures Prune([], cutoff) == []
  {
  }

  lemma PutTwice(events: Events, key: string, a: seq<real>, b: seq<real>)
    ensures events[key := a][key := b] == events[key := b]
  {
  }

  lemma CheckedFull(events: Events, key: string, limit: nat, window: real, now: real, maxKeys: nat)
    requires Saturated(events, key, now - window, maxKeys) && forall k | k in events :: events[k] != []
    ensures var table := Looked(events, key, now - window, maxKeys);
            Checked(events, key, limit, window, now, maxKeys) == table && forall k | k in table :: table[k] != []
    ensures !Admits(events, key, limit, now - window, maxKeys)
  {
    hide Prune;
  }

  lemma CheckedOpen(events: Events, key: string, limit: nat, window: real, now: real, maxKeys: nat)
    requires !Saturated(events, key, now - window, maxKeys) && limit >= 1 && forall k | k in events :: events[k] != []
    ensures var live := Live(events, key, now - window);
            var table := Looked(events, key, now - window, maxKeys)[key := if |live| < limit then live + [now] else live];
            Checked(events, key, limit, window, now, maxKeys) == table && forall k | k in table :: table[k] != []
    ensures Admits(events, key, limit, now - window, maxKeys) <==> |Live(events, key, now - window)| < limit
  {
    hide Prune;
  }

  class SlidingWindowRateLimiter {
    var events: Events
    const maxKeys: nat

    constructor (maxKeys: nat)
      requires maxKeys >= 1
      ensures Valid() && this.maxKeys == maxKeys && events == map[]
    {
      this.maxKeys := maxKeys;
      events := map[];
    }

    /** There is room for a key, and no deque is empty between calls. */
    predicate Valid()
      reads this
    {
      maxKeys >= 1 && forall k | k in events :: events[k] != []
    }

    /** One `while`/`popleft` loop. */
    method PruneLoop(s: seq<real>, cutoff: real) returns (r: seq<real>)
      ensures r == Prune(s, cutoff)
    {
      r := s;
      while r != [] && r[0] <= cutoff
        invariant Prune(r, cutoff) == Prune(s, cutoff)
      {
        r := r[1..];
      }
    }

    /** The eviction pass, key by key. */
    method EvictLoop(cutoff: real)
      modifies `events
      ensures events == Evict(old(events), cutoff)
    {
      hide Prune, Evict;
      var todo := events.Keys;
      while todo != {}
        invariant todo <= old(events).Keys
        invariant forall k | k in events :: k in old(events)
        invariant forall k | k in todo :: k in events && events[k] == old(events)[k]
        invariant forall k | k in old(events) && k !in todo ::
            if Prune(old(events)[k], cutoff) == [] then k !in events
            else k in events && events[k] == Prune(old(events)[k], cutoff)
        decreases todo
      {
        var k :| k in todo;
        var live := PruneLoop(events[k], cutoff);
        events := if live == [] then events - {k} else events[k := live];
        todo := todo - {k};
      }
      EvictIs(old(events), events, cutoff);
    }

    /** `min` over the oldest events of all keys. */
    method Oldest() returns (t: real)
      requires events != map[] && forall k | k in events :: events[k] != []
      ensures exists k :: k in events && t == events[k][0]
      ensures forall k | k in events :: t <= events[k][0]
    {
      var todo := events.Keys;
      var k :| k in todo;
      t := events[k][0];
      todo := todo - {k};
      while todo != {}
        invariant todo <= events.Keys
        invariant exists k :: k in events && t == events[k][0]
        invariant forall k | k in events && k !in todo :: t <= events[k][0]
        decreases todo
      {
        k :| k in todo;
        if events[k][0] < t { t := events[k][0]; }
        todo := todo - {k};
      }
    }

    /** `check`: `None` admits the request, a number of seconds refuses it. */
    method Check(key: string, limit: nat, window: real, now: real) returns (wait: Option<int>)
      requires limit >= 1 && Valid()
      modifies this
      ensures Valid()
      ensures events == Checked(old(events), key, limit, window, now, maxKeys)
      ensures wait.None? <==> Admits(old(events), key, limit, now - window, maxKeys)
      ensures wait.Some? && !Saturated(old(events), key, now - window, maxKeys) ==>
                wait.value == Wait(window, now, Live(old(events), key, now - window)[0])
      ensures Saturated(old(events), key, now - window, maxKeys) ==>
                exists k :: k in events && wait == Some(Wait(window, now, events[k][0]))
                            && forall l | l in events :: events[k][0] <= events[l][0]
    {
      hide Prune, Evict, Wait, Checked, Admits;
      var cutoff := now - window;
      EvictLeaves(events, cutoff);
      ghost var before := events;
      ghost var table := Looked(before, key, cutoff, maxKeys);
      if key !in events {
        if |events| >= maxKeys {
          EvictLoop(cutoff);
        }
        if |events| >= maxKeys {
          CheckedFull(before, key, limit, window, now, maxKeys);
          var oldest := Oldest();
          return Some(Wait(window, now, oldest));
        }
        events := events[key := []];
      }
      CheckedOpen(before, key, limit, window, now, maxKeys);
      assert events == table || events == table[key := []];
      hide Looked, Saturated;
      var live := PruneLoop(events[key], cutoff);
      assert live == Live(before, key, cutoff);
      hide Live;
      events := events[key := live];
      PutTwice(table, key, [], live);
      if |live| >= limit {
        return Some(Wait(window, now, live[0]));
      }
      events := events[key := live + [now]];
      PutTwice(table, key, live, live + [now]);
      return None;
    }
  }
}
