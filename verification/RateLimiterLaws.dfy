/**
 What the limiter decides, said on the log of all admissions ever made.

 The table forgets keys and prunes deques, yet for non-decreasing clocks each decision is a function
 of the log alone (`DecidesByLog`): the key's live admissions against its limit, and the other live
 keys against `maxKeys`.
 */
module RateLimiterLaws {
  import opened SetCounting
  import opened Wrappers
  import opened RateLimiter

  datatype Request = Request(key: string, limit: nat, now: real)
  datatype Admission = Admission(key: string, at: real)

  /** The admissions of a key after the cutoff, oldest first. */
  function LogLive(log: seq<Admission>, key: string, cutoff: real): seq<real> {
    if log == [] then []
    else
      var a := log[|log| - 1];
      LogLive(log[..|log| - 1], key, cutoff) + if a.key == key && a.at > cutoff then [a.at] else []
  }

  function LiveKeys(log: seq<Admission>, cutoff: real): set<string> {
    set a | a in log && a.at > cutoff :: a.key
  }

  /** The decision of an ever-growing log. */
  predicate LogAdmits(log: seq<Admission>, r: Request, window: real, maxKeys: nat) {
    && |LogLive(log, r.key, r.now - window)| < r.limit
    && |LiveKeys(log, r.now - window) - {r.key}| < maxKeys
  }

  /** The admissions of the limiter that keeps the whole log. */
  function LogRun(rs: seq<Request>, window: real, maxKeys: nat): seq<Admission> {
    if rs == [] then []
    else
      var log, r := LogRun(rs[..|rs| - 1], window, maxKeys), rs[|rs| - 1];
      if LogAdmits(log, r, window, maxKeys) then log + [Admission(r.key, r.now)] else log
  }

  /** The limiter's table and its admissions after a run. */
  function Run(rs: seq<Request>, window: real, maxKeys: nat): (Events, seq<Admission>) {
    if rs == [] then (map[], [])
    else
      var (events, log) := Run(rs[..|rs| - 1], window, maxKeys);
      var r := rs[|rs| - 1];
      (Checked(events, r.key, r.limit, window, r.now, maxKeys),
       if Admits(events, r.key, r.limit, r.now - window, maxKeys) then log + [Admission(r.key, r.now)] else log)
  }

  predicate NonDecreasing(rs: seq<Request>) {
    forall i, j | 0 <= i < j < |rs| :: rs[i].now <= rs[j].now
  }

  // ---------------------------------------------------------------- pruning

  lemma {:induction false} PruneTwice(s: seq<real>, c: real, d: real)
    requires c <= d
    ensures Prune(Prune(s, c), d) == Prune(s, d)
  {
    if s != [] && s[0] <= c { PruneTwice(s[1..], c, d); }
  }

  lemma {:induction false} PruneAppend(s: seq<real>, x: real, c: real)
    requires x > c
    ensures Prune(s + [x], c) == Prune(s, c) + [x]
  {
    if s == [] {
      assert [] + [x] == [x];
    } else if s[0] <= c {
      assert (s + [x])[1..] == s[1..] + [x];
      PruneAppend(s[1..], x, c);
    }
  }

  lemma {:induction false} PruneAll(s: seq<real>, c: real)
    requires forall t | t in s :: t <= c
    ensures Prune(s, c) == []
  {
    if s != [] {
      assert s[0] in s && forall t | t in s[1..] :: t in s;
      PruneAll(s[1..], c);
    }
  }

  lemma {:induction false} PruneKeepsTail(s: seq<real>, c: real)
    ensures forall t | t in Prune(s, c) :: t in s
    ensures Prune(s, c) != [] ==> Prune(s, c)[0] > c
  {
    if s != [] && s[0] <= c { PruneKeepsTail(s[1..], c); }
  }

  // ---------------------------------------------------------------- the table against the log

  /** The table tells the live admissions of every key for every cutoff still to come. */
  ghost predicate Tells(events: Events, log: seq<Admission>, oldest: real) {
    forall k, c | c >= oldest :: Live(events, k, c) == LogLive(log, k, c)
  }

  /** Nothing in the table or the log lies after `now`, and no deque is empty. */
  ghost predicate UpTo(events: Events, log: seq<Admission>, now: real) {
    && (forall a | a in log :: a.at <= now)
    && (forall k | k in events :: events[k] != [] && forall t | t in events[k] :: t <= now)
  }

  lemma LookedTells(events: Events, log: seq<Admission>, key: string, cutoff: real, maxKeys: nat)
    requires Tells(events, log, cutoff)
    ensures Tells(Looked(events, key, cutoff, maxKeys), log, cutoff)
  {
    var table := Looked(events, key, cutoff, maxKeys);
    forall k, c | c >= cutoff ensures Live(table, k, c) == LogLive(log, k, c) {
      assert Live(events, k, c) == LogLive(log, k, c);
      if k in events { PruneTwice(events[k], cutoff, c); }
    }
  }

  lemma {:induction false} LogLiveKeys(log: seq<Admission>, k: string, cutoff: real)
    ensures LogLive(log, k, cutoff) != [] <==> k in LiveKeys(log, cutoff)
    ensures forall t | t in LogLive(log, k, cutoff) :: t > cutoff && Admission(k, t) in log
  {
    if log != [] {
      var older, a := log[..|log| - 1], log[|log| - 1];
      LogLiveKeys(older, k, cutoff);
      assert log == older + [a];
      if k in LiveKeys(log, cutoff) && !(a.key == k && a.at > cutoff) {
        var b :| b in log && b.at > cutoff && b.key == k;
        assert b in older;
      }
    }
  }

  /** The limiter refuses for saturation exactly when `maxKeys` other keys are live. */
  lemma SaturatedByLog(events: Events, log: seq<Admission>, key: string, cutoff: real, maxKeys: nat)
    requires Tells(events, log, cutoff) && |events| <= maxKeys
    ensures Saturated(events, key, cutoff, maxKeys) <==> |LiveKeys(log, cutoff) - {key}| >= maxKeys
  {
    var live := LiveKeys(log, cutoff);
    forall k ensures k in live <==> k in events && Prune(events[k], cutoff) != [] {
      LogLiveKeys(log, k, cutoff);
      assert Live(events, k, cutoff) == LogLive(log, k, cutoff);
    }
    assert live == Evict(events, cutoff).Keys;
    if key in events {
      Fewer(live - {key}, events.Keys - {key});
    } else {
      assert live - {key} == live;
      Fewer(live, events.Keys);
      if |events| >= maxKeys {
        assert Looked(events, key, cutoff, maxKeys) == Evict(events, cutoff);
        assert |Evict(events, cutoff).Keys| == |Evict(events, cutoff)|;
      }
    }
  }

  /** The key's own deque after the check, seen from a later cutoff. */
  lemma LiveAfter(live: seq<real>, now: real, cutoff: real, c: real)
    requires c >= cutoff && forall t | t in live :: t <= now
    ensures Prune(live + [now], c) == if now > c then Prune(live, c) + [now] else Prune(live, c)
  {
    if now > c {
      PruneAppend(live, now, c);
    } else {
      PruneAll(live, c);
      PruneAll(live + [now], c);
    }
  }

  lemma LiveOfMore(older: seq<Admission>, a: Admission, key: string, c: real)
    ensures LogLive(older + [a], key, c)
         == if a.key == key && a.at > c then LogLive(older, key, c) + [a.at] else LogLive(older, key, c)
  {
    assert (older + [a])[..|older|] == older;
  }

  lemma LiveStep(events: Events, log: seq<Admission>, r: Request, window: real, maxKeys: nat, k: string, c: real)
    requires Tells(events, log, r.now - window) && UpTo(events, log, r.now) && c >= r.now - window
    ensures var admitted := Admits(events, r.key, r.limit, r.now - window, maxKeys);
            var log' := if admitted then log + [Admission(r.key, r.now)] else log;
            Live(Checked(events, r.key, r.limit, window, r.now, maxKeys), k, c) == LogLive(log', k, c)
  {
    hide Prune, Evict, Looked, Saturated, LogLive;
    var cutoff := r.now - window;
    LookedTells(events, log, r.key, cutoff, maxKeys);
    var table := Looked(events, r.key, cutoff, maxKeys);
    assert Live(table, k, c) == LogLive(log, k, c);
    LiveOfMore(log, Admission(r.key, r.now), k, c);
    if k == r.key {
      var live := Live(events, k, cutoff);
      OwnLive(events, k, cutoff, c, r.now);
      LiveAfter(live, r.now, cutoff, c);
      assert Live(events, k, c) == LogLive(log, k, c);
    }
  }

  lemma OwnLive(events: Events, k: string, cutoff: real, c: real, now: real)
    requires c >= cutoff && (k in events ==> forall t | t in events[k] :: t <= now)
    ensures Prune(Live(events, k, cutoff), c) == Live(events, k, c)
    ensures forall t | t in Live(events, k, cutoff) :: t <= now
  {
    if k in events {
      PruneTwice(events[k], cutoff, c);
      PruneKeepsTail(events[k], cutoff);
    }
  }

  /** What holds of the table and the log after a run whose last request came at `now`. */
  ghost predicate Faithful(events: Events, log: seq<Admission>, now: real, window: real, maxKeys: nat) {
    |events| <= maxKeys && Tells(events, log, now - window) && UpTo(events, log, now)
  }

  /** One request keeps the table faithful, and is decided by the log alone. */
  lemma FaithfulStep(events: Events, log: seq<Admission>, r: Request, window: real, maxKeys: nat)
    requires Faithful(events, log, r.now, window, maxKeys) && maxKeys >= 1 && r.limit >= 1
    ensures Admits(events, r.key, r.limit, r.now - window, maxKeys) <==> LogAdmits(log, r, window, maxKeys)
    ensures Faithful(Checked(events, r.key, r.limit, window, r.now, maxKeys),
                     if LogAdmits(log, r, window, maxKeys) then log + [Admission(r.key, r.now)] else log, r.now, window, maxKeys)
  {
    hide Prune, Evict, Looked;
    var events' := Checked(events, r.key, r.limit, window, r.now, maxKeys);
    var log' := if Admits(events, r.key, r.limit, r.now - window, maxKeys) then log + [Admission(r.key, r.now)] else log;
    SaturatedByLog(events, log, r.key, r.now - window, maxKeys);
    assert Live(events, r.key, r.now - window) == LogLive(log, r.key, r.now - window);
    forall k, c | c >= r.now - window ensures Live(events', k, c) == LogLive(log', k, c) {
      LiveStep(events, log, r, window, maxKeys, k, c);
    }
    CheckedShape(events, log, r, window, maxKeys);
  }

  /** After every run the table tells the log, holds at most `maxKeys` keys and no empty deque. */
  lemma {:induction false} TableTellsLog(rs: seq<Request>, window: real, maxKeys: nat)
    requires NonDecreasing(rs) && maxKeys >= 1 && forall r | r in rs :: r.limit >= 1
    ensures Run(rs, window, maxKeys).1 == LogRun(rs, window, maxKeys)
    ensures rs == [] || Faithful(Run(rs, window, maxKeys).0, Run(rs, window, maxKeys).1, rs[|rs| - 1].now, window, maxKeys)
  {
    hide Faithful, Checked, Admits, LogAdmits;
    if rs != [] {
      var earlier, r := rs[..|rs| - 1], rs[|rs| - 1];
      assert forall q | q in earlier :: q in rs;
      TableTellsLog(earlier, window, maxKeys);
      var (events, log) := Run(earlier, window, maxKeys);
      if earlier == [] {
        NothingYet(r.now, window, maxKeys);
      } else {
        Later(events, log, earlier[|earlier| - 1].now, r.now, window, maxKeys);
      }
      FaithfulStep(events, log, r, window, maxKeys);
    }
  }

  lemma NothingYet(now: real, window: real, maxKeys: nat)
    ensures Faithful(map[], [], now, window, maxKeys)
  {
  }

  lemma Later(events: Events, log: seq<Admission>, then': real, now: real, window: real, maxKeys: nat)
    requires Faithful(events, log, then', window, maxKeys) && then' <= now
    ensures Faithful(events, log, now, window, maxKeys)
  {
  }

  /** The table after the lookup, and the key's live events, are non-empty and in the past. */
  lemma LookedShape(events: Events, key: string, cutoff: real, now: real, maxKeys: nat)
    requires |events| <= maxKeys && forall k | k in events :: events[k] != [] && forall t | t in events[k] :: t <= now
    ensures var table := Looked(events, key, cutoff, maxKeys);
            && |table| <= maxKeys
            && (forall k | k in table :: table[k] != [] && forall t | t in table[k] :: t <= now)
    ensures forall t | t in Live(events, key, cutoff) :: t <= now
  {
    forall k | k in events { PruneKeepsTail(events[k], cutoff); }
    Fewer(Evict(events, cutoff).Keys, events.Keys);
    assert |Evict(events, cutoff).Keys| == |Evict(events, cutoff)| && |events.Keys| == |events|;
  }

  /** A check keeps the table small and its deques non-empty and in the past. */
  lemma CheckedShape(events: Events, log: seq<Admission>, r: Request, window: real, maxKeys: nat)
    requires UpTo(events, log, r.now) && |events| <= maxKeys && maxKeys >= 1 && r.limit >= 1
    ensures var events' := Checked(events, r.key, r.limit, window, r.now, maxKeys);
            |events'| <= maxKeys && UpTo(events', log + [Admission(r.key, r.now)], r.now)
  {
    hide Prune, Evict;
    LookedShape(events, r.key, r.now - window, r.now, maxKeys);
    var table := Looked(events, r.key, r.now - window, maxKeys);
    var live := Live(events, r.key, r.now - window);
    assert |table[r.key := live]| <= if r.key in table then |table| else |table| + 1;
    assert |table[r.key := live + [r.now]]| <= if r.key in table then |table| else |table| + 1;
  }

  /** Every decision of the limiter is the decision of an ever-growing log, after any run. */
  lemma DecidesByLog(rs: seq<Request>, r: Request, window: real, maxKeys: nat)
    requires NonDecreasing(rs + [r]) && maxKeys >= 1 && forall q | q in rs + [r] :: q.limit >= 1
    ensures Admits(Run(rs, window, maxKeys).0, r.key, r.limit, r.now - window, maxKeys)
       <==> LogAdmits(LogRun(rs, window, maxKeys), r, window, maxKeys)
  {
    hide Faithful, Checked, Admits, LogAdmits;
    assert (rs + [r])[|rs|] == r && forall i | 0 <= i < |rs| :: (rs + [r])[i] == rs[i];
    assert r in rs + [r] && forall q | q in rs :: q in rs + [r];
    TableTellsLog(rs, window, maxKeys);
    var (events, log) := Run(rs, window, maxKeys);
    if rs == [] {
      NothingYet(r.now, window, maxKeys);
    } else {
      Later(events, log, rs[|rs| - 1].now, r.now, window, maxKeys);
    }
    FaithfulStep(events, log, r, window, maxKeys);
  }

  // ---------------------------------------------------------------- the window bound

  /** The number of admissions of a key in the half-open window `(from, to]`. */
  function CountIn(log: seq<Admission>, key: string, from: real, to: real): nat {
    if log == [] then 0
    else
      var a := log[|log| - 1];
      CountIn(log[..|log| - 1], key, from, to) + if a.key == key && from < a.at <= to then 1 else 0
  }

  lemma {:induction false} CountBelowLive(log: seq<Admission>, key: string, from: real, to: real, cutoff: real)
    requires cutoff <= from
    ensures CountIn(log, key, from, to) <= |LogLive(log, key, cutoff)|
  {
    if log != [] { CountBelowLive(log[..|log| - 1], key, from, to, cutoff); }
  }

  /** No window of the limiter's length ever holds more than `limit` admissions of a key. */
  lemma {:induction false} WindowBound(rs: seq<Request>, window: real, maxKeys: nat, key: string, limit: nat, to: real)
    requires NonDecreasing(rs) && forall r | r in rs && r.key == key :: r.limit <= limit
    ensures CountIn(LogRun(rs, window, maxKeys), key, to - window, to) <= limit
  {
    hide LiveKeys, LogLive, CountIn;
    if rs == [] {
      CountNone(key, to - window, to);
    } else {
      var earlier, r := rs[..|rs| - 1], rs[|rs| - 1];
      assert r in rs && forall q | q in earlier :: q in rs;
      WindowBound(earlier, window, maxKeys, key, limit, to);
      var log := LogRun(earlier, window, maxKeys);
      CountMore(log, Admission(r.key, r.now), key, to - window, to);
      if r.key == key && r.now <= to {
        CountBelowLive(log, key, to - window, to, r.now - window);
      }
    }
  }

  lemma CountNone(key: string, from: real, to: real)
    ensures CountIn([], key, from, to) == 0
  {
  }

  lemma CountMore(log: seq<Admission>, a: Admission, key: string, from: real, to: real)
    ensures CountIn(log + [a], key, from, to) == CountIn(log, key, from, to) + if a.key == key && from < a.at <= to then 1 else 0
  {
    assert (log + [a])[..|log|] == log;
  }

  // ---------------------------------------------------------------- retry advice

  lemma WaitBounds(window: real, now: real, t: real)
    ensures Wait(window, now, t) >= 1
    ensures Wait(window, now, t) as real >= t + window - now
    ensures Wait(window, now, t) == 1 || Wait(window, now, t) as real < t + window - now + 1.0
  {
  }

  lemma {:induction false} OthersDoNotCount(log: seq<Admission>, others: seq<Admission>, key: string, cutoff: real)
    requires forall a | a in others :: a.key != key
    ensures LogLive(log + others, key, cutoff) == LogLive(log, key, cutoff)
  {
    if others == [] {
      assert log + others == log;
    } else {
      var fewer, a := others[..|others| - 1], others[|others| - 1];
      assert log + others == (log + fewer) + [a];
      assert (log + others)[..|log + others| - 1] == log + fewer;
      assert a in others && forall b | b in fewer :: b in others;
      OthersDoNotCount(log, fewer, key, cutoff);
    }
  }

  /** Live admissions of a sorted log shrink from the front as the cutoff grows. */
  lemma {:induction false} LaterIsSuffix(log: seq<Admission>, key: string, c: real, d: real)
    requires c <= d && Sorted(log)
    ensures LogLive(log, key, d) == Prune(LogLive(log, key, c), d)
  {
    if log != [] {
      hide LogLive;
      var older, a := log[..|log| - 1], log[|log| - 1];
      assert log == older + [a];
      LaterIsSuffix(older, key, c, d);
      if a.key == key && a.at > c {
        LiveBefore(older, a, key, c);
        LiveAfter(LogLive(older, key, c), a.at, c, d);
      }
      LiveOfMore(older, a, key, c);
      LiveOfMore(older, a, key, d);
    }
  }

  lemma LiveBefore(older: seq<Admission>, a: Admission, key: string, c: real)
    requires Sorted(older + [a])
    ensures forall t | t in LogLive(older, key, c) :: t <= a.at
  {
    hide LogLive;
    LogLiveKeys(older, key, c);
    forall t | t in LogLive(older, key, c) ensures t <= a.at {
      var i :| 0 <= i < |older| && older[i] == Admission(key, t);
      assert (older + [a])[i] == older[i] && (older + [a])[|older|] == a;
    }
  }

  predicate Sorted(log: seq<Admission>) {
    forall i, j | 0 <= i < j < |log| :: log[i].at <= log[j].at
  }

  /** With a clock that never goes back the log is in time order. */
  lemma {:induction false} LogSorted(rs: seq<Request>, window: real, maxKeys: nat)
    requires NonDecreasing(rs)
    ensures Sorted(LogRun(rs, window, maxKeys))
    ensures forall a | a in LogRun(rs, window, maxKeys) :: rs != [] && a.at <= rs[|rs| - 1].now
  {
    hide LogAdmits;
    if rs != [] {
      var earlier := rs[..|rs| - 1];
      LogSorted(earlier, window, maxKeys);
    }
  }

  /**
   A request refused at its limit, repeated after the advised seconds with no admission of its key in
   between, is admitted unless the table is then full of other live keys; repeated before the oldest
   live admission leaves the window, it is refused.
   */
  lemma RetryAdvice(log: seq<Admission>, others: seq<Admission>, r: Request, later: real, window: real, maxKeys: nat)
    requires Sorted(log) && r.limit >= 1 && |LogLive(log, r.key, r.now - window)| == r.limit
    requires forall a | a in others :: a.key != r.key
    requires later >= r.now
    ensures var oldest := LogLive(log, r.key, r.now - window)[0];
            var again := r.(now := later);
            && (later >= r.now + Wait(window, r.now, oldest) as real ==>
                  (LogAdmits(log + others, again, window, maxKeys) <==> |LiveKeys(log + others, later - window) - {r.key}| < maxKeys))
            && (later < oldest + window ==> !LogAdmits(log + others, again, window, maxKeys))
            && (Wait(window, r.now, oldest) == 1 || r.now + Wait(window, r.now, oldest) as real < oldest + window + 1.0)
  {
    hide LiveKeys;
    var live := LogLive(log, r.key, r.now - window);
    OthersDoNotCount(log, others, r.key, later - window);
    LaterIsSuffix(log, r.key, r.now - window, later - window);
    WaitBounds(window, r.now, live[0]);
    PruneShorter(live, later - window);
  }

  lemma {:induction false} PruneShorter(s: seq<real>, c: real)
    ensures |Prune(s, c)| <= |s| && (s != [] && s[0] <= c ==> |Prune(s, c)| < |s|)
  {
    if s != [] && s[0] <= c { PruneShorter(s[1..], c); }
  }

  lemma EvictNothing(events: Events, cutoff: real)
    requires forall k | k in events :: events[k] != [] && events[k][0] > cutoff
    ensures Evict(events, cutoff) == events
  {
    forall k | k in events ensures Prune(events[k], cutoff) == events[k] {}
  }

  /** Refused for saturation, a repeat before the advised event leaves the window is refused again. */
  lemma SaturationPersists(events: Events, key: string, now: real, later: real, window: real, maxKeys: nat, table: Events,
                           oldest: real)
    requires Saturated(events, key, now - window, maxKeys) && now <= later < oldest + window
    requires table == Looked(events, key, now - window, maxKeys)
    requires forall k | k in table :: table[k] != [] && oldest <= table[k][0]
    ensures Saturated(table, key, later - window, maxKeys)
  {
    hide Prune, Evict;
    EvictNothing(table, later - window);
    EvictDrops(events, key, now - window);
  }

  lemma EvictDrops(events: Events, key: string, cutoff: real)
    requires key !in events
    ensures key !in Evict(events, cutoff)
  {
  }
}
