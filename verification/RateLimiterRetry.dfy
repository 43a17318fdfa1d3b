/**
 What the advised waiting time is worth, for a request that a run of checks refused.

 Refused at its limit, a request is admitted after the advised time (`RetryAfterRun`). Refused because
 the table is full of other keys, it is admitted exactly once some key has no event left in the window
 (`SaturatedRetry`), which the advice, computed from the oldest event alone, only bounds from below.
 */
module RateLimiterRetry {
  import opened RateLimiter
  import opened RateLimiterLaws
  import SetCounting
  import opened Wrappers

  // ---------------------------------------------------------------- the table stays in time order

  predicate InOrder(s: seq<real>) { forall i, j | 0 <= i < j < |s| :: s[i] <= s[j] }

  predicate DequesInOrder(events: Events) { forall k | k in events :: InOrder(events[k]) }

  lemma {:induction false} PruneIsSuffix(s: seq<real>, c: real)
    ensures |Prune(s, c)| <= |s| && Prune(s, c) == s[|s| - |Prune(s, c)|..]
  {
    if s != [] && s[0] <= c { PruneIsSuffix(s[1..], c); }
  }

  lemma PruneInOrder(s: seq<real>, c: real)
    requires InOrder(s)
    ensures InOrder(Prune(s, c))
    ensures Prune(s, c) == [] <==> s == [] || s[|s| - 1] <= c
  {
    PruneIsSuffix(s, c);
    PruneKeepsTail(s, c);
    var r := Prune(s, c);
    if r != [] {
      assert r[0] > c && r[0] <= r[|r| - 1] == s[|s| - 1];
    } else if s != [] {
      LastBelow(s, c);
    }
  }

  lemma {:induction false} LastBelow(s: seq<real>, c: real)
    requires s != [] && Prune(s, c) == []
    ensures s[|s| - 1] <= c
  {
    if |s| > 1 { LastBelow(s[1..], c); }
  }

  lemma LookedInOrder(events: Events, key: string, cutoff: real, maxKeys: nat)
    requires DequesInOrder(events)
    ensures DequesInOrder(Looked(events, key, cutoff, maxKeys)) && InOrder(Live(events, key, cutoff))
  {
    hide Prune;
    forall k | k in events { PruneInOrder(events[k], cutoff); }
  }

  lemma PushInOrder(s: seq<real>, now: real)
    requires InOrder(s) && forall t | t in s :: t <= now
    ensures InOrder(s + [now])
  {
    forall i, j | 0 <= i < j < |s + [now]| ensures (s + [now])[i] <= (s + [now])[j] { assert s[i] in s; }
  }

  lemma CheckedInOrder(events: Events, r: Request, window: real, maxKeys: nat)
    requires DequesInOrder(events) && |events| <= maxKeys
    requires forall k | k in events :: events[k] != [] && forall t | t in events[k] :: t <= r.now
    ensures DequesInOrder(Checked(events, r.key, r.limit, window, r.now, maxKeys))
  {
    hide Looked, Live, Saturated, InOrder;
    LookedInOrder(events, r.key, r.now - window, maxKeys);
    LookedShape(events, r.key, r.now - window, r.now, maxKeys);
    PushInOrder(Live(events, r.key, r.now - window), r.now);
  }

  /** After every run each deque is in time order, ends by the last request's time, and holds something. */
  lemma {:induction false} RunInOrder(rs: seq<Request>, window: real, maxKeys: nat)
    requires NonDecreasing(rs) && maxKeys >= 1 && forall r | r in rs :: r.limit >= 1
    ensures var events := Run(rs, window, maxKeys).0;
            && DequesInOrder(events) && |events| <= maxKeys
            && forall k | k in events :: events[k] != [] && forall t | t in events[k] :: rs != [] && t <= rs[|rs| - 1].now
  {
    hide Checked, Admits, Tells, InOrder;
    if rs != [] {
      var earlier, r := rs[..|rs| - 1], rs[|rs| - 1];
      assert forall q | q in earlier :: q in rs;
      RunInOrder(earlier, window, maxKeys);
      CheckedInOrder(Run(earlier, window, maxKeys).0, r, window, maxKeys);
      TableTellsLog(rs, window, maxKeys);
    }
  }

  lemma RunMore(rs: seq<Request>, r: Request, window: real, maxKeys: nat)
    ensures Run(rs + [r], window, maxKeys).0 == Checked(Run(rs, window, maxKeys).0, r.key, r.limit, window, r.now, maxKeys)
  {
    hide Checked, Admits, LogAdmits;
    assert (rs + [r])[..|rs|] == rs;
  }

  lemma LogMore(rs: seq<Request>, r: Request, window: real, maxKeys: nat)
    ensures LogRun(rs + [r], window, maxKeys)
         == LogRun(rs, window, maxKeys) + if LogAdmits(LogRun(rs, window, maxKeys), r, window, maxKeys) then [Admission(r.key, r.now)] else []
  {
    hide LogAdmits;
    assert (rs + [r])[..|rs|] == rs;
  }

  // ---------------------------------------------------------------- refused because the table is full

  /** A full table refuses a new key exactly while every key has an event after the cutoff. */
  lemma FullTableRefusesIff(table: Events, key: string, cutoff: real, maxKeys: nat)
    requires key !in table && |table| == maxKeys && DequesInOrder(table) && forall k | k in table :: table[k] != []
    ensures Saturated(table, key, cutoff, maxKeys) <==> forall k | k in table :: table[k][|table[k]| - 1] > cutoff
  {
    hide Prune, InOrder;
    forall k | k in table { PruneInOrder(table[k], cutoff); }
    var kept := Evict(table, cutoff);
    assert kept.Keys <= table.Keys && |kept.Keys| == |kept| && |table.Keys| == |table|;
    if k :| k in table && table[k][|table[k]| - 1] <= cutoff {
      SetCounting.Fewer(kept.Keys, table.Keys - {k});
    } else {
      assert kept.Keys == table.Keys;
    }
  }

  /**
   A request that a run refused because the table is full, repeated at any later time with no request in
   between: it is admitted if and only if some key's newest event has left the window by then. At the
   advised time that is so when the key with the oldest event has no other.
   */
  lemma SaturatedRetry(rs: seq<Request>, r: Request, later: real, window: real, maxKeys: nat)
    requires NonDecreasing(rs + [r]) && maxKeys >= 1 && (forall q | q in rs + [r] :: q.limit >= 1) && later >= r.now
    requires Saturated(Run(rs, window, maxKeys).0, r.key, r.now - window, maxKeys)
    ensures var table := Run(rs + [r], window, maxKeys).0;
            && |table| == maxKeys && (forall k | k in table :: table[k] != [])
            && (Admits(table, r.key, r.limit, later - window, maxKeys) <==>
                  exists k :: k in table && table[k][|table[k]| - 1] + window <= later)
            && (forall k | k in table && |table[k]| == 1 && later >= r.now + Wait(window, r.now, table[k][0]) as real ::
                  Admits(table, r.key, r.limit, later - window, maxKeys))
  {
    hide InOrder, DequesInOrder, Run, Checked, Looked, Saturated, Live, Admits, NonDecreasing, Evict, Wait, Prune;
    SaturatedRun(rs, r, window, maxKeys);
    FullTableRetry(Run(rs + [r], window, maxKeys).0, r, later, window, maxKeys);
  }

  /** The table a saturated refusal leaves behind. */
  lemma SaturatedRun(rs: seq<Request>, r: Request, window: real, maxKeys: nat)
    requires NonDecreasing(rs + [r]) && maxKeys >= 1 && (forall q | q in rs + [r] :: q.limit >= 1)
    requires Saturated(Run(rs, window, maxKeys).0, r.key, r.now - window, maxKeys)
    ensures var table := Run(rs + [r], window, maxKeys).0;
            && r.key !in table && |table| == maxKeys && DequesInOrder(table) && (forall k | k in table :: table[k] != [])
            && r.limit >= 1
  {
    hide InOrder, DequesInOrder, Run, Checked, Looked, Saturated, Live, Admits, NonDecreasing, Evict, Wait, Prune;
    Front(rs, r);
    RunMore(rs, r, window, maxKeys);
    RunInOrder(rs + [r], window, maxKeys);
    RunInOrder(rs, window, maxKeys);
    SaturatedTable(Run(rs, window, maxKeys).0, r, window, maxKeys);
  }

  lemma Front(rs: seq<Request>, r: Request)
    requires NonDecreasing(rs + [r])
    ensures NonDecreasing(rs) && r in rs + [r] && forall q | q in rs :: q in rs + [r]
  {
    assert forall i | 0 <= i < |rs| :: (rs + [r])[i] == rs[i];
  }

  lemma FullTableRetry(table: Events, r: Request, later: real, window: real, maxKeys: nat)
    requires r.key !in table && |table| == maxKeys && DequesInOrder(table) && (forall k | k in table :: table[k] != [])
    requires r.limit >= 1
    ensures Admits(table, r.key, r.limit, later - window, maxKeys) <==>
              exists k :: k in table && table[k][|table[k]| - 1] + window <= later
    ensures forall k | k in table && |table[k]| == 1 && later >= r.now + Wait(window, r.now, table[k][0]) as real ::
              Admits(table, r.key, r.limit, later - window, maxKeys)
  {
    hide InOrder, DequesInOrder, Saturated, Live;
    FullTableRefusesIff(table, r.key, later - window, maxKeys);
    NothingLive(table, r.key, later - window);
    forall k | k in table && |table[k]| == 1 && later >= r.now + Wait(window, r.now, table[k][0]) as real
      ensures Admits(table, r.key, r.limit, later - window, maxKeys)
    {
      WaitBounds(window, r.now, table[k][0]);
    }
  }

  lemma SaturatedTable(events: Events, r: Request, window: real, maxKeys: nat)
    requires |events| <= maxKeys && Saturated(events, r.key, r.now - window, maxKeys)
    ensures var table := Checked(events, r.key, r.limit, window, r.now, maxKeys);
            r.key !in table && |table| >= maxKeys && table == Looked(events, r.key, r.now - window, maxKeys)
  {
    hide Evict;
    EvictDrops(events, r.key, r.now - window);
  }

  lemma NothingLive(events: Events, key: string, cutoff: real)
    requires key !in events
    ensures Live(events, key, cutoff) == []
  {
  }

  /** The advice in the saturated branch is only a lower bound: the oldest event can leave another one behind. */
  lemma SaturationAdviceIsOnlyALowerBound()
    ensures var rs := [Request("b", 9, 0.0), Request("b", 9, 5.0)];
            var table := Run(rs + [Request("a", 9, 6.0)], 10.0, 1).0;
            && Saturated(Run(rs, 10.0, 1).0, "a", 6.0 - 10.0, 1)
            && table == map["b" := [0.0, 5.0]] && Wait(10.0, 6.0, table["b"][0]) == 4
            && !Admits(table, "a", 9, (6.0 + 4.0) - 10.0, 1)
  {
    hide Run, Checked, Looked, Live, Prune, Evict, Saturated, Admits, Wait;
    TwoRequests();
    RunMore([Request("b", 9, 0.0), Request("b", 9, 5.0)], Request("a", 9, 6.0), 10.0, 1);
    ThirdCheck();
    WaitOfFour();
  }

  lemma WaitOfFour()
    ensures Wait(10.0, 6.0, 0.0) == 4
  {
  }

  lemma TwoRequests()
    ensures Run([Request("b", 9, 0.0), Request("b", 9, 5.0)], 10.0, 1).0 == map["b" := [0.0, 5.0]]
  {
    hide Checked, Run, Looked, Live, Prune, Evict, Saturated, Admits, LogRun;
    OneRequest();
    assert [Request("b", 9, 0.0)] + [Request("b", 9, 5.0)] == [Request("b", 9, 0.0), Request("b", 9, 5.0)];
    RunMore([Request("b", 9, 0.0)], Request("b", 9, 5.0), 10.0, 1);
    SecondCheck();
  }

  lemma OneRequest()
    ensures Run([Request("b", 9, 0.0)], 10.0, 1).0 == map["b" := [0.0]]
  {
    hide Checked, Run, Looked, Live, Prune, Evict, Saturated, Admits, LogRun;
    NoRequests(10.0, 1);
    assert [] + [Request("b", 9, 0.0)] == [Request("b", 9, 0.0)];
    RunMore([], Request("b", 9, 0.0), 10.0, 1);
    FirstCheck();
  }

  lemma NoRequests(window: real, maxKeys: nat)
    ensures Run([], window, maxKeys) == (map[], [])
  {
  }

  lemma FirstCheck()
    ensures Checked(map[], "b", 9, 10.0, 0.0, 1) == map["b" := [0.0]]
  {
    assert [] + [0.0] == [0.0];
  }

  lemma SecondCheck()
    ensures Checked(map["b" := [0.0]], "b", 9, 10.0, 5.0, 1) == map["b" := [0.0, 5.0]]
  {
    assert Prune([0.0], 5.0 - 10.0) == [0.0];
    assert [0.0] + [5.0] == [0.0, 5.0];
  }

  lemma ThirdCheck()
    ensures var table: Events := map["b" := [0.0, 5.0]];
            && Checked(table, "a", 9, 10.0, 6.0, 1) == table && Saturated(table, "a", 6.0 - 10.0, 1)
            && !Admits(table, "a", 9, (6.0 + 4.0) - 10.0, 1)
  {
    hide Saturated;
    var table: Events := map["b" := [0.0, 5.0]];
    FullTableRefusesIff(table, "a", 6.0 - 10.0, 1);
    FullTableRefusesIff(table, "a", (6.0 + 4.0) - 10.0, 1);
    EvictNothing(table, 6.0 - 10.0);
  }

  // ---------------------------------------------------------------- refused at the limit

  /** Further requests only add to the log. */
  lemma {:induction false} LogGrows(rs: seq<Request>, more: seq<Request>, window: real, maxKeys: nat)
    ensures LogRun(rs, window, maxKeys) <= LogRun(rs + more, window, maxKeys)
  {
    hide LogAdmits;
    if more == [] {
      assert rs + more == rs;
    } else {
      var earlier, r := more[..|more| - 1], more[|more| - 1];
      assert rs + more == (rs + earlier) + [r];
      LogGrows(rs, earlier, window, maxKeys);
      LogMore(rs + earlier, r, window, maxKeys);
    }
  }

  lemma {:induction false} LiveIsCount(log: seq<Admission>, key: string, from: real, to: real)
    requires forall a | a in log :: a.at <= to
    ensures |LogLive(log, key, from)| == CountIn(log, key, from, to)
  {
    if log != [] {
      assert log[|log| - 1] in log && forall a | a in log[..|log| - 1] :: a in log;
      LiveIsCount(log[..|log| - 1], key, from, to);
    }
  }

  /** The requests of the key carry one limit. */
  predicate OneLimit(rs: seq<Request>, r: Request) { forall q | q in rs && q.key == r.key :: q.limit == r.limit }

  /** Refused by a run at its limit, a request has exactly that many live admissions, the oldest of which the answer names. */
  lemma RefusedAtLimit(rs: seq<Request>, r: Request, window: real, maxKeys: nat)
    requires NonDecreasing(rs + [r]) && maxKeys >= 1 && (forall q | q in rs + [r] :: q.limit >= 1) && OneLimit(rs, r)
    requires var events := Run(rs, window, maxKeys).0;
             !Saturated(events, r.key, r.now - window, maxKeys) && !Admits(events, r.key, r.limit, r.now - window, maxKeys)
    ensures var log := LogRun(rs, window, maxKeys);
            && |LogLive(log, r.key, r.now - window)| == r.limit
            && Live(Run(rs, window, maxKeys).0, r.key, r.now - window) == LogLive(log, r.key, r.now - window)
            && LogRun(rs + [r], window, maxKeys) == log
  {
    hide Run, LogRun, Saturated, LogAdmits, Live, Tells, UpTo;
    var (events, log) := Run(rs, window, maxKeys);
    assert r in rs + [r] && forall q | q in rs :: q in rs + [r];
    assert NonDecreasing(rs) by { assert forall i | 0 <= i < |rs| :: (rs + [r])[i] == rs[i]; }
    TableTellsLog(rs, window, maxKeys);
    FaithfulAt(rs, r, window, maxKeys);
    TellsLive(events, log, r.key, r.now - window);
    WindowBound(rs, window, maxKeys, r.key, r.limit, r.now);
    UpToNow(events, log, r.now);
    LiveIsCount(log, r.key, r.now - window, r.now);
    DecidesByLog(rs, r, window, maxKeys);
    LogMore(rs, r, window, maxKeys);
  }

  lemma FaithfulAt(rs: seq<Request>, r: Request, window: real, maxKeys: nat)
    requires NonDecreasing(rs + [r]) && maxKeys >= 1 && forall q | q in rs + [r] :: q.limit >= 1
    ensures Faithful(Run(rs, window, maxKeys).0, LogRun(rs, window, maxKeys), r.now, window, maxKeys)
  {
    hide Faithful, Checked, Admits, LogAdmits;
    assert (rs + [r])[|rs|] == r && forall i | 0 <= i < |rs| :: (rs + [r])[i] == rs[i];
    assert forall q | q in rs :: q in rs + [r];
    TableTellsLog(rs, window, maxKeys);
    if rs == [] {
      NothingYet(r.now, window, maxKeys);
    } else {
      Later(Run(rs, window, maxKeys).0, LogRun(rs, window, maxKeys), rs[|rs| - 1].now, r.now, window, maxKeys);
    }
  }

  lemma TellsLive(events: Events, log: seq<Admission>, key: string, cutoff: real)
    requires Tells(events, log, cutoff)
    ensures Live(events, key, cutoff) == LogLive(log, key, cutoff)
  {
  }

  lemma UpToNow(events: Events, log: seq<Admission>, now: real)
    requires UpTo(events, log, now)
    ensures forall a | a in log :: a.at <= now
  {
  }

  /**
   A request that a run refused at its limit, repeated after any requests of which none of its key was
   admitted: from the advised time on it is admitted unless the table is then full of other keys; before
   the oldest live admission leaves the window it is refused. The advice exceeds that wait by less than
   a second, unless it is the floor of 1.
   */
  lemma RetryAfterRun(rs: seq<Request>, r: Request, others: seq<Request>, later: real, window: real, maxKeys: nat)
    requires NonDecreasing(((rs + [r]) + others) + [r.(now := later)]) && maxKeys >= 1
    requires (forall q | q in (rs + [r]) + others :: q.limit >= 1) && OneLimit(rs, r)
    requires var events := Run(rs, window, maxKeys).0;
             !Saturated(events, r.key, r.now - window, maxKeys) && !Admits(events, r.key, r.limit, r.now - window, maxKeys)
    requires var before, after := LogRun(rs + [r], window, maxKeys), LogRun((rs + [r]) + others, window, maxKeys);
             |before| <= |after| && forall a | a in after[|before|..] :: a.key != r.key
    ensures Live(Run(rs, window, maxKeys).0, r.key, r.now - window) != []
    ensures var oldest := Live(Run(rs, window, maxKeys).0, r.key, r.now - window)[0];
            var events := Run((rs + [r]) + others, window, maxKeys).0;
            && (later >= r.now + Wait(window, r.now, oldest) as real ==>
                  (Admits(events, r.key, r.limit, later - window, maxKeys) <==> !Saturated(events, r.key, later - window, maxKeys)))
            && (later < oldest + window ==> !Admits(events, r.key, r.limit, later - window, maxKeys))
            && (Wait(window, r.now, oldest) == 1 || r.now + Wait(window, r.now, oldest) as real < oldest + window + 1.0)
  {
    hide Run, LogRun, Saturated, LogAdmits, Live, Admits, LiveKeys, Faithful;
    var all, again := (rs + [r]) + others, r.(now := later);
    var log, after := LogRun(rs + [r], window, maxKeys), LogRun(all, window, maxKeys);
    Prefixes(rs, r, others, again);
    RefusedAtLimit(rs, r, window, maxKeys);
    LogSorted(rs + [r], window, maxKeys);
    LogGrows(rs + [r], others, window, maxKeys);
    assert after == log + after[|log|..];
    RetryAdvice(log, after[|log|..], r, later, window, maxKeys);
    DecidesByLog(all, again, window, maxKeys);
    FaithfulAt(all, again, window, maxKeys);
    FullByLog(Run(all, window, maxKeys).0, after, r.key, later, window, maxKeys);
  }

  lemma FullByLog(events: Events, log: seq<Admission>, key: string, now: real, window: real, maxKeys: nat)
    requires Faithful(events, log, now, window, maxKeys)
    ensures Saturated(events, key, now - window, maxKeys) <==> |LiveKeys(log, now - window) - {key}| >= maxKeys
  {
    hide Saturated, LiveKeys, Tells, UpTo, Evict, Looked, Prune;
    SaturatedByLog(events, log, key, now - window, maxKeys);
  }

  lemma Prefixes(rs: seq<Request>, r: Request, others: seq<Request>, again: Request)
    requires NonDecreasing(((rs + [r]) + others) + [again])
    ensures NonDecreasing(rs + [r]) && NonDecreasing((rs + [r]) + others) && again.now >= r.now
    ensures forall q | q in rs + [r] :: q in (rs + [r]) + others
    ensures r in (rs + [r]) + others
  {
    var all := ((rs + [r]) + others) + [again];
    assert forall i | 0 <= i < |rs + [r]| :: all[i] == (rs + [r])[i];
    assert forall i | 0 <= i < |(rs + [r]) + others| :: all[i] == ((rs + [r]) + others)[i];
    assert all[|rs|] == r && all[|all| - 1] == again;
  }
}
