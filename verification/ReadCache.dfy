/**
 The web client's read cache: promises kept for a few seconds, dropped by mutations while loads are
 still in flight.

 A load is named by its number in the order they were started; a cache entry holds that name, as the
 source's entry holds the promise.
 */
module ReadCache {
  import opened Wrappers

  const TTL_MS := 5_000

  datatype Which = Profile | Workspaces
  datatype Status = Pending | Succeeded | Failed
  datatype Load = Load(which: Which, key: string, status: Status)
  datatype Entry = Entry(expiresAt: int, load: nat)
  type Cache = map<string, Entry>

  datatype State = State(profiles: Cache, workspaces: Cache, loads: seq<Load>)

  function Of(s: State, which: Which): Cache { if which == Profile then s.profiles else s.workspaces }

  function With(s: State, which: Which, cache: Cache): State {
    if which == Profile then s.(profiles := cache) else s.(workspaces := cache)
  }

  function WorkspaceKey(token: string, includeArchived: bool): string {
    token + ":" + if includeArchived then "archived" else "active"
  }

  /** `cached`: the load a read gets, and the state it leaves. */
  function OnRead(s: State, which: Which, key: string, now: int): (State, nat) {
    var cache := Of(s, which);
    if key in cache && cache[key].expiresAt > now then (s, cache[key].load)
    else
      var load := |s.loads|;
      (With(s, which, cache[key := Entry(now + TTL_MS, load)]).(loads := s.loads + [Load(which, key, Pending)]), load)
  }

  /** A load settles; a failed one takes its own entry away. */
  function OnSettle(s: State, load: nat, ok: bool): State {
    if load >= |s.loads| || s.loads[load].status != Pending then s
    else
      var l := s.loads[load];
      var settled := s.(loads := s.loads[load := l.(status := if ok then Succeeded else Failed)]);
      var cache := Of(s, l.which);
      if !ok && l.key in cache && cache[l.key].load == load then With(settled, l.which, cache - {l.key}) else settled
  }

  function Without(cache: Cache, prefix: string): Cache {
    map key | key in cache && !(prefix <= key) :: cache[key]
  }

  datatype Event =
    | Read(which: Which, key: string, now: int)
    | Settle(load: nat, ok: bool)
    | ClearReadCache(whose: Option<string>)
    | ClearWorkspaces(token: string)
    | ProfileUpdated(token: string)

  function Step(s: State, event: Event): State {
    match event
    case Read(which, key, now) => OnRead(s, which, key, now).0
    case Settle(load, ok) => OnSettle(s, load, ok)
    case ClearReadCache(token) =>
      if token.None? || token.value == "" then s.(profiles := map[], workspaces := map[])
      else s.(profiles := s.profiles - {token.value}, workspaces := Without(s.workspaces, token.value + ":"))
    case ClearWorkspaces(token) => s.(workspaces := Without(s.workspaces, token + ":"))
    case ProfileUpdated(token) => s.(profiles := s.profiles - {token})
  }

  function Run(s: State, events: seq<Event>): State {
    if events == [] then s else Step(Run(s, events[..|events| - 1]), events[|events| - 1])
  }

  const NEW := State(map[], map[], [])

  class ApiClient {
    var profileCache: Cache
    var workspaceCache: Cache
    var loads: seq<Load>

    ghost function Now(): State
      reads this
    {
      State(profileCache, workspaceCache, loads)
    }

    constructor ()
      ensures Now() == NEW
    {
      profileCache, workspaceCache, loads := map[], map[], [];
    }

    method StartLoad(which: Which, key: string) returns (load: nat)
      modifies `loads
      ensures loads == old(loads) + [Load(which, key, Pending)] && load == |old(loads)|
    {
      load := |loads|;
      loads := loads + [Load(which, key, Pending)];
    }

    method GetProfile(token: string, now: int) returns (load: nat)
      modifies this
      ensures (Now(), load) == OnRead(old(Now()), Profile, token, now)
    {
      if token in profileCache && profileCache[token].expiresAt > now { return profileCache[token].load; }
      load := StartLoad(Profile, token);
      profileCache := profileCache[token := Entry(now + TTL_MS, load)];
    }

    method ListWorkspaces(token: string, includeArchived: bool, now: int) returns (load: nat)
      modifies this
      ensures (Now(), load) == OnRead(old(Now()), Workspaces, WorkspaceKey(token, includeArchived), now)
    {
      var key := WorkspaceKey(token, includeArchived);
      if key in workspaceCache && workspaceCache[key].expiresAt > now { return workspaceCache[key].load; }
      load := StartLoad(Workspaces, key);
      workspaceCache := workspaceCache[key := Entry(now + TTL_MS, load)];
    }

    /** The promise settles; the `catch` of a failed one drops the entry that still holds it. */
    method LoadSettled(load: nat, ok: bool)
      requires load < |loads| && loads[load].status == Pending
      modifies this
      ensures Now() == OnSettle(old(Now()), load, ok)
    {
      var l := loads[load];
      loads := loads[load := l.(status := if ok then Succeeded else Failed)];
      if !ok {
        if l.which == Profile {
          if l.key in profileCache && profileCache[l.key].load == load { profileCache := profileCache - {l.key}; }
        } else {
          if l.key in workspaceCache && workspaceCache[l.key].load == load { workspaceCache := workspaceCache - {l.key}; }
        }
      }
    }

    method ClearWorkspaceReadCache(token: string)
      modifies `workspaceCache
      ensures Now() == Step(old(Now()), ClearWorkspaces(token))
    {
      var prefix, todo := token + ":", workspaceCache.Keys;
      while todo != {}
        invariant todo <= old(workspaceCache).Keys
        invariant workspaceCache.Keys <= old(workspaceCache).Keys
        invariant forall key | key in old(workspaceCache) ::
            if key !in todo && prefix <= key then key !in workspaceCache
            else key in workspaceCache && workspaceCache[key] == old(workspaceCache)[key]
        decreases todo
      {
        var key :| key in todo;
        if prefix <= key { workspaceCache := workspaceCache - {key}; }
        todo := todo - {key};
      }
      assert workspaceCache == Without(old(workspaceCache), prefix);
    }

    method ClearAll(token: Option<string>)
      modifies this
      ensures Now() == Step(old(Now()), ClearReadCache(token))
    {
      if token.None? || token.value == "" {
        profileCache, workspaceCache := map[], map[];
        return;
      }
      profileCache := profileCache - {token.value};
      ClearWorkspaceReadCache(token.value);
    }
  }

  // ---------------------------------------------------------------- what every run keeps

  predicate EntriesOk(s: State, which: Which) {
    forall key | key in Of(s, which) ::
      var load := Of(s, which)[key].load;
      load < |s.loads| && s.loads[load].which == which && s.loads[load].key == key && s.loads[load].status != Failed
  }

  /** Every entry holds a load of its own key that has not failed. */
  predicate Sound(s: State) { EntriesOk(s, Profile) && EntriesOk(s, Workspaces) }

  lemma StepIsSound(s: State, event: Event)
    requires Sound(s)
    ensures Sound(Step(s, event)) && |s.loads| <= |Step(s, event).loads|
  {
    EntriesStay(s, event, Profile);
    EntriesStay(s, event, Workspaces);
  }

  lemma EntriesStay(s: State, event: Event, which: Which)
    requires EntriesOk(s, which)
    ensures EntriesOk(Step(s, event), which) && |s.loads| <= |Step(s, event).loads|
  {
    match event
    case Read(w, key, now) => ReadStays(s, w, key, now, which);
    case Settle(load, ok) => SettleStays(s, load, ok, which);
    case _ => ClearsStay(s, event, which);
  }

  lemma ReadStays(s: State, w: Which, key: string, now: int, which: Which)
    requires EntriesOk(s, which)
    ensures EntriesOk(OnRead(s, w, key, now).0, which) && |s.loads| <= |OnRead(s, w, key, now).0.loads|
  {
    var t := OnRead(s, w, key, now).0;
    forall k | k in Of(t, which)
      ensures var load := Of(t, which)[k].load;
              load < |t.loads| && t.loads[load].which == which && t.loads[load].key == k && t.loads[load].status != Failed
    {
      if k in Of(s, which) && Of(t, which)[k] == Of(s, which)[k] { assert t.loads[Of(s, which)[k].load] == s.loads[Of(s, which)[k].load]; }
    }
  }

  lemma SettleStays(s: State, load: nat, ok: bool, which: Which)
    requires EntriesOk(s, which)
    ensures EntriesOk(OnSettle(s, load, ok), which) && |s.loads| == |OnSettle(s, load, ok).loads|
  {
    var t := OnSettle(s, load, ok);
    SettleLeaves(s, load, ok, which);
    hide OnSettle;
    forall key | key in Of(t, which)
      ensures var e := Of(t, which)[key].load;
              e < |t.loads| && t.loads[e].which == which && t.loads[e].key == key && t.loads[e].status != Failed
    {
      assert key in Of(s, which) && Of(s, which)[key] == Of(t, which)[key];
    }
  }

  /** A settled load changes its own status alone, and no entry is left that holds a load that failed just now. */
  lemma SettleLeaves(s: State, load: nat, ok: bool, which: Which)
    requires EntriesOk(s, which)
    ensures var t := OnSettle(s, load, ok);
            && |t.loads| == |s.loads|
            && (forall i | 0 <= i < |s.loads| :: t.loads[i].which == s.loads[i].which && t.loads[i].key == s.loads[i].key)
            && (forall i | 0 <= i < |s.loads| && t.loads[i].status == Failed :: s.loads[i].status == Failed || (i == load && !ok))
            && (forall key | key in Of(t, which) :: key in Of(s, which) && Of(t, which)[key] == Of(s, which)[key])
            && (forall key | key in Of(t, which) && Of(t, which)[key].load == load && load < |s.loads| :: t.loads[load].status != Failed)
  {
  }

  lemma ClearsStay(s: State, event: Event, which: Which)
    requires EntriesOk(s, which) && !event.Read? && !event.Settle?
    ensures EntriesOk(Step(s, event), which) && Step(s, event).loads == s.loads
  {
    var t := Step(s, event);
    forall key | key in Of(t, which) ensures key in Of(s, which) && Of(t, which)[key] == Of(s, which)[key] {}
  }

  lemma {:induction false} RunIsSound(s: State, events: seq<Event>)
    requires Sound(s)
    ensures Sound(Run(s, events)) && |s.loads| <= |Run(s, events).loads|
  {
    hide Sound, Step;
    if events != [] {
      RunIsSound(s, events[..|events| - 1]);
      StepIsSound(Run(s, events[..|events| - 1]), events[|events| - 1]);
    }
  }

  /** After any run, a read gets a load of its own cache and key that has not failed. */
  lemma ReadsAreSound(events: seq<Event>, which: Which, key: string, now: int)
    ensures var (t, load) := OnRead(Run(NEW, events), which, key, now);
            load < |t.loads| && t.loads[load].which == which && t.loads[load].key == key && t.loads[load].status != Failed
  {
    hide Run;
    RunIsSound(NEW, events);
    assert EntriesOk(Run(NEW, events), which);
  }

  // ---------------------------------------------------------------- invalidation

  /** The event drops whatever the cache holds under this key. */
  predicate Invalidates(event: Event, which: Which, key: string) {
    match event
    case Read(_, _, _) => false
    case Settle(_, _) => false
    case ClearReadCache(token) =>
      token.None? || token.value == "" || (if which == Profile then key == token.value else token.value + ":" <= key)
    case ClearWorkspaces(token) => which == Workspaces && token + ":" <= key
    case ProfileUpdated(token) => which == Profile && key == token
  }

  predicate NotBefore(s: State, which: Which, key: string, floor: nat) {
    floor <= |s.loads| && (key in Of(s, which) ==> Of(s, which)[key].load >= floor)
  }

  lemma StepNotBefore(s: State, event: Event, which: Which, key: string, floor: nat)
    requires NotBefore(s, which, key, floor)
    ensures NotBefore(Step(s, event), which, key, floor)
  {
  }

  lemma {:induction false} RunNotBefore(s: State, events: seq<Event>, which: Which, key: string, floor: nat)
    requires NotBefore(s, which, key, floor)
    ensures NotBefore(Run(s, events), which, key, floor)
  {
    hide NotBefore, Step;
    if events != [] {
      RunNotBefore(s, events[..|events| - 1], which, key, floor);
      StepNotBefore(Run(s, events[..|events| - 1]), events[|events| - 1], which, key, floor);
    }
  }

  /** A read issued after an invalidation of its key never gets a load begun before it. */
  lemma FreshAfterInvalidation(before: seq<Event>, event: Event, after: seq<Event>, which: Which, key: string, now: int)
    requires Invalidates(event, which, key)
    ensures var then' := Run(NEW, before);
            OnRead(Run(Step(then', event), after), which, key, now).1 >= |then'.loads|
  {
    hide Run;
    var then' := Run(NEW, before);
    RunNotBefore(Step(then', event), after, which, key, |then'.loads|);
  }

  /** Clearing a token's workspaces reaches both of its lists, whatever the token. */
  lemma ClearReachesBothLists(token: string, includeArchived: bool)
    ensures Invalidates(ClearWorkspaces(token), Workspaces, WorkspaceKey(token, includeArchived))
    ensures token != "" ==> Invalidates(ClearReadCache(Some(token)), Workspaces, WorkspaceKey(token, includeArchived))
  {
    var key := WorkspaceKey(token, includeArchived);
    assert key[..|token| + 1] == token + ":";
  }

  /** It leaves the lists of another token alone exactly when that token does not extend this one past a colon. */
  lemma ClearLeavesOthers(token: string, other: string, includeArchived: bool)
    requires other != token
    ensures Invalidates(ClearWorkspaces(token), Workspaces, WorkspaceKey(other, includeArchived)) <==> token + ":" <= other
  {
    var key, prefix := WorkspaceKey(other, includeArchived), token + ":";
    assert key[..|other|] == other && key[|other|] == ':';
    // the rest of the key, "archived" or "active", holds no colon
    assert forall i | |other| < i < |key| :: key[i] != ':';
    assert prefix[|token|] == ':';
    assert prefix <= key ==> key[|token|] == ':' && |prefix| <= |other| + 1;
    assert prefix <= key ==> token == key[..|token|];
  }

  // ---------------------------------------------------------------- failures and the time to live

  /** A late failure takes away at most the entry that still holds that very load. */
  lemma FailureEvictsOnlyItself(s: State, load: nat, which: Which, key: string)
    requires key in Of(s, which) && Of(s, which)[key].load != load
    ensures var t := OnSettle(s, load, false); key in Of(t, which) && Of(t, which)[key] == Of(s, which)[key]
  {
  }

  /** Neither invalidates the key, nor fails its load, nor reads it at or past its expiry. */
  predicate Quiet(event: Event, which: Which, key: string, load: nat, expiresAt: int) {
    && !Invalidates(event, which, key)
    && event != Settle(load, false)
    && (event.Read? && event.which == which && event.key == key ==> event.now < expiresAt)
  }

  lemma StepKeepsEntry(s: State, event: Event, which: Which, key: string, entry: Entry)
    requires key in Of(s, which) && Of(s, which)[key] == entry && Quiet(event, which, key, entry.load, entry.expiresAt)
    ensures key in Of(Step(s, event), which) && Of(Step(s, event), which)[key] == entry
  {
  }

  lemma {:induction false} RunKeepsEntry(s: State, events: seq<Event>, which: Which, key: string, entry: Entry)
    requires key in Of(s, which) && Of(s, which)[key] == entry
    requires forall e | e in events :: Quiet(e, which, key, entry.load, entry.expiresAt)
    ensures key in Of(Run(s, events), which) && Of(Run(s, events), which)[key] == entry
  {
    hide Step, Quiet;
    if events != [] {
      var before, e := events[..|events| - 1], events[|events| - 1];
      assert e in events && forall d | d in before :: d in events;
      RunKeepsEntry(s, before, which, key, entry);
      StepKeepsEntry(Run(s, before), e, which, key, entry);
    }
  }

  /**
   Once a read has started a load, every read of the key within the time to live gets that load,
   unless the key is invalidated or the load fails in between: at most one load per key is started.
   */
  lemma OneLoadPerTtl(s: State, which: Which, key: string, now: int, events: seq<Event>, later: int)
    requires var (t, load) := OnRead(s, which, key, now);
             && load == |s.loads| && later < now + TTL_MS
             && forall e | e in events :: Quiet(e, which, key, load, now + TTL_MS)
    requires Sound(s)
    ensures var (t, load) := OnRead(s, which, key, now);
            OnRead(Run(t, events), which, key, later) == (Run(t, events), load)
  {
    hide Run, Quiet;
    var (t, load) := OnRead(s, which, key, now);
    assert EntriesOk(s, which);
    RunKeepsEntry(t, events, which, key, Entry(now + TTL_MS, load));
  }

  // ---------------------------------------------------------------- how old a load may be

  /** The entry was stored by one of these events, the read that started its load, to last five seconds. */
  ghost predicate StoredBy(events: seq<Event>, which: Which, key: string, entry: Entry) {
    exists i :: 0 <= i < |events| && events[i].Read? && StartedAt(events, i, which, key, entry)
  }

  predicate StartedAt(events: seq<Event>, i: nat, which: Which, key: string, entry: Entry)
    requires i < |events| && events[i].Read?
  {
    && events[i].which == which && events[i].key == key && entry.expiresAt == events[i].now + 5_000
    && entry.load == |Run(NEW, events[..i]).loads|
  }

  lemma {:induction false} EntriesAreStored(events: seq<Event>, which: Which, key: string)
    ensures key in Of(Run(NEW, events), which) ==> StoredBy(events, which, key, Of(Run(NEW, events), which)[key])
  {
    hide StartedAt;
    if events != [] && key in Of(Run(NEW, events), which) {
      var before, e := events[..|events| - 1], events[|events| - 1];
      var s, entry := Run(NEW, before), Of(Run(NEW, events), which)[key];
      EntriesAreStored(before, which, key);
      NewOrOld(s, e, which, key);
      if key in Of(s, which) && Of(s, which)[key] == entry {
        var i :| 0 <= i < |before| && before[i].Read? && StartedAt(before, i, which, key, entry);
        SameStart(before, events, i, which, key, entry);
      } else {
        assert StartedAt(events, |before|, which, key, entry) by { JustStarted(events, which, key, entry); }
      }
    }
  }

  lemma SameStart(before: seq<Event>, events: seq<Event>, i: nat, which: Which, key: string, entry: Entry)
    requires before <= events && i < |before| && before[i].Read? && StartedAt(before, i, which, key, entry)
    ensures StartedAt(events, i, which, key, entry)
  {
    assert before[..i] == events[..i];
  }

  lemma NewOrOld(s: State, e: Event, which: Which, key: string)
    requires key in Of(Step(s, e), which)
    ensures var entry := Of(Step(s, e), which)[key];
            (key in Of(s, which) && Of(s, which)[key] == entry)
            || (e.Read? && e.which == which && e.key == key && entry == Entry(e.now + 5_000, |s.loads|))
  {
  }

  lemma JustStarted(events: seq<Event>, which: Which, key: string, entry: Entry)
    requires events != [] && var e := events[|events| - 1];
             e.Read? && e.which == which && e.key == key && entry == Entry(e.now + 5_000, |Run(NEW, events[..|events| - 1]).loads|)
    ensures StartedAt(events, |events| - 1, which, key, entry)
  {
  }

  /** After any run a read gets a load it starts itself, or one that a read of the same key started less than five seconds before. */
  lemma NeverOlderThanTtl(events: seq<Event>, which: Which, key: string, now: int)
    ensures var s := Run(NEW, events);
            var load := OnRead(s, which, key, now).1;
            load == |s.loads| || exists i :: 0 <= i < |events| && events[i].Read? && events[i].which == which && events[i].key == key
                                             && now < events[i].now + 5_000 && load == |Run(NEW, events[..i]).loads|
  {
    EntriesAreStored(events, which, key);
    var s := Run(NEW, events);
    if OnRead(s, which, key, now).1 != |s.loads| {
      var entry := Of(s, which)[key];
      var i :| 0 <= i < |events| && events[i].Read? && StartedAt(events, i, which, key, entry);
    }
  }

  /** No two lists share an entry: a key tells its token, and which of the two lists it is. */
  lemma KeysApart(a: string, x: bool, b: string, y: bool)
    requires WorkspaceKey(a, x) == WorkspaceKey(b, y)
    ensures a == b && x == y
  {
    var k := WorkspaceKey(a, x);
    assert k[|a|] == ':' && k[|b|] == ':' && k[..|a|] == a && k[..|b|] == b;
    // neither "active" nor "archived" holds a colon
    assert forall i | |a| < i < |k| :: k[i] != ':';
    assert forall i | |b| < i < |k| :: k[i] != ':';
    assert k[|a| + 1..] == (if x then "archived" else "active") && k[|b| + 1..] == (if y then "archived" else "active");
    assert |"archived"| != |"active"|;
  }

  lemma RunStep(s: State, events: seq<Event>, e: Event)
    ensures Run(s, events + [e]) == Step(Run(s, events), e)
  {
    assert (events + [e])[..|events|] == events;
  }

  /**
   Once a load has failed no read gets it: the next one of its key gets a newer entry's load, or starts another.
   A load that succeeds changes no cache.
   */
  lemma FailedIsNotServed(events: seq<Event>, load: nat, ok: bool, now: int)
    requires load < |Run(NEW, events).loads| && Run(NEW, events).loads[load].status == Pending
    ensures var s, t := Run(NEW, events), Run(NEW, events + [Settle(load, ok)]);
            var l := s.loads[load];
            && |t.loads| == |s.loads| && t.loads[load] == l.(status := if ok then Succeeded else Failed)
            && (ok ==> t.profiles == s.profiles && t.workspaces == s.workspaces)
            && (!ok ==> OnRead(t, l.which, l.key, now).1 != load)
            && forall other | 0 <= other < |s.loads| && other != load :: t.loads[other] == s.loads[other]
  {
    hide Run;
    RunIsSound(NEW, events);
    RunStep(NEW, events, Settle(load, ok));
  }
}
