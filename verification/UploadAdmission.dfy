/**
 Admission of material uploads: two counters taken and given back by concurrent requests, and the body
 reader that enforces the byte and time limits.
 */
module UploadAdmission {
  import opened Wrappers

  datatype Limits = Limits(maxGlobal: nat, maxPerOwner: nat)

  datatype Counters = Counters(active: nat, byOwner: map<string, nat>)

  function Active(c: Counters, owner: string): nat { if owner in c.byOwner then c.byOwner[owner] else 0 }

  function AcquiredGlobal(c: Counters, limits: Limits): Option<Counters> {
    if c.active >= limits.maxGlobal then None else Some(c.(active := c.active + 1))
  }

  function AcquiredOwner(c: Counters, limits: Limits, owner: string): Option<Counters> {
    if Active(c, owner) >= limits.maxPerOwner then None
    else Some(c.(byOwner := c.byOwner[owner := Active(c, owner) + 1]))
  }

  function Released(c: Counters, owner: Option<string>): Counters {
    var byOwner :=
      if owner.None? then c.byOwner
      else if Active(c, owner.value) <= 1 then c.byOwner - {owner.value}
      else c.byOwner[owner.value := Active(c, owner.value) - 1];
    Counters(if c.active > 0 then c.active - 1 else 0, byOwner)
  }

  class UploadAdmissionController {
    const limits: Limits
    var activeGlobal: nat
    var activeByOwner: map<string, nat>

    function Now(): Counters
      reads this
    {
      Counters(activeGlobal, activeByOwner)
    }

    constructor (limits: Limits)
      requires limits.maxGlobal >= 1 && limits.maxPerOwner >= 1
      ensures this.limits == limits && Now() == Counters(0, map[])
    {
      this.limits, activeGlobal, activeByOwner := limits, 0, map[];
    }

    method AcquireGlobal() returns (ok: bool)
      modifies this
      ensures ok <==> AcquiredGlobal(old(Now()), limits).Some?
      ensures Now() == if ok then AcquiredGlobal(old(Now()), limits).value else old(Now())
    {
      if activeGlobal >= limits.maxGlobal { return false; }
      activeGlobal := activeGlobal + 1;
      return true;
    }

    method AcquireOwner(owner: string) returns (ok: bool)
      modifies this
      ensures ok <==> AcquiredOwner(old(Now()), limits, owner).Some?
      ensures Now() == if ok then AcquiredOwner(old(Now()), limits, owner).value else old(Now())
    {
      var active := if owner in activeByOwner then activeByOwner[owner] else 0;
      if active >= limits.maxPerOwner { return false; }
      activeByOwner := activeByOwner[owner := active + 1];
      return true;
    }

    method Release(owner: Option<string>)
      modifies this
      ensures Now() == Released(old(Now()), owner)
    {
      if owner.Some? {
        var active := if owner.value in activeByOwner then activeByOwner[owner.value] else 0;
        if active <= 1 {
          activeByOwner := activeByOwner - {owner.value};
        } else {
          activeByOwner := activeByOwner[owner.value := active - 1];
        }
      }
      if activeGlobal > 0 { activeGlobal := activeGlobal - 1; }
    }

    /** One upload with no other in between: whatever happens inside, both counters end as they began. */
    method Upload(ownerKey: Option<string>, body: Reader) returns (status: Status)
      requires forall o | o in activeByOwner :: activeByOwner[o] > 0
      modifies this
      ensures Now() == old(Now())
      ensures status == (if activeGlobal >= limits.maxGlobal then Capacity
                         else if ownerKey.None? then KeyFailed
                         else if Active(Now(), ownerKey.value) >= limits.maxPerOwner then Concurrency
                         else Answer(body))
    {
      var admitted := AcquireGlobal();
      if !admitted { return Capacity; }
      if ownerKey.None? {
        Release(None);
        return KeyFailed;
      }
      var owned := AcquireOwner(ownerKey.value);
      if !owned {
        Release(None);
        return Concurrency;
      }
      status := Serve(body);
      Release(ownerKey);
    }
  }

  // ---------------------------------------------------------------- concurrent uploads

  /** What a request holds between its steps. `Refused` has been denied an owner slot but not yet let go. */
  datatype Hold = Global | Refused | Both(owner: string)

  datatype Event = Arrive(id: nat) | KeyFails(id: nat) | Keyed(id: nat, owner: string) | Finish(id: nat)

  /** `taken` and `returned` count the global slots ever acquired and released. */
  datatype State = State(counters: Counters, holds: map<nat, Hold>, taken: nat, returned: nat)

  function LetGo(s: State, id: nat, owner: Option<string>): State {
    State(Released(s.counters, owner), s.holds - {id}, s.taken, s.returned + 1)
  }

  function Step(limits: Limits, s: State, event: Event): State {
    match event
    case Arrive(id) =>
      if id in s.holds then s
      else
        (match AcquiredGlobal(s.counters, limits)
         case None => s
         case Some(c) => State(c, s.holds[id := Global], s.taken + 1, s.returned))
    case KeyFails(id) =>
      if id in s.holds && s.holds[id] == Global then LetGo(s, id, None) else s
    case Keyed(id, owner) =>
      if id in s.holds && s.holds[id] == Global then
        match AcquiredOwner(s.counters, limits, owner)
        case None => s.(holds := s.holds[id := Refused])
        case Some(c) => s.(counters := c, holds := s.holds[id := Both(owner)])
      else s
    case Finish(id) =>
      if id in s.holds && s.holds[id].Both? then LetGo(s, id, Some(s.holds[id].owner))
      else if id in s.holds && s.holds[id].Refused? then LetGo(s, id, None)
      else s
  }

  function Run(limits: Limits, events: seq<Event>): State {
    if events == [] then State(Counters(0, map[]), map[], 0, 0)
    else Step(limits, Run(limits, events[..|events| - 1]), events[|events| - 1])
  }

  function Holders(holds: map<nat, Hold>, owner: string): set<nat> {
    set id | id in holds && holds[id] == Both(owner)
  }

  /** The counters are exactly the requests in flight, within the limits, and every slot is accounted for. */
  ghost predicate Exact(limits: Limits, s: State) {
    && s.counters.active == |s.holds| <= limits.maxGlobal
    && s.taken == s.returned + |s.holds|
    && (forall owner :: Active(s.counters, owner) == |Holders(s.holds, owner)| <= limits.maxPerOwner)
    && (forall owner | owner in s.counters.byOwner :: s.counters.byOwner[owner] > 0)
  }

  lemma HoldersUpdate(holds: map<nat, Hold>, id: nat, hold: Hold, owner: string)
    requires id in holds ==> !holds[id].Both?
    ensures Holders(holds[id := hold], owner) == Holders(holds, owner) + (if hold == Both(owner) then {id} else {})
    ensures id !in Holders(holds, owner)
  {
  }

  lemma HoldersRemove(holds: map<nat, Hold>, id: nat, owner: string)
    requires id in holds
    ensures Holders(holds - {id}, owner) == Holders(holds, owner) - {id}
    ensures id in Holders(holds, owner) <==> holds[id] == Both(owner)
    ensures |holds - {id}| == |holds| - 1
  {
    assert (holds - {id}).Keys == holds.Keys - {id};
    assert |(holds - {id}).Keys| == |holds - {id}| && |holds.Keys| == |holds|;
  }

  lemma ReleasedActive(c: Counters, owner: Option<string>, o: string)
    requires forall p | p in c.byOwner :: c.byOwner[p] > 0
    ensures Active(Released(c, owner), o) == if owner == Some(o) && Active(c, o) > 0 then Active(c, o) - 1 else Active(c, o)
    ensures forall p | p in Released(c, owner).byOwner :: Released(c, owner).byOwner[p] > 0
  {
  }

  /** A release finds a slot to give back: its guards against running below zero never act. */
  lemma ReleaseIsExact(limits: Limits, s: State, id: nat)
    requires Exact(limits, s) && id in s.holds
    ensures s.counters.active > 0
    ensures s.holds[id].Both? ==> Active(s.counters, s.holds[id].owner) >= 1
    ensures Exact(limits, LetGo(s, id, if s.holds[id].Both? then Some(s.holds[id].owner) else None))
  {
    var given := if s.holds[id].Both? then Some(s.holds[id].owner) else None;
    var t := LetGo(s, id, given);
    HoldersRemove(s.holds, id, "");
    ReleasedActive(s.counters, given, "");
    hide Released, Holders, Active;
    if s.holds[id].Both? {
      HoldersRemove(s.holds, id, s.holds[id].owner);
      assert Holders(s.holds, s.holds[id].owner) != {};
    }
    forall owner ensures Active(t.counters, owner) == |Holders(t.holds, owner)| <= limits.maxPerOwner {
      HoldersRemove(s.holds, id, owner);
      ReleasedActive(s.counters, given, owner);
      assert Active(s.counters, owner) == |Holders(s.holds, owner)|;
    }
  }

  lemma StepIsExact(limits: Limits, s: State, event: Event)
    requires Exact(limits, s)
    ensures Exact(limits, Step(limits, s, event))
  {
    hide Released, Exact, Holders;
    var t := Step(limits, s, event);
    match event
    case Arrive(id) =>
      if t != s { ArriveIsExact(limits, s, id); }
    case KeyFails(id) =>
      if t != s { ReleaseIsExact(limits, s, id); }
    case Keyed(id, owner) =>
      if t != s { KeyedIsExact(limits, s, id, owner); }
    case Finish(id) =>
      if t != s { ReleaseIsExact(limits, s, id); }
  }

  lemma ArriveIsExact(limits: Limits, s: State, id: nat)
    requires Exact(limits, s) && id !in s.holds && s.counters.active < limits.maxGlobal
    ensures Exact(limits, Step(limits, s, Arrive(id)))
  {
    var t := Step(limits, s, Arrive(id));
    assert |t.holds| == |s.holds| + 1;
    forall owner ensures Active(t.counters, owner) == |Holders(t.holds, owner)| <= limits.maxPerOwner {
      HoldersUpdate(s.holds, id, Global, owner);
      assert Active(s.counters, owner) == |Holders(s.holds, owner)|;
    }
  }

  lemma KeyedIsExact(limits: Limits, s: State, id: nat, owner: string)
    requires Exact(limits, s) && id in s.holds && s.holds[id] == Global
    ensures Exact(limits, Step(limits, s, Keyed(id, owner)))
  {
    var t := Step(limits, s, Keyed(id, owner));
    assert t.holds.Keys == s.holds.Keys && |t.holds| == |t.holds.Keys| && |s.holds| == |s.holds.Keys|;
    forall o ensures Active(t.counters, o) == |Holders(t.holds, o)| <= limits.maxPerOwner {
      HoldersUpdate(s.holds, id, t.holds[id], o);
      assert Active(s.counters, o) == |Holders(s.holds, o)|;
    }
  }

  /**
   For every interleaving of uploads, with key failures and refusals: the counters equal the requests
   holding a slot, globally and by owner, stay within the limits, and every slot taken is either held
   or was returned once.
   */
  lemma {:induction false} AlwaysExact(limits: Limits, events: seq<Event>)
    ensures Exact(limits, Run(limits, events))
  {
    hide Step;
    if events == [] {
      NoHolders();
    } else {
      AlwaysExact(limits, events[..|events| - 1]);
      StepIsExact(limits, Run(limits, events[..|events| - 1]), events[|events| - 1]);
    }
  }

  lemma NoHolders()
    ensures forall owner :: Holders(map[], owner) == {}
  {
  }

  /**
   A request is let in exactly while there is room: a global slot if fewer than the limit are held, then a slot
   of its owner if that owner holds fewer than its own limit; the one refused keeps nothing after it ends.
   */
  lemma LetInIff(limits: Limits, events: seq<Event>, id: nat, owner: string)
    ensures var s := Run(limits, events);
            && (id !in s.holds ==>
                  (id in Step(limits, s, Arrive(id)).holds <==> |s.holds| < limits.maxGlobal))
            && (id in s.holds && s.holds[id] == Global ==>
                  var t := Step(limits, s, Keyed(id, owner));
                  && id in t.holds
                  && (t.holds[id] == Both(owner) <==> |Holders(s.holds, owner)| < limits.maxPerOwner)
                  && (t.holds[id] != Both(owner) ==> t.holds[id] == Refused && id !in Step(limits, t, Finish(id)).holds))
  {
    hide Run, Holders;
    AlwaysExact(limits, events);
    var s := Run(limits, events);
    assert Active(s.counters, owner) == |Holders(s.holds, owner)|;
  }

  lemma RunStep(limits: Limits, events: seq<Event>, event: Event)
    ensures Run(limits, events + [event]) == Step(limits, Run(limits, events), event)
  {
    assert (events + [event])[..|events|] == events;
  }

  /**
   However a request ends, refused, with its key failing or served, it gives back what it held: one global slot,
   and one of its owner's if it had one. No other request is touched.
   */
  lemma EndGivesBack(limits: Limits, events: seq<Event>, id: nat)
    requires id in Run(limits, events).holds
    ensures var s := Run(limits, events);
            var t := Run(limits, events + [if s.holds[id] == Global then KeyFails(id) else Finish(id)]);
            && t.holds == s.holds - {id} && t.counters.active == s.counters.active - 1 && t.returned == s.returned + 1
            && forall owner :: Active(t.counters, owner) == Active(s.counters, owner) - if s.holds[id] == Both(owner) then 1 else 0
  {
    hide Run, Released;
    AlwaysExact(limits, events);
    var s := Run(limits, events);
    RunStep(limits, events, if s.holds[id] == Global then KeyFails(id) else Finish(id));
    var given := if s.holds[id].Both? then Some(s.holds[id].owner) else None;
    ReleaseIsExact(limits, s, id);
    ReleasedGlobal(s.counters, given);
    forall owner { ReleasedActive(s.counters, given, owner); }
  }

  lemma ReleasedGlobal(c: Counters, owner: Option<string>)
    requires c.active > 0
    ensures Released(c, owner).active == c.active - 1
  {
  }

  /** When no request is in flight, the counters are as new and every slot has been returned. */
  lemma QuietIsEmpty(limits: Limits, events: seq<Event>)
    requires Run(limits, events).holds == map[]
    ensures var s := Run(limits, events); s.counters == Counters(0, map[]) && s.taken == s.returned
  {
    hide Step, Run;
    AlwaysExact(limits, events);
    NoHolders();
    var s := Run(limits, events);
    assert forall owner :: owner !in s.counters.byOwner by {
      forall owner ensures owner !in s.counters.byOwner {
        assert Active(s.counters, owner) == |Holders(map[], owner)|;
      }
    }
    assert s.counters.byOwner == map[];
  }

  // ---------------------------------------------------------------- reading the body

  /** A body message: its size, when the application asked for it and how long it then took to come. */
  datatype Chunk = Chunk(size: nat, asked: nat, wait: nat)

  /** `declared` is the Content-Length when it is a number; `downstream` what the application then answers. */
  datatype Reader = Reader(chunks: seq<Chunk>, declared: Option<int>, maxBytes: nat, idle: nat, total: nat, downstream: Status)

  datatype Status = Capacity | KeyFailed | Concurrency | TooLarge | TimedOut | Response(code: nat) | AppRaised

  function Min(a: int, b: int): int { if a <= b then a else b }

  /** The message comes within its budget: the idle time, and what is left of the total. */
  predicate OnTime(r: Reader, c: Chunk) {
    var budget := Min(r.idle, r.total - c.asked);
    budget > 0 && c.wait <= budget
  }

  function Bytes(chunks: seq<Chunk>): nat {
    if chunks == [] then 0 else Bytes(chunks[..|chunks| - 1]) + chunks[|chunks| - 1].size
  }

  /** The first message, from `i` on, that is late or exceeds the byte limit; the end if there is none. */
  function FirstBad(r: Reader, i: nat): (n: nat)
    requires i <= |r.chunks|
    ensures i <= n <= |r.chunks|
    decreases |r.chunks| - i
  {
    if i < |r.chunks| && OnTime(r, r.chunks[i]) && Bytes(r.chunks[..i + 1]) <= r.maxBytes then FirstBad(r, i + 1) else i
  }

  function Answer(r: Reader): Status {
    var n := FirstBad(r, 0);
    if r.declared.Some? && r.declared.value > r.maxBytes then TooLarge
    else if n == |r.chunks| then r.downstream
    else if OnTime(r, r.chunks[n]) then TooLarge
    else TimedOut
  }

  /** The body of `__call__` after admission: `limited_receive` until the body ends or a limit is passed. */
  method Serve(r: Reader) returns (status: Status)
    ensures status == Answer(r)
  {
    if r.declared.Some? && r.declared.value > r.maxBytes { return TooLarge; }
    var received, i := 0, 0;
    var exceeded, timedOut := false, false;
    while i < |r.chunks|
      invariant 0 <= i <= |r.chunks| && received == Bytes(r.chunks[..i])
      invariant FirstBad(r, 0) == FirstBad(r, i)
    {
      assert r.chunks[..i + 1][..i] == r.chunks[..i];
      var budget := Min(r.idle, r.total - r.chunks[i].asked);
      if budget <= 0 || r.chunks[i].wait > budget {
        timedOut := true;
        break;
      }
      received := received + r.chunks[i].size;
      if received > r.maxBytes {
        exceeded := true;
        break;
      }
      i := i + 1;
    }
    if timedOut { return TimedOut; }
    if exceeded { return TooLarge; }
    return r.downstream;
  }

  /** A message is late if it takes longer than the idle time, or comes when the total time is over. */
  predicate Late(r: Reader, c: Chunk) {
    r.idle == 0 || c.asked >= r.total || c.wait > r.idle || c.asked + c.wait > r.total
  }

  lemma LateIs(r: Reader, c: Chunk)
    ensures Late(r, c) <==> !OnTime(r, c)
  {
  }

  lemma BytesMore(chunks: seq<Chunk>, c: Chunk)
    ensures Bytes(chunks + [c]) == Bytes(chunks) + c.size
  {
    assert (chunks + [c])[..|chunks|] == chunks;
  }

  lemma {:induction false} FirstBadIs(r: Reader, i: nat, n: nat)
    requires i <= n <= |r.chunks| && Bytes(r.chunks[..n]) <= r.maxBytes && forall j | 0 <= j < n :: !Late(r, r.chunks[j])
    requires n == |r.chunks| || Late(r, r.chunks[n]) || Bytes(r.chunks[..n + 1]) > r.maxBytes
    ensures FirstBad(r, i) == n
    decreases n - i
  {
    if i < n {
      LateIs(r, r.chunks[i]);
      BytesUpTo(r.chunks, i + 1, n);
      FirstBadIs(r, i + 1, n);
    } else if i < |r.chunks| {
      LateIs(r, r.chunks[i]);
    }
  }

  lemma BytesUpTo(chunks: seq<Chunk>, i: nat, n: nat)
    requires i <= n <= |chunks|
    ensures Bytes(chunks[..i]) <= Bytes(chunks[..n])
  {
    assert chunks[..n][..i] == chunks[..i];
    BytesGrow(chunks[..n], i);
  }

  /**
   The answer to an admitted upload. A declared length over the limit is refused unread. Otherwise the first
   message that is late, or that takes the body over the limit, decides: the client is told which of the two it
   was, and a message that is both counts as late. With none the application's own answer is sent.
   */
  lemma AnswerIs(r: Reader, n: nat)
    requires n <= |r.chunks| && Bytes(r.chunks[..n]) <= r.maxBytes && forall j | 0 <= j < n :: !Late(r, r.chunks[j])
    ensures r.declared.Some? && r.declared.value > r.maxBytes ==> Answer(r) == TooLarge
    ensures r.declared.None? || r.declared.value <= r.maxBytes ==>
              && (n < |r.chunks| && Late(r, r.chunks[n]) ==> Answer(r) == TimedOut)
              && (n < |r.chunks| && !Late(r, r.chunks[n]) && Bytes(r.chunks[..n]) + r.chunks[n].size > r.maxBytes ==>
                    Answer(r) == TooLarge)
              && (n == |r.chunks| ==> Answer(r) == r.downstream)
  {
    hide FirstBad, Bytes, Late, OnTime;
    if n < |r.chunks| {
      BytesMore(r.chunks[..n], r.chunks[n]);
      assert r.chunks[..n] + [r.chunks[n]] == r.chunks[..n + 1];
    }
    if n == |r.chunks| || Late(r, r.chunks[n]) || Bytes(r.chunks[..n + 1]) > r.maxBytes {
      FirstBadIs(r, 0, n);
      if n < |r.chunks| { LateIs(r, r.chunks[n]); }
    }
  }

  /** The application sees the whole body exactly when all of it is on time and fits; it never sees more than fits. */
  lemma {:induction false} ServedIff(r: Reader, i: nat)
    requires i <= |r.chunks| && Bytes(r.chunks[..i]) <= r.maxBytes
    ensures Bytes(r.chunks[..FirstBad(r, i)]) <= r.maxBytes
    ensures forall j | i <= j < FirstBad(r, i) :: OnTime(r, r.chunks[j])
    ensures FirstBad(r, i) == |r.chunks| <==>
              Bytes(r.chunks) <= r.maxBytes && forall j | i <= j < |r.chunks| :: OnTime(r, r.chunks[j])
    decreases |r.chunks| - i
  {
    if i == |r.chunks| {
      assert r.chunks[..i] == r.chunks;
    } else if OnTime(r, r.chunks[i]) && Bytes(r.chunks[..i + 1]) <= r.maxBytes {
      ServedIff(r, i + 1);
    } else {
      BytesGrow(r.chunks, i + 1);
    }
  }

  lemma {:induction false} BytesGrow(chunks: seq<Chunk>, i: nat)
    requires i <= |chunks|
    ensures Bytes(chunks[..i]) <= Bytes(chunks)
    decreases |chunks| - i
  {
    if i == |chunks| {
      assert chunks[..i] == chunks;
    } else {
      assert chunks[..i + 1][..i] == chunks[..i];
      BytesGrow(chunks, i + 1);
    }
  }
}
