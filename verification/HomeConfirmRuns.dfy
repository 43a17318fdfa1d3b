/**
 What every run of confirmations keeps: interleaved calls, retries, edits made elsewhere, deletions and
 crashes, in any order and number.
 */
module HomeConfirmRuns {
  import opened Wrappers
  import opened HomeTokens
  import opened HomeConfirm

  /** The request passed every check of `confirm` at some time, with these claims. */
  ghost predicate Vouched(env: Env, req: ConfirmRequest, claims: Claims) {
    exists now :: Admitted(env, req, now) == Ok(claims)
  }

  ghost predicate CallOk(env: Env, s: State, key: string, call: Phase) {
    && call.req.idempotencyKey == key && key !in s.receipts && Vouched(env, call.req, call.claims)
    && (call.Verified? || Decimal(call.before) == call.claims.stateHash)
    && (call.Written? ==> Applied(call.req, call.claims, call.before) in s.applied)
  }

  ghost predicate CallsOk(env: Env, s: State) {
    forall key | key in s.running :: CallOk(env, s, key, s.running[key])
  }

  /** An edit was made at the version its token was signed for, and the plan has moved on since. */
  ghost predicate EditOk(env: Env, s: State, a: Applied) {
    && Vouched(env, a.req, a.claims) && Decimal(a.version) == a.claims.stateHash
    && var id := a.req.action.workspaceId;
       if id in s.plans then a.version < s.plans[id].version else id in s.retired
  }

  ghost predicate EditsOk(env: Env, s: State) {
    && (forall id | id in s.plans :: id !in s.retired)
    && (forall a | a in s.applied :: EditOk(env, s, a))
  }

  /** The edits of one plan were made at strictly growing versions. */
  ghost predicate Ordered(s: State) {
    forall i, j | 0 <= i < j < |s.applied| && s.applied[i].req.action.workspaceId == s.applied[j].req.action.workspaceId ::
      s.applied[i].version < s.applied[j].version
  }

  /** A receipt tells of the edit that was made. */
  predicate Tells(r: Receipt, a: Applied) {
    && r.requestId == a.req.requestId && r.idempotencyKey == a.req.idempotencyKey && r.operation == a.req.action.kind
    && r.workspaceId == a.req.action.workspaceId && r.affectedRefs == a.req.action.affectedRefs
    && r.beforeVersion == a.version < r.afterVersion && !r.replayed
  }

  ghost predicate ReceiptsOk(s: State) {
    forall key | key in s.receipts ::
      s.receipts[key].idempotencyKey == key && exists a :: a in s.applied && Tells(s.receipts[key], a)
  }

  function Count(applied: seq<Applied>, key: string): nat {
    if applied == [] then 0
    else Count(applied[..|applied| - 1], key) + if applied[|applied| - 1].req.idempotencyKey == key then 1 else 0
  }

  function InFlight(s: State, key: string): nat {
    if key in s.running && s.running[key].Written? then 1 else 0
  }

  /** Every edit has its receipt, is about to get it, or lost its call to a crash. */
  ghost predicate Accounted(s: State) {
    forall key :: Count(s.applied, key) == (if key in s.receipts then 1 else 0) + InFlight(s, key) + s.lost[key]
  }

  ghost predicate Good(env: Env, s: State) {
    CallsOk(env, s) && EditsOk(env, s) && Ordered(s) && ReceiptsOk(s) && Accounted(s)
  }

  lemma StartsGood(env: Env, plans: map<string, Plan>)
    ensures Good(env, State(map[], plans, {}, map[], [], multiset{}))
  {
  }

  // ---------------------------------------------------------------- every step keeps it

  lemma CountLast(applied: seq<Applied>, a: Applied, key: string)
    ensures Count(applied + [a], key) == Count(applied, key) + if a.req.idempotencyKey == key then 1 else 0
  {
    assert (applied + [a])[..|applied|] == applied;
  }

  // What does not concern the calls, or the plans, leaves their part of the invariant alone.

  lemma CallsFrame(env: Env, s: State, t: State)
    requires CallsOk(env, s) && forall a | a in s.applied :: a in t.applied
    requires forall k | k in t.running :: k in s.running && t.running[k] == s.running[k] && k !in t.receipts
    ensures CallsOk(env, t)
  {
    hide Vouched, Decimal;
    forall k | k in t.running ensures CallOk(env, t, k, t.running[k]) { assert CallOk(env, s, k, s.running[k]); }
  }

  ghost predicate MovedOn(s: State, t: State) {
    && s.retired <= t.retired
    && (forall id | id in s.plans :: if id in t.plans then s.plans[id].version <= t.plans[id].version else id in t.retired)
    && (forall id | id in t.plans :: id !in t.retired)
  }

  lemma EditsFrame(env: Env, s: State, t: State, a: Applied)
    requires EditsOk(env, s) && MovedOn(s, t) && a in s.applied
    ensures EditOk(env, t, a)
  {
    hide Vouched, Decimal;
    assert EditOk(env, s, a);
  }

  lemma SameEdits(env: Env, s: State, t: State)
    requires EditsOk(env, s) && MovedOn(s, t) && t.applied == s.applied
    ensures EditsOk(env, t)
  {
    hide EditOk;
    forall a | a in t.applied ensures EditOk(env, t, a) { EditsFrame(env, s, t, a); }
  }

  /** A step that only ends a call, or changes plans without an edit of ours. */
  lemma QuietKeeps(env: Env, s: State, t: State)
    requires Good(env, s) && MovedOn(s, t) && t.applied == s.applied && t.receipts == s.receipts
    requires forall k | k in t.running :: k in s.running && t.running[k] == s.running[k]
    requires forall k :: InFlight(t, k) + t.lost[k] == InFlight(s, k) + s.lost[k]
    ensures Good(env, t)
  {
    hide CallOk, EditOk, Count, InFlight, Tells, EditsOk, CallsOk, MovedOn;
    assert forall k | k in t.running :: k !in t.receipts by { CallsHold(env, s); }
    CallsFrame(env, s, t);
    SameEdits(env, s, t);
  }

  lemma CallsHold(env: Env, s: State)
    requires CallsOk(env, s)
    ensures forall k | k in s.running :: k !in s.receipts && s.running[k].req.idempotencyKey == k
  {
    forall k | k in s.running ensures k !in s.receipts && s.running[k].req.idempotencyKey == k {
      assert CallOk(env, s, k, s.running[k]);
    }
  }

  lemma BeginKeeps(env: Env, s: State, req: ConfirmRequest, now: int)
    requires Good(env, s)
    ensures Good(env, OnBegin(env, s, req, now).0)
  {
    hide Admitted, Count, Decimal, EditOk, EditsOk, Tells, ReceiptsOk, Ordered;
    var t := OnBegin(env, s, req, now).0;
    if t != s {
      assert Vouched(env, req, Admitted(env, req, now).value);
      assert MovedOn(s, t) by { PlansApart(env, s); }
      SameEdits(env, s, t);
      assert ReceiptsOk(t) && Ordered(t) by { SameHistory(s, t); }
    }
  }

  lemma PlansApart(env: Env, s: State)
    requires EditsOk(env, s)
    ensures MovedOn(s, s)
  {
  }

  lemma SameHistory(s: State, t: State)
    requires ReceiptsOk(s) && Ordered(s) && t.applied == s.applied && t.receipts == s.receipts
    ensures ReceiptsOk(t) && Ordered(t)
  {
  }

  lemma ReadKeeps(env: Env, s: State, key: string)
    requires Good(env, s)
    ensures Good(env, OnRead(s, key).0)
  {
    hide Vouched, Count, Decimal, EditOk, EditsOk, Tells, ReceiptsOk, Ordered;
    var t := OnRead(s, key).0;
    assert CallsOk(env, t) by {
      forall k | k in t.running ensures CallOk(env, t, k, t.running[k]) { assert CallOk(env, s, k, s.running[k]); }
    }
    assert MovedOn(s, t) by { PlansApart(env, s); }
    SameEdits(env, s, t);
    SameHistory(s, t);
  }

  lemma CrashKeeps(env: Env, s: State, key: string)
    requires Good(env, s)
    ensures Good(env, OnCrash(s, key))
  {
    hide Good, EditsOk;
    assert MovedOn(s, OnCrash(s, key)) by { PartsOf(env, s); PlansApart(env, s); }
    QuietKeeps(env, s, OnCrash(s, key));
  }

  lemma PartsOf(env: Env, s: State)
    requires Good(env, s)
    ensures CallsOk(env, s) && EditsOk(env, s) && Ordered(s) && ReceiptsOk(s) && Accounted(s)
  {
  }

  lemma SaveKeeps(env: Env, s: State, key: string)
    requires Good(env, s)
    ensures Good(env, OnSave(s, key).0)
  {
    hide Good, EditsOk, CallsOk, Tells, Count, Ordered, Accounted, ReceiptsOk;
    var t := OnSave(s, key).0;
    PartsOf(env, s);
    CallsHold(env, s);
    PlansApart(env, s);
    if key in s.running && s.running[key].Written? {
      if s.running[key].req.action.workspaceId in s.plans {
        CallsFrame(env, s, t);
        SameEdits(env, s, t);
        NewReceipt(env, s, t, key);
      } else {
        QuietKeeps(env, s, t);
      }
    }
  }

  lemma NewReceipt(env: Env, s: State, t: State, key: string)
    requires Good(env, s) && key in s.running && s.running[key].Written? && s.running[key].req.action.workspaceId in s.plans
    requires t == OnSave(s, key).0 && CallsOk(env, t) && EditsOk(env, t)
    ensures Good(env, t)
  {
    hide Vouched, Count, Decimal, CallsOk, EditsOk;
    var call := s.running[key];
    var a := Applied(call.req, call.claims, call.before);
    assert CallOk(env, s, key, call) && EditOk(env, s, a) by { WrittenOk(env, s, key); }
    assert Tells(t.receipts[key], a);
  }

  lemma WrittenOk(env: Env, s: State, key: string)
    requires Good(env, s) && key in s.running
    ensures CallOk(env, s, key, s.running[key])
    ensures forall a | a in s.applied :: EditOk(env, s, a)
  {
  }

  lemma EditKeeps(env: Env, s: State, key: string)
    requires Good(env, s)
    ensures Good(env, OnEdit(env, s, key).0)
  {
    hide Good, Edited, EditsOk;
    var t := OnEdit(env, s, key).0;
    assert MovedOn(s, s) by { PartsOf(env, s); PlansApart(env, s); }
    if t.applied == s.applied {
      QuietKeeps(env, s, t);
    } else {
      var call := s.running[key];
      var edit := Applied(call.req, call.claims, call.before);
      assert t.applied == s.applied + [edit];
      NewEditKeeps(env, s, t, key, edit);
    }
  }

  lemma NewEditKeeps(env: Env, s: State, t: State, key: string, edit: Applied)
    requires Good(env, s) && key in s.running && s.running[key].Read?
    requires edit == Applied(s.running[key].req, s.running[key].claims, s.running[key].before)
    requires var id := edit.req.action.workspaceId;
             && id in s.plans && s.plans[id].version == edit.version
             && id in t.plans && t.plans == s.plans[id := Plan(edit.version + 1, t.plans[id].sessions)]
    requires t.receipts == s.receipts && t.retired == s.retired && t.lost == s.lost && t.applied == s.applied + [edit]
    requires t.running == s.running[key := Written(edit.req, edit.claims, edit.version)]
    ensures Good(env, t)
  {
    hide Vouched, Count, Decimal, EditsOk, CallsOk, EditOk, CallOk, Tells, ReceiptsOk, Ordered, Accounted;
    assert forall a | a in s.applied :: a in t.applied;
    assert edit in t.applied;
    assert MovedOn(s, t) by { PlansApart(env, s); }
    WrittenOk(env, s, key);
    assert CallsOk(env, t) by { NewCall(env, s, t, key, edit); }
    assert EditsOk(env, t) by {
      forall a | a in s.applied { EditsFrame(env, s, t, a); }
      NewEdit(env, s, t, key, edit);
    }
    assert Ordered(t) by { NewLast(env, s, t, edit); }
    assert ReceiptsOk(t) by { MoreHistory(s, t); }
    assert Accounted(t) by {
      CallsHold(env, s);
      forall k ensures Count(t.applied, k) == (if k in t.receipts then 1 else 0) + InFlight(t, k) + t.lost[k] {
        Accounting(s, k);
        CountLast(s.applied, edit, k);
      }
      AccountedWhen(t);
    }
  }

  lemma Accounting(s: State, key: string)
    requires Accounted(s)
    ensures Count(s.applied, key) == (if key in s.receipts then 1 else 0) + InFlight(s, key) + s.lost[key]
  {
  }

  lemma AccountedWhen(s: State)
    requires forall key :: Count(s.applied, key) == (if key in s.receipts then 1 else 0) + InFlight(s, key) + s.lost[key]
    ensures Accounted(s)
  {
  }

  lemma NewCall(env: Env, s: State, t: State, key: string, edit: Applied)
    requires CallsOk(env, s) && key in s.running && s.running[key].Read? && edit in t.applied && t.receipts == s.receipts
    requires edit == Applied(s.running[key].req, s.running[key].claims, s.running[key].before)
    requires forall a | a in s.applied :: a in t.applied
    requires t.running == s.running[key := Written(edit.req, edit.claims, edit.version)]
    ensures CallsOk(env, t)
  {
    hide Vouched, Decimal;
    forall k | k in t.running ensures CallOk(env, t, k, t.running[k]) { assert CallOk(env, s, k, s.running[k]); }
  }

  lemma NewEdit(env: Env, s: State, t: State, key: string, edit: Applied)
    requires key in s.running && CallOk(env, s, key, s.running[key]) && s.running[key].Read?
    requires edit == Applied(s.running[key].req, s.running[key].claims, s.running[key].before)
    requires var id := edit.req.action.workspaceId; id in t.plans && edit.version < t.plans[id].version
    requires t.applied == s.applied + [edit] && (forall id | id in t.plans :: id !in t.retired)
    requires forall a | a in s.applied :: EditOk(env, t, a)
    ensures EditsOk(env, t)
  {
    hide Vouched, Decimal;
    assert EditOk(env, t, edit);
    forall a | a in t.applied ensures EditOk(env, t, a) {}
  }

  lemma NewLast(env: Env, s: State, t: State, edit: Applied)
    requires Ordered(s) && t.applied == s.applied + [edit] && forall a | a in s.applied :: EditOk(env, s, a)
    requires var id := edit.req.action.workspaceId; id in s.plans && s.plans[id].version == edit.version
    ensures Ordered(t)
  {
    hide Vouched, Decimal;
    forall i, j | 0 <= i < j < |t.applied| && t.applied[i].req.action.workspaceId == t.applied[j].req.action.workspaceId
      ensures t.applied[i].version < t.applied[j].version
    {
      assert t.applied[i] == s.applied[i];
      assert EditOk(env, s, s.applied[i]);
    }
  }

  lemma MoreHistory(s: State, t: State)
    requires ReceiptsOk(s) && t.receipts == s.receipts && forall a | a in s.applied :: a in t.applied
    ensures ReceiptsOk(t)
  {
    hide Tells;
    forall key | key in t.receipts
      ensures t.receipts[key].idempotencyKey == key && exists a :: a in t.applied && Tells(t.receipts[key], a)
    {
      var a :| a in s.applied && Tells(s.receipts[key], a);
      assert a in t.applied;
    }
  }

  lemma OthersKeep(env: Env, s: State, e: Event)
    requires Good(env, s) && (e.OtherEdit? || e.CreatePlan? || e.DeletePlan?)
    ensures Good(env, Step(env, s, e))
  {
    hide Good, EditsOk, OnBegin, OnRead, OnEdit, OnSave, OnCrash;
    var t := Step(env, s, e);
    assert MovedOn(s, s) by { PartsOf(env, s); PlansApart(env, s); }
    QuietKeeps(env, s, t);
  }

  lemma StepKeeps(env: Env, s: State, e: Event)
    requires Good(env, s)
    ensures Good(env, Step(env, s, e))
  {
    hide Good, OnBegin, OnRead, OnEdit, OnSave, OnCrash;
    match e
    case Begin(req, now) => BeginKeeps(env, s, req, now);
    case ReadPlan(key) => ReadKeeps(env, s, key);
    case EditPlan(key) => EditKeeps(env, s, key);
    case SaveReceipt(key) => SaveKeeps(env, s, key);
    case Crash(key) => CrashKeeps(env, s, key);
    case _ => OthersKeep(env, s, e);
  }

  /** The invariant holds after every run from empty receipts. */
  lemma {:induction false} RunKeeps(env: Env, s: State, events: seq<Event>)
    requires Good(env, s)
    ensures Good(env, Run(env, s, events))
  {
    hide Good, Step;
    if events != [] {
      RunKeeps(env, s, events[..|events| - 1]);
      StepKeeps(env, Run(env, s, events[..|events| - 1]), events[|events| - 1]);
    }
  }

  function Fresh(plans: map<string, Plan>): State { State(map[], plans, {}, map[], [], multiset{}) }

  // ---------------------------------------------------------------- what it means for every run

  /**
   No token edits twice: of the edits any run made, no two carry the same target and signed version,
   so no two carry the same claims.
   */
  lemma AppliedOnce(env: Env, plans: map<string, Plan>, events: seq<Event>)
    ensures var s := Run(env, Fresh(plans), events);
            forall i, j | 0 <= i < j < |s.applied| ::
              && !(s.applied[i].claims.target == s.applied[j].claims.target && s.applied[i].claims.stateHash == s.applied[j].claims.stateHash)
              && s.applied[i].claims != s.applied[j].claims
  {
    hide Run, Decimal, Admitted;
    StartsGood(env, plans);
    RunKeeps(env, Fresh(plans), events);
    var s := Run(env, Fresh(plans), events);
    forall i, j | 0 <= i < j < |s.applied|
      ensures !(s.applied[i].claims.target == s.applied[j].claims.target && s.applied[i].claims.stateHash == s.applied[j].claims.stateHash)
    {
      var a, b := s.applied[i], s.applied[j];
      assert EditOk(env, s, a) && EditOk(env, s, b);
      Target(env, a.req, a.claims);
      Target(env, b.req, b.claims);
      if a.claims.stateHash == b.claims.stateHash { DecimalInjective(a.version, b.version); }
    }
  }

  lemma Target(env: Env, req: ConfirmRequest, claims: Claims)
    requires Vouched(env, req, claims)
    ensures claims.target == Some(req.action.workspaceId) && claims.proposalHash == env.proposalHash(req.action)
    ensures claims.operation == Operation(req.action.kind) && claims.ownerId == env.ownerId
    ensures exists now :: Verify(env.signer, req.token, env.ownerId, Some(Operation(req.action.kind)), now) == Ok(claims)
  {
    hide Opened;
    var now :| Admitted(env, req, now) == Ok(claims);
    assert Verify(env.signer, req.token, env.ownerId, Some(Operation(req.action.kind)), now) == Ok(claims);
  }

  /**
   Every edit any run made replaced exactly the plan version its token was signed for, and its fields
   are exactly fields that were signed for this owner: with an unforgeable MAC and a proposal hash
   without collisions, `signed` is the one action of those claims.
   */
  lemma AppliedAsSigned(env: Env, plans: map<string, Plan>, events: seq<Event>, issued: map<Claims, Action>, a: Applied)
    requires forall c | c in issued :: env.signer.parse(env.signer.serialize(c)) == Some(c) && c.proposalHash == env.proposalHash(issued[c])
    requires forall x, y | env.proposalHash(x) == env.proposalHash(y) :: x == y
    requires forall encoded | a.req.token == Signed(env.signer, encoded) ::
               exists c :: c in issued && encoded == Base64.Encode(env.signer.serialize(c))
    requires a in Run(env, Fresh(plans), events).applied
    ensures Decimal(a.version) == a.claims.stateHash
    ensures a.claims in issued && a.req.action == issued[a.claims] && a.claims.ownerId == env.ownerId
  {
    hide Run, Decimal, Admitted, Opened, Signed;
    StartsGood(env, plans);
    RunKeeps(env, Fresh(plans), events);
    assert EditOk(env, Run(env, Fresh(plans), events), a);
    Target(env, a.req, a.claims);
    var now :| Verify(env.signer, a.req.token, env.ownerId, Some(Operation(a.req.action.kind)), now) == Ok(a.claims);
    OnlyIssuedIsAccepted(env.signer, issued.Keys, a.req.token, env.ownerId, Some(Operation(a.req.action.kind)), now);
  }

  /**
   In any run a confirmed edit changes one plan, from the signed version to the next. A reschedule gives the
   first affected session the signed new time, with displacement, and a change of minutes the signed new
   minutes, without; both in the signed offset, and neither touches what the other sets.
   */
  lemma EditIsTheVerifiedOne(env: Env, plans: map<string, Plan>, events: seq<Event>, key: string)
    ensures var s := Run(env, Fresh(plans), events);
            var t := OnEdit(env, s, key).0;
            t.plans != s.plans ==>
              && key in s.running && s.running[key].Read?
              && var call, a := s.running[key], s.running[key].req.action;
                 var id := a.workspaceId;
                 && Vouched(env, call.req, call.claims)
                 && id in s.plans && Decimal(s.plans[id].version) == call.claims.stateHash
                 && a.affectedRefs != [] && id in t.plans
                 && t.plans == s.plans[id := Plan(s.plans[id].version + 1, t.plans[id].sessions)]
                 && (a.kind == Reschedule ==>
                       env.update(s.plans[id].sessions, a.affectedRefs[0], Update(Some(a.after.plannedAt), None, a.offset), true)
                       == Ok(t.plans[id].sessions))
                 && (a.kind == AdjustMinutes ==>
                       env.update(s.plans[id].sessions, a.affectedRefs[0], Update(None, Some(a.after.minutes), a.offset), false)
                       == Ok(t.plans[id].sessions))
                 && t.receipts == s.receipts
  {
    hide Edited, Decimal, Vouched, Run;
    StartsGood(env, plans);
    RunKeeps(env, Fresh(plans), events);
    var s := Run(env, Fresh(plans), events);
    if OnEdit(env, s, key).0.plans != s.plans {
      assert CallOk(env, s, key, s.running[key]);
      EditedIs(env, s.plans[s.running[key].req.action.workspaceId].sessions, s.running[key].req.action);
    }
  }

  lemma EditedIs(env: Env, sessions: Content, a: Action)
    requires a.affectedRefs != []
    ensures Edited(env, sessions, a)
         == if a.kind == Reschedule
            then env.update(sessions, a.affectedRefs[0], Update(Some(a.after.plannedAt), None, a.offset), true)
            else env.update(sessions, a.affectedRefs[0], Update(None, Some(a.after.minutes), a.offset), false)
  {
  }

  /** Receipts are written once: no later event changes or removes one. */
  lemma {:induction false} ReceiptsStay(env: Env, s: State, events: seq<Event>, key: string)
    requires key in s.receipts
    ensures var t := Run(env, s, events); key in t.receipts && t.receipts[key] == s.receipts[key]
  {
    hide Admitted, Edited, Decimal;
    if events != [] { ReceiptsStay(env, s, events[..|events| - 1], key); }
  }

  /** So after any further run a confirm of that key returns this receipt, marked replayed, or is refused; it changes nothing. */
  lemma LaterConfirmReplays(env: Env, plans: map<string, Plan>, events: seq<Event>, later: seq<Event>, req: ConfirmRequest, now: int)
    ensures var s := Run(env, Fresh(plans), events);
            var t, key := Run(env, s, later), req.idempotencyKey;
            key in s.receipts ==>
              OnBegin(env, t, req, now) == (t, if s.receipts[key].requestId == req.requestId
                                               then Replayed(s.receipts[key].(replayed := true))
                                               else Refused(KeyOfAnotherRequest))
  {
    hide Run, Admitted, Good;
    StartsGood(env, plans);
    RunKeeps(env, Fresh(plans), events);
    var s := Run(env, Fresh(plans), events);
    if req.idempotencyKey in s.receipts {
      ReceiptsStay(env, s, later, req.idempotencyKey);
      RunKeeps(env, s, later);
      PartsOf(env, Run(env, s, later));
      CallsHold(env, Run(env, s, later));
    }
  }

  /** In any run a token whose edit was made, receipt or not, is refused when it is presented again without one. */
  lemma SpentTokenIsRefused(env: Env, plans: map<string, Plan>, events: seq<Event>, key: string, a: Applied)
    ensures var s := Run(env, Fresh(plans), events);
            a in s.applied && key in s.running && s.running[key].Verified?
            && s.running[key].claims.target == a.claims.target && s.running[key].claims.stateHash == a.claims.stateHash ==>
              && OnRead(s, key).1 in {Refused(PlanChanged), Refused(TargetUnavailable)}
              && OnRead(s, key).0.plans == s.plans
  {
    hide Decimal, Admitted, Run;
    StartsGood(env, plans);
    RunKeeps(env, Fresh(plans), events);
    var s := Run(env, Fresh(plans), events);
    if a in s.applied && key in s.running && s.running[key].Verified?
       && s.running[key].claims.target == a.claims.target && s.running[key].claims.stateHash == a.claims.stateHash {
      var call := s.running[key];
      assert CallOk(env, s, key, call) && EditOk(env, s, a);
      Target(env, call.req, call.claims);
      Target(env, a.req, a.claims);
      var id := call.req.action.workspaceId;
      if id in s.plans && Decimal(s.plans[id].version) == Decimal(a.version) {
        DecimalInjective(s.plans[id].version, a.version);
      }
    }
  }

  /** In any run every edit made under a key has its receipt, is about to get it, or lost its call to a crash. */
  lemma EditsAreAccountedFor(env: Env, plans: map<string, Plan>, events: seq<Event>, key: string)
    ensures var s := Run(env, Fresh(plans), events);
            && Count(s.applied, key) == (if key in s.receipts then 1 else 0) + InFlight(s, key) + s.lost[key]
            && (key in s.receipts ==> InFlight(s, key) == 0 && exists a :: a in s.applied && Tells(s.receipts[key], a))
  {
    hide Run, Count, Tells;
    StartsGood(env, plans);
    RunKeeps(env, Fresh(plans), events);
    var s := Run(env, Fresh(plans), events);
    CallsHold(env, s);
    Accounting(s, key);
  }

  /** While no call crashed and no plan was deleted under one, even an idempotency key edits at most once. */
  lemma KeyAppliedOnce(env: Env, plans: map<string, Plan>, events: seq<Event>, key: string)
    requires forall e | e in events :: !e.Crash? && !e.DeletePlan?
    ensures var s := Run(env, Fresh(plans), events);
            Count(s.applied, key) == (if key in s.receipts then 1 else 0) + InFlight(s, key) <= 1
  {
    hide Run;
    StartsGood(env, plans);
    RunKeeps(env, Fresh(plans), events);
    var s := Run(env, Fresh(plans), events);
    NothingLost(env, Fresh(plans), events);
    CallsHold(env, s);
    Accounting(s, key);
  }

  /** In a state where nothing was retired, a call that has written finds its plan. */
  lemma {:induction false} NothingLost(env: Env, s: State, events: seq<Event>)
    requires Good(env, s) && s.lost == multiset{} && s.retired == {}
    requires forall e | e in events :: !e.Crash? && !e.DeletePlan?
    ensures Run(env, s, events).lost == multiset{} && Run(env, s, events).retired == {}
  {
    hide Admitted, Edited, Good, Decimal;
    if events != [] {
      var before, e := events[..|events| - 1], events[|events| - 1];
      assert e in events && forall d | d in before :: d in events;
      NothingLost(env, s, before);
      RunKeeps(env, s, before);
      WrittenHasPlan(env, Run(env, s, before));
    }
  }

  lemma WrittenHasPlan(env: Env, s: State)
    requires Good(env, s) && s.retired == {}
    ensures forall key | key in s.running && s.running[key].Written? :: s.running[key].req.action.workspaceId in s.plans
  {
    hide Decimal, Vouched;
    forall key | key in s.running && s.running[key].Written? ensures s.running[key].req.action.workspaceId in s.plans {
      var call := s.running[key];
      assert CallOk(env, s, key, call);
      assert EditOk(env, s, Applied(call.req, call.claims, call.before));
    }
  }

  /**
   An uninterrupted first confirm leaves a receipt exactly when every check passes at the current version and
   the plan takes the signed time, or the signed minutes; the plan then is what that edit makes of it.
   */
  lemma ConfirmSucceedsIff(env: Env, s: State, req: ConfirmRequest, now: int)
    requires req.idempotencyKey !in s.running && req.idempotencyKey !in s.receipts
    ensures var key, a, id := req.idempotencyKey, req.action, req.action.workspaceId;
            var t := Run(env, s, [Begin(req, now), ReadPlan(key), EditPlan(key), SaveReceipt(key)]);
            && (key in t.receipts <==>
                  && Admitted(env, req, now).Ok? && a.affectedRefs != [] && id in s.plans
                  && Decimal(s.plans[id].version) == Admitted(env, req, now).value.stateHash
                  && (a.kind == Reschedule ==>
                        env.update(s.plans[id].sessions, a.affectedRefs[0], Update(Some(a.after.plannedAt), None, a.offset), true).Ok?)
                  && (a.kind == AdjustMinutes ==>
                        env.update(s.plans[id].sessions, a.affectedRefs[0], Update(None, Some(a.after.minutes), a.offset), false).Ok?))
            && (key in t.receipts ==>
                  && t.receipts == s.receipts[key := Receipt(req.requestId, key, a.kind, id, a.affectedRefs,
                                                             s.plans[id].version, s.plans[id].version + 1, false)]
                  && id in t.plans && t.plans == s.plans[id := Plan(s.plans[id].version + 1, t.plans[id].sessions)]
                  && Ok(t.plans[id].sessions) ==
                     if a.kind == Reschedule
                     then env.update(s.plans[id].sessions, a.affectedRefs[0], Update(Some(a.after.plannedAt), None, a.offset), true)
                     else env.update(s.plans[id].sessions, a.affectedRefs[0], Update(None, Some(a.after.minutes), a.offset), false))
            && (key !in t.receipts ==> t.receipts == s.receipts && t.plans == s.plans)
  {
    hide Decimal, Admitted, Edited, Run, OnEdit, OnSave;
    var key := req.idempotencyKey;
    FourSteps(env, s, Begin(req, now), ReadPlan(key), EditPlan(key), SaveReceipt(key));
    var begun := Step(env, s, Begin(req, now));
    var read := Step(env, begun, ReadPlan(key));
    Idle(env, begun, key);
    Idle(env, read, key);
    if Admitted(env, req, now).Ok? { AdmittedRefs(env, req, now); }
    if key in read.running {
      EditAndSave(env, read, key);
      EditedIs(env, s.plans[req.action.workspaceId].sessions, req.action);
    }
  }

  /** The token of an action proposal, signed at the version of the plan it was drawn up for. */
  function Offer(env: Env, action: Action, version: nat, nonce: string, now: int): (string, Claims) {
    Issue(env.signer, env.ownerId, Operation(action.kind), Some(action.workspaceId), env.proposalHash(action), Decimal(version), nonce, now)
  }

  /** What of the request must be as it was offered. */
  predicate AsOffered(env: Env, action: Action, req: ConfirmRequest) {
    && req.action == action && req.proposalToken == req.token && action.affectedRefs != []
    && req.idempotencyKey == action.idempotencyKey == "action-" + env.requestHash(req.requestId)
  }

  /** An offered token admits exactly the offered action, for its own request, until it expires. */
  lemma OnlySignedActionConfirms(env: Env, action: Action, version: nat, nonce: string, now: int, req: ConfirmRequest, at: int)
    requires var (token, claims) := Offer(env, action, version, nonce, now);
             req.token == token && env.signer.parse(env.signer.serialize(claims)) == Some(claims)
    requires Base64.Ascii(env.ownerId) && forall x, y | env.proposalHash(x) == env.proposalHash(y) :: x == y
    ensures Admitted(env, req, at).Ok? <==> AsOffered(env, action, req) && at < now + env.signer.ttl
    ensures Admitted(env, req, at).Ok? ==> Admitted(env, req, at).value.stateHash == Decimal(version)
  {
    hide Verify, Decimal;
    VerifyIssued(env.signer, env.ownerId, Operation(action.kind), Some(action.workspaceId), env.proposalHash(action), Decimal(version),
                 nonce, now, env.ownerId, Some(Operation(req.action.kind)), at);
  }

  /** Where a request departs from its offer in one respect alone, the reason given is that one. */
  lemma WhyRefused(env: Env, action: Action, version: nat, nonce: string, now: int, req: ConfirmRequest, at: int)
    requires var (token, claims) := Offer(env, action, version, nonce, now);
             req.token == token && env.signer.parse(env.signer.serialize(claims)) == Some(claims)
    requires Base64.Ascii(env.ownerId) && forall x, y | env.proposalHash(x) == env.proposalHash(y) :: x == y
    ensures AsOffered(env, action, req) && at >= now + env.signer.ttl ==> Admitted(env, req, at) == Err(InvalidToken(Expired))
    ensures at < now + env.signer.ttl && action.affectedRefs != [] ==>
              && (AsOffered(env, action, req.(proposalToken := req.token)) && req.proposalToken != req.token ==>
                    Admitted(env, req, at) == Err(TokenMismatch))
              && (AsOffered(env, action, req.(idempotencyKey := action.idempotencyKey)) && req.idempotencyKey != action.idempotencyKey ==>
                    Admitted(env, req, at) == Err(KeyMismatch))
              && (req.action == action && req.proposalToken == req.token && req.idempotencyKey == action.idempotencyKey
                  && action.idempotencyKey != "action-" + env.requestHash(req.requestId) ==>
                    Admitted(env, req, at) == Err(NotThisRequest))
              && (AsOffered(env, req.action, req) && req.action != action && req.action.kind == action.kind ==>
                    Admitted(env, req, at) == Err(FieldsChanged))
  {
    hide Verify, Decimal;
    VerifyIssued(env.signer, env.ownerId, Operation(action.kind), Some(action.workspaceId), env.proposalHash(action), Decimal(version),
                 nonce, now, env.ownerId, Some(Operation(req.action.kind)), at);
  }

  /**
   From the offer to the receipt: a first confirm of an offered action succeeds exactly when it comes as it was
   offered and in time, the plan is still at the version it was offered for, and takes the signed edit.
   */
  lemma OfferedActionConfirmsIff(env: Env, action: Action, version: nat, nonce: string, now: int, s: State, req: ConfirmRequest, at: int)
    requires var (token, claims) := Offer(env, action, version, nonce, now);
             req.token == token && env.signer.parse(env.signer.serialize(claims)) == Some(claims)
    requires Base64.Ascii(env.ownerId) && forall x, y | env.proposalHash(x) == env.proposalHash(y) :: x == y
    requires req.idempotencyKey !in s.running && req.idempotencyKey !in s.receipts
    ensures var key, id := req.idempotencyKey, action.workspaceId;
            var t := Run(env, s, [Begin(req, at), ReadPlan(key), EditPlan(key), SaveReceipt(key)]);
            key in t.receipts <==>
              && AsOffered(env, action, req) && at < now + env.signer.ttl && id in s.plans && s.plans[id].version == version
              && if action.kind == Reschedule
                 then env.update(s.plans[id].sessions, action.affectedRefs[0], Update(Some(action.after.plannedAt), None, action.offset), true).Ok?
                 else env.update(s.plans[id].sessions, action.affectedRefs[0], Update(None, Some(action.after.minutes), action.offset), false).Ok?
  {
    hide Admitted, Run, Decimal, Offer;
    OnlySignedActionConfirms(env, action, version, nonce, now, req, at);
    ConfirmSucceedsIff(env, s, req, at);
    if action.workspaceId in s.plans && Decimal(s.plans[action.workspaceId].version) == Decimal(version) {
      DecimalInjective(s.plans[action.workspaceId].version, version);
    }
  }

  // ---------------------------------------------------------------- what comes in between

  lemma RunMore(env: Env, s: State, events: seq<Event>, e: Event)
    ensures Run(env, s, events + [e]) == Step(env, Run(env, s, events), e)
  {
    assert (events + [e])[..|events|] == events;
  }

  /** A call that has read the plan at its signed version. */
  lemma ReadsPlan(env: Env, s: State, req: ConfirmRequest, now: int)
    requires req.idempotencyKey !in s.running && req.idempotencyKey !in s.receipts && Admitted(env, req, now).Ok?
    requires var id := req.action.workspaceId;
             id in s.plans && Decimal(s.plans[id].version) == Admitted(env, req, now).value.stateHash
    ensures var key := req.idempotencyKey;
            Run(env, s, [Begin(req, now), ReadPlan(key)])
            == s.(running := s.running[key := Read(req, Admitted(env, req, now).value, s.plans[req.action.workspaceId].version)])
  {
    hide Admitted, Decimal;
    var key := req.idempotencyKey;
    RunMore(env, s, [], Begin(req, now));
    RunMore(env, s, [Begin(req, now)], ReadPlan(key));
    assert [] + [Begin(req, now)] == [Begin(req, now)] && [Begin(req, now)] + [ReadPlan(key)] == [Begin(req, now), ReadPlan(key)];
    var claims := Admitted(env, req, now).value;
    var version := s.plans[req.action.workspaceId].version;
    assert s.running[key := Verified(req, claims)][key := Read(req, claims, version)] == s.running[key := Read(req, claims, version)];
  }

  /**
   An edit made elsewhere after the plan was read is not overwritten, and a plan deleted then is not written:
   the confirmation leaves no receipt and nothing of its own.
   */
  lemma OthersWin(env: Env, s: State, req: ConfirmRequest, now: int, sessions: Content)
    requires req.idempotencyKey !in s.running && req.idempotencyKey !in s.receipts && Admitted(env, req, now).Ok?
    requires var id := req.action.workspaceId;
             id in s.plans && Decimal(s.plans[id].version) == Admitted(env, req, now).value.stateHash
    ensures var key, id := req.idempotencyKey, req.action.workspaceId;
            var begun := [Begin(req, now), ReadPlan(key)];
            var t := Run(env, s, ((begun + [OtherEdit(id, sessions)]) + [EditPlan(key)]) + [SaveReceipt(key)]);
            var u := Run(env, s, ((begun + [DeletePlan(id)]) + [EditPlan(key)]) + [SaveReceipt(key)]);
            && t.receipts == s.receipts && t.applied == s.applied && t.plans == s.plans[id := Plan(s.plans[id].version + 1, sessions)]
            && u.receipts == s.receipts && u.applied == s.applied && u.plans == s.plans - {id} && id in u.retired
  {
    hide Admitted, Decimal, Run;
    var key, id := req.idempotencyKey, req.action.workspaceId;
    var begun := [Begin(req, now), ReadPlan(key)];
    ReadsPlan(env, s, req, now);
    AdmittedRefs(env, req, now);
    forall e | e == OtherEdit(id, sessions) || e == DeletePlan(id)
      ensures Run(env, s, ((begun + [e]) + [EditPlan(key)]) + [SaveReceipt(key)])
           == Step(env, Step(env, Step(env, Run(env, s, begun), e), EditPlan(key)), SaveReceipt(key))
    {
      RunMore(env, s, begun, e);
      RunMore(env, s, begun + [e], EditPlan(key));
      RunMore(env, s, (begun + [e]) + [EditPlan(key)], SaveReceipt(key));
    }
  }

  /**
   A process that stops between the edit and the receipt leaves the edit without a receipt. The same confirm,
   sent again, is then refused as stale: it neither edits a second time nor gets a receipt.
   */
  lemma RetryAfterCrash(env: Env, s: State, req: ConfirmRequest, now: int, later: int)
    requires req.idempotencyKey !in s.running && req.idempotencyKey !in s.receipts && Admitted(env, req, now).Ok?
    requires var id := req.action.workspaceId;
             id in s.plans && Decimal(s.plans[id].version) == Admitted(env, req, now).value.stateHash
             && Edited(env, s.plans[id].sessions, req.action).Ok?
    ensures var key, id := req.idempotencyKey, req.action.workspaceId;
            var t := Run(env, s, ([Begin(req, now), ReadPlan(key)] + [EditPlan(key)]) + [Crash(key)]);
            var u := Run(env, t, [Begin(req, later), ReadPlan(key), EditPlan(key), SaveReceipt(key)]);
            && key !in t.running && t.receipts == s.receipts && id in t.plans && t.plans[id].version == s.plans[id].version + 1
            && t.lost == s.lost + multiset{key}
            && u.receipts == t.receipts && u.plans == t.plans
  {
    hide Admitted, Decimal, Edited, Run;
    var key, id := req.idempotencyKey, req.action.workspaceId;
    var begun := [Begin(req, now), ReadPlan(key)];
    ReadsPlan(env, s, req, now);
    AdmittedRefs(env, req, now);
    RunMore(env, s, begun, EditPlan(key));
    RunMore(env, s, begun + [EditPlan(key)], Crash(key));
    var t := Run(env, s, (begun + [EditPlan(key)]) + [Crash(key)]);
    ConfirmSucceedsIff(env, t, req, later);
    if Admitted(env, req, later).Ok? {
      SameClaims(env, req, now, later);
      if Decimal(t.plans[id].version) == Decimal(s.plans[id].version) { DecimalInjective(t.plans[id].version, s.plans[id].version); }
    }
  }

  /** A token opens to one set of claims, whenever it is admitted. */
  lemma SameClaims(env: Env, req: ConfirmRequest, now: int, later: int)
    requires Admitted(env, req, now).Ok? && Admitted(env, req, later).Ok?
    ensures Admitted(env, req, now) == Admitted(env, req, later)
  {
    hide Opened;
  }

  /** The id of a deleted plan is never given to a new one. */
  lemma {:induction false} RetiredStays(env: Env, s: State, events: seq<Event>, id: string)
    requires id in s.retired && id !in s.plans
    ensures id in Run(env, s, events).retired && id !in Run(env, s, events).plans
  {
    hide Step;
    if events != [] {
      RetiredStays(env, s, events[..|events| - 1], id);
      RetiredStep(env, Run(env, s, events[..|events| - 1]), events[|events| - 1], id);
    }
  }

  lemma RetiredStep(env: Env, s: State, e: Event, id: string)
    requires id in s.retired && id !in s.plans
    ensures id in Step(env, s, e).retired && id !in Step(env, s, e).plans
  {
    hide Admitted, Edited, Decimal;
  }

  /** A new plan starts at version 1; once it is deleted its id stays unused, whatever comes after. */
  lemma PlansComeAndGo(env: Env, s: State, id: string, sessions: Content, later: seq<Event>)
    requires id !in s.plans && id !in s.retired
    ensures var t := Run(env, s, [] + [CreatePlan(id, sessions)]);
            id in t.plans && t.plans == s.plans[id := Plan(1, sessions)]
    ensures id !in Run(env, Run(env, s, ([] + [CreatePlan(id, sessions)]) + [DeletePlan(id)]), later).plans
  {
    RunMore(env, s, [], CreatePlan(id, sessions));
    RunMore(env, s, [] + [CreatePlan(id, sessions)], DeletePlan(id));
    RetiredStays(env, Run(env, s, ([] + [CreatePlan(id, sessions)]) + [DeletePlan(id)]), later, id);
  }

  lemma AdmittedRefs(env: Env, req: ConfirmRequest, now: int)
    requires Admitted(env, req, now).Ok?
    ensures req.action.affectedRefs != []
  {
  }

  lemma EditAndSave(env: Env, s: State, key: string)
    requires key in s.running && s.running[key].Read? && key !in s.receipts && s.running[key].req.action.affectedRefs != []
    requires var id := s.running[key].req.action.workspaceId; id in s.plans && s.plans[id].version == s.running[key].before
    ensures var req := s.running[key].req;
            var id, t := req.action.workspaceId, OnSave(OnEdit(env, s, key).0, key).0;
            if Edited(env, s.plans[id].sessions, req.action).Ok? then
              && t.receipts == s.receipts[key := Receipt(req.requestId, req.idempotencyKey, req.action.kind, id, req.action.affectedRefs,
                                                         s.plans[id].version, s.plans[id].version + 1, false)]
              && t.plans == s.plans[id := Plan(s.plans[id].version + 1, Edited(env, s.plans[id].sessions, req.action).value)]
            else t.receipts == s.receipts && t.plans == s.plans
  {
    hide Edited;
  }
}
