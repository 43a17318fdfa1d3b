/**
 Confirming a signed plan action: what one `confirm` call checks and does, step by step.

 A call holds the lock of its idempotency key from `Begin` to `SaveReceipt`. Between its steps other
 calls, edits made elsewhere and crashes may come; `HomeConfirmRuns` proves what every such run keeps.
 */
module HomeConfirm {
  import opened Wrappers
  import opened HomeTokens

  datatype Session = Session(plannedAt: int, minutes: int, status: string)
  type Content = map<string, Session>

  datatype Plan = Plan(version: nat, sessions: Content)

  datatype ActionType = Reschedule | AdjustMinutes

  /** The signed fields of an action proposal. */
  datatype Action = Action(
    kind: ActionType, workspaceId: string, workspaceTitle: string, before: Session, after: Session, offset: int,
    affectedRefs: seq<string>, idempotencyKey: string)

  datatype Update = Update(plannedAt: Option<int>, minutes: Option<int>, offset: int)

  datatype ConfirmRequest = ConfirmRequest(
    requestId: string, idempotencyKey: string, token: string, action: Action, proposalToken: string)

  datatype Receipt = Receipt(
    requestId: string, idempotencyKey: string, operation: ActionType, workspaceId: string, affectedRefs: seq<string>,
    beforeVersion: nat, afterVersion: nat, replayed: bool)

  datatype PlanError = DailyCapacityExceeded | LearningConflict | PlanUnavailable

  datatype ConfirmError =
    | KeyOfAnotherRequest | InvalidToken(cause: TokenError) | TokenMismatch | KeyMismatch | NotThisRequest
    | FieldsChanged | TargetMismatch | InvalidProposal | TargetUnavailable | PlanChanged | PlanRefused(reason: PlanError)

  /** What one owner's service is configured with; `update` is `update_plan_session` on the sessions. */
  datatype Env = Env(
    ownerId: string, signer: Signer, proposalHash: Action -> string, requestHash: string -> string,
    update: (Content, string, Update, bool) -> Result<Content, PlanError>)

  function Operation(kind: ActionType): string {
    match kind
    case Reschedule => "reschedule_session"
    case AdjustMinutes => "adjust_session_minutes"
  }

  /** `str` of a version. */
  function Decimal(n: nat): string {
    if n < 10 then [('0' as int + n) as char] else Decimal(n / 10) + [('0' as int + n % 10) as char]
  }

  lemma {:induction false} DecimalInjective(m: nat, n: nat)
    requires Decimal(m) == Decimal(n)
    ensures m == n
  {
    var s := Decimal(m);
    assert |Decimal(m / 10)| > 0 && |Decimal(n / 10)| > 0;
    assert s[|s| - 1] == ('0' as int + m % 10) as char == ('0' as int + n % 10) as char;
    if m >= 10 && n >= 10 {
      assert s[..|s| - 1] == Decimal(m / 10) == Decimal(n / 10);
      DecimalInjective(m / 10, n / 10);
    }
  }

  /** The checks of `_confirm_locked` after the receipt lookup, in order. */
  function Admitted(env: Env, req: ConfirmRequest, now: int): Result<Claims, ConfirmError> {
    if req.action.affectedRefs == [] then Err(InvalidProposal)
    else
      match Verify(env.signer, req.token, env.ownerId, Some(Operation(req.action.kind)), now)
      case Err(e) => Err(InvalidToken(e))
      case Ok(claims) =>
        if req.proposalToken != req.token then Err(TokenMismatch)
        else if req.action.idempotencyKey != req.idempotencyKey then Err(KeyMismatch)
        else if req.action.idempotencyKey != "action-" + env.requestHash(req.requestId) then Err(NotThisRequest)
        else if claims.proposalHash != env.proposalHash(req.action) then Err(FieldsChanged)
        else if claims.target != Some(req.action.workspaceId) then Err(TargetMismatch)
        else Ok(claims)
  }

  function UpdateOf(action: Action): Update {
    if action.kind == Reschedule then Update(Some(action.after.plannedAt), None, action.offset)
    else Update(None, Some(action.after.minutes), action.offset)
  }

  /** The plan's sessions after the confirmed edit; a reschedule displaces what fills the day. */
  function Edited(env: Env, sessions: Content, action: Action): Result<Content, PlanError>
    requires action.affectedRefs != []
  {
    env.update(sessions, action.affectedRefs[0], UpdateOf(action), action.kind == Reschedule)
  }

  // ---------------------------------------------------------------- the durable state and its steps

  /** How far a call that holds its key has come. */
  datatype Phase =
    | Verified(req: ConfirmRequest, claims: Claims)
    | Read(req: ConfirmRequest, claims: Claims, before: nat)
    | Written(req: ConfirmRequest, claims: Claims, before: nat)

  /** One edit a confirmation made: the request, the verified claims and the version it replaced. */
  datatype Applied = Applied(req: ConfirmRequest, claims: Claims, version: nat)

  /**
   Receipts and plans are durable; `running` are the calls in flight by key. `retired` are the ids of
   deleted workspaces, `applied` and `lost` record the edits made and those whose call then crashed.
   */
  datatype State = State(
    receipts: map<string, Receipt>, plans: map<string, Plan>, retired: set<string>, running: map<string, Phase>,
    applied: seq<Applied>, lost: multiset<string>)

  datatype Event =
    | Begin(req: ConfirmRequest, now: int)
    | ReadPlan(key: string)
    | EditPlan(key: string)
    | SaveReceipt(key: string)
    | Crash(key: string)
    | OtherEdit(workspaceId: string, sessions: Content)
    | CreatePlan(workspaceId: string, sessions: Content)
    | DeletePlan(workspaceId: string)

  datatype Reply = Continues | Saved(receipt: Receipt) | Replayed(receipt: Receipt) | Refused(error: ConfirmError)

  /** Lock, receipt lookup and verification. A key that is locked waits: nothing happens. */
  function OnBegin(env: Env, s: State, req: ConfirmRequest, now: int): (State, Reply) {
    var key := req.idempotencyKey;
    if key in s.running then (s, Continues)
    else if key in s.receipts then
      (s, if s.receipts[key].requestId != req.requestId then Refused(KeyOfAnotherRequest)
          else Replayed(s.receipts[key].(replayed := true)))
    else
      match Admitted(env, req, now)
      case Err(e) => (s, Refused(e))
      case Ok(claims) => (s.(running := s.running[key := Verified(req, claims)]), Continues)
  }

  /** The first read of the record, compared with the signed version. */
  function OnRead(s: State, key: string): (State, Reply) {
    if key !in s.running || !s.running[key].Verified? then (s, Continues)
    else
      var Verified(req, claims) := s.running[key];
      var free := s.(running := s.running - {key});
      if req.action.workspaceId !in s.plans then (free, Refused(TargetUnavailable))
      else
        var version := s.plans[req.action.workspaceId].version;
        if Decimal(version) != claims.stateHash then (free, Refused(PlanChanged))
        else (s.(running := s.running[key := Read(req, claims, version)]), Continues)
  }

  /** `update_plan_session` under the version that was read. */
  function OnEdit(env: Env, s: State, key: string): (State, Reply) {
    if key !in s.running || !s.running[key].Read? || s.running[key].req.action.affectedRefs == [] then (s, Continues)
    else
      var Read(req, claims, before) := s.running[key];
      var id := req.action.workspaceId;
      var free := s.(running := s.running - {key});
      if id !in s.plans then (free, Refused(PlanRefused(PlanUnavailable)))
      else if s.plans[id].version != before then (free, Refused(PlanChanged))
      else
        match Edited(env, s.plans[id].sessions, req.action)
        case Err(LearningConflict) => (free, Refused(PlanChanged))
        case Err(e) => (free, Refused(PlanRefused(e)))
        case Ok(sessions) =>
          (s.(plans := s.plans[id := Plan(before + 1, sessions)],
              running := s.running[key := Written(req, claims, before)],
              applied := s.applied + [Applied(req, claims, before)]), Continues)
  }

  /** The second read and the receipt; a plan deleted meanwhile makes the read raise. */
  function OnSave(s: State, key: string): (State, Reply) {
    if key !in s.running || !s.running[key].Written? then (s, Continues)
    else
      var Written(req, claims, before) := s.running[key];
      var id := req.action.workspaceId;
      var free := s.(running := s.running - {key});
      if id !in s.plans then
        (free.(lost := s.lost + multiset{key}), Refused(PlanRefused(PlanUnavailable)))
      else
        var receipt := Receipt(req.requestId, req.idempotencyKey, req.action.kind, id, req.action.affectedRefs, before,
                               s.plans[id].version, false);
        if key in s.receipts then (free, Saved(s.receipts[key]))
        else (free.(receipts := s.receipts[key := receipt]), Saved(receipt))
  }

  /** The process dies: the call is gone, what it wrote stays. */
  function OnCrash(s: State, key: string): State {
    if key !in s.running then s
    else
      s.(running := s.running - {key},
         lost := if s.running[key].Written? then s.lost + multiset{key} else s.lost)
  }

  function Step(env: Env, s: State, e: Event): State {
    match e
    case Begin(req, now) => OnBegin(env, s, req, now).0
    case ReadPlan(key) => OnRead(s, key).0
    case EditPlan(key) => OnEdit(env, s, key).0
    case SaveReceipt(key) => OnSave(s, key).0
    case Crash(key) => OnCrash(s, key)
    case OtherEdit(id, sessions) =>
      if id in s.plans then s.(plans := s.plans[id := Plan(s.plans[id].version + 1, sessions)]) else s
    case CreatePlan(id, sessions) =>
      if id in s.plans || id in s.retired then s else s.(plans := s.plans[id := Plan(1, sessions)])
    case DeletePlan(id) =>
      if id in s.plans then s.(plans := s.plans - {id}, retired := s.retired + {id}) else s
  }

  function Run(env: Env, s: State, events: seq<Event>): State {
    if events == [] then s else Step(env, Run(env, s, events[..|events| - 1]), events[|events| - 1])
  }

  // How each step of a call ends: it continues to the next phase, or its key is free again.

  lemma BeginPhase(env: Env, s: State, req: ConfirmRequest, now: int)
    requires req.idempotencyKey !in s.running
    ensures var (t, reply), key := OnBegin(env, s, req, now), req.idempotencyKey;
            if reply == Continues then
              && key in t.running && t.running[key].Verified? && t.running[key].req == req && req.action.affectedRefs != []
              && key !in s.receipts && t.receipts == s.receipts && t.plans == s.plans
            else
              && t == s && !reply.Saved?
              && (reply.Replayed? ==> key in s.receipts && reply.receipt == s.receipts[key].(replayed := true))
  {
  }

  lemma ReadPhase(s: State, key: string)
    requires key in s.running && s.running[key].Verified?
    ensures var (t, reply) := OnRead(s, key);
            && t.receipts == s.receipts && t.plans == s.plans
            && if reply == Continues then key in t.running && t.running[key].Read? && t.running[key].req == s.running[key].req
               else key !in t.running && reply.Refused?
  {
  }

  lemma EditPhase(env: Env, s: State, key: string)
    requires key in s.running && s.running[key].Read? && s.running[key].req.action.affectedRefs != []
    ensures var (t, reply) := OnEdit(env, s, key);
            && t.receipts == s.receipts
            && if reply == Continues then key in t.running && t.running[key].Written? && t.running[key].req.action.workspaceId in t.plans
               else key !in t.running && reply.Refused? && t.plans == s.plans
  {
  }

  lemma SavePhase(s: State, key: string)
    requires key in s.running && s.running[key].Written? && key !in s.receipts && s.running[key].req.action.workspaceId in s.plans
    ensures var (t, reply) := OnSave(s, key);
            key !in t.running && reply.Saved? && t.receipts == s.receipts[key := reply.receipt]
  {
  }

  /** Without the lock a call's later steps do nothing. */
  lemma Idle(env: Env, s: State, key: string)
    ensures key !in s.running ==> OnRead(s, key).0 == OnEdit(env, s, key).0 == OnSave(s, key).0 == s
  {
  }

  /** The service, holding the durable maps; each method is one step of a call. */
  class HomeDispatchService {
    const env: Env
    var receipts: map<string, Receipt>
    var plans: map<string, Plan>
    var running: map<string, Phase>
    ghost var retired: set<string>
    ghost var applied: seq<Applied>
    ghost var lost: multiset<string>

    ghost function Now(): State
      reads this
    {
      State(receipts, plans, retired, running, applied, lost)
    }

    constructor (env: Env, plans: map<string, Plan>)
      ensures this.env == env && Now() == State(map[], plans, {}, map[], [], multiset{})
    {
      this.env := env;
      receipts, this.plans, running := map[], plans, map[];
      retired, applied, lost := {}, [], multiset{};
    }

    /** The head of `_confirm_locked`, under the lock of the key. */
    method BeginLocked(req: ConfirmRequest, now: int) returns (reply: Reply)
      requires req.idempotencyKey !in running
      modifies this
      ensures (Now(), reply) == OnBegin(env, old(Now()), req, now)
    {
      var key := req.idempotencyKey;
      if key in receipts {
        var existing := receipts[key];
        if existing.requestId != req.requestId { return Refused(KeyOfAnotherRequest); }
        return Replayed(existing.(replayed := true));
      }
      var admitted := Admitted(env, req, now);
      if admitted.Err? { return Refused(admitted.error); }
      running := running[key := Verified(req, admitted.value)];
      return Continues;
    }

    method ReadRecord(key: string) returns (reply: Reply)
      requires key in running && running[key].Verified?
      modifies this
      ensures (Now(), reply) == OnRead(old(Now()), key)
      ensures var call := old(running)[key];
              var id := call.req.action.workspaceId;
              && (reply == Refused(TargetUnavailable) <==> id !in plans)
              && (reply == Refused(PlanChanged) <==> id in plans && Decimal(plans[id].version) != call.claims.stateHash)
              && (reply == Continues || reply in {Refused(TargetUnavailable), Refused(PlanChanged)})
    {
      var Verified(req, claims) := running[key];
      var id := req.action.workspaceId;
      if id !in plans {
        running := running - {key};
        return Refused(TargetUnavailable);
      }
      if Decimal(plans[id].version) != claims.stateHash {
        running := running - {key};
        return Refused(PlanChanged);
      }
      running := running[key := Read(req, claims, plans[id].version)];
      return Continues;
    }

    method UpdatePlanSession(key: string) returns (reply: Reply)
      requires key in running && running[key].Read? && running[key].req.action.affectedRefs != []
      modifies this
      ensures (Now(), reply) == OnEdit(env, old(Now()), key)
      ensures var a := old(running)[key].req.action;
              reply == Continues ==>
                && plans.Keys == old(plans).Keys && (forall id | id in plans && id != a.workspaceId :: plans[id] == old(plans)[id])
                && a.workspaceId in plans && plans[a.workspaceId].version == old(plans)[a.workspaceId].version + 1
                && (a.kind == Reschedule ==>
                      env.update(old(plans)[a.workspaceId].sessions, a.affectedRefs[0], Update(Some(a.after.plannedAt), None, a.offset), true)
                      == Ok(plans[a.workspaceId].sessions))
                && (a.kind == AdjustMinutes ==>
                      env.update(old(plans)[a.workspaceId].sessions, a.affectedRefs[0], Update(None, Some(a.after.minutes), a.offset), false)
                      == Ok(plans[a.workspaceId].sessions))
      ensures var a := old(running)[key].req.action;
              var there := a.workspaceId in old(plans) && old(plans)[a.workspaceId].version == old(running)[key].before;
              && (a.workspaceId !in old(plans) ==> reply == Refused(PlanRefused(PlanUnavailable)))
              && (a.workspaceId in old(plans) && !there ==> reply == Refused(PlanChanged))
              && (there ==>
                    var sessions := old(plans)[a.workspaceId].sessions;
                    var r := if a.kind == Reschedule
                             then env.update(sessions, a.affectedRefs[0], Update(Some(a.after.plannedAt), None, a.offset), true)
                             else env.update(sessions, a.affectedRefs[0], Update(None, Some(a.after.minutes), a.offset), false);
                    && (r == Err(DailyCapacityExceeded) ==> reply == Refused(PlanRefused(DailyCapacityExceeded)))
                    && (r == Err(PlanUnavailable) ==> reply == Refused(PlanRefused(PlanUnavailable)))
                    && (r == Err(LearningConflict) ==> reply == Refused(PlanChanged)))
    {
      var Read(req, claims, before) := running[key];
      var id := req.action.workspaceId;
      if id !in plans {
        running := running - {key};
        return Refused(PlanRefused(PlanUnavailable));
      }
      if plans[id].version != before {
        running := running - {key};
        return Refused(PlanChanged);
      }
      var edited := Edited(env, plans[id].sessions, req.action);
      if edited.Err? {
        running := running - {key};
        return Refused(if edited.error == LearningConflict then PlanChanged else PlanRefused(edited.error));
      }
      plans := plans[id := Plan(before + 1, edited.value)];
      running := running[key := Written(req, claims, before)];
      applied := applied + [Applied(req, claims, before)];
      return Continues;
    }

    method SaveLocked(key: string) returns (reply: Reply)
      requires key in running && running[key].Written?
      modifies this
      ensures (Now(), reply) == OnSave(old(Now()), key)
    {
      var Written(req, claims, before) := running[key];
      var id := req.action.workspaceId;
      running := running - {key};
      if id !in plans {
        lost := lost + multiset{key};
        return Refused(PlanRefused(PlanUnavailable));
      }
      if key in receipts { return Saved(receipts[key]); }
      var receipt := Receipt(req.requestId, req.idempotencyKey, req.action.kind, id, req.action.affectedRefs, before,
                             plans[id].version, false);
      receipts := receipts[key := receipt];
      return Saved(receipt);
    }

    /** `confirm` with no other call between its steps. */
    method Confirm(req: ConfirmRequest, now: int) returns (reply: Reply)
      requires req.idempotencyKey !in running
      modifies this
      ensures var key := req.idempotencyKey;
              Now() == Run(env, old(Now()), [Begin(req, now), ReadPlan(key), EditPlan(key), SaveReceipt(key)])
      ensures req.idempotencyKey !in running && !reply.Continues?
      ensures reply.Saved? ==>
                req.idempotencyKey !in old(receipts) && receipts == old(receipts)[req.idempotencyKey := reply.receipt]
      ensures reply.Replayed? ==>
                && Now() == old(Now()) && req.idempotencyKey in receipts
                && reply.receipt == receipts[req.idempotencyKey].(replayed := true)
      ensures reply.Refused? ==> receipts == old(receipts) && plans == old(plans)
    {
      hide Run, OnBegin, OnRead, OnEdit, OnSave;
      var key := req.idempotencyKey;
      ghost var s := Now();
      FourSteps(env, s, Begin(req, now), ReadPlan(key), EditPlan(key), SaveReceipt(key));
      BeginPhase(env, s, req, now);
      reply := BeginLocked(req, now);
      Idle(env, Now(), key);
      if reply != Continues { return; }
      ReadPhase(Now(), key);
      reply := ReadRecord(key);
      Idle(env, Now(), key);
      if reply != Continues { return; }
      EditPhase(env, Now(), key);
      reply := UpdatePlanSession(key);
      Idle(env, Now(), key);
      if reply != Continues { return; }
      SavePhase(Now(), key);
      reply := SaveLocked(key);
    }
  }

  lemma FourSteps(env: Env, s: State, a: Event, b: Event, c: Event, d: Event)
    ensures Run(env, s, [a, b, c, d]) == Step(env, Step(env, Step(env, Step(env, s, a), b), c), d)
  {
    assert [a, b, c, d][..3] == [a, b, c] && [a, b, c][..2] == [a, b] && [a, b][..1] == [a] && [a][..0] == [];
    assert Run(env, s, [a]) == Step(env, s, a);
    assert Run(env, s, [a, b]) == Step(env, Step(env, s, a), b);
    assert Run(env, s, [a, b, c]) == Step(env, Step(env, Step(env, s, a), b), c);
  }
}
