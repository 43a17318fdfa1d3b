/**
 Creating a learning space from a signed proposal, revising the proposal before that, and undoing the
 creation after it. `HomeSpacesLaws` proves what chains of these do.

 Calls run inside one database transaction: a call that raises leaves rows and receipts as they were.
 */
module HomeSpaces {
  import opened Wrappers
  import opened HomeTokens

  datatype Info = Info(title: string, goal: string, subject: string, topics: seq<string>, keywords: seq<string>, archived: bool)

  /** A learning space with what its undo hash also covers. */
  datatype Space = Space(info: Info, learningVersion: nat, materials: set<string>, sessions: map<string, nat>)

  type Spaces = map<string, Space>

  /** The signed fields of a workspace proposal. */
  datatype Draft = Draft(
    title: string, goal: string, subject: string, topics: seq<string>, keywords: seq<string>, examAt: int,
    dailyMinutes: int, materialHint: string, reason: string, idempotencyKey: string)

  datatype Changes = Changes(title: Option<string>, goal: Option<string>, examAt: Option<int>, dailyMinutes: Option<int>)

  datatype Decision = Decision(title: string, subject: string, topics: seq<string>, keywords: seq<string>)

  datatype Env = Env(
    ownerId: string, signer: Signer, requestHash: string -> string, draftHash: Draft -> string,
    undoHash: (string, string) -> string, digest: map<string, Info> -> string, stateHash: (string, Space) -> string,
    route: string -> Option<Decision>, build: (Draft, int) -> Space, maxSpaces: nat)

  datatype Error =
    | TokenMismatch | NotThisRequest | InvalidToken(cause: TokenError) | FieldsChanged | KeyMismatch | SpacesChanged
    | BlankGoal | QuotaReached | KeyOfAnotherRequest | TargetMismatch | StateChanged | Busy | StorageFailed

  const CREATE := "create_workspace"
  const UNDO := "undo_create_workspace"

  function Infos(spaces: Spaces): map<string, Info> { map id | id in spaces :: spaces[id].info }

  /** What `list` shows: the spaces that are not archived. */
  function Visible(spaces: Spaces): map<string, Info> {
    map id | id in spaces && !spaces[id].info.archived :: spaces[id].info
  }

  function IssueDraft(env: Env, draft: Draft, stateHash: string, nonce: string, now: int): (string, Claims) {
    Issue(env.signer, env.ownerId, CREATE, None, env.draftHash(draft), stateHash, nonce, now)
  }

  /** The first preview: signed over the visible spaces. */
  function Propose(env: Env, spaces: Spaces, draft: Draft, nonce: string, now: int): (string, Claims) {
    IssueDraft(env, draft, env.digest(Visible(spaces)), nonce, now)
  }

  // ---------------------------------------------------------------- revising

  datatype RevisionRequest = RevisionRequest(
    requestId: string, token: string, original: Draft, originalToken: string, changes: Changes)

  function Or<T>(change: Option<T>, value: T): T { if change.Some? then change.value else value }

  /** The draft with the changes; a new goal is routed again and brings its own title unless one is given. */
  function Changed(env: Env, original: Draft, changes: Changes): Result<Draft, Error> {
    var draft := original.(title := Or(changes.title, original.title), goal := Or(changes.goal, original.goal),
                           examAt := Or(changes.examAt, original.examAt),
                           dailyMinutes := Or(changes.dailyMinutes, original.dailyMinutes));
    if changes.goal.None? then Ok(draft)
    else
      match env.route(draft.goal)
      case None => Err(BlankGoal)
      case Some(d) =>
        Ok(draft.(subject := d.subject, topics := d.topics, keywords := d.keywords, title := Or(changes.title, d.title)))
  }

  /** `revise_workspace_proposal`: the new draft, its token and claims. */
  function Revise(env: Env, spaces: Spaces, req: RevisionRequest, nonce: string, now: int): Result<(Draft, string, Claims), Error> {
    if req.originalToken != req.token then Err(TokenMismatch)
    else if req.original.idempotencyKey != "create-" + env.requestHash(req.requestId) then Err(NotThisRequest)
    else
      match Verify(env.signer, req.token, env.ownerId, Some(CREATE), now)
      case Err(e) => Err(InvalidToken(e))
      case Ok(claims) =>
        if claims.proposalHash != env.draftHash(req.original) then Err(FieldsChanged)
        else if env.digest(Infos(spaces)) != claims.stateHash then Err(SpacesChanged)
        else
          match Changed(env, req.original, req.changes)
          case Err(e) => Err(e)
          case Ok(draft) =>
            var (token, issued) := IssueDraft(env, draft, claims.stateHash, nonce, now);
            Ok((draft, token, issued))
  }

  // ---------------------------------------------------------------- confirming and undoing

  datatype ConfirmRequest = ConfirmRequest(
    requestId: string, idempotencyKey: string, token: string, draft: Draft, draftToken: string)

  datatype UndoRequest = UndoRequest(requestId: string, workspaceId: string, token: string)

  /** A receipt of either operation; a creation carries its undo token. */
  datatype Receipt = Receipt(
    requestId: string, idempotencyKey: string, operation: string, workspaceId: string, undoToken: Option<string>, replayed: bool)

  function AdmittedDraft(env: Env, req: ConfirmRequest, now: int): Result<Claims, Error> {
    match Verify(env.signer, req.token, env.ownerId, Some(CREATE), now)
    case Err(e) => Err(InvalidToken(e))
    case Ok(claims) =>
      if req.draftToken != req.token then Err(TokenMismatch)
      else if req.draft.idempotencyKey != req.idempotencyKey then Err(KeyMismatch)
      else if req.draft.idempotencyKey != "create-" + env.requestHash(req.requestId) then Err(NotThisRequest)
      else if claims.proposalHash != env.draftHash(req.draft) then Err(FieldsChanged)
      else Ok(claims)
  }

  /** `commit_resolution` for a creation: quota, then the snapshot check. */
  function Committed(env: Env, spaces: Spaces, draft: Draft, stateHash: string, id: string, now: int): Result<Spaces, Error> {
    if |Visible(spaces)| >= env.maxSpaces then Err(QuotaReached)
    else if env.digest(Visible(spaces)) != stateHash then Err(SpacesChanged)
    else Ok(spaces[id := env.build(draft, now)])
  }

  function IssueUndo(env: Env, requestId: string, id: string, space: Space, nonce: string, now: int): (string, Claims) {
    Issue(env.signer, env.ownerId, UNDO, Some(id), env.undoHash(env.requestHash(requestId), id), env.stateHash(id, space), nonce, now)
  }

  function UndoKey(env: Env, requestId: string): string { "undo-" + env.requestHash(requestId) }

  function AdmittedUndo(env: Env, req: UndoRequest, now: int): Result<Claims, Error> {
    match Verify(env.signer, req.token, env.ownerId, Some(UNDO), now)
    case Err(e) => Err(InvalidToken(e))
    case Ok(claims) =>
      if claims.target != Some(req.workspaceId) then Err(TargetMismatch)
      else if claims.proposalHash != env.undoHash(env.requestHash(req.requestId), req.workspaceId) then Err(FieldsChanged)
      else Ok(claims)
  }

  /**
   What happens to a deferred material deletion: finalized, or given back because finalizing raised; given back
   because the undo itself failed; or left to recovery, because giving it back raised as well.
   */
  datatype Lease = Deferred(id: string) | Finalized(id: string) | GivenBack(id: string) | Aborted(id: string) | Left(id: string)

  predicate Ends(end: Lease, id: string) { end.id == id && !end.Deferred? }

  /** Every deferred deletion was ended, exactly once, before the next one. */
  predicate Settled(leases: seq<Lease>) {
    leases == [] || (|leases| >= 2 && leases[0].Deferred? && Ends(leases[1], leases[0].id) && Settled(leases[2..]))
  }

  lemma {:induction false} SettledMore(leases: seq<Lease>, id: string, end: Lease)
    requires Settled(leases) && Ends(end, id)
    ensures Settled(leases + [Deferred(id), end])
    decreases |leases|
  {
    var more := leases + [Deferred(id), end];
    if leases == [] {
      assert more[2..] == [];
    } else {
      SettledMore(leases[2..], id, end);
      assert more[2..] == leases[2..] + [Deferred(id), end];
    }
  }

  /** The rows, the receipts and the fate of every deferred deletion so far. */
  datatype Books = Books(spaces: Spaces, receipts: map<string, Receipt>, leases: seq<Lease>)

  /** A confirmed creation: its receipt is replayed, it is refused, or the space is made and the receipt saved. */
  function Confirmed(env: Env, b: Books, req: ConfirmRequest, id: string, nonce: string, now: int): (Books, Result<Receipt, Error>) {
    var key, admitted := req.idempotencyKey, AdmittedDraft(env, req, now);
    if key in b.receipts then
      (b, if b.receipts[key].requestId != req.requestId then Err(KeyOfAnotherRequest) else Ok(b.receipts[key].(replayed := true)))
    else if admitted.Err? then (b, Err(admitted.error))
    else
      match Committed(env, b.spaces, req.draft, admitted.value.stateHash, id, now)
      case Err(e) => (b, Err(e))
      case Ok(spaces) =>
        var (undo, _) := IssueUndo(env, req.requestId, id, env.build(req.draft, now), nonce, now);
        var receipt := Receipt(req.requestId, key, CREATE, id, Some(undo), false);
        (b.(spaces := spaces, receipts := b.receipts[key := receipt]), Ok(receipt))
  }

  function UndoReceipt(env: Env, req: UndoRequest): Receipt {
    Receipt(req.requestId, UndoKey(env, req.requestId), UNDO, req.workspaceId, None, false)
  }

  /** After an undo whose transaction committed: receipt saved, and a space that was there is gone. */
  function Undone(env: Env, b: Books, req: UndoRequest, end: Lease): Books {
    var receipts := b.receipts[UndoKey(env, req.requestId) := UndoReceipt(env, req)];
    if req.workspaceId in b.spaces then
      Books(b.spaces - {req.workspaceId}, receipts, b.leases + [Deferred(req.workspaceId), end])
    else b.(receipts := receipts)
  }

  /** After an undo that failed with the lease taken: rows and receipts as before. */
  function GivenUp(b: Books, req: UndoRequest, end: Lease): Books {
    b.(leases := b.leases + [Deferred(req.workspaceId), end])
  }

  /**
   How an undo may end. Saving, committing, aborting and finalizing may each fail. It succeeds only with the
   deferred deletion finalized; a failure to finalize comes after the commit, with the space gone.
   */
  ghost predicate UndoEnds(env: Env, b: Books, req: UndoRequest, now: int, c: Books, r: Result<Receipt, Error>) {
    var key, admitted, id := UndoKey(env, req.requestId), AdmittedUndo(env, req, now), req.workspaceId;
    if key in b.receipts then
      c == b && r == (if b.receipts[key].requestId != req.requestId || b.receipts[key].workspaceId != id
                      then Err(KeyOfAnotherRequest) else Ok(b.receipts[key].(replayed := true)))
    else if admitted.Err? then c == b && r == Err(admitted.error)
    else if id !in b.spaces then
      (c == b && r == Err(StorageFailed)) || (c == Undone(env, b, req, Finalized(id)) && r == Ok(UndoReceipt(env, req)))
    else if env.stateHash(id, b.spaces[id]) != admitted.value.stateHash then
      c == b && (r == Err(StateChanged) || r == Err(Busy))
    else
      || (c == b && r == Err(Busy))
      || (c in {GivenUp(b, req, Aborted(id)), GivenUp(b, req, Left(id))} && r == Err(StorageFailed))
      || (c == Undone(env, b, req, Finalized(id)) && r == Ok(UndoReceipt(env, req)))
      || (c in {Undone(env, b, req, GivenBack(id)), Undone(env, b, req, Left(id))} && r == Err(StorageFailed))
  }

  /** However an undo ends, it leaves no deferred deletion open. */
  lemma UndoSettles(env: Env, b: Books, req: UndoRequest, now: int, c: Books, r: Result<Receipt, Error>)
    requires Settled(b.leases) && UndoEnds(env, b, req, now, c, r)
    ensures Settled(c.leases)
  {
    hide AdmittedUndo, Settled;
    if c.leases != b.leases {
      SettledMore(b.leases, req.workspaceId, c.leases[|b.leases| + 1]);
    }
  }

  class HomeSpaceService {
    const env: Env
    var spaces: Spaces
    var receipts: map<string, Receipt>
    ghost var leases: seq<Lease>

    constructor (env: Env, spaces: Spaces)
      ensures this.env == env && this.spaces == spaces && receipts == map[] && leases == [] && Settled(leases)
    {
      this.env, this.spaces, receipts, leases := env, spaces, map[], [];
    }

    ghost function Now(): Books
      reads this
    {
      Books(spaces, receipts, leases)
    }

    /** `confirm` of a workspace proposal; `id` is the fresh id of the new space. */
    method ConfirmWorkspace(req: ConfirmRequest, id: string, nonce: string, now: int) returns (r: Result<Receipt, Error>)
      requires id !in spaces
      modifies `spaces, `receipts
      ensures (Now(), r) == Confirmed(env, old(Now()), req, id, nonce, now)
    {
      var key := req.idempotencyKey;
      if key in receipts {
        if receipts[key].requestId != req.requestId { return Err(KeyOfAnotherRequest); }
        return Ok(receipts[key].(replayed := true));
      }
      var admitted := AdmittedDraft(env, req, now);
      if admitted.Err? { return Err(admitted.error); }
      if |Visible(spaces)| >= env.maxSpaces { return Err(QuotaReached); }
      if env.digest(Visible(spaces)) != admitted.value.stateHash { return Err(SpacesChanged); }
      spaces := spaces[id := env.build(req.draft, now)];
      var (undo, _) := IssueUndo(env, req.requestId, id, spaces[id], nonce, now);
      var receipt := Receipt(req.requestId, key, CREATE, id, Some(undo), false);
      receipts := receipts[key := receipt];
      return Ok(receipt);
    }

    /** `WorkspaceService.delete` with a precondition and deferred finalization: a lease, or an error. */
    method DeleteDeferred(id: string, stateHash: string) returns (error: Option<Error>)
      requires id in spaces
      modifies `spaces, `leases
      ensures error.None? ==> spaces == old(spaces) - {id} && leases == old(leases) + [Deferred(id)]
                              && env.stateHash(id, old(spaces)[id]) == stateHash
      ensures error.Some? ==> spaces == old(spaces) && leases == old(leases)
                              && (error.value == Busy || (error.value == StateChanged && env.stateHash(id, spaces[id]) != stateHash))
    {
      var busy: bool := *;
      if busy { return Some(Busy); }
      if env.stateHash(id, spaces[id]) != stateHash { return Some(StateChanged); }
      spaces := spaces - {id};
      leases := leases + [Deferred(id)];
      return None;
    }

    /** `finalize_deferred_delete`: on failure the deletion is given back, if that works. */
    method FinalizeDeferred(id: string) returns (end: Lease)
      ensures Ends(end, id) && !end.Aborted?
    {
      var failed: bool := *;
      if !failed { return Finalized(id); }
      var raised: bool := *;
      return if raised then Left(id) else GivenBack(id);
    }

    /** `abort_deferred_delete`, whose own failure is only logged. */
    method AbortDeferred(id: string) returns (end: Lease)
      ensures end in {Aborted(id), Left(id)}
    {
      var raised: bool := *;
      return if raised then Left(id) else Aborted(id);
    }

    /** `undo_created_workspace`: in every way it may end, a deferred deletion is ended once. */
    method UndoCreatedWorkspace(req: UndoRequest, now: int) returns (r: Result<Receipt, Error>)
      modifies this
      ensures UndoEnds(env, old(Now()), req, now, Now(), r)
      ensures old(Settled(leases)) ==> Settled(leases)
    {
      hide Settled, AdmittedUndo;
      ghost var b := Now();
      r := UndoSteps(req, now);
      if Settled(b.leases) { UndoSettles(env, b, req, now, Now(), r); }
    }

    method UndoSteps(req: UndoRequest, now: int) returns (r: Result<Receipt, Error>)
      modifies this
      ensures UndoEnds(env, old(Now()), req, now, Now(), r)
    {
      hide AdmittedUndo;
      ghost var b := Now();
      var key := UndoKey(env, req.requestId);
      if key in receipts {
        var existing := receipts[key];
        if existing.requestId != req.requestId || existing.workspaceId != req.workspaceId { return Err(KeyOfAnotherRequest); }
        return Ok(existing.(replayed := true));
      }
      var admitted := AdmittedUndo(env, req, now);
      if admitted.Err? { return Err(admitted.error); }
      var rows, deferred := spaces, false;
      if req.workspaceId in spaces {
        var refused := DeleteDeferred(req.workspaceId, admitted.value.stateHash);
        if refused.Some? { return Err(refused.value); }
        deferred := true;
      }
      var failed: bool := *;
      if failed {
        // the transaction rolls back, then the lease is given up
        spaces := rows;
        if deferred {
          var end := AbortDeferred(req.workspaceId);
          leases := leases + [end];
          assert leases == b.leases + [Deferred(req.workspaceId), end];
        }
        return Err(StorageFailed);
      }
      var receipt := Receipt(req.requestId, key, UNDO, req.workspaceId, None, false);
      receipts := receipts[key := receipt];
      if deferred {
        var end := FinalizeDeferred(req.workspaceId);
        leases := leases + [end];
        assert leases == b.leases + [Deferred(req.workspaceId), end];
        if !end.Finalized? { return Err(StorageFailed); }
      }
      return Ok(receipt);
    }
  }
}
