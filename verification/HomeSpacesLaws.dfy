/** Chains of revisions, and creation followed by undo. */
module HomeSpacesLaws {
  import opened Wrappers
  import opened HomeTokens
  import opened HomeSpaces
  import Base64

  /** The collaborators the model leaves abstract: JSON parses back, hashes do not collide, owners are ASCII. */
  ghost predicate Ideal(env: Env) {
    && (forall c :: env.signer.parse(env.signer.serialize(c)) == Some(c))
    && (forall d, e | env.draftHash(d) == env.draftHash(e) :: d == e)
    && (forall m, n | env.digest(m) == env.digest(n) :: m == n)
    && (forall i, s, j, t | env.stateHash(i, s) == env.stateHash(j, t) :: i == j && s == t)
    && Base64.Ascii(env.ownerId)
  }

  datatype Revision = Revision(requestId: string, changes: Changes, spaces: Spaces, nonce: string, now: int)

  datatype Preview = Preview(draft: Draft, token: string, claims: Claims)

  function First(env: Env, spaces: Spaces, draft: Draft, nonce: string, now: int): Preview {
    var (token, claims) := Propose(env, spaces, draft, nonce, now);
    Preview(draft, token, claims)
  }

  function Next(env: Env, p: Preview, r: Revision): Result<Preview, Error> {
    match Revise(env, r.spaces, RevisionRequest(r.requestId, p.token, p.draft, p.token, r.changes), r.nonce, r.now)
    case Err(e) => Err(e)
    case Ok((draft, token, claims)) => Ok(Preview(draft, token, claims))
  }

  /** A chain of revisions, each of the previous preview; the first refusal ends it. */
  function Chain(env: Env, p: Preview, revisions: seq<Revision>): Result<Preview, Error> {
    if revisions == [] then Ok(p)
    else
      match Chain(env, p, revisions[..|revisions| - 1])
      case Err(e) => Err(e)
      case Ok(q) => Next(env, q, revisions[|revisions| - 1])
  }

  /** A preview's token carries exactly its draft's hash, for this owner and a creation. */
  predicate Sealed(env: Env, p: Preview) {
    && p.token == Signed(env.signer, Base64.Encode(env.signer.serialize(p.claims)))
    && p.claims.ownerId == env.ownerId && p.claims.operation == CREATE && p.claims.proposalHash == env.draftHash(p.draft)
  }

  lemma VerifySealed(env: Env, p: Preview, operation: string, now: int)
    requires Ideal(env) && p.token == Signed(env.signer, Base64.Encode(env.signer.serialize(p.claims)))
    requires p.claims.ownerId == env.ownerId && p.claims.operation == operation
    ensures Verify(env.signer, p.token, env.ownerId, Some(operation), now)
         == if p.claims.expiresAt <= now then Err(Expired) else Ok(p.claims)
  {
    hide Opened, Signed;
    OpensIssued(env.signer, p.claims);
  }

  /** The outcome of a revision of a sealed preview, up to the change itself. */
  lemma NextIs(env: Env, p: Preview, r: Revision)
    requires Ideal(env) && Sealed(env, p)
    ensures Next(env, p, r).Ok? <==>
              && p.draft.idempotencyKey == "create-" + env.requestHash(r.requestId) && r.now < p.claims.expiresAt
              && env.digest(Infos(r.spaces)) == p.claims.stateHash && Changed(env, p.draft, r.changes).Ok?
    ensures Next(env, p, r).Ok? ==>
              var q := Next(env, p, r).value;
              && q.draft == Changed(env, p.draft, r.changes).value && Sealed(env, q)
              && q.claims.stateHash == p.claims.stateHash && q.claims.expiresAt == r.now + env.signer.ttl
  {
    hide Ideal, Verify, Signed, Changed;
    VerifySealed(env, p, CREATE, r.now);
  }

  /** Where one thing alone stands in the way of a revision, the reason given is that one. */
  lemma WhyNotRevised(env: Env, p: Preview, r: Revision)
    requires Ideal(env) && Sealed(env, p)
    ensures var mine := p.draft.idempotencyKey == "create-" + env.requestHash(r.requestId);
            var same := env.digest(Infos(r.spaces)) == p.claims.stateHash;
            var routes := r.changes.goal.None? || env.route(r.changes.goal.value).Some?;
            && (!mine ==> Next(env, p, r) == Err(NotThisRequest))
            && (mine && r.now >= p.claims.expiresAt ==> Next(env, p, r) == Err(InvalidToken(Expired)))
            && (mine && r.now < p.claims.expiresAt && !same ==> Next(env, p, r) == Err(SpacesChanged))
            && (mine && r.now < p.claims.expiresAt && same && !routes ==> Next(env, p, r) == Err(BlankGoal))
            && (mine && r.now < p.claims.expiresAt && same && routes ==> Next(env, p, r).Ok?)
  {
    hide Ideal, Verify, Signed;
    VerifySealed(env, p, CREATE, r.now);
  }

  /** A revision of another preview than the one whose token comes with it is refused unread. */
  lemma RevisesItsOwn(env: Env, spaces: Spaces, req: RevisionRequest, nonce: string, now: int)
    requires req.originalToken != req.token
    ensures Revise(env, spaces, req, nonce, now) == Err(TokenMismatch)
  {
  }

  /** The fields a revision may touch. */
  predicate SameBesides(d: Draft, e: Draft) {
    d.idempotencyKey == e.idempotencyKey && d.materialHint == e.materialHint && d.reason == e.reason
  }

  /**
   Along any chain of revisions the idempotency key and the signed state never change, so all previews
   share one receipt slot; each preview's token is sealed over exactly its own fields.
   */
  lemma {:induction false} ChainKeeps(env: Env, spaces: Spaces, draft: Draft, nonce: string, now: int, revisions: seq<Revision>)
    requires Ideal(env)
    ensures var p := First(env, spaces, draft, nonce, now);
            Chain(env, p, revisions).Ok? ==>
              var q := Chain(env, p, revisions).value;
              && Sealed(env, q) && SameBesides(q.draft, draft) && q.claims.stateHash == env.digest(Visible(spaces))
              && (forall r | r in revisions :: Infos(r.spaces) == Visible(spaces))
  {
    hide Next, Ideal;
    var p := First(env, spaces, draft, nonce, now);
    if revisions != [] && Chain(env, p, revisions).Ok? {
      var before, r := revisions[..|revisions| - 1], revisions[|revisions| - 1];
      ChainKeeps(env, spaces, draft, nonce, now, before);
      NextIs(env, Chain(env, p, before).value, r);
      SameDigest(env, Infos(r.spaces), Visible(spaces));
      forall s | s in revisions ensures Infos(s.spaces) == Visible(spaces) { assert s == r || s in before; }
    }
  }

  lemma SameDigest(env: Env, m: map<string, Info>, n: map<string, Info>)
    requires Ideal(env)
    ensures env.digest(m) == env.digest(n) <==> m == n
  {
  }

  /** Only the fields that were signed pass `confirm`, with their own token and key, until the preview expires. */
  lemma OnlySignedFieldsConfirm(env: Env, p: Preview, req: ConfirmRequest, now: int)
    requires Ideal(env) && Sealed(env, p) && req.token == p.token
    ensures AdmittedDraft(env, req, now).Ok? <==>
              && req.draft == p.draft && req.draftToken == p.token && now < p.claims.expiresAt
              && req.idempotencyKey == p.draft.idempotencyKey == "create-" + env.requestHash(req.requestId)
  {
    hide Verify, Signed;
    VerifySealed(env, p, CREATE, now);
  }

  /** The value the last of the revisions that gives one gives, or the first one. */
  function LastGiven<T>(first: T, revisions: seq<Revision>, given: Changes -> Option<T>): T {
    if revisions == [] then first
    else
      var last := given(revisions[|revisions| - 1].changes);
      if last.Some? then last.value else LastGiven(first, revisions[..|revisions| - 1], given)
  }

  function GoalGiven(): Changes -> Option<string> { (c: Changes) => c.goal }

  function ExamGiven(): Changes -> Option<int> { (c: Changes) => c.examAt }

  function MinutesGiven(): Changes -> Option<int> { (c: Changes) => c.dailyMinutes }

  /** A title of its own, or the one a new goal is routed to. */
  function TitleGiven(env: Env): Changes -> Option<string> {
    (c: Changes) =>
      if c.title.Some? then c.title
      else if c.goal.Some? && env.route(c.goal.value).Some? then Some(env.route(c.goal.value).value.title)
      else None
  }

  /** Subject, topics and keywords are those of the draft, or of the route of a goal given since. */
  predicate RoutedAs(env: Env, draft: Draft, q: Draft, revisions: seq<Revision>) {
    if forall r | r in revisions :: r.changes.goal.None? then
      q.subject == draft.subject && q.topics == draft.topics && q.keywords == draft.keywords
    else
      env.route(q.goal).Some?
      && var d := env.route(q.goal).value; q.subject == d.subject && q.topics == d.topics && q.keywords == d.keywords
  }

  /**
   What a chain of revisions asks for is what its last preview shows: goal, exam time and minutes are those last
   given, the title the one last given or the one a later goal brings, and the rest follows the goal.
   */
  lemma {:induction false} ChainGives(env: Env, p: Preview, revisions: seq<Revision>)
    requires Ideal(env) && Sealed(env, p) && Chain(env, p, revisions).Ok?
    ensures var q := Chain(env, p, revisions).value;
            && Sealed(env, q)
            && q.draft.goal == LastGiven(p.draft.goal, revisions, GoalGiven())
            && q.draft.examAt == LastGiven(p.draft.examAt, revisions, ExamGiven())
            && q.draft.dailyMinutes == LastGiven(p.draft.dailyMinutes, revisions, MinutesGiven())
            && q.draft.title == LastGiven(p.draft.title, revisions, TitleGiven(env))
            && RoutedAs(env, p.draft, q.draft, revisions)
  {
    hide Next, Ideal, Sealed, Changed, RoutedAs;
    if revisions == [] {
      NotRouted(env, p.draft);
    } else {
      var before, r := revisions[..|revisions| - 1], revisions[|revisions| - 1];
      ChainGives(env, p, before);
      var q := Chain(env, p, before).value;
      NextIs(env, q, r);
      ChangedIs(env, q.draft, r.changes);
      RoutedMore(env, p.draft, q.draft, Chain(env, p, revisions).value.draft, before, r);
      assert revisions == before + [r];
    }
  }

  lemma NotRouted(env: Env, draft: Draft)
    ensures RoutedAs(env, draft, draft, [])
  {
  }

  /** One change, field by field. */
  predicate Shows(env: Env, d: Draft, e: Draft, c: Changes) {
    && e.goal == (if c.goal.Some? then c.goal.value else d.goal)
    && e.examAt == (if c.examAt.Some? then c.examAt.value else d.examAt)
    && e.dailyMinutes == (if c.dailyMinutes.Some? then c.dailyMinutes.value else d.dailyMinutes)
    && (c.goal.None? ==> e.subject == d.subject && e.topics == d.topics && e.keywords == d.keywords)
    && (c.goal.Some? ==> env.route(e.goal).Some? && var w := env.route(e.goal).value;
                                                 e.subject == w.subject && e.topics == w.topics && e.keywords == w.keywords)
    && e.title == (if TitleGiven(env)(c).Some? then TitleGiven(env)(c).value else d.title)
  }

  lemma ChangedIs(env: Env, d: Draft, c: Changes)
    requires Changed(env, d, c).Ok?
    ensures Shows(env, d, Changed(env, d, c).value, c)
  {
  }

  lemma RoutedMore(env: Env, draft: Draft, d: Draft, e: Draft, before: seq<Revision>, r: Revision)
    requires RoutedAs(env, draft, d, before) && Shows(env, d, e, r.changes)
    ensures RoutedAs(env, draft, e, before + [r])
  {
    assert r in before + [r] && forall s | s in before :: s in before + [r];
  }

  predicate NoneArchived(spaces: Spaces) { forall id | id in spaces :: !spaces[id].info.archived }

  /**
   When a fresh preview can be revised. The preview is signed over the visible spaces, the revision
   compares all spaces: with every other check met, an owner with an archived space is always refused,
   and if nothing changed since the preview the revision passes exactly when no space is archived.
   */
  lemma RevisableIff(env: Env, spaces: Spaces, draft: Draft, nonce: string, now: int, r: Revision)
    requires Ideal(env) && draft.idempotencyKey == "create-" + env.requestHash(r.requestId)
    requires r.now < now + env.signer.ttl && Changed(env, draft, r.changes).Ok?
    ensures var p := First(env, spaces, draft, nonce, now);
            && (Next(env, p, r).Ok? <==> NoneArchived(r.spaces) && Visible(r.spaces) == Visible(spaces))
            && (r.spaces == spaces ==> (Next(env, p, r).Ok? <==> NoneArchived(spaces)))
  {
    hide Next, Ideal;
    var p := First(env, spaces, draft, nonce, now);
    NextIs(env, p, r);
    SameDigest(env, Infos(r.spaces), Visible(spaces));
    if Infos(r.spaces) == Visible(spaces) {
      forall id | id in r.spaces ensures !r.spaces[id].info.archived {
        assert id in Infos(r.spaces) && Infos(r.spaces)[id] == Visible(spaces)[id];
      }
    }
    if NoneArchived(r.spaces) { assert Infos(r.spaces) == Visible(r.spaces); }
  }

  /**
   Confirming compares visible spaces only: below the quota it commits exactly when they are as signed, and at
   or above it never. What is committed is the one new space beside the others.
   */
  lemma CommittableIff(env: Env, spaces: Spaces, draft: Draft, nonce: string, now: int, revisions: seq<Revision>,
                       current: Spaces, id: string, at: int)
    requires Ideal(env)
    requires Chain(env, First(env, spaces, draft, nonce, now), revisions).Ok?
    ensures var q := Chain(env, First(env, spaces, draft, nonce, now), revisions).value;
            var r := Committed(env, current, q.draft, q.claims.stateHash, id, at);
            && (r.Ok? <==> |Visible(current)| < env.maxSpaces && Visible(current) == Visible(spaces))
            && (r == Err(QuotaReached) <==> |Visible(current)| >= env.maxSpaces)
            && (r.Ok? ==> r.value == current[id := env.build(q.draft, at)])
            && (r.Err? ==> r.error in {QuotaReached, SpacesChanged})
  {
    hide Ideal, Chain;
    ChainKeeps(env, spaces, draft, nonce, now, revisions);
    SameDigest(env, Visible(current), Visible(spaces));
  }

  /** An owner with one archived space and nothing else: the fresh preview can be confirmed, not revised. */
  lemma ArchivedSpaceStopsRevision(env: Env, draft: Draft, requestId: string, nonce: string, now: int, id: string)
    requires Ideal(env) && draft.idempotencyKey == "create-" + env.requestHash(requestId) && env.signer.ttl > 0 && env.maxSpaces > 0
    ensures var spaces: Spaces := map["old" := Space(Info("t", "g", "s", [], [], true), 1, {}, map[])];
            var p := First(env, spaces, draft, nonce, now);
            && Next(env, p, Revision(requestId, Changes(None, None, None, None), spaces, nonce, now)).Err?
            && AdmittedDraft(env, ConfirmRequest(requestId, draft.idempotencyKey, p.token, draft, p.token), now) == Ok(p.claims)
            && Committed(env, spaces, draft, p.claims.stateHash, id, now).Ok?
  {
    hide Ideal, Next, Verify, Signed;
    var spaces: Spaces := map["old" := Space(Info("t", "g", "s", [], [], true), 1, {}, map[])];
    var p := First(env, spaces, draft, nonce, now);
    RevisableIff(env, spaces, draft, nonce, now, Revision(requestId, Changes(None, None, None, None), spaces, nonce, now));
    assert "old" in spaces && spaces["old"].info.archived;
    VerifySealed(env, p, CREATE, now);
    assert Visible(spaces) == map[];
  }

  // ---------------------------------------------------------------- undo

  /** An undo token admits exactly its own request and space, until it expires, and carries the space's state. */
  lemma UndoIssued(env: Env, requestId: string, id: string, space: Space, nonce: string, now: int, at: int)
    requires Ideal(env) && at < now + env.signer.ttl
    ensures var (token, claims) := IssueUndo(env, requestId, id, space, nonce, now);
            AdmittedUndo(env, UndoRequest(requestId, id, token), at) == Ok(claims) && claims.stateHash == env.stateHash(id, space)
  {
    hide Verify, Signed;
    var (token, claims) := IssueUndo(env, requestId, id, space, nonce, now);
    VerifySealed(env, Preview(Draft("", "", "", [], [], 0, 0, "", "", ""), token, claims), UNDO, at);
  }

  /** It admits nothing else: the request and the space must be those it was issued for, and the time not over. */
  lemma UndoOnlyAsIssued(env: Env, requestId: string, id: string, space: Space, nonce: string, now: int, req: UndoRequest, at: int)
    requires Ideal(env) && req.token == IssueUndo(env, requestId, id, space, nonce, now).0
    ensures AdmittedUndo(env, req, at).Ok? <==>
              && req.workspaceId == id && at < now + env.signer.ttl
              && env.undoHash(env.requestHash(req.requestId), id) == env.undoHash(env.requestHash(requestId), id)
  {
    hide Verify, Signed;
    var (token, claims) := IssueUndo(env, requestId, id, space, nonce, now);
    VerifySealed(env, Preview(Draft("", "", "", [], [], 0, 0, "", "", ""), token, claims), UNDO, at);
  }

  /** Undoing a space that is already gone deletes nothing, and its success is only the receipt. */
  lemma UndoOfGoneSpace(env: Env, b: Books, req: UndoRequest, now: int, c: Books, r: Result<Receipt, Error>)
    requires UndoEnds(env, b, req, now, c, r) && req.workspaceId !in b.spaces
    ensures c.spaces == b.spaces && c.leases == b.leases
    ensures r.Ok? ==> UndoKey(env, req.requestId) in c.receipts && c.receipts[UndoKey(env, req.requestId)].workspaceId == r.value.workspaceId
    ensures r.Err? ==> c == b
  {
    hide AdmittedUndo;
  }

  /** A created space that changed in any way since its undo token was issued is never deleted by it. */
  lemma UndoOnlyUntouched(env: Env, requestId: string, id: string, space: Space, nonce: string, now: int, at: int,
                          b: Books, c: Books, r: Result<Receipt, Error>)
    requires Ideal(env) && id in b.spaces && b.spaces[id] != space && UndoKey(env, requestId) !in b.receipts
    requires at < now + env.signer.ttl
    requires UndoEnds(env, b, UndoRequest(requestId, id, IssueUndo(env, requestId, id, space, nonce, now).0), at, c, r)
    ensures c == b && (r == Err(StateChanged) || r == Err(Busy))
  {
    hide AdmittedUndo, IssueUndo;
    UndoIssued(env, requestId, id, space, nonce, now, at);
  }

  /**
   Creating a space and undoing it at once gives back exactly the spaces there were, with one deferred
   deletion, finalized; if the undo fails, the space is still there unless finalizing is what failed.
   */
  method CreateThenUndo(service: HomeSpaceService, req: ConfirmRequest, id: string, nonce: string, now: int, at: int)
    returns (created: Result<Receipt, Error>, undone: Result<Receipt, Error>)
    requires Ideal(service.env) && id !in service.spaces && Settled(service.leases)
    requires req.idempotencyKey !in service.receipts && UndoKey(service.env, req.requestId) !in service.receipts
    requires at < now + service.env.signer.ttl
    modifies service
    ensures created.Err? ==> service.spaces == old(service.spaces) && service.receipts == old(service.receipts)
    ensures created.Ok? && undone.Ok? ==>
              service.spaces == old(service.spaces) && service.leases == old(service.leases) + [Deferred(id), Finalized(id)]
    ensures created.Ok? && undone.Err? ==>
              || service.spaces == old(service.spaces)[id := service.env.build(req.draft, now)]
              || (service.spaces == old(service.spaces)
                  && service.leases in {old(service.leases) + [Deferred(id), GivenBack(id)], old(service.leases) + [Deferred(id), Left(id)]})
    ensures Settled(service.leases)
  {
    hide Ideal, AdmittedUndo, AdmittedDraft, IssueUndo, Committed, Settled;
    created := service.ConfirmWorkspace(req, id, nonce, now);
    if created.Err? { return created, created; }
    var space := service.env.build(req.draft, now);
    KeysApart(service.env, req, now, req.requestId);
    ghost var b := service.Now();
    CommittedIs(service.env, old(service.spaces), req.draft, AdmittedDraft(service.env, req, now).value.stateHash, id, now);
    UndoIssued(service.env, req.requestId, id, space, nonce, now, at);
    undone := service.UndoCreatedWorkspace(UndoRequest(req.requestId, id, created.value.undoToken.value), at);
    assert b.spaces - {id} == old(service.spaces);
  }

  lemma KeysApart(env: Env, req: ConfirmRequest, now: int, undone: string)
    requires AdmittedDraft(env, req, now).Ok?
    ensures req.idempotencyKey != UndoKey(env, undone)
  {
    assert req.idempotencyKey[0] == 'c' && UndoKey(env, undone)[0] == 'u';
  }

  lemma CommittedIs(env: Env, spaces: Spaces, draft: Draft, stateHash: string, id: string, now: int)
    ensures Committed(env, spaces, draft, stateHash, id, now).Ok? ==>
              Committed(env, spaces, draft, stateHash, id, now).value == spaces[id := env.build(draft, now)]
  {
  }
}
