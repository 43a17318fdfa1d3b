/**
 Runs of confirmations and undos of workspace proposals, with anything else happening to the rows between.

 Revising a proposal changes nothing stored: it only yields another preview, and any preview, of whatever
 chain, may be what a confirmation brings. A call that raises before its transaction commits is no event.
 */
module HomeSpacesRuns {
  import opened Wrappers
  import opened HomeTokens
  import opened HomeSpaces

  datatype Event =
    | Confirm(create: ConfirmRequest, id: string, nonce: string, at: int)
    | Undo(undo: UndoRequest, undoneAt: int, end: Books, answer: Result<Receipt, Error>)
    | Others(rows: Spaces)

  /** A space a request had created. */
  datatype Made = Made(requestId: string, id: string)

  datatype State = State(books: Books, made: seq<Made>, undone: seq<Made>)

  /** New ids are new, an undo ends in one of its ways, other writers leave these ids alone once they are gone. */
  ghost predicate Possible(env: Env, s: State, e: Event) {
    match e
    case Confirm(_, id, _, _) => id !in s.books.spaces && forall m | m in s.made :: m.id != id
    case Undo(undo, at, end, answer) => UndoEnds(env, s.books, undo, at, end, answer)
    case Others(rows) => forall m | m in s.made && m.id in rows :: m.id in s.books.spaces
  }

  /** A confirmation is noted when it creates, an undo when its transaction commits. */
  function Step(env: Env, s: State, e: Event): State {
    match e
    case Confirm(create, id, nonce, at) =>
      var (books, answer) := Confirmed(env, s.books, create, id, nonce, at);
      s.(books := books, made := if answer.Ok? && !answer.value.replayed then s.made + [Made(create.requestId, id)] else s.made)
    case Undo(undo, at, end, answer) =>
      s.(books := end, undone := if UndoKey(env, undo.requestId) in s.books.receipts || UndoKey(env, undo.requestId) !in end.receipts
                                 then s.undone else s.undone + [Made(undo.requestId, undo.workspaceId)])
    case Others(rows) => s.(books := s.books.(spaces := rows))
  }

  /** The state a run ends in, if each of its events is possible where it comes. */
  ghost function Run(env: Env, spaces: Spaces, events: seq<Event>): Option<State> {
    if events == [] then Some(State(Books(spaces, map[], []), [], []))
    else
      match Run(env, spaces, events[..|events| - 1])
      case None => None
      case Some(s) => if Possible(env, s, events[|events| - 1]) then Some(Step(env, s, events[|events| - 1])) else None
  }

  function CreateKey(env: Env, requestId: string): string { "create-" + env.requestHash(requestId) }

  predicate IsReceipt(r: Receipt, requestId: string, operation: string, id: string) {
    r.requestId == requestId && r.operation == operation && r.workspaceId == id && !r.replayed
  }

  /** Every creation and every undo has its receipt, under the key of its request, and no two of them share a key. */
  ghost predicate Booked(env: Env, s: State) {
    && (forall m | m in s.made :: CreateKey(env, m.requestId) in s.books.receipts
          && IsReceipt(s.books.receipts[CreateKey(env, m.requestId)], m.requestId, CREATE, m.id))
    && (forall m | m in s.undone :: UndoKey(env, m.requestId) in s.books.receipts
          && IsReceipt(s.books.receipts[UndoKey(env, m.requestId)], m.requestId, UNDO, m.id))
    && (forall i, j | 0 <= i < j < |s.made| :: s.made[i].requestId != s.made[j].requestId && s.made[i].id != s.made[j].id)
    && (forall i, j | 0 <= i < j < |s.undone| :: s.undone[i].requestId != s.undone[j].requestId)
    && (forall k | k in s.books.receipts :: !s.books.receipts[k].replayed)
  }

  lemma KeysDiffer(env: Env, a: string, b: string)
    ensures CreateKey(env, a) != UndoKey(env, b)
  {
    assert CreateKey(env, a)[0] == 'c' && UndoKey(env, b)[0] == 'u';
  }

  /** What a creation adds: the key was its request's own, and free. */
  lemma Creates(env: Env, b: Books, req: ConfirmRequest, id: string, nonce: string, at: int)
    ensures var (next, answer) := Confirmed(env, b, req, id, nonce, at);
            || (next == b && (answer.Ok? ==> req.idempotencyKey in b.receipts && answer.value.replayed))
            || (answer.Ok? && req.idempotencyKey == CreateKey(env, req.requestId) && req.idempotencyKey !in b.receipts
                && IsReceipt(answer.value, req.requestId, CREATE, id)
                && next == b.(spaces := b.spaces[id := env.build(req.draft, at)], receipts := b.receipts[req.idempotencyKey := answer.value]))
  {
    hide Verify, IssueUndo;
  }

  lemma StepBooked(env: Env, s: State, e: Event)
    requires Booked(env, s) && Possible(env, s, e)
    ensures Booked(env, Step(env, s, e))
  {
    match e
    case Others(_) =>
    case Confirm(create, id, nonce, at) => ConfirmBooked(env, s, create, id, nonce, at);
    case Undo(undo, at, end, answer) => UndoBooked(env, s, undo, at, end, answer);
  }

  lemma ConfirmBooked(env: Env, s: State, create: ConfirmRequest, id: string, nonce: string, at: int)
    requires Booked(env, s) && id !in s.books.spaces && forall m | m in s.made :: m.id != id
    ensures Booked(env, Step(env, s, Confirm(create, id, nonce, at)))
  {
    hide Confirmed, CreateKey, UndoKey;
    Creates(env, s.books, create, id, nonce, at);
    forall m | m in s.undone { KeysDiffer(env, create.requestId, m.requestId); }
  }

  lemma UndoBooked(env: Env, s: State, undo: UndoRequest, at: int, end: Books, answer: Result<Receipt, Error>)
    requires Booked(env, s) && UndoEnds(env, s.books, undo, at, end, answer)
    ensures Booked(env, Step(env, s, Undo(undo, at, end, answer)))
  {
    hide CreateKey, UndoKey;
    UndoBooks(env, s.books, undo, at, end, answer);
    forall m | m in s.made { KeysDiffer(env, m.requestId, undo.requestId); }
  }

  /** What an undo books: nothing, or its receipt under its own key, which was free. */
  lemma UndoBooks(env: Env, b: Books, undo: UndoRequest, at: int, end: Books, answer: Result<Receipt, Error>)
    requires UndoEnds(env, b, undo, at, end, answer)
    ensures var key := UndoKey(env, undo.requestId);
            || end.receipts == b.receipts
            || (key !in b.receipts && end.receipts == b.receipts[key := UndoReceipt(env, undo)])
  {
    hide AdmittedUndo, UndoKey;
  }

  lemma {:induction false} RunBooked(env: Env, spaces: Spaces, events: seq<Event>)
    requires Run(env, spaces, events).Some?
    ensures Booked(env, Run(env, spaces, events).value)
  {
    hide Booked, Step, Possible;
    if events == [] {
      NothingBooked(env, spaces);
    } else {
      RunBooked(env, spaces, events[..|events| - 1]);
      StepBooked(env, Run(env, spaces, events[..|events| - 1]).value, events[|events| - 1]);
    }
  }

  lemma NothingBooked(env: Env, spaces: Spaces)
    ensures Booked(env, State(Books(spaces, map[], []), [], []))
  {
  }

  /**
   In any run one request creates at most one space, however many revised previews of it are confirmed and
   however often, and its undo takes effect at most once.
   */
  lemma OneSpacePerRequest(env: Env, spaces: Spaces, events: seq<Event>)
    requires Run(env, spaces, events).Some?
    ensures var s := Run(env, spaces, events).value;
            && (forall i, j | 0 <= i < j < |s.made| :: s.made[i].requestId != s.made[j].requestId)
            && (forall i, j | 0 <= i < j < |s.undone| :: s.undone[i].requestId != s.undone[j].requestId)
  {
    hide Run;
    RunBooked(env, spaces, events);
  }

  /** The event made a space of its own: the id that was new is there. */
  ghost predicate CreatesAt(env: Env, spaces: Spaces, events: seq<Event>, i: nat)
    requires i < |events|
  {
    && events[i].Confirm? && Run(env, spaces, events[..i + 1]).Some?
    && events[i].id in Run(env, spaces, events[..i + 1]).value.books.spaces
  }

  /** A creation is noted with its request. */
  lemma CreationIsNoted(env: Env, spaces: Spaces, events: seq<Event>, i: nat)
    requires i < |events| && CreatesAt(env, spaces, events, i)
    ensures var before, after := Run(env, spaces, events[..i]), Run(env, spaces, events[..i + 1]).value;
            before.Some? && after.made == before.value.made + [Made(events[i].create.requestId, events[i].id)]
  {
    hide Confirmed;
    assert events[..i + 1] == events[..i] + [events[i]];
    RunStep(env, spaces, events[..i], events[i]);
    var s, e := Run(env, spaces, events[..i]).value, events[i];
    Creates(env, s.books, e.create, e.id, e.nonce, e.at);
  }

  lemma {:induction false} MadeGrows(env: Env, spaces: Spaces, events: seq<Event>, later: seq<Event>)
    requires Run(env, spaces, events + later).Some?
    ensures Run(env, spaces, events).Some? && Run(env, spaces, events).value.made <= Run(env, spaces, events + later).value.made
    decreases |later|
  {
    hide Run, Possible, Confirmed;
    if later == [] {
      assert events + later == events;
    } else {
      var earlier, e := later[..|later| - 1], later[|later| - 1];
      assert events + later == (events + earlier) + [e];
      RunStep(env, spaces, events + earlier, e);
      MadeGrows(env, spaces, events, earlier);
    }
  }

  /** Two confirmations that both create a space, anywhere in a run, are of two requests. */
  lemma TwoSpacesTwoRequests(env: Env, spaces: Spaces, events: seq<Event>, i: nat, j: nat)
    requires i < j < |events| && CreatesAt(env, spaces, events, i) && CreatesAt(env, spaces, events, j)
    ensures events[i].create.requestId != events[j].create.requestId
  {
    hide Run, Booked;
    CreationIsNoted(env, spaces, events, i);
    CreationIsNoted(env, spaces, events, j);
    assert events[..j] == events[..i + 1] + events[i + 1..j];
    MadeGrows(env, spaces, events[..i + 1], events[i + 1..j]);
    OneSpacePerRequest(env, spaces, events[..j + 1]);
    var made, n := Run(env, spaces, events[..j + 1]).value.made, |Run(env, spaces, events[..i]).value.made|;
    assert made[n] == Made(events[i].create.requestId, events[i].id);
    assert made[|made| - 1] == Made(events[j].create.requestId, events[j].id);
  }

  /** A receipt once saved stays as it is. */
  lemma {:induction false} ReceiptsStay(env: Env, spaces: Spaces, events: seq<Event>, later: seq<Event>, key: string)
    requires Run(env, spaces, events + later).Some?
    ensures Run(env, spaces, events).Some?
    ensures var b, c := Run(env, spaces, events).value.books, Run(env, spaces, events + later).value.books;
            key in b.receipts ==> key in c.receipts && c.receipts[key] == b.receipts[key]
    decreases |later|
  {
    hide Run, Confirmed, UndoEnds, Possible;
    if later == [] {
      assert events + later == events;
    } else {
      var earlier, e := later[..|later| - 1], later[|later| - 1];
      assert events + later == (events + earlier) + [e];
      RunStep(env, spaces, events + earlier, e);
      ReceiptsStay(env, spaces, events, earlier, key);
      if key in Run(env, spaces, events).value.books.receipts { ReceiptStep(env, Run(env, spaces, events + earlier).value, e, key); }
    }
  }

  lemma ReceiptStep(env: Env, s: State, e: Event, key: string)
    requires Possible(env, s, e) && key in s.books.receipts
    ensures var c := Step(env, s, e).books; key in c.receipts && c.receipts[key] == s.books.receipts[key]
  {
    hide Confirmed, UndoEnds;
    match e
    case Confirm(create, id, nonce, at) => Creates(env, s.books, create, id, nonce, at);
    case Undo(undo, at, end, answer) => UndoBooks(env, s.books, undo, at, end, answer);
    case Others(_) =>
  }

  /** Once an undo has succeeded, a second one of its request changes nothing, whatever has happened since. */
  lemma UndoTakesEffectOnce(env: Env, spaces: Spaces, events: seq<Event>, i: nat, j: nat)
    requires i < j < |events| && events[i].Undo? && events[j].Undo? && events[i].undo.requestId == events[j].undo.requestId
    requires Run(env, spaces, events[..j + 1]).Some? && events[i].answer.Ok?
    ensures Run(env, spaces, events[..j]).Some?
    ensures Run(env, spaces, events[..j + 1]).value.books == Run(env, spaces, events[..j]).value.books
  {
    hide Run;
    var key := UndoKey(env, events[i].undo.requestId);
    assert events[..j + 1] == events[..j] + [events[j]] && events[..i + 1] == events[..i] + [events[i]];
    assert events[..j] == events[..i + 1] + events[i + 1..j];
    RunStep(env, spaces, events[..j], events[j]);
    ReceiptsStay(env, spaces, events[..i + 1], events[i + 1..j], key);
    RunStep(env, spaces, events[..i], events[i]);
    SuccessIsBooked(env, Run(env, spaces, events[..i]).value.books, events[i].undo, events[i].undoneAt, events[i].end, events[i].answer);
  }

  lemma SuccessIsBooked(env: Env, b: Books, undo: UndoRequest, at: int, end: Books, answer: Result<Receipt, Error>)
    requires UndoEnds(env, b, undo, at, end, answer) && answer.Ok?
    ensures UndoKey(env, undo.requestId) in end.receipts
  {
    hide AdmittedUndo;
  }

  /** After that, any confirmation for the request replays the receipt of that one space and changes nothing. */
  lemma LaterConfirmReplays(env: Env, spaces: Spaces, events: seq<Event>, m: Made, req: ConfirmRequest, id: string, nonce: string, at: int)
    requires Run(env, spaces, events).Some? && m in Run(env, spaces, events).value.made
    requires req.requestId == m.requestId
    ensures var b := Run(env, spaces, events).value.books;
            var (next, answer) := Confirmed(env, b, req, id, nonce, at);
            && next == b
            && (req.idempotencyKey == CreateKey(env, m.requestId) ==> answer.Ok? && answer.value.replayed && answer.value.workspaceId == m.id)
  {
    hide Run, Verify, IssueUndo;
    RunBooked(env, spaces, events);
  }

  /** Another request that comes with the key of this one is refused. */
  lemma OtherRequestIsRefused(env: Env, spaces: Spaces, events: seq<Event>, m: Made, req: ConfirmRequest, id: string, nonce: string, at: int)
    requires Run(env, spaces, events).Some? && m in Run(env, spaces, events).value.made
    requires req.idempotencyKey == CreateKey(env, m.requestId) && req.requestId != m.requestId
    ensures var b := Run(env, spaces, events).value.books; Confirmed(env, b, req, id, nonce, at) == (b, Err(KeyOfAnotherRequest))
  {
    hide Run, Verify, IssueUndo;
    RunBooked(env, spaces, events);
  }

  /** After any run every deferred deletion was ended, exactly once. */
  lemma {:induction false} AlwaysSettled(env: Env, spaces: Spaces, events: seq<Event>)
    requires Run(env, spaces, events).Some?
    ensures Settled(Run(env, spaces, events).value.books.leases)
  {
    hide Settled, Confirmed, UndoEnds;
    if events == [] {
      assert Settled([]) by { NothingDeferred(); }
    } else {
      var s, e := Run(env, spaces, events[..|events| - 1]).value, events[|events| - 1];
      AlwaysSettled(env, spaces, events[..|events| - 1]);
      match e
      case Confirm(create, id, nonce, at) => Creates(env, s.books, create, id, nonce, at);
      case Undo(undo, at, end, answer) => UndoSettles(env, s.books, undo, at, end, answer);
      case Others(_) =>
    }
  }

  lemma NothingDeferred()
    ensures Settled([])
  {
  }

  /** A created space that is gone stays gone: neither retries of its request nor of its undo bring it back. */
  lemma {:induction false} GoneStaysGone(env: Env, spaces: Spaces, events: seq<Event>, later: seq<Event>, m: Made)
    requires Run(env, spaces, events + later).Some?
    requires Run(env, spaces, events).Some? ==>
               m in Run(env, spaces, events).value.made && m.id !in Run(env, spaces, events).value.books.spaces
    ensures Run(env, spaces, events).Some? && m in Run(env, spaces, events + later).value.made
    ensures m.id !in Run(env, spaces, events + later).value.books.spaces
    decreases |later|
  {
    hide Step, Possible, Run;
    if later == [] {
      assert events + later == events;
    } else {
      var earlier, e := later[..|later| - 1], later[|later| - 1];
      assert events + later == (events + earlier) + [e];
      RunStep(env, spaces, events + earlier, e);
      GoneStaysGone(env, spaces, events, earlier, m);
      GoneStep(env, Run(env, spaces, events + earlier).value, e, m);
    }
  }

  /** A run goes on by any event that is possible where it comes, and by no other. */
  lemma RunStep(env: Env, spaces: Spaces, events: seq<Event>, e: Event)
    ensures Run(env, spaces, []).Some? && Run(env, spaces, []).value.books == Books(spaces, map[], [])
    ensures var before := Run(env, spaces, events);
            Run(env, spaces, events + [e])
            == if before.Some? && Possible(env, before.value, e) then Some(Step(env, before.value, e)) else None
  {
    assert (events + [e])[..|events|] == events;
  }

  lemma GoneStep(env: Env, s: State, e: Event, m: Made)
    requires Possible(env, s, e) && m in s.made && m.id !in s.books.spaces
    ensures m in Step(env, s, e).made && m.id !in Step(env, s, e).books.spaces
  {
    hide Confirmed, AdmittedUndo;
    if e.Confirm? { Creates(env, s.books, e.create, e.id, e.nonce, e.at); }
  }
}
