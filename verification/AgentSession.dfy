/**
 The conversation store behind the agent chat: optimistic commits, the turn cache and the history.

 A chat reads the session, talks to the model for as long as it takes, and then commits under the
 session transaction. The cache of turns is a JSON object inside the stored record, and the stores
 differ in the order they give its keys back in: SQLite's JSON text keeps the order of insertion, the
 file store writes keys sorted, and PostgreSQL's JSONB keeps them in an order of its own.
 `AgentSessionLaws` proves what runs keep.
 */
module AgentSession {
  import opened Wrappers
  import opened AgentHistory
  import opened AgentHistoryLaws

  const MAX_SESSION_TURNS := 20

  datatype Reply = Reply(message: string, citations: seq<string>, sources: seq<string>, action: Option<string>)
  datatype Turn = Turn(id: string, reply: Reply)
  datatype Session = Session(workspace: string, version: nat, messages: seq<Message>, turns: seq<Turn>)

  /** A chat about to commit; `turnId` is empty when the client sent none, `snapshot` the version it read. */
  datatype Chat = Chat(workspace: string, turnId: string, message: string, reply: Reply, snapshot: Option<nat>)

  datatype Outcome = Answered(reply: Reply) | Replayed(reply: Reply) | Conflict | Limit

  function LastN<T>(s: seq<T>, n: nat): seq<T> {
    if |s| <= n then s else s[|s| - n..]
  }

  predicate Holds(turns: seq<Turn>, id: string) {
    exists i :: 0 <= i < |turns| && turns[i].id == id
  }

  /** The reply stored for a turn. */
  function Stored(turns: seq<Turn>, id: string): Reply
    requires Holds(turns, id)
  {
    if turns[0].id == id then turns[0].reply else Stored(turns[1..], id)
  }

  /** Python's `turns[id] = reply`: a known key keeps its place, a new one goes last. */
  function PutTurn(turns: seq<Turn>, id: string, reply: Reply): seq<Turn> {
    if turns == [] then [Turn(id, reply)]
    else if turns[0].id == id then [Turn(id, reply)] + turns[1..]
    else [turns[0]] + PutTurn(turns[1..], id, reply)
  }

  /** The order a store gives the keys of a saved object back in. */
  datatype Order = Insertion | Keyed(less: (string, string) -> bool)

  function Placed(less: (string, string) -> bool, s: seq<Turn>, t: Turn): seq<Turn> {
    if s == [] || less(t.id, s[0].id) then [t] + s else [s[0]] + Placed(less, s[1..], t)
  }

  function SortedBy(less: (string, string) -> bool, s: seq<Turn>): seq<Turn> {
    if s == [] then [] else Placed(less, SortedBy(less, s[1..]), s[0])
  }

  /** The turns as the next load iterates over them. */
  function Reloaded(order: Order, turns: seq<Turn>): seq<Turn> {
    match order
    case Insertion => turns
    case Keyed(less) => SortedBy(less, turns)
  }

  /** The two messages a turn adds. */
  function Messages(c: Chat): seq<Message> {
    [Message(Some("user"), Some(c.message), []), Message(Some("assistant"), Some(c.reply.message), c.reply.citations + c.reply.sources)]
  }

  /** `append_messages`. */
  function Append(s: Session, c: Chat): Session {
    s.(messages := Bounded(s.messages + Messages(c), MAX_SESSION_MESSAGES, MAX_HISTORY_CHARACTERS),
    turns := if c.turnId == "" then s.turns else LastN(PutTurn(s.turns, c.turnId, c.reply), MAX_SESSION_TURNS))
  }

  /** What the store holds of a session it was given. */
  function Saved(order: Order, s: Session): Session {
    s.(turns := Reloaded(order, s.turns))
  }

  /** What a chat does before it talks to the model: it stops, or shows the model this history. */
  datatype Begun = Stopped(outcome: Outcome) | Asked(snapshot: Option<nat>, shown: seq<Message>)

  /** Role and content alone. */
  function Bare(ms: seq<Message>): seq<Message> { seq(|ms|, i requires 0 <= i < |ms| => ms[i].(extra := [])) }

  /** The first half of `_chat_in_session`. */
  function Begin(store: Option<Session>, workspace: string, turnId: string, quotaFull: bool): Begun {
    match store
    case None => if quotaFull then Stopped(Limit) else Asked(None, [])
    case Some(s) =>
      if s.workspace != workspace then Stopped(Conflict)
      else if turnId != "" && Holds(s.turns, turnId) then Stopped(Replayed(Stored(s.turns, turnId)))
      else Asked(Some(s.version), Bounded(Bare(s.messages), MAX_SESSION_MESSAGES, MAX_HISTORY_CHARACTERS))
  }

  /** The commit decision of `_chat_in_session`. */
  function Commit(order: Order, store: Option<Session>, c: Chat, seeded: bool, quotaFull: bool): (Option<Session>, Outcome) {
    if !seeded then (store, Conflict)
    else match store
      case None =>
        if c.snapshot.Some? then (store, Conflict)
        else if quotaFull then (store, Limit)
        else (Some(Saved(order, Append(Session(c.workspace, 1, [], []), c))), Answered(c.reply))
      case Some(s) =>
        if s.workspace != c.workspace then (store, Conflict)
        else if c.turnId != "" && Holds(s.turns, c.turnId) then (store, Replayed(Stored(s.turns, c.turnId)))
        else if c.snapshot != Some(s.version) then (store, Conflict)
        else (Some(Saved(order, Append(s, c).(version := s.version + 1))), Answered(c.reply))
  }

  class SessionStore {
    const order: Order
    var session: Option<Session>

    constructor (order: Order)
      ensures this.order == order && session == None
    {
      this.order, session := order, None;
    }

    /** `append_messages`, with its eviction loop. */
    method AppendMessages(s: Session, c: Chat) returns (r: Session)
      ensures r == Append(s, c)
    {
      var messages := BoundedHistory(s.messages + Messages(c), MAX_SESSION_MESSAGES, MAX_HISTORY_CHARACTERS);
      var turns := s.turns;
      if c.turnId != "" {
        turns := PutTurn(turns, c.turnId, c.reply);
        ghost var all := turns;
        while |turns| > MAX_SESSION_TURNS
          invariant |turns| >= MAX_SESSION_TURNS || turns == all
          invariant |turns| <= |all| && turns == all[|all| - |turns|..]
        {
          turns := turns[1..];
        }
      }
      return s.(messages := messages, turns := turns);
    }

    /** A chat up to its call of the model; `quotaFull` is read only when there is no session yet. */
    method BeginTurn(workspace: string, turnId: string, quotaFull: bool) returns (r: Begun)
      ensures r == Begin(session, workspace, turnId, quotaFull)
    {
      var messages: seq<Message> := [];
      if session.Some? {
        if session.value.workspace != workspace { return Stopped(Conflict); }
        messages := session.value.messages;
      } else if quotaFull {
        return Stopped(Limit);
      }
      if session.Some? && turnId != "" && Holds(session.value.turns, turnId) {
        return Stopped(Replayed(Stored(session.value.turns, turnId)));
      }
      var shown := BoundedHistory(Bare(messages), MAX_SESSION_MESSAGES, MAX_HISTORY_CHARACTERS);
      return Asked(if session.Some? then Some(session.value.version) else None, shown);
    }

    /** The commit of one chat, under the plan, conversation and quota transactions. */
    method CommitTurn(c: Chat, seeded: bool, quotaFull: bool) returns (o: Outcome)
      modifies this
      ensures (session, o) == Commit(order, old(session), c, seeded, quotaFull)
    {
      if !seeded {
        return Conflict;
      }
      if c.snapshot.Some? {
        if session.None? || session.value.workspace != c.workspace {
          return Conflict;
        }
        if c.turnId != "" && Holds(session.value.turns, c.turnId) {
          return Replayed(Stored(session.value.turns, c.turnId));
        }
        if session.value.version != c.snapshot.value {
          return Conflict;
        }
        var s := AppendMessages(session.value, c);
        session := Some(Saved(order, s.(version := s.version + 1)));
      } else if session.None? {
        if quotaFull {
          return Limit;
        }
        var s := AppendMessages(Session(c.workspace, 1, [], []), c);
        session := Some(Saved(order, s));
      } else {
        if session.value.workspace == c.workspace && c.turnId != "" && Holds(session.value.turns, c.turnId) {
          return Replayed(Stored(session.value.turns, c.turnId));
        }
        return Conflict;
      }
      return Answered(c.reply);
    }
  }
}
