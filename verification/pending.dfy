/** The server's in-flight request table and its session slot. */
module Pending {
  import opened Wrappers

  type RequestId = nat
  type SessionId = nat

  datatype Code = RATE_LIMITED | MESSAGE_TOO_LARGE | HANDLER_FAILED

  /** What the add-on answered. */
  datatype Body = Ok(value: int) | Err(code: Code)

  /** What a waiter is told. */
  datatype Outcome = Answered(body: Body) | ConnectionLost

  /** The two ends of a request's one-shot channel: not answered yet, answered once, or its sender dropped unanswered. */
  datatype Cell = Waiting | Sent(outcome: Outcome) | Dropped

  datatype Entry = Entry(session: SessionId, op: nat)

  /** The table, and the channel of every request ever registered. */
  datatype Table = Table(entries: map<RequestId, Entry>, cells: map<RequestId, Cell>)

  function Registered(t: Table, id: RequestId, session: SessionId, op: nat): Table
  {
    Table(t.entries[id := Entry(session, op)], t.cells[id := Waiting])
  }

  function Without(entries: map<RequestId, Entry>, id: RequestId): (r: map<RequestId, Entry>)
    ensures forall k :: k in r <==> k in entries && k != id
    ensures forall k | k in r :: r[k] == entries[k]
  {
    map k | k in entries && k != id :: entries[k]
  }

  /** First lock section of `complete`: the entry leaves the table. */
  function Taken(t: Table, id: RequestId): Table
  {
    t.(entries := Without(t.entries, id))
  }

  /** The waiter gets its answer. */
  function Delivered(t: Table, id: RequestId, body: Body): Table
  {
    t.(cells := t.cells[id := Sent(Answered(body))])
  }

  /** Second lock section of `complete`: a stray response's entry goes back. */
  function PutBack(t: Table, id: RequestId, entry: Entry): Table
  {
    t.(entries := t.entries[id := entry])
  }

  /** `complete` when nothing else runs between its lock sections, and whether it delivered the response: it does not to a
      caller that has stopped listening. */
  function Completed(t: Table, session: SessionId, id: RequestId, body: Body, listening: bool): (Table, bool)
  {
    if id !in t.entries then (t, false)
    else if t.entries[id].session != session then (PutBack(Taken(t, id), id, t.entries[id]), false)
    else (Delivered(Taken(t, id), id, body), listening)
  }

  function Cancelled(t: Table, id: RequestId): Table
  {
    if id in t.entries then Table(Without(t.entries, id), t.cells[id := Dropped]) else t
  }

  function OfSession(t: Table, session: SessionId): set<RequestId>
  {
    set id | id in t.entries && t.entries[id].session == session
  }

  /** The requests in `gone` leave the table, each told that the connection is lost. */
  function Failed(t: Table, gone: set<RequestId>): (r: Table)
    ensures forall id :: id in r.entries <==> id in t.entries && id !in gone
    ensures forall id | id in r.entries :: r.entries[id] == t.entries[id]
    ensures r.cells.Keys == t.cells.Keys + gone
    ensures forall id | id in r.cells :: r.cells[id] == if id in gone then Sent(ConnectionLost) else t.cells[id]
  {
    Table(map id | id in t.entries && id !in gone :: t.entries[id],
          map id | id in t.cells.Keys + gone :: if id in gone then Sent(ConnectionLost) else t.cells[id])
  }

  function SessionFailed(t: Table, session: SessionId): Table
  {
    Failed(t, OfSession(t, session))
  }

  lemma FailOneMore(t: Table, gone: set<RequestId>, id: RequestId)
    ensures Failed(t, gone + {id}) ==
              Table(Without(Failed(t, gone).entries, id), Failed(t, gone).cells[id := Sent(ConnectionLost)])
  {
    var one, more := Failed(t, gone), Failed(t, gone + {id});
    assert more.entries == Without(one.entries, id);
    assert more.cells == one.cells[id := Sent(ConnectionLost)];
  }

  class PendingRequests {
    var entries: map<RequestId, Entry>
    var cells: map<RequestId, Cell>

    constructor ()
      ensures Model() == Table(map[], map[])
    {
      entries, cells := map[], map[];
    }

    ghost function Model(): Table
      reads this
    {
      Table(entries, cells)
    }

    method Register(id: RequestId, session: SessionId, op: nat)
      modifies this
      ensures Model() == Registered(old(Model()), id, session, op)
      ensures entries == old(entries)[id := Entry(session, op)] && cells == old(cells)[id := Waiting]
    {
      entries, cells := entries[id := Entry(session, op)], cells[id := Waiting];
    }

    /** Delivers a response to its waiter; one from another session is discarded and its entry restored. */
    method Complete(session: SessionId, id: RequestId, body: Body, listening: bool) returns (delivered: bool)
      modifies this
      ensures (Model(), delivered) == Completed(old(Model()), session, id, body, listening)
      ensures var own := id in old(entries) && old(entries)[id].session == session;
              && delivered == (own && listening)
              && entries == (if own then old(entries) - {id} else old(entries))
              && cells == (if own then old(cells)[id := Sent(Answered(body))] else old(cells))
    {
      if id !in entries {
        return false;
      }
      var entry := entries[id];
      entries := Without(entries, id);
      if entry.session != session {
        entries := entries[id := entry];
        return false;
      }
      cells := cells[id := Sent(Answered(body))];
      delivered := listening;
    }

    method Cancel(id: RequestId) returns (removed: bool)
      modifies this
      ensures Model() == Cancelled(old(Model()), id) && removed == (id in old(entries))
      ensures entries == old(entries) - {id} && cells == if removed then old(cells)[id := Dropped] else old(cells)
    {
      removed := id in entries;
      if removed {
        entries, cells := Without(entries, id), cells[id := Dropped];
      }
    }

    /** Fails every request sent on a session that has ended, and no other. */
    method FailSession(session: SessionId)
      modifies this
      ensures Model() == SessionFailed(old(Model()), session)
      ensures forall id :: id in entries <==> id in old(entries) && old(entries)[id].session != session
      ensures forall id | id in entries :: entries[id] == old(entries)[id]
      ensures forall id | id in old(entries) && old(entries)[id].session == session ::
                id in cells && cells[id] == Sent(ConnectionLost)
      ensures forall id | id in old(cells) && (id in old(entries) ==> old(entries)[id].session != session) ::
                id in cells && cells[id] == old(cells)[id]
    {
      var ids := OfSession(Table(entries, cells), session);
      var left := ids;
      while left != {}
        invariant left <= ids == OfSession(old(Model()), session)
        invariant Model() == Failed(old(Model()), ids - left)
        decreases left
      {
        var id :| id in left;
        FailOneMore(old(Model()), ids - left, id);
        assert ids - (left - {id}) == ids - left + {id};
        left := left - {id};
        entries, cells := Without(entries, id), cells[id := Sent(ConnectionLost)];
      }
      assert ids - left == ids;
    }
  }

  /** Uninterrupted, a stray response leaves the table as it was. */
  lemma StrayResponseChangesNothing(t: Table, session: SessionId, id: RequestId, body: Body, listening: bool)
    requires id in t.entries && t.entries[id].session != session
    ensures Completed(t, session, id, body, listening) == (t, false)
  {
    assert PutBack(Taken(t, id), id, t.entries[id]).entries == t.entries;
  }

  class SessionSlot {
    var current: Option<SessionId>

    constructor ()
      ensures current == None
    {
      current := None;
    }

    /** Installs a session and hands back the one it replaced. */
    method Replace(session: SessionId) returns (previous: Option<SessionId>)
      modifies this
      ensures current == Some(session) && previous == old(current)
    {
      previous, current := current, Some(session);
    }

    /** Clears the slot only if it still holds the session that ended. */
    method ClearIf(session: SessionId) returns (matched: bool)
      modifies this
      ensures matched == (old(current) == Some(session))
      ensures current == if matched then None else old(current)
    {
      matched := current == Some(session);
      if matched {
        current := None;
      }
    }
  }
}
