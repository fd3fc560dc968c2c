/** The bounded queues between the add-on's socket threads and Blender's main thread. */
module Mailboxes {
  import opened Wrappers
  import opened Pending

  /** Enqueue without growing past `maxsize`; a `maxsize` of zero means no bound. */
  function Put<T>(items: seq<T>, maxsize: nat, item: T): (seq<T>, bool)
  {
    if maxsize > 0 && |items| >= maxsize then (items, false) else (items + [item], true)
  }

  class Mailbox<T> {
    const maxsize: nat
    var items: seq<T>

    constructor (maxsize: nat)
      ensures this.maxsize == maxsize && items == []
    {
      this.maxsize, items := maxsize, [];
    }

    method PutItem(item: T) returns (accepted: bool)
      modifies this
      ensures (items, accepted) == Put(old(items), maxsize, item)
      ensures accepted <==> maxsize == 0 || |old(items)| < maxsize
      ensures items == if accepted then old(items) + [item] else old(items)
    {
      accepted := maxsize == 0 || |items| < maxsize;
      if accepted {
        items := items + [item];
      }
    }

    method Get() returns (item: Option<T>)
      modifies this
      ensures old(items) == [] ==> item == None && items == []
      ensures old(items) != [] ==> item == Some(old(items)[0]) && items == old(items)[1..]
    {
      if items == [] {
        return None;
      }
      item := Some(items[0]);
      items := items[1..];
    }

    /** Takes items in order until `limit` of them are taken or none is left. */
    method Drain(limit: Option<nat>) returns (taken: seq<T>)
      modifies this
      ensures taken + items == old(items)
      ensures |taken| == if limit.Some? && limit.value < |old(items)| then limit.value else |old(items)|
    {
      taken := [];
      while limit.None? || |taken| < limit.value
        invariant taken + items == old(items)
        invariant limit.Some? ==> |taken| <= limit.value
        decreases |items|
      {
        var item := Get();
        if item.None? {
          break;
        }
        taken := taken + [item.value];
      }
    }

    method Clear() returns (count: nat)
      modifies this
      ensures items == [] && count == |old(items)|
    {
      var taken := Drain(None);
      count := |taken|;
    }
  }
}

/** The add-on's side of one bridge: reader, main-thread pump and outbox. */
module AddOn {
  import opened Wrappers
  import opened Pending
  import opened Mailboxes

  const INBOX_MAX: nat := 256
  const OUTBOX_MAX: nat := 256

  datatype Request = Request(id: RequestId, op: nat)

  datatype Frame =
    | Response(id: RequestId, body: Body)
    | Event(session: SessionId, revision: nat, payload: int)
    | Fatal

  /** One attempt to enqueue a frame: kept, or dropped because the outbox was full. */
  datatype Attempt = Attempt(frame: Frame, kept: bool)

  /** What happened since the queues were last emptied. */
  datatype Log = Log(accepted: seq<Request>, refused: seq<RequestId>, answered: seq<Request>,
                     tried: seq<Attempt>, taken: seq<Frame>)

  datatype State = State(session: Option<SessionId>, revision: nat, inbox: seq<Request>, busy: Option<Request>,
                         outbox: seq<Frame>, log: Log)

  const Idle: State := State(None, 0, [], None, [], Log([], [], [], [], []))

  function Enqueued(s: State, frame: Frame): State
  {
    var (outbox, kept) := Put(s.outbox, OUTBOX_MAX, frame);
    s.(outbox := outbox, log := s.log.(tried := s.log.tried + [Attempt(frame, kept)]))
  }

  /** The reader hands a request over, or refuses it when the inbox is full. */
  function ReadRequest(s: State, r: Request): State
  {
    var (inbox, accepted) := Put(s.inbox, INBOX_MAX, r);
    if accepted then s.(inbox := inbox, log := s.log.(accepted := s.log.accepted + [r]))
    else Enqueued(s.(log := s.log.(refused := s.log.refused + [r.id])), Response(r.id, Err(RATE_LIMITED)))
  }

  function TakeRequest(s: State): State
    requires s.inbox != []
  {
    s.(inbox := s.inbox[1..], busy := Some(s.inbox[0]))
  }

  /** The handler has run; its response is enqueued or dropped. */
  function Answer(s: State, body: Body): State
    requires s.busy.Some?
  {
    Enqueued(s.(busy := None, log := s.log.(answered := s.log.answered + [s.busy.value])),
             Response(s.busy.value.id, body))
  }

  function Bump(s: State): State
  {
    s.(revision := s.revision + 1)
  }

  function Emit(s: State, payload: int): State
  {
    if s.session.None? then s else Enqueued(s, Event(s.session.value, s.revision, payload))
  }

  /** The writer takes the oldest frame. */
  function PopOut(s: State): State
    requires s.outbox != []
  {
    s.(outbox := s.outbox[1..], log := s.log.(taken := s.log.taken + [s.outbox[0]]))
  }

  function BusyList(s: State): seq<Request>
  {
    if s.busy.Some? then [s.busy.value] else []
  }

  /** Start and stop empty both queues; a request already being dispatched goes on. */
  function Cleared(s: State): State
  {
    s.(inbox := [], outbox := [], log := Log(BusyList(s), [], [], [], []))
  }

  // ---------------------------------------------------------------------------
  // Conservation and order
  // ---------------------------------------------------------------------------

  function Ids(rs: seq<Request>): seq<RequestId>
  {
    if rs == [] then [] else Ids(rs[..|rs| - 1]) + [rs[|rs| - 1].id]
  }

  predicate IsAnswer(f: Frame)
  {
    f.Response? && f.body != Err(RATE_LIMITED)
  }

  predicate IsRefusal(f: Frame)
  {
    f.Response? && f.body == Err(RATE_LIMITED)
  }

  function Frames(tried: seq<Attempt>, kept: bool): seq<Frame>
  {
    if tried == [] then []
    else var last := tried[|tried| - 1];
      Frames(tried[..|tried| - 1], kept) + if last.kept == kept then [last.frame] else []
  }

  function Answers(tried: seq<Attempt>): seq<RequestId>
  {
    if tried == [] then []
    else var last := tried[|tried| - 1].frame;
      Answers(tried[..|tried| - 1]) + if IsAnswer(last) then [last.id] else []
  }

  function Refusals(tried: seq<Attempt>): seq<RequestId>
  {
    if tried == [] then []
    else var last := tried[|tried| - 1].frame;
      Refusals(tried[..|tried| - 1]) + if IsRefusal(last) then [last.id] else []
  }

  /** The account of a session, exact and in order. */
  ghost predicate Accounted(s: State)
  {
    // Accepted requests are answered, in dispatch, or queued, in the order they were accepted.
    && s.log.accepted == s.log.answered + BusyList(s) + s.inbox
    // Every answered and every refused request had its response offered to the outbox, in that order.
    && Answers(s.log.tried) == Ids(s.log.answered)
    && Refusals(s.log.tried) == s.log.refused
    // What was not dropped left, or is waiting, in the order it was offered.
    && Frames(s.log.tried, true) == s.log.taken + s.outbox
    && |s.inbox| <= INBOX_MAX && |s.outbox| <= OUTBOX_MAX
  }

  datatype Action =
    | DoRead(request: Request)
    | DoTake
    | DoAnswer(body: Body)
    | DoBump
    | DoEmit(payload: int)
    | DoPop
    | DoAdopt(session: SessionId)
    | DoEnd
    | DoClear
    | DoFatal

  predicate Enabled(s: State, a: Action)
  {
    match a
    case DoTake => s.busy.None? && s.inbox != []
    case DoAnswer(body) => s.busy.Some? && body != Err(RATE_LIMITED)
    case DoPop => s.outbox != []
    case _ => true
  }

  function Act(s: State, a: Action): State
    requires Enabled(s, a)
  {
    match a
    case DoRead(r) => ReadRequest(s, r)
    case DoTake => TakeRequest(s)
    case DoAnswer(body) => Answer(s, body)
    case DoBump => Bump(s)
    case DoEmit(payload) => Emit(s, payload)
    case DoPop => PopOut(s)
    case DoAdopt(session) => s.(session := Some(session))
    case DoEnd => s.(session := None)
    case DoClear => Cleared(s)
    case DoFatal => Enqueued(s, Fatal)
  }

  /** Every step of reader, pump, event hooks, writer, reconnect, start and stop keeps the account. */
  lemma StepKeepsAccount(s: State, a: Action)
    requires Accounted(s) && Enabled(s, a)
    ensures Accounted(Act(s, a))
  {
    hide Accounted, ReadRequest, TakeRequest, Answer, Emit, Enqueued;
    match a
    case DoRead(r) => ReadKeepsAccount(s, r);
    case DoTake => TakeKeepsAccount(s);
    case DoAnswer(body) => AnswerKeepsAccount(s, body);
    case DoEmit(payload) => EmitKeepsAccount(s, payload);
    case DoPop => PopKeepsAccount(s);
    case DoFatal => EnqueueKeepsAccount(s, Fatal);
    case DoClear => ClearedIsAccounted(s);
    case _ => ElsewhereKeepsAccount(s, Act(s, a));
  }

  lemma ReadKeepsAccount(s: State, r: Request)
    requires Accounted(s)
    ensures Accounted(ReadRequest(s, r))
  {
    if |s.inbox| < INBOX_MAX {
      assert s.log.accepted + [r] == s.log.answered + BusyList(s) + (s.inbox + [r]);
    } else {
      EnqueueAdds(s.(log := s.log.(refused := s.log.refused + [r.id])), Response(r.id, Err(RATE_LIMITED)));
    }
  }

  lemma TakeKeepsAccount(s: State)
    requires Accounted(s) && s.busy.None? && s.inbox != []
    ensures Accounted(TakeRequest(s))
  {
    assert s.log.answered + [] + s.inbox == s.log.answered + [s.inbox[0]] + s.inbox[1..];
  }

  lemma AnswerKeepsAccount(s: State, body: Body)
    requires Accounted(s) && s.busy.Some? && body != Err(RATE_LIMITED)
    ensures Accounted(Answer(s, body))
  {
    var r := s.busy.value;
    var t := s.(busy := None, log := s.log.(answered := s.log.answered + [r]));
    assert (s.log.answered + [r])[..|s.log.answered|] == s.log.answered;
    assert Ids(s.log.answered + [r]) == Ids(s.log.answered) + [r.id];
    assert s.log.answered + [r] + s.inbox == s.log.answered + [r] + [] + s.inbox;
    EnqueueAdds(t, Response(r.id, body));
    hide Ids, Answers, Refusals, Frames;
  }

  /** A frame that answers no request joins the outbox or is dropped. */
  lemma EnqueueKeepsAccount(s: State, frame: Frame)
    requires Accounted(s) && !frame.Response?
    ensures Accounted(Enqueued(s, frame))
  {
    EnqueueAdds(s, frame);
    hide Ids, Answers, Refusals, Frames;
    assert Answers(s.log.tried) + [] == Answers(s.log.tried) && Refusals(s.log.tried) + [] == Refusals(s.log.tried);
  }

  lemma EmitKeepsAccount(s: State, payload: int)
    requires Accounted(s)
    ensures Accounted(Emit(s, payload))
  {
    hide Accounted, Enqueued;
    if s.session.Some? { EnqueueKeepsAccount(s, Event(s.session.value, s.revision, payload)); }
  }

  lemma PopKeepsAccount(s: State)
    requires Accounted(s) && s.outbox != []
    ensures Accounted(PopOut(s))
  {
    assert s.log.taken + s.outbox == s.log.taken + [s.outbox[0]] + s.outbox[1..];
  }

  lemma ClearedIsAccounted(s: State)
    ensures Accounted(Cleared(s))
  {
  }

  lemma ElsewhereKeepsAccount(s: State, t: State)
    requires Accounted(s) && t.inbox == s.inbox && t.outbox == s.outbox && t.busy == s.busy && t.log == s.log
    ensures Accounted(t)
  {
  }

  lemma EnqueueAdds(s: State, frame: Frame)
    requires |s.outbox| <= OUTBOX_MAX && Frames(s.log.tried, true) == s.log.taken + s.outbox
    ensures var s' := Enqueued(s, frame);
            && Answers(s'.log.tried) == Answers(s.log.tried) + (if IsAnswer(frame) then [frame.id] else [])
            && Refusals(s'.log.tried) == Refusals(s.log.tried) + (if IsRefusal(frame) then [frame.id] else [])
            && Frames(s'.log.tried, true) == s'.log.taken + s'.outbox
            && |s'.outbox| <= OUTBOX_MAX
  {
    var s' := Enqueued(s, frame);
    assert s'.log.tried[..|s'.log.tried| - 1] == s.log.tried;
    assert s.log.taken + (s.outbox + [frame]) == s.log.taken + s.outbox + [frame];
  }

  function Responses(frames: seq<Frame>): multiset<RequestId>
  {
    if frames == [] then multiset{}
    else var last := frames[|frames| - 1];
      Responses(frames[..|frames| - 1]) + if last.Response? then multiset{last.id} else multiset{}
  }

  lemma {:induction false} ResponsesConcat(a: seq<Frame>, b: seq<Frame>)
    ensures Responses(a + b) == Responses(a) + Responses(b)
  {
    if b == [] {
      assert a + b == a;
    } else {
      assert (a + b)[..|a + b| - 1] == a + b[..|b| - 1];
      ResponsesConcat(a, b[..|b| - 1]);
    }
  }

  function One(f: Frame): multiset<RequestId>
  {
    if f.Response? then multiset{f.id} else multiset{}
  }

  lemma ResponsesSnoc(frames: seq<Frame>, f: Frame)
    ensures Responses(frames + [f]) == Responses(frames) + One(f)
  {
    assert (frames + [f])[..|frames|] == frames;
  }

  lemma FramesSnoc(rest: seq<Attempt>, last: Attempt, kept: bool)
    ensures Frames(rest + [last], kept) == Frames(rest, kept) + if last.kept == kept then [last.frame] else []
  {
    assert (rest + [last])[..|rest|] == rest;
  }

  lemma RepliesSnoc(rest: seq<Attempt>, last: Attempt)
    ensures Answers(rest + [last]) == Answers(rest) + if IsAnswer(last.frame) then [last.frame.id] else []
    ensures Refusals(rest + [last]) == Refusals(rest) + if IsRefusal(last.frame) then [last.frame.id] else []
  {
    assert (rest + [last])[..|rest|] == rest;
  }

  lemma LastAttempt(rest: seq<Attempt>, last: Attempt)
    ensures Responses(Frames(rest + [last], last.kept)) == Responses(Frames(rest, last.kept)) + One(last.frame)
    ensures Frames(rest + [last], !last.kept) == Frames(rest, !last.kept)
    ensures multiset(Answers(rest + [last])) + multiset(Refusals(rest + [last]))
         == multiset(Answers(rest)) + multiset(Refusals(rest)) + One(last.frame)
  {
    hide Frames, Answers, Refusals, Responses;
    FramesSnoc(rest, last, last.kept);
    FramesSnoc(rest, last, !last.kept);
    RepliesSnoc(rest, last);
    ResponsesSnoc(Frames(rest, last.kept), last.frame);
    assert Frames(rest, !last.kept) + [] == Frames(rest, !last.kept);
  }

  lemma {:induction false} ResponsesOfAttempts(tried: seq<Attempt>)
    ensures Responses(Frames(tried, true)) + Responses(Frames(tried, false))
         == multiset(Answers(tried)) + multiset(Refusals(tried))
  {
    if tried != [] {
      var rest, last := tried[..|tried| - 1], tried[|tried| - 1];
      assert tried == rest + [last];
      ResponsesOfAttempts(rest);
      LastAttempt(rest, last);
    }
  }

  lemma {:induction false} IdsConcat(a: seq<Request>, b: seq<Request>)
    ensures Ids(a + b) == Ids(a) + Ids(b)
  {
    if b == [] {
      assert a + b == a;
    } else {
      assert (a + b)[..|a + b| - 1] == a + b[..|b| - 1];
      IdsConcat(a, b[..|b| - 1]);
    }
  }

  /** Requests are conserved: every request frame read since the queues were emptied is in the inbox, in dispatch, or
      has exactly one response that waits in the outbox, was taken by the writer, or was dropped on a full outbox. */
  lemma RequestsConserved(s: State)
    requires Accounted(s)
    ensures multiset(Ids(s.log.accepted)) + multiset(s.log.refused)
         == multiset(Ids(s.inbox)) + multiset(Ids(BusyList(s)))
          + Responses(s.outbox) + Responses(s.log.taken) + Responses(Frames(s.log.tried, false))
  {
    AcceptedSplit(s);
    TriedSplit(s);
    var waiting := multiset(Ids(s.inbox)) + multiset(Ids(BusyList(s)));
    AddUp(multiset(Ids(s.log.answered)), multiset(s.log.refused), waiting, Responses(s.outbox),
          Responses(s.log.taken), Responses(Frames(s.log.tried, false)));
  }

  lemma AcceptedSplit(s: State)
    requires Accounted(s)
    ensures multiset(Ids(s.log.accepted))
         == multiset(Ids(s.log.answered)) + (multiset(Ids(s.inbox)) + multiset(Ids(BusyList(s))))
  {
    IdsConcat(s.log.answered, BusyList(s));
    IdsConcat(s.log.answered + BusyList(s), s.inbox);
  }

  lemma TriedSplit(s: State)
    requires Accounted(s)
    ensures Responses(s.log.taken) + Responses(s.outbox) + Responses(Frames(s.log.tried, false))
         == multiset(Ids(s.log.answered)) + multiset(s.log.refused)
  {
    ResponsesOfAttempts(s.log.tried);
    ResponsesConcat(s.log.taken, s.outbox);
  }

  lemma AddUp(answered: multiset<RequestId>, refused: multiset<RequestId>, waiting: multiset<RequestId>,
              out: multiset<RequestId>, taken: multiset<RequestId>, dropped: multiset<RequestId>)
    requires taken + out + dropped == answered + refused
    ensures answered + waiting + refused == waiting + out + taken + dropped
  {
    forall x: RequestId
      ensures (answered + waiting + refused)[x] == (waiting + out + taken + dropped)[x]
    {
      assert (taken + out + dropped)[x] == (answered + refused)[x];
    }
  }

  /** Over every run, from start: the account holds, so the bounds, the order and the conservation do. */
  predicate Runs(s: State, actions: seq<Action>)
    decreases |actions|
  {
    actions == [] || (Enabled(s, actions[0]) && Runs(Act(s, actions[0]), actions[1..]))
  }

  function End(s: State, actions: seq<Action>): State
    requires Runs(s, actions)
    decreases |actions|
  {
    if actions == [] then s else End(Act(s, actions[0]), actions[1..])
  }

  lemma {:induction false} RunKeepsAccount(s: State, actions: seq<Action>)
    requires Accounted(s) && Runs(s, actions)
    ensures Accounted(End(s, actions))
    decreases |actions|
  {
    if actions != [] {
      StepKeepsAccount(s, actions[0]);
      RunKeepsAccount(Act(s, actions[0]), actions[1..]);
    }
  }

  // ---------------------------------------------------------------------------
  // What is offered to the outbox
  // ---------------------------------------------------------------------------

  /** What an action has for the outbox: a refusal where the inbox is full, the answer to the request in dispatch, an event
      under the session and revision of the moment where there is a session, or a fatal frame. */
  function Due(s: State, a: Action): seq<Frame>
    requires Enabled(s, a)
  {
    match a
    case DoRead(r) => if |s.inbox| >= INBOX_MAX then [Response(r.id, Err(RATE_LIMITED))] else []
    case DoAnswer(body) => [Response(s.busy.value.id, body)]
    case DoEmit(payload) => if s.session.Some? then [Event(s.session.value, s.revision, payload)] else []
    case DoFatal => [Fatal]
    case _ => []
  }

  function Offered(tried: seq<Attempt>): (r: seq<Frame>)
    ensures |r| == |tried| && forall k | 0 <= k < |r| :: r[k] == tried[k].frame
  {
    seq(|tried|, k requires 0 <= k < |tried| => tried[k].frame)
  }

  /** What the outbox holds after what was due came to it: all of it where there was room, and else none. */
  function Joined(outbox: seq<Frame>, due: seq<Frame>): seq<Frame>
  {
    if |outbox| < OUTBOX_MAX then outbox + due else outbox
  }

  /** Every action offers what it has, once, at the end of what was offered before; it is kept exactly where there is room. */
  lemma StepOffersWhatIsDue(s: State, a: Action)
    requires Enabled(s, a)
    ensures var t := Act(s, a);
            && Offered(t.log.tried) == (if a.DoClear? then [] else Offered(s.log.tried) + Due(s, a))
            && t.outbox == (if a.DoClear? then [] else if a.DoPop? then s.outbox[1..] else Joined(s.outbox, Due(s, a)))
            && (Due(s, a) != [] ==> t.log.tried[|t.log.tried| - 1].kept == (|s.outbox| < OUTBOX_MAX))
  {
    assert s.outbox + [] == s.outbox;
  }

  /** Session and revision are what the last adoption or end, and the bumps, make of them; a request goes into the inbox where
      there is room, from its head into dispatch, and out of dispatch with its answer. */
  lemma StepDoesNoMore(s: State, a: Action)
    requires Enabled(s, a)
    ensures var t := Act(s, a);
            && t.session == (if a.DoAdopt? then Some(a.session) else if a.DoEnd? then None else s.session)
            && t.revision == s.revision + (if a.DoBump? then 1 else 0)
            && t.busy == (if a.DoTake? then Some(s.inbox[0]) else if a.DoAnswer? then None else s.busy)
            && t.inbox == (if a.DoRead? && |s.inbox| < INBOX_MAX then s.inbox + [a.request]
                           else if a.DoTake? then s.inbox[1..] else if a.DoClear? then [] else s.inbox)
  {
  }

  /** What was offered by the end of a run that began with `before` offered, and the queues emptied in between. */
  function OfferedBy(s: State, actions: seq<Action>, before: seq<Frame>): seq<Frame>
    requires Runs(s, actions)
    decreases |actions|
  {
    if actions == [] then before
    else OfferedBy(Act(s, actions[0]), actions[1..], if actions[0].DoClear? then [] else before + Due(s, actions[0]))
  }

  /** Over every run: what was offered to the outbox since it was last emptied is all that was due, in order. */
  lemma {:induction false} RunOffersWhatIsDue(s: State, actions: seq<Action>)
    requires Runs(s, actions)
    ensures Offered(End(s, actions).log.tried) == OfferedBy(s, actions, Offered(s.log.tried))
    decreases |actions|
  {
    if actions != [] {
      StepOffersWhatIsDue(s, actions[0]);
      hide Act, Offered, Due;
      RunOffersWhatIsDue(Act(s, actions[0]), actions[1..]);
    }
  }

  // ---------------------------------------------------------------------------
  // The state the threads share
  // ---------------------------------------------------------------------------

  /** What a handler does to the shared state while it runs. */
  datatype Effect = Bumped | Emitted(payload: int)

  /** One dispatch: the handler's effects, then what it returns. */
  datatype Turn = Turn(effects: seq<Effect>, body: Body)

  function Affected(s: State, effects: seq<Effect>): State
    decreases |effects|
  {
    if effects == [] then s
    else Affected(match effects[0] case Bumped => Bump(s) case Emitted(payload) => Emit(s, payload), effects[1..])
  }

  /** The pump's whole pass: at most one request for each turn, in inbox order, until the inbox is empty. */
  function Pumped(s: State, turns: seq<Turn>): State
    requires s.busy.None?
    decreases |turns|
  {
    if turns == [] || s.inbox == [] then s
    else
      EffectsLeaveQueue(TakeRequest(s), turns[0].effects);
      Pumped(Answer(Affected(TakeRequest(s), turns[0].effects), turns[0].body), turns[1..])
  }

  lemma {:induction false} EffectsLeaveQueue(s: State, effects: seq<Effect>)
    ensures Affected(s, effects).busy == s.busy && Affected(s, effects).inbox == s.inbox
    decreases |effects|
  {
    if effects != [] {
      EffectsLeaveQueue(match effects[0] case Bumped => Bump(s) case Emitted(payload) => Emit(s, payload), effects[1..]);
    }
  }

  lemma {:induction false} EffectsKeepAccount(s: State, effects: seq<Effect>)
    requires Accounted(s)
    ensures Accounted(Affected(s, effects))
    decreases |effects|
  {
    if effects != [] {
      var a := match effects[0] case Bumped => DoBump case Emitted(payload) => DoEmit(payload);
      StepKeepsAccount(s, a);
      EffectsKeepAccount(Act(s, a), effects[1..]);
    }
  }

  /** A whole pass keeps the account, whatever its handlers bump and emit on the way: the events go before the response, and
      every request taken has its one response offered to the outbox. */
  lemma {:induction false} PumpKeepsAccount(s: State, turns: seq<Turn>)
    requires Accounted(s) && s.busy.None? && forall t | t in turns :: t.body != Err(RATE_LIMITED)
    ensures Accounted(Pumped(s, turns)) && Pumped(s, turns).busy.None?
    decreases |turns|
  {
    if turns != [] && s.inbox != [] {
      assert turns[0] in turns && forall t | t in turns[1..] :: t in turns;
      hide Accounted;
      StepKeepsAccount(s, DoTake);
      EffectsKeepAccount(TakeRequest(s), turns[0].effects);
      EffectsLeaveQueue(TakeRequest(s), turns[0].effects);
      StepKeepsAccount(Affected(TakeRequest(s), turns[0].effects), DoAnswer(turns[0].body));
      PumpKeepsAccount(Answer(Affected(TakeRequest(s), turns[0].effects), turns[0].body), turns[1..]);
    }
  }

  /** The events of a handler that starts under this session and revision. */
  function EventsOf(session: Option<SessionId>, revision: nat, effects: seq<Effect>): seq<Frame>
    decreases |effects|
  {
    if effects == [] then []
    else
      match effects[0]
      case Bumped => EventsOf(session, revision + 1, effects[1..])
      case Emitted(payload) =>
        (if session.Some? then [Event(session.value, revision, payload)] else []) + EventsOf(session, revision, effects[1..])
  }

  function Bumps(effects: seq<Effect>): nat
    decreases |effects|
  {
    if effects == [] then 0 else (if effects[0].Bumped? then 1 else 0) + Bumps(effects[1..])
  }

  /** What a pass offers: for each request, oldest first, the events of its handler and then its one response. */
  function PassOf(session: Option<SessionId>, revision: nat, inbox: seq<Request>, turns: seq<Turn>): seq<Frame>
    decreases |turns|
  {
    if turns == [] || inbox == [] then []
    else
      EventsOf(session, revision, turns[0].effects) + [Response(inbox[0].id, turns[0].body)]
      + PassOf(session, revision + Bumps(turns[0].effects), inbox[1..], turns[1..])
  }

  lemma {:induction false} EffectsOffer(s: State, effects: seq<Effect>)
    ensures var t := Affected(s, effects);
            && Offered(t.log.tried) == Offered(s.log.tried) + EventsOf(s.session, s.revision, effects)
            && t.session == s.session && t.revision == s.revision + Bumps(effects)
            && t.inbox == s.inbox && t.busy == s.busy
    decreases |effects|
  {
    if effects == [] {
      assert Offered(s.log.tried) + [] == Offered(s.log.tried);
    } else {
      EffectOffers(s, effects[0]);
      var next := match effects[0] case Bumped => Bump(s) case Emitted(payload) => Emit(s, payload);
      hide Offered, Bump, Emit;
      EffectsOffer(next, effects[1..]);
      assert Affected(s, effects) == Affected(next, effects[1..]);
      EventsNext(s.session, s.revision, effects);
      hide *;
    }
  }

  lemma EventsNext(session: Option<SessionId>, revision: nat, effects: seq<Effect>)
    requires effects != []
    ensures var one := if effects[0].Emitted? && session.Some? then [Event(session.value, revision, effects[0].payload)] else [];
            var bump := if effects[0].Bumped? then 1 else 0;
            && Bumps(effects) == bump + Bumps(effects[1..])
            && forall before: seq<Frame> ::
                 before + EventsOf(session, revision, effects) == before + one + EventsOf(session, revision + bump, effects[1..])
  {
    var one := if effects[0].Emitted? && session.Some? then [Event(session.value, revision, effects[0].payload)] else [];
    var bump := if effects[0].Bumped? then 1 else 0;
    var rest := EventsOf(session, revision + bump, effects[1..]);
    assert EventsOf(session, revision, effects) == one + rest by { assert [] + rest == rest; }
    hide *;
    forall before: seq<Frame> ensures before + (one + rest) == before + one + rest {}
  }

  lemma EffectOffers(s: State, e: Effect)
    ensures var t := match e case Bumped => Bump(s) case Emitted(payload) => Emit(s, payload);
            && Offered(t.log.tried) == Offered(s.log.tried)
                 + (if e.Emitted? && s.session.Some? then [Event(s.session.value, s.revision, e.payload)] else [])
            && t.session == s.session && t.revision == s.revision + (if e.Bumped? then 1 else 0)
            && t.inbox == s.inbox && t.busy == s.busy
  {
    var a := match e case Bumped => DoBump case Emitted(payload) => DoEmit(payload);
    StepOffersWhatIsDue(s, a);
    StepDoesNoMore(s, a);
    hide Offered;
  }

  lemma AnswerOffers(s: State, body: Body)
    requires s.busy.Some?
    ensures var t := Answer(s, body);
            && Offered(t.log.tried) == Offered(s.log.tried) + [Response(s.busy.value.id, body)]
            && t.session == s.session && t.revision == s.revision && t.inbox == s.inbox && t.busy == None
  {
  }

  /** One turn offers its handler's events and then the response. */
  lemma TurnOffers(s: State, turn: Turn)
    requires s.busy.None? && s.inbox != [] && Affected(TakeRequest(s), turn.effects).busy.Some?
    ensures var t := Answer(Affected(TakeRequest(s), turn.effects), turn.body);
            && Offered(t.log.tried) == Offered(s.log.tried)
                 + (EventsOf(s.session, s.revision, turn.effects) + [Response(s.inbox[0].id, turn.body)])
            && t.session == s.session && t.revision == s.revision + Bumps(turn.effects) && t.inbox == s.inbox[1..] && t.busy == None
  {
    hide Offered, Affected, EventsOf, Answer, Bumps;
    var taken := TakeRequest(s);
    EffectsOffer(taken, turn.effects);
    AnswerOffers(Affected(taken, turn.effects), turn.body);
    var events, answer := EventsOf(s.session, s.revision, turn.effects), [Response(s.inbox[0].id, turn.body)];
    assert Offered(s.log.tried) + events + answer == Offered(s.log.tried) + (events + answer);
  }

  /** A pass offers that, in that order, and leaves the requests it did not come to. */
  lemma {:induction false} PumpOffers(s: State, turns: seq<Turn>)
    requires s.busy.None?
    ensures var t := Pumped(s, turns);
            && Offered(t.log.tried) == Offered(s.log.tried) + PassOf(s.session, s.revision, s.inbox, turns)
            && t.inbox == (if |turns| < |s.inbox| then s.inbox[|turns|..] else []) && t.session == s.session
    decreases |turns|
  {
    hide Offered, Affected, EventsOf, Answer, Bumps, TakeRequest;
    if turns == [] || s.inbox == [] {
      assert Offered(s.log.tried) + [] == Offered(s.log.tried);
    } else {
      EffectsLeaveQueue(TakeRequest(s), turns[0].effects);
      TakenIsBusy(s);
      TurnOffers(s, turns[0]);
      PumpOffers(Answer(Affected(TakeRequest(s), turns[0].effects), turns[0].body), turns[1..]);
      var one := EventsOf(s.session, s.revision, turns[0].effects) + [Response(s.inbox[0].id, turns[0].body)];
      var rest := PassOf(s.session, s.revision + Bumps(turns[0].effects), s.inbox[1..], turns[1..]);
      assert Offered(s.log.tried) + one + rest == Offered(s.log.tried) + (one + rest);
    }
  }

  lemma TakenIsBusy(s: State)
    requires s.busy.None? && s.inbox != []
    ensures TakeRequest(s).busy.Some?
  {
  }

  class BridgeState {
    var sessionId: Option<SessionId>
    var revision: nat
    const inbox: Mailbox<Request>
    const outbox: Mailbox<Frame>
    ghost var busy: Option<Request>
    ghost var log: Log

    constructor ()
      ensures Valid() && fresh(inbox) && fresh(outbox) && Model() == Idle
    {
      sessionId, revision := None, 0;
      inbox := new Mailbox(INBOX_MAX);
      outbox := new Mailbox(OUTBOX_MAX);
      busy, log := None, Log([], [], [], [], []);
    }

    ghost predicate Valid()
    {
      inbox.maxsize == INBOX_MAX && outbox.maxsize == OUTBOX_MAX
    }

    ghost function Model(): State
      reads this, inbox, outbox
    {
      State(sessionId, revision, inbox.items, busy, outbox.items, log)
    }

    method BumpRevision() returns (r: nat)
      modifies this
      ensures Model() == Bump(old(Model())) && r == revision == old(revision) + 1
    {
      revision := revision + 1;
      r := revision;
    }

    method EnqueueOut(frame: Frame) returns (kept: bool)
      requires Valid()
      modifies this, outbox
      ensures Model() == Enqueued(old(Model()), frame)
      ensures kept == (|old(outbox.items)| < OUTBOX_MAX)
      ensures outbox.items == if kept then old(outbox.items) + [frame] else old(outbox.items)
    {
      kept := outbox.PutItem(frame);
      log := log.(tried := log.tried + [Attempt(frame, kept)]);
    }

    method EmitEvent(payload: int)
      requires Valid()
      modifies this, outbox
      ensures Model() == Emit(old(Model()), payload)
      ensures outbox.items ==
        if old(sessionId).Some? && |old(outbox.items)| < OUTBOX_MAX
        then old(outbox.items) + [Event(old(sessionId).value, old(revision), payload)] else old(outbox.items)
      ensures sessionId == old(sessionId) && revision == old(revision) && inbox.items == old(inbox.items)
    {
      if sessionId.None? {
        return;
      }
      var _ := EnqueueOut(Event(sessionId.value, revision, payload));
    }

    /** The read loop's handling of one request frame. */
    method ReadRequestFrame(r: Request)
      requires Valid()
      modifies this, inbox, outbox
      ensures Model() == ReadRequest(old(Model()), r)
      ensures inbox.items == if |old(inbox.items)| < INBOX_MAX then old(inbox.items) + [r] else old(inbox.items)
      ensures outbox.items ==
        if |old(inbox.items)| >= INBOX_MAX && |old(outbox.items)| < OUTBOX_MAX
        then old(outbox.items) + [Response(r.id, Err(RATE_LIMITED))] else old(outbox.items)
    {
      var accepted := inbox.PutItem(r);
      if accepted {
        log := log.(accepted := log.accepted + [r]);
      } else {
        log := log.(refused := log.refused + [r.id]);
        var _ := EnqueueOut(Response(r.id, Err(RATE_LIMITED)));
      }
    }

    /** A handler runs: it may bump the revision and emit events. */
    method RunHandler(effects: seq<Effect>)
      requires Valid()
      modifies this, outbox
      ensures Model() == Affected(old(Model()), effects)
    {
      var k := 0;
      while k < |effects|
        invariant k <= |effects|
        invariant Affected(Model(), effects[k..]) == Affected(old(Model()), effects)
      {
        match effects[k] {
          case Bumped => var _ := BumpRevision();
          case Emitted(payload) => EmitEvent(payload);
        }
        k := k + 1;
      }
    }

    /** One timer callback. `turns` are what the handlers will do before the time budget is spent. */
    method Pump(turns: seq<Turn>) returns (handled: nat)
      requires Valid() && busy.None?
      modifies this, inbox, outbox
      ensures Model() == Pumped(old(Model()), turns)
      ensures handled == if |turns| < |old(inbox.items)| then |turns| else |old(inbox.items)|
    {
      handled := 0;
      while handled < |turns|
        invariant handled <= |turns| && busy.None?
        invariant Pumped(Model(), turns[handled..]) == Pumped(old(Model()), turns)
        invariant handled + |inbox.items| == |old(inbox.items)|
      {
        ghost var before := Model();
        var request := inbox.Get();
        if request.None? {
          break;
        }
        busy := request;
        assert Model() == TakeRequest(before);
        EffectsLeaveQueue(Model(), turns[handled].effects);
        RunHandler(turns[handled].effects);
        ghost var affected := Model();
        busy := None;
        log := log.(answered := log.answered + [request.value]);
        var _ := EnqueueOut(Response(request.value.id, turns[handled].body));
        assert Model() == Answer(affected, turns[handled].body);
        handled := handled + 1;
      }
    }

    /** Stopping forgets the session and everything queued. */
    method Stop()
      requires Valid() && busy.None?
      modifies this, inbox, outbox
      ensures Model() == Cleared(old(Model()).(session := None))
      ensures sessionId == None && inbox.items == [] && outbox.items == [] && revision == old(revision)
    {
      sessionId := None;
      var _ := inbox.Clear();
      var _ := outbox.Clear();
      log := Log([], [], [], [], []);
    }
  }
}
