/** Dispatching one request, and dispatching a run of operations inside one request. */
module Batch {
  import opened Wrappers
  import N = OperationNames
  import D = Decimals

  // ---------------------------------------------------------------------------
  // Values that cross the wire
  // ---------------------------------------------------------------------------

  /** A handler's Python value. `Opaque` is anything whose only rendering is its text. */
  datatype Value =
    | Null
    | Bool(b: bool)
    | Int(n: int)
    | Real(r: real)
    | NotFinite
    | Text(s: string)
    | List(items: seq<Value>)
    | Dict(entries: seq<Field>)
    | Opaque(text: string)

  datatype Field = Field(key: string, value: Value)

  function Sanitise(v: Value): Value
  {
    match v
    case Null => Dict([])
    case NotFinite => Null
    case List(items) => List(SanitiseAll(items))
    case Dict(entries) => Dict(SanitiseEntries(entries))
    case Opaque(text) => Text(text)
    case _ => v
  }

  function SanitiseAll(items: seq<Value>): (r: seq<Value>)
    ensures |r| == |items| && forall k | 0 <= k < |r| :: r[k] == Sanitise(items[k])
  {
    if items == [] then [] else [Sanitise(items[0])] + SanitiseAll(items[1..])
  }

  function SanitiseEntries(entries: seq<Field>): (r: seq<Field>)
    ensures |r| == |entries|
    ensures forall k | 0 <= k < |r| :: r[k].key == entries[k].key && r[k].value == Sanitise(entries[k].value)
  {
    if entries == [] then [] else [Field(entries[0].key, Sanitise(entries[0].value))] + SanitiseEntries(entries[1..])
  }

  /** Values `json.dumps(allow_nan=False)` accepts. */
  predicate Encodable(v: Value)
  {
    match v
    case NotFinite => false
    case Opaque(_) => false
    case List(items) => forall i | i in items :: Encodable(i)
    case Dict(entries) => forall e | e in entries :: Encodable(e.value)
    case _ => true
  }

  /** Values that sanitising leaves alone: no `None`, nothing to replace. */
  predicate Settled(v: Value)
  {
    match v
    case Null => false
    case NotFinite => false
    case Opaque(_) => false
    case List(items) => forall i | i in items :: Settled(i)
    case Dict(entries) => forall e | e in entries :: Settled(e.value)
    case _ => true
  }

  predicate AllFinite(v: Value)
  {
    match v
    case NotFinite => false
    case List(items) => forall i | i in items :: AllFinite(i)
    case Dict(entries) => forall e | e in entries :: AllFinite(e.value)
    case _ => true
  }

  /** Whatever a handler returns, what is sent can be encoded. */
  lemma {:induction false} SanitisedIsEncodable(v: Value)
    ensures Encodable(Sanitise(v))
  {
    match v
    case List(items) =>
      forall k | 0 <= k < |items| ensures Encodable(Sanitise(items[k])) { SanitisedIsEncodable(items[k]); }
    case Dict(entries) =>
      forall k | 0 <= k < |entries| ensures Encodable(Sanitise(entries[k].value)) { SanitisedIsEncodable(entries[k].value); }
    case _ =>
  }

  /** `x` stands somewhere in `v`, or is `v`. */
  ghost predicate Inside(x: Value, v: Value)
  {
    || x == v
    || (v.List? && exists i | i in v.items :: Inside(x, i))
    || (v.Dict? && exists e | e in v.entries :: Inside(x, e.value))
  }

  /** What cannot be encoded has a NaN, an infinity or a value of no JSON type somewhere inside; what is not finite, one of the
      first two. */
  lemma {:induction false} UnfitExactlyWhenSomethingInsideIs(v: Value)
    ensures Encodable(v) <==> forall x | Inside(x, v) :: !x.NotFinite? && !x.Opaque?
    ensures AllFinite(v) <==> forall x | Inside(x, v) :: !x.NotFinite?
  {
    match v
    case List(items) => forall i | i in items ensures
      && (Encodable(i) <==> forall x | Inside(x, i) :: !x.NotFinite? && !x.Opaque?)
      && (AllFinite(i) <==> forall x | Inside(x, i) :: !x.NotFinite?) { UnfitExactlyWhenSomethingInsideIs(i); }
    case Dict(entries) => forall e | e in entries ensures
      && (Encodable(e.value) <==> forall x | Inside(x, e.value) :: !x.NotFinite? && !x.Opaque?)
      && (AllFinite(e.value) <==> forall x | Inside(x, e.value) :: !x.NotFinite?) { UnfitExactlyWhenSomethingInsideIs(e.value); }
    case _ => assert Inside(v, v);
  }

  /** What stands at a place inside a value: the entry of that number of a list or a dictionary, and so on inwards. */
  ghost function Reach(v: Value, path: seq<nat>): Option<Value>
    decreases path
  {
    if path == [] then Some(v)
    else
      match v
      case List(items) => if path[0] < |items| then Reach(items[path[0]], path[1..]) else None
      case Dict(entries) => if path[0] < |entries| then Reach(entries[path[0]].value, path[1..]) else None
      case _ => None
  }

  /** Sanitising, place by place: a `None` becomes `{}`, a NaN or infinity a `None`, anything without a JSON type its text; lists
      and dictionaries keep their length and their keys, and all else is as it was. */
  lemma {:induction false} SanitisedPlaceByPlace(v: Value, path: seq<nat>)
    requires Reach(v, path).Some?
    ensures Reach(Sanitise(v), path).Some?
    ensures var was, now := Reach(v, path).value, Reach(Sanitise(v), path).value;
            match was
            case Null => now == Dict([])
            case NotFinite => now == Null
            case Opaque(text) => now == Text(text)
            case List(items) => now.List? && |now.items| == |items|
            case Dict(entries) =>
              now.Dict? && |now.entries| == |entries| && forall k | 0 <= k < |entries| :: now.entries[k].key == entries[k].key
            case _ => now == was
    decreases path
  {
    if path != [] {
      match v
      case List(items) => SanitisedPlaceByPlace(items[path[0]], path[1..]);
      case Dict(entries) => SanitisedPlaceByPlace(entries[path[0]].value, path[1..]);
    }
  }

  lemma {:induction false} SettledIsFixed(v: Value)
    ensures Settled(v) <==> Sanitise(v) == v
  {
    match v
    case List(items) =>
      forall k | 0 <= k < |items| ensures Settled(items[k]) <==> Sanitise(items[k]) == items[k] { SettledIsFixed(items[k]); }
      if Sanitise(v) == v { assert forall k | 0 <= k < |items| :: SanitiseAll(items)[k] == items[k]; }
    case Dict(entries) =>
      forall k | 0 <= k < |entries| ensures Settled(entries[k].value) <==> Sanitise(entries[k].value) == entries[k].value {
        SettledIsFixed(entries[k].value);
      }
      if Sanitise(v) == v { assert forall k | 0 <= k < |entries| :: SanitiseEntries(entries)[k] == entries[k]; }
      else if Settled(v) {
        forall k | 0 <= k < |entries| ensures SanitiseEntries(entries)[k] == entries[k] {
          assert entries[k] in entries;
        }
      }
    case _ =>
  }

  lemma {:induction false} SanitisedIsSettled(v: Value)
    ensures Settled(Sanitise(v)) <==> AllFinite(v)
  {
    match v
    case List(items) =>
      var r := SanitiseAll(items);
      forall k | 0 <= k < |items| ensures Settled(r[k]) <==> AllFinite(items[k]) { SanitisedIsSettled(items[k]); }
      if Settled(Sanitise(v)) { assert forall k | 0 <= k < |items| :: r[k] in r; }
      if AllFinite(v) { assert forall k | 0 <= k < |items| :: items[k] in items; }
    case Dict(entries) =>
      var r := SanitiseEntries(entries);
      forall k | 0 <= k < |entries| ensures Settled(r[k].value) <==> AllFinite(entries[k].value) {
        SanitisedIsSettled(entries[k].value);
      }
      if Settled(Sanitise(v)) { assert forall k | 0 <= k < |entries| :: r[k] in r; }
      if AllFinite(v) { assert forall k | 0 <= k < |entries| :: entries[k] in entries; }
    case _ =>
  }

  /** Sanitising twice is sanitising once exactly when no NaN or infinity is inside: one of those becomes `None`
      the first time and `{}` the second. */
  lemma {:induction false} SanitiseIdempotentExactlyWhenFinite(v: Value)
    ensures Sanitise(Sanitise(v)) == Sanitise(v) <==> AllFinite(v)
  {
    SettledIsFixed(Sanitise(v));
    SanitisedIsSettled(v);
  }

  // ---------------------------------------------------------------------------
  // One request
  // ---------------------------------------------------------------------------

  datatype Code =
    | INVALID_ARGUMENT
    | UNSUPPORTED_OPERATION
    | BLENDER_CONTEXT_ERROR
    | BLENDER_INTERNAL_ERROR
    | Other(name: string)

  /** A structured error: `details` is a dictionary, left out of what is sent when empty. */
  datatype Failure = Failure(code: Code, message: string, retryable: bool, details: seq<Field>)

  /** None of the codes the dispatcher itself gives is worth an identical retry. */
  function Plain(code: Code, message: string, details: seq<Field>): Failure
  {
    Failure(code, message, false, details)
  }

  function OpDetails(name: string): seq<Field>
  {
    [Field("op", Text(name))]
  }

  /** How a handler ends: with a value, a structured error, a `RuntimeError`, or any other exception. */
  datatype Ending = Returned(value: Value) | Bridge(failure: Failure) | Runtime(text: string) | Crashed(text: string)

  type Handler<!World> = (World, Value) -> (World, Ending)

  datatype State<World> = State(world: World, requests: nat, errors: nat)

  datatype Reply = Ok(value: Value) | Error(failure: Failure)

  /** The error mapping both request paths use; `name` is the operation that was running. */
  function Mapped(ending: Ending, name: string): Failure
    requires !ending.Returned?
  {
    match ending
    case Bridge(failure) => failure
    case Runtime(text) => Plain(BLENDER_CONTEXT_ERROR, text, OpDetails(name))
    case Crashed(text) => Plain(BLENDER_INTERNAL_ERROR, text, OpDetails(name))
  }

  predicate Truthy(v: Value)
  {
    match v
    case Null => false
    case Bool(b) => b
    case Int(n) => n != 0
    case Real(r) => r != 0.0
    case Text(s) => s != ""
    case List(items) => items != []
    case Dict(entries) => entries != []
    case _ => true
  }

  /** `value or {}`. */
  function OrEmpty(v: Value): Value
  {
    if Truthy(v) then v else Dict([])
  }

  /** Arguments left out, and empty ones of any kind, are an empty object; nothing else changes. */
  lemma OnlyTheEmptyBecomeEmpty(v: Value)
    ensures OrEmpty(v) == if v in {Null, Bool(false), Int(0), Real(0.0), Text(""), List([])} then Dict([]) else v
  {
  }

  function Get(entries: seq<Field>, key: string): Value
  {
    if entries == [] then Null
    else if entries[0].key == key then entries[0].value
    else Get(entries[1..], key)
  }

  /** An operation nobody handles; a single request is told the closest names too. */
  function Unsupported(name: string): Failure
  {
    Plain(UNSUPPORTED_OPERATION, "`" + name + "` is not an operation this add-on implements.", OpDetails(name))
  }

  function Texts(names: seq<string>): (r: seq<Value>)
    ensures |r| == |names| && forall k | 0 <= k < |r| :: r[k] == Text(names[k])
  {
    seq(|names|, k requires 0 <= k < |names| => Text(names[k]))
  }

  function WithClosest(failure: Failure, names: set<string>, name: string): Failure
  {
    failure.(details := failure.details + [Field("closest", List(Texts(N.Closest(names, name))))])
  }

  function NoName(): Failure
  {
    Plain(INVALID_ARGUMENT, "`command.op` must be a non-empty string.", [])
  }

  function NoArgs(name: string): Failure
  {
    Plain(INVALID_ARGUMENT, "`command.args` must be an object.", OpDetails(name))
  }

  /** `dispatch` for a request that carries an id: `name` and `args` are whatever the command held. */
  function Dispatched<World>(handlers: map<string, Handler<World>>, s: State<World>, name: Value, args: Value)
    : (State<World>, Reply)
  {
    var s := s.(requests := s.requests + 1);
    if !name.Text? || name.s == "" then (s, Error(NoName()))
    else if !OrEmpty(args).Dict? then (s, Error(NoArgs(name.s)))
    else if name.s !in handlers then (s, Error(WithClosest(Unsupported(name.s), handlers.Keys, name.s)))
    else
      var (world, ending) := handlers[name.s](s.world, OrEmpty(args));
      if ending.Returned? then (s.(world := world), Ok(Sanitise(ending.value)))
      else (s.(world := world, errors := s.errors + 1), Error(Mapped(ending, name.s)))
  }

  /** How the handler's end is answered: `reply` tells of `ending`, for the operation `name`. A returned value is told as
      `told`; a structured error is told verbatim; what Blender raised for a bad context, and any other exception, each under
      its own code with its text and the operation, not worth an identical retry. */
  ghost predicate Answers(reply: Reply, ending: Ending, name: string, told: Value -> Value)
  {
    match ending
    case Returned(value) => reply == Ok(told(value))
    case Bridge(failure) => reply == Error(failure)
    case Runtime(text) => reply == Error(Failure(BLENDER_CONTEXT_ERROR, text, false, [Field("op", Text(name))]))
    case Crashed(text) => reply == Error(Failure(BLENDER_INTERNAL_ERROR, text, false, [Field("op", Text(name))]))
  }

  /** A request that reaches its handler leaves the world as the handler left it, counts as one request, and as one error
      exactly when the handler did not return. */
  lemma SingleTellsHowItEnded<World>(handlers: map<string, Handler<World>>, s: State<World>, name: string, args: Value)
    requires name != "" && name in handlers && OrEmpty(args).Dict?
    ensures var (world, ending) := handlers[name](s.world, OrEmpty(args));
            var (after, reply) := Dispatched(handlers, s, Text(name), args);
            && Answers(reply, ending, name, Sanitise)
            && after == State(world, s.requests + 1, s.errors + if ending.Returned? then 0 else 1)
  {
  }

  /** One that does not is refused, touches nothing but the request count, and says what was wrong with it. */
  lemma RefusedSinglesSayWhy<World>(handlers: map<string, Handler<World>>, s: State<World>, name: Value, args: Value)
    ensures var (after, reply) := Dispatched(handlers, s, name, args);
            var named := name.Text? && name.s != "";
            && (!named || !OrEmpty(args).Dict? || name.s !in handlers ==>
                  && reply.Error? && !reply.failure.retryable && after == State(s.world, s.requests + 1, s.errors)
                  && reply.failure.code == (if named && OrEmpty(args).Dict? then UNSUPPORTED_OPERATION else INVALID_ARGUMENT)
                  && (!named ==> reply.failure.details == [])
                  && (named && !OrEmpty(args).Dict? ==> reply.failure.details == [Field("op", Text(name.s))])
                  && (named && OrEmpty(args).Dict? ==>
                        reply.failure.details == [Field("op", Text(name.s)),
                                                  Field("closest", List(Texts(N.Closest(handlers.Keys, name.s))))]))
  {
    hide OrEmpty, Texts, N.Closest, Mapped, Sanitise;
  }

  /** What an error says on the wire. */
  lemma ErrorOnTheWire(failure: Failure)
    ensures var w := ErrorValue(failure);
            && w.Dict? && Get(w.entries, "message") == Text(failure.message)
            && Get(w.entries, "retryable") == Bool(failure.retryable)
            && Get(w.entries, "details") == (if failure.details == [] then Null else Dict(failure.details))
            && Get(w.entries, "code") == Text(match failure.code
                                              case INVALID_ARGUMENT => "INVALID_ARGUMENT"
                                              case UNSUPPORTED_OPERATION => "UNSUPPORTED_OPERATION"
                                              case BLENDER_CONTEXT_ERROR => "BLENDER_CONTEXT_ERROR"
                                              case BLENDER_INTERNAL_ERROR => "BLENDER_INTERNAL_ERROR"
                                              case Other(name) => name)
  {
    var e := ErrorValue(failure).entries;
    var last := if failure.details == [] then Field("", Null) else Field("details", Dict(failure.details));
    if failure.details == [] {
      assert e == [e[0], e[1], e[2]];
      ThreeAlong(e[0], e[1], e[2], "code");
      ThreeAlong(e[0], e[1], e[2], "message");
      ThreeAlong(e[0], e[1], e[2], "retryable");
      ThreeAlong(e[0], e[1], e[2], "details");
    } else {
      assert e == [e[0], e[1], e[2], e[3]];
      GetAlong(e[0], e[1], e[2], e[3], "code");
      GetAlong(e[0], e[1], e[2], e[3], "message");
      GetAlong(e[0], e[1], e[2], e[3], "retryable");
      GetAlong(e[0], e[1], e[2], e[3], "details");
    }
  }

  // ---------------------------------------------------------------------------
  // A run of operations
  // ---------------------------------------------------------------------------

  const MAX_OPERATIONS: nat := 1000
  const BATCH: string := "batch.dispatch"
  const NOT_NESTABLE: set<string> :=
    {"batch.dispatch", "transaction.begin", "transaction.commit", "transaction.rollback"}

  datatype Outcome = Outcome(index: nat, op: string, reply: Reply)

  /** How a run ends: after every entry, after a failure, at an entry it refuses, or when marking an undo step raised. */
  datatype End = Finished | Stopped(at: nat) | Refused(at: nat, failure: Failure) | Escaped(at: nat, failure: Failure)

  predicate WellFormed(entry: Value)
  {
    && entry.Dict?
    && Get(entry.entries, "op").Text? && Get(entry.entries, "op").s != ""
    && Get(entry.entries, "op").s !in NOT_NESTABLE
    && OrEmpty(Get(entry.entries, "args")).Dict?
  }

  function At(index: nat, rest: string): string
  {
    "operations[" + D.Digits(index) + "]" + rest
  }

  /** Why an entry that is not well formed ends the whole batch. */
  function Refusal(entry: Value, index: nat): Failure
    requires !WellFormed(entry)
  {
    if !entry.Dict? then Plain(INVALID_ARGUMENT, At(index, " must be an object."), [])
    else
      var name := Get(entry.entries, "op");
      if !name.Text? || name.s == "" then Plain(INVALID_ARGUMENT, At(index, " has no `op`."), [])
      else if name.s in NOT_NESTABLE then
        Plain(INVALID_ARGUMENT, "`" + name.s + "` cannot appear inside a dispatch run.",
              [Field("index", Int(index))] + OpDetails(name.s))
      else Plain(INVALID_ARGUMENT, At(index, ".args must be an object."), [])
  }

  /** Why a run is refused before it starts. */
  function Unfit(given: nat): Failure
    requires given == 0 || given > MAX_OPERATIONS
  {
    if given == 0 then Plain(INVALID_ARGUMENT, "`operations` must be a non-empty array.", [])
    else
      Plain(INVALID_ARGUMENT,
            "A dispatch run may hold at most " + D.Digits(MAX_OPERATIONS) + " operations; this one has " + D.Digits(given) + ".",
            [Field("limit", Int(MAX_OPERATIONS)), Field("given", Int(given))])
  }

  /** The run ends at an entry that is not an object with an operation's name, one allowed inside a run, and arguments that are
      an object or nothing; that is told of the first of these it fails, and by its number or its name. */
  lemma RefusedEntriesSayWhy<World>(handlers: map<string, Handler<World>>, s: State<World>, entries: seq<Value>, stop: bool,
                                    undo: bool, index: nat)
    requires index < |entries|
    ensures var run := RunFrom(handlers, s, entries, stop, undo, index);
            var entry := entries[index];
            var isObject := entry.Dict?;
            var named := isObject && Get(entry.entries, "op").Text? && Get(entry.entries, "op").s != "";
            var nested := named && Get(entry.entries, "op").s in NOT_NESTABLE;
            var loose := named && !nested && !OrEmpty(Get(entry.entries, "args")).Dict?;
            var at := "operations[" + D.Digits(index) + "]";
            && (run.end.Refused? && run.end.at == index <==> !named || nested || loose)
            && (!named || nested || loose ==>
                  && run.state == s && run.results == []
                  && run.end.failure.code == INVALID_ARGUMENT && !run.end.failure.retryable
                  && run.end.failure.details
                       == (if nested then [Field("index", Int(index)), Field("op", Get(entry.entries, "op"))] else [])
                  && (!nested ==>
                        run.end.failure.message
                          == at + if !isObject then " must be an object." else if !named then " has no `op`."
                                  else ".args must be an object."))
  {
    if WellFormed(entries[index]) { LaterRefusals(handlers, s, entries, stop, undo, index); }
    hide OrEmpty, NOT_NESTABLE, Entry;
  }

  lemma {:induction false} LaterRefusals<World>(handlers: map<string, Handler<World>>, s: State<World>, entries: seq<Value>,
                                                stop: bool, undo: bool, index: nat)
    requires index <= |entries|
    ensures var end := RunFrom(handlers, s, entries, stop, undo, index).end;
            end.Refused? ==> index <= end.at < |entries| && !WellFormed(entries[end.at])
    decreases |entries| - index
  {
    hide OrEmpty, NOT_NESTABLE, Entry, WellFormed;
    if index < |entries| && WellFormed(entries[index]) {
      var (s', reply, verdict) := Entry(handlers, s, entries[index], stop, MarkAt(undo, index, NameOf(entries[index])));
      if verdict.Next? { LaterRefusals(handlers, s', entries, stop, undo, index + 1); }
    }
  }

  function NameOf(entry: Value): string
    requires WellFormed(entry)
  {
    Get(entry.entries, "op").s
  }

  function ArgsOf(entry: Value): Value
    requires WellFormed(entry)
  {
    OrEmpty(Get(entry.entries, "args"))
  }

  /** `_run_one`: unlike a single request, an unsupported name is reported like any failure. Its value is raw. */
  function RunOne<World>(handlers: map<string, Handler<World>>, world: World, name: string, args: Value)
    : (World, Reply)
  {
    if name !in handlers then (world, Error(Unsupported(name)))
    else
      var (world', ending) := handlers[name](world, args);
      (world', if ending.Returned? then Ok(ending.value) else Error(Mapped(ending, name)))
  }

  /** An entry of a batch is answered the same way, but its value is not sanitised yet; and an operation nobody handles as an
      unsupported one, with the scene untouched. */
  lemma EntryTellsHowItEnded<World>(handlers: map<string, Handler<World>>, world: World, name: string, args: Value)
    ensures var (after, reply) := RunOne(handlers, world, name, args);
            && (name in handlers ==>
                  var (world', ending) := handlers[name](world, args); after == world' && Answers(reply, ending, name, Raw))
            && (name !in handlers ==>
                  && after == world && reply.Error? && !reply.failure.retryable && reply.failure.code == UNSUPPORTED_OPERATION
                  && reply.failure.details == [Field("op", Text(name))])
  {
  }

  function Raw(v: Value): Value
  {
    v
  }

  function Count<World>(s: State<World>, world: World, reply: Reply): State<World>
  {
    State(world, s.requests + 1, s.errors + if reply.Ok? then 0 else 1)
  }

  /** Marking the undo step after entry `index`: a structured error is swallowed, anything else escapes. */
  function MarkStep<World>(handlers: map<string, Handler<World>>, world: World, mark: Value): (World, Ending)
  {
    if "transaction.step" !in handlers then (world, Returned(Null))
    else handlers["transaction.step"](world, mark)
  }

  predicate Escapes(ending: Ending)
  {
    ending.Runtime? || ending.Crashed?
  }

  /** What one entry decides: go on, stop at its failure, or leave because marking the undo step raised. */
  datatype Verdict = Next | StopHere | Leave(failure: Failure)

  /** One entry that is well formed: run it, count it, and mark an undo step after a success when `mark` is given. */
  function Entry<World>(handlers: map<string, Handler<World>>, s: State<World>, entry: Value, stop: bool,
                        mark: Option<Value>): (State<World>, Reply, Verdict)
    requires WellFormed(entry)
  {
    var (world, reply) := RunOne(handlers, s.world, NameOf(entry), ArgsOf(entry));
    var s := Count(s, world, reply);
    if reply.Error? then (s, reply, if stop then StopHere else Next)
    else if mark.None? then (s, reply, Next)
    else
      var (world, ending) := MarkStep(handlers, s.world, mark.value);
      (s.(world := world), reply, if Escapes(ending) then Leave(Mapped(ending, BATCH)) else Next)
  }

  /** After a success with undo steps asked for, a structured error from marking the step is passed over; any other exception
      leaves the run, and is told as one of the run itself, not of the entry. */
  lemma MarkingTellsHowItEnded<World>(handlers: map<string, Handler<World>>, s: State<World>, entry: Value, stop: bool, mark: Value)
    requires WellFormed(entry) && RunOne(handlers, s.world, NameOf(entry), ArgsOf(entry)).1.Ok?
    ensures var (after, reply, verdict) := Entry(handlers, s, entry, stop, Some(mark));
            var (world, told) := RunOne(handlers, s.world, NameOf(entry), ArgsOf(entry));
            && reply == told && after.requests == s.requests + 1 && after.errors == s.errors
            && ("transaction.step" !in handlers ==> after.world == world && verdict.Next?)
            && ("transaction.step" in handlers ==>
                  var (world', ending) := handlers["transaction.step"](world, mark);
                  && after.world == world'
                  && (verdict.Next? <==> ending.Returned? || ending.Bridge?)
                  && (!verdict.Next? ==> verdict.Leave? && Answers(Error(verdict.failure), ending, "batch.dispatch", Raw)))
  {
    hide RunOne, NameOf, ArgsOf;
    var ending := MarkStep(handlers, RunOne(handlers, s.world, NameOf(entry), ArgsOf(entry)).0, mark).1;
    assert ending.Returned? || ending.Bridge? || ending.Runtime? || ending.Crashed?;
  }

  /** What the undo step after entry `k` is called with. */
  function MarkArgs(k: nat, name: string): Value
  {
    Dict([Field("label", Text(D.Digits(k) + ": " + name))])
  }

  function MarkAt(undo: bool, k: nat, name: string): Option<Value>
  {
    if undo then Some(MarkArgs(k, name)) else None
  }

  datatype RunResult<World> = RunResult(state: State<World>, results: seq<Outcome>, end: End)

  /** The entries from `index` on; with `undo`, an undo step is marked after each success. */
  function RunFrom<World>(handlers: map<string, Handler<World>>, s: State<World>, entries: seq<Value>, stop: bool,
                          undo: bool, index: nat): RunResult<World>
    requires index <= |entries|
    decreases |entries| - index
  {
    if index == |entries| then RunResult(s, [], Finished)
    else if !WellFormed(entries[index]) then RunResult(s, [], Refused(index, Refusal(entries[index], index)))
    else
      var (s, reply, verdict) := Entry(handlers, s, entries[index], stop, MarkAt(undo, index, NameOf(entries[index])));
      var outcome := Outcome(index, NameOf(entries[index]), reply);
      match verdict
      case StopHere => RunResult(s, [outcome], Stopped(index))
      case Leave(failure) => RunResult(s, [outcome], Escaped(index, failure))
      case Next =>
        var rest := RunFrom(handlers, s, entries, stop, undo, index + 1);
        rest.(results := [outcome] + rest.results)
  }

  function CountOk(results: seq<Outcome>): nat
  {
    if results == [] then 0 else (if results[0].reply.Ok? then 1 else 0) + CountOk(results[1..])
  }

  /** What `batch.dispatch` hands back when it returns. */
  datatype Report = Report(results: seq<Outcome>, completed: nat, total: nat, stoppedAt: Option<nat>)

  datatype BatchEnding = Reported(report: Report) | Raised(failure: Failure)

  class Dispatcher<!World> {
    const handlers: map<string, Handler<World>>
    const revisionOf: World -> nat
    var world: World
    var requests: nat
    var errors: nat

    constructor (handlers: map<string, Handler<World>>, revisionOf: World -> nat, world: World)
      ensures this.handlers == handlers && this.revisionOf == revisionOf && Model() == State(world, 0, 0)
    {
      this.handlers, this.revisionOf, this.world, requests, errors := handlers, revisionOf, world, 0, 0;
    }

    ghost function Model(): State<World>
      reads this
    {
      State(world, requests, errors)
    }

    /** A request that carries an id: the reply, and the revision sent with it. */
    method Dispatch(name: Value, args: Value) returns (reply: Reply, revision: nat)
      modifies this
      ensures (Model(), reply) == Dispatched(handlers, old(Model()), name, args)
      ensures revision == revisionOf(world)
    {
      hide Mapped, WithClosest, Unsupported, NoName, NoArgs, Sanitise;
      requests := requests + 1;
      if !name.Text? || name.s == "" {
        return Error(NoName()), revisionOf(world);
      }
      if !OrEmpty(args).Dict? {
        return Error(NoArgs(name.s)), revisionOf(world);
      }
      if name.s !in handlers {
        return Error(WithClosest(Unsupported(name.s), handlers.Keys, name.s)), revisionOf(world);
      }
      var handler := handlers[name.s];
      var (after, ending) := handler(world, OrEmpty(args));
      world := after;
      if ending.Returned? {
        reply := Ok(Sanitise(ending.value));
      } else {
        errors := errors + 1;
        reply := Error(Mapped(ending, name.s));
      }
      revision := revisionOf(world);
    }

    method RunEntry(entry: Value, stop: bool, mark: Option<Value>) returns (reply: Reply, verdict: Verdict)
      requires WellFormed(entry)
      modifies this
      ensures (Model(), reply, verdict) == Entry(handlers, old(Model()), entry, stop, mark)
    {
      var (after, outcome) := RunOne(handlers, world, NameOf(entry), ArgsOf(entry));
      world, reply, verdict := after, outcome, Next;
      requests := requests + 1;
      if reply.Error? {
        errors := errors + 1;
        if stop {
          verdict := StopHere;
        }
      } else if mark.Some? {
        var (marked, ending) := MarkStep(handlers, world, mark.value);
        world := marked;
        if Escapes(ending) {
          verdict := Leave(Mapped(ending, BATCH));
        }
      }
    }

    /** One turn of the loop: `results` with the outcome of entry `index`. */
    method DispatchOne(entries: seq<Value>, stop: bool, undo: bool, index: nat, results: seq<Outcome>)
      returns (more: seq<Outcome>, verdict: Verdict)
      requires index < |entries| && WellFormed(entries[index])
      modifies this
      ensures Prefixed(results, RunFrom(handlers, old(Model()), entries, stop, undo, index)) ==
                match verdict
                case Next => Prefixed(more, RunFrom(handlers, Model(), entries, stop, undo, index + 1))
                case StopHere => RunResult(Model(), more, Stopped(index))
                case Leave(failure) => RunResult(Model(), more, Escaped(index, failure))
    {
      hide RunFrom, Entry, WellFormed, NameOf, ArgsOf, MarkAt, Prefixed;
      PrefixedStep(handlers, Model(), entries, stop, undo, index, results);
      var reply;
      reply, verdict := RunEntry(entries[index], stop, MarkAt(undo, index, NameOf(entries[index])));
      more := results + [Outcome(index, NameOf(entries[index]), reply)];
    }

    /** The handler behind `batch.dispatch`, on the list it was given. */
    method DispatchRun(entries: seq<Value>, stop: bool, undo: bool) returns (ending: BatchEnding)
      modifies this
      ensures entries == [] || |entries| > MAX_OPERATIONS ==> ending == Raised(Unfit(|entries|)) && Model() == old(Model())
      ensures 0 < |entries| <= MAX_OPERATIONS ==>
        var run := RunFrom(handlers, old(Model()), entries, stop, undo, 0);
        Model() == run.state && ending == EndingOf(run, |entries|)
    {
      hide RunFrom, Entry, WellFormed, CountOk, NameOf, ArgsOf, MarkAt, Mapped, Prefixed, EndingOf, Unfit, Refusal;
      if entries == [] || |entries| > MAX_OPERATIONS {
        return Raised(Unfit(|entries|));
      }
      ghost var whole := RunFrom(handlers, Model(), entries, stop, undo, 0);
      var results: seq<Outcome> := [];
      var index := 0;
      PrefixedByNone(whole);
      while index < |entries|
        invariant index <= |entries|
        invariant whole == Prefixed(results, RunFrom(handlers, Model(), entries, stop, undo, index))
      {
        Endings(whole, |entries|);
        if !WellFormed(entries[index]) {
          RunEnds(handlers, Model(), entries, stop, undo, index, results);
          return Raised(Refusal(entries[index], index));
        }
        var verdict;
        results, verdict := DispatchOne(entries, stop, undo, index, results);
        if verdict.StopHere? {
          return Reported(Report(results, CountOk(results), |entries|, Some(index)));
        }
        if verdict.Leave? {
          return Raised(verdict.failure);
        }
        index := index + 1;
      }
      Endings(whole, |entries|);
      RunEnds(handlers, Model(), entries, stop, undo, index, results);
      ending := Reported(Report(results, CountOk(results), |entries|, None));
    }

    /** A whole `batch.dispatch` request: the run, then its report through the same sanitising as any handler's value. */
    method DispatchBatch(entries: seq<Value>, stop: bool, undo: bool) returns (reply: Reply)
      modifies this
      ensures var counted := old(Model()).(requests := old(Model()).requests + 1);
              (Model(), reply) == BatchDispatched(handlers, revisionOf, counted, entries, stop, undo)
    {
      hide RunFrom, EndingOf, Sanitise, ReportValue, Unfit;
      requests := requests + 1;
      var ending := DispatchRun(entries, stop, undo);
      match ending
      case Reported(report) => reply := Ok(Sanitise(ReportValue(report, revisionOf(world))));
      case Raised(failure) =>
        errors := errors + 1;
        reply := Error(failure);
    }
  }

  /** What a batch comes to as a request of its own. */
  function BatchDispatched<World>(handlers: map<string, Handler<World>>, revisionOf: World -> nat, s: State<World>,
                                  entries: seq<Value>, stop: bool, undo: bool): (State<World>, Reply)
  {
    var (s, ending) :=
      if entries == [] || |entries| > MAX_OPERATIONS then (s, Raised(Unfit(|entries|)))
      else var run := RunFrom(handlers, s, entries, stop, undo, 0); (run.state, EndingOf(run, |entries|));
    match ending
    case Reported(report) => (s, Ok(Sanitise(ReportValue(report, revisionOf(s.world)))))
    case Raised(failure) => (s.(errors := s.errors + 1), Error(failure))
  }

  /** What becomes of a batch's run, from its first entry: its report once it finished or stopped, and otherwise what ended it, as
      one more error. */
  lemma BatchAnswersForItsRun<World>(handlers: map<string, Handler<World>>, revisionOf: World -> nat, s: State<World>,
                                     entries: seq<Value>, stop: bool, undo: bool)
    requires 0 < |entries| <= 1000
    ensures var run := RunFrom(handlers, s, entries, stop, undo, 0);
            var (after, reply) := BatchDispatched(handlers, revisionOf, s, entries, stop, undo);
            && after.world == run.state.world && after.requests == run.state.requests
            && after.errors == run.state.errors + (if reply.Error? then 1 else 0)
            && match run.end
               case Finished => reply == Ok(Sanitise(ReportValue(Report(run.results, CountOk(run.results), |entries|, None),
                                                                 revisionOf(after.world))))
               case Stopped(k) => reply == Ok(Sanitise(ReportValue(Report(run.results, CountOk(run.results), |entries|, Some(k)),
                                                                   revisionOf(after.world))))
               case Refused(_, failure) => reply == Error(failure)
               case Escaped(_, failure) => reply == Error(failure)
  {
    hide RunFrom, Sanitise, ReportValue, CountOk;
  }

  /** A batch of no operations, or of more than a thousand, runs nothing and is told which of the two it is. */
  lemma UnfitBatchesSayWhy<World>(handlers: map<string, Handler<World>>, revisionOf: World -> nat, s: State<World>,
                                  entries: seq<Value>, stop: bool, undo: bool)
    requires entries == [] || |entries| > 1000
    ensures var (after, reply) := BatchDispatched(handlers, revisionOf, s, entries, stop, undo);
            && after == State(s.world, s.requests, s.errors + 1)
            && reply.Error? && reply.failure.code == INVALID_ARGUMENT && !reply.failure.retryable
            && reply.failure.details
                 == if entries == [] then [] else [Field("limit", Int(1000)), Field("given", Int(|entries|))]
  {
  }

  // ---------------------------------------------------------------------------
  // The report as a value
  // ---------------------------------------------------------------------------

  function CodeText(code: Code): string
  {
    match code
    case INVALID_ARGUMENT => "INVALID_ARGUMENT"
    case UNSUPPORTED_OPERATION => "UNSUPPORTED_OPERATION"
    case BLENDER_CONTEXT_ERROR => "BLENDER_CONTEXT_ERROR"
    case BLENDER_INTERNAL_ERROR => "BLENDER_INTERNAL_ERROR"
    case Other(name) => name
  }

  function ErrorValue(failure: Failure): Value
  {
    Dict([Field("code", Text(CodeText(failure.code))), Field("message", Text(failure.message)),
          Field("retryable", Bool(failure.retryable))]
         + if failure.details == [] then [] else [Field("details", Dict(failure.details))])
  }

  function OutcomeValue(o: Outcome): Value
  {
    var told := match o.reply
                case Ok(value) => [Field("ok", Bool(true)), Field("result", value)]
                case Error(failure) => [Field("ok", Bool(false)), Field("error", ErrorValue(failure))];
    Dict(told + [Field("index", Int(o.index)), Field("op", Text(o.op))])
  }

  function OutcomeValues(results: seq<Outcome>): (r: seq<Value>)
    ensures |r| == |results| && forall k | 0 <= k < |r| :: r[k] == OutcomeValue(results[k])
  {
    seq(|results|, k requires 0 <= k < |results| => OutcomeValue(results[k]))
  }

  function StoppedValue(at: Option<nat>): Value
  {
    if at.Some? then Int(at.value) else Null
  }

  function ReportValue(report: Report, revision: int): Value
  {
    Dict([Field("results", List(OutcomeValues(report.results))), Field("completed", Int(report.completed)),
          Field("total", Int(report.total)), Field("stopped_at", StoppedValue(report.stoppedAt)),
          Field("revision", Int(revision))])
  }

  lemma {:induction false} SanitisedGet(entries: seq<Field>, key: string)
    requires exists e :: e in entries && e.key == key
    ensures Get(SanitiseEntries(entries), key) == Sanitise(Get(entries, key))
  {
    if entries[0].key != key { SanitisedGet(entries[1..], key); }
  }

  lemma GetHere(first: Field, rest: seq<Field>, key: string)
    ensures Get([first] + rest, key) == if first.key == key then first.value else Get(rest, key)
  {
    assert ([first] + rest)[1..] == rest;
  }

  /** What one outcome says after sanitising: its value, or its error, sanitised. */
  lemma OutcomeOnTheWire(o: Outcome)
    ensures var w := Sanitise(OutcomeValue(o));
            && w.Dict? && Get(w.entries, "ok") == Bool(o.reply.Ok?)
            && (o.reply.Ok? ==> Get(w.entries, "result") == Sanitise(o.reply.value))
            && (o.reply.Error? ==> Get(w.entries, "error") == Sanitise(ErrorValue(o.reply.failure)))
            && Get(w.entries, "index") == Int(o.index) && Get(w.entries, "op") == Text(o.op)
  {
    hide OutcomeValue, SanitiseEntries, Get, ErrorValue, Sanitise;
    OutcomeSays(o);
    var entries := OutcomeValue(o).entries;
    Simple(entries, o);
    assert entries[0] in entries && entries[1] in entries && entries[2] in entries && entries[3] in entries;
    SanitisedGet(entries, entries[0].key);
    SanitisedGet(entries, entries[1].key);
    SanitisedGet(entries, entries[2].key);
    SanitisedGet(entries, entries[3].key);
  }

  lemma Simple(entries: seq<Field>, o: Outcome)
    ensures Sanitise(Dict(entries)) == Dict(SanitiseEntries(entries))
    ensures Sanitise(Bool(o.reply.Ok?)) == Bool(o.reply.Ok?)
    ensures Sanitise(Int(o.index)) == Int(o.index) && Sanitise(Text(o.op)) == Text(o.op)
  {
  }

  /** An error goes through sanitising unchanged exactly when its details do. */
  lemma ErrorStaysExactlyWhen(failure: Failure)
    ensures Sanitise(ErrorValue(failure)) == ErrorValue(failure) <==> Settled(Dict(failure.details))
  {
    SettledIsFixed(ErrorValue(failure));
    ErrorEntries(failure);
  }

  lemma ErrorEntries(failure: Failure)
    ensures var v := ErrorValue(failure);
            && v.Dict? && |v.entries| == (if failure.details == [] then 3 else 4)
            && (forall k | 0 <= k < 3 :: Settled(v.entries[k].value) && Encodable(v.entries[k].value))
            && (failure.details != [] ==> v.entries[3] == Field("details", Dict(failure.details)))
  {
  }

  /** Alone, an error is sent as it is: it can be encoded exactly when its details can. In a batch it always can. */
  lemma ErrorEncodesExactlyWhen(failure: Failure)
    ensures Encodable(ErrorValue(failure)) <==> Encodable(Dict(failure.details))
  {
    ErrorEntries(failure);
  }

  /** The closest names make it another error. */
  lemma ClosestShows(failure: Failure, names: set<string>, name: string)
    ensures Sanitise(ErrorValue(failure)) != ErrorValue(WithClosest(failure, names, name))
  {
    var other := WithClosest(failure, names, name);
    ErrorEntries(failure);
    ErrorEntries(other);
    var sent := SanitiseEntries(ErrorValue(failure).entries);
    if failure.details != [] { assert sent[3].value == Dict(SanitiseEntries(failure.details)); }
  }

  lemma OutcomeSays(o: Outcome)
    ensures var entries := OutcomeValue(o).entries;
            && OutcomeValue(o).Dict? && |entries| == 4 && Get(entries, "ok") == Bool(o.reply.Ok?)
            && (o.reply.Ok? ==> Get(entries, "result") == o.reply.value)
            && (o.reply.Error? ==> Get(entries, "error") == ErrorValue(o.reply.failure))
            && Get(entries, "index") == Int(o.index) && Get(entries, "op") == Text(o.op)
            && entries[0].key == "ok" && entries[1].key == (if o.reply.Ok? then "result" else "error")
            && entries[2].key == "index" && entries[3].key == "op"
  {
    var entries := OutcomeValue(o).entries;
    var c := [entries[3]];
    var b := [entries[2]] + c;
    var a := [entries[1]] + b;
    assert entries == [entries[0]] + a && c == [entries[3]] + [];
    GetAlong(entries[0], entries[1], entries[2], entries[3], "ok");
    GetAlong(entries[0], entries[1], entries[2], entries[3], entries[1].key);
    GetAlong(entries[0], entries[1], entries[2], entries[3], "index");
    GetAlong(entries[0], entries[1], entries[2], entries[3], "op");
  }

  lemma GetAlong(a: Field, b: Field, c: Field, d: Field, key: string)
    ensures Get([a, b, c, d], key)
         == if a.key == key then a.value else if b.key == key then b.value else if c.key == key then c.value
            else if d.key == key then d.value else Null
  {
    assert [a, b, c, d] == [a] + [b, c, d] && [b, c, d] == [b] + [c, d] && [c, d] == [c] + [d] && [d] == [d] + [];
    hide Get;
    GetHere(a, [b, c, d], key);
    GetHere(b, [c, d], key);
    GetHere(c, [d], key);
    GetHere(d, [], key);
    GetNothing(key);
  }

  lemma ThreeAlong(a: Field, b: Field, c: Field, key: string)
    ensures Get([a, b, c], key)
         == if a.key == key then a.value else if b.key == key then b.value else if c.key == key then c.value else Null
  {
    assert [a, b, c] == [a] + [b, c] && [b, c] == [b] + [c] && [c] == [c] + [];
    hide Get;
    GetHere(a, [b, c], key);
    GetHere(b, [c], key);
    GetHere(c, [], key);
    GetNothing(key);
  }

  lemma GetNothing(key: string)
    ensures Get([], key) == Null
  {
  }

  /** What a caller of a batch reads: the report, except that a run which did not stop is said to have stopped at `{}`, since
      that is what a missing value becomes. */
  lemma ReportOnTheWire(report: Report, revision: int)
    ensures var w := Sanitise(ReportValue(report, revision));
            && Encodable(w) && w.Dict? && |w.entries| == 5
            && w.entries[0].key == "results" && w.entries[0].value.List?
            && |w.entries[0].value.items| == |report.results|
            && (forall k | 0 <= k < |report.results| ::
                  w.entries[0].value.items[k] == Sanitise(OutcomeValue(report.results[k])))
            && w.entries[1] == Field("completed", Int(report.completed))
            && w.entries[2] == Field("total", Int(report.total))
            && w.entries[3] == Field("stopped_at", if report.stoppedAt.Some? then Int(report.stoppedAt.value) else Dict([]))
            && w.entries[4] == Field("revision", Int(revision))
  {
    SanitisedIsEncodable(ReportValue(report, revision));
    StoppedOnTheWire(report.stoppedAt);
    hide OutcomeValue, OutcomeValues, Encodable, StoppedValue;
    var entries := ReportValue(report, revision).entries;
    var wire := SanitiseEntries(entries);
    assert wire[0].value == Sanitise(entries[0].value) && wire[3].value == Sanitise(StoppedValue(report.stoppedAt));
  }

  lemma StoppedOnTheWire(at: Option<nat>)
    ensures Sanitise(StoppedValue(at)) == if at.Some? then Int(at.value) else Dict([])
  {
    assert SanitiseEntries([]) == [];
  }

  /** So for each entry a batch reached its caller reads, as `result`, what the caller of the request alone reads; and the
      same error exactly when the operation is known and sanitising leaves the error's details alone. */
  lemma BatchCarriesTheReplies(names: set<string>, results: seq<Outcome>, replies: seq<Reply>, k: nat)
    requires AllMatch(names, results, replies) && k < |results|
    ensures var w := Sanitise(OutcomeValue(results[k]));
            && w.Dict? && Get(w.entries, "ok") == Bool(replies[k].Ok?)
            && (replies[k].Ok? ==> Get(w.entries, "result") == replies[k].value)
            && (replies[k].Error? ==>
                  ((Get(w.entries, "error") == ErrorValue(replies[k].failure))
                   <==> (results[k].op in names && Settled(Dict(results[k].reply.failure.details)))))
  {
    OutcomeOnTheWire(results[k]);
    hide OutcomeValue, Sanitise, ErrorValue, Get, WithClosest, Settled;
    assert Matches(names, results[k], replies[k]);
    if replies[k].Error? {
      ErrorStaysExactlyWhen(results[k].reply.failure);
      ClosestShows(results[k].reply.failure, names, results[k].op);
    }
  }

  /** What the handler does with a finished run: a refusal or an escaped exception loses the results. */
  function EndingOf<World>(run: RunResult<World>, total: nat): BatchEnding
  {
    match run.end
    case Refused(_, failure) => Raised(failure)
    case Escaped(_, failure) => Raised(failure)
    case Stopped(at) => Reported(Report(run.results, CountOk(run.results), total, Some(at)))
    case Finished => Reported(Report(run.results, CountOk(run.results), total, None))
  }

  lemma Endings<World>(run: RunResult<World>, total: nat)
    ensures EndingOf(run, total)
         == match run.end
            case Refused(_, failure) => Raised(failure)
            case Escaped(_, failure) => Raised(failure)
            case Stopped(at) => Reported(Report(run.results, CountOk(run.results), total, Some(at)))
            case Finished => Reported(Report(run.results, CountOk(run.results), total, None))
    ensures EndingOf(run, total).Raised? <==> run.end.Escaped? || run.end.Refused?
    ensures run.end.Escaped? ==> EndingOf(run, total) == Raised(run.end.failure)
  {
  }

  lemma RunEnds<World>(handlers: map<string, Handler<World>>, s: State<World>, entries: seq<Value>, stop: bool,
                       undo: bool, index: nat, results: seq<Outcome>)
    requires index <= |entries|
    ensures var whole := Prefixed(results, RunFrom(handlers, s, entries, stop, undo, index));
            && (index == |entries| ==> whole == RunResult(s, results, Finished))
            && (index < |entries| && !WellFormed(entries[index]) ==>
                  whole == RunResult(s, results, Refused(index, Refusal(entries[index], index))))
  {
    assert results + [] == results;
  }

  lemma PrefixedStep<World>(handlers: map<string, Handler<World>>, s: State<World>, entries: seq<Value>, stop: bool,
                            undo: bool, index: nat, results: seq<Outcome>)
    requires index < |entries| && WellFormed(entries[index])
    ensures var (s', reply, verdict) := Entry(handlers, s, entries[index], stop, MarkAt(undo, index, NameOf(entries[index])));
            var results' := results + [Outcome(index, NameOf(entries[index]), reply)];
            var whole := Prefixed(results, RunFrom(handlers, s, entries, stop, undo, index));
            whole == match verdict
                     case Next => Prefixed(results', RunFrom(handlers, s', entries, stop, undo, index + 1))
                     case StopHere => RunResult(s', results', Stopped(index))
                     case Leave(failure) => RunResult(s', results', Escaped(index, failure))
  {
    var (s', reply, verdict) := Entry(handlers, s, entries[index], stop, MarkAt(undo, index, NameOf(entries[index])));
    if verdict.Next? {
      var rest := RunFrom(handlers, s', entries, stop, undo, index + 1).results;
      var outcome := Outcome(index, NameOf(entries[index]), reply);
      assert results + ([outcome] + rest) == results + [outcome] + rest;
    }
  }

  lemma PrefixedByNone<World>(run: RunResult<World>)
    ensures Prefixed([], run) == run
  {
    assert [] + run.results == run.results;
  }

  ghost function Prefixed<World>(results: seq<Outcome>, rest: RunResult<World>): RunResult<World>
  {
    rest.(results := results + rest.results)
  }

  // ---------------------------------------------------------------------------
  // The run against the same requests sent singly
  // ---------------------------------------------------------------------------

  /** What a sender sees: the replies to its requests, and how the handler of each undo step it asked for ended. */
  datatype Singles<World> = Singles(state: State<World>, replies: seq<Reply>, steps: seq<Option<Ending>>)

  function StepEnding<World>(handlers: map<string, Handler<World>>, world: World, mark: Value): Option<Ending>
  {
    if "transaction.step" in handlers then Some(handlers["transaction.step"](world, mark).1) else None
  }

  /** The entries from `index` up to `end`, each sent as a request of its own; with `undo`, a `transaction.step` request
      follows each success. The sender stops at the first failure when `stop` is set. */
  function SendFrom<World>(handlers: map<string, Handler<World>>, s: State<World>, entries: seq<Value>, stop: bool,
                           undo: bool, index: nat, end: nat): Singles<World>
    requires index <= end <= |entries| && forall k | index <= k < end :: WellFormed(entries[k])
    decreases end - index
  {
    if index == end then Singles(s, [], [])
    else
      assert WellFormed(entries[index]);
      var (s, reply) := Dispatched(handlers, s, Get(entries[index].entries, "op"), Get(entries[index].entries, "args"));
      if reply.Error? && stop then Singles(s, [reply], [None])
      else if reply.Error? || !undo then Sent(reply, None, SendFrom(handlers, s, entries, stop, undo, index + 1, end))
      else
        var mark := MarkArgs(index, NameOf(entries[index]));
        var s' := Dispatched(handlers, s, Text("transaction.step"), mark).0;
        Sent(reply, StepEnding(handlers, s.world, mark), SendFrom(handlers, s', entries, stop, undo, index + 1, end))
  }

  function Sent<World>(reply: Reply, step: Option<Ending>, rest: Singles<World>): Singles<World>
  {
    Singles(rest.state, [reply] + rest.replies, [step] + rest.steps)
  }

  /** An outcome inside a run against the reply to the request alone, where `names` are the operations there are: the value
      before sanitising, and the same error, but that a request alone is told the names closest to an unknown one. */
  predicate Matches(names: set<string>, outcome: Outcome, reply: Reply)
  {
    match outcome.reply
    case Ok(value) => reply == Ok(Sanitise(value))
    case Error(failure) =>
      reply == Error(if outcome.op in names then failure else WithClosest(failure, names, outcome.op))
  }

  predicate AllMatch(names: set<string>, results: seq<Outcome>, replies: seq<Reply>)
  {
    |results| == |replies| && forall k | 0 <= k < |results| :: Matches(names, results[k], replies[k])
  }

  /** How many entries from `index` up to `end` name an operation nobody handles. */
  function Unknown<World>(handlers: map<string, Handler<World>>, entries: seq<Value>, index: nat, end: nat): nat
    requires index <= end <= |entries| && forall k | index <= k < end :: WellFormed(entries[k])
    decreases end - index
  {
    if index == end then 0
    else
      assert WellFormed(entries[index]);
      (if NameOf(entries[index]) in handlers then 0 else 1) + Unknown(handlers, entries, index + 1, end)
  }

  /** How many undo steps failed, one way or the other. */
  function StepErrors(steps: seq<Option<Ending>>): nat
  {
    if steps == [] then 0 else (if steps[0].Some? && !steps[0].value.Returned? then 1 else 0) + StepErrors(steps[1..])
  }

  predicate StepEscapes(step: Option<Ending>)
  {
    step.Some? && Escapes(step.value)
  }

  /** What one entry, and the undo step after it, come to when sent singly. */
  function SendOne<World>(handlers: map<string, Handler<World>>, t: State<World>, entry: Value, undo: bool, index: nat)
    : (State<World>, Reply, Option<Ending>)
    requires WellFormed(entry)
  {
    var (t', single) := Dispatched(handlers, t, Get(entry.entries, "op"), Get(entry.entries, "args"));
    var mark := MarkArgs(index, NameOf(entry));
    if single.Ok? && undo then
      (Dispatched(handlers, t', Text("transaction.step"), mark).0, single, StepEnding(handlers, t'.world, mark))
    else (t', single, None)
  }

  lemma SendFirst<World>(handlers: map<string, Handler<World>>, t: State<World>, entries: seq<Value>, stop: bool, undo: bool,
                         index: nat, end: nat)
    requires index < end <= |entries| && forall k | index <= k < end :: WellFormed(entries[k])
    ensures var (t', single, step) := SendOne(handlers, t, entries[index], undo, index);
            SendFrom(handlers, t, entries, stop, undo, index, end)
              == if single.Error? && stop then Singles(t', [single], [None])
                 else Sent(single, step, SendFrom(handlers, t', entries, stop, undo, index + 1, end))
  {
  }

  /** One entry of a run against the same request, and the undo step after it, sent singly. */
  lemma EntryRefinesSingle<World>(handlers: map<string, Handler<World>>, s: State<World>, t: State<World>, entry: Value,
                                  stop: bool, undo: bool, index: nat)
    requires WellFormed(entry) && s.world == t.world
    ensures var (s', reply, verdict) := Entry(handlers, s, entry, stop, MarkAt(undo, index, NameOf(entry)));
            var (t', single, step) := SendOne(handlers, t, entry, undo, index);
            && Matches(handlers.Keys, Outcome(index, NameOf(entry), reply), single) && s'.world == t'.world
            && s'.requests == s.requests + 1 && t'.requests == t.requests + 1 + (if undo && reply.Ok? then 1 else 0)
            && s'.errors - s.errors + StepErrors([step])
                 == t'.errors - t.errors + (if NameOf(entry) in handlers then 0 else 1)
            && (verdict.StopHere? <==> stop && single.Error?) && (single.Error? ==> step == None)
            && (verdict.Leave? <==> StepEscapes(step))
  {
    hide Mapped, WithClosest, Unsupported, NoName, NoArgs, Sanitise, D.Digits, OrEmpty, RunOne;
    OneMatches(handlers, s.world, t, entry, index);
    StepErrorsOne(SendOne(handlers, t, entry, undo, index).2);
    hide Matches, StepErrors;
    hide NOT_NESTABLE;
    assert "transaction.step" != "";
    MarkIsSent(handlers, Dispatched(handlers, t, Get(entry.entries, "op"), Get(entry.entries, "args")).0,
               MarkArgs(index, NameOf(entry)));
    hide Dispatched;
  }

  /** The entry itself: run inside a batch and sent alone. */
  lemma OneMatches<World>(handlers: map<string, Handler<World>>, world: World, t: State<World>, entry: Value, index: nat)
    requires WellFormed(entry) && t.world == world
    ensures var (world', reply) := RunOne(handlers, world, NameOf(entry), ArgsOf(entry));
            var (t', single) := Dispatched(handlers, t, Get(entry.entries, "op"), Get(entry.entries, "args"));
            && Matches(handlers.Keys, Outcome(index, NameOf(entry), reply), single) && world' == t'.world
            && (single.Error? <==> reply.Error?) && t'.requests == t.requests + 1
            && t'.errors == t.errors + (if reply.Error? && NameOf(entry) in handlers then 1 else 0)
  {
    hide Mapped, WithClosest, Unsupported, NoName, NoArgs, Sanitise;
  }

  /** The undo step after it: marked inside a batch and sent alone. */
  lemma MarkIsSent<World>(handlers: map<string, Handler<World>>, t: State<World>, mark: Value)
    requires mark.Dict? && mark.entries != []
    ensures var t' := Dispatched(handlers, t, Text("transaction.step"), mark).0;
            var (world, ending) := MarkStep(handlers, t.world, mark);
            var step := StepEnding(handlers, t.world, mark);
            && t'.world == world && t'.requests == t.requests + 1
            && t'.errors == t.errors + (if step.Some? && !step.value.Returned? then 1 else 0)
            && (StepEscapes(step) <==> Escapes(ending)) && (StepEscapes(step) ==> step.value == ending)
  {
    hide Mapped, WithClosest, Unsupported, NoName, NoArgs, Sanitise;
  }

  lemma StepErrorsOne(step: Option<Ending>)
    ensures StepErrors([step]) == if step.Some? && !step.value.Returned? then 1 else 0
  {
  }

  lemma StepErrorsAdd(step: Option<Ending>, rest: seq<Option<Ending>>)
    ensures StepErrors([step] + rest) == StepErrors([step]) + StepErrors(rest)
  {
    assert ([step] + rest)[1..] == rest && [step][1..] == [];
  }

  lemma CountOkAdd(outcome: Outcome, rest: seq<Outcome>)
    ensures CountOk([outcome] + rest) == (if outcome.reply.Ok? then 1 else 0) + CountOk(rest)
  {
    assert ([outcome] + rest)[1..] == rest;
  }

  lemma AllMatchAdd(names: set<string>, outcome: Outcome, reply: Reply, results: seq<Outcome>, replies: seq<Reply>)
    requires Matches(names, outcome, reply) && AllMatch(names, results, replies)
    ensures AllMatch(names, [outcome] + results, [reply] + replies)
  {
  }

  lemma RunFirst<World>(handlers: map<string, Handler<World>>, s: State<World>, entries: seq<Value>, stop: bool, undo: bool,
                        index: nat)
    requires index < |entries| && WellFormed(entries[index])
    ensures var (s', reply, verdict) := Entry(handlers, s, entries[index], stop, MarkAt(undo, index, NameOf(entries[index])));
            var outcome := Outcome(index, NameOf(entries[index]), reply);
            RunFrom(handlers, s, entries, stop, undo, index)
              == match verdict
                 case StopHere => RunResult(s', [outcome], Stopped(index))
                 case Leave(failure) => RunResult(s', [outcome], Escaped(index, failure))
                 case Next => Prefixed([outcome], RunFrom(handlers, s', entries, stop, undo, index + 1))
  {
  }

  /** The run `run` from `s` is the entries it reached sent singly from `t`. */
  ghost predicate Refines<World>(handlers: map<string, Handler<World>>, s: State<World>, t: State<World>, entries: seq<Value>,
                                 stop: bool, undo: bool, index: nat, run: RunResult<World>)
  {
    var end := index + |run.results|;
    && end <= |entries| && (forall k | index <= k < end :: WellFormed(entries[k]))
    && var singles := SendFrom(handlers, t, entries, stop, undo, index, end);
       && run.state.world == singles.state.world && AllMatch(handlers.Keys, run.results, singles.replies)
       && run.state.requests - s.requests == |run.results|
       && singles.state.requests - t.requests == |run.results| + (if undo then CountOk(run.results) else 0)
       && run.state.errors - s.errors + StepErrors(singles.steps)
            == singles.state.errors - t.errors + Unknown(handlers, entries, index, end)
  }

  lemma RefinesNext<World>(handlers: map<string, Handler<World>>, s: State<World>, t: State<World>, entries: seq<Value>,
                           stop: bool, undo: bool, index: nat, s': State<World>, outcome: Outcome, rest: RunResult<World>)
    requires index < |entries| && WellFormed(entries[index])
    requires var (t', single, step) := SendOne(handlers, t, entries[index], undo, index);
             && Refines(handlers, s', t', entries, stop, undo, index + 1, rest)
             && Matches(handlers.Keys, outcome, single) && !(single.Error? && stop)
             && s'.requests == s.requests + 1
             && t'.requests == t.requests + 1 + (if undo && outcome.reply.Ok? then 1 else 0)
             && s'.errors - s.errors + StepErrors([step])
                  == t'.errors - t.errors + (if NameOf(entries[index]) in handlers then 0 else 1)
    ensures Refines(handlers, s, t, entries, stop, undo, index, Prefixed([outcome], rest))
  {
    hide SendOne, Matches, SendFrom, CountOk, StepErrors;
    var (t', single, step) := SendOne(handlers, t, entries[index], undo, index);
    var end := index + 1 + |rest.results|;
    SendFirst(handlers, t, entries, stop, undo, index, end);
    var singles := SendFrom(handlers, t', entries, stop, undo, index + 1, end);
    AllMatchAdd(handlers.Keys, outcome, single, rest.results, singles.replies);
    CountOkAdd(outcome, rest.results);
    StepErrorsAdd(step, singles.steps);
    hide AllMatch;
  }

  lemma RefinesLast<World>(handlers: map<string, Handler<World>>, s: State<World>, t: State<World>, entries: seq<Value>,
                           stop: bool, undo: bool, index: nat, s': State<World>, outcome: Outcome, end: End)
    requires index < |entries| && WellFormed(entries[index])
    requires var (t', single, step) := SendOne(handlers, t, entries[index], undo, index);
             && Matches(handlers.Keys, outcome, single) && s'.world == t'.world
             && s'.requests == s.requests + 1
             && t'.requests == t.requests + 1 + (if undo && outcome.reply.Ok? then 1 else 0)
             && s'.errors - s.errors + StepErrors([step])
                  == t'.errors - t.errors + (if NameOf(entries[index]) in handlers then 0 else 1)
    ensures Refines(handlers, s, t, entries, stop, undo, index, RunResult(s', [outcome], end))
  {
    hide SendOne, Matches, SendFrom, CountOk, StepErrors;
    OneReached(handlers, t, entries, stop, undo, index, outcome);
  }

  /** A run, however it ends, is the entries it reached sent singly: same scene, same outcomes after sanitising. It counts
      one request an entry and none for its undo steps, whose failures it does not count either; it counts unknown
      operations as errors, which single requests do not. */
  lemma {:induction false} MarkedRunRefinesSingles<World>(
    handlers: map<string, Handler<World>>, s: State<World>, t: State<World>, entries: seq<Value>, stop: bool, undo: bool,
    index: nat)
    requires index <= |entries| && s.world == t.world
    ensures Refines(handlers, s, t, entries, stop, undo, index, RunFrom(handlers, s, entries, stop, undo, index))
    decreases |entries| - index
  {
    hide Entry, SendOne, Matches, MarkAt, Dispatched, SendFrom, CountOk, StepErrors, RunFrom, Refines, WellFormed, NameOf;
    if index == |entries| || !WellFormed(entries[index]) {
      RefinesNone(handlers, s, t, entries, stop, undo, index);
    } else {
      var entry := entries[index];
      var (s', reply, verdict) := Entry(handlers, s, entry, stop, MarkAt(undo, index, NameOf(entry)));
      var (t', single, step) := SendOne(handlers, t, entry, undo, index);
      var outcome := Outcome(index, NameOf(entry), reply);
      EntryRefinesSingle(handlers, s, t, entry, stop, undo, index);
      RunFirst(handlers, s, entries, stop, undo, index);
      match verdict
      case Next =>
        MarkedRunRefinesSingles(handlers, s', t', entries, stop, undo, index + 1);
        RefinesNext(handlers, s, t, entries, stop, undo, index, s', outcome,
                    RunFrom(handlers, s', entries, stop, undo, index + 1));
      case StopHere => RefinesLast(handlers, s, t, entries, stop, undo, index, s', outcome, Stopped(index));
      case Leave(failure) => RefinesLast(handlers, s, t, entries, stop, undo, index, s', outcome, Escaped(index, failure));
    }
  }

  lemma RefinesNone<World>(handlers: map<string, Handler<World>>, s: State<World>, t: State<World>, entries: seq<Value>,
                           stop: bool, undo: bool, index: nat)
    requires index <= |entries| && s.world == t.world && (index < |entries| ==> !WellFormed(entries[index]))
    ensures Refines(handlers, s, t, entries, stop, undo, index, RunFrom(handlers, s, entries, stop, undo, index))
  {
    hide WellFormed, Refusal, Matches, RunFrom;
    RunNone(handlers, s, entries, stop, undo, index);
  }

  /** The last entry reached, sent singly. */
  lemma OneReached<World>(handlers: map<string, Handler<World>>, t: State<World>, entries: seq<Value>, stop: bool, undo: bool,
                          index: nat, outcome: Outcome)
    requires index < |entries| && WellFormed(entries[index])
    ensures var (t', single, step) := SendOne(handlers, t, entries[index], undo, index);
            && (single.Error? ==> step == None)
            && SendFrom(handlers, t, entries, stop, undo, index, index + 1) == Singles(t', [single], [step])
    ensures Unknown(handlers, entries, index, index + 1) == if NameOf(entries[index]) in handlers then 0 else 1
    ensures CountOk([outcome]) == if outcome.reply.Ok? then 1 else 0
  {
    SendFirst(handlers, t, entries, stop, undo, index, index + 1);
    CountOkAdd(outcome, []);
    assert [outcome] + [] == [outcome];
  }

  /** Without undo steps and with every entry well formed, the whole run is the whole list sent singly. */
  lemma RunRefinesSingles<World>(
    handlers: map<string, Handler<World>>, s: State<World>, t: State<World>, entries: seq<Value>, stop: bool, index: nat)
    requires index <= |entries| && s.world == t.world && forall k | index <= k < |entries| :: WellFormed(entries[k])
    ensures var run := RunFrom(handlers, s, entries, stop, false, index);
            var singles := SendFrom(handlers, t, entries, stop, false, index, |entries|);
            var end := index + |run.results|;
            && run.state.world == singles.state.world && AllMatch(handlers.Keys, run.results, singles.replies)
            && run.state.requests - s.requests == singles.state.requests - t.requests == |run.results|
            && end <= |entries|
            && run.state.errors - s.errors == singles.state.errors - t.errors + Unknown(handlers, entries, index, end)
  {
    hide RunFrom, SendFrom, AllMatch, Unknown, StepErrors, Mapped, WellFormed, CountOk;
    MarkedRunRefinesSingles(handlers, s, t, entries, stop, false, index);
    var run := RunFrom(handlers, s, entries, stop, false, index);
    var end := index + |run.results|;
    EndTellsOfSteps(handlers, s, t, entries, stop, false, index);
    NoStepsAsked(handlers, t, entries, stop, index, |entries|);
    NoStepsAsked(handlers, t, entries, stop, index, end);
  }

  lemma {:induction false} NoStepsAsked<World>(handlers: map<string, Handler<World>>, t: State<World>, entries: seq<Value>,
                                               stop: bool, index: nat, end: nat)
    requires index <= end <= |entries| && forall k | index <= k < end :: WellFormed(entries[k])
    ensures var steps := SendFrom(handlers, t, entries, stop, false, index, end).steps;
            StepErrors(steps) == 0 && forall k | 0 <= k < |steps| :: steps[k] == None
    decreases end - index
  {
    hide SendOne, WellFormed, SendFrom, StepErrors;
    if index == end {
      NoneSent(handlers, t, entries, stop, false, index);
    } else {
      var (t', single, step) := SendOne(handlers, t, entries[index], false, index);
      NoStep(handlers, t, entries[index], index);
      SendFirst(handlers, t, entries, stop, false, index, end);
      NoStepsAsked(handlers, t', entries, stop, index + 1, end);
      StepErrorsAdd(None, SendFrom(handlers, t', entries, stop, false, index + 1, end).steps);
      StepErrorsAdd(None, []);
      assert [step] + [] == [step];
    }
  }

  lemma NoneSent<World>(handlers: map<string, Handler<World>>, t: State<World>, entries: seq<Value>, stop: bool, undo: bool,
                        index: nat)
    requires index <= |entries|
    ensures SendFrom(handlers, t, entries, stop, undo, index, index) == Singles(t, [], []) && StepErrors([]) == 0
  {
  }

  lemma NoStep<World>(handlers: map<string, Handler<World>>, t: State<World>, entry: Value, index: nat)
    requires WellFormed(entry)
    ensures SendOne(handlers, t, entry, false, index).2 == None && StepErrors([None]) == 0
  {
    hide Dispatched;
  }

  /** The error counters agree exactly when no entry that was reached names an unknown operation. */
  lemma CountersAgreeExactlyWhenSupported<World>(
    handlers: map<string, Handler<World>>, s: State<World>, entries: seq<Value>, stop: bool)
    requires forall k | 0 <= k < |entries| :: WellFormed(entries[k])
    ensures var run := RunFrom(handlers, s, entries, stop, false, 0);
            var singles := SendFrom(handlers, s, entries, stop, false, 0, |entries|);
            && run.state.requests == singles.state.requests
            && (run.state.errors == singles.state.errors
                <==> forall k | 0 <= k < |run.results| && k < |entries| :: NameOf(entries[k]) in handlers)
  {
    RunRefinesSingles(handlers, s, s, entries, stop, 0);
    NoneUnknown(handlers, entries, 0, |RunFrom(handlers, s, entries, stop, false, 0).results|);
  }

  lemma {:induction false} NoneUnknown<World>(handlers: map<string, Handler<World>>, entries: seq<Value>, index: nat, end: nat)
    requires index <= end <= |entries| && forall k | index <= k < end :: WellFormed(entries[k])
    ensures Unknown(handlers, entries, index, end) == 0 <==> forall k | index <= k < end :: NameOf(entries[k]) in handlers
    decreases end - index
  {
    if index < end { NoneUnknown(handlers, entries, index + 1, end); }
  }

  predicate FirstEscape(steps: seq<Option<Ending>>, k: int)
  {
    0 <= k < |steps| && StepEscapes(steps[k]) && forall j | 0 <= j < k :: !StepEscapes(steps[j])
  }

  /** How the run's end tells of the undo steps the sender asked for: `n` entries were reached. */
  ghost predicate EndTells<World>(handlers: map<string, Handler<World>>, t: State<World>, entries: seq<Value>, stop: bool,
                                  undo: bool, index: nat, n: nat, end: End)
    requires index <= |entries| && forall k | index <= k < |entries| :: WellFormed(entries[k])
  {
    var singles := SendFrom(handlers, t, entries, stop, undo, index, |entries|);
    && |singles.steps| == |singles.replies| && !end.Refused?
    && (!end.Escaped? ==>
          && (forall k | 0 <= k < |singles.steps| :: !StepEscapes(singles.steps[k]))
          && index + n <= |entries| && SendFrom(handlers, t, entries, stop, undo, index, index + n) == singles)
    && (end.Escaped? ==>
          && FirstEscape(singles.steps, n - 1) && end == Escaped(index + n - 1, Mapped(singles.steps[n - 1].value, BATCH)))
  }

  lemma TellsNext<World>(handlers: map<string, Handler<World>>, t: State<World>, entries: seq<Value>, stop: bool, undo: bool,
                         index: nat, n: nat, end: End)
    requires index < |entries| && forall k | index <= k < |entries| :: WellFormed(entries[k])
    requires var (t', single, step) := SendOne(handlers, t, entries[index], undo, index);
             EndTells(handlers, t', entries, stop, undo, index + 1, n, end) && !(single.Error? && stop) && !StepEscapes(step)
    ensures EndTells(handlers, t, entries, stop, undo, index, n + 1, end)
  {
    hide SendOne, SendFrom, StepEscapes, Mapped;
    var (t', single, step) := SendOne(handlers, t, entries[index], undo, index);
    var rest := SendFrom(handlers, t', entries, stop, undo, index + 1, |entries|);
    SendFirst(handlers, t, entries, stop, undo, index, |entries|);
    StepsAdd(step, rest.steps);
    if !end.Escaped? { SendFirst(handlers, t, entries, stop, undo, index, index + 1 + n); }
  }

  lemma TellsLast<World>(handlers: map<string, Handler<World>>, t: State<World>, entries: seq<Value>, stop: bool, undo: bool,
                         index: nat, end: End)
    requires index < |entries| && forall k | index <= k < |entries| :: WellFormed(entries[k])
    requires var (t', single, step) := SendOne(handlers, t, entries[index], undo, index);
             || (end == Stopped(index) && single.Error? && stop)
             || (StepEscapes(step) && !(single.Error? && stop) && end == Escaped(index, Mapped(step.value, BATCH)))
    ensures EndTells(handlers, t, entries, stop, undo, index, 1, end)
  {
    hide SendOne, SendFrom, Mapped, WellFormed;
    SendFirst(handlers, t, entries, stop, undo, index, |entries|);
    SendFirst(handlers, t, entries, stop, undo, index, index + 1);
    SameLengths(handlers, SendOne(handlers, t, entries[index], undo, index).0, entries, stop, undo, index + 1, |entries|);
    NoneSent(handlers, SendOne(handlers, t, entries[index], undo, index).0, entries, stop, undo, index + 1);
  }

  lemma TellsNone<World>(handlers: map<string, Handler<World>>, s: State<World>, t: State<World>, entries: seq<Value>,
                         stop: bool, undo: bool)
    ensures var run := RunFrom(handlers, s, entries, stop, undo, |entries|);
            EndTells(handlers, t, entries, stop, undo, |entries|, |run.results|, run.end)
  {
  }

  lemma {:induction false} SameLengths<World>(handlers: map<string, Handler<World>>, t: State<World>, entries: seq<Value>,
                                              stop: bool, undo: bool, index: nat, end: nat)
    requires index <= end <= |entries| && forall k | index <= k < end :: WellFormed(entries[k])
    ensures var singles := SendFrom(handlers, t, entries, stop, undo, index, end); |singles.steps| == |singles.replies|
    decreases end - index
  {
    hide SendOne, WellFormed, SendFrom;
    if index == end {
      NoneSent(handlers, t, entries, stop, undo, index);
    } else {
      SendFirst(handlers, t, entries, stop, undo, index, end);
      SameLengths(handlers, SendOne(handlers, t, entries[index], undo, index).0, entries, stop, undo, index + 1, end);
    }
  }

  lemma {:induction false} EndTellsOfSteps<World>(
    handlers: map<string, Handler<World>>, s: State<World>, t: State<World>, entries: seq<Value>, stop: bool, undo: bool,
    index: nat)
    requires index <= |entries| && s.world == t.world && forall k | index <= k < |entries| :: WellFormed(entries[k])
    ensures var run := RunFrom(handlers, s, entries, stop, undo, index);
            EndTells(handlers, t, entries, stop, undo, index, |run.results|, run.end)
    decreases |entries| - index
  {
    hide Entry, SendOne, Matches, MarkAt, Dispatched, SendFrom, StepEscapes, StepErrors, Mapped, RunFrom, EndTells, NameOf;
    hide WellFormed;
    if index == |entries| {
      TellsNone(handlers, s, t, entries, stop, undo);
    } else {
      var entry := entries[index];
      var (s', reply, verdict) := Entry(handlers, s, entry, stop, MarkAt(undo, index, NameOf(entry)));
      var (t', single, step) := SendOne(handlers, t, entry, undo, index);
      EntryRefinesSingle(handlers, s, t, entry, stop, undo, index);
      LeavesWith(handlers, s, t, entry, stop, undo, index);
      RunFirst(handlers, s, entries, stop, undo, index);
      match verdict
      case Next =>
        EndTellsOfSteps(handlers, s', t', entries, stop, undo, index + 1);
        var rest := RunFrom(handlers, s', entries, stop, undo, index + 1);
        TellsNext(handlers, t, entries, stop, undo, index, |rest.results|, rest.end);
      case StopHere => TellsLast(handlers, t, entries, stop, undo, index, Stopped(index));
      case Leave(failure) => TellsLast(handlers, t, entries, stop, undo, index, Escaped(index, failure));
    }
  }

  /** The exact condition: a run of well-formed entries hands back its report, over the whole list as sent singly, if and
      only if no undo step asked for after a success raises anything but a structured error. Otherwise it raises what the
      first such step raised, and the report of everything already applied is lost. */
  lemma RunReportsExactlyWhenNoStepEscapes<World>(
    handlers: map<string, Handler<World>>, s: State<World>, entries: seq<Value>, stop: bool, undo: bool)
    requires forall k | 0 <= k < |entries| :: WellFormed(entries[k])
    ensures var run := RunFrom(handlers, s, entries, stop, undo, 0);
            var singles := SendFrom(handlers, s, entries, stop, undo, 0, |entries|);
            && (EndingOf(run, |entries|).Reported? <==> forall k | 0 <= k < |singles.steps| :: !StepEscapes(singles.steps[k]))
            && (EndingOf(run, |entries|).Reported? ==>
                  run.state.world == singles.state.world && AllMatch(handlers.Keys, run.results, singles.replies))
            && (EndingOf(run, |entries|).Raised? ==>
                  && FirstEscape(singles.steps, |run.results| - 1)
                  && EndingOf(run, |entries|) == Raised(Mapped(singles.steps[|run.results| - 1].value, BATCH)))
  {
    hide RunFrom, SendFrom, StepEscapes, AllMatch, Mapped;
    MarkedRunRefinesSingles(handlers, s, s, entries, stop, undo, 0);
    EndTellsOfSteps(handlers, s, s, entries, stop, undo, 0);
    var run := RunFrom(handlers, s, entries, stop, undo, 0);
    var singles := SendFrom(handlers, s, entries, stop, undo, 0, |entries|);
    assert 0 + |run.results| == |run.results|;
    Endings(run, |entries|);
    hide EndingOf;
    if run.end.Escaped? {
      assert FirstEscape(singles.steps, |run.results| - 1);
    } else {
      assert Refines(handlers, s, s, entries, stop, undo, 0, run);
    }
  }

  lemma LeavesWith<World>(handlers: map<string, Handler<World>>, s: State<World>, t: State<World>, entry: Value,
                          stop: bool, undo: bool, index: nat)
    requires WellFormed(entry) && s.world == t.world
    ensures var verdict := Entry(handlers, s, entry, stop, MarkAt(undo, index, NameOf(entry))).2;
            var step := SendOne(handlers, t, entry, undo, index).2;
            && !StepEscapes(None)
            && (verdict.Leave? ==> StepEscapes(step) && verdict.failure == Mapped(step.value, BATCH))
  {
  }

  lemma StepsAdd(step: Option<Ending>, rest: seq<Option<Ending>>)
    requires !StepEscapes(step)
    ensures (forall k | 0 <= k < |[step] + rest| :: !StepEscapes(([step] + rest)[k]))
       <==> (forall k | 0 <= k < |rest| :: !StepEscapes(rest[k]))
    ensures forall k | 0 <= k < |rest| :: ([step] + rest)[k + 1] == rest[k]
  {
    assert forall k | 0 <= k < |rest| :: ([step] + rest)[k + 1] == rest[k];
  }

  /** Where a run stands when it ends: the entries it reached, and no others, were well formed and are reported in order. */
  lemma {:induction false} RunReachesWhatItReports<World>(
    handlers: map<string, Handler<World>>, s: State<World>, entries: seq<Value>, stop: bool, undo: bool, index: nat)
    requires index <= |entries|
    ensures var run := RunFrom(handlers, s, entries, stop, undo, index);
            && |run.results| <= |entries| - index
            && (forall k | 0 <= k < |run.results| :: run.results[k].index == index + k && WellFormed(entries[index + k]))
            && (match run.end
                case Finished => |run.results| == |entries| - index
                case Stopped(at) => stop && at == index + |run.results| - 1
                case Refused(at, _) => at == index + |run.results| < |entries| && !WellFormed(entries[at])
                case Escaped(at, _) => undo && at == index + |run.results| - 1)
    decreases |entries| - index
  {
    hide Entry, MarkAt, RunFrom, WellFormed, NameOf, Refusal;
    if index < |entries| && WellFormed(entries[index]) {
      var (s', reply, verdict) := Entry(handlers, s, entries[index], stop, MarkAt(undo, index, NameOf(entries[index])));
      VerdictMeans(handlers, s, entries[index], stop, undo, index);
      RunFirst(handlers, s, entries, stop, undo, index);
      if verdict.Next? {
        RunReachesWhatItReports(handlers, s', entries, stop, undo, index + 1);
        var run := RunFrom(handlers, s, entries, stop, undo, index);
        var rest := RunFrom(handlers, s', entries, stop, undo, index + 1);
        forall k | 0 <= k < |run.results|
          ensures run.results[k].index == index + k && WellFormed(entries[index + k])
        {
          if k > 0 { assert run.results[k] == rest.results[k - 1] && entries[index + 1 + (k - 1)] == entries[index + k]; }
        }
      } else {
        var run := RunFrom(handlers, s, entries, stop, undo, index);
        forall k | 0 <= k < |run.results|
          ensures run.results[k].index == index + k && WellFormed(entries[index + k])
        {
          assert k == 0 && entries[index + k] == entries[index];
        }
      }
    } else {
      RunNone(handlers, s, entries, stop, undo, index);
    }
  }

  lemma RunNone<World>(handlers: map<string, Handler<World>>, s: State<World>, entries: seq<Value>, stop: bool, undo: bool,
                       index: nat)
    requires index <= |entries| && (index < |entries| ==> !WellFormed(entries[index]))
    ensures RunFrom(handlers, s, entries, stop, undo, index)
         == RunResult(s, [], if index == |entries| then Finished else Refused(index, Refusal(entries[index], index)))
  {
    hide WellFormed, Refusal;
    if index == |entries| {
      assert RunFrom(handlers, s, entries, stop, undo, index) == RunResult(s, [], Finished);
    } else {
      assert RunFrom(handlers, s, entries, stop, undo, index)
          == RunResult(s, [], Refused(index, Refusal(entries[index], index)));
    }
  }

  lemma VerdictMeans<World>(handlers: map<string, Handler<World>>, s: State<World>, entry: Value, stop: bool, undo: bool,
                            index: nat)
    requires WellFormed(entry)
    ensures var (s', reply, verdict) := Entry(handlers, s, entry, stop, MarkAt(undo, index, NameOf(entry)));
            (verdict.StopHere? ==> stop) && (verdict.Leave? ==> undo)
  {
    hide WellFormed, RunOne, MarkStep;
  }

  /** `completed` counts every reported entry but those the error counter rose by; under `stop_on_error` that is the last
      one, when the run stopped at it, and no other. */
  lemma {:induction false} CompletedCountsAllButTheErrors<World>(
    handlers: map<string, Handler<World>>, s: State<World>, entries: seq<Value>, stop: bool, undo: bool, index: nat)
    requires index <= |entries|
    ensures var run := RunFrom(handlers, s, entries, stop, undo, index);
            && CountOk(run.results) + (run.state.errors - s.errors) == |run.results|
            && (stop ==> CountOk(run.results) == |run.results| - if run.end.Stopped? then 1 else 0)
    decreases |entries| - index
  {
    if index < |entries| && WellFormed(entries[index]) {
      var entry := entries[index];
      var (s', reply, verdict) := Entry(handlers, s, entry, stop, MarkAt(undo, index, NameOf(entry)));
      EntryCounts(handlers, s, entry, stop, undo, index);
      var outcome := Outcome(index, NameOf(entry), reply);
      hide Entry, MarkAt, CountOk;
      if verdict.Next? {
        CompletedCountsAllButTheErrors(handlers, s', entries, stop, undo, index + 1);
        CountOkAdd(outcome, RunFrom(handlers, s', entries, stop, undo, index + 1).results);
      } else {
        assert [outcome] + [] == [outcome];
        CountOkAdd(outcome, []);
        NoneOk();
      }
    } else {
      NoneOk();
    }
  }

  lemma NoneOk()
    ensures CountOk([]) == 0
  {
  }

  lemma EntryCounts<World>(handlers: map<string, Handler<World>>, s: State<World>, entry: Value, stop: bool, undo: bool, index: nat)
    requires WellFormed(entry)
    ensures var (s', reply, verdict) := Entry(handlers, s, entry, stop, MarkAt(undo, index, NameOf(entry)));
            && s'.errors == s.errors + (if reply.Ok? then 0 else 1)
            && (verdict.StopHere? <==> stop && reply.Error?) && (verdict.Leave? ==> reply.Ok?)
  {
  }

  /** A refused entry leaves exactly the state of the run cut before it: the earlier entries have run, and their undo steps,
      and nothing else. */
  lemma {:induction false} RefusalRunsExactlyTheEarlier<World>(
    handlers: map<string, Handler<World>>, s: State<World>, entries: seq<Value>, stop: bool, undo: bool, index: nat, at: nat)
    requires index <= at < |entries|
    requires var end := RunFrom(handlers, s, entries, stop, undo, index).end; end.Refused? && end.at == at
    ensures var cut := RunFrom(handlers, s, entries[..at], stop, undo, index);
            cut.end == Finished && cut.state == RunFrom(handlers, s, entries, stop, undo, index).state
    decreases |entries| - index
  {
    RunReachesWhatItReports(handlers, s, entries, stop, undo, index);
    if index < at {
      assert entries[..at][index] == entries[index];
      var (s', reply, verdict) := Entry(handlers, s, entries[index], stop, MarkAt(undo, index, NameOf(entries[index])));
      hide Entry, MarkAt;
      RefusalRunsExactlyTheEarlier(handlers, s', entries, stop, undo, index + 1, at);
    }
  }
}
