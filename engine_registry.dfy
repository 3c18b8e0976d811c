/** The engine registry: the slots the manager keeps for its adapters, what a
    registration attempt leaves behind, which adapters `init` registers, and
    the calls a broadcast over the slots makes. Adapters are foreign objects:
    an engine is an opaque id, and a call to it is an entry in a log. */
module EngineRegistry {
  import opened Values

  /** An opaque identity of a constructed engine adapter. */
  type EngineId = nat

  /** One entry of `engines`; `None` is the `undefined` pushed after a failed
      construction. */
  type Slot = Option<EngineId>

  /** What `new engineConstructor(token, engineParams)` did. */
  datatype Construction = Constructed(engine: EngineId) | Threw

  /** The slot a registration attempt appends. */
  function SlotOf(c: Construction): (s: Slot)
    ensures s.Some? <==> c.Constructed?
    ensures c.Constructed? ==> s.value == c.engine
  {
    match c
    case Constructed(e) => Some(e)
    case Threw => None
  }

  /** The diagnostic that `onRegisterAnalyticsEngineFailure` writes to the
      logging sink, reduced to the engine's name and the token. */
  datatype LogEntry = RegistrationFailure(engine: string, token: Option<string>)

  /** The three bags that are broadcast whenever they are set. */
  datatype BagKind = PersistentEventProperties | SessionProperties | UserProperties

  /** The adapter methods the manager calls. */
  datatype MethodName = TrackEventMethod | IdentifyUserMethod | SetPropertiesMethod(kind: BagKind)

  /** One adapter method together with its arguments. */
  datatype Request =
    | TrackEventRequest(eventName: string, eventProperties: Bag, persistentEventProperties: Bag,
                        sessionProperties: Bag, userProperties: Bag, trackingParams: Option<TrackingParams>)
    | IdentifyUserRequest(userId: Value)
    | SetPropertiesRequest(kind: BagKind, properties: Bag)
  {
    function Method(): MethodName
    {
      match this
      case TrackEventRequest(_, _, _, _, _, _) => TrackEventMethod
      case IdentifyUserRequest(_) => IdentifyUserMethod
      case SetPropertiesRequest(kind, _) => SetPropertiesMethod(kind)
    }
  }

  /** An entry of the call log: slot `slot`, holding `engine`, received `request`. */
  datatype Call = Call(slot: nat, engine: EngineId, request: Request)

  /** The adapter in `slot` throws when its method `name` is called. */
  datatype Fault = Fault(slot: nat, name: MethodName)

  /** How a broadcast ended: every slot was called, or an exception escaped at
      `slot` (a `TypeError` on an empty slot, or the adapter's own error). */
  datatype Outcome = Completed | Aborted(slot: nat)

  /** The broadcast gets past slot `i`. */
  predicate Passes(engines: seq<Slot>, faults: set<Fault>, name: MethodName, i: nat)
    requires i < |engines|
  {
    engines[i].Some? && Fault(i, name) !in faults
  }

  /** The first slot at or after `i` where a broadcast of `name` stops, or
      `|engines|` when it gets through. */
  function FirstStop(engines: seq<Slot>, faults: set<Fault>, name: MethodName, i: nat): (k: nat)
    requires i <= |engines|
    ensures i <= k <= |engines|
    ensures forall j :: i <= j < k ==> Passes(engines, faults, name, j)
    ensures k < |engines| ==> !Passes(engines, faults, name, k)
    decreases |engines| - i
  {
    if i == |engines| || !Passes(engines, faults, name, i) then i
    else FirstStop(engines, faults, name, i + 1)
  }

  /** The outcome of broadcasting `name` over the slots. */
  function BroadcastOutcome(engines: seq<Slot>, faults: set<Fault>, name: MethodName): Outcome
  {
    var k := FirstStop(engines, faults, name, 0);
    if k == |engines| then Completed else Aborted(k)
  }

  /** The number of calls a broadcast makes: every slot before the stop, and
      the stopping slot too when it holds an adapter (that adapter threw). */
  function CallCount(engines: seq<Slot>, faults: set<Fault>, name: MethodName): nat
  {
    var k := FirstStop(engines, faults, name, 0);
    if k < |engines| && engines[k].Some? then k + 1 else k
  }

  /** The calls a broadcast of `request` makes, in the order it makes them.
      Every called slot holds an adapter (`DeliveredToAdapters`), so the
      engine id `0` of the else-branch never appears in a log. */
  function Delivered(engines: seq<Slot>, faults: set<Fault>, request: Request): (r: seq<Call>)
  {
    var n := CallCount(engines, faults, request.Method());
    seq(n, i requires 0 <= i < n => Call(i, if i < |engines| && engines[i].Some? then engines[i].value else 0, request))
  }

  /** Each call of a broadcast goes to its own slot, which holds an adapter,
      and carries that adapter's id. */
  lemma DeliveredToAdapters(engines: seq<Slot>, faults: set<Fault>, request: Request)
    ensures |Delivered(engines, faults, request)| <= |engines|
    ensures forall i :: 0 <= i < |Delivered(engines, faults, request)| ==>
              engines[i].Some? && Delivered(engines, faults, request)[i] == Call(i, engines[i].value, request)
  {
    var r := Delivered(engines, faults, request);
    var k := FirstStop(engines, faults, request.Method(), 0);
    forall i | 0 <= i < |r|
      ensures engines[i].Some? && r[i] == Call(i, engines[i].value, request)
    {
      if i < k {
        assert Passes(engines, faults, request.Method(), i);
      }
    }
  }

  /** The number of calls slot `i` receives in a log. */
  function CallsTo(calls: seq<Call>, i: nat): nat
  {
    |set j | 0 <= j < |calls| && calls[j].slot == i|
  }

  /** A completed broadcast calls every slot exactly once, in slot order, each
      with the same request. */
  lemma CompletedBroadcastReachesAll(engines: seq<Slot>, faults: set<Fault>, request: Request)
    requires BroadcastOutcome(engines, faults, request.Method()) == Completed
    ensures |Delivered(engines, faults, request)| == |engines|
    ensures forall i :: 0 <= i < |engines| ==>
              engines[i].Some? && Delivered(engines, faults, request)[i] == Call(i, engines[i].value, request)
    ensures forall i :: 0 <= i < |engines| ==> CallsTo(Delivered(engines, faults, request), i) == 1
  {
    var r := Delivered(engines, faults, request);
    var k := FirstStop(engines, faults, request.Method(), 0);
    assert k == |engines| == |r|;
    forall i | 0 <= i < |engines|
      ensures engines[i].Some? && r[i] == Call(i, engines[i].value, request)
    {
      assert Passes(engines, faults, request.Method(), i);
    }
    forall i | 0 <= i < |engines| ensures CallsTo(r, i) == 1 {
      assert (set j | 0 <= j < |r| && r[j].slot == i) == {i};
    }
  }

  /** A broadcast aborted at slot `k` has called each earlier slot once, slot
      `k` once exactly when it holds an adapter, and no later slot. */
  lemma AbortedBroadcastStops(engines: seq<Slot>, faults: set<Fault>, request: Request, k: nat)
    requires BroadcastOutcome(engines, faults, request.Method()) == Aborted(k)
    ensures k < |engines|
    ensures engines[k].None? || Fault(k, request.Method()) in faults
    ensures forall i :: 0 <= i < k ==> CallsTo(Delivered(engines, faults, request), i) == 1
    ensures CallsTo(Delivered(engines, faults, request), k) == if engines[k].Some? then 1 else 0
    ensures forall i :: k < i ==> CallsTo(Delivered(engines, faults, request), i) == 0
  {
    var r := Delivered(engines, faults, request);
    forall i | 0 <= i < k ensures CallsTo(r, i) == 1 {
      assert (set j | 0 <= j < |r| && r[j].slot == i) == {i};
    }
    if engines[k].Some? {
      assert (set j | 0 <= j < |r| && r[j].slot == k) == {k};
    } else {
      assert (set j | 0 <= j < |r| && r[j].slot == k) == {};
    }
    forall i | k < i ensures CallsTo(r, i) == 0 {
      assert (set j | 0 <= j < |r| && r[j].slot == i) == {};
    }
  }

  /** A slot left empty by a failed registration makes every later broadcast
      abort no later than that slot, whatever the adapters do. */
  lemma EmptySlotAbortsBroadcast(engines: seq<Slot>, faults: set<Fault>, name: MethodName, j: nat)
    requires j < |engines| && engines[j].None?
    ensures BroadcastOutcome(engines, faults, name).Aborted?
    ensures BroadcastOutcome(engines, faults, name).slot <= j
  {
    var k := FirstStop(engines, faults, name, 0);
    assert j < k ==> Passes(engines, faults, name, j);
  }

  /** With no slots a broadcast calls nobody and completes. */
  lemma EmptyRegistryBroadcast(faults: set<Fault>, request: Request)
    ensures Delivered([], faults, request) == [] && BroadcastOutcome([], faults, request.Method()) == Completed
  {
  }

  /** Engine configuration as `init` reads it: `analyticsParams[name].enabled`;
      the engine-specific parameters are the adapter's business. */
  datatype EngineConfig = EngineConfig(enabled: bool)

  /** An entry of the table of available engines, in its iteration order: its
      name, whether a constructor is registered for it, and what calling that
      constructor does. */
  datatype AvailableEngine = AvailableEngine(name: string, hasConstructor: bool, construction: Construction)

  /** The constructor stored under `name` in the table of available engines,
      if any: JavaScript property lookup on the table. */
  function Lookup(available: seq<AvailableEngine>, name: string): Option<AvailableEngine>
    decreases |available|
  {
    if available == [] then None
    else if available[0].name == name then Some(available[0])
    else Lookup(available[1..], name)
  }

  /** `availableEngines[name] = constructor` on the table in iteration order:
      an existing name is overwritten where it stands, a new one goes last. */
  function WithAvailableEngine(available: seq<AvailableEngine>, e: AvailableEngine): (r: seq<AvailableEngine>)
    ensures e in r
    ensures |available| <= |r| <= |available| + 1
    decreases |available|
  {
    if available == [] then [e]
    else if available[0].name == e.name then [e] + available[1..]
    else [available[0]] + WithAvailableEngine(available[1..], e)
  }

  /** Storing a constructor behaves as a map update: the name now looks up the
      new entry and every other name looks up what it did before. */
  lemma {:induction false} AddAvailableEngineLookup(available: seq<AvailableEngine>, e: AvailableEngine, name: string)
    ensures Lookup(WithAvailableEngine(available, e), name)
            == if name == e.name then Some(e) else Lookup(available, name)
    decreases |available|
  {
    if available != [] && available[0].name != e.name {
      AddAvailableEngineLookup(available[1..], e, name);
    }
  }

  /** Overwriting an existing name keeps the iteration order and the length:
      every other entry stays at its position and the new entry takes the
      place of the first one with its name. A new name is appended. */
  lemma {:induction false} AddAvailableEngineOrder(available: seq<AvailableEngine>, e: AvailableEngine)
    ensures Lookup(available, e.name).Some? ==> |WithAvailableEngine(available, e)| == |available|
    ensures Lookup(available, e.name).None? ==> WithAvailableEngine(available, e) == available + [e]
    ensures forall i :: 0 <= i < |available| && available[i].name != e.name ==>
              WithAvailableEngine(available, e)[i] == available[i]
    ensures forall i ::
              (0 <= i < |available| && available[i].name == e.name &&
               (forall j :: 0 <= j < i ==> available[j].name != e.name)) ==>
              WithAvailableEngine(available, e)[i] == e
    decreases |available|
  {
    if available != [] && available[0].name != e.name {
      AddAvailableEngineOrder(available[1..], e);
      assert available == [available[0]] + available[1..];
      var r := WithAvailableEngine(available, e);
      forall i | 1 <= i < |available| && available[i].name == e.name &&
                 (forall j :: 0 <= j < i ==> available[j].name != e.name)
        ensures r[i] == e
      {
        assert available[1..][i - 1].name == e.name;
        assert forall j :: 0 <= j < i - 1 ==> available[1..][j].name != e.name;
      }
    }
  }

  /** The guard `init` puts on each available engine. */
  predicate IsEnabled(e: AvailableEngine, configs: map<string, EngineConfig>)
  {
    e.name in configs && configs[e.name].enabled && e.hasConstructor
  }

  /** The available engines `init` registers, in iteration order. */
  function Enabled(available: seq<AvailableEngine>, configs: map<string, EngineConfig>): (r: seq<AvailableEngine>)
    ensures |r| <= |available|
    decreases |available|
  {
    if available == [] then []
    else
      var last := available[|available| - 1];
      Enabled(available[..|available| - 1], configs) + (if IsEnabled(last, configs) then [last] else [])
  }

  /** `init` registers exactly the available engines that pass its guard. */
  lemma {:induction false} EnabledFilters(available: seq<AvailableEngine>, configs: map<string, EngineConfig>, e: AvailableEngine)
    ensures e in Enabled(available, configs) <==> e in available && IsEnabled(e, configs)
    decreases |available|
  {
    if available != [] {
      var front := available[..|available| - 1];
      EnabledFilters(front, configs, e);
      assert available == front + [available[|available| - 1]];
    }
  }

  /** The slots a sequence of registrations appends. */
  function RegisteredSlots(es: seq<AvailableEngine>): seq<Slot>
    decreases |es|
  {
    if es == [] then []
    else RegisteredSlots(es[..|es| - 1]) + [SlotOf(es[|es| - 1].construction)]
  }

  /** One slot per registration, in order, each holding what its constructor
      produced. */
  lemma {:induction false} RegisteredSlotsAt(es: seq<AvailableEngine>)
    ensures |RegisteredSlots(es)| == |es|
    ensures forall i :: 0 <= i < |es| ==> RegisteredSlots(es)[i] == SlotOf(es[i].construction)
    decreases |es|
  {
    if es != [] {
      RegisteredSlotsAt(es[..|es| - 1]);
    }
  }

  /** The diagnostics a sequence of registrations logs. */
  function FailureLog(es: seq<AvailableEngine>): seq<LogEntry>
    decreases |es|
  {
    if es == [] then []
    else
      var last := es[|es| - 1];
      FailureLog(es[..|es| - 1]) + (if last.construction.Threw? then [RegistrationFailure(last.name, None)] else [])
  }

  /** The slots `init` appends while it walks the available engines. */
  function InitSlots(available: seq<AvailableEngine>, configs: map<string, EngineConfig>): seq<Slot>
    decreases |available|
  {
    if available == [] then []
    else
      var last := available[|available| - 1];
      InitSlots(available[..|available| - 1], configs)
        + (if IsEnabled(last, configs) then [SlotOf(last.construction)] else [])
  }

  /** The diagnostics `init` logs while it walks the available engines. */
  function InitLog(available: seq<AvailableEngine>, configs: map<string, EngineConfig>): seq<LogEntry>
    decreases |available|
  {
    if available == [] then []
    else
      var last := available[|available| - 1];
      InitLog(available[..|available| - 1], configs)
        + (if IsEnabled(last, configs) && last.construction.Threw? then [RegistrationFailure(last.name, None)] else [])
  }

  /** Looking at one more available engine. */
  lemma InitSnoc(available: seq<AvailableEngine>, configs: map<string, EngineConfig>, i: nat)
    requires i < |available|
    ensures InitSlots(available[..i + 1], configs)
            == InitSlots(available[..i], configs)
               + (if IsEnabled(available[i], configs) then [SlotOf(available[i].construction)] else [])
    ensures InitLog(available[..i + 1], configs)
            == InitLog(available[..i], configs)
               + (if IsEnabled(available[i], configs) && available[i].construction.Threw?
                  then [RegistrationFailure(available[i].name, None)] else [])
  {
    assert available[..i + 1][..i] == available[..i];
  }

  /** Registering one more engine. */
  lemma RegistrationSnoc(es: seq<AvailableEngine>, e: AvailableEngine)
    ensures RegisteredSlots(es + [e]) == RegisteredSlots(es) + [SlotOf(e.construction)]
    ensures FailureLog(es + [e])
            == FailureLog(es) + (if e.construction.Threw? then [RegistrationFailure(e.name, None)] else [])
  {
    assert (es + [e])[..|es|] == es;
  }

  /** Walking the available engines registers, one after the other, exactly
      the engines that pass the guard. */
  lemma {:induction false} InitRegistersEnabled(available: seq<AvailableEngine>, configs: map<string, EngineConfig>)
    ensures InitSlots(available, configs) == RegisteredSlots(Enabled(available, configs))
    ensures InitLog(available, configs) == FailureLog(Enabled(available, configs))
    decreases |available|
  {
    if available != [] {
      var front := available[..|available| - 1];
      var last := available[|available| - 1];
      InitRegistersEnabled(front, configs);
      if IsEnabled(last, configs) {
        assert Enabled(available, configs) == Enabled(front, configs) + [last];
        RegistrationSnoc(Enabled(front, configs), last);
      } else {
        assert Enabled(available, configs) == Enabled(front, configs);
      }
    }
  }

  /** The number of empty slots. */
  function EmptySlots(slots: seq<Slot>): nat
    decreases |slots|
  {
    if slots == [] then 0
    else EmptySlots(slots[..|slots| - 1]) + (if slots[|slots| - 1].None? then 1 else 0)
  }

  /** Registration keeps its bookkeeping in step: one diagnostic per empty slot. */
  lemma {:induction false} OneDiagnosticPerEmptySlot(es: seq<AvailableEngine>)
    ensures |FailureLog(es)| == EmptySlots(RegisteredSlots(es))
    decreases |es|
  {
    if es != [] {
      var front := es[..|es| - 1];
      OneDiagnosticPerEmptySlot(front);
      var slots := RegisteredSlots(front) + [SlotOf(es[|es| - 1].construction)];
      assert slots[..|slots| - 1] == RegisteredSlots(front);
    }
  }
}
