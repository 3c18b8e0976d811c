/** The analytics manager: one stateful object that holds the property bags,
    the previous-event trail, the session start and the engine slots, and fans
    every event and property change out to the registered engines. Calls made
    to engines are recorded in the ghost log `calls`; diagnostics written to
    the logging sink are recorded in the ghost log `log`. */
module Analytics {
  import opened Values
  import opened PropertyStore
  import opened EventHistory
  import opened SessionClock
  import opened EngineRegistry

  /** The options `init` reads. An absent option is given as its default:
      `false`, `false`, `""` and an empty table. */
  datatype AnalyticsParams = AnalyticsParams(
    engines: map<string, EngineConfig>,
    trackPrevEventInformation: bool,
    trackPayers: bool,
    paymentEvent: string,
    propertyNamesMap: NameMap)

  /** The bag `trackEvent` writes into the user properties of a payer. */
  const PayerProperties: Bag := map["isPayer" := Bool(true)]

  class AnalyticsManager {
    var engines: seq<Slot>
    var sessionStartTime: Option<int>
    var lastEventName: Option<string>
    var lastEventDescription: Option<string>
    var lastEventSessionTime: Option<int>
    var lastMajorEventName: Option<string>
    var lastMajorEventDescription: Option<string>
    var eventProperties: Bag
    var persistentEventProperties: Bag
    var sessionProperties: Bag
    var userProperties: Bag
    var propertyNamesMap: NameMap
    var trackPrevEventInformation: bool
    var trackPayers: bool
    var paymentEvent: string
    /** Every adapter call made so far, in order. */
    ghost var calls: seq<Call>
    /** Every registration diagnostic written so far, in order. */
    ghost var log: seq<LogEntry>

    /** The five history fields as one value. */
    function HistoryOf(): History
      reads this`lastEventName, this`lastEventDescription, this`lastEventSessionTime,
            this`lastMajorEventName, this`lastMajorEventDescription
    {
      History(lastEventName, lastEventDescription, lastEventSessionTime,
              lastMajorEventName, lastMajorEventDescription)
    }

    /** The object invariant: the trail holds a consistent history. */
    ghost predicate Valid()
      reads this`lastEventName, this`lastEventDescription, this`lastEventSessionTime,
            this`lastMajorEventName, this`lastMajorEventDescription
    {
      HistoryOf().Consistent()
    }

    /** The bag of the given kind. */
    function PropertiesOf(kind: BagKind): Bag
      reads this`persistentEventProperties, this`sessionProperties, this`userProperties
    {
      match kind
      case PersistentEventProperties => persistentEventProperties
      case SessionProperties => sessionProperties
      case UserProperties => userProperties
    }

    /** The state of a freshly constructed manager (`init` not yet called). */
    ghost predicate Initial()
      reads this
    {
      && engines == [] && sessionStartTime.None? && HistoryOf() == NoHistory
      && eventProperties == map[] && persistentEventProperties == map[]
      && sessionProperties == map[] && userProperties == map[] && propertyNamesMap == map[]
      && !trackPrevEventInformation && !trackPayers && paymentEvent == ""
      && calls == [] && log == []
    }

    constructor ()
      ensures Valid() && Initial()
    {
      engines := [];
      sessionStartTime := None;
      lastEventName := None;
      lastEventDescription := None;
      lastEventSessionTime := None;
      lastMajorEventName := None;
      lastMajorEventDescription := None;
      eventProperties := map[];
      persistentEventProperties := map[];
      sessionProperties := map[];
      userProperties := map[];
      propertyNamesMap := map[];
      trackPrevEventInformation := false;
      trackPayers := false;
      paymentEvent := "";
      calls := [];
      log := [];
    }

    /* Initialization */

    /** `registerAnalyticsEngine`: exactly one slot is appended per attempt,
        the engine on success and an empty slot on failure; a failure also
        writes exactly one diagnostic. */
    method RegisterAnalyticsEngine(engine: string, token: Option<string>, construction: Construction)
      modifies this`engines, this`log
      ensures engines == old(engines) + [SlotOf(construction)]
      ensures construction.Threw? ==> log == old(log) + [RegistrationFailure(engine, token)]
      ensures construction.Constructed? ==> log == old(log)
    {
      var analyticsEngine: Slot := None;
      match construction {
        case Constructed(id) =>
          analyticsEngine := Some(id);
        case Threw =>
          OnRegisterAnalyticsEngineFailure(engine, token);
      }
      engines := engines + [analyticsEngine];
    }

    /** `onRegisterAnalyticsEngineFailure`: one diagnostic for the sink. */
    method OnRegisterAnalyticsEngineFailure(engine: string, token: Option<string>)
      modifies this`log
      ensures log == old(log) + [RegistrationFailure(engine, token)]
    {
      log := log + [RegistrationFailure(engine, token)];
    }

    /** `init`: registers, in iteration order, every available engine that has
        a constructor and is enabled in `params`, then stores the options. */
    method Init(available: seq<AvailableEngine>, params: AnalyticsParams)
      modifies this`engines, this`log, this`trackPrevEventInformation, this`trackPayers,
               this`paymentEvent, this`propertyNamesMap
      ensures engines == old(engines) + RegisteredSlots(Enabled(available, params.engines))
      ensures log == old(log) + FailureLog(Enabled(available, params.engines))
      ensures trackPrevEventInformation == params.trackPrevEventInformation
      ensures trackPayers == params.trackPayers
      ensures paymentEvent == params.paymentEvent
      ensures propertyNamesMap == params.propertyNamesMap
    {
      ghost var engines0, log0 := engines, log;
      for i := 0 to |available|
        invariant engines == engines0 + InitSlots(available[..i], params.engines)
        invariant log == log0 + InitLog(available[..i], params.engines)
      {
        var e := available[i];
        InitSnoc(available, params.engines, i);
        if e.name in params.engines && params.engines[e.name].enabled && e.hasConstructor {
          RegisterAnalyticsEngine(e.name, None, e.construction);
        }
      }
      assert available[..|available|] == available;
      InitRegistersEnabled(available, params.engines);
      trackPrevEventInformation := params.trackPrevEventInformation;
      trackPayers := params.trackPayers;
      paymentEvent := params.paymentEvent;
      propertyNamesMap := params.propertyNamesMap;
    }

    /** `setSessionStartTime`: the last call wins. */
    method SetSessionStartTime(start: Option<int>)
      modifies this`sessionStartTime
      ensures sessionStartTime == start
    {
      sessionStartTime := start;
    }

    /* Properties */

    /** `renameProperties`: one pass over a snapshot of the keys, in an
        unspecified order; each key with a truthy entry in `propertyNamesMap`
        is deleted and its value written under the entry. */
    method RenameProperties(target: Bag) returns (r: Bag)
      ensures RenameOutcome(target, propertyNamesMap, r)
      ensures |r| <= |target|
    {
      var keyOverrideMap := propertyNamesMap;
      r := target;
      var pending := target.Keys;
      ghost var visited: set<string> := {};
      RenamePassStart(target, keyOverrideMap);
      while pending != {}
        invariant RenamePass(target, keyOverrideMap, r, pending, visited)
        decreases pending
      {
        var key :| key in pending;
        if Renames(keyOverrideMap, key) {
          RenamePassMove(target, keyOverrideMap, r, pending, visited, key);
          var value := r[key];
          r := r - {key};
          r := r[keyOverrideMap[key] := value];
        } else {
          RenamePassSkip(target, keyOverrideMap, r, pending, visited, key);
        }
        pending := pending - {key};
        visited := visited + {key};
      }
      RenamePassDone(target, keyOverrideMap, r, visited);
    }

    /** `setProperties`: copy the source into the target, then rename the
        whole target. */
    method SetProperties(target: Bag, source: Bag) returns (r: Bag)
      ensures RenameOutcome(Merge(target, source), propertyNamesMap, r)
    {
      r := RenameProperties(Merge(target, source));
    }

    /** `setEventProperties`: merged and renamed, but not broadcast. */
    method SetEventProperties(properties: Bag)
      modifies this`eventProperties
      ensures RenameOutcome(Merge(old(eventProperties), properties), propertyNamesMap, eventProperties)
    {
      eventProperties := SetProperties(eventProperties, properties);
    }

    /** `resetEventProperties`: a fresh empty bag replaces the old one, so a
        bag already handed to the engines stays as it was. */
    method ResetEventProperties()
      modifies this`eventProperties
      ensures eventProperties == map[]
    {
      eventProperties := map[];
    }

    /** `setPropertiesAndAlsoInEngines`: merge into the bag of the given kind,
        then send every engine the whole resulting bag, not the delta. */
    method SetPropertiesAndAlsoInEngines(kind: BagKind, source: Bag, faults: set<Fault>) returns (outcome: Outcome)
      modifies this`persistentEventProperties, this`sessionProperties, this`userProperties, this`calls
      ensures RenameOutcome(Merge(old(PropertiesOf(kind)), source), propertyNamesMap, PropertiesOf(kind))
      ensures kind != PersistentEventProperties ==> persistentEventProperties == old(persistentEventProperties)
      ensures kind != SessionProperties ==> sessionProperties == old(sessionProperties)
      ensures kind != UserProperties ==> userProperties == old(userProperties)
      ensures calls == old(calls) + Delivered(engines, faults, SetPropertiesRequest(kind, PropertiesOf(kind)))
      ensures outcome == BroadcastOutcome(engines, faults, SetPropertiesMethod(kind))
    {
      var newProperties := SetProperties(PropertiesOf(kind), source);
      outcome := StoreAndBroadcast(kind, newProperties, faults);
    }

    /** The merged bag replaces the bag of its kind (in the source the merge
        happens in place, on the object the field holds), then every slot
        receives the whole bag. */
    method StoreAndBroadcast(kind: BagKind, properties: Bag, faults: set<Fault>) returns (outcome: Outcome)
      modifies this`persistentEventProperties, this`sessionProperties, this`userProperties, this`calls
      ensures PropertiesOf(kind) == properties
      ensures kind != PersistentEventProperties ==> persistentEventProperties == old(persistentEventProperties)
      ensures kind != SessionProperties ==> sessionProperties == old(sessionProperties)
      ensures kind != UserProperties ==> userProperties == old(userProperties)
      ensures calls == old(calls) + Delivered(engines, faults, SetPropertiesRequest(kind, properties))
      ensures outcome == BroadcastOutcome(engines, faults, SetPropertiesMethod(kind))
    {
      match kind {
        case PersistentEventProperties => persistentEventProperties := properties;
        case SessionProperties => sessionProperties := properties;
        case UserProperties => userProperties := properties;
      }
      if |engines| == 0 {
        outcome := Completed;
        return;
      }
      outcome := FanOut(SetPropertiesRequest(kind, properties), faults);
    }

    /** `setPersistentEventProperties`, modelled as a method of the instance
        like its two siblings. */
    method SetPersistentEventProperties(properties: Bag, faults: set<Fault>) returns (outcome: Outcome)
      modifies this`persistentEventProperties, this`sessionProperties, this`userProperties, this`calls
      ensures RenameOutcome(Merge(old(persistentEventProperties), properties), propertyNamesMap, persistentEventProperties)
      ensures sessionProperties == old(sessionProperties) && userProperties == old(userProperties)
      ensures calls == old(calls) + Delivered(engines, faults,
                SetPropertiesRequest(PersistentEventProperties, persistentEventProperties))
      ensures outcome == BroadcastOutcome(engines, faults, SetPropertiesMethod(PersistentEventProperties))
    {
      outcome := SetPropertiesAndAlsoInEngines(PersistentEventProperties, properties, faults);
      assert PropertiesOf(SessionProperties) == old(PropertiesOf(SessionProperties));
      assert PropertiesOf(UserProperties) == old(PropertiesOf(UserProperties));
    }

    /** `setSessionProperties`. */
    method SetSessionProperties(properties: Bag, faults: set<Fault>) returns (outcome: Outcome)
      modifies this`persistentEventProperties, this`sessionProperties, this`userProperties, this`calls
      ensures RenameOutcome(Merge(old(sessionProperties), properties), propertyNamesMap, sessionProperties)
      ensures persistentEventProperties == old(persistentEventProperties) && userProperties == old(userProperties)
      ensures calls == old(calls) + Delivered(engines, faults, SetPropertiesRequest(SessionProperties, sessionProperties))
      ensures outcome == BroadcastOutcome(engines, faults, SetPropertiesMethod(SessionProperties))
    {
      outcome := SetPropertiesAndAlsoInEngines(SessionProperties, properties, faults);
      assert PropertiesOf(PersistentEventProperties) == old(PropertiesOf(PersistentEventProperties));
      assert PropertiesOf(UserProperties) == old(PropertiesOf(UserProperties));
    }

    /** `setUserProperties`. */
    method SetUserProperties(properties: Bag, faults: set<Fault>) returns (outcome: Outcome)
      modifies this`persistentEventProperties, this`sessionProperties, this`userProperties, this`calls
      ensures RenameOutcome(Merge(old(userProperties), properties), propertyNamesMap, userProperties)
      ensures persistentEventProperties == old(persistentEventProperties) && sessionProperties == old(sessionProperties)
      ensures calls == old(calls) + Delivered(engines, faults, SetPropertiesRequest(UserProperties, userProperties))
      ensures outcome == BroadcastOutcome(engines, faults, SetPropertiesMethod(UserProperties))
    {
      outcome := SetPropertiesAndAlsoInEngines(UserProperties, properties, faults);
      assert PropertiesOf(PersistentEventProperties) == old(PropertiesOf(PersistentEventProperties));
      assert PropertiesOf(SessionProperties) == old(PropertiesOf(SessionProperties));
    }

    /* Broadcast */

    /** Calls `request` on every slot in index order; an empty slot or an
        adapter listed in `faults` ends the loop with the exception. */
    method FanOut(request: Request, faults: set<Fault>) returns (outcome: Outcome)
      modifies this`calls
      ensures calls == old(calls) + Delivered(engines, faults, request)
      ensures outcome == BroadcastOutcome(engines, faults, request.Method())
    {
      var numOfEngines := |engines|;
      var name := request.Method();
      ghost var stop := FirstStop(engines, faults, name, 0);
      var i := 0;
      while i < numOfEngines
        invariant 0 <= i <= stop
        invariant FirstStop(engines, faults, name, i) == stop
        invariant calls == old(calls) + Delivered(engines, faults, request)[..i]
      {
        match engines[i] {
          case None =>
            outcome := Aborted(i);
            assert calls == old(calls) + Delivered(engines, faults, request);
            return;
          case Some(id) =>
            calls := calls + [Call(i, id, request)];
            if Fault(i, name) in faults {
              outcome := Aborted(i);
              assert calls == old(calls) + Delivered(engines, faults, request);
              return;
            }
            ghost var d := Delivered(engines, faults, request);
            assert i < stop && d[i] == Call(i, id, request);
            assert d[..i + 1] == d[..i] + [d[i]];
        }
        i := i + 1;
      }
      outcome := Completed;
      assert calls == old(calls) + Delivered(engines, faults, request);
    }

    /* Tracking one event */

    /** What `trackEvent` leaves behind once the decorated bag `dispatched`
        has been built, given the call log `calls0`, the user bag `user0` and
        the history `history0` from before the call: every slot is sent the
        event in order; an exception stops everything there, with the
        decorated bag left in the field; otherwise the event bag is reset, the
        history moves on when tracking is on, and the payment event flags a
        payer and broadcasts the user bag. */
    ghost predicate TrackedEvent(eventName: string, trackingParams: Option<TrackingParams>, faults: set<Fault>,
                                 dispatched: Bag, outcome: Outcome,
                                 calls0: seq<Call>, user0: Bag, history0: History)
      reads this
    {
      var track := TrackEventRequest(eventName, dispatched, persistentEventProperties,
                                     sessionProperties, user0, trackingParams);
      var first := BroadcastOutcome(engines, faults, TrackEventMethod);
      && (first.Aborted? ==>
            && outcome == first && calls == calls0 + Delivered(engines, faults, track)
            && eventProperties == dispatched && HistoryOf() == history0
            && userProperties == user0)
      && (first.Completed? ==>
            && eventProperties == map[]
            && HistoryOf() == (if trackPrevEventInformation
                               then NextHistory(history0, eventName, trackingParams)
                               else history0)
            && (if trackPayers && paymentEvent == eventName then
                  && RenameOutcome(Merge(user0, PayerProperties), propertyNamesMap, userProperties)
                  && calls == calls0 + Delivered(engines, faults, track)
                              + Delivered(engines, faults, SetPropertiesRequest(UserProperties, userProperties))
                  && outcome == BroadcastOutcome(engines, faults, SetPropertiesMethod(UserProperties))
                else
                  && userProperties == user0
                  && calls == calls0 + Delivered(engines, faults, track)
                  && outcome == Completed))
    }

    /** `trackEvent`. Nothing happens without engines or without a name.
        Otherwise the event bag is merged and renamed, then decorated with the
        trail and `SessionTime` (so those keys are never renamed), sent with
        the other three bags to every slot in order, reset, recorded in the
        history, and finally a payer is flagged in the user properties. An
        exception escaping an engine ends the call where it happens. */
    method TrackEvent(eventName: string, properties: Bag, trackingParams: Option<TrackingParams>,
                      now: int, faults: set<Fault>)
      returns (outcome: Outcome, ghost renamed: Bag, ghost dispatched: Bag)
      requires Valid()
      modifies this`eventProperties, this`calls, this`lastEventName, this`lastEventDescription,
               this`lastMajorEventName, this`lastMajorEventDescription,
               this`persistentEventProperties, this`sessionProperties, this`userProperties
      ensures Valid()
      ensures persistentEventProperties == old(persistentEventProperties)
      ensures sessionProperties == old(sessionProperties)
      // the guard
      ensures |engines| == 0 || eventName == "" ==>
                && outcome == Completed && calls == old(calls)
                && eventProperties == old(eventProperties) && HistoryOf() == old(HistoryOf())
                && userProperties == old(userProperties)
      // the dispatched bag
      ensures |engines| > 0 && eventName != "" ==>
                && RenameOutcome(Merge(old(eventProperties), properties), propertyNamesMap, renamed)
                && dispatched == WithSessionTime(
                     WithLastEventInformation(renamed, trackPrevEventInformation, old(HistoryOf())),
                     sessionStartTime, now)
      // the fan-out and what follows it
      ensures |engines| > 0 && eventName != "" ==>
                TrackedEvent(eventName, trackingParams, faults, dispatched, outcome,
                             old(calls), old(userProperties), old(HistoryOf()))
    {
      var numOfEngines := |engines|;
      if numOfEngines == 0 || eventName == "" {
        outcome, renamed, dispatched := Completed, map[], map[];
        return;
      }

      SetEventProperties(properties);
      renamed := eventProperties;
      outcome, dispatched := DispatchEvent(eventName, trackingParams, now, faults);
    }

    /** `trackEvent` from the decoration of the merged event bag on. */
    method DispatchEvent(eventName: string, trackingParams: Option<TrackingParams>, now: int, faults: set<Fault>)
      returns (outcome: Outcome, ghost dispatched: Bag)
      requires Valid() && eventName != "" && |engines| > 0
      modifies this`eventProperties, this`calls, this`lastEventName, this`lastEventDescription,
               this`lastMajorEventName, this`lastMajorEventDescription,
               this`persistentEventProperties, this`sessionProperties, this`userProperties
      ensures Valid()
      ensures persistentEventProperties == old(persistentEventProperties)
      ensures sessionProperties == old(sessionProperties)
      ensures dispatched == WithSessionTime(
                WithLastEventInformation(old(eventProperties), trackPrevEventInformation, old(HistoryOf())),
                sessionStartTime, now)
      // the fan-out and what follows it
      ensures TrackedEvent(eventName, trackingParams, faults, dispatched, outcome,
                           old(calls), old(userProperties), old(HistoryOf()))
    {
      DecorateEventProperties(now);
      var allEventProperties := eventProperties;
      dispatched := allEventProperties;

      var track := TrackEventRequest(eventName, allEventProperties, persistentEventProperties,
                                     sessionProperties, userProperties, trackingParams);
      outcome := FanOut(track, faults);
      if outcome.Aborted? {
        return;
      }

      outcome := FinishEvent(eventName, trackingParams, faults);
    }

    /** `addLastEventInformationTo` and then `addSessionTimeTo`, applied to
        the event bag: `allEventProperties` is the same object as the field,
        so the decorations land in the field as well. */
    method DecorateEventProperties(now: int)
      modifies this`eventProperties
      ensures eventProperties == WithSessionTime(
                WithLastEventInformation(old(eventProperties), trackPrevEventInformation, HistoryOf()),
                sessionStartTime, now)
    {
      eventProperties := WithLastEventInformation(eventProperties, trackPrevEventInformation, HistoryOf());
      eventProperties := WithSessionTime(eventProperties, sessionStartTime, now);
    }

    /** What `trackEvent` does once every slot has taken the event: reset the
        event bag, record the event in the history, and flag a payer. */
    method FinishEvent(eventName: string, trackingParams: Option<TrackingParams>, faults: set<Fault>)
      returns (outcome: Outcome)
      requires Valid() && eventName != ""
      modifies this`eventProperties, this`calls, this`lastEventName, this`lastEventDescription,
               this`lastMajorEventName, this`lastMajorEventDescription,
               this`persistentEventProperties, this`sessionProperties, this`userProperties
      ensures Valid()
      ensures persistentEventProperties == old(persistentEventProperties)
      ensures sessionProperties == old(sessionProperties)
      ensures eventProperties == map[]
      ensures HistoryOf() == if trackPrevEventInformation
                             then NextHistory(old(HistoryOf()), eventName, trackingParams)
                             else old(HistoryOf())
      ensures trackPayers && paymentEvent == eventName ==>
                && RenameOutcome(Merge(old(userProperties), PayerProperties), propertyNamesMap, userProperties)
                && calls == old(calls) + Delivered(engines, faults, SetPropertiesRequest(UserProperties, userProperties))
                && outcome == BroadcastOutcome(engines, faults, SetPropertiesMethod(UserProperties))
      ensures !(trackPayers && paymentEvent == eventName) ==>
                userProperties == old(userProperties) && calls == old(calls) && outcome == Completed
    {
      ResetEventProperties();
      UpdateLastEventInformation(eventName, trackingParams);
      outcome := FlagPayer(eventName, faults);
    }

    /** The last step of `trackEvent`: the payment event marks the user as a
        payer, through `setUserProperties`. */
    method FlagPayer(eventName: string, faults: set<Fault>) returns (outcome: Outcome)
      modifies this`calls, this`persistentEventProperties, this`sessionProperties, this`userProperties
      ensures persistentEventProperties == old(persistentEventProperties)
      ensures sessionProperties == old(sessionProperties)
      ensures trackPayers && paymentEvent == eventName ==>
                && RenameOutcome(Merge(old(userProperties), PayerProperties), propertyNamesMap, userProperties)
                && calls == old(calls) + Delivered(engines, faults, SetPropertiesRequest(UserProperties, userProperties))
                && outcome == BroadcastOutcome(engines, faults, SetPropertiesMethod(UserProperties))
      ensures !(trackPayers && paymentEvent == eventName) ==>
                userProperties == old(userProperties) && calls == old(calls) && outcome == Completed
    {
      outcome := Completed;
      if trackPayers && paymentEvent == eventName {
        outcome := SetUserProperties(PayerProperties, faults);
      }
    }

    /** `updateLastEventInformation`: with tracking on, the history moves on
        by `NextHistory`; with it off nothing changes. */
    method UpdateLastEventInformation(eventName: string, trackingParams: Option<TrackingParams>)
      requires Valid() && eventName != ""
      modifies this`lastEventName, this`lastEventDescription, this`lastMajorEventName, this`lastMajorEventDescription
      ensures Valid()
      ensures HistoryOf() == if trackPrevEventInformation
                             then NextHistory(old(HistoryOf()), eventName, trackingParams)
                             else old(HistoryOf())
    {
      if !trackPrevEventInformation {
        return;
      }
      NextHistoryConsistent(HistoryOf(), eventName, trackingParams);
      lastEventName := Some(eventName);
      if trackingParams.Some? && trackingParams.value.eventIsMajor {
        lastMajorEventName := Some(eventName);
      }
      if trackingParams.Some? && Truthy(trackingParams.value.eventDescription) {
        lastEventDescription := trackingParams.value.eventDescription;
        if trackingParams.value.eventIsMajor {
          lastMajorEventDescription := trackingParams.value.eventDescription;
        }
      }
    }

    /* Tracking the user */

    /** `identifyUser`: every slot in order, with no guard at all. */
    method IdentifyUser(userId: Value, faults: set<Fault>) returns (outcome: Outcome)
      modifies this`calls
      ensures calls == old(calls) + Delivered(engines, faults, IdentifyUserRequest(userId))
      ensures outcome == BroadcastOutcome(engines, faults, IdentifyUserMethod)
    {
      outcome := FanOut(IdentifyUserRequest(userId), faults);
    }

    /* Custom handlers */

    /** `onPageLoaded`: the session starts at `start`, the instant read at
        the call, then `"PageLoaded"` is tracked with no properties. The event
        reads the clock again (`now`), so its `SessionTime` is the whole
        seconds between the two reads. */
    method OnPageLoaded(start: int, now: int, faults: set<Fault>)
      returns (outcome: Outcome, ghost renamed: Bag, ghost dispatched: Bag)
      requires Valid()
      modifies this`sessionStartTime, this`eventProperties, this`calls, this`lastEventName,
               this`lastEventDescription, this`lastMajorEventName, this`lastMajorEventDescription,
               this`persistentEventProperties, this`sessionProperties, this`userProperties
      ensures Valid()
      ensures sessionStartTime == Some(start)
      ensures persistentEventProperties == old(persistentEventProperties)
      ensures sessionProperties == old(sessionProperties)
      ensures |engines| == 0 ==>
                && outcome == Completed && calls == old(calls)
                && eventProperties == old(eventProperties) && HistoryOf() == old(HistoryOf())
                && userProperties == old(userProperties)
      ensures |engines| > 0 ==>
                && RenameOutcome(old(eventProperties), propertyNamesMap, renamed)
                && dispatched == WithSessionTime(
                     WithLastEventInformation(renamed, trackPrevEventInformation, old(HistoryOf())),
                     Some(start), now)
                && "SessionTime" in dispatched && dispatched["SessionTime"] == Num(ElapsedSeconds(start, now))
      ensures |engines| > 0 ==>
                TrackedEvent("PageLoaded", None, faults, dispatched, outcome,
                             old(calls), old(userProperties), old(HistoryOf()))
    {
      SetSessionStartTime(Some(start));
      outcome, renamed, dispatched := TrackEvent("PageLoaded", map[], None, now, faults);
      MergeNothing(old(eventProperties));
    }

    /** `onFirstServerResponse`: tracks `"SessionCreated"` with no properties
        of its own, so the bag sent is the pending event bag, renamed and
        decorated. */
    method OnFirstServerResponse(now: int, faults: set<Fault>)
      returns (outcome: Outcome, ghost renamed: Bag, ghost dispatched: Bag)
      requires Valid()
      modifies this`eventProperties, this`calls, this`lastEventName, this`lastEventDescription,
               this`lastMajorEventName, this`lastMajorEventDescription,
               this`persistentEventProperties, this`sessionProperties, this`userProperties
      ensures Valid()
      ensures persistentEventProperties == old(persistentEventProperties)
      ensures sessionProperties == old(sessionProperties)
      ensures |engines| == 0 ==>
                && outcome == Completed && calls == old(calls)
                && eventProperties == old(eventProperties) && HistoryOf() == old(HistoryOf())
                && userProperties == old(userProperties)
      ensures |engines| > 0 ==>
                && RenameOutcome(old(eventProperties), propertyNamesMap, renamed)
                && dispatched == WithSessionTime(
                     WithLastEventInformation(renamed, trackPrevEventInformation, old(HistoryOf())),
                     sessionStartTime, now)
      ensures |engines| > 0 ==>
                TrackedEvent("SessionCreated", None, faults, dispatched, outcome,
                             old(calls), old(userProperties), old(HistoryOf()))
    {
      outcome, renamed, dispatched := TrackEvent("SessionCreated", map[], None, now, faults);
      MergeNothing(old(eventProperties));
    }
  }

  /** The closure's own variables: `defaultInstance`, behind
      `getInstance`/`setInstance`, and `availableEngines`, the table `init`
      walks, in its iteration order. */
  class ModuleState {
    var defaultInstance: AnalyticsManager?
    var availableEngines: seq<AvailableEngine>

    constructor ()
      ensures defaultInstance == null && availableEngines == []
    {
      defaultInstance := null;
      availableEngines := [];
    }

    /** `getInstance`: the stored instance, or a new one that is stored first. */
    method GetInstance() returns (manager: AnalyticsManager)
      modifies this`defaultInstance
      ensures old(defaultInstance) != null ==> manager == old(defaultInstance) && defaultInstance == old(defaultInstance)
      ensures old(defaultInstance) == null ==>
                fresh(manager) && manager.Valid() && manager.Initial() && defaultInstance == manager
    {
      var instance := defaultInstance;
      if instance == null {
        instance := new AnalyticsManager();
        defaultInstance := instance;
      }
      manager := instance;
    }

    /** `setInstance`: the override hook; any instance, or none, replaces the
        stored one. */
    method SetInstance(instance: AnalyticsManager?)
      modifies this`defaultInstance
      ensures defaultInstance == instance
    {
      defaultInstance := instance;
    }

    /** `addAvailableEngine`: stores a constructor under its name. */
    method AddAvailableEngine(name: string, hasConstructor: bool, construction: Construction)
      modifies this`availableEngines
      ensures availableEngines
              == WithAvailableEngine(old(availableEngines), AvailableEngine(name, hasConstructor, construction))
    {
      availableEngines := WithAvailableEngine(availableEngines, AvailableEngine(name, hasConstructor, construction));
    }
  }
}
