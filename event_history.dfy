/** The previous-event trail: what the manager remembers about the last event
    and the last major event, how it decorates the next outgoing event bag
    (`addLastEventInformationTo`) and how a completed dispatch updates it
    (`updateLastEventInformation`). */
module EventHistory {
  import opened Values

  /** The five history fields of the manager. `lastEventSessionTime` starts
      as `null` and nothing ever assigns it. */
  datatype History = History(
    lastEventName: Option<string>,
    lastEventDescription: Option<string>,
    lastEventSessionTime: Option<int>,
    lastMajorEventName: Option<string>,
    lastMajorEventDescription: Option<string>)
  {
    /** What every reachable history satisfies: only truthy names and
        descriptions are stored, a description is only stored together with a
        name, and the session-time field is never set. */
    predicate Consistent()
    {
      && (lastEventName.Some? ==> Truthy(lastEventName))
      && (lastMajorEventName.Some? ==> Truthy(lastMajorEventName))
      && (lastEventDescription.Some? ==> Truthy(lastEventDescription) && lastEventName.Some?)
      && (lastMajorEventDescription.Some? ==> Truthy(lastMajorEventDescription) && lastMajorEventName.Some?)
      && lastEventSessionTime.None?
    }
  }

  /** The history of a freshly constructed manager. */
  const NoHistory := History(None, None, None, None, None)

  /** The keys the trail may add to an event bag. */
  const PrevKeys: set<string> :=
    {"PrevEvent", "PrevEventExt", "PrevEventSessionTime", "PrevMajorEvent", "PrevMajorEventExt"}

  /** String concatenation of JavaScript: `null` and `undefined` print as words.
      `lastEventName` starts out `null`, `lastMajorEventName` `undefined`. */
  function NameText(name: Option<string>, absent: string): string
  {
    if name.Some? then name.value else absent
  }

  /** `addLastEventInformationTo`: each trail key is written only when the
      remembered value behind it is truthy. */
  function WithLastEventInformation(bag: Bag, track: bool, h: History): (r: Bag)
    ensures bag.Keys <= r.Keys <= bag.Keys + PrevKeys
    ensures !track ==> r == bag
  {
    if !track then bag
    else
      var b1 := if Truthy(h.lastEventName) then bag["PrevEvent" := Str(h.lastEventName.value)] else bag;
      var b2 := if Truthy(h.lastEventDescription)
                then b1["PrevEventExt" := Str(NameText(h.lastEventName, "null") + " " + h.lastEventDescription.value)]
                else b1;
      var b3 := if h.lastEventSessionTime.Some? && h.lastEventSessionTime.value != 0
                then b2["PrevEventSessionTime" := Num(h.lastEventSessionTime.value)]
                else b2;
      var b4 := if Truthy(h.lastMajorEventName) then b3["PrevMajorEvent" := Str(h.lastMajorEventName.value)] else b3;
      if Truthy(h.lastMajorEventDescription)
      then b4["PrevMajorEventExt" := Str(NameText(h.lastMajorEventName, "undefined") + " " + h.lastMajorEventDescription.value)]
      else b4
  }

  /** `updateLastEventInformation` when previous-event tracking is on. */
  function NextHistory(h: History, eventName: string, params: Option<TrackingParams>): (r: History)
    ensures r.lastEventName == Some(eventName)
    ensures r.lastEventSessionTime == h.lastEventSessionTime
  {
    var major := params.Some? && params.value.eventIsMajor;
    var description := if params.Some? then params.value.eventDescription else None;
    var h1 := h.(lastEventName := Some(eventName));
    var h2 := if major then h1.(lastMajorEventName := Some(eventName)) else h1;
    if Truthy(description) then
      var h3 := h2.(lastEventDescription := description);
      if major then h3.(lastMajorEventDescription := description) else h3
    else h2
  }

  /** Each trail key is added exactly when tracking is on and the remembered
      field behind it is truthy, and then holds the value stated; otherwise a
      key the bag already had keeps its value. */
  lemma TrailKeyRules(bag: Bag, track: bool, h: History)
    ensures var r := WithLastEventInformation(bag, track, h);
            && ("PrevEvent" in r <==> "PrevEvent" in bag || (track && Truthy(h.lastEventName)))
            && (track && Truthy(h.lastEventName) ==> r["PrevEvent"] == Str(h.lastEventName.value))
            && (!(track && Truthy(h.lastEventName)) && "PrevEvent" in bag ==> r["PrevEvent"] == bag["PrevEvent"])
    ensures var r := WithLastEventInformation(bag, track, h);
            && ("PrevEventExt" in r <==> "PrevEventExt" in bag || (track && Truthy(h.lastEventDescription)))
            && (track && Truthy(h.lastEventDescription) ==>
                  r["PrevEventExt"] == Str(NameText(h.lastEventName, "null") + " " + h.lastEventDescription.value))
            && (!(track && Truthy(h.lastEventDescription)) && "PrevEventExt" in bag ==>
                  r["PrevEventExt"] == bag["PrevEventExt"])
    ensures var r := WithLastEventInformation(bag, track, h);
            var timed := h.lastEventSessionTime.Some? && h.lastEventSessionTime.value != 0;
            && ("PrevEventSessionTime" in r <==> "PrevEventSessionTime" in bag || (track && timed))
            && (track && timed ==> r["PrevEventSessionTime"] == Num(h.lastEventSessionTime.value))
            && (!(track && timed) && "PrevEventSessionTime" in bag ==>
                  r["PrevEventSessionTime"] == bag["PrevEventSessionTime"])
    ensures var r := WithLastEventInformation(bag, track, h);
            && ("PrevMajorEvent" in r <==> "PrevMajorEvent" in bag || (track && Truthy(h.lastMajorEventName)))
            && (track && Truthy(h.lastMajorEventName) ==> r["PrevMajorEvent"] == Str(h.lastMajorEventName.value))
            && (!(track && Truthy(h.lastMajorEventName)) && "PrevMajorEvent" in bag ==>
                  r["PrevMajorEvent"] == bag["PrevMajorEvent"])
    ensures var r := WithLastEventInformation(bag, track, h);
            && ("PrevMajorEventExt" in r <==> "PrevMajorEventExt" in bag || (track && Truthy(h.lastMajorEventDescription)))
            && (track && Truthy(h.lastMajorEventDescription) ==>
                  r["PrevMajorEventExt"] == Str(NameText(h.lastMajorEventName, "undefined") + " "
                                                + h.lastMajorEventDescription.value))
            && (!(track && Truthy(h.lastMajorEventDescription)) && "PrevMajorEventExt" in bag ==>
                  r["PrevMajorEventExt"] == bag["PrevMajorEventExt"])
  {
  }

  /** Every field of the next history: the name always moves on, the major
      name only for a major event, and a description only when it is truthy
      (the major description only for a major event). */
  lemma NextHistoryFields(h: History, eventName: string, params: Option<TrackingParams>)
    ensures var major := params.Some? && params.value.eventIsMajor;
            var description := if params.Some? then params.value.eventDescription else None;
            var n := NextHistory(h, eventName, params);
            && n.lastEventName == Some(eventName)
            && n.lastMajorEventName == (if major then Some(eventName) else h.lastMajorEventName)
            && n.lastEventDescription == (if Truthy(description) then description else h.lastEventDescription)
            && n.lastMajorEventDescription
               == (if major && Truthy(description) then description else h.lastMajorEventDescription)
            && n.lastEventSessionTime == h.lastEventSessionTime
  {
  }

  /** The trail only ever adds its own keys; every other key keeps its value. */
  lemma TrailAddsOnlyPrevKeys(bag: Bag, track: bool, h: History)
    ensures bag.Keys <= WithLastEventInformation(bag, track, h).Keys
    ensures WithLastEventInformation(bag, track, h).Keys <= bag.Keys + PrevKeys
    ensures forall k :: k in bag && k !in PrevKeys ==> WithLastEventInformation(bag, track, h)[k] == bag[k]
  {
  }

  /** With tracking off the bag is passed through untouched. */
  lemma NoTrailWhenUntracked(bag: Bag, h: History)
    ensures WithLastEventInformation(bag, false, h) == bag
  {
  }

  /** The very first tracked event carries no trail. */
  lemma NoTrailOnFirstEvent(bag: Bag, track: bool)
    ensures WithLastEventInformation(bag, track, NoHistory) == bag
  {
  }

  /** `PrevEventSessionTime` is never emitted by itself: the field behind it is
      never set in a reachable history. */
  lemma NoPrevEventSessionTime(bag: Bag, track: bool, h: History)
    requires h.Consistent() && "PrevEventSessionTime" !in bag
    ensures "PrevEventSessionTime" !in WithLastEventInformation(bag, track, h)
  {
  }

  /** Recording an event keeps the history consistent. */
  lemma NextHistoryConsistent(h: History, eventName: string, params: Option<TrackingParams>)
    requires h.Consistent() && eventName != ""
    ensures NextHistory(h, eventName, params).Consistent()
  {
  }

  /** The event after a recorded one carries that event's name as `PrevEvent`,
      and as `PrevMajorEvent` exactly when it was major or an older major
      event was remembered. */
  lemma TrailNamesLastEvent(bag: Bag, h: History, eventName: string, params: Option<TrackingParams>)
    requires h.Consistent() && eventName != ""
    ensures var r := WithLastEventInformation(bag, true, NextHistory(h, eventName, params));
            && "PrevEvent" in r && r["PrevEvent"] == Str(eventName)
            && (params.Some? && params.value.eventIsMajor ==>
                  "PrevMajorEvent" in r && r["PrevMajorEvent"] == Str(eventName))
            && (!(params.Some? && params.value.eventIsMajor) && "PrevMajorEvent" !in bag ==>
                  && ("PrevMajorEvent" in r <==> h.lastMajorEventName.Some?)
                  && (h.lastMajorEventName.Some? ==> r["PrevMajorEvent"] == Str(h.lastMajorEventName.value)))
  {
  }

  /** A description is kept until a newer truthy one replaces it, so
      `PrevEventExt` can pair the newest name with an older description; and a
      non-major event's description never reaches the major trail. */
  lemma StaleDescriptionIsKept(bag: Bag, h: History, eventName: string, params: Option<TrackingParams>)
    requires h.Consistent() && eventName != "" && Truthy(h.lastEventDescription)
    requires params.None? || !Truthy(params.value.eventDescription)
    ensures var r := WithLastEventInformation(bag, true, NextHistory(h, eventName, params));
            "PrevEventExt" in r && r["PrevEventExt"] == Str(eventName + " " + h.lastEventDescription.value)
  {
  }

  /** A description given with a non-major event updates the plain trail only. */
  lemma MinorDescriptionSkipsMajorTrail(h: History, eventName: string, d: string)
    requires d != ""
    ensures NextHistory(h, eventName, Some(TrackingParams(false, Some(d)))).lastEventDescription == Some(d)
    ensures NextHistory(h, eventName, Some(TrackingParams(false, Some(d)))).lastMajorEventDescription
            == h.lastMajorEventDescription
    ensures NextHistory(h, eventName, Some(TrackingParams(false, Some(d)))).lastMajorEventName
            == h.lastMajorEventName
  {
  }
}
