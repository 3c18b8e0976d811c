/** The session clock: a start instant in milliseconds and the elapsed whole
    seconds that `addSessionTimeTo` reports. The wall clock is a parameter. */
module SessionClock {
  import opened Values

  /** `Math.floor(ms / 1000)` for `ms = now - start`, negative differences
      included. */
  function ElapsedSeconds(start: int, now: int): (r: int)
    ensures r * 1000 <= now - start < r * 1000 + 1000
    ensures start <= now ==> r >= 0
  {
    (now - start) / 1000
  }

  /** `addSessionTimeTo`: `SessionTime` is written exactly when a session has
      been started; nothing else changes. */
  function WithSessionTime(bag: Bag, start: Option<int>, now: int): (r: Bag)
    ensures r.Keys == if start.Some? then bag.Keys + {"SessionTime"} else bag.Keys
    ensures start.Some? ==> r["SessionTime"] == Num(ElapsedSeconds(start.value, now))
    ensures forall k :: k in bag && k != "SessionTime" ==> r[k] == bag[k]
  {
    if start.Some? then bag["SessionTime" := Num(ElapsedSeconds(start.value, now))] else bag
  }
}
