/** The countdown component: a per-second tick that decrements the remaining
    time down to 0, reports each new value to its parent once, and raises a
    one-shot "time up" signal that a non-expired reset re-arms. The interval
    itself is left to the caller: each call of Tick is one interval firing. */
module TimerView {
  import opened JsCore

  /** What one tick tells the parent: the `onTimeUpdate` value, if any, and whether `onTimeUp` fired. */
  datatype TickEvents = TickEvents(timeUpdate: Option<int>, timeUp: bool)

  class Timer {
    var timeRemaining: int
    var lastUpdate: int      // the last value reported to the parent
    var timeUpCalled: bool   // the one-shot latch

    /** The last reported value is the displayed one, and a fired latch means the clock shows 0. */
    ghost predicate Valid()
      reads this
    {
      lastUpdate == timeRemaining && (timeUpCalled ==> timeRemaining == 0)
    }

    /** The component's initial state for `initialTime`. */
    constructor (initialTime: int)
      ensures Valid()
      ensures timeRemaining == initialTime && lastUpdate == initialTime && !timeUpCalled
    {
      timeRemaining := initialTime;
      lastUpdate := initialTime;
      timeUpCalled := false;
    }

    /** The effect that runs when `initialTime` or `isExpired` change: an expired
        timer is pinned at 0 with its latch kept, any other restarts from
        `initialTime` with the latch re-armed. */
    method Reset(initialTime: int, isExpired: bool)
      requires Valid()
      modifies this
      ensures Valid()
      ensures isExpired ==> timeRemaining == 0 && lastUpdate == 0 && timeUpCalled == old(timeUpCalled)
      ensures !isExpired ==> timeRemaining == initialTime && lastUpdate == initialTime && !timeUpCalled
    {
      if !isExpired {
        timeRemaining := initialTime;
        lastUpdate := initialTime;
        timeUpCalled := false;
      } else {
        timeRemaining := 0;
        lastUpdate := 0;
      }
    }

    /** One firing of the one-second interval; no interval runs while the timer
        is inactive or expired. A tick reports a value exactly when the clock
        still had time on it, so once at 0 it is silent. */
    method Tick(isActive: bool, isExpired: bool) returns (events: TickEvents)
      requires Valid()
      modifies this
      ensures Valid()
      ensures !isActive || isExpired ==>
        events == TickEvents(None, false) &&
        timeRemaining == old(timeRemaining) && timeUpCalled == old(timeUpCalled)
      ensures isActive && !isExpired ==>
        && timeRemaining == Max(0, old(timeRemaining) - 1)
        && (events.timeUpdate.Some? <==> timeRemaining != old(lastUpdate))
        && (events.timeUpdate.Some? ==> events.timeUpdate.value == timeRemaining)
        && (old(timeRemaining) >= 0 ==> (events.timeUpdate.Some? <==> old(timeRemaining) > 0))
        && (events.timeUp <==> timeRemaining == 0 && !old(timeUpCalled))
        && timeUpCalled == (old(timeUpCalled) || timeRemaining == 0)
    {
      if !isActive || isExpired {
        return TickEvents(None, false);
      }
      var newTime := Max(0, timeRemaining - 1);
      var update := None;
      if newTime != lastUpdate {
        lastUpdate := newTime;
        update := Some(newTime);
      }
      var up := false;
      if newTime == 0 && !timeUpCalled {
        timeUpCalled := true;
        up := true;
      }
      timeRemaining := newTime;
      events := TickEvents(update, up);
    }

    /** `n` firings of the interval with no reset in between: the clock is at
        `AfterTicks(old value, n)`, and `onTimeUp` fires at most once over the
        whole run, and exactly once when the run is long enough to drain a clock
        whose latch was not set. No interval runs while inactive or expired. */
    method RunInterval(isActive: bool, isExpired: bool, n: nat) returns (timeUps: nat)
      requires Valid()
      modifies this
      ensures Valid()
      ensures !isActive || isExpired ==>
        timeUps == 0 && timeRemaining == old(timeRemaining) && timeUpCalled == old(timeUpCalled)
      ensures isActive && !isExpired ==> timeRemaining == AfterTicks(old(timeRemaining), n)
      ensures timeUps <= 1
      ensures timeUps == 1 <==> !old(timeUpCalled) && timeUpCalled
      ensures timeUpCalled == (old(timeUpCalled) || timeUps == 1)
      ensures isActive && !isExpired && !old(timeUpCalled) && 0 <= old(timeRemaining) <= n && n > 0 ==>
        timeUps == 1
    {
      timeUps := 0;
      if !isActive || isExpired {
        return;
      }
      ghost var v0, latch0 := timeRemaining, timeUpCalled;
      for k := 0 to n
        invariant Valid()
        invariant timeRemaining == AfterTicks(v0, k)
        invariant timeUps <= 1
        invariant timeUpCalled == (latch0 || timeUps == 1)
        invariant latch0 ==> timeUps == 0
        invariant k > 0 && timeRemaining == 0 ==> timeUpCalled
      {
        var events := Tick(isActive, isExpired);
        if events.timeUp {
          timeUps := timeUps + 1;
        }
      }
      if 0 <= v0 <= n && n > 0 {
        TicksDrain(v0, n);
      }
    }
  }

  /** The clock after `n` ticks from `v`, each taking off a second down to 0. */
  function AfterTicks(v: int, n: nat): int
    decreases n
  {
    if n == 0 then v else Max(0, AfterTicks(v, n - 1) - 1)
  }

  /** From a non-negative value, n ticks take off exactly n seconds, stopping at 0. */
  lemma {:induction false} TicksDrain(v: int, n: nat)
    requires v >= 0
    ensures AfterTicks(v, n) == Max(0, v - n)
  {
    if n > 0 {
      TicksDrain(v, n - 1);
    }
  }

  /** The `mm:ss` split of the displayed value: whole minutes and the seconds left over. */
  function Display(timeRemaining: int): (d: MinSec)
    ensures timeRemaining >= 0 ==> d.minutes * 60 + d.seconds == timeRemaining && 0 <= d.seconds < 60
  {
    SplitMinutes(timeRemaining)
  }

  /** `getColor()`: red at 10 seconds or less, orange up to 30, neutral above. */
  function GetColor(timeRemaining: int): (c: string)
    ensures c == "text-red-600" <==> timeRemaining <= 10
    ensures c == "text-orange-600" <==> 10 < timeRemaining <= 30
    ensures c == "text-zinc-700" <==> timeRemaining > 30
  {
    if timeRemaining <= 10 then "text-red-600"
    else if timeRemaining <= 30 then "text-orange-600"
    else "text-zinc-700"
  }
}
