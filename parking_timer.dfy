/** The parking countdown: the `ParkingData` snapshot and the view model that replaces
    it on every user action and every callback of the platform countdown.

    The platform countdown is not modelled in real time. The view model holds at most
    one live countdown (`activeTimer`); starting a new one cancels the previous one,
    and the platform's `onTick(ms)` and `onFinish()` callbacks arrive as events for the
    live countdown. Notifications are left out. */
module ParkingTimer {
  import opened Kotlin

  /** The duration the user configured, the time left and whether a countdown runs. */
  datatype ParkingData = ParkingData(
    hours: Int32,
    minutes: Int32,
    seconds: Int32,
    timeLeftInSeconds: Int64,
    isTimerRunning: bool)

  /** The snapshot a fresh view model publishes (all defaults). */
  const InitialData := ParkingData(0, 0, 0, 0, false)

  /** A platform countdown as the view model creates it. */
  datatype Countdown = Countdown(millisInFuture: Int64, countDownInterval: Int64)

  const TICK_INTERVAL_MILLIS: Int64 := 1000

  /** `startTimer` goes ahead unless all three configured components are zero. The
      guard looks at the components, not at their total. */
  predicate StartAllowed(d: ParkingData) {
    !(d.hours == 0 && d.minutes == 0 && d.seconds == 0)
  }

  /** `hours * 3600 + minutes * 60 + seconds` evaluated in `Int`, each operation
      wrapping on overflow, before the result is widened to `Long`. */
  function TotalSeconds(hours: Int32, minutes: Int32, seconds: Int32): (total: Int32)
    ensures total == Wrap32(hours * 3600 + minutes * 60 + seconds)
    ensures InInt32(hours * 3600 + minutes * 60 + seconds) ==>
              total == hours * 3600 + minutes * 60 + seconds
  {
    var h := IntMul(hours, 3600);
    var m := IntMul(minutes, 60);
    var hm := IntAdd(h, m);
    SumOfMultiples(hours * 3600 - h, minutes * 60 - m);
    SumOfMultiples(h + m - hm, hours * 3600 + minutes * 60 - h - m);
    SumOfMultiples(hm + seconds - IntAdd(hm, seconds), hours * 3600 + minutes * 60 - hm);
    WrapCongruent(hours * 3600 + minutes * 60 + seconds, hm + seconds);
    IntAdd(hm, seconds)
  }

  /** The time left after a tick reporting `millisUntilFinished`: the `Long` quotient
      by 1000, so a partial second counts as none. */
  function SecondsLeft(millisUntilFinished: Int64): (s: Int64)
    ensures 0 <= millisUntilFinished ==> 0 <= s && s * 1000 <= millisUntilFinished < s * 1000 + 1000
    ensures millisUntilFinished < 0 ==> s <= 0 && s * 1000 - 1000 < millisUntilFinished <= s * 1000
  {
    Quot(millisUntilFinished, 1000)
  }

  /** The snapshot after the countdown stops, by finishing or by being cancelled: no
      time left and not running; the configured duration is kept. */
  function Stopped(d: ParkingData): (stopped: ParkingData) {
    d.(isTimerRunning := false, timeLeftInSeconds := 0)
  }

  /** Stopping twice is stopping once, and the configured duration survives it. */
  lemma StoppedIdempotent(d: ParkingData)
    ensures Stopped(Stopped(d)) == Stopped(d)
    ensures Stopped(d).hours == d.hours && Stopped(d).minutes == d.minutes
    ensures Stopped(d).seconds == d.seconds
  {
  }

  /** The all-zero guard is stricter in one direction only: an all-zero entry has a zero
      total, but entries whose total is zero can pass it (1 hour and -60 minutes). */
  lemma GuardAndTotal(d: ParkingData)
    ensures !StartAllowed(d) ==> TotalSeconds(d.hours, d.minutes, d.seconds) == 0
    ensures StartAllowed(ParkingData(1, -60, 0, 0, false)) && TotalSeconds(1, -60, 0) == 0
  {
  }

  /** Large hour entries overflow `Int` before the widening to `Long`: 596524 hours give
      a negative total. */
  lemma TotalSecondsOverflows()
    ensures 596524 * 3600 > 0x7fff_ffff
    ensures TotalSeconds(596524, 0, 0) == 596524 * 3600 - TWO_32 < 0
  {
  }

  class ParkingViewModel {
    /** The value of the published state flow. */
    var parkingData: ParkingData
    /** The countdown the platform will call back, if any: the one `startTimer` created
        last, unless it was cancelled or has finished. */
    var activeTimer: Option<Countdown>

    /** A countdown is live exactly while the published state says the timer runs,
        and it ticks once a second. */
    ghost predicate Valid()
      reads this
    {
      (parkingData.isTimerRunning <==> activeTimer.Some?) &&
      (activeTimer.Some? ==> activeTimer.value.countDownInterval == TICK_INTERVAL_MILLIS)
    }

    constructor ()
      ensures Valid()
      ensures parkingData == InitialData && activeTimer == None
    {
      parkingData := InitialData;
      activeTimer := None;
    }

    method UpdateHours(hours: Int32)
      requires Valid()
      modifies this
      ensures Valid()
      ensures parkingData == old(parkingData).(hours := hours)
      ensures activeTimer == old(activeTimer)
    {
      parkingData := parkingData.(hours := hours);
    }

    method UpdateMinutes(minutes: Int32)
      requires Valid()
      modifies this
      ensures Valid()
      ensures parkingData == old(parkingData).(minutes := minutes)
      ensures activeTimer == old(activeTimer)
    {
      parkingData := parkingData.(minutes := minutes);
    }

    method UpdateSeconds(seconds: Int32)
      requires Valid()
      modifies this
      ensures Valid()
      ensures parkingData == old(parkingData).(seconds := seconds)
      ensures activeTimer == old(activeTimer)
    {
      parkingData := parkingData.(seconds := seconds);
    }

    /** Does nothing when all three components are zero. Otherwise publishes the total as
        the time left, marks the timer running, cancels the live countdown (if any) and
        starts a new one for the total in milliseconds. The total may be zero or
        negative (see `GuardAndTotal`); the platform then finishes the new countdown
        at once, which is the `OnFinish` event. */
    method StartTimer()
      requires Valid()
      modifies this
      ensures Valid()
      ensures !StartAllowed(old(parkingData)) ==>
                parkingData == old(parkingData) && activeTimer == old(activeTimer)
      ensures StartAllowed(old(parkingData)) ==>
                var total := TotalSeconds(old(parkingData).hours, old(parkingData).minutes, old(parkingData).seconds);
                parkingData == old(parkingData).(timeLeftInSeconds := total, isTimerRunning := true) &&
                activeTimer == Some(Countdown(total * 1000, TICK_INTERVAL_MILLIS))
    {
      var hours, minutes, seconds := parkingData.hours, parkingData.minutes, parkingData.seconds;
      if hours == 0 && minutes == 0 && seconds == 0 {
        return;
      }
      var totalSeconds: Int64 := TotalSeconds(hours, minutes, seconds);
      parkingData := parkingData.(timeLeftInSeconds := totalSeconds, isTimerRunning := true);
      // The previous countdown, if any, is cancelled and replaced.
      activeTimer := Some(Countdown(totalSeconds * 1000, TICK_INTERVAL_MILLIS));
    }

    /** The live countdown's `onTick(millisUntilFinished)`. */
    method OnTick(millisUntilFinished: Int64)
      requires Valid() && activeTimer.Some?
      modifies this
      ensures Valid()
      ensures parkingData == old(parkingData).(timeLeftInSeconds := SecondsLeft(millisUntilFinished))
      ensures activeTimer == old(activeTimer)
    {
      parkingData := parkingData.(timeLeftInSeconds := Quot(millisUntilFinished, 1000));
    }

    /** The live countdown's `onFinish()`; the countdown is then spent. */
    method OnFinish()
      requires Valid() && activeTimer.Some?
      modifies this
      ensures Valid()
      ensures parkingData == Stopped(old(parkingData))
      ensures activeTimer == None
    {
      parkingData := parkingData.(isTimerRunning := false, timeLeftInSeconds := 0);
      activeTimer := None;
    }

    /** Cancels the live countdown (if any) and publishes a stopped timer. */
    method CancelTimer()
      requires Valid()
      modifies this
      ensures Valid()
      ensures parkingData == Stopped(old(parkingData))
      ensures activeTimer == None
    {
      activeTimer := None;
      parkingData := parkingData.(isTimerRunning := false, timeLeftInSeconds := 0);
    }
  }

  /** Cancelling twice leaves the same state as cancelling once. */
  method CancelTwice(vm: ParkingViewModel)
    requires vm.Valid()
    modifies vm
    ensures vm.Valid()
    ensures vm.parkingData == Stopped(old(vm.parkingData)) && vm.activeTimer == None
  {
    vm.CancelTimer();
    ghost var once := vm.parkingData;
    vm.CancelTimer();
    StoppedIdempotent(old(vm.parkingData));
    assert vm.parkingData == Stopped(once);
  }
}
