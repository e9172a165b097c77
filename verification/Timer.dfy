/** The periodic timer of cyber/timer/timer.cc: the callback that InitTimerTask installs measures
    each firing and corrects the next delay by the drift accumulated so far.  Clock readings are
    parameters; the conversion to milliseconds rounds the exact quotient half away from zero. */
module TimerTasks {

  const TIMER_MAX_INTERVAL_MS: nat := 512 * 64
  const NS_PER_MS: int := 1000000

  /** ms is the whole number of milliseconds nearest to ns, and of two equally near ones the one
      farther from zero. */
  ghost predicate IsNearestMs(ns: int, ms: int) {
    && -NS_PER_MS <= 2 * (ns - ms * NS_PER_MS) <= NS_PER_MS
    && (2 * (ns - ms * NS_PER_MS) == NS_PER_MS ==> ns < 0)
    && (2 * (ns - ms * NS_PER_MS) == -NS_PER_MS ==> ns > 0)
  }

  lemma NearestMsIsUnique(ns: int, a: int, b: int)
    requires IsNearestMs(ns, a) && IsNearestMs(ns, b)
    ensures a == b
  {
    assert -2 * NS_PER_MS <= 2 * (a - b) * NS_PER_MS <= 2 * NS_PER_MS;
  }

  /** std::llround(ns / 1000000). */
  function RoundToMs(ns: int): (ms: int)
    ensures IsNearestMs(ns, ms)
  {
    if ns >= 0 then (ns + 500000) / 1000000 else -((500000 - ns) / 1000000)
  }

  /** The fields of a task that the callback works on. */
  datatype Timing = Timing(accumulatedErrorNs: int, lastExecuteTimeNs: nat, nextFireDurationMs: nat)

  /** One firing of the callback, from clock reading `start` to clock reading `end`. */
  function Fired(intervalMs: nat, t: Timing, start: nat, end: nat): Timing
    requires start <= end
  {
    var executeMs := RoundToMs(end - start);
    var error := if t.lastExecuteTimeNs == 0 then t.accumulatedErrorNs
                 else t.accumulatedErrorNs + start - t.lastExecuteTimeNs - intervalMs * NS_PER_MS;
    Timing(error, start,
           if executeMs < intervalMs && intervalMs - executeMs - 1 >= RoundToMs(error)
           then intervalMs - executeMs - RoundToMs(error) else 1)
  }

  class TimerTask {
    var intervalMs: nat
    var remainderIntervalMs: nat
    var nextFireDurationMs: nat
    var accumulatedErrorNs: int
    var lastExecuteTimeNs: nat
    /** Whether a shared pointer to the task still exists. */
    var alive: bool

    /** InitTimerTask builds the task only for periods that pass its two checks. */
    constructor (period: nat)
      requires 0 < period < TIMER_MAX_INTERVAL_MS
      ensures intervalMs == nextFireDurationMs == period && alive
      ensures accumulatedErrorNs == 0 && lastExecuteTimeNs == 0
    {
      intervalMs, nextFireDurationMs, remainderIntervalMs := period, period, 0;
      accumulatedErrorNs, lastExecuteTimeNs, alive := 0, 0, true;
    }

    function State(): Timing
      reads this
    {
      Timing(accumulatedErrorNs, lastExecuteTimeNs, nextFireDurationMs)
    }

    /** The callback around the user's function, without the final AddTask. */
    method Fire(start: nat, end: nat)
      requires start <= end
      modifies this`accumulatedErrorNs, this`lastExecuteTimeNs, this`nextFireDurationMs
      ensures State() == Fired(intervalMs, old(State()), start, end)
      ensures nextFireDurationMs >= 1
    {
      var executeTimeNs := end - start;
      var executeTimeMs := RoundToMs(executeTimeNs);
      if lastExecuteTimeNs == 0 {
        lastExecuteTimeNs := start;
      } else {
        accumulatedErrorNs := accumulatedErrorNs + (start - lastExecuteTimeNs - intervalMs * NS_PER_MS);
      }
      lastExecuteTimeNs := start;
      if executeTimeMs >= intervalMs {
        nextFireDurationMs := 1;
      } else {
        var accumulatedErrorMs := RoundToMs(accumulatedErrorNs);
        if intervalMs - executeTimeMs - 1 >= accumulatedErrorMs {
          nextFireDurationMs := intervalMs - executeTimeMs - accumulatedErrorMs;
        } else {
          nextFireDurationMs := 1;
        }
      }
    }
  }

  /** Start: the task exists exactly for periods from 1 to 32767 ms. */
  method InitTimerTask(period: nat) returns (task: TimerTask?)
    ensures task == null <==> period == 0 || period >= TIMER_MAX_INTERVAL_MS
    ensures task != null ==> fresh(task) && task.intervalMs == period && task.State() == Timing(0, 0, period)
  {
    if period == 0 {
      return null;
    }
    if period >= TIMER_MAX_INTERVAL_MS {
      return null;
    }
    task := new TimerTask(period);
  }

  // ----- drift over a whole run -----

  datatype Firing = Firing(start: nat, end: nat)

  ghost predicate ClockReadings(run: seq<Firing>) {
    forall i | 0 <= i < |run| :: 0 < run[i].start <= run[i].end
  }

  /** The task after the firings of the run, oldest first. */
  ghost function AfterRun(intervalMs: nat, run: seq<Firing>): Timing
    requires ClockReadings(run)
  {
    if run == [] then Timing(0, 0, intervalMs)
    else Fired(intervalMs, AfterRun(intervalMs, run[..|run| - 1]), run[|run| - 1].start, run[|run| - 1].end)
  }

  /** The accumulated error is the distance of the last start from its place in an ideal
      schedule that began with the first start: the per-firing errors telescope. */
  lemma {:induction false} ErrorTelescopes(intervalMs: nat, run: seq<Firing>)
    requires ClockReadings(run) && run != []
    ensures var n := |run|;
      AfterRun(intervalMs, run).lastExecuteTimeNs == run[n - 1].start
      && AfterRun(intervalMs, run).accumulatedErrorNs
         == run[n - 1].start - run[0].start - (n - 1) * intervalMs * NS_PER_MS
  {
    var n := |run|;
    if n > 1 {
      ErrorTelescopes(intervalMs, run[..n - 1]);
      assert (n - 1) * intervalMs == (n - 2) * intervalMs + intervalMs;
    }
  }

  /** What each firing asks for, told from the clock readings alone: with the callback's run time and
      the distance of its start from the ideal schedule as the nearest whole milliseconds e and a,
      the next delay is the interval less both, if that is at least 1 ms and the run time left any
      room, and 1 ms otherwise. */
  lemma NextDelayIs(intervalMs: nat, run: seq<Firing>, e: int, a: int)
    requires ClockReadings(run) && run != []
    requires IsNearestMs(run[|run| - 1].end - run[|run| - 1].start, e)
    requires IsNearestMs(run[|run| - 1].start - run[0].start - (|run| - 1) * intervalMs * NS_PER_MS, a)
    ensures AfterRun(intervalMs, run).nextFireDurationMs ==
            if e < intervalMs && intervalMs - e - a >= 1 then intervalMs - e - a else 1
  {
    var last := run[|run| - 1];
    ErrorTelescopes(intervalMs, run);
    NearestMsIsUnique(last.end - last.start, e, RoundToMs(last.end - last.start));
    var error := AfterRun(intervalMs, run).accumulatedErrorNs;
    NearestMsIsUnique(error, a, RoundToMs(error));
  }

  /** The drift does not accumulate: when the n-th callback leaves room before the next slot of
      the ideal schedule, the delay it asks for ends within 1 ms of start_1 + n * interval;
      otherwise it asks for the shortest delay, 1 ms. */
  lemma NoDrift(intervalMs: nat, run: seq<Firing>)
    requires ClockReadings(run) && run != []
    ensures var n := |run|;
      var t := AfterRun(intervalMs, run);
      var executeMs := RoundToMs(run[n - 1].end - run[n - 1].start);
      && t.nextFireDurationMs >= 1
      && if intervalMs - executeMs - 1 >= RoundToMs(t.accumulatedErrorNs) && executeMs < intervalMs then
           var drift := run[n - 1].end + t.nextFireDurationMs * NS_PER_MS
                        - (run[0].start + n * intervalMs * NS_PER_MS);
           -NS_PER_MS <= drift <= NS_PER_MS
         else t.nextFireDurationMs == 1
  {
    ErrorTelescopes(intervalMs, run);
    var n := |run|;
    assert n * intervalMs == (n - 1) * intervalMs + intervalMs;
  }
}
