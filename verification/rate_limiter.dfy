/** The global limiter every upstream call passes through. The wall clock is an integer
    millisecond counter; `time.sleep` is the jump from the reading to the wake-up time. */
module RateLimit {

  /** Default spacing between two admitted calls: 0.35 s. */
  const DefaultIntervalMs: nat := 350

  /** `interval` is the minimum spacing; `last` is the admission time of the previous call. */
  datatype Limiter = Limiter(interval: nat, last: int)

  /** A fresh limiter: no call admitted yet, `_last = 0.0`. */
  function NewLimiter(interval: nat): (l: Limiter)
    ensures l.interval == interval && l.last == 0
  {
    Limiter(interval, 0)
  }

  /** One `wait()` under the lock: read the clock (`now`), sleep the remaining part of the
      interval if the previous admission is too recent, then record the wake-up time. */
  function Wait(l: Limiter, now: int): (r: Limiter)
    ensures r.interval == l.interval
    ensures r.last >= l.last + l.interval
    ensures r.last >= now
    ensures now - l.last >= l.interval ==> r.last == now
    ensures now - l.last < l.interval ==> r.last == l.last + l.interval
  {
    var elapsed := now - l.last;
    if elapsed < l.interval then
      l.(last := now + (l.interval - elapsed))
    else
      l.(last := now)
  }

  /** The admission times of a run of `wait()` calls taken in lock-acquisition order, the
      i-th one reading the clock at `clock[i]`. */
  function Admissions(l: Limiter, clock: seq<int>): (times: seq<int>)
    ensures |times| == |clock|
    ensures forall i :: 0 <= i < |clock| ==> times[i] >= clock[i]
    ensures |times| > 0 ==> times[0] >= l.last + l.interval
    ensures forall i :: 0 <= i < |times| - 1 ==> times[i + 1] >= times[i] + l.interval
    decreases |clock|
  {
    if |clock| == 0 then []
    else
      var next := Wait(l, clock[0]);
      [next.last] + Admissions(next, clock[1..])
  }

  /** Any two admissions are spaced by at least the interval times their distance in the
      admission order. */
  lemma {:induction false} AdmissionsSpread(l: Limiter, clock: seq<int>, i: nat, j: nat)
    requires i <= j < |clock|
    ensures Admissions(l, clock)[j] - Admissions(l, clock)[i] >= (j - i) * l.interval
    decreases j - i
  {
    if i < j {
      AdmissionsSpread(l, clock, i, j - 1);
      var t := Admissions(l, clock);
      assert t[j] >= t[j - 1] + l.interval;
    }
  }
}
