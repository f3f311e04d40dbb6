/** The expiry watcher of the `exec` command: a background loop that sleeps
    until the held certificate expires (at most a day), acquires a fresh
    one through the retry policy, and asks the supervisor to restart the
    child when the certificate really expired and its signature changed.

    One cycle is a pure decision. The clock reading that starts the cycle
    and the outcome of the re-acquisition after the sleep are inputs. */
module Watcher {
  import opened Base
  import opened Retry

  /** The longest the watcher sleeps before re-checking. */
  const Day: int := 24 * Hour

  /** What one cycle decided: how long it slept, whether it set the restart
      flag and signalled the child, and whether the watcher ended. */
  datatype Cycle = Cycle(delay: Duration, restart: bool, stop: bool)

  /** What the world showed one cycle: the clock when the cycle started and
      what re-acquisition returned after the sleep. */
  datatype Observation = Observation(now: int, renewed: Result<Certificate, AcqError>)

  /** `cert.NotAfter.Sub(now)`. */
  function Remaining(held: Certificate, now: int): Duration {
    Sub(held.notAfter, now)
  }

  /** The sleep was cut short at a day, so the certificate is not known to
      have expired when it wakes up. */
  predicate Clamped(held: Certificate, now: int) {
    Remaining(held, now) > Day
  }

  /** One pass through the watcher loop while `held` is the current
      certificate. */
  function WatchCycle(held: Certificate, now: int, renewed: Result<Certificate, AcqError>): (c: Cycle)
    // the delay is the smaller of the time left and a day
    ensures c.delay <= Day && c.delay <= Remaining(held, now)
    ensures c.delay == Day || c.delay == Remaining(held, now)
    // a failed re-acquisition ends the watcher and never restarts the child
    ensures c.stop <==> renewed.Err?
    // the child is restarted exactly when the wait reached the real expiry
    // and the new signature differs from the old one
    ensures c.restart <==>
              !Clamped(held, now) && renewed.Ok? && renewed.value.signature != held.signature
  {
    var remaining := Remaining(held, now);
    var killChild := !(remaining > Day);
    var delay := if remaining > Day then Day else remaining;
    match renewed
    case Err(_) => Cycle(delay, false, true)
    case Ok(next) =>
      var killChild := if next.signature == held.signature then false else killChild;
      Cycle(delay, killChild, false)
  }

  /** The certificate held at the start of cycle `i`: the initial one, then
      whatever the previous cycle acquired. */
  function HeldAt(initial: Certificate, obs: seq<Observation>, i: nat): Certificate
    requires i <= |obs|
  {
    if i == 0 then initial
    else match obs[i - 1].renewed
      case Ok(c) => c
      case Err(_) => initial
  }

  /** The watcher loop over a run of observations: one cycle per
      observation, ending after the first failed re-acquisition. */
  function Watch(held: Certificate, obs: seq<Observation>): (log: seq<Cycle>)
    ensures |log| <= |obs|
    // nothing runs after a stop, and the run ends early only on a stop
    ensures forall i :: 0 <= i < |log| - 1 ==> !log[i].stop
    ensures |log| < |obs| ==> |log| > 0 && log[|log| - 1].stop
    decreases |obs|
  {
    if |obs| == 0 then []
    else
      var c := WatchCycle(held, obs[0].now, obs[0].renewed);
      if c.stop then [c] else [c] + Watch(obs[0].renewed.value, obs[1..])
  }

  /** Cycle `i` of the loop decides with the certificate the previous cycle
      acquired. */
  lemma {:induction false} WatchFollowsCycles(held: Certificate, obs: seq<Observation>, i: nat)
    requires i < |Watch(held, obs)|
    ensures Watch(held, obs)[i] == WatchCycle(HeldAt(held, obs, i), obs[i].now, obs[i].renewed)
    decreases i
  {
    if i > 0 {
      var next := obs[0].renewed.value;
      WatchFollowsCycles(next, obs[1..], i - 1);
      if i > 1 {
        assert !Watch(next, obs[1..])[i - 2].stop;
        WatchFollowsCycles(next, obs[1..], i - 2);
      }
    }
  }

  /** A certificate that keeps its signature across renewals never causes a
      restart, however often it is renewed. */
  lemma SameSignatureNeverRestarts(held: Certificate, obs: seq<Observation>)
    requires forall i :: 0 <= i < |obs| && obs[i].renewed.Ok? ==>
               obs[i].renewed.value.signature == held.signature
    ensures forall i :: 0 <= i < |Watch(held, obs)| ==> !Watch(held, obs)[i].restart
  {
    var log := Watch(held, obs);
    forall i | 0 <= i < |log|
      ensures !log[i].restart
    {
      WatchFollowsCycles(held, obs, i);
      assert HeldAt(held, obs, i).signature == held.signature;
    }
  }

  /** A cycle whose sleep was clamped never restarts the child. */
  lemma ClampedCycleKeepsChild(held: Certificate, now: int, renewed: Result<Certificate, AcqError>)
    requires Clamped(held, now)
    ensures WatchCycle(held, now, renewed).delay == Day
    ensures !WatchCycle(held, now, renewed).restart
  {
  }

  /** A certificate expiring in exactly a day is not clamped: the watcher
      sleeps the full day and may restart the child afterwards. */
  lemma ExactlyOneDayIsNotClamped(held: Certificate, now: int, next: Certificate)
    requires held.notAfter - now == Day
    requires next.signature != held.signature
    ensures WatchCycle(held, now, Ok(next)) == Cycle(Day, true, false)
  {
  }

  /** Number of cycles of a log that restarted the child. */
  function Restarts(log: seq<Cycle>): nat {
    if |log| == 0 then 0 else (if log[0].restart then 1 else 0) + Restarts(log[1..])
  }

  /** Cycles that reached the real expiry and found a new signature. */
  function Changes(held: Certificate, obs: seq<Observation>): nat
    decreases |obs|
  {
    if |obs| == 0 then 0
    else match obs[0].renewed
      case Err(_) => 0
      case Ok(next) =>
        (if !Clamped(held, obs[0].now) && next.signature != held.signature then 1 else 0)
        + Changes(next, obs[1..])
  }

  /** The watcher asks for exactly one restart per real signature change. */
  lemma {:induction false} OneRestartPerChange(held: Certificate, obs: seq<Observation>)
    ensures Restarts(Watch(held, obs)) == Changes(held, obs)
    decreases |obs|
  {
    if |obs| > 0 && obs[0].renewed.Ok? {
      var log := Watch(held, obs);
      OneRestartPerChange(obs[0].renewed.value, obs[1..]);
      assert log[1..] == Watch(obs[0].renewed.value, obs[1..]);
    }
  }
}
