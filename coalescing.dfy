/**
 * The refresh timer as a one-bit state machine: a toggle arms it, and when the
 * timer elapses while armed it performs one rebuild and disarms.
 */
module Coalescing {

  datatype TimerEvent = Toggle | Elapse

  /** Whether a rebuild is pending (`RefreshTimer.Enabled`), and how many rebuilds ran. */
  datatype TimerState = TimerState(pending: bool, rebuilds: nat)

  function Step(s: TimerState, e: TimerEvent): TimerState
  {
    match e
    case Toggle => s.(pending := true)
    case Elapse => if s.pending then TimerState(false, s.rebuilds + 1) else s
  }

  function Run(s: TimerState, events: seq<TimerEvent>): TimerState
    decreases events
  {
    if events == [] then s else Run(Step(s, events[0]), events[1..])
  }

  function Toggles(n: nat): (es: seq<TimerEvent>)
    ensures |es| == n && forall i :: 0 <= i < n ==> es[i] == Toggle
  {
    if n == 0 then [] else [Toggle] + Toggles(n - 1)
  }

  lemma {:induction false} RunAppend(s: TimerState, a: seq<TimerEvent>, b: seq<TimerEvent>)
    ensures Run(s, a + b) == Run(Run(s, a), b)
    decreases a
  {
    if a == [] {
      assert a + b == b;
    } else {
      assert (a + b)[1..] == a[1..] + b;
      RunAppend(Step(s, a[0]), a[1..], b);
    }
  }

  /** Toggles alone never rebuild; they only arm the timer. */
  lemma {:induction false} TogglesOnlyArm(s: TimerState, n: nat)
    ensures Run(s, Toggles(n)) == s.(pending := s.pending || n > 0)
    decreases n
  {
    if n > 0 {
      assert Toggles(n)[1..] == Toggles(n - 1);
      TogglesOnlyArm(s.(pending := true), n - 1);
    }
  }

  /** Any burst of toggles followed by the timer elapsing causes exactly one
      rebuild (none for an empty burst on an idle timer), and leaves it idle. */
  lemma BurstCoalesces(s: TimerState, n: nat)
    ensures Run(s, Toggles(n) + [Elapse])
            == TimerState(false, s.rebuilds + if s.pending || n > 0 then 1 else 0)
  {
    RunAppend(s, Toggles(n), [Elapse]);
    TogglesOnlyArm(s, n);
  }

  /** Once idle, further elapses change nothing. */
  lemma {:induction false} IdleStaysIdle(s: TimerState, n: nat)
    requires !s.pending
    ensures Run(s, seq(n, _ => Elapse)) == s
    decreases n
  {
    if n > 0 {
      assert seq(n, _ => Elapse)[1..] == seq(n - 1, _ => Elapse);
      IdleStaysIdle(s, n - 1);
    }
  }
}
