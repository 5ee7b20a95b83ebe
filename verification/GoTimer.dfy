/** One-shot Go timers, under both generations of their semantics.

    An armed timer expires once its deadline has passed; the runtime then puts
    a value into the timer's one-slot channel.  Expiry and the channel send are
    separate steps, so a `Stop` can fall between them. */
module GoTimer {
  import opened Basics

  /** `Buffered`: before Go 1.23, Stop and Reset leave a value in the channel.
      `Synchronous`: since Go 1.23, both discard an unreceived value and a pending send. */
  datatype Semantics = Buffered | Synchronous

  datatype Timer = Timer(armed: Option<nat>, sending: bool, full: bool)

  /** Whether Stop returns true. */
  predicate StopWins(sem: Semantics, t: Timer) {
    t.armed.Some? || (sem.Synchronous? && (t.sending || t.full))
  }

  function Stopped(sem: Semantics, t: Timer): Timer {
    if sem.Synchronous? then Timer(None, false, false) else t.(armed := None)
  }

  function Restarted(sem: Semantics, t: Timer, deadline: nat): Timer {
    Stopped(sem, t).(armed := Some(deadline))
  }

  /** Pending ticks: armed, on the way to the channel, or in the channel. */
  function Tokens(t: Timer): nat {
    (if t.armed.Some? then 1 else 0) + (if t.sending then 1 else 0) + (if t.full then 1 else 0)
  }
}
