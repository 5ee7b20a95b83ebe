/** The watch loop's code on its own variables, run against a script of notifications with a
    timer that is served promptly; the step machine covers every other schedule. */
module WatchLoop {
  import opened Basics
  import opened GoTimer
  import opened Debounce

  /** What the select receives: an event that marks a content change or not, a watcher error, or
      the end, by a cancelled context or a closed channel. */
  datatype Kind = Content | Other | WatchError | Stop

  datatype Input = Input(at: nat, kind: Kind)

  /** The position of the first end. */
  function FirstStop(inputs: seq<Input>): (n: nat)
    ensures n <= |inputs| && (n < |inputs| ==> inputs[n].kind.Stop?)
    ensures forall k | 0 <= k < n :: !inputs[k].kind.Stop?
  {
    if inputs == [] || inputs[0].kind.Stop? then 0 else 1 + FirstStop(inputs[1..])
  }

  predicate Ordered(inputs: seq<Input>) {
    forall i, j | 0 <= i < j < |inputs| :: inputs[i].at <= inputs[j].at
  }

  /** The arrival times of the content changes. */
  function ContentTimes(inputs: seq<Input>): seq<nat> {
    if inputs == [] then []
    else
      var e := inputs[|inputs| - 1];
      ContentTimes(inputs[..|inputs| - 1]) + (if e.kind.Content? then [e.at] else [])
  }

  class Loop {
    const sem: Semantics
    const debounce: nat
    var timer: Timer
    var debounceC: bool

    /** The channel variable is non-nil exactly while one tick is pending. */
    ghost predicate Valid()
      reads this
    {
      Tokens(timer) == if debounceC then 1 else 0
    }

    /** A timer of duration zero is created and stopped; under the older semantics it may have
        fired in between (`early`) and is then drained. */
    constructor (sem: Semantics, debounce: nat, now: nat, early: bool)
      ensures Valid() && !debounceC && this.sem == sem && this.debounce == debounce
    {
      this.sem, this.debounce := sem, debounce;
      timer := if early then Timer(None, true, false) else Timer(Some(now), false, false);
      debounceC := false;
      new;
      StopAndDrain();
    }

    method Stop() returns (wins: bool)
      modifies this`timer
      ensures timer == Stopped(sem, old(timer)) && wins == StopWins(sem, old(timer))
    {
      wins := StopWins(sem, timer);
      timer := Stopped(sem, timer);
    }

    /** A receive on the timer's channel: it waits for a send under way and takes the value.
        Without a value it would block forever. */
    method Receive()
      requires timer.full || timer.sending
      modifies this`timer
      ensures timer.armed == old(timer.armed) && Tokens(timer) == Tokens(old(timer)) - 1
    {
      if !timer.full {
        timer := timer.(sending := false, full := true);
      }
      timer := timer.(full := false);
    }

    /** Stopping a timer with one pending tick removes the tick, under both semantics. */
    method StopAndDrain()
      requires Tokens(timer) == 1
      modifies this`timer
      ensures Tokens(timer) == 0
    {
      var wins := Stop();
      if !wins {
        Receive();
      }
    }

    /** (Re)arms the debounce: afterwards exactly one tick is pending, a full debounce from now. */
    method ArmDebounce(now: nat)
      requires Valid()
      modifies this
      ensures Valid() && debounceC && timer == Timer(Some(now + debounce), false, false)
    {
      if debounceC {
        StopAndDrain();
      }
      timer := Restarted(sem, timer, now + debounce);
      debounceC := true;
    }

    /** The runtime fires the due timer and the select receives the tick. */
    method Tick(now: nat)
      requires Valid() && debounceC && timer.armed.Some? && timer.armed.value <= now
      modifies this
      ensures Valid() && !debounceC
    {
      timer := timer.(armed := None, sending := true);
      Receive();
      debounceC := false;
    }

    /** The deferred stop on every exit path: no tick outlives the loop. */
    method Leave()
      requires Valid()
      modifies this`timer
      ensures Tokens(timer) == 0
    {
      if debounceC {
        StopAndDrain();
      }
    }

    /** The loop over a whole script: it reloads once per maximal burst of content changes before
        the end, one debounce after the burst's last change and at no other time, except that a
        reload not due by the end is dropped; and it leaves no tick behind. */
    method Watch(inputs: seq<Input>) returns (reloads: seq<nat>)
      requires Valid() && !debounceC && Ordered(inputs)
      modifies this
      ensures Tokens(timer) == 0
      ensures reloads == Expected(inputs, debounce)
    {
      reloads := [];
      ghost var pending: Option<nat> := None;
      var i := 0;
      while i < |inputs| || debounceC
        invariant 0 <= i <= |inputs| && Valid()
        invariant if debounceC then pending.Some? && timer.armed == pending else pending.None?
        invariant Served(inputs, i, debounce, reloads, pending)
        decreases |inputs| - i, debounceC
      {
        if debounceC && (i == |inputs| || timer.armed.value <= inputs[i].at) {
          AfterTick(inputs, i, debounce, reloads, pending.value);
          reloads, pending := reloads + [timer.armed.value], None;
          Tick(timer.armed.value);
        } else {
          var e := inputs[i];
          AfterInput(inputs, i, debounce, reloads, pending);
          if e.kind.Stop? {
            Leave();
            return;
          }
          if e.kind.Content? {
            pending := Some(e.at + debounce);
            ArmDebounce(e.at);
          }
          i := i + 1;
        }
      }
      StopsAt(inputs, i, debounce);
    }
  }

  /** The reloads of the bursts in `ts`, without the last one if that is not due by the end. */
  function Kept(ts: seq<nat>, d: nat, end: Option<nat>): seq<nat> {
    var all := BurstReloads(ts, d, |ts|);
    if end.Some? && all != [] && all[|all| - 1] > end.value then all[..|all| - 1] else all
  }

  /** The reloads of a script: those of the bursts before its end. */
  function Expected(inputs: seq<Input>, d: nat): seq<nat> {
    var n := FirstStop(inputs);
    Kept(ContentTimes(inputs[..n]), d, if n < |inputs| then Some(inputs[n].at) else None)
  }

  lemma StopsAt(inputs: seq<Input>, i: nat, d: nat)
    requires i <= |inputs| && (forall k | 0 <= k < i :: !inputs[k].kind.Stop?)
    requires i < |inputs| ==> inputs[i].kind.Stop?
    ensures Expected(inputs, d) ==
      Kept(ContentTimes(inputs[..i]), d, if i < |inputs| then Some(inputs[i].at) else None)
  {
    assert FirstStop(inputs) == i;
  }

  lemma AtStop(ts: seq<nat>, d: nat, reloads: seq<nat>, pending: Option<nat>, at: nat)
    requires Agrees(ts, d, reloads, pending)
    requires if pending.Some? then pending.value > at else Quiet(ts, d, at)
    ensures reloads == Kept(ts, d, Some(at))
  {
    var all := BurstReloads(ts, d, |ts|);
    if pending.Some? {
      assert all[..|all| - 1] == reloads;
    } else if ts != [] {
      assert all == BurstReloads(ts, d, |ts| - 1) + [ts[|ts| - 1] + d];
    }
  }

  lemma ContentStep(inputs: seq<Input>, i: nat)
    requires i < |inputs|
    ensures ContentTimes(inputs[..i + 1]) ==
      if inputs[i].kind.Content? then ContentTimes(inputs[..i]) + [inputs[i].at] else ContentTimes(inputs[..i])
  {
    assert inputs[..i + 1][..i] == inputs[..i];
  }

  /** The reloads so far and the pending one are what the offline computation gives. */
  predicate Agrees(ts: seq<nat>, d: nat, reloads: seq<nat>, pending: Option<nat>) {
    && BurstReloads(ts, d, |ts|) == (if pending.Some? then reloads + [pending.value] else reloads)
    && (pending.Some? ==> ts != [] && pending.value == ts[|ts| - 1] + d)
  }

  /** The last change is a full debounce before t. */
  predicate Quiet(ts: seq<nat>, d: nat, t: nat) { ts != [] ==> ts[|ts| - 1] + d <= t }

  /** The first i inputs have been served: no end among them, the reloads so far with the pending
      one are what the offline computation gives, and without a pending one all is quiet. */
  predicate Served(inputs: seq<Input>, i: nat, d: nat, reloads: seq<nat>, pending: Option<nat>)
    requires i <= |inputs|
  {
    var ts := ContentTimes(inputs[..i]);
    && (forall k | 0 <= k < i :: !inputs[k].kind.Stop?)
    && Agrees(ts, d, reloads, pending)
    && (i < |inputs| && pending.None? ==> Quiet(ts, d, inputs[i].at))
  }

  lemma AfterTick(inputs: seq<Input>, i: nat, d: nat, reloads: seq<nat>, due: nat)
    requires i <= |inputs| && Served(inputs, i, d, reloads, Some(due)) && (i < |inputs| ==> due <= inputs[i].at)
    ensures Served(inputs, i, d, reloads + [due], None)
  {
  }

  /** What the next input does: an end leaves the expected reloads, a content change moves the
      pending reload, anything else changes nothing. */
  lemma AfterInput(inputs: seq<Input>, i: nat, d: nat, reloads: seq<nat>, pending: Option<nat>)
    requires i < |inputs| && Ordered(inputs) && Served(inputs, i, d, reloads, pending)
    requires pending.Some? ==> pending.value > inputs[i].at
    ensures match inputs[i].kind
      case Stop => reloads == Expected(inputs, d)
      case Content => Served(inputs, i + 1, d, reloads, Some(inputs[i].at + d))
      case _ => Served(inputs, i + 1, d, reloads, pending)
  {
    var e, ts := inputs[i], ContentTimes(inputs[..i]);
    match e.kind
    case Stop =>
      AtStop(ts, d, reloads, pending, e.at);
      StopsAt(inputs, i, d);
    case Content => ServedContent(inputs, i, d, reloads, pending);
    case _ => ServedOther(inputs, i, d, reloads, pending);
  }

  lemma ServedContent(inputs: seq<Input>, i: nat, d: nat, reloads: seq<nat>, pending: Option<nat>)
    requires i < |inputs| && Served(inputs, i, d, reloads, pending) && inputs[i].kind.Content?
    requires pending.Some? ==> pending.value > inputs[i].at
    ensures Served(inputs, i + 1, d, reloads, Some(inputs[i].at + d))
  {
    AfterContent(ContentTimes(inputs[..i]), inputs[i].at, d, reloads, pending);
    ContentStep(inputs, i);
  }

  lemma ServedOther(inputs: seq<Input>, i: nat, d: nat, reloads: seq<nat>, pending: Option<nat>)
    requires i < |inputs| && Ordered(inputs) && Served(inputs, i, d, reloads, pending)
    requires !inputs[i].kind.Stop? && !inputs[i].kind.Content?
    ensures Served(inputs, i + 1, d, reloads, pending)
  {
    ContentStep(inputs, i);
    assert i + 1 < |inputs| ==> inputs[i].at <= inputs[i + 1].at;
  }

  /** One more content change moves the pending reload, or makes the next one pending. */
  lemma AfterContent(ts: seq<nat>, t: nat, d: nat, reloads: seq<nat>, pending: Option<nat>)
    requires Agrees(ts, d, reloads, pending)
    requires if pending.Some? then t < pending.value else Quiet(ts, d, t)
    ensures Agrees(ts + [t], d, reloads, Some(t + d))
  {
    if ts == [] {
      assert ts + [t] == [t];
      assert BurstReloads([t], d, 1) == BurstReloads([t], d, 0) + [t + d];
    } else {
      BurstReloadsAppend(ts, t, d);
      if pending.Some? {
        SameFront(BurstReloads(ts, d, |ts| - 1), reloads, pending.value);
      }
    }
  }
}
