/** Sending one payload to several outputs in parallel and joining the results.

    The same fork-join serves both delivery modes: Guaranteed tasks report
    failures over a bounded error channel that is closed and drained after the
    join, BestEffort tasks only meter them.  A single Guaranteed output takes a
    fast path without goroutines. */
module ForkJoin {
  import opened Basics

  datatype Mode = Guaranteed | BestEffort

  /** A task's progress; `ok` is the result of its Send. */
  datatype Task = Unspawned | Sending | Sent(ok: bool) | Metered(ok: bool) | Pushed | Exited(ok: bool)

  datatype Main = Fast | Spawning(next: nat) | Waiting | Closing | Collecting | Returned

  /** `ch` is the error channel, whose capacity is the number of tasks; errors are task numbers. */
  datatype Fork = Fork(
    mode: Mode, main: Main, tasks: seq<Task>, wg: int, ch: seq<nat>, closed: bool, errs: seq<nat>, panicked: bool)

  datatype Action = Spawn | SendEnds(i: nat, ok: bool) | Meter(i: nat) | Push(i: nat) | Leave(i: nat) | MainStep

  /** Forwarding to n outputs, by the fast path or by goroutines. */
  function Begin(mode: Mode, n: nat, fast: bool): Fork
    requires fast ==> mode.Guaranteed? && n == 1
  {
    if fast then Fork(mode, Fast, [Sending], 0, [], false, [], false)
    else Fork(mode, Spawning(0), seq(n, _ => Unspawned), 0, [], false, [], false)
  }

  predicate Enabled(f: Fork, a: Action) {
    match a
    case Spawn => f.main.Spawning?
    case SendEnds(i, _) => i < |f.tasks| && f.tasks[i].Sending?
    case Meter(i) => i < |f.tasks| && f.tasks[i].Sent?
    case Push(i) => i < |f.tasks| && !f.main.Fast? && MustPush(f, i) && |f.ch| < |f.tasks|
    case Leave(i) =>
      i < |f.tasks| && !f.main.Fast? && (f.tasks[i].Pushed? || (f.tasks[i].Metered? && !MustPush(f, i)))
    case MainStep =>
      match f.main
      case Fast => |f.tasks| == 1 && f.tasks[0].Metered?
      case Waiting => f.wg == 0
      case Closing => true
      case Collecting => f.ch != [] || f.closed
      case Spawning(_) | Returned => false
  }

  /** The task has an error to report before it may end. */
  predicate MustPush(f: Fork, i: nat)
    requires i < |f.tasks|
  {
    f.mode.Guaranteed? && f.tasks[i] == Metered(false)
  }

  /** A send on a closed channel, a second close and a negative wait group counter panic. */
  function Apply(f: Fork, a: Action): Fork
    requires Enabled(f, a)
  {
    match a
    case Spawn =>
      var k := f.main.next;
      if k < |f.tasks| then f.(main := Spawning(k + 1), tasks := f.tasks[k := Sending], wg := f.wg + 1)
      else f.(main := Waiting)
    case SendEnds(i, ok) => f.(tasks := f.tasks[i := Sent(ok)])
    case Meter(i) => f.(tasks := f.tasks[i := Metered(f.tasks[i].ok)])
    case Push(i) => f.(tasks := f.tasks[i := Pushed], ch := f.ch + [i], panicked := f.panicked || f.closed)
    case Leave(i) =>
      f.(tasks := f.tasks[i := Exited(f.tasks[i].Metered? && f.tasks[i].ok)],
         wg := f.wg - 1, panicked := f.panicked || f.wg <= 0)
    case MainStep =>
      match f.main
      case Fast =>
        var ok := f.tasks[0].ok;
        f.(main := Returned, tasks := [Exited(ok)], errs := if ok then [] else [0])
      case Waiting => f.(main := if f.mode.Guaranteed? then Closing else Returned)
      case Closing => f.(main := Collecting, closed := true, panicked := f.panicked || f.closed)
      case Collecting =>
        if f.ch != [] then f.(errs := f.errs + [f.ch[0]], ch := f.ch[1..]) else f.(main := Returned)
  }

  // ----- invariant -----

  predicate Live(t: Task) { t.Sending? || t.Sent? || t.Metered? || t.Pushed? }
  predicate Failed(t: Task) { t.Pushed? || t == Exited(false) }

  predicate SpawnInv(f: Fork) {
    match f.main
    case Fast => f.mode.Guaranteed? && |f.tasks| == 1 && Live(f.tasks[0]) && !f.tasks[0].Pushed?
    case Spawning(k) => k <= |f.tasks| && forall i | 0 <= i < |f.tasks| :: f.tasks[i].Unspawned? <==> i >= k
    case Waiting => forall i | 0 <= i < |f.tasks| :: !f.tasks[i].Unspawned?
    case _ => forall i | 0 <= i < |f.tasks| :: f.tasks[i].Exited?
  }

  predicate JoinInv(f: Fork) {
    && f.wg == (if f.main.Fast? then 0 else Count(f.tasks, Live))
    && (f.closed ==> f.main.Collecting? || f.main.Returned?)
    && (f.main.Collecting? ==> f.closed)
    && (f.mode.BestEffort? ==> !f.main.Fast? && !f.main.Closing? && !f.main.Collecting?)
    && (f.main.Returned? && f.mode.Guaranteed? ==> f.ch == [])
    && (f.main.Fast? ==> f.ch == [] && f.errs == [])
    && !f.panicked
  }

  /** Each failed Guaranteed task has exactly one error, in the channel or collected. */
  ghost predicate OneErrorEach(tasks: seq<Task>, ch: seq<nat>, errs: seq<nat>) {
    && |ch| + |errs| == Count(tasks, Failed)
    && (forall i: nat :: (multiset(ch) + multiset(errs))[i] == if i < |tasks| && Failed(tasks[i]) then 1 else 0)
  }

  ghost predicate ErrorInv(f: Fork) {
    if f.mode.Guaranteed? then OneErrorEach(f.tasks, f.ch, f.errs) else f.ch == [] && f.errs == []
  }

  ghost predicate Inv(f: Fork) { SpawnInv(f) && JoinInv(f) && ErrorInv(f) }

  lemma BeginInv(mode: Mode, n: nat, fast: bool)
    requires fast ==> mode.Guaranteed? && n == 1
    ensures Inv(Begin(mode, n, fast))
  {
    var f := Begin(mode, n, fast);
    CountZero(f.tasks, Live);
    CountZero(f.tasks, Failed);
  }

  lemma SpawnStep(f: Fork, a: Action)
    requires SpawnInv(f) && JoinInv(f) && Enabled(f, a)
    ensures SpawnInv(Apply(f, a))
  {
    CountZero(f.tasks, Live);
  }

  lemma JoinStep(f: Fork, a: Action)
    requires SpawnInv(f) && JoinInv(f) && Enabled(f, a)
    ensures JoinInv(Apply(f, a))
  {
    CountZero(f.tasks, Live);
    match a
    case Spawn => if f.main.next < |f.tasks| { CountUpdate(f.tasks, f.main.next, Sending, Live); }
    case SendEnds(i, ok) => CountUpdate(f.tasks, i, Sent(ok), Live);
    case Meter(i) => CountUpdate(f.tasks, i, Metered(f.tasks[i].ok), Live);
    case Push(i) => CountUpdate(f.tasks, i, Pushed, Live);
    case Leave(i) => CountUpdate(f.tasks, i, Exited(f.tasks[i].Metered? && f.tasks[i].ok), Live);
    case MainStep => if f.main.Fast? { CountZero([Exited(f.tasks[0].ok)], Live); }
  }

  lemma SameErrors(tasks: seq<Task>, ch: seq<nat>, errs: seq<nat>, i: nat, t: Task)
    requires OneErrorEach(tasks, ch, errs) && i < |tasks| && (Failed(t) <==> Failed(tasks[i]))
    ensures OneErrorEach(tasks[i := t], ch, errs)
  {
    CountUpdate(tasks, i, t, Failed);
  }

  lemma NewError(tasks: seq<Task>, ch: seq<nat>, errs: seq<nat>, i: nat)
    requires OneErrorEach(tasks, ch, errs) && i < |tasks| && !Failed(tasks[i])
    ensures OneErrorEach(tasks[i := Pushed], ch + [i], errs)
  {
    CountUpdate(tasks, i, Pushed, Failed);
    var all, next := multiset(ch) + multiset(errs), tasks[i := Pushed];
    assert multiset(ch + [i]) + multiset(errs) == all + multiset{i};
    forall k: nat
      ensures (multiset(ch + [i]) + multiset(errs))[k] == if k < |next| && Failed(next[k]) then 1 else 0
    {
      assert all[k] == if k < |tasks| && Failed(tasks[k]) then 1 else 0;
      assert (all + multiset{i})[k] == all[k] + (if k == i then 1 else 0);
    }
  }

  lemma MovedError(tasks: seq<Task>, ch: seq<nat>, errs: seq<nat>)
    requires OneErrorEach(tasks, ch, errs) && ch != []
    ensures OneErrorEach(tasks, ch[1..], errs + [ch[0]])
  {
    assert ch == [ch[0]] + ch[1..];
    assert multiset(ch[1..]) + multiset(errs + [ch[0]]) == multiset(ch) + multiset(errs);
  }

  lemma FastError(ok: bool)
    ensures OneErrorEach([Exited(ok)], [], if ok then [] else [0])
  {
    CountAll([Exited(ok)], Failed);
    CountZero([Exited(ok)], Failed);
  }

  lemma ErrorStep(f: Fork, a: Action)
    requires SpawnInv(f) && JoinInv(f) && ErrorInv(f) && Enabled(f, a) && f.mode.Guaranteed?
    ensures ErrorInv(Apply(f, a))
  {
    match a
    case Spawn => if f.main.next < |f.tasks| { SameErrors(f.tasks, f.ch, f.errs, f.main.next, Sending); }
    case SendEnds(i, ok) => SameErrors(f.tasks, f.ch, f.errs, i, Sent(ok));
    case Meter(i) => SameErrors(f.tasks, f.ch, f.errs, i, Metered(f.tasks[i].ok));
    case Push(i) => NewError(f.tasks, f.ch, f.errs, i);
    case Leave(i) => SameErrors(f.tasks, f.ch, f.errs, i, Exited(f.tasks[i].Metered? && f.tasks[i].ok));
    case MainStep =>
      if f.main.Fast? {
        FastError(f.tasks[0].ok);
      } else if f.main.Collecting? && f.ch != [] {
        MovedError(f.tasks, f.ch, f.errs);
      }
  }

  lemma InvStep(f: Fork, a: Action)
    requires Inv(f) && Enabled(f, a)
    ensures Inv(Apply(f, a))
  {
    SpawnStep(f, a);
    JoinStep(f, a);
    if f.mode.Guaranteed? {
      ErrorStep(f, a);
    }
  }

  // ----- runs -----

  predicate ValidRun(f: Fork, run: seq<Action>)
    decreases |run|
  {
    run == [] || (Enabled(f, run[0]) && ValidRun(Apply(f, run[0]), run[1..]))
  }

  function Exec(f: Fork, run: seq<Action>): Fork
    requires ValidRun(f, run)
    decreases |run|
  {
    if run == [] then f else Exec(Apply(f, run[0]), run[1..])
  }

  lemma {:induction false} InvRun(f: Fork, run: seq<Action>)
    requires Inv(f) && ValidRun(f, run)
    ensures Inv(Exec(f, run)) && Exec(f, run).mode == f.mode && |Exec(f, run).tasks| == |f.tasks|
    decreases |run|
  {
    if run != [] {
      InvStep(f, run[0]);
      InvRun(Apply(f, run[0]), run[1..]);
    }
  }

  /** A task with an error to report finds an open channel with room, so it neither blocks nor panics. */
  lemma PushNeverBlocks(f: Fork, i: nat)
    requires Inv(f) && i < |f.tasks| && !f.main.Fast? && MustPush(f, i)
    ensures |f.ch| < |f.tasks| && !f.closed && Enabled(f, Push(i))
  {
    CountAll(f.tasks, Failed);
  }

  /** The results of all Sends of a finished fork-join. */
  function Results(f: Fork): seq<bool>
    requires forall i | 0 <= i < |f.tasks| :: f.tasks[i].Exited?
  {
    seq(|f.tasks|, i requires 0 <= i < |f.tasks| => f.tasks[i].ok)
  }

  /** Schedule independence: under every interleaving, and on the fast path alike, the call
      never panics, and when it returns every Send has ended, the collected errors are one
      per failed output, and there is none exactly if every Send succeeded. */
  lemma JoinIsScheduleIndependent(n: nat, fast: bool, run: seq<Action>)
    requires fast ==> n == 1
    requires ValidRun(Begin(Guaranteed, n, fast), run)
    ensures var f := Exec(Begin(Guaranteed, n, fast), run);
      && !f.panicked && |f.tasks| == n && |f.ch| <= n
      && (f.main.Returned? ==>
            && (forall i | 0 <= i < n :: f.tasks[i].Exited?)
            && (forall i: nat :: multiset(f.errs)[i] == if i < n && !Results(f)[i] then 1 else 0)
            && (f.errs == [] <==> forall i | 0 <= i < n :: Results(f)[i]))
  {
    BeginInv(Guaranteed, n, fast);
    InvRun(Begin(Guaranteed, n, fast), run);
    var f := Exec(Begin(Guaranteed, n, fast), run);
    CountAll(f.tasks, Failed);
    CountZero(f.tasks, Failed);
    if f.main.Returned? {
      assert multiset(f.ch) + multiset(f.errs) == multiset(f.errs);
    }
  }

  function TaskFuel(t: Task): nat {
    match t
    case Unspawned => 6 case Sending => 4 case Sent(_) => 3 case Metered(_) => 2 case Pushed => 1 case Exited(_) => 0
  }

  function MainFuel(f: Fork): nat {
    match f.main
    case Fast => 1 case Spawning(_) => 5 case Waiting => 3 case Closing => 2 case Collecting => 1 case Returned => 0
  }

  /** A bound on the steps left until the call returns. */
  function Fuel(f: Fork): nat {
    2 * Total(f.tasks, TaskFuel) + 2 * MainFuel(f) + |f.ch|
  }

  lemma TaskFuelStep(f: Fork, a: Action)
    requires SpawnInv(f) && Enabled(f, a) && !a.MainStep?
    ensures Fuel(Apply(f, a)) < Fuel(f)
  {
    match a
    case Spawn => if f.main.next < |f.tasks| { TotalUpdate(f.tasks, f.main.next, Sending, TaskFuel); }
    case SendEnds(i, ok) => TotalUpdate(f.tasks, i, Sent(ok), TaskFuel);
    case Meter(i) => TotalUpdate(f.tasks, i, Metered(f.tasks[i].ok), TaskFuel);
    case Push(i) => TotalUpdate(f.tasks, i, Pushed, TaskFuel);
    case Leave(i) => TotalUpdate(f.tasks, i, Exited(f.tasks[i].Metered? && f.tasks[i].ok), TaskFuel);
  }

  /** Every step uses up fuel ... */
  lemma FuelStep(f: Fork, a: Action)
    requires Inv(f) && Enabled(f, a)
    ensures Fuel(Apply(f, a)) < Fuel(f)
  {
    if !a.MainStep? {
      TaskFuelStep(f, a);
    } else if f.main.Fast? {
      var done := Exited(f.tasks[0].ok);
      TotalUpdate(f.tasks, 0, done, TaskFuel);
      assert f.tasks[0 := done] == [done];
    }
  }

  /** ... and as long as Sends end, some step is possible until the call has returned. */
  lemma NeverStuck(f: Fork) returns (a: Action)
    requires Inv(f) && !f.main.Returned?
    ensures Enabled(f, a)
  {
    if i: nat :| i < |f.tasks| && Live(f.tasks[i]) {
      match f.tasks[i]
      case Sending => a := SendEnds(i, true);
      case Sent(_) => a := Meter(i);
      case Metered(_) =>
        if f.main.Fast? {
          a := MainStep;
        } else if MustPush(f, i) {
          PushNeverBlocks(f, i);
          a := Push(i);
        } else {
          a := Leave(i);
        }
      case Pushed => a := Leave(i);
    } else {
      CountZero(f.tasks, Live);
      a := if f.main.Spawning? then Spawn else MainStep;
    }
  }
}
