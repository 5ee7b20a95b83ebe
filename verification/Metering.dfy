/** The handler's metrics add up, over every interleaving. */
module Metering {
  import opened Basics
  import FJ = ForkJoin
  import opened Send
  import opened Handler
  import Delivery

  predicate Answered200(q: Request) { q.pc == Finished(200) }
  predicate Answered500(q: Request) { q.pc == Finished(500) }
  predicate InFlight(q: Request) { !q.pc.Finished? }

  /** The number of outputs with a name. */
  function Named(outs: seq<Output>, name: string): nat {
    if outs == [] then 0 else Named(outs[..|outs| - 1], name) + (if outs[|outs| - 1].url == name then 1 else 0)
  }

  /** The task has passed its metric update, with this result. */
  predicate Counted(t: FJ.Task, ok: bool) {
    match t
    case Metered(k) => k == ok
    case Pushed => !ok
    case Exited(k) => k == ok
    case _ => false
  }

  /** The tasks of outputs with a name that have been metered with a result. */
  function TaskMeter(outs: seq<Output>, tasks: seq<FJ.Task>, name: string, ok: bool): nat
    requires |outs| == |tasks|
  {
    if outs == [] then 0
    else
      var n := |outs| - 1;
      TaskMeter(outs[..n], tasks[..n], name, ok) + (if outs[n].url == name && Counted(tasks[n], ok) then 1 else 0)
  }

  function ForkMeter(outs: seq<Output>, f: Option<FJ.Fork>, name: string, ok: bool): nat {
    if f.Some? && |f.value.tasks| == |outs| then TaskMeter(outs, f.value.tasks, name, ok) else 0
  }

  function ReqMeter(p: Params, q: Request, l: Label, ok: bool): nat {
    if l.mode.Guaranteed? then ForkMeter(p.guaranteed, q.g, l.name, ok) else ForkMeter(p.bestEffort, q.be, l.name, ok)
  }

  function Share(p: Params, l: Label, ok: bool): Request -> nat { q => ReqMeter(p, q, l, ok) }

  function SumMeter(p: Params, reqs: seq<Request>, l: Label, ok: bool): nat { Total(reqs, Share(p, l, ok)) }

  ghost predicate Inv(p: Params, s: State) {
    && s.meters.received == |s.reqs|
    && s.meters.succeeded == Count(s.reqs, Answered200)
    && s.meters.failed == Count(s.reqs, Answered500)
    && (forall l :: s.meters.ok[l] == SumMeter(p, s.reqs, l, true))
    && (forall l :: s.meters.bad[l] == SumMeter(p, s.reqs, l, false))
  }

  lemma {:induction false} TaskUpdate(
    outs: seq<Output>, tasks: seq<FJ.Task>, i: nat, t: FJ.Task, name: string, ok: bool)
    requires |outs| == |tasks| && i < |outs|
    ensures TaskMeter(outs, tasks[i := t], name, ok) == TaskMeter(outs, tasks, name, ok)
      - (if outs[i].url == name && Counted(tasks[i], ok) then 1 else 0)
      + (if outs[i].url == name && Counted(t, ok) then 1 else 0)
  {
    var n := |outs| - 1;
    if i == n {
      assert tasks[i := t][..n] == tasks[..n];
    } else {
      assert tasks[i := t][..n] == tasks[..n][i := t];
      TaskUpdate(outs[..n], tasks[..n], i, t, name, ok);
    }
  }

  lemma {:induction false} NothingCounted(outs: seq<Output>, tasks: seq<FJ.Task>, name: string, ok: bool)
    requires |outs| == |tasks| && forall i | 0 <= i < |tasks| :: !Counted(tasks[i], ok)
    ensures TaskMeter(outs, tasks, name, ok) == 0
  {
    if outs != [] {
      NothingCounted(outs[..|outs| - 1], tasks[..|outs| - 1], name, ok);
    }
  }

  /** A fan-out step counts one task if it is that task's metric update, and none otherwise. */
  lemma ForkStep(outs: seq<Output>, f: FJ.Fork, a: FJ.Action, name: string, ok: bool)
    requires FJ.Inv(f) && FJ.Enabled(f, a) && |f.tasks| == |outs|
    ensures |FJ.Apply(f, a).tasks| == |outs|
    ensures TaskMeter(outs, FJ.Apply(f, a).tasks, name, ok) == TaskMeter(outs, f.tasks, name, ok)
      + (if a.Meter? && outs[a.i].url == name && f.tasks[a.i].ok == ok then 1 else 0)
  {
    match a
    case Spawn => if f.main.next < |f.tasks| { TaskUpdate(outs, f.tasks, f.main.next, FJ.Sending, name, ok); }
    case SendEnds(i, k) => TaskUpdate(outs, f.tasks, i, FJ.Sent(k), name, ok);
    case Meter(i) => TaskUpdate(outs, f.tasks, i, FJ.Metered(f.tasks[i].ok), name, ok);
    case Push(i) => TaskUpdate(outs, f.tasks, i, FJ.Pushed, name, ok);
    case Leave(i) => TaskUpdate(outs, f.tasks, i, FJ.Exited(f.tasks[i].Metered? && f.tasks[i].ok), name, ok);
    case MainStep =>
      if f.main.Fast? {
        var done := FJ.Exited(f.tasks[0].ok);
        TaskUpdate(outs, f.tasks, 0, done, name, ok);
        assert f.tasks[0 := done] == [done];
      }
  }

  /** ... which is how it changes the metrics. */
  lemma MeteredStep(outs: seq<Output>, mode: FJ.Mode, m: Meters, f: FJ.Fork, a: FJ.Action, l: Label)
    requires FJ.Inv(f) && FJ.Enabled(f, a) && |f.tasks| == |outs|
    ensures var m' := if a.Meter? then Metered(m, outs, mode, f, a.i) else m;
      var t := FJ.Apply(f, a);
      && |t.tasks| == |outs|
      && m'.ok[l] - m.ok[l] ==
           (if l.mode != mode then 0
            else TaskMeter(outs, t.tasks, l.name, true) - TaskMeter(outs, f.tasks, l.name, true))
      && m'.bad[l] - m.bad[l] ==
           (if l.mode != mode then 0
            else TaskMeter(outs, t.tasks, l.name, false) - TaskMeter(outs, f.tasks, l.name, false))
  {
    ForkStep(outs, f, a, l.name, true);
    ForkStep(outs, f, a, l.name, false);
  }

  /** A request's step changes its own contribution exactly as it changes the metric. */
  lemma ReqStep(p: Params, cancelled: bool, m: Meters, q: Request, act: ReqAction, l: Label)
    requires Delivery.ShapeInv(p, q) && Delivery.ForksInv(p, q) && ReqEnabled(p, cancelled, q, act)
    ensures var t, m' := ReqNext(p, cancelled, q, act), ReqMeters(p, cancelled, m, q, act);
      && m'.ok[l] - m.ok[l] == ReqMeter(p, t, l, true) - ReqMeter(p, q, l, true)
      && m'.bad[l] - m.bad[l] == ReqMeter(p, t, l, false) - ReqMeter(p, q, l, false)
  {
    match act
    case Serve => ServeMeters(p, q, l);
    case GFork(a, _) => MeteredStep(p.guaranteed, FJ.Guaranteed, m, q.g.value, a, l);
    case BFork(a, _, _) => MeteredStep(p.bestEffort, FJ.BestEffort, m, q.be.value, a, l);
    case _ =>
  }

  lemma ServeMeters(p: Params, q: Request, l: Label)
    requires Delivery.ShapeInv(p, q)
    ensures ReqMeter(p, ServeStep(p, q), l, true) == ReqMeter(p, q, l, true)
    ensures ReqMeter(p, ServeStep(p, q), l, false) == ReqMeter(p, q, l, false)
  {
    NewForkCountsNothing(p.guaranteed, FJ.Guaranteed, l.name);
    NewForkCountsNothing(p.bestEffort, FJ.BestEffort, l.name);
  }

  lemma NewForkCountsNothing(outs: seq<Output>, mode: FJ.Mode, name: string)
    ensures var f := FJ.Begin(mode, |outs|, mode.Guaranteed? && |outs| == 1);
      ForkMeter(outs, Some(f), name, true) == 0 && ForkMeter(outs, Some(f), name, false) == 0
  {
    var f := FJ.Begin(mode, |outs|, mode.Guaranteed? && |outs| == 1);
    NothingCounted(outs, f.tasks, name, true);
    NothingCounted(outs, f.tasks, name, false);
  }

  /** Exactly the step that finishes a request counts it, by its answer. */
  lemma CodeStep(p: Params, cancelled: bool, m: Meters, q: Request, act: ReqAction)
    requires Delivery.ShapeInv(p, q) && ReqEnabled(p, cancelled, q, act)
    ensures var t, m' := ReqNext(p, cancelled, q, act), ReqMeters(p, cancelled, m, q, act);
      && m'.received == m.received
      && m'.succeeded - m.succeeded == (if Answered200(t) then 1 else 0) - (if Answered200(q) then 1 else 0)
      && m'.failed - m.failed == (if Answered500(t) then 1 else 0) - (if Answered500(q) then 1 else 0)
  {
  }

  lemma LabelStep(p: Params, s: State, r: nat, act: ReqAction, l: Label)
    requires Inv(p, s) && Enabled(p, s, On(r, act))
    requires Delivery.ShapeInv(p, s.reqs[r]) && Delivery.ForksInv(p, s.reqs[r])
    ensures var reqs := s.reqs[r := ReqNext(p, s.cancelled, s.reqs[r], act)];
      var m := ReqMeters(p, s.cancelled, s.meters, s.reqs[r], act);
      m.ok[l] == SumMeter(p, reqs, l, true) && m.bad[l] == SumMeter(p, reqs, l, false)
  {
    var next := ReqNext(p, s.cancelled, s.reqs[r], act);
    ReqStep(p, s.cancelled, s.meters, s.reqs[r], act, l);
    TotalUpdate(s.reqs, r, next, Share(p, l, true));
    TotalUpdate(s.reqs, r, next, Share(p, l, false));
  }

  lemma OnStep(p: Params, s: State, r: nat, act: ReqAction)
    requires Delivery.Inv(p, s) && Inv(p, s) && Enabled(p, s, On(r, act))
    ensures Inv(p, Apply(p, s, On(r, act)))
  {
    var q := s.reqs[r];
    var t := Apply(p, s, On(r, act));
    assert Delivery.ReqInv(p, s.posts, r, q);
    CodeStep(p, s.cancelled, s.meters, q, act);
    CountUpdate(s.reqs, r, t.reqs[r], Answered200);
    CountUpdate(s.reqs, r, t.reqs[r], Answered500);
    forall l
      ensures t.meters.ok[l] == SumMeter(p, t.reqs, l, true) && t.meters.bad[l] == SumMeter(p, t.reqs, l, false)
    {
      LabelStep(p, s, r, act, l);
    }
  }

  lemma ArriveStep(p: Params, s: State)
    requires Inv(p, s)
    ensures Inv(p, Apply(p, s, Arrive))
  {
    var t := Apply(p, s, Arrive);
    CountAppend(s.reqs, NEW_REQUEST, Answered200);
    CountAppend(s.reqs, NEW_REQUEST, Answered500);
    assert t.reqs[..|s.reqs|] == s.reqs;
  }

  lemma InvStep(p: Params, s: State, a: Action)
    requires Delivery.Inv(p, s) && Inv(p, s) && Enabled(p, s, a)
    ensures Inv(p, Apply(p, s, a))
  {
    if a.On? {
      OnStep(p, s, a.r, a.act);
    } else if a.Arrive? {
      ArriveStep(p, s);
    }
  }

  lemma {:induction false} InvRun(p: Params, s: State, run: seq<Action>)
    requires Delivery.Inv(p, s) && Inv(p, s) && ValidRun(p, s, run)
    ensures Inv(p, Exec(p, s, run))
    decreases |run|
  {
    if run != [] {
      InvStep(p, s, run[0]);
      Delivery.InvStep(p, s, run[0]);
      InvRun(p, Apply(p, s, run[0]), run[1..]);
    }
  }

  lemma ReachableInv(p: Params, s: State)
    requires Reachable(p, s)
    ensures Delivery.Inv(p, s) && Inv(p, s)
  {
    var run :| ValidRun(p, INITIAL, run) && Exec(p, INITIAL, run) == s;
    InvRun(p, INITIAL, run);
    Delivery.InvRun(p, INITIAL, run);
  }

  // ----- theorems -----

  lemma {:induction false} Partition(reqs: seq<Request>)
    requires forall r | 0 <= r < |reqs| && reqs[r].pc.Finished? :: reqs[r].pc.code == 200 || reqs[r].pc.code == 500
    ensures |reqs| == Count(reqs, Answered200) + Count(reqs, Answered500) + Count(reqs, InFlight)
  {
    if reqs != [] {
      Partition(reqs[..|reqs| - 1]);
    }
  }

  /** Received requests are succeeded, failed, or in flight, in every reachable state. */
  lemma RequestsAreConserved(p: Params, s: State)
    requires Reachable(p, s)
    ensures s.meters.received == s.meters.succeeded + s.meters.failed + Count(s.reqs, InFlight)
  {
    ReachableInv(p, s);
    forall r | 0 <= r < |s.reqs| && s.reqs[r].pc.Finished? ensures s.reqs[r].pc.code in {200, 500} {
      assert Delivery.ReqInv(p, s.posts, r, s.reqs[r]);
    }
    Partition(s.reqs);
  }

  lemma {:induction false} AllCounted(outs: seq<Output>, tasks: seq<FJ.Task>, name: string)
    requires |outs| == |tasks| && forall i | 0 <= i < |tasks| :: tasks[i].Exited?
    ensures TaskMeter(outs, tasks, name, true) + TaskMeter(outs, tasks, name, false) == Named(outs, name)
    ensures (forall i | 0 <= i < |tasks| :: tasks[i].ok) ==> TaskMeter(outs, tasks, name, true) == Named(outs, name)
  {
    if outs != [] {
      AllCounted(outs[..|outs| - 1], tasks[..|outs| - 1], name);
    }
  }

  /** How many outputs with a name had a result. */
  function NamedWith(outs: seq<Output>, results: seq<bool>, name: string, ok: bool): nat
    requires |outs| == |results|
  {
    if outs == [] then 0
    else
      var n := |outs| - 1;
      NamedWith(outs[..n], results[..n], name, ok) + (if outs[n].url == name && results[n] == ok then 1 else 0)
  }

  lemma {:induction false} ExitedMeters(
    outs: seq<Output>, tasks: seq<FJ.Task>, results: seq<bool>, name: string, ok: bool)
    requires |outs| == |tasks| == |results|
    requires forall i | 0 <= i < |tasks| :: tasks[i] == FJ.Exited(results[i])
    ensures TaskMeter(outs, tasks, name, ok) == NamedWith(outs, results, name, ok)
  {
    if outs != [] {
      var n := |outs| - 1;
      ExitedMeters(outs[..n], tasks[..n], results[..n], name, ok);
    }
  }

  /** The metrics after a run of a fan-out, from its metric updates. */
  function RunMeters(m: Meters, outs: seq<Output>, f: FJ.Fork, run: seq<FJ.Action>): Meters
    requires FJ.ValidRun(f, run)
    decreases |run|
  {
    if run == [] then m
    else
      var next := if run[0].Meter? then Metered(m, outs, f.mode, f, run[0].i) else m;
      RunMeters(next, outs, FJ.Apply(f, run[0]), run[1..])
  }

  /** A run adds to the metrics exactly what it adds to the tasks that count as metered. */
  lemma {:induction false} RunMetersTasks(m: Meters, outs: seq<Output>, f: FJ.Fork, run: seq<FJ.Action>, l: Label)
    requires FJ.Inv(f) && FJ.ValidRun(f, run) && |f.tasks| == |outs|
    ensures |FJ.Exec(f, run).tasks| == |outs|
    ensures var ts, m' := FJ.Exec(f, run).tasks, RunMeters(m, outs, f, run);
      if l.mode != f.mode then m'.ok[l] == m.ok[l] && m'.bad[l] == m.bad[l]
      else
        && m'.ok[l] + TaskMeter(outs, f.tasks, l.name, true) == m.ok[l] + TaskMeter(outs, ts, l.name, true)
        && m'.bad[l] + TaskMeter(outs, f.tasks, l.name, false) == m.bad[l] + TaskMeter(outs, ts, l.name, false)
    decreases |run|
  {
    if run != [] {
      var a := run[0];
      MeteredStep(outs, f.mode, m, f, a, l);
      FJ.InvStep(f, a);
      var next := if a.Meter? then Metered(m, outs, f.mode, f, a.i) else m;
      RunMetersTasks(next, outs, FJ.Apply(f, a), run[1..], l);
    }
  }

  /** What a guaranteed fan-out has added to the metrics when it returns depends only on the
      results of its Sends, under every schedule and on the fast path of a single output alike:
      per name one success for each successful and one failure for each failed output. */
  lemma FastPathMetersAlike(m: Meters, outs: seq<Output>, fast: bool, run: seq<FJ.Action>, l: Label)
    requires fast ==> |outs| == 1
    requires FJ.ValidRun(FJ.Begin(FJ.Guaranteed, |outs|, fast), run)
    requires FJ.Exec(FJ.Begin(FJ.Guaranteed, |outs|, fast), run).main.Returned?
    ensures var f0 := FJ.Begin(FJ.Guaranteed, |outs|, fast);
      var f, m' := FJ.Exec(f0, run), RunMeters(m, outs, f0, run);
      && |f.tasks| == |outs| && (forall i | 0 <= i < |outs| :: f.tasks[i].Exited?)
      && m'.ok[l] == m.ok[l] + (if l.mode.Guaranteed? then NamedWith(outs, FJ.Results(f), l.name, true) else 0)
      && m'.bad[l] == m.bad[l] + (if l.mode.Guaranteed? then NamedWith(outs, FJ.Results(f), l.name, false) else 0)
  {
    FJ.JoinIsScheduleIndependent(|outs|, fast, run);
    var f0 := FJ.Begin(FJ.Guaranteed, |outs|, fast);
    var f := FJ.Exec(f0, run);
    FJ.BeginInv(FJ.Guaranteed, |outs|, fast);
    RunMetersTasks(m, outs, f0, run, l);
    NothingCounted(outs, f0.tasks, l.name, true);
    NothingCounted(outs, f0.tasks, l.name, false);
    ExitedMeters(outs, f.tasks, FJ.Results(f), l.name, true);
    ExitedMeters(outs, f.tasks, FJ.Results(f), l.name, false);
  }

  lemma {:induction false} SumAtLeast(p: Params, reqs: seq<Request>, name: string)
    requires forall r | 0 <= r < |reqs| && reqs[r].pc == Finished(200) ::
      ReqMeter(p, reqs[r], Label(name, FJ.Guaranteed), true) == Named(p.guaranteed, name)
    ensures SumMeter(p, reqs, Label(name, FJ.Guaranteed), true) >= Count(reqs, Answered200) * Named(p.guaranteed, name)
  {
    if reqs != [] {
      var n := |reqs| - 1;
      SumAtLeast(p, reqs[..n], name);
      Distribute(Count(reqs[..n], Answered200), Named(p.guaranteed, name));
    }
  }

  /** Per name, successful guaranteed sends are at least the succeeded requests times
      the guaranteed outputs of that name. */
  lemma SuccessesCoverRequests(p: Params, s: State, name: string)
    requires Reachable(p, s)
    ensures s.meters.ok[Label(name, FJ.Guaranteed)] >= s.meters.succeeded * Named(p.guaranteed, name)
  {
    ReachableInv(p, s);
    forall r | 0 <= r < |s.reqs| && s.reqs[r].pc == Finished(200)
      ensures ReqMeter(p, s.reqs[r], Label(name, FJ.Guaranteed), true) == Named(p.guaranteed, name)
    {
      var q := s.reqs[r];
      assert Delivery.ReqInv(p, s.posts, r, q);
      var f := q.g.value;
      forall i | 0 <= i < |f.tasks| ensures f.tasks[i].ok {
        Delivery.CleanMeansSucceeded(f, i);
      }
      AllCounted(p.guaranteed, f.tasks, name);
    }
    SumAtLeast(p, s.reqs, name);
  }

  /** Every fan-out that was started has returned. */
  predicate Quiescent(s: State) {
    forall r | 0 <= r < |s.reqs| ::
      && (s.reqs[r].g.Some? ==> s.reqs[r].g.value.main.Returned?)
      && (s.reqs[r].be.Some? ==> s.reqs[r].be.value.main.Returned?)
  }

  predicate Forwarded(q: Request) { q.g.Some? }
  predicate Detached(q: Request) { q.be.Some? }

  predicate GotTo(q: Request, mode: FJ.Mode) { if mode.Guaranteed? then Forwarded(q) else Detached(q) }

  /** How many requests reached the stage that a label's mode stands for. */
  function Reached(reqs: seq<Request>, mode: FJ.Mode): nat {
    if mode.Guaranteed? then Count(reqs, Forwarded) else Count(reqs, Detached)
  }

  lemma {:induction false} SumIsExact(p: Params, reqs: seq<Request>, l: Label)
    requires forall r | 0 <= r < |reqs| ::
      ReqMeter(p, reqs[r], l, true) + ReqMeter(p, reqs[r], l, false) ==
        if GotTo(reqs[r], l.mode) then Named(Delivery.Outs(p, l.mode), l.name) else 0
    ensures SumMeter(p, reqs, l, true) + SumMeter(p, reqs, l, false) ==
      Reached(reqs, l.mode) * Named(Delivery.Outs(p, l.mode), l.name)
  {
    if reqs != [] {
      var n := |reqs| - 1;
      SumIsExact(p, reqs[..n], l);
      Distribute(Reached(reqs[..n], l.mode), Named(Delivery.Outs(p, l.mode), l.name));
    }
  }

  /** At rest, per label, successes plus failures are the outputs of that name times the
      requests that reached that stage. */
  lemma SendsAreConserved(p: Params, s: State, l: Label)
    requires Reachable(p, s) && Quiescent(s)
    ensures s.meters.ok[l] + s.meters.bad[l] == Reached(s.reqs, l.mode) * Named(Delivery.Outs(p, l.mode), l.name)
  {
    ReachableInv(p, s);
    forall r | 0 <= r < |s.reqs|
      ensures ReqMeter(p, s.reqs[r], l, true) + ReqMeter(p, s.reqs[r], l, false) ==
        if GotTo(s.reqs[r], l.mode) then Named(Delivery.Outs(p, l.mode), l.name) else 0
    {
      var q := s.reqs[r];
      assert Delivery.ReqInv(p, s.posts, r, q);
      if l.mode.Guaranteed? && q.g.Some? {
        AllCounted(p.guaranteed, q.g.value.tasks, l.name);
      } else if l.mode.BestEffort? && q.be.Some? {
        AllCounted(p.bestEffort, q.be.value.tasks, l.name);
      }
    }
    SumIsExact(p, s.reqs, l);
  }

  // ----- what the counts mean -----

  /** Output i of a mode served request r. */
  ghost predicate IsServed(p: Params, s: State, r: nat, mode: FJ.Mode, i: nat)
    requires r < |s.reqs| && i < |Delivery.Outs(p, mode)|
  {
    && s.reqs[r].data.Some?
    && Delivery.Served(Delivery.Outs(p, mode)[i], p.gzip, s.reqs[r].data.value, s.posts, r, mode, i)
  }

  /** How many of the first n outputs of a label request r was (ok) or was not (!ok) served by. */
  ghost function ServedBy(p: Params, s: State, r: nat, l: Label, ok: bool, n: nat): nat
    requires r < |s.reqs| && n <= |Delivery.Outs(p, l.mode)|
  {
    if n == 0 then 0
    else
      ServedBy(p, s, r, l, ok, n - 1)
      + (if Delivery.Outs(p, l.mode)[n - 1].url == l.name && IsServed(p, s, r, l.mode, n - 1) == ok then 1 else 0)
  }

  /** The same over the first k requests, as far as they reached the label's stage. */
  ghost function ServedInAll(p: Params, s: State, l: Label, ok: bool, k: nat): nat
    requires k <= |s.reqs|
  {
    if k == 0 then 0
    else
      ServedInAll(p, s, l, ok, k - 1)
      + (if GotTo(s.reqs[k - 1], l.mode) then ServedBy(p, s, k - 1, l, ok, |Delivery.Outs(p, l.mode)|) else 0)
  }

  lemma TaskIsServed(p: Params, s: State, r: nat, mode: FJ.Mode, i: nat)
    requires Reachable(p, s) && Quiescent(s) && r < |s.reqs| && i < |Delivery.Outs(p, mode)|
    requires Delivery.ForkOf(s.reqs[r], mode).Some?
    requires i < |Delivery.ForkOf(s.reqs[r], mode).value.tasks|
    ensures Delivery.ForkOf(s.reqs[r], mode).value.tasks[i] == FJ.Exited(IsServed(p, s, r, mode, i))
  {
    Delivery.ReachableInv(p, s);
    assert Delivery.ReqInv(p, s.posts, r, s.reqs[r]);
    Delivery.ResultIsAnswer(p, s, r, mode, i);
  }

  lemma {:induction false} MeterIsServed(p: Params, s: State, r: nat, l: Label, ok: bool, n: nat)
    requires Reachable(p, s) && Quiescent(s) && r < |s.reqs| && n <= |Delivery.Outs(p, l.mode)|
    requires Delivery.ForkOf(s.reqs[r], l.mode).Some?
    requires |Delivery.ForkOf(s.reqs[r], l.mode).value.tasks| == |Delivery.Outs(p, l.mode)|
    ensures var tasks := Delivery.ForkOf(s.reqs[r], l.mode).value.tasks;
      TaskMeter(Delivery.Outs(p, l.mode)[..n], tasks[..n], l.name, ok) == ServedBy(p, s, r, l, ok, n)
  {
    if n > 0 {
      var outs, tasks := Delivery.Outs(p, l.mode), Delivery.ForkOf(s.reqs[r], l.mode).value.tasks;
      MeterIsServed(p, s, r, l, ok, n - 1);
      assert outs[..n][..n - 1] == outs[..n - 1] && tasks[..n][..n - 1] == tasks[..n - 1];
      TaskIsServed(p, s, r, l.mode, n - 1);
    }
  }

  lemma RequestIsServed(p: Params, s: State, r: nat, l: Label, ok: bool)
    requires Reachable(p, s) && Quiescent(s) && r < |s.reqs|
    ensures ReqMeter(p, s.reqs[r], l, ok) ==
      if GotTo(s.reqs[r], l.mode) then ServedBy(p, s, r, l, ok, |Delivery.Outs(p, l.mode)|) else 0
  {
    var q, outs := s.reqs[r], Delivery.Outs(p, l.mode);
    Delivery.ReachableInv(p, s);
    assert Delivery.ReqInv(p, s.posts, r, q);
    if GotTo(q, l.mode) {
      var tasks := Delivery.ForkOf(q, l.mode).value.tasks;
      MeterIsServed(p, s, r, l, ok, |outs|);
      assert outs[..|outs|] == outs && tasks[..|outs|] == tasks;
    }
  }

  lemma {:induction false} SumIsServed(p: Params, s: State, l: Label, ok: bool, k: nat)
    requires Reachable(p, s) && Quiescent(s) && k <= |s.reqs|
    ensures SumMeter(p, s.reqs[..k], l, ok) == ServedInAll(p, s, l, ok, k)
  {
    if k > 0 {
      var reqs := s.reqs[..k];
      SumIsServed(p, s, l, ok, k - 1);
      RequestIsServed(p, s, k - 1, l, ok);
      assert reqs[..k - 1] == s.reqs[..k - 1] && reqs[k - 1] == s.reqs[k - 1];
      assert SumMeter(p, reqs, l, ok) == SumMeter(p, reqs[..k - 1], l, ok) + ReqMeter(p, reqs[k - 1], l, ok);
    }
  }

  /** What the counts mean at rest: per label, the successes are the outputs of that name, over all
      requests that reached the stage, that answered 2xx to a POST of the request (as long as an
      attempt is configured), and the failures are the others. */
  lemma CountsAreAnswers(p: Params, s: State, l: Label)
    requires Reachable(p, s) && Quiescent(s)
    ensures s.meters.ok[l] == ServedInAll(p, s, l, true, |s.reqs|)
    ensures s.meters.bad[l] == ServedInAll(p, s, l, false, |s.reqs|)
  {
    ReachableInv(p, s);
    SumIsServed(p, s, l, true, |s.reqs|);
    SumIsServed(p, s, l, false, |s.reqs|);
    assert s.reqs[..|s.reqs|] == s.reqs;
  }
}
