/** Requests and their best-effort tasks come to an end, as long as Sends do. */
module Progress {
  import opened Basics
  import FJ = ForkJoin
  import opened Send
  import opened Handler
  import Delivery

  function NewForkFuel(outs: seq<Output>, mode: FJ.Mode): nat {
    FJ.Fuel(FJ.Begin(mode, |outs|, mode.Guaranteed? && |outs| == 1))
  }

  function ForkFuel(f: Option<FJ.Fork>): nat { if f.Some? then FJ.Fuel(f.value) else 0 }

  /** The steps of the handler goroutine that are left, with those of the fan-outs still to start. */
  function StageFuel(p: Params, pc: Pc): nat {
    var g, b := NewForkFuel(p.guaranteed, FJ.Guaranteed), NewForkFuel(p.bestEffort, FJ.BestEffort);
    match pc
    case Reading => |p.procs| + g + b + 6
    case Processing(k, _) => (if k <= |p.procs| then |p.procs| - k else 0) + g + b + 5
    case Forwarding => b + 4
    case Launching => b + 3
    case Answered(_) => 1
    case Finished(_) => 0
  }

  function Fuel(p: Params, q: Request): nat { StageFuel(p, q.pc) + ForkFuel(q.g) + ForkFuel(q.be) }

  lemma ServeFuel(p: Params, q: Request)
    requires Delivery.ShapeInv(p, q) && ReqEnabled(p, false, q, Serve)
    ensures Fuel(p, ServeStep(p, q)) < Fuel(p, q)
  {
  }

  /** Every step of a request uses up some of its fuel. */
  lemma FuelStep(p: Params, cancelled: bool, q: Request, act: ReqAction)
    requires Delivery.ShapeInv(p, q) && Delivery.ForksInv(p, q) && ReqEnabled(p, cancelled, q, act)
    ensures Fuel(p, ReqNext(p, cancelled, q, act)) < Fuel(p, q)
  {
    match act
    case Serve => ServeFuel(p, q);
    case GFork(a, _) => FJ.FuelStep(q.g.value, a);
    case BFork(a, _, _) => FJ.FuelStep(q.be.value, a);
    case _ =>
  }

  /** How many steps of a run belong to request r. */
  function StepsOf(run: seq<Action>, r: nat): nat {
    if run == [] then 0 else (if run[0].On? && run[0].r == r then 1 else 0) + StepsOf(run[1..], r)
  }

  /** Termination: in every run, whatever the other requests and Shutdown calls do, a request
      with its fan-outs and its best-effort task takes at most as many steps as it has fuel. */
  lemma {:induction false} RequestsAreBounded(p: Params, s: State, run: seq<Action>, r: nat)
    requires Delivery.Inv(p, s) && ValidRun(p, s, run) && r < |s.reqs|
    ensures r < |Exec(p, s, run).reqs| && StepsOf(run, r) + Fuel(p, Exec(p, s, run).reqs[r]) <= Fuel(p, s.reqs[r])
    decreases |run|
  {
    if run != [] {
      var a := run[0];
      Delivery.InvStep(p, s, a);
      if a.On? && a.r == r {
        assert Delivery.ReqInv(p, s.posts, r, s.reqs[r]);
        FuelStep(p, s.cancelled, s.reqs[r], a.act);
      }
      RequestsAreBounded(p, Apply(p, s, a), run[1..], r);
    }
  }

  /** Some Send of any data is possible: the endpoint may refuse it. */
  lemma SomeSend(o: Output, g: Gzip, data: Bytes) returns (run: Run)
    ensures Possible(o, g, data, run) && (run.err.Some? ==> !run.err.value.Cancelled?)
  {
    var refusal := Reply(400, []);
    var w := World(_ => refusal, _ => 0, _ => 0.0, _ => false, (_, _, _, _) => 0);
    var wire := Wire(o, g, data);
    run :=
      if wire.None? then Run(Some(GzipFailed), [], [])
      else if o.attempts >= 1 && !o.urlOk then Run(Some(BadRequest), [], [])
      else if o.attempts <= 0 then Run(None, [], [])
      else Run(Some(ErrorOf(refusal)), [Attempt(wire.value, Zips(o), refusal)], []);
    assert Meets(o, g, data, w, run);
  }

  lemma ForkGoesOn(outs: seq<Output>, g: Gzip, data: Bytes, f: FJ.Fork) returns (a: FJ.Action, run: Run)
    requires FJ.Inv(f) && !f.main.Returned? && |f.tasks| == |outs|
    ensures ForkEnabled(outs, g, Some(data), Some(f), a, run)
    ensures run.err.Some? ==> !run.err.value.Cancelled?
  {
    a := FJ.NeverStuck(f);
    run := Run(None, [], []);
    if a.SendEnds? {
      run := SomeSend(outs[a.i], g, data);
      a := FJ.SendEnds(a.i, run.err.None?);
    }
  }

  /** No deadlock: until a request is answered and counted and its best-effort task is over,
      one of its own steps is possible. */
  lemma RequestGoesOn(p: Params, s: State, r: nat) returns (act: ReqAction)
    requires Reachable(p, s) && r < |s.reqs|
    requires !s.reqs[r].pc.Finished? || Active(s.reqs[r])
    ensures Enabled(p, s, On(r, act))
  {
    Delivery.ReachableInv(p, s);
    var q := s.reqs[r];
    assert Delivery.ReqInv(p, s.posts, r, q);
    if q.pc.Forwarding? && !q.g.value.main.Returned? {
      var a, run := ForkGoesOn(p.guaranteed, p.gzip, q.data.value, q.g.value);
      act := GFork(a, run);
    } else if !q.pc.Finished? {
      act := if q.pc.Reading? then ReadFails else Serve;
    } else {
      var a, run := ForkGoesOn(p.bestEffort, p.gzip, q.data.value, q.be.value);
      act := BFork(a, run, false);
    }
  }

  /** Nothing is ruled out: while a Send is under way, it may end in every way the environment
      allows (cancelled, for a best-effort one, only once the shutdown context is), and the task
      then has exactly that result. */
  lemma SendsMayEndAnyhow(p: Params, s: State, r: nat, mode: FJ.Mode, i: nat, run: Run)
    requires Reachable(p, s) && r < |s.reqs| && Delivery.ForkOf(s.reqs[r], mode).Some? && s.reqs[r].data.Some?
    requires var f := Delivery.ForkOf(s.reqs[r], mode).value; i < |f.tasks| && f.tasks[i].Sending?
    requires i < |Delivery.Outs(p, mode)|
    requires Possible(Delivery.Outs(p, mode)[i], p.gzip, s.reqs[r].data.value, run)
    requires mode.BestEffort? && run.err.Some? && run.err.value.Cancelled? ==> s.cancelled
    ensures var end := FJ.SendEnds(i, run.err.None?);
      var act := if mode.Guaranteed? then GFork(end, run)
                 else BFork(end, run, run.err.Some? && run.err.value.Cancelled?);
      && Enabled(p, s, On(r, act))
      && Delivery.ForkOf(Apply(p, s, On(r, act)).reqs[r], mode).value.tasks[i] == FJ.Sent(run.err.None?)
  {
  }
}
