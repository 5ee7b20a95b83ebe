/** The audit handler as a step machine: any number of concurrent requests, their
    guaranteed fan-outs and detached best-effort tasks, metrics, and Shutdown calls. */
module Handler {
  import opened Basics
  import FJ = ForkJoin
  import opened Send

  type Processor = Bytes -> Option<Bytes>

  datatype Params = Params(procs: seq<Processor>, guaranteed: seq<Output>, bestEffort: seq<Output>, gzip: Gzip)

  /** The processors applied in order; None as soon as one fails. */
  function Chain(procs: seq<Processor>, data: Bytes): Option<Bytes> {
    if procs == [] then Some(data)
    else
      var before := Chain(procs[..|procs| - 1], data);
      if before.None? then None else procs[|procs| - 1](before.value)
  }

  datatype Pc =
    | Reading | Processing(next: nat, cur: Bytes) | Forwarding | Launching
    | Answered(code: int) | Finished(code: int)

  /** `data` is the processed body once the chain succeeded, `g` and `be` the two fan-outs,
      `saw` the best-effort outputs whose Send observed the cancelled shutdown context. */
  datatype Request = Request(
    body: Option<Bytes>, data: Option<Bytes>, g: Option<FJ.Fork>, be: Option<FJ.Fork>, saw: set<nat>, pc: Pc)

  /** One POST as an endpoint sees it, tagged with the request it came from. */
  datatype Post = Post(req: nat, mode: FJ.Mode, out: nat, attempt: Attempt)

  datatype Label = Label(name: string, mode: FJ.Mode)

  datatype Meters = Meters(received: nat, succeeded: nat, failed: nat, ok: multiset<Label>, bad: multiset<Label>)

  /** A Shutdown call: `launched` are the requests whose best-effort task existed at the call,
      `done` its helper saw the wait group at zero, `clean` the context was not cancelled then. */
  datatype Shutdown = Shutdown(
    start: nat, timeout: nat, launched: set<nat>, done: bool, clean: bool, status: Status)

  datatype Status = Waiting | ReturnedNil | TimedOut

  datatype State = State(
    now: nat, reqs: seq<Request>, meters: Meters, posts: set<Post>, wg: int, cancelled: bool, calls: seq<Shutdown>)

  /** A step of one request: of its handler goroutine (`Serve`) or of one of its fan-outs;
      `run` is the Send that ends in such a step. */
  datatype ReqAction =
    | ReadFails | ReadOk(body: Bytes) | Serve
    | GFork(a: FJ.Action, run: Run) | BFork(a: FJ.Action, run: Run, saw: bool)

  datatype Action =
    | Arrive | On(r: nat, act: ReqAction) | Advance(dt: nat)
    | ShutCall(timeout: nat) | ShutSeen(c: nat) | ShutDone(c: nat) | ShutTimeout(c: nat)

  const NEW_REQUEST := Request(None, None, None, None, {}, Reading)

  /** Some environment makes a Send of `data` go this way. */
  ghost predicate Possible(o: Output, g: Gzip, data: Bytes, run: Run) {
    exists w :: Meets(o, g, data, w, run)
  }

  /** A fan-out step is possible, and a Send that ends in it is a run of its output. */
  ghost predicate ForkEnabled(
    outs: seq<Output>, g: Gzip, data: Option<Bytes>, f: Option<FJ.Fork>, a: FJ.Action, run: Run)
  {
    && f.Some? && FJ.Enabled(f.value, a)
    && (a.SendEnds? ==>
          data.Some? && a.i < |outs| && Possible(outs[a.i], g, data.value, run) && a.ok == run.err.None?)
  }

  ghost predicate ReqEnabled(p: Params, cancelled: bool, q: Request, act: ReqAction) {
    match act
    case ReadFails | ReadOk(_) => q.pc.Reading?
    case Serve =>
      (match q.pc
       case Reading => false
       case Processing(k, _) => k <= |p.procs|
       case Forwarding => q.g.Some? && q.g.value.main.Returned?
       case Launching => true
       case Answered(_) => true
       case Finished(_) => false)
    case GFork(a, run) => ForkEnabled(p.guaranteed, p.gzip, q.data, q.g, a, run)
    case BFork(a, run, saw) =>
      && ForkEnabled(p.bestEffort, p.gzip, q.data, q.be, a, run)
      && (saw ==> cancelled && a.SendEnds?)
      && (a.SendEnds? && run.err.Some? && run.err.value.Cancelled? ==> saw)
  }

  function ServeStep(p: Params, q: Request): Request
    requires q.pc.Processing? ==> q.pc.next <= |p.procs|
  {
    match q.pc
    case Processing(k, cur) =>
      if k < |p.procs| then
        var out := p.procs[k](cur);
        q.(pc := if out.None? then Answered(500) else Processing(k + 1, out.value))
      else
        var n := |p.guaranteed|;
        q.(pc := Forwarding, data := Some(cur), g := Some(FJ.Begin(FJ.Guaranteed, n, n == 1)))
    case Forwarding => q.(pc := if q.g.Some? && q.g.value.errs == [] then Launching else Answered(500))
    case Launching =>
      var n := |p.bestEffort|;
      if n > 0 then q.(pc := Answered(200), be := Some(FJ.Begin(FJ.BestEffort, n, false)))
      else q.(pc := Answered(200))
    case Answered(code) => q.(pc := Finished(code))
    case _ => q
  }

  ghost function ReqNext(p: Params, cancelled: bool, q: Request, act: ReqAction): Request
    requires ReqEnabled(p, cancelled, q, act)
  {
    match act
    case ReadFails => q.(pc := Answered(500))
    case ReadOk(body) => q.(body := Some(body), pc := Processing(0, body))
    case Serve => ServeStep(p, q)
    case GFork(a, _) => q.(g := Some(FJ.Apply(q.g.value, a)))
    case BFork(a, _, saw) =>
      q.(be := Some(FJ.Apply(q.be.value, a)), saw := if saw then q.saw + {a.i} else q.saw)
  }

  /** The POSTs that become visible when a Send ends. */
  function ReqPosts(r: nat, act: ReqAction): set<Post> {
    match act
    case GFork(a, run) =>
      if a.SendEnds? then set x | x in run.trace :: Post(r, FJ.Guaranteed, a.i, x) else {}
    case BFork(a, run, _) =>
      if a.SendEnds? then set x | x in run.trace :: Post(r, FJ.BestEffort, a.i, x) else {}
    case _ => {}
  }

  function Metered(m: Meters, outs: seq<Output>, mode: FJ.Mode, f: FJ.Fork, i: nat): Meters
    requires i < |f.tasks| && f.tasks[i].Sent?
  {
    if i >= |outs| then m
    else if f.tasks[i].ok then m.(ok := m.ok + multiset{Label(outs[i].url, mode)})
    else m.(bad := m.bad + multiset{Label(outs[i].url, mode)})
  }

  ghost function ReqMeters(p: Params, cancelled: bool, m: Meters, q: Request, act: ReqAction): Meters
    requires ReqEnabled(p, cancelled, q, act)
  {
    match act
    case Serve =>
      if q.pc.Answered? then (if q.pc.code == 200 then m.(succeeded := m.succeeded + 1) else m.(failed := m.failed + 1))
      else m
    case GFork(a, _) => if a.Meter? then Metered(m, p.guaranteed, FJ.Guaranteed, q.g.value, a.i) else m
    case BFork(a, _, _) => if a.Meter? then Metered(m, p.bestEffort, FJ.BestEffort, q.be.value, a.i) else m
    case _ => m
  }

  /** The best-effort task is launched and has not left the handler's wait group. */
  predicate Active(q: Request) { q.be.Some? && !q.be.value.main.Returned? }

  /** How the step changes the handler's wait group. */
  ghost function ReqWg(p: Params, cancelled: bool, q: Request, act: ReqAction): int
    requires ReqEnabled(p, cancelled, q, act)
  {
    if act.Serve? && q.pc.Launching? && |p.bestEffort| > 0 then 1
    else if act.BFork? && !q.be.value.main.Returned? && FJ.Apply(q.be.value, act.a).main.Returned? then -1
    else 0
  }

  ghost predicate Enabled(p: Params, s: State, a: Action) {
    match a
    case Arrive | Advance(_) | ShutCall(_) => true
    case On(r, act) => r < |s.reqs| && ReqEnabled(p, s.cancelled, s.reqs[r], act)
    case ShutSeen(c) => c < |s.calls| && !s.calls[c].done && s.wg == 0
    case ShutDone(c) => c < |s.calls| && s.calls[c].status.Waiting? && s.calls[c].done
    case ShutTimeout(c) =>
      c < |s.calls| && s.calls[c].status.Waiting? && s.now >= s.calls[c].start + s.calls[c].timeout
  }

  ghost function Launched(reqs: seq<Request>): set<nat> {
    set r: nat | r < |reqs| && reqs[r].be.Some?
  }

  ghost function NextCalls(s: State, a: Action): seq<Shutdown> {
    match a
    case ShutCall(timeout) => s.calls + [Shutdown(s.now, timeout, Launched(s.reqs), false, false, Waiting)]
    case ShutSeen(c) =>
      if c < |s.calls| then s.calls[c := s.calls[c].(done := true, clean := !s.cancelled)] else s.calls
    case ShutDone(c) => if c < |s.calls| then s.calls[c := s.calls[c].(status := ReturnedNil)] else s.calls
    case ShutTimeout(c) => if c < |s.calls| then s.calls[c := s.calls[c].(status := TimedOut)] else s.calls
    case _ => s.calls
  }

  ghost function Apply(p: Params, s: State, a: Action): State
    requires Enabled(p, s, a)
  {
    match a
    case Arrive => s.(reqs := s.reqs + [NEW_REQUEST], meters := s.meters.(received := s.meters.received + 1))
    case Advance(dt) => s.(now := s.now + dt)
    case On(r, act) =>
      var q := s.reqs[r];
      State(s.now, s.reqs[r := ReqNext(p, s.cancelled, q, act)], ReqMeters(p, s.cancelled, s.meters, q, act),
            s.posts + ReqPosts(r, act), s.wg + ReqWg(p, s.cancelled, q, act), s.cancelled, s.calls)
    case ShutCall(_) | ShutSeen(_) => s.(calls := NextCalls(s, a))
    case ShutDone(_) | ShutTimeout(_) => s.(calls := NextCalls(s, a), cancelled := true)
  }

  const INITIAL := State(0, [], Meters(0, 0, 0, multiset{}, multiset{}), {}, 0, false, [])

  ghost predicate ValidRun(p: Params, s: State, run: seq<Action>)
    decreases |run|
  {
    run == [] || (Enabled(p, s, run[0]) && ValidRun(p, Apply(p, s, run[0]), run[1..]))
  }

  ghost function Exec(p: Params, s: State, run: seq<Action>): State
    requires ValidRun(p, s, run)
    decreases |run|
  {
    if run == [] then s else Exec(p, Apply(p, s, run[0]), run[1..])
  }

  ghost predicate Reachable(p: Params, s: State) {
    exists run :: ValidRun(p, INITIAL, run) && Exec(p, INITIAL, run) == s
  }

  lemma Prepend(p: Params, s: State, a: Action, run: seq<Action>)
    requires Enabled(p, s, a) && ValidRun(p, Apply(p, s, a), run)
    ensures ValidRun(p, s, [a] + run) && Exec(p, s, [a] + run) == Exec(p, Apply(p, s, a), run)
  {
    assert ([a] + run)[1..] == run;
  }

  lemma {:induction false} RunConcat(p: Params, s: State, s0: State, before: seq<Action>, run: seq<Action>)
    requires ValidRun(p, s0, before) && Exec(p, s0, before) == s && ValidRun(p, s, run)
    ensures ValidRun(p, s0, before + run) && Exec(p, s0, before + run) == Exec(p, s, run)
    decreases |before|
  {
    if before == [] {
      assert before + run == run;
    } else {
      assert (before + run)[1..] == before[1..] + run;
      RunConcat(p, s, Apply(p, s0, before[0]), before[1..], run);
    }
  }

  lemma Extend(p: Params, s: State, a: Action)
    requires Reachable(p, s) && Enabled(p, s, a)
    ensures Reachable(p, Apply(p, s, a))
  {
    var before :| ValidRun(p, INITIAL, before) && Exec(p, INITIAL, before) == s;
    var t := Apply(p, s, a);
    assert ValidRun(p, t, []) && Exec(p, t, []) == t;
    Prepend(p, s, a, []);
    RunConcat(p, s, INITIAL, before, [a] + []);
  }

  // ----- the processor loop -----

  lemma ChainStep(procs: seq<Processor>, k: nat, data: Bytes)
    requires k < |procs|
    ensures Chain(procs[..k + 1], data) ==
      var before := Chain(procs[..k], data); if before.None? then None else procs[k](before.value)
  {
    assert procs[..k + 1][..k] == procs[..k];
  }

  /** Once a processor fails on the way, the whole chain fails. */
  lemma {:induction false} ChainFails(procs: seq<Processor>, k: nat, data: Bytes)
    requires k <= |procs| && Chain(procs[..k], data).None?
    ensures Chain(procs, data).None?
    decreases |procs| - k
  {
    if k < |procs| {
      ChainStep(procs, k, data);
      ChainFails(procs, k + 1, data);
    } else {
      assert procs[..k] == procs;
    }
  }

  /** Running two chains one after the other is running their concatenation. */
  lemma {:induction false} ChainConcat(a: seq<Processor>, b: seq<Processor>, data: Bytes)
    ensures Chain(a + b, data) == if Chain(a, data).None? then None else Chain(b, Chain(a, data).value)
  {
    if b == [] {
      assert a + b == a;
    } else {
      var n := |b| - 1;
      assert (a + b)[..|a + b| - 1] == a + b[..n];
      ChainConcat(a, b[..n], data);
    }
  }

  /** The loop over the processors, which stops at the first failure. */
  method RunProcessors(procs: seq<Processor>, body: Bytes) returns (processed: Option<Bytes>)
    ensures processed == Chain(procs, body)
  {
    var data := body;
    var i := 0;
    while i < |procs|
      invariant 0 <= i <= |procs| && Chain(procs[..i], body) == Some(data)
    {
      ChainStep(procs, i, body);
      var out := procs[i](data);
      if out.None? {
        ChainFails(procs, i + 1, body);
        return None;
      }
      data := out.value;
      i := i + 1;
    }
    assert procs[..i] == procs;
    return Some(data);
  }
}
