/** Two servers that supervise each other, and the ordered shutdown around them.

    `run` starts two wrappers, each running one server and reporting its
    result over an unbuffered channel; a wrapper's deferred cancel ends the
    other server.  Each server has a serving goroutine with its own unbuffered
    error channel.  A send and its receive are one step. */
module Supervision {
  datatype Which = Audit | Metrics

  function Other(w: Which): Which { if w.Audit? then Metrics else Audit }

  /** The serving goroutine: serving, blocked sending its failure, or ended with its channel closed. */
  datatype Serving = Listening | Failing | Stopped

  /** runServer and its wrapper: waiting, in the hook, shutting the server down, blocked sending
      the result, result taken but the other server not yet cancelled, ended. */
  datatype Pc = Selecting | InHook | ShuttingDown | Reporting(failed: bool) | Reported | Ended

  /** `viaDone`: runServer took its context branch; `failed`: the result it returned. */
  datatype Server = Server(cancelled: bool, serving: Serving, pc: Pc, viaDone: bool, failed: bool)

  /** `failed` is the first result, then the join of both. */
  datatype Main =
    | Waiting | Joining(first: Which, failed: bool)
    | ClosingOutputs(next: nat, failed: bool) | Returned(failed: bool)

  /** `hookDone`: the audit server's pre-shutdown hook has returned; `outputs` is how many are to be
      closed at the end; `closed` lists the closes in order. */
  datatype State = State(
    parent: bool, audit: Server, metrics: Server, main: Main, hookDone: bool, outputs: nat, closed: seq<nat>)

  datatype Action =
    | CancelParent | ServeFails(w: Which) | ServeStops(w: Which)
    | TakeError(w: Which) | TakeDone(w: Which) | HookReturns | ShutdownReturns(w: Which, failed: bool)
    | Receive(w: Which) | CancelOther(w: Which) | CloseNext

  function Of(s: State, w: Which): Server { if w.Audit? then s.audit else s.metrics }

  function Initial(outputs: nat): State {
    var idle := Server(false, Listening, Selecting, false, false);
    State(false, idle, idle, Waiting, false, outputs, [])
  }

  /** runServer has called the HTTP server's Shutdown. */
  predicate ShutdownCalled(v: Server) { v.viaDone && !v.pc.Selecting? && !v.pc.InHook? }

  predicate Enabled(s: State, a: Action) {
    match a
    case CancelParent => !s.parent
    case ServeFails(w) => Of(s, w).serving.Listening?
    case ServeStops(w) => Of(s, w).serving.Listening? && ShutdownCalled(Of(s, w))
    case TakeError(w) => Of(s, w).pc.Selecting? && !Of(s, w).serving.Listening?
    case TakeDone(w) => Of(s, w).pc.Selecting? && (s.parent || Of(s, w).cancelled)
    case HookReturns => s.audit.pc.InHook?
    case ShutdownReturns(w, _) => Of(s, w).pc.ShuttingDown?
    case Receive(w) => Of(s, w).pc.Reporting? && (s.main.Waiting? || (s.main.Joining? && s.main.first == Other(w)))
    case CancelOther(w) => Of(s, w).pc.Reported?
    case CloseNext => s.main.ClosingOutputs?
  }

  /** The server whose goroutines take a step. */
  predicate Concerns(a: Action, w: Which) {
    match a
    case CancelParent | CloseNext => false
    case HookReturns => w.Audit?
    case _ => a.w == w
  }

  function NextServer(s: State, a: Action, w: Which): Server
    requires Enabled(s, a)
  {
    var v := Of(s, w);
    if !Concerns(a, w) then (if a.CancelOther? then v.(cancelled := true) else v)
    else
      match a
      case ServeFails(_) => v.(serving := Failing)
      case ServeStops(_) => v.(serving := Stopped)
      case TakeError(_) => Server(v.cancelled, Stopped, Reporting(v.serving.Failing?), v.viaDone, v.serving.Failing?)
      case TakeDone(_) => v.(viaDone := true, pc := if w.Audit? then InHook else ShuttingDown)
      case HookReturns => v.(pc := ShuttingDown)
      case ShutdownReturns(_, failed) => v.(pc := Reporting(failed), failed := failed)
      case Receive(_) => v.(pc := Reported)
      case CancelOther(_) => v.(pc := Ended)
      case _ => v
  }

  function NextMain(s: State, a: Action): Main
    requires Enabled(s, a)
  {
    match a
    case Receive(w) =>
      var failed := Of(s, w).pc.failed;
      if s.main.Waiting? then Joining(w, failed) else ClosingOutputs(0, s.main.failed || failed)
    case CloseNext =>
      if s.main.next < s.outputs then ClosingOutputs(s.main.next + 1, s.main.failed) else Returned(s.main.failed)
    case _ => s.main
  }

  function Apply(s: State, a: Action): State
    requires Enabled(s, a)
  {
    State(s.parent || a.CancelParent?, NextServer(s, a, Audit), NextServer(s, a, Metrics), NextMain(s, a),
          s.hookDone || a.HookReturns?, s.outputs,
          if a.CloseNext? && s.main.next < s.outputs then s.closed + [s.main.next] else s.closed)
  }

  predicate ValidRun(s: State, run: seq<Action>)
    decreases |run|
  {
    run == [] || (Enabled(s, run[0]) && ValidRun(Apply(s, run[0]), run[1..]))
  }

  function Exec(s: State, run: seq<Action>): State
    requires ValidRun(s, run)
    decreases |run|
  {
    if run == [] then s else Exec(Apply(s, run[0]), run[1..])
  }

  ghost predicate Reachable(s: State) {
    exists n, run :: ValidRun(Initial(n), run) && Exec(Initial(n), run) == s
  }

  // ----- invariant -----

  /** runServer has returned and its result was received. */
  predicate Joined(v: Server) { v.pc.Reported? || v.pc.Ended? }

  predicate ServerInv(v: Server) {
    && (v.pc.InHook? || v.pc.ShuttingDown? ==> v.viaDone && !v.failed)
    && (v.pc.Selecting? ==> !v.viaDone && !v.serving.Stopped? && !v.failed)
    && (v.pc.Reporting? ==> v.pc.failed == v.failed)
    && (!v.viaDone && !v.pc.Selecting? ==> v.serving.Stopped? && v.failed)
  }

  predicate BothJoined(s: State) { Joined(s.audit) && Joined(s.metrics) }

  predicate MainInv(s: State) {
    match s.main
    case Waiting => !Joined(s.audit) && !Joined(s.metrics)
    case Joining(w, failed) => Joined(Of(s, w)) && !Joined(Of(s, Other(w))) && failed == Of(s, w).failed
    case ClosingOutputs(k, failed) => BothJoined(s) && k <= s.outputs && failed == (s.audit.failed || s.metrics.failed)
    case Returned(failed) => BothJoined(s) && failed == (s.audit.failed || s.metrics.failed)
  }

  predicate CloseInv(s: State) {
    s.closed == match s.main
                case ClosingOutputs(k, _) => seq(k, i => i)
                case Returned(_) => seq(s.outputs, i => i)
                case _ => []
  }

  predicate CancelInv(s: State) {
    && (s.audit.pc.Ended? ==> s.metrics.cancelled)
    && (s.metrics.pc.Ended? ==> s.audit.cancelled)
    && (s.hookDone <==> ShutdownCalled(s.audit))
    && !s.metrics.pc.InHook?
  }

  predicate Inv(s: State) {
    ServerInv(s.audit) && ServerInv(s.metrics) && MainInv(s) && CloseInv(s) && CancelInv(s)
  }

  lemma ServerStep(s: State, a: Action, w: Which)
    requires ServerInv(Of(s, w)) && Enabled(s, a)
    ensures ServerInv(NextServer(s, a, w))
  {
  }

  /** Steps before a result is received change neither main nor what has been joined. */
  lemma ServerOnlyStep(s: State, a: Action, w: Which)
    requires ServerInv(Of(s, w)) && Enabled(s, a) && !a.Receive?
    ensures Joined(NextServer(s, a, w)) <==> Joined(Of(s, w))
    ensures Joined(Of(s, w)) ==> NextServer(s, a, w).failed == Of(s, w).failed
  {
  }

  lemma ReceiveStep(s: State, w: Which)
    requires MainInv(s) && ServerInv(Of(s, w)) && Enabled(s, Receive(w))
    ensures MainInv(Apply(s, Receive(w)))
  {
    var t := Apply(s, Receive(w));
    assert Of(t, w) == Of(s, w).(pc := Reported) && Of(t, Other(w)) == Of(s, Other(w));
  }

  lemma MainStep(s: State, a: Action)
    requires MainInv(s) && ServerInv(s.audit) && ServerInv(s.metrics) && Enabled(s, a)
    ensures MainInv(Apply(s, a))
  {
    if a.Receive? {
      ReceiveStep(s, a.w);
    } else {
      ServerOnlyStep(s, a, Audit);
      ServerOnlyStep(s, a, Metrics);
    }
  }

  lemma CloseStep(s: State, a: Action)
    requires MainInv(s) && CloseInv(s) && Enabled(s, a)
    ensures CloseInv(Apply(s, a))
  {
  }

  lemma CancelStep(s: State, a: Action)
    requires ServerInv(s.audit) && CancelInv(s) && Enabled(s, a)
    ensures CancelInv(Apply(s, a))
  {
  }

  lemma InvStep(s: State, a: Action)
    requires Inv(s) && Enabled(s, a)
    ensures Inv(Apply(s, a))
  {
    ServerStep(s, a, Audit);
    ServerStep(s, a, Metrics);
    MainStep(s, a);
    CloseStep(s, a);
    CancelStep(s, a);
  }

  lemma {:induction false} InvRun(s: State, run: seq<Action>)
    requires Inv(s) && ValidRun(s, run)
    ensures Inv(Exec(s, run))
    decreases |run|
  {
    if run != [] {
      InvStep(s, run[0]);
      InvRun(Apply(s, run[0]), run[1..]);
    }
  }

  lemma ReachableInv(s: State)
    requires Reachable(s)
    ensures Inv(s)
  {
    var n, run :| ValidRun(Initial(n), run) && Exec(Initial(n), run) == s;
    InvRun(Initial(n), run);
  }

  // ----- order and results -----

  /** Outputs are closed only after both servers' results have been received; when `run`
      returns, each was closed exactly once, in order, and the result joins both servers'
      results; a server that has ended has cancelled the other one. */
  lemma ShutdownIsOrdered(s: State)
    requires Reachable(s)
    ensures s.closed != [] || s.main.Returned? ==> BothJoined(s)
    ensures s.main.Returned? ==>
      s.closed == seq(s.outputs, i => i) && s.main.failed == (s.audit.failed || s.metrics.failed)
    ensures forall w :: Of(s, w).pc.Ended? ==> Of(s, Other(w)).cancelled
  {
    ReachableInv(s);
  }

  /** The hook that drains the handler has returned, drained or timed out, before the outputs are
      closed exactly if the audit server ended through its context; when it failed by itself,
      outputs close without the hook. */
  lemma HookRunsIffViaContext(s: State)
    requires Reachable(s) && (s.main.ClosingOutputs? || s.main.Returned?)
    ensures s.hookDone <==> s.audit.viaDone
    ensures !s.hookDone ==> s.audit.failed
  {
    ReachableInv(s);
  }

  /** The other case: once the audit server's own failure has been taken, no continuation runs
      the hook. */
  lemma {:induction false} OwnFailureSkipsHook(s: State, run: seq<Action>)
    requires Inv(s) && !s.audit.viaDone && !s.audit.pc.Selecting? && ValidRun(s, run)
    ensures !Exec(s, run).hookDone && !Exec(s, run).audit.viaDone
    decreases |run|
  {
    if run != [] {
      InvStep(s, run[0]);
      OwnFailureSkipsHook(Apply(s, run[0]), run[1..]);
    }
  }

  /** A serving goroutine that fails before its result is taken and after runServer has chosen
      the context branch stays blocked on its error channel in every continuation, so no claim
      that `run` leaves no goroutine behind can hold. */
  lemma {:induction false} LateFailureStaysBehind(s: State, w: Which, run: seq<Action>)
    requires Inv(s) && Of(s, w).viaDone && Of(s, w).serving.Failing? && ValidRun(s, run)
    ensures Of(Exec(s, run), w).serving.Failing?
    decreases |run|
  {
    if run != [] {
      InvStep(s, run[0]);
      assert Of(Apply(s, run[0]), w) == NextServer(s, run[0], w);
      LateFailureStaysBehind(Apply(s, run[0]), w, run[1..]);
    }
  }

  /** Both situations occur: a server that fails after its context was chosen, and an audit
      server whose own failure is taken. */
  lemma FailuresHappen() returns (late: State, own: State)
    ensures Reachable(late) && late.metrics.viaDone && late.metrics.serving.Failing?
    ensures Reachable(own) && !own.audit.viaDone && own.audit.pc == Reporting(true)
  {
    late := LateFailure();
    own := RunTwo(Initial(0), ServeFails(Audit), TakeError(Audit));
    assert ValidRun(Initial(0), [ServeFails(Audit), TakeError(Audit)]);
  }

  lemma LateFailure() returns (late: State)
    ensures Reachable(late) && late.metrics.viaDone && late.metrics.serving.Failing?
  {
    var s0 := Initial(0);
    late := RunTwo(Apply(s0, CancelParent), TakeDone(Metrics), ServeFails(Metrics));
    var run := [CancelParent, TakeDone(Metrics), ServeFails(Metrics)];
    assert run[1..] == [TakeDone(Metrics), ServeFails(Metrics)];
    assert ValidRun(s0, run) && Exec(s0, run) == late;
  }

  lemma RunTwo(s: State, a: Action, b: Action) returns (t: State)
    requires Enabled(s, a) && Enabled(Apply(s, a), b)
    ensures t == Apply(Apply(s, a), b) && ValidRun(s, [a, b]) && Exec(s, [a, b]) == t
  {
    t := Apply(Apply(s, a), b);
    assert [a, b][1..] == [b] && [b][1..] == [];
    assert ValidRun(t, []) && Exec(t, []) == t;
    assert ValidRun(Apply(s, a), [b]) && Exec(Apply(s, a), [b]) == t;
  }

  /** ... and only such a goroutine is: any other failure is received and becomes the result. */
  lemma BlockedOnlyAfterContext(s: State, w: Which)
    requires Reachable(s) && !Of(s, w).pc.Selecting? && Of(s, w).serving.Failing?
    ensures Of(s, w).viaDone
  {
    ReachableInv(s);
  }

  /** What is left behind, exactly: after `run` has returned, a serving goroutine can still end if
      and only if it is not blocked on a failure that nobody reads. */
  lemma LeftBehindExactly(s: State, w: Which)
    requires Reachable(s) && s.main.Returned?
    ensures (exists run :: ValidRun(s, run) && Of(Exec(s, run), w).serving.Stopped?) <==> !Of(s, w).serving.Failing?
  {
    ReachableInv(s);
    if Of(s, w).serving.Failing? {
      forall run | ValidRun(s, run) ensures !Of(Exec(s, run), w).serving.Stopped? {
        LateFailureStaysBehind(s, w, run);
      }
    } else {
      var run := EndServing(s, w);
      assert ValidRun(s, run) && Of(Exec(s, run), w).serving.Stopped?;
    }
  }

  lemma EndServing(s: State, w: Which) returns (run: seq<Action>)
    requires Inv(s) && s.main.Returned? && !Of(s, w).serving.Failing?
    ensures ValidRun(s, run) && Of(Exec(s, run), w).serving.Stopped?
  {
    run := [];
    if Of(s, w).serving.Listening? {
      var t := Apply(s, ServeStops(w));
      assert Of(t, w) == NextServer(s, ServeStops(w), w);
      run := [ServeStops(w)];
      assert run[1..] == [] && ValidRun(t, []) && Exec(t, []) == t;
    }
  }

  // ----- the result -----

  /** In this step runServer of w learns of a failure: its graceful shutdown failed, or it takes the
      error of a serving goroutine that failed. */
  predicate LearnsFailure(s: State, a: Action, w: Which) {
    a == ShutdownReturns(w, true) || (a == TakeError(w) && Of(s, w).serving == Failing)
  }

  /** Some step of the run does. */
  predicate FailsIn(s: State, run: seq<Action>, w: Which)
    requires ValidRun(s, run)
    decreases |run|
  {
    run != [] && (LearnsFailure(s, run[0], w) || FailsIn(Apply(s, run[0]), run[1..], w))
  }

  lemma FailedStep(s: State, a: Action, w: Which)
    requires ServerInv(Of(s, w)) && Enabled(s, a)
    ensures NextServer(s, a, w).failed <==> Of(s, w).failed || LearnsFailure(s, a, w)
  {
  }

  lemma {:induction false} FailedIsLearned(s: State, run: seq<Action>, w: Which)
    requires Inv(s) && ValidRun(s, run)
    ensures Of(Exec(s, run), w).failed <==> Of(s, w).failed || FailsIn(s, run, w)
    decreases |run|
  {
    if run != [] {
      InvStep(s, run[0]);
      FailedStep(s, run[0], w);
      assert Of(Apply(s, run[0]), w) == NextServer(s, run[0], w);
      FailedIsLearned(Apply(s, run[0]), run[1..], w);
    }
  }

  /** The result is exact: over every run from the start, what a server reports is a failure if and
      only if its graceful shutdown failed or the error of its serving goroutine was taken; and
      `run` returns an error if and only if that happened to one of the two. */
  lemma ResultIsExact(n: nat, run: seq<Action>)
    requires ValidRun(Initial(n), run)
    ensures var t := Exec(Initial(n), run);
      && (forall w :: Of(t, w).pc.Reporting? ==> (Of(t, w).pc.failed <==> FailsIn(Initial(n), run, w)))
      && (t.main.Joining? ==> (t.main.failed <==> FailsIn(Initial(n), run, t.main.first)))
      && (t.main.Returned? ==>
            (t.main.failed <==> FailsIn(Initial(n), run, Audit) || FailsIn(Initial(n), run, Metrics)))
  {
    InvRun(Initial(n), run);
    FailedIsLearned(Initial(n), run, Audit);
    FailedIsLearned(Initial(n), run, Metrics);
    assert Inv(Exec(Initial(n), run));
  }

  lemma {:induction false} FailureStays(s: State, w: Which, run: seq<Action>)
    requires Inv(s) && Of(s, w).failed && ValidRun(s, run)
    ensures Inv(Exec(s, run)) && Of(Exec(s, run), w).failed
  {
    FailedIsLearned(s, run, w);
    InvRun(s, run);
  }

  /** A graceful shutdown may always fail; then every continuation in which `run` returns, and there
      is one, returns an error. */
  lemma FailedShutdownIsReported(s: State, w: Which) returns (back: seq<Action>)
    requires Reachable(s) && Of(s, w).pc.ShuttingDown?
    ensures Enabled(s, ShutdownReturns(w, true))
    ensures var t := Apply(s, ShutdownReturns(w, true));
      && ValidRun(t, back) && Exec(t, back).main.Returned?
      && forall run | ValidRun(t, run) && Exec(t, run).main.Returned? :: Exec(t, run).main == Returned(true)
  {
    ReachableInv(s);
    var a := ShutdownReturns(w, true);
    var t := Apply(s, a);
    InvStep(s, a);
    FailedStep(s, a, w);
    assert Of(t, w) == NextServer(s, a, w);
    back := CanReturn(t);
    forall run | ValidRun(t, run) && Exec(t, run).main.Returned? ensures Exec(t, run).main == Returned(true) {
      FailureStays(t, w, run);
    }
  }

  // ----- progress -----

  /** Something has happened that must end the program. */
  predicate Triggered(s: State) {
    || s.parent
    || !s.audit.pc.Selecting? || !s.metrics.pc.Selecting?
    || s.audit.serving.Failing? || s.metrics.serving.Failing?
  }

  function ServerFuel(v: Server): nat {
    (match v.pc
     case Selecting => 5 case InHook => 4 case ShuttingDown => 3
     case Reporting(_) => 2 case Reported => 1 case Ended => 0)
    + (if v.serving.Listening? then 2 else if v.serving.Failing? then 1 else 0)
  }

  /** A bound on the number of steps left in any run. */
  function Fuel(s: State): nat {
    ServerFuel(s.audit) + ServerFuel(s.metrics) + (if s.parent then 0 else 1)
    + match s.main
      case Waiting => s.outputs + 4 case Joining(_, _) => s.outputs + 3
      case ClosingOutputs(k, _) => if k <= s.outputs then s.outputs + 1 - k else 0
      case Returned(_) => 0
  }

  lemma ServerFuelStep(s: State, a: Action, w: Which)
    requires Enabled(s, a)
    ensures ServerFuel(NextServer(s, a, w)) + (if Concerns(a, w) then 1 else 0) <= ServerFuel(Of(s, w))
  {
  }

  lemma FuelStep(s: State, a: Action)
    requires Inv(s) && Enabled(s, a)
    ensures Fuel(Apply(s, a)) < Fuel(s)
  {
    ServerFuelStep(s, a, Audit);
    ServerFuelStep(s, a, Metrics);
  }

  /** Every run is finite: it has at most as many steps as there is fuel. */
  lemma {:induction false} RunsAreBounded(s: State, run: seq<Action>)
    requires Inv(s) && ValidRun(s, run)
    ensures |run| + Fuel(Exec(s, run)) <= Fuel(s)
    decreases |run|
  {
    if run != [] {
      FuelStep(s, run[0]);
      InvStep(s, run[0]);
      RunsAreBounded(Apply(s, run[0]), run[1..]);
    }
  }

  /** The program's own steps, as opposed to a cancellation or a failure from outside. */
  predicate Internal(a: Action) { !a.CancelParent? && !a.ServeFails? }

  /** No deadlock: after a cancellation or a server failure, `run` can always go on until it
      returns, without another failure or cancellation. */
  lemma TriggeredGoesOn(s: State) returns (a: Action)
    requires Inv(s) && Triggered(s) && !s.main.Returned?
    ensures Internal(a) && Enabled(s, a)
  {
    if s.main.ClosingOutputs? {
      a := CloseNext;
    } else if s.main.Joining? && Of(s, s.main.first).pc.Reported? {
      a := CancelOther(s.main.first);
    } else {
      var w := if s.main.Joining? then Other(s.main.first)
               else if !s.audit.pc.Selecting? || s.audit.serving.Failing? || s.parent then Audit else Metrics;
      match Of(s, w).pc
      case Selecting => a := if Of(s, w).serving.Listening? then TakeDone(w) else TakeError(w);
      case InHook => a := HookReturns;
      case ShuttingDown => a := ShutdownReturns(w, false);
      case Reporting(_) => a := Receive(w);
    }
  }

  /** The trigger is never undone. */
  lemma TriggerStays(s: State, a: Action)
    requires Inv(s) && Triggered(s) && Enabled(s, a)
    ensures Triggered(Apply(s, a))
  {
  }

  lemma {:induction false} TriggerStaysInRun(s: State, run: seq<Action>)
    requires Inv(s) && Triggered(s) && ValidRun(s, run)
    ensures Inv(Exec(s, run)) && Triggered(Exec(s, run))
    decreases |run|
  {
    if run != [] {
      InvStep(s, run[0]);
      TriggerStays(s, run[0]);
      TriggerStaysInRun(Apply(s, run[0]), run[1..]);
    }
  }

  /** ... and some run of its own steps does return. */
  lemma {:induction false} CanReturn(s: State) returns (run: seq<Action>)
    requires Inv(s) && Triggered(s)
    ensures ValidRun(s, run) && (forall a | a in run :: Internal(a)) && Exec(s, run).main.Returned?
    decreases Fuel(s)
  {
    if s.main.Returned? {
      return [];
    }
    var a := TriggeredGoesOn(s);
    InvStep(s, a);
    TriggerStays(s, a);
    FuelStep(s, a);
    var rest := CanReturn(Apply(s, a));
    run := [a] + rest;
    assert run[1..] == rest;
  }

  /** Liveness: after a cancellation or a server failure, every run that goes on as long as the
      program can take a step ends with `run` returned, within a number of steps fixed at the start. */
  lemma RunReturns(s: State, run: seq<Action>)
    requires Reachable(s) && Triggered(s) && ValidRun(s, run)
    requires forall a | Internal(a) :: !Enabled(Exec(s, run), a)
    ensures Exec(s, run).main.Returned? && |run| <= Fuel(s)
  {
    ReachableInv(s);
    TriggerStaysInRun(s, run);
    RunsAreBounded(s, run);
    if !Exec(s, run).main.Returned? {
      var a := TriggeredGoesOn(Exec(s, run));
    }
  }
}
