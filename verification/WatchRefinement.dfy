/** The watch loop's code, run against a script, does what some prompt run of the step machine does. */
module WatchRefinement {
  import opened Basics
  import opened GoTimer
  import opened Debounce
  import opened TlsWatcher
  import opened TlsReload
  import W = WatchLoop

  // ----- prompt runs -----

  ghost predicate Runs(p: Params, s: State, run: seq<Action>, t: State) {
    ValidRun(p, s, run) && PromptRun(p, s, run) && Exec(p, s, run) == t
  }

  /** Some prompt run leads from s to t. */
  ghost predicate Leads(p: Params, s: State, t: State) {
    exists run :: Runs(p, s, run, t)
  }

  lemma {:induction false} RunsThen(p: Params, s: State, run: seq<Action>, t: State, more: seq<Action>, u: State)
    requires Runs(p, s, run, t) && Runs(p, t, more, u)
    ensures Runs(p, s, run + more, u)
    decreases |run|
  {
    if run == [] {
      assert run + more == more;
    } else {
      assert (run + more)[1..] == run[1..] + more;
      RunsThen(p, Apply(p, s, run[0]), run[1..], t, more, u);
    }
  }

  lemma LeadsOn(p: Params, s: State, t: State, u: State)
    requires Leads(p, s, t) && Leads(p, t, u)
    ensures Leads(p, s, u)
  {
    var run :| Runs(p, s, run, t);
    var more :| Runs(p, t, more, u);
    RunsThen(p, s, run, t, more, u);
  }

  lemma LeadsNowhere(p: Params, s: State)
    ensures Leads(p, s, s)
  {
    assert Runs(p, s, [], s);
  }

  /** One more step after whatever led here. */
  lemma Then(p: Params, s0: State, s: State, a: Action) returns (t: State)
    requires Leads(p, s0, s) && Enabled(s, a) && PromptStep(s, a)
    ensures t == Apply(p, s, a) && Leads(p, s0, t)
  {
    t := Apply(p, s, a);
    assert Runs(p, t, [], t);
    Prepend(p, s, a, []);
    assert ([a] + [])[1..] == [];
    assert Runs(p, s, [a] + [], t);
    LeadsOn(p, s0, s, t);
  }

  // ----- what the machine does for one input -----

  /** Between two inputs: at the select, nothing queued, and a pending debounce armed and not overdue. */
  predicate Between(s: State) {
    && s.loop.pc.Select? && s.env.events == [] && s.env.errors == 0 && !s.env.watcherClosed && !s.env.ctxDone
    && if s.loop.debounceC
       then s.loop.timer.armed.Some? && s.loop.timer == Timer(s.loop.timer.armed, false, false)
            && s.env.now <= s.loop.timer.armed.value
       else s.loop.timer == Timer(None, false, false)
  }

  /** A pending debounce is not due yet. */
  predicate NotDue(s: State) { s.loop.debounceC ==> s.loop.timer.armed.Some? && s.env.now < s.loop.timer.armed.value }

  lemma Wait(p: Params, s: State, at: nat) returns (t: State)
    requires Between(s) && s.env.now <= at && (s.loop.debounceC ==> at <= s.loop.timer.armed.value)
    ensures Leads(p, s, t) && Between(t) && t.env.now == at && t.loop == s.loop && t.hist.log == s.hist.log
  {
    LeadsNowhere(p, s);
    t := Then(p, s, s, Advance(at - s.env.now));
  }

  lemma OnContent(p: Params, s: State) returns (t: State)
    requires Between(s) && NotDue(s)
    ensures Leads(p, s, t) && Between(t) && t.env.now == s.env.now && t.hist.log == s.hist.log + [Handled(s.env.now)]
  {
    LeadsNowhere(p, s);
    t := Then(p, s, s, Emit(true));
    t := Then(p, s, t, PickEvent);
    t := Then(p, s, t, Go);
    t := Then(p, s, t, Go);
  }

  lemma OnOther(p: Params, s: State) returns (t: State)
    requires Between(s) && NotDue(s)
    ensures Leads(p, s, t) && Between(t) && t.env.now == s.env.now && t.hist.log == s.hist.log
  {
    LeadsNowhere(p, s);
    t := Then(p, s, s, Emit(false));
    t := Then(p, s, t, PickEvent);
  }

  lemma OnError(p: Params, s: State) returns (t: State)
    requires Between(s)
    ensures Leads(p, s, t) && Between(t) && t.env.now == s.env.now && t.hist.log == s.hist.log
  {
    LeadsNowhere(p, s);
    t := Then(p, s, s, EmitError);
    t := Then(p, s, t, PickError);
  }

  lemma OnStop(p: Params, s: State) returns (t: State)
    requires Between(s)
    ensures Leads(p, s, t) && t.loop.pc.Exited? && t.hist.log == s.hist.log
  {
    LeadsNowhere(p, s);
    t := Then(p, s, s, CancelCtx);
    t := Then(p, s, t, PickDone);
    t := Then(p, s, t, Go);
  }

  /** A load goes on to its end without taking time. */
  lemma {:induction false} FinishLoad(p: Params, s: State) returns (t: State)
    requires Loading(s.loop.pc) || s.loop.pc.Retire? || s.loop.pc.Select?
    ensures Leads(p, s, t) && t.loop.pc.Select? && t.env == s.env && t.hist.log == s.hist.log
    ensures t.loop.timer == s.loop.timer && t.loop.debounceC == s.loop.debounceC
    decreases PcFuel(s.loop.pc)
  {
    LeadsNowhere(p, s);
    if s.loop.pc.Select? {
      t := s;
    } else {
      var next := Then(p, s, s, Go);
      t := FinishLoad(p, next);
      LeadsOn(p, s, next, t);
    }
  }

  /** A due debounce fires and the reload runs. */
  lemma Fire(p: Params, s: State) returns (t: State)
    requires Between(s) && s.loop.debounceC && s.loop.timer.armed.value == s.env.now
    ensures Leads(p, s, t) && Between(t) && !t.loop.debounceC && t.env.now == s.env.now
    ensures t.hist.log == s.hist.log + [Reload(s.env.now)]
  {
    LeadsNowhere(p, s);
    var l := Then(p, s, s, Expire);
    l := Then(p, s, l, Deliver);
    l := Then(p, s, l, PickTick);
    t := FinishLoad(p, l);
    LeadsOn(p, s, l, t);
  }

  lemma EventTimesAppend(log: seq<Entry>, e: Entry)
    ensures EventTimes(log + [e]) == EventTimes(log) + (if e.Handled? then [e.at] else [])
  {
    assert (log + [e])[..|log|] == log;
  }

  /** Time passes until `at`; a debounce that is due by then fires on the way. */
  lemma Until(p: Params, s: State, at: nat) returns (t: State)
    requires Between(s) && s.env.now <= at
    ensures Leads(p, s, t) && Between(t) && NotDue(t) && t.env.now == at
    ensures EventTimes(t.hist.log) == EventTimes(s.hist.log)
    ensures t.loop.debounceC ==> s.loop.debounceC && t.loop.timer == s.loop.timer
  {
    t := s;
    LeadsNowhere(p, s);
    if s.loop.debounceC && s.loop.timer.armed.value <= at {
      var due := Wait(p, s, s.loop.timer.armed.value);
      t := Fire(p, due);
      LeadsOn(p, s, due, t);
      EventTimesAppend(due.hist.log, Reload(due.env.now));
    }
    var fired := t;
    t := Wait(p, fired, at);
    LeadsOn(p, s, fired, t);
  }

  // ----- whole scripts -----

  lemma OneInput(p: Params, s: State, e: W.Input) returns (t: State)
    requires Between(s) && s.env.now <= e.at && !e.kind.Stop?
    ensures Leads(p, s, t) && Between(t) && t.env.now == e.at
    ensures EventTimes(t.hist.log) == EventTimes(s.hist.log) + (if e.kind.Content? then [e.at] else [])
  {
    var there := Until(p, s, e.at);
    match e.kind
    case Content =>
      t := OnContent(p, there);
      EventTimesAppend(there.hist.log, Handled(e.at));
      LeadsOn(p, s, there, t);
    case Other =>
      t := OnOther(p, there);
      LeadsOn(p, s, there, t);
    case WatchError =>
      t := OnError(p, there);
      LeadsOn(p, s, there, t);
  }

  lemma {:induction false} AfterInputs(p: Params, s0: State, inputs: seq<W.Input>, i: nat) returns (s: State)
    requires Init(p, s0) && s0.env.now == 0 && !s0.env.ctxDone && W.Ordered(inputs)
    requires i <= |inputs| && forall k | 0 <= k < i :: !inputs[k].kind.Stop?
    ensures Leads(p, s0, s) && Between(s) && s.env.now == if i == 0 then 0 else inputs[i - 1].at
    ensures EventTimes(s.hist.log) == W.ContentTimes(inputs[..i])
  {
    if i == 0 {
      LeadsNowhere(p, s0);
      s := Then(p, s0, s0, Go);
    } else {
      var before := AfterInputs(p, s0, inputs, i - 1);
      s := OneInput(p, before, inputs[i - 1]);
      LeadsOn(p, s0, before, s);
      W.ContentStep(inputs, i - 1);
    }
  }

  /** The reloads so far are those the script's specification keeps at its end. */
  lemma KeptSoFar(p: Params, s: State)
    requires Inv(p, s) && PromptInv(p, s) && Between(s) && NotDue(s)
    ensures ReloadTimes(s.hist.log) == W.Kept(EventTimes(s.hist.log), p.debounce, Some(s.env.now))
  {
    var log := s.hist.log;
    PromptMeetsOffline(log, p.debounce);
    if s.loop.debounceC {
      assert Predicted(log, p.debounce)[..|ReloadTimes(log)|] == ReloadTimes(log);
    } else if log != [] {
      assert ReloadTimes(log) == ReloadTimes(log[..|log| - 1]) + [log[|log| - 1].at];
    }
  }

  lemma LeadsKeeps(p: Params, s0: State, s: State)
    requires Init(p, s0) && Leads(p, s0, s)
    ensures Inv(p, s) && PromptInv(p, s)
  {
    var run :| Runs(p, s0, run, s);
    InitInv(p, s0);
    InvRun(p, s0, run);
    PromptInvRun(p, s0, run);
  }

  /** A script that ends: the machine's loop exits with the same reloads. */
  lemma ScriptWithEnd(p: Params, s0: State, inputs: seq<W.Input>, n: nat) returns (t: State)
    requires Init(p, s0) && s0.env.now == 0 && !s0.env.ctxDone && W.Ordered(inputs)
    requires n < |inputs| && inputs[n].kind.Stop? && forall k | 0 <= k < n :: !inputs[k].kind.Stop?
    ensures Leads(p, s0, t) && t.loop.pc.Exited? && ReloadTimes(t.hist.log) == W.Expected(inputs, p.debounce)
    ensures EventTimes(t.hist.log) == W.ContentTimes(inputs[..n])
  {
    var s := AfterInputs(p, s0, inputs, n);
    var end := Until(p, s, inputs[n].at);
    LeadsOn(p, s0, s, end);
    LeadsKeeps(p, s0, end);
    KeptSoFar(p, end);
    W.StopsAt(inputs, n, p.debounce);
    t := OnStop(p, end);
    LeadsOn(p, s0, end, t);
  }

  /** A script without an end: the machine's loop comes to rest with the same reloads. */
  lemma ScriptWithoutEnd(p: Params, s0: State, inputs: seq<W.Input>) returns (t: State)
    requires Init(p, s0) && s0.env.now == 0 && !s0.env.ctxDone && W.Ordered(inputs)
    requires forall k | 0 <= k < |inputs| :: !inputs[k].kind.Stop?
    ensures Leads(p, s0, t) && Idle(t) && ReloadTimes(t.hist.log) == W.Expected(inputs, p.debounce)
    ensures EventTimes(t.hist.log) == W.ContentTimes(inputs)
  {
    var s := AfterInputs(p, s0, inputs, |inputs|);
    assert inputs[..|inputs|] == inputs;
    var last := if s.loop.debounceC then s.loop.timer.armed.value else s.env.now;
    t := Until(p, s, last);
    assert !t.loop.debounceC;
    LeadsOn(p, s0, s, t);
    LeadsKeeps(p, s0, t);
    PromptMeetsOffline(t.hist.log, p.debounce);
    W.StopsAt(inputs, |inputs|, p.debounce);
  }

  /** For every script there is a prompt run of the step machine, from an initial state with any
      loadable files, that handles the script's content changes at their times and reloads exactly
      when the loop's code does; it ends exited if the script has an end and at rest otherwise. */
  lemma WatchIsPromptRun(p: Params, files: Files, inputs: seq<W.Input>) returns (s0: State, run: seq<Action>)
    requires W.Ordered(inputs) && Loadable(p, files)
    ensures Init(p, s0) && s0.env.files == files && ValidRun(p, s0, run) && PromptRun(p, s0, run)
    ensures var t, n := Exec(p, s0, run), W.FirstStop(inputs);
      && EventTimes(t.hist.log) == W.ContentTimes(inputs[..n])
      && ReloadTimes(t.hist.log) == W.Expected(inputs, p.debounce)
      && if n < |inputs| then t.loop.pc.Exited? else Idle(t)
  {
    s0 := State(
      Env(0, files, [], 0, false, false),
      Loop(Timer(Some(0), false, false), false, Start, Client(0, Load(p, files).value)),
      Closing(Fresh, map[]), Hist(1, [], [], 0, 0, 0));
    var n := W.FirstStop(inputs);
    var t: State;
    if n < |inputs| {
      t := ScriptWithEnd(p, s0, inputs, n);
    } else {
      t := ScriptWithoutEnd(p, s0, inputs);
      assert inputs[..n] == inputs;
    }
    run :| Runs(p, s0, run, t);
  }
}
