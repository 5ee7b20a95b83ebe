/** What the TLS hot-reload loop guarantees over every run. */
module TlsReload {
  import opened Basics
  import opened GoTimer
  import opened Debounce
  import opened TlsWatcher

  /** `s` is a state of some run of the loop. */
  ghost predicate Reachable(p: Params, s: State) {
    exists s0, run :: Init(p, s0) && ValidRun(p, s0, run) && Exec(p, s0, run) == s
  }

  lemma ReachableInv(p: Params, s: State)
    requires Reachable(p, s)
    ensures Inv(p, s)
  {
    var s0, run :| Init(p, s0) && ValidRun(p, s0, run) && Exec(p, s0, run) == s;
    InitInv(p, s0);
    InvRun(p, s0, run);
  }

  lemma {:induction false} RunConcat(p: Params, s0: State, before: seq<Action>, run: seq<Action>)
    requires ValidRun(p, s0, before) && ValidRun(p, Exec(p, s0, before), run)
    ensures ValidRun(p, s0, before + run) && Exec(p, s0, before + run) == Exec(p, Exec(p, s0, before), run)
    decreases |before|
  {
    if before == [] {
      assert before + run == run;
    } else {
      assert (before + run)[1..] == before[1..] + run;
      RunConcat(p, Apply(p, s0, before[0]), before[1..], run);
    }
  }

  lemma ReachableStep(p: Params, s: State, a: Action)
    requires Reachable(p, s) && Enabled(s, a)
    ensures Reachable(p, Apply(p, s, a))
  {
    var s0, run :| Init(p, s0) && ValidRun(p, s0, run) && Exec(p, s0, run) == s;
    var t := Apply(p, s, a);
    assert ValidRun(p, t, []) && Exec(p, t, []) == t;
    Prepend(p, s, a, []);
    RunConcat(p, s0, run, [a] + []);
  }

  // ----- timer protocol -----

  /** Under both semantics: at the select the channel variable is non-nil exactly
      when one tick is pending, and a receive that drains the timer has a value or
      gets one from a runtime send already under way.  The newer semantics never drain. */
  lemma DrainsNeverDeadlock(p: Params, s: State)
    requires Reachable(p, s)
    ensures s.loop.pc.Select? ==> Tokens(s.loop.timer) == (if s.loop.debounceC then 1 else 0)
    ensures Drains(s.loop.pc) ==>
      && p.sem.Buffered?
      && (Enabled(s, Go) || (Enabled(s, Deliver) && Enabled(Apply(p, s, Deliver), Go)))
    ensures s.loop.pc.Exited? ==> Tokens(s.loop.timer) == 0
  {
    ReachableInv(p, s);
  }

  /** No stale tick starts a reload: a receivable tick answers the last handled
      event, and a whole debounce has passed since. */
  lemma TicksAreDue(p: Params, s: State)
    requires Reachable(p, s) && Enabled(s, PickTick)
    ensures !Settled(s.hist.log) && s.env.now >= s.hist.log[|s.hist.log| - 1].at + p.debounce
  {
    ReachableInv(p, s);
  }

  // ----- freshness -----

  /** No lost reload: at a select with no debounce pending, a reload started after the last
      handled content event; and whenever no load is in progress and no file has changed since
      the last reload started, the published client holds the CA and the certificate pair of the
      files, as far as they are configured, if they pass their checks. */
  lemma NoLostReload(p: Params, s: State)
    requires Reachable(p, s)
    ensures s.loop.pc.Select? && !s.loop.debounceC ==>
      s.hist.lastHandled == 0 || s.hist.lastHandled < s.hist.lastReload
    ensures
      var f, c := s.env.files, s.loop.client.creds;
      && !Loading(s.loop.pc) && s.hist.lastChange < s.hist.lastReload
      && (p.readsCA ==> p.caOk(f.ca)) && (p.readsPair ==> p.pairOk(f.cert, f.key))
      ==>
      && c.ca == (if p.readsCA then Some(f.ca) else None)
      && c.pair == (if p.readsPair then Some((f.cert, f.key)) else None)
  {
    ReachableInv(p, s);
  }

  /** A step of the loop or of its timer. */
  predicate Works(a: Action) {
    a.Expire? || a.Deliver? || a.Go? || a.PickDone? || a.PickTick? || a.PickEvent? || a.PickError? || a.PickClosed?
  }

  function TokenFuel(t: Timer): nat {
    (if t.armed.Some? then 8 else 0) + (if t.sending then 7 else 0) + (if t.full then 6 else 0)
  }

  function PcFuel(pc: Pc): nat {
    match pc
    case Exited => 0 case ExitDrain => 1 case ExitTest => 2 case Select => 3
    case Retire(_) => 4 case Swap(_) => 5 case LoadKey(_, _) => 6 case LoadCert(_) => 7 case LoadCA => 8
    case StartDrain => 4 case Start => 5
    case ArmReset => 12 case ArmDrain => 13 case ArmTest => 14
  }

  /** A bound on the work left before the loop needs new notifications. */
  function Fuel(s: State): nat {
    20 * |s.env.events| + s.env.errors + PcFuel(s.loop.pc) + TokenFuel(s.loop.timer)
  }

  lemma FuelStep(p: Params, s: State, a: Action)
    requires Inv(p, s) && Enabled(s, a) && !a.Emit? && !a.EmitError?
    ensures Fuel(Apply(p, s, a)) + (if Works(a) then 1 else 0) <= Fuel(s)
  {
    assert TimerInv(p, s.loop);
  }

  predicate Silent(run: seq<Action>) {
    forall a | a in run :: !a.Emit? && !a.EmitError?
  }

  /** Without new notifications, the loop and its timer take at most `Fuel` more steps. */
  lemma {:induction false} WorkIsBounded(p: Params, s: State, run: seq<Action>)
    requires Inv(p, s) && ValidRun(p, s, run) && Silent(run)
    ensures Count(run, Works) + Fuel(Exec(p, s, run)) <= Fuel(s)
    decreases |run|
  {
    if run != [] {
      FuelStep(p, s, run[0]);
      InvStep(p, s, run[0]);
      WorkIsBounded(p, Apply(p, s, run[0]), run[1..]);
      CountCons(run);
    }
  }

  lemma {:induction false} CountCons(run: seq<Action>)
    requires run != []
    ensures Count(run, Works) == Count(run[1..], Works) + (if Works(run[0]) then 1 else 0)
  {
    var n := |run| - 1;
    if n > 0 {
      CountCons(run[..n]);
      assert run[..n][1..] == run[1..][..n - 1];
    } else {
      assert run[..0] == [] && run[1..] == [];
    }
  }

  /** A reload has started since the last file change, or one is still to come: an event is
      queued or being handled, or the debounce is running. */
  predicate Covered(s: State) {
    || s.hist.lastChange < s.hist.lastReload
    || true in s.env.events
    || s.loop.debounceC
    || Arming(s.loop.pc)
  }

  /** The credentials published once a load in progress is over, if the files stay as they are. */
  function Coming(p: Params, f: Files, l: Loop): Creds {
    match l.pc
    case LoadCA => if Load(p, f).Some? then Load(p, f).value else l.client.creds
    case LoadCert(ca) =>
      if p.readsPair && !p.pairOk(f.cert, f.key) then l.client.creds else Build(p, ca, f.cert, f.key)
    case LoadKey(ca, cert) => if p.pairOk(cert, f.key) then Build(p, ca, cert, f.key) else l.client.creds
    case Swap(creds) => creds
    case _ => l.client.creds
  }

  /** Steps that leave files, queues and lifecycle to the loop alone. */
  predicate Undisturbed(a: Action) {
    a.Advance? || a.Expire? || a.Deliver? || a.Go? || a.PickTick? || a.PickEvent? || a.PickError?
  }

  lemma QueueTail(events: seq<bool>)
    requires events != []
    ensures true in events <==> events[0] || true in events[1..]
  {
    assert events == [events[0]] + events[1..];
  }

  lemma ComingStep(p: Params, s: State, a: Action)
    requires LoadInv(p, s.env.files, s.loop, s.hist) && Enabled(s, a) && Undisturbed(a) && !a.PickTick?
    ensures Coming(p, NextEnv(s, a).files, NextLoop(p, s, a)) == Coming(p, s.env.files, s.loop)
  {
  }

  lemma CoveredStep(p: Params, s: State, a: Action)
    requires StampInv(s.loop, s.hist) && TimerInv(p, s.loop) && Enabled(s, a) && Undisturbed(a)
    ensures Covered(Apply(p, s, a)) <==> Covered(s)
    ensures NextEnv(s, a).files == s.env.files
  {
    if a.PickEvent? {
      QueueTail(s.env.events);
    }
  }

  /** Without disturbance, being covered neither comes nor goes, and what is coming in an
      uncovered state does not change. */
  lemma {:induction false} CoveredRun(p: Params, s: State, run: seq<Action>)
    requires Inv(p, s) && ValidRun(p, s, run)
    requires forall a | a in run :: Undisturbed(a)
    ensures var t := Exec(p, s, run);
      && (Covered(t) <==> Covered(s)) && t.env.files == s.env.files
      && (!Covered(s) ==> Coming(p, t.env.files, t.loop) == Coming(p, s.env.files, s.loop))
    decreases |run|
  {
    if run != [] {
      var a := run[0];
      InvStep(p, s, a);
      CoveredStep(p, s, a);
      if !a.PickTick? {
        ComingStep(p, s, a);
      }
      CoveredRun(p, Apply(p, s, a), run[1..]);
    }
  }

  /** Nothing left to do until the next notification. */
  predicate Idle(s: State) {
    s.loop.pc.Select? && !s.loop.debounceC && s.env.events == [] && s.env.errors == 0
  }

  lemma NextWork(p: Params, s: State) returns (dt: nat, a: Action)
    requires TimerInv(p, s.loop) && !Idle(s) && !s.loop.pc.Exited?
    ensures Undisturbed(a) && Works(a) && Enabled(Apply(p, s, Advance(dt)), a)
  {
    var t := s.loop.timer;
    dt := if t.armed.Some? && t.armed.value > s.env.now then t.armed.value - s.env.now else 0;
    var later := Apply(p, s, Advance(dt));
    a :=
      if Enabled(later, Go) then Go
      else if t.armed.Some? then Expire
      else if t.sending then Deliver
      else if Enabled(later, PickTick) then PickTick
      else if s.env.events != [] then PickEvent else PickError;
  }

  /** While the loop is alive and has work, one of its steps is enabled, at the latest when the timer is due. */
  lemma WorkIsEnabled(p: Params, s: State)
    requires Reachable(p, s) && !Idle(s) && !s.loop.pc.Exited?
    ensures exists dt, a :: Undisturbed(a) && Works(a) && Enabled(Apply(p, s, Advance(dt)), a)
  {
    ReachableInv(p, s);
    var dt, a := NextWork(p, s);
  }

  predicate Exiting(pc: Pc) { pc.ExitTest? || pc.ExitDrain? || pc.Exited? }

  lemma StaysInLoop(p: Params, s: State, a: Action)
    requires Enabled(s, a) && Undisturbed(a) && !Exiting(s.loop.pc)
    ensures !Exiting(NextLoop(p, s, a).pc)
  {
  }

  /** An undisturbed step of a loop that is not on its way out, and what it keeps and uses up. */
  lemma StepToRest(p: Params, s: State, a: Action) returns (t: State)
    requires Inv(p, s) && !Exiting(s.loop.pc) && Enabled(s, a) && Undisturbed(a)
    ensures t == Apply(p, s, a)
    ensures Inv(p, t) && !Exiting(t.loop.pc) && Fuel(t) + (if Works(a) then 1 else 0) <= Fuel(s)
  {
    t := Apply(p, s, a);
    InvStep(p, s, a);
    FuelStep(p, s, a);
    StaysInLoop(p, s, a);
  }

  /** From every state whose loop is not on its way out, some undisturbed run comes to rest. */
  lemma {:induction false} ComesToRest(p: Params, s: State) returns (run: seq<Action>)
    requires Inv(p, s) && !Exiting(s.loop.pc)
    ensures ValidRun(p, s, run) && (forall a | a in run :: Undisturbed(a)) && Idle(Exec(p, s, run))
    decreases Fuel(s)
  {
    if Idle(s) {
      return [];
    }
    var dt, a := NextWork(p, s);
    var later := StepToRest(p, s, Advance(dt));
    var next := StepToRest(p, later, a);
    var rest := ComesToRest(p, next);
    Prepend(p, later, a, rest);
    Prepend(p, s, Advance(dt), [a] + rest);
    run := [Advance(dt)] + ([a] + rest);
  }

  /** Convergence, exactly: take any reachable state and any undisturbed run from it that comes
      to rest.  It takes a bounded number of steps of the loop; a reload has then started after
      the last file change if and only if the state was covered; and, for loadable files, the
      published client holds exactly their configured parts if and only if the state was covered or
      its client, or the load in progress, had them already. */
  lemma ReloadConverges(p: Params, s: State, run: seq<Action>)
    requires Reachable(p, s) && ValidRun(p, s, run) && (forall a | a in run :: Undisturbed(a))
    requires Idle(Exec(p, s, run))
    ensures Count(run, Works) <= Fuel(s)
    ensures var t := Exec(p, s, run); t.hist.lastChange < t.hist.lastReload <==> Covered(s)
    ensures Loadable(p, s.env.files) ==>
      (MadeFrom(p, s.env.files, Exec(p, s, run).loop.client.creds) <==>
         Covered(s) || MadeFrom(p, s.env.files, Coming(p, s.env.files, s.loop)))
  {
    ReachableInv(p, s);
    LoadIsExact(p, s.env.files);
    WorkIsBounded(p, s, run);
    CoveredRun(p, s, run);
    InvRun(p, s, run);
  }

  /** Rotation: from every reachable state whose loop is not on its way out and whose watcher is
      open, the files can be replaced by any loadable ones and notified; then every undisturbed run
      that comes to rest has published exactly their configured parts. */
  lemma RotationIsPublished(p: Params, s: State, files: Files, run: seq<Action>)
    requires Reachable(p, s) && !s.env.watcherClosed && Loadable(p, files)
    ensures Enabled(s, Write(files)) && Enabled(Apply(p, s, Write(files)), Emit(true))
    ensures var t := Apply(p, Apply(p, s, Write(files)), Emit(true));
      ValidRun(p, t, run) && (forall a | a in run :: Undisturbed(a)) && Idle(Exec(p, t, run)) ==>
        Exec(p, t, run).env.files == files && MadeFrom(p, files, Exec(p, t, run).loop.client.creds)
  {
    var s1 := Apply(p, s, Write(files));
    var t := Apply(p, s1, Emit(true));
    ReachableStep(p, s, Write(files));
    ReachableStep(p, s1, Emit(true));
    ReachableInv(p, t);
    if ValidRun(p, t, run) && (forall a | a in run :: Undisturbed(a)) && Idle(Exec(p, t, run)) {
      assert t.env.events[|t.env.events| - 1];
      assert Covered(t);
      ReloadConverges(p, t, run);
      CoveredRun(p, t, run);
    }
  }

  /** Nothing is being loaded or will be: no debounce is pending and no content event is queued. */
  predicate Resting(s: State) {
    !Arming(s.loop.pc) && !Loading(s.loop.pc) && !s.loop.debounceC && true !in s.env.events
  }

  lemma RestingStep(p: Params, s: State, a: Action)
    requires TimerInv(p, s.loop) && Resting(s) && Enabled(s, a) && a != Emit(true)
    ensures Resting(Apply(p, s, a)) && NextLoop(p, s, a).client == s.loop.client && NextHist(s, a).log == s.hist.log
  {
    if a.PickEvent? {
      QueueTail(s.env.events);
    }
  }

  /** A resting loop stays as it is until a content event arrives: whatever other events, errors,
      file changes, cancellations and Close calls there are, nothing is reloaded. */
  lemma {:induction false} UnnoticedChangesAreNotLoaded(p: Params, s: State, run: seq<Action>)
    requires Inv(p, s) && Resting(s) && ValidRun(p, s, run) && Emit(true) !in run
    ensures Exec(p, s, run).loop.client == s.loop.client && Exec(p, s, run).hist.log == s.hist.log
    decreases |run|
  {
    if run != [] {
      InvStep(p, s, run[0]);
      RestingStep(p, s, run[0]);
      UnnoticedChangesAreNotLoaded(p, Apply(p, s, run[0]), run[1..]);
    }
  }

  /** The gap at the start: files that change after the first client was built and before their
      directories are watched leave the loop at rest with the old credentials, until some later
      content event. */
  lemma ChangeBeforeWatchingIsMissed(p: Params, was: Files, files: Files) returns (s: State)
    requires Loadable(p, was) && Loadable(p, files)
    requires (p.readsCA && was.ca != files.ca) || (p.readsPair && (was.cert, was.key) != (files.cert, files.key))
    ensures Reachable(p, s) && Idle(s) && !Covered(s) && s.env.files == files
    ensures forall run | ValidRun(p, s, run) && Emit(true) !in run ::
      var c := Exec(p, s, run).loop.client.creds; MadeFrom(p, was, c) && !MadeFrom(p, files, c)
  {
    LoadIsExact(p, was);
    var s0 := State(
      Env(0, files, [], 0, false, false),
      Loop(Timer(Some(0), false, false), false, Start, Client(0, Load(p, was).value)),
      Closing(Fresh, map[]), Hist(1, [], [], 0, 0, 0));
    assert Init(p, s0);
    s := Apply(p, s0, Go);
    assert ValidRun(p, s, []) && ValidRun(p, s0, [Go]) && Exec(p, s0, [Go]) == s;
    ReachableInv(p, s);
    forall run | ValidRun(p, s, run) && Emit(true) !in run
      ensures var c := Exec(p, s, run).loop.client.creds; MadeFrom(p, was, c) && !MadeFrom(p, files, c)
    {
      UnnoticedChangesAreNotLoaded(p, s, run);
    }
  }

  /** The select has no priorities: every ready case can be taken whatever else is ready.  A
      cancellation or closed channel starts the exit, a received tick a load, a content event the
      arming of the debounce, and everything else leaves the loop at the select as it is. */
  lemma ReadyCasesCanRun(p: Params, s: State)
    requires s.loop.pc.Select?
    ensures s.env.ctxDone ==> Enabled(s, PickDone) && Apply(p, s, PickDone).loop.pc == ExitTest
    ensures s.env.watcherClosed && s.env.events == [] ==>
      Enabled(s, PickClosed) && Apply(p, s, PickClosed).loop.pc == ExitTest
    ensures s.loop.debounceC && s.loop.timer.full ==>
      Enabled(s, PickTick) && Apply(p, s, PickTick).loop.pc == LoadCA
    ensures s.env.events != [] && s.env.events[0] ==>
      Enabled(s, PickEvent) && Apply(p, s, PickEvent).loop.pc == ArmTest
    ensures s.env.events != [] && !s.env.events[0] ==>
      Enabled(s, PickEvent) && Apply(p, s, PickEvent).loop == s.loop
    ensures s.env.errors > 0 ==> Enabled(s, PickError) && Apply(p, s, PickError).loop == s.loop
  {
  }

  // ----- debouncing -----

  /** With any scheduling delays, reloads are at most as many as handled events,
      start a debounce after every earlier event, and are a debounce apart. */
  lemma DebounceHolds(p: Params, s: State)
    requires Reachable(p, s)
    ensures Count(s.hist.log, IsReload) <= Count(s.hist.log, IsHandled)
    ensures forall i, j | 0 <= i < j < |s.hist.log| && s.hist.log[j].Reload? ::
      s.hist.log[j].at >= s.hist.log[i].at + p.debounce
  {
    ReachableInv(p, s);
    var log := s.hist.log;
    ReloadsNeverExceedEvents(log, p.debounce);
    forall i, j | 0 <= i < j < |log| && log[j].Reload? ensures log[j].at >= log[i].at + p.debounce {
      if log[i].Reload? {
        ReloadsAreSpaced(log, p.debounce, i, j);
      } else {
        ReloadFollowsQuiet(log, p.debounce, i, j);
      }
    }
  }

  /** Prompt scheduling: arming takes no time, time stops at a due timer, and a due tick goes first. */
  predicate PromptStep(s: State, a: Action) {
    var armed := s.loop.timer.armed;
    match a
    case Advance(dt) =>
      dt == 0 || (!Arming(s.loop.pc) &&
                  (s.loop.pc.Select? && s.loop.debounceC ==> armed.Some? && s.env.now + dt <= armed.value))
    case PickEvent => s.loop.debounceC ==> armed.Some? && s.env.now < armed.value
    case _ => true
  }

  predicate PromptRun(p: Params, s: State, run: seq<Action>)
    requires ValidRun(p, s, run)
    decreases |run|
  {
    run == [] || (PromptStep(s, run[0]) && PromptRun(p, Apply(p, s, run[0]), run[1..]))
  }

  /** Arming happens at the time of its event, and the pending tick is due exactly one debounce later. */
  predicate PromptTime(p: Params, now: nat, l: Loop, log: seq<Entry>) {
    && (Arming(l.pc) && log != [] ==> now == log[|log| - 1].at)
    && (l.pc.Select? && l.debounceC && log != [] ==>
          var due := log[|log| - 1].at + p.debounce;
          if l.timer.armed.Some? then l.timer.armed.value == due && now <= due else now == due)
  }

  ghost predicate PromptInv(p: Params, s: State) {
    Prompt(s.hist.log, p.debounce) && PromptTime(p, s.env.now, s.loop, s.hist.log)
  }

  lemma PromptLogStep(p: Params, s: State, a: Action)
    requires TimerInv(p, s.loop) && DueInv(p, s.env.now, s.loop, s.hist.log) && LogInv(p, s.env.now, s.hist.log)
    requires PromptInv(p, s) && Enabled(s, a) && PromptStep(s, a)
    ensures Prompt(NextHist(s, a).log, p.debounce)
  {
    if a.PickTick? {
      PromptAppend(s.hist.log, Reload(s.env.now), p.debounce);
    } else if a.PickEvent? {
      PromptAppend(s.hist.log, Handled(s.env.now), p.debounce);
    }
  }

  lemma PromptInvStep(p: Params, s: State, a: Action)
    requires Inv(p, s) && PromptInv(p, s) && Enabled(s, a) && PromptStep(s, a)
    ensures PromptInv(p, Apply(p, s, a))
  {
    PromptLogStep(p, s, a);
    PromptTimeStep(p, s, a);
  }

  lemma PromptTimeStep(p: Params, s: State, a: Action)
    requires TimerInv(p, s.loop) && PromptTime(p, s.env.now, s.loop, s.hist.log) && Enabled(s, a) && PromptStep(s, a)
    ensures PromptTime(p, NextEnv(s, a).now, NextLoop(p, s, a), NextHist(s, a).log)
  {
  }

  lemma {:induction false} PromptInvRun(p: Params, s: State, run: seq<Action>)
    requires Inv(p, s) && PromptInv(p, s) && ValidRun(p, s, run) && PromptRun(p, s, run)
    ensures PromptInv(p, Exec(p, s, run))
    decreases |run|
  {
    if run != [] {
      PromptInvStep(p, s, run[0]);
      InvStep(p, s, run[0]);
      PromptInvRun(p, Apply(p, s, run[0]), run[1..]);
    }
  }

  /** The online debouncer refines the offline one: with prompt scheduling the
      reload times are those of one reload per maximal burst of handled events. */
  lemma PromptRunsMeetOffline(p: Params, s0: State, run: seq<Action>)
    requires Init(p, s0) && ValidRun(p, s0, run) && PromptRun(p, s0, run)
    ensures var s := Exec(p, s0, run); var ts := EventTimes(s.hist.log);
      && BurstReloads(ts, p.debounce, |ts|) == Predicted(s.hist.log, p.debounce)
      && (s.loop.pc.Select? && !s.loop.debounceC ==> ReloadTimes(s.hist.log) == BurstReloads(ts, p.debounce, |ts|))
  {
    InitInv(p, s0);
    InvRun(p, s0, run);
    PromptInvRun(p, s0, run);
    PromptMeetsOffline(Exec(p, s0, run).hist.log, p.debounce);
  }

  // ----- publication -----

  /** The published client always comes from a successful load; the clients it
      replaced had their idle connections closed once each, in order, itself never;
      no step but the swap after a successful load changes it. */
  lemma PublishedClientIsSound(p: Params, s: State)
    requires Reachable(p, s)
    ensures Usable(p, s.loop.client.creds)
    ensures s.loop.client.id !in s.hist.idleClosed
    ensures !s.loop.pc.Retire? ==> s.hist.idleClosed == UpTo(s.loop.client.id)
    ensures s.loop.pc.Retire? ==> s.hist.idleClosed + [s.loop.pc.prev] == UpTo(s.loop.client.id)
    ensures forall a | Enabled(s, a) && !(a.Go? && s.loop.pc.Swap?) :: Apply(p, s, a).loop.client == s.loop.client
  {
    ReachableInv(p, s);
  }

  // ----- close -----

  /** Once any Close call has returned, the loop is over: no later step swaps a client,
      closes idle connections or re-arms the timer, and further calls return nil. */
  lemma {:induction false} ClosedIsFinal(p: Params, s: State, caller: nat, run: seq<Action>)
    requires Inv(p, s) && ValidRun(p, s, run)
    requires caller in s.closing.callers && s.closing.callers[caller].Returned?
    ensures var t := Exec(p, s, run);
      && t.loop == s.loop && t.loop.pc.Exited? && t.hist.idleClosed == s.hist.idleClosed && t.hist.log == s.hist.log
      && (forall c | c in t.closing.callers && !(c in s.closing.callers && s.closing.callers[c].Returned?) ::
            t.closing.callers[c].Blocked? || t.closing.callers[c] == Returned(false))
      && (forall c | c in s.closing.callers && s.closing.callers[c].Returned? ::
            c in t.closing.callers && t.closing.callers[c] == s.closing.callers[c])
    decreases |run|
  {
    if run != [] {
      InvStep(p, s, run[0]);
      ClosedStep(p, s, caller, run[0]);
      ClosedIsFinal(p, Apply(p, s, run[0]), caller, run[1..]);
    }
  }

  lemma ClosedStep(p: Params, s: State, caller: nat, a: Action)
    requires TimerInv(p, s.loop) && CloseInv(s.env, s.loop, s.closing) && Enabled(s, a)
    requires caller in s.closing.callers && s.closing.callers[caller].Returned?
    ensures NextLoop(p, s, a) == s.loop && NextClosing(s, a).once.Finished?
    ensures NextHist(s, a) == s.hist.(step := s.hist.step + 1, lastChange := NextHist(s, a).lastChange)
    ensures forall c | c in NextClosing(s, a).callers && !(c in s.closing.callers && s.closing.callers[c].Returned?) ::
      NextClosing(s, a).callers[c].Blocked? || NextClosing(s, a).callers[c] == Returned(false)
    ensures forall c | c in s.closing.callers && s.closing.callers[c].Returned? ::
      c in NextClosing(s, a).callers && NextClosing(s, a).callers[c] == s.closing.callers[c]
  {
  }

  /** When the loop has exited, the executing Close call can return, and after it all others. */
  lemma CloseCallsReturn(p: Params, s: State, caller: nat)
    requires Reachable(p, s) && s.loop.pc.Exited?
    requires caller in s.closing.callers && !s.closing.callers[caller].Returned?
    ensures match s.closing.once
      case Fresh => false
      case Running(c) => Enabled(s, CloseReturn(c, false)) && Apply(p, s, CloseReturn(c, false)).closing.once.Finished?
      case Finished => Enabled(s, CloseReturn(caller, false))
  {
    ReachableInv(p, s);
  }

  /** After the watcher is closed, some loop or timer step is enabled until the loop has exited. */
  lemma ClosingLoopAdvances(p: Params, s: State)
    requires Reachable(p, s) && s.env.watcherClosed && !s.loop.pc.Exited?
    ensures exists a :: Works(a) && Enabled(s, a)
  {
    ReachableInv(p, s);
    assert TimerInv(p, s.loop);
    assert Enabled(s, Go) || Enabled(s, Deliver) || Enabled(s, PickEvent) || Enabled(s, PickClosed);
  }

  /** ... and there are at most `Fuel` such steps, whatever else happens in between. */
  lemma {:induction false} ClosingLoopEnds(p: Params, s: State, run: seq<Action>)
    requires Inv(p, s) && s.env.watcherClosed && ValidRun(p, s, run)
    ensures Count(run, Works) <= Fuel(s)
  {
    ClosedWatcherIsSilent(p, s, run);
    WorkIsBounded(p, s, run);
  }

  lemma {:induction false} ClosedWatcherIsSilent(p: Params, s: State, run: seq<Action>)
    requires s.env.watcherClosed && ValidRun(p, s, run)
    ensures Silent(run)
    decreases |run|
  {
    if run != [] {
      ClosedWatcherIsSilent(p, Apply(p, s, run[0]), run[1..]);
      assert run == [run[0]] + run[1..];
    }
  }
}
