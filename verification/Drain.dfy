/** What Shutdown guarantees about detached best-effort tasks. */
module Drain {
  import opened Basics
  import FJ = ForkJoin
  import opened Send
  import opened Handler
  import Delivery
  import Progress

  /** The request's best-effort task has run to its end. */
  predicate TaskOver(q: Request) { q.be.Some? && q.be.value.main.Returned? }

  predicate OtherReturned(calls: seq<Shutdown>, c: nat) {
    exists k | 0 <= k < |calls| :: k != c && !calls[k].status.Waiting?
  }

  ghost predicate CallInv(s: State, c: nat)
    requires c < |s.calls|
  {
    var call := s.calls[c];
    && (forall r | r in call.launched :: r < |s.reqs| && s.reqs[r].be.Some?)
    && (call.done ==> forall r | r in call.launched :: r < |s.reqs| && TaskOver(s.reqs[r]))
    && (call.done && call.clean ==> forall r | r in call.launched :: r < |s.reqs| && s.reqs[r].saw == {})
    && (call.done && !call.clean ==> call.status.TimedOut? || OtherReturned(s.calls, c))
    && call.start <= s.now
    && (call.status.ReturnedNil? ==> call.done)
    && (call.status.TimedOut? ==> s.now >= call.start + call.timeout)
    && (!call.status.Waiting? ==> s.cancelled)
  }

  ghost predicate Inv(s: State) {
    && s.wg == Count(s.reqs, Active)
    && (forall r | 0 <= r < |s.reqs| :: s.reqs[r].saw != {} ==> s.cancelled)
    && (forall c | 0 <= c < |s.calls| :: CallInv(s, c))
    && (s.cancelled ==> exists c | 0 <= c < |s.calls| :: !s.calls[c].status.Waiting?)
  }

  /** A best-effort task stays launched, and once over it changes no more. */
  lemma ReqKeeps(p: Params, cancelled: bool, q: Request, act: ReqAction)
    requires Delivery.ShapeInv(p, q) && Delivery.ForksInv(p, q) && ReqEnabled(p, cancelled, q, act)
    ensures var t := ReqNext(p, cancelled, q, act);
      && (q.be.Some? ==> t.be.Some?)
      && (TaskOver(q) ==> TaskOver(t) && t.saw == q.saw)
      && (t.saw != {} ==> q.saw != {} || cancelled)
      && ReqWg(p, cancelled, q, act) == (if Active(t) then 1 else 0) - (if Active(q) then 1 else 0)
  {
  }

  lemma CallKept(p: Params, s: State, r: nat, act: ReqAction, c: nat)
    requires Enabled(p, s, On(r, act)) && Delivery.ReqInv(p, s.posts, r, s.reqs[r]) && c < |s.calls| && CallInv(s, c)
    ensures CallInv(Apply(p, s, On(r, act)), c)
  {
    ReqKeeps(p, s.cancelled, s.reqs[r], act);
  }

  lemma OnStep(p: Params, s: State, r: nat, act: ReqAction)
    requires Delivery.Inv(p, s) && Inv(s) && Enabled(p, s, On(r, act))
    ensures Inv(Apply(p, s, On(r, act)))
  {
    var t := Apply(p, s, On(r, act));
    assert Delivery.ReqInv(p, s.posts, r, s.reqs[r]);
    ReqKeeps(p, s.cancelled, s.reqs[r], act);
    CountUpdate(s.reqs, r, t.reqs[r], Active);
    forall c | 0 <= c < |t.calls| ensures CallInv(t, c) {
      CallKept(p, s, r, act, c);
    }
  }

  lemma SeenCall(p: Params, s: State, c: nat)
    requires Inv(s) && Enabled(p, s, ShutSeen(c))
    ensures CallInv(Apply(p, s, ShutSeen(c)), c)
  {
    var t := Apply(p, s, ShutSeen(c));
    assert CallInv(s, c);
    CountZero(s.reqs, Active);
    KeepsReturned(s.calls, t.calls, c);
    if s.cancelled {
      var j :| 0 <= j < |s.calls| && !s.calls[j].status.Waiting?;
      assert j != c ==> !t.calls[j].status.Waiting?;
    }
  }

  lemma SeenStep(p: Params, s: State, c: nat)
    requires Inv(s) && Enabled(p, s, ShutSeen(c))
    ensures Inv(Apply(p, s, ShutSeen(c)))
  {
    var t := Apply(p, s, ShutSeen(c));
    forall k | 0 <= k < |t.calls| ensures CallInv(t, k) {
      if k == c {
        SeenCall(p, s, c);
      } else {
        assert CallInv(s, k);
        KeepsReturned(s.calls, t.calls, k);
      }
    }
    if s.cancelled {
      var j :| 0 <= j < |s.calls| && !s.calls[j].status.Waiting?;
      assert !t.calls[j].status.Waiting?;
    }
  }

  lemma KeepsReturned(calls: seq<Shutdown>, more: seq<Shutdown>, c: nat)
    requires |calls| <= |more| && (forall k | 0 <= k < |calls| && !calls[k].status.Waiting? :: !more[k].status.Waiting?)
    ensures OtherReturned(calls, c) ==> OtherReturned(more, c)
  {
    if OtherReturned(calls, c) {
      var k :| 0 <= k < |calls| && k != c && !calls[k].status.Waiting?;
      assert !more[k].status.Waiting?;
    }
  }

  lemma ReturnStep(p: Params, s: State, c: nat, a: Action)
    requires Inv(s) && Enabled(p, s, a) && (a == ShutDone(c) || a == ShutTimeout(c))
    ensures Inv(Apply(p, s, a))
  {
    var t := Apply(p, s, a);
    forall k | 0 <= k < |t.calls| ensures CallInv(t, k) {
      assert CallInv(s, k);
      KeepsReturned(s.calls, t.calls, k);
    }
    assert !t.calls[c].status.Waiting?;
  }

  lemma ArriveStep(p: Params, s: State)
    requires Inv(s)
    ensures Inv(Apply(p, s, Arrive))
  {
    var t := Apply(p, s, Arrive);
    CountAppend(s.reqs, NEW_REQUEST, Active);
    forall k | 0 <= k < |t.calls| ensures CallInv(t, k) {
      assert CallInv(s, k);
    }
  }

  lemma AdvanceStep(p: Params, s: State, dt: nat)
    requires Inv(s)
    ensures Inv(Apply(p, s, Advance(dt)))
  {
    var t := Apply(p, s, Advance(dt));
    forall k | 0 <= k < |t.calls| ensures CallInv(t, k) {
      assert CallInv(s, k);
    }
  }

  lemma NewCall(p: Params, s: State, timeout: nat)
    ensures CallInv(Apply(p, s, ShutCall(timeout)), |s.calls|)
  {
  }

  lemma OldCall(p: Params, s: State, timeout: nat, c: nat)
    requires c < |s.calls| && CallInv(s, c)
    ensures CallInv(Apply(p, s, ShutCall(timeout)), c)
  {
    var t := Apply(p, s, ShutCall(timeout));
    assert t.calls[c] == s.calls[c];
    KeepsReturned(s.calls, t.calls, c);
  }

  lemma CallStep(p: Params, s: State, timeout: nat)
    requires Inv(s)
    ensures Inv(Apply(p, s, ShutCall(timeout)))
  {
    var t := Apply(p, s, ShutCall(timeout));
    forall k | 0 <= k < |t.calls| ensures CallInv(t, k) {
      if k < |s.calls| {
        OldCall(p, s, timeout, k);
      } else {
        NewCall(p, s, timeout);
      }
    }
    if s.cancelled {
      var j :| 0 <= j < |s.calls| && !s.calls[j].status.Waiting?;
      assert !t.calls[j].status.Waiting?;
    }
  }

  lemma InvStep(p: Params, s: State, a: Action)
    requires Delivery.Inv(p, s) && Inv(s) && Enabled(p, s, a)
    ensures Inv(Apply(p, s, a))
  {
    match a
    case On(r, act) => OnStep(p, s, r, act);
    case ShutSeen(c) => SeenStep(p, s, c);
    case ShutDone(c) => ReturnStep(p, s, c, a);
    case ShutTimeout(c) => ReturnStep(p, s, c, a);
    case Arrive => ArriveStep(p, s);
    case Advance(dt) => AdvanceStep(p, s, dt);
    case ShutCall(timeout) => CallStep(p, s, timeout);
  }

  lemma {:induction false} InvRun(p: Params, s: State, run: seq<Action>)
    requires Delivery.Inv(p, s) && Inv(s) && ValidRun(p, s, run)
    ensures Inv(Exec(p, s, run))
    decreases |run|
  {
    if run != [] {
      InvStep(p, s, run[0]);
      Delivery.InvStep(p, s, run[0]);
      InvRun(p, Apply(p, s, run[0]), run[1..]);
    }
  }

  lemma ReachableInv(p: Params, s: State)
    requires Reachable(p, s)
    ensures Delivery.Inv(p, s) && Inv(s)
  {
    var run :| ValidRun(p, INITIAL, run) && Exec(p, INITIAL, run) == s;
    InvRun(p, INITIAL, run);
    Delivery.InvRun(p, INITIAL, run);
  }

  // ----- theorems -----

  lemma NilMeansDrained(p: Params, s: State, c: nat, r: nat)
    requires Reachable(p, s) && c < |s.calls| && s.calls[c].status.ReturnedNil? && r in s.calls[c].launched
    ensures r < |s.reqs| && s.reqs[r].be.Some?
    ensures forall i | 0 <= i < |s.reqs[r].be.value.tasks| :: s.reqs[r].be.value.tasks[i].Exited?
    ensures !OtherReturned(s.calls, c) ==> s.reqs[r].saw == {}
  {
    ReachableInv(p, s);
    assert CallInv(s, c);
    assert Delivery.ReqInv(p, s.posts, r, s.reqs[r]);
  }

  lemma {:induction false} LaunchedIsKept(p: Params, s: State, run: seq<Action>, c: nat)
    requires ValidRun(p, s, run) && c < |s.calls|
    ensures c < |Exec(p, s, run).calls|
    ensures var before, after := s.calls[c], Exec(p, s, run).calls[c];
      after.launched == before.launched && after.start == before.start && after.timeout == before.timeout
    decreases |run|
  {
    if run != [] {
      LaunchedIsKept(p, Apply(p, s, run[0]), run[1..], c);
    }
  }

  /** Drain guarantee: Shutdown is called in state s and other steps follow in any order; if
      that call has returned nil, every best-effort task that existed in s has ended all its
      Sends, and unless another Shutdown call has returned too, none of those Sends saw the
      shutdown context cancelled. */
  lemma ShutdownDrains(p: Params, s: State, timeout: nat, run: seq<Action>, r: nat)
    requires Reachable(p, s) && r < |s.reqs| && s.reqs[r].be.Some?
    requires ValidRun(p, Apply(p, s, ShutCall(timeout)), run)
    ensures var t := Exec(p, Apply(p, s, ShutCall(timeout)), run); var c := |s.calls|;
      && c < |t.calls| && r < |t.reqs|
      && (t.calls[c].status.TimedOut? ==> t.cancelled && t.now >= s.now + timeout)
      && (t.calls[c].status.ReturnedNil? ==>
            && t.cancelled
            && TaskOver(t.reqs[r])
            && (forall i | 0 <= i < |t.reqs[r].be.value.tasks| :: t.reqs[r].be.value.tasks[i].Exited?)
            && (!OtherReturned(t.calls, c) ==> t.reqs[r].saw == {}))
  {
    var s1 := Apply(p, s, ShutCall(timeout));
    var t, c := Exec(p, s1, run), |s.calls|;
    LaunchedIsKept(p, s1, run, c);
    assert r in s1.calls[c].launched;
    assert Reachable(p, t) by {
      var before :| ValidRun(p, INITIAL, before) && Exec(p, INITIAL, before) == s;
      var all := [ShutCall(timeout)] + run;
      assert all[1..] == run;
      assert ValidRun(p, s, all) && Exec(p, s, all) == t;
      RunConcat(p, s, INITIAL, before, all);
    }
    ReachableInv(p, t);
    assert CallInv(t, c);
    if t.calls[c].status.ReturnedNil? {
      NilMeansDrained(p, t, c, r);
    }
  }

  /** The shutdown context is cancelled once some call has returned, and never before a call's
      helper saw no task in the wait group or a call's timeout had elapsed. */
  lemma CancelledOnlyByShutdown(p: Params, s: State)
    requires Reachable(p, s)
    ensures s.cancelled <==> exists c | 0 <= c < |s.calls| :: !s.calls[c].status.Waiting?
    ensures forall c | 0 <= c < |s.calls| && !s.calls[c].status.Waiting? ::
      s.calls[c].done || s.now >= s.calls[c].start + s.calls[c].timeout
    ensures !s.cancelled ==> forall r | 0 <= r < |s.reqs| :: s.reqs[r].saw == {}
  {
    ReachableInv(p, s);
    forall c | 0 <= c < |s.calls| && !s.calls[c].status.Waiting?
      ensures s.cancelled && (s.calls[c].done || s.now >= s.calls[c].start + s.calls[c].timeout)
    {
      assert CallInv(s, c);
    }
  }

  /** The wait group counts exactly the best-effort tasks that have not ended. */
  lemma WaitGroupIsExact(p: Params, s: State)
    requires Reachable(p, s)
    ensures s.wg == Count(s.reqs, Active)
    ensures s.wg == 0 <==> forall r | 0 <= r < |s.reqs| && s.reqs[r].be.Some? :: s.reqs[r].be.value.main.Returned?
  {
    ReachableInv(p, s);
    CountZero(s.reqs, Active);
    if forall r | 0 <= r < |s.reqs| && s.reqs[r].be.Some? :: s.reqs[r].be.value.main.Returned? {
      assert forall r | 0 <= r < |s.reqs| :: !Active(s.reqs[r]);
    }
  }

  // ----- cancelled Sends, and when calls return -----

  /** A best-effort Send that ends because its context was cancelled. */
  predicate EndsCancelled(act: ReqAction) {
    act.BFork? && act.a.SendEnds? && act.run.err.Some? && act.run.err.value.Cancelled?
  }

  /** That happens only after some Shutdown call has returned, and it is remembered. */
  lemma CancelledSendIsSeen(p: Params, s: State, r: nat, act: ReqAction)
    requires Reachable(p, s) && Enabled(p, s, On(r, act)) && EndsCancelled(act)
    ensures exists c | 0 <= c < |s.calls| :: !s.calls[c].status.Waiting?
    ensures act.a.i in Apply(p, s, On(r, act)).reqs[r].saw
  {
    ReachableInv(p, s);
  }

  lemma {:induction false} SawGrows(p: Params, s: State, run: seq<Action>, r: nat)
    requires ValidRun(p, s, run) && r < |s.reqs|
    ensures r < |Exec(p, s, run).reqs| && s.reqs[r].saw <= Exec(p, s, run).reqs[r].saw
    decreases |run|
  {
    if run != [] {
      SawGrows(p, Apply(p, s, run[0]), run[1..], r);
    }
  }

  lemma {:induction false} CancelledInRun(p: Params, s: State, run: seq<Action>, k: nat)
    requires ValidRun(p, s, run) && k < |run| && run[k].On? && EndsCancelled(run[k].act) && run[k].r < |s.reqs|
    ensures run[k].r < |Exec(p, s, run).reqs| && Exec(p, s, run).reqs[run[k].r].saw != {}
    decreases |run|
  {
    var t := Apply(p, s, run[0]);
    if k == 0 {
      assert run[0].act.a.i in t.reqs[run[0].r].saw;
      SawGrows(p, t, run[1..], run[0].r);
    } else {
      CancelledInRun(p, t, run[1..], k - 1);
    }
  }

  /** The drain guarantee on what Sends return: if a call made in state s has returned nil, and no
      other call has returned, then no Send of a task launched before the call ended cancelled. */
  lemma DrainedSendsAreNotCancelled(p: Params, s: State, timeout: nat, run: seq<Action>, k: nat)
    requires Reachable(p, s) && ValidRun(p, Apply(p, s, ShutCall(timeout)), run)
    requires k < |run| && run[k].On? && run[k].r < |s.reqs| && s.reqs[run[k].r].be.Some?
    requires var t := Exec(p, Apply(p, s, ShutCall(timeout)), run);
      |s.calls| < |t.calls| && t.calls[|s.calls|].status.ReturnedNil? && !OtherReturned(t.calls, |s.calls|)
    ensures !EndsCancelled(run[k].act)
  {
    ShutdownDrains(p, s, timeout, run, run[k].r);
    if EndsCancelled(run[k].act) {
      CancelledInRun(p, Apply(p, s, ShutCall(timeout)), run, k);
    }
  }

  /** A waiting call can return when it should: with a timeout error exactly from the moment its
      timeout has elapsed, and with nil as soon as all best-effort tasks are over. */
  lemma CallsReturnInTime(p: Params, s: State, c: nat)
    requires Reachable(p, s) && c < |s.calls| && s.calls[c].status.Waiting?
    ensures Enabled(p, s, ShutTimeout(c)) <==> s.now >= s.calls[c].start + s.calls[c].timeout
    ensures Enabled(p, Apply(p, s, Advance(s.calls[c].timeout)), ShutTimeout(c))
    ensures s.calls[c].done ==> Enabled(p, s, ShutDone(c)) && Apply(p, s, ShutDone(c)).calls[c].status.ReturnedNil?
    ensures !s.calls[c].done && (forall r | 0 <= r < |s.reqs| && s.reqs[r].be.Some? :: TaskOver(s.reqs[r])) ==>
      Enabled(p, s, ShutSeen(c)) && Enabled(p, Apply(p, s, ShutSeen(c)), ShutDone(c))
  {
    ReachableInv(p, s);
    WaitGroupIsExact(p, s);
    assert CallInv(s, c);
  }

  // ----- why other calls are excluded -----

  function LeftOf(q: Request): nat { Progress.ForkFuel(q.be) }

  /** What steps of best-effort tasks leave as it was; what Sends saw is not forgotten. */
  ghost predicate TasksOnly(s: State, t: State) {
    && t.calls == s.calls && t.cancelled == s.cancelled && |t.reqs| == |s.reqs|
    && forall r | 0 <= r < |s.reqs| :: s.reqs[r].saw <= t.reqs[r].saw
  }

  /** A step of an unfinished best-effort task. */
  lemma TaskGoesOn(p: Params, s: State, r: nat) returns (act: ReqAction)
    requires Delivery.Inv(p, s) && r < |s.reqs| && Active(s.reqs[r])
    ensures act.BFork? && Enabled(p, s, On(r, act))
    ensures TasksOnly(s, Apply(p, s, On(r, act))) && Total(Apply(p, s, On(r, act)).reqs, LeftOf) < Total(s.reqs, LeftOf)
  {
    var q := s.reqs[r];
    assert Delivery.ReqInv(p, s.posts, r, q);
    var a, send := Progress.ForkGoesOn(p.bestEffort, p.gzip, q.data.value, q.be.value);
    act := BFork(a, send, false);
    FJ.FuelStep(q.be.value, a);
    TotalUpdate(s.reqs, r, ReqNext(p, s.cancelled, q, act), LeftOf);
  }

  /** From every state, all best-effort tasks can be brought to their end by their own steps. */
  lemma {:induction false} TasksCanEnd(p: Params, s: State) returns (run: seq<Action>)
    requires Delivery.Inv(p, s) && Inv(s)
    ensures ValidRun(p, s, run)
    ensures Exec(p, s, run).wg == 0 && TasksOnly(s, Exec(p, s, run))
    decreases Total(s.reqs, LeftOf)
  {
    if r: nat :| r < |s.reqs| && Active(s.reqs[r]) {
      var act := TaskGoesOn(p, s, r);
      Delivery.InvStep(p, s, On(r, act));
      InvStep(p, s, On(r, act));
      var next := Apply(p, s, On(r, act));
      var rest := TasksCanEnd(p, next);
      run := [On(r, act)] + rest;
      Prepend(p, s, On(r, act), rest);
      OnlyTransitive(s, next, Exec(p, next, rest));
    } else {
      CountZero(s.reqs, Active);
      run := [];
    }
  }

  lemma OnlyTransitive(s: State, t: State, u: State)
    requires TasksOnly(s, t) && TasksOnly(t, u)
    ensures TasksOnly(s, u)
  {
    forall r | 0 <= r < |s.reqs| ensures s.reqs[r].saw <= u.reqs[r].saw {
      assert s.reqs[r].saw <= t.reqs[r].saw;
    }
  }

  /** A Send that gets no response and is cancelled while it waits to retry. */
  lemma CancelledSend(o: Output, g: Gzip, data: Bytes) returns (send: Run)
    requires o.attempts >= 2 && o.urlOk && Wire(o, g, data).Some?
    ensures Possible(o, g, data, send) && send.err == Some(Cancelled(RequestFailed))
  {
    var w := World(_ => NoResponse, _ => 0, _ => 0.0, _ => true, (_, _, _, _) => 0);
    send := Run(Some(Cancelled(RequestFailed)), [Attempt(Wire(o, g, data).value, Zips(o), NoResponse)], [0]);
    assert Meets(o, g, data, w, send);
  }

  /** The end of a drain whose tasks are over: the helper sees it and the call returns nil. */
  lemma CallReturnsNil(p: Params, s: State, c: nat) returns (run: seq<Action>)
    requires s.wg == 0 && c < |s.calls| && !s.calls[c].done && s.calls[c].status.Waiting?
    ensures run == [ShutSeen(c), ShutDone(c)] && ValidRun(p, s, run)
    ensures var t := Exec(p, s, run);
      && t.reqs == s.reqs
      && t.calls == s.calls[c := s.calls[c].(done := true, clean := !s.cancelled, status := ReturnedNil)]
  {
    run := [ShutSeen(c), ShutDone(c)];
    var s1 := Apply(p, s, ShutSeen(c));
    var s2 := Apply(p, s1, ShutDone(c));
    assert ValidRun(p, s2, []) && Exec(p, s2, []) == s2;
    Prepend(p, s1, ShutDone(c), []);
    Prepend(p, s, ShutSeen(c), [ShutDone(c)]);
    assert [ShutSeen(c)] + [ShutDone(c)] == run;
  }

  /** After a Send under way was cancelled, the first call can still drain and return nil. */
  lemma DrainAfterCancel(p: Params, s: State, c: nat, r: nat, act: ReqAction) returns (run: seq<Action>)
    requires Delivery.Inv(p, s) && Inv(s) && Enabled(p, s, On(r, act)) && act.BFork? && act.saw
    requires c < |s.calls| && !s.calls[c].done && s.calls[c].status.Waiting?
    ensures ValidRun(p, s, [On(r, act)] + run)
    ensures var t := Exec(p, s, [On(r, act)] + run);
      && r < |t.reqs| && act.a.SendEnds? && act.a.i in t.reqs[r].saw
      && t.calls == s.calls[c := s.calls[c].(done := true, clean := !s.cancelled, status := ReturnedNil)]
  {
    var s1 := Apply(p, s, On(r, act));
    Delivery.InvStep(p, s, On(r, act));
    InvStep(p, s, On(r, act));
    var ending := TasksCanEnd(p, s1);
    var returning := CallReturnsNil(p, Exec(p, s1, ending), c);
    RunConcat(p, Exec(p, s1, ending), s1, ending, returning);
    run := ending + returning;
    Prepend(p, s, On(r, act), run);
  }

  /** Two Shutdown calls, the second of which times out at once. */
  lemma TwoCalls(p: Params, s: State, timeout: nat) returns (t: State)
    requires Reachable(p, s)
    ensures var run := [ShutCall(timeout), ShutCall(0), ShutTimeout(|s.calls| + 1)];
      ValidRun(p, s, run) && Exec(p, s, run) == t
    ensures Reachable(p, t) && t.cancelled && t.reqs == s.reqs
    ensures t.calls == s.calls + [Shutdown(s.now, timeout, Launched(s.reqs), false, false, Waiting),
                                  Shutdown(s.now, 0, Launched(s.reqs), false, false, TimedOut)]
  {
    var a1, a2, a3 := ShutCall(timeout), ShutCall(0), ShutTimeout(|s.calls| + 1);
    var s1 := Apply(p, s, a1);
    var s2 := Apply(p, s1, a2);
    t := Apply(p, s2, a3);
    Extend(p, s, a1);
    Extend(p, s1, a2);
    Extend(p, s2, a3);
    assert ValidRun(p, t, []) && Exec(p, t, []) == t;
    Prepend(p, s2, a3, []);
    Prepend(p, s1, a2, [a3]);
    Prepend(p, s, a1, [a2, a3]);
    assert [a1] + [a2, a3] == [a1, a2, a3] && [a2] + [a3] == [a2, a3] && [a3] + [] == [a3];
  }

  /** Why the guarantee excludes other calls.  From every reachable state in which the context is
      not cancelled and some best-effort Send that may retry is under way: a Shutdown call is
      made, a second one times out at once, the Send ends cancelled, and the first call still
      drains and returns nil, with a Send that saw the context cancelled among its tasks. */
  lemma EarlyTimeoutIsSeen(p: Params, s: State, timeout: nat, r: nat, i: nat) returns (send: Run, run: seq<Action>)
    requires Reachable(p, s) && !s.cancelled
    requires r < |s.reqs| && s.reqs[r].be.Some? && s.reqs[r].data.Some?
    requires i < |s.reqs[r].be.value.tasks| && s.reqs[r].be.value.tasks[i].Sending?
    requires i < |p.bestEffort| && p.bestEffort[i].attempts >= 2 && p.bestEffort[i].urlOk
    requires Wire(p.bestEffort[i], p.gzip, s.reqs[r].data.value).Some?
    ensures send.err == Some(Cancelled(RequestFailed))
    ensures var c := |s.calls|;
      var calls := [ShutCall(timeout), ShutCall(0), ShutTimeout(c + 1)];
      var all := calls + [On(r, BFork(FJ.SendEnds(i, false), send, true))] + run;
      && ValidRun(p, s, all)
      && var t := Exec(p, s, all);
         && |t.calls| == c + 2 && t.calls[c].status.ReturnedNil? && t.calls[c + 1].status.TimedOut?
         && r in t.calls[c].launched && r < |t.reqs| && i in t.reqs[r].saw
  {
    var c := |s.calls|;
    var calls := [ShutCall(timeout), ShutCall(0), ShutTimeout(c + 1)];
    var s1 := TwoCalls(p, s, timeout);
    ReachableInv(p, s1);
    send := CancelledSend(p.bestEffort[i], p.gzip, s.reqs[r].data.value);
    var act := BFork(FJ.SendEnds(i, false), send, true);
    run := DrainAfterCancel(p, s1, c, r, act);
    RunConcat(p, s1, s, calls, [On(r, act)] + run);
    assert calls + ([On(r, act)] + run) == calls + [On(r, act)] + run;
    assert r in s1.calls[c].launched;
  }
}
