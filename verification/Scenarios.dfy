/** Concrete runs of a handler with no processor and one guaranteed output: that the situations
    other theorems speak of occur. */
module Scenarios {
  import opened Basics
  import FJ = ForkJoin
  import opened Send
  import opened Handler
  import Delivery

  /** A step of the only request, which was `q` and becomes `q'`. */
  lemma ExtendOnly(p: Params, s: State, act: ReqAction, q: Request, q': Request) returns (t: State)
    requires Reachable(p, s) && !s.cancelled && s.reqs == [q]
    requires ReqEnabled(p, false, q, act) && q' == ReqNext(p, false, q, act)
    ensures Reachable(p, t) && !t.cancelled && t.reqs == [q'] && t.posts == s.posts + ReqPosts(0, act)
  {
    t := Apply(p, s, On(0, act));
    Extend(p, s, On(0, act));
  }

  lemma Start(p: Params, body: Bytes) returns (s: State)
    requires p.procs == [] && |p.guaranteed| == 1
    ensures Reachable(p, s) && !s.cancelled && s.posts == {}
    ensures s.reqs == [Request(Some(body), Some(body), Some(FJ.Begin(FJ.Guaranteed, 1, true)), None, {}, Forwarding)]
  {
    assert ValidRun(p, INITIAL, []) && Exec(p, INITIAL, []) == INITIAL;
    Extend(p, INITIAL, Arrive);
    s := Apply(p, INITIAL, Arrive);
    var q1 := Request(Some(body), None, None, None, {}, Processing(0, body));
    s := ExtendOnly(p, s, ReadOk(body), NEW_REQUEST, q1);
    s := ExtendOnly(p, s, Serve, q1, ServeStep(p, q1));
  }

  lemma Accept(p: Params, s0: State, body: Bytes, send: Run) returns (s: State)
    requires Reachable(p, s0) && !s0.cancelled && |p.guaranteed| == 1
    requires s0.reqs == [Request(Some(body), Some(body), Some(FJ.Begin(FJ.Guaranteed, 1, true)), None, {}, Forwarding)]
    requires send.err.None? && Possible(p.guaranteed[0], p.gzip, body, send)
    ensures Reachable(p, s) && !s.cancelled && |s.reqs| == 1
    ensures s.reqs[0].pc.Launching? && s.reqs[0].body == Some(body) && s.reqs[0].data == Some(body)
    ensures s.reqs[0].be.None? && s.posts == s0.posts + ReqPosts(0, GFork(FJ.SendEnds(0, true), send))
  {
    var q := s0.reqs[0];
    var f0 := q.g.value;
    var f1 := FJ.Apply(f0, FJ.SendEnds(0, true));
    var f2 := FJ.Apply(f1, FJ.Meter(0));
    var f3 := FJ.Apply(f2, FJ.MainStep);
    s := ExtendOnly(p, s0, GFork(FJ.SendEnds(0, true), send), q, q.(g := Some(f1)));
    s := ExtendOnly(p, s, GFork(FJ.Meter(0), send), q.(g := Some(f1)), q.(g := Some(f2)));
    s := ExtendOnly(p, s, GFork(FJ.MainStep, send), q.(g := Some(f2)), q.(g := Some(f3)));
    s := ExtendOnly(p, s, Serve, q.(g := Some(f3)), q.(g := Some(f3), pc := Launching));
  }

  lemma Detach(p: Params, s0: State, body: Bytes) returns (s: State)
    requires Reachable(p, s0) && !s0.cancelled && |p.bestEffort| == 1 && |s0.reqs| == 1
    requires s0.reqs[0].pc.Launching? && s0.reqs[0].data == Some(body) && s0.reqs[0].be.None?
    ensures Reachable(p, s) && !s.cancelled && |s.reqs| == 1
    ensures s.reqs[0].data == Some(body) && s.reqs[0].be.Some? && s.reqs[0].be.value.tasks == [FJ.Sending]
  {
    var q := s0.reqs[0];
    assert s0.reqs == [q];
    var f0 := FJ.Begin(FJ.BestEffort, 1, false);
    var q1 := q.(pc := Answered(200), be := Some(f0));
    s := ExtendOnly(p, s0, Serve, q, q1);
    var f1 := FJ.Apply(f0, FJ.Spawn);
    s := ExtendOnly(p, s, BFork(FJ.Spawn, Run(None, [], []), false), q1, q1.(be := Some(f1)));
    assert f1.tasks == [FJ.Sending];
  }

  /** Such states exist: a handler with one output of each mode and no processor, whose
      guaranteed output accepts the first request. */
  lemma RetryingTaskHappens(o: Output, g: Gzip, body: Bytes) returns (p: Params, s: State)
    requires o.attempts >= 2 && o.urlOk && Wire(o, g, body).Some?
    ensures p == Params([], [o], [o], g) && Reachable(p, s) && !s.cancelled && |s.reqs| == 1
    ensures s.reqs[0].data == Some(body) && s.reqs[0].be.Some? && s.reqs[0].be.value.tasks == [FJ.Sending]
  {
    p := Params([], [o], [o], g);
    var accepted := Reply(200, []);
    var w := World(_ => accepted, _ => 0, _ => 0.0, _ => false, (_, _, _, _) => 0);
    var send := Run(None, [Attempt(Wire(o, g, body).value, Zips(o), accepted)], []);
    assert Meets(o, g, body, w, send);
    var s1 := Start(p, body);
    var s2 := Accept(p, s1, body, send);
    s := Detach(p, s2, body);
  }

  /** With no attempt configured a request is answered 200 although nothing was posted. */
  lemma OkWithoutPost(o: Output, g: Gzip, body: Bytes) returns (s: State)
    requires o.attempts <= 0 && Wire(o, g, body).Some?
    ensures Reachable(Params([], [o], [], g), s) && |s.reqs| == 1 && Delivery.Ok(s.reqs[0]) && s.posts == {}
  {
    var p := Params([], [o], [], g);
    var w := World(_ => NoResponse, _ => 0, _ => 0.0, _ => false, (_, _, _, _) => 0);
    var send := Run(None, [], []);
    assert Meets(o, g, body, w, send);
    var s1 := Start(p, body);
    var s2 := Accept(p, s1, body, send);
    var q := s2.reqs[0];
    assert s2.reqs == [q];
    s := ExtendOnly(p, s2, Serve, q, q.(pc := Answered(200)));
  }
}
