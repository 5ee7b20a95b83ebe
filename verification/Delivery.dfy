/** What the handler promises about delivery, over every interleaving. */
module Delivery {
  import opened Basics
  import FJ = ForkJoin
  import opened Send
  import opened Handler

  /** The fan-out returned without an error. */
  predicate Clean(f: Option<FJ.Fork>) { f.Some? && f.value.main.Returned? && f.value.errs == [] }

  /** The task's Send has ended without an error. */
  predicate Succeeded(t: FJ.Task) { (t.Sent? || t.Metered? || t.Exited?) && t.ok }

  /** The task's Send has ended. */
  predicate Ended(t: FJ.Task) { t.Sent? || t.Metered? || t.Pushed? || t.Exited? }

  /** The POST went from request r to output i of a mode. */
  predicate Sent(q: Post, r: nat, mode: FJ.Mode, i: nat) { q.req == r && q.mode == mode && q.out == i }

  /** Output i answered 2xx, with a body that could be read, to a POST of request r. */
  ghost predicate AnsweredOk(posts: set<Post>, r: nat, mode: FJ.Mode, i: nat) {
    exists q ::
      q in posts && Sent(q, r, mode, i) && q.attempt.outcome.Reply? && 200 <= q.attempt.outcome.status <= 299
  }

  /** A POST of request r reached output i of a mode, was answered 2xx, and carries `data`. */
  ghost predicate Accepted(o: Output, g: Gzip, posts: set<Post>, r: nat, mode: FJ.Mode, i: nat, data: Bytes) {
    exists q ::
      q in posts && Sent(q, r, mode, i) && Success(q.attempt.outcome) && Carries(o, g, q.attempt, data)
  }

  /** What makes a Send to output o a success: an accepted POST, or, without attempts to make,
      data that can be packed. */
  ghost predicate Served(o: Output, g: Gzip, data: Bytes, posts: set<Post>, r: nat, mode: FJ.Mode, i: nat) {
    if o.attempts >= 1 then AnsweredOk(posts, r, mode, i) else Wire(o, g, data).Some?
  }

  predicate Carries(o: Output, g: Gzip, a: Attempt, data: Bytes) {
    Wire(o, g, data) == Some(a.payload) && a.gzipHeader == Zips(o)
  }

  // ----- per-request invariants -----

  /** Which parts of a request exist at which point, and that `data` is the processed body. */
  ghost predicate ShapeInv(p: Params, q: Request) {
    && (q.data.Some? <==> q.g.Some?)
    && (q.data.Some? ==> q.body.Some? && Chain(p.procs, q.body.value) == q.data)
    && (q.be.Some? ==> q.data.Some? && Clean(q.g))
    && match q.pc
       case Reading => q.body.None? && q.data.None?
       case Processing(k, cur) =>
         q.data.None? && q.body.Some? && k <= |p.procs| && Chain(p.procs[..k], q.body.value) == Some(cur)
       case Forwarding => q.data.Some? && q.be.None?
       case Launching => q.data.Some? && q.be.None? && Clean(q.g)
       case Answered(code) => AnswerInv(p, q, code)
       case Finished(code) => AnswerInv(p, q, code)
  }

  /** Why a request is answered the way it is. */
  ghost predicate AnswerInv(p: Params, q: Request, code: int) {
    || (code == 200 && Clean(q.g) && (q.be.Some? <==> |p.bestEffort| > 0))
    || (code == 500 && q.be.None?
        && (q.g.None? ==> q.body.None? || Chain(p.procs, q.body.value).None?)
        && (q.g.Some? ==> q.g.value.main.Returned? && q.g.value.errs != []))
  }

  ghost predicate ForksInv(p: Params, q: Request) {
    && (q.g.Some? ==> FJ.Inv(q.g.value) && q.g.value.mode.Guaranteed? && |q.g.value.tasks| == |p.guaranteed|)
    && (q.be.Some? ==> FJ.Inv(q.be.value) && q.be.value.mode.BestEffort? && |q.be.value.tasks| == |p.bestEffort|)
  }

  /** Before its Send has ended a task has posted nothing; then its result is that of its POSTs. */
  ghost predicate TaskPosts(
    o: Output, g: Gzip, data: Bytes, posts: set<Post>, r: nat, mode: FJ.Mode, i: nat, t: FJ.Task)
  {
    if Ended(t) then Succeeded(t) <==> Served(o, g, data, posts, r, mode, i)
    else forall q | q in posts :: !Sent(q, r, mode, i)
  }

  ghost predicate ForkPosts(
    outs: seq<Output>, g: Gzip, data: Option<Bytes>, posts: set<Post>, r: nat, mode: FJ.Mode, f: Option<FJ.Fork>)
  {
    if f.Some? && data.Some? && |f.value.tasks| == |outs|
    then forall i | 0 <= i < |outs| :: TaskPosts(outs[i], g, data.value, posts, r, mode, i, f.value.tasks[i])
    else forall q | q in posts :: !(q.req == r && q.mode == mode)
  }

  ghost predicate AcceptInv(p: Params, posts: set<Post>, r: nat, q: Request) {
    && ForkPosts(p.guaranteed, p.gzip, q.data, posts, r, FJ.Guaranteed, q.g)
    && ForkPosts(p.bestEffort, p.gzip, q.data, posts, r, FJ.BestEffort, q.be)
  }

  ghost predicate ReqInv(p: Params, posts: set<Post>, r: nat, q: Request) {
    ShapeInv(p, q) && ForksInv(p, q) && AcceptInv(p, posts, r, q)
  }

  function Outs(p: Params, mode: FJ.Mode): seq<Output> {
    if mode.Guaranteed? then p.guaranteed else p.bestEffort
  }

  /** A POST comes from a processed request, carries its data and goes to an output with attempts
      to make; a best-effort one only follows a clean guaranteed fan-out. */
  ghost predicate PostInv(p: Params, q: Post, from: Request) {
    && from.data.Some?
    && (q.mode.BestEffort? ==> from.be.Some?)
    && q.out < |Outs(p, q.mode)|
    && Outs(p, q.mode)[q.out].attempts >= 1
    && Carries(Outs(p, q.mode)[q.out], p.gzip, q.attempt, from.data.value)
  }

  ghost predicate Inv(p: Params, s: State) {
    && (forall r | 0 <= r < |s.reqs| :: ReqInv(p, s.posts, r, s.reqs[r]))
    && (forall q | q in s.posts :: q.req < |s.reqs| && PostInv(p, q, s.reqs[q.req]))
  }

  // ----- preservation -----

  lemma ShapeStep(p: Params, cancelled: bool, q: Request, act: ReqAction)
    requires ShapeInv(p, q) && ReqEnabled(p, cancelled, q, act)
    ensures ShapeInv(p, ReqNext(p, cancelled, q, act))
  {
    match act
    case ReadOk(body) =>
      assert p.procs[..0] == [];
    case Serve =>
      if q.pc.Processing? {
        if q.pc.next < |p.procs| {
          ChainStep(p.procs, q.pc.next, q.body.value);
          if p.procs[q.pc.next](q.pc.cur).None? {
            ChainFails(p.procs, q.pc.next + 1, q.body.value);
          }
        } else {
          assert p.procs[..q.pc.next] == p.procs;
        }
      }
    case GFork(a, _) =>
      assert q.g.value.main.Returned? ==> FJ.Apply(q.g.value, a).main.Returned?;
    case _ =>
  }

  lemma ForksStep(p: Params, cancelled: bool, q: Request, act: ReqAction)
    requires ShapeInv(p, q) && ForksInv(p, q) && ReqEnabled(p, cancelled, q, act)
    ensures ForksInv(p, ReqNext(p, cancelled, q, act))
  {
    match act
    case Serve =>
      FJ.BeginInv(FJ.Guaranteed, |p.guaranteed|, |p.guaranteed| == 1);
      FJ.BeginInv(FJ.BestEffort, |p.bestEffort|, false);
    case GFork(a, _) => FJ.InvStep(q.g.value, a);
    case BFork(a, _, _) => FJ.InvStep(q.be.value, a);
    case _ =>
  }

  /** No fan-out step but the end of its Send changes whether a task's Send has ended, or how. */
  lemma OnlySendEnds(f: FJ.Fork, a: FJ.Action, i: nat)
    requires FJ.Inv(f) && FJ.Enabled(f, a) && i < |f.tasks| && i < |FJ.Apply(f, a).tasks|
    requires !(a.SendEnds? && a.i == i)
    ensures var t, t' := f.tasks[i], FJ.Apply(f, a).tasks[i];
      (Ended(t') <==> Ended(t)) && (Ended(t) ==> (Succeeded(t') <==> Succeeded(t)))
  {
  }

  lemma SuccessIsLast(o: Output, g: Gzip, data: Bytes, w: World, run: Run, k: nat)
    requires Meets(o, g, data, w, run) && k < |run.trace|
    requires run.trace[k].outcome.Reply? && 200 <= run.trace[k].outcome.status <= 299
    ensures run.err.None?
  {
    assert run.trace[k].outcome == w.reply(k + 1);
    AfterAttempt(o, g, data, w, run, k + 1);
  }

  /** A Send's result is that of its POSTs: only its last attempt can be a success. */
  lemma SendIsServed(o: Output, g: Gzip, data: Bytes, run: Run, posts: set<Post>, r: nat, mode: FJ.Mode, i: nat)
    requires Possible(o, g, data, run)
    requires forall q | q in posts :: !Sent(q, r, mode, i)
    ensures run.err.None? <==>
      Served(o, g, data, posts + (set x | x in run.trace :: Post(r, mode, i, x)), r, mode, i)
  {
    var w :| Meets(o, g, data, w, run);
    TraceShape(o, g, data, w, run);
    var more := posts + (set x | x in run.trace :: Post(r, mode, i, x));
    if o.attempts >= 1 {
      if run.err.None? {
        var last := Post(r, mode, i, run.trace[|run.trace| - 1]);
        assert last in more && Sent(last, r, mode, i);
      }
      if AnsweredOk(more, r, mode, i) {
        var q :| q in more && Sent(q, r, mode, i) && q.attempt.outcome.Reply? && 200 <= q.attempt.outcome.status <= 299;
        var k :| 0 <= k < |run.trace| && q.attempt == run.trace[k];
        SuccessIsLast(o, g, data, w, run, k);
      }
    }
  }

  /** New POSTs of another request or mode, or of another output, make no difference. */
  lemma ServedKept(
    o: Output, g: Gzip, data: Bytes, posts: set<Post>, more: set<Post>, r: nat, mode: FJ.Mode, i: nat, t: FJ.Task)
    requires TaskPosts(o, g, data, posts, r, mode, i, t)
    requires posts <= more && forall q | q in more && q !in posts :: !Sent(q, r, mode, i)
    ensures TaskPosts(o, g, data, more, r, mode, i, t)
  {
  }

  lemma ForkKept(
    outs: seq<Output>, g: Gzip, data: Option<Bytes>, posts: set<Post>, more: set<Post>, r: nat, mode: FJ.Mode,
    f: Option<FJ.Fork>)
    requires ForkPosts(outs, g, data, posts, r, mode, f)
    requires posts <= more && forall q | q in more && q !in posts :: !(q.req == r && q.mode == mode)
    ensures ForkPosts(outs, g, data, more, r, mode, f)
  {
    if f.Some? && data.Some? && |f.value.tasks| == |outs| {
      forall i | 0 <= i < |outs| ensures TaskPosts(outs[i], g, data.value, more, r, mode, i, f.value.tasks[i]) {
        ServedKept(outs[i], g, data.value, posts, more, r, mode, i, f.value.tasks[i]);
      }
    }
  }

  function NewPosts(r: nat, mode: FJ.Mode, a: FJ.Action, run: Run): set<Post> {
    if a.SendEnds? then set x | x in run.trace :: Post(r, mode, a.i, x) else {}
  }

  lemma ForkMoves(
    outs: seq<Output>, g: Gzip, data: Option<Bytes>, posts: set<Post>, r: nat, mode: FJ.Mode, f: FJ.Fork,
    a: FJ.Action, run: Run)
    requires FJ.Inv(f) && data.Some? && |f.tasks| == |outs| && ForkEnabled(outs, g, data, Some(f), a, run)
    requires ForkPosts(outs, g, data, posts, r, mode, Some(f))
    ensures ForkPosts(outs, g, data, posts + NewPosts(r, mode, a, run), r, mode, Some(FJ.Apply(f, a)))
  {
    var more, t := posts + NewPosts(r, mode, a, run), FJ.Apply(f, a);
    forall i | 0 <= i < |outs| && i < |t.tasks|
      ensures TaskPosts(outs[i], g, data.value, more, r, mode, i, t.tasks[i])
    {
      assert TaskPosts(outs[i], g, data.value, posts, r, mode, i, f.tasks[i]);
      if a.SendEnds? && a.i == i {
        SendIsServed(outs[i], g, data.value, run, posts, r, mode, i);
      } else {
        OnlySendEnds(f, a, i);
        ServedKept(outs[i], g, data.value, posts, more, r, mode, i, f.tasks[i]);
      }
    }
  }

  lemma BeginPosts(outs: seq<Output>, g: Gzip, data: Bytes, posts: set<Post>, r: nat, mode: FJ.Mode, fast: bool)
    requires fast ==> mode.Guaranteed? && |outs| == 1
    requires forall q | q in posts :: !(q.req == r && q.mode == mode)
    ensures ForkPosts(outs, g, Some(data), posts, r, mode, Some(FJ.Begin(mode, |outs|, fast)))
  {
  }

  lemma AcceptStep(p: Params, cancelled: bool, posts: set<Post>, r: nat, q: Request, act: ReqAction)
    requires ReqInv(p, posts, r, q) && ReqEnabled(p, cancelled, q, act)
    ensures AcceptInv(p, posts + ReqPosts(r, act), r, ReqNext(p, cancelled, q, act))
  {
    var more := posts + ReqPosts(r, act);
    match act
    case GFork(a, run) =>
      assert ReqPosts(r, act) == NewPosts(r, FJ.Guaranteed, a, run);
      ForkMoves(p.guaranteed, p.gzip, q.data, posts, r, FJ.Guaranteed, q.g.value, a, run);
      ForkKept(p.bestEffort, p.gzip, q.data, posts, more, r, FJ.BestEffort, q.be);
    case BFork(a, run, _) =>
      assert ReqPosts(r, act) == NewPosts(r, FJ.BestEffort, a, run);
      ForkMoves(p.bestEffort, p.gzip, q.data, posts, r, FJ.BestEffort, q.be.value, a, run);
      ForkKept(p.guaranteed, p.gzip, q.data, posts, more, r, FJ.Guaranteed, q.g);
    case Serve =>
      assert more == posts;
      ServeAccepts(p, posts, r, q);
    case _ =>
      assert more == posts;
  }

  lemma ServeAccepts(p: Params, posts: set<Post>, r: nat, q: Request)
    requires ReqInv(p, posts, r, q) && ReqEnabled(p, false, q, Serve)
    ensures AcceptInv(p, posts, r, ServeStep(p, q))
  {
    if q.pc.Processing? && q.pc.next == |p.procs| {
      BeginPosts(p.guaranteed, p.gzip, q.pc.cur, posts, r, FJ.Guaranteed, |p.guaranteed| == 1);
    } else if q.pc.Launching? && |p.bestEffort| > 0 {
      BeginPosts(p.bestEffort, p.gzip, q.data.value, posts, r, FJ.BestEffort, false);
    }
  }

  /** What a step adds to the POSTs fits the request after the step. */
  lemma PostsFit(p: Params, cancelled: bool, r: nat, q: Request, act: ReqAction, x: Post)
    requires ShapeInv(p, q) && ForksInv(p, q) && ReqEnabled(p, cancelled, q, act) && x in ReqPosts(r, act)
    ensures x.req == r && PostInv(p, x, ReqNext(p, cancelled, q, act))
  {
    var outs := if act.GFork? then p.guaranteed else p.bestEffort;
    var w :| Meets(outs[act.a.i], p.gzip, q.data.value, w, act.run);
    TraceShape(outs[act.a.i], p.gzip, q.data.value, w, act.run);
  }

  /** A request's data and best-effort task, once there, stay. */
  lemma PostKept(p: Params, cancelled: bool, q: Request, act: ReqAction, x: Post)
    requires ShapeInv(p, q) && ReqEnabled(p, cancelled, q, act) && PostInv(p, x, q)
    ensures PostInv(p, x, ReqNext(p, cancelled, q, act))
  {
  }

  lemma OnStep(p: Params, s: State, r: nat, act: ReqAction)
    requires Inv(p, s) && Enabled(p, s, On(r, act))
    ensures Inv(p, Apply(p, s, On(r, act)))
  {
    var t := Apply(p, s, On(r, act));
    var q := s.reqs[r];
    forall k | 0 <= k < |t.reqs| ensures ReqInv(p, t.posts, k, t.reqs[k]) {
      assert ReqInv(p, s.posts, k, s.reqs[k]);
      if k == r {
        ShapeStep(p, s.cancelled, q, act);
        ForksStep(p, s.cancelled, q, act);
        AcceptStep(p, s.cancelled, s.posts, r, q, act);
      } else {
        ForkKept(p.guaranteed, p.gzip, s.reqs[k].data, s.posts, t.posts, k, FJ.Guaranteed, s.reqs[k].g);
        ForkKept(p.bestEffort, p.gzip, s.reqs[k].data, s.posts, t.posts, k, FJ.BestEffort, s.reqs[k].be);
      }
    }
    forall x | x in t.posts ensures x.req < |t.reqs| && PostInv(p, x, t.reqs[x.req]) {
      assert ReqInv(p, s.posts, r, s.reqs[r]);
      if x !in s.posts {
        PostsFit(p, s.cancelled, r, q, act, x);
      } else if x.req == r {
        PostKept(p, s.cancelled, q, act, x);
      }
    }
  }

  lemma InvStep(p: Params, s: State, a: Action)
    requires Inv(p, s) && Enabled(p, s, a)
    ensures Inv(p, Apply(p, s, a))
  {
    if a.On? {
      OnStep(p, s, a.r, a.act);
    } else if a.Arrive? {
      assert forall q | q in s.posts :: q.req != |s.reqs|;
      assert ReqInv(p, s.posts, |s.reqs|, NEW_REQUEST);
    }
  }

  lemma {:induction false} InvRun(p: Params, s: State, run: seq<Action>)
    requires Inv(p, s) && ValidRun(p, s, run)
    ensures Inv(p, Exec(p, s, run))
    decreases |run|
  {
    if run != [] {
      InvStep(p, s, run[0]);
      InvRun(p, Apply(p, s, run[0]), run[1..]);
    }
  }

  lemma ReachableInv(p: Params, s: State)
    requires Reachable(p, s)
    ensures Inv(p, s)
  {
    var run :| ValidRun(p, INITIAL, run) && Exec(p, INITIAL, run) == s;
    InvRun(p, INITIAL, run);
  }

  // ----- theorems -----

  lemma CleanMeansSucceeded(f: FJ.Fork, i: nat)
    requires FJ.Inv(f) && f.mode.Guaranteed? && Clean(Some(f)) && i < |f.tasks|
    ensures Succeeded(f.tasks[i])
  {
    CountZero(f.tasks, FJ.Failed);
  }

  /** Every guaranteed output has accepted the request's data. */
  lemma CleanMeansAccepted(p: Params, s: State, r: nat, i: nat)
    requires Inv(p, s) && r < |s.reqs| && s.reqs[r].data.Some? && Clean(s.reqs[r].g)
    requires i < |p.guaranteed| && p.guaranteed[i].attempts >= 1
    ensures Accepted(p.guaranteed[i], p.gzip, s.posts, r, FJ.Guaranteed, i, s.reqs[r].data.value)
  {
    var q := s.reqs[r];
    assert ReqInv(p, s.posts, r, q);
    CleanMeansSucceeded(q.g.value, i);
    assert TaskPosts(p.guaranteed[i], p.gzip, q.data.value, s.posts, r, FJ.Guaranteed, i, q.g.value.tasks[i]);
    var x :| x in s.posts && Sent(x, r, FJ.Guaranteed, i) && x.attempt.outcome.Reply?
      && 200 <= x.attempt.outcome.status <= 299;
    assert PostInv(p, x, s.reqs[x.req]) && Success(x.attempt.outcome);
  }

  /** A POST of request r from which the guaranteed endpoint i reads `content` was answered 2xx. */
  ghost predicate Reached(g: Gzip, posts: set<Post>, r: nat, i: nat, content: Bytes) {
    exists q :: (
      && q in posts && Sent(q, r, FJ.Guaranteed, i)
      && q.attempt.outcome.Reply? && 200 <= q.attempt.outcome.status <= 299
      && Received(g, q.attempt) == Some(content))
  }

  /** The processor chain's result on the body of request r reached the guaranteed endpoint i. */
  ghost predicate Arrived(p: Params, s: State, r: nat, i: nat)
    requires r < |s.reqs|
  {
    && s.reqs[r].body.Some? && Chain(p.procs, s.reqs[r].body.value).Some?
    && Reached(p.gzip, s.posts, r, i, Chain(p.procs, s.reqs[r].body.value).value)
  }

  predicate Ok(q: Request) { q.pc == Answered(200) || q.pc == Finished(200) }

  lemma CleanMeansReached(p: Params, s: State, r: nat, i: nat)
    requires Inv(p, s) && Lossless(p.gzip) && r < |s.reqs| && s.reqs[r].data.Some? && Clean(s.reqs[r].g)
    requires i < |p.guaranteed| && p.guaranteed[i].attempts >= 1
    ensures Reached(p.gzip, s.posts, r, i, s.reqs[r].data.value)
  {
    CleanMeansAccepted(p, s, r, i);
    var data := s.reqs[r].data.value;
    var q :| q in s.posts && Sent(q, r, FJ.Guaranteed, i) && Success(q.attempt.outcome)
      && Carries(p.guaranteed[i], p.gzip, q.attempt, data);
    assert Received(p.gzip, q.attempt) == Some(data);
  }

  /** End-to-end delivery, exactly: in every interleaving of any number of requests, after a 200
      answer the processor chain's result on that request's body has reached a guaranteed endpoint
      (a POST was answered 2xx, from which the endpoint reads it) if and only if at least one
      attempt is configured for that output. */
  lemma OkMeansDelivered(p: Params, s: State, r: nat, i: nat)
    requires Reachable(p, s) && Lossless(p.gzip) && r < |s.reqs| && Ok(s.reqs[r]) && i < |p.guaranteed|
    ensures s.reqs[r].body.Some? && Chain(p.procs, s.reqs[r].body.value).Some?
    ensures Arrived(p, s, r, i) <==> p.guaranteed[i].attempts >= 1
  {
    ReachableInv(p, s);
    assert ReqInv(p, s.posts, r, s.reqs[r]);
    if p.guaranteed[i].attempts >= 1 {
      CleanMeansReached(p, s, r, i);
    }
  }

  /** A fan-out of a request, by mode. */
  function ForkOf(q: Request, mode: FJ.Mode): Option<FJ.Fork> { if mode.Guaranteed? then q.g else q.be }

  /** A task's result is what happened on the wire, for both modes: once its Send has ended, it
      succeeded if and only if the output answered 2xx to one of the request's POSTs, or no attempt
      is configured and the data can be packed. */
  lemma ResultIsAnswer(p: Params, s: State, r: nat, mode: FJ.Mode, i: nat)
    requires Reachable(p, s) && r < |s.reqs| && ForkOf(s.reqs[r], mode).Some? && i < |Outs(p, mode)|
    ensures |ForkOf(s.reqs[r], mode).value.tasks| == |Outs(p, mode)| && s.reqs[r].data.Some?
    ensures var t := ForkOf(s.reqs[r], mode).value.tasks[i];
      if Ended(t) then Succeeded(t) <==>
        Served(Outs(p, mode)[i], p.gzip, s.reqs[r].data.value, s.posts, r, mode, i)
      else forall q | q in s.posts :: !Sent(q, r, mode, i)
  {
    ReachableInv(p, s);
    var q := s.reqs[r];
    assert ReqInv(p, s.posts, r, q);
    assert TaskPosts(Outs(p, mode)[i], p.gzip, q.data.value, s.posts, r, mode, i, ForkOf(q, mode).value.tasks[i]);
  }

  /** The answer is exact: 200 if and only if the body was read, the whole chain succeeded and
      every guaranteed output was served (answered 2xx to a POST, as long as an attempt is
      configured); otherwise 500; and configured best-effort outputs are launched exactly then. */
  lemma AnswerIsExact(p: Params, s: State, r: nat)
    requires Reachable(p, s) && r < |s.reqs| && (s.reqs[r].pc.Answered? || s.reqs[r].pc.Finished?)
    ensures var q := s.reqs[r];
      && (q.pc.code == 200 || q.pc.code == 500)
      && (q.pc.code == 200 <==>
            && q.body.Some? && Chain(p.procs, q.body.value).Some?
            && forall i | 0 <= i < |p.guaranteed| ::
                 Served(p.guaranteed[i], p.gzip, Chain(p.procs, q.body.value).value, s.posts, r, FJ.Guaranteed, i))
      && (q.be.Some? <==> q.pc.code == 200 && |p.bestEffort| > 0)
  {
    ReachableInv(p, s);
    var q := s.reqs[r];
    assert ReqInv(p, s.posts, r, q);
    if q.g.Some? {
      CountZero(q.g.value.tasks, FJ.Failed);
      forall i | 0 <= i < |p.guaranteed|
        ensures q.g.value.tasks[i] == FJ.Exited(true) <==>
          Served(p.guaranteed[i], p.gzip, q.data.value, s.posts, r, FJ.Guaranteed, i)
      {
        ResultIsAnswer(p, s, r, FJ.Guaranteed, i);
      }
    }
  }

  /** Best effort comes after the guarantee: a request whose best-effort outputs have been
      launched, whether or not any of their Sends has ended, sends them the processed data that
      each guaranteed output of the request has already accepted. */
  lemma BestEffortImpliesGuaranteed(p: Params, s: State, r: nat, i: nat)
    requires Reachable(p, s) && r < |s.reqs|
    requires s.reqs[r].be.Some? || exists x :: x in s.posts && x.mode.BestEffort? && x.req == r
    requires i < |p.guaranteed| && p.guaranteed[i].attempts >= 1
    ensures s.reqs[r].be.Some? && s.reqs[r].body.Some?
    ensures var data := Chain(p.procs, s.reqs[r].body.value);
      && data.Some? && s.reqs[r].data == data
      && Accepted(p.guaranteed[i], p.gzip, s.posts, r, FJ.Guaranteed, i, data.value)
      && forall x | x in s.posts && x.mode.BestEffort? && x.req == r ::
           x.out < |p.bestEffort| && Carries(p.bestEffort[x.out], p.gzip, x.attempt, data.value)
  {
    ReachableInv(p, s);
    assert ReqInv(p, s.posts, r, s.reqs[r]);
    forall x | x in s.posts && x.req == r ensures PostInv(p, x, s.reqs[r]) {
    }
    CleanMeansAccepted(p, s, r, i);
  }

  /** A request whose processor chain fails at any position starts no Send and posts nothing. */
  lemma FailedChainSendsNothing(p: Params, s: State, r: nat)
    requires Reachable(p, s) && r < |s.reqs|
    requires s.reqs[r].body.None? || Chain(p.procs, s.reqs[r].body.value).None?
    ensures s.reqs[r].g.None? && s.reqs[r].be.None?
    ensures forall q | q in s.posts :: q.req != r
    ensures !Ok(s.reqs[r])
  {
    ReachableInv(p, s);
    assert ReqInv(p, s.posts, r, s.reqs[r]);
    forall q | q in s.posts ensures q.req != r {
      assert PostInv(p, q, s.reqs[q.req]);
    }
  }
}
