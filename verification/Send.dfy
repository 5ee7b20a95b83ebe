/** One Send of an HTTP output: compression, the attempt loop, retries and errors. */
module Send {
  import opened Basics
  import opened Backoff

  /** An HTTP output's settings; `urlOk` says that a request can be built for its URL. */
  datatype Output = Output(url: string, urlOk: bool, compression: string, attempts: int, base: int, cap: int)

  /** The gzip library, as two partial functions. */
  datatype Gzip = Gzip(zip: Bytes -> Option<Bytes>, unzip: Bytes -> Option<Bytes>)

  ghost predicate Lossless(g: Gzip) {
    forall data :: g.zip(data).Some? ==> g.unzip(g.zip(data).value) == Some(data)
  }

  /** How one attempt ends: no response, a response whose body cannot be read, or a full response. */
  datatype Outcome = NoResponse | BadBody(status: int) | Reply(status: int, body: Bytes)

  datatype Attempt = Attempt(payload: Bytes, gzipHeader: bool, outcome: Outcome)

  datatype Error =
    | GzipFailed | BadRequest
    | RequestFailed | BodyUnread(status: int) | BadStatus(status: int, body: Bytes)
    | Cancelled(previous: Error)

  /** What the environment does at attempt k: the response, the time until it is there, the
      random part of the delay after it, and whether the context ends that delay.  `backoff` is
      the replaceable delay function of attempt, base, cap and random part. */
  datatype World = World(
    reply: nat -> Outcome,
    took: nat -> int,
    rand: nat -> real,
    cancel: nat -> bool,
    backoff: (int, int, int, real) -> int)

  /** The client's limit on one attempt, from the connection to the end of the body. */
  const CLIENT_TIMEOUT: int := 15 * SECOND

  /** Random parts of delays are in [0, 1). */
  ghost predicate Jitters(us: nat -> real) { forall k :: Unit(us(k)) }

  /** The world of production code: real delays and random parts, attempts within the client's limit. */
  ghost predicate Production(w: World) {
    && (forall attempt, base, cap, u :: w.backoff(attempt, base, cap, u) == Delay(attempt, base, cap, u))
    && Jitters(w.rand)
    && (forall k :: 0 <= w.took(k) <= CLIENT_TIMEOUT)
  }

  datatype Run = Run(err: Option<Error>, trace: seq<Attempt>, sleeps: seq<int>)

  predicate Success(o: Outcome) { o.Reply? && 200 <= o.status < 300 }

  predicate RetryableStatus(status: int) { status == 429 || status >= 500 }

  predicate Retryable(o: Outcome) {
    o.NoResponse? || (o.Reply? && RetryableStatus(o.status))
  }

  function ErrorOf(o: Outcome): Error {
    match o
    case NoResponse => RequestFailed
    case BadBody(status) => BodyUnread(status)
    case Reply(status, body) => BadStatus(status, body)
  }

  predicate Zips(o: Output) { o.compression == "gzip" }

  /** The bytes that go over the wire for `data`. */
  function Wire(o: Output, g: Gzip, data: Bytes): Option<Bytes> {
    if Zips(o) then g.zip(data) else Some(data)
  }

  /** What a receiver reads out of an attempt: the body, unpacked if the header says so. */
  function Received(g: Gzip, a: Attempt): Option<Bytes> {
    if a.gzipHeader then g.unzip(a.payload) else Some(a.payload)
  }

  /** Attempts 1, 2, ... each posted `wire` and met the world's response. */
  predicate Posted(o: Output, wire: Bytes, w: World, trace: seq<Attempt>) {
    forall k | 0 <= k < |trace| :: trace[k] == Attempt(wire, Zips(o), w.reply(k + 1))
  }

  /** All attempts before the last one failed retryably and were waited for in full. */
  predicate Retried(o: Output, w: World, r: Run) {
    && (forall k | 0 <= k < |r.trace| - 1 :: Retryable(r.trace[k].outcome) && !w.cancel(k + 1))
    && (forall k | 0 <= k < |r.sleeps| :: r.sleeps[k] == w.backoff(k + 1, o.base, o.cap, w.rand(k + 1)))
  }

  /** How the last attempt decides the result. */
  predicate Concluded(o: Output, w: World, r: Run) {
    var n := |r.trace|;
    if n == 0 then o.attempts <= 0 && r.err == None && r.sleeps == []
    else
      var last := r.trace[n - 1].outcome;
      if Retryable(last) && n < o.attempts
      then w.cancel(n) && r.err == Some(Cancelled(ErrorOf(last))) && |r.sleeps| == n
      else n <= o.attempts && r.err == (if Success(last) then None else Some(ErrorOf(last))) && |r.sleeps| == n - 1
  }

  /** The complete specification of one Send. */
  predicate Meets(o: Output, g: Gzip, data: Bytes, w: World, r: Run) {
    var wire := Wire(o, g, data);
    if wire.None? then r == Run(Some(GzipFailed), [], [])
    else if o.attempts >= 1 && !o.urlOk then r == Run(Some(BadRequest), [], [])
    else Posted(o, wire.value, w, r.trace) && Retried(o, w, r) && Concluded(o, w, r)
  }

  /** The loop's state before attempt |trace| + 1: every attempt so far failed retryably. */
  predicate Pending(o: Output, wire: Bytes, w: World, trace: seq<Attempt>, sleeps: seq<int>) {
    && (trace != [] ==> o.urlOk && |trace| <= o.attempts)
    && |sleeps| == (if trace != [] && |trace| == o.attempts then |trace| - 1 else |trace|)
    && Posted(o, wire, w, trace)
    && (forall k | 0 <= k < |trace| :: Retryable(trace[k].outcome) && (k < |sleeps| ==> !w.cancel(k + 1)))
    && (forall k | 0 <= k < |sleeps| :: sleeps[k] == w.backoff(k + 1, o.base, o.cap, w.rand(k + 1)))
  }

  /** The run that ends with one more attempt. */
  lemma Finish(o: Output, g: Gzip, data: Bytes, w: World, wire: Bytes, trace: seq<Attempt>, sleeps: seq<int>, r: Run)
    requires Wire(o, g, data) == Some(wire) && Pending(o, wire, w, trace, sleeps)
    requires o.urlOk && |trace| < o.attempts
    requires r.trace == trace + [Attempt(wire, Zips(o), w.reply(|trace| + 1))]
    requires
      var n := |trace| + 1; var last := w.reply(n);
      if Retryable(last)
      then n < o.attempts && w.cancel(n) && r.err == Some(Cancelled(ErrorOf(last)))
           && r.sleeps == sleeps + [w.backoff(n, o.base, o.cap, w.rand(n))]
      else r.err == (if Success(last) then None else Some(ErrorOf(last))) && r.sleeps == sleeps
    ensures Meets(o, g, data, w, r)
  {
    forall k | 0 <= k < |r.trace| ensures r.trace[k] == Attempt(wire, Zips(o), w.reply(k + 1)) {
      if k < |trace| {
        assert r.trace[k] == trace[k];
      }
    }
    forall k | 0 <= k < |r.trace| - 1 ensures Retryable(r.trace[k].outcome) && !w.cancel(k + 1) {
      assert r.trace[k] == trace[k] && k < |sleeps|;
    }
    forall k | 0 <= k < |r.sleeps| ensures r.sleeps[k] == w.backoff(k + 1, o.base, o.cap, w.rand(k + 1)) {
      if k < |sleeps| {
        assert r.sleeps[k] == sleeps[k];
      }
    }
    assert Posted(o, wire, w, r.trace);
    assert Retried(o, w, r);
    assert Concluded(o, w, r);
  }

  /** One more attempt that is to be retried. */
  lemma Continue(o: Output, w: World, wire: Bytes, trace: seq<Attempt>, sleeps: seq<int>, sleeps': seq<int>)
    requires Pending(o, wire, w, trace, sleeps) && o.urlOk && |trace| < o.attempts
    requires var n := |trace| + 1;
      && Retryable(w.reply(n))
      && if n == o.attempts then sleeps' == sleeps
         else !w.cancel(n) && sleeps' == sleeps + [w.backoff(n, o.base, o.cap, w.rand(n))]
    ensures Pending(o, wire, w, trace + [Attempt(wire, Zips(o), w.reply(|trace| + 1))], sleeps')
  {
    var n := |trace| + 1;
    var all := trace + [Attempt(wire, Zips(o), w.reply(n))];
    forall k | 0 <= k < |all| ensures Retryable(all[k].outcome) && (k < |sleeps'| ==> !w.cancel(k + 1)) {
      if k < |trace| {
        assert all[k] == trace[k] && Retryable(trace[k].outcome) && !w.cancel(k + 1);
      }
    }
    forall k | 0 <= k < |all| ensures all[k] == Attempt(wire, Zips(o), w.reply(k + 1)) {
      if k < |trace| {
        assert all[k] == trace[k];
      }
    }
    forall k | 0 <= k < |sleeps'| ensures sleeps'[k] == w.backoff(k + 1, o.base, o.cap, w.rand(k + 1)) {
      if k < |sleeps| {
        assert sleeps'[k] == sleeps[k];
      }
    }
  }

  /** The attempt loop. */
  method DoSend(o: Output, g: Gzip, data: Bytes, w: World) returns (r: Run)
    ensures Meets(o, g, data, w, r)
  {
    var payload := data;
    if o.compression == "gzip" {
      var zipped := g.zip(data);
      if zipped.None? {
        return Run(Some(GzipFailed), [], []);
      }
      payload := zipped.value;
    }

    var lastErr: Option<Error> := None;
    var trace, sleeps := [], [];
    var attempt := 1;
    while attempt <= o.attempts
      invariant attempt == |trace| + 1
      invariant Pending(o, payload, w, trace, sleeps)
      invariant lastErr == if trace == [] then None else Some(ErrorOf(trace[|trace| - 1].outcome))
    {
      if !o.urlOk {
        return Run(Some(BadRequest), [], []);
      }
      var outcome := w.reply(attempt);
      ghost var before, slept := trace, sleeps;
      trace := trace + [Attempt(payload, o.compression == "gzip", outcome)];
      if outcome.NoResponse? {
        lastErr := Some(RequestFailed);
      } else {
        if outcome.BadBody? {
          r := Run(Some(BodyUnread(outcome.status)), trace, sleeps);
          Finish(o, g, data, w, payload, before, slept, r);
          return;
        }
        if outcome.status >= 200 && outcome.status < 300 {
          r := Run(None, trace, sleeps);
          Finish(o, g, data, w, payload, before, slept, r);
          return;
        }
        var reqErr := BadStatus(outcome.status, outcome.body);
        if !RetryableStatus(outcome.status) {
          r := Run(Some(reqErr), trace, sleeps);
          Finish(o, g, data, w, payload, before, slept, r);
          return;
        }
        lastErr := Some(reqErr);
      }
      if attempt < o.attempts {
        sleeps := sleeps + [w.backoff(attempt, o.base, o.cap, w.rand(attempt))];
        if w.cancel(attempt) {
          r := Run(Some(Cancelled(lastErr.value)), trace, sleeps);
          Finish(o, g, data, w, payload, before, slept, r);
          return;
        }
      }
      Continue(o, w, payload, before, slept, sleeps);
      attempt := attempt + 1;
    }
    return Run(lastErr, trace, sleeps);
  }

  /** The specification leaves no freedom: every world admits exactly one run. */
  lemma MeetsIsUnique(o: Output, g: Gzip, data: Bytes, w: World, a: Run, b: Run)
    requires Meets(o, g, data, w, a) && Meets(o, g, data, w, b)
    ensures a == b
  {
    if Wire(o, g, data).Some? && !(o.attempts >= 1 && !o.urlOk) {
      SameLength(o, g, data, w, a, b);
      assert a.trace == b.trace;
      assert a.sleeps == b.sleeps;
    }
  }

  lemma SameLength(o: Output, g: Gzip, data: Bytes, w: World, a: Run, b: Run)
    requires Meets(o, g, data, w, a) && Meets(o, g, data, w, b)
    requires Wire(o, g, data).Some? && !(o.attempts >= 1 && !o.urlOk)
    ensures |a.trace| == |b.trace|
  {
    if |a.trace| < |b.trace| {
      NotShorter(o, g, data, w, a, b);
    } else if |b.trace| < |a.trace| {
      NotShorter(o, g, data, w, b, a);
    }
  }

  lemma NotShorter(o: Output, g: Gzip, data: Bytes, w: World, a: Run, b: Run)
    requires Meets(o, g, data, w, a) && Meets(o, g, data, w, b)
    requires Wire(o, g, data).Some? && !(o.attempts >= 1 && !o.urlOk)
    ensures |a.trace| >= |b.trace|
  {
    var n := |a.trace|;
    if n > 0 {
      assert a.trace[n - 1].outcome == w.reply(n);
      assert !Retryable(w.reply(n)) || w.cancel(n) || n == o.attempts;
      assert n <= |b.trace| ==> b.trace[n - 1].outcome == w.reply(n);
    }
  }

  /** The shape of every run: attempts are bounded, every attempt but the last failed
      retryably, all carry the same payload and header, nil means exactly that the last attempt
      was a fully read 2xx or that none was to be made, and an error is that of the last attempt. */
  lemma TraceShape(o: Output, g: Gzip, data: Bytes, w: World, r: Run)
    requires Meets(o, g, data, w, r)
    ensures |r.trace| <= if o.attempts > 0 then o.attempts else 0
    ensures forall k | 0 <= k < |r.trace| - 1 :: Retryable(r.trace[k].outcome)
    ensures forall k | 0 <= k < |r.trace| ::
      Wire(o, g, data) == Some(r.trace[k].payload) && r.trace[k].gzipHeader == Zips(o)
    ensures r.trace != [] <==> Wire(o, g, data).Some? && o.attempts >= 1 && o.urlOk
    ensures r.err.None? <==>
      if r.trace == [] then Wire(o, g, data).Some? && o.attempts <= 0 else Success(r.trace[|r.trace| - 1].outcome)
    ensures r.err.Some? && r.trace != [] ==>
      var last := ErrorOf(r.trace[|r.trace| - 1].outcome);
      r.err.value == last || (r.err.value == Cancelled(last) && w.cancel(|r.trace|) && |r.trace| < o.attempts)
  {
  }

  /** What happens after the n-th attempt, by its outcome, in numbers.  No response, 429 and
      every status from 500 on are waited for and tried again, unless it was the last attempt or
      the context ends the wait; 2xx with a body ends the Send well; everything else ends it at
      once with its error. */
  lemma AfterAttempt(o: Output, g: Gzip, data: Bytes, w: World, r: Run, n: nat)
    requires Meets(o, g, data, w, r) && 1 <= n <= |r.trace|
    ensures match w.reply(n)
      case NoResponse => TriedAgain(o, w, r, n, RequestFailed)
      case BadBody(status) => |r.trace| == n && r.err == Some(BodyUnread(status))
      case Reply(status, body) =>
        if 200 <= status <= 299 then |r.trace| == n && r.err == None
        else if status == 429 || 500 <= status then TriedAgain(o, w, r, n, BadStatus(status, body))
        else |r.trace| == n && r.err == Some(BadStatus(status, body))
  {
    assert r.trace[n - 1].outcome == w.reply(n);
    if n < |r.trace| {
      assert Retryable(r.trace[n - 1].outcome) && !w.cancel(n - 1 + 1);
    }
  }

  /** The n-th attempt, which failed with e, was the last one allowed; or it was waited for, and
      then the context ended the wait or the next attempt was made. */
  predicate TriedAgain(o: Output, w: World, r: Run, n: nat, e: Error)
    requires n >= 1
  {
    if n >= o.attempts then |r.trace| == n && r.err == Some(e)
    else
      && |r.sleeps| >= n && r.sleeps[n - 1] == w.backoff(n, o.base, o.cap, w.rand(n))
      && if w.cancel(n) then |r.trace| == n && r.err == Some(Cancelled(e)) else |r.trace| > n
  }

  /** What every attempt carries: the zipped data with the header if the compression is "gzip" as
      written, and otherwise, an empty one included, the data itself without it. */
  lemma PayloadIsExact(o: Output, g: Gzip, data: Bytes, w: World, r: Run, k: nat)
    requires Meets(o, g, data, w, r) && k < |r.trace|
    ensures if o.compression == "gzip" then r.trace[k].gzipHeader && g.zip(data) == Some(r.trace[k].payload)
            else !r.trace[k].gzipHeader && r.trace[k].payload == data
  {
  }

  /** With attempts to make: the n-th is a fully read 2xx, and every earlier one failed
      retryably and was waited for. */
  predicate SucceedsAt(o: Output, w: World, n: nat) {
    && 1 <= n <= o.attempts
    && Success(w.reply(n))
    && forall k | 1 <= k < n :: Retryable(w.reply(k)) && !w.cancel(k)
  }

  /** When a Send returns nil, in terms of its inputs alone: the data can be packed, and either
      no attempt is to be made, or a request can be built and some attempt succeeds. */
  lemma NilExactly(o: Output, g: Gzip, data: Bytes, w: World, r: Run)
    requires Meets(o, g, data, w, r)
    ensures r.err.None? <==>
      Wire(o, g, data).Some? && (o.attempts <= 0 || (o.urlOk && exists n :: SucceedsAt(o, w, n)))
  {
    if Wire(o, g, data).Some? && o.attempts >= 1 && o.urlOk {
      var m := |r.trace|;
      assert r.trace[m - 1].outcome == w.reply(m);
      forall k | 1 <= k < m ensures Retryable(w.reply(k)) && !w.cancel(k) {
        assert r.trace[k - 1].outcome == w.reply(k) && Retryable(r.trace[k - 1].outcome) && !w.cancel(k - 1 + 1);
      }
      if n :| SucceedsAt(o, w, n) {
        assert m == n;
      } else if r.err.None? {
        assert SucceedsAt(o, w, m);
      }
    }
  }

  /** The endpoint answered 2xx to a POST from which it reads exactly the data. */
  predicate Delivered(g: Gzip, data: Bytes, r: Run) {
    && r.trace != []
    && var a := r.trace[|r.trace| - 1];
       a.outcome.Reply? && 200 <= a.outcome.status <= 299 && Received(g, a) == Some(data)
  }

  /** Delivery: nil from a Send with at least one attempt means that the data was delivered. */
  lemma NilMeansDelivered(o: Output, g: Gzip, data: Bytes, w: World, r: Run)
    requires Meets(o, g, data, w, r) && r.err.None? && o.attempts >= 1 && Lossless(g)
    ensures Delivered(g, data, r)
  {
    assert r.trace[|r.trace| - 1].payload == Wire(o, g, data).value;
  }

  /** Without attempts to make, a Send whose data can be packed returns nil and posts nothing. */
  lemma NoAttemptsNoDelivery(o: Output, g: Gzip, data: Bytes, w: World, r: Run)
    requires o.attempts <= 0 && Wire(o, g, data).Some?
    ensures Meets(o, g, data, w, r) <==> r == Run(None, [], [])
  {
  }

  /** Hence nil stands for delivery, in every world, if and only if at least one attempt is
      configured or the data cannot be packed at all. */
  lemma NilMeansDeliveredExactly(o: Output, g: Gzip, data: Bytes)
    requires Lossless(g)
    ensures (forall w, r | Meets(o, g, data, w, r) && r.err.None? :: Delivered(g, data, r))
      <==> o.attempts >= 1 || Wire(o, g, data).None?
  {
    if o.attempts >= 1 {
      forall w, r | Meets(o, g, data, w, r) && r.err.None? ensures Delivered(g, data, r) {
        NilMeansDelivered(o, g, data, w, r);
      }
    } else if Wire(o, g, data).Some? {
      var w := World(_ => NoResponse, _ => 0, _ => 0.0, _ => false, (_, _, _, _) => 0);
      NoAttemptsNoDelivery(o, g, data, w, Run(None, [], []));
    }
  }

  /** The endpoint answered 2xx, whether or not its body could be read. */
  predicate Answered2xx(o: Outcome) { !o.NoResponse? && 200 <= o.status < 300 }

  /** With attempts to make: the n-th is answered 2xx but its body breaks off, and every earlier
      one failed retryably and was waited for. */
  predicate BreaksAt(o: Output, w: World, n: nat) {
    && 1 <= n <= o.attempts
    && w.reply(n).BadBody? && Answered2xx(w.reply(n))
    && forall k | 1 <= k < n :: Retryable(w.reply(k)) && !w.cancel(k)
  }

  /** An error does not mean that no attempt was answered 2xx, and exactly when it does not: some
      attempt was if and only if an attempt is reached whose 2xx answer breaks off, and if and only
      if the error is that of an unreadable 2xx body. */
  lemma ErrorAfterDelivery(o: Output, g: Gzip, data: Bytes, w: World, r: Run)
    requires Meets(o, g, data, w, r) && r.err.Some?
    ensures (exists k | 0 <= k < |r.trace| :: Answered2xx(r.trace[k].outcome))
      <==> Wire(o, g, data).Some? && o.urlOk && exists n :: BreaksAt(o, w, n)
    ensures (exists k | 0 <= k < |r.trace| :: Answered2xx(r.trace[k].outcome))
      <==> r.err.value.BodyUnread? && 200 <= r.err.value.status < 300
  {
    var m := |r.trace|;
    if m > 0 {
      assert r.trace[m - 1].outcome == w.reply(m);
      forall k | 1 <= k < m ensures Retryable(w.reply(k)) && !w.cancel(k) {
        assert r.trace[k - 1].outcome == w.reply(k) && Retryable(r.trace[k - 1].outcome) && !w.cancel(k - 1 + 1);
      }
      if Answered2xx(w.reply(m)) {
        assert BreaksAt(o, w, m);
      }
      if n :| BreaksAt(o, w, n) {
        assert m == n;
      }
    }
  }

  // ----- waiting -----

  /** The waits of a run are the delays of the backoff, hence bounded in total by the worst
      delays, by the ideal ones plus 5 percent, and by both closed forms. */
  lemma WaitsAreBounded(o: Output, g: Gzip, data: Bytes, w: World, r: Run)
    requires Meets(o, g, data, w, r) && Production(w)
    requires 0 < o.base < TWO_63 && 0 < o.cap < TWO_63
    requires o.attempts >= 2 && AllSound(o.attempts - 1, o.base, o.cap)
    ensures Sum(r.sleeps) <= Worst(o.attempts - 1, o.base, o.cap)
    ensures 20 * Sum(r.sleeps) <= 20 * o.base + 21 * IdealSum(o.attempts - 1, o.base, o.cap)
    ensures 20 * Sum(r.sleeps) <= 20 * o.base + 21 * (o.attempts - 2) * o.cap
    ensures 20 * Sum(r.sleeps) <= 21 * o.base * (Pow2(o.attempts - 1) - 1)
  {
    WaitsAreDelays(o, g, data, w, r);
    TotalDelayBound(r.sleeps, o.attempts - 1, o.base, o.cap, w.rand);
  }

  lemma WaitsAreDelays(o: Output, g: Gzip, data: Bytes, w: World, r: Run)
    requires Meets(o, g, data, w, r) && Production(w)
    ensures |r.sleeps| <= (if o.attempts >= 1 then o.attempts - 1 else 0)
    ensures AreDelays(r.sleeps, o.base, o.cap, w.rand)
  {
    forall k | 0 <= k < |r.sleeps| ensures IsDelay(r.sleeps[k], k + 1, o.base, o.cap, w.rand) {
      assert r.sleeps[k] == w.backoff(k + 1, o.base, o.cap, w.rand(k + 1));
    }
  }

  predicate ShippedGuaranteed(o: Output) {
    o.attempts == 4 && o.base == 500 * MILLISECOND && o.cap == 3 * SECOND
  }

  predicate ShippedBestEffort(o: Output) { o.attempts == 6 && o.base == SECOND && o.cap == 6 * SECOND }

  /** The waits of the two shipped configurations. */
  lemma ShippedWaits(o: Output, g: Gzip, data: Bytes, w: World, r: Run)
    requires Meets(o, g, data, w, r) && Production(w)
    ensures ShippedGuaranteed(o) ==> Sum(r.sleeps) < 3650 * MILLISECOND
    ensures ShippedBestEffort(o) ==> Sum(r.sleeps) < 19900 * MILLISECOND
  {
    if ShippedGuaranteed(o) || ShippedBestEffort(o) {
      ShippedDelays();
      WaitsAreBounded(o, g, data, w, r);
    }
  }

  // ----- the whole time of a Send -----

  /** The time that attempts 1 to n take. */
  function Took(took: nat -> int, n: nat): int {
    if n == 0 then 0 else Took(took, n - 1) + took(n)
  }

  /** From the first request to the result; a wait that the context ends counts in full. */
  function Elapsed(w: World, r: Run): int { Took(w.took, |r.trace|) + Sum(r.sleeps) }

  lemma {:induction false} TookRange(took: nat -> int, n: nat, limit: int)
    requires forall k :: 0 <= took(k) <= limit
    ensures 0 <= Took(took, n) <= n * limit
    ensures (forall k :: took(k) == limit) ==> Took(took, n) == n * limit
  {
    if n > 0 {
      TookRange(took, n - 1, limit);
      Distribute(n - 1, limit);
    }
  }

  /** No attempt takes longer than t. */
  ghost predicate TakesAtMost(w: World, t: int) { forall k :: w.took(k) <= t }

  /** The longest time of a Send whose attempts take at most t. */
  function LongestSend(o: Output, t: int): int
    requires o.attempts >= 1
  {
    o.attempts * t + Worst(o.attempts - 1, o.base, o.cap)
  }

  lemma MoreAttempts(n: nat, m: nat, t: int)
    requires n <= m && 0 <= t
    ensures n * t <= m * t
  {
  }

  lemma TookAtMost(o: Output, g: Gzip, data: Bytes, w: World, r: Run, t: int)
    requires o.attempts >= 1 && Meets(o, g, data, w, r) && Production(w) && TakesAtMost(w, t)
    ensures Took(w.took, |r.trace|) <= o.attempts * t
  {
    assert 0 <= w.took(0) <= t;
    TraceShape(o, g, data, w, r);
    TookRange(w.took, |r.trace|, t);
    MoreAttempts(|r.trace|, o.attempts, t);
  }

  lemma WaitsAtMost(o: Output, g: Gzip, data: Bytes, w: World, r: Run)
    requires 0 < o.base < TWO_63 && 0 < o.cap < TWO_63
    requires o.attempts >= 1 && AllSound(o.attempts - 1, o.base, o.cap)
    requires Meets(o, g, data, w, r) && Production(w)
    ensures Sum(r.sleeps) <= Worst(o.attempts - 1, o.base, o.cap)
  {
    WaitsAreDelays(o, g, data, w, r);
    if o.attempts >= 2 {
      WaitsAreBounded(o, g, data, w, r);
    }
  }

  lemma ElapsedAtMost(o: Output, g: Gzip, data: Bytes, w: World, r: Run, t: int)
    requires 0 < o.base < TWO_63 && 0 < o.cap < TWO_63
    requires o.attempts >= 1 && AllSound(o.attempts - 1, o.base, o.cap)
    requires Meets(o, g, data, w, r) && Production(w) && TakesAtMost(w, t)
    ensures Elapsed(w, r) <= LongestSend(o, t)
  {
    TookAtMost(o, g, data, w, r, t);
    WaitsAtMost(o, g, data, w, r);
  }

  /** The world in which no attempt gets a response, each takes t, and every wait is the longest. */
  function Silence(o: Output, t: int): World {
    World(_ => NoResponse, _ => t, Peaks(o.base, o.cap), _ => false, (k, base, cap, u) => Delay(k, base, cap, u))
  }

  lemma SilenceIsReal(o: Output, t: int)
    requires 0 <= t <= CLIENT_TIMEOUT
    ensures Production(Silence(o, t)) && TakesAtMost(Silence(o, t), t)
  {
    forall k: nat ensures Unit(Silence(o, t).rand(k)) {
      PeakReached(Ideal(k, o.base, o.cap));
    }
  }

  /** The run in that world uses up all attempts and waits. */
  function SilentRun(o: Output, wire: Bytes): Run
    requires o.attempts >= 1
  {
    Run(Some(RequestFailed), seq(o.attempts, _ => Attempt(wire, Zips(o), NoResponse)),
        DelaysFor(o.attempts - 1, o.base, o.cap, Peaks(o.base, o.cap)))
  }

  lemma SilentRunMeets(o: Output, g: Gzip, data: Bytes, t: int)
    requires o.attempts >= 1 && o.urlOk && Wire(o, g, data).Some? && 0 <= t <= CLIENT_TIMEOUT
    ensures Meets(o, g, data, Silence(o, t), SilentRun(o, Wire(o, g, data).value))
  {
    var w, r := Silence(o, t), SilentRun(o, Wire(o, g, data).value);
    SilenceIsReal(o, t);
    DelaysForAreDelays(o.attempts - 1, o.base, o.cap, w.rand);
    forall k | 0 <= k < |r.sleeps| ensures r.sleeps[k] == w.backoff(k + 1, o.base, o.cap, w.rand(k + 1)) {
      assert IsDelay(r.sleeps[k], k + 1, o.base, o.cap, w.rand);
    }
    assert Posted(o, Wire(o, g, data).value, w, r.trace) && Retried(o, w, r) && Concluded(o, w, r);
  }

  lemma SilentRunLasts(o: Output, wire: Bytes, t: int)
    requires 0 < o.base < TWO_63 && 0 < o.cap < TWO_63
    requires o.attempts >= 1 && AllSound(o.attempts - 1, o.base, o.cap) && 0 <= t <= CLIENT_TIMEOUT
    ensures Elapsed(Silence(o, t), SilentRun(o, wire)) == LongestSend(o, t)
  {
    WorstIsReached(o.attempts - 1, o.base, o.cap);
    TookRange(Silence(o, t).took, o.attempts, t);
  }

  /** Whether every Send ends within a time limit, as long as no attempt takes longer than t, can
      be read off the configuration: if and only if all attempts of that length and the longest
      waits between them do. */
  lemma FitsExactly(o: Output, g: Gzip, data: Bytes, t: int, limit: int)
    requires 0 < o.base < TWO_63 && 0 < o.cap < TWO_63
    requires o.attempts >= 1 && AllSound(o.attempts - 1, o.base, o.cap)
    requires o.urlOk && Wire(o, g, data).Some? && 0 <= t <= CLIENT_TIMEOUT
    ensures (forall w, r | Production(w) && TakesAtMost(w, t) && Meets(o, g, data, w, r) :: Elapsed(w, r) <= limit)
      <==> LongestSend(o, t) <= limit
  {
    if LongestSend(o, t) <= limit {
      forall w, r | Production(w) && TakesAtMost(w, t) && Meets(o, g, data, w, r) ensures Elapsed(w, r) <= limit {
        ElapsedAtMost(o, g, data, w, r, t);
      }
    } else {
      var r := SilentRun(o, Wire(o, g, data).value);
      SilenceIsReal(o, t);
      SilentRunMeets(o, g, data, t);
      SilentRunLasts(o, Wire(o, g, data).value, t);
      assert Elapsed(Silence(o, t), r) > limit;
    }
  }

  /** The shipped best-effort configuration against the 30 s of the drain: every Send whose
      attempts take at most t ends in time if and only if six times t is at most 10.1 s (and 4 ns);
      with the client's own limit of 15 s, some Send takes 109.9 s (less 4 ns) and none longer. */
  lemma ShippedElapsed(o: Output, g: Gzip, data: Bytes, t: int)
    requires ShippedBestEffort(o) && o.urlOk && Wire(o, g, data).Some? && 0 <= t <= CLIENT_TIMEOUT
    ensures
      (forall w, r | Production(w) && TakesAtMost(w, t) && Meets(o, g, data, w, r) :: Elapsed(w, r) <= 30 * SECOND)
      <==> 6 * t <= 10100 * MILLISECOND + 4
    ensures exists w, r :: Production(w) && Meets(o, g, data, w, r) && Elapsed(w, r) == 109900 * MILLISECOND - 4
    ensures forall w, r | Production(w) && Meets(o, g, data, w, r) :: Elapsed(w, r) <= 109900 * MILLISECOND - 4
  {
    ShippedDelays();
    FitsExactly(o, g, data, t, 30 * SECOND);
    var r := SilentRun(o, Wire(o, g, data).value);
    SilenceIsReal(o, CLIENT_TIMEOUT);
    SilentRunMeets(o, g, data, CLIENT_TIMEOUT);
    SilentRunLasts(o, Wire(o, g, data).value, CLIENT_TIMEOUT);
    assert Elapsed(Silence(o, CLIENT_TIMEOUT), r) == 109900 * MILLISECOND - 4;
    forall w, r | Production(w) && Meets(o, g, data, w, r) ensures Elapsed(w, r) <= 109900 * MILLISECOND - 4 {
      ElapsedAtMost(o, g, data, w, r, CLIENT_TIMEOUT);
    }
  }
}
