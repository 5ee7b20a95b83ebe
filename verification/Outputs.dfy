/** Building outputs from the configuration, and releasing what was built when a step fails. */
module Outputs {
  import opened Basics
  import C = Config
  import B = Backoff

  // ----- watcher handles -----

  /** The process's file watcher handles: numbered as they are opened, each closed at most once. */
  class Watchers {
    var issued: nat
    var open: set<nat>
    var closes: multiset<nat>

    /** Every handle ever opened is open and was never closed, or was closed exactly once. */
    ghost predicate Valid()
      reads this
    {
      && (forall id | id in open :: id < issued)
      && (forall id: nat :: closes[id] == if id < issued && id !in open then 1 else 0)
    }

    constructor ()
      ensures Valid() && issued == 0 && open == {}
    {
      issued, open, closes := 0, {}, multiset{};
    }

    method Open() returns (id: nat)
      requires Valid()
      modifies this
      ensures Valid() && id == old(issued) && issued == id + 1 && open == old(open) + {id}
    {
      id := issued;
      issued, open := issued + 1, open + {id};
    }

    method Release(id: nat)
      requires Valid() && id in open
      modifies this
      ensures Valid() && issued == old(issued) && open == old(open) - {id}
      ensures closes == old(closes) + multiset{id}
    {
      open, closes := open - {id}, closes + multiset{id};
    }
  }

  // ----- options -----

  datatype Settings = Settings(attempts: int, base: int, cap: int, debounce: int)

  datatype Opt =
    | WithMaxSendAttempts(attempts: int) | WithBaseBackoff(base: int) | WithMaxBackoff(cap: int)
    | WithTLSReloadDebounce(debounce: int) | WithLogger

  const DEFAULTS := Settings(4, 500 * B.MILLISECOND, 3 * B.SECOND, 500 * B.MILLISECOND)

  const BEST_EFFORT_OPTS: seq<Opt> :=
    [WithMaxSendAttempts(6), WithBaseBackoff(B.SECOND), WithMaxBackoff(6 * B.SECOND), WithLogger]

  /** One option; a negative debounce is refused. */
  function Applied(s: Settings, o: Opt): Option<Settings> {
    match o
    case WithMaxSendAttempts(n) => Some(s.(attempts := n))
    case WithBaseBackoff(d) => Some(s.(base := d))
    case WithMaxBackoff(d) => Some(s.(cap := d))
    case WithTLSReloadDebounce(d) => if d < 0 then None else Some(s.(debounce := d))
    case WithLogger => Some(s)
  }

  function AllApplied(opts: seq<Opt>): Option<Settings> {
    if opts == [] then Some(DEFAULTS)
    else
      var before := AllApplied(opts[..|opts| - 1]);
      if before.None? then None else Applied(before.value, opts[|opts| - 1])
  }

  lemma {:induction false} RefusedOption(opts: seq<Opt>, k: nat)
    requires k <= |opts| && AllApplied(opts[..k]).None?
    ensures AllApplied(opts).None?
    decreases |opts| - k
  {
    if k == |opts| {
      assert opts[..k] == opts;
    } else {
      assert opts[..k + 1][..k] == opts[..k];
      RefusedOption(opts, k + 1);
    }
  }

  /** A list of options is refused exactly for a negative debounce. */
  lemma {:induction false} OptionsAreRefused(opts: seq<Opt>)
    ensures AllApplied(opts).None? <==> exists o :: o in opts && o.WithTLSReloadDebounce? && o.debounce < 0
  {
    if opts != [] {
      var n := |opts| - 1;
      OptionsAreRefused(opts[..n]);
      assert opts == opts[..n] + [opts[n]];
    }
  }

  /** Otherwise the last option of each kind counts. */
  lemma {:induction false} LastOptionCounts(opts: seq<Opt>, k: nat)
    requires AllApplied(opts).Some? && k < |opts| && LastOfItsKind(opts, k)
    ensures var s := AllApplied(opts).value;
      match opts[k]
      case WithMaxSendAttempts(n) => s.attempts == n
      case WithBaseBackoff(d) => s.base == d
      case WithMaxBackoff(d) => s.cap == d
      case WithTLSReloadDebounce(d) => s.debounce == d
      case WithLogger => true
  {
    var n := |opts| - 1;
    if k < n {
      assert !SameKind(opts[k], opts[n]);
      LastOptionCounts(opts[..n], k);
    }
  }

  /** Without an option of a kind its default holds (times in nanoseconds). */
  lemma {:induction false} DefaultsHold(opts: seq<Opt>)
    requires AllApplied(opts).Some?
    ensures var s := AllApplied(opts).value;
      && ((forall o | o in opts :: !o.WithMaxSendAttempts?) ==> s.attempts == 4)
      && ((forall o | o in opts :: !o.WithBaseBackoff?) ==> s.base == 500_000_000)
      && ((forall o | o in opts :: !o.WithMaxBackoff?) ==> s.cap == 3_000_000_000)
      && ((forall o | o in opts :: !o.WithTLSReloadDebounce?) ==> s.debounce == 500_000_000)
  {
    if opts != [] {
      DefaultsHold(opts[..|opts| - 1]);
    }
  }

  predicate SameKind(a: Opt, b: Opt) {
    match a
    case WithMaxSendAttempts(_) => b.WithMaxSendAttempts?
    case WithBaseBackoff(_) => b.WithBaseBackoff?
    case WithMaxBackoff(_) => b.WithMaxBackoff?
    case WithTLSReloadDebounce(_) => b.WithTLSReloadDebounce?
    case WithLogger => b.WithLogger?
  }

  predicate LastOfItsKind(opts: seq<Opt>, k: nat)
    requires k < |opts|
  {
    forall j | k < j < |opts| :: !SameKind(opts[k], opts[j])
  }

  /** The two shipped configurations, both with at least one send attempt. */
  lemma ShippedSettings()
    ensures AllApplied([WithLogger]) == Some(DEFAULTS) && DEFAULTS.attempts == 4
    ensures AllApplied(BEST_EFFORT_OPTS) == Some(Settings(6, B.SECOND, 6 * B.SECOND, 500 * B.MILLISECOND))
  {
    assert [WithLogger][..0] == [];
    var o := BEST_EFFORT_OPTS;
    assert o[..4] == o && o[..4][..3] == o[..3] && o[..3][..2] == o[..2] && o[..2][..1] == o[..1] && o[..1][..0] == [];
    assert AllApplied(o[..0]) == Some(DEFAULTS);
    assert AllApplied(o[..1]) == Some(DEFAULTS.(attempts := 6));
    assert AllApplied(o[..2]) == Some(DEFAULTS.(attempts := 6, base := B.SECOND));
    assert AllApplied(o[..3]) == Some(DEFAULTS.(attempts := 6, base := B.SECOND, cap := 6 * B.SECOND));
  }

  // ----- one output -----

  /** The environment: directory of a path, whether the credentials of output i load, whether a
      watcher can be created and a directory be watched for it, and which closes report an error. */
  datatype Env = Env(
    dirOf: string -> string,
    loads: nat -> bool,
    canWatch: nat -> bool,
    canAdd: (nat, string) -> bool,
    closeFails: nat -> bool)

  function Files(t: C.ClientTLS): seq<string> { [t.caFile, t.certFile, t.keyFile] }

  /** The directories of all configured files. */
  function DirSet(t: C.ClientTLS, dirOf: string -> string): set<string> {
    set f | f in Files(t) && f != "" :: dirOf(f)
  }

  /** Each directory once. */
  method TlsDirectories(t: C.ClientTLS, dirOf: string -> string) returns (dirs: seq<string>)
    ensures forall d :: d in dirs <==> d in DirSet(t, dirOf)
    ensures forall d :: d in dirs <==>
      || (t.caFile != "" && d == dirOf(t.caFile))
      || (t.certFile != "" && d == dirOf(t.certFile))
      || (t.keyFile != "" && d == dirOf(t.keyFile))
    ensures forall i, j | 0 <= i < j < |dirs| :: dirs[i] != dirs[j]
  {
    var seen: set<string> := {};
    dirs := [];
    var files := Files(t);
    for i := 0 to |files|
      invariant forall d :: d in dirs <==> d in seen
      invariant forall d :: d in seen <==> exists k | 0 <= k < i :: files[k] != "" && dirOf(files[k]) == d
      invariant forall k, l | 0 <= k < l < |dirs| :: dirs[k] != dirs[l]
    {
      if files[i] != "" {
        var dir := dirOf(files[i]);
        if dir !in seen {
          seen := seen + {dir};
          dirs := dirs + [dir];
        }
      }
    }
  }

  predicate NeedsWatcher(h: C.OutputHTTP, env: Env) {
    h.tls.Some? && DirSet(h.tls.value, env.dirOf) != {}
  }

  /** Output `at` of the configuration can be built. */
  predicate Builds(at: nat, h: C.OutputHTTP, opts: seq<Opt>, env: Env) {
    && (h.tls.Some? ==> env.loads(at))
    && AllApplied(opts).Some?
    && (NeedsWatcher(h, env) ==>
          env.canWatch(at) && forall d | d in DirSet(h.tls.value, env.dirOf) :: env.canAdd(at, d))
  }

  /** An HTTP output; `closed` records that its one-time close has run. */
  class HttpOutput {
    const at: nat
    const http: C.OutputHTTP
    const settings: Settings
    const watcher: Option<nat>
    var closed: bool

    constructor (at: nat, http: C.OutputHTTP, settings: Settings, watcher: Option<nat>)
      ensures this.at == at && this.http == http && this.settings == settings && this.watcher == watcher && !closed
    {
      this.at, this.http, this.settings, this.watcher, closed := at, http, settings, watcher, false;
    }

    /** Only the first call closes the watcher and can report an error. */
    method Close(ws: Watchers, env: Env) returns (failed: bool)
      requires ws.Valid() && (!closed && watcher.Some? ==> watcher.value in ws.open)
      modifies this, ws
      ensures ws.Valid() && closed && ws.issued == old(ws.issued)
      ensures ws.open == old(ws.open) - (if old(closed) then {} else Own(this))
      ensures failed <==> !old(closed) && watcher.Some? && env.closeFails(watcher.value)
    {
      failed := false;
      if !closed {
        closed := true;
        if watcher.Some? {
          ws.Release(watcher.value);
          failed := env.closeFails(watcher.value);
        }
      }
    }
  }

  ghost function Own(o: HttpOutput): set<nat> { if o.watcher.Some? then {o.watcher.value} else {} }

  /** The watchers that a list of outputs owns. */
  ghost function Owned(outs: seq<HttpOutput>): set<nat> {
    set o | o in outs && o.watcher.Some? :: o.watcher.value
  }

  /** The outputs are distinct, open, and hold distinct open watchers. */
  ghost predicate Held(outs: seq<HttpOutput>, ws: Watchers)
    reads ws, outs
  {
    && (forall i, j | 0 <= i < j < |outs| :: outs[i] != outs[j])
    && (forall i | 0 <= i < |outs| :: !outs[i].closed)
    && (forall i, j | 0 <= i < j < |outs| && outs[i].watcher.Some? :: outs[i].watcher != outs[j].watcher)
    && (forall i | 0 <= i < |outs| && outs[i].watcher.Some? :: outs[i].watcher.value in ws.open)
  }

  method StartWatcher(at: nat, t: C.ClientTLS, ws: Watchers, env: Env) returns (ok: bool, watcher: Option<nat>)
    requires ws.Valid()
    modifies ws
    ensures ws.Valid() && ws.issued >= old(ws.issued)
    ensures ok <==> (DirSet(t, env.dirOf) != {} ==>
                       env.canWatch(at) && forall d | d in DirSet(t, env.dirOf) :: env.canAdd(at, d))
    ensures !ok ==> ws.open == old(ws.open)
    ensures ok ==> ws.open == old(ws.open) + (if watcher.Some? then {watcher.value} else {})
    ensures ok ==> (watcher.Some? <==> DirSet(t, env.dirOf) != {})
    ensures ok && watcher.Some? ==> old(ws.issued) <= watcher.value < ws.issued
  {
    var dirs := TlsDirectories(t, env.dirOf);
    if |dirs| == 0 {
      assert DirSet(t, env.dirOf) == {};
      return true, None;
    }
    assert dirs[0] in DirSet(t, env.dirOf);
    if !env.canWatch(at) {
      return false, None;
    }
    var id := ws.Open();
    for i := 0 to |dirs|
      invariant ws.Valid() && ws.issued == id + 1 && ws.open == old(ws.open) + {id}
      invariant forall k | 0 <= k < i :: env.canAdd(at, dirs[k])
    {
      if !env.canAdd(at, dirs[i]) {
        assert dirs[i] in DirSet(t, env.dirOf);
        ws.Release(id);
        return false, None;
      }
    }
    return true, Some(id);
  }

  /** Builds one output, or fails and leaves no watcher open. */
  method New(at: nat, cfg: Option<C.OutputHTTP>, opts: seq<Opt>, ws: Watchers, env: Env) returns (r: Option<HttpOutput>)
    requires ws.Valid()
    modifies ws
    ensures ws.Valid() && ws.issued >= old(ws.issued)
    ensures r.Some? <==> cfg.Some? && Builds(at, cfg.value, opts, env)
    ensures r.None? ==> ws.open == old(ws.open)
    ensures r.Some? ==>
      && fresh(r.value) && !r.value.closed && IsBuilt(r.value, at, cfg.value, opts, env)
      && (r.value.watcher.Some? ==> old(ws.issued) <= r.value.watcher.value)
      && ws.open == old(ws.open) + Own(r.value)
  {
    if cfg.None? {
      return None;
    }
    var h := cfg.value;
    if h.tls.Some? && !env.loads(at) {
      return None;
    }
    var settings := DEFAULTS;
    for i := 0 to |opts|
      invariant AllApplied(opts[..i]) == Some(settings)
    {
      assert opts[..i + 1][..i] == opts[..i];
      var s := Applied(settings, opts[i]);
      if s.None? {
        RefusedOption(opts, i + 1);
        return None;
      }
      settings := s.value;
    }
    assert opts[..|opts|] == opts;
    var watcher := None;
    if h.tls.Some? {
      var ok;
      ok, watcher := StartWatcher(at, h.tls.value, ws, env);
      if !ok {
        return None;
      }
    }
    var o := new HttpOutput(at, h, settings, watcher);
    return Some(o);
  }

  /** The output is the one configured at a position, with the settings its options give. */
  ghost predicate IsBuilt(o: HttpOutput, at: nat, h: C.OutputHTTP, opts: seq<Opt>, env: Env) {
    && o.at == at && o.http == h && AllApplied(opts) == Some(o.settings)
    && (o.watcher.Some? <==> NeedsWatcher(h, env))
  }

  // ----- lists of outputs -----

  /** The outputs whose close reports an error, in order. */
  ghost function FailedCloses(outs: seq<HttpOutput>, env: Env): seq<nat> {
    if outs == [] then []
    else
      var o := outs[|outs| - 1];
      FailedCloses(outs[..|outs| - 1], env)
      + (if o.watcher.Some? && env.closeFails(o.watcher.value) then [o.at] else [])
  }

  lemma OwnedAppend(outs: seq<HttpOutput>, o: HttpOutput)
    ensures Owned(outs + [o]) == Owned(outs) + Own(o)
  {
    assert forall x :: x in outs + [o] <==> x in outs || x == o;
  }

  /** Closes every output, whatever individual closes report. */
  method CloseAll(outs: seq<HttpOutput>, ws: Watchers, env: Env) returns (failed: seq<nat>)
    requires ws.Valid() && Held(outs, ws)
    modifies ws, outs
    ensures ws.Valid() && ws.issued == old(ws.issued) && ws.open == old(ws.open) - Owned(outs)
    ensures forall o | o in outs :: o.closed
    ensures failed == FailedCloses(outs, env)
  {
    failed := [];
    for i := 0 to |outs|
      invariant ws.Valid() && ws.issued == old(ws.issued)
      invariant ws.open == old(ws.open) - Owned(outs[..i])
      invariant forall k | 0 <= k < |outs| :: outs[k].closed <==> k < i
      invariant failed == FailedCloses(outs[..i], env)
    {
      var o := outs[i];
      assert o.watcher.Some? ==> o.watcher.value !in Owned(outs[..i]);
      assert outs[..i + 1] == outs[..i] + [o] && outs[..i + 1][..i] == outs[..i];
      OwnedAppend(outs[..i], o);
      var failure := o.Close(ws, env);
      if failure {
        failed := failed + [o.at];
      }
    }
    assert outs[..|outs|] == outs;
  }

  /** Every output that a factory call selects can be built. */
  predicate AllBuild(all: seq<C.Output>, mode: string, opts: seq<Opt>, env: Env, n: nat)
    requires n <= |all|
  {
    forall i: nat | i < n && C.Matches(all[i], mode) :: Builds(i, all[i].http.value, opts, env)
  }

  /** The outputs are those selected from the first n configured ones, in order. */
  ghost predicate AreSelected(outs: seq<HttpOutput>, all: seq<C.Output>, mode: string, opts: seq<Opt>, env: Env, n: nat)
    requires n <= |all|
  {
    var sel := C.Selected(all, mode, n);
    |outs| == |sel| && forall k | 0 <= k < |outs| :: IsBuilt(outs[k], sel[k], all[sel[k]].http.value, opts, env)
  }

  lemma SelectedGrows(
    outs: seq<HttpOutput>, o: HttpOutput, all: seq<C.Output>, mode: string, opts: seq<Opt>, env: Env, n: nat)
    requires n < |all| && C.Matches(all[n], mode) && IsBuilt(o, n, all[n].http.value, opts, env)
    requires AreSelected(outs, all, mode, opts, env, n)
    ensures AreSelected(outs + [o], all, mode, opts, env, n + 1)
  {
  }

  lemma HeldGrows(outs: seq<HttpOutput>, o: HttpOutput, ws: Watchers)
    requires Held(outs, ws) && o !in outs && !o.closed
    requires Own(o) <= ws.open && Own(o) !! Owned(outs)
    ensures Held(outs + [o], ws) && Owned(outs + [o]) == Owned(outs) + Own(o)
  {
    OwnedAppend(outs, o);
    forall i | 0 <= i < |outs| && outs[i].watcher.Some? ensures outs[i].watcher != o.watcher {
      assert outs[i].watcher.value in Owned(outs);
      assert o.watcher.Some? ==> o.watcher.value in Own(o);
    }
  }

  /** Builds one more output beside those already held. */
  method NewBeside(outs: seq<HttpOutput>, at: nat, cfg: Option<C.OutputHTTP>, opts: seq<Opt>, ws: Watchers, env: Env)
    returns (r: Option<HttpOutput>)
    requires ws.Valid() && Held(outs, ws)
    modifies ws
    ensures ws.Valid() && ws.issued >= old(ws.issued) && Held(outs, ws)
    ensures r.Some? <==> cfg.Some? && Builds(at, cfg.value, opts, env)
    ensures r.None? ==> ws.open == old(ws.open)
    ensures r.Some? ==>
      && fresh(r.value) && IsBuilt(r.value, at, cfg.value, opts, env)
      && Held(outs + [r.value], ws) && Owned(outs + [r.value]) == Owned(outs) + Own(r.value)
      && ws.open == old(ws.open) + Own(r.value) && (forall id | id in Own(r.value) :: id >= old(ws.issued))
  {
    assert forall id | id in Owned(outs) :: id < ws.issued;
    r := New(at, cfg, opts, ws, env);
    if r.Some? {
      HeldGrows(outs, r.value, ws);
    }
  }

  /** Builds the outputs of one mode: all of them in configuration order, or none, with every
      watcher opened on the way closed again. */
  method NewHTTPOutputs(all: seq<C.Output>, mode: string, opts: seq<Opt>, ws: Watchers, env: Env)
    returns (ok: bool, outs: seq<HttpOutput>)
    requires ws.Valid()
    modifies ws
    ensures ws.Valid() && ws.issued >= old(ws.issued)
    ensures ok <==> AllBuild(all, mode, opts, env, |all|)
    ensures !ok ==> ws.open == old(ws.open) && outs == []
    ensures ok ==> AreSelected(outs, all, mode, opts, env, |all|)
    ensures ok ==> Held(outs, ws) && ws.open == old(ws.open) + Owned(outs)
    ensures ok ==> forall k | 0 <= k < |outs| :: fresh(outs[k])
    ensures ok ==> forall id | id in Owned(outs) :: id >= old(ws.issued)
  {
    outs := [];
    for i := 0 to |all|
      invariant ws.Valid() && ws.issued >= old(ws.issued)
      invariant AllBuild(all, mode, opts, env, i) && AreSelected(outs, all, mode, opts, env, i)
      invariant forall k | 0 <= k < |outs| :: fresh(outs[k])
      invariant Held(outs, ws) && ws.open == old(ws.open) + Owned(outs)
      invariant forall id | id in Owned(outs) :: id >= old(ws.issued)
    {
      if all[i].http.Some? && all[i].mode == mode {
        var r := NewBeside(outs, i, all[i].http, opts, ws, env);
        if r.None? {
          var _ := CloseAll(outs, ws, env);
          return false, [];
        }
        SelectedGrows(outs, r.value, all, mode, opts, env, i);
        outs := outs + [r.value];
      }
    }
    ok := true;
  }
}
