/** The TLS hot-reload loop as a step machine over all interleavings.

    One goroutine runs the loop (`loop.pc`), the runtime drives the debounce
    timer, the file system changes credential files and queues notifications,
    any number of callers run Close.  `Enabled` says when an atomic step can
    happen; the four `Next` functions say what it does.  No step reads the
    history part. */
module TlsWatcher {
  import opened Basics
  import opened GoTimer
  import opened Debounce

  /** The content of a file, or None while it cannot be read. */
  type Blob = Option<Bytes>

  datatype Files = Files(ca: Blob, cert: Blob, key: Blob)

  /** What a client was built from; the parts that are not configured are None. */
  datatype Creds = Creds(ca: Option<Blob>, pair: Option<(Blob, Blob)>)

  datatype Params = Params(
    sem: Semantics,
    debounce: nat,
    readsCA: bool,
    readsPair: bool,
    caOk: Blob -> bool,
    pairOk: (Blob, Blob) -> bool)

  datatype Client = Client(id: nat, creds: Creds)

  datatype Pc =
    | Start | StartDrain
    | Select
    | ArmTest | ArmDrain | ArmReset
    | LoadCA | LoadCert(ca: Blob) | LoadKey(ca: Blob, cert: Blob) | Swap(creds: Creds) | Retire(prev: nat)
    | ExitTest | ExitDrain | Exited

  /** Outside the loop: clock, files, the watcher's two queues (true marks a content event), context. */
  datatype Env = Env(now: nat, files: Files, events: seq<bool>, errors: nat, watcherClosed: bool, ctxDone: bool)

  /** The loop's own variables; `debounceC` says that its channel variable is non-nil. */
  datatype Loop = Loop(timer: Timer, debounceC: bool, pc: Pc, client: Client)

  datatype Once = Fresh | Running(caller: nat) | Finished
  datatype Closer = Executing | Blocked | Returned(failed: bool)
  datatype Closing = Closing(once: Once, callers: map<nat, Closer>)

  /** History: a step counter, idle-connection closes, the debounce log, and the steps of the
      last file change, the last handled content event and the last started reload. */
  datatype Hist = Hist(
    step: nat, idleClosed: seq<nat>, log: seq<Entry>, lastChange: nat, lastHandled: nat, lastReload: nat)

  datatype State = State(env: Env, loop: Loop, closing: Closing, hist: Hist)

  datatype Action =
    | Advance(dt: nat) | Write(files: Files) | Emit(content: bool) | EmitError | CancelCtx | Discard
    | Expire | Deliver
    | Go | PickDone | PickTick | PickEvent | PickError | PickClosed
    | CloseCall(caller: nat) | CloseReturn(caller: nat, failed: bool)

  /** Building a client from one consistent set of files: the reference for the stepwise load. */
  function Load(p: Params, f: Files): Option<Creds> {
    if p.readsCA && !p.caOk(f.ca) then None
    else if p.readsPair && !p.pairOk(f.cert, f.key) then None
    else Some(Build(p, f.ca, f.cert, f.key))
  }

  function Build(p: Params, ca: Blob, cert: Blob, key: Blob): Creds {
    Creds(if p.readsCA then Some(ca) else None, if p.readsPair then Some((cert, key)) else None)
  }

  /** Every configured part of the files passes its check. */
  predicate Loadable(p: Params, f: Files) {
    (p.readsCA ==> p.caOk(f.ca)) && (p.readsPair ==> p.pairOk(f.cert, f.key))
  }

  /** The credentials hold exactly the configured parts of the files. */
  predicate MadeFrom(p: Params, f: Files, c: Creds) {
    c.ca == (if p.readsCA then Some(f.ca) else None) && c.pair == (if p.readsPair then Some((f.cert, f.key)) else None)
  }

  /** The credentials hold exactly the configured parts, and each passed its check. */
  predicate Usable(p: Params, c: Creds) {
    && (if p.readsCA then c.ca.Some? && p.caOk(c.ca.value) else c.ca.None?)
    && (if p.readsPair then c.pair.Some? && p.pairOk(c.pair.value.0, c.pair.value.1) else c.pair.None?)
  }

  /** Loading succeeds exactly when the checks pass, and takes every configured part from the files. */
  lemma LoadIsExact(p: Params, f: Files)
    ensures Load(p, f).Some? <==> Loadable(p, f)
    ensures forall c :: Load(p, f) == Some(c) <==> Loadable(p, f) && MadeFrom(p, f, c)
  {
  }

  ghost predicate Init(p: Params, s: State) {
    && s.loop.pc == Start && s.loop.timer == Timer(Some(s.env.now), false, false) && !s.loop.debounceC
    && s.loop.client.id == 0 && Usable(p, s.loop.client.creds)
    && s.env.events == [] && s.env.errors == 0 && !s.env.watcherClosed
    && s.closing == Closing(Fresh, map[])
    && s.hist == Hist(1, [], [], 0, 0, 0)
  }

  predicate Drains(pc: Pc) { pc.StartDrain? || pc.ArmDrain? || pc.ExitDrain? }
  predicate Starting(pc: Pc) { pc.Start? || pc.StartDrain? }
  predicate Arming(pc: Pc) { pc.ArmTest? || pc.ArmDrain? || pc.ArmReset? }
  predicate Loading(pc: Pc) { pc.LoadCA? || pc.LoadCert? || pc.LoadKey? || pc.Swap? }

  predicate Enabled(s: State, a: Action) {
    var e, l := s.env, s.loop;
    match a
    case Advance(_) | Write(_) | CancelCtx => true
    case Emit(_) | EmitError => !e.watcherClosed
    case Discard => e.watcherClosed
    case Expire => l.timer.armed.Some? && l.timer.armed.value <= e.now
    case Deliver => l.timer.sending
    case Go => !l.pc.Select? && !l.pc.Exited? && (Drains(l.pc) ==> l.timer.full)
    case PickDone => l.pc.Select? && e.ctxDone
    case PickTick => l.pc.Select? && l.debounceC && l.timer.full
    case PickEvent => l.pc.Select? && e.events != []
    case PickError => l.pc.Select? && e.errors > 0
    case PickClosed => l.pc.Select? && e.watcherClosed && (e.events == [] || e.errors == 0)
    case CloseCall(c) => c !in s.closing.callers
    case CloseReturn(c, failed) =>
      && c in s.closing.callers
      && match s.closing.callers[c]
         case Executing => l.pc.Exited?
         case Blocked => s.closing.once.Finished? && !failed
         case Returned(_) => false
  }

  function NextEnv(s: State, a: Action): Env
    requires Enabled(s, a)
  {
    var e := s.env;
    match a
    case Advance(dt) => e.(now := e.now + dt)
    case Write(files) => e.(files := files)
    case Emit(content) => e.(events := e.events + [content])
    case EmitError => e.(errors := e.errors + 1)
    case CancelCtx => e.(ctxDone := true)
    case Discard => e.(events := [], errors := 0)
    case PickEvent => e.(events := e.events[1..])
    case PickError => e.(errors := e.errors - 1)
    case CloseCall(_) => e.(watcherClosed := e.watcherClosed || s.closing.once.Fresh?)
    case _ => e
  }

  /** The loop's next statement outside the select. */
  function GoStep(p: Params, e: Env, l: Loop): Loop {
    var stopped := l.(timer := Stopped(p.sem, l.timer));
    var drained := l.(timer := l.timer.(full := false));
    var wins := StopWins(p.sem, l.timer);
    match l.pc
    case Start => stopped.(pc := if wins then Select else StartDrain)
    case StartDrain => drained.(pc := Select)
    case ArmTest =>
      if !l.debounceC then l.(pc := ArmReset) else stopped.(pc := if wins then ArmReset else ArmDrain)
    case ArmDrain => drained.(pc := ArmReset)
    case ArmReset => Loop(Restarted(p.sem, l.timer, e.now + p.debounce), true, Select, l.client)
    case LoadCA => l.(pc := if p.readsCA && !p.caOk(e.files.ca) then Select else LoadCert(e.files.ca))
    case LoadCert(ca) =>
      l.(pc := if p.readsPair then LoadKey(ca, e.files.cert) else Swap(Build(p, ca, None, None)))
    case LoadKey(ca, cert) =>
      l.(pc := if p.pairOk(cert, e.files.key) then Swap(Build(p, ca, cert, e.files.key)) else Select)
    case Swap(creds) => l.(client := Client(l.client.id + 1, creds), pc := Retire(l.client.id))
    case Retire(_) => l.(pc := Select)
    case ExitTest =>
      if !l.debounceC then l.(pc := Exited) else stopped.(pc := if wins then Exited else ExitDrain)
    case ExitDrain => drained.(pc := Exited)
    case Select | Exited => l
  }

  function NextLoop(p: Params, s: State, a: Action): Loop
    requires Enabled(s, a)
  {
    var l := s.loop;
    match a
    case Expire => l.(timer := l.timer.(armed := None, sending := true))
    case Deliver => l.(timer := l.timer.(sending := false, full := true))
    case Go => GoStep(p, s.env, l)
    case PickDone | PickClosed => l.(pc := ExitTest)
    case PickTick => Loop(l.timer.(full := false), false, LoadCA, l.client)
    case PickEvent => if s.env.events[0] then l.(pc := ArmTest) else l
    case _ => l
  }

  function NextClosing(s: State, a: Action): Closing
    requires Enabled(s, a)
  {
    var k := s.closing;
    match a
    case CloseCall(c) =>
      if k.once.Fresh? then Closing(Running(c), k.callers[c := Executing])
      else k.(callers := k.callers[c := Blocked])
    case CloseReturn(c, failed) => Closing(Finished, k.callers[c := Returned(failed)])
    case _ => k
  }

  function NextHist(s: State, a: Action): Hist
    requires Enabled(s, a)
  {
    var h := s.hist.(step := s.hist.step + 1);
    match a
    case Write(_) => h.(lastChange := s.hist.step)
    case Go => if s.loop.pc.Retire? then h.(idleClosed := h.idleClosed + [s.loop.pc.prev]) else h
    case PickTick => h.(log := h.log + [Reload(s.env.now)], lastReload := s.hist.step)
    case PickEvent =>
      if s.env.events[0] then h.(log := h.log + [Handled(s.env.now)], lastHandled := s.hist.step) else h
    case _ => h
  }

  function Apply(p: Params, s: State, a: Action): State
    requires Enabled(s, a)
  {
    State(NextEnv(s, a), NextLoop(p, s, a), NextClosing(s, a), NextHist(s, a))
  }

  predicate ValidRun(p: Params, s: State, run: seq<Action>)
    decreases |run|
  {
    run == [] || (Enabled(s, run[0]) && ValidRun(p, Apply(p, s, run[0]), run[1..]))
  }

  function Exec(p: Params, s: State, run: seq<Action>): State
    requires ValidRun(p, s, run)
    decreases |run|
  {
    if run == [] then s else Exec(p, Apply(p, s, run[0]), run[1..])
  }

  lemma Prepend(p: Params, s: State, a: Action, run: seq<Action>)
    requires Enabled(s, a) && ValidRun(p, Apply(p, s, a), run)
    ensures ValidRun(p, s, [a] + run) && Exec(p, s, [a] + run) == Exec(p, Apply(p, s, a), run)
  {
    assert ([a] + run)[1..] == run;
  }

  // ----- invariants -----

  /** The channel variable is set exactly while one tick is pending; a drain
      only ever runs on an expired timer whose tick was not received. */
  predicate TimerInv(p: Params, l: Loop) {
    && Tokens(l.timer) == (
         match l.pc
         case Start | StartDrain | ArmDrain | ExitDrain => 1
         case Select | ArmTest | ExitTest => if l.debounceC then 1 else 0
         case _ => 0)
    && (Starting(l.pc) || Loading(l.pc) || l.pc.Retire? ==> !l.debounceC)
    && (Drains(l.pc) ==> p.sem.Buffered? && l.timer.armed.None?)
  }

  /** The pending tick is not available before the debounce after the last handled event is over. */
  predicate DueInv(p: Params, now: nat, l: Loop, log: seq<Entry>) {
    && (Starting(l.pc) ==> log == [])
    && (l.pc.Select? || l.pc.ExitTest? ==> (Settled(log) <==> !l.debounceC))
    && (Arming(l.pc) ==> !Settled(log))
    && (Loading(l.pc) || l.pc.Retire? ==> Settled(log))
    && (l.pc.Select? && l.debounceC ==>
          var due := log[|log| - 1].at + p.debounce;
          if l.timer.armed.Some? then l.timer.armed.value >= due else now >= due)
  }

  ghost predicate LogInv(p: Params, now: nat, log: seq<Entry>) {
    Disciplined(log, p.debounce) && (log != [] ==> log[|log| - 1].at <= now)
  }

  /** Stamps are in the past, and no handled event is left without a later reload or a pending debounce. */
  predicate StampInv(l: Loop, h: Hist) {
    && h.lastChange < h.step && h.lastHandled < h.step && h.lastReload < h.step
    && (Starting(l.pc) ==> h.lastHandled == 0)
    && (Loading(l.pc) || l.pc.Retire? || (l.pc.Select? && !l.debounceC) ==>
          h.lastHandled == 0 || h.lastHandled < h.lastReload)
  }

  /** A load that no file change overlapped has read, and then published, the current files. */
  predicate LoadInv(p: Params, f: Files, l: Loop, h: Hist) {
    && (h.lastChange < h.lastReload ==>
          match l.pc
          case LoadCA => true
          case LoadCert(ca) => ca == f.ca
          case LoadKey(ca, cert) => ca == f.ca && cert == f.cert
          case Swap(creds) => Load(p, f) == Some(creds)
          case _ => Load(p, f).Some? ==> l.client.creds == Load(p, f).value)
    && (l.pc.LoadCert? || l.pc.LoadKey? ==> p.readsCA ==> p.caOk(l.pc.ca))
    && (l.pc.LoadKey? ==> p.readsPair)
  }

  function UpTo(n: nat): seq<nat> { seq(n, i => i) }

  /** Clients are numbered in publication order; every replaced one had its idle
      connections closed exactly once, in order, and the published one never. */
  ghost predicate ClientInv(p: Params, l: Loop, idleClosed: seq<nat>) {
    && Usable(p, l.client.creds)
    && (l.pc.Swap? ==> Usable(p, l.pc.creds))
    && (if l.pc.Retire?
        then l.client.id == l.pc.prev + 1 && idleClosed == UpTo(l.pc.prev)
        else idleClosed == UpTo(l.client.id))
  }

  /** Close callers return only after the one executing caller saw the loop exit. */
  predicate CloseInv(e: Env, l: Loop, k: Closing) {
    && (!k.once.Fresh? ==> e.watcherClosed)
    && (k.once.Fresh? ==> k.callers == map[])
    && (k.once.Running? ==> k.once.caller in k.callers)
    && (k.once.Finished? ==> l.pc.Exited?)
    && (forall c | c in k.callers :: k.callers[c].Executing? <==> k.once == Running(c))
    && (forall c | c in k.callers && k.callers[c].Returned? :: k.once.Finished?)
  }

  ghost predicate Inv(p: Params, s: State) {
    && TimerInv(p, s.loop)
    && DueInv(p, s.env.now, s.loop, s.hist.log)
    && LogInv(p, s.env.now, s.hist.log)
    && StampInv(s.loop, s.hist)
    && LoadInv(p, s.env.files, s.loop, s.hist)
    && ClientInv(p, s.loop, s.hist.idleClosed)
    && CloseInv(s.env, s.loop, s.closing)
  }

  lemma InitInv(p: Params, s: State)
    requires Init(p, s)
    ensures Inv(p, s)
  {
    assert s.hist.idleClosed == UpTo(0);
  }

  lemma TimerStep(p: Params, s: State, a: Action)
    requires TimerInv(p, s.loop) && Enabled(s, a)
    ensures TimerInv(p, NextLoop(p, s, a))
  {
  }

  lemma DueGo(p: Params, s: State)
    requires TimerInv(p, s.loop) && DueInv(p, s.env.now, s.loop, s.hist.log) && Enabled(s, Go)
    requires s.hist.log != [] ==> s.hist.log[|s.hist.log| - 1].at <= s.env.now
    ensures DueInv(p, s.env.now, GoStep(p, s.env, s.loop), s.hist.log)
  {
  }

  lemma DueStep(p: Params, s: State, a: Action)
    requires TimerInv(p, s.loop) && DueInv(p, s.env.now, s.loop, s.hist.log) && Enabled(s, a)
    requires s.hist.log != [] ==> s.hist.log[|s.hist.log| - 1].at <= s.env.now
    ensures DueInv(p, NextEnv(s, a).now, NextLoop(p, s, a), NextHist(s, a).log)
  {
    if a.Go? {
      DueGo(p, s);
    }
  }

  lemma LogStep(p: Params, s: State, a: Action)
    requires TimerInv(p, s.loop) && DueInv(p, s.env.now, s.loop, s.hist.log)
    requires LogInv(p, s.env.now, s.hist.log) && Enabled(s, a)
    ensures LogInv(p, NextEnv(s, a).now, NextHist(s, a).log)
  {
    if a.PickTick? {
      DisciplinedAppend(s.hist.log, Reload(s.env.now), p.debounce);
    } else if a.PickEvent? {
      DisciplinedAppend(s.hist.log, Handled(s.env.now), p.debounce);
    }
  }

  lemma StampStep(p: Params, s: State, a: Action)
    requires TimerInv(p, s.loop) && StampInv(s.loop, s.hist) && Enabled(s, a)
    ensures StampInv(NextLoop(p, s, a), NextHist(s, a))
  {
  }

  lemma LoadGo(p: Params, e: Env, l: Loop, h: Hist)
    requires LoadInv(p, e.files, l, h)
    ensures LoadInv(p, e.files, GoStep(p, e, l), h)
  {
  }

  /** Only the two change stamps, the files and the program point matter for the load. */
  lemma LoadStep(p: Params, s: State, a: Action)
    requires StampInv(s.loop, s.hist) && LoadInv(p, s.env.files, s.loop, s.hist) && Enabled(s, a)
    ensures LoadInv(p, NextEnv(s, a).files, NextLoop(p, s, a), NextHist(s, a))
  {
    if a.Go? {
      LoadGo(p, s.env, s.loop, s.hist);
    }
  }

  lemma ClientStep(p: Params, s: State, a: Action)
    requires LoadInv(p, s.env.files, s.loop, s.hist) && ClientInv(p, s.loop, s.hist.idleClosed) && Enabled(s, a)
    ensures ClientInv(p, NextLoop(p, s, a), NextHist(s, a).idleClosed)
  {
    var pc := s.loop.pc;
    if a.Go? && pc.Retire? {
      assert NextHist(s, a).idleClosed == UpTo(pc.prev + 1);
    }
  }

  lemma CloseStep(p: Params, s: State, a: Action)
    requires CloseInv(s.env, s.loop, s.closing) && Enabled(s, a)
    ensures CloseInv(NextEnv(s, a), NextLoop(p, s, a), NextClosing(s, a))
  {
  }

  lemma InvStep(p: Params, s: State, a: Action)
    requires Inv(p, s) && Enabled(s, a)
    ensures Inv(p, Apply(p, s, a))
  {
    TimerStep(p, s, a);
    DueStep(p, s, a);
    LogStep(p, s, a);
    StampStep(p, s, a);
    LoadStep(p, s, a);
    ClientStep(p, s, a);
    CloseStep(p, s, a);
  }

  /** Every state of every run satisfies the invariants. */
  lemma {:induction false} InvRun(p: Params, s: State, run: seq<Action>)
    requires Inv(p, s) && ValidRun(p, s, run)
    ensures Inv(p, Exec(p, s, run))
    decreases |run|
  {
    if run != [] {
      InvStep(p, s, run[0]);
      InvRun(p, Apply(p, s, run[0]), run[1..]);
    }
  }
}
