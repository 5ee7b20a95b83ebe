/** From the configuration file's outputs to a running handler, and back to no open watcher. */
module Startup {
  import opened Basics
  import C = Config
  import opened Outputs

  /** The configured addresses, with their ports, and annotations; `tlsOk` says that the server's
      certificates and client CA can be loaded. */
  datatype Serving = Serving(address: string, metricsAddress: string, tlsOk: bool, annotations: map<string, string>)

  /** The server configuration that applying the options fills in; `tls` says that it has its
      TLS configuration. */
  class ServerConfig {
    var address: string
    var tls: bool
    var metricsAddress: string
    var annotations: map<string, string>
    var guaranteed: seq<HttpOutput>
    var bestEffort: seq<HttpOutput>

    constructor ()
      ensures guaranteed == [] && bestEffort == []
    {
      address, tls, metricsAddress, annotations := "", false, "", map[];
      guaranteed, bestEffort := [], [];
    }
  }

  const GUARANTEED_OPTS: seq<Opt> := [WithLogger]

  /** Both factory calls can build everything they select. */
  predicate Buildable(all: seq<C.Output>, env: Env) {
    && AllBuild(all, C.GUARANTEED, GUARANTEED_OPTS, env, |all|)
    && AllBuild(all, C.BEST_EFFORT, BEST_EFFORT_OPTS, env, |all|)
  }

  /** The two lists are exactly the configured outputs of each mode, in order, all open. */
  ghost predicate ServesBoth(gs: seq<HttpOutput>, bs: seq<HttpOutput>, all: seq<C.Output>, ws: Watchers, env: Env)
    reads ws, gs, bs
  {
    && AreSelected(gs, all, C.GUARANTEED, GUARANTEED_OPTS, env, |all|)
    && AreSelected(bs, all, C.BEST_EFFORT, BEST_EFFORT_OPTS, env, |all|)
    && Held(gs, ws) && Held(bs, ws)
    && Owned(gs) !! Owned(bs)
    && (forall o | o in gs :: o !in bs)
  }

  ghost predicate Serves(server: ServerConfig, all: seq<C.Output>, ws: Watchers, env: Env)
    reads server, ws, server.guaranteed, server.bestEffort
  {
    ServesBoth(server.guaranteed, server.bestEffort, all, ws, env)
  }

  /** Builds the outputs of both modes, or none: when the second group fails, the first is closed. */
  method BuildBoth(all: seq<C.Output>, ws: Watchers, env: Env)
    returns (ok: bool, gs: seq<HttpOutput>, bs: seq<HttpOutput>)
    requires ws.Valid()
    modifies ws
    ensures ws.Valid()
    ensures ok <==> Buildable(all, env)
    ensures !ok ==> ws.open == old(ws.open)
    ensures ok ==> ServesBoth(gs, bs, all, ws, env)
    ensures ok ==> ws.open == old(ws.open) + Owned(gs) + Owned(bs)
    ensures ok ==> Owned(gs) !! old(ws.open) && Owned(bs) !! old(ws.open)
    ensures ok ==> forall k | 0 <= k < |gs| :: fresh(gs[k])
    ensures ok ==> forall k | 0 <= k < |bs| :: fresh(bs[k])
  {
    bs := [];
    ok, gs := NewHTTPOutputs(all, C.GUARANTEED, GUARANTEED_OPTS, ws, env);
    if !ok {
      return;
    }
    assert forall id | id in Owned(gs) :: id in ws.open;
    label built:
    ok, bs := NewHTTPOutputs(all, C.BEST_EFFORT, BEST_EFFORT_OPTS, ws, env);
    if !ok {
      var _ := CloseAll(gs, ws, env);
      return;
    }
    assert forall k | 0 <= k < |bs| :: fresh@built(bs[k]);
  }

  /** The address is written even if the certificates then fail to load. */
  method ApplyServing(serving: Serving, server: ServerConfig) returns (ok: bool)
    modifies server`address, server`tls
    ensures ok == serving.tlsOk
    ensures server.address == serving.address && server.tls == (old(server.tls) || ok)
  {
    server.address := serving.address;
    if !serving.tlsOk {
      return false;
    }
    server.tls := true;
    return true;
  }

  /** Builds all outputs or none: on failure no watcher opened on the way stays open and the
      server's output lists are untouched; on success the new open watchers are the outputs' own.
      Addresses, TLS and annotations are written before the outputs are built, so they stay
      written when that fails. */
  method ApplyTo(all: seq<C.Output>, serving: Serving, server: ServerConfig, ws: Watchers, env: Env) returns (ok: bool)
    requires ws.Valid()
    modifies server, ws
    ensures ws.Valid()
    ensures ok <==> serving.tlsOk && Buildable(all, env)
    ensures server.address == serving.address && server.tls == (old(server.tls) || serving.tlsOk)
    ensures server.metricsAddress == if serving.tlsOk then serving.metricsAddress else old(server.metricsAddress)
    ensures server.annotations == if serving.tlsOk then serving.annotations else old(server.annotations)
    ensures !ok ==> ws.open == old(ws.open)
    ensures !ok ==> server.guaranteed == old(server.guaranteed) && server.bestEffort == old(server.bestEffort)
    ensures ok ==> Serves(server, all, ws, env)
    ensures ok ==> ws.open == old(ws.open) + Owned(server.guaranteed) + Owned(server.bestEffort)
    ensures ok ==> Owned(server.guaranteed) !! old(ws.open) && Owned(server.bestEffort) !! old(ws.open)
    ensures ok ==> forall k | 0 <= k < |server.guaranteed| :: fresh(server.guaranteed[k])
    ensures ok ==> forall k | 0 <= k < |server.bestEffort| :: fresh(server.bestEffort[k])
  {
    var tlsOk := ApplyServing(serving, server);
    if !tlsOk {
      return false;
    }
    server.metricsAddress := serving.metricsAddress;
    server.annotations := serving.annotations;
    var built, guaranteed, bestEffort := BuildBoth(all, ws, env);
    if !built {
      return false;
    }
    server.guaranteed := guaranteed;
    server.bestEffort := bestEffort;
    return true;
  }

  datatype Started = Rejected(errs: seq<C.FieldError>) | NotApplied | NoHandler | Running

  /** NewHandler's only check. */
  predicate HandlerAccepts(guaranteed: seq<HttpOutput>) { |guaranteed| > 0 }

  /** The errors are those of the outputs, naming every invalid one and none for a valid list,
      followed by the others. */
  ghost predicate RejectedFor(
    errs: seq<C.FieldError>, outputs: seq<C.Output>, parse: C.Parser, others: seq<C.FieldError>)
  {
    && |errs| >= |others|
    && var n := |errs| - |others|;
       && errs[n..] == others
       && (errs[..n] == [] <==> C.ValidOutputs(outputs, C.UrlCheck(parse)))
       && forall i | 0 <= i < |outputs| && !C.ValidOutput(outputs[i], C.UrlCheck(parse)) :: C.Names(errs[..n], i)
  }

  /** The start sequence: defaulting, validation, applying, and the handler; `others` are the
      validation errors outside the outputs.  It reaches a running handler exactly for writable
      configurations whose outputs can be built; the handler never refuses what validation let
      through; and failing leaves no watcher open. */
  method Start(outputs: array<C.Output>, parse: C.Parser, others: seq<C.FieldError>, serving: Serving,
               server: ServerConfig, ws: Watchers, env: Env)
    returns (r: Started)
    requires ws.Valid()
    modifies outputs, server, ws
    ensures ws.Valid() && outputs[..] == C.Defaulted(old(outputs[..]))
    ensures r.Running? <==>
      && C.Writable(old(outputs[..]), C.UrlCheck(parse)) && others == []
      && serving.tlsOk && Buildable(C.Defaulted(old(outputs[..])), env)
    ensures !r.NoHandler?
    ensures r.Rejected? <==> !(C.Writable(old(outputs[..]), C.UrlCheck(parse)) && others == [])
    ensures r.Rejected? ==> RejectedFor(r.errs, outputs[..], parse, others)
    ensures !r.Running? ==> ws.open == old(ws.open)
    ensures r.Running? ==> Serves(server, outputs[..], ws, env) && |server.guaranteed| == 1
    ensures r.Running? ==> server.annotations == serving.annotations
    ensures r.Running? ==> ws.open == old(ws.open) + Owned(server.guaranteed) + Owned(server.bestEffort)
    ensures r.Running? ==> Owned(server.guaranteed) !! old(ws.open) && Owned(server.bestEffort) !! old(ws.open)
    ensures r.Running? ==> forall k | 0 <= k < |server.guaranteed| :: fresh(server.guaranteed[k])
    ensures r.Running? ==> forall k | 0 <= k < |server.bestEffort| :: fresh(server.bestEffort[k])
  {
    ghost var raw := outputs[..];
    C.SetDefaults(outputs);
    C.PipelineAcceptsExactly(raw, C.UrlCheck(parse));
    var errs := C.ValidateOutputs(outputs[..], parse);
    if errs + others != [] {
      assert (errs + others)[..|errs|] == errs && (errs + others)[|errs|..] == others;
      return Rejected(errs + others);
    }
    C.ValidatedSplit(raw, C.UrlCheck(parse));
    var ok := ApplyTo(outputs[..], serving, server, ws, env);
    if !ok {
      return NotApplied;
    }
    if !HandlerAccepts(server.guaranteed) {
      return NoHandler;
    }
    return Running;
  }

  /** Closing both groups at the end of the program. */
  method CloseOutputs(server: ServerConfig, ws: Watchers, env: Env)
    requires ws.Valid() && Held(server.guaranteed, ws) && Held(server.bestEffort, ws)
    requires Owned(server.guaranteed) !! Owned(server.bestEffort)
    requires forall o | o in server.guaranteed :: o !in server.bestEffort
    modifies ws, server.guaranteed, server.bestEffort
    ensures ws.Valid() && ws.open == old(ws.open) - Owned(server.guaranteed) - Owned(server.bestEffort)
  {
    var _ := CloseAll(server.guaranteed, ws, env);
    forall i | 0 <= i < |server.bestEffort|
      ensures !server.bestEffort[i].closed
      ensures server.bestEffort[i].watcher.Some? ==> server.bestEffort[i].watcher.value in ws.open
    {
      var o := server.bestEffort[i];
      assert o !in server.guaranteed;
      assert o.watcher.Some? ==> o.watcher.value in Owned(server.bestEffort);
    }
    var _ := CloseAll(server.bestEffort, ws, env);
  }

  /** Over the whole life of the program, whichever way it goes and whatever individual closes
      report, every watcher it opened is closed exactly once. */
  method Lifetime(
    outputs: array<C.Output>, parse: C.Parser, others: seq<C.FieldError>, serving: Serving, ws: Watchers, env: Env)
    requires ws.Valid()
    modifies outputs, ws
    ensures ws.Valid() && ws.open == old(ws.open)
  {
    var server := new ServerConfig();
    var r := Start(outputs, parse, others, serving, server, ws, env);
    if r.Running? {
      CloseOutputs(server, ws, env);
    }
  }
}
