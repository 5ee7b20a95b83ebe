/** The whole path: configured outputs, annotation injection, the handler and its Sends. */
module EndToEnd {
  import opened Basics
  import S = Send
  import B = Backoff
  import FJ = ForkJoin
  import H = Handler
  import Delivery
  import Annotation
  import C = Config
  import O = Outputs
  import U = Startup

  /** The processors of the running program: an injector if there is anything to inject. */
  function Processors(c: Annotation.Codec, ann: Annotation.Labels): seq<H.Processor> {
    if |ann| > 0 then [(data: Bytes) => Annotation.Processed(c, ann, data)] else []
  }

  lemma ChainIsInjection(c: Annotation.Codec, ann: Annotation.Labels, data: Bytes)
    ensures H.Chain(Processors(c, ann), data) == Annotation.Processed(c, ann, data)
  {
    var ps := Processors(c, ann);
    if |ann| > 0 {
      assert ps[..0] == [];
      assert H.Chain(ps[..0], data) == Some(data);
    } else {
      assert ann == map[];
    }
  }

  /** What the request's body becomes: its event list with the annotations injected, or itself
      when there is nothing to inject. */
  predicate Annotated(c: Annotation.Codec, ann: Annotation.Labels, body: Bytes, content: Bytes) {
    if ann == map[] then content == body
    else c.decode(body).Some? && c.decode(content) == Some(Annotation.Injected(c.decode(body).value, ann))
  }

  /** What a 200 promises about one endpoint: it answered 2xx to a POST with that content. */
  ghost predicate Delivered(p: H.Params, c: Annotation.Codec, ann: Annotation.Labels, s: H.State, r: nat, i: nat)
    requires r < |s.reqs|
  {
    && s.reqs[r].body.Some?
    && exists content ::
         Delivery.Reached(p.gzip, s.posts, r, i, content) && Annotated(c, ann, s.reqs[r].body.value, content)
  }

  /** In every interleaving, a 200 means annotated delivery to every guaranteed endpoint. */
  lemma OkMeansAnnotatedDelivery(
    p: H.Params, c: Annotation.Codec, ann: Annotation.Labels, s: H.State, r: nat, i: nat)
    requires p.procs == Processors(c, ann) && S.Lossless(p.gzip) && Annotation.RoundTrips(c)
    requires H.Reachable(p, s) && r < |s.reqs| && Delivery.Ok(s.reqs[r])
    requires i < |p.guaranteed| && p.guaranteed[i].attempts >= 1
    ensures Delivered(p, c, ann, s, r, i)
  {
    Delivery.OkMeansDelivered(p, s, r, i);
    var body := s.reqs[r].body.value;
    var content := H.Chain(p.procs, body).value;
    ChainIsInjection(c, ann, body);
    if ann != map[] {
      Annotation.ProcessingMerges(c, ann, body, c.decode(body).value, content);
    }
    assert Annotated(c, ann, body, content);
  }

  /** Two injectors in a row, as a processor chain, are one with the merged annotations, unless
      the first fails. */
  lemma ChainsMerge(c: Annotation.Codec, a: Annotation.Labels, b: Annotation.Labels, data: Bytes)
    requires Annotation.RoundTrips(c)
    ensures H.Chain(Processors(c, a) + Processors(c, b), data) ==
      if Annotation.Processed(c, a, data).None? then None else H.Chain(Processors(c, a + b), data)
  {
    H.ChainConcat(Processors(c, a), Processors(c, b), data);
    ChainIsInjection(c, a, data);
    ChainIsInjection(c, a + b, data);
    if Annotation.Processed(c, a, data).Some? {
      Annotation.ChainingMerges(c, a, b, data);
      ChainIsInjection(c, b, Annotation.Processed(c, a, data).value);
    }
  }

  /** Which requests are answered 200, with a codec that encodes every list: exactly those whose
      body was read and decodes (if there is anything to inject) and whose processed content every
      guaranteed output served; whatever the number of events. */
  lemma DecodableIsAnsweredOk(p: H.Params, c: Annotation.Codec, ann: Annotation.Labels, s: H.State, r: nat)
    requires p.procs == Processors(c, ann) && Annotation.EncodesAll(c)
    requires H.Reachable(p, s) && r < |s.reqs| && (s.reqs[r].pc.Answered? || s.reqs[r].pc.Finished?)
    ensures s.reqs[r].pc.code == 200 <==>
      && s.reqs[r].body.Some?
      && var body := s.reqs[r].body.value;
         && (ann == map[] || c.decode(body).Some?)
         && Annotation.Processed(c, ann, body).Some?
         && forall i | 0 <= i < |p.guaranteed| ::
              Delivery.Served(
                p.guaranteed[i], p.gzip, Annotation.Processed(c, ann, body).value, s.posts, r, FJ.Guaranteed, i)
    ensures s.reqs[r].body.Some? && (ann == map[] || c.decode(s.reqs[r].body.value).Some?) ==>
      Annotation.Processed(c, ann, s.reqs[r].body.value).Some?
  {
    Delivery.AnswerIsExact(p, s, r);
    if s.reqs[r].body.Some? {
      ChainIsInjection(c, ann, s.reqs[r].body.value);
      Annotation.DecodableIsProcessed(c, ann, s.reqs[r].body.value);
    }
  }

  // ----- the program as configured -----

  /** A built output's send settings; `urlOk` says that requests can be built for its URL. */
  function SendSettings(o: O.HttpOutput, urlOk: string -> bool): S.Output {
    S.Output(o.http.url, urlOk(o.http.url), o.http.compression, o.settings.attempts, o.settings.base, o.settings.cap)
  }

  /** The handler's parameters, from the server configuration. */
  ghost function Wiring(
    server: U.ServerConfig, c: Annotation.Codec, g: S.Gzip, urlOk: string -> bool): H.Params
    reads server
  {
    var gs, bs := server.guaranteed, server.bestEffort;
    H.Params(
      Processors(c, server.annotations),
      seq(|gs|, i requires 0 <= i < |gs| => SendSettings(gs[i], urlOk)),
      seq(|bs|, i requires 0 <= i < |bs| => SendSettings(bs[i], urlOk)),
      g)
  }

  /** Every output the program builds, as the handler uses it: those of each mode in the order of
      the configuration, with the configured URL and compression, and with 4 attempts and 0.5 s to
      3 s, or 6 attempts and 1 s to 6 s; so a nil result always stands for an attempt. */
  lemma BuiltSettings(
    server: U.ServerConfig, all: seq<C.Output>, ws: O.Watchers, env: O.Env, c: Annotation.Codec, g: S.Gzip,
    urlOk: string -> bool)
    requires U.Serves(server, all, ws, env)
    ensures var p := Wiring(server, c, g, urlOk);
      && AsConfigured(p.guaranteed, all, C.GUARANTEED) && AsConfigured(p.bestEffort, all, C.BEST_EFFORT)
      && (forall o | o in p.guaranteed :: S.ShippedGuaranteed(o))
      && (forall o | o in p.bestEffort :: S.ShippedBestEffort(o))
  {
    O.ShippedSettings();
  }

  /** The outputs are those configured for a mode, in order, with URL and compression as written. */
  predicate AsConfigured(outs: seq<S.Output>, all: seq<C.Output>, mode: string) {
    var sel := C.Selected(all, mode, |all|);
    && |outs| == |sel|
    && forall k | 0 <= k < |outs| ::
         && all[sel[k]].http.Some?
         && outs[k].url == all[sel[k]].http.value.url
         && outs[k].compression == all[sel[k]].http.value.compression
  }

  /** The running program: for every server that start-up produced and every interleaving of
      requests, a 200 means annotated delivery to the one guaranteed endpoint. */
  lemma ProgramDelivers(
    server: U.ServerConfig, all: seq<C.Output>, ws: O.Watchers, env: O.Env,
    c: Annotation.Codec, g: S.Gzip, urlOk: string -> bool, s: H.State, r: nat)
    requires U.Serves(server, all, ws, env) && |server.guaranteed| == 1
    requires S.Lossless(g) && Annotation.RoundTrips(c)
    requires H.Reachable(Wiring(server, c, g, urlOk), s) && r < |s.reqs| && Delivery.Ok(s.reqs[r])
    ensures Delivered(Wiring(server, c, g, urlOk), c, server.annotations, s, r, 0)
  {
    BuiltSettings(server, all, ws, env, c, g, urlOk);
    OkMeansAnnotatedDelivery(Wiring(server, c, g, urlOk), c, server.annotations, s, r, 0);
  }

  /** Validation trims the compression and sending compares it as written: a validated output
      with a compression compresses if and only if it was written without surrounding space. */
  lemma CompressionIsAsWritten(o: O.HttpOutput, check: string -> bool, urlOk: string -> bool)
    requires C.ValidHTTP(o.http, check) && C.TrimSpace(o.http.compression) != ""
    ensures S.Zips(SendSettings(o, urlOk)) <==> C.TrimSpace(o.http.compression) == o.http.compression
  {
    assert C.TrimSpace("gzip") == "gzip";
  }

  /** Such an output: its compression is accepted and it sends uncompressed. */
  lemma PaddedCompressionIsIgnored(url: string, o: S.Output)
    requires o.compression == " gzip "
    ensures C.ValidHTTP(C.OutputHTTP(url, None, o.compression), _ => true) && !S.Zips(o)
  {
    assert " gzip "[1..] == "gzip " && "gzip "[..4] == "gzip";
    assert C.TrimSpace("gzip") == "gzip";
    assert C.TrimSpace("gzip ") == "gzip";
  }
}
