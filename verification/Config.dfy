/** The outputs part of the configuration: defaulting, validation, and how it selects outputs. */
module Config {
  import opened Basics

  datatype ClientTLS = ClientTLS(caFile: string, certFile: string, keyFile: string)

  datatype OutputHTTP = OutputHTTP(url: string, tls: Option<ClientTLS>, compression: string)

  /** A configured output; the mode is free text, empty when it is not given. */
  datatype Output = Output(mode: string, http: Option<OutputHTTP>)

  const GUARANTEED: string := "Guaranteed"
  const BEST_EFFORT: string := "BestEffort"

  datatype Kind = Required | Invalid | NotSupported

  /** A validation error at an output (None: the list as a whole) and a field of it. */
  datatype FieldError = FieldError(kind: Kind, index: Option<nat>, field: string)

  // ----- defaults -----

  /** A missing mode becomes Guaranteed for a single output and BestEffort otherwise. */
  function DefaultMode(o: Output, n: nat): Output {
    if o.mode == "" then o.(mode := if n == 1 then GUARANTEED else BEST_EFFORT) else o
  }

  function Defaulted(outputs: seq<Output>): seq<Output> {
    seq(|outputs|, i requires 0 <= i < |outputs| => DefaultMode(outputs[i], |outputs|))
  }

  method SetDefaults(outputs: array<Output>)
    modifies outputs
    ensures outputs[..] == Defaulted(old(outputs[..]))
  {
    if outputs.Length == 1 {
      if outputs[0].mode == "" {
        outputs[0] := outputs[0].(mode := GUARANTEED);
      }
    } else {
      for i := 0 to outputs.Length
        invariant forall k | 0 <= k < i :: outputs[k] == DefaultMode(old(outputs[k]), outputs.Length)
        invariant forall k | i <= k < outputs.Length :: outputs[k] == old(outputs[k])
      {
        if outputs[i].mode == "" {
          outputs[i] := outputs[i].(mode := BEST_EFFORT);
        }
      }
    }
  }

  // ----- validation -----

  predicate IsSpace(c: char) {
    c in " \t\n\r" || c as int in {0x0b, 0x0c, 0x85, 0xa0, 0x1680, 0x2028, 0x2029, 0x202f, 0x205f, 0x3000}
    || 0x2000 <= c as int <= 0x200a
  }

  function TrimSpace(s: string): string {
    if s != "" && IsSpace(s[0]) then TrimSpace(s[1..])
    else if s != "" && IsSpace(s[|s| - 1]) then TrimSpace(s[..|s| - 1])
    else s
  }

  /** Trimming takes away exactly the space at both ends. */
  lemma {:induction false} TrimSpaceIsExact(s: string) returns (before: string, after: string)
    ensures s == before + TrimSpace(s) + after
    ensures (forall c | c in before :: IsSpace(c)) && (forall c | c in after :: IsSpace(c))
    ensures var t := TrimSpace(s); t != "" ==> !IsSpace(t[0]) && !IsSpace(t[|t| - 1])
    decreases |s|
  {
    before, after := "", "";
    if s != "" && IsSpace(s[0]) {
      before, after := TrimSpaceIsExact(s[1..]);
      before := [s[0]] + before;
    } else if s != "" && IsSpace(s[|s| - 1]) {
      before, after := TrimSpaceIsExact(s[..|s| - 1]);
      after := after + [s[|s| - 1]];
    }
  }

  /** Certificate and key are given together or not at all. */
  predicate ValidTLS(t: ClientTLS) {
    TrimSpace(t.certFile) != "" <==> TrimSpace(t.keyFile) != ""
  }

  predicate ValidCompression(c: string) { TrimSpace(c) == "" || TrimSpace(c) == "gzip" }

  /** The parts of a parsed URL that are checked; `user` says that it names a user. */
  datatype Url = Url(scheme: string, query: string, fragment: string, user: bool)

  /** The URL library, as a partial function. */
  type Parser = string -> Option<Url>

  /** After trimming: an https URL without query, fragment and user. */
  predicate ValidURL(url: string, parse: Parser) {
    var trimmed := TrimSpace(url);
    && trimmed != ""
    && parse(trimmed).Some?
    && var u := parse(trimmed).value; u.scheme == "https" && u.query == "" && u.fragment == "" && !u.user
  }

  function UrlCheck(parse: Parser): string -> bool { url => ValidURL(url, parse) }

  /** `urlOk` are the URL checks. */
  predicate ValidHTTP(h: OutputHTTP, urlOk: string -> bool) {
    urlOk(h.url) && (h.tls.Some? ==> ValidTLS(h.tls.value)) && ValidCompression(h.compression)
  }

  predicate KnownMode(mode: string) { mode == GUARANTEED || mode == BEST_EFFORT }

  predicate ValidOutput(o: Output, urlOk: string -> bool) {
    (o.mode != "" ==> KnownMode(o.mode)) && o.http.Some? && ValidHTTP(o.http.value, urlOk)
  }

  predicate IsGuaranteed(o: Output) { o.mode == GUARANTEED }

  /** At least one output, every one valid, and exactly one of them Guaranteed. */
  predicate ValidOutputs(outputs: seq<Output>, urlOk: string -> bool) {
    && (forall i | 0 <= i < |outputs| :: ValidOutput(outputs[i], urlOk))
    && Count(outputs, IsGuaranteed) == 1
  }

  /** Some error points at a field of output i. */
  ghost predicate Reports(errs: seq<FieldError>, i: nat, field: string) {
    exists e :: e in errs && e.index == Some(i) && e.field == field
  }

  method ValidateClientTLS(t: ClientTLS, at: nat) returns (errs: seq<FieldError>)
    ensures errs == [] <==> ValidTLS(t)
    ensures forall e | e in errs :: e.field in {"keyFile", "certFile"}
    ensures Reports(errs, at, "keyFile") <==> TrimSpace(t.certFile) != "" && TrimSpace(t.keyFile) == ""
    ensures Reports(errs, at, "certFile") <==> TrimSpace(t.certFile) == "" && TrimSpace(t.keyFile) != ""
    ensures forall e | e in errs :: e.index == Some(at)
  {
    errs := [];
    var cert := TrimSpace(t.certFile) != "";
    var key := TrimSpace(t.keyFile) != "";
    if cert && !key {
      errs := errs + [FieldError(Required, Some(at), "keyFile")];
    }
    if !cert && key {
      errs := errs + [FieldError(Required, Some(at), "certFile")];
    }
  }

  method ValidateURL(url: string, at: nat, parse: Parser) returns (errs: seq<FieldError>)
    ensures errs == [] <==> ValidURL(url, parse)
    ensures forall e | e in errs :: e.field == "url"
    ensures forall e | e in errs :: e.index == Some(at)
  {
    errs := [];
    var trimmed := TrimSpace(url);
    if trimmed == "" {
      errs := errs + [FieldError(Required, Some(at), "url")];
      return;
    }
    var parsed := parse(trimmed);
    if parsed.None? {
      errs := errs + [FieldError(Invalid, Some(at), "url")];
      return;
    }
    if parsed.value.scheme != "https" {
      errs := errs + [FieldError(Invalid, Some(at), "url")];
    }
    if parsed.value.query != "" {
      errs := errs + [FieldError(Invalid, Some(at), "url")];
    }
    if parsed.value.fragment != "" {
      errs := errs + [FieldError(Invalid, Some(at), "url")];
    }
    if parsed.value.user {
      errs := errs + [FieldError(Invalid, Some(at), "url")];
    }
  }

  lemma ReportsConcat(a: seq<FieldError>, b: seq<FieldError>, i: nat, field: string)
    ensures Reports(a + b, i, field) <==> Reports(a, i, field) || Reports(b, i, field)
  {
  }

  lemma OnlyField(errs: seq<FieldError>, i: nat, f: string, field: string)
    requires forall e | e in errs :: e.index == Some(i) && e.field == f
    ensures Reports(errs, i, field) <==> errs != [] && f == field
  {
    assert errs != [] ==> errs[0] in errs;
  }

  lemma NoOtherField(errs: seq<FieldError>, i: nat, fields: set<string>, field: string)
    requires (forall e | e in errs :: e.field in fields) && field !in fields
    ensures !Reports(errs, i, field)
  {
  }

  method ValidateCompression(c: string, at: nat) returns (errs: seq<FieldError>)
    ensures errs == [] <==> TrimSpace(c) in ["", "gzip"]
    ensures forall e | e in errs :: e.index == Some(at) && e.field == "compression"
  {
    errs := [];
    var compression := TrimSpace(c);
    if compression != "" && compression != "gzip" {
      errs := [FieldError(NotSupported, Some(at), "compression")];
    }
  }

  method ValidateOutputHTTP(h: OutputHTTP, at: nat, parse: Parser) returns (errs: seq<FieldError>)
    ensures errs == [] <==> ValidHTTP(h, UrlCheck(parse))
    ensures forall e | e in errs :: e.index == Some(at) && e.field in {"url", "keyFile", "certFile", "compression"}
    ensures Reports(errs, at, "url") <==> !ValidURL(h.url, parse)
    ensures Reports(errs, at, "compression") <==> TrimSpace(h.compression) !in ["", "gzip"]
  {
    var urlErrs := ValidateURL(h.url, at, parse);
    var tlsErrs := [];
    if h.tls.Some? {
      tlsErrs := ValidateClientTLS(h.tls.value, at);
    }
    var compressionErrs := ValidateCompression(h.compression, at);
    errs := urlErrs + tlsErrs + compressionErrs;
    HTTPReports(urlErrs, tlsErrs, compressionErrs, at);
  }

  lemma HTTPReports(url: seq<FieldError>, tls: seq<FieldError>, compression: seq<FieldError>, at: nat)
    requires forall e | e in url :: e.index == Some(at) && e.field == "url"
    requires forall e | e in tls :: e.field in {"keyFile", "certFile"}
    requires forall e | e in compression :: e.index == Some(at) && e.field == "compression"
    ensures Reports(url + tls + compression, at, "url") <==> url != []
    ensures Reports(url + tls + compression, at, "compression") <==> compression != []
  {
    forall field | field in {"url", "compression"}
      ensures Reports(url + tls + compression, at, field) <==>
        Reports(url, at, field) || Reports(compression, at, field)
    {
      ReportsConcat(url, tls, at, field);
      ReportsConcat(url + tls, compression, at, field);
      NoOtherField(tls, at, {"keyFile", "certFile"}, field);
    }
    OnlyField(url, at, "url", "url");
    OnlyField(url, at, "url", "compression");
    OnlyField(compression, at, "compression", "url");
    OnlyField(compression, at, "compression", "compression");
  }

  method ValidateOutput(o: Output, at: nat, parse: Parser) returns (errs: seq<FieldError>)
    ensures errs == [] <==> ValidOutput(o, UrlCheck(parse))
    ensures forall e | e in errs :: e.index == Some(at)
    ensures Reports(errs, at, "deliveryMode") <==> o.mode !in ["", GUARANTEED, BEST_EFFORT]
    ensures Reports(errs, at, "") <==> o.http.None?
  {
    var modeErrs := [];
    if o.mode != "" && !KnownMode(o.mode) {
      modeErrs := [FieldError(NotSupported, Some(at), "deliveryMode")];
      assert modeErrs[0] in modeErrs;
    }
    var typeErrs := [];
    if o.http.None? {
      typeErrs := [FieldError(Required, Some(at), "")];
      assert typeErrs[0] in typeErrs;
    } else {
      typeErrs := ValidateOutputHTTP(o.http.value, at, parse);
    }
    errs := modeErrs + typeErrs;
    ReportsConcat(modeErrs, typeErrs, at, "deliveryMode");
    ReportsConcat(modeErrs, typeErrs, at, "");
  }

  /** The loop over the outputs: every invalid one is named, and the Guaranteed ones are counted. */
  method ValidateEach(outputs: seq<Output>, parse: Parser) returns (errs: seq<FieldError>, guaranteed: nat)
    ensures guaranteed == Count(outputs, IsGuaranteed)
    ensures errs == [] <==> forall i | 0 <= i < |outputs| :: ValidOutput(outputs[i], UrlCheck(parse))
    ensures forall i | 0 <= i < |outputs| && !ValidOutput(outputs[i], UrlCheck(parse)) :: Names(errs, i)
  {
    errs, guaranteed := [], 0;
    for i := 0 to |outputs|
      invariant guaranteed == Count(outputs[..i], IsGuaranteed)
      invariant Reported(errs, outputs, UrlCheck(parse), i)
    {
      var more := ValidateOutput(outputs[i], i, parse);
      ReportedStep(errs, more, outputs, UrlCheck(parse), i);
      errs := errs + more;
      assert outputs[..i + 1][..i] == outputs[..i];
      if outputs[i].mode == GUARANTEED {
        guaranteed := guaranteed + 1;
      }
    }
    assert outputs[..|outputs|] == outputs;
  }

  /** Validation of the list: no error exactly for valid lists, and every invalid output is named. */
  method ValidateOutputs(outputs: seq<Output>, parse: Parser) returns (errs: seq<FieldError>)
    ensures errs == [] <==> ValidOutputs(outputs, UrlCheck(parse))
    ensures forall i | 0 <= i < |outputs| && !ValidOutput(outputs[i], UrlCheck(parse)) :: Names(errs, i)
  {
    if |outputs| == 0 {
      return [FieldError(Required, None, "outputs")];
    }
    var guaranteed;
    errs, guaranteed := ValidateEach(outputs, parse);
    var modeErrs := ValidateModes(outputs, guaranteed);
    NamesGrow(errs, modeErrs, |outputs|);
    errs := errs + modeErrs;
  }

  /** The constraint on the modes of a non-empty list. */
  method ValidateModes(outputs: seq<Output>, guaranteed: nat) returns (errs: seq<FieldError>)
    requires |outputs| > 0 && guaranteed == Count(outputs, IsGuaranteed)
    ensures errs == [] <==> guaranteed == 1
  {
    errs := [];
    if |outputs| == 1 {
      SingleCount(outputs);
      if outputs[0].mode != GUARANTEED {
        errs := [FieldError(Invalid, Some(0), "deliveryMode")];
      }
    } else if guaranteed == 0 {
      errs := [FieldError(Invalid, None, "outputs")];
    } else if guaranteed > 1 {
      errs := [FieldError(Invalid, None, "outputs")];
    }
  }

  /** Some error points at output i. */
  predicate Names(errs: seq<FieldError>, i: nat) {
    exists k | 0 <= k < |errs| :: errs[k].index == Some(i)
  }

  lemma NamesGrow(errs: seq<FieldError>, more: seq<FieldError>, i: nat)
    ensures forall k: nat :: Names(errs, k) ==> Names(errs + more, k)
    ensures more != [] && (forall e | e in more :: e.index == Some(i)) ==> Names(errs + more, i)
  {
    forall k: nat | Names(errs, k) ensures Names(errs + more, k) {
      var j :| 0 <= j < |errs| && errs[j].index == Some(k);
      assert (errs + more)[j].index == Some(k);
    }
    if more != [] && (forall e | e in more :: e.index == Some(i)) {
      assert (errs + more)[|errs|] == more[0];
    }
  }

  /** There is an error for every invalid one and none otherwise, among the first n outputs. */
  ghost predicate Reported(errs: seq<FieldError>, outputs: seq<Output>, urlOk: string -> bool, n: nat)
    requires n <= |outputs|
  {
    && (errs == [] <==> forall k | 0 <= k < n :: ValidOutput(outputs[k], urlOk))
    && (forall k | 0 <= k < n && !ValidOutput(outputs[k], urlOk) :: Names(errs, k))
  }

  lemma ReportedStep(
    errs: seq<FieldError>, more: seq<FieldError>, outputs: seq<Output>, urlOk: string -> bool, n: nat)
    requires n < |outputs| && Reported(errs, outputs, urlOk, n)
    requires (more == [] <==> ValidOutput(outputs[n], urlOk)) && forall e | e in more :: e.index == Some(n)
    ensures Reported(errs + more, outputs, urlOk, n + 1)
  {
    NamesGrow(errs, more, n);
  }

  lemma SingleCount(outputs: seq<Output>)
    requires |outputs| == 1
    ensures Count(outputs, IsGuaranteed) == if IsGuaranteed(outputs[0]) then 1 else 0
  {
    assert outputs[..0] == [];
  }

  // ----- the pipeline -----

  /** Defaulting changes nothing the second time. */
  lemma DefaultingIsIdempotent(outputs: seq<Output>)
    ensures Defaulted(Defaulted(outputs)) == Defaulted(outputs)
  {
    var once := Defaulted(outputs);
    assert |once| == |outputs|;
    forall i | 0 <= i < |outputs| ensures Defaulted(once)[i] == once[i] {
      assert GUARANTEED != "" && BEST_EFFORT != "";
    }
  }

  /** What a user may write: a single output without a mode or Guaranteed; or several outputs,
      exactly one of them Guaranteed and the others BestEffort or without a mode. */
  predicate Writable(raw: seq<Output>, urlOk: string -> bool) {
    && (forall i | 0 <= i < |raw| :: raw[i].http.Some? && ValidHTTP(raw[i].http.value, urlOk))
    && if |raw| == 1 then raw[0].mode == "" || raw[0].mode == GUARANTEED
       else
         && (forall i | 0 <= i < |raw| :: raw[i].mode in ["", GUARANTEED, BEST_EFFORT])
         && Count(raw, IsGuaranteed) == 1
  }

  /** Defaulting never turns one of several outputs into a Guaranteed one. */
  lemma {:induction false} DefaultedCount(raw: seq<Output>, n: nat, k: nat)
    requires n != 1 && k <= |raw| && |raw| == n
    ensures Count(Defaulted(raw)[..k], IsGuaranteed) == Count(raw[..k], IsGuaranteed)
  {
    if k > 0 {
      DefaultedCount(raw, n, k - 1);
      assert Defaulted(raw)[..k][..k - 1] == Defaulted(raw)[..k - 1];
      assert raw[..k][..k - 1] == raw[..k - 1];
      assert BEST_EFFORT != GUARANTEED && "" != GUARANTEED;
    }
  }

  /** Defaulting followed by error-free validation accepts exactly the writable lists. */
  lemma PipelineAcceptsExactly(raw: seq<Output>, urlOk: string -> bool)
    ensures ValidOutputs(Defaulted(raw), urlOk) <==> Writable(raw, urlOk)
  {
    var d := Defaulted(raw);
    assert GUARANTEED != BEST_EFFORT && GUARANTEED != "" && BEST_EFFORT != "";
    forall i | 0 <= i < |raw|
      ensures ValidOutput(d[i], urlOk) <==>
        (raw[i].mode == "" || KnownMode(raw[i].mode)) && raw[i].http.Some? && ValidHTTP(raw[i].http.value, urlOk)
    {
      assert d[i] == DefaultMode(raw[i], |raw|);
    }
    if |raw| == 1 {
      SingleCount(d);
      assert d[0] == DefaultMode(raw[0], 1);
    } else {
      DefaultedCount(raw, |raw|, |raw|);
      assert d[..|raw|] == d && raw[..|raw|] == raw;
    }
  }

  // ----- selection by mode -----

  predicate Matches(o: Output, mode: string) { o.http.Some? && o.mode == mode }

  /** The positions of the first n outputs that a factory call for `mode` builds, in order. */
  function Selected(outputs: seq<Output>, mode: string, n: nat): (r: seq<nat>)
    requires n <= |outputs|
    ensures forall k | 0 <= k < |r| :: r[k] < n && Matches(outputs[r[k]], mode)
  {
    if n == 0 then []
    else Selected(outputs, mode, n - 1) + (if Matches(outputs[n - 1], mode) then [n - 1] else [])
  }

  /** The selection is in configuration order, without repetition, and complete. */
  lemma {:induction false} SelectionIsExact(outputs: seq<Output>, mode: string, n: nat)
    requires n <= |outputs|
    ensures forall k, l | 0 <= k < l < |Selected(outputs, mode, n)| ::
      Selected(outputs, mode, n)[k] < Selected(outputs, mode, n)[l]
    ensures forall i: nat | i < n :: i in Selected(outputs, mode, n) <==> Matches(outputs[i], mode)
  {
    if n > 0 {
      SelectionIsExact(outputs, mode, n - 1);
    }
  }

  lemma {:induction false} SelectedGuaranteed(outputs: seq<Output>, n: nat)
    requires n <= |outputs| && forall i | 0 <= i < |outputs| :: outputs[i].http.Some?
    ensures |Selected(outputs, GUARANTEED, n)| == Count(outputs[..n], IsGuaranteed)
  {
    if n > 0 {
      SelectedGuaranteed(outputs, n - 1);
      assert outputs[..n][..n - 1] == outputs[..n - 1];
    }
  }

  /** For a list that passed defaulting and validation, the two selections split the configured
      outputs: every position is in exactly one of them, and exactly one is Guaranteed. */
  lemma ValidatedSplit(raw: seq<Output>, urlOk: string -> bool)
    requires ValidOutputs(Defaulted(raw), urlOk)
    ensures var d := Defaulted(raw);
      var g, b := Selected(d, GUARANTEED, |d|), Selected(d, BEST_EFFORT, |d|);
      && |g| == 1
      && (forall i: nat | i < |raw| :: (i in g) != (i in b))
  {
    var d := Defaulted(raw);
    SelectionIsExact(d, GUARANTEED, |d|);
    SelectionIsExact(d, BEST_EFFORT, |d|);
    SelectedGuaranteed(d, |d|);
    assert d[..|d|] == d;
    forall i: nat | i < |raw| ensures Matches(d[i], GUARANTEED) != Matches(d[i], BEST_EFFORT) {
      assert d[i] == DefaultMode(raw[i], |raw|) && ValidOutput(d[i], urlOk);
      assert GUARANTEED != "" && BEST_EFFORT != "" && GUARANTEED != BEST_EFFORT;
    }
  }
}
