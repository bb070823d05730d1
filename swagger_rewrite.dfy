/**
 * The rewriting of the upstream `swagger.json` document: the response body
 * is read line by line (terminators dropped), then five substitutions are
 * applied in order — host, basePath (only with an application path),
 * schemes, securityDefinitions (first match each), and every `security`
 * block — and the result is written back, compressed again when the
 * upstream body was gzip-encoded.
 */
module SwaggerRewrite {
  import opened Wrappers
  import opened Text
  import opened Patterns
  import opened ProxyConfig
  import opened LineReader

  // ---------------------------------------------------------------------------
  // find / appendReplacement / appendTail
  // ---------------------------------------------------------------------------

  /**
   * One `if (matcher.find()) appendReplacement(...); appendTail(...)` step:
   * the first match is replaced by its expanded replacement text, the rest of
   * the text is copied. None where `appendReplacement` throws.
   */
  function ReplaceFirst(p: Matcher, s: string, replacement: Match -> string): Option<string>
  {
    match Find(p, s, 0)
    case None => Some(s)
    case Some(m) =>
      match Expand(replacement(m), m.groups)
      case None => None
      case Some(t) => Some(s[..m.start] + t + s[m.end..])
  }

  /**
   * The text from `from` on as the `while (matcher.find())` loop leaves it:
   * each successive match replaced, the text between matches copied.
   */
  function ReplaceAllFrom(p: Matcher, s: string, from: nat, replacement: string): Option<string>
    requires from <= |s|
    decreases |s| - from
  {
    match Find(p, s, from)
    case None => Some(s[from..])
    case Some(m) =>
      match Expand(replacement, m.groups)
      case None => None
      case Some(t) =>
        match ReplaceAllFrom(p, s, m.end, replacement)
        case None => None
        case Some(rest) => Some(s[from..m.start] + t + rest)
  }

  function ReplaceAll(p: Matcher, s: string, replacement: string): Option<string> {
    ReplaceAllFrom(p, s, 0, replacement)
  }

  /** The successive matches a left-to-right scan from `from` finds. */
  function Matches(p: Matcher, s: string, from: nat): (ms: seq<Match>)
    requires from <= |s|
    ensures forall i :: 0 <= i < |ms| ==> from <= ms[i].start < ms[i].end <= |s|
    ensures forall i, j :: 0 <= i < j < |ms| ==> ms[i].end <= ms[j].start
    decreases |s| - from
  {
    match Find(p, s, from)
    case None => []
    case Some(m) => [m] + Matches(p, s, m.end)
  }

  function Prepend(prefix: string, r: Option<string>): Option<string> {
    match r
    case None => None
    case Some(t) => Some(prefix + t)
  }

  lemma PrependPrepend(a: string, b: string, r: Option<string>)
    ensures Prepend(a, Prepend(b, r)) == Prepend(a + b, r)
  {
    if r.Some? {
      assert a + (b + r.value) == (a + b) + r.value;
    }
  }

  lemma PrependEmpty(r: Option<string>)
    ensures Prepend("", r) == r
  {
    if r.Some? {
      assert "" + r.value == r.value;
    }
  }

  /** `while (matcher.find()) appendReplacement(...); appendTail(...)`. */
  method ReplaceEvery(p: Matcher, s: string, replacement: string) returns (out: Option<string>)
    ensures out == ReplaceAll(p, s, replacement)
  {
    var buf := "";
    var from := 0;
    PrependEmpty(ReplaceAll(p, s, replacement));
    while true
      invariant from <= |s|
      invariant Prepend(buf, ReplaceAllFrom(p, s, from, replacement)) == ReplaceAll(p, s, replacement)
      decreases |s| - from
    {
      var m := Find(p, s, from);
      if m.None? {
        break;
      }
      var t := Expand(replacement, m.value.groups);
      if t.None? {
        return None;
      }
      assert ReplaceAllFrom(p, s, from, replacement)
          == Prepend(s[from..m.value.start] + t.value, ReplaceAllFrom(p, s, m.value.end, replacement));
      PrependPrepend(buf, s[from..m.value.start] + t.value, ReplaceAllFrom(p, s, m.value.end, replacement));
      buf := buf + (s[from..m.value.start] + t.value);
      from := m.value.end;
    }
    out := Some(buf + s[from..]);
  }

  // ---------------------------------------------------------------------------
  // Properties of the steps
  // ---------------------------------------------------------------------------

  /**
   * Only the first match is touched: the text before it holds no match and is
   * kept, and the text after it is kept as it was, later matches included.
   */
  lemma ReplaceFirstKeepsRest(p: Matcher, s: string, replacement: Match -> string)
    requires Find(p, s, 0).Some?
    requires Expand(replacement(Find(p, s, 0).value), Find(p, s, 0).value.groups).Some?
    ensures var m := Find(p, s, 0).value;
      var out := ReplaceFirst(p, s, replacement).value;
      (forall k: nat :: k < m.start ==> p(s, k).None?)
      && StartsWith(out, s[..m.start]) && EndsWith(out, s[m.end..])
  {
  }

  /** Every place the pattern matches is inside one of the matches the scan replaces: the `i`-th. */
  lemma {:induction false} EveryMatchReplaced(p: Matcher, s: string, from: nat, k: nat) returns (i: nat)
    requires from <= k <= |s|
    requires p(s, k).Some?
    ensures i < |Matches(p, s, from)| && Matches(p, s, from)[i].start <= k < Matches(p, s, from)[i].end
    decreases |s| - from
  {
    FindCovers(p, s, from, k);
    var m := Find(p, s, from).value;
    var rest := Matches(p, s, m.end);
    var ms := Matches(p, s, from);
    assert ms == [m] + rest;
    if k >= m.end {
      var j := EveryMatchReplaced(p, s, m.end, k);
      assert ms[j + 1] == rest[j];
      i := j + 1;
    } else {
      assert ms[0] == m;
      i := 0;
    }
  }

  /** A match at `k` means the scan from any `from <= k` finds one starting at or before `k`. */
  lemma FindCovers(p: Matcher, s: string, from: nat, k: nat)
    requires from <= k && p(s, k).Some?
    ensures Find(p, s, from).Some? && Find(p, s, from).value.start <= k
  {
  }

  /** Where the replacement needs no group, the scan's output is the gaps and the replacement, alternating. */
  function Spliced(s: string, from: nat, ms: seq<Match>, t: string): string
    requires from <= |s|
    requires forall i :: 0 <= i < |ms| ==> from <= ms[i].start < ms[i].end <= |s|
    requires forall i, j :: 0 <= i < j < |ms| ==> ms[i].end <= ms[j].start
    decreases |ms|
  {
    if |ms| == 0 then s[from..] else s[from..ms[0].start] + t + Spliced(s, ms[0].end, ms[1..], t)
  }

  /** A replacement that stands for the same text whatever the match: every match is replaced by that text. */
  lemma {:induction false} ReplaceAllSpliced(p: Matcher, s: string, from: nat, r: string, t: string)
    requires from <= |s|
    requires forall groups: seq<string> | |groups| >= 1 :: Expand(r, groups) == Some(t)
    ensures ReplaceAllFrom(p, s, from, r) == Some(Spliced(s, from, Matches(p, s, from), t))
    decreases |s| - from
  {
    match Find(p, s, from)
    case None =>
    case Some(m) =>
      ReplaceAllSpliced(p, s, m.end, r, t);
      var ms := Matches(p, s, from);
      assert ms[0] == m && ms[1..] == Matches(p, s, m.end);
  }

  /** A text without matches comes out of either kind of step unchanged. */
  lemma NoMatchUnchanged(p: Matcher, s: string, replacement: Match -> string, t: string)
    requires Find(p, s, 0).None?
    ensures ReplaceFirst(p, s, replacement) == Some(s)
    ensures ReplaceAll(p, s, t) == Some(s)
    ensures Matches(p, s, 0) == []
  {
  }

  // ---------------------------------------------------------------------------
  // The replacement texts
  // ---------------------------------------------------------------------------

  /** `"host": "<proxyHost>"`, with `:<port>` after the host unless the port is 80 or 443. */
  function HostReplacement(cfg: Config): string {
    var withHost := "\"host\": \"" + cfg.proxyHost;
    (if cfg.proxyPort != 80 && cfg.proxyPort != 443 then withHost + ":" + DecimalString(cfg.proxyPort) else withHost) + "\""
  }

  /** `"basePath":"/<application path><upstream base path>"`. */
  function BasePathReplacement(appName: string, basePath: string): string {
    "\"basePath\":\"/" + appName + basePath + "\""
  }

  function BasePathFor(appName: string, m: Match): string {
    BasePathReplacement(appName, if |m.groups| >= 2 then m.groups[1] else "")
  }

  /** `"schemes": ["https"]` on port 443, `"schemes": ["http"]` on any other port. */
  function SchemesReplacement(port: int): string {
    "\"schemes\": [" + (if port == 443 then "\"https\"" else "\"http\"") + "]"
  }

  // ---------------------------------------------------------------------------
  // Reading a replacement back with the pattern it replaced
  // ---------------------------------------------------------------------------

  /** On ports 80 and 443 the new host entry is itself a HOST match capturing the proxy host. */
  lemma HostReadsBack(cfg: Config)
    requires cfg.proxyPort == 80 || cfg.proxyPort == 443
    requires |cfg.proxyHost| >= 1 && forall k :: 0 <= k < |cfg.proxyHost| ==> HostChar(cfg.proxyHost[k])
    ensures var r := HostReplacement(cfg);
      HostMatch(r, 0) == Some(Match(0, |r|, [r, cfg.proxyHost]))
  {
    var r := HostReplacement(cfg);
    var h := cfg.proxyHost;
    var head: string := "\"host\": \"";
    assert r == head + h + "\"";
    assert r[..6] == "\"host\"" by { assert r[..6] == head[..6]; }
    assert r[6] == head[6] && r[7] == head[7] && r[8] == head[8];
    assert r[9..|r| - 1] == h;
    MiddleChars(head, h, "\"", HostChar);
    QuotedValueReads(r, "host", 1, HostChar);
    assert r[0..|r|] == r;
  }

  /** On any other port the `:<port>` suffix is outside the HOST class, so the new entry no longer matches. */
  lemma HostWithPortDoesNotReadBack(cfg: Config)
    requires cfg.proxyPort != 80 && cfg.proxyPort != 443
    requires forall k :: 0 <= k < |cfg.proxyHost| ==> HostChar(cfg.proxyHost[k])
    ensures HostMatch(HostReplacement(cfg), 0).None?
  {
    var r := HostReplacement(cfg);
    var h := cfg.proxyHost;
    var head: string := "\"host\": \"";
    var tail := ":" + DecimalString(cfg.proxyPort) + "\"";
    assert r == head + h + tail;
    assert r[..6] == "\"host\"" by { assert r[..6] == head[..6]; }
    assert r[6] == head[6] && r[7] == head[7] && r[8] == head[8];
    assert r[9 + |h|] == tail[0];
    MiddleChars(head, h, tail, HostChar);
    HostValueStops(r, |h|);
  }

  /** `"host": "`, then `n` HOST characters and a colon: HOST finds no closing quote. */
  lemma HostValueStops(r: string, n: nat)
    requires 9 + n < |r|
    requires r[..6] == "\"host\"" && r[6] == ':' && r[7] == ' ' && r[8] == '"'
    requires forall k :: 9 <= k < 9 + n ==> HostChar(r[k])
    requires r[9 + n] == ':'
    ensures HostMatch(r, 0).None?
  {
    QuotedValueAt(r, "host", 1, HostChar);
    SkipWhileRun(r, 9, n, HostChar);
  }

  /** The new base path entry is itself a BASEPATH match capturing "/" + application path + upstream path. */
  lemma BasePathReadsBack(appName: string, basePath: string)
    requires forall k :: 0 <= k < |appName| ==> BasePathChar(appName[k])
    requires |basePath| >= 1 && forall k :: 0 <= k < |basePath| ==> BasePathChar(basePath[k])
    ensures var r := BasePathReplacement(appName, basePath);
      BasePathMatch(r, 0) == Some(Match(0, |r|, [r, "/" + appName + basePath]))
  {
    var v := "/" + appName + basePath;
    forall k | 0 <= k < |v| ensures BasePathChar(v[k]) {
      if k == 0 {
      } else if k <= |appName| {
        assert v[k] == appName[k - 1];
      } else {
        assert v[k] == basePath[k - 1 - |appName|];
      }
    }
    var r := BasePathReplacement(appName, basePath);
    var head: string := "\"basePath\":\"";
    assert r == head + v + "\"";
    assert r[..10] == "\"basePath\"" by { assert r[..10] == head[..10]; }
    assert r[10] == head[10] && r[11] == head[11];
    assert r[12..|r| - 1] == v;
    MiddleChars(head, v, "\"", BasePathChar);
    QuotedValueReads(r, "basePath", 0, BasePathChar);
    assert r[0..|r|] == r;
  }

  /** The new schemes entry names https exactly on port 443, and only then matches SCHEMES again. */
  lemma SchemesFollowPort(port: int)
    ensures EndsWith(SchemesReplacement(port), "[\"https\"]") <==> port == 443
    ensures EndsWith(SchemesReplacement(port), "[\"http\"]") <==> port != 443
    ensures SchemesMatch(SchemesReplacement(port), 0).Some? <==> port == 443
  {
    if port == 443 {
      SchemesHttps();
    } else {
      SchemesHttp(port);
    }
  }

  lemma SchemesHttps()
    ensures EndsWith(SchemesReplacement(443), "[\"https\"]")
    ensures !EndsWith(SchemesReplacement(443), "[\"http\"]")
    ensures SchemesMatch(SchemesReplacement(443), 0).Some?
  {
    assert SchemesReplacement(443) == "\"schemes\": [\"https\"]";
    HttpsText(SchemesReplacement(443));
  }

  lemma HttpsText(r: string)
    requires r == "\"schemes\": [\"https\"]"
    ensures EndsWith(r, "[\"https\"]") && !EndsWith(r, "[\"http\"]")
    ensures SchemesMatch(r, 0).Some?
  {
    assert r[11..20] == "[\"https\"]";
    assert r[|r| - 8..][0] == r[12] == '"';
    SchemesReads(r);
  }

  /** `"schemes": ` and then `["https"]` or anything else, read by SCHEMES. */
  lemma SchemesReads(r: string)
    requires |r| >= 11 && r[..9] == "\"schemes\"" && r[9] == ':' && r[10] == ' '
    requires 11 == |r| || r[11] != ' '
    ensures SchemesMatch(r, 0).Some? <==> LitAt(r, 11, "[\"https\"]")
  {
    KeyColonReads(r, "schemes", 0);
    SkipSpacesRun(r, 10, 1);
  }

  lemma SchemesHttp(port: int)
    requires port != 443
    ensures !EndsWith(SchemesReplacement(port), "[\"https\"]")
    ensures EndsWith(SchemesReplacement(port), "[\"http\"]")
    ensures SchemesMatch(SchemesReplacement(port), 0).None?
  {
    assert SchemesReplacement(port) == "\"schemes\": [\"http\"]";
    HttpText(SchemesReplacement(port));
  }

  lemma HttpText(r: string)
    requires r == "\"schemes\": [\"http\"]"
    ensures !EndsWith(r, "[\"https\"]") && EndsWith(r, "[\"http\"]")
    ensures SchemesMatch(r, 0).None?
  {
    assert r[11..] == "[\"http\"]";
    assert |r| == 19;
    assert r[|r| - 9..][0] == r[10] == ' ';
    SchemesReads(r);
  }

  // ---------------------------------------------------------------------------
  // The rewrite of a swagger document
  // ---------------------------------------------------------------------------

  /** The host entry now names the proxy. */
  function HostStep(cfg: Config, s: string): Option<string> {
    ReplaceFirst(HostMatch, s, m => HostReplacement(cfg))
  }

  /** The base path gains the application path in front, when one is configured. */
  function BasePathStep(cfg: Config, s: string): Option<string> {
    if |cfg.appName| > 0 then ReplaceFirst(BasePathMatch, s, m => BasePathFor(cfg.appName, m)) else Some(s)
  }

  /** The schemes the proxy itself serves. */
  function SchemesStep(cfg: Config, s: string): Option<string> {
    ReplaceFirst(SchemesMatch, s, m => SchemesReplacement(cfg.proxyPort))
  }

  /** The OAuth security definitions give way to the proxy's two API keys. */
  function SecDefStep(cfg: Config, s: string): Option<string> {
    ReplaceFirst(SecDefMatch, s, m => SecurityDefinition(cfg))
  }

  /** Every OAuth security requirement gives way to a requirement of both API keys. */
  function SecurityStep(cfg: Config, s: string): Option<string> {
    ReplaceAll(SecurityMatch, s, SecurityReplacementSource(cfg))
  }

  /** The five steps in order; the first that cannot read its replacement fails the rewrite. */
  function Rewrite(cfg: Config, doc: string): Option<string> {
    match HostStep(cfg, doc)
    case None => None
    case Some(s1) =>
      match BasePathStep(cfg, s1)
      case None => None
      case Some(s2) =>
        match SchemesStep(cfg, s2)
        case None => None
        case Some(s3) =>
          match SecDefStep(cfg, s3)
          case None => None
          case Some(s4) => SecurityStep(cfg, s4)
  }

  /** A document none of the five patterns matches passes through untouched. */
  lemma RewriteWithoutMatches(cfg: Config, doc: string)
    requires Find(HostMatch, doc, 0).None? && Find(BasePathMatch, doc, 0).None?
    requires Find(SchemesMatch, doc, 0).None? && Find(SecDefMatch, doc, 0).None?
    requires Find(SecurityMatch, doc, 0).None?
    ensures Rewrite(cfg, doc) == Some(doc)
  {
    NoMatchUnchanged(SecurityMatch, doc, m => "", SecurityReplacementSource(cfg));
  }

  lemma PlainDigits(s: string)
    requires AllDigits(s)
    ensures PlainText(s)
  {
    assert forall i :: 0 <= i < |s| ==> IsDigit(s[i]);
  }

  lemma PlainHostReplacement(cfg: Config)
    requires PlainText(cfg.proxyHost)
    ensures PlainText(HostReplacement(cfg))
  {
    var withHost := "\"host\": \"" + cfg.proxyHost;
    PlainConcat("\"host\": \"", cfg.proxyHost);
    if cfg.proxyPort != 80 && cfg.proxyPort != 443 {
      var digits := DecimalString(cfg.proxyPort);
      if cfg.proxyPort < 0 {
        PlainDigits(NatDigits(-cfg.proxyPort));
        PlainConcat("-", NatDigits(-cfg.proxyPort));
      } else {
        PlainDigits(NatDigits(cfg.proxyPort));
      }
      PlainConcat(withHost, ":");
      PlainConcat(withHost + ":", digits);
      PlainConcat(withHost + ":" + digits, "\"");
    } else {
      PlainConcat(withHost, "\"");
    }
  }

  lemma PlainBasePathReplacement(appName: string, basePath: string)
    requires PlainText(appName)
    requires forall k :: 0 <= k < |basePath| ==> BasePathChar(basePath[k])
    ensures PlainText(BasePathReplacement(appName, basePath))
  {
    assert PlainText(basePath);
    PlainConcat("\"basePath\":\"/", appName);
    PlainConcat("\"basePath\":\"/" + appName, basePath);
    PlainConcat("\"basePath\":\"/" + appName + basePath, "\"");
  }

  lemma HostStepPlain(cfg: Config, s: string)
    requires PlainText(cfg.proxyHost)
    ensures HostStep(cfg, s).Some?
  {
    PlainHostReplacement(cfg);
    match Find(HostMatch, s, 0)
    case None =>
    case Some(m) => ExpandPlain(HostReplacement(cfg), m.groups);
  }

  lemma BasePathStepPlain(cfg: Config, s: string)
    requires PlainText(cfg.appName)
    ensures BasePathStep(cfg, s).Some?
  {
    if |cfg.appName| > 0 {
      match Find(BasePathMatch, s, 0)
      case None =>
      case Some(m) =>
        PlainBasePathReplacement(cfg.appName, m.groups[1]);
        ExpandPlain(BasePathFor(cfg.appName, m), m.groups);
    }
  }

  lemma SchemesStepPlain(cfg: Config, s: string)
    ensures SchemesStep(cfg, s).Some?
  {
    match Find(SchemesMatch, s, 0)
    case None =>
    case Some(m) =>
      var r := SchemesReplacement(cfg.proxyPort);
      assert PlainText(r) by {
        assert PlainText("\"schemes\": [") && PlainText("\"https\"") && PlainText("\"http\"") && PlainText("]");
        var middle := if cfg.proxyPort == 443 then "\"https\"" else "\"http\"";
        PlainConcat("\"schemes\": [", middle);
        PlainConcat("\"schemes\": [" + middle, "]");
      }
      ExpandPlain(r, m.groups);
  }

  lemma SecDefStepPlain(cfg: Config, s: string)
    requires PlainText(cfg.keyName) && PlainText(cfg.hashName)
    ensures SecDefStep(cfg, s).Some?
  {
    PlainSecurityDefinition(cfg);
    match Find(SecDefMatch, s, 0)
    case None =>
    case Some(m) => ExpandPlain(SecurityDefinition(cfg), m.groups);
  }

  lemma SecurityStepPlain(cfg: Config, s: string)
    requires PlainText(cfg.keyName) && PlainText(cfg.hashName)
    ensures SecurityStep(cfg, s) == Some(Spliced(s, 0, Matches(SecurityMatch, s, 0), SecurityLiteral(cfg)))
  {
    forall groups: seq<string> | |groups| >= 1
      ensures Expand(SecurityReplacementSource(cfg), groups) == Some(SecurityLiteral(cfg))
    {
      SecurityReplacementExpands(cfg, groups);
    }
    ReplaceAllSpliced(SecurityMatch, s, 0, SecurityReplacementSource(cfg), SecurityLiteral(cfg));
  }

  /**
   * With plain configuration every replacement reads as itself, so the
   * rewrite never fails, and each OAuth security requirement in the
   * document after the first four steps becomes the proxy's requirement.
   */
  lemma RewritePlain(cfg: Config, doc: string)
    requires PlainConfig(cfg)
    ensures Rewrite(cfg, doc).Some?
    ensures var s1 := HostStep(cfg, doc).value;
      var s2 := BasePathStep(cfg, s1).value;
      var s3 := SchemesStep(cfg, s2).value;
      var s4 := SecDefStep(cfg, s3).value;
      Rewrite(cfg, doc) == Some(Spliced(s4, 0, Matches(SecurityMatch, s4, 0), SecurityLiteral(cfg)))
  {
    HostStepPlain(cfg, doc);
    var s1 := HostStep(cfg, doc).value;
    BasePathStepPlain(cfg, s1);
    var s2 := BasePathStep(cfg, s1).value;
    SchemesStepPlain(cfg, s2);
    var s3 := SchemesStep(cfg, s2).value;
    SecDefStepPlain(cfg, s3);
    var s4 := SecDefStep(cfg, s3).value;
    SecurityStepPlain(cfg, s4);
  }

  // ---------------------------------------------------------------------------
  // Copying the upstream response to the client
  // ---------------------------------------------------------------------------

  type Bytes = seq<bv8>

  /**
   * The platform character set and the gzip streams, which are not part of
   * this model: decoding and encoding text, compressing, and decompressing,
   * which fails on a body that is not gzip data.
   */
  datatype Codec = Codec(
    decode: Bytes -> string,
    encode: string -> Bytes,
    gzip: Bytes -> Bytes,
    gunzip: Bytes -> Option<Bytes>)

  /** Decoding undoes encoding and decompressing undoes compressing. */
  ghost predicate Lossless(codec: Codec) {
    (forall t :: codec.decode(codec.encode(t)) == t)
    && (forall b :: codec.gunzip(codec.gzip(b)) == Some(b))
  }

  /** The upstream body, when there is one, and its first Content-Encoding header, when there is one. */
  datatype UpstreamResponse = UpstreamResponse(entity: Option<Bytes>, contentEncoding: Option<string>)

  /**
   * Why a swagger document could not be copied: the upstream sent a body
   * without a Content-Encoding header, declared gzip but sent something
   * else, or a replacement text could not be read by the regex engine.
   */
  datatype CopyError = MissingContentEncoding | BadGzip | BadReplacement

  /**
   * What happens to the response body: copied by the generic proxy as it
   * is, nothing written, the rewritten document written, or a failure.
   */
  datatype CopyOutcome = PassThrough | NothingWritten | Written(body: Bytes) | CopyFailed(error: CopyError)

  predicate UsesGzip(response: UpstreamResponse)
    requires response.contentEncoding.Some?
  {
    response.contentEncoding.value == "gzip"
  }

  /** The document text the upstream sent, once decompressed and decoded. */
  function UpstreamText(response: UpstreamResponse, codec: Codec): Option<string>
    requires response.entity.Some? && response.contentEncoding.Some?
  {
    if UsesGzip(response) then
      match codec.gunzip(response.entity.value)
      case None => None
      case Some(raw) => Some(codec.decode(raw))
    else Some(codec.decode(response.entity.value))
  }

  /** The response body the servlet writes for a request, swagger or not. */
  function CopyResponse(cfg: Config, swaggerConfig: bool, response: UpstreamResponse, codec: Codec): CopyOutcome {
    if !swaggerConfig then PassThrough
    else if response.entity.None? then NothingWritten
    else if response.contentEncoding.None? then CopyFailed(MissingContentEncoding)
    else
      match UpstreamText(response, codec)
      case None => CopyFailed(BadGzip)
      case Some(text) =>
        match Rewrite(cfg, StripLineBreaks(text))
        case None => CopyFailed(BadReplacement)
        case Some(doc) =>
          var bytes := codec.encode(doc);
          Written(if UsesGzip(response) then codec.gzip(bytes) else bytes)
  }

  /**
   * Only swagger requests are rewritten; among them a body is always
   * written when the configuration is plain, the Content-Encoding header is
   * there and the body decompresses as it declares.
   */
  lemma CopyResponseCases(cfg: Config, swaggerConfig: bool, response: UpstreamResponse, codec: Codec)
    ensures CopyResponse(cfg, swaggerConfig, response, codec).PassThrough? <==> !swaggerConfig
    ensures CopyResponse(cfg, swaggerConfig, response, codec).NothingWritten? <==> swaggerConfig && response.entity.None?
    ensures CopyResponse(cfg, swaggerConfig, response, codec).CopyFailed?
      && CopyResponse(cfg, swaggerConfig, response, codec).error == MissingContentEncoding
      <==> swaggerConfig && response.entity.Some? && response.contentEncoding.None?
    ensures swaggerConfig && response.entity.Some? && response.contentEncoding.Some? && PlainConfig(cfg)
      && UpstreamText(response, codec).Some?
      ==> CopyResponse(cfg, swaggerConfig, response, codec).Written?
  {
    if swaggerConfig && response.entity.Some? && response.contentEncoding.Some? && PlainConfig(cfg) {
      match UpstreamText(response, codec)
      case None =>
      case Some(text) => RewritePlain(cfg, StripLineBreaks(text));
    }
  }

  /**
   * The client reading the written body the way the upstream body was sent
   * (decompressing exactly when the upstream declared gzip) gets the
   * rewritten document back.
   */
  lemma CopyResponseRoundTrip(cfg: Config, response: UpstreamResponse, codec: Codec)
    requires Lossless(codec)
    requires CopyResponse(cfg, true, response, codec).Written?
    ensures var body := CopyResponse(cfg, true, response, codec).body;
      var written := UpstreamResponse(Some(body), response.contentEncoding);
      UpstreamText(written, codec) == Rewrite(cfg, StripLineBreaks(UpstreamText(response, codec).value))
  {
    var doc := Rewrite(cfg, StripLineBreaks(UpstreamText(response, codec).value)).value;
    assert codec.decode(codec.encode(doc)) == doc;
    if UsesGzip(response) {
      assert codec.gunzip(codec.gzip(codec.encode(doc))) == Some(codec.encode(doc));
    }
  }
}
