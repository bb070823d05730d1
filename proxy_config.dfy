/**
 * The proxy servlet's configuration and the two replacement texts it builds
 * once at start-up: the `securityDefinitions` block naming the proxy's two
 * query-string API keys, and the `security` requirement block naming both.
 */
module ProxyConfig {
  import opened Wrappers
  import opened Text
  import opened Patterns

  /** The upstream ESI server every request is forwarded to. */
  const UPSTREAM_HOST: string := "esi.tech.ccp.is"
  const UPSTREAM_PORT: int := 443
  const UPSTREAM_SCHEME: string := "https"

  const DEFAULT_PROXY_HOST: string := "localhost"
  const DEFAULT_PROXY_PORT: int := 8080
  const DEFAULT_KEY_NAME: string := "esiProxyKey"
  const DEFAULT_HASH_NAME: string := "esiProxyHash"
  const DEFAULT_APP_NAME: string := ""
  /** Three minutes, in milliseconds. */
  const DEFAULT_EXPIRY_WINDOW: int := 3 * 60 * 1000

  /**
   * proxyHost, proxyPort, the two credential parameter names, the
   * application path (`servletPath` in the servlet) and the token-refresh
   * window in milliseconds.
   */
  datatype Config = Config(
    proxyHost: string,
    proxyPort: int,
    keyName: string,
    hashName: string,
    appName: string,
    expiryWindow: int)

  function DefaultConfig(): Config {
    Config(DEFAULT_PROXY_HOST, DEFAULT_PROXY_PORT, DEFAULT_KEY_NAME, DEFAULT_HASH_NAME, DEFAULT_APP_NAME, DEFAULT_EXPIRY_WINDOW)
  }

  /** Text that a regex replacement copies literally: no '\' escapes and no '$' group references. */
  predicate PlainText(s: string) {
    '\\' !in s && '$' !in s
  }

  /** The configured strings that end up inside regex replacements are plain text. */
  predicate PlainConfig(cfg: Config) {
    PlainText(cfg.proxyHost) && PlainText(cfg.keyName) && PlainText(cfg.hashName) && PlainText(cfg.appName)
  }

  /** The `securityDefinitions` replacement: one query-string API key per credential parameter. */
  function SecurityDefinition(cfg: Config): string {
    "\"securityDefinitions\":{ \"" + cfg.keyName + "\" : { \"type\" : \"apiKey\", \"name\" : \"" + cfg.keyName
    + "\", \"in\" : \"query\"}, \"" + cfg.hashName + "\" : { \"type\" : \"apiKey\", \"name\" : \"" + cfg.hashName + "\", \"in\" : \"query\"}}"
  }

  /** The `security` replacement as the servlet writes it: brackets escaped for the regex replacement. */
  function SecurityReplacementSource(cfg: Config): string {
    "\"security\":[{\"" + cfg.keyName + "\":\\[\\], \"" + cfg.hashName + "\":\\[\\]\\}\\]"
  }

  /** The text that actually lands in the document: both API keys required, with empty scope lists. */
  function SecurityLiteral(cfg: Config): string {
    "\"security\":[{\"" + cfg.keyName + "\":[], \"" + cfg.hashName + "\":[]}]"
  }

  /** An escaped pair of brackets reads as the brackets. */
  lemma ExpandBrackets(y: string, groups: seq<string>)
    requires |groups| >= 1
    requires Expand(y, groups).Some?
    ensures Expand("\\[\\]" + y, groups) == Some("[]" + Expand(y, groups).value)
  {
    var t := Expand(y, groups).value;
    var inner := ['\\', ']'] + y;
    assert "\\[\\]" + y == ['\\', '['] + inner;
    ExpandEscaped(']', y, groups);
    assert Expand(inner, groups) == Some([']'] + t);
    ExpandEscaped('[', inner, groups);
    assert Expand(['\\', '['] + inner, groups) == Some(['['] + ([']'] + t));
    assert ['['] + ([']'] + t) == "[]" + t;
  }

  /** The escaped closing `]}]` reads as the brackets and brace. */
  lemma ExpandClosing(groups: seq<string>)
    requires |groups| >= 1
    ensures Expand("\\[\\]\\}\\]", groups) == Some("[]}]")
  {
    var e: string := [];
    var last := ['\\', ']'] + e;
    var brace := ['\\', '}'] + last;
    assert Expand(e, groups) == Some([]);
    ExpandEscaped(']', e, groups);
    assert [']'] + e == "]";
    assert Expand(last, groups) == Some("]");
    ExpandEscaped('}', last, groups);
    assert ['}'] + "]" == "}]";
    assert Expand(brace, groups) == Some("}]");
    ExpandBrackets(brace, groups);
    assert "\\[\\]\\}\\]" == "\\[\\]" + brace;
    assert "[]" + "}]" == "[]}]";
  }

  lemma PlainConcat(a: string, b: string)
    requires PlainText(a) && PlainText(b)
    ensures PlainText(a + b)
  {
    forall i | 0 <= i < |a + b|
      ensures (a + b)[i] != '\\' && (a + b)[i] != '$'
    {
      if i < |a| {
        assert (a + b)[i] == a[i];
      } else {
        assert (a + b)[i] == b[i - |a|];
      }
    }
  }

  lemma PlainSecurityDefinition(cfg: Config)
    requires PlainText(cfg.keyName) && PlainText(cfg.hashName)
    ensures PlainText(SecurityDefinition(cfg))
  {
    var k, h := cfg.keyName, cfg.hashName;
    var a: string := "\"securityDefinitions\":{ \"";
    var b: string := "\" : { \"type\" : \"apiKey\", \"name\" : \"";
    var c: string := "\", \"in\" : \"query\"}, \"";
    var d: string := "\", \"in\" : \"query\"}}";
    PlainDefinitionPieces();
    PlainQueryPieces();
    assert SecurityDefinition(cfg) == a + k + b + k + c + h + b + h + d;
    PlainConcat(a, k);
    PlainConcat(a + k, b);
    PlainConcat(a + k + b, k);
    PlainConcat(a + k + b + k, c);
    PlainConcat(a + k + b + k + c, h);
    PlainConcat(a + k + b + k + c + h, b);
    PlainConcat(a + k + b + k + c + h + b, h);
    PlainConcat(a + k + b + k + c + h + b + h, d);
  }

  /** The fixed text around the key names in the definitions block holds no replacement metacharacter. */
  lemma PlainDefinitionPieces()
    ensures PlainText("\"securityDefinitions\":{ \"")
    ensures PlainText("\" : { \"type\" : \"apiKey\", \"name\" : \"")
  {
    PlainChars("\"securityDefinitions\":{ \"");
    PlainChars("\" : { \"type\" : \"apiKey\", \"name\" : \"");
  }

  lemma PlainQueryPieces()
    ensures PlainText("\", \"in\" : \"query\"}, \"")
    ensures PlainText("\", \"in\" : \"query\"}}")
  {
    PlainChars("\", \"in\" : \"query\"}, \"");
    PlainChars("\", \"in\" : \"query\"}}");
  }

  /** Plain text, checked character by character. */
  lemma PlainChars(s: string)
    requires forall i :: 0 <= i < |s| ==> s[i] != '\\' && s[i] != '$'
    ensures PlainText(s)
  {
  }

  /** The two security texts as plain chunks around the escaped (respectively bare) brackets. */
  lemma SecurityShape(cfg: Config)
    ensures var first := "\"security\":[{\"" + cfg.keyName + "\":";
      var second := ", \"" + cfg.hashName + "\":";
      SecurityReplacementSource(cfg) == first + ("\\[\\]" + (second + "\\[\\]\\}\\]"))
      && SecurityLiteral(cfg) == first + ("[]" + (second + "[]}]"))
  {
    var k, h := cfg.keyName, cfg.hashName;
    var head: string := "\"security\":[{\"";
    var colon: string := "\":";
    var sep: string := ", \"";
    var close: string := "\\[\\]\\}\\]";
    var brackets: string := "\\[\\]";
    assert "\":\\[\\], \"" == colon + brackets + sep;
    assert "\":\\[\\]\\}\\]" == colon + close;
    assert "\":[], \"" == colon + "[]" + sep;
    assert "\":[]}]" == colon + "[]}]";
  }

  /**
   * The escaped `security` replacement stands for exactly the intended
   * literal once `appendReplacement` reads it, whatever the match.
   */
  lemma SecurityReplacementExpands(cfg: Config, groups: seq<string>)
    requires |groups| >= 1
    requires PlainText(cfg.keyName) && PlainText(cfg.hashName)
    ensures Expand(SecurityReplacementSource(cfg), groups) == Some(SecurityLiteral(cfg))
  {
    var first := "\"security\":[{\"" + cfg.keyName + "\":";
    var second := ", \"" + cfg.hashName + "\":";
    var close: string := "\\[\\]\\}\\]";
    PlainConcat("\"security\":[{\"", cfg.keyName);
    PlainConcat("\"security\":[{\"" + cfg.keyName, "\":");
    PlainConcat(", \"", cfg.hashName);
    PlainConcat(", \"" + cfg.hashName, "\":");
    SecurityShape(cfg);
    ExpandClosing(groups);
    ExpandPlainPrefix(second, close, groups);
    ExpandBrackets(second + close, groups);
    ExpandPlainPrefix(first, "\\[\\]" + (second + close), groups);
  }

  /** Every other replacement the rewriter builds from plain configuration stands for itself. */
  lemma PlainReplacement(r: string, groups: seq<string>)
    requires |groups| >= 1
    requires PlainText(r)
    ensures Expand(r, groups) == Some(r)
  {
    ExpandPlain(r, groups);
  }

  /** The default configuration is plain, so its security block reads as intended. */
  lemma DefaultSecurityLiteral()
    ensures PlainConfig(DefaultConfig())
    ensures Expand(SecurityReplacementSource(DefaultConfig()), [""]) == Some(SecurityLiteral(DefaultConfig()))
  {
    var d := DefaultConfig();
    assert PlainText(d.proxyHost) && PlainText(d.keyName) && PlainText(d.hashName) && PlainText(d.appName) by {
      PlainWord("localhost");
      PlainWord("esiProxyKey");
      PlainWord("esiProxyHash");
    }
    SecurityReplacementExpands(d, [""]);
  }

  /** A word of letters is plain text. */
  lemma PlainWord(s: string)
    requires forall i :: 0 <= i < |s| ==> 'a' <= s[i] <= 'z' || 'A' <= s[i] <= 'Z'
    ensures PlainText(s)
  {
  }
}
