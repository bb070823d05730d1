/**
 * The browser side of the remote services: reading times sent by the
 * server, the error value every failed call turns into, the address of the
 * proxy's own API description, and the cache of API clients by address.
 */
module Remote {
  import opened Wrappers
  import opened Text

  /**
   * `convertLongToTime`: a time in milliseconds, or null for a missing
   * value, zero (falsy) and the server's "unset" marker -1.
   */
  function ConvertLongToTime(obj: Option<int>): (r: Option<int>)
    ensures r.None? <==> obj.None? || obj.value == 0 || obj.value == -1
    ensures r.Some? ==> r.value == obj.value
  {
    var timeArg := if obj.None? || obj.value == 0 then -1 else obj.value;
    if timeArg == -1 then None else Some(timeArg)
  }

  /** The error object a service sends: either field may be missing. */
  datatype ErrorJson = ErrorJson(errorCode: Option<int>, errorMessage: Option<string>)

  /** `ProxyServiceError`. */
  datatype ProxyServiceError = ProxyServiceError(errorCode: int, errorMessage: string)

  /** `new ProxyServiceError(opt_json)`: a missing or falsy code is 0, a missing or falsy message ''. */
  function MakeError(optJson: Option<ErrorJson>): (e: ProxyServiceError)
    ensures optJson.None? || optJson.value.errorCode.None? ==> e.errorCode == 0
    ensures optJson.None? || optJson.value.errorMessage.None? ==> e.errorMessage == ""
  {
    var json := optJson.GetOr(ErrorJson(None, None));
    var code := if json.errorCode.None? || json.errorCode.value == 0 then 0 else json.errorCode.value;
    var message := if json.errorMessage.None? || |json.errorMessage.value| == 0 then "" else json.errorMessage.value;
    ProxyServiceError(code, message)
  }

  /** An error the server describes fully comes through unchanged. */
  lemma MakeErrorKeepsFields(code: int, message: string)
    ensures MakeError(Some(ErrorJson(Some(code), Some(message)))) == ProxyServiceError(code, message)
  {
  }

  /** The error the page reports when the server gave no description. */
  const INTERNAL_ERROR: ProxyServiceError := ProxyServiceError(0, "internal service error")

  /**
   * `handleRemoteResponse`: always throws; the value returned here is what
   * it throws, the response's own error when there is one.
   */
  function HandleRemoteResponse(obj: Option<ErrorJson>): (thrown: ProxyServiceError)
    ensures obj.None? ==> thrown == INTERNAL_ERROR
    ensures obj.Some? ==> thrown == MakeError(obj)
    ensures obj.Some? && obj.value.errorCode.Some? && obj.value.errorMessage.Some? ==>
      thrown == ProxyServiceError(obj.value.errorCode.value, obj.value.errorMessage.value)
  {
    if obj.Some? then MakeError(obj) else MakeError(Some(ErrorJson(Some(0), Some("internal service error"))))
  }

  const SWAGGER_PATH: string := "api/swagger.json"

  /** The text before the first `c`, or all of it. */
  function CutAt(s: string, c: char): (r: string)
    ensures c !in r
    ensures |r| <= |s| && r == s[..|r|]
    ensures c !in s ==> r == s
    ensures c in s ==> |r| < |s| && s[|r|] == c
  {
    var h := IndexOf(s, c);
    if h != -1 then s[..h] else s
  }

  /** `getUrlFromWindow`: the page address without its fragment or query, then the API description's path. */
  function GetUrlFromWindow(href: string): string {
    var noFragment := CutAt(href, '#');
    var noQuery := CutAt(noFragment, '?');
    noQuery + SWAGGER_PATH
  }

  /** The base is a prefix of the address and holds neither a '#' nor a '?'. */
  lemma UrlFromWindowBase(href: string)
    ensures var base := CutAt(CutAt(href, '#'), '?');
      && GetUrlFromWindow(href) == base + SWAGGER_PATH
      && '#' !in base && '?' !in base
      && base == href[..|base|]
  {
    var first := CutAt(href, '#');
    var base := CutAt(first, '?');
    assert base == first[..|base|];
    assert first == href[..|first|];
    assert forall c :: c in base ==> c in first;
  }

  /** An address that is already bare (no '#', no '?') is kept whole. */
  lemma BareUrlKept(href: string)
    requires '#' !in href && '?' !in href
    ensures GetUrlFromWindow(href) == href + SWAGGER_PATH
  {
  }

  /** An API client, built once for the address it talks to. */
  datatype Client = Client(url: string, serial: nat)

  /** The `SwaggerService`'s cache of clients by address. */
  class SwaggerService {
    var clients: map<string, Client>
    /** How many clients have been built. */
    var built: nat

    ghost predicate Valid()
      reads this
    {
      forall u :: u in clients ==> clients[u].url == u && clients[u].serial < built
    }

    constructor ()
      ensures Valid() && clients == map[] && built == 0
    {
      clients := map[];
      built := 0;
    }

    /**
     * `getSwagger`: the client for the address (the window's API address
     * when none is given), built only the first time the address is asked.
     */
    method GetSwagger(url: Option<string>, href: string) returns (client: Client)
      requires Valid()
      modifies this
      ensures Valid()
      ensures var key := if url.None? || url.value == "" then GetUrlFromWindow(href) else url.value;
        && client.url == key
        && (key in old(clients) ==> client == old(clients)[key] && clients == old(clients) && built == old(built))
        && (key !in old(clients) ==> client == Client(key, old(built)) && clients == old(clients)[key := client] && built == old(built) + 1)
    {
      var key := if url.None? || |url.value| == 0 then GetUrlFromWindow(href) else url.value;
      if key in clients {
        return clients[key];
      }
      client := Client(key, built);
      clients := clients[key := client];
      built := built + 1;
    }
  }
}
