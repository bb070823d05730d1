# ESI proxy — a Dafny model

The ESI proxy sits between EVE Swagger Interface clients and the upstream ESI
server (`esi.tech.ccp.is`). A client keeps a proxy access key: a numeric key id
and a hash. It sends both as query parameters. The proxy checks them against
its key store, refreshes the stored OAuth access token when it is about to
expire, strips the two parameters, and forwards the request with a
`Bearer` header. It also serves the upstream `swagger.json` rewritten to point
at itself. A small REST service lets a signed-in user create, list and delete
keys through an OAuth round trip, and an Angular front end drives it.

This project models that core and proves properties of the model:

| module | file | what it models |
|---|---|---|
| `Wrappers` | wrappers.dfy | `Option` |
| `Text` | text.dfy | Java/JavaScript string operations the core uses (`indexOf`, `split`/`join`, `trim`, `Long.valueOf`, 64-bit wrap-around) |
| `QueryParams` | query_params.dfy | the request's parameters as an insertion-ordered `LinkedHashMap` (a class), and the forwarded query string |
| `ProxyConfig` | proxy_config.dfy | the servlet's configuration and the security strings built in `initTarget` |
| `Patterns` | patterns.dfy | the five regular expressions of the swagger rewrite, written out as matchers (greedy and lazy), and `Matcher.appendReplacement` |
| `SwaggerRewrite` | swagger_rewrite.dfy | the five ordered rewrite steps (host, basePath, schemes, securityDefinitions, security) |
| `LineReader` | line_reader.dfy | `BufferedReader.readLine` over the upstream body, lines joined without terminators |
| `ProxyServlet` | proxy_servlet.dfy | `ESIProxyServlet.service`: the three request kinds, 400/403 outcomes, token refresh, query rebuild, and `copyResponseEntity` |
| `Accounts` | accounts.dfy | `ProxyUserAccount`: fields, `equals`, `copy`, property keys, and the store operations over an in-memory map |
| `AuthSources` | auth_sources.dfy | `ProxyUserAuthSource`: fields, `equals`, and create-if-absent, touch, re-parent, latest-used and remove over an in-memory map |
| `AccountProvider` | account_provider.dfy | `ProxyUserAccountProvider`: uid parsing with its fallback, and delegation |
| `Services` | services.dfy | `ServicesWS`: the pending new-key table (put, sweep, take), the OAuth callback decision, and the status-code decisions of `saveAccessKey`, `getUserLastSource`, `getScopes` and `deleteAccessKey` |
| `Dialog` | dialog.dfy | dialog.js: message and dialog requests with their defaults, the pending queue, promotion, removal, completion and `DialogService` |
| `Connections` | connections.dfy | connections.js: the expiry validators, the scope summary, and the connections page's state |
| `Remote` | remote.dfy | remote.js: time conversion, service errors, the swagger address and the per-address client cache |
| `ProxyPage` | proxy_page.dfy | proxy.js: the `auth_error` extraction loop and the menu filter |

Where the source changes state in place (the parameter map, the servlet's
request, the pending-key table, the stores, the dialog queue, the connections
page, the client cache), the model is a class whose methods are proved against
specification functions. Pure code is modelled as functions with lemmas.

The model follows the code in these places:

- `service` does not check a key's own expiry date. Only the access-token expiry is compared with the refresh window (ESIProxyServlet.java:189).
- An unparsable query string raises `IOException` out of `service` (ESIProxyServlet.java:151-156). It is not answered with 400. The model gives `Failed(QuerySyntax)`.
- The upstream host is the constant `esi.tech.ccp.is` (ESIProxyServlet.java:134, 216). It is not configurable.
- A null query string is parsed as the text `"?null"` (ESIProxyServlet.java:147), as Java string concatenation produces it.

## Model

| member | source | states |
|---|---|---|
| Text.ParseLong | src/main/java/enterprises/orbital/esi/proxy/ESIProxyServlet.java:167 | `Long.valueOf`: any value it gives lies in the `long` range |
| Text.ParseDecimalString | src/main/java/enterprises/orbital/esi/proxy/ESIProxyServlet.java:167 | every `long` written in decimal parses back to itself |
| Text.ParseRejectsNonDigit | src/main/java/enterprises/orbital/esi/proxy/ESIProxyServlet.java:167 | a string with a non-digit anywhere except a leading sign raises NumberFormatException (None) |
| Text.JoinSplit | src/main/webapp/js/connections.js:69 | splitting a scopes string on ' ' and joining the pieces with ' ' gives the string back |
| Text.SplitJoin | src/main/webapp/js/connections.js:207 | joining pieces free of the separator and splitting the result gives the pieces back |
| Accounts.NewRecord | src/main/java/enterprises/orbital/esi/proxy/ProxyUserAccount.java:63-79 | a record as the no-argument constructor leaves it has created = last = -1 and is neither active nor admin |
| Accounts.Copy | src/main/java/enterprises/orbital/esi/proxy/ProxyUserAccount.java:158-166 | the copy is `equals` to the original, in both directions |
| Accounts.UidRoundTrip | src/main/java/enterprises/orbital/esi/proxy/ProxyUserAccount.java:85-88 | the decimal text `getUid` returns parses back to the uid |
| Accounts.PropertyKeysDistinct | src/main/java/enterprises/orbital/esi/proxy/ProxyUserAccount.java:293-298 | two persistent-property keys "ProxyUserAccount.<uid>.<field>" are equal only for the same uid and the same field |
| Accounts.AccountStore.constructor | src/main/java/enterprises/orbital/esi/proxy/ProxyUserAccount.java:55-59 | the store starts empty with the id sequence at 100000 |
| Accounts.AccountStore.GetAccount | src/main/java/enterprises/orbital/esi/proxy/ProxyUserAccount.java:205-225 | an account is returned exactly when one is stored under that uid, and it carries that uid |
| Accounts.AccountStore.CreateNewUserAccount | src/main/java/enterprises/orbital/esi/proxy/ProxyUserAccount.java:177-196 | the new account gets a fresh uid, active and admin from the arguments, created = now and last = created, and is stored under its uid |
| Accounts.AccountStore.Touch | src/main/java/enterprises/orbital/esi/proxy/ProxyUserAccount.java:234-250 | null and no change when the account is missing; otherwise only the stored account's `last` becomes now |
| AccountProvider.AccountIdOfUid | src/main/java/enterprises/orbital/esi/proxy/ProxyUserAccountProvider.java:17-27 | an account's own `getUid` text parses back to its id |
| AccountProvider.AccountIdFallback | src/main/java/enterprises/orbital/esi/proxy/ProxyUserAccountProvider.java:20-25 | a uid holding a non-digit (other than a leading sign) is read as id 0 |
| AccountProvider.ProxyUserAccountProvider.GetAccount | src/main/java/enterprises/orbital/esi/proxy/ProxyUserAccountProvider.java:17-27 | the account stored under the parsed id (0 on a parse failure), or null exactly when there is none |
| AccountProvider.ProxyUserAccountProvider.GetSource | src/main/java/enterprises/orbital/esi/proxy/ProxyUserAccountProvider.java:29-35 | passes account and source through: the result is the store's `getSource`, a row of that account and source returned exactly when one and only one such row exists |
| AccountProvider.ProxyUserAccountProvider.RemoveSourceIfExists | src/main/java/enterprises/orbital/esi/proxy/ProxyUserAccountProvider.java:37-43 | passes through: the account's single row for that source is deleted and every other row stays in order; with no single match nothing changes; afterwards the account has no row for that source |
| AccountProvider.ProxyUserAccountProvider.GetBySourceScreenname | src/main/java/enterprises/orbital/esi/proxy/ProxyUserAccountProvider.java:45-50 | passes both arguments through: the result is the store's `getBySourceScreenname`, a stored row with that source and screen name, null exactly when none exists |
| AccountProvider.ProxyUserAccountProvider.CreateSource | src/main/java/enterprises/orbital/esi/proxy/ProxyUserAccountProvider.java:52-60 | passes through with the body as `details`: the account's existing single row is returned with the table unchanged; otherwise a row with the next sid, the screen name, the body and last = now is appended and returned and the sid counter advances by one, and with at most one row beforehand it is what `getSource` then finds |
| AccountProvider.ProxyUserAccountProvider.CreateNewUserAccount | src/main/java/enterprises/orbital/esi/proxy/ProxyUserAccountProvider.java:62-66 | creates a non-admin account with active = !disabled, created = last = now, under a fresh uid |
| AuthSources.NewSource | src/main/java/enterprises/orbital/esi/proxy/ProxyUserAuthSource.java:85-110 | a record as the no-argument constructor leaves it has last = -1 and no account |
| AuthSources.SourceEqualsIsSameFields | src/main/java/enterprises/orbital/esi/proxy/ProxyUserAuthSource.java:167-189 | the null-aware `equals` holds exactly when sid, account, source, screen name, details and last are all equal |
| AuthSources.MatchIndices | src/main/java/enterprises/orbital/esi/proxy/ProxyUserAuthSource.java:53-55 | the positions the findByAcctAndSource query selects: exactly the rows of that account (by uid) and source, in increasing order |
| AuthSources.LookupIndex | src/main/java/enterprises/orbital/esi/proxy/ProxyUserAuthSource.java:197-219 | `getSingleResult`: a position only when account and source are given and exactly one row matches, and that row's position; null with account and source given means no row or at least two rows match |
| AuthSources.LastUsed | src/main/java/enterprises/orbital/esi/proxy/ProxyUserAuthSource.java:239-257 | null exactly when the account owns no row; otherwise one of its rows with the greatest `last` |
| AuthSources.BySourceScreenname | src/main/java/enterprises/orbital/esi/proxy/ProxyUserAuthSource.java:275-295 | a row with that source and screen name, or null exactly when there is none |
| AuthSources.SourceStore.constructor | src/main/java/enterprises/orbital/esi/proxy/ProxyUserAuthSource.java:73-81 | the store starts empty with the id sequence at 100000 |
| AuthSources.SourceStore.GetSource | src/main/java/enterprises/orbital/esi/proxy/ProxyUserAuthSource.java:197-219 | any row returned is stored and is the account's row for that source, and a row is returned exactly when one row, and only one, matches |
| AuthSources.SourceStore.CreateSource | src/main/java/enterprises/orbital/esi/proxy/ProxyUserAuthSource.java:318-342 | an existing single row is returned and nothing changes; otherwise a row is appended with the next sid, the owner, source, screen name, details and last = now, and returned, and the sid counter advances by one. With no row before, `getSource` then finds it; with several, the query throws inside `getSource`, which reports null, so a further row is appended and `getSource` still finds none |
| AuthSources.SourceStore.RemoveSourceIfExists | src/main/java/enterprises/orbital/esi/proxy/ProxyUserAuthSource.java:344-358 | the account's one row for that source is deleted and the others kept in order; with no such row nothing changes |
| AuthSources.SourceStore.Touch | src/main/java/enterprises/orbital/esi/proxy/ProxyUserAuthSource.java:360-376 | null and no change when the row is missing; otherwise only that row's `last` becomes now |
| AuthSources.SourceStore.UpdateAccount | src/main/java/enterprises/orbital/esi/proxy/ProxyUserAuthSource.java:297-316 | null and no change when the row or the new account is missing; otherwise only that row's account changes |
| AuthSources.OnlyNewRowMatches | src/main/java/enterprises/orbital/esi/proxy/ProxyUserAuthSource.java:327-335 | a row appended where the account had none for that source is the only one the query then selects |
| AuthSources.RemovingOnlyMatch | src/main/java/enterprises/orbital/esi/proxy/ProxyUserAuthSource.java:351-352 | removing the only selected row leaves the query selecting nothing |
| ProxyServlet.Status | src/main/java/enterprises/orbital/esi/proxy/ESIProxyServlet.java:163-208 | the three store refusals (bad key number, wrong hash, unknown key) are exactly the 400s; the three refresh refusals (no refresh token, refresh failed, update failed) are exactly the 403s |
| ProxyServlet.ContextPath | src/main/java/enterprises/orbital/esi/proxy/ESIProxyServlet.java:123-124 | `substring(lastIndexOf('/'))` fails exactly when the servlet path has no '/'; otherwise the result is a suffix of the path that starts with its only '/' |
| ProxyServlet.QueryToParse | src/main/java/enterprises/orbital/esi/proxy/ESIProxyServlet.java:147-149 | "?" + the query (Java's "?null" for a null query), cut before the first '#': it starts with '?', holds no '#', and is otherwise a prefix of the query |
| ProxyServlet.Refreshed | src/main/java/enterprises/orbital/esi/proxy/ESIProxyServlet.java:201-203 | a refresh replaces the access token and the refresh token and sets the expiry to refresh time + expiresIn·1000 (as a long), keeping the key id |
| ProxyServlet.ProxyKeyNumber | src/main/java/enterprises/orbital/esi/proxy/ESIProxyServlet.java:165-171 | `Long.valueOf` of the key parameter: nothing for a null value, and only values in long range otherwise |
| ProxyServlet.Authorize | src/main/java/enterprises/orbital/esi/proxy/ESIProxyServlet.java:176-212 | only a key that parses and whose hash the store accepts is authorised, always with a "Bearer " header |
| ProxyServlet.WithoutCredentials | src/main/java/enterprises/orbital/esi/proxy/ESIProxyServlet.java:172-174 | removing the two credential names leaves a map without them, with distinct names, every other name looked up as before, and the other names in their original order |
| ProxyServlet.EsiProxyServlet.constructor | src/main/java/enterprises/orbital/esi/proxy/ESIProxyServlet.java:84-94 | `initTarget`: the configuration and the two security replacement texts built from the credential names |
| ProxyServlet.EsiProxyServlet.Service | src/main/java/enterprises/orbital/esi/proxy/ESIProxyServlet.java:108-229 | the outcome is the dispatch decision for the request; a swagger request gets target host, target URI and the rewrite flag; a forwarded request gets target host, URI, rebuilt query and (when credentialed) the bearer header; a refused or failed request is left as it was |
| ProxyServlet.EsiProxyServlet.Route | src/main/java/enterprises/orbital/esi/proxy/ESIProxyServlet.java:121-160 | the checks in the servlet's order (context path, path info, swagger.json, URI parse, map build) reach the dispatch decision |
| ProxyServlet.EsiProxyServlet.Apply | src/main/java/enterprises/orbital/esi/proxy/ESIProxyServlet.java:130-226 | the request attributes set for each outcome, and none for a refusal or failure |
| ProxyServlet.EsiProxyServlet.Settle | src/main/java/enterprises/orbital/esi/proxy/ESIProxyServlet.java:162-226 | on the parsed map: credential check, then the forward decision over the map with the credentials removed |
| ProxyServlet.EsiProxyServlet.CollectParams | src/main/java/enterprises/orbital/esi/proxy/ESIProxyServlet.java:157-160 | putting each pair in turn into an empty insertion-ordered map gives the map of the pairs |
| ProxyServlet.EsiProxyServlet.TakeCredentials | src/main/java/enterprises/orbital/esi/proxy/ESIProxyServlet.java:163-213 | the credential branch runs exactly when both names are present; its result is the credential decision; the names are removed only once the key number has parsed |
| ProxyServlet.EsiProxyServlet.CopyRequestHeaders | src/main/java/enterprises/orbital/esi/proxy/ESIProxyServlet.java:343-350 | as written: the Authorization header is the client's own query parameter named "ESIProxyServlet.authHeader", and none when the client sent no such parameter |
| ProxyServlet.EsiProxyServlet.ProxyRequest | src/main/java/enterprises/orbital/esi/proxy/ESIProxyServlet.java:343-350 | as written: `service` then the header copy; the header forwarded is the client's parameter, not the bearer header `service` decided on |
| ProxyServlet.EsiProxyServlet.CopyAuthorizationAttribute | src/main/java/enterprises/orbital/esi/proxy/ESIProxyServlet.java:210-212 | corrected header copy: the value read back is the bearer header stored as the request attribute |
| ProxyServlet.EsiProxyServlet.ProxyRequestIntended | src/main/java/enterprises/orbital/esi/proxy/ESIProxyServlet.java:210-212 | with the corrected copy, a forwarded request carries exactly the header `service` decided on, and a swagger request none |
| ProxyServlet.EsiProxyServlet.CopyResponseEntity | src/main/java/enterprises/orbital/esi/proxy/ESIProxyServlet.java:249-341 | the body written for a response is the response-copy decision (pass-through, nothing, failure, or the rewritten document) |
| ProxyServlet.DispatchParsed | src/main/java/enterprises/orbital/esi/proxy/ESIProxyServlet.java:150-163 | once the query parses, the decision is taken on the map built from the pairs, which has distinct names, and credential handling runs exactly when both names occur among the pairs |
| ProxyServlet.SwaggerRequestsSkipCredentials | src/main/java/enterprises/orbital/esi/proxy/ESIProxyServlet.java:123-138 | a path ending in "swagger.json" is forwarded for rewriting to the context path, whatever the query, key store and refresh oracle say |
| ProxyServlet.PassThroughWithoutCredentials | src/main/java/enterprises/orbital/esi/proxy/ESIProxyServlet.java:215-226 | with a credential name missing, the request is forwarded without a header and with every parameter, in first-insertion order |
| ProxyServlet.CredentialsDecideHeader | src/main/java/enterprises/orbital/esi/proxy/ESIProxyServlet.java:162-213 | a parsed request is either refused (only when both names are present) or forwarded, and forwarded with a header exactly when both names are present; the header starts with "Bearer " |
| ProxyServlet.ForwardedQueryDropsCredentials | src/main/java/enterprises/orbital/esi/proxy/ESIProxyServlet.java:172-226 | for parameters whose names hold no '&' or '=' and whose values hold no '&', a credentialed request's forwarded query names neither credential parameter in any '&'-piece |
| ProxyServlet.QueryOmitsNames | src/main/java/enterprises/orbital/esi/proxy/ESIProxyServlet.java:219-226 | for parameters whose names hold no '&' or '=' and whose values hold no '&', a query rebuilt from a map without two names holds no piece naming either of them |
| ProxyServlet.DecodedValueNamesCredential | src/main/java/enterprises/orbital/esi/proxy/ESIProxyServlet.java:219-224 | a decoded value holding "&key=rest" is written back without re-encoding, so the rebuilt query holds a piece naming that key |
| ProxyServlet.FreshTokenUsedAsIs | src/main/java/enterprises/orbital/esi/proxy/ESIProxyServlet.java:187-212 | a token outside the refresh window is used as stored: the refresh oracle and the store update play no part |
| ProxyServlet.StaleTokenRefreshed | src/main/java/enterprises/orbital/esi/proxy/ESIProxyServlet.java:188-212 | a token inside the window, once refreshed and saved, is replaced by the new token, with expiry = refresh time + expiresIn·1000 |
| ProxyServlet.AuthorizeRefusals | src/main/java/enterprises/orbital/esi/proxy/ESIProxyServlet.java:163-208 | each refusal with its condition: a key that does not parse, an unknown key, a wrong hash, and inside the refresh window a missing refresh token, a failed refresh or a failed save |
| ProxyServlet.ForwardWithCredentials | src/main/java/enterprises/orbital/esi/proxy/ESIProxyServlet.java:163-226 | with both credential names present, a refused check gives a refusal and nothing is forwarded; otherwise the request is forwarded with the bearer header and a query of the other parameters, whose names are the first occurrences less the two credential names, in order |
| ProxyServlet.RefusalStatuses | src/main/java/enterprises/orbital/esi/proxy/ESIProxyServlet.java:163-208 | a refusal is a 400 exactly when the key number does not parse or the key store does not match; otherwise it is a 403 |
| ProxyServlet.RefreshWindow | src/main/java/enterprises/orbital/esi/proxy/ESIProxyServlet.java:188 | within long range, a refresh is due exactly when expiry < now + window |
| ProxyServlet.RequestParameter | src/main/java/enterprises/orbital/esi/proxy/ESIProxyServlet.java:349 | `getParameter`: null exactly when the client sent no parameter of that name, else the value of the first such parameter ("" without '=') |
| ProxyServlet.BearerHeaderDropped | src/main/java/enterprises/orbital/esi/proxy/ESIProxyServlet.java:349 | a credentialed request that is forwarded has a bearer header decided, but the header the copy forwards is the client's own parameter, and none when the client sent none |
| ProxyConfig.PlainSecurityDefinition | src/main/java/enterprises/orbital/esi/proxy/ESIProxyServlet.java:90-91 | with plain credential names the `securityDefinitions` replacement holds no regex replacement metacharacter |
| ProxyConfig.SecurityShape | src/main/java/enterprises/orbital/esi/proxy/ESIProxyServlet.java:90-92 | the `security` text the servlet builds is the intended requirement block with its brackets escaped |
| ProxyConfig.SecurityReplacementExpands | src/main/java/enterprises/orbital/esi/proxy/ESIProxyServlet.java:92 | the escaped `security` replacement, as the regex replacement reads it, is the block requiring both API keys with empty scope lists |
| ProxyConfig.PlainReplacement | src/main/java/enterprises/orbital/esi/proxy/ESIProxyServlet.java:285 | a replacement without '\\' and '$' is inserted as it is |
| ProxyConfig.DefaultSecurityLiteral | src/main/java/enterprises/orbital/esi/proxy/ESIProxyServlet.java:65-70 | the default names (esiProxyKey, esiProxyHash) are plain, so the default security block reads as intended |
| ProxyConfig.ExpandBrackets | src/main/java/enterprises/orbital/esi/proxy/ESIProxyServlet.java:92 | the escaped bracket pair in the `security` text is read as "[]" |
| ProxyConfig.ExpandClosing | src/main/java/enterprises/orbital/esi/proxy/ESIProxyServlet.java:92 | the escaped closing "\\]\\}\\]" is read as "]}]" |
| QueryParams.Names | src/main/java/enterprises/orbital/esi/proxy/ESIProxyServlet.java:157-160 | the names of the map's entries, in order |
| QueryParams.Lookup | src/main/java/enterprises/orbital/esi/proxy/ESIProxyServlet.java:163 | `containsKey`/`get`: nothing exactly when the name is absent, else the value of an entry of that name |
| QueryParams.ValueOf | src/main/java/enterprises/orbital/esi/proxy/ESIProxyServlet.java:167-172 | Java `get`: null for an absent name; for a present name, the value stored under it (null when that value is null) |
| QueryParams.PutParamNames | src/main/java/enterprises/orbital/esi/proxy/ESIProxyServlet.java:158-160 | `put` of a new name appends it; of a present name keeps the order |
| QueryParams.PutParamLookup | src/main/java/enterprises/orbital/esi/proxy/ESIProxyServlet.java:159 | after `put` the name maps to the new value and every other name as before |
| QueryParams.PutParamDistinct | src/main/java/enterprises/orbital/esi/proxy/ESIProxyServlet.java:159 | `put` keeps names distinct |
| QueryParams.RemoveParamNames | src/main/java/enterprises/orbital/esi/proxy/ESIProxyServlet.java:173-174 | after `remove` the name is gone and every other name is present exactly as before |
| QueryParams.RemoveParamLookup | src/main/java/enterprises/orbital/esi/proxy/ESIProxyServlet.java:173-174 | after `remove` the name maps to nothing and every other name as before |
| QueryParams.RemoveParamSubsequence | src/main/java/enterprises/orbital/esi/proxy/ESIProxyServlet.java:173-174 | `remove` keeps exactly the entries of other names, and their names in their original order |
| QueryParams.RemoveParamDistinct | src/main/java/enterprises/orbital/esi/proxy/ESIProxyServlet.java:173-174 | `remove` keeps names distinct |
| QueryParams.FromPairsOrder | src/main/java/enterprises/orbital/esi/proxy/ESIProxyServlet.java:157-160 | the map built from the pairs has distinct names, in the order of their first occurrence |
| QueryParams.FromPairsLookup | src/main/java/enterprises/orbital/esi/proxy/ESIProxyServlet.java:157-160 | a name maps to the value of its last pair |
| QueryParams.FromPairsMembers | src/main/java/enterprises/orbital/esi/proxy/ESIProxyServlet.java:157-160 | every entry of the built map is one of the pairs |
| QueryParams.FirstOccurrencesMembers | src/main/java/enterprises/orbital/esi/proxy/ESIProxyServlet.java:157-160 | first occurrences keep exactly the names that occur |
| QueryParams.RenderAll | src/main/java/enterprises/orbital/esi/proxy/ESIProxyServlet.java:223-224 | each entry renders as `name=value`, or `name=` for a null value |
| QueryParams.BuildQuery | src/main/java/enterprises/orbital/esi/proxy/ESIProxyServlet.java:219-226 | the `StringBuilder` loop yields the rendered entries joined by '&' in map order |
| QueryParams.QueryNames | src/main/java/enterprises/orbital/esi/proxy/ESIProxyServlet.java:219-226 | split back on '&' and '=', the rebuilt query names the entries in order |
| QueryParams.ParamMap.constructor | src/main/java/enterprises/orbital/esi/proxy/ESIProxyServlet.java:157 | a new map is empty |
| QueryParams.ParamMap.ContainsKey | src/main/java/enterprises/orbital/esi/proxy/ESIProxyServlet.java:163 | true exactly when the name is stored |
| QueryParams.ParamMap.Get | src/main/java/enterprises/orbital/esi/proxy/ESIProxyServlet.java:167-172 | a value only for a stored name, and for a stored name exactly the value stored under it |
| QueryParams.ParamMap.Put | src/main/java/enterprises/orbital/esi/proxy/ESIProxyServlet.java:159 | the map after `put`, keeping names distinct |
| QueryParams.ParamMap.Remove | src/main/java/enterprises/orbital/esi/proxy/ESIProxyServlet.java:173-174 | the map after `remove`; the name is no longer present |
| Patterns.SkipWhile | src/main/java/enterprises/orbital/esi/proxy/ESIProxyServlet.java:239-241 | a character-class run `[...]+`/`[ ]*`: every character up to the result is in the class and the next is not |
| Patterns.SkipSpacesRun | src/main/java/enterprises/orbital/esi/proxy/ESIProxyServlet.java:239-247 | `[ ]*` stops exactly after the run of spaces |
| Patterns.KeyColon | src/main/java/enterprises/orbital/esi/proxy/ESIProxyServlet.java:239-247 | `"key"[ ]*:` ends after the colon, inside the text |
| Patterns.QuotedValue | src/main/java/enterprises/orbital/esi/proxy/ESIProxyServlet.java:239-241 | `"key"[ ]*:[ ]*"(class+)"` captures a non-empty run of the class |
| Patterns.QuotedRun | src/main/java/enterprises/orbital/esi/proxy/ESIProxyServlet.java:239-241 | the quoted part `"(class+)"` captures a non-empty run of the class |
| Patterns.KeyColonReads | src/main/java/enterprises/orbital/esi/proxy/ESIProxyServlet.java:239-241 | a key, spaces and a colon are read by `"key"[ ]*:` |
| Patterns.QuotedValueAt | src/main/java/enterprises/orbital/esi/proxy/ESIProxyServlet.java:239-241 | after `"key":` and spaces, the value read is the quoted run |
| Patterns.QuotedValueReads | src/main/java/enterprises/orbital/esi/proxy/ESIProxyServlet.java:239-241 | a laid-out `"key": "value"` is matched whole, capturing the value |
| Patterns.OAuthTail | src/main/java/enterprises/orbital/esi/proxy/ESIProxyServlet.java:245 | `"type"[ ]*:[ ]*"oauth2"[ ]*\}\}` ends inside the text |
| Patterns.LineEnd | src/main/java/enterprises/orbital/esi/proxy/ESIProxyServlet.java:245-247 | the first line terminator from a position, which `.` cannot cross |
| Patterns.LastTail | src/main/java/enterprises/orbital/esi/proxy/ESIProxyServlet.java:245 | greedy `.*`: the last start within the line where the tail matches, none when it matches nowhere in the line |
| Patterns.LastTailFound | src/main/java/enterprises/orbital/esi/proxy/ESIProxyServlet.java:245 | the greedy tail found starts at one place and the tail matches at no later place in the line |
| Patterns.FirstClose | src/main/java/enterprises/orbital/esi/proxy/ESIProxyServlet.java:247 | lazy `.*?`: the first "]}]" within the line, none when the line holds none |
| Patterns.HostMatch | src/main/java/enterprises/orbital/esi/proxy/ESIProxyServlet.java:241 | a HOSTNAME match is well formed (starts there, non-empty, inside the text, one group) |
| Patterns.BasePathMatch | src/main/java/enterprises/orbital/esi/proxy/ESIProxyServlet.java:239 | a BASEPATH match is well formed and its group is a run of letters and '/' |
| Patterns.SchemesMatch | src/main/java/enterprises/orbital/esi/proxy/ESIProxyServlet.java:243 | a SCHEMES match is well formed |
| Patterns.SecDefMatch | src/main/java/enterprises/orbital/esi/proxy/ESIProxyServlet.java:245 | a SECDEF match is well formed |
| Patterns.SecurityMatch | src/main/java/enterprises/orbital/esi/proxy/ESIProxyServlet.java:247 | a SECURITY match is well formed |
| Patterns.MatchersSound | src/main/java/enterprises/orbital/esi/proxy/ESIProxyServlet.java:239-247 | the five matchers keep the promise every matcher makes |
| Patterns.Find | src/main/java/enterprises/orbital/esi/proxy/ESIProxyServlet.java:279 | `Matcher.find`: the leftmost match from a position, none exactly when the pattern matches at no later position |
| Patterns.GroupRef | src/main/java/enterprises/orbital/esi/proxy/ESIProxyServlet.java:285 | a `$n` reference reads digits only while the group number stays within the group count |
| Patterns.ExpandPlain | src/main/java/enterprises/orbital/esi/proxy/ESIProxyServlet.java:285 | `appendReplacement` copies text with no '\\' and no '$' as it is |
| Patterns.ExpandPlainPrefix | src/main/java/enterprises/orbital/esi/proxy/ESIProxyServlet.java:285 | a plain prefix is copied in front of the rest's expansion, and failure of the rest is failure |
| Patterns.ExpandEscaped | src/main/java/enterprises/orbital/esi/proxy/ESIProxyServlet.java:285 | an escaped character stands for itself |
| Patterns.ExpandMissingGroup | src/main/java/enterprises/orbital/esi/proxy/ESIProxyServlet.java:285 | a reference to a group the pattern lacks is rejected |
| SwaggerRewrite.Matches | src/main/java/enterprises/orbital/esi/proxy/ESIProxyServlet.java:328-330 | the matches the `while (find())` scan visits: inside the text, in order, not overlapping |
| SwaggerRewrite.PrependPrepend | src/main/java/enterprises/orbital/esi/proxy/ESIProxyServlet.java:285-287 | text appended in two pieces is the same as appended at once |
| SwaggerRewrite.PrependEmpty | src/main/java/enterprises/orbital/esi/proxy/ESIProxyServlet.java:285-287 | appending nothing changes nothing |
| SwaggerRewrite.ReplaceEvery | src/main/java/enterprises/orbital/esi/proxy/ESIProxyServlet.java:326-331 | the `while (matcher.find()) appendReplacement; appendTail` loop computes the replace-all function |
| SwaggerRewrite.ReplaceFirstKeepsRest | src/main/java/enterprises/orbital/esi/proxy/ESIProxyServlet.java:278-287 | a first-match step keeps the text before the leftmost match and after it |
| SwaggerRewrite.EveryMatchReplaced | src/main/java/enterprises/orbital/esi/proxy/ESIProxyServlet.java:328-330 | every position where the pattern matches lies inside one of the matches the scan replaces |
| SwaggerRewrite.FindCovers | src/main/java/enterprises/orbital/esi/proxy/ESIProxyServlet.java:279 | a match at a position means `find` from any earlier position succeeds at or before it |
| SwaggerRewrite.ReplaceAllSpliced | src/main/java/enterprises/orbital/esi/proxy/ESIProxyServlet.java:326-331 | with a group-free replacement, replace-all is the gaps between matches alternating with the replacement text |
| SwaggerRewrite.NoMatchUnchanged | src/main/java/enterprises/orbital/esi/proxy/ESIProxyServlet.java:278-331 | a step whose pattern matches nowhere leaves its input unchanged |
| SwaggerRewrite.HostReadsBack | src/main/java/enterprises/orbital/esi/proxy/ESIProxyServlet.java:279-287 | on port 80 or 443 the new host entry `"host": "<proxyHost>"` is itself a HOSTNAME match capturing the proxy host |
| SwaggerRewrite.HostWithPortDoesNotReadBack | src/main/java/enterprises/orbital/esi/proxy/ESIProxyServlet.java:281-283 | on any other port the ":<port>" suffix is appended, and the entry is no longer a HOSTNAME match |
| SwaggerRewrite.BasePathReadsBack | src/main/java/enterprises/orbital/esi/proxy/ESIProxyServlet.java:294 | the new base path entry is a BASEPATH match capturing "/" + application path + the old base path |
| SwaggerRewrite.SchemesReplacement | src/main/java/enterprises/orbital/esi/proxy/ESIProxyServlet.java:304-314 | the new schemes entry: "https" on port 443, "http" on any other |
| SwaggerRewrite.SchemesFollowPort | src/main/java/enterprises/orbital/esi/proxy/ESIProxyServlet.java:303-316 | the new schemes entry names https exactly on port 443 and http exactly otherwise, and matches SCHEMES again exactly on 443 |
| SwaggerRewrite.SchemesHttps | src/main/java/enterprises/orbital/esi/proxy/ESIProxyServlet.java:306-308 | on port 443 the entry is `"schemes": ["https"]` |
| SwaggerRewrite.SchemesHttp | src/main/java/enterprises/orbital/esi/proxy/ESIProxyServlet.java:309-312 | on every other port the entry is `"schemes": ["http"]` |
| SwaggerRewrite.SchemesReads | src/main/java/enterprises/orbital/esi/proxy/ESIProxyServlet.java:243 | a schemes key is a SCHEMES match exactly when `["https"]` follows |
| SwaggerRewrite.Rewrite | src/main/java/enterprises/orbital/esi/proxy/ESIProxyServlet.java:275-331 | the five steps in order: host (first match), base path (first match, only with an application path), schemes (first match), security definitions (first match), security blocks (every match) |
| SwaggerRewrite.RewriteWithoutMatches | src/main/java/enterprises/orbital/esi/proxy/ESIProxyServlet.java:275-331 | a document none of the five patterns matches passes through untouched |
| SwaggerRewrite.PlainHostReplacement | src/main/java/enterprises/orbital/esi/proxy/ESIProxyServlet.java:280-284 | with a plain proxy host the host replacement is plain text |
| SwaggerRewrite.PlainBasePathReplacement | src/main/java/enterprises/orbital/esi/proxy/ESIProxyServlet.java:294 | with a plain application path the base path replacement is plain text |
| SwaggerRewrite.HostStepPlain | src/main/java/enterprises/orbital/esi/proxy/ESIProxyServlet.java:278-287 | with a plain proxy host the host step succeeds |
| SwaggerRewrite.BasePathStepPlain | src/main/java/enterprises/orbital/esi/proxy/ESIProxyServlet.java:289-298 | with a plain application path the base path step succeeds |
| SwaggerRewrite.SchemesStepPlain | src/main/java/enterprises/orbital/esi/proxy/ESIProxyServlet.java:300-317 | the schemes step always succeeds |
| SwaggerRewrite.SecDefStepPlain | src/main/java/enterprises/orbital/esi/proxy/ESIProxyServlet.java:319-323 | with plain names the security definitions step succeeds |
| SwaggerRewrite.SecurityStepPlain | src/main/java/enterprises/orbital/esi/proxy/ESIProxyServlet.java:325-331 | with plain names every security block is replaced by the block requiring both API keys |
| SwaggerRewrite.RewritePlain | src/main/java/enterprises/orbital/esi/proxy/ESIProxyServlet.java:275-331 | with a plain configuration the rewrite succeeds, and its result is the first four steps followed by every security block replaced by the intended text |
| SwaggerRewrite.CopyResponseCases | src/main/java/enterprises/orbital/esi/proxy/ESIProxyServlet.java:256-274 | a non-swagger response passes through; no entity writes nothing; a missing Content-Encoding header fails; otherwise, with plain configuration and a decodable body, the rewritten body is written |
| SwaggerRewrite.CopyResponseRoundTrip | src/main/java/enterprises/orbital/esi/proxy/ESIProxyServlet.java:266-340 | the body written, decoded with the same Content-Encoding (gzip exactly when the upstream used gzip), is the rewrite of the upstream lines joined without terminators |
| LineReader.StripLineBreaks | src/main/java/enterprises/orbital/esi/proxy/ESIProxyServlet.java:272-274 | the text without its line breaks holds none |
| LineReader.StripAppend | src/main/java/enterprises/orbital/esi/proxy/ESIProxyServlet.java:272-274 | dropping line breaks distributes over concatenation |
| LineReader.LineBreakAt | src/main/java/enterprises/orbital/esi/proxy/ESIProxyServlet.java:272 | the line read ends at the first '\n' or '\r', or at the end of the text |
| LineReader.ReadLine | src/main/java/enterprises/orbital/esi/proxy/ESIProxyServlet.java:272 | `readLine` returns null exactly at the end of the text and otherwise moves forward |
| LineReader.ReadLineSplits | src/main/java/enterprises/orbital/esi/proxy/ESIProxyServlet.java:272-274 | a line read, followed by the rest, is the text without line breaks |
| LineReader.AssembleLines | src/main/java/enterprises/orbital/esi/proxy/ESIProxyServlet.java:270-274 | the `readLine` loop appends exactly the text without its line terminators |
| Services.Taken | src/main/java/enterprises/orbital/esi/proxy/ServicesWS.java:660-669 | the take reads the state under the token and removes it in one step |
| Services.SweepKeepsExactlyLive | src/main/java/enterprises/orbital/esi/proxy/ServicesWS.java:125-136 | a sweep removes exactly the entries with createTime + lifetime < now (in long arithmetic) and keeps every other entry unchanged |
| Services.BoundarySurvives | src/main/java/enterprises/orbital/esi/proxy/ServicesWS.java:131 | an entry whose lifetime ends exactly now is kept |
| Services.SweepIdempotent | src/main/java/enterprises/orbital/esi/proxy/ServicesWS.java:125-136 | a second sweep at the same time removes nothing more |
| Services.LaterSweepKeepsLess | src/main/java/enterprises/orbital/esi/proxy/ServicesWS.java:125-136 | a later sweep keeps no entry an earlier one removed |
| Services.TakeUnknown | src/main/java/enterprises/orbital/esi/proxy/ServicesWS.java:663-665 | a null or unknown state takes nothing and leaves the table unchanged |
| Services.TakeOnce | src/main/java/enterprises/orbital/esi/proxy/ServicesWS.java:667-668 | a second callback with the same state finds nothing; a successful take removes exactly one entry |
| Services.PutThenTake | src/main/java/enterprises/orbital/esi/proxy/ServicesWS.java:565-569 | what is put under a fresh token is what its callback takes, and the table returns to what it was |
| Services.CallbackCases | src/main/java/enterprises/orbital/esi/proxy/ServicesWS.java:651-711 | the callback's outcomes with their exact conditions: an error page exactly for a known non-admin user under restricted login; the callback exactly when the user is known, allowed and the exchange succeeds, with a key carrying the request's expiry, server, scopes, the character name and the tokens, expiring at now + expiresIn·1000; null otherwise |
| Services.SaveRefusals | src/main/java/enterprises/orbital/esi/proxy/ServicesWS.java:521-594 | null body 403; no user 401; for a new key 401 exactly at or above the key limit, then 400 exactly for an unknown server kind; for an update 404 exactly when the key is missing or another user's |
| Services.NewKeyRequest | src/main/java/enterprises/orbital/esi/proxy/ServicesWS.java:548-596 | a started sign-on records now, the user's uid, expiry max(-1, requested), a known server kind and the scopes under the fresh token; debug mode creates a test key with the same expiry; an update changes only the expiry |
| Services.PendingKeys.constructor | src/main/java/enterprises/orbital/esi/proxy/ServicesWS.java:105-106 | the table starts empty |
| Services.PendingKeys.Put | src/main/java/enterprises/orbital/esi/proxy/ServicesWS.java:565-570 | exactly one entry is added, under the token, with createTime = now and the request's uid, expiry, server kind and scopes |
| Services.PendingKeys.Sweep | src/main/java/enterprises/orbital/esi/proxy/ServicesWS.java:125-136 | the collect-then-remove loops leave exactly the surviving entries |
| Services.PendingKeys.Take | src/main/java/enterprises/orbital/esi/proxy/ServicesWS.java:660-669 | the state read and the table left are those of the take |
| Services.PendingKeys.HandleNewAccessKeyCallback | src/main/java/enterprises/orbital/esi/proxy/ServicesWS.java:651-711 | the table loses the taken state and the result is the callback decision on it |
| Services.PendingKeys.SaveAccessKey | src/main/java/enterprises/orbital/esi/proxy/ServicesWS.java:514-599 | the outcome is the save decision; only a started sign-on adds its state to the table |
| Services.SaveThenCallback | src/main/java/enterprises/orbital/esi/proxy/ServicesWS.java:548-711 | a new-key request saved and then called back (before any sweep) yields the callback with a key for that user carrying the requested expiry, server kind and scopes, and the table returns to what it was |
| Services.LastSourceCases | src/main/java/enterprises/orbital/esi/proxy/ServicesWS.java:384-417 | 401 exactly without a caller or for another user's uid (not -1) by a non-admin; 404 exactly for an unknown target; otherwise the target's most recently used source (uid -1 meaning the caller), or 500 when it has none |
| Services.ScopesCases | src/main/java/enterprises/orbital/esi/proxy/ServicesWS.java:732-747 | 404 exactly for a server kind outside latest, legacy and dev; the scopes exactly when the kind is known and the fetch succeeded |
| Services.DeleteCases | src/main/java/enterprises/orbital/esi/proxy/ServicesWS.java:624-649 | 200 exactly for the caller's own key deleted; 404 exactly for a missing or foreign key; otherwise 401 or 500 |
| Dialog.DialogClass | src/main/webapp/js/dialog.js:5-16 | 'warning' exactly for type 'warning', 'danger' exactly for 'error', 'info' for anything else |
| Dialog.Uppercase | src/main/webapp/js/dialog.js:19 | `angular.uppercase`: the same length, ASCII lower-case letters raised and every other character kept |
| Dialog.DelayOr | src/main/webapp/js/dialog.js:22 | `delay \|\| default`: the given delay unless it is missing or zero |
| Dialog.MsgRequest | src/main/webapp/js/dialog.js:4-26 | a message request: class and upper-cased type from the request type, buttons defaulting to [], delay defaulting to 20 seconds (in tenths), startProgress equal to the delay, and never `nodelay` |
| Dialog.DialogRequest | src/main/webapp/js/dialog.js:28-52 | a dialog request: delay defaulting to -1 (in tenths), `nodelay` exactly when the delay is negative, an empty button list becoming ['ok'], startProgress equal to the delay |
| Dialog.AutoChoice | src/main/webapp/js/dialog.js:104-106 | an expiring item reports choice 0 exactly when it has buttons and -1 exactly when it has none |
| Dialog.WithoutId | src/main/webapp/js/dialog.js:142 | the filter keeps exactly the items with another id |
| Dialog.WithoutIdAppend | src/main/webapp/js/dialog.js:142 | the filter works piece by piece, so the kept items stay in their order |
| Dialog.WithoutAbsentId | src/main/webapp/js/dialog.js:142 | with no item of that id the queue is unchanged |
| Dialog.PromotionTakesFront | src/main/webapp/js/dialog.js:109-120 | with something shown or nothing waiting nothing changes; otherwise the front of the queue becomes the shown message or dialog, by its kind, and leaves the queue |
| Dialog.QueueIsFifo | src/main/webapp/js/dialog.js:110-136 | an added item goes behind everything already waiting: adding commutes with promotion whenever the queue or the screen is busy |
| Dialog.RemoveById | src/main/webapp/js/dialog.js:137-145 | for messages and for dialogs alike: a shown item of that kind with that id is hidden and the queue kept; otherwise every waiting item with that id is dropped and the rest kept in order; the other kind's shown item and the handler calls are untouched |
| Dialog.CompletionCallsHandler | src/main/webapp/js/dialog.js:156-170 | a completion always calls the handler with the choice, and clears the shown item only when the ids match |
| Dialog.MessageTimesOut | src/main/webapp/js/dialog.js:101-104 | a shown message whose delay has run out is hidden and its handler called with 0 when it has buttons, else -1 |
| Dialog.NoDelayDialogStays | src/main/webapp/js/dialog.js:105-106 | a `nodelay` dialog is never completed by the count-down |
| Dialog.UndelayedDialogWaits | src/main/webapp/js/dialog.js:46-49 | a dialog requested without a delay, or with -1, is `nodelay` |
| Dialog.DialogController.constructor | src/main/webapp/js/dialog.js:57-59 | nothing shown and nothing waiting |
| Dialog.DialogController.AddMessage | src/main/webapp/js/dialog.js:126-130 | the message request is appended to the queue |
| Dialog.DialogController.AddDialog | src/main/webapp/js/dialog.js:132-136 | the dialog request is appended to the queue |
| Dialog.DialogController.RemoveMessage | src/main/webapp/js/dialog.js:138-145 | the new state is the message removal, which `RemoveById` characterises: the shown message with that id is hidden, or that id is filtered from the queue in order |
| Dialog.DialogController.RemoveDialog | src/main/webapp/js/dialog.js:147-155 | the new state is the dialog removal, which `RemoveById` characterises: the shown dialog with that id is hidden, or that id is filtered from the queue in order |
| Dialog.DialogController.HandleMessageComplete | src/main/webapp/js/dialog.js:157-161 | the state after a message completion |
| Dialog.DialogController.HandleDialogComplete | src/main/webapp/js/dialog.js:163-170 | the state after a dialog completion |
| Dialog.DialogController.RefreshItem | src/main/webapp/js/dialog.js:79-124 | one pass of `refreshItem`: count-down, expiry, then promotion |
| Dialog.DialogService.constructor | src/main/webapp/js/dialog.js:182 | the id counter starts at 1 |
| Dialog.DialogService.NextId | src/main/webapp/js/dialog.js:185 | each id handed out is greater than every id handed out before |
| Dialog.DialogService.CreateDialog | src/main/webapp/js/dialog.js:184-188 | a fresh id, and the dialog request queued under it |
| Dialog.DialogService.RemoveDialog | src/main/webapp/js/dialog.js:189-191 | the controller state becomes the dialog removal characterised by `RemoveById` |
| Dialog.DialogService.CreateMessage | src/main/webapp/js/dialog.js:192-196 | a fresh id, and the message request queued under it |
| Dialog.DialogService.RemoveMessage | src/main/webapp/js/dialog.js:197-199 | the controller state becomes the message removal characterised by `RemoveById` |
| Dialog.DialogService.SimpleMessage | src/main/webapp/js/dialog.js:200-208 | a message with one 'ok' button under a fresh id |
| Dialog.DialogService.ErrorMessage | src/main/webapp/js/dialog.js:209-214 | an error message wrapped in the connection- or server-error sentence, with one 'ok' button |
| Dialog.DialogService.AckDialog | src/main/webapp/js/dialog.js:215-217 | a dialog with one 'ok' button under a fresh id |
| Dialog.DialogService.YesNoDialog | src/main/webapp/js/dialog.js:218-221 | a yes/no dialog under a fresh id |
| Dialog.YesNoShape | src/main/webapp/js/dialog.js:218-221 | the yes/no dialog offers ['yes','no'] when yes is the default and ['no','yes'] otherwise, has delay -1 so it waits, and defaults to the first button |
| Connections.DateTextIsValid | src/main/webapp/js/connections.js:6-8 | every `yyyy-MM-dd` rendering of digits passes `isValidDate` |
| Connections.ValidDateIsDateText | src/main/webapp/js/connections.js:6-8 | every string that passes is such a rendering, so the check accepts exactly four digits, '-', two digits, '-', two digits over the whole string |
| Connections.DateAssembly | src/main/webapp/js/connections.js:7 | a valid date is its three digit runs joined by '-' |
| Connections.NoRangeCheck | src/main/webapp/js/connections.js:7 | month and day are not range-checked: "2017-13-99" passes |
| Connections.ValidateKeyExpiry | src/main/webapp/js/connections.js:10-16 | a missing or empty value fails; otherwise the result is true exactly when the trimmed value is "Never" or a valid date |
| Connections.ScopeTitleLines | src/main/webapp/js/connections.js:68-77 | the summary is "Authorized Scopes:\\n" followed by the scopes, one per line, with no trailing newline: its lines after the header are the space-separated scopes |
| Connections.Assign | src/main/webapp/js/connections.js:166 | `sel[key] = value`: the key maps to the value, every other key as before; an existing key keeps its place and a new one goes last |
| Connections.TickAllTicks | src/main/webapp/js/connections.js:164-168 | after ticking all, every offered scope is true and every other name is as it was |
| Connections.ScopesTextSplits | src/main/webapp/js/connections.js:199-207 | a new connection's scopes text splits back on ' ' into the selection's own keys, in order, unticked ones included |
| Connections.ConnectionsPage.constructor | src/main/webapp/js/connections.js:43-49 | an empty list, server kind 'latest', expiry 'Never' and an empty selection |
| Connections.ConnectionsPage.DisplayScopes | src/main/webapp/js/connections.js:68-76 | the line-by-line loop with the last line break cut off builds the scope summary |
| Connections.ConnectionsPage.WithDisplayScopes | src/main/webapp/js/connections.js:67-78 | every loaded connection gets its scope summary and is otherwise kept |
| Connections.ConnectionsPage.ShowList | src/main/webapp/js/connections.js:62-79 | the list becomes the loaded connections, each with its summary; nothing else changes |
| Connections.ConnectionsPage.ChangeConnectionExpiry | src/main/webapp/js/connections.js:132-140 | an index out of range changes nothing; otherwise that connection is edited, with expiry shown as "Never" when it is ≤ 0 and as a date otherwise |
| Connections.ConnectionsPage.ClearAllScopes | src/main/webapp/js/connections.js:160-162 | the selection becomes empty and nothing else changes |
| Connections.ConnectionsPage.SelectAllScopes | src/main/webapp/js/connections.js:164-168 | every scope on offer is ticked, and nothing else changes |
| Connections.ConnectionsPage.TickEvery | src/main/webapp/js/connections.js:165-167 | the loop ticks the offered scopes one after the other |
| Connections.ConnectionsPage.IsFormInvalid | src/main/webapp/js/connections.js:170-173 | true exactly for the field "Never", or for a field whose trimmed text is a valid date |
| Connections.ConnectionsPage.SaveConnection | src/main/webapp/js/connections.js:175-219 | the field is trimmed; an edit posts the key id and the expiry (-1 for "Never"); a new connection posts kid -1, that expiry, the server kind and the selection's keys joined by single spaces |
| Connections.ConnectionsPage.Create | src/main/webapp/js/connections.js:221-227 | a fresh dialog: no edited key, server kind 'latest', expiry 'Never', empty scopes and selection |
| Connections.ScopeValues | src/main/webapp/js/connections.js:165-166 | the value of every offered scope, in order |
| Connections.FormAgreesWithValidator | src/main/webapp/js/connections.js:10-16 | whatever `isFormInvalid` accepts the field validator accepts too, but " Never" is accepted by the validator and not by `isFormInvalid` |
| Connections.TrimNever | src/main/webapp/js/connections.js:13-14 | "Never" and " Never" both trim to "Never", which is not a date |
| Remote.ConvertLongToTime | src/main/webapp/js/remote.js:2-5 | a missing time, 0 and -1 all become null; any other value is kept as the date's time |
| Remote.MakeError | src/main/webapp/js/remote.js:8-12 | a missing object, or a missing field within it, gives code 0 and message '' |
| Remote.MakeErrorKeepsFields | src/main/webapp/js/remote.js:8-12 | an error with both fields present comes through unchanged |
| Remote.HandleRemoteResponse | src/main/webapp/js/remote.js:14-19 | with no response object the thrown error is code 0 and "internal service error"; otherwise it is the error built from that object, its fields kept when present |
| Remote.CutAt | src/main/webapp/js/remote.js:35-42 | the text before the first occurrence of the character, or the whole text when it is absent; what is cut off starts with that character |
| Remote.UrlFromWindowBase | src/main/webapp/js/remote.js:32-46 | the swagger address is the page address up to its first '#', then up to its first '?', followed by "api/swagger.json"; that base is a prefix of the address with neither character in it |
| Remote.BareUrlKept | src/main/webapp/js/remote.js:32-46 | an address with neither '#' nor '?' is kept whole before "api/swagger.json" |
| Remote.SwaggerService.constructor | src/main/webapp/js/remote.js:48 | the client cache starts empty |
| Remote.SwaggerService.GetSwagger | src/main/webapp/js/remote.js:51-66 | a missing or empty address means the page's own; a cached address returns its client and changes nothing; any other address builds one client, caches it and returns it |
| ProxyPage.FirstNamed | src/main/webapp/js/proxy.js:18-23 | a found index lies inside the pieces, from the starting point on |
| ProxyPage.ExtractAuthError | src/main/webapp/js/proxy.js:14-25 | the loop reports what the first piece named `auth_error` gives, and nothing when the search string is only '?' or empty |
| ProxyPage.FirstPieceWins | src/main/webapp/js/proxy.js:18-23 | the first piece named `auth_error` decides the result; later ones are ignored |
| ProxyPage.NoPieceNoError | src/main/webapp/js/proxy.js:18-24 | without a piece named `auth_error` there is no error |
| ProxyPage.ValueHasNoPlus | src/main/webapp/js/proxy.js:21 | after the '+' replacement, and before URI decoding, no '+' remains in a reported value |
| ProxyPage.ShownMenus | src/main/webapp/js/proxy.js:81-83 | the shown entries are exactly the entries whose filter passes, or that have none |
| ProxyPage.MenusShown | src/main/webapp/js/proxy.js:85-100 | the Front Page is always shown; Connections is shown exactly when a user source is signed in |

## Left out

- The byte forwarding done by the `ProxyServlet` superclass (`super.service`, the response copy, the other header copies). The model stops at what `service` decides and what `copyResponseEntity` writes.
- SSL and trust-store setup in `initTarget`, and property loading. These are library plumbing; the configuration is a value (`ProxyConfig.Config`).
- The key store (`ProxyAccessKey.checkHash`, `update`, `createKey`, `getAllKeys`, `deleteKey`). Its code and hash algorithm are not part of this model. The servlet consults it through `Env.checkHash` and `Env.update`; the services take its answers (key count, stored key, whether a delete succeeded) as parameters.
- The OAuth exchanges (`EVEAuthHandler.doRefresh`, the token exchange, the CharacterName request and its JSON parse). They are oracles that may fail: `Env.refresh` in the servlet, and an optional `TokenGrant` in the callback.
- The `getScopes` fetch of the upstream swagger.json. It is an optional map of scopes given to `Services.ScopesDecision`.
- `generateRandomKey`, which uses a time-seeded `Random` and a digest. The new state token is a parameter of `Put` and of the callback request.
- The sweep thread, its `synchronized` blocks and `Thread.sleep`. The sweep is one call of `Services.PendingKeys.Sweep` with `now` as a parameter. No interleaving with `Put` or `Take` is modelled.
- Persistence (JPA transactions, `merge`, the named queries). The account and source stores are in-memory maps and sequences.
- Character sets, GZIP streams and the readers and writers. They are a `Codec` of encode, decode, gzip and gunzip, assumed lossless only where a lemma says so.
- The regular-expression engine. Each of the five patterns is a hand-written matcher with its greedy or lazy match spelled out.
- `AuthSources.LastUsed`: among sources with equal `last`, the query's order is unspecified. The model takes the earliest row.
- `SwaggerRewrite.RewritePlain` and the other lemmas that require `PlainConfig`: they assume configuration strings free of '\\' and '$', which `appendReplacement` would read as escapes or group references. `Rewrite` itself models those escapes and fails on a bad one.
- `ProxyConfig`: the `(int)` cast of the configured proxy port is not modelled; the port is an `int`.
- A swagger.json response whose `Content-Encoding` header is missing makes the source dereference null. The model reports it as `CopyFailed(MissingContentEncoding)`.
- A null server type in `saveAccessKey` makes the source's `switch` throw. The model reports it as its own outcome (`ServerTypeMissing`).
- `ProxyServlet.EsiProxyServlet.Apply` writes the request attributes in one fixed order; the order of the source's `setAttribute` calls is not observable and is not modelled.
- Parsing and upper-casing use ASCII digits and letters only.
- Ids: accounts and sources each take consecutive ids from their own counter. In the source both draw from one database sequence, `account_sequence`, allocated in blocks of 10, so a uid never equals a sid and ids need not be consecutive. No property here depends on this.
- Angular and jQuery plumbing (`$scope`, `$apply`, `$timeout`, `$broadcast`, modals, popovers, date pickers, message centring) and SwaggerClient promises. Only the state changes are modelled.
- Dates in the front end (`$filter('date')`, `new Date(...).getTime()`, `new Date(time)`). They are parameters, or the time value is kept as it is.
- ProxyServlet.ForwardedQueryDropsCredentials: stated only for parameters whose names hold no '&' or '=' and whose values hold no '&'. `URLEncodedUtils.parse` (ESIProxyServlet.java:151) is the unconstrained parameter `Env.parseQuery`, so its decoding and its handling of empty names are not modelled. Lines 219-224 write the decoded values back without re-encoding, so `?esiProxyKey=1&esiProxyHash=h&x=%26esiProxyKey%3D2` forwards a piece `esiProxyKey=2`; `DecodedValueNamesCredential` shows the rebuilt query doing this.
- `decodeURIComponent` of the `auth_error` value. The model replaces '+' by a space and keeps the rest as it is.
- ProxyPage.ValueHasNoPlus: holds of the value before URI decoding only; the page decodes `%2B` back to '+', so `?auth_error=a%2Bb` reports "a+b".
- `hashCode` of `ProxyUserAccount` (ProxyUserAccount.java:126-135). Records are compared as values, and nothing in the core hashes them.
- Connections.ConnectionsPage.constructor: `currentScope` starts as `[]`. In the page it is undefined until `updateDialogScope` or `create` sets it (connections.js:146-155, 227), so a `selectAllScopes` before then throws a TypeError; the model ticks nothing instead.
- `expiresIn` is an unbounded integer. The token library returns a 32-bit `Integer` that may be null, and unboxing a null throws; the model has no null expiry, and its expiry contracts keep their `IsLong` guards.
- The dialog count-down's floating-point arithmetic and progress percentage. Delays are in integer tenths of a second, and progress is not modelled.
- JavaScript object key order. The scope selection keeps its keys in insertion order, as a sequence beside the map.
- `Connections.ConnectionsPage.Create` does not model `updateDialogScope` (connections.js:142-158), which fetches and caches the scope list through the remote service.
- `deleteConnection` and `getScopeList` in connections.js. They only chain remote calls and dialogs.
- services-ws.js, ProxyApplication.java, ServiceError.java and NoSuchKeyException.java. They are remote-call wiring or plain data; the data shapes appear as datatypes.

## Findings

| source | as written | input that shows it | evidently intended | confidence | as-written member | corrected member |
|---|---|---|---|---|---|---|
| src/main/java/enterprises/orbital/esi/proxy/ESIProxyServlet.java:349 | `copyRequestHeaders` reads the Authorization value with `getParameter("ESIProxyServlet.authHeader")`, a parameter of the client's query, not the request attribute `service` set at line 212 | any request with a valid key and hash and no `ESIProxyServlet.authHeader` parameter: `service` decides on `"Bearer " + token`, but no Authorization header is forwarded; a client that does pass that parameter has its own value forwarded | forward the attribute `service` set, so that the upstream server receives the bearer header | not executed | ProxyServlet.BearerHeaderDropped | ProxyServlet.EsiProxyServlet.ProxyRequestIntended |
