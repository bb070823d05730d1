/**
 * The proxy page's top-level script: the sign-on error read from the page
 * address, and the menu entries shown to the user.
 */
module ProxyPage {
  import opened Wrappers
  import opened Text

  /**
   * The `auth_error` the page reports: none (null), the value with every
   * '+' read as a space (URI decoding aside), or the TypeError raised when
   * the first `auth_error` piece has no '=' and so no value to replace in.
   */
  datatype AuthError = NoAuthError | AuthErrorValue(value: string) | MissingValue

  /** What one `name=value` piece gives, when its name is `auth_error`. */
  function PieceError(piece: string): AuthError {
    var next := Split(piece, '=');
    if |next| >= 2 then AuthErrorValue(ReplaceChar(next[1], '+', ' ')) else MissingValue
  }

  predicate NamesAuthError(piece: string) {
    Split(piece, '=')[0] == "auth_error"
  }

  /** The index of the first piece, from `from` on, named `auth_error`. */
  function FirstNamed(vals: seq<string>, from: nat): (r: Option<nat>)
    ensures r.Some? ==> from <= r.value < |vals|
    decreases |vals| - from
  {
    if from >= |vals| then None
    else if NamesAuthError(vals[from]) then Some(from)
    else FirstNamed(vals, from + 1)
  }

  /** The pieces of the query: the search string without its '?', split on '&'. */
  function QueryPieces(search: string): seq<string>
    requires |search| > 1
  {
    Split(search[1..], '&')
  }

  /** The error the pieces report: that of the first one named `auth_error`, if any. */
  function PiecesError(vals: seq<string>): AuthError {
    match FirstNamed(vals, 0)
    case None => NoAuthError
    case Some(j) => PieceError(vals[j])
  }

  /** The specification of the extraction: nothing unless there is more than the '?'. */
  function AuthErrorOf(search: string): AuthError {
    if |search| > 1 then PiecesError(QueryPieces(search)) else NoAuthError
  }

  /** The page's extraction loop: scan the pieces and stop at the first one named `auth_error`. */
  method ExtractAuthError(search: string) returns (authError: AuthError)
    ensures authError == AuthErrorOf(search)
  {
    authError := NoAuthError;
    if |search| > 1 {
      var vals := Split(search[1..], '&');
      var i := 0;
      while i < |vals|
        invariant 0 <= i <= |vals|
        invariant authError == NoAuthError
        invariant FirstNamed(vals, 0) == FirstNamed(vals, i)
      {
        var next := Split(vals[i], '=');
        if next[0] == "auth_error" {
          if |next| >= 2 {
            authError := AuthErrorValue(ReplaceChar(next[1], '+', ' '));
          } else {
            authError := MissingValue;
          }
          break;
        }
        i := i + 1;
      }
    }
  }

  /** The first piece named `auth_error` decides; later ones are ignored. */
  lemma {:induction false} FirstPieceWins(vals: seq<string>, from: nat, j: nat)
    requires from <= j < |vals| && NamesAuthError(vals[j])
    requires forall k {:trigger NamesAuthError(vals[k])} :: from <= k < j ==> !NamesAuthError(vals[k])
    ensures FirstNamed(vals, from) == Some(j)
    ensures from == 0 ==> PiecesError(vals) == PieceError(vals[j])
    decreases j - from
  {
    if from < j {
      assert !NamesAuthError(vals[from]);
      FirstPieceWins(vals, from + 1, j);
    }
  }

  /** Without a piece named `auth_error` there is no error. */
  lemma {:induction false} NoPieceNoError(vals: seq<string>, from: nat)
    requires forall k {:trigger NamesAuthError(vals[k])} :: from <= k < |vals| ==> !NamesAuthError(vals[k])
    ensures FirstNamed(vals, from) == None
    ensures from == 0 ==> PiecesError(vals) == NoAuthError
    decreases |vals| - from
  {
    if from < |vals| {
      assert !NamesAuthError(vals[from]);
      NoPieceNoError(vals, from + 1);
    }
  }

  /** A reported value holds no '+': each one is read as a space. */
  lemma ValueHasNoPlus(search: string)
    ensures AuthErrorOf(search).AuthErrorValue? ==> '+' !in AuthErrorOf(search).value
  {
  }

  // ---------------------------------------------------------------------------
  // Menus
  // ---------------------------------------------------------------------------

  /** The filters a menu entry may carry: the Connections entry needs a signed-in source. */
  datatype MenuFilter = HasUserSource

  datatype Menu = Menu(menuID: int, title: string, display: string, urlPrefix: string, link: string, filter: Option<MenuFilter>)

  /** `proxymenus`. */
  const PROXY_MENUS: seq<Menu> := [
    Menu(1, "Front Page", "Home", "/main/", "#/main", None),
    Menu(2, "Connections", "Connections", "/connections/", "#/connections", Some(HasUserSource))
  ]

  /** `menufilter`: the entry's own filter when it has one, else shown; `userSource` is null or not. */
  function ShowMenu(value: Menu, userSource: Option<int>): bool {
    match value.filter
    case None => true
    case Some(HasUserSource) => userSource.Some?
  }

  /** The entries the menu repeat shows, in order. */
  function ShownMenus(menus: seq<Menu>, userSource: Option<int>): (r: seq<Menu>)
    ensures forall m :: m in r <==> m in menus && ShowMenu(m, userSource)
  {
    if |menus| == 0 then []
    else
      var rest := ShownMenus(menus[1..], userSource);
      assert forall m :: m in menus <==> m == menus[0] || m in menus[1..];
      if ShowMenu(menus[0], userSource) then [menus[0]] + rest else rest
  }

  /** The front page is always offered; the Connections page exactly when a user source is signed in. */
  lemma MenusShown(userSource: Option<int>)
    ensures userSource.Some? ==> ShownMenus(PROXY_MENUS, userSource) == PROXY_MENUS
    ensures userSource.None? ==> ShownMenus(PROXY_MENUS, userSource) == [PROXY_MENUS[0]]
  {
    assert PROXY_MENUS[1..][1..] == [];
    assert ShownMenus(PROXY_MENUS[1..][1..], userSource) == [];
    assert PROXY_MENUS[1..] == [PROXY_MENUS[1]];
  }
}
