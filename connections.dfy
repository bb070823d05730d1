/**
 * The connections page: the validation of a key's expiry date, the scope
 * summary shown for each connection, the scope selection of the create
 * dialog, and the request the page sends when a connection is saved.
 */
module Connections {
  import opened Wrappers
  import opened Text

  // ---------------------------------------------------------------------------
  // Validation
  // ---------------------------------------------------------------------------

  /** `isValidDate`: exactly four digits, '-', two digits, '-', two digits, and nothing else. */
  predicate IsValidDate(s: string) {
    |s| == 10 && AllDigits(s[..4]) && s[4] == '-' && AllDigits(s[5..7]) && s[7] == '-' && AllDigits(s[8..])
  }

  /** `n` as exactly `width` decimal digits, zero-padded (higher digits dropped). */
  function Pad(n: nat, width: nat): (r: string)
    ensures |r| == width && AllDigits(r)
  {
    if width == 0 then [] else Pad(n / 10, width - 1) + [DigitChar(n % 10)]
  }

  /** A date written `yyyy-MM-dd`. */
  function DateText(year: nat, month: nat, day: nat): string {
    Pad(year, 4) + "-" + Pad(month, 2) + "-" + Pad(day, 2)
  }

  /** A string of digits is its own value, padded to its own length. */
  lemma {:induction false} PadDigits(s: string)
    requires AllDigits(s)
    ensures Pad(DigitsValue(s), |s|) == s
  {
    if |s| > 0 {
      var init := s[..|s| - 1];
      assert AllDigits(init);
      PadDigits(init);
      var n := DigitsValue(s);
      assert n / 10 == DigitsValue(init) && n % 10 == DigitValue(s[|s| - 1]);
      assert s == init + [s[|s| - 1]];
    }
  }

  /** Every `yyyy-MM-dd` rendering passes, month and day unchecked. */
  lemma DateTextIsValid(year: nat, month: nat, day: nat)
    ensures IsValidDate(DateText(year, month, day))
  {
    var s := DateText(year, month, day);
    assert s[..4] == Pad(year, 4);
    assert s[5..7] == Pad(month, 2);
    assert s[8..] == Pad(day, 2);
  }

  /** Every string that passes is such a rendering, so the check accepts exactly the `yyyy-MM-dd` shape. */
  lemma ValidDateIsDateText(s: string)
    requires IsValidDate(s)
    ensures s == DateText(DigitsValue(s[..4]), DigitsValue(s[5..7]), DigitsValue(s[8..]))
  {
    var y, m, d := s[..4], s[5..7], s[8..];
    PadDigits(y);
    PadDigits(m);
    PadDigits(d);
    assert |y| == 4 && |m| == 2 && |d| == 2;
    assert Pad(DigitsValue(y), 4) == y;
    assert Pad(DigitsValue(m), 2) == m;
    assert Pad(DigitsValue(d), 2) == d;
    DateAssembly(s);
  }

  /** A valid date is its three digit runs joined by '-'. */
  lemma DateAssembly(s: string)
    requires IsValidDate(s)
    ensures s == s[..4] + "-" + s[5..7] + "-" + s[8..]
  {
    var t := s[..4] + "-" + s[5..7] + "-" + s[8..];
    assert |t| == 10;
    forall k | 0 <= k < 10
      ensures t[k] == s[k]
    {
      if k < 4 {
      } else if k == 4 {
      } else if k < 7 {
        assert t[k] == s[5..7][k - 5];
      } else if k == 7 {
      } else {
        assert t[k] == s[8..][k - 8];
      }
    }
  }

  /** Months and days are not range-checked. */
  lemma NoRangeCheck()
    ensures IsValidDate("2017-13-99")
  {
    var s := "2017-13-99";
    assert s[..4] == "2017" && s[5..7] == "13" && s[8..] == "99";
  }

  /** `validateKeyExpiry`: a missing or empty value fails; otherwise the trimmed value must be "Never" or a date. */
  function ValidateKeyExpiry(name: Option<string>): (r: bool)
    ensures name.None? || name.value == "" ==> !r
    ensures name.Some? && name.value != "" ==> (r <==> Trim(name.value) == "Never" || IsValidDate(Trim(name.value)))
  {
    if name.None? || |name.value| == 0 then false
    else
      var trimmed := Trim(name.value);
      if trimmed == "Never" then true else IsValidDate(trimmed)
  }

  // ---------------------------------------------------------------------------
  // Scope summaries and selections
  // ---------------------------------------------------------------------------

  const SCOPES_HEADER: string := "Authorized Scopes:\n"

  /** The summary shown for a connection: the header, then each space-separated scope on its own line. */
  function ScopeTitle(scopes: string): string {
    SCOPES_HEADER + Join(Split(scopes, ' '), '\n')
  }

  /** Each piece followed by a newline. */
  function Lines(xs: seq<string>): string {
    if |xs| == 0 then "" else Lines(xs[..|xs| - 1]) + xs[|xs| - 1] + "\n"
  }

  lemma LinesStep(xs: seq<string>, j: nat)
    requires j < |xs|
    ensures Lines(xs[..j + 1]) == Lines(xs[..j]) + xs[j] + "\n"
  {
    assert xs[..j + 1][..j] == xs[..j];
  }

  lemma DropLastNewline(h: string, body: string, t: string)
    requires t == h + (body + "\n")
    ensures |t| > 0 && t[..|t| - 1] == h + body
  {
  }

  lemma {:induction false} LinesJoin(xs: seq<string>)
    requires |xs| >= 1
    ensures Lines(xs) == Join(xs, '\n') + "\n"
  {
    if |xs| > 1 {
      var init := xs[..|xs| - 1];
      LinesJoin(init);
      JoinSnoc(init, xs[|xs| - 1], '\n');
      assert init + [xs[|xs| - 1]] == xs;
    }
  }

  /** The summary's lines are the connection's scopes again (scopes never hold a line break). */
  lemma ScopeTitleLines(scopes: string)
    requires '\n' !in scopes
    ensures var t := ScopeTitle(scopes);
      |t| >= |SCOPES_HEADER| && t[..|SCOPES_HEADER|] == SCOPES_HEADER
      && Split(t[|SCOPES_HEADER|..], '\n') == Split(scopes, ' ')
  {
    var pieces := Split(scopes, ' ');
    var t := ScopeTitle(scopes);
    assert t[|SCOPES_HEADER|..] == Join(pieces, '\n');
    forall i | 0 <= i < |pieces|
      ensures '\n' !in pieces[i]
    {
      JoinSplit(scopes, ' ');
      PieceInJoin(pieces, i, ' ');
    }
    SplitJoin(pieces, '\n');
  }

  /** A character of one piece is a character of the join. */
  lemma {:induction false} PieceInJoin(xs: seq<string>, i: nat, sep: char)
    requires i < |xs|
    ensures forall c :: c in xs[i] ==> c in Join(xs, sep)
  {
    if |xs| > 1 && i > 0 {
      PieceInJoin(xs[1..], i - 1, sep);
      assert Join(xs, sep) == xs[0] + [sep] + Join(xs[1..], sep);
    } else if |xs| > 1 {
      assert Join(xs, sep) == xs[0] + ([sep] + Join(xs[1..], sep));
    }
  }

  /** The scope checkboxes: an object from scope name to ticked, in the order the names were first set. */
  type Selection = seq<(string, bool)>

  function Keys(sel: Selection): (r: seq<string>)
    ensures |r| == |sel| && forall i :: 0 <= i < |sel| ==> r[i] == sel[i].0
  {
    if |sel| == 0 then [] else Keys(sel[..|sel| - 1]) + [sel[|sel| - 1].0]
  }

  function Lookup(sel: Selection, key: string): Option<bool> {
    if |sel| == 0 then None
    else if sel[|sel| - 1].0 == key then Some(sel[|sel| - 1].1)
    else Lookup(sel[..|sel| - 1], key)
  }

  /** `sel[key] = value`: an existing name keeps its place, a new one goes last. */
  function Assign(sel: Selection, key: string, value: bool): (r: Selection)
    ensures Lookup(r, key) == Some(value)
    ensures forall k :: k != key ==> Lookup(r, k) == Lookup(sel, k)
    ensures Lookup(sel, key).Some? ==> Keys(r) == Keys(sel)
    ensures Lookup(sel, key).None? ==> Keys(r) == Keys(sel) + [key]
  {
    if |sel| == 0 then [(key, value)]
    else if sel[|sel| - 1].0 == key then sel[..|sel| - 1] + [(key, value)]
    else if Lookup(sel[..|sel| - 1], key).None? then
      assert (sel + [(key, value)])[..|sel|] == sel;
      sel + [(key, value)]
    else
      var init := Assign(sel[..|sel| - 1], key, value);
      assert (init + [sel[|sel| - 1]])[..|init|] == init;
      init + [sel[|sel| - 1]]
  }

  /** Ticking every listed scope, one after the other. */
  function TickAll(sel: Selection, values: seq<string>): Selection {
    if |values| == 0 then sel else Assign(TickAll(sel, values[..|values| - 1]), values[|values| - 1], true)
  }

  /** After ticking all, every listed scope is ticked and every other name is as it was. */
  lemma {:induction false} TickAllTicks(sel: Selection, values: seq<string>)
    ensures forall i :: 0 <= i < |values| ==> Lookup(TickAll(sel, values), values[i]) == Some(true)
    ensures forall k :: k !in values ==> Lookup(TickAll(sel, values), k) == Lookup(sel, k)
  {
    if |values| > 0 {
      var init := values[..|values| - 1];
      TickAllTicks(sel, init);
      forall k | k !in values
        ensures Lookup(TickAll(sel, values), k) == Lookup(sel, k)
      {
        assert k !in init;
      }
      forall i | 0 <= i < |values|
        ensures Lookup(TickAll(sel, values), values[i]) == Some(true)
      {
        if i < |values| - 1 {
          assert values[i] == init[i];
        }
      }
    }
  }

  /** The `scopes` text a new connection carries: every name in the selection, joined by single spaces. */
  function ScopesText(sel: Selection): string {
    Join(Keys(sel), ' ')
  }

  /**
   * The scopes text splits back into the selection's names, unticked ones
   * included: a box ticked and then unticked still sends its scope.
   */
  lemma ScopesTextSplits(sel: Selection)
    requires |sel| >= 1
    requires forall i :: 0 <= i < |sel| ==> ' ' !in sel[i].0
    ensures Split(ScopesText(sel), ' ') == Keys(sel)
    ensures forall i :: 0 <= i < |sel| && !sel[i].1 ==> sel[i].0 in Split(ScopesText(sel), ' ')
  {
    SplitJoin(Keys(sel), ' ');
  }

  // ---------------------------------------------------------------------------
  // The page
  // ---------------------------------------------------------------------------

  /** A listed access key, as the page uses it. */
  datatype Connection = Connection(kid: int, expiry: int, serverType: string, scopes: string, displayScopes: string)

  /** A scope the server offers: its name and description. */
  datatype ScopeInfo = ScopeInfo(value: string, description: string)

  /** What `saveConnection` posts: an expiry change for the edited key, or a new key (id -1). */
  datatype SaveRequest = ChangeExpiry(kid: int, expiry: int) | CreateKey(kid: int, expiry: int, serverType: string, scopes: string)

  /** The expiry a trimmed date field stands for: -1 for "Never", else the date's time. */
  function ExpiryOf(trimmed: string, toMillis: string -> int): int {
    if trimmed == "Never" then -1 else toMillis(trimmed)
  }

  /** `ConnectionsCtrl`. */
  class ConnectionsPage {
    var connectionList: seq<Connection>
    var modConnection: Option<Connection>
    var serverType: string
    var expiryDate: string
    var currentScope: seq<ScopeInfo>
    var currentScopeSelection: Selection

    constructor ()
      ensures connectionList == [] && modConnection.None? && serverType == "latest" && expiryDate == "Never"
      ensures currentScope == [] && currentScopeSelection == []
    {
      connectionList := [];
      modConnection := None;
      serverType := "latest";
      expiryDate := "Never";
      currentScope := [];
      currentScopeSelection := [];
    }

    /** The scope summary, built a line at a time with the last line break cut off. */
    static method DisplayScopes(scopes: string) returns (title: string)
      ensures title == ScopeTitle(scopes)
    {
      var pieces := Split(scopes, ' ');
      var scopeTitle := SCOPES_HEADER;
      var j := 0;
      while j < |pieces|
        invariant 0 <= j <= |pieces|
        invariant scopeTitle == SCOPES_HEADER + Lines(pieces[..j])
      {
        LinesStep(pieces, j);
        scopeTitle := scopeTitle + pieces[j] + "\n";
        j := j + 1;
      }
      assert pieces[..j] == pieces;
      LinesJoin(pieces);
      DropLastNewline(SCOPES_HEADER, Join(pieces, '\n'), scopeTitle);
      if |scopeTitle| > 0 {
        scopeTitle := scopeTitle[..|scopeTitle| - 1];
      }
      title := scopeTitle;
    }

    /** The list as loaded, each connection given its scope summary. */
    method ShowList(result: seq<Connection>)
      modifies this
      ensures |connectionList| == |result|
      ensures forall i :: 0 <= i < |result| ==> connectionList[i] == result[i].(displayScopes := ScopeTitle(result[i].scopes))
      ensures modConnection == old(modConnection) && expiryDate == old(expiryDate) && serverType == old(serverType)
      ensures currentScope == old(currentScope) && currentScopeSelection == old(currentScopeSelection)
    {
      connectionList := WithDisplayScopes(result);
    }

    /** The loop of `reloadList` that gives every connection its summary. */
    static method WithDisplayScopes(result: seq<Connection>) returns (list: seq<Connection>)
      ensures |list| == |result|
      ensures forall i :: 0 <= i < |result| ==> list[i] == result[i].(displayScopes := ScopeTitle(result[i].scopes))
    {
      list := result;
      var i := 0;
      while i < |list|
        invariant 0 <= i <= |list| == |result|
        invariant forall k :: 0 <= k < i ==> list[k] == result[k].(displayScopes := ScopeTitle(result[k].scopes))
        invariant forall k :: i <= k < |result| ==> list[k] == result[k]
      {
        var title := DisplayScopes(list[i].scopes);
        list := list[i := list[i].(displayScopes := title)];
        i := i + 1;
      }
    }

    /** `changeConnectionExpiry`: edit the listed key at `index`, its expiry shown as a date or "Never". */
    method ChangeConnectionExpiry(index: int, formatDate: int -> string)
      modifies this
      ensures index < 0 || index >= |old(connectionList)| ==>
        modConnection == old(modConnection) && expiryDate == old(expiryDate)
      ensures 0 <= index < |old(connectionList)| ==>
        && modConnection == Some(old(connectionList)[index])
        && expiryDate == (if old(connectionList)[index].expiry <= 0 then "Never" else formatDate(old(connectionList)[index].expiry))
      ensures connectionList == old(connectionList) && serverType == old(serverType)
      ensures currentScope == old(currentScope) && currentScopeSelection == old(currentScopeSelection)
    {
      if index < 0 || index >= |connectionList| {
        return;
      }
      modConnection := Some(connectionList[index]);
      expiryDate := if modConnection.value.expiry <= 0 then "Never" else formatDate(modConnection.value.expiry);
    }

    /** `clearAllScopes`. */
    method ClearAllScopes()
      modifies this
      ensures currentScopeSelection == []
      ensures connectionList == old(connectionList) && modConnection == old(modConnection)
      ensures expiryDate == old(expiryDate) && serverType == old(serverType) && currentScope == old(currentScope)
    {
      currentScopeSelection := [];
    }

    /** `selectAllScopes`: tick every scope on offer. */
    method SelectAllScopes()
      modifies this
      ensures currentScopeSelection == TickAll(old(currentScopeSelection), ScopeValues(currentScope))
      ensures connectionList == old(connectionList) && modConnection == old(modConnection)
      ensures expiryDate == old(expiryDate) && serverType == old(serverType) && currentScope == old(currentScope)
    {
      currentScopeSelection := TickEvery(currentScopeSelection, currentScope);
    }

    /** The loop of `selectAllScopes`. */
    static method TickEvery(start: Selection, scopes: seq<ScopeInfo>) returns (sel: Selection)
      ensures sel == TickAll(start, ScopeValues(scopes))
    {
      sel := start;
      var i := 0;
      while i < |scopes|
        invariant 0 <= i <= |scopes|
        invariant sel == TickAll(start, ScopeValues(scopes[..i]))
      {
        assert scopes[..i + 1][..i] == scopes[..i];
        assert ScopeValues(scopes[..i + 1]) == ScopeValues(scopes[..i]) + [scopes[i].value];
        assert ScopeValues(scopes[..i + 1])[..i] == ScopeValues(scopes[..i]);
        sel := Assign(sel, scopes[i].value, true);
        i := i + 1;
      }
      assert scopes[..i] == scopes;
    }

    /** `isFormInvalid`: true for exactly "Never", otherwise whether the trimmed field is a date. */
    function IsFormInvalid(): (r: bool)
      reads this
      ensures r <==> expiryDate == "Never" || IsValidDate(Trim(expiryDate))
    {
      if expiryDate == "Never" then true else IsValidDate(Trim(expiryDate))
    }

    /**
     * `saveConnection`: trim the date field, then post either the edited
     * key's new expiry or a new key with the chosen server and every name in
     * the scope selection.
     */
    method SaveConnection(toMillis: string -> int) returns (req: SaveRequest)
      modifies this
      ensures expiryDate == Trim(old(expiryDate))
      ensures old(modConnection).Some? ==> req == ChangeExpiry(old(modConnection).value.kid, ExpiryOf(expiryDate, toMillis))
      ensures old(modConnection).None? ==>
        req == CreateKey(-1, ExpiryOf(expiryDate, toMillis), serverType, ScopesText(currentScopeSelection))
      ensures connectionList == old(connectionList) && modConnection == old(modConnection) && serverType == old(serverType)
      ensures currentScope == old(currentScope) && currentScopeSelection == old(currentScopeSelection)
    {
      expiryDate := Trim(expiryDate);
      var expiry := -1;
      if expiryDate != "Never" {
        expiry := toMillis(expiryDate);
      }
      if modConnection.Some? {
        req := ChangeExpiry(modConnection.value.kid, expiry);
      } else {
        var scopeList: seq<string> := [];
        var i := 0;
        while i < |currentScopeSelection|
          invariant 0 <= i <= |currentScopeSelection|
          invariant scopeList == Keys(currentScopeSelection[..i])
        {
          assert currentScopeSelection[..i + 1][..i] == currentScopeSelection[..i];
          scopeList := scopeList + [currentScopeSelection[i].0];
          i := i + 1;
        }
        assert currentScopeSelection[..i] == currentScopeSelection;
        req := CreateKey(-1, expiry, serverType, Join(scopeList, ' '));
      }
    }

    /** `create`: a fresh dialog for a new connection. */
    method Create()
      modifies this
      ensures modConnection.None? && serverType == "latest" && expiryDate == "Never"
      ensures currentScopeSelection == [] && currentScope == []
      ensures connectionList == old(connectionList)
    {
      modConnection := None;
      serverType := "latest";
      expiryDate := "Never";
      currentScopeSelection := [];
      currentScope := [];
    }
  }

  function ScopeValues(scopes: seq<ScopeInfo>): (r: seq<string>)
    ensures |r| == |scopes| && forall i :: 0 <= i < |scopes| ==> r[i] == scopes[i].value
  {
    if |scopes| == 0 then [] else ScopeValues(scopes[..|scopes| - 1]) + [scopes[|scopes| - 1].value]
  }

  /**
   * A field the form accepts also passes the field's validator, but not the
   * other way round: " Never" passes the validator and fails the form.
   */
  lemma FormAgreesWithValidator(expiryDate: string)
    ensures (expiryDate == "Never" || IsValidDate(Trim(expiryDate))) ==> ValidateKeyExpiry(Some(expiryDate))
    ensures ValidateKeyExpiry(Some(" Never")) && !(" Never" == "Never" || IsValidDate(Trim(" Never")))
  {
    TrimNever();
    if expiryDate != "Never" && IsValidDate(Trim(expiryDate)) {
      assert |expiryDate| > 0;
    }
  }

  lemma TrimNever()
    ensures Trim("Never") == "Never" && Trim(" Never") == "Never"
    ensures !IsValidDate("Never")
  {
    var n := "Never";
    assert !IsJsSpace(n[0]) && !IsJsSpace(n[4]);
    assert TrimStart(n) == n;
    assert TrimEnd(n) == n;
    var m := " Never";
    assert m[1..] == n;
    assert TrimStart(m) == TrimStart(n);
  }
}
