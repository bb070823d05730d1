/**
 * Authentication sources: the record linking an account to the identity it
 * signed on with, its value equality, and the source table with its
 * queries and its load-modify-merge updates, kept here as a sequence of rows
 * with the database sequence as a counter.
 */
module AuthSources {
  import opened Wrappers
  import opened Accounts

  /**
   * `ProxyUserAuthSource`: the row id, the owning account, the source name,
   * the screen name, the details text and the last sign-on time
   * (milliseconds UTC, -1 until set). The reference fields may be null.
   */
  datatype AuthSource = AuthSource(
    sid: int,
    account: Option<Account>,
    source: Option<string>,
    screenName: Option<string>,
    details: Option<string>,
    last: int)

  /** A record as the no-argument constructor leaves it. */
  function NewSource(): (s: AuthSource)
    ensures s.last == UNSET_TIME && s.account.None?
  {
    AuthSource(0, None, None, None, None, UNSET_TIME)
  }

  /** `equals`: null-aware comparison of account, details, last, screen name, sid and source. */
  predicate SourceEquals(a: AuthSource, b: AuthSource) {
    (if a.account.None? then b.account.None? else b.account.Some? && Equals(a.account.value, b.account.value))
    && (if a.details.None? then b.details.None? else a.details == b.details)
    && a.last == b.last
    && (if a.screenName.None? then b.screenName.None? else a.screenName == b.screenName)
    && a.sid == b.sid
    && (if a.source.None? then b.source.None? else a.source == b.source)
  }

  /** `equals` holds exactly when the six fields are the same. */
  lemma SourceEqualsIsSameFields(a: AuthSource, b: AuthSource)
    ensures SourceEquals(a, b) <==> a == b
  {
    if a.account.Some? && b.account.Some? && Equals(a.account.value, b.account.value) {
      assert a.account.value == b.account.value;
    }
  }

  /** The query `c.account = :account and c.source = :source`: accounts compare by uid. */
  predicate IsRecordOf(r: AuthSource, uid: int, source: string) {
    r.account.Some? && r.account.value.uid == uid && r.source == Some(source)
  }

  predicate OwnedBy(r: AuthSource, uid: int) {
    r.account.Some? && r.account.value.uid == uid
  }

  /** The positions, from `from` on, of the rows the query selects. */
  function MatchIndices(rows: seq<AuthSource>, uid: int, source: string, from: nat): (ix: seq<nat>)
    requires from <= |rows|
    ensures forall k :: 0 <= k < |ix| ==> from <= ix[k] < |rows| && IsRecordOf(rows[ix[k]], uid, source)
    ensures forall i :: from <= i < |rows| && IsRecordOf(rows[i], uid, source) ==> i in ix
    ensures forall k, l :: 0 <= k < l < |ix| ==> ix[k] < ix[l]
    decreases |rows| - from
  {
    if from == |rows| then []
    else
      var rest := MatchIndices(rows, uid, source, from + 1);
      if IsRecordOf(rows[from], uid, source) then [from] + rest else rest
  }

  /**
   * `getSource`: the one row the query selects. No row, or more than one
   * (`getSingleResult` then throws and the error is logged), gives null; so
   * does a null account or source, which no row matches.
   */
  function LookupIndex(rows: seq<AuthSource>, account: Option<Account>, source: Option<string>): (r: Option<nat>)
    ensures r.Some? ==> account.Some? && source.Some?
    ensures r.Some? ==> r.value < |rows| && IsRecordOf(rows[r.value], account.value.uid, source.value)
    ensures r.Some? ==> forall i :: 0 <= i < |rows| && IsRecordOf(rows[i], account.value.uid, source.value) ==> i == r.value
    ensures r.None? && account.Some? && source.Some? ==>
      (forall i :: 0 <= i < |rows| ==> !IsRecordOf(rows[i], account.value.uid, source.value))
      || exists i, j :: 0 <= i < j < |rows| && IsRecordOf(rows[i], account.value.uid, source.value) && IsRecordOf(rows[j], account.value.uid, source.value)
  {
    if account.None? || source.None? then None
    else
      var ix := MatchIndices(rows, account.value.uid, source.value, 0);
      if |ix| == 1 then Some(ix[0])
      else
        assert |ix| > 1 ==> IsRecordOf(rows[ix[0]], account.value.uid, source.value) && IsRecordOf(rows[ix[1]], account.value.uid, source.value);
        None
  }

  function Lookup(rows: seq<AuthSource>, account: Option<Account>, source: Option<string>): (r: Option<AuthSource>)
  {
    match LookupIndex(rows, account, source)
    case None => None
    case Some(i) => Some(rows[i])
  }

  /**
   * `getLastUsedSource`: among the account's rows, one with the greatest
   * `last` (the query orders by `last` descending and keeps the first;
   * among equal times this takes the earliest row), or null when the
   * account has none.
   */
  function LastUsed(rows: seq<AuthSource>, uid: int): (r: Option<AuthSource>)
    ensures r.None? <==> forall i :: 0 <= i < |rows| ==> !OwnedBy(rows[i], uid)
    ensures r.Some? ==> r.value in rows && OwnedBy(r.value, uid)
    ensures r.Some? ==> forall i :: 0 <= i < |rows| && OwnedBy(rows[i], uid) ==> rows[i].last <= r.value.last
  {
    if |rows| == 0 then None
    else
      var rest := LastUsed(rows[1..], uid);
      assert forall i :: 1 <= i < |rows| ==> rows[i] == rows[1..][i - 1];
      if OwnedBy(rows[0], uid) && (rest.None? || rows[0].last >= rest.value.last) then Some(rows[0]) else rest
  }

  /** `getBySourceScreenname`: the first row with that source and screen name, or null. */
  function BySourceScreenname(rows: seq<AuthSource>, source: string, screenName: string): (r: Option<AuthSource>)
    ensures r.Some? ==> r.value in rows && r.value.source == Some(source) && r.value.screenName == Some(screenName)
    ensures r.None? ==> forall i :: 0 <= i < |rows| ==> rows[i].source != Some(source) || rows[i].screenName != Some(screenName)
  {
    if |rows| == 0 then None
    else if rows[0].source == Some(source) && rows[0].screenName == Some(screenName) then Some(rows[0])
    else
      assert forall i :: 1 <= i < |rows| ==> rows[i] == rows[1..][i - 1];
      BySourceScreenname(rows[1..], source, screenName)
  }

  /** The rows without the one at `i`, the others in order. */
  function Without(rows: seq<AuthSource>, i: nat): (r: seq<AuthSource>)
    requires i < |rows|
    ensures |r| == |rows| - 1
    ensures forall k :: 0 <= k < i ==> r[k] == rows[k]
    ensures forall k :: i <= k < |r| ==> r[k] == rows[k + 1]
  {
    rows[..i] + rows[i + 1..]
  }

  /** The source rows, and the next value of the id sequence. */
  class SourceStore {
    var rows: seq<AuthSource>
    var nextSid: int

    ghost predicate Valid()
      reads this
    {
      (forall i :: 0 <= i < |rows| ==> rows[i].sid < nextSid)
      && (forall i, j :: 0 <= i < j < |rows| ==> rows[i].sid != rows[j].sid)
    }

    constructor ()
      ensures Valid() && rows == [] && nextSid == FIRST_UID
    {
      rows := [];
      nextSid := FIRST_UID;
    }

    function GetSource(account: Account, source: string): (r: Option<AuthSource>)
      reads this
      ensures r.Some? ==> r.value in rows && IsRecordOf(r.value, account.uid, source)
      ensures r.Some? <==> |MatchIndices(rows, account.uid, source, 0)| == 1
    {
      Lookup(rows, Some(account), Some(source))
    }

    function GetLastUsedSource(account: Account): Option<AuthSource>
      reads this
    {
      LastUsed(rows, account.uid)
    }

    /**
     * `createSource`: the account's row for that source when there is
     * exactly one; otherwise a new row owned by the account and last used
     * now. Two or more rows make `getSingleResult` throw, which `getSource`
     * catches and reports as null, so a further row is appended then too.
     */
    method CreateSource(owner: Account, source: string, screenName: Option<string>, details: Option<string>, now: int)
      returns (r: Option<AuthSource>)
      requires Valid()
      modifies this
      ensures Valid()
      ensures old(GetSource(owner, source)).Some? ==>
        r == old(GetSource(owner, source)) && rows == old(rows) && nextSid == old(nextSid)
      ensures old(|MatchIndices(rows, owner.uid, source, 0)|) != 1 ==>
        r == Some(AuthSource(old(nextSid), Some(owner), Some(source), screenName, details, now))
        && rows == old(rows) + [r.value] && nextSid == old(nextSid) + 1
      ensures r.Some?
      ensures old(|MatchIndices(rows, owner.uid, source, 0)|) <= 1 ==> GetSource(owner, source) == r
      ensures old(|MatchIndices(rows, owner.uid, source, 0)|) > 1 ==> GetSource(owner, source).None?
    {
      var ix := MatchIndices(rows, owner.uid, source, 0);
      if |ix| == 1 {
        return Some(rows[ix[0]]);
      }
      var result := NewSource();
      result := result.(sid := nextSid, account := Some(owner), source := Some(source));
      result := result.(screenName := screenName, details := details, last := now);
      AppendedLookup(rows, result, owner, source);
      rows := rows + [result];
      nextSid := nextSid + 1;
      r := Some(result);
    }

    /** `removeSourceIfExists`: the account's one row for that source is deleted; otherwise nothing changes. */
    method RemoveSourceIfExists(owner: Account, source: string)
      requires Valid()
      modifies this
      ensures Valid() && nextSid == old(nextSid)
      ensures old(LookupIndex(rows, Some(owner), Some(source))).None? ==> rows == old(rows)
      ensures old(LookupIndex(rows, Some(owner), Some(source))).Some? ==>
        rows == Without(old(rows), old(LookupIndex(rows, Some(owner), Some(source))).value)
      ensures GetSource(owner, source).None?
    {
      var found := LookupIndex(rows, Some(owner), Some(source));
      if found.Some? {
        RemovingOnlyMatch(rows, found.value, owner.uid, source);
        rows := Without(rows, found.value);
      } else if |MatchIndices(rows, owner.uid, source, 0)| > 1 {
        assert LookupIndex(rows, Some(owner), Some(source)).None?;
      }
    }

    /** `touch`: the stored row for the record's account and source is last used now; null when there is none. */
    method Touch(src: AuthSource, now: int) returns (r: Option<AuthSource>)
      requires Valid()
      modifies this
      ensures Valid() && nextSid == old(nextSid)
      ensures old(LookupIndex(rows, src.account, src.source)).None? ==> r.None? && rows == old(rows)
      ensures old(LookupIndex(rows, src.account, src.source)).Some? ==>
        var i := old(LookupIndex(rows, src.account, src.source)).value;
        r == Some(old(rows)[i].(last := now)) && rows == old(rows)[i := r.value]
    {
      var found := LookupIndex(rows, src.account, src.source);
      if found.None? {
        return None;
      }
      var result := rows[found.value].(last := now);
      rows := rows[found.value := result];
      r := Some(result);
    }

    /**
     * `updateAccount`: the stored row for the record's account and source
     * moves to the new account; null when that row or the new account
     * (looked up by its decimal uid) is missing.
     */
    method UpdateAccount(src: AuthSource, newAccount: Account, accounts: AccountStore) returns (r: Option<AuthSource>)
      requires Valid()
      modifies this
      ensures Valid() && nextSid == old(nextSid)
      ensures old(LookupIndex(rows, src.account, src.source)).None? || newAccount.uid !in accounts.accounts ==>
        r.None? && rows == old(rows)
      ensures old(LookupIndex(rows, src.account, src.source)).Some? && newAccount.uid in accounts.accounts ==>
        var i := old(LookupIndex(rows, src.account, src.source)).value;
        r == Some(old(rows)[i].(account := Some(newAccount))) && rows == old(rows)[i := r.value]
    {
      var found := LookupIndex(rows, src.account, src.source);
      if found.None? {
        return None;
      }
      var account := accounts.GetAccount(newAccount.uid);
      if account.None? {
        return None;
      }
      var result := rows[found.value].(account := Some(newAccount));
      rows := rows[found.value := result];
      r := Some(result);
    }
  }

  /** A row appended to a table with no row for (uid, source) is the only one the query then selects. */
  lemma OnlyNewRowMatches(rows: seq<AuthSource>, r: AuthSource, uid: int, source: string)
    requires |MatchIndices(rows, uid, source, 0)| == 0
    requires IsRecordOf(r, uid, source)
    ensures MatchIndices(rows + [r], uid, source, 0) == [|rows|]
  {
    AppendedRowIndices(rows, r, uid, source, 0);
  }

  /** After a row of (account, source) is appended, the lookup finds it if it is the only one, and nothing otherwise. */
  lemma AppendedLookup(rows: seq<AuthSource>, r: AuthSource, owner: Account, source: string)
    requires IsRecordOf(r, owner.uid, source)
    ensures |MatchIndices(rows, owner.uid, source, 0)| == 0 ==> Lookup(rows + [r], Some(owner), Some(source)) == Some(r)
    ensures |MatchIndices(rows, owner.uid, source, 0)| > 1 ==> Lookup(rows + [r], Some(owner), Some(source)).None?
  {
    AppendedRowIndices(rows, r, owner.uid, source, 0);
    assert (rows + [r])[|rows|] == r;
  }

  /** An appended row of (uid, source) is selected after every row selected before. */
  lemma {:induction false} AppendedRowIndices(rows: seq<AuthSource>, r: AuthSource, uid: int, source: string, from: nat)
    requires from <= |rows|
    requires IsRecordOf(r, uid, source)
    ensures MatchIndices(rows + [r], uid, source, from) == MatchIndices(rows, uid, source, from) + [|rows|]
    decreases |rows| - from
  {
    if from < |rows| {
      assert (rows + [r])[from] == rows[from];
      AppendedRowIndices(rows, r, uid, source, from + 1);
    } else {
      assert (rows + [r])[from] == r;
    }
  }

  /** Removing the only selected row leaves the query selecting nothing. */
  lemma RemovingOnlyMatch(rows: seq<AuthSource>, i: nat, uid: int, source: string)
    requires i < |rows| && IsRecordOf(rows[i], uid, source)
    requires forall j :: 0 <= j < |rows| && IsRecordOf(rows[j], uid, source) ==> j == i
    ensures |MatchIndices(Without(rows, i), uid, source, 0)| == 0
  {
    var rest := Without(rows, i);
    forall j | 0 <= j < |rest| ensures !IsRecordOf(rest[j], uid, source) {
      if j < i {
        assert rest[j] == rows[j];
      } else {
        assert rest[j] == rows[j + 1];
      }
    }
    NoRecordNoIndices(rest, uid, source, 0);
  }

  lemma {:induction false} NoRecordNoIndices(rows: seq<AuthSource>, uid: int, source: string, from: nat)
    requires from <= |rows|
    requires forall i :: from <= i < |rows| ==> !IsRecordOf(rows[i], uid, source)
    ensures MatchIndices(rows, uid, source, from) == []
    decreases |rows| - from
  {
    if from < |rows| {
      NoRecordNoIndices(rows, uid, source, from + 1);
    }
  }
}
