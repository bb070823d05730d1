/**
 * The account provider the sign-on library calls: lookups by textual uid
 * with a fallback for uids that are not numbers, and plain delegation of the
 * source operations to the account and source tables.
 */
module AccountProvider {
  import opened Wrappers
  import opened Text
  import opened Accounts
  import opened AuthSources

  /** `Long.valueOf(uid)`, with a uid that does not parse read as id 0. */
  function AccountId(uid: string): int {
    match ParseLong(uid)
    case Some(id) => id
    case None => 0
  }

  /** An account's own textual uid leads back to its id. */
  lemma AccountIdOfUid(a: Account)
    requires IsLong(a.uid)
    ensures AccountId(GetUid(a)) == a.uid
  {
    UidRoundTrip(a);
  }

  /** A uid holding a non-digit (other than a leading sign) falls back to id 0. */
  lemma AccountIdFallback(uid: string, i: nat)
    requires i < |uid| && !IsDigit(uid[i])
    requires i > 0 || (uid[0] != '-' && uid[0] != '+')
    ensures AccountId(uid) == 0
  {
    ParseRejectsNonDigit(uid, i);
  }

  class ProxyUserAccountProvider {
    const accounts: AccountStore
    const sources: SourceStore

    constructor (accounts: AccountStore, sources: SourceStore)
      ensures this.accounts == accounts && this.sources == sources
    {
      this.accounts := accounts;
      this.sources := sources;
    }

    /** `getAccount(String)`: the account under the parsed id (0 when the uid does not parse), or null. */
    function GetAccount(uid: string): (r: Option<Account>)
      reads accounts
      ensures r == accounts.GetAccount(AccountId(uid))
      ensures r.Some? <==> AccountId(uid) in accounts.accounts
    {
      accounts.GetAccount(AccountId(uid))
    }

    /** `getSource`: passed through; a row exactly when the account has one and only one row for that source. */
    function GetSource(acct: Account, source: string): (r: Option<AuthSource>)
      reads sources
      ensures r == sources.GetSource(acct, source)
      ensures r.Some? ==> r.value.account.Some? && r.value.account.value.uid == acct.uid && r.value.source == Some(source)
      ensures r.Some? <==> |MatchIndices(sources.rows, acct.uid, source, 0)| == 1
    {
      sources.GetSource(acct, source)
    }

    /** `getBySourceScreenname`: passed through; null exactly when no row has that source and screen name. */
    function GetBySourceScreenname(source: string, screenName: string): (r: Option<AuthSource>)
      reads sources
      ensures r == BySourceScreenname(sources.rows, source, screenName)
      ensures r.Some? ==> r.value in sources.rows && r.value.source == Some(source) && r.value.screenName == Some(screenName)
      ensures r.None? <==> forall i :: 0 <= i < |sources.rows| ==>
        sources.rows[i].source != Some(source) || sources.rows[i].screenName != Some(screenName)
    {
      BySourceScreenname(sources.rows, source, screenName)
    }

    /**
     * `removeSourceIfExists`: passed through; the account's one row for that
     * source is deleted and every other row stays in order, and nothing
     * changes when no single row matches.
     */
    method RemoveSourceIfExists(acct: Account, source: string)
      requires sources.Valid()
      modifies sources
      ensures sources.Valid() && sources.nextSid == old(sources.nextSid)
      ensures old(LookupIndex(sources.rows, Some(acct), Some(source))).None? ==> sources.rows == old(sources.rows)
      ensures old(LookupIndex(sources.rows, Some(acct), Some(source))).Some? ==>
        sources.rows == Without(old(sources.rows), old(LookupIndex(sources.rows, Some(acct), Some(source))).value)
      ensures sources.GetSource(acct, source).None?
    {
      sources.RemoveSourceIfExists(acct, source);
    }

    /**
     * `createSource`: passed through, the body becoming the details of a new
     * row; the account's existing single row for that source is returned
     * with nothing changed.
     */
    method CreateSource(newUser: Account, source: string, screenName: Option<string>, body: Option<string>, now: int)
      returns (r: Option<AuthSource>)
      requires sources.Valid()
      modifies sources
      ensures sources.Valid()
      ensures old(sources.GetSource(newUser, source)).Some? ==>
        r == old(sources.GetSource(newUser, source)) && sources.rows == old(sources.rows)
        && sources.nextSid == old(sources.nextSid)
      ensures old(|MatchIndices(sources.rows, newUser.uid, source, 0)|) != 1 ==>
        r == Some(AuthSource(old(sources.nextSid), Some(newUser), Some(source), screenName, body, now))
        && sources.rows == old(sources.rows) + [r.value] && sources.nextSid == old(sources.nextSid) + 1
      ensures old(|MatchIndices(sources.rows, newUser.uid, source, 0)|) <= 1 ==> r.Some? && sources.GetSource(newUser, source) == r
    {
      r := sources.CreateSource(newUser, source, screenName, body, now);
    }

    /** `createNewUserAccount(disabled)`: a non-administrator, active exactly when not disabled. */
    method CreateNewUserAccount(disabled: bool, now: int) returns (a: Account)
      requires accounts.Valid()
      modifies accounts
      ensures accounts.Valid()
      ensures !a.admin && a.active == !disabled && IsDisabled(a) == disabled
      ensures a.created == now && a.last == now
      ensures accounts.accounts == old(accounts.accounts)[a.uid := a] && a.uid !in old(accounts.accounts)
    {
      a := accounts.CreateNewUserAccount(false, !disabled, now);
    }
  }
}
