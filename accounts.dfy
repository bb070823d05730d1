/**
 * Proxy user accounts: the account record with its value equality, copy
 * and property key, and the account table, kept here as a map
 * from uid to record with the database sequence as a counter.
 */
module Accounts {
  import opened Wrappers
  import opened Text

  /**
   * `ProxyUserAccount`: the uid, whether the account is active, when it was
   * created and when its user last signed on (milliseconds UTC, -1 until
   * set), and whether the user is an administrator.
   */
  datatype Account = Account(uid: int, active: bool, created: int, admin: bool, last: int)

  /** The value `created` and `last` hold until they are set. */
  const UNSET_TIME: int := -1

  /** The first value of the account id sequence. */
  const FIRST_UID: int := 100000

  /** A record as the no-argument constructor leaves it. */
  function NewRecord(): (a: Account)
    ensures a.created == UNSET_TIME && a.last == UNSET_TIME && !a.active && !a.admin
  {
    Account(0, false, UNSET_TIME, false, UNSET_TIME)
  }

  /** `equals`: the five fields, one by one. */
  predicate Equals(a: Account, b: Account) {
    a.active == b.active && a.admin == b.admin && a.created == b.created && a.last == b.last && a.uid == b.uid
  }

  /** `copy`: a new record with the five fields of the original. */
  function Copy(a: Account): (c: Account)
    ensures Equals(c, a) && Equals(a, c)
  {
    Account(a.uid, a.active, a.created, a.admin, a.last)
  }

  /** `isDisabled`. */
  predicate IsDisabled(a: Account) {
    !a.active
  }

  /** `getUid`: the uid in decimal. */
  function GetUid(a: Account): string {
    DecimalString(a.uid)
  }

  /** The uid's decimal form parses back to the uid, so looking an account up by `getUid` finds its own id. */
  lemma UidRoundTrip(a: Account)
    requires IsLong(a.uid)
    ensures ParseLong(GetUid(a)) == Some(a.uid)
  {
    ParseDecimalString(a.uid);
  }

  // ---------------------------------------------------------------------------
  // Persistent property keys
  // ---------------------------------------------------------------------------

  const PROPERTY_KEY_PREFIX: string := "ProxyUserAccount."

  /** `getPeristentPropertyKey`: the class name, the uid and the field name, separated by dots. */
  function PropertyKey(a: Account, field: string): string {
    PROPERTY_KEY_PREFIX + DecimalString(a.uid) + "." + field
  }

  lemma DecimalHasNoDot(n: int)
    ensures '.' !in DecimalString(n)
  {
    var d := NatDigits(if n < 0 then -n else n);
    assert forall i :: 0 <= i < |d| ==> IsDigit(d[i]);
    if n < 0 {
      assert DecimalString(n) == ['-'] + d;
    }
  }

  /**
   * Two accounts' keys for two fields coincide only for the same uid and the
   * same field: the digits of the uid hold no dot, so the first dot after
   * the prefix ends the uid.
   */
  lemma PropertyKeysDistinct(a: Account, b: Account, f: string, g: string)
    requires IsLong(a.uid) && IsLong(b.uid)
    requires PropertyKey(a, f) == PropertyKey(b, g)
    ensures a.uid == b.uid && f == g
  {
    var p := PROPERTY_KEY_PREFIX;
    var d, e := DecimalString(a.uid), DecimalString(b.uid);
    var k := PropertyKey(a, f);
    DecimalHasNoDot(a.uid);
    DecimalHasNoDot(b.uid);
    assert k == p + (d + ("." + f));
    assert k == p + (e + ("." + g));
    assert k[|p|..] == d + ("." + f) && k[|p|..] == e + ("." + g);
    SplitAtFirstDot(d, e, f, g);
    ParseDecimalString(a.uid);
    ParseDecimalString(b.uid);
  }

  lemma DotInLonger(d: string, e: string, f: string, g: string)
    requires |d| < |e| && d + ("." + f) == e + ("." + g)
    ensures e[|d|] == '.'
  {
    var t := d + ("." + f);
    assert t[|d|] == '.';
    assert t[|d|] == e[|d|];
  }

  /** Dot-free heads before a dot are determined by the text. */
  lemma SplitAtFirstDot(d: string, e: string, f: string, g: string)
    requires '.' !in d && '.' !in e
    requires d + ("." + f) == e + ("." + g)
    ensures d == e && f == g
  {
    var t := d + ("." + f);
    if |d| < |e| {
      DotInLonger(d, e, f, g);
      assert false;
    } else if |e| < |d| {
      DotInLonger(e, d, g, f);
      assert false;
    } else {
      assert d == t[..|d|] == e;
      assert "." + f == t[|d|..] == "." + g;
      assert f == ("." + f)[1..];
      assert g == ("." + g)[1..];
    }
  }

  // ---------------------------------------------------------------------------
  // The account table
  // ---------------------------------------------------------------------------

  /** The accounts by uid, and the next value of the id sequence. */
  class AccountStore {
    var accounts: map<int, Account>
    var nextUid: int

    ghost predicate Valid()
      reads this
    {
      forall u :: u in accounts ==> accounts[u].uid == u && u < nextUid
    }

    constructor ()
      ensures Valid() && accounts == map[] && nextUid == FIRST_UID
    {
      accounts := map[];
      nextUid := FIRST_UID;
    }

    /** `getAccount(long)`: the account with that uid, or null. */
    function GetAccount(uid: int): (r: Option<Account>)
      reads this
      ensures r.Some? <==> uid in accounts
      ensures r.Some? ==> r.value == accounts[uid] && (Valid() ==> r.value.uid == uid)
    {
      if uid in accounts then Some(accounts[uid]) else None
    }

    /**
     * `createNewUserAccount`: a new account under the next id, created and
     * last signed on now, with the given admin and active flags.
     */
    method CreateNewUserAccount(admin: bool, active: bool, now: int) returns (a: Account)
      requires Valid()
      modifies this
      ensures Valid()
      ensures a.uid == old(nextUid) && a.uid !in old(accounts)
      ensures a.active == active && a.admin == admin && a.created == now && a.last == a.created
      ensures accounts == old(accounts)[a.uid := a] && nextUid > old(nextUid)
    {
      a := NewRecord();
      a := a.(uid := nextUid);
      a := a.(active := active);
      a := a.(created := now);
      a := a.(admin := admin);
      a := a.(last := a.created);
      accounts := accounts[a.uid := a];
      nextUid := nextUid + 1;
    }

    /** `touch`: the stored account's last sign-on becomes now; null when there is no such account. */
    method Touch(user: Account, now: int) returns (r: Option<Account>)
      requires Valid()
      modifies this
      ensures Valid() && nextUid == old(nextUid)
      ensures user.uid !in old(accounts) ==> r.None? && accounts == old(accounts)
      ensures user.uid in old(accounts) ==>
        r == Some(old(accounts)[user.uid].(last := now)) && accounts == old(accounts)[user.uid := r.value]
    {
      var found := GetAccount(user.uid);
      if found.None? {
        return None;
      }
      var result := found.value.(last := now);
      accounts := accounts[user.uid := result];
      r := Some(result);
    }
  }
}
