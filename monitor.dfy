/**
 * The account-unlock endpoint of the login-log monitor (SysLoginInfoController.unlock),
 * which clears the same failure counter the login throttle keeps.
 */
module Monitor {
  import opened Common
  import opened Stores
  import opened ApiResults
  import opened LoginService

  /** The counters after an unlock: the username's counter is gone, every other one is kept. */
  function Unlocked(entries: map<string, Entry<int>>, userName: string): (r: map<string, Entry<int>>)
    ensures CounterKey(userName) !in r
    ensures forall k :: k in r <==> k in entries && k != CounterKey(userName)
    ensures forall k :: k in r ==> r[k] == entries[k]
  {
    entries - {CounterKey(userName)}
  }

  /** Unlocking a username that has no counter changes nothing. */
  lemma UnlockAbsentIsNoOp(entries: map<string, Entry<int>>, userName: string)
    requires CounterKey(userName) !in entries
    ensures Unlocked(entries, userName) == entries
  {
  }

  /**
   * After an unlock the throttle reads a count of 0, so (for a positive retry
   * limit) the right password is admitted again, however often it was wrong before.
   */
  lemma UnlockReadmits(entries: map<string, Entry<int>>, lt: LoginType, userName: string, maxRetry: int, lockTime: int)
    requires maxRetry > 0
    ensures CountOf(Unlocked(entries, userName), CounterKey(userName)) == 0
    ensures CheckOutcome(Unlocked(entries, userName), lt, userName, maxRetry, lockTime, false) == Pass
  {
  }

  /** SysLoginInfoController.unlock: delete the counter if present and answer success. */
  method Unlock(counters: KeyValueCache<string, int>, userName: string) returns (r: ApiResult<()>)
    modifies counters
    ensures counters.entries == Unlocked(old(counters.entries), userName)
    ensures r == Ok()
  {
    var loginName := CounterKey(userName);
    if counters.HasKey(loginName) {
      counters.Delete(loginName);
    }
    r := Ok();
  }
}
