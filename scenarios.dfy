/**
 * Client code driving `Auth.AuthManager` through the sessions the command
 * line runs: `keys add` then `keys switch`, `keys remove` of the only key,
 * `logout` twice, and a login whose third status query completes.
 */
module Scenarios {
  import opened Wrappers
  import opened JsText
  import opened KeyStore
  import opened KeyIds
  import opened Polling
  import opened Auth

  /** A manual key added as "Prod" and switched to becomes the key in use. */
  method AddThenSwitch(secret: string, now: nat) returns (keyId: string, inUse: Option<string>)
    ensures keyId == "manual-prod-" + NatToString(now)
    ensures inUse == Some(secret)
  {
    var m := new AuthManager("https://app.avocavo.app/", Cleared);
    keyId := m.AddManualKey(secret, "Prod", now);
    ManualKeyIdProd(now);
    var ok := m.SetActiveKey(keyId);
    inUse := m.GetApiKey();
  }

  /**
   * Removing the only key, while it is active, clears the active id, and the
   * key in use falls back to the legacy secret of the last OAuth login.
   */
  method RemoveOnlyKey(legacy: string, secret: string, now: nat) returns (removed: bool, active: Option<string>, inUse: Option<string>)
    ensures removed && active == None && inUse == Some(legacy)
  {
    var m := new AuthManager("https://app.avocavo.app", Cleared.(apiKey := Some(legacy)));
    var keyId := m.AddManualKey(secret, "Prod", now);
    var switched := m.SetActiveKey(keyId);
    removed := m.RemoveKey(keyId);
    active := m.GetActiveKeyId();
    inUse := m.GetApiKey();
  }

  /** A second `logout` finds an empty store and leaves it empty. */
  method LogoutTwice(disk: Persisted) returns (first: Persisted, second: Persisted)
    requires UniqueIds(disk.apiKeys)
    ensures first == second == Cleared
  {
    var m := new AuthManager("https://app.avocavo.app", disk);
    m.Logout();
    first := m.Store();
    m.Logout();
    second := m.Store();
  }

  /**
   * A login whose broker answers "pending" twice and then "completed"
   * succeeds, is stamped with the third query's time, and is fresh then.
   */
  method LoginOnThirdQuery(data: StatusData, start: nat) returns (ok: bool, stamp: Option<int>, current: bool)
    requires Truthy(data.apiKey)
    ensures ok && stamp == Some(start + 2 * DefaultInterval())
    ensures current
  {
    var answer := (k: nat) => if k < 2 then Pending else Completed(data);
    var m := new AuthManager("https://app.avocavo.app", Cleared);
    PollPendingTwiceThenCompleted(answer, data, DefaultTimeout(), DefaultInterval());
    ok := m.PollForCompletion(answer, start, DefaultTimeout(), DefaultInterval());
    stamp := m.loginTime;
    current := m.IsLoggedIn(start + 2 * DefaultInterval());
  }
}
