/**
 * `AuthManager` of lib/auth.js: the credential store and session manager.
 * The persisted key-value store is held in the object's fields: the ordered
 * `apiKeys` map, the `activeKey` id, and the legacy single-slot fields
 * `apiKey`, `userInfo`, `loginTime` and `provider` that mirror the latest
 * OAuth login. The clock is a parameter; network replies are inputs.
 */
module Auth {
  import opened Wrappers
  import opened JsText
  import opened KeyStore
  import opened KeyIds
  import opened Polling
  import opened Validation

  /** 30 days in milliseconds. */
  const ThirtyDaysMs: int := 30 * 24 * 60 * 60 * 1000

  /** The contents of the persisted store. */
  datatype Persisted = Persisted(
    apiKeys: seq<Entry>,
    activeKey: Option<string>,
    apiKey: Option<string>,
    userInfo: Option<UserInfo>,
    loginTime: Option<int>,
    provider: Option<string>)

  /** The store after `config.clear()`. */
  const Cleared := Persisted([], None, None, None, None, None)

  /** The record stored for a completed OAuth login at clock value `now`. */
  function LoginRecord(data: StatusData, now: nat): KeyRecord {
    var email := EmailOf(data.userInfo);
    KeyRecord(
      data.apiKey,
      data.userInfo.GetOr(map[]),
      now,
      OrElse(data.provider, "google"),
      if Truthy(email) then email.value else OrElse(data.provider, "oauth") + "-" + NatToString(now))
  }

  /** The keyId under which a completed OAuth login is stored. */
  function LoginKeyId(data: StatusData, now: nat): string {
    GenerateKeyId(EmailOf(data.userInfo), data.provider, now)
  }

  /**
   * `after` is the store the `completed` branch of the poll loop leaves
   * behind, at clock value `now`: the record is upserted under the
   * synthesised keyId and made active, and the legacy fields mirror the login.
   */
  predicate LoginWrites(before: Persisted, after: Persisted, data: StatusData, now: nat) {
    var id := LoginKeyId(data, now);
    && after.apiKeys == Upsert(before.apiKeys, id, LoginRecord(data, now))
    && after.activeKey == Some(id)
    && after.apiKey == data.apiKey
    && after.userInfo == Some(data.userInfo.GetOr(map[]))
    && after.loginTime == Some(now)
    && after.provider == Some(OrElse(data.provider, "google"))
  }

  /**
   * A completed login stores its record under the synthesised keyId, leaves
   * every other record alone, keeps the ids distinct and establishes the
   * store invariant whatever held before.
   */
  lemma LoginWritesSpec(before: Persisted, after: Persisted, data: StatusData, now: nat)
    requires LoginWrites(before, after, data, now)
    ensures ActiveStored(after.apiKeys, after.activeKey)
    ensures Find(after.apiKeys, LoginKeyId(data, now)) == Some(LoginRecord(data, now))
    ensures forall k :: k != LoginKeyId(data, now) ==> Find(after.apiKeys, k) == Find(before.apiKeys, k)
    ensures UniqueIds(before.apiKeys) ==> UniqueIds(after.apiKeys)
  {
    var id, record := LoginKeyId(data, now), LoginRecord(data, now);
    UpsertKeepsActive(before.apiKeys, None, id, record);
    FindUpsert(before.apiKeys, id, record, id);
    forall k | k != id
      ensures Find(after.apiKeys, k) == Find(before.apiKeys, k)
    {
      FindUpsert(before.apiKeys, id, record, k);
    }
    if UniqueIds(before.apiKeys) {
      UpsertUnique(before.apiKeys, id, record);
    }
  }

  /** The freshness rule of `isLoggedIn`, on the legacy fields alone. */
  function Fresh(apiKey: Option<string>, loginTime: Option<int>, now: int): (r: bool)
    ensures r <==> Truthy(apiKey) && loginTime.Some? && loginTime.value != 0
                   && now < loginTime.value + ThirtyDaysMs
  {
    if !Truthy(apiKey) || !NumTruthy(loginTime, 0) then false
    else loginTime.value > now - ThirtyDaysMs
  }

  /** A session fresh now was fresh at every earlier instant too. */
  lemma FreshEarlier(apiKey: Option<string>, loginTime: Option<int>, earlier: int, now: int)
    requires earlier <= now && Fresh(apiKey, loginTime, now)
    ensures Fresh(apiKey, loginTime, earlier)
  {
  }

  /** The login expires exactly 30 days after it happened. */
  lemma FreshBoundary(apiKey: string, loginTime: int)
    requires apiKey != "" && loginTime != 0
    ensures Fresh(Some(apiKey), Some(loginTime), loginTime + ThirtyDaysMs - 1)
    ensures !Fresh(Some(apiKey), Some(loginTime), loginTime + ThirtyDaysMs)
  {
  }

  /** The record `addManualKey` stores. */
  function ManualRecord(secret: string, nickname: string, now: nat): KeyRecord {
    KeyRecord(Some(secret), map[], now, "manual", nickname)
  }

  /** The value `getLoginInfo()` returns. */
  datatype LoginInfo = LoginInfo(apiKey: Option<string>, userInfo: UserInfo, loginTime: Option<int>, provider: Option<string>)

  /** What a reply to `POST /api/auth/login` produced. */
  datatype LoginInit =
    | Initiated(success: bool, sessionId: string, oauthUrl: string, error: Option<string>)
    | Unreachable(message: string)

  class AuthManager {
    var baseUrl: string
    var apiKeys: seq<Entry>
    var activeKey: Option<string>
    var apiKey: Option<string>
    var userInfo: Option<UserInfo>
    var loginTime: Option<int>
    var provider: Option<string>

    /** The representation invariant: `apiKeys` has distinct ids, as object keys do. */
    predicate Valid()
      reads this
    {
      UniqueIds(apiKeys)
    }

    /** The store invariant: `activeKey` is unset or names a stored record. */
    predicate ActiveValid()
      reads this
    {
      ActiveStored(apiKeys, activeKey)
    }

    /** The persisted store as a value. */
    function Store(): Persisted
      reads this
    {
      Persisted(apiKeys, activeKey, apiKey, userInfo, loginTime, provider)
    }

    /** Opens the store found on disk; the base URL loses one trailing '/'. */
    constructor (url: string, disk: Persisted)
      requires UniqueIds(disk.apiKeys)
      ensures Valid() && Store() == disk
      ensures baseUrl == StripTrailingSlash(url)
    {
      baseUrl := StripTrailingSlash(url);
      apiKeys, activeKey := disk.apiKeys, disk.activeKey;
      apiKey, userInfo, loginTime, provider := disk.apiKey, disk.userInfo, disk.loginTime, disk.provider;
    }

    /** `isLoggedIn()`: reads only the legacy secret and login time, never the key map. */
    function IsLoggedIn(now: int): (r: bool)
      reads this`apiKey, this`loginTime
      ensures r <==> Truthy(apiKey) && loginTime.Some? && loginTime.value != 0
                     && now < loginTime.value + ThirtyDaysMs
    {
      Fresh(apiKey, loginTime, now)
    }

    /**
     * `getApiKey()`: a set active id resolves to its record's key (none when
     * the id is dangling, with no fallback); only without an active id is the
     * legacy secret returned.
     */
    function GetApiKey(): (r: Option<string>)
      reads this`activeKey, this`apiKeys, this`apiKey
      ensures Truthy(activeKey) && Find(apiKeys, activeKey.value).Some? ==>
                r == Find(apiKeys, activeKey.value).value.key
      ensures Truthy(activeKey) && Find(apiKeys, activeKey.value).None? ==> r == None
      ensures !Truthy(activeKey) ==> r == apiKey
    {
      if Truthy(activeKey) then
        match Find(apiKeys, activeKey.value)
        case Some(record) => record.key
        case None => None
      else apiKey
    }

    /** `getUserInfo()`: the legacy user info, `{}` when none is stored. */
    function GetUserInfo(): UserInfo
      reads this`userInfo
    {
      userInfo.GetOr(map[])
    }

    /** `getAllKeys()`: the stored records in insertion order. */
    function GetAllKeys(): seq<Entry>
      reads this`apiKeys
    {
      apiKeys
    }

    /** `getActiveKeyId()`. */
    function GetActiveKeyId(): Option<string>
      reads this`activeKey
    {
      activeKey
    }

    /** `getLoginInfo()`: the legacy fields, with `{}` for missing user info. */
    function GetLoginInfo(): LoginInfo
      reads this`apiKey, this`userInfo, this`loginTime, this`provider
    {
      LoginInfo(apiKey, GetUserInfo(), loginTime, provider)
    }

    /** `getKeyInfo(keyId)`: the record stored under `id`, or none; own keys only (see PrototypeLookup). */
    function GetKeyInfo(id: string): (r: Option<KeyRecord>)
      reads this`apiKeys
      ensures r.Some? <==> id in Ids(apiKeys)
      ensures r.Some? ==> Entry(id, r.value) in apiKeys
    {
      FindStored(apiKeys, id);
      Find(apiKeys, id)
    }

    /** `setActiveKey(keyId)`: succeeds only for a stored id, and then only changes the active id. */
    method SetActiveKey(id: string) returns (ok: bool)
      modifies this`activeKey
      ensures ok <==> id in Ids(apiKeys)
      ensures activeKey == if ok then Some(id) else old(activeKey)
      ensures ok ==> ActiveValid()
      ensures old(ActiveValid()) ==> ActiveValid()
    {
      if GetKeyInfo(id).None? {
        return false;
      }
      activeKey := Some(id);
      return true;
    }

    /**
     * `addManualKey(apiKey, nickname)` at clock value `now`: stores the record
     * under `manual-<slug>-<now>` and touches neither the active id nor the
     * legacy fields.
     */
    method AddManualKey(secret: string, nickname: string, now: nat) returns (keyId: string)
      requires Valid()
      modifies this`apiKeys
      ensures Valid()
      ensures keyId == ManualKeyId(nickname, now)
      ensures apiKeys == Upsert(old(apiKeys), keyId, ManualRecord(secret, nickname, now))
      ensures GetKeyInfo(keyId) == Some(ManualRecord(secret, nickname, now))
      ensures old(ActiveValid()) ==> ActiveValid()
    {
      keyId := ManualKeyId(nickname, now);
      UpsertUnique(apiKeys, keyId, ManualRecord(secret, nickname, now));
      FindUpsert(apiKeys, keyId, ManualRecord(secret, nickname, now), keyId);
      UpsertKeepsActive(apiKeys, activeKey, keyId, ManualRecord(secret, nickname, now));
      apiKeys := Upsert(apiKeys, keyId, ManualRecord(secret, nickname, now));
    }

    /**
     * `removeKey(keyId)`: false and no change for an absent id; otherwise the
     * entry is deleted in place, and if it was active the active id moves to
     * the first remaining key, or is cleared. The legacy fields stay.
     */
    method RemoveKey(id: string) returns (ok: bool)
      requires Valid()
      modifies this`apiKeys, this`activeKey
      ensures Valid()
      ensures ok <==> id in Ids(old(apiKeys))
      ensures !ok ==> apiKeys == old(apiKeys) && activeKey == old(activeKey)
      ensures ok ==> exists i :: 0 <= i < |old(apiKeys)| && old(apiKeys)[i].id == id
                                 && apiKeys == old(apiKeys)[..i] + old(apiKeys)[i + 1..]
      ensures ok ==> activeKey == ReassignActive(apiKeys, old(activeKey), id) && activeKey != Some(id)
      ensures old(ActiveValid()) ==> ActiveValid()
      ensures ok && old(activeKey) == Some(id) && apiKeys == [] ==> GetApiKey() == apiKey
    {
      if GetKeyInfo(id).None? {
        return false;
      }
      var i :| 0 <= i < |apiKeys| && Ids(apiKeys)[i] == id;
      DeleteRemovesOne(apiKeys, i);
      DeleteUnique(apiKeys, id);
      RemoveKeepsActive(apiKeys, activeKey, id);
      ghost var wasActive := activeKey;
      apiKeys := Delete(apiKeys, id);
      if activeKey == Some(id) {
        activeKey := None;
        if |apiKeys| > 0 {
          activeKey := Some(apiKeys[0].id);
        }
      }
      assert activeKey == ReassignActive(apiKeys, wasActive, id);
      return true;
    }

    /** `logout()`: clears the whole store; a second logout changes nothing. */
    method Logout()
      modifies this`apiKeys, this`activeKey, this`apiKey, this`userInfo, this`loginTime, this`provider
      ensures Valid() && ActiveValid()
      ensures Store() == Cleared
    {
      apiKeys, activeKey := [], None;
      apiKey, userInfo, loginTime, provider := None, None, None, None;
    }

    /** The `completed` branch of the poll loop, at clock value `now`. */
    method CompleteLogin(data: StatusData, now: nat)
      requires Valid()
      modifies this`apiKeys, this`activeKey, this`apiKey, this`userInfo, this`loginTime, this`provider
      ensures Valid() && ActiveValid()
      ensures LoginWrites(old(Store()), Store(), data, now)
    {
      ghost var before := Store();
      var id := LoginKeyId(data, now);
      var record := LoginRecord(data, now);
      UpsertUnique(apiKeys, id, record);
      UpsertKeepsActive(apiKeys, None, id, record);
      apiKeys := Upsert(apiKeys, id, record);
      activeKey := Some(id);
      apiKey := data.apiKey;
      userInfo := Some(data.userInfo.GetOr(map[]));
      loginTime := Some(now);
      provider := Some(OrElse(data.provider, "google"));
      assert Store().apiKeys == Upsert(before.apiKeys, id, record);
      assert LoginWrites(before, Store(), data, now);
    }

    /**
     * `pollForCompletion(sessionId, timeout, pollInterval)` started at clock
     * value `start`, where the k-th status query is answered by `answer(k)`.
     * Only a `completed` answer writes the store, stamped with the time it
     * arrived; every other exit leaves the store as it was.
     */
    method PollForCompletion(answer: nat -> PollReply, start: nat, timeout: int, interval: int) returns (ok: bool)
      requires Valid() && interval > 0
      modifies this`apiKeys, this`activeKey, this`apiKey, this`userInfo, this`loginTime, this`provider
      ensures Valid()
      ensures var run := Poll(answer, timeout, interval);
              ok == run.end.LoggedIn?
              && (ok ==> LoginWrites(old(Store()), Store(), run.end.data, start + run.end.elapsed))
              && (!ok ==> Store() == old(Store()))
    {
      var end, now, _ := AwaitStatus(answer, start, timeout, interval);
      if end.LoggedIn? {
        CompleteLogin(end.data, now);
        return true;
      }
      return false;
    }

    /**
     * `login(provider)`: initiates the OAuth session and, when the broker
     * accepts, polls with the default timeout and interval from `start`.
     */
    method Login(init: LoginInit, answer: nat -> PollReply, start: nat) returns (ok: bool)
      requires Valid()
      modifies this`apiKeys, this`activeKey, this`apiKey, this`userInfo, this`loginTime, this`provider
      ensures Valid()
      ensures var run := Poll(answer, DefaultTimeout(), DefaultInterval());
              ok == (init.Initiated? && init.success && run.end.LoggedIn?)
              && (ok ==> LoginWrites(old(Store()), Store(), run.end.data, start + run.end.elapsed))
              && (!ok ==> Store() == old(Store()))
    {
      if init.Unreachable? || !init.success {
        return false;
      }
      ok := PollForCompletion(answer, start, DefaultTimeout(), DefaultInterval());
    }

    /**
     * `validateApiKey(apiKey)`: validates the given key, or the active key
     * when none (or an empty one) is given.
     */
    function ValidateApiKey(explicit: Option<string>, reply: UserReply): (r: ValidationResult)
      reads this`activeKey, this`apiKeys, this`apiKey
      ensures Truthy(explicit) ==> r == Validate(explicit, reply)
      ensures !Truthy(explicit) ==> r == Validate(GetApiKey(), reply)
    {
      Validate(KeyToValidate(explicit, GetApiKey()), reply)
    }
  }
}
