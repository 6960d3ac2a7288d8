/**
 * `getKeyInfo`, `setActiveKey` and `removeKey` as lib/auth.js writes them.
 * All three read `keys[keyId]` on a plain object, and that lookup also finds
 * the members every object inherits from Object.prototype:
 * `keys["constructor"]` is a function, hence truthy, on an empty store. The methods of
 * `Auth.AuthManager` look up own keys only (`Find`); this module keeps the
 * lookup as written, shows where the two part, and shows that they agree on
 * every other id.
 */
module PrototypeLookup {
  import opened Wrappers
  import opened KeyStore
  import opened Auth

  /** `keys[keyId]` is truthy: an own record, or an inherited Object.prototype member. */
  predicate LookupTruthyAsWritten(entries: seq<Entry>, id: string) {
    id in Ids(entries) || id in ObjectPrototypeNames
  }

  /** What a store operation returned, and the store it left. */
  datatype Outcome = Outcome(ok: bool, store: Persisted)

  /** `setActiveKey(keyId)` as written, on the store `s`. */
  function SetActiveKeyAsWritten(s: Persisted, id: string): (r: Outcome)
    ensures r.ok <==> LookupTruthyAsWritten(s.apiKeys, id)
    ensures r.store.apiKeys == s.apiKeys
  {
    if !LookupTruthyAsWritten(s.apiKeys, id) then Outcome(false, s)
    else Outcome(true, s.(activeKey := Some(id)))
  }

  /**
   * `removeKey(keyId)` as written, on the store `s`: `delete keys[keyId]`
   * removes an own property only, so an inherited name deletes nothing.
   */
  function RemoveKeyAsWritten(s: Persisted, id: string): (r: Outcome)
    ensures r.ok <==> LookupTruthyAsWritten(s.apiKeys, id)
    ensures Find(r.store.apiKeys, id) == None || !r.ok
  {
    if !LookupTruthyAsWritten(s.apiKeys, id) then Outcome(false, s)
    else
      var remaining := Delete(s.apiKeys, id);
      FindDelete(s.apiKeys, id, id);
      Outcome(true, s.(apiKeys := remaining, activeKey := ReassignActive(remaining, s.activeKey, id)))
  }

  /**
   * `setActiveKey("constructor")` on an empty store reports success and
   * leaves the active id on a record that does not exist.
   */
  lemma SetActiveKeyAsWrittenDangles()
    ensures var r := SetActiveKeyAsWritten(Cleared, "constructor");
            r.ok && r.store.activeKey == Some("constructor")
            && !ActiveStored(r.store.apiKeys, r.store.activeKey)
  {
  }

  /** `removeKey("toString")` on an empty store reports success and removes nothing. */
  lemma RemoveKeyAsWrittenPhantom()
    ensures RemoveKeyAsWritten(Cleared, "toString") == Outcome(true, Cleared)
  {
  }

  /**
   * Whatever store it starts from, `setActiveKey` of an inherited name that
   * is not stored succeeds and breaks the store invariant.
   */
  lemma {:induction false} SetActiveKeyAsWrittenBreaksInvariant(s: Persisted, id: string)
    requires id in ObjectPrototypeNames && id !in Ids(s.apiKeys)
    ensures var r := SetActiveKeyAsWritten(s, id);
            r.ok && !ActiveStored(r.store.apiKeys, r.store.activeKey)
  {
    assert Find(s.apiKeys, id).None?;
  }

  /**
   * Off the inherited names the code as written agrees with the own-key
   * lookup of `Auth.AuthManager`: success exactly for a stored id, and the
   * same new store.
   */
  lemma {:induction false} AsWrittenAgreesOnPlainIds(s: Persisted, id: string)
    requires id !in ObjectPrototypeNames
    ensures SetActiveKeyAsWritten(s, id).ok <==> Find(s.apiKeys, id).Some?
    ensures SetActiveKeyAsWritten(s, id).store
         == if Find(s.apiKeys, id).Some? then s.(activeKey := Some(id)) else s
    ensures RemoveKeyAsWritten(s, id).ok <==> Find(s.apiKeys, id).Some?
    ensures !RemoveKeyAsWritten(s, id).ok ==> RemoveKeyAsWritten(s, id).store == s
  {
  }

  /** What `keys[keyId] || null` evaluates to. */
  datatype KeyInfo =
    | Stored(record: KeyRecord)        // an own record
    | InheritedMember(name: string)    // an Object.prototype member, truthy but no record
    | Null

  /** `getKeyInfo(keyId)` as written, on the stored entries. */
  function GetKeyInfoAsWritten(entries: seq<Entry>, id: string): (r: KeyInfo)
    ensures r.Null? <==> !LookupTruthyAsWritten(entries, id)
    ensures r.Stored? <==> Find(entries, id).Some?
    ensures r.Stored? ==> Find(entries, id) == Some(r.record)
    ensures r.InheritedMember? ==> r.name == id && id in ObjectPrototypeNames && id !in Ids(entries)
  {
    match Find(entries, id)
    case Some(record) => Stored(record)
    case None => if id in ObjectPrototypeNames then InheritedMember(id) else Null
  }

  /**
   * `getKeyInfo("toString")` on an empty store is not `null`: it returns the
   * inherited function, which has no `nickname`, so a caller's not-found test
   * `!keyInfo` passes for a key that does not exist.
   */
  lemma GetKeyInfoAsWrittenInherited()
    ensures GetKeyInfoAsWritten([], "toString") == InheritedMember("toString")
    ensures RemoveKeyAsWritten(Cleared, "toString").ok
  {
  }

  /**
   * Off the inherited names the code as written returns exactly what the
   * own-key lookup of `Auth.AuthManager.GetKeyInfo` returns.
   */
  lemma {:induction false} GetKeyInfoAsWrittenAgreesOnPlainIds(entries: seq<Entry>, id: string)
    requires id !in ObjectPrototypeNames
    ensures GetKeyInfoAsWritten(entries, id).Null? <==> Find(entries, id).None?
    ensures Find(entries, id).Some? ==> GetKeyInfoAsWritten(entries, id) == Stored(Find(entries, id).value)
  {
  }
}
