/**
 * The persisted `apiKeys` object of the credential store: a JavaScript object
 * from keyId to record. Its own properties are enumerated in insertion order
 * (generated keyIds are never array indices, see KeyIds.GenerateKeyIdIsPlainKey
 * and KeyIds.ManualKeyIdIsPlainKey), so it is
 * modelled as a sequence of entries in insertion order with distinct ids;
 * assigning to an existing id replaces its record in place.
 */
module KeyStore {
  import opened Wrappers

  /** Fields of the `user_info` object, by name. */
  type UserInfo = map<string, string>

  /** One stored credential `{key, userInfo, loginTime, provider, nickname}`. */
  datatype KeyRecord = KeyRecord(
    key: Option<string>,
    userInfo: UserInfo,
    loginTime: int,
    provider: string,
    nickname: string)

  datatype Entry = Entry(id: string, record: KeyRecord)

  /** `Object.keys(keys)`. */
  function Ids(entries: seq<Entry>): (r: seq<string>)
    ensures |r| == |entries|
    ensures forall i :: 0 <= i < |entries| ==> r[i] == entries[i].id
  {
    seq(|entries|, i requires 0 <= i < |entries| => entries[i].id)
  }

  predicate Distinct(s: seq<string>) {
    forall i, j :: 0 <= i < j < |s| ==> s[i] != s[j]
  }

  /** Object keys are distinct. */
  predicate UniqueIds(entries: seq<Entry>) {
    Distinct(Ids(entries))
  }

  /** `keys[id]` restricted to own properties. */
  function Find(entries: seq<Entry>, id: string): (r: Option<KeyRecord>)
    ensures r.Some? <==> id in Ids(entries)
  {
    if entries == [] then None
    else if entries[0].id == id then Some(entries[0].record)
    else
      IdsCons(entries[0], entries[1..]);
      assert entries == [entries[0]] + entries[1..];
      Find(entries[1..], id)
  }

  /** `Object.keys` of `[e] + rest` lists `e`'s id first. */
  lemma IdsCons(e: Entry, rest: seq<Entry>)
    ensures Ids([e] + rest) == [e.id] + Ids(rest)
  {
    var l, r := Ids([e] + rest), [e.id] + Ids(rest);
    forall i | 0 <= i < |l|
      ensures l[i] == r[i]
    {
      if i > 0 {
        assert ([e] + rest)[i] == rest[i - 1];
      }
    }
  }

  /** A record that is found is stored under the id it was looked up by. */
  lemma {:induction false} FindStored(entries: seq<Entry>, id: string)
    ensures Find(entries, id).Some? ==> Entry(id, Find(entries, id).value) in entries
  {
    if entries != [] && entries[0].id != id {
      FindStored(entries[1..], id);
    }
  }

  /** In a store with distinct ids, the entry stored under `id` is the one Find returns. */
  lemma FindUnique(entries: seq<Entry>, i: nat)
    requires UniqueIds(entries) && i < |entries|
    ensures Find(entries, entries[i].id) == Some(entries[i].record)
  {
    if i > 0 {
      FindUnique(entries[1..], i - 1);
    }
  }

  /** Looking up in `[e] + rest` checks `e` first. */
  lemma FindCons(e: Entry, rest: seq<Entry>, k: string)
    ensures Find([e] + rest, k) == if e.id == k then Some(e.record) else Find(rest, k)
    ensures Ids([e] + rest) == [e.id] + Ids(rest)
  {
    assert ([e] + rest)[1..] == rest;
    IdsCons(e, rest);
  }

  /** `keys[id] = record`: replaces an existing entry in place, else appends. */
  function Upsert(entries: seq<Entry>, id: string, record: KeyRecord): seq<Entry> {
    if entries == [] then [Entry(id, record)]
    else if entries[0].id == id then [Entry(id, record)] + entries[1..]
    else [entries[0]] + Upsert(entries[1..], id, record)
  }

  /** After `keys[id] = record`, `id` maps to `record` and every other id to what it mapped to before. */
  lemma {:induction false} FindUpsert(entries: seq<Entry>, id: string, record: KeyRecord, k: string)
    ensures Find(Upsert(entries, id, record), k) == if k == id then Some(record) else Find(entries, k)
  {
    if entries != [] {
      var e := entries[0];
      assert entries == [e] + entries[1..];
      FindCons(e, entries[1..], k);
      if e.id == id {
        FindCons(Entry(id, record), entries[1..], k);
      } else {
        FindUpsert(entries[1..], id, record, k);
        FindCons(e, Upsert(entries[1..], id, record), k);
      }
    }
  }

  /** Upsert keeps the insertion order of ids, appending only a new id. */
  lemma {:induction false} UpsertIds(entries: seq<Entry>, id: string, record: KeyRecord)
    ensures id in Ids(entries) ==> Ids(Upsert(entries, id, record)) == Ids(entries)
    ensures id !in Ids(entries) ==> Ids(Upsert(entries, id, record)) == Ids(entries) + [id]
  {
    if entries != [] {
      var e := entries[0];
      assert entries == [e] + entries[1..];
      FindCons(e, entries[1..], id);
      if e.id == id {
        FindCons(Entry(id, record), entries[1..], id);
      } else {
        UpsertIds(entries[1..], id, record);
        FindCons(e, Upsert(entries[1..], id, record), id);
      }
    }
  }

  /** Upsert keeps the ids distinct. */
  lemma UpsertUnique(entries: seq<Entry>, id: string, record: KeyRecord)
    requires UniqueIds(entries)
    ensures UniqueIds(Upsert(entries, id, record))
  {
    UpsertIds(entries, id, record);
  }

  /** `delete keys[id]`: drops the entry for `id`, keeping the others in order. */
  function Delete(entries: seq<Entry>, id: string): seq<Entry> {
    if entries == [] then []
    else if entries[0].id == id then Delete(entries[1..], id)
    else [entries[0]] + Delete(entries[1..], id)
  }

  /** After `delete keys[id]`, `id` is absent and every other id maps to what it mapped to before. */
  lemma {:induction false} FindDelete(entries: seq<Entry>, id: string, k: string)
    ensures Find(Delete(entries, id), k) == if k == id then None else Find(entries, k)
  {
    if entries != [] {
      var e := entries[0];
      assert entries == [e] + entries[1..];
      FindCons(e, entries[1..], k);
      FindDelete(entries[1..], id, k);
      if e.id != id {
        FindCons(e, Delete(entries[1..], id), k);
      }
    }
  }

  /** With distinct ids, deleting a stored id removes exactly that one entry and keeps the order. */
  lemma {:induction false} DeleteRemovesOne(entries: seq<Entry>, i: nat)
    requires UniqueIds(entries) && i < |entries|
    ensures Delete(entries, entries[i].id) == entries[..i] + entries[i + 1..]
  {
    var id := entries[i].id;
    if i == 0 {
      DeleteAbsent(entries[1..], id);
    } else {
      DeleteRemovesOne(entries[1..], i - 1);
      assert entries[1..][..i - 1] == entries[1..i];
      assert entries[1..][i..] == entries[i + 1..];
    }
  }

  /** Deleting an id that is not stored changes nothing. */
  lemma {:induction false} DeleteAbsent(entries: seq<Entry>, id: string)
    requires id !in Ids(entries)
    ensures Delete(entries, id) == entries
  {
    if entries != [] {
      assert entries[0].id == Ids(entries)[0];
      assert Ids(entries[1..]) == Ids(entries)[1..];
      DeleteAbsent(entries[1..], id);
    }
  }

  /** Dropping one element keeps a sequence duplicate-free. */
  lemma DistinctWithout(s: seq<string>, i: nat)
    requires Distinct(s) && i < |s|
    ensures Distinct(s[..i] + s[i + 1..])
  {
    var t := s[..i] + s[i + 1..];
    forall a, b | 0 <= a < b < |t|
      ensures t[a] != t[b]
    {
      var a' := if a < i then a else a + 1;
      var b' := if b < i then b else b + 1;
      assert t[a] == s[a'] && t[b] == s[b'];
    }
  }

  /** Delete keeps the ids distinct. */
  lemma DeleteUnique(entries: seq<Entry>, id: string)
    requires UniqueIds(entries)
    ensures UniqueIds(Delete(entries, id))
  {
    if id in Ids(entries) {
      var i :| 0 <= i < |entries| && Ids(entries)[i] == id;
      DeleteRemovesOne(entries, i);
      DistinctWithout(Ids(entries), i);
      assert Ids(entries[..i] + entries[i + 1..]) == Ids(entries)[..i] + Ids(entries)[i + 1..];
    } else {
      DeleteAbsent(entries, id);
    }
  }

  /**
   * Names every plain object inherits from Object.prototype: `keys[name]` is
   * truthy for them even when the store holds no such record.
   */
  const ObjectPrototypeNames: set<string> := {
    "constructor", "__proto__", "hasOwnProperty", "isPrototypeOf",
    "propertyIsEnumerable", "toString", "toLocaleString", "valueOf",
    "__defineGetter__", "__defineSetter__", "__lookupGetter__", "__lookupSetter__"
  }

  /** The store invariant: the active id is unset or names a stored record. */
  predicate ActiveStored(entries: seq<Entry>, active: Option<string>) {
    active.Some? ==> Find(entries, active.value).Some?
  }

  /**
   * The active id after `removeKey(removed)`: when the removed id was
   * active it moves to the first remaining id, or is cleared when none remain.
   */
  function ReassignActive(remaining: seq<Entry>, active: Option<string>, removed: string): Option<string> {
    if active == Some(removed) then
      (if |remaining| > 0 then Some(remaining[0].id) else None)
    else active
  }

  /** Removal keeps the invariant and never leaves the active id on the removed id. */
  lemma RemoveKeepsActive(entries: seq<Entry>, active: Option<string>, removed: string)
    ensures var rest := Delete(entries, removed);
            (ActiveStored(entries, active) ==> ActiveStored(rest, ReassignActive(rest, active, removed)))
            && ReassignActive(rest, active, removed) != Some(removed)
  {
    var rest := Delete(entries, removed);
    if active.Some? {
      FindDelete(entries, removed, active.value);
    }
    if active == Some(removed) && |rest| > 0 {
      assert rest[0] in rest;
      assert Ids(rest)[0] == rest[0].id;
    }
  }

  /** Writing a record keeps the invariant; writing it and pointing at it establishes it. */
  lemma UpsertKeepsActive(entries: seq<Entry>, active: Option<string>, id: string, record: KeyRecord)
    ensures ActiveStored(entries, active) ==> ActiveStored(Upsert(entries, id, record), active)
    ensures ActiveStored(Upsert(entries, id, record), Some(id))
  {
    FindUpsert(entries, id, record, id);
    if active.Some? {
      FindUpsert(entries, id, record, active.value);
    }
  }
}
