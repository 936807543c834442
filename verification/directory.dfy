/** The per-user record store (botkit's redis storage as the bot uses it):
    one JSON record per chat user, read with `get` and `all`, written whole
    with `save`. */
module Directory {
  import opened Wrappers

  /** `{id, trello, trelloWebhook}`; a property that is absent is `None`. */
  datatype UserRecord = UserRecord(id: string, trello: Option<string>, trelloWebhook: Option<string>)

  /** JavaScript truthiness of an optional string property: an absent
      property and the empty string are both false. */
  predicate Truthy(v: Option<string>)
  {
    v.Some? && v.value != ""
  }

  /** `data && data.trello` for the result of a `get`. */
  predicate KnowsTrello(data: Option<UserRecord>)
  {
    data.Some? && Truthy(data.value.trello)
  }

  /** The store. `ids` is the order in which `all` lists the records: the
      order in which they were first saved (a later save of the same id
      replaces the record in place). */
  class UserDirectory {
    var ids: seq<string>
    var records: map<string, UserRecord>

    ghost predicate Valid()
      reads this
    {
      && (forall i, j :: 0 <= i < j < |ids| ==> ids[i] != ids[j])
      && (forall k :: k in records <==> k in ids)
      && (forall k :: k in records ==> records[k].id == k)
    }

    constructor ()
      ensures Valid() && ids == [] && records == map[]
    {
      ids := [];
      records := map[];
    }

    /** `storage.users.get(id)`: the record, or `null` when there is none. */
    method Get(id: string) returns (data: Option<UserRecord>)
      requires Valid()
      ensures data.Some? <==> id in records
      ensures data.Some? ==> data.value == records[id] && data.value.id == id
    {
      data := if id in records then Some(records[id]) else None;
    }

    /** `storage.users.save(rec)`: the whole record is replaced; fields the
        new record does not carry are gone. */
    method Save(rec: UserRecord)
      requires Valid()
      modifies this
      ensures Valid()
      ensures records == old(records)[rec.id := rec]
      ensures ids == if rec.id in old(records) then old(ids) else old(ids) + [rec.id]
    {
      if rec.id !in records {
        ids := ids + [rec.id];
      }
      records := records[rec.id := rec];
    }

    /** `storage.users.all()`: every record, each exactly once, in listing order. */
    method All() returns (users: seq<UserRecord>)
      requires Valid()
      ensures |users| == |ids|
      ensures forall k :: 0 <= k < |users| ==> users[k] == records[ids[k]]
      ensures forall r :: r in users <==> r.id in records && records[r.id] == r
    {
      users := [];
      var k := 0;
      while k < |ids|
        invariant 0 <= k <= |ids|
        invariant |users| == k
        invariant forall j :: 0 <= j < k ==> users[j] == records[ids[j]]
      {
        users := users + [records[ids[k]]];
        k := k + 1;
      }
      forall r: UserRecord | r.id in records && records[r.id] == r
        ensures r in users
      {
        var j :| 0 <= j < |ids| && ids[j] == r.id;
        assert users[j] == r;
      }
    }
  }
}
