/** The endpoint cache shared by the whole program, and the endpoints table it is written back to. */
module EndpointShared {
  import opened Options

  // -------------------------------------------------------------- columns and rows

  /** What an endpoint reports about itself; a field that is not known is not written. */
  datatype Info = Info(
    os: Option<string>, arch: Option<string>, ver: Option<string>, log: Option<string>,
    tls: Option<string>, crt: Option<string>, keyPath: Option<string>, uptime: Option<int>)

  /** The columns that the cache writes back. */
  datatype Columns = Columns(status: string, tunnelCount: int, lastCheck: int, updatedAt: int, info: Info)

  datatype Row = Row(
    name: string, url: string, hostname: string, apiPath: string, apiKey: string, createdAt: int, columns: Columns)

  function Known<T>(cached: Option<T>, stored: Option<T>): Option<T> {
    if cached.Some? then cached else stored
  }

  /** One UPDATE: the known fields only. */
  function Write(stored: Columns, cached: Columns): Columns {
    cached.(info := Info(
      Known(cached.info.os, stored.info.os), Known(cached.info.arch, stored.info.arch),
      Known(cached.info.ver, stored.info.ver), Known(cached.info.log, stored.info.log),
      Known(cached.info.tls, stored.info.tls), Known(cached.info.crt, stored.info.crt),
      Known(cached.info.keyPath, stored.info.keyPath), Known(cached.info.uptime, stored.info.uptime)))
  }

  /** What the cache does not know is not in the database either. */
  predicate NothingUnknown(cached: Info, stored: Info) {
    && (cached.os.None? ==> stored.os.None?) && (cached.arch.None? ==> stored.arch.None?)
    && (cached.ver.None? ==> stored.ver.None?) && (cached.log.None? ==> stored.log.None?)
    && (cached.tls.None? ==> stored.tls.None?) && (cached.crt.None? ==> stored.crt.None?)
    && (cached.keyPath.None? ==> stored.keyPath.None?) && (cached.uptime.None? ==> stored.uptime.None?)
  }

  /** A write makes the columns agree exactly when nothing is unknown to the cache alone. */
  lemma WriteAgreesIff(stored: Columns, cached: Columns)
    ensures Write(stored, cached) == cached <==> NothingUnknown(cached.info, stored.info)
    ensures NothingUnknown(cached.info, cached.info)
    ensures Write(Write(stored, cached), cached) == Write(stored, cached)
  {
  }

  class Database {
    var endpoints: map<nat, Row>

    constructor (endpoints: map<nat, Row>)
      ensures this.endpoints == endpoints
    {
      this.endpoints := endpoints;
    }
  }

  class Endpoint {
    const id: nat
    const createdAt: int
    var name: string
    var url: string
    var hostname: string
    var apiPath: string
    var apiKey: string
    var status: string
    var tunnelCount: int
    var lastCheck: int
    var updatedAt: int
    var info: Info

    constructor (id: nat, row: Row)
      ensures this.id == id && createdAt == row.createdAt && AsRow() == row
    {
      this.id, createdAt := id, row.createdAt;
      name, url, hostname, apiPath, apiKey := row.name, row.url, row.hostname, row.apiPath, row.apiKey;
      status, tunnelCount := row.columns.status, row.columns.tunnelCount;
      lastCheck, updatedAt, info := row.columns.lastCheck, row.columns.updatedAt, row.columns.info;
    }

    function Cached(): Columns
      reads this
    {
      Columns(status, tunnelCount, lastCheck, updatedAt, info)
    }

    method SetText(field: Field, value: string)
      modifies this`name, this`url, this`hostname, this`apiPath, this`apiKey
      ensures AsRow() == SetField(old(AsRow()), field, Some(value))
    {
      match field
      case Name => name := value;
      case Url => url := value;
      case Hostname => hostname := value;
      case ApiPath => apiPath := value;
      case ApiKey => apiKey := value;
      case Unsupported =>
    }

    function AsRow(): Row
      reads this
    {
      Row(name, url, hostname, apiPath, apiKey, createdAt, Cached())
    }
  }

  // ---------------------------------------------------------------- the sorted list

  predicate NewestFirst(s: seq<Endpoint>) {
    forall i, j :: 0 <= i < j < |s| ==> s[i].createdAt >= s[j].createdAt
  }

  predicate NoDuplicates(s: seq<Endpoint>) {
    forall i, j :: 0 <= i < j < |s| ==> s[i] != s[j]
  }

  /** Puts an endpoint after all that are at least as new. */
  method Insert(s: seq<Endpoint>, e: Endpoint) returns (r: seq<Endpoint>)
    requires NewestFirst(s) && NoDuplicates(s) && e !in s
    ensures NewestFirst(r) && NoDuplicates(r)
    ensures forall x :: x in r <==> x in s || x == e
  {
    var i := |s|;
    while i > 0 && s[i - 1].createdAt < e.createdAt
      invariant 0 <= i <= |s|
      invariant i < |s| ==> s[i].createdAt < e.createdAt
    {
      i := i - 1;
    }
    r := s[..i] + [e] + s[i..];
    Inserted(s, e, i, r);
  }

  lemma InsertedPair(s: seq<Endpoint>, e: Endpoint, i: nat, r: seq<Endpoint>, p: nat, q: nat)
    requires i <= |s| && r == s[..i] + [e] + s[i..] && p < q < |r|
    requires NewestFirst(s) && NoDuplicates(s) && e !in s
    requires i > 0 ==> s[i - 1].createdAt >= e.createdAt
    requires i < |s| ==> s[i].createdAt < e.createdAt
    ensures r[p].createdAt >= r[q].createdAt && r[p] != r[q]
  {
    hide NewestFirst, NoDuplicates;
    if p < i && q < i {
      InOrder(s, p, q);
    } else if p < i && q == i {
      if p < i - 1 { InOrder(s, p, i - 1); }
      assert r[p] == s[p] && r[q] == e && s[p] in s;
    } else if p < i {
      InOrder(s, p, q - 1);
      assert r[p] == s[p] && r[q] == s[q - 1];
    } else if p == i {
      if i < q - 1 { InOrder(s, i, q - 1); }
      assert r[p] == e && r[q] == s[q - 1] && s[q - 1] in s;
    } else {
      InOrder(s, p - 1, q - 1);
      assert r[p] == s[p - 1] && r[q] == s[q - 1];
    }
  }

  lemma InOrder(s: seq<Endpoint>, p: nat, q: nat)
    requires NewestFirst(s) && NoDuplicates(s) && p < q < |s|
    ensures s[p].createdAt >= s[q].createdAt && s[p] != s[q]
  {
  }

  lemma Inserted(s: seq<Endpoint>, e: Endpoint, i: nat, r: seq<Endpoint>)
    requires i <= |s| && r == s[..i] + [e] + s[i..]
    requires NewestFirst(s) && NoDuplicates(s) && e !in s
    requires i > 0 ==> s[i - 1].createdAt >= e.createdAt
    requires i < |s| ==> s[i].createdAt < e.createdAt
    ensures NewestFirst(r) && NoDuplicates(r)
    ensures forall x :: x in r <==> x in s || x == e
  {
    hide NewestFirst, NoDuplicates;
    forall p: nat, q: nat | p < q < |r|
      ensures r[p].createdAt >= r[q].createdAt && r[p] != r[q] {
      InsertedPair(s, e, i, r, p, q);
    }
    InOrderPairs(r);
    InsertedMembers(s, e, i);
  }

  lemma InOrderPairs(r: seq<Endpoint>)
    requires forall p: nat, q: nat :: p < q < |r| ==> r[p].createdAt >= r[q].createdAt && r[p] != r[q]
    ensures NewestFirst(r) && NoDuplicates(r)
  {
  }

  lemma InsertedMembers(s: seq<Endpoint>, e: Endpoint, i: nat)
    requires i <= |s|
    ensures forall x :: x in s[..i] + [e] + s[i..] <==> x in s || x == e
  {
    assert s == s[..i] + s[i..];
  }

  /** The endpoints of the list, newest first; the order of equally old ones is left open. */
  method Sorted(list: map<nat, Endpoint>) returns (s: seq<Endpoint>)
    requires forall id :: id in list ==> list[id].id == id
    ensures NewestFirst(s) && NoDuplicates(s)
    ensures forall e :: e in s ==> e.id in list && list[e.id] == e
    ensures forall id :: id in list ==> list[id] in s
  {
    s := [];
    var todo := list.Keys;
    while todo != {}
      invariant todo <= list.Keys && NewestFirst(s) && NoDuplicates(s)
      invariant forall e :: e in s ==> e.id in list && e.id !in todo && list[e.id] == e
      invariant forall id :: id in list && id !in todo ==> list[id] in s
      decreases |todo|
    {
      var id :| id in todo;
      s := Insert(s, list[id]);
      todo := todo - {id};
    }
  }

  // --------------------------------------------------------------------- the cache

  datatype Field = Name | Url | Hostname | ApiPath | ApiKey | Unsupported

  class EndpointShared {
    var list: map<nat, Endpoint>
    var sortedList: seq<Endpoint>
    var dirtySet: set<nat>
    var lastPersistTime: int
    var persistInterval: int

    /** Every endpoint under its own id, and the sorted list up to date. */
    predicate Listed()
      reads this`list, this`sortedList
    {
      && (forall id :: id in list ==> list[id].id == id)
      && NewestFirst(sortedList) && NoDuplicates(sortedList)
      && (forall e :: e in sortedList ==> e.id in list && list[e.id] == e)
      && (forall id :: id in list ==> list[id] in sortedList)
    }

    /** An endpoint that is not marked as dirty agrees with its row on every persisted column. */
    predicate InStep(db: Database)
      reads this`list, this`dirtySet, db, list.Values
    {
      forall id :: id in list && id in db.endpoints ==>
        && NothingUnknown(list[id].info, db.endpoints[id].columns.info)
        && (id !in dirtySet ==> db.endpoints[id].columns == list[id].Cached())
    }

    predicate Valid(db: Database)
      reads this`list, this`sortedList, this`dirtySet, db, list.Values
    {
      Listed() && InStep(db)
    }

    /** Nothing is left to write. */
    predicate Agrees(db: Database)
      reads this`list, db, list.Values
    {
      forall id :: id in list && id in db.endpoints ==> db.endpoints[id].columns == list[id].Cached()
    }

    constructor (db: Database, now: int)
      ensures Valid(db) && Agrees(db) && dirtySet == {} && persistInterval == 30 && lastPersistTime == now
      ensures list.Keys == db.endpoints.Keys && forall id :: id in list ==> fresh(list[id])
      ensures forall id :: id in list ==> list[id].AsRow() == db.endpoints[id]
    {
      list, sortedList, dirtySet := map[], [], {};
      lastPersistTime, persistInterval := now, 30;
      new;
      LoadFromDB(db);
      SortList();
    }

    method LoadFromDB(db: Database)
      modifies this`list
      ensures list.Keys == db.endpoints.Keys && forall id :: id in list ==> fresh(list[id])
      ensures forall id :: id in list ==> list[id].id == id && list[id].AsRow() == db.endpoints[id]
    {
      hide Endpoint.AsRow;
      list := map[];
      var todo := db.endpoints.Keys;
      while todo != {}
        invariant todo <= db.endpoints.Keys && list.Keys == db.endpoints.Keys - todo
        invariant forall id :: id in list ==> fresh(list[id])
        invariant forall id :: id in list ==> list[id].id == id && list[id].AsRow() == db.endpoints[id]
        decreases |todo|
      {
        var id :| id in todo;
        var endpoint := new Endpoint(id, db.endpoints[id]);
        list := list[id := endpoint];
        todo := todo - {id};
      }
    }

    method SortList()
      requires forall id :: id in list ==> list[id].id == id
      modifies this`sortedList
      ensures Listed()
    {
      sortedList := Sorted(list);
    }

    /** The endpoint an update is about. */
    ghost function Target(id: nat): set<Endpoint>
      reads this`list
    {
      if id in list then {list[id]} else {}
    }

    /** A new endpoint, which is in the database already. */
    method Add(endpoint: Endpoint, db: Database)
      requires Valid(db)
      requires endpoint.id in db.endpoints ==> db.endpoints[endpoint.id].columns == endpoint.Cached()
      modifies this`list, this`sortedList
      ensures Valid(db) && list == old(list)[endpoint.id := endpoint]
    {
      list := list[endpoint.id := endpoint];
      SortList();
    }

    method Delete(id: nat, db: Database)
      requires Valid(db)
      modifies this`list, this`sortedList, this`dirtySet
      ensures Valid(db) && list == old(list) - {id} && dirtySet == old(dirtySet) - {id}
    {
      list := list - {id};
      SortList();
      dirtySet := dirtySet - {id};
    }

    method UpdateStatus(id: nat, status: string, now: int, db: Database)
      requires Valid(db)
      modifies this`dirtySet, Target(id)
      ensures Valid(db) && dirtySet == if id in list then old(dirtySet) + {id} else old(dirtySet)
      ensures id in list ==>
                list[id].AsRow() == old(list[id].AsRow()).(
                  columns := old(list[id].Cached()).(status := status, lastCheck := now))
    {
      if id !in list {
        return;
      }
      list[id].status := status;
      list[id].lastCheck := now;
      dirtySet := dirtySet + {id};
    }

    method UpdateTunnelCount(id: nat, count: int, now: int, db: Database)
      requires Valid(db)
      modifies this`dirtySet, Target(id)
      ensures Valid(db) && dirtySet == if id in list then old(dirtySet) + {id} else old(dirtySet)
      ensures id in list ==>
                list[id].AsRow() == old(list[id].AsRow()).(
                  columns := old(list[id].Cached()).(tunnelCount := count, updatedAt := now))
    {
      if id !in list {
        return;
      }
      list[id].tunnelCount := count;
      list[id].updatedAt := now;
      dirtySet := dirtySet + {id};
    }

    method UpdateInfo(id: nat, os: string, arch: string, ver: string, log: string, tls: string, crt: string,
                      keyPath: string, uptime: int, now: int, db: Database)
      requires Valid(db)
      modifies this`dirtySet, Target(id)
      ensures Valid(db) && dirtySet == if id in list then old(dirtySet) + {id} else old(dirtySet)
      ensures id in list ==>
                list[id].AsRow() == old(list[id].AsRow()).(
                  columns := old(list[id].Cached()).(
                    info := Info(Some(os), Some(arch), Some(ver), Some(log), Some(tls), Some(crt), Some(keyPath),
                                 Some(uptime)),
                    updatedAt := now))
    {
      if id !in list {
        return;
      }
      list[id].info := Info(Some(os), Some(arch), Some(ver), Some(log), Some(tls), Some(crt), Some(keyPath),
                            Some(uptime));
      list[id].updatedAt := now;
      dirtySet := dirtySet + {id};
    }

    /** Changes a field that is never written back; a value of the wrong type changes nothing but the time. */
    method UpdateField(id: nat, field: Field, value: Option<string>, now: int, db: Database)
      requires Valid(db)
      modifies this`dirtySet, Target(id)
      ensures Valid(db)
      ensures dirtySet == if id in list && !field.Unsupported? then old(dirtySet) + {id} else old(dirtySet)
      ensures id in list && field.Unsupported? ==> list[id].AsRow() == old(list[id].AsRow())
      ensures id in list && !field.Unsupported? ==>
                list[id].AsRow() ==
                SetField(old(list[id].AsRow()), field, value).(
                  columns := old(list[id].Cached()).(updatedAt := now))
    {
      hide NewestFirst, NoDuplicates, SetField;
      if id !in list {
        return;
      }
      var endpoint := list[id];
      if field.Unsupported? {
        return;
      }
      NoTextNoChange(endpoint.AsRow(), field);
      if value.Some? {
        endpoint.SetText(field, value.value);
      }
      endpoint.updatedAt := now;
      dirtySet := dirtySet + {id};
    }

    /** The table with the dirty endpoints written. */
    function Persisted(rows: map<nat, Row>, ids: set<nat>): map<nat, Row>
      reads this`list, list.Values
    {
      map id | id in rows ::
        if id in ids && id in list
        then rows[id].(columns := Write(rows[id].columns, list[id].Cached())) else rows[id]
    }

    /**
     * Writes the dirty endpoints in one transaction, unless the last time is too recent. Every statement, and
     * the commit, may fail, unless all is `calm`; then nothing is written and everything stays dirty.
     */
    method PersistIfNeeded(db: Database, now: int, calm: bool) returns (ok: bool)
      requires Valid(db)
      modifies this`dirtySet, this`lastPersistTime, db
      ensures Valid(db)
      ensures calm ==> ok
      ensures var due := now - old(lastPersistTime) >= persistInterval;
              && (due && ok ==>
                    && db.endpoints == Persisted(old(db.endpoints), old(dirtySet))
                    && dirtySet == {} && Agrees(db) && lastPersistTime == now)
              && (!due ==> ok)
              && (!due || !ok ==>
                    db.endpoints == old(db.endpoints) && dirtySet == old(dirtySet)
                    && lastPersistTime == old(lastPersistTime))
    {
      hide Persisted, Listed;
      ok := true;
      if now - lastPersistTime < persistInterval {
        return;
      }
      if dirtySet == {} {
        lastPersistTime := now;
        NothingDirty(db.endpoints);
        return;
      }
      var rows;
      ok, rows := WriteDirty(db, calm);
      if !ok {
        return;
      }
      WrittenAgree(db, rows);
      db.endpoints := rows;
      dirtySet := {};
      lastPersistTime := now;
    }

    lemma NothingDirty(rows: map<nat, Row>)
      ensures Persisted(rows, {}) == rows
    {
    }

    /** The transaction: an UPDATE for every dirty endpoint that is still listed. */
    method WriteDirty(db: Database, calm: bool) returns (ok: bool, rows: map<nat, Row>)
      ensures calm ==> ok
      ensures ok ==> rows == Persisted(db.endpoints, dirtySet)
    {
      ok, rows := true, db.endpoints;
      var todo := dirtySet;
      NothingDirty(rows);
      assert dirtySet - todo == {};
      while todo != {}
        invariant ok && todo <= dirtySet
        invariant rows == Persisted(db.endpoints, dirtySet - todo)
        decreases |todo|
      {
        var id :| id in todo;
        todo := todo - {id};
        if id in list {
          if !calm {
            if * {
              return false, rows;
            }
          }
          if id in rows {
            rows := rows[id := rows[id].(columns := Write(rows[id].columns, list[id].Cached()))];
          }
        }
      }
      assert dirtySet - todo == dirtySet;
      if !calm {
        if * {
          return false, rows;
        }
      }
    }

    lemma WrittenAgree(db: Database, rows: map<nat, Row>)
      requires Valid(db) && rows == Persisted(db.endpoints, dirtySet)
      ensures forall id :: id in list && id in rows ==> rows[id].columns == list[id].Cached()
    {
      hide Listed, Write;
      forall id | id in list && id in rows
        ensures rows[id].columns == list[id].Cached() {
        WriteAgreesIff(db.endpoints[id].columns, list[id].Cached());
      }
    }

    /** Writes whatever is dirty, however recent the last time; success leaves nothing to write. */
    method ForcePersist(db: Database, now: int, calm: bool) returns (ok: bool)
      requires Valid(db) && now >= lastPersistTime
      modifies this`dirtySet, this`lastPersistTime, this`persistInterval, db
      ensures calm ==> ok
      ensures Valid(db) && persistInterval == old(persistInterval)
      ensures ok ==>
                dirtySet == {} && Agrees(db) && db.endpoints == Persisted(old(db.endpoints), old(dirtySet))
      ensures !ok ==> dirtySet == old(dirtySet) && db.endpoints == old(db.endpoints)
    {
      hide Persisted, Listed, InStep;
      var oldInterval := persistInterval;
      persistInterval := 0;
      ok := PersistIfNeeded(db, now, calm);
      persistInterval := oldInterval;
    }

    /** Starts again from the database; changes that were not persisted are lost. */
    method Reload(db: Database, calm: bool) returns (ok: bool)
      requires Valid(db)
      modifies this`list, this`sortedList, this`dirtySet
      ensures calm ==> ok
      ensures Valid(db)
      ensures ok ==> Agrees(db) && dirtySet == {} && list.Keys == db.endpoints.Keys
      ensures ok ==> forall id :: id in list ==> fresh(list[id]) && list[id].AsRow() == db.endpoints[id]
      ensures !ok ==> list == old(list) && sortedList == old(sortedList) && dirtySet == old(dirtySet)
    {
      if !calm {
        if * {
          return false;
        }
      }
      LoadFromDB(db);
      SortList();
      dirtySet := {};
      ok := true;
    }

    /** A copy that the caller may change without changing the cache. */
    method Get(id: nat) returns (copy: Endpoint?)
      requires Listed()
      ensures copy == null <==> id !in list
      ensures copy != null ==> fresh(copy) && copy.id == id && copy.AsRow() == list[id].AsRow()
    {
      if id !in list {
        return null;
      }
      copy := new Endpoint(id, list[id].AsRow());
    }
  }

  /** What the invariant says: the sorted list is the list, newest first, each endpoint once; and what a row holds
      of a clean endpoint is what the cache holds. */
  lemma ValidMeans(cache: EndpointShared, db: Database)
    requires cache.Valid(db)
    ensures forall id :: id in cache.list ==> cache.list[id].id == id && cache.list[id] in cache.sortedList
    ensures forall e :: e in cache.sortedList ==> e.id in cache.list && cache.list[e.id] == e
    ensures forall i, j :: 0 <= i < j < |cache.sortedList| ==>
              && cache.sortedList[i] != cache.sortedList[j]
              && cache.sortedList[i].createdAt >= cache.sortedList[j].createdAt
    ensures forall id :: id in cache.list && id in db.endpoints && id !in cache.dirtySet ==>
              var e, columns := cache.list[id], db.endpoints[id].columns;
              && columns.status == e.status && columns.tunnelCount == e.tunnelCount
              && columns.lastCheck == e.lastCheck && columns.updatedAt == e.updatedAt && columns.info == e.info
  {
  }

  lemma NoTextNoChange(row: Row, field: Field)
    ensures SetField(row, field, None) == row
  {
  }

  function SetField(row: Row, field: Field, value: Option<string>): Row {
    if value.None? then row
    else
      match field
      case Name => row.(name := value.value)
      case Url => row.(url := value.value)
      case Hostname => row.(hostname := value.value)
      case ApiPath => row.(apiPath := value.value)
      case ApiKey => row.(apiKey := value.value)
      case Unsupported => row
  }

  /** Exactly the named field takes the value. */
  lemma SetFieldIs(row: Row, field: Field, value: string)
    ensures SetField(row, field, Some(value)) ==
            Row(if field == Name then value else row.name, if field == Url then value else row.url,
                if field == Hostname then value else row.hostname, if field == ApiPath then value else row.apiPath,
                if field == ApiKey then value else row.apiKey, row.createdAt, row.columns)
  {
  }

  /** Any sequence of cache operations, failures included, keeps the cache in step with the database. */
  method AnyRun(db: Database, start: int, steps: nat) returns (cache: EndpointShared)
    modifies db
    ensures cache.Valid(db)
  {
    cache := new EndpointShared(db, start);
    for n := 0 to steps
      invariant cache.Valid(db)
      invariant fresh(cache) && forall id :: id in cache.list ==> fresh(cache.list[id])
    {
      var id: nat, now: int, text: string, calm: bool := *, *, *, *;
      if
      case true =>
        var row: Row := *;
        var endpoint := new Endpoint(id, row);
        if id in db.endpoints { endpoint := new Endpoint(id, row.(columns := db.endpoints[id].columns)); }
        cache.Add(endpoint, db);
      case true => cache.Delete(id, db);
      case true => cache.UpdateStatus(id, text, now, db);
      case true => cache.UpdateTunnelCount(id, now, now, db);
      case true => cache.UpdateInfo(id, text, text, text, text, text, text, text, now, now, db);
      case true =>
        var field: Field, value: Option<string> := *, *;
        cache.UpdateField(id, field, value, now, db);
      case true => var _ := cache.PersistIfNeeded(db, now, calm);
      case now >= cache.lastPersistTime => var _ := cache.ForcePersist(db, now, calm);
      case true => var _ := cache.Reload(db, calm);
    }
  }
}
