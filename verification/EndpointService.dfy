/** The endpoint service: rows of the endpoints table, and the cache the API client reads base URLs from. */
module EndpointService {
  import opened Options
  import opened Text

  datatype Row = Row(name: string, url: string, hostname: string, apiPath: string, apiKey: string)

  type Table = map<nat, Row>

  datatype CacheItem = CacheItem(baseUrl: string, apiKey: string, exists_: bool)

  type Items = map<string, CacheItem>

  function ItemOf(row: Row): CacheItem {
    CacheItem(row.url + row.apiPath, row.apiKey, true)
  }

  /** The cache is the table seen through (URL + path, key), under the decimal form of the id. */
  ghost predicate InStep(t: Table, items: Items) {
    && (forall id :: id in t ==> Decimal(id) in items && items[Decimal(id)] == ItemOf(t[id]))
    && (forall s :: s in items ==> exists id :: id in t && Decimal(id) == s)
  }

  /** No two endpoints share a name or a URL. */
  predicate Unique(t: Table) {
    forall a, b :: a in t && b in t && a != b ==> t[a].name != t[b].name && t[a].url != t[b].url
  }

  // ---------------------------------------------------------------------- the cache

  class Cache {
    var items: Items

    constructor ()
      ensures items == map[]
    {
      items := map[];
    }

    method InitializeCache(t: Table)
      modifies this
      ensures InStep(t, items)
    {
      items := map[];
      var todo := t.Keys;
      while todo != {}
        invariant todo <= t.Keys
        invariant InStep(t - todo, items)
        decreases |todo|
      {
        var id :| id in todo;
        RowArrives(t - todo, items, id, t[id]);
        items := items[Decimal(id) := CacheItem(t[id].url + t[id].apiPath, t[id].apiKey, true)];
        assert t - (todo - {id}) == (t - todo)[id := t[id]];
        todo := todo - {id};
      }
      assert t - todo == t;
    }

    method Get(endpointId: string) returns (baseUrl: string, apiKey: string, found: bool)
      ensures found <==> endpointId in items && items[endpointId].exists_
      ensures found ==> items[endpointId] == CacheItem(baseUrl, apiKey, true)
      ensures !found ==> baseUrl == "" && apiKey == ""
    {
      if endpointId in items && items[endpointId].exists_ {
        return items[endpointId].baseUrl, items[endpointId].apiKey, true;
      }
      return "", "", false;
    }

    method Set(endpointId: string, baseUrl: string, apiKey: string)
      modifies this
      ensures items == old(items)[endpointId := CacheItem(baseUrl, apiKey, true)]
    {
      items := items[endpointId := CacheItem(baseUrl, apiKey, true)];
    }

    /** As Set, for an entry that exists. */
    method Update(endpointId: string, baseUrl: string, apiKey: string)
      modifies this
      ensures items ==
              if endpointId in old(items) then old(items)[endpointId := CacheItem(baseUrl, apiKey, true)]
              else old(items)
    {
      if endpointId in items {
        items := items[endpointId := CacheItem(baseUrl, apiKey, true)];
      }
    }

    method Delete(endpointId: string)
      modifies this
      ensures items == old(items) - {endpointId}
    {
      items := items - {endpointId};
    }
  }

  // ------------------------------------------------------------- staying in step

  lemma KeysDiffer(a: nat, b: nat)
    requires a != b
    ensures Decimal(a) != Decimal(b)
  {
    if Decimal(a) == Decimal(b) {
      DecimalInjective(a, b);
    }
  }

  lemma RowArrives(t: Table, items: Items, id: nat, row: Row)
    requires InStep(t, items)
    ensures InStep(t[id := row], items[Decimal(id) := ItemOf(row)])
  {
    hide Decimal;
    var after, itemsAfter := t[id := row], items[Decimal(id) := ItemOf(row)];
    forall other | other in after
      ensures Decimal(other) in itemsAfter && itemsAfter[Decimal(other)] == ItemOf(after[other]) {
      if other != id { KeysDiffer(other, id); }
    }
    forall s | s in itemsAfter
      ensures exists other :: other in after && Decimal(other) == s {
      if s == Decimal(id) {
        assert id in after;
      } else {
        var other :| other in t && Decimal(other) == s;
        assert other in after;
      }
    }
  }

  lemma RowLeaves(t: Table, items: Items, id: nat)
    requires InStep(t, items)
    ensures InStep(t - {id}, items - {Decimal(id)})
  {
    hide Decimal;
    var after, itemsAfter := t - {id}, items - {Decimal(id)};
    forall other | other in after
      ensures Decimal(other) in itemsAfter && itemsAfter[Decimal(other)] == ItemOf(after[other]) {
      KeysDiffer(other, id);
    }
    forall s | s in itemsAfter
      ensures exists other :: other in after && Decimal(other) == s {
      var other :| other in t && Decimal(other) == s;
      assert other in after;
    }
  }

  /** A row changes while the cache does not: that is right exactly when the projection is the same. */
  lemma RowChangesAloneIff(t: Table, items: Items, id: nat, row: Row)
    requires InStep(t, items) && id in t
    ensures InStep(t[id := row], items) <==> ItemOf(row) == ItemOf(t[id])
  {
    hide Decimal;
    var after := t[id := row];
    if ItemOf(row) == ItemOf(t[id]) {
      forall s | s in items
        ensures exists other :: other in after && Decimal(other) == s {
        var other :| other in t && Decimal(other) == s;
        assert other in after;
      }
    } else {
      assert id in t && id in after && after[id] == row;
    }
  }

  /** What the client finds in a cache that is in step: exactly the endpoints of the table, and their data. */
  lemma ClientSeesTheTable(t: Table, items: Items, id: nat)
    requires InStep(t, items)
    ensures Decimal(id) in items && items[Decimal(id)].exists_ <==> id in t
    ensures id in t ==> items[Decimal(id)] == CacheItem(t[id].url + t[id].apiPath, t[id].apiKey, true)
  {
    hide Decimal;
    if Decimal(id) in items {
      var other :| other in t && Decimal(other) == Decimal(id);
      if other != id { KeysDiffer(other, id); }
    }
  }

  // --------------------------------------------------------------------- requests

  datatype Action = Rename | UpdateAll | UpdateConfig | UpdateApiKey | OtherAction

  datatype Request = Request(
    id: nat, action: Action, name: string, url: string, hostname: string, apiPath: string, apiKey: string)

  /** DatabaseError is a statement that fails without effect; the last two fail after something was done. */
  datatype Error =
    | NotFound | EmptyName | NameTaken | UrlTaken | EmptyApiKey | DatabaseError | ReadBackFailed | CommitFailed

  predicate NameTakenBy(t: Table, name: string, except_: nat) {
    exists id :: id in t && id != except_ && t[id].name == name
  }

  predicate UrlTakenBy(t: Table, url: string, except_: nat) {
    exists id :: id in t && id != except_ && t[id].url == url
  }

  /** Why the request is refused, if it is: the checks in the order they are made, then the unique indexes. */
  function Refusal(t: Table, req: Request): Option<Error> {
    if req.id !in t then Some(NotFound)
    else
      var row := t[req.id];
      match req.action
      case Rename =>
        if req.name == "" then Some(EmptyName) else if NameTakenBy(t, req.name, req.id) then Some(NameTaken) else None
      case UpdateAll =>
        if req.url != "" && req.url != row.url && UrlTakenBy(t, req.url, req.id) then Some(UrlTaken)
        else if req.name != "" && NameTakenBy(t, req.name, req.id) then Some(DatabaseError) else None
      case UpdateConfig =>
        if req.name != "" && NameTakenBy(t, req.name, req.id) then Some(NameTaken)
        else if req.url != "" && req.url != row.url && UrlTakenBy(t, req.url, req.id) then Some(UrlTaken)
        else None
      case UpdateApiKey => if req.apiKey == "" then Some(EmptyApiKey) else None
      case OtherAction => None
  }

  function Given(value: string, current: string): string {
    if value != "" then value else current
  }

  /** The row after the request; `host` is what is extracted from the URL of the request, or "". */
  function NewRow(row: Row, req: Request, host: string): Row {
    match req.action
    case Rename => row.(name := req.name)
    case UpdateAll =>
      Row(Given(req.name, row.name), Given(req.url, row.url),
          if req.hostname != "" then req.hostname else if req.url != "" then Given(host, row.hostname)
          else row.hostname,
          Given(req.apiPath, row.apiPath), Given(req.apiKey, row.apiKey))
    case UpdateConfig =>
      Row(Given(req.name, row.name), Given(req.url, row.url),
          if req.hostname != "" then req.hostname
          else if req.url != "" && req.url != row.url then Given(host, row.hostname) else row.hostname,
          Given(req.apiPath, row.apiPath), Given(req.apiKey, row.apiKey))
    case UpdateApiKey => row.(apiKey := req.apiKey)
    case OtherAction => row
  }

  /** An update that brings a new path and neither a URL nor a key. */
  predicate ChangesOnlyPath(row: Row, req: Request) {
    req.action == UpdateAll && req.url == "" && req.apiKey == "" && req.apiPath != "" && req.apiPath != row.apiPath
  }

  /** Whether the request reports the new row to the cache. */
  predicate TellsCache(row: Row, req: Request) {
    match req.action
    case Rename => false
    case UpdateAll => req.url != "" || req.apiKey != ""
    case UpdateConfig =>
      || (req.url != "" && req.url != row.url) || (req.apiPath != "" && req.apiPath != row.apiPath)
      || (req.apiKey != "" && req.apiKey != row.apiKey)
    case UpdateApiKey => true
    case OtherAction => false
  }

  /** The row is read again after the update, which may fail. */
  predicate ReadsBack(action: Action) {
    action == UpdateAll || action == UpdateConfig || action == UpdateApiKey
  }

  lemma UpdateKeepsUnique(t: Table, req: Request, host: string)
    requires Unique(t) && Refusal(t, req).None?
    ensures Unique(t[req.id := NewRow(t[req.id], req, host)])
  {
    var row := NewRow(t[req.id], req, host);
    forall other | other in t && other != req.id
      ensures t[other].name != row.name && t[other].url != row.url {
      assert t[other].name != t[req.id].name && t[other].url != t[req.id].url;
    }
  }

  /** A request that was accepted is accepted again, and changes nothing the second time. */
  lemma RepeatedRequest(t: Table, req: Request, host: string)
    requires Refusal(t, req).None?
    ensures var after := t[req.id := NewRow(t[req.id], req, host)];
            && Refusal(after, req).None?
            && after[req.id := NewRow(after[req.id], req, host)] == after
  {
    var row := NewRow(t[req.id], req, host);
    var after := t[req.id := row];
    assert NewRow(row, req, host) == row;
    assert forall k :: k in after && k != req.id ==> k in t && after[k] == t[k];
    assert !NameTakenBy(t, req.name, req.id) ==> !NameTakenBy(after, req.name, req.id);
    assert after[req.id := NewRow(after[req.id], req, host)] == after;
  }

  /** The refusals, one by one. */
  lemma Refused(t: Table, req: Request)
    ensures Refusal(t, req) == Some(NotFound) <==> req.id !in t
    ensures Refusal(t, req) == Some(DatabaseError) ==>
            && req.id in t && req.action == UpdateAll && req.name != ""
            && exists id :: id in t && id != req.id && t[id].name == req.name
    ensures Refusal(t, req) == Some(EmptyName) <==> req.id in t && req.action == Rename && req.name == ""
    ensures Refusal(t, req) == Some(EmptyApiKey) <==> req.id in t && req.action == UpdateApiKey && req.apiKey == ""
    ensures Refusal(t, req) == Some(NameTaken) <==>
            && req.id in t && req.action in {Rename, UpdateConfig} && req.name != ""
            && exists id :: id in t && id != req.id && t[id].name == req.name
    ensures Refusal(t, req) == Some(UrlTaken) <==>
            && req.id in t && req.action in {UpdateAll, UpdateConfig} && req.url != "" && req.url != t[req.id].url
            && Refusal(t, req) != Some(NameTaken)
            && exists id :: id in t && id != req.id && t[id].url == req.url
  {
  }

  /** The row after an accepted request, field by field. */
  lemma NewFields(row: Row, req: Request, host: string)
    ensures var next := NewRow(row, req, host);
            && (req.action == Rename ==> next == row.(name := req.name))
            && (req.action == UpdateApiKey ==> next == row.(apiKey := req.apiKey))
            && (req.action == OtherAction ==> next == row)
            && (req.action in {UpdateAll, UpdateConfig} ==>
                  && next.name == (if req.name != "" then req.name else row.name)
                  && next.url == (if req.url != "" then req.url else row.url)
                  && next.apiPath == (if req.apiPath != "" then req.apiPath else row.apiPath)
                  && next.apiKey == (if req.apiKey != "" then req.apiKey else row.apiKey)
                  && (req.hostname != "" ==> next.hostname == req.hostname)
                  && (req.hostname == "" ==>
                        next.hostname ==
                        if host != "" && req.url != "" && (req.action == UpdateAll || req.url != row.url)
                        then host else row.hostname))
  {
  }

  lemma ToldWhen(row: Row, req: Request, host: string)
    ensures var next := NewRow(row, req, host);
            TellsCache(row, req) <==>
            || req.action == UpdateApiKey
            || (req.action == UpdateAll && (req.url != "" || req.apiKey != ""))
            || (req.action == UpdateConfig &&
                  (next.url != row.url || next.apiPath != row.apiPath || next.apiKey != row.apiKey))
  {
  }

  lemma RefusalOfKnown(t: Table, req: Request)
    ensures Refusal(t, req).None? ==> req.id in t
    ensures Refusal(t, req) !in {Some(ReadBackFailed), Some(CommitFailed)}
  {
  }

  lemma CreateKeepsUnique(t: Table, id: nat, row: Row)
    requires Unique(t) && id !in t
    requires forall k :: k in t ==> t[k].name != row.name && t[k].url != row.url
    ensures Unique(t[id := row])
  {
  }

  lemma DeleteKeepsUnique(t: Table, id: nat)
    requires Unique(t)
    ensures Unique(t - {id})
  {
  }

  /** Which part of the row the cache shows differs. */
  lemma ProjectionChanges(row: Row, req: Request, host: string)
    ensures req.action == Rename || req.action == OtherAction ==> ItemOf(NewRow(row, req, host)) == ItemOf(row)
    ensures req.action == UpdateAll && req.url == "" && req.apiKey == "" ==>
              (ItemOf(NewRow(row, req, host)) == ItemOf(row) <==> !ChangesOnlyPath(row, req))
    ensures req.action == UpdateConfig && (req.url == "" || req.url == row.url)
            && (req.apiPath == "" || req.apiPath == row.apiPath) && (req.apiKey == "" || req.apiKey == row.apiKey) ==>
              ItemOf(NewRow(row, req, host)) == ItemOf(row)
  {
    if req.action == UpdateAll && req.url == "" && req.apiKey == "" {
      var path := NewRow(row, req, host).apiPath;
      assert (row.url + path)[|row.url|..] == path && (row.url + row.apiPath)[|row.url|..] == row.apiPath;
    }
  }

  /** Cache.Update: an entry that exists shows the row. */
  function Told(items: Items, id: nat, row: Row): Items {
    if Decimal(id) in items then items[Decimal(id) := ItemOf(row)] else items
  }

  /** The row is written and the cache told as the request says: what comes of it. */
  lemma UpdatedInStepIff(t: Table, items: Items, req: Request, host: string)
    requires InStep(t, items) && req.id in t
    ensures var row := NewRow(t[req.id], req, host);
            && (InStep(t[req.id := row], if TellsCache(t[req.id], req) then Told(items, req.id, row) else items) <==>
                !ChangesOnlyPath(t[req.id], req))
            && (InStep(t[req.id := row], items) <==> ItemOf(row) == ItemOf(t[req.id]))
  {
    var row := NewRow(t[req.id], req, host);
    ProjectionChanges(t[req.id], req, host);
    ClientSeesTheTable(t, items, req.id);
    hide Decimal, InStep, NewRow;
    RowArrives(t, items, req.id, row);
    RowChangesAloneIff(t, items, req.id, row);
  }

  /** The same ids, and for each the same URL with path and the same key. */
  predicate SameProjection(a: Table, b: Table) {
    a.Keys == b.Keys && forall id :: id in a ==> ItemOf(a[id]) == ItemOf(b[id])
  }

  lemma KeysFromItems(a: Table, b: Table, items: Items, id: nat)
    requires InStep(a, items) && InStep(b, items) && id in a
    ensures id in b && ItemOf(a[id]) == ItemOf(b[id])
  {
    hide Decimal;
    assert Decimal(id) in items;
    var other :| other in b && Decimal(other) == Decimal(id);
    if other != id { KeysDiffer(other, id); }
  }

  /** A cache in step with one table is in step with another exactly when it cannot tell them apart. */
  lemma InStepIffSame(t: Table, told: Table, items: Items)
    requires InStep(told, items)
    ensures InStep(t, items) <==> SameProjection(t, told)
  {
    hide Decimal;
    if InStep(t, items) {
      forall id | id in t { KeysFromItems(t, told, items, id); }
      forall id | id in told { KeysFromItems(told, t, items, id); }
    } else if SameProjection(t, told) {
      forall s | s in items
        ensures exists id :: id in t && Decimal(id) == s {
        var id :| id in told && Decimal(id) == s;
        assert id in t;
      }
    }
  }

  /** A concrete case: one endpoint, and an update that only moves its path. */
  lemma PathAloneGoesStale()
    ensures var row := Row("a", "http://h", "h", "/api", "k");
            var req := Request(1, UpdateAll, "", "", "", "/v2", "");
            var t: Table, items: Items := map[1 := row], map[Decimal(1) := ItemOf(row)];
            && InStep(t, items) && Refusal(t, req).None?
            && !InStep(t[1 := NewRow(row, req, "")], items)
  {
    var row := Row("a", "http://h", "h", "/api", "k");
    var req := Request(1, UpdateAll, "", "", "", "/v2", "");
    var t: Table, items: Items := map[1 := row], map[Decimal(1) := ItemOf(row)];
    assert 1 in t;
    assert InStep(t, items);
    UpdatedInStepIff(t, items, req, "");
  }

  // --------------------------------------------------------------------- the service

  /** The columns of one UPDATE statement. */
  datatype Updates = Updates(
    name: Option<string>, url: Option<string>, hostname: Option<string>, apiPath: Option<string>,
    apiKey: Option<string>)

  const NO_UPDATES := Updates(None, None, None, None, None)

  function OrElse(v: Option<string>, current: string): string {
    match v case Some(s) => s case None => current
  }

  function ApplyUpdates(row: Row, u: Updates): Row {
    Row(OrElse(u.name, row.name), OrElse(u.url, row.url), OrElse(u.hostname, row.hostname),
        OrElse(u.apiPath, row.apiPath), OrElse(u.apiKey, row.apiKey))
  }

  class Service {
    var endpoints: Table
    var nextId: nat
    const cache: Cache

    ghost predicate Valid()
      reads this
    {
      Unique(endpoints) && forall id :: id in endpoints ==> id < nextId
    }

    constructor (endpoints: Table, nextId: nat, cache: Cache)
      requires Unique(endpoints) && forall id :: id in endpoints ==> id < nextId
      ensures Valid() && this.endpoints == endpoints && this.cache == cache
    {
      this.endpoints, this.nextId, this.cache := endpoints, nextId, cache;
    }

    /** When `calm`, no statement of the database fails. */
    method CreateEndpoint(name: string, url: string, hostname: string, apiPath: string, apiKey: string, host: string,
                          calm: bool)
      returns (id: nat, error: Option<Error>)
      requires Valid()
      modifies this, cache
      ensures Valid()
      ensures (exists k :: k in old(endpoints) && old(endpoints)[k].name == name) <==> error == Some(NameTaken)
      ensures error.Some? ==> endpoints == old(endpoints) && cache.items == old(cache.items)
      ensures calm ==> error in {None, Some(NameTaken), Some(UrlTaken)}
      ensures error == Some(UrlTaken) <==>
              error != Some(NameTaken) && exists k :: k in old(endpoints) && old(endpoints)[k].url == url
      ensures error.None? ==>
                && id !in old(endpoints)
                && endpoints == old(endpoints)[
                     id := Row(name, url, if hostname == "" then host else hostname, apiPath, apiKey)]
                && cache.items == old(cache.items)[Decimal(id) := ItemOf(endpoints[id])]
      ensures old(InStep(endpoints, cache.items)) ==> InStep(endpoints, cache.items)
    {
      hide Decimal, InStep, Unique;
      id, error := 0, None;
      if exists k :: k in endpoints && endpoints[k].name == name {
        return 0, Some(NameTaken);
      }
      if exists k :: k in endpoints && endpoints[k].url == url {
        return 0, Some(UrlTaken);
      }
      if !calm {
        if * {
          return 0, Some(DatabaseError);
        }
      }
      id := nextId;
      var row := Row(name, url, if hostname == "" then host else hostname, apiPath, apiKey);
      if InStep(endpoints, cache.items) {
        RowArrives(endpoints, cache.items, id, row);
      }
      CreateKeepsUnique(endpoints, id, row);
      nextId := nextId + 1;
      endpoints := endpoints[id := row];
      cache.Set(Decimal(id), row.url + row.apiPath, row.apiKey);
    }

    /** The columns that the request sets, and whether the cache is to be told. */
    method CollectUpdates(row: Row, req: Request, host: string) returns (u: Updates, tellCache: bool)
      ensures ApplyUpdates(row, u) == NewRow(row, req, host)
      ensures tellCache == TellsCache(row, req)
    {
      u, tellCache := NO_UPDATES, false;
      match req.action {
        case Rename =>
          u := u.(name := Some(req.name));
        case UpdateAll =>
          if req.name != "" { u := u.(name := Some(req.name)); }
          if req.url != "" { u := u.(url := Some(req.url)); }
          if req.apiPath != "" { u := u.(apiPath := Some(req.apiPath)); }
          if req.apiKey != "" { u := u.(apiKey := Some(req.apiKey)); }
          if req.hostname != "" {
            u := u.(hostname := Some(req.hostname));
          } else if req.url != "" && host != "" {
            u := u.(hostname := Some(host));
          }
          tellCache := req.url != "" || req.apiKey != "";
        case UpdateConfig =>
          if req.name != "" { u := u.(name := Some(req.name)); }
          var urlChanged := req.url != "" && req.url != row.url;
          if urlChanged {
            u := u.(url := Some(req.url));
            tellCache := true;
          }
          if req.hostname != "" {
            u := u.(hostname := Some(req.hostname));
          } else if urlChanged && host != "" {
            u := u.(hostname := Some(host));
          }
          if req.apiPath != "" && req.apiPath != row.apiPath {
            u := u.(apiPath := Some(req.apiPath));
            tellCache := true;
          }
          if req.apiKey != "" && req.apiKey != row.apiKey {
            u := u.(apiKey := Some(req.apiKey));
            tellCache := true;
          }
        case UpdateApiKey =>
          u := u.(apiKey := Some(req.apiKey));
          tellCache := true;
        case OtherAction =>
      }
    }

    /**
     * Every action of UpdateEndpoint. A cache that was in step stays in step, except after an update that
     * changed nothing but the path, and when the row cannot be read again after a change the cache shows.
     */
    method UpdateEndpoint(req: Request, host: string, calm: bool) returns (error: Option<Error>)
      requires Valid()
      modifies this`endpoints, cache
      ensures Valid()
      ensures Refusal(old(endpoints), req).Some? ==> error == Refusal(old(endpoints), req)
      ensures Refusal(old(endpoints), req).None? ==>
                error in {None, Some(DatabaseError)} || (error == Some(ReadBackFailed) && ReadsBack(req.action))
      ensures error in {None, Some(ReadBackFailed)} ==>
                endpoints == old(endpoints)[req.id := NewRow(old(endpoints)[req.id], req, host)]
      ensures error !in {None, Some(ReadBackFailed)} ==> endpoints == old(endpoints)
      ensures calm ==> error !in {Some(DatabaseError), Some(ReadBackFailed)}
                       || (error == Some(DatabaseError) && req.action == UpdateAll && req.name != ""
                           && exists id :: id in old(endpoints) && id != req.id && old(endpoints)[id].name == req.name)
      ensures error == Some(ReadBackFailed) ==> req.action in {UpdateAll, UpdateConfig, UpdateApiKey}
      ensures error == Some(NotFound) <==> req.id !in old(endpoints)
      ensures error == Some(EmptyName) <==> req.id in old(endpoints) && req.action == Rename && req.name == ""
      ensures error == Some(EmptyApiKey) <==>
                req.id in old(endpoints) && req.action == UpdateApiKey && req.apiKey == ""
      ensures error == Some(NameTaken) <==>
                && req.id in old(endpoints) && req.action in {Rename, UpdateConfig} && req.name != ""
                && exists id :: id in old(endpoints) && id != req.id && old(endpoints)[id].name == req.name
      ensures error == Some(UrlTaken) <==>
                && req.id in old(endpoints) && req.action in {UpdateAll, UpdateConfig}
                && req.url != "" && req.url != old(endpoints)[req.id].url && error != Some(NameTaken)
                && exists id :: id in old(endpoints) && id != req.id && old(endpoints)[id].url == req.url
      ensures forall id :: id in old(endpoints) && id != req.id ==>
                id in endpoints && endpoints[id] == old(endpoints)[id]
      ensures error in {None, Some(ReadBackFailed)} ==>
                var row, next := old(endpoints)[req.id], endpoints[req.id];
                && (req.action == Rename ==> next == row.(name := req.name))
                && (req.action == UpdateApiKey ==> next == row.(apiKey := req.apiKey))
                && (req.action == OtherAction ==> next == row)
                && (req.action in {UpdateAll, UpdateConfig} ==>
                      && next.name == (if req.name != "" then req.name else row.name)
                      && next.url == (if req.url != "" then req.url else row.url)
                      && next.apiPath == (if req.apiPath != "" then req.apiPath else row.apiPath)
                      && next.apiKey == (if req.apiKey != "" then req.apiKey else row.apiKey)
                      && (req.hostname != "" ==> next.hostname == req.hostname)
                      && (req.hostname == "" ==>
                            next.hostname ==
                            if host != "" && req.url != "" && (req.action == UpdateAll || req.url != row.url)
                            then host else row.hostname))
      ensures Decimal(req.id) !in old(cache.items) ==> cache.items == old(cache.items)
      ensures error.None? && Decimal(req.id) in old(cache.items) ==>
                var row, next := old(endpoints)[req.id], endpoints[req.id];
                (if req.action == UpdateApiKey
                    || (req.action == UpdateAll && (req.url != "" || req.apiKey != ""))
                    || (req.action == UpdateConfig &&
                          (next.url != row.url || next.apiPath != row.apiPath || next.apiKey != row.apiKey))
                 then cache.items == old(cache.items)[
                        Decimal(req.id) := CacheItem(next.url + next.apiPath, next.apiKey, true)]
                 else cache.items == old(cache.items))
      ensures cache.items ==
              if error.None? && TellsCache(old(endpoints)[req.id], req)
              then Told(old(cache.items), req.id, endpoints[req.id]) else old(cache.items)
      ensures old(InStep(endpoints, cache.items)) ==>
                (InStep(endpoints, cache.items) <==>
                 match error
                 case None => !ChangesOnlyPath(old(endpoints)[req.id], req)
                 case Some(ReadBackFailed) => ItemOf(endpoints[req.id]) == ItemOf(old(endpoints)[req.id])
                 case Some(_) => true)
    {
      hide Decimal, InStep, Unique, Refusal, NewRow, ChangesOnlyPath, ApplyUpdates, TellsCache;
      RefusalOfKnown(endpoints, req);
      Refused(endpoints, req);
      error := Refusal(endpoints, req);
      if error.Some? {
        return;
      }
      if !calm {
        if * {
          return Some(DatabaseError);
        }
      }
      UpdateKeepsUnique(endpoints, req, host);
      var row := endpoints[req.id];
      NewFields(row, req, host);
      ToldWhen(row, req, host);
      var u, tellCache := CollectUpdates(row, req, host);
      var changed := ApplyUpdates(row, u);
      if InStep(endpoints, cache.items) {
        UpdatedInStepIff(endpoints, cache.items, req, host);
      }
      endpoints := endpoints[req.id := changed];
      if ReadsBack(req.action) && !calm {
        if * {
          return Some(ReadBackFailed);
        }
      }
      if tellCache {
        cache.Update(Decimal(req.id), changed.url + changed.apiPath, changed.apiKey);
      }
    }

    /** Row and entry go together, unless the commit fails: then the row is back and the entry is not. */
    method DeleteEndpoint(id: nat, calm: bool) returns (error: Option<Error>)
      requires Valid()
      modifies this`endpoints, cache
      ensures Valid()
      ensures calm ==> error == if id in old(endpoints) then None else Some(NotFound)
      ensures id !in old(endpoints) ==> error in {Some(NotFound), Some(DatabaseError)}
      ensures id in old(endpoints) ==> error in {None, Some(DatabaseError), Some(CommitFailed)}
      ensures endpoints == if error.None? then old(endpoints) - {id} else old(endpoints)
      ensures cache.items ==
              if error in {None, Some(CommitFailed)} then old(cache.items) - {Decimal(id)} else old(cache.items)
      ensures old(InStep(endpoints, cache.items)) ==>
                (InStep(endpoints, cache.items) <==> error != Some(CommitFailed))
    {
      hide Decimal, InStep, Unique;
      if !calm {
        if * {
          return Some(DatabaseError);
        }
      }
      DeleteKeepsUnique(endpoints, id);
      if id !in endpoints {
        return Some(NotFound);
      }
      if InStep(endpoints, cache.items) {
        RowLeaves(endpoints, cache.items, id);
        InStepIffSame(endpoints, endpoints - {id}, cache.items - {Decimal(id)});
        assert id in endpoints.Keys && id !in (endpoints - {id}).Keys;
      }
      cache.Delete(Decimal(id));
      if !calm {
        if * {
          return Some(CommitFailed);
        }
      }
      endpoints := endpoints - {id};
      error := None;
    }
  }

  /**
   * Any run, failures included. `told` holds for each entry of the cache the row it was last told; the cache
   * shows exactly that, and so it is in step with the table exactly when the table has the same ids and no
   * row has since changed in what the cache shows.
   */
  method AnyRun(service: Service, steps: nat) returns (told: Table)
    requires service.Valid() && InStep(service.endpoints, service.cache.items)
    modifies service, service.cache
    ensures service.Valid()
    ensures InStep(told, service.cache.items)
    ensures InStep(service.endpoints, service.cache.items) <==> SameProjection(service.endpoints, told)
  {
    told := service.endpoints;
    for n := 0 to steps
      invariant service.Valid() && InStep(told, service.cache.items)
    {
      hide Decimal, Unique, InStep, NewRow, TellsCache, Refusal, ChangesOnlyPath;
      var id: nat, host: string, req: Request, calm: bool := *, *, *, *;
      var items := service.cache.items;
      if
      case true =>
        var created, error :=
          service.CreateEndpoint(req.name, req.url, req.hostname, req.apiPath, req.apiKey, host, calm);
        if error.None? {
          RowArrives(told, items, created, service.endpoints[created]);
          told := told[created := service.endpoints[created]];
        }
      case true =>
        var was := service.endpoints;
        RefusalOfKnown(was, req);
        var error := service.UpdateEndpoint(req, host, calm);
        if error.None? && TellsCache(was[req.id], req) {
          ClientSeesTheTable(told, items, req.id);
          if req.id in told {
            RowArrives(told, items, req.id, service.endpoints[req.id]);
            told := told[req.id := service.endpoints[req.id]];
          }
        }
      case true =>
        var error := service.DeleteEndpoint(id, calm);
        if error in {None, Some(CommitFailed)} {
          RowLeaves(told, items, id);
          told := told - {id};
        }
      case true =>
        service.cache.InitializeCache(service.endpoints);
        told := service.endpoints;
    }
    InStepIffSame(service.endpoints, told, service.cache.items);
  }
}
