/** Services link tunnel instances of endpoints; deleting an instance or an endpoint unlinks them. */
module ServicesCascade {
  import opened Options

  /** A row is known by its sid and type. */
  type Key = (string, string)

  datatype Side = Side(endpoint: Option<int>, instance: Option<string>)

  datatype Service = Service(server: Side, client: Side)

  type Table = map<Key, Service>

  const EMPTY := Side(None, None)

  predicate RefersTo(side: Side, endpoint: int) {
    side.endpoint == Some(endpoint)
  }

  predicate RefersToInstance(side: Side, endpoint: int, instance: string) {
    side.endpoint == Some(endpoint) && side.instance == Some(instance)
  }

  predicate HasInstance(side: Side) {
    side.instance.Some? && side.instance.value != ""
  }

  /** A row after the matching sides are emptied; None when no side is left and the row goes. */
  function Unlinked(row: Service, serverMatch: bool, clientMatch: bool): Option<Service> {
    if !serverMatch && !clientMatch then Some(row)
    else if !(!serverMatch && HasInstance(row.server)) && !(!clientMatch && HasInstance(row.client)) then None
    else Some(Service(if serverMatch then EMPTY else row.server, if clientMatch then EMPTY else row.client))
  }

  function RowWithoutInstance(row: Service, endpoint: int, instance: string): Option<Service> {
    Unlinked(row, RefersToInstance(row.server, endpoint, instance), RefersToInstance(row.client, endpoint, instance))
  }

  function RowWithoutEndpoint(row: Service, endpoint: int): Option<Service> {
    Unlinked(row, RefersTo(row.server, endpoint), RefersTo(row.client, endpoint))
  }

  function WithoutInstance(t: Table, endpoint: int, instance: string): Table {
    if instance == "" then t
    else map k | k in t && RowWithoutInstance(t[k], endpoint, instance).Some?
           :: RowWithoutInstance(t[k], endpoint, instance).value
  }

  function WithoutEndpoint(t: Table, endpoint: int): Table {
    map k | k in t && RowWithoutEndpoint(t[k], endpoint).Some? :: RowWithoutEndpoint(t[k], endpoint).value
  }

  datatype TunnelType = ServerTunnel | ClientTunnel | OtherTunnel

  function Relinked(t: Table, key: Key, tunnelType: TunnelType, endpoint: int, instance: string): Table {
    if key.0 == "" || key.1 == "" || instance == "" || key !in t then t
    else
      match tunnelType
      case ServerTunnel => t[key := t[key].(server := Side(Some(endpoint), Some(instance)))]
      case ClientTunnel => t[key := t[key].(client := Side(Some(endpoint), Some(instance)))]
      case OtherTunnel => t
  }

  /** Services of type 0 and 5 have a client only. */
  predicate ClientOnly(peerType: string) {
    peerType == "0" || peerType == "5"
  }

  predicate KnownPeerType(peerType: string) {
    ClientOnly(peerType) || peerType in {"1", "2", "3", "4", "6", "7"}
  }

  /** upsertService: the first event of a tunnel with a peer creates the row, later ones set its own side. */
  function Upserted(t: Table, key: Key, tunnelType: TunnelType, endpoint: int, instance: string): Table {
    if key.0 == "" || key.1 == "" || (ClientOnly(key.1) && tunnelType.ServerTunnel?) then t
    else
      var row := if key in t then t[key] else Service(EMPTY, EMPTY);
      var side := Side(Some(endpoint), Some(instance));
      t[key := if !KnownPeerType(key.1) then row
               else if tunnelType.ServerTunnel? then row.(server := side) else row.(client := side)]
  }

  // ----------------------------------------------------------- one by one and in bulk

  /** Cleaning instance after instance, in the order of the list. */
  function WithoutInstances(t: Table, endpoint: int, instances: seq<string>): Table {
    if instances == [] then t
    else WithoutInstance(WithoutInstances(t, endpoint, instances[..|instances| - 1]), endpoint,
                         instances[|instances| - 1])
  }

  predicate Hit(side: Side, endpoint: int, instances: seq<string>) {
    RefersTo(side, endpoint) && HasInstance(side) && side.instance.value in instances
  }

  function Lookup(t: Table, k: Key): Option<Service> {
    if k in t then Some(t[k]) else None
  }

  /** What is left of a row depends on which instances were cleaned, not on when. */
  lemma {:induction false} RowAfterInstances(t: Table, k: Key, endpoint: int, instances: seq<string>)
    requires k in t
    ensures Lookup(WithoutInstances(t, endpoint, instances), k) ==
            Unlinked(t[k], Hit(t[k].server, endpoint, instances), Hit(t[k].client, endpoint, instances))
    decreases |instances|
  {
    if instances != [] {
      var n := |instances| - 1;
      var earlier, last := instances[..n], instances[n];
      RowAfterInstances(t, k, endpoint, earlier);
      LookupWithoutInstance(WithoutInstances(t, endpoint, earlier), k, endpoint, last);
      assert instances == earlier + [last];
      HitMore(t[k].server, endpoint, earlier, last);
      HitMore(t[k].client, endpoint, earlier, last);
      if last != "" {
        OneMore(t[k], Hit(t[k].server, endpoint, earlier), Hit(t[k].client, endpoint, earlier), endpoint, last);
      }
    }
  }

  lemma LookupWithoutInstance(t: Table, k: Key, endpoint: int, instance: string)
    ensures Lookup(WithoutInstance(t, endpoint, instance), k) ==
            if instance == "" then Lookup(t, k)
            else match Lookup(t, k) {
                case None => None
                case Some(row) => RowWithoutInstance(row, endpoint, instance)
              }
  {
  }

  lemma LookupUnnamed(t: Table, endpoint: int)
    ensures WithoutInstance(t, endpoint, "") == t
  {
  }

  lemma HitMore(side: Side, endpoint: int, earlier: seq<string>, last: string)
    ensures Hit(side, endpoint, earlier + [last]) <==>
            Hit(side, endpoint, earlier) || (last != "" && RefersToInstance(side, endpoint, last))
  {
  }

  lemma OneMore(row: Service, serverHit: bool, clientHit: bool, endpoint: int, last: string)
    requires serverHit ==> HasInstance(row.server)
    requires clientHit ==> HasInstance(row.client)
    requires last != ""
    ensures (match Unlinked(row, serverHit, clientHit)
             case None => None
             case Some(left) => RowWithoutInstance(left, endpoint, last)) ==
            Unlinked(row, serverHit || RefersToInstance(row.server, endpoint, last),
                     clientHit || RefersToInstance(row.client, endpoint, last))
  {
  }

  lemma {:induction false} NoNewRows(t: Table, endpoint: int, instances: seq<string>)
    ensures WithoutInstances(t, endpoint, instances).Keys <= t.Keys
    decreases |instances|
  {
    if instances != [] {
      NoNewRows(t, endpoint, instances[..|instances| - 1]);
    }
  }

  lemma SameTable(a: Table, b: Table)
    requires forall k :: Lookup(a, k) == Lookup(b, k)
    ensures a == b
  {
    forall k
      ensures k in a <==> k in b
      ensures k in a ==> a[k] == b[k] {
      assert Lookup(a, k) == Lookup(b, k);
    }
  }

  /** The order in which instances are cleaned, and cleaning one twice, make no difference. */
  lemma OrderDoesNotMatter(t: Table, endpoint: int, a: seq<string>, b: seq<string>)
    requires forall i :: i in a <==> i in b
    ensures WithoutInstances(t, endpoint, a) == WithoutInstances(t, endpoint, b)
  {
    hide WithoutInstances;
    forall k
      ensures Lookup(WithoutInstances(t, endpoint, a), k) == Lookup(WithoutInstances(t, endpoint, b), k) {
      if k in t {
        RowAfterInstances(t, k, endpoint, a);
        RowAfterInstances(t, k, endpoint, b);
      } else {
        NoNewRows(t, endpoint, a);
        NoNewRows(t, endpoint, b);
      }
    }
    SameTable(WithoutInstances(t, endpoint, a), WithoutInstances(t, endpoint, b));
  }

  /** The list holds every instance of the endpoint that a service refers to. */
  predicate Covers(t: Table, endpoint: int, instances: seq<string>) {
    forall k :: k in t ==>
      && (RefersTo(t[k].server, endpoint) && HasInstance(t[k].server) ==> t[k].server.instance.value in instances)
      && (RefersTo(t[k].client, endpoint) && HasInstance(t[k].client) ==> t[k].client.instance.value in instances)
  }

  /** A row that refers to the endpoint does so by the name of an instance, on one side at least. */
  predicate NamesInstance(row: Service, endpoint: int) {
    RefersTo(row.server, endpoint) || RefersTo(row.client, endpoint) ==>
      || (RefersTo(row.server, endpoint) && HasInstance(row.server))
      || (RefersTo(row.client, endpoint) && HasInstance(row.client))
  }

  lemma RowBulkIff(row: Service, endpoint: int)
    ensures var serverNamed := RefersTo(row.server, endpoint) && HasInstance(row.server);
            var clientNamed := RefersTo(row.client, endpoint) && HasInstance(row.client);
            Unlinked(row, serverNamed, clientNamed) == RowWithoutEndpoint(row, endpoint) <==>
            NamesInstance(row, endpoint)
  {
  }

  /**
   * Cleaning an endpoint in bulk leaves the same table as cleaning all its instances one by one, in any
   * order, exactly when every row that refers to the endpoint names an instance of it.
   */
  lemma BulkEqualsOneByOneIff(t: Table, endpoint: int, instances: seq<string>)
    requires Covers(t, endpoint, instances)
    ensures WithoutInstances(t, endpoint, instances) == WithoutEndpoint(t, endpoint) <==>
            forall k :: k in t ==> NamesInstance(t[k], endpoint)
  {
    hide WithoutInstances, WithoutEndpoint, NamesInstance;
    var one, bulk := WithoutInstances(t, endpoint, instances), WithoutEndpoint(t, endpoint);
    forall k
      ensures k in t ==> (Lookup(one, k) == Lookup(bulk, k) <==> NamesInstance(t[k], endpoint))
      ensures k !in t ==> Lookup(one, k) == Lookup(bulk, k) {
      if k in t {
        RowAfterInstances(t, k, endpoint, instances);
        LookupWithoutEndpoint(t, k, endpoint);
        RowBulkIff(t[k], endpoint);
      } else {
        NoNewRows(t, endpoint, instances);
        LookupWithoutEndpoint(t, k, endpoint);
      }
    }
    if forall k :: k in t ==> NamesInstance(t[k], endpoint) {
      SameTable(one, bulk);
    } else {
      var k :| k in t && !NamesInstance(t[k], endpoint);
      assert Lookup(one, k) != Lookup(bulk, k);
    }
  }

  /** A concrete case: a side that names the endpoint but no instance is emptied in bulk and kept one by one. */
  lemma UnnamedInstanceIsMissed()
    ensures var t: Table := map[("s", "1") := Service(Side(Some(1), None), Side(Some(2), Some("b")))];
            && Covers(t, 1, [])
            && WithoutInstances(t, 1, []) == t
            && WithoutEndpoint(t, 1) == map[("s", "1") := Service(EMPTY, Side(Some(2), Some("b")))]
  {
  }

  lemma LookupWithoutEndpoint(t: Table, k: Key, endpoint: int)
    ensures Lookup(WithoutEndpoint(t, endpoint), k) ==
            if k in t then RowWithoutEndpoint(t[k], endpoint) else None
  {
  }

  // --------------------------------------------------------------------- invariants

  /** Both names or neither, and no empty instance name. */
  predicate Paired(side: Side) {
    (side.endpoint.None? <==> side.instance.None?) && side.instance != Some("")
  }

  predicate WellLinked(row: Service) {
    Paired(row.server) && Paired(row.client) && (HasInstance(row.server) || HasInstance(row.client))
  }

  datatype Operation =
    | CleanInstance(endpoint: int, instance: string)
    | CleanEndpoint(endpoint: int)
    | Relink(key: Key, tunnelType: TunnelType, endpoint: int, instance: string)
    | Upsert(key: Key, tunnelType: TunnelType, endpoint: int, instance: string)

  function Apply(t: Table, op: Operation): Table {
    match op
    case CleanInstance(endpoint, instance) => WithoutInstance(t, endpoint, instance)
    case CleanEndpoint(endpoint) => WithoutEndpoint(t, endpoint)
    case Relink(key, tunnelType, endpoint, instance) => Relinked(t, key, tunnelType, endpoint, instance)
    case Upsert(key, tunnelType, endpoint, instance) => Upserted(t, key, tunnelType, endpoint, instance)
  }

  function ApplyAll(t: Table, ops: seq<Operation>): Table {
    if ops == [] then t else Apply(ApplyAll(t, ops[..|ops| - 1]), ops[|ops| - 1])
  }

  /** A run does one operation after the other. */
  lemma RunContinues(t: Table, ops: seq<Operation>, endpoint: int, instance: string, key: Key, tunnelType: TunnelType)
    ensures ApplyAll(t, []) == t
    ensures var mid := ApplyAll(t, ops);
            && ApplyAll(t, ops + [CleanInstance(endpoint, instance)]) == WithoutInstance(mid, endpoint, instance)
            && ApplyAll(t, ops + [CleanEndpoint(endpoint)]) == WithoutEndpoint(mid, endpoint)
            && ApplyAll(t, ops + [Relink(key, tunnelType, endpoint, instance)]) ==
               Relinked(mid, key, tunnelType, endpoint, instance)
            && ApplyAll(t, ops + [Upsert(key, tunnelType, endpoint, instance)]) ==
               Upserted(mid, key, tunnelType, endpoint, instance)
  {
    hide WithoutInstance, WithoutEndpoint, Relinked, Upserted;
    OneMoreOperation(t, ops, CleanInstance(endpoint, instance));
    OneMoreOperation(t, ops, CleanEndpoint(endpoint));
    OneMoreOperation(t, ops, Relink(key, tunnelType, endpoint, instance));
    OneMoreOperation(t, ops, Upsert(key, tunnelType, endpoint, instance));
  }

  lemma OneMoreOperation(t: Table, ops: seq<Operation>, op: Operation)
    ensures ApplyAll(t, ops + [op]) == Apply(ApplyAll(t, ops), op)
  {
    hide Apply;
    assert (ops + [op])[..|ops|] == ops;
  }

  /** An event does no harm: it is skipped, or its peer type is known and its instance has a name. */
  predicate Harmless(op: Operation) {
    op.Upsert? ==>
      || op.key.0 == "" || op.key.1 == "" || (ClientOnly(op.key.1) && op.tunnelType.ServerTunnel?)
      || (KnownPeerType(op.key.1) && op.instance != "")
  }

  /** Whatever is created, relinked and cleaned, every row stays paired and keeps at least one instance. */
  lemma {:induction false} RunsKeepWellLinked(t: Table, ops: seq<Operation>)
    requires forall k :: k in t ==> WellLinked(t[k])
    requires forall op :: op in ops ==> Harmless(op)
    ensures forall k :: k in ApplyAll(t, ops) ==> WellLinked(ApplyAll(t, ops)[k])
    decreases |ops|
  {
    hide WellLinked, Harmless, Apply;
    if ops != [] {
      RunsKeepWellLinked(t, ops[..|ops| - 1]);
      assert Harmless(ops[|ops| - 1]);
      ApplyKeepsWellLinked(ApplyAll(t, ops[..|ops| - 1]), ops[|ops| - 1]);
    }
  }

  lemma ApplyKeepsWellLinked(t: Table, op: Operation)
    requires forall k :: k in t ==> WellLinked(t[k])
    requires Harmless(op)
    ensures forall k :: k in Apply(t, op) ==> WellLinked(Apply(t, op)[k])
  {
  }

  /** Other events leave a row without any instance, unless they find the row and touch nothing. */
  lemma UpsertKeepsWellLinkedIff(t: Table, op: Operation)
    requires op.Upsert? && forall k :: k in t ==> WellLinked(t[k])
    ensures (forall k :: k in Apply(t, op) ==> WellLinked(Apply(t, op)[k])) <==>
            Harmless(op) || (!KnownPeerType(op.key.1) && op.key in t)
  {
    if !Harmless(op) && !(!KnownPeerType(op.key.1) && op.key in t) {
      assert op.key in Apply(t, op) && !WellLinked(Apply(t, op)[op.key]);
    }
  }

  /** After any run the two ways of cleaning an endpoint agree, since the rows are well linked. */
  lemma BulkEqualsOneByOneAfterRuns(t: Table, ops: seq<Operation>, endpoint: int, instances: seq<string>)
    requires forall k :: k in t ==> WellLinked(t[k])
    requires forall op :: op in ops ==> Harmless(op)
    requires Covers(ApplyAll(t, ops), endpoint, instances)
    ensures WithoutInstances(ApplyAll(t, ops), endpoint, instances) == WithoutEndpoint(ApplyAll(t, ops), endpoint)
  {
    hide WithoutInstances, WithoutEndpoint, ApplyAll, Covers;
    RunsKeepWellLinked(t, ops);
    BulkEqualsOneByOneIff(ApplyAll(t, ops), endpoint, instances);
  }

  predicate Mentions(row: Service, endpoint: int, instance: string) {
    RefersToInstance(row.server, endpoint, instance) || RefersToInstance(row.client, endpoint, instance)
  }

  /** No reference to a cleaned instance remains, and a row without one is left exactly as it was. */
  lemma InstanceIsGone(t: Table, endpoint: int, instance: string, k: Key)
    requires instance != ""
    ensures var after := WithoutInstance(t, endpoint, instance);
            && (k in after ==> k in t && !Mentions(after[k], endpoint, instance))
            && (k in t && !Mentions(t[k], endpoint, instance) ==> Lookup(after, k) == Some(t[k]))
  {
  }

  /** What is left of a row, side by side: a matching side is emptied and the other one kept, and the row goes when
      no side is left that names an instance. */
  lemma CleanedRow(t: Table, endpoint: int, instance: string, k: Key)
    requires k in t
    ensures instance == "" ==> WithoutInstance(t, endpoint, instance) == t
    ensures instance != "" ==>
              var after, row := WithoutInstance(t, endpoint, instance), t[k];
              var server := row.server.endpoint == Some(endpoint) && row.server.instance == Some(instance);
              var client := row.client.endpoint == Some(endpoint) && row.client.instance == Some(instance);
              && (k in after <==>
                    || (!server && !client)
                    || (!server && row.server.instance.Some? && row.server.instance.value != "")
                    || (!client && row.client.instance.Some? && row.client.instance.value != ""))
              && (k in after ==>
                    && after[k].server == (if server then Side(None, None) else row.server)
                    && after[k].client == (if client then Side(None, None) else row.client))
  {
  }

  lemma CleanedRowOfEndpoint(t: Table, endpoint: int, k: Key)
    requires k in t
    ensures var after, row := WithoutEndpoint(t, endpoint), t[k];
            var server, client := row.server.endpoint == Some(endpoint), row.client.endpoint == Some(endpoint);
            && (k in after <==>
                  || (!server && !client)
                  || (!server && row.server.instance.Some? && row.server.instance.value != "")
                  || (!client && row.client.instance.Some? && row.client.instance.value != ""))
            && (k in after ==>
                  && after[k].server == (if server then Side(None, None) else row.server)
                  && after[k].client == (if client then Side(None, None) else row.client))
  {
    hide WithoutEndpoint;
    LookupWithoutEndpoint(t, k, endpoint);
  }

  /** A relink writes one side of a row that is there; the tunnel's type says which. */
  lemma RelinkedRow(t: Table, key: Key, tunnelType: TunnelType, endpoint: int, instance: string)
    ensures var after := Relinked(t, key, tunnelType, endpoint, instance);
            var side := Side(Some(endpoint), Some(instance));
            && after.Keys == t.Keys && (forall k :: k in t && k != key ==> after[k] == t[k])
            && (key in t ==>
                  && after[key].server ==
                     (if key.0 != "" && key.1 != "" && instance != "" && tunnelType == ServerTunnel
                      then side else t[key].server)
                  && after[key].client ==
                     (if key.0 != "" && key.1 != "" && instance != "" && tunnelType == ClientTunnel
                      then side else t[key].client))
  {
  }

  /** An event creates the row if need be, unless a name is missing or a server reports for a service that has a
      client only, and writes the tunnel's side for the known types. */
  lemma UpsertedRow(t: Table, key: Key, tunnelType: TunnelType, endpoint: int, instance: string)
    ensures var after := Upserted(t, key, tunnelType, endpoint, instance);
            var taken := key.0 != "" && key.1 != "" && !(key.1 in {"0", "5"} && tunnelType == ServerTunnel);
            var known := key.1 in {"0", "1", "2", "3", "4", "5", "6", "7"};
            var side, empty := Side(Some(endpoint), Some(instance)), Side(None, None);
            && after.Keys == (if taken then t.Keys + {key} else t.Keys)
            && (forall k :: k in t && k != key ==> after[k] == t[k])
            && (!taken ==> after == t)
            && (taken ==>
                  var row := if key in t then t[key] else Service(empty, empty);
                  && after[key].server == (if known && tunnelType == ServerTunnel then side else row.server)
                  && after[key].client == (if known && tunnelType != ServerTunnel then side else row.client))
  {
    assert KnownPeerType(key.1) <==> key.1 in {"0", "1", "2", "3", "4", "5", "6", "7"};
    assert ClientOnly(key.1) <==> key.1 in {"0", "5"};
    assert forall k :: k in Upserted(t, key, tunnelType, endpoint, instance) ==> k in t || k == key;
  }

  lemma EndpointIsGone(t: Table, endpoint: int, k: Key)
    ensures var after := WithoutEndpoint(t, endpoint);
            && (k in after ==>
                  k in t && !RefersTo(after[k].server, endpoint) && !RefersTo(after[k].client, endpoint))
            && (k in t && !RefersTo(t[k].server, endpoint) && !RefersTo(t[k].client, endpoint) ==>
                  Lookup(after, k) == Some(t[k]))
  {
  }

  /**
   * Cleaning an instance undoes the relink that introduced it exactly when the relinked side was empty
   * and the other side keeps the row alive.
   */
  lemma CleanUndoesRelinkIff(t: Table, key: Key, server: bool, endpoint: int, instance: string)
    requires key in t && key.0 != "" && key.1 != "" && instance != ""
    requires forall k :: k in t ==> !Mentions(t[k], endpoint, instance)
    ensures var tunnelType := if server then ServerTunnel else ClientTunnel;
            var side := if server then t[key].server else t[key].client;
            var other := if server then t[key].client else t[key].server;
            WithoutInstance(Relinked(t, key, tunnelType, endpoint, instance), endpoint, instance) == t <==>
            side == EMPTY && HasInstance(other)
  {
    var tunnelType := if server then ServerTunnel else ClientTunnel;
    var relinked := Relinked(t, key, tunnelType, endpoint, instance);
    var after := WithoutInstance(relinked, endpoint, instance);
    forall k | k != key
      ensures Lookup(after, k) == Lookup(t, k) {
      LookupWithoutInstance(relinked, k, endpoint, instance);
      if k in t { assert !Mentions(t[k], endpoint, instance); }
    }
    LookupWithoutInstance(relinked, key, endpoint, instance);
    assert !Mentions(t[key], endpoint, instance);
    if Lookup(after, key) == Lookup(t, key) {
      SameTable(after, t);
    }
  }

  // ------------------------------------------------------------------ the store

  datatype Tunnel = Tunnel(endpoint: int, instance: Option<string>, serviceSid: Option<string>)

  function TunnelsWithoutInstance(tunnels: map<nat, Tunnel>, endpoint: int, instance: string): map<nat, Tunnel> {
    map id | id in tunnels ::
      if tunnels[id].endpoint == endpoint && tunnels[id].instance == Some(instance)
      then tunnels[id].(serviceSid := None) else tunnels[id]
  }

  /** Exactly the tunnels of the instance lose the name of their service. */
  lemma UnlinkedTunnels(tunnels: map<nat, Tunnel>, endpoint: int, instance: string, id: nat)
    ensures var after := TunnelsWithoutInstance(tunnels, endpoint, instance);
            && (id in after <==> id in tunnels)
            && (id in tunnels ==>
                  after[id] ==
                  if tunnels[id].endpoint == endpoint && tunnels[id].instance == Some(instance)
                  then Tunnel(endpoint, Some(instance), None) else tunnels[id])
  {
  }

  class Store {
    var services: Table
    var tunnels: map<nat, Tunnel>

    constructor (services: Table, tunnels: map<nat, Tunnel>)
      ensures this.services == services && this.tunnels == tunnels
    {
      this.services, this.tunnels := services, tunnels;
    }

    method CleanupServicesForInstance(endpoint: int, instance: string)
      modifies this
      ensures services == WithoutInstance(old(services), endpoint, instance)
      ensures tunnels == if instance == "" then old(tunnels)
                         else TunnelsWithoutInstance(old(tunnels), endpoint, instance)
    {
      hide WithoutInstance;
      if instance == "" {
        LookupUnnamed(services, endpoint);
        return;
      }
      var rows := map k | k in services
                          && (RefersToInstance(services[k].server, endpoint, instance)
                              || RefersToInstance(services[k].client, endpoint, instance)) :: services[k];
      var todo := rows.Keys;
      while todo != {}
        invariant todo <= rows.Keys
        invariant tunnels == old(tunnels)
        invariant forall k :: Lookup(services, k) ==
                    if k in rows && k !in todo then RowWithoutInstance(rows[k], endpoint, instance)
                    else Lookup(old(services), k)
        decreases |todo|
      {
        var k :| k in todo;
        var row := rows[k];
        var serverMatch := RefersToInstance(row.server, endpoint, instance);
        var clientMatch := RefersToInstance(row.client, endpoint, instance);
        assert Lookup(old(services), k) == Some(row);
        UnlinkRow(k, row, serverMatch, clientMatch);
        todo := todo - {k};
      }
      forall k
        ensures Lookup(services, k) == Lookup(WithoutInstance(old(services), endpoint, instance), k) {
        LookupWithoutInstance(old(services), k, endpoint, instance);
      }
      SameTable(services, WithoutInstance(old(services), endpoint, instance));
      tunnels := map id | id in tunnels ::
        if tunnels[id].endpoint == endpoint && tunnels[id].instance == Some(instance)
        then tunnels[id].(serviceSid := None) else tunnels[id];
    }

    /** Deletes the row when no side is left, and empties the matching sides otherwise. */
    method UnlinkRow(k: Key, row: Service, serverMatch: bool, clientMatch: bool)
      requires Lookup(services, k) == Some(row) && (serverMatch || clientMatch)
      modifies this`services
      ensures Lookup(services, k) == Unlinked(row, serverMatch, clientMatch)
      ensures forall other :: other != k ==> Lookup(services, other) == Lookup(old(services), other)
    {
      var remainingServer := !serverMatch && row.server.instance.Some? && row.server.instance.value != "";
      var remainingClient := !clientMatch && row.client.instance.Some? && row.client.instance.value != "";
      if !remainingServer && !remainingClient {
        services := services - {k};
        return;
      }
      var updated := row;
      if serverMatch {
        updated := updated.(server := EMPTY);
      }
      if clientMatch {
        updated := updated.(client := EMPTY);
      }
      services := services[k := updated];
    }

    method CleanupServicesForEndpoint(endpoint: int)
      modifies this`services
      ensures services == WithoutEndpoint(old(services), endpoint)
    {
      hide WithoutEndpoint;
      var rows := map k | k in services
                          && (RefersTo(services[k].server, endpoint) || RefersTo(services[k].client, endpoint))
                      :: services[k];
      var todo := rows.Keys;
      while todo != {}
        invariant todo <= rows.Keys
        invariant forall k :: Lookup(services, k) ==
                    if k in rows && k !in todo then RowWithoutEndpoint(rows[k], endpoint) else Lookup(old(services), k)
        decreases |todo|
      {
        var k :| k in todo;
        var row := rows[k];
        assert Lookup(old(services), k) == Some(row);
        UnlinkRow(k, row, RefersTo(row.server, endpoint), RefersTo(row.client, endpoint));
        todo := todo - {k};
      }
      forall k
        ensures Lookup(services, k) == Lookup(WithoutEndpoint(old(services), endpoint), k) {
        LookupWithoutEndpoint(old(services), k, endpoint);
      }
      SameTable(services, WithoutEndpoint(old(services), endpoint));
    }

    /** The links that upsertService writes; the columns that only describe the service are left out. */
    method UpsertService(sid: string, peerType: string, tunnelType: TunnelType, endpoint: int, instance: string)
      modifies this`services
      ensures services == Upserted(old(services), (sid, peerType), tunnelType, endpoint, instance)
    {
      if sid == "" || peerType == "" {
        return;
      }
      if ClientOnly(peerType) && tunnelType.ServerTunnel? {
        return;
      }
      var key := (sid, peerType);
      if key !in services {
        services := services[key := Service(EMPTY, EMPTY)];
      }
      if KnownPeerType(peerType) {
        var side := Side(Some(endpoint), Some(instance));
        if tunnelType.ServerTunnel? {
          services := services[key := services[key].(server := side)];
        } else {
          services := services[key := services[key].(client := side)];
        }
      }
    }

    method RelinkServiceForInstance(sid: string, peerType: string, tunnelType: TunnelType, endpoint: int,
                                    instance: string)
      modifies this`services
      ensures services == Relinked(old(services), (sid, peerType), tunnelType, endpoint, instance)
    {
      if sid == "" || peerType == "" || instance == "" {
        return;
      }
      var key := (sid, peerType);
      if key !in services {
        return;
      }
      match tunnelType
      case ServerTunnel =>
        services := services[key := services[key].(server := Side(Some(endpoint), Some(instance)))];
      case ClientTunnel =>
        services := services[key := services[key].(client := Side(Some(endpoint), Some(instance)))];
      case OtherTunnel =>
    }
  }
}
