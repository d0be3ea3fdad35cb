/** The manager of event-stream connections: who listens to which endpoint, while the daemon reconnects. */
module SseManager {
  import opened Options

  const RETRY_SECONDS: int := 30
  const NEVER: int := -62135596800

  /** A cancellable context. Listener contexts are children of the daemon's. */
  class Context {
    const parent: Context?
    ghost const endpoint: nat
    var cancelled: bool

    constructor (parent: Context?, ghost endpoint: nat)
      ensures !cancelled && this.parent == parent && this.endpoint == endpoint
    {
      this.parent := parent;
      this.endpoint := endpoint;
      cancelled := false;
    }

    predicate Live()
      reads this, parent
    {
      !cancelled && (parent == null || !parent.cancelled)
    }

    method Cancel()
      modifies this
      ensures cancelled
    {
      cancelled := true;
    }
  }

  class EndpointConnection {
    const endpointId: nat
    const url: string
    const apiPath: string
    const apiKey: string
    var cancel: Context?
    var manuallyDisconnected: bool
    var connected: bool
    var lastConnectAttempt: int
    var reconnectAttempts: nat
    var lastEventTime: int

    constructor (endpointId: nat, url: string, apiPath: string, apiKey: string)
      ensures this.endpointId == endpointId && this.url == url && this.apiPath == apiPath && this.apiKey == apiKey
      ensures cancel == null && !manuallyDisconnected && !connected && reconnectAttempts == 0
    {
      this.endpointId, this.url, this.apiPath, this.apiKey := endpointId, url, apiPath, apiKey;
      cancel, manuallyDisconnected, connected := null, false, false;
      lastConnectAttempt, reconnectAttempts, lastEventTime := NEVER, 0, NEVER;
    }

    /** A new attempt under a new context; the entry no longer counts as disconnected by hand. */
    method Start(ctx: Context, now: int)
      modifies this`cancel, this`manuallyDisconnected, this`lastConnectAttempt, this`reconnectAttempts
      ensures cancel == ctx && !manuallyDisconnected
      ensures lastConnectAttempt == now && reconnectAttempts == old(reconnectAttempts) + 1
    {
      cancel := ctx;
      manuallyDisconnected := false;
      UpdateLastConnectAttempt(now);
    }

    method SetConnected(value: bool)
      modifies this`connected, this`reconnectAttempts
      ensures connected == value
      ensures reconnectAttempts == if value then 0 else old(reconnectAttempts)
    {
      connected := value;
      if value { reconnectAttempts := 0; }
    }

    method ResetLastConnectAttempt()
      modifies this`lastConnectAttempt
      ensures lastConnectAttempt == NEVER
    {
      lastConnectAttempt := NEVER;
    }

    method UpdateLastConnectAttempt(now: int)
      modifies this`lastConnectAttempt, this`reconnectAttempts
      ensures lastConnectAttempt == now && reconnectAttempts == old(reconnectAttempts) + 1
    {
      lastConnectAttempt := now;
      reconnectAttempts := reconnectAttempts + 1;
    }
  }

  class Manager {
    var connections: map<nat, EndpointConnection>
    const daemonCtx: Context
    /** Every connection object and every listener context there has ever been. */
    ghost var objects: set<EndpointConnection>
    ghost var contexts: set<Context>

    /** The listener contexts that are not cancelled, neither themselves nor through the daemon's. */
    ghost function Listening(): set<Context>
      reads this, contexts, daemonCtx
    {
      if daemonCtx.cancelled then {} else set c | c in contexts && !c.cancelled
    }

    ghost predicate Owned()
      reads this, objects, contexts
    {
      && daemonCtx !in contexts && daemonCtx.parent == null
      && (forall c {:trigger c.parent} :: c in contexts ==> c.parent == daemonCtx)
      && (forall o {:trigger o.cancel} :: o in objects ==>
            o.cancel != null && o.cancel in contexts && o.cancel.endpoint == o.endpointId)
      && (forall id :: id in connections ==> connections[id] in objects && connections[id].endpointId == id)
    }

    /**
     * Only the entry's current context of an endpoint may listen; no entry is marked as disconnected by hand,
     * and every object that is not an entry is.
     */
    ghost predicate Valid()
      reads this, objects, contexts
    {
      && Owned()
      && (forall id :: id in connections ==> !connections[id].manuallyDisconnected)
      && (forall c {:trigger c.cancelled} :: c in contexts && !c.cancelled ==>
            c.endpoint in connections && connections[c.endpoint].cancel == c)
      && (forall o {:trigger o.manuallyDisconnected} :: o in objects ==> IsEntry(o) || o.manuallyDisconnected)
    }

    /** Whether the object is the current entry of its endpoint. */
    predicate IsEntry(conn: EndpointConnection)
      reads this
    {
      conn.endpointId in connections && connections[conn.endpointId] == conn
    }

    constructor ()
      ensures Valid() && connections == map[] && objects == {} && contexts == {}
      ensures fresh(daemonCtx) && !daemonCtx.cancelled
    {
      daemonCtx := new Context(null, 0);
      connections := map[];
      objects, contexts := {}, {};
    }

    /** As Valid, except that `conn`, the entry of its endpoint, is between two listeners. */
    ghost predicate Between(conn: EndpointConnection)
      reads this, objects, contexts
    {
      && daemonCtx !in contexts && daemonCtx.parent == null
      && (forall c {:trigger c.parent} :: c in contexts ==> c.parent == daemonCtx)
      && (forall o {:trigger o.cancel} :: o in objects && o != conn ==>
            o.cancel != null && o.cancel in contexts && o.cancel.endpoint == o.endpointId)
      && conn.endpointId in connections && connections[conn.endpointId] == conn
      && (forall id :: id in connections && id != conn.endpointId ==>
            && connections[id] in objects && connections[id].endpointId == id
            && !connections[id].manuallyDisconnected)
      && (forall c {:trigger c.cancelled} :: c in contexts && !c.cancelled ==>
            && c.endpoint in connections && c.endpoint != conn.endpointId
            && connections[c.endpoint].cancel == c)
      && (forall o {:trigger o.manuallyDisconnected} :: o in objects && o != conn ==>
            IsEntry(o) || o.manuallyDisconnected)
    }

    /** Starts a listener under a new context. */
    method Listen(conn: EndpointConnection, now: int)
      requires Between(conn)
      modifies this`objects, this`contexts, conn
      ensures Valid()
      ensures fresh(conn.cancel) && conn.cancel.endpoint == conn.endpointId && !conn.cancel.cancelled
      ensures conn.lastConnectAttempt == now && conn.connected == old(conn.connected)
      ensures objects == old(objects) + {conn} && contexts == old(contexts) + {conn.cancel}
    {
      var ctx := new Context(daemonCtx, conn.endpointId);
      conn.Start(ctx, now);
      objects, contexts := objects + {conn}, contexts + {ctx};
    }

    /** The entry of the endpoint with its listener cancelled, or a new entry that has none yet. */
    method CloseOrCreate(id: nat, url: string, apiPath: string, apiKey: string) returns (conn: EndpointConnection)
      requires Valid()
      modifies this`connections, objects, contexts
      ensures connections == old(connections)[id := conn] && conn.endpointId == id && !conn.connected
      ensures id in old(connections) ==> conn == old(connections[id])
      ensures id !in old(connections) ==>
                fresh(conn) && conn.url == url && conn.apiPath == apiPath && conn.apiKey == apiKey
      ensures forall o :: o in objects && o != conn ==> unchanged(o)
      ensures forall c :: c in contexts ==> c.cancelled == (old(c.cancelled) || c.endpoint == id)
      ensures Between(conn)
    {
      if id in connections {
        conn := connections[id];
        conn.cancel.Cancel();
        conn.SetConnected(false);
      } else {
        conn := new EndpointConnection(id, url, apiPath, apiKey);
        connections := connections[id := conn];
      }
    }

    /** Starts a listener for the endpoint; the listener it had, if any, is cancelled first. */
    method ConnectEndpoint(id: nat, url: string, apiPath: string, apiKey: string, now: int)
      requires Valid()
      modifies this, objects, contexts
      ensures Valid()
      ensures id in connections && connections == old(connections)[id := connections[id]]
      ensures id in old(connections) ==> connections[id] == old(connections[id])
      ensures id !in old(connections) ==>
                var conn := connections[id];
                fresh(conn) && conn.url == url && conn.apiPath == apiPath && conn.apiKey == apiKey
      ensures var conn := connections[id];
              (conn.url, conn.apiPath, conn.apiKey) == (url, apiPath, apiKey) <==>
              id !in old(connections) ||
              var was := old(connections[id]); (was.url, was.apiPath, was.apiKey) == (url, apiPath, apiKey)
      ensures fresh(connections[id].cancel) && !connections[id].connected
      ensures connections[id].lastConnectAttempt == now
      ensures objects == old(objects) + {connections[id]} && contexts == old(contexts) + {connections[id].cancel}
      ensures daemonCtx.cancelled == old(daemonCtx.cancelled)
      ensures Listening() ==
              if daemonCtx.cancelled then {}
              else (set c | c in old(Listening()) && c.endpoint != id) + {connections[id].cancel}
      ensures forall o :: o in old(objects) && o != connections[id] ==> unchanged(o)
    {
      var conn := CloseOrCreate(id, url, apiPath, apiKey);
      hide Between, Valid, Owned;
      Listen(conn, now);
    }

    /** Stops listening to the endpoint and forgets the entry. */
    method DisconnectEndpoint(id: nat)
      requires Valid()
      modifies this`connections, objects, contexts
      ensures Valid()
      ensures connections == old(connections) - {id}
      ensures id in old(connections) ==>
                var conn := old(connections[id]);
                && conn.manuallyDisconnected && !conn.connected && conn.cancel.cancelled
                && conn.lastConnectAttempt == old(connections[id].lastConnectAttempt)
      ensures Listening() == set c | c in old(Listening()) && c.endpoint != id
      ensures daemonCtx.cancelled == old(daemonCtx.cancelled)
      ensures forall o :: o in objects && (id in old(connections) ==> o != old(connections[id])) ==> unchanged(o)
    {
      if id in connections {
        var conn := connections[id];
        conn.manuallyDisconnected := true;
        conn.SetConnected(false);
        conn.cancel.Cancel();
        connections := connections - {id};
      }
    }

    /** The entries the daemon is going to look at. It keeps the objects, not the lock. */
    method Snapshot() returns (entries: set<EndpointConnection>)
      requires Valid()
      ensures entries <= objects
      ensures forall o :: o in entries <==> o in connections.Values
    {
      entries := connections.Values;
    }

    /** The first half of a reconnect: on whichever object the daemon holds, current or stale. */
    method CancelOld(conn: EndpointConnection, now: int)
      requires Valid() && conn in objects
      modifies conn`lastConnectAttempt, conn`reconnectAttempts, contexts
      ensures Valid()
      ensures conn.lastConnectAttempt == now
      ensures Listening() == old(Listening()) - {conn.cancel}
      ensures daemonCtx.cancelled == old(daemonCtx.cancelled)
    {
      conn.UpdateLastConnectAttempt(now);
      if conn.cancel != null {
        conn.cancel.Cancel();
      }
    }

    /** One turn of the daemon's loop, when nothing comes between its two halves. */
    method CheckConnection(conn: EndpointConnection, now: int) returns (reconnected: bool)
      requires Valid() && conn in objects
      modifies this, objects, contexts
      ensures Valid()
      ensures reconnected <==>
              !old(conn.manuallyDisconnected) && !old(conn.connected) && now - old(conn.lastConnectAttempt) >= 30
      ensures objects >= old(objects) && contexts >= old(contexts)
      ensures fresh(objects - old(objects)) && fresh(contexts - old(contexts))
      ensures !reconnected ==> connections == old(connections) && Listening() == old(Listening())
      ensures reconnected ==>
                && conn.endpointId in connections
                && connections == old(connections)[conn.endpointId := connections[conn.endpointId]]
                && fresh(connections[conn.endpointId].cancel)
                && connections[conn.endpointId].lastConnectAttempt == now
                && (!daemonCtx.cancelled ==> connections[conn.endpointId].cancel in Listening())
    {
      hide Valid, Owned;
      reconnected := false;
      if conn.manuallyDisconnected {
        return;
      }
      if conn.connected {
        return;
      }
      if now - conn.lastConnectAttempt < RETRY_SECONDS {
        return;
      }
      CancelOld(conn, now);
      ConnectEndpoint(conn.endpointId, conn.url, conn.apiPath, conn.apiKey, now);
      reconnected := true;
    }

    /** A manual disconnect is final for a daemon that looks afterwards, at whichever object of the endpoint. */
    method CheckAfterDisconnect(id: nat, conn: EndpointConnection, now: int) returns (reconnected: bool)
      requires Valid() && conn in objects && conn.endpointId == id
      modifies this, objects, contexts
      ensures Valid() && !reconnected && id !in connections
      ensures forall c :: c in Listening() ==> c.endpoint != id
      ensures connections == old(connections) - {id}
    {
      DisconnectEndpoint(id);
      NoEntryNoListener(this, id);
      reconnected := CheckConnection(conn, now);
    }

    method StopDaemon()
      requires Valid()
      modifies daemonCtx
      ensures Valid() && daemonCtx.cancelled && Listening() == {}
    {
      daemonCtx.Cancel();
    }

    /** The second half of Close, after StopDaemon: cancels every entry and empties the map. */
    method CloseConnections()
      requires Valid()
      modifies this`connections, objects, contexts
      ensures Valid() && connections == map[]
      ensures forall c :: c in contexts ==> c.cancelled
      ensures forall id :: id in old(connections) ==> old(connections[id]).manuallyDisconnected
      ensures daemonCtx.cancelled == old(daemonCtx.cancelled)
    {
      var ids := connections.Keys;
      while ids != {}
        invariant ids <= connections.Keys && connections == old(connections)
        invariant Owned()
        invariant forall c {:trigger c.cancelled} :: c in contexts && !c.cancelled ==>
                    c.endpoint in ids && connections[c.endpoint].cancel == c
        invariant forall id :: id in connections && id !in ids ==> connections[id].manuallyDisconnected
        invariant forall o {:trigger o.manuallyDisconnected} :: o in objects ==>
                    IsEntry(o) || o.manuallyDisconnected
        invariant daemonCtx.cancelled == old(daemonCtx.cancelled)
        decreases |ids|
      {
        var id :| id in ids;
        var conn := connections[id];
        conn.manuallyDisconnected := true;
        conn.cancel.Cancel();
        ids := ids - {id};
      }
      assert forall o :: o in objects ==> o.manuallyDisconnected;
      connections := map[];
    }

    method Close()
      requires Valid()
      modifies this`connections, objects, contexts, daemonCtx
      ensures Valid() && connections == map[] && daemonCtx.cancelled && Listening() == {}
      ensures forall c :: c in contexts ==> c.cancelled
    {
      StopDaemon();
      CloseConnections();
    }
  }

  /** What Valid means for listeners: per endpoint at most one, the current one of an entry in good standing. */
  lemma AtMostOneListener(m: Manager, c1: Context, c2: Context)
    requires m.Valid() && c1 in m.contexts && c2 in m.contexts
    requires c1.Live() && c2.Live() && c1.endpoint == c2.endpoint
    ensures c1 == c2 && c1 in m.Listening()
    ensures c1.endpoint in m.connections
    ensures m.connections[c1.endpoint].cancel == c1 && !m.connections[c1.endpoint].manuallyDisconnected
  {
    assert c1.parent == m.daemonCtx && c2.parent == m.daemonCtx;
    assert !c1.cancelled && !c2.cancelled;
  }

  /** A listener is a context that is cancelled neither itself nor through the daemon's. */
  lemma ListeningIs(m: Manager, c: Context)
    ensures c in m.Listening() <==> c in m.contexts && !c.cancelled && !m.daemonCtx.cancelled
  {
  }

  lemma EntryKnown(m: Manager, id: nat)
    requires m.Valid() && id in m.connections
    ensures m.connections[id] in m.objects && m.connections[id].endpointId == id
    ensures m.connections[id].cancel != null && m.connections[id].cancel.endpoint == id
    ensures !m.connections[id].manuallyDisconnected
  {
  }

  /** An endpoint without an entry has no listener, and all its objects are marked as disconnected. */
  lemma NoEntryNoListener(m: Manager, id: nat)
    requires m.Valid() && id !in m.connections
    ensures forall c :: c in m.Listening() ==> c.endpoint != id
    ensures forall o :: o in m.objects && o.endpointId == id ==> o.manuallyDisconnected
  {
    forall c | c in m.Listening()
      ensures c.endpoint != id {
      assert !c.cancelled;
    }
    forall o | o in m.objects && o.endpointId == id
      ensures o.manuallyDisconnected {
      assert !m.IsEntry(o);
    }
  }

  // ------------------------------------------------------------------ interleavings

  /**
   * What the other threads hold between two steps: the objects known to the daemon and the listeners, those
   * that the daemon has found not disconnected by hand and may go on to reconnect, and how far Close is.
   */
  datatype Threads = Threads(
    held: set<EndpointConnection>, passed: set<EndpointConnection>, stopped: bool, exited: bool)

  ghost predicate Fits(t: Threads, m: Manager)
    reads m, m.daemonCtx
  {
    && t.passed <= t.held <= m.objects
    && (t.stopped ==> m.daemonCtx.cancelled)
    && (t.exited ==> t.stopped && t.passed == {})
  }

  predicate NonePassed(t: Threads, id: nat) {
    forall o :: o in t.passed ==> o.endpointId != id
  }

  /** What the daemon can do next: list the entries, look at an object's flag, go on to its other two checks, and
      reconnect it in two halves. */
  datatype Action =
    | Lists
    | LooksAt(conn: EndpointConnection)
    | GivesUp(conn: EndpointConnection, now: int)
    | CancelsOld(conn: EndpointConnection, now: int)
    | Reconnects(conn: EndpointConnection, now: int)

  predicate CanTake(t: Threads, a: Action) {
    match a
    case Lists => !t.exited
    case LooksAt(conn) => !t.exited && conn in t.held
    case GivesUp(conn, _) => conn in t.passed
    case CancelsOld(conn, _) => conn in t.passed
    case Reconnects(conn, _) => conn in t.passed
  }

  /** One step of the daemon. */
  method DaemonStep(m: Manager, t: Threads, a: Action) returns (t': Threads)
    requires m.Valid() && Fits(t, m) && CanTake(t, a)
    modifies m, m.objects, m.contexts
    ensures m.Valid() && Fits(t', m)
    ensures fresh(m.objects - old(m.objects)) && fresh(m.contexts - old(m.contexts))
    ensures m.objects >= old(m.objects) && m.contexts >= old(m.contexts)
    ensures m.daemonCtx.cancelled == old(m.daemonCtx.cancelled)
    ensures a.Lists? || a.LooksAt? || a.GivesUp? ==>
              m.connections == old(m.connections) && m.Listening() == old(m.Listening())
    ensures a.Lists? ==> t' == t.(held := t.held + m.connections.Values)
    ensures a.LooksAt? ==>
              t' == if old(a.conn.manuallyDisconnected) then t else t.(passed := t.passed + {a.conn})
    ensures a.GivesUp? ==>
              t' == if old(a.conn.connected) || a.now - old(a.conn.lastConnectAttempt) < 30
                    then t.(passed := t.passed - {a.conn}) else t
    ensures a.CancelsOld? ==>
              && t' == t && m.connections == old(m.connections)
              && a.conn.lastConnectAttempt == a.now && m.Listening() == old(m.Listening()) - {a.conn.cancel}
    ensures a.Reconnects? ==>
              && t' == t.(passed := t.passed - {a.conn})
              && a.conn.endpointId in m.connections
              && m.connections == old(m.connections)[a.conn.endpointId := m.connections[a.conn.endpointId]]
              && fresh(m.connections[a.conn.endpointId].cancel)
              && (!m.daemonCtx.cancelled ==> m.connections[a.conn.endpointId].cancel in m.Listening())
    ensures forall id :: id !in old(m.connections) && NonePassed(t, id) ==>
              id !in m.connections && NonePassed(t', id)
  {
    t' := t;
    match a {
      case Lists =>
        var entries := m.Snapshot();
        t' := t.(held := t.held + entries);
        assert entries == m.connections.Values;
      case LooksAt(conn) =>
        if !conn.manuallyDisconnected {
          FlagMeansEntry(m, conn);
          t' := t.(passed := t.passed + {conn});
        }
      case GivesUp(conn, now) =>
        if conn.connected || now - conn.lastConnectAttempt < RETRY_SECONDS {
          t' := t.(passed := t.passed - {conn});
        }
      case CancelsOld(conn, now) =>
        m.CancelOld(conn, now);
      case Reconnects(conn, now) =>
        m.ConnectEndpoint(conn.endpointId, conn.url, conn.apiPath, conn.apiKey, now);
        t' := t.(passed := t.passed - {conn});
    }
  }

  lemma FlagMeansEntry(m: Manager, conn: EndpointConnection)
    requires m.Valid() && conn in m.objects && !conn.manuallyDisconnected
    ensures m.IsEntry(conn)
  {
  }

  /** A caller connects or disconnects an endpoint, a listener reports, the daemon takes a step, or Close goes on. */
  datatype Step =
    | Connects(id: nat, url: string, apiPath: string, apiKey: string, now: int)
    | Disconnects(id: nat)
    | Reports(conn: EndpointConnection, connected: bool, retry: bool)
    | Daemon(action: Action)
    | Stops
    | Exits
    | Closes

  /** Close waits for the daemon to finish before it cancels the connections. */
  predicate CanStep(t: Threads, s: Step) {
    match s
    case Connects(_, _, _, _, _) => true
    case Disconnects(_) => true
    case Reports(conn, _, _) => conn in t.held
    case Daemon(a) => CanTake(t, a)
    case Stops => true
    case Exits => t.stopped && t.passed == {}
    case Closes => t.exited
  }

  /** Callers may come at any time; the others as far as they have got. */
  lemma WhoCanStep(t: Threads, id: nat, text: string, conn: EndpointConnection, flag: bool, now: int)
    ensures CanStep(t, Connects(id, text, text, text, now)) && CanStep(t, Disconnects(id)) && CanStep(t, Stops)
    ensures CanStep(t, Reports(conn, flag, flag)) <==> conn in t.held
    ensures CanStep(t, Daemon(Lists)) <==> !t.exited
    ensures CanStep(t, Daemon(LooksAt(conn))) <==> !t.exited && conn in t.held
    ensures CanStep(t, Daemon(GivesUp(conn, now))) <==> conn in t.passed
    ensures CanStep(t, Daemon(CancelsOld(conn, now))) <==> conn in t.passed
    ensures CanStep(t, Daemon(Reconnects(conn, now))) <==> conn in t.passed
    ensures CanStep(t, Exits) <==> t.stopped && t.passed == {}
    ensures CanStep(t, Closes) <==> t.exited
  {
  }

  /** One step of anybody. */
  method AnyStep(m: Manager, t: Threads, s: Step) returns (t': Threads)
    requires m.Valid() && Fits(t, m) && CanStep(t, s)
    modifies m, m.objects, m.contexts, m.daemonCtx
    ensures m.Valid() && Fits(t', m)
    ensures fresh(m.objects - old(m.objects)) && fresh(m.contexts - old(m.contexts))
    ensures m.objects >= old(m.objects) && m.contexts >= old(m.contexts)
    ensures t.stopped ==> t'.stopped
    ensures old(m.daemonCtx.cancelled) ==> m.daemonCtx.cancelled
    ensures s.Connects? ==>
              && s.id in m.connections && fresh(m.connections[s.id].cancel)
              && t' == t.(held := t.held + {m.connections[s.id]})
    ensures s.Disconnects? ==> t' == t && m.connections == old(m.connections) - {s.id}
    ensures s.Reports? ==> t' == t && s.conn.connected == s.connected && m.connections == old(m.connections)
    ensures s.Stops? ==> t' == t.(stopped := true) && m.daemonCtx.cancelled
    ensures s.Exits? ==> t' == t.(exited := true)
    ensures s.Closes? ==> t' == t && m.connections == map[]
    ensures s.Daemon? && s.action.LooksAt? ==>
              t' == if old(s.action.conn.manuallyDisconnected) then t
                    else t.(passed := t.passed + {s.action.conn})
    ensures s.Daemon? && s.action.Reconnects? ==>
              s.action.conn.endpointId in m.connections && t' == t.(passed := t.passed - {s.action.conn})
    ensures forall id :: !(s.Connects? && s.id == id) && id !in old(m.connections) && NonePassed(t, id) ==>
              id !in m.connections && NonePassed(t', id)
  {
    hide m.Valid, m.Owned;
    t' := t;
    match s {
      case Connects(id, url, apiPath, apiKey, now) =>
        m.ConnectEndpoint(id, url, apiPath, apiKey, now);
        t' := t.(held := t.held + {m.connections[id]});
      case Disconnects(id) =>
        m.DisconnectEndpoint(id);
      case Reports(conn, connected, retry) =>
        ListenerReports(m, conn, connected, retry);
      case Daemon(a) =>
        t' := DaemonStep(m, t, a);
      case Stops =>
        m.StopDaemon();
        t' := t.(stopped := true);
      case Exits =>
        t' := t.(exited := true);
      case Closes =>
        m.CloseConnections();
    }
  }

  /**
   * A listener reports that it is connected, or, possibly late, that it is not. When its connection has
   * failed, rather than its context been cancelled, the daemon may retry at once.
   */
  method ListenerReports(m: Manager, conn: EndpointConnection, connected: bool, retry: bool)
    requires m.Valid() && conn in m.objects
    modifies conn`connected, conn`reconnectAttempts, conn`lastConnectAttempt
    ensures m.Valid() && conn.connected == connected && m.Listening() == old(m.Listening())
    ensures conn.lastConnectAttempt ==
            if !connected && retry && !conn.manuallyDisconnected then NEVER else old(conn.lastConnectAttempt)
    ensures !connected && retry && !conn.manuallyDisconnected ==>
              conn.lastConnectAttempt + 30 <= 0
  {
    conn.SetConnected(connected);
    if !connected && retry && !conn.manuallyDisconnected {
      conn.ResetLastConnectAttempt();
    }
  }

  /** Every interleaving of all these steps keeps the manager's invariant; once stopped nothing ever listens. */
  method AnyRun(steps: nat) returns (m: Manager, t: Threads)
    ensures m.Valid() && Fits(t, m)
    ensures t.stopped ==> m.Listening() == {}
  {
    m := new Manager();
    t := Threads({}, {}, false, false);
    for n := 0 to steps
      invariant m.Valid() && Fits(t, m)
      invariant fresh(m) && fresh(m.objects) && fresh(m.contexts) && fresh(m.daemonCtx)
    {
      hide m.Valid, m.Owned, Fits;
      var s: Step := *;
      if CanStep(t, s) {
        t := AnyStep(m, t, s);
      }
    }
  }

  /**
   * When a manual disconnect lasts: over any number of steps in which no caller connects the endpoint again,
   * it has no entry if no object of it had passed the daemon's look at the flag, and no listener if none had
   * or the daemon is stopped.
   */
  method DisconnectLasts(m: Manager, t: Threads, id: nat, steps: nat) returns (t': Threads)
    requires m.Valid() && Fits(t, m)
    modifies m, m.objects, m.contexts, m.daemonCtx
    ensures m.Valid() && Fits(t', m)
    ensures NonePassed(t, id) ==> id !in m.connections
    ensures NonePassed(t, id) || old(m.daemonCtx.cancelled) || t'.stopped ==>
              forall c :: c in m.Listening() ==> c.endpoint != id
  {
    hide m.Valid, m.Owned;
    t' := t;
    m.DisconnectEndpoint(id);
    for n := 0 to steps
      invariant m.Valid() && Fits(t', m)
      invariant m.objects >= old(m.objects) && m.contexts >= old(m.contexts)
      invariant fresh(m.objects - old(m.objects)) && fresh(m.contexts - old(m.contexts))
      invariant old(m.daemonCtx.cancelled) ==> m.daemonCtx.cancelled
      invariant NonePassed(t, id) ==> id !in m.connections && NonePassed(t', id)
    {
      hide NonePassed;
      var s: Step := *;
      if CanStep(t', s) && !(s.Connects? && s.id == id) {
        t' := AnyStep(m, t', s);
      }
    }
    if id !in m.connections {
      NoEntryNoListener(m, id);
    }
  }

  /**
   * And when it does not: any object of the endpoint that had passed the look at the flag brings the endpoint
   * back. Its listener reports that it has gone, the time passes, and the daemon finishes its turn; the
   * endpoint then listens exactly when the daemon has not been stopped.
   */
  method DisconnectDuringReconnect(m: Manager, t: Threads, conn: EndpointConnection, now: int)
    requires m.Valid() && Fits(t, m) && conn in t.passed
    requires now - conn.lastConnectAttempt >= RETRY_SECONDS
    modifies m, m.objects, m.contexts
    ensures m.Valid()
    ensures conn.endpointId in m.connections && !m.connections[conn.endpointId].manuallyDisconnected
    ensures (exists c :: c in m.Listening() && c.endpoint == conn.endpointId) <==> !m.daemonCtx.cancelled
  {
    hide m.Valid, m.Owned;
    var id := conn.endpointId;
    m.DisconnectEndpoint(id);
    ListenerReports(m, conn, false, false);
    assert !conn.connected && now - conn.lastConnectAttempt >= RETRY_SECONDS;
    m.CancelOld(conn, now);
    m.ConnectEndpoint(id, conn.url, conn.apiPath, conn.apiKey, now);
    assert m.connections[id].cancel.endpoint == id by { EntryKnown(m, id); }
    assert !m.daemonCtx.cancelled ==> m.connections[id].cancel in m.Listening();
    assert !m.connections[id].manuallyDisconnected by { EntryKnown(m, id); }
  }
}
