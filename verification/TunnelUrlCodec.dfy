/** The parser and the printer as the program runs them, step by step. */
module TunnelUrlCodec {
  import opened Options
  import opened Text
  import opened TunnelUrl
  import opened TunnelUrlProofs
  import AddressPort

  /** The loop over the pairs of the query string. */
  method ReadQueryLoop(server: bool, queryPart: string) returns (q: Query)
    ensures q == ReadPairs(server, NOTHING_READ, Split(queryPart, '&'))
  {
    hide SetParam, ParamOf, Split, ReadPairs;
    ReadNothing(server);
    q := NOTHING_READ;
    if queryPart == "" {
      return;
    }
    var kvs := Split(queryPart, '&');
    assert kvs[..0] == [];
    for i := 0 to |kvs|
      invariant q == ReadPairs(server, NOTHING_READ, kvs[..i])
    {
      var kv := kvs[i];
      ReadPairsSnoc(server, NOTHING_READ, kvs[..i], kv);
      assert kvs[..i] + [kv] == kvs[..i + 1];
      if kv == "" {
        continue;
      }
      var eq := IndexOf(kv, '=');
      if eq == -1 {
        continue;
      }
      var key, val := kv[..eq], kv[eq + 1..];
      match ParamOf(key)
      case Some(p) => q := SetParam(server, q, p, val);
      case None =>
    }
    assert kvs[..|kvs|] == kvs;
  }

  /** The loop over the further targets of the path. */
  method ReadExtendedTargets(addresses: seq<string>) returns (entries: seq<string>)
    requires addresses != []
    ensures entries == ReadEntries(addresses[1..])
  {
    entries := [];
    for i := 1 to |addresses|
      invariant entries == ReadEntries(addresses[1..i])
    {
      var (addr, port) := AddressPort.Parse(addresses[i]);
      entries := entries + [addr + ":" + port];
      assert addresses[1..i + 1] == addresses[1..i] + [addresses[i]];
    }
    assert addresses[1..|addresses|] == addresses[1..];
  }

  /** The targets of the path: the first is the target proper, the others extend it. */
  method ReadTargets(pathPart: string) returns (address: string, port: string, extend: Option<seq<string>>)
    ensures var targets := Split(pathPart, ',');
            && (address, port) == AddressPort.Parse(targets[0])
            && extend == if |targets| > 1 then Some(ReadEntries(targets[1..])) else None
  {
    hide AddressPort.Parse, ReadEntries;
    address, port, extend := "", "", None;
    EmptyParts();
    if pathPart != "" {
      var addresses := Split(pathPart, ',');
      var (addr, p) := AddressPort.Parse(addresses[0]);
      address, port := addr, p;
      if |addresses| > 1 {
        var entries := ReadExtendedTargets(addresses);
        extend := Some(entries);
      }
    }
  }

  /** The listen type that `notcp` and `noudp` stand for together. */
  method ReadListenType(noTcp: Option<string>, noUdp: Option<string>) returns (listenType: Option<string>)
    ensures listenType == ListenTypeOf(noTcp, noUdp)
  {
    listenType := None;
    if noTcp.Some? || noUdp.Some? {
      var tcpEnabled, udpEnabled := true, true;
      if noTcp.Some? { tcpEnabled := noTcp.value != "1"; }
      if noUdp.Some? { udpEnabled := noUdp.value != "1"; }
      assert tcpEnabled == (noTcp != Some("1")) && udpEnabled == (noUdp != Some("1"));
      assert ListenTypeOf(noTcp, noUdp) ==
             if tcpEnabled && udpEnabled then Some("ALL") else if tcpEnabled then Some("TCP")
             else if udpEnabled then Some("UDP") else None;
      if tcpEnabled && udpEnabled { listenType := Some("ALL"); }
      else if tcpEnabled { listenType := Some("TCP"); }
      else if udpEnabled { listenType := Some("UDP"); }
    }
  }

  /** The part after the scheme and the password. */
  method ParseBody(mode: string, password: Option<string>, body: string) returns (tunnel: Tunnel)
    ensures tunnel == ReadBody(mode, password, body)
  {
    hide ReadPairs, ReadEntries, AddressPort.Parse, Split, IndexOf, ListenTypeOf;
    tunnel := Tunnel(mode, password, "", "", "", "", None, None, NO_PARAMS);
    var rest, queryPart, pathPart := body, "", "";
    var question := IndexOf(rest, '?');
    if question != -1 {
      queryPart := rest[question + 1..];
      rest := rest[..question];
    }
    assert rest == Cut(body, '?').0 && queryPart == OrEmpty(Cut(body, '?').1);
    ghost var front := rest;
    var slash := IndexOf(rest, '/');
    if slash != -1 {
      pathPart := rest[slash + 1..];
      rest := rest[..slash];
    }
    assert rest == Cut(front, '/').0 && pathPart == OrEmpty(Cut(front, '/').1);
    EmptyParts();
    if rest != "" {
      var (addr, port) := AddressPort.Parse(rest);
      tunnel := tunnel.(tunnelAddress := addr, tunnelPort := port);
    }
    SplitPieces(pathPart, ',');
    var targetAddress, targetPort, extend := ReadTargets(pathPart);
    tunnel := tunnel.(targetAddress := targetAddress, targetPort := targetPort, extendTargets := extend);
    var q := ReadQueryLoop(tunnel.mode == "server", queryPart);
    var listenType := ReadListenType(q.noTcp, q.noUdp);
    tunnel := tunnel.(params := q.params, listenType := listenType);
  }

  method ParseTunnelURL(url: string) returns (tunnel: Tunnel)
    ensures tunnel == ReadUrl(url)
  {
    hide ReadBody, SchemeEnd, IndexOf;
    var mode, password, rest := "", None, url;
    var scheme := SchemeEnd(rest);
    if scheme != -1 {
      var protocol := rest[..scheme];
      rest := rest[scheme + 3..];
      if IsMode(protocol) {
        mode := protocol;
      }
    }
    var at := IndexOf(rest, '@');
    if at != -1 {
      var userInfo := rest[..at];
      rest := rest[at + 1..];
      if userInfo != "" {
        password := Some(userInfo);
      }
    }
    tunnel := ParseBody(mode, password, rest);
  }

  lemma EmptyParts()
    ensures AddressPort.Parse("") == ("", "")
    ensures Split("", ',') == [""]
  {
  }

  lemma OrderStep(t: Tunnel, n: nat)
    requires 0 < n <= PARAMS
    ensures PrintParams(t, Order(n)) == PrintParams(t, Order(n - 1)) + PrintParam(t, Nth(n - 1))
  {
    assert Order(n)[..n - 1] == Order(n - 1);
  }

  /** The query parameters, appended one after the other. */
  method CollectQueryParams(t: Tunnel) returns (kvs: seq<string>)
    ensures kvs == PrintParams(t, Order(PARAMS))
  {
    hide PrintParam, PrintParams, Order;
    NoParams(t);
    kvs := [];
    OrderStep(t, 1);
    kvs := kvs + PrintParam(t, Log);
    OrderStep(t, 2);
    kvs := kvs + PrintParam(t, Tls);
    OrderStep(t, 3);
    kvs := kvs + PrintParam(t, Crt);
    OrderStep(t, 4);
    kvs := kvs + PrintParam(t, Key);
    OrderStep(t, 5);
    kvs := kvs + PrintParam(t, Min);
    OrderStep(t, 6);
    kvs := kvs + PrintParam(t, Max);
    OrderStep(t, 7);
    kvs := kvs + PrintParam(t, Mode);
    OrderStep(t, 8);
    kvs := kvs + PrintParam(t, Read);
    OrderStep(t, 9);
    kvs := kvs + PrintParam(t, Rate);
    OrderStep(t, 10);
    kvs := kvs + PrintParam(t, Slot);
    OrderStep(t, 11);
    kvs := kvs + PrintParam(t, Dial);
    OrderStep(t, 12);
    kvs := kvs + PrintParam(t, Dns);
    OrderStep(t, 13);
    kvs := kvs + PrintParam(t, Type);
    OrderStep(t, 14);
    kvs := kvs + PrintParam(t, Sni);
    OrderStep(t, 15);
    kvs := kvs + PrintParam(t, Block);
    OrderStep(t, 16);
    kvs := kvs + PrintParam(t, Lbs);
    OrderStep(t, 17);
    kvs := kvs + PrintParam(t, Proxy);
    OrderStep(t, 18);
    kvs := kvs + PrintParam(t, NoTcp);
    OrderStep(t, 19);
    kvs := kvs + PrintParam(t, NoUdp);
  }

  lemma NoParams(t: Tunnel)
    ensures PrintParams(t, Order(0)) == []
  {
  }

  /** `address[:port]`, appended piece by piece. */
  method AppendAddressPort(prefix: string, address: string, port: string) returns (whole: string)
    ensures whole == prefix + AddressPort.Print(address, port)
  {
    whole := prefix;
    if address != "" {
      whole := whole + address;
    }
    if port != "" {
      whole := whole + (":" + port);
    }
  }

  /** The path: the target and the further targets, if there is anything to print. */
  method AppendPath(prefix: string, t: Tunnel) returns (whole: string)
    ensures whole == prefix + PrintPath(t)
  {
    hide AddressPort.Print, Join;
    whole := prefix;
    if t.targetAddress != "" || t.targetPort != "" || Entries(t) != [] {
      var path := AppendAddressPort("", t.targetAddress, t.targetPort);
      assert path == AddressPort.Print(t.targetAddress, t.targetPort);
      path := AppendEntries(path, Entries(t));
      whole := whole + ("/" + path);
    }
  }

  method BuildTunnelURLs(t: Tunnel) returns (url: string)
    ensures url == Printed(t)
    ensures Representable(t) ==> (ReadUrl(url) == Normalised(t) <==> WellFormed(t))
  {
    hide PrintParams, Order, Representable, WellFormed, Normalised, ReadUrl, AddressPort.Print, PrintPath, Join;
    var protocol := t.mode;
    if protocol == "" {
      protocol := "client";
    }
    url := protocol + "://";
    if t.password.Some? && t.password.value != "" {
      url := url + (t.password.value + "@");
    }
    assert url == Protocol(t) + "://" + PrintPassword(t);
    ghost var prefix := url;
    url := AppendAddressPort(url, t.tunnelAddress, t.tunnelPort);
    url := AppendPath(url, t);
    var kvs := CollectQueryParams(t);
    if kvs != [] {
      url := url + ("?" + Join(kvs, '&'));
    }
    assert url == prefix + PrintBody(t) by { Grouped(prefix, t); }
    if Representable(t) { RoundTripIff(t); }
  }

  lemma Grouped(prefix: string, t: Tunnel)
    ensures prefix + AddressPort.Print(t.tunnelAddress, t.tunnelPort) + PrintPath(t) + PrintQuery(t) ==
            prefix + PrintBody(t)
    ensures prefix + AddressPort.Print(t.tunnelAddress, t.tunnelPort) + PrintPath(t) + "" ==
            prefix + AddressPort.Print(t.tunnelAddress, t.tunnelPort) + PrintPath(t)
  {
    hide AddressPort.Print, PrintPath, PrintQuery;
  }

  /** The loop that appends the extended targets, each after a comma. */
  method AppendEntries(path: string, entries: seq<string>) returns (whole: string)
    ensures whole == Join([path] + entries, ',')
  {
    whole := path;
    assert [path] + entries[..0] == [path];
    for i := 0 to |entries|
      invariant whole == Join([path] + entries[..i], ',')
    {
      whole := whole + ("," + entries[i]);
      JoinSnoc([path] + entries[..i], entries[i], ',');
      assert [path] + entries[..i] + [entries[i]] == [path] + entries[..i + 1];
    }
    assert entries[..|entries|] == entries;
  }
}
