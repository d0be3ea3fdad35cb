/** What the printer writes for any tunnel, well-formed or not, in terms of its fields. */
module TunnelUrlPrinting {
  import opened Options
  import opened Text
  import opened TunnelUrl
  import opened TunnelUrlProofs
  import opened TunnelUrlReading
  import AddressPort
  import QueryEscape

  /** A value that is printed only when it is not empty. */
  function Filled(v: Option<string>): Option<string> {
    match v case Some(s) => if s == "" then None else v case None => None
  }

  function Encoded(v: Option<string>): Option<string> {
    match v case Some(s) => Some(QueryEscape.Escape(s)) case None => None
  }

  function Digits(v: Option<int>): Option<string> {
    match v case Some(n) => Some(Decimal(n)) case None => None
  }

  /** What stands after `name=`, or None where the parameter is not written. */
  function Written(t: Tunnel, p: Param): Option<string> {
    var ps := t.params;
    var listens := t.listenType in {Some("ALL"), Some("TCP"), Some("UDP")};
    match p
    case Log => Filled(Some(ps.logLevel))
    case Tls => if t.mode == "server" then Filled(Some(ps.tlsMode)) else None
    case Crt => Encoded(Filled(ps.certPath))
    case Key => Encoded(Filled(ps.keyPath))
    case Min => Digits(ps.min)
    case Max => Digits(ps.max)
    case Mode => Digits(ps.mode)
    case Read => Filled(ps.read)
    case Rate => Digits(ps.rate)
    case Slot => Digits(ps.slot)
    case Dial => Encoded(ps.dial)
    case Dns => ps.dns
    case Type => Digits(ps.poolType)
    case Sni => Filled(ps.sni)
    case Block => Digits(ps.block)
    case Lbs => Digits(ps.lbs)
    case Proxy => match ps.proxyProtocol { case Some(b) => Some(if b then "1" else "0") case None => None }
    case NoTcp => if listens then Some(if t.listenType == Some("UDP") then "1" else "0") else None
    case NoUdp => if listens then Some(if t.listenType == Some("TCP") then "1" else "0") else None
  }

  lemma WrittenIs(t: Tunnel, p: Param)
    ensures ValueText(t, p) == Written(t, p)
  {
    hide Decimal, QueryEscape.Escape;
  }

  const NAMES := [
    "log", "tls", "crt", "key", "min", "max", "mode", "read", "rate", "slot", "dial", "dns", "type", "sni", "block",
    "lbs", "proxy", "notcp", "noudp"]

  lemma NthName(i: nat)
    requires i < PARAMS
    ensures NameOf(Nth(i)) == NAMES[i]
  {
  }

  function Pair(name: string, v: Option<string>): seq<string> {
    match v case Some(s) => [name + "=" + s] case None => []
  }

  /** The first `n` parameters, each under its name. */
  function PairsOf(t: Tunnel, n: nat): seq<string>
    requires n <= 19
  {
    if n == 0 then [] else PairsOf(t, n - 1) + Pair(NAMES[n - 1], Written(t, Nth(n - 1)))
  }

  lemma OneMoreParam(t: Tunnel, n: nat)
    requires 0 < n <= PARAMS
    ensures PrintParams(t, Order(n)) == PrintParams(t, Order(n - 1)) + Pair(NameOf(Nth(n - 1)), ValueText(t, Nth(n - 1)))
  {
    hide ValueText, NameOf, Nth;
    assert Order(n)[..n - 1] == Order(n - 1) && Order(n)[n - 1] == Nth(n - 1);
  }

  lemma {:induction false} ParamsInOrder(t: Tunnel, n: nat)
    requires n <= PARAMS
    ensures PrintParams(t, Order(n)) == PairsOf(t, n)
    decreases n
  {
    hide PrintParams, Order, ValueText, Written, NameOf, Nth, Pair;
    if n == 0 {
      NoParams(t);
    } else {
      ParamsInOrder(t, n - 1);
      OneMoreParam(t, n);
      NthName(n - 1);
      WrittenIs(t, Nth(n - 1));
    }
  }

  lemma NoParams(t: Tunnel)
    ensures PrintParams(t, Order(0)) == []
  {
  }

  function HostOf(address: string, port: string): string {
    if port == "" then address else address + ":" + port
  }

  /** The parts of the printed URL. */
  function PartsOf(t: Tunnel): Parts {
    var pairs := PairsOf(t, 19);
    var entries := match t.extendTargets case Some(es) => es case None => [];
    Parts(Some(if t.mode == "" then "client" else t.mode), Filled(t.password), HostOf(t.tunnelAddress, t.tunnelPort),
          if t.targetAddress == "" && t.targetPort == "" && entries == [] then None
          else Some(Join([HostOf(t.targetAddress, t.targetPort)] + entries, ',')),
          if pairs == [] then None else Some(Join(pairs, '&')))
  }

  lemma PrintedBody(t: Tunnel)
    ensures PrintBody(t) == Body(PartsOf(t))
  {
    hide PrintParams, Order, PairsOf, Join;
    ParamsInOrder(t, PARAMS);
    var u := PartsOf(t);
    assert AddressPort.Print(t.tunnelAddress, t.tunnelPort) == HostOf(t.tunnelAddress, t.tunnelPort);
    assert AddressPort.Print(t.targetAddress, t.targetPort) == HostOf(t.targetAddress, t.targetPort);
    assert PrintPath(t) == Following("/", u.path);
    assert PrintQuery(t) == Following("?", u.query);
  }

  /** The printer, on any tunnel: scheme, password, tunnel, targets and the parameters in their order. */
  lemma PrintedParts(t: Tunnel)
    ensures Printed(t) == TextOf(PartsOf(t))
  {
    hide PrintBody, Body, PairsOf, HostOf, Join;
    PrintedBody(t);
    var body := PrintBody(t);
    match NonEmpty(t.password) {
      case Some(p) => assert Protocol(t) + "://" + (p + "@") + body == Protocol(t) + "://" + (p + "@" + body);
      case None => assert Protocol(t) + "://" + "" + body == Protocol(t) + "://" + body;
    }
  }
}
