/** Tunnels and their URLs: protocol://[password@][address:port]/[target,...]?[params]. */
module TunnelUrl {
  import opened Options
  import opened Text
  import QueryEscape
  import AddressPort

  const MAX_POOL: int := 3
  const MAX_BLOCK: int := 3
  const MAX_LBS: int := 2

  /** The part of a tunnel that travels in the query string. "" stands for "inherit". */
  datatype Params = Params(
    logLevel: string, tlsMode: string, certPath: Option<string>, keyPath: Option<string>,
    min: Option<int>, max: Option<int>, mode: Option<int>, read: Option<string>,
    rate: Option<int>, slot: Option<int>, dial: Option<string>, dns: Option<string>,
    poolType: Option<int>, sni: Option<string>, block: Option<int>, lbs: Option<int>,
    proxyProtocol: Option<bool>)

  datatype Tunnel = Tunnel(
    mode: string, password: Option<string>,
    tunnelAddress: string, tunnelPort: string, targetAddress: string, targetPort: string,
    extendTargets: Option<seq<string>>, listenType: Option<string>, params: Params)

  const NO_PARAMS := Params("", "", None, None, None, None, None, None, None, None, None, None, None, None,
                            None, None, None)

  // ------------------------------------------------------------- query parameters

  datatype Param =
    | Log | Tls | Crt | Key | Min | Max | Mode | Read | Rate | Slot | Dial | Dns | Type | Sni | Block | Lbs
    | Proxy | NoTcp | NoUdp

  function NameOf(p: Param): string {
    match p
    case Log => "log" case Tls => "tls" case Crt => "crt" case Key => "key" case Min => "min" case Max => "max"
    case Mode => "mode" case Read => "read" case Rate => "rate" case Slot => "slot" case Dial => "dial"
    case Dns => "dns" case Type => "type" case Sni => "sni" case Block => "block" case Lbs => "lbs"
    case Proxy => "proxy" case NoTcp => "notcp" case NoUdp => "noudp"
  }

  function ParamOf(key: string): Option<Param> {
    if key == "log" then Some(Log) else if key == "tls" then Some(Tls)
    else if key == "crt" then Some(Crt) else if key == "key" then Some(Key)
    else if key == "min" then Some(Min) else if key == "max" then Some(Max)
    else if key == "mode" then Some(Mode) else if key == "read" then Some(Read)
    else if key == "rate" then Some(Rate) else if key == "slot" then Some(Slot)
    else if key == "dial" then Some(Dial) else if key == "dns" then Some(Dns)
    else if key == "type" then Some(Type) else if key == "sni" then Some(Sni)
    else if key == "block" then Some(Block) else if key == "lbs" then Some(Lbs)
    else if key == "proxy" then Some(Proxy) else if key == "notcp" then Some(NoTcp)
    else if key == "noudp" then Some(NoUdp) else None
  }

  // ------------------------------------------------------------------- reading

  /** What the query has set so far. */
  datatype Query = Query(params: Params, noTcp: Option<string>, noUdp: Option<string>)

  function ToLowerChar(c: char): char {
    if 'A' <= c <= 'Z' then c - 'A' + 'a' else c
  }

  function ToLower(s: string): string {
    seq(|s|, i requires 0 <= i < |s| => ToLowerChar(s[i]))
  }

  predicate IsLogLevel(s: string) {
    s == "debug" || s == "info" || s == "warn" || s == "error" || s == "event" || s == "none"
  }

  predicate IsTlsMode(s: string) {
    s == "0" || s == "1" || s == "2"
  }

  /** Decoded if it is well-formed, as it stands otherwise. */
  function Decoded(val: string): string {
    match QueryEscape.Unescape(val) case Some(s) => s case None => val
  }

  function ParseMode(val: string): Option<int> {
    if val == "0" then Some(0) else if val == "1" then Some(1) else if val == "2" then Some(2) else None
  }

  function ParseRange(val: string, hi: int): Option<int> {
    match ParseInt64(val) case Some(n) => if 0 <= n <= hi then Some(n) else None case None => None
  }

  function OrElse<T>(v: Option<T>, current: Option<T>): Option<T> {
    if v.Some? then v else current
  }

  /** One `key=value` of the query; a value that is refused leaves the field alone. */
  function SetParam(server: bool, q: Query, p: Param, val: string): Query {
    var ps := q.params;
    match p
    case Tls => if server && IsTlsMode(val) then q.(params := ps.(tlsMode := val)) else q
    case Log => q.(params := ps.(logLevel := if IsLogLevel(ToLower(val)) then ToLower(val) else ""))
    case Crt => q.(params := ps.(certPath := Some(Decoded(val))))
    case Key => q.(params := ps.(keyPath := Some(Decoded(val))))
    case Min => q.(params := ps.(min := OrElse(ParseInt64(val), ps.min)))
    case Max => q.(params := ps.(max := OrElse(ParseInt64(val), ps.max)))
    case Mode => q.(params := ps.(mode := OrElse(ParseMode(val), ps.mode)))
    case Read => if val != "" then q.(params := ps.(read := Some(val))) else q
    case Rate => q.(params := ps.(rate := OrElse(ParseInt64(val), ps.rate)))
    case Slot => q.(params := ps.(slot := OrElse(ParseInt64(val), ps.slot)))
    case Proxy =>
      if val == "0" then q.(params := ps.(proxyProtocol := Some(false)))
      else if val == "1" then q.(params := ps.(proxyProtocol := Some(true))) else q
    case NoTcp => q.(noTcp := Some(val))
    case NoUdp => q.(noUdp := Some(val))
    case Dial => q.(params := ps.(dial := Some(Decoded(val))))
    case Dns => q.(params := ps.(dns := Some(val)))
    case Type => q.(params := ps.(poolType := OrElse(ParseRange(val, MAX_POOL), ps.poolType)))
    case Sni => q.(params := ps.(sni := Some(val)))
    case Block => q.(params := ps.(block := OrElse(ParseRange(val, MAX_BLOCK), ps.block)))
    case Lbs => q.(params := ps.(lbs := OrElse(ParseRange(val, MAX_LBS), ps.lbs)))
  }

  function ReadPair(server: bool, q: Query, kv: string): Query {
    var eq := IndexOf(kv, '=');
    if eq == -1 then q
    else match ParamOf(kv[..eq])
      case Some(p) => SetParam(server, q, p, kv[eq + 1..])
      case None => q
  }

  function ReadPairs(server: bool, q: Query, kvs: seq<string>): Query {
    if kvs == [] then q else ReadPair(server, ReadPairs(server, q, kvs[..|kvs| - 1]), kvs[|kvs| - 1])
  }

  function ListenTypeOf(noTcp: Option<string>, noUdp: Option<string>): Option<string> {
    if noTcp.None? && noUdp.None? then None
    else
      var tcp, udp := noTcp != Some("1"), noUdp != Some("1");
      if tcp && udp then Some("ALL") else if tcp then Some("TCP") else if udp then Some("UDP") else None
  }

  function ReadEntries(entries: seq<string>): seq<string> {
    seq(|entries|, i requires 0 <= i < |entries| => AddressPort.PrintEntry(AddressPort.Parse(entries[i])))
  }

  /** Index of "://", or -1. */
  function SchemeEnd(s: string): (i: int)
    ensures -1 <= i && (i >= 0 ==> i + 3 <= |s| && s[i..i + 3] == "://")
  {
    if |s| < 3 then -1
    else if s[..3] == "://" then 0
    else
      var i := SchemeEnd(s[1..]);
      assert i >= 0 ==> s[i + 1..i + 4] == s[1..][i..i + 3];
      if i == -1 then -1 else i + 1
  }

  predicate IsMode(s: string) {
    s == "client" || s == "server"
  }

  /** Cut at the first occurrence of `c`: before it, and after it if it occurs. */
  function Cut(s: string, c: char): (string, Option<string>) {
    var i := IndexOf(s, c);
    if i == -1 then (s, None) else (s[..i], Some(s[i + 1..]))
  }

  function OrEmpty(s: Option<string>): string {
    match s case Some(t) => t case None => ""
  }

  /** What follows the scheme and the password. */
  function ReadBody(mode: string, password: Option<string>, body: string): Tunnel {
    var (front, query) := Cut(body, '?');
    var (host, path) := Cut(front, '/');
    var (tunnelAddress, tunnelPort) := AddressPort.Parse(host);
    var targets := Split(OrEmpty(path), ',');
    var (targetAddress, targetPort) := AddressPort.Parse(if targets == [] then "" else targets[0]);
    var extend := if |targets| > 1 then Some(ReadEntries(targets[1..])) else None;
    var q := ReadPairs(mode == "server", Query(NO_PARAMS, None, None), Split(OrEmpty(query), '&'));
    Tunnel(mode, password, tunnelAddress, tunnelPort, targetAddress, targetPort, extend,
           ListenTypeOf(q.noTcp, q.noUdp), q.params)
  }

  function ReadAfterScheme(mode: string, rest: string): Tunnel {
    var at := IndexOf(rest, '@');
    if at == -1 then ReadBody(mode, None, rest)
    else ReadBody(mode, if at == 0 then None else Some(rest[..at]), rest[at + 1..])
  }

  /** ParseTunnelURL: every URL yields a tunnel, and nothing is an error. */
  function ReadUrl(url: string): Tunnel {
    var i := SchemeEnd(url);
    if i == -1 then ReadAfterScheme("", url)
    else ReadAfterScheme(if IsMode(url[..i]) then url[..i] else "", url[i + 3..])
  }

  // ------------------------------------------------------------------ printing

  function NonEmpty(v: Option<string>): Option<string> {
    if v == Some("") then None else v
  }

  function EscapedText(v: Option<string>): Option<string> {
    match v case Some(s) => Some(QueryEscape.Escape(s)) case None => None
  }

  function NumberText(v: Option<int>): Option<string> {
    match v case Some(n) => Some(Decimal(n)) case None => None
  }

  function FlagText(b: bool): string {
    if b then "1" else "0"
  }

  predicate IsListenType(v: Option<string>) {
    v == Some("ALL") || v == Some("TCP") || v == Some("UDP")
  }

  /** The text printed after `key=`, or None when the parameter is not printed. */
  function ValueText(t: Tunnel, p: Param): Option<string> {
    var ps := t.params;
    match p
    case Log => if ps.logLevel == "" then None else Some(ps.logLevel)
    case Tls => if ps.tlsMode == "" || t.mode != "server" then None else Some(ps.tlsMode)
    case Crt => EscapedText(NonEmpty(ps.certPath))
    case Key => EscapedText(NonEmpty(ps.keyPath))
    case Min => NumberText(ps.min)
    case Max => NumberText(ps.max)
    case Mode => NumberText(ps.mode)
    case Read => NonEmpty(ps.read)
    case Rate => NumberText(ps.rate)
    case Slot => NumberText(ps.slot)
    case Dial => EscapedText(ps.dial)
    case Dns => ps.dns
    case Type => NumberText(ps.poolType)
    case Sni => NonEmpty(ps.sni)
    case Block => NumberText(ps.block)
    case Lbs => NumberText(ps.lbs)
    case Proxy => match ps.proxyProtocol { case Some(b) => Some(FlagText(b)) case None => None }
    case NoTcp => if IsListenType(t.listenType) then Some(FlagText(t.listenType == Some("UDP"))) else None
    case NoUdp => if IsListenType(t.listenType) then Some(FlagText(t.listenType == Some("TCP"))) else None
  }

  const PARAMS: nat := 19

  /** The order in which parameters are printed. */
  function Nth(i: nat): Param
    requires i < PARAMS
  {
    if i == 0 then Log else if i == 1 then Tls else if i == 2 then Crt else if i == 3 then Key
    else if i == 4 then Min else if i == 5 then Max else if i == 6 then Mode else if i == 7 then Read
    else if i == 8 then Rate else if i == 9 then Slot else if i == 10 then Dial else if i == 11 then Dns
    else if i == 12 then Type else if i == 13 then Sni else if i == 14 then Block else if i == 15 then Lbs
    else if i == 16 then Proxy else if i == 17 then NoTcp else NoUdp
  }

  /** The first `n` parameters in that order. */
  function Order(n: nat): (order: seq<Param>)
    requires n <= PARAMS
    ensures |order| == n
    ensures forall i :: 0 <= i < n ==> order[i] == Nth(i)
  {
    if n == 0 then [] else Order(n - 1) + [Nth(n - 1)]
  }

  function PrintParam(t: Tunnel, p: Param): seq<string> {
    match ValueText(t, p)
    case Some(v) => [NameOf(p) + "=" + v]
    case None => []
  }

  function PrintParams(t: Tunnel, order: seq<Param>): seq<string> {
    if order == [] then [] else PrintParams(t, order[..|order| - 1]) + PrintParam(t, order[|order| - 1])
  }

  function Entries(t: Tunnel): seq<string> {
    match t.extendTargets case Some(es) => es case None => []
  }

  function PrintPath(t: Tunnel): string {
    if t.targetAddress == "" && t.targetPort == "" && Entries(t) == [] then ""
    else "/" + Join([AddressPort.Print(t.targetAddress, t.targetPort)] + Entries(t), ',')
  }

  function PrintQuery(t: Tunnel): string {
    var kvs := PrintParams(t, Order(PARAMS));
    if kvs == [] then "" else "?" + Join(kvs, '&')
  }

  function PrintBody(t: Tunnel): string {
    AddressPort.Print(t.tunnelAddress, t.tunnelPort) + PrintPath(t) + PrintQuery(t)
  }

  function Protocol(t: Tunnel): string {
    if t.mode == "" then "client" else t.mode
  }

  function PrintPassword(t: Tunnel): string {
    match NonEmpty(t.password) case Some(p) => p + "@" case None => ""
  }

  /** BuildTunnelURLs. */
  function Printed(t: Tunnel): string {
    Protocol(t) + "://" + PrintPassword(t) + PrintBody(t)
  }
}
