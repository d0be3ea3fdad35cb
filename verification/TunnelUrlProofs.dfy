/** Reading a printed tunnel gives it back, exactly for the well-formed ones. */
module TunnelUrlProofs {
  import opened Options
  import opened Text
  import opened TunnelUrl
  import QueryEscape
  import AddressPort

  // ------------------------------------------------------- the law and its condition

  predicate Fits(n: Option<int>) {
    n.Some? ==> IsInt64(n.value)
  }

  predicate BytesIn(v: Option<string>) {
    v.Some? ==> QueryEscape.IsBytes(v.value)
  }

  /** What Go's types guarantee: 64-bit numbers and strings of bytes. */
  predicate Representable(t: Tunnel) {
    var ps := t.params;
    && Fits(ps.min) && Fits(ps.max) && Fits(ps.mode) && Fits(ps.rate) && Fits(ps.slot)
    && Fits(ps.poolType) && Fits(ps.block) && Fits(ps.lbs)
    && BytesIn(ps.certPath) && BytesIn(ps.keyPath) && BytesIn(ps.dial)
  }

  /** A tunnel as the URL format sees it: the default mode spelled out, empty optional
      values absent, TLS only on servers, unknown listen types absent. */
  function Normalised(t: Tunnel): Tunnel {
    t.(mode := Protocol(t), password := NonEmpty(t.password),
       extendTargets := if t.extendTargets == Some([]) then None else t.extendTargets,
       listenType := if IsListenType(t.listenType) then t.listenType else None,
       params := t.params.(tlsMode := if t.mode == "server" then t.params.tlsMode else "",
                           certPath := NonEmpty(t.params.certPath), keyPath := NonEmpty(t.params.keyPath),
                           read := NonEmpty(t.params.read), sni := NonEmpty(t.params.sni)))
  }

  predicate InRange(n: Option<int>, hi: int) {
    n.Some? ==> 0 <= n.value <= hi
  }

  predicate HostText(s: string) { '?' !in s && '/' !in s }

  predicate PathText(s: string) { '?' !in s && ',' !in s }

  predicate PlainText(v: Option<string>) { v.Some? ==> '&' !in v.value }

  /** No text that is printed in the query as it stands holds the character. */
  predicate TextsWithout(t: Tunnel, c: char) {
    var ps := t.params;
    && c !in ps.logLevel && (t.mode == "server" ==> c !in ps.tlsMode)
    && (ps.read.Some? ==> c !in ps.read.value) && (ps.dns.Some? ==> c !in ps.dns.value)
    && (ps.sni.Some? ==> c !in ps.sni.value)
  }

  /** No field that is printed after the password holds an `@`; encoded texts and numbers never do. */
  predicate FreeOfAt(t: Tunnel) {
    && '@' !in t.tunnelAddress && '@' !in t.tunnelPort && '@' !in t.targetAddress && '@' !in t.targetPort
    && (forall e :: e in Entries(t) ==> '@' !in e)
    && TextsWithout(t, '@')
  }

  /** No field holds a character that the format gives a meaning to in its place. */
  predicate Separable(t: Tunnel) {
    && (match NonEmpty(t.password) case Some(p) => '@' !in p case None => FreeOfAt(t))
    && HostText(t.tunnelAddress) && HostText(t.tunnelPort)
    && PathText(t.targetAddress) && PathText(t.targetPort)
    && (forall e :: e in Entries(t) ==> PathText(e))
    && TextsWithout(t, '&')
  }

  predicate KnownMode(t: Tunnel) {
    t.mode == "" || IsMode(t.mode)
  }

  /** Addresses in one of the printable classes, enumerations among their known values. */
  predicate FieldsKnown(t: Tunnel) {
    var ps := t.params;
    && AddressPort.Printable(t.tunnelAddress, t.tunnelPort)
    && AddressPort.Printable(t.targetAddress, t.targetPort)
    && (forall e :: e in Entries(t) ==> AddressPort.Canonical(e))
    && (ps.logLevel == "" || IsLogLevel(ps.logLevel))
    && (t.mode == "server" ==> ps.tlsMode == "" || IsTlsMode(ps.tlsMode))
    && InRange(ps.mode, 2) && InRange(ps.poolType, MAX_POOL)
    && InRange(ps.block, MAX_BLOCK) && InRange(ps.lbs, MAX_LBS)
  }

  predicate WellFormed(t: Tunnel) {
    KnownMode(t) && Separable(t) && FieldsKnown(t)
  }

  // ----------------------------------------------- one query parameter at a time

  lemma ParamOfName(p: Param)
    ensures ParamOf(NameOf(p)) == Some(p)
    ensures '=' !in NameOf(p) && '&' !in NameOf(p) && '@' !in NameOf(p)
  {
    NameWithoutSeparators(p);
  }

  lemma NameWithoutSeparators(p: Param)
    ensures '=' !in NameOf(p) && '&' !in NameOf(p) && '@' !in NameOf(p)
  {
  }

  /** The part of a query that parameter `p` sets. */
  datatype Cell = TextCell(text: Option<string>) | IntCell(number: Option<int>) | FlagCell(flag: Option<bool>)

  function CellOf(q: Query, p: Param): Cell {
    var ps := q.params;
    match p
    case Log => TextCell(Some(ps.logLevel)) case Tls => TextCell(Some(ps.tlsMode))
    case Crt => TextCell(ps.certPath) case Key => TextCell(ps.keyPath)
    case Min => IntCell(ps.min) case Max => IntCell(ps.max) case Mode => IntCell(ps.mode)
    case Read => TextCell(ps.read) case Rate => IntCell(ps.rate) case Slot => IntCell(ps.slot)
    case Dial => TextCell(ps.dial) case Dns => TextCell(ps.dns) case Type => IntCell(ps.poolType)
    case Sni => TextCell(ps.sni) case Block => IntCell(ps.block) case Lbs => IntCell(ps.lbs)
    case Proxy => FlagCell(ps.proxyProtocol)
    case NoTcp => TextCell(q.noTcp) case NoUdp => TextCell(q.noUdp)
  }

  lemma SetParamFrame(server: bool, q: Query, p: Param, val: string, other: Param)
    requires other != p
    ensures CellOf(SetParam(server, q, p, val), other) == CellOf(q, other)
  {
    hide IsTlsMode, IsLogLevel, ToLower, Decoded, ParseInt64, ParseMode, ParseRange;
  }

  lemma SetParamLocal(server: bool, a: Query, b: Query, p: Param, val: string)
    requires CellOf(a, p) == CellOf(b, p)
    ensures CellOf(SetParam(server, a, p, val), p) == CellOf(SetParam(server, b, p, val), p)
  {
  }

  const NOTHING_READ := Query(NO_PARAMS, None, None)

  /** What reading gives for parameter `p` when only the printed `p` is there. */
  function ReadBack(t: Tunnel, p: Param): Cell {
    match ValueText(t, p)
    case Some(v) => CellOf(SetParam(t.mode == "server", NOTHING_READ, p, v), p)
    case None => CellOf(NOTHING_READ, p)
  }

  lemma ReadPrintedPair(server: bool, q: Query, p: Param, val: string)
    ensures ReadPair(server, q, NameOf(p) + "=" + val) == SetParam(server, q, p, val)
  {
    ParamOfName(p);
    IndexOfFirst(NameOf(p), '=', val);
    assert NameOf(p) + "=" + val == NameOf(p) + ['='] + val;
  }

  lemma ReadPairsSnoc(server: bool, q: Query, kvs: seq<string>, kv: string)
    ensures ReadPairs(server, q, kvs + [kv]) == ReadPair(server, ReadPairs(server, q, kvs), kv)
  {
    assert (kvs + [kv])[..|kvs + [kv]| - 1] == kvs;
  }

  lemma ReadOneMore(t: Tunnel, kvs: seq<string>, last: Param)
    ensures ReadPairs(t.mode == "server", NOTHING_READ, kvs + PrintParam(t, last)) ==
            var before := ReadPairs(t.mode == "server", NOTHING_READ, kvs);
            match ValueText(t, last)
            case Some(v) => SetParam(t.mode == "server", before, last, v)
            case None => before
  {
    hide SetParam, ReadPair, NameOf, ReadPairs, ValueText;
    match ValueText(t, last)
    case None =>
      assert kvs + [] == kvs;
    case Some(v) =>
      ReadPairsSnoc(t.mode == "server", NOTHING_READ, kvs, NameOf(last) + "=" + v);
      ReadPrintedPair(t.mode == "server", ReadPairs(t.mode == "server", NOTHING_READ, kvs), last, v);
  }

  /** Each parameter is read back from its own pair, whatever else is printed around it. */
  lemma {:induction false} ReadPrintedParams(t: Tunnel, order: seq<Param>, p: Param)
    requires forall i, j :: 0 <= i < j < |order| ==> order[i] != order[j]
    ensures CellOf(ReadPairs(t.mode == "server", NOTHING_READ, PrintParams(t, order)), p) ==
            if p in order then ReadBack(t, p) else CellOf(NOTHING_READ, p)
    decreases |order|
  {
    hide SetParam, CellOf, ValueText, ReadPairs, PrintParam;
    if order != [] {
      var front, last := order[..|order| - 1], order[|order| - 1];
      ReadPrintedParams(t, front, p);
      assert order == front + [last];
      ReadOneMore(t, PrintParams(t, front), last);
      var before := ReadPairs(t.mode == "server", NOTHING_READ, PrintParams(t, front));
      if ValueText(t, last).Some? {
        if p == last {
          SetParamLocal(t.mode == "server", before, NOTHING_READ, p, ValueText(t, last).value);
        } else {
          SetParamFrame(t.mode == "server", before, last, ValueText(t, last).value, p);
        }
      }
    } else {
      assert ReadPairs(t.mode == "server", NOTHING_READ, []) == NOTHING_READ by { ReadNothing(t.mode == "server"); }
    }
  }

  lemma ReadNothing(server: bool)
    ensures ReadPairs(server, NOTHING_READ, []) == NOTHING_READ
    ensures ReadPairs(server, NOTHING_READ, Split("", '&')) == NOTHING_READ
  {
    assert Split("", '&') == [""];
    assert [""][..0] == [];
  }

  /** A query is its cells. */
  lemma CellsDetermineQuery(a: Query, b: Query)
    requires forall p :: CellOf(a, p) == CellOf(b, p)
    ensures a == b
  {
    TextsDetermined(a, b);
    NumbersDetermined(a, b);
    assert CellOf(a, Proxy) == CellOf(b, Proxy) && CellOf(a, NoTcp) == CellOf(b, NoTcp)
           && CellOf(a, NoUdp) == CellOf(b, NoUdp);
    SameParams(a.params, b.params);
  }

  predicate SameTexts(a: Params, b: Params) {
    && a.logLevel == b.logLevel && a.tlsMode == b.tlsMode && a.certPath == b.certPath && a.keyPath == b.keyPath
    && a.read == b.read && a.dial == b.dial && a.dns == b.dns && a.sni == b.sni
  }

  predicate SameNumbers(a: Params, b: Params) {
    && a.min == b.min && a.max == b.max && a.mode == b.mode && a.rate == b.rate && a.slot == b.slot
    && a.poolType == b.poolType && a.block == b.block && a.lbs == b.lbs
  }

  lemma TextsDetermined(a: Query, b: Query)
    requires forall p :: CellOf(a, p) == CellOf(b, p)
    ensures SameTexts(a.params, b.params)
  {
    assert CellOf(a, Log) == CellOf(b, Log) && CellOf(a, Tls) == CellOf(b, Tls);
    assert CellOf(a, Crt) == CellOf(b, Crt) && CellOf(a, Key) == CellOf(b, Key);
    assert CellOf(a, Read) == CellOf(b, Read) && CellOf(a, Dial) == CellOf(b, Dial);
    assert CellOf(a, Dns) == CellOf(b, Dns) && CellOf(a, Sni) == CellOf(b, Sni);
  }

  lemma NumbersDetermined(a: Query, b: Query)
    requires forall p :: CellOf(a, p) == CellOf(b, p)
    ensures SameNumbers(a.params, b.params)
  {
    assert CellOf(a, Min) == CellOf(b, Min) && CellOf(a, Max) == CellOf(b, Max);
    assert CellOf(a, Mode) == CellOf(b, Mode) && CellOf(a, Rate) == CellOf(b, Rate);
    assert CellOf(a, Slot) == CellOf(b, Slot) && CellOf(a, Type) == CellOf(b, Type);
    assert CellOf(a, Block) == CellOf(b, Block) && CellOf(a, Lbs) == CellOf(b, Lbs);
  }

  lemma SameParams(a: Params, b: Params)
    requires SameTexts(a, b) && SameNumbers(a, b) && a.proxyProtocol == b.proxyProtocol
    ensures a == b
  {
  }

  // --------------------------------------------------- what each value reads back as

  /** The query a tunnel should come back with. */
  function Expected(t: Tunnel): Query {
    var listens := IsListenType(t.listenType);
    Query(Normalised(t).params,
          if listens then Some(FlagText(t.listenType == Some("UDP"))) else None,
          if listens then Some(FlagText(t.listenType == Some("TCP"))) else None)
  }

  /** The parameters whose value is an enumeration, known to the reader or not. */
  predicate ValueKnown(t: Tunnel, p: Param) {
    var ps := t.params;
    match p
    case Log => ps.logLevel == "" || IsLogLevel(ps.logLevel)
    case Tls => t.mode == "server" ==> ps.tlsMode == "" || IsTlsMode(ps.tlsMode)
    case Mode => InRange(ps.mode, 2)
    case Type => InRange(ps.poolType, MAX_POOL)
    case Block => InRange(ps.block, MAX_BLOCK)
    case Lbs => InRange(ps.lbs, MAX_LBS)
    case _ => true
  }

  lemma ReadBackIff(t: Tunnel, p: Param)
    requires Representable(t)
    ensures ReadBack(t, p) == CellOf(Expected(t), p) <==> ValueKnown(t, p)
  {
    hide ReadBack, Expected, Representable, CellOf;
    if p in {Crt, Key, Dial} {
      EscapedBackIff(t, p);
    } else if p in {Min, Max, Rate, Slot} {
      NumberBackIff(t, p);
    } else if p in {Mode, Type, Block, Lbs} {
      RangedBackIff(t, p);
    } else {
      PlainBackIff(t, p);
    }
  }

  lemma EscapedBackIff(t: Tunnel, p: Param)
    requires Representable(t) && p in {Crt, Key, Dial}
    ensures ReadBack(t, p) == CellOf(Expected(t), p)
  {
    hide QueryEscape.Escape, QueryEscape.Unescape, QueryEscape.IsBytes;
    var ps := t.params;
    EscapedReadBack(ps.certPath);
    EscapedReadBack(ps.keyPath);
    EscapedReadBack(ps.dial);
  }

  lemma NumberBackIff(t: Tunnel, p: Param)
    requires Representable(t) && p in {Min, Max, Rate, Slot}
    ensures ReadBack(t, p) == CellOf(Expected(t), p)
  {
    hide Decimal, ParseInt64;
    NumberReadBack(t.params.min);
    NumberReadBack(t.params.max);
    NumberReadBack(t.params.rate);
    NumberReadBack(t.params.slot);
  }

  lemma RangedBackIff(t: Tunnel, p: Param)
    requires Representable(t) && p in {Mode, Type, Block, Lbs}
    ensures ReadBack(t, p) == CellOf(Expected(t), p) <==> ValueKnown(t, p)
  {
    hide Decimal, ParseInt64, ParseMode;
    ModeReadBack(t.params.mode);
    NumberReadBack(t.params.poolType);
    NumberReadBack(t.params.block);
    NumberReadBack(t.params.lbs);
  }

  lemma PlainBackIff(t: Tunnel, p: Param)
    requires p in {Log, Tls, Read, Dns, Sni, Proxy, NoTcp, NoUdp}
    ensures ReadBack(t, p) == CellOf(Expected(t), p) <==> ValueKnown(t, p)
  {
    hide ToLower;
    LogLevelReadBack(t.params.logLevel);
  }

  lemma LogLevelReadBack(level: string)
    ensures IsLogLevel(level) ==> ToLower(level) == level
  {
  }

  lemma EscapedReadBack(v: Option<string>)
    requires BytesIn(v)
    ensures v.Some? ==> Decoded(QueryEscape.Escape(v.value)) == v.value
  {
    if v.Some? { QueryEscape.UnescapeEscape(v.value); }
  }

  lemma NumberReadBack(n: Option<int>)
    requires Fits(n)
    ensures n.Some? ==> ParseInt64(Decimal(n.value)) == n
  {
    if n.Some? { ParseDecimal(n.value); }
  }

  lemma ModeReadBack(n: Option<int>)
    ensures n.Some? ==> (ParseMode(Decimal(n.value)) == n <==> 0 <= n.value <= 2)
  {
    if n.Some? {
      assert Decimal(0) == "0" && Decimal(1) == "1" && Decimal(2) == "2";
      if Decimal(n.value) == "0" { DecimalInjective(n.value, 0); }
      if Decimal(n.value) == "1" { DecimalInjective(n.value, 1); }
      if Decimal(n.value) == "2" { DecimalInjective(n.value, 2); }
    }
  }

  function Rank(p: Param): (i: nat)
    ensures i < PARAMS && Nth(i) == p
  {
    match p
    case Log => 0 case Tls => 1 case Crt => 2 case Key => 3 case Min => 4 case Max => 5 case Mode => 6
    case Read => 7 case Rate => 8 case Slot => 9 case Dial => 10 case Dns => 11 case Type => 12 case Sni => 13
    case Block => 14 case Lbs => 15 case Proxy => 16 case NoTcp => 17 case NoUdp => 18
  }

  lemma NthInjective(i: nat, j: nat)
    requires i < PARAMS && j < PARAMS && Nth(i) == Nth(j)
    ensures i == j
  {
    assert Rank(Nth(i)) == i;
    assert Rank(Nth(j)) == j;
  }

  lemma OrderIsComplete(p: Param)
    ensures p in Order(PARAMS)
    ensures forall i, j :: 0 <= i < j < |Order(PARAMS)| ==> Order(PARAMS)[i] != Order(PARAMS)[j]
  {
    hide Nth, Rank;
    assert Order(PARAMS)[Rank(p)] == p;
    forall i, j | 0 <= i < j < |Order(PARAMS)| ensures Order(PARAMS)[i] != Order(PARAMS)[j] {
      if Nth(i) == Nth(j) { NthInjective(i, j); }
    }
  }

  /** The printed parameters read back as the tunnel's exactly when every enumeration is known. */
  lemma QueryReadBackIff(t: Tunnel)
    requires Representable(t)
    ensures ReadPairs(t.mode == "server", NOTHING_READ, PrintParams(t, Order(PARAMS))) == Expected(t) <==>
            forall p :: ValueKnown(t, p)
  {
    hide Expected, Representable, PrintParams, ReadPairs, ReadBack, ValueKnown, CellOf;
    var q := ReadPairs(t.mode == "server", NOTHING_READ, PrintParams(t, Order(PARAMS)));
    forall p ensures CellOf(q, p) == CellOf(Expected(t), p) <==> ValueKnown(t, p) {
      OrderIsComplete(p);
      ReadPrintedParams(t, Order(PARAMS), p);
      ReadBackIff(t, p);
    }
    if forall p :: ValueKnown(t, p) {
      forall p ensures CellOf(q, p) == CellOf(Expected(t), p) {
        assert ValueKnown(t, p);
      }
      CellsDetermineQuery(q, Expected(t));
    }
  }

  // ------------------------------------------------------------ taking a URL apart

  lemma {:induction false} SchemeEndAfter(a: string, b: string)
    requires ':' !in a
    ensures SchemeEnd(a + "://" + b) == |a|
    decreases |a|
  {
    var s := a + "://" + b;
    if a == "" {
      assert s[..3] == "://";
    } else {
      assert a[0] in a && s[0] == a[0];
      assert s[..3][0] == a[0];
      assert s[1..] == a[1..] + "://" + b;
      assert forall c :: c in a[1..] ==> c in a;
      SchemeEndAfter(a[1..], b);
    }
  }

  lemma CutAt(a: string, c: char, b: string)
    requires c !in a
    ensures Cut(a + [c] + b, c) == (a, Some(b))
    ensures Cut(a, c) == (a, None)
  {
    IndexOfFirst(a, c, b);
  }

  lemma ProtocolIsMode(t: Tunnel)
    requires t.mode == "" || IsMode(t.mode)
    ensures IsMode(Protocol(t)) && ':' !in Protocol(t)
    ensures Protocol(t) == "server" <==> t.mode == "server"
  {
  }

  lemma ReadScheme(t: Tunnel)
    requires t.mode == "" || IsMode(t.mode)
    ensures ReadUrl(Printed(t)) == ReadAfterScheme(Protocol(t), PrintPassword(t) + PrintBody(t))
  {
    hide ReadAfterScheme, PrintPassword, PrintBody, SchemeEnd;
    ProtocolIsMode(t);
    var rest := PrintPassword(t) + PrintBody(t);
    assert Printed(t) == Protocol(t) + "://" + rest;
    SchemeEndAfter(Protocol(t), rest);
    assert Printed(t)[|Protocol(t)| + 3..] == rest && Printed(t)[..|Protocol(t)|] == Protocol(t);
  }

  lemma ReadPassword(t: Tunnel)
    requires match NonEmpty(t.password) case Some(p) => '@' !in p case None => '@' !in PrintBody(t)
    ensures ReadAfterScheme(Protocol(t), PrintPassword(t) + PrintBody(t)) ==
            ReadBody(Protocol(t), NonEmpty(t.password), PrintBody(t))
  {
    hide ReadBody, PrintBody;
    match NonEmpty(t.password)
    case None =>
      assert "" + PrintBody(t) == PrintBody(t);
    case Some(p) =>
      assert PrintPassword(t) + PrintBody(t) == p + ['@'] + PrintBody(t);
      IndexOfFirst(p, '@', PrintBody(t));
  }

  /** The host is what precedes the first `/` or `?`. */
  lemma HostPart(host: string, rest: string)
    requires HostText(host)
    requires rest == "" || rest[0] == '/' || rest[0] == '?'
    ensures Cut(Cut(host + rest, '?').0, '/').0 == host
  {
    if rest == "" {
      assert host + rest == host;
    } else if rest[0] == '?' {
      assert host + rest == host + ['?'] + rest[1..];
      CutAt(host, '?', rest[1..]);
    } else {
      AddressPort.FirstIndexInPrefix(host, rest, '?');
      var front := Cut(host + rest, '?').0;
      assert front[..|host|] == host && front[|host|] == '/';
      assert front == host + ['/'] + front[|host| + 1..];
      CutAt(host, '/', front[|host| + 1..]);
    }
  }

  lemma {:induction false} JoinWithout(parts: seq<string>, sep: char, c: char)
    requires c != sep && forall p :: p in parts ==> c !in p
    ensures c !in Join(parts, sep)
    decreases |parts|
  {
    if |parts| == 1 {
      assert parts[0] in parts;
    } else if parts != [] {
      assert parts[0] in parts;
      JoinWithout(parts[1..], sep, c);
    }
  }

  function Targets(t: Tunnel): seq<string> {
    [AddressPort.Print(t.targetAddress, t.targetPort)] + Entries(t)
  }

  lemma TargetsArePathText(t: Tunnel)
    requires Separable(t)
    ensures forall s :: s in Targets(t) ==> PathText(s)
    ensures '?' !in PrintPath(t)
  {
    hide PrintBody;
    JoinWithout(Targets(t), ',', '?');
  }

  lemma QueryPart(t: Tunnel)
    requires Separable(t)
    ensures Cut(PrintBody(t), '?').0 == AddressPort.Print(t.tunnelAddress, t.tunnelPort) + PrintPath(t)
    ensures OrEmpty(Cut(PrintBody(t), '?').1) == Join(PrintParams(t, Order(PARAMS)), '&')
  {
    hide PrintParams, Join, Separable, PrintPath, AddressPort.Print, Cut;
    HostIsHostText(t);
    TargetsArePathText(t);
    var front, kvs := AddressPort.Print(t.tunnelAddress, t.tunnelPort) + PrintPath(t), PrintParams(t, Order(PARAMS));
    if kvs == [] {
      assert PrintBody(t) == front;
      CutAt(front, '?', "");
      EmptyJoin('&');
    } else {
      assert PrintBody(t) == front + ['?'] + Join(kvs, '&');
      CutAt(front, '?', Join(kvs, '&'));
    }
  }

  lemma PathPart(t: Tunnel)
    requires Separable(t)
    ensures var (host, path) := Cut(AddressPort.Print(t.tunnelAddress, t.tunnelPort) + PrintPath(t), '/');
            && host == AddressPort.Print(t.tunnelAddress, t.tunnelPort)
            && OrEmpty(path) == (if PrintPath(t) == "" then "" else Join(Targets(t), ','))
  {
    hide Join, Separable, AddressPort.Print, Cut;
    HostIsHostText(t);
    var host, path := AddressPort.Print(t.tunnelAddress, t.tunnelPort), PrintPath(t);
    if path == "" {
      assert host + path == host;
      CutAt(host, '/', "");
    } else {
      assert host + path == host + ['/'] + Join(Targets(t), ',');
      CutAt(host, '/', Join(Targets(t), ','));
    }
  }

  lemma EmptyJoin(c: char)
    ensures Join([], c) == ""
  {
  }

  lemma HostIsHostText(t: Tunnel)
    requires Separable(t)
    ensures HostText(AddressPort.Print(t.tunnelAddress, t.tunnelPort))
  {
    hide PrintBody;
  }

  /** A separator of the format, which neither an encoded text nor a number ever holds. */
  predicate IsSeparator(c: char) {
    c == '&' || c == '@'
  }

  lemma PrintedValueWithout(t: Tunnel, p: Param, c: char)
    requires IsSeparator(c) && TextsWithout(t, c)
    ensures ValueText(t, p).Some? ==> c !in ValueText(t, p).value
  {
    hide QueryEscape.Escape, Decimal;
    var ps := t.params;
    if p in {Crt, Key, Dial} {
      if ps.certPath.Some? { QueryEscape.EscapedAlphabet(ps.certPath.value); }
      if ps.keyPath.Some? { QueryEscape.EscapedAlphabet(ps.keyPath.value); }
      if ps.dial.Some? { QueryEscape.EscapedAlphabet(ps.dial.value); }
    } else if p in {Min, Max, Mode, Rate, Slot, Type, Block, Lbs} {
      DecimalWithout(ps.min, c);
      DecimalWithout(ps.max, c);
      DecimalWithout(ps.mode, c);
      DecimalWithout(ps.rate, c);
      DecimalWithout(ps.slot, c);
      DecimalWithout(ps.poolType, c);
      DecimalWithout(ps.block, c);
      DecimalWithout(ps.lbs, c);
    }
  }

  lemma DecimalWithout(n: Option<int>, c: char)
    requires IsSeparator(c)
    ensures n.Some? ==> c !in Decimal(n.value)
  {
    if n.Some? { ParseDecimal(n.value); }
  }

  lemma {:induction false} PrintedParamsWithout(t: Tunnel, order: seq<Param>, c: char)
    requires IsSeparator(c) && TextsWithout(t, c)
    ensures forall kv :: kv in PrintParams(t, order) ==> c !in kv
    decreases |order|
  {
    hide TextsWithout, ValueText, NameOf;
    if order != [] {
      PrintedParamsWithout(t, order[..|order| - 1], c);
      ParamOfName(order[|order| - 1]);
      PrintedValueWithout(t, order[|order| - 1], c);
    }
  }

  // ---------------------------------------------------- where an `@` can come from

  lemma {:induction false} JoinHas(parts: seq<string>, sep: char, part: string, c: char)
    requires part in parts && c in part
    ensures c in Join(parts, sep)
    decreases |parts|
  {
    if |parts| > 1 && part != parts[0] {
      JoinHas(parts[1..], sep, part, c);
    }
  }

  lemma {:induction false} PrintedParamHas(t: Tunnel, order: seq<Param>, p: Param)
    requires p in order && ValueText(t, p).Some?
    ensures NameOf(p) + "=" + ValueText(t, p).value in PrintParams(t, order)
    decreases |order|
  {
    hide ValueText, NameOf;
    var n := |order| - 1;
    if order[n] != p {
      PrintedParamHas(t, order[..n], p);
    }
  }

  lemma TextIsPrinted(t: Tunnel, p: Param, c: char)
    requires ValueText(t, p).Some? && c in ValueText(t, p).value
    ensures c in PrintQuery(t)
  {
    hide ValueText, Order, PrintParams, Join, NameOf;
    OrderIsComplete(p);
    PrintedParamHas(t, Order(PARAMS), p);
    var kv := NameOf(p) + "=" + ValueText(t, p).value;
    JoinHas(PrintParams(t, Order(PARAMS)), '&', kv, c);
  }

  lemma QueryHasAtIff(t: Tunnel)
    ensures '@' !in PrintQuery(t) <==> TextsWithout(t, '@')
  {
    hide Order, PrintParams, Join;
    if TextsWithout(t, '@') {
      PrintedParamsWithout(t, Order(PARAMS), '@');
      JoinWithout(PrintParams(t, Order(PARAMS)), '&', '@');
    } else {
      hide PrintQuery;
      if '@' in t.params.logLevel { TextIsPrinted(t, Log, '@'); }
      if t.mode == "server" && '@' in t.params.tlsMode { TextIsPrinted(t, Tls, '@'); }
      if t.params.read.Some? && '@' in t.params.read.value { TextIsPrinted(t, Read, '@'); }
      if t.params.dns.Some? && '@' in t.params.dns.value { TextIsPrinted(t, Dns, '@'); }
      if t.params.sni.Some? && '@' in t.params.sni.value { TextIsPrinted(t, Sni, '@'); }
    }
  }

  lemma PathHasAtIff(t: Tunnel)
    ensures '@' !in PrintPath(t) <==>
            '@' !in t.targetAddress && '@' !in t.targetPort && forall e :: e in Entries(t) ==> '@' !in e
  {
    hide Join;
    if '@' !in t.targetAddress && '@' !in t.targetPort && forall e :: e in Entries(t) ==> '@' !in e {
      JoinWithout(Targets(t), ',', '@');
    } else if '@' in t.targetAddress || '@' in t.targetPort {
      assert Targets(t)[0] in Targets(t);
      JoinHas(Targets(t), ',', Targets(t)[0], '@');
    } else {
      var e :| e in Entries(t) && '@' in e;
      JoinHas(Targets(t), ',', e, '@');
    }
  }

  /** The body of a URL holds an `@` exactly when one of the printed fields does. */
  lemma BodyHasAtIff(t: Tunnel)
    ensures '@' !in PrintBody(t) <==> FreeOfAt(t)
  {
    hide PrintPath, PrintQuery, TextsWithout;
    PathHasAtIff(t);
    QueryHasAtIff(t);
    assert '@' !in AddressPort.Print(t.tunnelAddress, t.tunnelPort) <==>
           '@' !in t.tunnelAddress && '@' !in t.tunnelPort;
  }

  function PrintedQuery(t: Tunnel): Query {
    ReadPairs(t.mode == "server", NOTHING_READ, PrintParams(t, Order(PARAMS)))
  }

  lemma ReadQuery(t: Tunnel)
    requires TextsWithout(t, '&')
    ensures ReadPairs(t.mode == "server", NOTHING_READ, Split(Join(PrintParams(t, Order(PARAMS)), '&'), '&')) ==
            PrintedQuery(t)
  {
    hide TextsWithout, PrintParams, ReadPairs, Join, Split;
    var kvs := PrintParams(t, Order(PARAMS));
    PrintedParamsWithout(t, Order(PARAMS), '&');
    if kvs == [] {
      EmptyJoin('&');
      ReadNothing(t.mode == "server");
    } else {
      SplitJoin(kvs, '&');
    }
  }

  lemma ReadTargets(t: Tunnel)
    requires Separable(t)
    ensures Split(if PrintPath(t) == "" then "" else Join(Targets(t), ','), ',') == Targets(t)
  {
    hide Separable, Join;
    TargetsArePathText(t);
    if PrintPath(t) == "" {
      assert Targets(t) == [""] by { assert "" + "" == ""; }
    } else {
      SplitJoin(Targets(t), ',');
    }
  }

  /** Reading a printed tunnel whose separators are where they belong. */
  lemma ReadPrinted(t: Tunnel)
    requires Separable(t) && KnownMode(t)
    ensures var (tunnelAddress, tunnelPort) := AddressPort.Parse(AddressPort.Print(t.tunnelAddress, t.tunnelPort));
            var (targetAddress, targetPort) := AddressPort.Parse(AddressPort.Print(t.targetAddress, t.targetPort));
            ReadUrl(Printed(t)) ==
            Tunnel(Protocol(t), NonEmpty(t.password), tunnelAddress, tunnelPort, targetAddress, targetPort,
                   if Entries(t) == [] then None else Some(ReadEntries(Entries(t))),
                   ListenTypeOf(PrintedQuery(t).noTcp, PrintedQuery(t).noUdp), PrintedQuery(t).params)
  {
    hide Separable, AddressPort.Parse, AddressPort.Print, PrintParams, ReadPairs, Join, Split, Cut, ReadUrl, Printed,
         ReadAfterScheme, PrintBody, PrintPath, PrintPassword;
    assert match NonEmpty(t.password) case Some(p) => '@' !in p case None => '@' !in PrintBody(t) by {
      PasswordSeparable(t);
    }
    ReadScheme(t);
    ReadPassword(t);
    ProtocolIsMode(t);
    QueryPart(t);
    PathPart(t);
    ReadTargets(t);
    assert TextsWithout(t, '&') by { SeparableTexts(t); }
    ReadQuery(t);
    assert Targets(t)[1..] == Entries(t);
  }

  lemma PasswordSeparable(t: Tunnel)
    requires Separable(t)
    ensures match NonEmpty(t.password) case Some(p) => '@' !in p case None => '@' !in PrintBody(t)
  {
    hide PrintBody, FreeOfAt;
    BodyHasAtIff(t);
  }

  lemma SeparableTexts(t: Tunnel)
    requires Separable(t)
    ensures TextsWithout(t, '&')
  {
  }

  lemma EntriesReadBackIff(entries: seq<string>)
    ensures ReadEntries(entries) == entries <==> forall e :: e in entries ==> AddressPort.Canonical(e)
  {
    hide AddressPort.Parse, AddressPort.PrintEntry, AddressPort.Canonical;
    forall e ensures AddressPort.PrintEntry(AddressPort.Parse(e)) == e <==> AddressPort.Canonical(e) {
      AddressPort.EntryFixedIff(e);
    }
    if forall e :: e in entries ==> AddressPort.Canonical(e) {
      forall i | 0 <= i < |entries| ensures ReadEntries(entries)[i] == entries[i] {
        assert entries[i] in entries;
      }
    } else {
      var i :| 0 <= i < |entries| && !AddressPort.Canonical(entries[i]);
      assert ReadEntries(entries)[i] != entries[i];
    }
  }

  lemma ValuesKnownIff(t: Tunnel)
    ensures (forall p :: ValueKnown(t, p)) <==>
            && ValueKnown(t, Log) && ValueKnown(t, Tls) && ValueKnown(t, Mode)
            && ValueKnown(t, Type) && ValueKnown(t, Block) && ValueKnown(t, Lbs)
  {
  }

  lemma ListenFlagsReadBack(t: Tunnel)
    requires Representable(t)
    ensures PrintedQuery(t).noTcp == Expected(t).noTcp && PrintedQuery(t).noUdp == Expected(t).noUdp
  {
    hide Representable, PrintParams, ReadPairs, ReadBack, Expected, Order;
    OrderIsComplete(NoTcp);
    OrderIsComplete(NoUdp);
    ReadPrintedParams(t, Order(PARAMS), NoTcp);
    ReadPrintedParams(t, Order(PARAMS), NoUdp);
    ReadBackIff(t, NoTcp);
    ReadBackIff(t, NoUdp);
    assert ValueKnown(t, NoTcp) && ValueKnown(t, NoUdp);
  }

  lemma ListenReadsBack(t: Tunnel)
    requires Representable(t)
    ensures ListenTypeOf(PrintedQuery(t).noTcp, PrintedQuery(t).noUdp) == Normalised(t).listenType
    ensures PrintedQuery(t).params == Normalised(t).params <==> PrintedQuery(t) == Expected(t)
  {
    hide Representable, PrintedQuery;
    ListenFlagsReadBack(t);
  }

  lemma TunnelEqualIff(t: Tunnel, tunnel: (string, string), target: (string, string), entries: seq<string>, ps: Params)
    requires |entries| == |Entries(t)|
    ensures Tunnel(Protocol(t), NonEmpty(t.password), tunnel.0, tunnel.1, target.0, target.1,
                   if Entries(t) == [] then None else Some(entries), Normalised(t).listenType, ps) ==
            Normalised(t) <==>
            && tunnel == (t.tunnelAddress, t.tunnelPort) && target == (t.targetAddress, t.targetPort)
            && entries == Entries(t) && ps == Normalised(t).params
  {
  }

  lemma ParamsKnownIff(t: Tunnel)
    requires Representable(t)
    ensures PrintedQuery(t).params == Normalised(t).params <==>
            && ValueKnown(t, Log) && ValueKnown(t, Tls) && ValueKnown(t, Mode)
            && ValueKnown(t, Type) && ValueKnown(t, Block) && ValueKnown(t, Lbs)
  {
    hide Representable, Normalised, Expected, ValueKnown, PrintParams, ReadPairs, Order;
    ListenReadsBack(t);
    QueryReadBackIff(t);
    ValuesKnownIff(t);
  }

  /** With the separators in place, everything else comes back exactly if it is known. */
  lemma SeparableRoundTripIff(t: Tunnel)
    requires Representable(t) && KnownMode(t) && Separable(t)
    ensures ReadUrl(Printed(t)) == Normalised(t) <==> FieldsKnown(t)
  {
    hide Separable, AddressPort.Parse, AddressPort.Print, AddressPort.Printable, AddressPort.Canonical, ReadEntries,
         ReadUrl, Printed, PrintedQuery, ListenTypeOf, IsLogLevel, IsTlsMode, Fits, BytesIn, Normalised, InRange;
    ReadPrinted(t);
    var tunnel := AddressPort.Parse(AddressPort.Print(t.tunnelAddress, t.tunnelPort));
    var target := AddressPort.Parse(AddressPort.Print(t.targetAddress, t.targetPort));
    AddressPort.PrintThenParse(t.tunnelAddress, t.tunnelPort);
    AddressPort.PrintThenParse(t.targetAddress, t.targetPort);
    EntriesReadBackIff(Entries(t));
    ListenReadsBack(t);
    ParamsKnownIff(t);
    ReadEntriesLength(Entries(t));
    TunnelEqualIff(t, tunnel, target, ReadEntries(Entries(t)), PrintedQuery(t).params);
  }

  lemma ReadEntriesLength(entries: seq<string>)
    ensures |ReadEntries(entries)| == |entries|
  {
  }

  // ------------------------------------------------- what reading can never return

  lemma CutPieces(s: string, c: char, x: char)
    ensures c !in Cut(s, c).0
    ensures x !in s ==> x !in Cut(s, c).0 && x !in OrEmpty(Cut(s, c).1)
  {
  }

  lemma {:induction false} SplitWithout(s: string, sep: char, x: char)
    requires x !in s
    ensures forall p :: p in Split(s, sep) ==> x !in p
    decreases |s|
  {
    var i := IndexOf(s, sep);
    if i >= 0 {
      assert forall c :: c in s[i + 1..] ==> c in s;
      SplitWithout(s[i + 1..], sep, x);
    }
  }

  predicate CanBeRead(ps: Params) {
    && PlainText(ps.read) && PlainText(ps.dns) && PlainText(ps.sni)
    && (ps.logLevel == "" || IsLogLevel(ps.logLevel)) && (ps.tlsMode == "" || IsTlsMode(ps.tlsMode))
  }

  lemma SetParamKeeps(server: bool, q: Query, p: Param, val: string)
    requires CanBeRead(q.params) && '&' !in val
    ensures CanBeRead(SetParam(server, q, p, val).params)
  {
    hide ParseInt64, ParseMode, ToLower, IsLogLevel;
    if p != Log {
      LogOnlyByLog(server, q, p, val);
    }
  }

  lemma LogOnlyByLog(server: bool, q: Query, p: Param, val: string)
    requires p != Log
    ensures SetParam(server, q, p, val).params.logLevel == q.params.logLevel
  {
    SetParamFrame(server, q, p, val, Log);
  }

  lemma {:induction false} ReadPairsRange(server: bool, kvs: seq<string>)
    requires forall kv :: kv in kvs ==> '&' !in kv
    ensures CanBeRead(ReadPairs(server, NOTHING_READ, kvs).params)
    decreases |kvs|
  {
    hide SetParam, CanBeRead, ParamOf;
    if kvs == [] {
      NothingCanBeRead();
    } else {
      var before, kv := ReadPairs(server, NOTHING_READ, kvs[..|kvs| - 1]), kvs[|kvs| - 1];
      ReadPairsRange(server, kvs[..|kvs| - 1]);
      assert kv in kvs;
      var eq := IndexOf(kv, '=');
      if eq >= 0 && ParamOf(kv[..eq]).Some? {
        SetParamKeeps(server, before, ParamOf(kv[..eq]).value, kv[eq + 1..]);
      }
    }
  }

  lemma NothingCanBeRead()
    ensures CanBeRead(NO_PARAMS)
  {
  }

  predicate CanBeReadTunnel(t: Tunnel) {
    && HostText(t.tunnelAddress) && HostText(t.tunnelPort)
    && PathText(t.targetAddress) && PathText(t.targetPort)
    && (forall e :: e in Entries(t) ==> PathText(e))
    && CanBeRead(t.params)
  }

  lemma ParseKeepsOut(s: string, c: char)
    requires c !in s
    ensures c !in AddressPort.Parse(s).0 && c !in AddressPort.Parse(s).1
  {
    hide AddressPort.Parse;
    if c in AddressPort.Parse(s).0 || c in AddressPort.Parse(s).1 {
      AddressPort.ParsedCharacters(s, c);
    }
  }

  lemma EntriesKeepOut(pieces: seq<string>, c: char)
    requires c != ':' && forall p :: p in pieces ==> c !in p
    ensures forall e :: e in ReadEntries(pieces) ==> c !in e
  {
    hide AddressPort.Parse;
    forall i | 0 <= i < |pieces| ensures c !in ReadEntries(pieces)[i] {
      assert pieces[i] in pieces;
      ParseKeepsOut(pieces[i], c);
    }
  }

  lemma TargetsRange(path: string)
    requires '?' !in path
    ensures var pieces := Split(path, ',');
            && pieces != [] && (forall p :: p in pieces ==> PathText(p))
            && PathText(AddressPort.Parse(pieces[0]).0) && PathText(AddressPort.Parse(pieces[0]).1)
            && (forall e :: e in ReadEntries(pieces[1..]) ==> PathText(e))
  {
    hide AddressPort.Parse, ReadEntries, Split;
    var pieces := Split(path, ',');
    SplitPieces(path, ',');
    SplitWithout(path, ',', '?');
    assert pieces[0] in pieces;
    ParseKeepsOut(pieces[0], '?');
    ParseKeepsOut(pieces[0], ',');
    EntriesKeepOut(pieces[1..], '?');
    EntriesKeepOut(pieces[1..], ',');
  }

  /** Whatever the text, no field comes out with a character its place cannot hold. */
  lemma ReadBodyRange(mode: string, password: Option<string>, body: string)
    ensures CanBeReadTunnel(ReadBody(mode, password, body))
    ensures ReadBody(mode, password, body).password == password
  {
    hide AddressPort.Parse, ReadEntries, Split, ReadPairs, CanBeRead, Cut, ListenTypeOf;
    var (front, query) := Cut(body, '?');
    CutPieces(body, '?', '?');
    var (host, path) := Cut(front, '/');
    CutPieces(front, '/', '?');
    ParseKeepsOut(host, '?');
    ParseKeepsOut(host, '/');
    TargetsRange(OrEmpty(path));
    SplitPieces(OrEmpty(query), '&');
    ReadPairsRange(mode == "server", Split(OrEmpty(query), '&'));
  }

  lemma ReadAfterSchemeRange(mode: string, rest: string)
    ensures var t := ReadAfterScheme(mode, rest);
            && CanBeReadTunnel(t)
            && (t.password.Some? ==> t.password.value != "" && '@' !in t.password.value)
            && (t.password.None? ==> '@' !in rest || rest[0] == '@')
  {
    hide ReadBody, CanBeReadTunnel;
    var at := IndexOf(rest, '@');
    ReadBodyRange(mode, None, rest);
    if at >= 0 {
      ReadBodyRange(mode, if at == 0 then None else Some(rest[..at]), rest[at + 1..]);
    }
  }

  /** A tunnel without password whose body opens with `@` loses that character for good. */
  lemma LeadingAtIsLost(t: Tunnel)
    requires HostText(t.tunnelAddress) && HostText(t.tunnelPort)
    requires PrintBody(t) != "" && PrintBody(t)[0] == '@'
    ensures var r := ReadAfterScheme(Protocol(t), PrintBody(t));
            (r.tunnelAddress, r.tunnelPort) != (t.tunnelAddress, t.tunnelPort)
  {
    hide AddressPort.Parse, PrintQuery, PrintPath, Cut, IndexOf, ReadEntries, ReadPairs, Split;
    var host := AddressPort.Print(t.tunnelAddress, t.tunnelPort);
    var rest := PrintPath(t) + PrintQuery(t);
    PathAndQueryStart(t);
    var body := PrintBody(t);
    assert body == host + rest;
    assert host != "" && host[0] == '@';
    assert body[1..] == host[1..] + rest;
    assert HostText(host[1..]);
    HostPart(host[1..], rest);
    AddressPort.ParseShape(host[1..]);
    assert IndexOf(body, '@') == 0;
  }

  lemma PathAndQueryStart(t: Tunnel)
    ensures var rest := PrintPath(t) + PrintQuery(t); rest == "" || rest[0] == '/' || rest[0] == '?'
  {
    hide Join, PrintParams;
  }

  lemma ReadBackIsSeparable(t: Tunnel)
    requires KnownMode(t) && ReadUrl(Printed(t)) == Normalised(t)
    ensures Separable(t)
  {
    hide PrintBody, ReadAfterScheme, Printed, ReadUrl, CanBeRead, FreeOfAt, TextsWithout;
    ReadScheme(t);
    ReadAfterSchemeRange(Protocol(t), PrintPassword(t) + PrintBody(t));
    assert CanBeReadTunnel(Normalised(t));
    NormalisedRange(t);
    if NonEmpty(t.password).None? {
      assert PrintPassword(t) + PrintBody(t) == PrintBody(t);
      if '@' in PrintBody(t) {
        LeadingAtIsLost(t);
      }
      BodyHasAtIff(t);
    }
  }

  /** Only the two known modes, or none, can be read. */
  lemma ReadModes(url: string)
    ensures KnownMode(ReadUrl(url))
  {
    hide ReadBody, SchemeEnd, IndexOf;
    var i := SchemeEnd(url);
    var mode := if i != -1 && IsMode(url[..i]) then url[..i] else "";
    var rest := if i == -1 then url else url[i + 3..];
    ReadKeepsMode(mode, rest);
  }

  lemma ReadKeepsMode(mode: string, rest: string)
    ensures ReadAfterScheme(mode, rest).mode == mode
  {
    hide IndexOf, ReadPairs, ReadEntries, AddressPort.Parse, Split, Cut;
  }

  lemma NormalisedRange(t: Tunnel)
    requires CanBeReadTunnel(Normalised(t))
    ensures HostText(t.tunnelAddress) && HostText(t.tunnelPort) && PathText(t.targetAddress) && PathText(t.targetPort)
    ensures forall e :: e in Entries(t) ==> PathText(e)
    ensures TextsWithout(t, '&')
  {
  }

  // ------------------------------------------------------------------ the theorems

  /** Building a URL and parsing it gives the tunnel back, in its normal form, exactly
      when the tunnel is well-formed. */
  lemma RoundTripIff(t: Tunnel)
    requires Representable(t)
    ensures ReadUrl(Printed(t)) == Normalised(t) <==> WellFormed(t)
  {
    hide Representable, Separable, FieldsKnown, Normalised, ReadUrl, Printed;
    if !KnownMode(t) {
      ReadModes(Printed(t));
      assert Normalised(t).mode == t.mode by { NormalisedMode(t); }
    } else if Separable(t) {
      SeparableRoundTripIff(t);
    } else if ReadUrl(Printed(t)) == Normalised(t) {
      ReadBackIsSeparable(t);
    }
  }

  lemma NormalisedMode(t: Tunnel)
    ensures t.mode != "" ==> Normalised(t).mode == t.mode
  {
  }

  /** Hence two well-formed tunnels with the same URL agree on everything it carries. */
  lemma PrintedInjective(a: Tunnel, b: Tunnel)
    requires Representable(a) && Representable(b) && WellFormed(a) && WellFormed(b)
    requires Printed(a) == Printed(b)
    ensures Normalised(a) == Normalised(b)
  {
    hide Representable, WellFormed, Normalised, ReadUrl, Printed;
    RoundTripIff(a);
    RoundTripIff(b);
  }

  /** The plainest tunnel that does not survive: a password with an `@` in it. */
  lemma PasswordWithAtIsCut()
    ensures var t := Tunnel("client", Some("a@b"), "", "8080", "", "", None, None, NO_PARAMS);
            Representable(t) && ReadUrl(Printed(t)) != Normalised(t)
  {
    hide ReadUrl, Printed, PrintBody;
    var t := Tunnel("client", Some("a@b"), "", "8080", "", "", None, None, NO_PARAMS);
    assert "a@b"[1] == '@';
    RoundTripIff(t);
  }
}
