/** What the parser makes of any URL, in terms of its text: which part becomes which field. */
module TunnelUrlReading {
  import opened Options
  import opened Text
  import opened TunnelUrl
  import opened TunnelUrlProofs
  import AddressPort

  // -------------------------------------------------------------- values in a query

  predicate Gives(kv: string, name: string) {
    name + "=" <= kv
  }

  /** The last value that the pairs give for a name. */
  function LastValue(pairs: seq<string>, name: string): Option<string> {
    if pairs == [] then None
    else
      var kv := pairs[|pairs| - 1];
      if Gives(kv, name) then Some(kv[|name| + 1..]) else LastValue(pairs[..|pairs| - 1], name)
  }

  /** The last one among those that are acceptable. */
  function LastAccepted(pairs: seq<string>, name: string, accepted: string -> bool): Option<string> {
    if pairs == [] then None
    else
      var kv := pairs[|pairs| - 1];
      if Gives(kv, name) && accepted(kv[|name| + 1..]) then Some(kv[|name| + 1..])
      else LastAccepted(pairs[..|pairs| - 1], name, accepted)
  }

  predicate NotEmpty(v: string) { v != "" }

  predicate Flag(v: string) { v == "0" || v == "1" }

  predicate UpToTwo(v: string) { v == "0" || v == "1" || v == "2" }

  predicate Number(v: string) { ParseInt64(v).Some? }

  predicate NumberUpTo2(v: string) { ParseInt64(v) in {Some(0), Some(1), Some(2)} }

  predicate NumberUpTo3(v: string) { ParseInt64(v) in {Some(0), Some(1), Some(2), Some(3)} }

  function NumberOf(v: Option<string>): Option<int> {
    match v case Some(s) => ParseInt64(s) case None => None
  }

  function DecodedValue(v: Option<string>): Option<string> {
    match v case Some(s) => Some(Decoded(s)) case None => None
  }

  /** A log level in any case; anything else stands for "inherit". */
  function LevelOf(v: Option<string>): string {
    match v
    case Some(s) =>
      if ToLower(s) in {"debug", "info", "warn", "error", "event", "none"} then ToLower(s) else ""
    case None => ""
  }

  /** What each parameter is, given the pairs of the query. */
  function Expected(server: bool, pairs: seq<string>, p: Param): Cell {
    match p
    case Log => TextCell(Some(LevelOf(LastValue(pairs, "log"))))
    case Tls => TextCell(Some(if server then OrEmpty(LastAccepted(pairs, "tls", UpToTwo)) else ""))
    case Crt => TextCell(DecodedValue(LastValue(pairs, "crt")))
    case Key => TextCell(DecodedValue(LastValue(pairs, "key")))
    case Min => IntCell(NumberOf(LastAccepted(pairs, "min", Number)))
    case Max => IntCell(NumberOf(LastAccepted(pairs, "max", Number)))
    case Mode => IntCell(NumberOf(LastAccepted(pairs, "mode", UpToTwo)))
    case Read => TextCell(LastAccepted(pairs, "read", NotEmpty))
    case Rate => IntCell(NumberOf(LastAccepted(pairs, "rate", Number)))
    case Slot => IntCell(NumberOf(LastAccepted(pairs, "slot", Number)))
    case Dial => TextCell(DecodedValue(LastValue(pairs, "dial")))
    case Dns => TextCell(LastValue(pairs, "dns"))
    case Type => IntCell(NumberOf(LastAccepted(pairs, "type", NumberUpTo3)))
    case Sni => TextCell(LastValue(pairs, "sni"))
    case Block => IntCell(NumberOf(LastAccepted(pairs, "block", NumberUpTo3)))
    case Lbs => IntCell(NumberOf(LastAccepted(pairs, "lbs", NumberUpTo2)))
    case Proxy =>
      FlagCell(match LastAccepted(pairs, "proxy", Flag) { case Some(v) => Some(v == "1") case None => None })
    case NoTcp => TextCell(LastValue(pairs, "notcp"))
    case NoUdp => TextCell(LastValue(pairs, "noudp"))
  }

  lemma ParamOfIff(key: string, p: Param)
    ensures ParamOf(key) == Some(p) <==> key == NameOf(p)
  {
    hide ParamOf, NameOf;
    ParamOfName(p);
    KnownName(key);
  }

  lemma KnownName(key: string)
    ensures ParamOf(key).Some? ==> key == NameOf(ParamOf(key).value)
  {
  }

  /** A pair is for a parameter exactly when it starts with its name and `=`. */
  lemma PairIsFor(kv: string, p: Param)
    ensures Gives(kv, NameOf(p)) <==> IndexOf(kv, '=') != -1 && ParamOf(kv[..IndexOf(kv, '=')]) == Some(p)
    ensures Gives(kv, NameOf(p)) ==> IndexOf(kv, '=') == |NameOf(p)|
  {
    hide ParamOf, NameOf, IndexOf;
    var name, eq := NameOf(p), IndexOf(kv, '=');
    NameWithoutSeparators(p);
    if eq != -1 {
      ParamOfIff(kv[..eq], p);
      assert kv == kv[..eq] + "=" + kv[eq + 1..];
    }
    if Gives(kv, name) {
      assert kv == name + ['='] + kv[|name| + 1..];
      IndexOfFirst(name, '=', kv[|name| + 1..]);
    }
  }

  lemma Snoc(pairs: seq<string>, kv: string, name: string, accepted: string -> bool)
    ensures LastValue(pairs + [kv], name) ==
            if Gives(kv, name) then Some(kv[|name| + 1..]) else LastValue(pairs, name)
    ensures LastAccepted(pairs + [kv], name, accepted) ==
            if Gives(kv, name) && accepted(kv[|name| + 1..]) then Some(kv[|name| + 1..])
            else LastAccepted(pairs, name, accepted)
  {
    assert (pairs + [kv])[..|pairs|] == pairs;
  }

  /** A pair for another parameter, or for none, changes nothing. */
  lemma OtherPair(server: bool, pairs: seq<string>, kv: string, p: Param)
    requires !Gives(kv, NameOf(p))
    ensures Expected(server, pairs + [kv], p) == Expected(server, pairs, p)
  {
    hide LastValue, LastAccepted, Gives, ParseInt64, Decoded, ToLower;
    Snoc(pairs, kv, NameOf(p), UpToTwo);
    Snoc(pairs, kv, NameOf(p), Number);
    Snoc(pairs, kv, NameOf(p), NotEmpty);
    Snoc(pairs, kv, NameOf(p), NumberUpTo2);
    Snoc(pairs, kv, NameOf(p), NumberUpTo3);
    Snoc(pairs, kv, NameOf(p), Flag);
  }

  /** A pair for the parameter: what it is from then on. */
  lemma OwnPair(server: bool, q: Query, pairs: seq<string>, kv: string, p: Param)
    requires Gives(kv, NameOf(p)) && CellOf(q, p) == Expected(server, pairs, p)
    ensures CellOf(SetParam(server, q, p, kv[|NameOf(p)| + 1..]), p) == Expected(server, pairs + [kv], p)
  {
    hide LastValue, LastAccepted, Gives, ParseInt64, Decoded, ToLower;
    Snoc(pairs, kv, NameOf(p), UpToTwo);
    Snoc(pairs, kv, NameOf(p), Number);
    Snoc(pairs, kv, NameOf(p), NotEmpty);
    Snoc(pairs, kv, NameOf(p), NumberUpTo2);
    Snoc(pairs, kv, NameOf(p), NumberUpTo3);
    Snoc(pairs, kv, NameOf(p), Flag);
    SmallNumbers();
  }

  lemma SmallNumbers()
    ensures ParseInt64("0") == Some(0) && ParseInt64("1") == Some(1) && ParseInt64("2") == Some(2)
  {
    ParseDecimal(0);
    ParseDecimal(1);
    ParseDecimal(2);
  }

  /** The whole query, parameter by parameter: whatever pairs there are, in whatever order. */
  lemma {:induction false} QueryIsRead(server: bool, pairs: seq<string>, p: Param)
    ensures CellOf(ReadPairs(server, NOTHING_READ, pairs), p) == Expected(server, pairs, p)
    decreases |pairs|
  {
    hide SetParam, CellOf, Expected, ParamOf, IndexOf, Gives, NameOf;
    if pairs == [] {
      NothingExpected(server, p);
    } else {
      var front, kv := pairs[..|pairs| - 1], pairs[|pairs| - 1];
      assert pairs == front + [kv];
      var q := ReadPairs(server, NOTHING_READ, front);
      QueryIsRead(server, front, p);
      PairIsFor(kv, p);
      if Gives(kv, NameOf(p)) {
        OwnPair(server, q, front, kv, p);
      } else {
        OtherPair(server, front, kv, p);
        var eq := IndexOf(kv, '=');
        if eq != -1 && ParamOf(kv[..eq]).Some? {
          SetParamFrame(server, q, ParamOf(kv[..eq]).value, kv[eq + 1..], p);
        }
      }
    }
  }

  lemma NothingExpected(server: bool, p: Param)
    ensures CellOf(NOTHING_READ, p) == Expected(server, [], p)
    ensures ReadPairs(server, NOTHING_READ, []) == NOTHING_READ
  {
  }

  // ------------------------------------------------------------------ the whole URL

  /** A URL in pieces. */
  datatype Parts = Parts(
    scheme: Option<string>, user: Option<string>, host: string, path: Option<string>, query: Option<string>)

  function Following(mark: string, v: Option<string>): string {
    match v case Some(s) => mark + s case None => ""
  }

  function Front(u: Parts): string {
    u.host + Following("/", u.path)
  }

  function Body(u: Parts): string {
    Front(u) + Following("?", u.query)
  }

  function AfterScheme(u: Parts): string {
    match u.user case Some(s) => s + "@" + Body(u) case None => Body(u)
  }

  function TextOf(u: Parts): string {
    match u.scheme case Some(s) => s + "://" + AfterScheme(u) case None => AfterScheme(u)
  }

  function ModeOf(u: Parts): string {
    if u.scheme == Some("client") then "client" else if u.scheme == Some("server") then "server" else ""
  }

  predicate MarkAt(s: string, i: int) {
    0 <= i && i + 3 <= |s| && s[i] == ':' && s[i + 1] == '/' && s[i + 2] == '/'
  }

  predicate NoMarkBefore(s: string, n: int) {
    forall i :: 0 <= i < n ==> !MarkAt(s, i)
  }

  predicate UserIsFirst(u: Parts) {
    match u.user case Some(s) => '@' !in s case None => '@' !in Body(u)
  }

  /** Every separator is the first of its kind from where it counts, or there is none. */
  predicate Unambiguous(u: Parts) {
    && NoMarkBefore(TextOf(u), match u.scheme case Some(s) => |s| case None => |TextOf(u)|)
    && UserIsFirst(u)
    && '?' !in Front(u)
    && '/' !in u.host
  }

  lemma {:induction false} SchemeEndIs(s: string, n: nat)
    requires NoMarkBefore(s, n)
    ensures MarkAt(s, n) ==> SchemeEnd(s) == n
    ensures n == |s| ==> SchemeEnd(s) == -1
    decreases |s|
  {
    FirstMark(s);
    if 3 <= |s| && n > 0 {
      assert !MarkAt(s, 0);
      assert NoMarkBefore(s[1..], n - 1) by {
        forall i | 0 <= i < n - 1 ensures !MarkAt(s[1..], i) {
          assert MarkAt(s[1..], i) == MarkAt(s, i + 1);
        }
      }
      assert MarkAt(s[1..], n - 1) == MarkAt(s, n);
      SchemeEndIs(s[1..], n - 1);
    }
  }

  lemma FirstMark(s: string)
    ensures SchemeEnd(s) == if |s| < 3 then -1 else if MarkAt(s, 0) then 0
                            else if SchemeEnd(s[1..]) == -1 then -1 else SchemeEnd(s[1..]) + 1
  {
    if 3 <= |s| {
      assert s[..3] == [s[0], s[1], s[2]];
    }
  }

  lemma WithScheme(s: string, rest: string)
    requires NoMarkBefore(s + "://" + rest, |s|)
    ensures ReadUrl(s + "://" + rest) ==
            ReadAfterScheme(if s == "client" || s == "server" then s else "", rest)
  {
    hide ReadAfterScheme, SchemeEnd, NoMarkBefore, MarkAt;
    TextAfterMark(s, rest);
    SchemeEndIs(s + "://" + rest, |s|);
  }

  lemma WithoutScheme(text: string)
    requires NoMarkBefore(text, |text|)
    ensures ReadUrl(text) == ReadAfterScheme("", text)
  {
    hide ReadAfterScheme, SchemeEnd, NoMarkBefore, MarkAt;
    SchemeEndIs(text, |text|);
  }

  lemma SchemeOf(u: Parts)
    requires Unambiguous(u)
    ensures ReadUrl(TextOf(u)) == ReadAfterScheme(ModeOf(u), AfterScheme(u))
  {
    hide ReadAfterScheme, AfterScheme, ReadUrl, NoMarkBefore, Body, Front;
    match u.scheme {
      case Some(s) => WithScheme(s, AfterScheme(u));
      case None => WithoutScheme(AfterScheme(u));
    }
  }

  lemma TextAfterMark(s: string, rest: string)
    ensures var text := s + "://" + rest;
            MarkAt(text, |s|) && text[..|s|] == s && text[|s| + 3..] == rest
  {
  }

  lemma UserOf(u: Parts, mode: string)
    requires Unambiguous(u)
    ensures ReadAfterScheme(mode, AfterScheme(u)) == ReadBody(mode, if u.user == Some("") then None else u.user, Body(u))
  {
    hide ReadBody, Body, IndexOf, NoMarkBefore, Front;
    match u.user {
      case Some(s) =>
        assert AfterScheme(u) == s + ['@'] + Body(u);
        IndexOfFirst(s, '@', Body(u));
      case None =>
        assert AfterScheme(u) == Body(u);
    }
  }

  lemma CutFollowing(front: string, mark: char, rest: Option<string>)
    requires mark !in front
    ensures Cut(front + Following([mark], rest), mark) == (front, rest)
  {
    hide IndexOf;
    match rest {
      case Some(s) =>
        assert front + Following([mark], rest) == front + [mark] + s;
        IndexOfFirst(front, mark, s);
      case None =>
        assert front + Following([mark], rest) == front;
    }
  }

  lemma BodyIsCut(u: Parts)
    requires Unambiguous(u)
    ensures Cut(Body(u), '?') == (Front(u), u.query) && Cut(Front(u), '/') == (u.host, u.path)
  {
    hide Cut, NoMarkBefore;
    CutFollowing(Front(u), '?', u.query);
    CutFollowing(u.host, '/', u.path);
  }

  /** Every URL has such parts. */
  lemma HasParts(url: string) returns (u: Parts)
    ensures TextOf(u) == url && Unambiguous(u)
  {
    hide SchemeEnd, NoMarkBefore, Body, Front, AfterScheme;
    var i := SchemeEnd(url);
    SchemeEndIsFirst(url);
    var rest := if i == -1 then url else url[i + 3..];
    var bare := UserParts(rest);
    u := bare.(scheme := if i == -1 then None else Some(url[..i]));
    SameBody(u, bare);
    if i != -1 {
      assert url == url[..i] + "://" + rest;
    }
    assert TextOf(u) == url;
  }

  lemma UserParts(rest: string) returns (u: Parts)
    ensures AfterScheme(u) == rest && UserIsFirst(u) && '?' !in Front(u) && '/' !in u.host && u.scheme == None
  {
    hide IndexOf, Body, Front;
    var at := IndexOf(rest, '@');
    var bare := BodyParts(if at == -1 then rest else rest[at + 1..]);
    u := bare.(user := if at == -1 then None else Some(rest[..at]));
    SameBody(u, bare);
    if at != -1 {
      assert rest == rest[..at] + "@" + rest[at + 1..];
    }
  }

  lemma SameBody(a: Parts, b: Parts)
    requires a.host == b.host && a.path == b.path && a.query == b.query
    ensures Body(a) == Body(b) && Front(a) == Front(b)
    ensures a.user == b.user ==> AfterScheme(a) == AfterScheme(b) && UserIsFirst(a) == UserIsFirst(b)
  {
  }

  lemma BodyParts(body: string) returns (u: Parts)
    ensures Body(u) == body && '?' !in Front(u) && '/' !in u.host && u.user == None && u.scheme == None
  {
    hide Cut;
    var (front, query) := Cut(body, '?');
    var (host, path) := Cut(front, '/');
    CutTogether(body, '?');
    CutTogether(front, '/');
    u := Parts(None, None, host, path, query);
  }

  lemma CutTogether(s: string, mark: char)
    ensures var (front, rest) := Cut(s, mark); front + Following([mark], rest) == s && mark !in front
  {
    hide IndexOf;
    var i := IndexOf(s, mark);
    if i != -1 {
      assert s == s[..i] + ([mark] + s[i + 1..]);
    } else {
      assert s + "" == s;
    }
  }

  lemma {:induction false} SchemeEndIsFirst(s: string)
    ensures NoMarkBefore(s, if SchemeEnd(s) == -1 then |s| else SchemeEnd(s))
    decreases |s|
  {
    hide SchemeEnd;
    FirstMark(s);
    if 3 <= |s| && !MarkAt(s, 0) {
      SchemeEndIsFirst(s[1..]);
      forall i | 0 <= i < (if SchemeEnd(s) == -1 then |s| else SchemeEnd(s))
        ensures !MarkAt(s, i) {
        if i > 0 {
          assert !MarkAt(s[1..], i - 1);
        }
      }
    }
  }

  /** The pairs of the query. */
  function Pairs(u: Parts): seq<string> {
    Split(OrEmpty(u.query), '&')
  }

  lemma BodyIsRead(u: Parts)
    requires Unambiguous(u)
    ensures ReadUrl(TextOf(u)) == ReadBody(ModeOf(u), if u.user == Some("") then None else u.user, Body(u))
    ensures Cut(Body(u), '?') == (Front(u), u.query) && Cut(Front(u), '/') == (u.host, u.path)
  {
    hide ReadUrl, ReadAfterScheme, ReadBody, Unambiguous, TextOf, AfterScheme, Body, Front, Cut;
    SchemeOf(u);
    UserOf(u, ModeOf(u));
    BodyIsCut(u);
  }

  lemma EntriesAreRead(targets: seq<string>, i: nat)
    requires i + 1 < |targets|
    ensures var (address, port) := AddressPort.Parse(targets[i + 1]);
            |ReadEntries(targets[1..])| == |targets| - 1 && ReadEntries(targets[1..])[i] == address + ":" + port
  {
    hide AddressPort.Parse;
  }

  /** The parser, on any URL: mode, password, tunnel and targets are read from their parts. */
  lemma UrlIsRead(u: Parts)
    requires Unambiguous(u)
    ensures var t := ReadUrl(TextOf(u));
            var targets := Split(OrEmpty(u.path), ',');
            && t.mode == ModeOf(u)
            && t.password == (if u.user == Some("") then None else u.user)
            && (t.tunnelAddress, t.tunnelPort) == AddressPort.Parse(u.host)
            && |targets| > 0 && (t.targetAddress, t.targetPort) == AddressPort.Parse(targets[0])
            && (t.extendTargets.None? <==> |targets| == 1)
            && (t.extendTargets.Some? ==>
                  && |t.extendTargets.value| == |targets| - 1
                  && forall i :: 0 <= i < |targets| - 1 ==>
                       var (address, port) := AddressPort.Parse(targets[i + 1]);
                       t.extendTargets.value[i] == address + ":" + port)
  {
    hide ReadPairs, Split, AddressPort.Parse, Unambiguous, TextOf, Body, Front, ListenTypeOf, ReadUrl, Cut, ReadEntries;
    BodyIsRead(u);
    SplitPieces(OrEmpty(u.path), ',');
    var targets := Split(OrEmpty(u.path), ',');
    if |targets| > 1 {
      EntriesAreRead(targets, 0);
      forall i | 0 <= i < |targets| - 1
        ensures var (address, port) := AddressPort.Parse(targets[i + 1]);
                ReadEntries(targets[1..])[i] == address + ":" + port {
        EntriesAreRead(targets, i);
      }
    }
  }

  /** And every parameter is read from the values that the query gives for it. */
  lemma ParametersAreRead(u: Parts, p: Param)
    requires Unambiguous(u) && p != NoTcp && p != NoUdp
    ensures CellOf(Query(ReadUrl(TextOf(u)).params, None, None), p) == Expected(ModeOf(u) == "server", Pairs(u), p)
  {
    hide ReadPairs, Split, AddressPort.Parse, Unambiguous, TextOf, Body, Front, ListenTypeOf, ReadUrl, Cut,
         ReadEntries, Expected;
    BodyIsRead(u);
    QueryIsRead(ModeOf(u) == "server", Pairs(u), p);
  }

  /** A transport counts as disabled exactly when its flag is there with "1" as its last value; with neither flag
      there is no listen type, and otherwise it names the transports that are left. */
  lemma ListenTypeIsRead(u: Parts)
    requires Unambiguous(u)
    ensures var listenType := ReadUrl(TextOf(u)).listenType;
            var noTcp, noUdp := LastValue(Pairs(u), "notcp"), LastValue(Pairs(u), "noudp");
            && (noTcp.None? && noUdp.None? ==> listenType == None)
            && (noTcp.Some? || noUdp.Some? ==>
                  && (listenType == Some("ALL") <==> noTcp != Some("1") && noUdp != Some("1"))
                  && (listenType == Some("TCP") <==> noTcp != Some("1") && noUdp == Some("1"))
                  && (listenType == Some("UDP") <==> noTcp == Some("1") && noUdp != Some("1"))
                  && (listenType == None <==> noTcp == Some("1") && noUdp == Some("1")))
  {
    hide ReadPairs, Split, AddressPort.Parse, Unambiguous, TextOf, Body, Front, ReadUrl, Cut, ReadEntries, LastValue;
    BodyIsRead(u);
    QueryIsRead(ModeOf(u) == "server", Pairs(u), NoTcp);
    QueryIsRead(ModeOf(u) == "server", Pairs(u), NoUdp);
  }
}
