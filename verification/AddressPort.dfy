/** The `addr:port` fragments of a tunnel URL, including IPv6 literals. */
module AddressPort {
  import opened Options
  import opened Text

  predicate ValidPort(s: string) {
    var n := ParseInt64(s);
    n.Some? && 0 < n.value <= 65535
  }

  function Count(s: string, c: char): nat {
    if s == [] then 0 else (if s[0] == c then 1 else 0) + Count(s[1..], c)
  }

  function LastIndexOf(s: string, c: char): (i: int)
    ensures -1 <= i < |s|
    ensures i == -1 <==> c !in s
    ensures i >= 0 ==> s[i] == c && c !in s[i + 1..]
  {
    if s == [] then -1
    else
      var n := |s| - 1;
      assert s == s[..n] + [s[n]];
      if s[n] == c then n
      else
        var i := LastIndexOf(s[..n], c);
        assert i >= 0 ==> s[i + 1..] == s[..n][i + 1..] + [s[n]];
        i
  }

  /** The text after the last colon is a port number. */
  predicate EndsInPort(s: string) {
    var i := LastIndexOf(s, ':');
    0 <= i < |s| - 1 && ValidPort(s[i + 1..])
  }

  predicate Bracketed(s: string) {
    s != [] && s[0] == '[' && ']' in s
  }

  function Parse(text: string): (string, string) {
    ParsePart(TrimSpace(text))
  }

  function ParsePart(part: string): (string, string) {
    if part == [] then ("", "")
    else if part[0] == ':' then ("", part[1..])
    else if Bracketed(part) then
      var end := IndexOf(part, ']');
      (part[..end + 1], if |part| > end + 1 && part[end + 1] == ':' then part[end + 2..] else "")
    else if ':' in part then
      // a "::" has two colons, so the count alone decides
      if Count(part, ':') > 1 then
        var last := LastIndexOf(part, ':');
        if last < |part| - 1 && ValidPort(part[last + 1..])
        then (part[..last], part[last + 1..]) else (part, "")
      else
        var i := IndexOf(part, ':');
        (part[..i], part[i + 1..])
    else if ParseInt64(part).Some? then ("", part)
    else (part, "")
  }

  function Print(addr: string, port: string): string {
    addr + if port == "" then "" else ":" + port
  }

  /** How an entry of the extended target list is stored. */
  function PrintEntry(ap: (string, string)): string {
    ap.0 + ":" + ap.1
  }

  /** The pairs that survive: port only, a bracketed literal, a name or IPv4 address with
      or without a port, an unbracketed IPv6 literal with a real port, or one whose last
      group is not a port number. */
  predicate Printable(addr: string, port: string) {
    if addr == "" then port == "" || !IsSpace(port[|port| - 1])
    else
      && Trimmed(Print(addr, port))
      && addr[0] != ':'
      && if Bracketed(Print(addr, port)) then IndexOf(addr, ']') == |addr| - 1
         else if port == "" then
           if ':' in addr then Count(addr, ':') > 1 && !EndsInPort(addr) else ParseInt64(addr).None?
         else ':' !in port && (':' in addr ==> ValidPort(port))
  }

  /** The entries that are stored as they were written. */
  predicate Canonical(e: string) {
    && e != "" && Trimmed(e)
    && (e[0] == ':'
        || if Bracketed(e) then IndexOf(e, ']') + 1 < |e| && e[IndexOf(e, ']') + 1] == ':'
           else ':' in e && (Count(e, ':') == 1 || EndsInPort(e)))
  }

  lemma {:induction false} CountConcat(a: string, b: string, c: char)
    ensures Count(a + b, c) == Count(a, c) + Count(b, c)
    decreases |a|
  {
    if a == [] {
      assert a + b == b;
    } else {
      assert (a + b)[1..] == a[1..] + b;
      CountConcat(a[1..], b, c);
    }
  }

  lemma {:induction false} CountZero(s: string, c: char)
    ensures Count(s, c) == 0 <==> c !in s
    decreases |s|
  {
    if s != [] {
      CountZero(s[1..], c);
      assert s == [s[0]] + s[1..];
    }
  }

  lemma CountPrint(addr: string, port: string)
    requires port != ""
    ensures Count(Print(addr, port), ':') == Count(addr, ':') + 1 + Count(port, ':')
  {
    assert Print(addr, port) == addr + ([':'] + port);
    CountConcat(addr, [':'] + port, ':');
    CountConcat([':'], port, ':');
  }

  lemma NoneAfter(s: string, c: char, i: int, j: nat)
    requires -1 <= i < |s| && c !in s[i + 1..]
    requires j < |s| && s[j] == c
    ensures j <= i
  {
    assert forall k :: i < k < |s| ==> s[k] == s[i + 1..][k - i - 1];
  }

  lemma LastIndexIs(a: string, c: char, b: string)
    ensures c !in b <==> LastIndexOf(a + [c] + b, c) == |a|
    ensures LastIndexOf(a + [c] + b, c) >= |a|
  {
    var s := a + [c] + b;
    var i := LastIndexOf(s, c);
    assert s[|a|] == c && s[|a| + 1..] == b;
    NoneAfter(s, c, i, |a|);
    if i > |a| {
      assert s[i] == b[i - |a| - 1];
    }
  }

  /** parseAddressPort gives back the pair that was printed exactly for printable pairs. */
  lemma PrintThenParse(addr: string, port: string)
    ensures Parse(Print(addr, port)) == (addr, port) <==> Printable(addr, port)
  {
    hide ParsePart, TrimSpace, Count, IndexOf, LastIndexOf, ParseInt64;
    var s := Print(addr, port);
    TrimSpaceFixed(s);
    ParseShape(s);
    if addr == "" {
      PortOnly(port);
    } else {
      assert s[0] == addr[0];
      if Trimmed(s) {
        TrimmedPair(addr, port);
      }
    }
  }

  lemma TrimmedPair(addr: string, port: string)
    requires addr != "" && Trimmed(Print(addr, port)) && Print(addr, port)[0] == addr[0]
    ensures Parse(Print(addr, port)) == (addr, port) <==> Printable(addr, port)
  {
    hide TrimSpace, Count, IndexOf, LastIndexOf, ParseInt64;
    TrimSpaceFixed(Print(addr, port));
    if addr[0] != ':' {
      if Bracketed(Print(addr, port)) {
        BracketedPair(addr, port);
      } else {
        PlainPair(addr, port);
      }
    }
  }

  lemma PortOnly(port: string)
    ensures Parse(Print("", port)) == ("", port) <==> port == "" || !IsSpace(port[|port| - 1])
  {
    hide TrimSpace, Count, IndexOf, LastIndexOf, ParseInt64;
    TrimSpaceFixed("");
    assert Print("", "") == "";
    if port != "" {
      var s := Print("", port);
      assert s[0] == ':' && s[1..] == port;
      assert s[|s| - 1] == port[|port| - 1];
      TrimSpaceFixed(s);
      TrimKeepsFirst(s);
    }
  }

  lemma TrimKeepsFirst(s: string)
    requires s != [] && !IsSpace(s[0])
    ensures TrimSpace(s) != [] && TrimSpace(s)[0] == s[0]
  {
    TrimRightShape(s);
  }

  /** The address is a prefix and the port a suffix of the text, with a separator between them when both are
      there. */
  predicate PiecesOf(part: string, pair: (string, string)) {
    var (a, p) := pair;
    && |a| + |p| <= |part|
    && a == part[..|a|] && p == part[|part| - |p|..]
    && ((a != "" && p != "") || (part != [] && part[0] == ':') ==> |a| + |p| + 1 <= |part|)
  }

  /** Parsing invents nothing. */
  lemma ParseShape(s: string)
    ensures PiecesOf(TrimSpace(s), Parse(s)) && |TrimSpace(s)| <= |s|
  {
    hide TrimSpace, ParsePart, Trimmed, PiecesOf;
    TrimSpaceFixed(s);
    PartShape(TrimSpace(s));
  }

  lemma PartShape(part: string)
    ensures PiecesOf(part, ParsePart(part))
  {
    hide Count, IndexOf, LastIndexOf, ParseInt64;
    if part == [] || part[0] == ':' {
    } else if Bracketed(part) {
      var end := IndexOf(part, ']');
      assert part[|part| - 0..] == [];
    } else if ':' in part && Count(part, ':') <= 1 {
      var i := IndexOf(part, ':');
      assert ParsePart(part) == (part[..i], part[i + 1..]);
    } else if ':' in part && EndsInPort(part) {
      var i := LastIndexOf(part, ':');
      assert ParsePart(part) == (part[..i], part[i + 1..]);
    } else {
      assert ParsePart(part) == (part, "") || ParsePart(part) == ("", part);
    }
  }

  lemma ParsedCharacters(s: string, c: char)
    requires c in Parse(s).0 || c in Parse(s).1
    ensures c in s
  {
    hide TrimSpace, ParsePart;
    ParseShape(s);
    TrimmedCharacters(s, c);
  }

  lemma TrimmedCharacters(s: string, c: char)
    ensures c in TrimSpace(s) ==> c in s
  {
    TrimLeftShape(s);
    TrimRightShape(TrimLeft(s));
  }

  lemma BracketedPair(addr: string, port: string)
    requires addr != "" && Trimmed(Print(addr, port)) && addr[0] != ':' && Bracketed(Print(addr, port))
    ensures Parse(Print(addr, port)) == (addr, port) <==> IndexOf(addr, ']') == |addr| - 1
  {
    hide TrimSpace, ParseInt64, Count, IndexOf, LastIndexOf, Trimmed;
    var s, suffix := Print(addr, port), if port == "" then "" else ":" + port;
    TrimSpaceFixed(s);
    assert s[0] == addr[0];
    FirstIndexInPrefix(addr, suffix, ']');
    if ']' in addr && IndexOf(addr, ']') == |addr| - 1 {
      assert s[..|addr|] == addr;
      if port != "" { assert s[|addr| + 1..] == port && s[|addr|] == ':'; }
    }
  }

  lemma {:induction false} FirstIndexInPrefix(a: string, b: string, c: char)
    ensures c in a ==> IndexOf(a + b, c) == IndexOf(a, c)
    ensures c !in a && c in b ==> IndexOf(a + b, c) == |a| + IndexOf(b, c)
    decreases |a|
  {
    if a == [] {
      assert a + b == b;
    } else {
      assert (a + b)[1..] == a[1..] + b;
      FirstIndexInPrefix(a[1..], b, c);
    }
  }

  lemma PlainPair(addr: string, port: string)
    requires addr != "" && Trimmed(Print(addr, port)) && Print(addr, port)[0] == addr[0] != ':'
    requires !Bracketed(Print(addr, port))
    ensures Parse(Print(addr, port)) == (addr, port) <==>
            if port == "" then
              if ':' in addr then Count(addr, ':') > 1 && !EndsInPort(addr) else ParseInt64(addr).None?
            else ':' !in port && (':' in addr ==> ValidPort(port))
  {
    hide TrimSpace, ParsePart, Count, IndexOf, LastIndexOf, ParseInt64;
    var s := Print(addr, port);
    TrimSpaceFixed(s);
    assert Parse(s) == ParsePart(s);
    if port == "" {
      assert s == addr;
      PlainAlone(addr);
    } else {
      assert s == addr + ":" + port;
      PlainWithPort(addr, port);
    }
  }

  lemma PlainAlone(addr: string)
    requires addr != "" && !Bracketed(addr) && addr[0] != ':'
    ensures ParsePart(addr) == (addr, "") <==>
            if ':' in addr then Count(addr, ':') > 1 && !EndsInPort(addr) else ParseInt64(addr).None?
  {
    hide Count, IndexOf, LastIndexOf, ParseInt64;
    CountZero(addr, ':');
  }

  lemma PlainWithPort(addr: string, port: string)
    requires addr != "" && port != "" && !Bracketed(addr + ":" + port) && addr[0] != ':'
    ensures ParsePart(addr + ":" + port) == (addr, port) <==> ':' !in port && (':' in addr ==> ValidPort(port))
  {
    hide Count, IndexOf, LastIndexOf, ParseInt64;
    var s := addr + ":" + port;
    assert s[0] == addr[0] && s[|addr|] == ':' && s[|addr| + 1..] == port && s[..|addr|] == addr;
    assert s == addr + [':'] + port == Print(addr, port);
    CountZero(addr, ':');
    CountZero(port, ':');
    CountPrint(addr, port);
    LastIndexIs(addr, ':', port);
    assert ':' in s && !Bracketed(s);
    if ':' !in addr {
      IndexOfFirst(addr, ':', port);
    }
  }

  /** An entry is a fixed point of parsing and storing exactly when it is canonical;
      for instance an unbracketed IPv6 address without a port gains a colon each time. */
  lemma EntryFixedIff(e: string)
    ensures PrintEntry(Parse(e)) == e <==> Canonical(e)
  {
    hide TrimSpace, ParsePart, Count, IndexOf, LastIndexOf, ParseInt64;
    TrimSpaceFixed(e);
    ParseShape(e);
    if e != "" && Trimmed(e) {
      TrimmedEntry(e);
    } else if e != "" {
      UntrimmedEntry(e);
    }
  }

  lemma UntrimmedEntry(e: string)
    requires e != "" && !Trimmed(e)
    ensures PrintEntry(Parse(e)) != e
  {
    hide TrimSpace, Count, IndexOf, LastIndexOf, ParseInt64;
    TrimSpaceFixed(e);
    ParseShape(e);
    var (a, p) := Parse(e);
    var stored := a + ":" + p;
    assert stored[0] == (if a != "" then a[0] else ':');
    assert stored[|stored| - 1] == (if p != "" then p[|p| - 1] else ':');
  }

  lemma TrimmedEntry(e: string)
    requires e != "" && Trimmed(e)
    ensures PrintEntry(Parse(e)) == e <==> Canonical(e)
  {
    hide TrimSpace, Count, IndexOf, LastIndexOf, ParseInt64;
    TrimSpaceFixed(e);
    if e[0] == ':' {
      assert e == "" + ":" + e[1..];
    } else if Bracketed(e) {
      var end := IndexOf(e, ']');
      if end + 1 < |e| && e[end + 1] == ':' {
        assert e == e[..end + 1] + ":" + e[end + 2..];
      }
    } else {
      PlainEntry(e);
    }
  }

  lemma PlainEntry(e: string)
    requires e != "" && e[0] != ':' && !Bracketed(e)
    ensures PrintEntry(ParsePart(e)) == e <==> ':' in e && (Count(e, ':') == 1 || EndsInPort(e))
  {
    hide Count, IndexOf, LastIndexOf, ParseInt64, PrintEntry;
    CountZero(e, ':');
    StoredAnew(e);
    if ':' in e && Count(e, ':') == 1 {
      StoredAt(e, IndexOf(e, ':'));
    } else if ':' in e {
      StoredAt(e, LastIndexOf(e, ':'));
    }
  }

  lemma StoredAt(e: string, i: nat)
    requires i < |e| && e[i] == ':'
    ensures PrintEntry((e[..i], e[i + 1..])) == e
  {
  }

  lemma StoredAnew(e: string)
    ensures PrintEntry((e, "")) != e && PrintEntry(("", e)) != e
  {
    assert |PrintEntry((e, ""))| == |PrintEntry(("", e))| == |e| + 1;
  }

  // ----------------------------------------------- what happens to the other entries

  /** Several colons, no brackets, no port at the end: a bare IPv6 address. */
  predicate BareIPv6(e: string) {
    e != "" && Trimmed(e) && e[0] != ':' && !Bracketed(e) && Count(e, ':') > 1 && !EndsInPort(e)
  }

  /** `n` passes of parsing an entry and storing it again. */
  function Passes(e: string, n: nat): string {
    if n == 0 then e else PrintEntry(Parse(Passes(e, n - 1)))
  }

  function Colons(n: nat): string {
    seq(n, _ => ':')
  }

  lemma BareIPv6GainsColon(e: string)
    requires BareIPv6(e)
    ensures PrintEntry(Parse(e)) == e + ":"
    ensures BareIPv6(e + ":")
  {
    hide TrimSpace, Count, IndexOf, LastIndexOf, ParseInt64;
    TrimSpaceFixed(e);
    CountZero(e, ':');
    CountConcat(e, ":", ':');
    assert (e + ":")[0] == e[0] && (e + ":")[|e|] == ':';
    LastIndexIs(e, ':', "");
    assert e + ":" == e + [':'] + "";
  }

  /** A bare IPv6 entry without a port gains one colon on every pass, without end. */
  lemma {:induction false} BareIPv6Grows(e: string, n: nat)
    requires BareIPv6(e)
    ensures BareIPv6(Passes(e, n)) && Passes(e, n) == e + Colons(n)
  {
    hide BareIPv6, Parse;
    if n == 0 {
      assert e + Colons(0) == e;
    } else {
      BareIPv6Grows(e, n - 1);
      BareIPv6GainsColon(Passes(e, n - 1));
      assert Colons(n) == Colons(n - 1) + ":";
    }
  }

  lemma ShortestBareIPv6()
    ensures BareIPv6("f::")
  {
    assert Count("f::"[1..], ':') == 2;
    assert LastIndexOf("f::", ':') == 2;
  }

  // ------------------------------------------------------------------ every shape of text

  predicate Unspaced(s: string) {
    s != "" ==> !Blank(s[0]) && !Blank(s[|s| - 1])
  }

  predicate StartsBracket(s: string) {
    s != "" && s[0] == '[' && ']' in s
  }

  /** White space around the text does not matter. */
  lemma ParseSpaced(a: string, s: string, b: string)
    requires (forall c :: c in a ==> Blank(c)) && (forall c :: c in b ==> Blank(c)) && Unspaced(s)
    ensures Parse(a + s + b) == Parse(s)
  {
    hide ParsePart, TrimSpace;
    TrimSpaceIs(a, s, b);
    TrimSpaceIs("", s, "");
    assert "" + s + "" == s;
  }

  lemma ParseUnspaced(s: string)
    requires Unspaced(s)
    ensures Parse(s) == ParsePart(s)
  {
    hide ParsePart, TrimSpace;
    TrimSpaceIs("", s, "");
    assert "" + s + "" == s;
  }

  /** `:port` */
  lemma ParsePortOnly(port: string)
    requires Unspaced(":" + port)
    ensures Parse("") == ("", "") && Parse(":" + port) == ("", port)
  {
    hide TrimSpace;
    ParseUnspaced("");
    ParseUnspaced(":" + port);
  }

  /** `[address]` or `[address]:port`; anything else after the bracket is dropped. */
  lemma ParseBracketed(address: string, rest: string)
    requires ']' !in address && Unspaced("[" + address + "]" + rest)
    ensures Parse("[" + address + "]" + rest) ==
            ("[" + address + "]", if rest != "" && rest[0] == ':' then rest[1..] else "")
  {
    hide TrimSpace, IndexOf, Count, LastIndexOf, ParseInt64;
    var s := "[" + address + "]" + rest;
    ParseUnspaced(s);
    assert s == ("[" + address) + [']'] + rest;
    IndexOfFirst("[" + address, ']', rest);
    assert s[|address| + 2..] == rest;
    assert s[..|address| + 2] == "[" + address + "]";
  }

  /** One colon: what is before it, and what is after it. */
  lemma ParseNamed(address: string, port: string)
    requires address != "" && ':' !in address && ':' !in port
    requires Unspaced(address + ":" + port) && !StartsBracket(address + ":" + port)
    ensures Parse(address + ":" + port) == (address, port)
  {
    hide TrimSpace, IndexOf, Count, LastIndexOf, ParseInt64;
    var s := address + ":" + port;
    ParseUnspaced(s);
    assert s == address + [':'] + port && s[0] == address[0] && s[|address|] == ':';
    IndexOfFirst(address, ':', port);
    OneColon(address, port);
  }

  lemma OneColon(address: string, port: string)
    ensures Count(address + ":" + port, ':') == Count(address, ':') + 1 + Count(port, ':')
    ensures ':' !in port ==> Count(port, ':') == 0
    ensures Count(address, ':') == 0 <==> ':' !in address
  {
    assert address + ":" + port == address + (":" + port);
    CountConcat(address, ":" + port, ':');
    CountConcat(":", port, ':');
    assert Count(":", ':') == 1;
    CountZero(address, ':');
    CountZero(port, ':');
  }

  /** No colon: a number is a port, anything else an address. */
  lemma ParseBare(s: string)
    requires s != "" && ':' !in s && Unspaced(s) && !StartsBracket(s)
    ensures Parse(s) == if ParseInt64(s).Some? then ("", s) else (s, "")
  {
    hide TrimSpace, IndexOf, Count, LastIndexOf, ParseInt64;
    ParseUnspaced(s);
  }

  /** Several colons and no brackets: the last group is the port if it is a number from 1 to 65535, and belongs
      to the address otherwise. */
  lemma ParseSeveralColons(address: string, last: string)
    requires ':' in address && address[0] != ':' && ':' !in last
    requires Unspaced(address + ":" + last) && !StartsBracket(address + ":" + last)
    ensures Parse(address + ":" + last) ==
            if last != "" && ParseInt64(last).Some? && 1 <= ParseInt64(last).value <= 65535 then (address, last)
            else (address + ":" + last, "")
  {
    hide TrimSpace, IndexOf, Count, LastIndexOf, ParseInt64;
    var s := address + ":" + last;
    ParseUnspaced(s);
    assert s == address + [':'] + last && s[0] == address[0] && s[|address|] == ':';
    LastIndexIs(address, ':', last);
    OneColon(address, last);
    assert s[|address| + 1..] == last && s[..|address|] == address;
  }

  /** These are all the shapes. */
  lemma EveryShape(s: string)
    requires s != "" && s[0] != ':' && !StartsBracket(s) && ':' in s
    ensures exists address, last ::
              && s == address + ":" + last && address != "" && ':' !in last
              && (':' !in address || (':' in address && address[0] != ':'))
  {
    hide LastIndexOf;
    var i := LastIndexOf(s, ':');
    var address, last := s[..i], s[i + 1..];
    assert s == address + ":" + last;
  }
}
