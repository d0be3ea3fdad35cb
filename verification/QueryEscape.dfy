/** url.QueryEscape and url.QueryUnescape: percent-encoding of section 2.1 of RFC 3986,
    with a space written as `+`. */
module QueryEscape {
  import opened Options

  predicate IsUnreserved(c: char) {
    'a' <= c <= 'z' || 'A' <= c <= 'Z' || '0' <= c <= '9' || c == '-' || c == '_' || c == '.' || c == '~'
  }

  /** Every element of the string is a byte. */
  predicate IsBytes(s: string) {
    forall c :: c in s ==> c as int < 256
  }

  function HexDigit(d: nat): (c: char)
    requires d < 16
    ensures '0' <= c <= '9' || 'A' <= c <= 'F'
  {
    if d < 10 then '0' + d as char else 'A' + (d - 10) as char
  }

  function HexValue(c: char): Option<nat> {
    if '0' <= c <= '9' then Some(c as int - '0' as int)
    else if 'A' <= c <= 'F' then Some(c as int - 'A' as int + 10)
    else if 'a' <= c <= 'f' then Some(c as int - 'a' as int + 10)
    else None
  }

  function EscapeByte(c: char): string {
    if IsUnreserved(c) then [c]
    else if c == ' ' then "+"
    else ['%', HexDigit(c as int / 16 % 16), HexDigit(c as int % 16)]
  }

  function Escape(s: string): string {
    if s == [] then [] else EscapeByte(s[0]) + Escape(s[1..])
  }

  /** None stands for the error on a malformed escape. */
  function Unescape(s: string): Option<string> {
    if s == [] then Some([])
    else if s[0] == '%' then
      if |s| < 3 then None
      else match (HexValue(s[1]), HexValue(s[2]), Unescape(s[3..]))
        case (Some(hi), Some(lo), Some(rest)) => Some([(16 * hi + lo) as char] + rest)
        case _ => None
    else match Unescape(s[1..])
      case Some(rest) => Some([if s[0] == '+' then ' ' else s[0]] + rest)
      case None => None
  }

  lemma UnescapeHead(c: char, tail: string)
    requires c as int < 256
    ensures Unescape(EscapeByte(c) + tail) ==
            match Unescape(tail) { case Some(rest) => Some([c] + rest) case None => None }
  {
    var head := EscapeByte(c);
    if |head| == 3 {
      assert (head + tail)[3..] == tail;
      assert 16 * (c as int / 16 % 16) + c as int % 16 == c as int;
    } else {
      assert (head + tail)[1..] == tail;
    }
  }

  /** Decoding undoes encoding on every byte string. */
  lemma {:induction false} UnescapeEscape(s: string)
    requires IsBytes(s)
    ensures Unescape(Escape(s)) == Some(s)
    decreases |s|
  {
    if s != [] {
      assert s == [s[0]] + s[1..];
      assert s[0] in s && forall c :: c in s[1..] ==> c in s;
      UnescapeEscape(s[1..]);
      UnescapeHead(s[0], Escape(s[1..]));
    }
  }

  /** An encoded string holds nothing but unreserved characters, `+` and `%`. */
  lemma {:induction false} EscapedAlphabet(s: string)
    ensures forall c :: c in Escape(s) ==> IsUnreserved(c) || c == '+' || c == '%'
    decreases |s|
  {
    if s != [] {
      EscapedAlphabet(s[1..]);
    }
  }

  /** What may stand for itself. */
  predicate StandsForItself(c: char) {
    'A' <= c <= 'Z' || 'a' <= c <= 'z' || '0' <= c <= '9' || c in "-_.~"
  }

  /** Encoding leaves a string alone exactly when it holds nothing but unreserved characters. */
  lemma {:induction false} EscapeFixedIff(s: string)
    ensures |Escape(s)| >= |s|
    ensures Escape(s) == s <==> forall c :: c in s ==> StandsForItself(c)
    decreases |s|
  {
    if s != [] {
      var rest := s[1..];
      assert s == [s[0]] + rest && s[0] in s;
      EscapeFixedIff(rest);
      if IsUnreserved(s[0]) {
        assert Escape(s) == [s[0]] + Escape(rest);
        assert Escape(s) == s <==> Escape(rest) == rest by {
          assert ([s[0]] + Escape(rest))[1..] == Escape(rest);
        }
      } else if s[0] == ' ' {
        assert Escape(s)[0] == '+';
      }
    }
  }

  /** The others are written as `+` or as `%` and two upper-case digits. */
  lemma EscapeByteIs(c: char)
    requires c as int < 256 && !StandsForItself(c)
    ensures EscapeByte(c) ==
            if c == ' ' then "+"
            else ['%', "0123456789ABCDEF"[c as int / 16], "0123456789ABCDEF"[c as int % 16]]
  {
  }

  lemma HexValueIff(c: char, d: nat)
    requires d < 16
    ensures HexValue(c) == Some(d) <==> c == "0123456789ABCDEF"[d] || c == "0123456789abcdef"[d]
  {
  }

  /** Decoding, from the front: `%` with two hexadecimal digits of either case is a byte, `+` is a space, any
      other character is itself, and a `%` without two digits is an error. */
  lemma UnescapeIs(c: char, tail: string)
    ensures Unescape("") == Some("")
    ensures c != '%' ==>
              Unescape([c] + tail) ==
              match Unescape(tail) case Some(rest) => Some([if c == '+' then ' ' else c] + rest) case None => None
    ensures |tail| < 2 ==> Unescape("%" + tail) == None
    ensures |tail| >= 2 && (HexValue(tail[0]).None? || HexValue(tail[1]).None?) ==> Unescape("%" + tail) == None
    ensures |tail| >= 2 && HexValue(tail[0]).Some? && HexValue(tail[1]).Some? ==>
              Unescape("%" + tail) ==
              match Unescape(tail[2..])
              case Some(rest) => Some([(16 * HexValue(tail[0]).value + HexValue(tail[1]).value) as char] + rest)
              case None => None
  {
    assert ([c] + tail)[1..] == tail;
    if |tail| >= 2 {
      assert ("%" + tail)[1] == tail[0] && ("%" + tail)[2] == tail[1] && ("%" + tail)[3..] == tail[2..];
    }
  }
}
