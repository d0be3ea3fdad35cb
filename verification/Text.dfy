/** Strings as sequences of bytes (a `char` stands for one byte), and the few
    operations of Go's strings and strconv packages that the program relies on. */
module Text {
  import opened Options

  // ------------------------------------------------------------------- numbers

  function DigitChar(d: nat): (c: char)
    requires d < 10
    ensures '0' <= c <= '9'
  {
    '0' + d as char
  }

  predicate IsDigit(c: char) { '0' <= c <= '9' }

  function DecimalNat(n: nat): string {
    if n < 10 then [DigitChar(n)] else DecimalNat(n / 10) + [DigitChar(n % 10)]
  }

  /** The `%d` verb. */
  function Decimal(n: int): string {
    if n < 0 then "-" + DecimalNat(-n) else DecimalNat(n)
  }

  function ParseDigits(s: string): Option<nat> {
    if s == [] || !IsDigit(s[|s| - 1]) then None
    else
      var d := s[|s| - 1] as int - '0' as int;
      if |s| == 1 then Some(d)
      else match ParseDigits(s[..|s| - 1]) { case None => None case Some(v) => Some(10 * v + d) }
  }

  function NatToInt(v: Option<nat>): Option<int> {
    match v { case Some(n) => Some(n) case None => None }
  }

  function ParseSigned(s: string): Option<int> {
    if s != [] && s[0] == '-' then match NatToInt(ParseDigits(s[1..])) { case None => None case Some(v) => Some(-v) }
    else if s != [] && s[0] == '+' then NatToInt(ParseDigits(s[1..]))
    else NatToInt(ParseDigits(s))
  }

  predicate IsInt64(n: int) { -0x8000_0000_0000_0000 <= n < 0x8000_0000_0000_0000 }

  /** strconv.ParseInt(s, 10, 64), and Atoi on a 64-bit platform: an optional sign,
      digits only, and an error outside the range of int64. */
  function ParseInt64(s: string): Option<int> {
    match ParseSigned(s)
    case Some(v) => if IsInt64(v) then Some(v) else None
    case None => None
  }

  lemma {:induction false} ParseDecimalNat(n: nat)
    ensures ParseDigits(DecimalNat(n)) == Some(n)
    ensures forall c :: c in DecimalNat(n) ==> IsDigit(c)
    ensures DecimalNat(n) != []
    decreases n
  {
    if n >= 10 {
      ParseDecimalNat(n / 10);
      assert (DecimalNat(n / 10) + [DigitChar(n % 10)])[..|DecimalNat(n)| - 1] == DecimalNat(n / 10);
    }
  }

  lemma ParseDecimal(n: int)
    ensures ParseSigned(Decimal(n)) == Some(n)
    ensures IsInt64(n) ==> ParseInt64(Decimal(n)) == Some(n)
    ensures forall c :: c in Decimal(n) ==> IsDigit(c) || c == '-'
    ensures Decimal(n) != []
  {
    ParseDecimalNat(if n < 0 then -n else n);
    if n >= 0 {
      assert IsDigit(Decimal(n)[0]);
    } else {
      assert Decimal(n)[1..] == DecimalNat(-n);
    }
  }

  lemma DecimalInjective(m: int, n: int)
    requires Decimal(m) == Decimal(n)
    ensures m == n
  {
    ParseDecimal(m);
    ParseDecimal(n);
  }

  /** Digits and nothing else make a number; a leading zero does not change it. */
  lemma {:induction false} ParseDigitsIff(s: string)
    ensures ParseDigits(s).Some? <==> s != "" && forall c :: c in s ==> c in "0123456789"
    decreases |s|
  {
    if s != "" {
      var front, last := s[..|s| - 1], s[|s| - 1];
      assert s == front + [last] && last in s;
      assert IsDigit(last) <==> last in "0123456789" by { DigitIff(last); }
      ParseDigitsIff(front);
    }
  }

  lemma DigitIff(c: char)
    ensures IsDigit(c) <==> c in "0123456789"
  {
    var digits := "0123456789";
    if IsDigit(c) {
      assert digits[c as int - '0' as int] == c;
    }
  }

  lemma {:induction false} LeadingZero(s: string)
    requires s != ""
    ensures ParseDigits("0" + s) == ParseDigits(s)
    decreases |s|
  {
    var front, last := s[..|s| - 1], s[|s| - 1];
    assert ("0" + s)[..|s|] == "0" + front;
    if front != "" {
      LeadingZero(front);
    } else {
      assert "0" + front == "0";
      assert ParseDigits("0") == Some(0);
    }
  }

  /** Without a leading zero a text of digits is the decimal form of its number. */
  lemma {:induction false} DecimalOfParsed(s: string)
    requires ParseDigits(s).Some? && (s[0] == '0' ==> |s| == 1)
    ensures DecimalNat(ParseDigits(s).value) == s
    ensures |s| > 1 ==> ParseDigits(s).value >= 10
    decreases |s|
  {
    var front, last := s[..|s| - 1], s[|s| - 1];
    assert s == front + [last];
    if front != "" {
      DecimalOfParsed(front);
      var v := ParseDigits(front).value;
      assert v == 0 ==> front == "0";
      assert ParseDigits(s).value == 10 * v + (last as int - '0' as int);
      assert ParseDigits(s).value / 10 == v && ParseDigits(s).value % 10 == last as int - '0' as int;
    }
  }

  /** Decimal notation, in powers of ten and with a sign. */
  lemma DecimalIs(n: int)
    requires n >= 0
    ensures n < 10 ==> Decimal(n) == ["0123456789"[n]]
    ensures n >= 10 ==> Decimal(n) == Decimal(n / 10) + ["0123456789"[n % 10]]
    ensures n > 0 ==> Decimal(-n) == "-" + Decimal(n)
  {
  }

  /** An optional sign, digits, and the range of 64 bits. */
  lemma ParseInt64Is(digits: string)
    ensures ParseInt64("+" + digits) == Ranged(ParseDigits(digits), 1)
    ensures ParseInt64("-" + digits) == Ranged(ParseDigits(digits), -1)
    ensures digits == "" || (digits[0] != '+' && digits[0] != '-') ==>
              ParseInt64(digits) == Ranged(ParseDigits(digits), 1)
  {
    hide ParseDigits;
    AfterSign("+", digits);
    AfterSign("-", digits);
  }

  lemma AfterSign(sign: string, digits: string)
    requires |sign| == 1
    ensures sign + digits != "" && (sign + digits)[0] == sign[0] && (sign + digits)[1..] == digits
  {
  }

  function Ranged(v: Option<nat>, sign: int): Option<int> {
    match v
    case Some(n) =>
      if -9223372036854775808 <= sign * n <= 9223372036854775807 then Some(sign * n) else None
    case None => None
  }

  // ------------------------------------------------------------------ searching

  /** strings.Index for a one-byte needle: -1 when it does not occur. */
  function IndexOf(s: string, c: char): (i: int)
    ensures -1 <= i < |s|
    ensures i == -1 <==> c !in s
    ensures i >= 0 ==> s[i] == c && c !in s[..i]
  {
    if s == [] then -1
    else if s[0] == c then 0
    else
      var i := IndexOf(s[1..], c);
      assert s == [s[0]] + s[1..];
      if i == -1 then -1 else
        assert s[..i + 1] == [s[0]] + s[1..][..i];
        i + 1
  }

  lemma {:induction false} IndexOfFirst(a: string, c: char, b: string)
    requires c !in a
    ensures IndexOf(a + [c] + b, c) == |a|
    ensures (a + [c] + b)[..|a|] == a && (a + [c] + b)[|a| + 1..] == b
    decreases |a|
  {
    if a != [] {
      IndexOfFirst(a[1..], c, b);
      assert a[0] in a;
      assert (a + [c] + b)[1..] == a[1..] + [c] + b;
    }
  }

  // ------------------------------------------------------------- split and join

  /** strings.Split on a one-byte separator. */
  function Split(s: string, c: char): seq<string>
    decreases |s|
  {
    var i := IndexOf(s, c);
    if i == -1 then [s] else [s[..i]] + Split(s[i + 1..], c)
  }

  /** strings.Join with a one-byte separator. */
  function Join(parts: seq<string>, c: char): string {
    if parts == [] then "" else if |parts| == 1 then parts[0] else parts[0] + [c] + Join(parts[1..], c)
  }

  lemma SplitAt(s: string, c: char, i: nat)
    requires IndexOf(s, c) == i
    ensures Split(s, c) == [s[..i]] + Split(s[i + 1..], c)
  {
    hide IndexOf;
  }

  lemma {:induction false} SplitPieces(s: string, c: char)
    ensures Split(s, c) != []
    ensures forall p :: p in Split(s, c) ==> c !in p
    decreases |s|
  {
    hide IndexOf;
    var i := IndexOf(s, c);
    if i >= 0 {
      SplitPieces(s[i + 1..], c);
    }
  }

  lemma {:induction false} SplitJoin(parts: seq<string>, c: char)
    requires parts != []
    requires forall p :: p in parts ==> c !in p
    ensures Split(Join(parts, c), c) == parts
    decreases |parts|
  {
    hide IndexOf;
    assert c !in parts[0];
    if |parts| == 1 {
      assert parts == [parts[0]];
    } else {
      var rest := Join(parts[1..], c);
      SplitJoin(parts[1..], c);
      IndexOfFirst(parts[0], c, rest);
      SplitAt(parts[0] + [c] + rest, c, |parts[0]|);
    }
  }

  /** Any string is its pieces joined again. */
  lemma {:induction false} JoinSplit(s: string, c: char)
    ensures Join(Split(s, c), c) == s
    decreases |s|
  {
    hide IndexOf;
    var i := IndexOf(s, c);
    if i >= 0 {
      var rest := Split(s[i + 1..], c);
      JoinSplit(s[i + 1..], c);
      SplitPieces(s[i + 1..], c);
      assert ([s[..i]] + rest)[1..] == rest;
      assert s == s[..i] + [c] + s[i + 1..];
    }
  }

  lemma {:induction false} JoinSnoc(parts: seq<string>, last: string, c: char)
    requires parts != []
    ensures Join(parts + [last], c) == Join(parts, c) + [c] + last
    decreases |parts|
  {
    if |parts| > 1 {
      JoinSnoc(parts[1..], last, c);
      assert (parts + [last])[1..] == parts[1..] + [last];
      assert Join(parts + [last], c) == parts[0] + [c] + Join(parts[1..] + [last], c);
    } else {
      assert (parts + [last])[1..] == [last];
    }
  }

  // ------------------------------------------------------------------- trimming

  /** The ASCII white space of strings.TrimSpace. */
  predicate IsSpace(c: char) {
    c == ' ' || '\t' <= c <= '\r'
  }

  function TrimLeft(s: string): string {
    if s != [] && IsSpace(s[0]) then TrimLeft(s[1..]) else s
  }

  function TrimRight(s: string): string {
    if s != [] && IsSpace(s[|s| - 1]) then TrimRight(s[..|s| - 1]) else s
  }

  function TrimSpace(s: string): string {
    TrimRight(TrimLeft(s))
  }

  predicate Trimmed(s: string) {
    s == [] || (!IsSpace(s[0]) && !IsSpace(s[|s| - 1]))
  }

  lemma {:induction false} TrimRightShape(s: string)
    ensures TrimRight(s) <= s
    ensures TrimRight(s) != [] ==> !IsSpace(TrimRight(s)[|TrimRight(s)| - 1])
    ensures (forall i :: |TrimRight(s)| <= i < |s| ==> IsSpace(s[i]))
    decreases |s|
  {
    if s != [] && IsSpace(s[|s| - 1]) {
      TrimRightShape(s[..|s| - 1]);
    }
  }

  lemma {:induction false} TrimLeftShape(s: string)
    ensures |TrimLeft(s)| <= |s|
    ensures TrimLeft(s) == s[|s| - |TrimLeft(s)|..]
    ensures TrimLeft(s) != [] ==> !IsSpace(TrimLeft(s)[0])
    ensures forall i :: 0 <= i < |s| - |TrimLeft(s)| ==> IsSpace(s[i])
    decreases |s|
  {
    if s != [] && IsSpace(s[0]) {
      TrimLeftShape(s[1..]);
    }
  }

  /** TrimSpace leaves a string alone exactly when neither end is white space. */
  lemma TrimSpaceFixed(s: string)
    ensures TrimSpace(s) == s <==> Trimmed(s)
    ensures Trimmed(TrimSpace(s)) && |TrimSpace(s)| <= |s|
    ensures |TrimSpace(s)| == |s| ==> TrimSpace(s) == s
  {
    TrimLeftShape(s);
    TrimRightShape(TrimLeft(s));
  }

  /** Space, tab, line feed, vertical tab, form feed and carriage return. */
  predicate Blank(c: char) { c as int in {9, 10, 11, 12, 13, 32} }

  /** TrimSpace takes the white space at both ends, all of it and nothing else. */
  lemma {:induction false} TrimSpaceIs(a: string, s: string, b: string)
    requires (forall c :: c in a ==> Blank(c)) && (forall c :: c in b ==> Blank(c))
    requires s != "" ==> !Blank(s[0]) && !Blank(s[|s| - 1])
    ensures TrimSpace(a + s + b) == s
    decreases |a| + |b|
  {
    if a != "" {
      assert a[0] in a && (a + s + b)[1..] == a[1..] + s + b;
      TrimSpaceIs(a[1..], s, b);
    } else if s == "" {
      AllBlank(b);
      assert a + s + b == b;
    } else {
      assert a + s + b == s + b && TrimLeft(s + b) == s + b;
      TrimRightIs(s, b);
    }
  }

  lemma {:induction false} TrimRightIs(s: string, b: string)
    requires forall c :: c in b ==> Blank(c)
    requires s != "" ==> !Blank(s[|s| - 1])
    ensures TrimRight(s + b) == s
    decreases |b|
  {
    if b == "" {
      assert s + b == s;
    } else {
      assert b[|b| - 1] in b && (s + b)[..|s + b| - 1] == s + b[..|b| - 1];
      TrimRightIs(s, b[..|b| - 1]);
    }
  }

  lemma {:induction false} AllBlank(b: string)
    requires forall c :: c in b ==> Blank(c)
    ensures TrimLeft(b) == ""
    decreases |b|
  {
    if b != "" {
      assert b[0] in b;
      AllBlank(b[1..]);
    }
  }

  /** A text that starts after some white space and goes on to something that is not white space. */
  lemma {:induction false} TrimFront(a: string, core: string, rest: string)
    requires (forall c :: c in a ==> Blank(c))
    requires core != "" && !Blank(core[0]) && !Blank(core[|core| - 1])
    ensures TrimSpace(a + core + rest) == core + TrimRight(rest)
    decreases |a|
  {
    if a != "" {
      assert a[0] in a && (a + core + rest)[1..] == a[1..] + core + rest;
      TrimFront(a[1..], core, rest);
    } else {
      assert a + core + rest == core + rest && TrimLeft(core + rest) == core + rest;
      TrimEnd(core, rest);
    }
  }

  lemma {:induction false} TrimEnd(core: string, rest: string)
    requires core != "" && !Blank(core[|core| - 1])
    ensures TrimRight(core + rest) == core + TrimRight(rest)
    decreases |rest|
  {
    if rest == "" {
      assert core + rest == core;
    } else if IsSpace(rest[|rest| - 1]) {
      assert (core + rest)[..|core + rest| - 1] == core + rest[..|rest| - 1];
      TrimEnd(core, rest[..|rest| - 1]);
    }
  }

  lemma BlankIff(s: string)
    ensures TrimSpace(s) == "" <==> forall c :: c in s ==> Blank(c)
  {
    if forall c :: c in s ==> Blank(c) {
      TrimSpaceIs(s, "", "");
      assert s + "" + "" == s;
    } else {
      var c :| c in s && !Blank(c);
      var i :| 0 <= i < |s| && s[i] == c;
      TrimLeftShape(s);
      TrimRightShape(TrimLeft(s));
      var left := |s| - |TrimLeft(s)|;
      assert i >= left && TrimLeft(s)[i - left] == c;
      assert i - left < |TrimSpace(s)|;
    }
  }
}
