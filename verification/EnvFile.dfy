/** Merging the database settings into an existing .env file, line by line. */
module EnvFile {
  import opened Options
  import opened Text

  type Lines = seq<string>

  // ------------------------------------------------------------------- one line

  const QUOTE: char := '"'
  const BACKSLASH: char := '\\'

  predicate NeedsQuotingChar(c: char) {
    c <= ' ' || c == '#' || c == QUOTE || c == '\'' || c == BACKSLASH
  }

  predicate NeedsQuoting(v: string) {
    exists c :: c in v && NeedsQuotingChar(c)
  }

  /** strings.ReplaceAll of a one-byte pattern. */
  function ReplaceAll(s: string, c: char, text: string): string {
    if s == "" then "" else (if s[0] == c then text else [s[0]]) + ReplaceAll(s[1..], c, text)
  }

  function FormatValue(v: string): string {
    if NeedsQuoting(v)
    then [QUOTE] + ReplaceAll(ReplaceAll(v, BACKSLASH, [BACKSLASH, BACKSLASH]), QUOTE, [BACKSLASH, QUOTE]) + [QUOTE]
    else v
  }

  function FormatLine(key: string, v: string): string {
    key + "=" + FormatValue(v)
  }

  /** Both characters escaped at once. */
  function Escape(s: string): string {
    if s == "" then ""
    else (if s[0] == BACKSLASH || s[0] == QUOTE then [BACKSLASH, s[0]] else [s[0]]) + Escape(s[1..])
  }

  /** Reads up to the closing quote, from left to right; None when there is none or something follows it. */
  function Unescape(s: string): Option<string> {
    if s == "" then None
    else if s[0] == QUOTE then if |s| == 1 then Some("") else None
    else if s[0] == BACKSLASH then
      if |s| == 1 then None
      else match Unescape(s[2..]) { case Some(t) => Some([s[1]] + t) case None => None }
    else match Unescape(s[1..]) { case Some(t) => Some([s[0]] + t) case None => None }
  }

  function ReadValue(text: string): Option<string> {
    if text != "" && text[0] == QUOTE then Unescape(text[1..]) else Some(text)
  }

  lemma ReplaceHead(s: string, c: char, text: string)
    requires s != ""
    ensures ReplaceAll(s, c, text) == (if s[0] == c then text else [s[0]]) + ReplaceAll(s[1..], c, text)
  {
  }

  lemma {:induction false} ReplaceAllConcat(a: string, b: string, c: char, text: string)
    ensures ReplaceAll(a + b, c, text) == ReplaceAll(a, c, text) + ReplaceAll(b, c, text)
    decreases |a|
  {
    if a == "" {
      assert a + b == b;
    } else {
      ReplaceAllConcat(a[1..], b, c, text);
      ReplaceHead(a, c, text);
      ReplaceHead(a + b, c, text);
      hide ReplaceAll;
      assert (a + b)[0] == a[0] && (a + b)[1..] == a[1..] + b;
    }
  }

  /** The order of the two replacements is right: together they are one simultaneous escape. */
  lemma {:induction false} TwoReplacementsAreOneEscape(s: string)
    ensures ReplaceAll(ReplaceAll(s, BACKSLASH, [BACKSLASH, BACKSLASH]), QUOTE, [BACKSLASH, QUOTE]) == Escape(s)
    decreases |s|
  {
    if s != "" {
      var twice := [BACKSLASH, BACKSLASH];
      var head := if s[0] == BACKSLASH then twice else [s[0]];
      TwoReplacementsAreOneEscape(s[1..]);
      ReplaceAllConcat(head, ReplaceAll(s[1..], BACKSLASH, twice), QUOTE, [BACKSLASH, QUOTE]);
      ReplaceOne(s[0]);
    }
  }

  lemma ReplaceOne(c: char)
    ensures ReplaceAll(if c == BACKSLASH then [BACKSLASH, BACKSLASH] else [c], QUOTE, [BACKSLASH, QUOTE]) ==
            if c == BACKSLASH || c == QUOTE then [BACKSLASH, c] else [c]
  {
    assert ReplaceAll("", QUOTE, [BACKSLASH, QUOTE]) == "";
    assert [BACKSLASH, BACKSLASH][1..] == [BACKSLASH];
    assert [c][1..] == "" && [BACKSLASH][1..] == "";
    assert ReplaceAll([BACKSLASH], QUOTE, [BACKSLASH, QUOTE]) == [BACKSLASH];
  }

  lemma {:induction false} UnescapeEscape(s: string)
    ensures Unescape(Escape(s) + [QUOTE]) == Some(s)
    decreases |s|
  {
    if s == "" {
      assert Escape(s) + [QUOTE] == [QUOTE];
    } else {
      UnescapeEscape(s[1..]);
      var rest := Escape(s[1..]) + [QUOTE];
      if s[0] == BACKSLASH || s[0] == QUOTE {
        assert Escape(s) + [QUOTE] == [BACKSLASH, s[0]] + rest;
      } else {
        assert Escape(s) + [QUOTE] == [s[0]] + rest;
      }
      assert s == [s[0]] + s[1..];
    }
  }

  /** Every value is read back from its line, so quoted and plain forms never collide. */
  lemma ReadFormattedValue(v: string)
    ensures ReadValue(FormatValue(v)) == Some(v)
  {
    if NeedsQuoting(v) {
      TwoReplacementsAreOneEscape(v);
      UnescapeEscape(v);
      assert FormatValue(v)[1..] == Escape(v) + [QUOTE];
    } else {
      assert v != "" ==> v[0] in v && !NeedsQuotingChar(v[0]);
    }
  }

  lemma FormatLineInjective(key: string, v: string, w: string)
    requires FormatLine(key, v) == FormatLine(key, w)
    ensures v == w
  {
    assert FormatLine(key, v)[|key| + 1..] == FormatValue(v);
    assert FormatLine(key, w)[|key| + 1..] == FormatValue(w);
    ReadFormattedValue(v);
    ReadFormattedValue(w);
  }

  /** The key a line assigns to, if it assigns at all. */
  function ParseKey(line: string): Option<string> {
    var trimmed := TrimSpace(line);
    if trimmed == "" || trimmed[0] == '#' then None
    else
      var idx := IndexOf(trimmed, '=');
      if idx <= 0 then None
      else
        var key := TrimSpace(trimmed[..idx]);
        if key == "" then None
        else if "export " <= key then Some(TrimSpace(key[7..])) else Some(key)
  }

  predicate PlainKey(k: string) {
    k != "" && Trimmed(k) && '=' !in k && k[0] != '#' && !("export " <= k)
  }

  lemma ParseFormatted(k: string, v: string)
    requires PlainKey(k)
    ensures ParseKey(FormatLine(k, v)) == Some(k)
  {
    var line := FormatLine(k, v);
    var text := FormatValue(v);
    assert line == k + ['='] + text;
    assert line[0] == k[0];
    if !NeedsQuoting(v) && v != "" {
      assert v[|v| - 1] in v && !NeedsQuotingChar(v[|v| - 1]);
    }
    assert line[|line| - 1] == if text == "" then '=' else text[|text| - 1];
    assert Trimmed(line);
    TrimSpaceFixed(line);
    IndexOfFirst(k, '=', text);
    TrimSpaceFixed(k);
  }

  /** Control characters, the space, `#`, quotes and the backslash. */
  predicate Special(c: char) {
    c as int <= 32 || c in "#\"'\\"
  }

  /** A value stands in quotes exactly when it holds a special character, and as it is otherwise. */
  lemma QuotedIff(v: string)
    ensures (exists c :: c in v && Special(c)) ==> FormatValue(v) == "\"" + Escape(v) + "\""
    ensures !(exists c :: c in v && Special(c)) ==> FormatValue(v) == v
  {
    hide ReplaceAll;
    TwoReplacementsAreOneEscape(v);
    assert forall c :: c in v ==> (NeedsQuotingChar(c) <==> Special(c));
  }

  lemma EscapeIs(c: char, rest: string)
    ensures Escape("") == ""
    ensures Escape([c] + rest) == (if c == '"' then "\\\"" else if c == '\\' then "\\\\" else [c]) + Escape(rest)
  {
    assert ([c] + rest)[1..] == rest;
  }

  /** Reading after the opening quote: a backslash makes the next character stand for itself, and the closing
      quote has to be the last character. */
  lemma UnescapeIs(c: char, rest: string)
    ensures Unescape("") == None && Unescape("\\") == None
    ensures Unescape("\"" + rest) == if rest == "" then Some("") else None
    ensures c != '"' && c != '\\' ==>
              Unescape([c] + rest) == match Unescape(rest) case Some(t) => Some([c] + t) case None => None
    ensures Unescape(['\\', c] + rest) == match Unescape(rest) case Some(t) => Some([c] + t) case None => None
  {
    assert ([c] + rest)[1..] == rest && ([BACKSLASH, c] + rest)[2..] == rest;
  }

  /** Lines that assign nothing: blank ones, comments, lines without `=`, and those with nothing before it. */
  lemma NoAssignment(a: string, text: string)
    requires forall c :: c in a ==> Blank(c)
    ensures ParseKey(a) == None && ParseKey(a + "#" + text) == None && ParseKey(a + "=" + text) == None
    ensures text != "" && !Blank(text[0]) && !Blank(text[|text| - 1]) && '=' !in text ==> ParseKey(a + text) == None
  {
    hide TrimSpace;
    TrimSpaceIs(a, "", "");
    assert a + "" + "" == a;
    TrimFront(a, "#", text);
    TrimFront(a, "=", text);
    if text != "" && !Blank(text[0]) && !Blank(text[|text| - 1]) {
      TrimSpaceIs(a, text, "");
      assert a + text + "" == a + text;
    }
  }

  /** `key = ...`, with white space anywhere around the key. */
  lemma AssignedKey(a: string, key: string, b: string, rest: string)
    requires (forall c :: c in a ==> Blank(c)) && (forall c :: c in b ==> Blank(c))
    requires key != "" && !Blank(key[0]) && !Blank(key[|key| - 1]) && '=' !in key && key[0] != '#'
    ensures !("export " <= key) ==> ParseKey(a + key + b + "=" + rest) == Some(key)
    ensures "export " <= key ==> ParseKey(a + key + b + "=" + rest) == Some(TrimSpace(key[7..]))
  {
    hide TrimSpace, IndexOf, TrimRight;
    var core := key + b + "=";
    assert a + key + b + "=" + rest == a + core + rest;
    TrimFront(a, core, rest);
    assert '=' !in b;
    assert core + TrimRight(rest) == (key + b) + ['='] + TrimRight(rest);
    IndexOfFirst(key + b, '=', TrimRight(rest));
    TrimSpaceIs("", key, b);
    assert "" + key + b == key + b;
  }

  /** `export key = ...` */
  lemma ExportedKey(a: string, w: string, key: string, b: string, rest: string)
    requires (forall c :: c in a ==> Blank(c)) && (forall c :: c in b ==> Blank(c)) && (forall c :: c in w ==> Blank(c))
    requires key != "" && !Blank(key[0]) && !Blank(key[|key| - 1]) && '=' !in key
    ensures ParseKey(a + ("export " + w + key) + b + "=" + rest) == Some(key)
  {
    hide TrimSpace, ParseKey;
    var whole := "export " + w + key;
    assert '=' !in w && '=' !in "export ";
    assert whole[0] == 'e' && whole[|whole| - 1] == key[|key| - 1];
    AssignedKey(a, whole, b, rest);
    assert whole[7..] == w + key;
    TrimSpaceIs(w, key, "");
    assert w + key + "" == w + key;
  }

  // ------------------------------------------------------------------- the merge

  const HEADER := "# Managed by NodePassDash setup wizard"

  /** The keys the setup wizard owns, in the order sort.Strings gives them. */
  const MANAGED: seq<string> := [
    "DB_DRIVER", "DB_PATH", "DB_WAL_MODE", "PG_DATABASE", "PG_HOST", "PG_PASSWORD", "PG_PORT", "PG_SSLMODE",
    "PG_TIMEZONE", "PG_USER"
  ]

  type Settings = map<string, string>

  function ValueOf(kv: Settings, k: string): string {
    if k in kv then kv[k] else ""
  }

  function Rewrite(kv: Settings, line: string): Lines {
    match ParseKey(line)
    case None => [line]
    case Some(k) =>
      if k !in MANAGED then [line] else if ValueOf(kv, k) == "" then [] else [FormatLine(k, ValueOf(kv, k))]
  }

  function Body(kv: Settings, lines: Lines): Lines {
    if lines == [] then [] else Body(kv, lines[..|lines| - 1]) + Rewrite(kv, lines[|lines| - 1])
  }

  predicate HasKey(lines: Lines, k: string) {
    exists i :: 0 <= i < |lines| && ParseKey(lines[i]) == Some(k)
  }

  function Missing(kv: Settings, lines: Lines, keys: seq<string>): seq<string> {
    if keys == [] then []
    else
      var k := keys[|keys| - 1];
      Missing(kv, lines, keys[..|keys| - 1]) + if !HasKey(lines, k) && ValueOf(kv, k) != "" then [k] else []
  }

  function FormatAll(kv: Settings, keys: seq<string>): Lines {
    if keys == [] then []
    else FormatAll(kv, keys[..|keys| - 1]) + [FormatLine(keys[|keys| - 1], ValueOf(kv, keys[|keys| - 1]))]
  }

  /** What comes before the appended keys. */
  function Heading(hasFile: bool, body: Lines): Lines {
    if hasFile && body != [] && TrimSpace(body[|body| - 1]) != "" then ["", HEADER] else [HEADER]
  }

  function Merged(kv: Settings, hasFile: bool, lines: Lines): Lines {
    var body := Body(kv, lines);
    var missing := Missing(kv, lines, MANAGED);
    if missing == [] then body else body + Heading(hasFile, body) + FormatAll(kv, missing)
  }

  // ------------------------------------------------------------------ properties

  lemma ManagedKeysArePlain(k: string)
    requires k in MANAGED
    ensures PlainKey(k)
  {
    assert k[0] == 'D' || k[0] == 'P';
    assert "export "[0] == 'e';
  }

  lemma HeadingHasNoKey()
    ensures ParseKey("") == None && ParseKey(HEADER) == None
  {
    TrimSpaceFixed(HEADER);
    assert HEADER[0] == '#';
    assert HEADER[|HEADER| - 1] == 'd';
  }

  predicate IsManaged(line: string) {
    ParseKey(line).Some? && ParseKey(line).value in MANAGED
  }

  /** The lines that are the user's own: foreign keys, comments, blank lines. */
  function UserLines(lines: Lines): Lines {
    if lines == [] then []
    else UserLines(lines[..|lines| - 1]) + if IsManaged(lines[|lines| - 1]) then [] else [lines[|lines| - 1]]
  }

  /** The line that decides the value of a key: the last one. */
  function LineOf(lines: Lines, k: string): Option<string> {
    if lines == [] then None
    else if ParseKey(lines[|lines| - 1]) == Some(k) then Some(lines[|lines| - 1])
    else LineOf(lines[..|lines| - 1], k)
  }

  lemma {:induction false} UserLinesConcat(a: Lines, b: Lines)
    ensures UserLines(a + b) == UserLines(a) + UserLines(b)
    decreases |b|
  {
    if b == [] {
      assert a + b == a;
    } else {
      UserLinesConcat(a, b[..|b| - 1]);
      assert (a + b)[..|a + b| - 1] == a + b[..|b| - 1];
    }
  }

  lemma {:induction false} LineOfConcat(a: Lines, b: Lines, k: string)
    ensures LineOf(a + b, k) == if LineOf(b, k).Some? then LineOf(b, k) else LineOf(a, k)
    decreases |b|
  {
    if b == [] {
      assert a + b == a;
    } else {
      LineOfConcat(a, b[..|b| - 1], k);
      assert (a + b)[..|a + b| - 1] == a + b[..|b| - 1];
    }
  }

  lemma {:induction false} HasKeyIff(lines: Lines, k: string)
    ensures HasKey(lines, k) <==> LineOf(lines, k).Some?
    decreases |lines|
  {
    if lines != [] {
      HasKeyIff(lines[..|lines| - 1], k);
      assert HasKey(lines, k) <==> HasKey(lines[..|lines| - 1], k) || ParseKey(lines[|lines| - 1]) == Some(k);
    }
  }

  lemma RewriteOne(kv: Settings, line: string, k: string)
    ensures UserLines(Rewrite(kv, line)) == UserLines([line])
    ensures LineOf(Rewrite(kv, line), k) ==
            if k !in MANAGED || ParseKey(line) != Some(k) then LineOf([line], k)
            else if ValueOf(kv, k) == "" then None else Some(FormatLine(k, ValueOf(kv, k)))
  {
    if IsManaged(line) {
      var key := ParseKey(line).value;
      ManagedKeysArePlain(key);
      ParseFormatted(key, ValueOf(kv, key));
    }
    assert [line][..0] == [];
  }

  lemma HasKeySnoc(lines: Lines, line: string, k: string)
    ensures HasKey(lines + [line], k) <==> HasKey(lines, k) || ParseKey(line) == Some(k)
  {
    hide ParseKey;
    var n := |lines|;
    if HasKey(lines, k) {
      var i :| 0 <= i < n && ParseKey(lines[i]) == Some(k);
      assert (lines + [line])[i] == lines[i];
    }
    assert (lines + [line])[n] == line;
  }

  lemma SingleLine(line: string, k: string)
    ensures UserLines([line]) == if IsManaged(line) then [] else [line]
    ensures LineOf([line], k) == if ParseKey(line) == Some(k) then Some(line) else None
  {
    hide ParseKey;
    assert [line][..0] == [];
  }

  lemma AppendedLine(lines: Lines, line: string, k: string)
    ensures UserLines(lines + [line]) == UserLines(lines) + if IsManaged(line) then [] else [line]
    ensures LineOf(lines + [line], k) == if ParseKey(line) == Some(k) then Some(line) else LineOf(lines, k)
  {
    hide ParseKey;
    assert (lines + [line])[..|lines|] == lines;
  }

  lemma NoLines(k: string)
    ensures UserLines([]) == [] && LineOf([], k) == None
  {
  }

  lemma {:induction false} BodyKeepsUserLines(kv: Settings, lines: Lines, k: string)
    ensures UserLines(Body(kv, lines)) == UserLines(lines)
    ensures LineOf(Body(kv, lines), k) ==
            if k !in MANAGED then LineOf(lines, k)
            else if !HasKey(lines, k) || ValueOf(kv, k) == "" then None else Some(FormatLine(k, ValueOf(kv, k)))
    decreases |lines|
  {
    hide ParseKey, FormatLine, Rewrite, HasKey, ValueOf;
    if lines == [] {
      HasKeyIff(lines, k);
    } else {
      var n := |lines| - 1;
      BodyKeepsUserLines(kv, lines[..n], k);
      RewriteOne(kv, lines[n], k);
      UserLinesConcat(Body(kv, lines[..n]), Rewrite(kv, lines[n]));
      LineOfConcat(Body(kv, lines[..n]), Rewrite(kv, lines[n]), k);
      HasKeySnoc(lines[..n], lines[n], k);
      assert lines[..n] + [lines[n]] == lines;
      SingleLine(lines[n], k);
    }
  }

  lemma {:induction false} MissingKeys(kv: Settings, lines: Lines, keys: seq<string>, k: string)
    ensures k in Missing(kv, lines, keys) <==> k in keys && !HasKey(lines, k) && ValueOf(kv, k) != ""
    decreases |keys|
  {
    hide HasKey, ValueOf;
    if keys != [] {
      var n := |keys| - 1;
      MissingKeys(kv, lines, keys[..n], k);
      assert keys == keys[..n] + [keys[n]];
    }
  }

  lemma {:induction false} FormattedLines(kv: Settings, keys: seq<string>, k: string)
    requires forall key :: key in keys ==> key in MANAGED
    ensures UserLines(FormatAll(kv, keys)) == []
    ensures LineOf(FormatAll(kv, keys), k) == if k in keys then Some(FormatLine(k, ValueOf(kv, k))) else None
    decreases |keys|
  {
    hide ParseKey, FormatLine, ValueOf, PlainKey, UserLines, LineOf;
    if keys == [] {
      NoLines(k);
    } else {
      var n := |keys| - 1;
      var key := keys[n];
      FormattedLines(kv, keys[..n], k);
      ManagedKeysArePlain(key);
      ParseFormatted(key, ValueOf(kv, key));
      AppendedLine(FormatAll(kv, keys[..n]), FormatLine(key, ValueOf(kv, key)), k);
      assert keys == keys[..n] + [key];
    }
  }

  lemma HeadingIsTheUsers(hasFile: bool, body: Lines, k: string)
    ensures UserLines(Heading(hasFile, body)) == Heading(hasFile, body)
    ensures LineOf(Heading(hasFile, body), k) == None
  {
    hide ParseKey;
    HeadingHasNoKey();
    SingleLine("", k);
    SingleLine(HEADER, k);
    UserLinesConcat([""], [HEADER]);
    LineOfConcat([""], [HEADER], k);
    assert ["", HEADER] == [""] + [HEADER];
  }

  lemma MergedParts(kv: Settings, hasFile: bool, lines: Lines, k: string)
    ensures var body := Body(kv, lines);
            var missing := Missing(kv, lines, MANAGED);
            && UserLines(Merged(kv, hasFile, lines)) ==
               UserLines(body) + (if missing == [] then [] else Heading(hasFile, body))
            && LineOf(Merged(kv, hasFile, lines), k) ==
               if k in missing then Some(FormatLine(k, ValueOf(kv, k))) else LineOf(body, k)
  {
    hide Body, Missing, Heading, FormatAll, UserLines, LineOf, FormatLine;
    var body := Body(kv, lines);
    var missing := Missing(kv, lines, MANAGED);
    if missing != [] {
      forall key | key in missing
        ensures key in MANAGED {
        MissingKeys(kv, lines, MANAGED, key);
      }
      FormattedLines(kv, missing, k);
      HeadingIsTheUsers(hasFile, body, k);
      UserLinesConcat(body, Heading(hasFile, body));
      UserLinesConcat(body + Heading(hasFile, body), FormatAll(kv, missing));
      LineOfConcat(body, Heading(hasFile, body), k);
      LineOfConcat(body + Heading(hasFile, body), FormatAll(kv, missing), k);
    }
  }

  /** The user's lines stay as they are and in order; at most a heading is added after them. */
  lemma MergedKeepsUserLines(kv: Settings, hasFile: bool, lines: Lines)
    ensures UserLines(Merged(kv, hasFile, lines)) ==
            UserLines(lines) +
            if forall k :: k in MANAGED ==> HasKey(lines, k) || ValueOf(kv, k) == "" then []
            else Heading(hasFile, Body(kv, lines))
  {
    hide Body, Missing, Heading, UserLines, HasKey, ValueOf, Merged;
    MergedParts(kv, hasFile, lines, "");
    BodyKeepsUserLines(kv, lines, "");
    forall k
      ensures k in Missing(kv, lines, MANAGED) <==> k in MANAGED && !HasKey(lines, k) && ValueOf(kv, k) != "" {
      MissingKeys(kv, lines, MANAGED, k);
    }
    NoElements(Missing(kv, lines, MANAGED));
  }

  /** The appended keys stand under a heading, after a blank line if the file was there and does not end in one. */
  lemma AppendedUnderHeading(kv: Settings, hasFile: bool, lines: Lines)
    ensures var body, merged := Body(kv, lines), Merged(kv, hasFile, lines);
            && body <= merged
            && (merged != body ==>
                  if hasFile && body != [] && exists c :: c in body[|body| - 1] && !Blank(c)
                  then body + ["", "# Managed by NodePassDash setup wizard"] <= merged
                  else body + ["# Managed by NodePassDash setup wizard"] <= merged)
  {
    hide Body, Missing, FormatAll;
    var body := Body(kv, lines);
    if body != [] {
      BlankIff(body[|body| - 1]);
    }
  }

  /** Every managed key has its new value, or is gone if that is empty; every other key is as it was. */
  lemma MergedValues(kv: Settings, hasFile: bool, lines: Lines, k: string)
    ensures LineOf(Merged(kv, hasFile, lines), k) ==
            if k !in MANAGED then LineOf(lines, k)
            else if ValueOf(kv, k) == "" then None else Some(FormatLine(k, ValueOf(kv, k)))
  {
    hide Body, Missing, HasKey, ValueOf, Merged, LineOf, FormatLine;
    MergedParts(kv, hasFile, lines, k);
    BodyKeepsUserLines(kv, lines, k);
    MissingKeys(kv, lines, MANAGED, k);
  }

  /** The value of a key, read back from the file. */
  function ReadSetting(lines: Lines, k: string): Option<string> {
    match LineOf(lines, k)
    case None => None
    case Some(line) => ReadValue(line[IndexOf(line, '=') + 1..])
  }

  /** What was saved can be read: the merge is a right inverse of reading, for every value. */
  lemma MergedReadsBack(kv: Settings, hasFile: bool, lines: Lines, k: string)
    requires k in MANAGED
    ensures ReadSetting(Merged(kv, hasFile, lines), k) ==
            if ValueOf(kv, k) == "" then None else Some(ValueOf(kv, k))
  {
    hide Merged, LineOf, ReadValue, FormatValue;
    MergedValues(kv, hasFile, lines, k);
    var text := FormatValue(ValueOf(kv, k));
    ManagedKeysArePlain(k);
    IndexOfFirst(k, '=', text);
    assert FormatLine(k, ValueOf(kv, k)) == k + ['='] + text;
    ReadFormattedValue(ValueOf(kv, k));
  }

  /** Saving one configuration and then another assigns every key as saving the second alone does. */
  lemma LastSaveWins(a: Settings, b: Settings, hasFile: bool, lines: Lines, k: string)
    ensures LineOf(Merged(b, true, Merged(a, hasFile, lines)), k) == LineOf(Merged(b, hasFile, lines), k)
  {
    hide Merged, LineOf;
    MergedValues(b, true, Merged(a, hasFile, lines), k);
    MergedValues(b, hasFile, lines, k);
    MergedValues(a, hasFile, lines, k);
  }

  /** A line the merge leaves alone. */
  predicate Settled(kv: Settings, line: string) {
    IsManaged(line) ==>
      var k := ParseKey(line).value;
      ValueOf(kv, k) != "" && line == FormatLine(k, ValueOf(kv, k))
  }

  lemma {:induction false} SettledBody(kv: Settings, lines: Lines)
    requires forall line :: line in lines ==> Settled(kv, line)
    ensures Body(kv, lines) == lines
    decreases |lines|
  {
    hide ParseKey, FormatLine;
    if lines != [] {
      var n := |lines| - 1;
      SettledBody(kv, lines[..n]);
      assert Settled(kv, lines[n]);
    }
  }

  lemma {:induction false} BodyIsSettled(kv: Settings, lines: Lines, line: string)
    requires line in Body(kv, lines)
    ensures Settled(kv, line)
    decreases |lines|
  {
    hide FormatLine, IsManaged, ParseKey, ValueOf;
    if lines != [] {
      var n := |lines| - 1;
      if line in Body(kv, lines[..n]) {
        BodyIsSettled(kv, lines[..n], line);
      } else {
        RewriteIsSettled(kv, lines[n], line);
      }
    }
  }

  lemma RewriteIsSettled(kv: Settings, original: string, line: string)
    requires line in Rewrite(kv, original)
    ensures Settled(kv, line)
  {
    hide FormatLine, ParseKey, ValueOf;
    if IsManaged(original) {
      var k := ParseKey(original).value;
      ManagedKeysArePlain(k);
      ParseFormatted(k, ValueOf(kv, k));
    }
  }

  lemma {:induction false} FormattedIsSettled(kv: Settings, keys: seq<string>, line: string)
    requires forall key :: key in keys ==> key in MANAGED && ValueOf(kv, key) != ""
    requires line in FormatAll(kv, keys)
    ensures Settled(kv, line)
    decreases |keys|
  {
    hide FormatLine, ParseKey, ValueOf;
    if keys != [] {
      var n := |keys| - 1;
      if line in FormatAll(kv, keys[..n]) {
        FormattedIsSettled(kv, keys[..n], line);
      } else {
        ManagedKeysArePlain(keys[n]);
        ParseFormatted(keys[n], ValueOf(kv, keys[n]));
      }
    }
  }

  lemma MergedIsSettled(kv: Settings, hasFile: bool, lines: Lines, line: string)
    requires line in Merged(kv, hasFile, lines)
    ensures Settled(kv, line)
  {
    hide Settled, Body, Missing, FormatAll;
    var body := Body(kv, lines);
    var missing := Missing(kv, lines, MANAGED);
    if line in body {
      BodyIsSettled(kv, lines, line);
    } else if line == "" || line == HEADER {
      UnkeyedIsSettled(kv);
    } else {
      forall key | key in missing
        ensures key in MANAGED && ValueOf(kv, key) != "" {
        MissingKeys(kv, lines, MANAGED, key);
      }
      FormattedIsSettled(kv, missing, line);
    }
  }

  lemma UnkeyedIsSettled(kv: Settings)
    ensures Settled(kv, "") && Settled(kv, HEADER)
  {
    hide ParseKey, FormatLine;
    HeadingHasNoKey();
  }

  /** Saving the same settings again changes nothing. */
  lemma MergeIsIdempotent(kv: Settings, hasFile: bool, lines: Lines)
    ensures Merged(kv, true, Merged(kv, hasFile, lines)) == Merged(kv, hasFile, lines)
  {
    hide Settled, Body, Missing, HasKey;
    var merged := Merged(kv, hasFile, lines);
    forall line | line in merged
      ensures Settled(kv, line) {
      MergedIsSettled(kv, hasFile, lines, line);
    }
    SettledBody(kv, merged);
    forall k
      ensures k !in Missing(kv, merged, MANAGED) {
      MissingKeys(kv, merged, MANAGED, k);
      MergedValues(kv, hasFile, lines, k);
      HasKeyIff(merged, k);
    }
    NoElements(Missing(kv, merged, MANAGED));
  }

  lemma NoElements(s: seq<string>)
    ensures (forall k :: k !in s) ==> s == []
  {
    assert s != [] ==> s[0] in s;
  }
}
