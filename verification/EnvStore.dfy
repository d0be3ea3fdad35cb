/** The database configuration and the .env file it is saved in. */
module EnvStore {
  import opened Options
  import opened Text
  import opened EnvFile

  datatype DBConfig = DBConfig(
    driver: string, database: string, walMode: bool,
    host: string, port: int, user: string, password: string, pgDatabase: string, sslMode: string, timeZone: string)

  predicate IsSqlite(driver: string) {
    driver == "sqlite" || driver == "sqlite3"
  }

  predicate IsPostgres(driver: string) {
    driver == "postgres" || driver == "postgresql" || driver == "pg"
  }

  function BoolText(b: bool): string {
    if b then "true" else "false"
  }

  /** The value of a managed key; empty when the driver does not use it. */
  function SettingOf(c: DBConfig, k: string): string {
    if k == "DB_DRIVER" then c.driver
    else if IsSqlite(c.driver) then
      if k == "DB_PATH" then c.database else if k == "DB_WAL_MODE" then BoolText(c.walMode) else ""
    else if IsPostgres(c.driver) then
      if k == "PG_HOST" then c.host else if k == "PG_PORT" then Decimal(c.port) else if k == "PG_USER" then c.user
      else if k == "PG_PASSWORD" then c.password else if k == "PG_DATABASE" then c.pgDatabase
      else if k == "PG_SSLMODE" then c.sslMode else if k == "PG_TIMEZONE" then c.timeZone else ""
    else ""
  }

  function EnvKv(c: DBConfig): Settings {
    map k | k in MANAGED :: SettingOf(c, k)
  }

  // ------------------------------------------------------------------- the file

  predicate EndsWith(s: string, c: char) {
    s != "" && s[|s| - 1] == c
  }

  function DropCr(line: string): string {
    if EndsWith(line, '\r') then line[..|line| - 1] else line
  }

  /** bufio.ScanLines: lines end at a line feed, and one carriage return before it goes too. */
  function ReadLines(content: string): Lines
    decreases |content|
  {
    if content == "" then []
    else
      var i := IndexOf(content, '\n');
      if i == -1 then [DropCr(content)] else [DropCr(content[..i])] + ReadLines(content[i + 1..])
  }

  function Content(lines: Lines): string {
    var joined := Join(lines, '\n');
    if EndsWith(joined, '\n') then joined else joined + "\n"
  }

  predicate OneLine(line: string) {
    '\n' !in line && !EndsWith(line, '\r')
  }

  lemma ReadFirst(line: string, rest: string)
    requires OneLine(line)
    ensures ReadLines(line + ['\n'] + rest) == [line] + ReadLines(rest)
  {
    hide IndexOf;
    IndexOfFirst(line, '\n', rest);
  }

  lemma {:induction false} ReadJoined(lines: Lines)
    requires lines != [] && forall line :: line in lines ==> OneLine(line)
    ensures ReadLines(Join(lines, '\n') + "\n") == lines
    decreases |lines|
  {
    hide ReadLines, OneLine;
    var line := lines[0];
    assert OneLine(line);
    if |lines| == 1 {
      ReadFirst(line, "");
      assert line + ['\n'] + "" == Join(lines, '\n') + "\n";
      assert ReadLines("") == [] by { NothingToRead(); }
      assert lines == [line];
    } else {
      var rest := Join(lines[1..], '\n') + "\n";
      ReadJoined(lines[1..]);
      ReadFirst(line, rest);
      assert Join(lines, '\n') + "\n" == line + ['\n'] + rest;
      assert lines == [line] + lines[1..];
    }
  }

  lemma NothingToRead()
    ensures ReadLines("") == []
  {
  }

  /** A line may end in a carriage return and a line feed, and the last one in nothing. */
  lemma LineEndings(line: string, rest: string)
    requires '\n' !in line
    ensures ReadLines(line + "\r\n" + rest) == [line] + ReadLines(rest)
    ensures OneLine(line) ==> ReadLines(line + "\n" + rest) == [line] + ReadLines(rest)
    ensures OneLine(line) && line != "" ==> ReadLines(line) == [line]
  {
    hide IndexOf;
    var with := line + ['\r'];
    assert line + "\r\n" + rest == with + ['\n'] + rest;
    IndexOfFirst(with, '\n', rest);
    assert line + "\n" + rest == line + ['\n'] + rest;
    IndexOfFirst(line, '\n', rest);
    assert with[..|line|] == line;
  }

  lemma LastLineEnds(lines: Lines, last: string)
    requires lines != [] && OneLine(last)
    ensures EndsWith(Join(lines + [last], '\n'), '\n') <==> last == ""
    ensures last == "" ==> Join(lines + [last], '\n') == Join(lines, '\n') + "\n"
  {
    hide Join;
    JoinSnoc(lines, last, '\n');
    var joined := Join(lines, '\n') + ['\n'] + last;
    if last == "" {
      assert joined == Join(lines, '\n') + "\n";
    } else {
      assert joined[|joined| - 1] == last[|last| - 1];
      assert last[|last| - 1] in last;
    }
  }

  /** When the last line is blank the file already ends in a line feed, and that line is lost. */
  lemma ContentEnds(lines: Lines)
    requires forall line :: line in lines ==> OneLine(line)
    ensures EndsWith(Join(lines, '\n'), '\n') <==> |lines| > 1 && lines[|lines| - 1] == ""
    ensures |lines| > 1 && lines[|lines| - 1] == "" ==>
              Join(lines, '\n') == Join(lines[..|lines| - 1], '\n') + "\n"
  {
    hide Join, OneLine, EndsWith;
    if |lines| > 1 {
      var n := |lines| - 1;
      assert lines == lines[..n] + [lines[n]];
      LastLineEnds(lines[..n], lines[n]);
    } else {
      FewLinesEnd(lines);
    }
  }

  lemma FewLinesEnd(lines: Lines)
    requires |lines| <= 1 && forall line :: line in lines ==> OneLine(line)
    ensures !EndsWith(Join(lines, '\n'), '\n')
  {
    if |lines| == 1 {
      assert OneLine(lines[0]);
      assert Join(lines, '\n') == lines[0];
    }
  }

  /** What the file holds when it is read again: the lines written, less a blank one at the end. */
  lemma Reread(lines: Lines)
    requires forall line :: line in lines ==> OneLine(line)
    ensures ReadLines(Content(lines)) ==
            if lines == [] then [""]
            else if |lines| > 1 && lines[|lines| - 1] == "" then lines[..|lines| - 1] else lines
  {
    hide ReadLines, Join;
    ContentEnds(lines);
    if lines == [] {
      EmptyFile();
    } else if |lines| > 1 && lines[|lines| - 1] == "" {
      ReadJoined(lines[..|lines| - 1]);
    } else {
      ReadJoined(lines);
    }
  }

  lemma EmptyFile()
    ensures Join([], '\n') == ""
    ensures ReadLines("" + "\n") == [""]
  {
    assert "" + "\n" == "\n";
    assert "\n"[..0] == "" && "\n"[1..] == "";
    assert IndexOf("\n", '\n') == 0;
  }

  /** Writing and reading lines is the identity exactly when the last line is not an extra blank one. */
  lemma RereadIff(lines: Lines)
    requires forall line :: line in lines ==> OneLine(line)
    ensures ReadLines(Content(lines)) == lines <==> lines != [] && (|lines| == 1 || lines[|lines| - 1] != "")
  {
    Reread(lines);
  }

  /** A concrete case: a blank line at the end of the lines is lost. */
  lemma BlankLastLineIsLost()
    ensures ReadLines(Content(["A=1", ""])) == ["A=1"]
  {
    hide ReadLines, Content;
    assert forall line :: line in ["A=1", ""] ==> OneLine(line);
    Reread(["A=1", ""]);
    assert ["A=1", ""][..1] == ["A=1"];
  }

  lemma RereadKeepsValues(lines: Lines, k: string)
    requires forall line :: line in lines ==> OneLine(line)
    ensures LineOf(ReadLines(Content(lines)), k) == LineOf(lines, k)
  {
    hide ReadLines, Content, ParseKey;
    Reread(lines);
    HeadingHasNoKey();
    SingleLine("", k);
  }

  lemma {:induction false} ReadLinesAreLines(content: string)
    ensures forall line :: line in ReadLines(content) ==> '\n' !in line
    decreases |content|
  {
    hide IndexOf;
    if content != "" {
      var i := IndexOf(content, '\n');
      var first := if i == -1 then content else content[..i];
      assert '\n' !in DropCr(first);
      if i != -1 { ReadLinesAreLines(content[i + 1..]); }
    }
  }

  // -------------------------------------------------------------- lines stay lines

  lemma {:induction false} ReplaceAllChars(s: string, c: char, text: string, d: char)
    requires d !in s && d !in text
    ensures d !in ReplaceAll(s, c, text)
    decreases |s|
  {
    if s != "" { ReplaceAllChars(s[1..], c, text, d); }
  }

  lemma FormattedIsOneLine(k: string, v: string)
    requires k in MANAGED && '\n' !in v
    ensures OneLine(FormatLine(k, v))
  {
    KeysHaveNoBreaks(k);
    if NeedsQuoting(v) {
      ReplaceAllChars(v, BACKSLASH, [BACKSLASH, BACKSLASH], '\n');
      ReplaceAllChars(ReplaceAll(v, BACKSLASH, [BACKSLASH, BACKSLASH]), QUOTE, [BACKSLASH, QUOTE], '\n');
    } else {
      assert EndsWith(v, '\r') ==> NeedsQuotingChar('\r') && '\r' in v;
      assert FormatLine(k, v)[|FormatLine(k, v)| - 1] == if v == "" then '=' else v[|v| - 1];
    }
  }

  lemma KeysHaveNoBreaks(k: string)
    requires k in MANAGED
    ensures '\n' !in k
  {
  }

  predicate OneLineValues(kv: Settings) {
    forall k :: k in MANAGED ==> '\n' !in ValueOf(kv, k)
  }

  lemma {:induction false} BodyIsLines(kv: Settings, lines: Lines)
    requires OneLineValues(kv) && forall line :: line in lines ==> OneLine(line)
    ensures forall line :: line in Body(kv, lines) ==> OneLine(line)
    decreases |lines|
  {
    hide ParseKey, FormatLine, OneLine;
    if lines != [] {
      var n := |lines| - 1;
      BodyIsLines(kv, lines[..n]);
      if IsManaged(lines[n]) {
        FormattedIsOneLine(ParseKey(lines[n]).value, ValueOf(kv, ParseKey(lines[n]).value));
      }
    }
  }

  lemma {:induction false} FormattedAreLines(kv: Settings, keys: seq<string>)
    requires OneLineValues(kv) && forall key :: key in keys ==> key in MANAGED
    ensures forall line :: line in FormatAll(kv, keys) ==> OneLine(line)
    decreases |keys|
  {
    hide FormatLine, OneLine, ValueOf;
    if keys != [] {
      var n := |keys| - 1;
      FormattedAreLines(kv, keys[..n]);
      FormattedIsOneLine(keys[n], ValueOf(kv, keys[n]));
    }
  }

  lemma MergedAreLines(kv: Settings, hasFile: bool, lines: Lines)
    requires OneLineValues(kv) && forall line :: line in lines ==> OneLine(line)
    ensures forall line :: line in Merged(kv, hasFile, lines) ==> OneLine(line)
  {
    hide Body, Missing, FormatAll;
    BodyIsLines(kv, lines);
    var missing := Missing(kv, lines, MANAGED);
    forall key | key in missing
      ensures key in MANAGED {
      MissingKeys(kv, lines, MANAGED, key);
    }
    FormattedAreLines(kv, missing);
    assert OneLine("") && OneLine(HEADER);
  }

  // -------------------------------------------------------------------- saving

  function FileLines(file: Option<string>): Lines {
    match file case Some(content) => ReadLines(content) case None => []
  }

  function Saved(c: DBConfig, file: Option<string>): string {
    Content(Merged(EnvKv(c), file.Some?, FileLines(file)))
  }

  /**
   * The configuration that was saved is read back from the bytes of the file, key by key; the keys of the
   * other driver are gone, and every key of the user's reads as before.
   */
  lemma SavedReadsBack(c: DBConfig, file: Option<string>, k: string)
    requires OneLineValues(EnvKv(c))
    requires forall line :: line in FileLines(file) ==> !EndsWith(line, '\r')
    ensures var after := ReadLines(Saved(c, file));
            && (k in MANAGED ==>
                  ReadSetting(after, k) == if ValueOf(EnvKv(c), k) == "" then None else Some(ValueOf(EnvKv(c), k)))
            && (k !in MANAGED ==> LineOf(after, k) == LineOf(FileLines(file), k))
  {
    hide ReadLines, Content, EnvKv, Merged, LineOf, ReadValue;
    var lines := FileLines(file);
    if file.Some? { ReadLinesAreLines(file.value); }
    assert forall line :: line in lines ==> OneLine(line);
    MergedAreLines(EnvKv(c), file.Some?, lines);
    RereadKeepsValues(Merged(EnvKv(c), file.Some?, lines), k);
    if k in MANAGED {
      MergedReadsBack(EnvKv(c), file.Some?, lines, k);
    } else {
      MergedValues(EnvKv(c), file.Some?, lines, k);
    }
  }

  predicate Reads(lines: Lines, k: string, v: string) {
    ReadSetting(lines, k) == if v == "" then None else Some(v)
  }

  /** What the saved file says, setting by setting: those of the driver, and nothing of the other one. */
  lemma SavedSettings(c: DBConfig, file: Option<string>)
    requires OneLineValues(EnvKv(c))
    requires forall line :: line in FileLines(file) ==> !EndsWith(line, '\r')
    ensures var after := ReadLines(Saved(c, file));
            var sqlite := c.driver in {"sqlite", "sqlite3"};
            var postgres := c.driver in {"postgres", "postgresql", "pg"};
            && Reads(after, "DB_DRIVER", c.driver)
            && Reads(after, "DB_PATH", if sqlite then c.database else "")
            && Reads(after, "DB_WAL_MODE", if !sqlite then "" else if c.walMode then "true" else "false")
            && Reads(after, "PG_HOST", if postgres then c.host else "")
            && Reads(after, "PG_PORT", if postgres then Decimal(c.port) else "")
            && Reads(after, "PG_USER", if postgres then c.user else "")
            && Reads(after, "PG_PASSWORD", if postgres then c.password else "")
            && Reads(after, "PG_DATABASE", if postgres then c.pgDatabase else "")
            && Reads(after, "PG_SSLMODE", if postgres then c.sslMode else "")
            && Reads(after, "PG_TIMEZONE", if postgres then c.timeZone else "")
  {
    hide ReadLines, Saved, ReadSetting, EnvKv, SettingOf, Decimal;
    SavedSetting(c, file, MANAGED[0]);
    SavedSetting(c, file, MANAGED[1]);
    SavedSetting(c, file, MANAGED[2]);
    SavedSetting(c, file, MANAGED[3]);
    SavedSetting(c, file, MANAGED[4]);
    SavedSetting(c, file, MANAGED[5]);
    SavedSetting(c, file, MANAGED[6]);
    SavedSetting(c, file, MANAGED[7]);
    SavedSetting(c, file, MANAGED[8]);
    SavedSetting(c, file, MANAGED[9]);
    DriverSettings(c);
  }

  lemma SavedSetting(c: DBConfig, file: Option<string>, k: string)
    requires OneLineValues(EnvKv(c)) && k in MANAGED
    requires forall line :: line in FileLines(file) ==> !EndsWith(line, '\r')
    ensures Reads(ReadLines(Saved(c, file)), k, SettingOf(c, k))
  {
    hide ReadLines, Saved, ReadSetting, SettingOf;
    SavedReadsBack(c, file, k);
    assert ValueOf(EnvKv(c), k) == SettingOf(c, k);
  }

  lemma DriverSettings(c: DBConfig)
    ensures var sqlite := c.driver in {"sqlite", "sqlite3"};
            var postgres := c.driver in {"postgres", "postgresql", "pg"};
            && SettingOf(c, "DB_DRIVER") == c.driver
            && SettingOf(c, "DB_PATH") == (if sqlite then c.database else "")
            && SettingOf(c, "DB_WAL_MODE") == (if !sqlite then "" else if c.walMode then "true" else "false")
            && SettingOf(c, "PG_HOST") == (if postgres then c.host else "")
            && SettingOf(c, "PG_PORT") == (if postgres then Decimal(c.port) else "")
            && SettingOf(c, "PG_USER") == (if postgres then c.user else "")
            && SettingOf(c, "PG_PASSWORD") == (if postgres then c.password else "")
            && SettingOf(c, "PG_DATABASE") == (if postgres then c.pgDatabase else "")
            && SettingOf(c, "PG_SSLMODE") == (if postgres then c.sslMode else "")
            && SettingOf(c, "PG_TIMEZONE") == (if postgres then c.timeZone else "")
  {
    hide Decimal;
    if IsPostgres(c.driver) { assert !IsSqlite(c.driver) by { DriversDiffer(c.driver); } }
    if IsSqlite(c.driver) { assert !IsPostgres(c.driver) by { DriversDiffer(c.driver); } }
  }

  lemma DriversDiffer(driver: string)
    ensures !(driver in {"sqlite", "sqlite3"} && driver in {"postgres", "postgresql", "pg"})
  {
    assert "sqlite"[0] == 's' && "sqlite3"[0] == 's';
    assert "postgres"[0] == 'p' && "postgresql"[0] == 'p' && "pg"[0] == 'p';
  }

  predicate BelongsToOtherDriver(c: DBConfig, k: string) {
    if IsSqlite(c.driver) then "PG_" <= k
    else if IsPostgres(c.driver) then k == "DB_PATH" || k == "DB_WAL_MODE" else k != "DB_DRIVER"
  }

  /** Switching the driver leaves no setting of the other one behind. */
  lemma SwitchingDriverCleans(c: DBConfig, file: Option<string>, k: string)
    requires OneLineValues(EnvKv(c)) && forall line :: line in FileLines(file) ==> !EndsWith(line, '\r')
    requires k in MANAGED && BelongsToOtherDriver(c, k)
    ensures ReadSetting(ReadLines(Saved(c, file)), k) == None
  {
    hide ReadLines, Saved, ReadSetting;
    SavedReadsBack(c, file, k);
    OtherDriverIsEmpty(c, k);
  }

  lemma OtherDriverIsEmpty(c: DBConfig, k: string)
    requires k in MANAGED && BelongsToOtherDriver(c, k)
    ensures ValueOf(EnvKv(c), k) == ""
  {
    assert "DB_PATH"[0] == 'D' && "DB_WAL_MODE"[0] == 'D' && "DB_DRIVER"[0] == 'D' && "PG_"[0] == 'P';
  }

  // ------------------------------------------------------------------- loading

  /** The environment the process is started in. */
  type Environment = map<string, string>

  /** What the file alone sets a variable to; "" when it does not. */
  function FileSetting(lines: Lines, k: string): string {
    match ReadSetting(lines, k) case Some(v) => v case None => ""
  }

  /** os.Getenv after the file was loaded, which never overrides a variable that is there already. */
  function Getenv(env: Environment, lines: Lines, k: string): string {
    if k in env then env[k] else FileSetting(lines, k)
  }

  function OrCurrent(v: string, current: string): string {
    if v != "" then v else current
  }

  function PortOf(v: string, current: int): int {
    match ParseInt64(v) case Some(n) => n case None => current
  }

  function WalModeOf(v: string, current: bool): bool {
    if v == "" then current else v == "true" || v == "1"
  }

  /** The variables of the environment that a configuration is loaded from. */
  datatype Vars = Vars(
    driver: string, path: string, walMode: string, host: string, port: string, user: string, password: string,
    database: string, sslMode: string, timeZone: string)

  function VarsIn(env: Environment, lines: Lines): Vars {
    Vars(Getenv(env, lines, "DB_DRIVER"), Getenv(env, lines, "DB_PATH"), Getenv(env, lines, "DB_WAL_MODE"),
         Getenv(env, lines, "PG_HOST"), Getenv(env, lines, "PG_PORT"), Getenv(env, lines, "PG_USER"),
         Getenv(env, lines, "PG_PASSWORD"), Getenv(env, lines, "PG_DATABASE"), Getenv(env, lines, "PG_SSLMODE"),
         Getenv(env, lines, "PG_TIMEZONE"))
  }

  /** The configuration of the next start, from the defaults and the environment. */
  function Loaded(d: DBConfig, v: Vars): DBConfig {
    DBConfig(
      OrCurrent(v.driver, d.driver), OrCurrent(v.path, d.database),
      WalModeOf(v.walMode, d.walMode),
      OrCurrent(v.host, d.host), PortOf(v.port, d.port), OrCurrent(v.user, d.user),
      OrCurrent(v.password, d.password), OrCurrent(v.database, d.pgDatabase), OrCurrent(v.sslMode, d.sslMode),
      OrCurrent(v.timeZone, d.timeZone))
  }

  /** Field by field: a variable that is not set, and a port that is no number, leave the field alone. */
  lemma LoadedFields(d: DBConfig, v: Vars)
    ensures var c := Loaded(d, v);
            && c.driver == (if v.driver != "" then v.driver else d.driver)
            && c.database == (if v.path != "" then v.path else d.database)
            && c.walMode == (if v.walMode != "" then v.walMode in {"true", "1"} else d.walMode)
            && c.host == (if v.host != "" then v.host else d.host)
            && c.port == (if ParseInt64(v.port).Some? then ParseInt64(v.port).value else d.port)
            && c.user == (if v.user != "" then v.user else d.user)
            && c.password == (if v.password != "" then v.password else d.password)
            && c.pgDatabase == (if v.database != "" then v.database else d.pgDatabase)
            && c.sslMode == (if v.sslMode != "" then v.sslMode else d.sslMode)
            && c.timeZone == (if v.timeZone != "" then v.timeZone else d.timeZone)
  {
    hide ParseInt64;
  }

  /** The same driver, and the same values for everything that driver uses. */
  predicate SameForDriver(a: DBConfig, c: DBConfig) {
    && a.driver == c.driver
    && (IsSqlite(c.driver) ==> a.database == c.database && a.walMode == c.walMode)
    && (IsPostgres(c.driver) ==>
          && a.host == c.host && a.port == c.port && a.user == c.user && a.password == c.password
          && a.pgDatabase == c.pgDatabase && a.sslMode == c.sslMode && a.timeZone == c.timeZone)
  }

  /**
   * A saved text comes back: a variable that is set already must lead to it by itself; otherwise it must not
   * be empty, for an empty value is not written, unless the default is empty too.
   */
  predicate TextComesBack(env: Environment, k: string, saved: string, default: string) {
    if k in env then OrCurrent(env[k], default) == saved else saved == "" ==> default == ""
  }

  predicate ComesBack(env: Environment, d: DBConfig, c: DBConfig) {
    && TextComesBack(env, "DB_DRIVER", c.driver, d.driver)
    && (IsSqlite(c.driver) ==>
          && TextComesBack(env, "DB_PATH", c.database, d.database)
          && ("DB_WAL_MODE" in env ==> WalModeOf(env["DB_WAL_MODE"], d.walMode) == c.walMode))
    && (IsPostgres(c.driver) ==>
          && TextComesBack(env, "PG_HOST", c.host, d.host)
          && ("PG_PORT" in env ==> PortOf(env["PG_PORT"], d.port) == c.port)
          && TextComesBack(env, "PG_USER", c.user, d.user)
          && TextComesBack(env, "PG_PASSWORD", c.password, d.password)
          && TextComesBack(env, "PG_DATABASE", c.pgDatabase, d.pgDatabase)
          && TextComesBack(env, "PG_SSLMODE", c.sslMode, d.sslMode)
          && TextComesBack(env, "PG_TIMEZONE", c.timeZone, d.timeZone))
  }

  lemma FileSettingIsSaved(c: DBConfig, file: Option<string>, k: string)
    requires OneLineValues(EnvKv(c)) && forall line :: line in FileLines(file) ==> !EndsWith(line, '\r')
    requires k in MANAGED
    ensures FileSetting(ReadLines(Saved(c, file)), k) == SettingOf(c, k)
  {
    hide ReadLines, Saved, ReadSetting, SettingOf;
    SavedReadsBack(c, file, k);
    assert ValueOf(EnvKv(c), k) == SettingOf(c, k);
  }

  function Exported(env: Environment, c: DBConfig, k: string): string {
    if k in env then env[k] else SettingOf(c, k)
  }

  function VarsFor(env: Environment, c: DBConfig): Vars {
    Vars(Exported(env, c, "DB_DRIVER"), Exported(env, c, "DB_PATH"), Exported(env, c, "DB_WAL_MODE"),
         Exported(env, c, "PG_HOST"), Exported(env, c, "PG_PORT"), Exported(env, c, "PG_USER"),
         Exported(env, c, "PG_PASSWORD"), Exported(env, c, "PG_DATABASE"), Exported(env, c, "PG_SSLMODE"),
         Exported(env, c, "PG_TIMEZONE"))
  }

  lemma SavedVars(env: Environment, c: DBConfig, file: Option<string>)
    requires OneLineValues(EnvKv(c)) && forall line :: line in FileLines(file) ==> !EndsWith(line, '\r')
    ensures VarsIn(env, ReadLines(Saved(c, file))) == VarsFor(env, c)
  {
    hide ReadLines, Saved, FileSetting, EnvKv, SettingOf, OneLineValues, FileLines, EndsWith;
    FileSettingIsSaved(c, file, MANAGED[0]);
    FileSettingIsSaved(c, file, MANAGED[1]);
    FileSettingIsSaved(c, file, MANAGED[2]);
    FileSettingIsSaved(c, file, MANAGED[3]);
    FileSettingIsSaved(c, file, MANAGED[4]);
    FileSettingIsSaved(c, file, MANAGED[5]);
    FileSettingIsSaved(c, file, MANAGED[6]);
    FileSettingIsSaved(c, file, MANAGED[7]);
    FileSettingIsSaved(c, file, MANAGED[8]);
    FileSettingIsSaved(c, file, MANAGED[9]);
  }

  lemma TextBackIff(env: Environment, c: DBConfig, k: string, default: string)
    ensures OrCurrent(Exported(env, c, k), default) == SettingOf(c, k) <==>
            TextComesBack(env, k, SettingOf(c, k), default)
  {
    hide SettingOf;
  }

  lemma LoadedIff(env: Environment, d: DBConfig, c: DBConfig)
    requires IsInt64(c.port)
    ensures SameForDriver(Loaded(d, VarsFor(env, c)), c) <==> ComesBack(env, d, c)
  {
    hide SettingOf, Decimal, ParseInt64, TextComesBack, OrCurrent;
    SettingsOf(c);
    TextBackIff(env, c, "DB_DRIVER", d.driver);
    if IsSqlite(c.driver) {
      TextBackIff(env, c, "DB_PATH", d.database);
      assert WalModeOf(BoolText(c.walMode), d.walMode) == c.walMode by { WalModeBack(c.walMode, d.walMode); }
    }
    if IsPostgres(c.driver) {
      ParseDecimal(c.port);
      TextBackIff(env, c, "PG_HOST", d.host);
      TextBackIff(env, c, "PG_USER", d.user);
      TextBackIff(env, c, "PG_PASSWORD", d.password);
      TextBackIff(env, c, "PG_DATABASE", d.pgDatabase);
      TextBackIff(env, c, "PG_SSLMODE", d.sslMode);
      TextBackIff(env, c, "PG_TIMEZONE", d.timeZone);
    }
  }

  lemma WalModeBack(walMode: bool, current: bool)
    ensures WalModeOf(BoolText(walMode), current) == walMode
  {
    assert BoolText(false)[0] == 'f';
  }

  /**
   * Saving a configuration and starting again, in any environment, gives it back exactly when, for every key
   * that the driver uses, the environment leads to the saved value by itself, or does not set the key and the
   * value is empty only where the default is.
   */
  lemma SaveThenLoadIff(env: Environment, d: DBConfig, c: DBConfig, file: Option<string>)
    requires OneLineValues(EnvKv(c)) && forall line :: line in FileLines(file) ==> !EndsWith(line, '\r')
    requires IsInt64(c.port)
    ensures SameForDriver(Loaded(d, VarsIn(env, ReadLines(Saved(c, file)))), c) <==> ComesBack(env, d, c)
  {
    hide ReadLines, Saved, VarsIn, VarsFor, Loaded, SameForDriver, ComesBack;
    SavedVars(env, c, file);
    LoadedIff(env, d, c);
  }

  /** The defaults that a start begins from. */
  const DEFAULTS := DBConfig("", "db/database.db", true, "127.0.0.1", 5432, "", "", "", "disable", "Local")

  /** A concrete case: an empty SSL mode comes back as the default one. */
  lemma EmptySslModeIsLost()
    ensures var c := DEFAULTS.(driver := "postgres", user := "u", pgDatabase := "p", sslMode := "");
            !SameForDriver(Loaded(DEFAULTS, VarsIn(map[], ReadLines(Saved(c, None)))), c)
  {
    hide ReadLines, Saved, VarsIn, Loaded, SameForDriver;
    var c := DEFAULTS.(driver := "postgres", user := "u", pgDatabase := "p", sslMode := "");
    assert IsPostgres(c.driver);
    assert OneLineFields(c);
    FieldsGiveOneLineValues(c);
    SaveThenLoadIff(map[], DEFAULTS, c, None);
    assert !TextComesBack(map[], "PG_SSLMODE", c.sslMode, DEFAULTS.sslMode);
  }

  /** Another: the driver is exported already, so the saved one is not used. */
  lemma ExportedDriverWins()
    ensures var c := DEFAULTS.(driver := "sqlite");
            !SameForDriver(Loaded(DEFAULTS, VarsIn(map["DB_DRIVER" := "postgres"], ReadLines(Saved(c, None)))), c)
  {
    hide ReadLines, Saved, VarsIn, Loaded, SameForDriver;
    var c := DEFAULTS.(driver := "sqlite");
    var env: Environment := map["DB_DRIVER" := "postgres"];
    assert OneLineFields(c);
    FieldsGiveOneLineValues(c);
    SaveThenLoadIff(env, DEFAULTS, c, None);
    assert "sqlite"[0] != "postgres"[0];
    assert !TextComesBack(env, "DB_DRIVER", c.driver, DEFAULTS.driver);
  }

  predicate OneLineFields(c: DBConfig) {
    && '\n' !in c.driver && '\n' !in c.database && '\n' !in c.host && '\n' !in c.user && '\n' !in c.password
    && '\n' !in c.pgDatabase && '\n' !in c.sslMode && '\n' !in c.timeZone
  }

  /** Values have no line breaks when the fields have none. */
  lemma FieldsGiveOneLineValues(c: DBConfig)
    requires OneLineFields(c)
    ensures OneLineValues(EnvKv(c))
  {
    hide Decimal;
    ParseDecimal(c.port);
    forall k | k in MANAGED
      ensures '\n' !in ValueOf(EnvKv(c), k) {
      SettingIsOneLine(c, k);
      hide SettingOf;
    }
  }

  lemma SettingIsOneLine(c: DBConfig, k: string)
    requires OneLineFields(c)
    ensures '\n' !in SettingOf(c, k)
  {
    hide Decimal;
    ParseDecimal(c.port);
  }

  lemma SettingsOf(c: DBConfig)
    ensures SettingOf(c, "DB_DRIVER") == c.driver
    ensures IsSqlite(c.driver) ==>
              SettingOf(c, "DB_PATH") == c.database && SettingOf(c, "DB_WAL_MODE") == BoolText(c.walMode)
    ensures IsPostgres(c.driver) ==>
              && SettingOf(c, "PG_HOST") == c.host && SettingOf(c, "PG_PORT") == Decimal(c.port)
              && SettingOf(c, "PG_USER") == c.user && SettingOf(c, "PG_PASSWORD") == c.password
              && SettingOf(c, "PG_DATABASE") == c.pgDatabase && SettingOf(c, "PG_SSLMODE") == c.sslMode
              && SettingOf(c, "PG_TIMEZONE") == c.timeZone
  {
  }

  /** loadFromEnv: a field is replaced when its variable is set. */
  method LoadFromEnv(start: DBConfig, v: Vars) returns (config: DBConfig)
    ensures config == Loaded(start, v)
  {
    hide ParseInt64;
    config := start;
    if v.driver != "" { config := config.(driver := v.driver); }
    if v.path != "" { config := config.(database := v.path); }
    if v.walMode != "" { config := config.(walMode := v.walMode == "true" || v.walMode == "1"); }
    assert (config.driver, config.database) == (OrCurrent(v.driver, start.driver), OrCurrent(v.path, start.database));
    config := LoadPostgres(config, v);
  }

  method LoadPostgres(start: DBConfig, v: Vars) returns (config: DBConfig)
    ensures var loaded := Loaded(start, v);
            config == loaded.(driver := start.driver, database := start.database, walMode := start.walMode)
  {
    hide ParseInt64;
    config := start;
    if v.host != "" { config := config.(host := v.host); }
    EmptyIsNoNumber();
    if v.port != "" {
      var n := ParseInt64(v.port);
      if n.Some? { config := config.(port := n.value); }
    }
    if v.user != "" { config := config.(user := v.user); }
    if v.password != "" { config := config.(password := v.password); }
    assert config == start.(host := OrCurrent(v.host, start.host), port := PortOf(v.port, start.port),
                            user := OrCurrent(v.user, start.user), password := OrCurrent(v.password, start.password));
    if v.database != "" { config := config.(pgDatabase := v.database); }
    if v.sslMode != "" { config := config.(sslMode := v.sslMode); }
    if v.timeZone != "" { config := config.(timeZone := v.timeZone); }
  }

  lemma EmptyIsNoNumber()
    ensures ParseInt64("") == None
  {
  }

  // -------------------------------------------------------------------- the loops

  /** The loop over the lines of the file. */
  method RewriteLines(kv: Settings, existing: Lines) returns (out: Lines, seen: set<string>)
    ensures out == Body(kv, existing)
    ensures forall k :: k in MANAGED ==> (k in seen <==> HasKey(existing, k))
  {
    hide ParseKey, FormatLine, HasKey, ValueOf;
    seen, out := {}, [];
    forall k
      ensures !HasKey(existing[..0], k) {
      HasKeyIff(existing[..0], k);
    }
    for i := 0 to |existing|
      invariant out == Body(kv, existing[..i])
      invariant forall k :: k in MANAGED ==> (k in seen <==> HasKey(existing[..i], k))
    {
      var line := existing[i];
      assert existing[..i + 1][..i] == existing[..i];
      assert existing[..i] + [line] == existing[..i + 1];
      forall k
        ensures HasKey(existing[..i + 1], k) <==> HasKey(existing[..i], k) || ParseKey(line) == Some(k) {
        HasKeySnoc(existing[..i], line, k);
      }
      match ParseKey(line)
      case None => out := out + [line];
      case Some(key) =>
        if key !in MANAGED {
          out := out + [line];
        } else {
          seen := seen + {key};
          var newVal := ValueOf(kv, key);
          if newVal != "" {
            out := out + [FormatLine(key, newVal)];
          }
        }
    }
    assert existing[..|existing|] == existing;
  }

  /** SaveToEnvFile: the new content of the file, from what it held, if it existed. */
  method SaveToEnvFile(c: DBConfig, file: Option<string>) returns (content: string)
    ensures content == Saved(c, file)
  {
    hide ParseKey, FormatLine, EnvKv, ReadLines, HasKey, TrimSpace, Join, Body, Missing;
    var kv := EnvKv(c);
    var existing := FileLines(file);
    var out, seen := RewriteLines(kv, existing);
    ghost var body := out;
    var missing := CollectMissing(kv, existing, seen);
    if missing != [] {
      if file.Some? && out != [] && TrimSpace(out[|out| - 1]) != "" {
        out := out + [""];
      }
      out := out + [HEADER];
      assert out == body + Heading(file.Some?, body);
      out := AppendFormatted(kv, out, missing);
    }
    content := Join(out, '\n');
    if !EndsWith(content, '\n') {
      content := content + "\n";
    }
  }

  method AppendFormatted(kv: Settings, lines: Lines, missing: seq<string>) returns (out: Lines)
    ensures out == lines + FormatAll(kv, missing)
  {
    hide FormatLine, ValueOf;
    out := lines;
    for i := 0 to |missing|
      invariant out == lines + FormatAll(kv, missing[..i])
    {
      assert missing[..i + 1][..i] == missing[..i];
      out := out + [FormatLine(missing[i], ValueOf(kv, missing[i]))];
    }
    assert missing[..|missing|] == missing;
  }

  method CollectMissing(kv: Settings, existing: Lines, seen: set<string>) returns (missing: seq<string>)
    requires forall k :: k in MANAGED ==> (k in seen <==> HasKey(existing, k))
    ensures missing == Missing(kv, existing, MANAGED)
  {
    hide HasKey, ValueOf;
    missing := [];
    for i := 0 to |MANAGED|
      invariant missing == Missing(kv, existing, MANAGED[..i])
    {
      assert MANAGED[..i + 1][..i] == MANAGED[..i];
      assert MANAGED[i] in MANAGED;
      if MANAGED[i] !in seen && ValueOf(kv, MANAGED[i]) != "" {
        missing := missing + [MANAGED[i]];
      }
    }
    assert MANAGED[..|MANAGED|] == MANAGED;
  }
}
