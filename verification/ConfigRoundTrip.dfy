/** When printing a configuration and parsing it back gives it again: exactly for
    the configurations of the parser's shape whose drive names the two letter-case
    mappings give back. */
module ConfigRoundTrip {
  import opened Common
  import opened Text
  import opened Config

  // ---------------------------------------------------------------- what parsing produces

  ghost predicate CleanOptional(o: Option<string>) { o.Some? ==> o.value != "" && Clean(o.value) }

  /** Every field can be read back from its own line, the two directories are the
      defaults, and the two default drives are present. */
  ghost predicate Shaped(env: Env, c: Config) {
    && Clean(c.wslDistro) && Clean(c.dockerService) && Clean(c.filePrefix)
    && Clean(c.macosEndpoint) && Clean(c.macosToken) && Clean(c.weightsPath)
    && CleanOptional(c.webhookUrl) && CleanOptional(c.dispatchModelPath)
    && c.logDir == env.logsDir && c.historyDir == env.eventsDir
    && "C" in c.drives && "D" in c.drives
    && (forall l :: l in c.drives ==> Bare(l) && Clean(c.drives[l]))
  }

  /** Lowering a drive name for its line and raising it again gives it back. */
  predicate Settled(env: Env, name: string) { Refold(env, name) == name }

  ghost predicate AllSettled(env: Env, c: Config) { forall l :: l in c.drives ==> Settled(env, l) }

  ghost predicate Normal(env: Env, c: Config) { Shaped(env, c) && AllSettled(env, c) }

  lemma DefaultDrives(env: Env)
    requires GoodCase(env)
    ensures Bare("C") && Bare("D") && Settled(env, "C") && Settled(env, "D") && Clean("/mnt/c") && Clean("/mnt/d")
  {
    assert Upper("C") == "C" && Upper("D") == "D";
    assert Bare("C") && Bare("D") && IsAscii("C") && IsAscii("D");
    hide GoodCase, Bare, Settled;
    AsciiSettles(env, "C");
    AsciiSettles(env, "D");
  }

  /** An upper-case ASCII name is settled. */
  lemma AsciiSettles(env: Env, s: string)
    requires GoodCase(env) && IsAscii(s)
    ensures env.upper(s) == Upper(s) && IsAscii(Upper(s)) && Settled(env, Upper(s))
  {
    var u := Upper(s);
    assert IsAscii(u);
    assert env.lower(u) == Lower(u) && IsAscii(Lower(u));
    assert Upper(Lower(u)) == u;
  }

  lemma DefaultTexts()
    ensures Clean("Ubuntu") && Clean("com.docker.service") && Clean("daoti") && Clean("")
  {
  }

  lemma DefaultIsNormal(env: Env)
    requires GoodEnv(env)
    ensures Normal(env, Default(env))
  {
    hide Bare, Clean, Settled, GoodCase;
    DefaultDrives(env);
    DefaultTexts();
  }

  lemma SetKeepsShape(env: Env, c: Config, key: Key, v: string)
    requires Shaped(env, c) && Clean(v) && (key.Drive? ==> Bare(key.name))
    ensures Shaped(env, Set(env, c, key, v))
  {
  }

  /** What stands on the left of an equals sign selects a drive name of the right shape. */
  lemma KeyOfName(env: Env, k: string)
    requires GoodCase(env) && Free(k, '\n') && Free(k, '=') && Tight(IsWhite, k)
    ensures KeyOf(env, k).Some? && KeyOf(env, k).value.Drive? ==> Bare(KeyOf(env, k).value.name)
  {
    if KeyOf(env, k).Some? && KeyOf(env, k).value.Drive? {
      var rest := k[|DrivePrefix()|..];
      hide KeyOf, Settled;
      assert rest != "" ==> rest[|rest| - 1] == k[|k| - 1];
      assert Bare(rest);
    }
  }

  lemma LineKeepsShape(env: Env, c: Config, raw: string)
    requires GoodCase(env) && Shaped(env, c) && Free(raw, '\n')
    ensures Shaped(env, ApplyLine(env, c, raw))
  {
    hide Shaped, Set, KeyOf, IsWhite, IsQuote, GoodCase;
    var line := Trim(raw);
    TrimEffect(IsWhite, raw);
    var i := IndexOf(line, '=');
    if i < |line| {
      var k, v := Trim(line[..i]), Trim(line[i + 1..]);
      TrimEffect(IsWhite, line[..i]);
      TrimEffect(IsWhite, line[i + 1..]);
      TrimEffect(IsQuote, v);
      KeyOfName(env, k);
      if KeyOf(env, k).Some? { SetKeepsShape(env, c, KeyOf(env, k).value, Unquote(v)); }
    }
  }

  lemma {:induction false} ParseToIsShaped(env: Env, lines: seq<string>, n: nat)
    requires GoodEnv(env) && n <= |lines| && forall k :: 0 <= k < |lines| ==> Free(lines[k], '\n')
    ensures Shaped(env, ParseTo(env, lines, n))
  {
    hide Shaped, ApplyLine, GoodCase;
    if n == 0 {
      DefaultIsNormal(env);
    } else {
      ParseToIsShaped(env, lines, n - 1);
      LineKeepsShape(env, ParseTo(env, lines, n - 1), lines[n - 1]);
    }
  }

  /** Whatever the text, the parser's result has this shape. */
  lemma ParseIsShaped(env: Env, text: string)
    requires GoodEnv(env)
    ensures Shaped(env, Parse(env, text))
  {
    LinesAreFree(text);
    ParseToIsShaped(env, Lines(text), |Lines(text)|);
  }

  /** A line of ASCII text names only settled drives. */
  lemma AsciiLineSettles(env: Env, c: Config, raw: string)
    requires GoodCase(env) && AllSettled(env, c) && IsAscii(raw)
    ensures AllSettled(env, ApplyLine(env, c, raw))
  {
    hide Set, IsWhite, IsQuote, GoodCase, Settled;
    var line := Trim(raw);
    TrimEffect(IsWhite, raw);
    var i := IndexOf(line, '=');
    if i < |line| {
      var k, v := Trim(line[..i]), Unquote(Trim(line[i + 1..]));
      TrimEffect(IsWhite, line[..i]);
      assert IsAscii(k);
      KeyOfAsciiSettles(env, k);
      hide KeyOf;
      if KeyOf(env, k).Some? { SetChangesDrive(env, c, KeyOf(env, k).value, v); }
    }
  }

  lemma KeyOfAsciiSettles(env: Env, k: string)
    requires GoodCase(env) && IsAscii(k)
    ensures KeyOf(env, k).Some? && KeyOf(env, k).value.Drive? ==> Settled(env, KeyOf(env, k).value.name)
  {
    if FixedKey(k).None? && DrivePrefix() <= k {
      AsciiSettles(env, k[|DrivePrefix()|..]);
      hide FixedKey, GoodCase, Settled;
    }
  }

  lemma SetChangesDrive(env: Env, c: Config, key: Key, v: string)
    ensures Set(env, c, key, v).drives == if key.Drive? then c.drives[key.name := v] else c.drives
  {
    hide ReadNumber, ReadFlag, ReadRotation, ReadOptional, ReadThreshold;
  }

  lemma {:induction false} AsciiParseSettles(env: Env, lines: seq<string>, n: nat)
    requires GoodEnv(env) && n <= |lines| && forall k :: 0 <= k < |lines| ==> IsAscii(lines[k])
    ensures AllSettled(env, ParseTo(env, lines, n))
  {
    hide ApplyLine, GoodCase, AllSettled;
    if n == 0 {
      DefaultIsNormal(env);
    } else {
      AsciiParseSettles(env, lines, n - 1);
      AsciiLineSettles(env, ParseTo(env, lines, n - 1), lines[n - 1]);
    }
  }

  // ---------------------------------------------------------------- one printed line

  predicate NameChar(ch: char) { 'a' <= ch <= 'z' || ch == '_' }

  ghost predicate NameText(s: string) { s != "" && forall i :: 0 <= i < |s| ==> NameChar(s[i]) }

  // The fixed keys by section of the file.

  predicate GeneralKey(key: Key) {
    key.WslDistro? || key.DockerService? || key.SensorSecs? || key.ExecSecs? || key.EndpointProbeSecs?
    || key.SamplingSecs?
  }

  predicate LogKey(key: Key) {
    key.LogRotation? || key.LogMaxFiles? || key.LogFilePrefix? || key.HistoryMaxEvents?
  }

  predicate NotifyKey(key: Key) {
    key.NotifyWindows? || key.WebhookUrl? || key.MacosEndpoint? || key.MacosToken?
  }

  predicate ModelKey(key: Key) { key.ModelEnabled? || key.ModelWeightsPath? || key.ModelDim? }

  predicate NetworkKey(key: Key) { key.ModelTIter? || key.ModelThreshold? || key.DispatchModelPath? }

  lemma GeneralNames(env: Env, key: Key)
    requires GeneralKey(key)
    ensures NameText(Name(env, key))
  {
    hide FixedKey;
  }

  lemma LogNames(env: Env, key: Key)
    requires LogKey(key)
    ensures NameText(Name(env, key))
  {
    hide FixedKey;
  }

  lemma NotifyNames(env: Env, key: Key)
    requires NotifyKey(key)
    ensures NameText(Name(env, key))
  {
    hide FixedKey;
  }

  lemma ModelNames(env: Env, key: Key)
    requires ModelKey(key)
    ensures NameText(Name(env, key))
  {
    hide FixedKey;
  }

  lemma NetworkNames(env: Env, key: Key)
    requires NetworkKey(key)
    ensures NameText(Name(env, key))
  {
    hide FixedKey;
  }

  lemma FixedNames(env: Env, key: Key)
    requires !key.Drive?
    ensures NameText(Name(env, key))
  {
    hide Name, NameText;
    if GeneralKey(key) {
      GeneralNames(env, key);
    } else if LogKey(key) {
      LogNames(env, key);
    } else if NotifyKey(key) {
      NotifyNames(env, key);
    } else if ModelKey(key) {
      ModelNames(env, key);
    } else {
      NetworkNames(env, key);
    }
  }

  lemma FixedLookup(env: Env, key: Key)
    requires !key.Drive?
    ensures FixedKey(Name(env, key)) == Some(key)
  {
    hide NameChar;
  }

  lemma NoFixedName(k: string)
    requires |k| >= 2 && k[0] == 'd' && k[1] == 'r'
    ensures FixedKey(k).None?
  {
  }

  lemma PrefixFacts(rest: string)
    ensures var k := DrivePrefix() + rest;
            && k[0] == 'd' && k[1] == 'r' && |DrivePrefix()| == 6
            && Free(DrivePrefix(), '=') && Free(DrivePrefix(), '\n')
            && k[6..] == rest && DrivePrefix() <= k && DrivePrefix()[5] == '_'
  {
  }

  /** The key a printed key is read back as. */
  function Reread(env: Env, key: Key): Key { if key.Drive? then Drive(Refold(env, key.name)) else key }

  /** A printed name selects the key it was printed for, a drive under its refolded name. */
  lemma NameIsRead(env: Env, key: Key)
    ensures KeyOf(env, Name(env, key)) == Some(Reread(env, key))
  {
    if key.Drive? {
      DriveIsRead(env, env.lower(key.name));
      hide FixedKey, KeyOf;
    } else {
      FixedLookup(env, key);
      hide FixedKey;
    }
  }

  lemma DriveIsRead(env: Env, rest: string)
    ensures KeyOf(env, DrivePrefix() + rest) == Some(Drive(env.upper(rest)))
  {
    hide FixedKey;
    PrefixFacts(rest);
    NoFixedName(DrivePrefix() + rest);
  }

  /** Not blank at the ends, no equals sign, no line break, no comment or section mark in front. */
  ghost predicate LeftSide(s: string) {
    s != "" && Tight(IsWhite, s) && Free(s, '=') && Free(s, '\n') && s[0] != '#' && s[0] != '['
  }

  lemma NameTextIsLeftSide(s: string)
    requires NameText(s)
    ensures LeftSide(s)
  {
    assert NameChar(s[0]) && NameChar(s[|s| - 1]);
  }

  lemma DriveIsLeftSide(rest: string)
    requires Bare(rest)
    ensures LeftSide(DrivePrefix() + rest)
  {
    PrefixFacts(rest);
    var k := DrivePrefix() + rest;
    hide DrivePrefix;
    assert k[|k| - 1] == if rest == "" then '_' else rest[|rest| - 1];
  }

  lemma NameIsLeftSide(env: Env, key: Key)
    requires GoodCase(env) && (key.Drive? ==> Bare(key.name))
    ensures LeftSide(Name(env, key))
  {
    hide LeftSide, NameText;
    if key.Drive? {
      assert Bare(env.lower(key.name));
      hide Bare;
      DriveIsLeftSide(env.lower(key.name));
    } else {
      FixedNames(env, key);
      NameTextIsLeftSide(Name(env, key));
    }
  }

  /** What a key's value may look like on its line. */
  ghost predicate Fits(key: Key, v: string) { if Quoted(key) then Clean(v) else Token(v) }

  lemma RenderedIsTight(key: Key, v: string)
    requires Fits(key, v)
    ensures var r := Rendered(key, v); r != "" && Tight(IsWhite, r) && Free(r, '\n') && Unquote(r) == v
  {
    if Quoted(key) {
      TrimPadded(IsQuote, "\"", v, "\"");
    } else {
      TrimPadded(IsQuote, "", v, "");
      assert "" + v + "" == v;
    }
  }

  /** Cutting a line `name = value` at its first equals sign gives name and value back. */
  lemma CutAssignment(n: string, r: string)
    requires LeftSide(n) && r != "" && Tight(IsWhite, r)
    ensures var l := n + " = " + r; var i := |n| + 1;
            && Trim(l) == l && IndexOf(l, '=') == i && Trim(l[..i]) == n && Trim(l[i + 1..]) == r
  {
    hide TrimBy;
    var l, i := n + " = " + r, |n| + 1;
    assert l[0] == n[0] && l[|l| - 1] == r[|r| - 1];
    assert "" + l + "" == l;
    TrimPadded(IsWhite, "", l, "");
    IndexOfUnique(l, '=', i);
    assert l[..i] == "" + n + " ";
    TrimPadded(IsWhite, "", n, " ");
    assert l[i + 1..] == " " + r + "";
    TrimPadded(IsWhite, " ", r, "");
  }

  lemma AssignLineIsPlain(env: Env, key: Key, v: string)
    requires GoodCase(env) && (key.Drive? ==> Bare(key.name)) && Fits(key, v)
    ensures Plain(AssignLine(env, key, v))
  {
    hide Name, Rendered, Fits, Unquote, GoodCase;
    var n, r := Name(env, key), Rendered(key, v);
    NameIsLeftSide(env, key);
    RenderedIsTight(key, v);
    var l := AssignLine(env, key, v);
    assert l == n + " = " + r && l[|l| - 1] == r[|r| - 1];
  }

  /** A line `name = value` sets the key its name selects to the value. */
  lemma LineIsRead(env: Env, c: Config, n: string, key: Key, v: string)
    requires LeftSide(n) && KeyOf(env, n) == Some(key) && Fits(key, v)
    ensures ApplyLine(env, c, n + " = " + Rendered(key, v)) == Set(env, c, key, v)
  {
    hide Rendered, KeyOf, Set, Unquote, Fits, Trim, IsWhite, IsQuote;
    var r := Rendered(key, v);
    RenderedIsTight(key, v);
    CutAssignment(n, r);
    var l := n + " = " + r;
    assert l[0] == n[0];
  }

  /** A printed line sets its key, a drive under its refolded name, to the printed value. */
  lemma AssignLineIsRead(env: Env, c: Config, key: Key, v: string)
    requires GoodCase(env) && (key.Drive? ==> Bare(key.name)) && Fits(key, v)
    ensures ApplyLine(env, c, AssignLine(env, key, v)) == Set(env, c, Reread(env, key), v)
  {
    hide Name, KeyOf, Set, ApplyLine, GoodCase;
    NameIsLeftSide(env, key);
    NameIsRead(env, key);
    LineIsRead(env, c, Name(env, key), Reread(env, key), v);
  }

  lemma NoteIsSkipped(env: Env, c: Config, n: nat)
    ensures Plain(Note(n)) && ApplyLine(env, c, Note(n)) == c
  {
    NoteShape(n);
    hide Note, Set, KeyOf;
    var t := Note(n);
    TrimStartEffect(IsWhite, t);
    TrimEndEffect(IsWhite, TrimStart(IsWhite, t));
    assert t != "" ==> TrimStart(IsWhite, t) == t;
  }

  lemma NoteShape(n: nat)
    ensures Plain(Note(n)) && (Note(n) != "" ==> Note(n)[0] == '#')
  {
    if n < 4 { EarlyNotes(n); } else { LateNotes(n); }
    hide Note, Plain;
  }

  lemma EarlyNotes(n: nat)
    requires n < 4
    ensures Plain(Note(n)) && (Note(n) != "" ==> Note(n)[0] == '#')
  {
    if n == 0 { assert Plain(Note(0)); }
    else if n == 1 { assert Plain(Note(1)); }
    else if n == 2 { assert Plain(Note(2)); }
    else { assert Plain(Note(3)); }
  }

  lemma LateNotes(n: nat)
    requires n >= 4
    ensures Plain(Note(n)) && (Note(n) != "" ==> Note(n)[0] == '#')
  {
    if n == 4 { assert Plain(Note(4)); }
    else if n == 5 { assert Plain(Note(5)); }
    else if n == 6 { assert Plain(Note(6)); }
  }

  ghost predicate NamesNoKey(env: Env, line: string) {
    exists i :: 0 <= i < |line| && line[i] == '=' && Free(line[..i], '=') && KeyOf(env, Trim(line[..i])) == None
  }

  /** Blank lines, comments, section heads and lines without an equals sign change
      nothing, nor does a line that names no key. */
  lemma OtherLinesAreSkipped(env: Env, c: Config, raw: string)
    requires var line := Trim(raw);
             line == "" || line[0] == '#' || line[0] == '[' || Free(line, '=')
             || NamesNoKey(env, line)
    ensures ApplyLine(env, c, raw) == c
  {
    hide Trim, KeyOf, Set;
    var line := Trim(raw);
    if NamesNoKey(env, line) {
      var i :| 0 <= i < |line| && line[i] == '=' && Free(line[..i], '=') && KeyOf(env, Trim(line[..i])) == None;
      assert forall j :: 0 <= j < i ==> line[j] == line[..i][j];
      IndexOfUnique(line, '=', i);
    }
  }

  /** A name selects a fixed key only under that key's own spelling, and a drive only
      behind its prefix. */
  lemma NamesAreExact(env: Env, k: string)
    ensures KeyOf(env, k).Some? && !KeyOf(env, k).value.Drive? ==> k == Name(env, KeyOf(env, k).value)
    ensures KeyOf(env, k).Some? && KeyOf(env, k).value.Drive? ==>
              DrivePrefix() <= k && KeyOf(env, k).value == Drive(env.upper(k[6..]))
    ensures KeyOf(env, k).None? ==> !(DrivePrefix() <= k)
  {
    FixedKeyIsExact(env, k);
    hide FixedKey, Name;
  }

  lemma FixedKeyIsExact(env: Env, k: string)
    ensures FixedKey(k).Some? ==> !FixedKey(k).value.Drive? && k == Name(env, FixedKey(k).value)
  {
    if |k| < 13 {
      ShortKeyIsExact(env, k);
    } else if |k| < 15 {
      MiddleKeyIsExact(env, k);
    } else {
      LongKeyIsExact(env, k);
    }
    hide FixedKey, Name;
  }

  lemma ShortKeyIsExact(env: Env, k: string)
    requires |k| < 13
    ensures FixedKey(k).Some? ==> !FixedKey(k).value.Drive? && k == Name(env, FixedKey(k).value)
  {
  }

  lemma MiddleKeyIsExact(env: Env, k: string)
    requires 13 <= |k| < 15
    ensures FixedKey(k).Some? ==> !FixedKey(k).value.Drive? && k == Name(env, FixedKey(k).value)
  {
  }

  lemma LongKeyIsExact(env: Env, k: string)
    requires |k| >= 15
    ensures FixedKey(k).Some? ==> !FixedKey(k).value.Drive? && k == Name(env, FixedKey(k).value)
  {
  }

  // ---------------------------------------------------------------- the file of the defaults

  lemma SmallNumbers()
    ensures Decimal(3) == "3" && Decimal(5) == "5" && Decimal(7) == "7" && Decimal(10) == "10" && Decimal(30) == "30"
    ensures Decimal(5000) == "5000" && Decimal(2048) == "2048"
  {
    assert Decimal(1) == "1" && Decimal(50) == "50" && Decimal(500) == "500";
    assert Decimal(2) == "2" && Decimal(20) == "20" && Decimal(204) == "204";
  }

  function Pair(name: string, value: string): string { name + " = " + value }

  function Quote(v: string): string { "\"" + v + "\"" }

  /** The line of a key in the file of the defaults. */
  ghost predicate Says(env: Env, key: Key, line: string) {
    ValueText(env, Default(env), key).Some? && Line(env, Default(env), Keyed(key)) == line
  }

  lemma GeneralLines(env: Env)
    ensures Says(env, WslDistro, Pair("wsl_distro", Quote("Ubuntu")))
    ensures Says(env, DockerService, Pair("docker_service", Quote("com.docker.service")))
  {
    hide Decimal, FixedKey;
  }

  lemma TimeoutLines(env: Env)
    ensures Says(env, SensorSecs, Pair("sensor_secs", "5")) && Says(env, ExecSecs, Pair("exec_secs", "10"))
    ensures Says(env, EndpointProbeSecs, Pair("endpoint_probe_secs", "3"))
    ensures Says(env, SamplingSecs, Pair("sampling_secs", "30"))
  {
    SmallNumbers();
    hide Decimal, FixedKey;
  }

  lemma LogLines(env: Env)
    ensures Says(env, LogRotation, Pair("log_rotation", Quote("daily")))
    ensures Says(env, LogMaxFiles, Pair("log_max_files", "7"))
    ensures Says(env, LogFilePrefix, Pair("log_file_prefix", Quote("daoti")))
    ensures Says(env, HistoryMaxEvents, Pair("history_max_events", "5000"))
  {
    SmallNumbers();
    hide Decimal, FixedKey;
  }

  lemma NotifyLines(env: Env)
    ensures Says(env, NotifyWindows, Pair("notify_windows", "true"))
    ensures Says(env, MacosEndpoint, Pair("macos_endpoint", Quote("")))
  {
    hide Decimal, FixedKey;
  }

  lemma ModelLines(env: Env)
    ensures Says(env, ModelEnabled, Pair("model_enabled", "true"))
    ensures Says(env, ModelWeightsPath, Pair("model_weights_path", Quote(env.weightsPath)))
  {
    hide Decimal, FixedKey;
  }

  lemma NetworkLines(env: Env)
    ensures Says(env, ModelDim, Pair("model_dim", "2048")) && Says(env, ModelTIter, Pair("model_t_iter", "5"))
    ensures Says(env, ModelThreshold, Pair("model_confidence_threshold", env.format(env.threshold)))
  {
    SmallNumbers();
    hide Decimal, FixedKey;
  }

  // The text a default configuration is saved as, section by section.

  lemma DefaultGeneral(env: Env)
    ensures var c, g := Default(env), GeneralItems();
            && Printable(env, c, g)
            && LinesOf(env, c, g) ==
               ["# 驭灵·道体 配置文件（由 `daoti init` 自动生成）", "# 手动修改后重启 CLI/Daemon 生效",
                "", Pair("wsl_distro", Quote("Ubuntu")), Pair("docker_service", Quote("com.docker.service")),
                Pair("sensor_secs", "5"), Pair("exec_secs", "10"), Pair("endpoint_probe_secs", "3"),
                Pair("sampling_secs", "30")]
  {
    hide ValueText, Pair, Quote, Default, AssignLine;
    GeneralLines(env);
    TimeoutLines(env);
  }

  lemma DefaultLog(env: Env)
    ensures var c, l := Default(env), LogItems();
            && Printable(env, c, l)
            && LinesOf(env, c, l) ==
               ["", "# === 日志轮转（P0-3） ===",
                Pair("log_rotation", Quote("daily")), Pair("log_max_files", "7"),
                Pair("log_file_prefix", Quote("daoti")), Pair("history_max_events", "5000")]
  {
    hide ValueText, Pair, Quote, Default, AssignLine;
    LogLines(env);
  }

  lemma DefaultNotify(env: Env)
    ensures var c, n, m := Default(env), NotifyItems(env, Default(env)), MacosItems(env, Default(env));
            && Printable(env, c, n) && Printable(env, c, m)
            && LinesOf(env, c, n) ==
               ["", "# === 守护主动告警（P0-6） ===", Pair("notify_windows", "true"),
                "# webhook_url = \"\"  # 可选：企业微信/钉钉机器人地址"]
            && LinesOf(env, c, m) == ["", "# === 远程 macOS 节点 ===", Pair("macos_endpoint", Quote(""))]
  {
    NotifyLines(env);
    hide Pair, Quote, AssignLine;
  }

  lemma DefaultModel(env: Env)
    ensures var c, d := Default(env), ModelItems(env, Default(env));
            && Printable(env, c, d)
            && LinesOf(env, c, d) ==
               ["", "# === 模式B B2 双梯形网络增强（道体·化） ===", Pair("model_enabled", "true"),
                Pair("model_weights_path", Quote(env.weightsPath)), Pair("model_dim", "2048"),
                Pair("model_t_iter", "5"), Pair("model_confidence_threshold", env.format(env.threshold))]
  {
    hide ValueText, Pair, Quote, Default, AssignLine, ModelItems;
    DefaultModelItems(env);
    ModelLines(env);
    NetworkLines(env);
  }

  lemma DefaultModelItems(env: Env)
    ensures ModelItems(env, Default(env)) ==
            [Remark(BLANK), Remark(6), Keyed(ModelEnabled), Keyed(ModelWeightsPath), Keyed(ModelDim), Keyed(ModelTIter),
             Keyed(ModelThreshold)]
  {
    hide FixedKey, Decimal;
    var c := Default(env);
    assert ValueText(env, c, DispatchModelPath) == None;
    hide ValueText, Default;
    assert Optionally(env, c, DispatchModelPath) == [];
  }

  lemma DefaultDriveLines(env: Env)
    requires GoodCase(env)
    ensures var c, d := Default(env), DriveItems(["C", "D"]);
            && Enumerates(["C", "D"], c) && Printable(env, c, d)
            && LinesOf(env, c, d) == [Pair("drive_" + "c", Quote("/mnt/c")), Pair("drive_" + "d", Quote("/mnt/d"))]
  {
    LowerDrives(env);
    hide GoodCase, FixedKey;
    var c, d := Default(env), DriveItems(["C", "D"]);
    assert Line(env, c, d[0]) == Pair("drive_" + "c", Quote("/mnt/c"));
    assert Line(env, c, d[1]) == Pair("drive_" + "d", Quote("/mnt/d"));
    hide Line, Pair, Quote;
  }

  lemma LowerDrives(env: Env)
    requires GoodCase(env)
    ensures env.lower("C") == "c" && env.lower("D") == "d"
  {
    assert IsAscii("C") && IsAscii("D") && Lower("C") == "c" && Lower("D") == "d";
  }

  lemma LinesConcat(env: Env, c: Config, a: seq<Item>, b: seq<Item>)
    requires Printable(env, c, a) && Printable(env, c, b)
    ensures Printable(env, c, a + b) && LinesOf(env, c, a + b) == LinesOf(env, c, a) + LinesOf(env, c, b)
  {
    hide Line, ValueText;
  }

  /** The whole file: the sections in this order, and no other drive than C and D. */
  lemma DefaultText(env: Env)
    requires GoodCase(env)
    ensures var c := Default(env);
            var g, l, n, m := GeneralItems(), LogItems(), NotifyItems(env, c), MacosItems(env, c);
            var d, drives := ModelItems(env, c), DriveItems(["C", "D"]);
            && Printable(env, c, g) && Printable(env, c, l) && Printable(env, c, n) && Printable(env, c, m)
            && Printable(env, c, d) && Printable(env, c, drives) && Enumerates(["C", "D"], c)
            && Print(env, c, ["C", "D"]) == Unlines(LinesOf(env, c, g) + LinesOf(env, c, l) + LinesOf(env, c, n)
                                                    + LinesOf(env, c, m) + LinesOf(env, c, d) + LinesOf(env, c, drives))
  {
    DefaultGeneral(env);
    DefaultLog(env);
    DefaultNotify(env);
    DefaultModel(env);
    DefaultDriveLines(env);
    hide Printable, LinesOf, GeneralItems, LogItems, NotifyItems, MacosItems, ModelItems, DriveItems, Unlines, Default,
      Enumerates, GoodCase;
    var c := Default(env);
    var g, l, n, m, d := GeneralItems(), LogItems(), NotifyItems(env, c), MacosItems(env, c), ModelItems(env, c);
    LinesConcat(env, c, g, l);
    LinesConcat(env, c, g + l, n);
    LinesConcat(env, c, g + l + n, m);
    LinesConcat(env, c, g + l + n + m, d);
    LinesConcat(env, c, g + l + n + m + d, DriveItems(["C", "D"]));
  }

  // ---------------------------------------------------------------- the whole file

  datatype Val = TextVal(t: string) | NumVal(n: nat) | FlagVal(b: bool) | RotationVal(r: Rotation)
               | FloatVal(f: F64) | OptionalVal(o: Option<string>)

  /** The field a key stands for. */
  function Get(c: Config, key: Key): Val {
    match key
    case WslDistro => TextVal(c.wslDistro)
    case DockerService => TextVal(c.dockerService)
    case SensorSecs => NumVal(c.sensorSecs)
    case ExecSecs => NumVal(c.execSecs)
    case EndpointProbeSecs => NumVal(c.endpointProbeSecs)
    case SamplingSecs => NumVal(c.samplingSecs)
    case LogRotation => RotationVal(c.rotation)
    case LogMaxFiles => NumVal(c.maxFiles)
    case LogFilePrefix => TextVal(c.filePrefix)
    case HistoryMaxEvents => NumVal(c.historyMaxEvents)
    case NotifyWindows => FlagVal(c.notifyWindows)
    case WebhookUrl => OptionalVal(c.webhookUrl)
    case MacosEndpoint => TextVal(c.macosEndpoint)
    case MacosToken => TextVal(c.macosToken)
    case ModelEnabled => FlagVal(c.modelEnabled)
    case ModelWeightsPath => TextVal(c.weightsPath)
    case ModelDim => NumVal(c.dim)
    case ModelTIter => NumVal(c.tIter)
    case ModelThreshold => FloatVal(c.threshold)
    case DispatchModelPath => OptionalVal(c.dispatchModelPath)
    case Drive(name) => OptionalVal(if name in c.drives then Some(c.drives[name]) else None)
  }

  /** Setting a key changes no field but its own. */
  lemma SetOther(env: Env, c: Config, key: Key, v: string, other: Key)
    requires other != key
    ensures Get(Set(env, c, key, v), other) == Get(c, other)
  {
    if key.Drive? {
      DriveKeepsFields(env, c, key, v, other);
    } else if other.Drive? {
      SetChangesDrive(env, c, key, v);
      hide Set;
    } else {
      FieldKeepsFields(env, c, key, v, other);
    }
    hide Set, Get;
  }

  lemma DriveKeepsFields(env: Env, c: Config, key: Key, v: string, other: Key)
    requires key.Drive? && other != key
    ensures Get(Set(env, c, key, v), other) == Get(c, other)
  {
    assert Set(env, c, key, v) == c.(drives := c.drives[key.name := v]);
    hide Set;
  }

  lemma FieldKeepsFields(env: Env, c: Config, key: Key, v: string, other: Key)
    requires !key.Drive? && !other.Drive? && other != key
    ensures Get(Set(env, c, key, v), other) == Get(c, other)
  {
    if GeneralKey(key) || LogKey(key) {
      EarlyFieldKeepsFields(env, c, key, v, other);
    } else if NotifyKey(key) {
      NotifyFieldKeepsFields(env, c, key, v, other);
    } else {
      ModelFieldKeepsFields(env, c, key, v, other);
    }
    hide Get, Set;
  }

  lemma EarlyFieldKeepsFields(env: Env, c: Config, key: Key, v: string, other: Key)
    requires (GeneralKey(key) || LogKey(key)) && !other.Drive? && other != key
    ensures Get(Set(env, c, key, v), other) == Get(c, other)
  {
    hide ReadNumber, ReadFlag, ReadRotation, ReadOptional, ReadThreshold;
  }

  lemma NotifyFieldKeepsFields(env: Env, c: Config, key: Key, v: string, other: Key)
    requires NotifyKey(key) && !other.Drive? && other != key
    ensures Get(Set(env, c, key, v), other) == Get(c, other)
  {
    hide ReadNumber, ReadFlag, ReadRotation, ReadOptional, ReadThreshold;
  }

  lemma ModelFieldKeepsFields(env: Env, c: Config, key: Key, v: string, other: Key)
    requires (ModelKey(key) || NetworkKey(key)) && !other.Drive? && other != key
    ensures Get(Set(env, c, key, v), other) == Get(c, other)
  {
    hide ReadNumber, ReadFlag, ReadRotation, ReadOptional, ReadThreshold;
  }

  lemma SetKeepsDirs(env: Env, c: Config, key: Key, v: string)
    ensures Set(env, c, key, v).logDir == c.logDir && Set(env, c, key, v).historyDir == c.historyDir
  {
    hide ReadNumber, ReadFlag, ReadRotation, ReadOptional, ReadThreshold;
  }

  ghost predicate Agree(c: Config, d: Config, key: Key) { Get(c, key) == Get(d, key) }

  lemma SameTexts(c: Config, d: Config)
    requires Agree(c, d, WslDistro) && Agree(c, d, DockerService) && Agree(c, d, LogFilePrefix)
    requires Agree(c, d, WebhookUrl) && Agree(c, d, DispatchModelPath)
    requires Agree(c, d, MacosEndpoint) && Agree(c, d, MacosToken) && Agree(c, d, ModelWeightsPath)
    ensures c.wslDistro == d.wslDistro && c.dockerService == d.dockerService && c.filePrefix == d.filePrefix
    ensures c.webhookUrl == d.webhookUrl && c.macosEndpoint == d.macosEndpoint && c.macosToken == d.macosToken
    ensures c.weightsPath == d.weightsPath && c.dispatchModelPath == d.dispatchModelPath
  {
  }

  lemma SameNumbers(c: Config, d: Config)
    requires Agree(c, d, SensorSecs) && Agree(c, d, ExecSecs) && Agree(c, d, EndpointProbeSecs)
    requires Agree(c, d, SamplingSecs) && Agree(c, d, LogMaxFiles) && Agree(c, d, HistoryMaxEvents)
    requires Agree(c, d, ModelDim) && Agree(c, d, ModelTIter) && Agree(c, d, ModelThreshold)
    requires Agree(c, d, LogRotation) && Agree(c, d, NotifyWindows) && Agree(c, d, ModelEnabled)
    ensures c.sensorSecs == d.sensorSecs && c.execSecs == d.execSecs && c.endpointProbeSecs == d.endpointProbeSecs
    ensures c.samplingSecs == d.samplingSecs && c.maxFiles == d.maxFiles && c.historyMaxEvents == d.historyMaxEvents
    ensures c.dim == d.dim && c.tIter == d.tIter && c.rotation == d.rotation && c.notifyWindows == d.notifyWindows
    ensures c.modelEnabled == d.modelEnabled && c.threshold == d.threshold
  {
  }

  lemma SameDrives(c: Config, d: Config)
    requires forall l :: Agree(c, d, Drive(l))
    ensures c.drives == d.drives
  {
    forall l
      ensures l in c.drives <==> l in d.drives
      ensures l in c.drives ==> c.drives[l] == d.drives[l]
    {
      assert Agree(c, d, Drive(l));
    }
  }

  lemma SameButDrives(c: Config, d: Config)
    requires forall key: Key :: !key.Drive? ==> Agree(c, d, key)
    requires c.logDir == d.logDir && c.historyDir == d.historyDir
    ensures c == d.(drives := c.drives)
  {
    hide Agree;
    SameTexts(c, d);
    SameNumbers(c, d);
  }

  lemma SameFields(c: Config, d: Config)
    requires forall key :: Agree(c, d, key)
    requires c.logDir == d.logDir && c.historyDir == d.historyDir
    ensures c == d
  {
    hide Agree;
    SameButDrives(c, d);
    SameDrives(c, d);
  }

  /** What the round trip needs of one key: its value fits on the line and sets the
      field the key is read back as. */
  ghost predicate Returns(env: Env, c: Config, d: Config, key: Key) {
    var text, back := ValueText(env, c, key), Reread(env, key);
    text.Some? ==> Fits(key, text.value) && Get(Set(env, d, back, text.value), back) == Get(c, key)
  }

  predicate Counts(key: Key) {
    key.SensorSecs? || key.ExecSecs? || key.EndpointProbeSecs? || key.SamplingSecs? || key.HistoryMaxEvents?
    || key.ModelDim? || key.ModelTIter? || key.LogMaxFiles?
  }

  /** A printed value is read back as the field it was printed from. */
  lemma ValueIsRead(env: Env, c: Config, d: Config, key: Key)
    requires GoodEnv(env) && Shaped(env, c) && ValueText(env, c, key).Some?
    ensures (key.Drive? ==> Bare(key.name)) && Returns(env, c, d, key)
  {
    hide Bare, GoodCase, Returns, Clean, Token;
    if Counts(key) {
      NumberReturns(env, c, d, key);
    } else if key.ModelThreshold? || key.Drive? {
      FloatOrDriveReturns(env, c, d, key);
    } else {
      TextReturns(env, c, d, key);
    }
  }

  lemma NumberReturns(env: Env, c: Config, d: Config, key: Key)
    requires Counts(key)
    ensures Returns(env, c, d, key)
  {
    NumberIsRead(Get(c, key).n, if key.LogMaxFiles? then U32_BOUND else U64_BOUND);
    hide Token;
  }

  lemma FloatOrDriveReturns(env: Env, c: Config, d: Config, key: Key)
    requires GoodEnv(env) && Shaped(env, c) && (key.ModelThreshold? || key.Drive?)
    ensures Returns(env, c, d, key)
  {
    hide GoodCase, Bare, Clean, Token, Refold;
    assert env.parse(env.format(c.threshold)) == Some(c.threshold);
  }

  lemma TextReturns(env: Env, c: Config, d: Config, key: Key)
    requires Shaped(env, c) && !Counts(key) && !key.ModelThreshold? && !key.Drive?
    ensures Returns(env, c, d, key)
  {
    hide Bare, Clean, Token;
    FixedTexts();
  }

  lemma NumberIsRead(n: nat, bound: nat)
    requires n < bound
    ensures Token(Decimal(n)) && forall d: nat :: d < bound ==> ReadNumber(Decimal(n), bound, d) == n
  {
    NumberRoundTrip(n, bound);
    hide ParseUnsigned;
    var s := Decimal(n);
    assert IsDigit(s[0]) && IsDigit(s[|s| - 1]);
  }

  lemma FixedTexts()
    ensures Token("true") && Token("false") && Clean("daily") && Clean("hourly") && Clean("never") && Clean("")
    ensures ReadFlag("true") && !ReadFlag("false")
    ensures ReadRotation("daily") == Daily && ReadRotation("hourly") == Hourly && ReadRotation("never") == Never
  {
  }

  /** A key without a line has its default value. */
  lemma UnprintedIsDefault(env: Env, c: Config, key: Key)
    requires Shaped(env, c) && ValueText(env, c, key).None?
    ensures Get(Default(env), key) == Get(c, key)
  {
    hide Bare, Clean;
  }

  /** A number, float, flag or rotation that cannot be read becomes the default:
      the fallbacks written into the parser agree with the default configuration. */
  lemma UnreadableIsDefault(env: Env, c: Config, key: Key, v: string)
    requires env.parse(v).None?
    requires ParseUnsigned(v, U64_BOUND).None? && ParseUnsigned(v, U32_BOUND).None?
    requires v != "true" && v != "false" && v != "daily" && v != "hourly" && v != "never"
    ensures var d := Get(Set(env, c, key, v), key);
            if d.TextVal? then d == TextVal(v)
            else if d.OptionalVal? then d == OptionalVal(if v == "" && !key.Drive? then None else Some(v))
            else d == Get(Default(env), key)
  {
    hide ParseUnsigned;
  }

  /** The configuration that the first n printed items describe. */
  ghost function ItemsTo(env: Env, c: Config, items: seq<Item>, n: nat): Config
    requires Printable(env, c, items) && n <= |items|
  {
    if n == 0 then Default(env)
    else
      var d := ItemsTo(env, c, items, n - 1);
      match items[n - 1]
      case Remark(_) => d
      case Keyed(key) => Set(env, d, Reread(env, key), ValueText(env, c, key).value)
  }

  lemma {:induction false} LinesAreItems(env: Env, c: Config, items: seq<Item>, n: nat)
    requires GoodEnv(env) && Shaped(env, c) && Printable(env, c, items) && n <= |items|
    ensures ParseTo(env, LinesOf(env, c, items), n) == ItemsTo(env, c, items, n)
    ensures forall k :: 0 <= k < n ==> Plain(LinesOf(env, c, items)[k])
  {
    hide Shaped, GoodCase, Set, ApplyLine, Note, AssignLine, Plain, ValueText, Fits, Reread;
    if n > 0 {
      LinesAreItems(env, c, items, n - 1);
      var d := ItemsTo(env, c, items, n - 1);
      match items[n - 1]
      case Remark(k) =>
        NoteIsSkipped(env, d, k);
      case Keyed(key) =>
        ValueIsRead(env, c, d, key);
        AssignLineIsRead(env, d, key, ValueText(env, c, key).value);
        AssignLineIsPlain(env, key, ValueText(env, c, key).value);
    }
  }

  /** A key is read back under its own name, and no other key is. */
  lemma RereadIsOwn(env: Env, c: Config, own: Key, key: Key)
    requires key.Drive? ==> AllSettled(env, c) && (own.Drive? ==> own.name in c.drives)
    ensures Reread(env, own) == key <==> own == key
  {
    hide Refold;
  }

  lemma {:induction false} ItemsDecide(env: Env, c: Config, items: seq<Item>, n: nat, key: Key)
    requires GoodEnv(env) && Shaped(env, c) && Printable(env, c, items) && n <= |items|
    requires key.Drive? ==> AllSettled(env, c)
    ensures Get(ItemsTo(env, c, items, n), key) ==
            if Keyed(key) in items[..n] then Get(c, key) else Get(Default(env), key)
    ensures ItemsTo(env, c, items, n).logDir == env.logsDir && ItemsTo(env, c, items, n).historyDir == env.eventsDir
  {
    hide Shaped, GoodEnv, Set, Get, Fits, Reread, AllSettled;
    if n > 0 {
      ItemsDecide(env, c, items, n - 1, key);
      var d := ItemsTo(env, c, items, n - 1);
      assert items[..n] == items[..n - 1] + [items[n - 1]];
      if items[n - 1].Keyed? {
        var own, v := items[n - 1].key, ValueText(env, c, items[n - 1].key).value;
        RereadIsOwn(env, c, own, key);
        hide ValueText;
        ValueIsRead(env, c, d, own);
        SetKeepsDirs(env, d, Reread(env, own), v);
        if key != own { SetOther(env, d, Reread(env, own), v, key); }
      }
    }
  }

  /** One of the items is the line of a drive read back under a name. */
  ghost predicate Refolds(env: Env, items: seq<Item>, name: string) {
    exists i :: 0 <= i < |items| && items[i].Keyed? && Reread(env, items[i].key) == Drive(name)
  }

  lemma {:induction false} ItemsName(env: Env, c: Config, items: seq<Item>, n: nat, name: string)
    requires Printable(env, c, items) && n <= |items|
    ensures name in ItemsTo(env, c, items, n).drives <==> name == "C" || name == "D" || Refolds(env, items[..n], name)
  {
    hide Set, ValueText, Reread;
    if n > 0 {
      ItemsName(env, c, items, n - 1, name);
      var d, x := ItemsTo(env, c, items, n - 1), items[n - 1];
      assert items[..n] == items[..n - 1] + [x];
      if x.Keyed? { SetChangesDrive(env, d, Reread(env, x.key), ValueText(env, c, x.key).value); }
      if Refolds(env, items[..n - 1], name) {
        var i :| 0 <= i < n - 1 && items[..n - 1][i].Keyed? && Reread(env, items[..n - 1][i].key) == Drive(name);
        assert items[..n][i] == items[..n - 1][i];
      }
      if x.Keyed? && Reread(env, x.key) == Drive(name) { assert items[..n][n - 1] == x; }
    }
  }

  lemma GeneralIsListed(key: Key)
    requires GeneralKey(key)
    ensures Keyed(key) in GeneralItems()
  {
    var g := GeneralItems();
    assert g[3] == Keyed(WslDistro) && g[4] == Keyed(DockerService) && g[5] == Keyed(SensorSecs);
    assert g[6] == Keyed(ExecSecs) && g[7] == Keyed(EndpointProbeSecs) && g[8] == Keyed(SamplingSecs);
  }

  lemma LogIsListed(key: Key)
    requires LogKey(key)
    ensures Keyed(key) in LogItems()
  {
    var l := LogItems();
    assert l[2] == Keyed(LogRotation) && l[3] == Keyed(LogMaxFiles) && l[4] == Keyed(LogFilePrefix);
    assert l[5] == Keyed(HistoryMaxEvents);
  }

  lemma NotifyIsListed(env: Env, c: Config, key: Key)
    requires NotifyKey(key) && ValueText(env, c, key).Some?
    ensures Keyed(key) in NotifyItems(env, c) || Keyed(key) in MacosItems(env, c)
  {
    var n, m := NotifyItems(env, c), MacosItems(env, c);
    assert n[2] == Keyed(NotifyWindows) && (key.WebhookUrl? ==> n[3] == Keyed(WebhookUrl));
    assert m[2] == Keyed(MacosEndpoint) && (key.MacosToken? ==> m[3] == Keyed(MacosToken));
  }

  lemma ModelIsListed(env: Env, c: Config, key: Key)
    requires (ModelKey(key) || NetworkKey(key)) && ValueText(env, c, key).Some?
    ensures Keyed(key) in ModelItems(env, c)
  {
    var d := ModelItems(env, c);
    assert d[2] == Keyed(ModelEnabled) && d[3] == Keyed(ModelWeightsPath) && d[4] == Keyed(ModelDim);
    assert d[5] == Keyed(ModelTIter) && d[6] == Keyed(ModelThreshold);
    assert key.DispatchModelPath? ==> d[7] == Keyed(DispatchModelPath);
  }

  lemma DriveIsListed(c: Config, order: seq<string>, name: string)
    requires Enumerates(order, c) && name in c.drives
    ensures Keyed(Drive(name)) in DriveItems(order)
  {
    var i :| 0 <= i < |order| && order[i] == name;
    assert DriveItems(order)[i] == Keyed(Drive(name));
  }

  /** Every key with a value to print is printed. */
  lemma EveryKeyIsListed(env: Env, c: Config, order: seq<string>, key: Key)
    requires Enumerates(order, c) && ValueText(env, c, key).Some?
    ensures Keyed(key) in Items(env, c, order)
  {
    hide GeneralItems, LogItems, NotifyItems, MacosItems, ModelItems, DriveItems, Enumerates;
    if key.Drive? {
      DriveIsListed(c, order, key.name);
    } else if GeneralKey(key) {
      GeneralIsListed(key);
    } else if LogKey(key) {
      LogIsListed(key);
    } else if NotifyKey(key) {
      NotifyIsListed(env, c, key);
    } else {
      ModelIsListed(env, c, key);
    }
    hide ValueText;
  }

  lemma NothingElseIsListed(env: Env, c: Config, order: seq<string>, key: Key)
    requires Enumerates(order, c) && ValueText(env, c, key).None?
    ensures Keyed(key) !in Items(env, c, order)
  {
    ItemsPrintable(env, c, order);
  }

  /** The printed drives are those of the configuration. */
  lemma RefoldedDrives(env: Env, c: Config, order: seq<string>, name: string)
    requires Enumerates(order, c)
    ensures Refolds(env, Items(env, c, order), name) <==> exists m :: m in c.drives && Refold(env, m) == name
  {
    var items := Items(env, c, order);
    if Refolds(env, items, name) {
      ItemsPrintable(env, c, order);
      var i :| 0 <= i < |items| && items[i].Keyed? && Reread(env, items[i].key) == Drive(name);
      hide Items;
      assert items[i].key.name in c.drives && Refold(env, items[i].key.name) == name;
    }
    if m :| m in c.drives && Refold(env, m) == name {
      EveryKeyIsListed(env, c, order, Drive(m));
      hide Items;
      var i :| 0 <= i < |items| && items[i] == Keyed(Drive(m));
    }
  }

  lemma EveryFieldReturns(env: Env, c: Config, order: seq<string>, key: Key)
    requires GoodEnv(env) && Shaped(env, c) && Enumerates(order, c) && (key.Drive? ==> AllSettled(env, c))
    ensures var items := Items(env, c, order);
            Printable(env, c, items) && Agree(ItemsTo(env, c, items, |items|), c, key)
  {
    ItemsPrintable(env, c, order);
    hide GoodEnv, ValueText, Get, Items, Printable, AllSettled;
    var items := Items(env, c, order);
    assert items[..|items|] == items;
    ItemsDecide(env, c, items, |items|, key);
    if ValueText(env, c, key).Some? {
      EveryKeyIsListed(env, c, order, key);
    } else {
      NothingElseIsListed(env, c, order, key);
      UnprintedIsDefault(env, c, key);
    }
  }

  /** Parsing the printed text goes through its items. */
  lemma PrintedIsRead(env: Env, c: Config, order: seq<string>)
    requires GoodEnv(env) && Shaped(env, c) && Enumerates(order, c)
    ensures var items := Items(env, c, order);
            Printable(env, c, items) && Parse(env, Print(env, c, order)) == ItemsTo(env, c, items, |items|)
  {
    ItemsPrintable(env, c, order);
    var items := Items(env, c, order);
    var ls := LinesOf(env, c, items);
    assert Print(env, c, order) == Unlines(ls);
    hide GoodEnv, Shaped, Plain, ValueText, Items, Printable, Print, ItemsTo;
    LinesAreItems(env, c, items, |items|);
    LinesOfUnlines(ls);
  }

  // ---------------------------------------------------------------- round trips

  /** Print and parse, drives in any order: a normal configuration comes back. */
  lemma NormalRoundTrip(env: Env, c: Config, order: seq<string>)
    requires GoodEnv(env) && Normal(env, c) && Enumerates(order, c)
    ensures Parse(env, Print(env, c, order)) == c
  {
    PrintedIsRead(env, c, order);
    var items := Items(env, c, order);
    var d := ItemsTo(env, c, items, |items|);
    hide GoodEnv, Items, Printable, Agree, Print, ItemsTo, Parse, AllSettled;
    forall key
      ensures Agree(d, c, key)
    {
      EveryFieldReturns(env, c, order, key);
    }
    ItemsDecide(env, c, items, |items|, WslDistro);
    SameFields(d, c);
  }

  /** The drive names that come back are the refolded ones. */
  lemma RefoldedNamesReturn(env: Env, c: Config, order: seq<string>, name: string)
    requires GoodEnv(env) && Shaped(env, c) && Enumerates(order, c)
    ensures name in Parse(env, Print(env, c, order)).drives <==> exists m :: m in c.drives && Refold(env, m) == name
  {
    PrintedIsRead(env, c, order);
    RefoldedDrives(env, c, order, name);
    hide Items, Printable, Print, ItemsTo, Parse, ValueText, Enumerates;
    var items := Items(env, c, order);
    assert items[..|items|] == items;
    ItemsName(env, c, items, |items|, name);
    hide Bare, Clean, Refolds;
    DefaultDrives(env);
    hide GoodCase;
    assert "C" in c.drives && "D" in c.drives && Refold(env, "C") == "C" && Refold(env, "D") == "D";
  }

  /** For every configuration of the parser's shape, printing and parsing changes
      nothing but drive names. */
  lemma OnlyDriveNamesMove(env: Env, c: Config, order: seq<string>)
    requires GoodEnv(env) && Shaped(env, c) && Enumerates(order, c)
    ensures var d := Parse(env, Print(env, c, order)); d == c.(drives := d.drives)
  {
    PrintedIsRead(env, c, order);
    var items := Items(env, c, order);
    hide GoodEnv, Items, Printable, Print, ItemsTo, Parse, Agree, AllSettled;
    ItemsDecide(env, c, items, |items|, WslDistro);
    var d := ItemsTo(env, c, items, |items|);
    forall key: Key | !key.Drive?
      ensures Agree(d, c, key)
    {
      EveryFieldReturns(env, c, order, key);
    }
    assert c.logDir == env.logsDir && c.historyDir == env.eventsDir;
    hide Shaped;
    SameButDrives(d, c);
  }

  /** What has been printed and parsed once has only settled names. */
  lemma OncePrintedIsNormal(env: Env, c: Config, order: seq<string>)
    requires GoodEnv(env) && Shaped(env, c) && Enumerates(order, c)
    ensures Normal(env, Parse(env, Print(env, c, order)))
  {
    var d := Parse(env, Print(env, c, order));
    hide Print, Parse, Shaped;
    ParseIsShaped(env, Print(env, c, order));
    forall l | l in d.drives
      ensures Settled(env, l)
    {
      RefoldedNamesReturn(env, c, order, l);
    }
  }

  /** Exactly the normal configurations survive. */
  lemma RoundTripExactly(env: Env, c: Config, order: seq<string>)
    requires GoodEnv(env) && Enumerates(order, c)
    ensures Parse(env, Print(env, c, order)) == c <==> Normal(env, c)
  {
    hide GoodEnv, Shaped, AllSettled, Print, Parse;
    ParseIsShaped(env, Print(env, c, order));
    if Normal(env, c) { NormalRoundTrip(env, c, order); }
    if Parse(env, Print(env, c, order)) == c { OncePrintedIsNormal(env, c, order); }
  }

  /** Parsing any text, printing and parsing again changes nothing exactly when all
      its drive names are settled. */
  lemma IdempotentExactly(env: Env, text: string, order: seq<string>)
    requires GoodEnv(env) && Enumerates(order, Parse(env, text))
    ensures Parse(env, Print(env, Parse(env, text), order)) == Parse(env, text)
            <==> forall l :: l in Parse(env, text).drives ==> Settled(env, l)
  {
    var c := Parse(env, text);
    ParseIsShaped(env, text);
    hide GoodEnv, Shaped, Print, Parse, Settled;
    RoundTripExactly(env, c, order);
  }

  /** Normalising any ASCII text is idempotent. */
  lemma AsciiIsIdempotent(env: Env, text: string, order: seq<string>)
    requires GoodEnv(env) && IsAscii(text) && Enumerates(order, Parse(env, text))
    ensures Parse(env, Print(env, Parse(env, text), order)) == Parse(env, text)
  {
    LinesAreAscii(text);
    AsciiParseSettles(env, Lines(text), |Lines(text)|);
    assert AllSettled(env, Parse(env, text));
    hide GoodEnv, Print, Parse, Settled;
    IdempotentExactly(env, text, order);
  }

  /** Normalising any text twice is enough: a third pass changes nothing. */
  lemma SecondPassSettles(env: Env, text: string, first: seq<string>, second: seq<string>)
    requires GoodEnv(env) && Enumerates(first, Parse(env, text))
    requires Enumerates(second, Parse(env, Print(env, Parse(env, text), first)))
    ensures var c := Parse(env, Print(env, Parse(env, text), first)); Parse(env, Print(env, c, second)) == c
  {
    hide GoodEnv, Normal, Print, Parse;
    ParseIsShaped(env, text);
    OncePrintedIsNormal(env, Parse(env, text), first);
    NormalRoundTrip(env, Parse(env, Print(env, Parse(env, text), first)), second);
  }

  /** A drive line that gives away the one-pass claim: the Kelvin sign is its own
      upper case, but its lower case is the letter k. */
  function KelvinText(): string { "drive_" + Kelvin() + " = \"/k\"" }

  function Kelvin(): string { "\U{212A}" }

  lemma KelvinIsRead(env: Env)
    requires GoodEnv(env) && env.upper(Kelvin()) == Kelvin()
    ensures Parse(env, KelvinText()) == Set(env, Default(env), Drive(Kelvin()), "/k")
  {
    var n := DrivePrefix() + Kelvin();
    assert Bare(Kelvin()) && Clean("/k");
    DriveIsRead(env, Kelvin());
    DriveIsLeftSide(Kelvin());
    var key := Drive(Kelvin());
    assert KelvinText() == n + " = " + Rendered(key, "/k");
    assert Free(KelvinText(), '\n');
    hide GoodEnv, KeyOf, ApplyLine, LeftSide, Set;
    LineIsRead(env, Default(env), n, key, "/k");
    assert Lines(KelvinText()) == [KelvinText()];
    assert ParseTo(env, [KelvinText()], 0) == Default(env);
  }

  lemma KelvinRefolds(env: Env)
    requires GoodCase(env) && env.lower(Kelvin()) == "k"
    ensures Refold(env, Kelvin()) == "K"
    ensures "K" != Kelvin() && "C" != Kelvin() && "D" != Kelvin()
  {
    assert IsAscii("k") && Upper("k") == "K";
  }

  lemma KelvinDrives(env: Env)
    requires GoodEnv(env) && env.upper(Kelvin()) == Kelvin()
    ensures var drives := Parse(env, KelvinText()).drives;
            Kelvin() in drives && forall m :: m in drives ==> m == "C" || m == "D" || m == Kelvin()
  {
    hide GoodEnv, Parse, Set, Kelvin;
    KelvinIsRead(env);
    SetChangesDrive(env, Default(env), Drive(Kelvin()), "/k");
  }

  /** Its drive comes back as K, so normalising this text is not idempotent. */
  lemma KelvinDriveMoves(env: Env, order: seq<string>)
    requires GoodEnv(env) && env.upper(Kelvin()) == Kelvin() && env.lower(Kelvin()) == "k"
    requires Enumerates(order, Parse(env, KelvinText()))
    ensures var c := Parse(env, KelvinText());
            var d := Parse(env, Print(env, c, order));
            && Kelvin() in c.drives && Kelvin() !in d.drives && "K" in d.drives
            && d != c
  {
    DefaultDrives(env);
    hide GoodEnv, GoodCase, Print, Parse, Shaped, Bare, Clean, Enumerates, Kelvin;
    KelvinRefolds(env);
    KelvinDrives(env);
    var c := Parse(env, KelvinText());
    ParseIsShaped(env, KelvinText());
    RefoldedNamesReturn(env, c, order, Kelvin());
    RefoldedNamesReturn(env, c, order, "K");
  }

  // ---------------------------------------------------------------- the premises can be met

  function ToNumber(b: bv64): (n: nat)
    ensures n < U64_BOUND
  {
    b as nat
  }

  function FromNumber(n: nat): bv64
    requires n < U64_BOUND
  {
    n as bv64
  }

  lemma NumberAndBack(b: bv64)
    ensures FromNumber(ToNumber(b)) == b
  {
  }

  /** A text form of floats: the number of the bit pattern. */
  function BitsText(x: F64): string { if x.NaN? then "NaN" else Decimal(ToNumber(x.bits)) }

  function TextBits(t: string): Option<F64> {
    match ParseUnsigned(t, U64_BOUND)
    case None => Some(NaN)
    case Some(n) => if IsNaNPattern(FromNumber(n)) then None else Some(Bits(FromNumber(n)))
  }

  lemma BitsReturn(x: F64)
    ensures TextBits(BitsText(x)) == Some(x) && Token(BitsText(x))
  {
    hide ToNumber, FromNumber, IsNaNPattern;
    if x.NaN? {
      var t := "NaN";
      assert t[0] == 'N';
      NotANumber(t, U64_BOUND);
    } else {
      assert !IsNaNPattern(x.bits);
      NumberAndBack(x.bits);
      NumberIsRead(ToNumber(x.bits), U64_BOUND);
      NumberRoundTrip(ToNumber(x.bits), U64_BOUND);
      hide ParseUnsigned, Token;
    }
  }

  lemma AsciiCaseIsGood(env: Env)
    requires forall s :: env.upper(s) == Upper(s) && env.lower(s) == Lower(s)
    ensures GoodCase(env)
  {
    forall s
      ensures Bare(s) ==> Bare(Upper(s)) && Bare(Lower(s))
    {
    }
    forall s
      ensures Refold(env, Refold(env, s)) == Refold(env, s)
    {
    }
  }

  /** Some environment has all the properties asked for. */
  lemma GoodEnvExists()
    ensures exists env :: GoodEnv(env)
  {
    var env := Env("", "", "", NaN, BitsText, TextBits, Upper, Lower);
    AsciiCaseIsGood(env);
    forall x
      ensures env.parse(env.format(x)) == Some(x) && Token(env.format(x))
    {
      BitsReturn(x);
    }
    hide GoodCase, Token;
    assert GoodEnv(env);
  }
}
