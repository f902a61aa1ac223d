/** The configuration file: the hand-written printer and line parser of
    config.rs. The record's nested groups are flattened. */
module Config {
  import opened Common
  import opened Text

  const U64_BOUND: nat := 0x1_0000_0000_0000_0000
  const U32_BOUND: nat := 0x1_0000_0000

  type U64 = n: nat | n < U64_BOUND
  type U32 = n: nat | n < U32_BOUND

  datatype RawF64 = NaN | Bits(bits: bv64)

  /** The bit pattern of a NaN: exponent all ones, mantissa not zero. */
  predicate IsNaNPattern(b: bv64) { (b >> 52) & 0x7ff == 0x7ff && b & 0xf_ffff_ffff_ffff != 0 }

  /** A 64-bit float, all NaNs taken as one value. */
  type F64 = x: RawF64 | x.Bits? ==> !IsNaNPattern(x.bits) witness NaN

  datatype Rotation = Daily | Hourly | Never

  datatype Config = Config(
    wslDistro: string, drives: map<string, string>, dockerService: string,
    sensorSecs: U64, execSecs: U64, endpointProbeSecs: U64, samplingSecs: U64,
    logDir: string, rotation: Rotation, maxFiles: U32, filePrefix: string,
    historyDir: string, historyMaxEvents: U64,
    notifyWindows: bool, webhookUrl: Option<string>,
    macosEndpoint: string, macosToken: string,
    modelEnabled: bool, weightsPath: string, dim: U64, tIter: U64,
    threshold: F64, dispatchModelPath: Option<string>)

  /** What the code takes from its surroundings: the paths under the home
      directory, the float literal 0.7, the text form of floats, and the letter
      case of the Unicode standard, which maps strings and not single characters. */
  datatype Env = Env(logsDir: string, eventsDir: string, weightsPath: string, threshold: F64,
                     format: F64 -> string, parse: string -> Option<F64>,
                     upper: string -> string, lower: string -> string)

  predicate IsWhite(c: char) {
    var n := c as int;
    9 <= n <= 13 || n == 0x20 || n == 0x85 || n == 0xA0 || n == 0x1680 || 0x2000 <= n <= 0x200A
    || n == 0x2028 || n == 0x2029 || n == 0x202F || n == 0x205F || n == 0x3000
  }

  /** The 25 characters with the Unicode property White_Space. */
  function WhiteSpace(): string {
    "\t\n\U{B}\U{C}\r \U{85}\U{A0}\U{1680}\U{2000}\U{2001}\U{2002}\U{2003}\U{2004}\U{2005}\U{2006}\U{2007}" +
    "\U{2008}\U{2009}\U{200A}\U{2028}\U{2029}\U{202F}\U{205F}\U{3000}"
  }

  lemma WhiteCharacters(c: char)
    ensures |WhiteSpace()| == 25 && (IsWhite(c) <==> c in WhiteSpace())
  {
    var w := WhiteSpace();
    assert w[0] == '\t' && w[1] == '\n' && w[2] == '\U{B}' && w[3] == '\U{C}' && w[4] == '\r' && w[5] == ' ';
    assert w[6] == '\U{85}' && w[7] == '\U{A0}' && w[8] == '\U{1680}' && w[9] == '\U{2000}' && w[10] == '\U{2001}';
    assert w[11] == '\U{2002}' && w[12] == '\U{2003}' && w[13] == '\U{2004}' && w[14] == '\U{2005}';
    assert w[15] == '\U{2006}' && w[16] == '\U{2007}' && w[17] == '\U{2008}' && w[18] == '\U{2009}';
    assert w[19] == '\U{200A}' && w[20] == '\U{2028}' && w[21] == '\U{2029}' && w[22] == '\U{202F}';
    assert w[23] == '\U{205F}' && w[24] == '\U{3000}';
  }

  predicate IsQuote(c: char) { c == '"' }

  function Trim(s: string): string { TrimBy(IsWhite, s) }

  function Unquote(s: string): string { TrimBy(IsQuote, s) }

  /** A string field that fits between quotes on one line. */
  predicate Clean(v: string) { Free(v, '\n') && Tight(IsQuote, v) }

  /** Unquoted text: on one line, without edge blanks or quotes. */
  predicate Token(v: string) { v != "" && Free(v, '\n') && Tight(IsWhite, v) && Tight(IsQuote, v) }

  /** Text that a key name can end in: it fits before an equals sign, and trimming
      leaves its end alone. */
  predicate Bare(s: string) { Free(s, '\n') && Free(s, '=') && (s != "" ==> !IsWhite(s[|s| - 1])) }

  /** What printing and parsing make of a drive name. */
  function Refold(env: Env, name: string): string { env.upper(env.lower(name)) }

  /** Properties of the Unicode case mappings: on ASCII text they are the usual
      ones, no character turns into an equals sign, a line feed or a blank, and
      lowering and raising a second time changes nothing. */
  ghost predicate GoodCase(env: Env) {
    && (forall s :: IsAscii(s) ==> env.upper(s) == Upper(s) && env.lower(s) == Lower(s))
    && (forall s :: Bare(s) ==> Bare(env.upper(s)) && Bare(env.lower(s)))
    && (forall s :: Refold(env, Refold(env, s)) == Refold(env, s))
  }

  ghost predicate GoodEnv(env: Env) {
    && Clean(env.weightsPath)
    && GoodCase(env)
    && (forall x :: env.parse(env.format(x)) == Some(x))
    && (forall x :: Token(env.format(x)))
  }

  function Default(env: Env): Config {
    Config("Ubuntu", map["C" := "/mnt/c", "D" := "/mnt/d"], "com.docker.service",
           5, 10, 3, 30,
           env.logsDir, Daily, 7, "daoti", env.eventsDir, 5000,
           true, None, "", "",
           true, env.weightsPath, 2048, 5, env.threshold, None)
  }

  // ---------------------------------------------------------------- keys

  datatype Key =
    | WslDistro | DockerService | SensorSecs | ExecSecs | EndpointProbeSecs | SamplingSecs
    | LogRotation | LogMaxFiles | LogFilePrefix | HistoryMaxEvents
    | NotifyWindows | WebhookUrl | MacosEndpoint | MacosToken
    | ModelEnabled | ModelWeightsPath | ModelDim | ModelTIter | ModelThreshold | DispatchModelPath
    | Drive(name: string)

  /** The name a key is printed under. */
  function Name(env: Env, key: Key): string {
    match key
    case WslDistro => "wsl_distro"
    case DockerService => "docker_service"
    case SensorSecs => "sensor_secs"
    case ExecSecs => "exec_secs"
    case EndpointProbeSecs => "endpoint_probe_secs"
    case SamplingSecs => "sampling_secs"
    case LogRotation => "log_rotation"
    case LogMaxFiles => "log_max_files"
    case LogFilePrefix => "log_file_prefix"
    case HistoryMaxEvents => "history_max_events"
    case NotifyWindows => "notify_windows"
    case WebhookUrl => "webhook_url"
    case MacosEndpoint => "macos_endpoint"
    case MacosToken => "macos_token"
    case ModelEnabled => "model_enabled"
    case ModelWeightsPath => "model_weights_path"
    case ModelDim => "model_dim"
    case ModelTIter => "model_t_iter"
    case ModelThreshold => "model_confidence_threshold"
    case DispatchModelPath => "dispatch_model_path"
    case Drive(name) => DrivePrefix() + env.lower(name)
  }

  function DrivePrefix(): string { "drive_" }

  /** The fixed key with a given name. Names of different lengths differ, so the
      length is tested first: that leaves at most three strings to compare. */
  function FixedKey(k: string): Option<Key> {
    match |k|
    case 9 =>
      if k == "exec_secs" then Some(ExecSecs)
      else if k == "model_dim" then Some(ModelDim)
      else None
    case 10 =>
      if k == "wsl_distro" then Some(WslDistro)
      else None
    case 11 =>
      if k == "sensor_secs" then Some(SensorSecs)
      else if k == "macos_token" then Some(MacosToken)
      else if k == "webhook_url" then Some(WebhookUrl)
      else None
    case 12 =>
      if k == "log_rotation" then Some(LogRotation)
      else if k == "model_t_iter" then Some(ModelTIter)
      else None
    case 13 =>
      if k == "sampling_secs" then Some(SamplingSecs)
      else if k == "log_max_files" then Some(LogMaxFiles)
      else if k == "model_enabled" then Some(ModelEnabled)
      else None
    case 14 =>
      if k == "docker_service" then Some(DockerService)
      else if k == "notify_windows" then Some(NotifyWindows)
      else if k == "macos_endpoint" then Some(MacosEndpoint)
      else None
    case 15 =>
      if k == "log_file_prefix" then Some(LogFilePrefix)
      else None
    case 18 =>
      if k == "history_max_events" then Some(HistoryMaxEvents)
      else if k == "model_weights_path" then Some(ModelWeightsPath)
      else None
    case 19 =>
      if k == "endpoint_probe_secs" then Some(EndpointProbeSecs)
      else if k == "dispatch_model_path" then Some(DispatchModelPath)
      else None
    case 26 =>
      if k == "model_confidence_threshold" then Some(ModelThreshold)
      else None
    case _ => None
  }

  /** The key a name on the left of an equals sign selects. */
  function KeyOf(env: Env, k: string): Option<Key> {
    if FixedKey(k).Some? then FixedKey(k)
    else if DrivePrefix() <= k then Some(Drive(env.upper(k[|DrivePrefix()|..])))
    else None
  }

  // ---------------------------------------------------------------- parser

  function ReadNumber(v: string, bound: nat, otherwise: nat): (n: nat)
    requires otherwise < bound
    ensures n < bound
  {
    match ParseUnsigned(v, bound)
    case Some(n) => n
    case None => otherwise
  }

  function ReadFlag(v: string): bool { v != "false" }

  function ReadRotation(v: string): Rotation {
    if v == "hourly" then Hourly else if v == "never" then Never else Daily
  }

  function ReadOptional(v: string): Option<string> { if v == "" then None else Some(v) }

  function ReadThreshold(env: Env, v: string): F64 {
    match env.parse(v)
    case Some(x) => x
    case None => env.threshold
  }

  /** The effect of one `key = value` line. */
  function Set(env: Env, cfg: Config, key: Key, v: string): Config {
    match key
    case WslDistro => cfg.(wslDistro := v)
    case DockerService => cfg.(dockerService := v)
    case SensorSecs => cfg.(sensorSecs := ReadNumber(v, U64_BOUND, 5))
    case ExecSecs => cfg.(execSecs := ReadNumber(v, U64_BOUND, 10))
    case EndpointProbeSecs => cfg.(endpointProbeSecs := ReadNumber(v, U64_BOUND, 3))
    case SamplingSecs => cfg.(samplingSecs := ReadNumber(v, U64_BOUND, 30))
    case LogRotation => cfg.(rotation := ReadRotation(v))
    case LogMaxFiles => cfg.(maxFiles := ReadNumber(v, U32_BOUND, 7))
    case LogFilePrefix => cfg.(filePrefix := v)
    case HistoryMaxEvents => cfg.(historyMaxEvents := ReadNumber(v, U64_BOUND, 5000))
    case NotifyWindows => cfg.(notifyWindows := ReadFlag(v))
    case WebhookUrl => cfg.(webhookUrl := ReadOptional(v))
    case MacosEndpoint => cfg.(macosEndpoint := v)
    case MacosToken => cfg.(macosToken := v)
    case ModelEnabled => cfg.(modelEnabled := ReadFlag(v))
    case ModelWeightsPath => cfg.(weightsPath := v)
    case ModelDim => cfg.(dim := ReadNumber(v, U64_BOUND, 2048))
    case ModelTIter => cfg.(tIter := ReadNumber(v, U64_BOUND, 5))
    case ModelThreshold => cfg.(threshold := ReadThreshold(env, v))
    case DispatchModelPath => cfg.(dispatchModelPath := ReadOptional(v))
    case Drive(name) => cfg.(drives := cfg.drives[name := v])
  }

  function ApplyLine(env: Env, cfg: Config, raw: string): Config {
    var line := Trim(raw);
    if line == "" || line[0] == '#' || line[0] == '[' then cfg
    else
      var i := IndexOf(line, '=');
      if i == |line| then cfg
      else
        match KeyOf(env, Trim(line[..i]))
        case None => cfg
        case Some(key) => Set(env, cfg, key, Unquote(Trim(line[i + 1..])))
  }

  /** The configuration after the first n lines. */
  function ParseTo(env: Env, lines: seq<string>, n: nat): Config
    requires n <= |lines|
  {
    if n == 0 then Default(env) else ApplyLine(env, ParseTo(env, lines, n - 1), lines[n - 1])
  }

  function Parse(env: Env, text: string): Config { ParseTo(env, Lines(text), |Lines(text)|) }

  method TomlParse(env: Env, text: string) returns (cfg: Config)
    ensures cfg == Parse(env, text)
  {
    hide Set, KeyOf, TrimBy;
    cfg := Default(env);
    var lines := Lines(text);
    for n := 0 to |lines|
      invariant cfg == ParseTo(env, lines, n)
    {
      var line := Trim(lines[n]);
      if line == "" || line[0] == '#' || line[0] == '[' {
        continue;
      }
      var i := IndexOf(line, '=');
      if i < |line| {
        var key, v := KeyOf(env, Trim(line[..i])), Unquote(Trim(line[i + 1..]));
        if key.Some? {
          cfg := Set(env, cfg, key.value, v);
        }
      }
    }
  }

  // ---------------------------------------------------------------- printer

  /** Comment and blank lines of the printed file. */
  function Note(n: nat): string {
    if n == 0 then "# 驭灵·道体 配置文件（由 `daoti init` 自动生成）"
    else if n == 1 then "# 手动修改后重启 CLI/Daemon 生效"
    else if n == 2 then "# === 日志轮转（P0-3） ==="
    else if n == 3 then "# === 守护主动告警（P0-6） ==="
    else if n == 4 then "# webhook_url = \"\"  # 可选：企业微信/钉钉机器人地址"
    else if n == 5 then "# === 远程 macOS 节点 ==="
    else if n == 6 then "# === 模式B B2 双梯形网络增强（道体·化） ==="
    else ""
  }

  const BLANK: nat := 7

  datatype Item = Remark(n: nat) | Keyed(key: Key)

  function FlagText(b: bool): string { if b then "true" else "false" }

  function RotationText(r: Rotation): string {
    match r
    case Daily => "daily"
    case Hourly => "hourly"
    case Never => "never"
  }

  /** The text printed for a key, before quoting; None when its line is left out. */
  function ValueText(env: Env, c: Config, key: Key): Option<string> {
    match key
    case WslDistro => Some(c.wslDistro)
    case DockerService => Some(c.dockerService)
    case SensorSecs => Some(Decimal(c.sensorSecs))
    case ExecSecs => Some(Decimal(c.execSecs))
    case EndpointProbeSecs => Some(Decimal(c.endpointProbeSecs))
    case SamplingSecs => Some(Decimal(c.samplingSecs))
    case LogRotation => Some(RotationText(c.rotation))
    case LogMaxFiles => Some(Decimal(c.maxFiles))
    case LogFilePrefix => Some(c.filePrefix)
    case HistoryMaxEvents => Some(Decimal(c.historyMaxEvents))
    case NotifyWindows => Some(FlagText(c.notifyWindows))
    case WebhookUrl => c.webhookUrl
    case MacosEndpoint => Some(c.macosEndpoint)
    case MacosToken => if c.macosToken == "" then None else Some(c.macosToken)
    case ModelEnabled => Some(FlagText(c.modelEnabled))
    case ModelWeightsPath => Some(c.weightsPath)
    case ModelDim => Some(Decimal(c.dim))
    case ModelTIter => Some(Decimal(c.tIter))
    case ModelThreshold => Some(env.format(c.threshold))
    case DispatchModelPath => c.dispatchModelPath
    case Drive(name) => if name in c.drives then Some(c.drives[name]) else None
  }

  predicate Quoted(key: Key) {
    key.WslDistro? || key.DockerService? || key.LogRotation? || key.LogFilePrefix? || key.WebhookUrl?
    || key.MacosEndpoint? || key.MacosToken? || key.ModelWeightsPath? || key.DispatchModelPath? || key.Drive?
  }

  function Rendered(key: Key, v: string): string { if Quoted(key) then "\"" + v + "\"" else v }

  function AssignLine(env: Env, key: Key, v: string): string { Name(env, key) + " = " + Rendered(key, v) }

  function Line(env: Env, c: Config, item: Item): string
    requires item.Keyed? ==> ValueText(env, c, item.key).Some?
  {
    match item
    case Remark(n) => Note(n)
    case Keyed(key) => AssignLine(env, key, ValueText(env, c, key).value)
  }

  function Optionally(env: Env, c: Config, key: Key): seq<Item> {
    if ValueText(env, c, key).Some? then [Keyed(key)] else []
  }

  function GeneralItems(): seq<Item> {
    [Remark(0), Remark(1), Remark(BLANK), Keyed(WslDistro), Keyed(DockerService), Keyed(SensorSecs),
     Keyed(ExecSecs), Keyed(EndpointProbeSecs), Keyed(SamplingSecs)]
  }

  function LogItems(): seq<Item> {
    [Remark(BLANK), Remark(2), Keyed(LogRotation), Keyed(LogMaxFiles), Keyed(LogFilePrefix), Keyed(HistoryMaxEvents)]
  }

  function NotifyItems(env: Env, c: Config): seq<Item> {
    [Remark(BLANK), Remark(3), Keyed(NotifyWindows), if c.webhookUrl.Some? then Keyed(WebhookUrl) else Remark(4)]
  }

  function MacosItems(env: Env, c: Config): seq<Item> {
    [Remark(BLANK), Remark(5), Keyed(MacosEndpoint)] + Optionally(env, c, MacosToken)
  }

  function ModelItems(env: Env, c: Config): seq<Item> {
    [Remark(BLANK), Remark(6), Keyed(ModelEnabled), Keyed(ModelWeightsPath), Keyed(ModelDim), Keyed(ModelTIter),
     Keyed(ModelThreshold)] + Optionally(env, c, DispatchModelPath)
  }

  function DriveItems(order: seq<string>): (items: seq<Item>)
    ensures |items| == |order| && forall i :: 0 <= i < |order| ==> items[i] == Keyed(Drive(order[i]))
  {
    seq(|order|, i requires 0 <= i < |order| => Keyed(Drive(order[i])))
  }

  /** The lines of the file, the drives in a given order. */
  function Items(env: Env, c: Config, order: seq<string>): seq<Item> {
    GeneralItems() + LogItems() + NotifyItems(env, c) + MacosItems(env, c) + ModelItems(env, c) + DriveItems(order)
  }

  ghost predicate Printable(env: Env, c: Config, items: seq<Item>) {
    forall i :: 0 <= i < |items| && items[i].Keyed? ==> ValueText(env, c, items[i].key).Some?
  }

  ghost function LinesOf(env: Env, c: Config, items: seq<Item>): (ls: seq<string>)
    requires Printable(env, c, items)
    ensures |ls| == |items| && forall i :: 0 <= i < |items| ==> ls[i] == Line(env, c, items[i])
  {
    seq(|items|, i requires 0 <= i < |items| => Line(env, c, items[i]))
  }

  /** An order in which all drives are printed. */
  ghost predicate Enumerates(order: seq<string>, c: Config) {
    forall l :: l in order <==> l in c.drives
  }

  ghost function Print(env: Env, c: Config, order: seq<string>): string
    requires Enumerates(order, c)
  {
    ItemsPrintable(env, c, order);
    Unlines(LinesOf(env, c, Items(env, c, order)))
  }

  lemma ItemsPrintable(env: Env, c: Config, order: seq<string>)
    requires Enumerates(order, c)
    ensures Printable(env, c, Items(env, c, order))
  {
    assert forall i :: 0 <= i < |order| ==> order[i] in order;
  }

  // ---------------------------------------------------------------- printing, step by step

  ghost predicate Sorted(order: seq<string>) {
    forall i, j :: 0 <= i < j < |order| ==> Leq(order[i], order[j]) && order[i] != order[j]
  }

  /** The drives in alphabetical order. */
  method SortedKeys(keys: set<string>) returns (order: seq<string>)
    ensures Sorted(order) && forall l :: l in order <==> l in keys
  {
    order := [];
    var rest := keys;
    while rest != {}
      invariant rest <= keys && Sorted(order)
      invariant forall l :: l in order <==> l in keys && l !in rest
      invariant forall i, l :: 0 <= i < |order| && l in rest ==> Leq(order[i], l)
      decreases rest
    {
      ghost var m := LeastExists(rest);
      var least :| least in rest && forall l :: l in rest ==> Leq(least, l);
      assert forall i :: 0 <= i < |order| ==> order[i] in order;
      order := order + [least];
      rest := rest - {least};
    }
  }

  /** Only one order is sorted, so the printed text is determined. */
  lemma {:induction false} SortedIsUnique(a: seq<string>, b: seq<string>)
    requires Sorted(a) && Sorted(b) && forall l :: l in a <==> l in b
    ensures a == b
  {
    if a == [] {
      assert forall k :: 0 <= k < |b| ==> b[k] in b;
    } else {
      assert a[0] in a && a[0] in b;
      var j :| 0 <= j < |b| && b[j] == a[0];
      assert b[0] in b && b[0] in a;
      var i :| 0 <= i < |a| && a[i] == b[0];
      if i > 0 && j > 0 { LeqAntisymmetric(a[0], b[0]); }
      assert a[0] == b[0];
      forall l
        ensures l in a[1..] <==> l in b[1..]
      {
        assert l in a <==> l == a[0] || l in a[1..];
        assert l in b <==> l == b[0] || l in b[1..];
        assert a[0] !in a[1..] && b[0] !in b[1..];
      }
      SortedIsUnique(a[1..], b[1..]);
      assert a == [a[0]] + a[1..] && b == [b[0]] + b[1..];
    }
  }

  /** Push a section of the file onto the text. */
  method Emit(env: Env, c: Config, text: string, ghost done: seq<Item>, items: seq<Item>) returns (s: string)
    requires Printable(env, c, done + items) && Printable(env, c, done)
    requires text == Unlines(LinesOf(env, c, done))
    ensures s == Unlines(LinesOf(env, c, done + items))
  {
    hide ValueText, Line;
    s := text;
    assert done + items[..0] == done;
    for n := 0 to |items|
      invariant Printable(env, c, done + items[..n])
      invariant s == Unlines(LinesOf(env, c, done + items[..n]))
    {
      ghost var sofar := done + items[..n];
      assert (done + items)[|done| + n] == items[n];
      assert done + items[..n + 1] == sofar + [items[n]];
      assert Printable(env, c, sofar + [items[n]]);
      assert LinesOf(env, c, sofar + [items[n]]) == LinesOf(env, c, sofar) + [Line(env, c, items[n])];
      UnlinesAppends(LinesOf(env, c, sofar), Line(env, c, items[n]));
      s := s + Line(env, c, items[n]) + "\n";
    }
    assert items[..|items|] == items;
  }

  lemma SectionsPrintable(env: Env, c: Config, order: seq<string>)
    requires Enumerates(order, c)
    ensures var g, l, n := GeneralItems(), LogItems(), NotifyItems(env, c);
            var m, d := MacosItems(env, c), ModelItems(env, c);
            && Printable(env, c, []) && Printable(env, c, g) && Printable(env, c, g + l) && Printable(env, c, g + l + n)
            && Printable(env, c, g + l + n + m) && Printable(env, c, g + l + n + m + d)
            && Printable(env, c, g + l + n + m + d + DriveItems(order))
  {
    ItemsPrintable(env, c, order);
    var g, l, n, m, d := GeneralItems(), LogItems(), NotifyItems(env, c), MacosItems(env, c), ModelItems(env, c);
    hide GeneralItems, LogItems, NotifyItems, MacosItems, ModelItems, ValueText;
    var all := g + l + n + m + d + DriveItems(order);
    PrefixPrintable(env, c, all, g + l + n + m + d);
    PrefixPrintable(env, c, all, g + l + n + m);
    PrefixPrintable(env, c, all, g + l + n);
    PrefixPrintable(env, c, all, g + l);
    PrefixPrintable(env, c, all, g);
  }

  lemma PrefixPrintable(env: Env, c: Config, all: seq<Item>, part: seq<Item>)
    requires Printable(env, c, all) && part <= all
    ensures Printable(env, c, part)
  {
    hide ValueText;
    assert forall i :: 0 <= i < |part| ==> part[i] == all[i];
  }

  method ToTomlString(env: Env, c: Config) returns (s: string, order: seq<string>)
    ensures Enumerates(order, c) && Sorted(order)
    ensures s == Print(env, c, order)
  {
    hide ValueText, Line, GeneralItems, LogItems, NotifyItems, MacosItems, ModelItems, Sorted, Printable, Unlines;
    var drives := SortedKeys(c.drives.Keys);
    order := drives;
    SectionsPrintable(env, c, order);
    ghost var g, l, n, m, d := GeneralItems(), LogItems(), NotifyItems(env, c), MacosItems(env, c), ModelItems(env, c);
    s := "";
    Nothing(env, c);
    assert [] + g == g;
    s := Emit(env, c, s, [], GeneralItems());
    s := Emit(env, c, s, g, LogItems());
    s := Emit(env, c, s, g + l, NotifyItems(env, c));
    s := Emit(env, c, s, g + l + n, MacosItems(env, c));
    s := Emit(env, c, s, g + l + n + m, ModelItems(env, c));
    s := Emit(env, c, s, g + l + n + m + d, DriveItems(drives));
  }

  lemma Nothing(env: Env, c: Config)
    ensures Printable(env, c, []) && Unlines(LinesOf(env, c, [])) == ""
  {
  }
}
