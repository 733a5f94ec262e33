/**
  The .env printer and parser of server/setup.go. Here a char is a code point, as
  the trimming of white space looks at it. Cutting the text at newlines and equal
  signs comes to the same on code points and on bytes, since UTF-8 uses the bytes
  of ASCII characters for nothing else.
 */
module EnvFile {
  import opened Prelude
  import opened LineSplit

  datatype Config = Config(
    syntheticKey: string,
    zaiKey: string,
    zaiBaseURL: string,
    anthropicToken: string,
    codexToken: string,
    openCodeEnabled: bool,
    antigravityEnabled: bool,
    antigravitySource: string,
    geminiEnabled: bool,
    grokEnabled: bool,
    adminUser: string,
    adminPass: string,
    pollInterval: nat,
    port: nat)

  datatype Env = Env(
    syntheticKey: string,
    zaiKey: string,
    anthropicToken: string,
    codexToken: string,
    openCodeEnabled: bool,
    antigravityEnabled: bool,
    geminiEnabled: bool,
    grokEnabled: bool)

  const EMPTY: Env := Env("", "", "", "", false, false, false, false)

  // The printer.

  function Decimal(n: nat): string {
    if n < 10 then [('0' as int + n) as char] else Decimal(n / 10) + [('0' as int + n % 10) as char]
  }

  datatype Line = Blank | Comment(text: string) | Assignment(key: string, value: string) {
    function Render(): string {
      match this
      case Blank => ""
      case Comment(text) => "# " + text
      case Assignment(key, value) => key + "=" + value
    }
  }

  /**
    The wording of the comments, which the parser ignores: the lines of the header,
    the time of writing among them, and the caption above each setting.
   */
  datatype Wording = Wording(header: seq<string>, caption: string -> string)

  /** A comment, an assignment and a blank line, when the setting is present. */
  function Setting(present: bool, w: Wording, key: string, value: string): seq<Line> {
    if present then [Comment(w.caption(key)), Assignment(key, value), Blank] else []
  }

  function Header(lines: seq<string>): seq<Line> {
    if lines == [] then [Blank] else [Comment(lines[0])] + Header(lines[1..])
  }

  function AntigravityLines(cfg: Config, w: Wording): seq<Line> {
    if cfg.antigravityEnabled then
      [Comment(w.caption("ANTIGRAVITY_ENABLED")), Assignment("ANTIGRAVITY_ENABLED", "true"),
       Comment(w.caption("ANTIGRAVITY_SOURCE")),
       Assignment("ANTIGRAVITY_SOURCE", if cfg.antigravitySource == "" then "both" else cfg.antigravitySource), Blank]
    else []
  }

  function Footer(cfg: Config, w: Wording): seq<Line> {
    [Comment(w.caption("ONWATCH_ADMIN_USER")), Assignment("ONWATCH_ADMIN_USER", cfg.adminUser),
     Assignment("ONWATCH_ADMIN_PASS", cfg.adminPass), Blank,
     Comment(w.caption("ONWATCH_POLL_INTERVAL")), Assignment("ONWATCH_POLL_INTERVAL", Decimal(cfg.pollInterval)), Blank,
     Comment(w.caption("ONWATCH_PORT")), Assignment("ONWATCH_PORT", Decimal(cfg.port))]
  }

  function TokenLines(cfg: Config, w: Wording): seq<Line> {
    Header(w.header)
    + Setting(cfg.syntheticKey != "", w, "SYNTHETIC_API_KEY", cfg.syntheticKey)
    + Setting(cfg.zaiKey != "", w, "ZAI_API_KEY", cfg.zaiKey)
    + Setting(cfg.zaiKey != "", w, "ZAI_BASE_URL", cfg.zaiBaseURL)
    + Setting(cfg.anthropicToken != "", w, "ANTHROPIC_TOKEN", cfg.anthropicToken)
    + Setting(cfg.codexToken != "", w, "CODEX_TOKEN", cfg.codexToken)
  }

  function FlagLines(cfg: Config, w: Wording): seq<Line> {
    Setting(cfg.openCodeEnabled, w, "OPENCODE_ENABLED", "true")
    + AntigravityLines(cfg, w)
    + Setting(cfg.geminiEnabled, w, "GEMINI_ENABLED", "true")
    + Setting(cfg.grokEnabled, w, "GROK_ENABLED", "true")
    + Footer(cfg, w)
  }

  function Rendered(lines: seq<Line>): seq<string> {
    if lines == [] then [] else [lines[0].Render()] + Rendered(lines[1..])
  }

  /** The text the builder holds at the end: every line with its newline. */
  function EnvText(cfg: Config, w: Wording): string {
    Joined(Rendered(TokenLines(cfg, w) + FlagLines(cfg, w)))
  }

  // The parser.

  /** unicode.IsSpace. */
  predicate IsSpace(c: char) {
    || '\t' <= c <= '\r' || c == ' ' || c == '\U{0085}' || c == '\U{00A0}'
    || c == '\U{1680}' || '\U{2000}' <= c <= '\U{200A}' || c == '\U{2028}' || c == '\U{2029}'
    || c == '\U{202F}' || c == '\U{205F}' || c == '\U{3000}'
  }

  function TrimLeft(s: string): string {
    if s != "" && IsSpace(s[0]) then TrimLeft(s[1..]) else s
  }

  function TrimRight(s: string): string {
    if s != "" && IsSpace(s[|s| - 1]) then TrimRight(s[..|s| - 1]) else s
  }

  function TrimSpace(s: string): string {
    TrimRight(TrimLeft(s))
  }

  /** The position of the first '=', or the length of the line. */
  function EqualsAt(line: string): (i: nat)
    ensures i <= |line|
  {
    if line == "" || line[0] == '=' then 0 else 1 + EqualsAt(line[1..])
  }

  function Assigned(env: Env, key: string, val: string): Env {
    if key == "SYNTHETIC_API_KEY" then env.(syntheticKey := val)
    else if key == "ZAI_API_KEY" then env.(zaiKey := val)
    else if key == "ANTHROPIC_TOKEN" then env.(anthropicToken := val)
    else if key == "CODEX_TOKEN" then env.(codexToken := val)
    else if key == "OPENCODE_ENABLED" then env.(openCodeEnabled := val == "true")
    else if key == "ANTIGRAVITY_ENABLED" then env.(antigravityEnabled := val == "true")
    else if key == "GEMINI_ENABLED" then env.(geminiEnabled := val == "true")
    else if key == "GROK_ENABLED" then env.(grokEnabled := val == "true")
    else if key == "GROK_TOKEN" then (if val != "" then env.(grokEnabled := true) else env)
    else env
  }

  function LineRead(env: Env, raw: string): Env {
    var line := TrimSpace(raw);
    if line == "" || line[0] == '#' || EqualsAt(line) == |line| then env
    else Assigned(env, line[..EqualsAt(line)], line[EqualsAt(line) + 1..])
  }

  function LinesRead(env: Env, lines: seq<string>): Env
    decreases |lines|
  {
    if lines == [] then env else LinesRead(LineRead(env, lines[0]), lines[1..])
  }

  /**
    Gemini and Grok are also enabled by the presence of their credential files, which
    are not looked at when the file cannot be read.
   */
  function Loaded(file: Option<string>, geminiFile: bool, grokFile: bool): Env {
    match file
    case None => EMPTY
    case Some(text) =>
      var env := LinesRead(EMPTY, Split(text));
      env.(geminiEnabled := env.geminiEnabled || geminiFile, grokEnabled := env.grokEnabled || grokFile)
  }

  method LoadExistingEnv(file: Option<string>, geminiFile: bool, grokFile: bool) returns (env: Env)
    ensures env == Loaded(file, geminiFile, grokFile)
  {
    env := EMPTY;
    if file.None? {
      return;
    }
    var lines := Split(file.value);
    for i := 0 to |lines|
      invariant LinesRead(EMPTY, lines) == LinesRead(env, lines[i..])
    {
      var line := TrimSpace(lines[i]);
      assert LinesRead(env, lines[i..]) == LinesRead(LineRead(env, lines[i]), lines[i + 1..]);
      if line == "" || line[0] == '#' {
        continue;
      }
      var at := EqualsAt(line);
      if at == |line| {
        continue;
      }
      env := Assigned(env, line[..at], line[at + 1..]);
    }
    if !env.geminiEnabled && geminiFile {
      env := env.(geminiEnabled := true);
    }
    if !env.grokEnabled && grokFile {
      env := env.(grokEnabled := true);
    }
  }

  // The round trip.

  predicate OneLine(s: string) {
    '\n' !in s
  }

  /** Every printed value fits on one line; the prompts of the setup read single lines. */
  predicate Printable(cfg: Config) {
    && OneLine(cfg.syntheticKey) && OneLine(cfg.zaiKey) && OneLine(cfg.zaiBaseURL) && OneLine(cfg.anthropicToken)
    && OneLine(cfg.codexToken) && OneLine(cfg.antigravitySource) && OneLine(cfg.adminUser) && OneLine(cfg.adminPass)
  }

  ghost predicate PlainWording(w: Wording) {
    (forall l :: l in w.header ==> OneLine(l)) && (forall key :: OneLine(w.caption(key)))
  }

  lemma SplitOfJoined(lines: seq<string>)
    requires NoNewlineIn(lines)
    ensures Split(Joined(lines)) == lines + [""]
  {
    var s := Joined(lines);
    var p := Split(s);
    SplitIsLinesAndTail(s);
    assert Splits(s, lines, "");
    SplitsUnique(s, p[..|p| - 1], p[|p| - 1], lines, "");
    assert p == p[..|p| - 1] + [p[|p| - 1]];
  }

  lemma {:induction false} LinesReadAppend(env: Env, a: seq<string>, b: seq<string>)
    ensures LinesRead(env, a + b) == LinesRead(LinesRead(env, a), b)
    decreases |a|
  {
    if a == [] {
      assert a + b == b;
    } else {
      assert (a + b)[1..] == a[1..] + b;
      LinesReadAppend(LineRead(env, a[0]), a[1..], b);
    }
  }

  /** A key as the printer writes them: no space in front, no '=' and no newline. */
  predicate PlainKey(key: string) {
    key != "" && !IsSpace(key[0]) && key[0] != '#' && '=' !in key && OneLine(key)
  }

  /** A line the text can hold and the parser can find again. */
  predicate Sound(l: Line) {
    match l
    case Blank => true
    case Comment(text) => OneLine(text)
    case Assignment(key, value) => PlainKey(key) && OneLine(value)
  }

  predicate AllSound(lines: seq<Line>) {
    forall l :: l in lines ==> Sound(l)
  }

  lemma {:induction false} TrimRightAfter(prefix: string, v: string)
    requires prefix != "" && !IsSpace(prefix[|prefix| - 1])
    ensures TrimRight(prefix + v) == prefix + TrimRight(v)
  {
    if v == "" {
      assert prefix + v == prefix;
    } else if IsSpace(v[|v| - 1]) {
      assert (prefix + v)[..|prefix + v| - 1] == prefix + v[..|v| - 1];
      TrimRightAfter(prefix, v[..|v| - 1]);
    }
  }

  lemma {:induction false} EqualsAfter(key: string, v: string)
    requires '=' !in key
    ensures EqualsAt(key + "=" + v) == |key|
  {
    var line := key + "=" + v;
    if key != "" {
      assert line[0] == key[0];
      assert line[1..] == key[1..] + "=" + v;
      EqualsAfter(key[1..], v);
    }
  }

  /** What reading one printed line does: an assignment loses its value's trailing space, all else is skipped. */
  function Effect(env: Env, l: Line): Env {
    if l.Assignment? then Assigned(env, l.key, TrimRight(l.value)) else env
  }

  function Effects(env: Env, lines: seq<Line>): Env
    decreases |lines|
  {
    if lines == [] then env else Effects(Effect(env, lines[0]), lines[1..])
  }

  lemma RenderedLineRead(env: Env, l: Line)
    requires Sound(l)
    ensures LineRead(env, l.Render()) == Effect(env, l) && OneLine(l.Render())
  {
    hide Assigned;
    var line := l.Render();
    match l
    case Blank =>
    case Comment(text) =>
      assert line[0] == '#' && TrimLeft(line) == line && line == "#" + line[1..];
      TrimRightAfter("#", line[1..]);
    case Assignment(key, v) =>
      var kept := key + "=" + TrimRight(v);
      assert line[0] == key[0] && kept[0] == key[0] && TrimLeft(line) == line;
      TrimRightAfter(key + "=", v);
      EqualsAfter(key, TrimRight(v));
      assert kept[..|key|] == key && kept[|key| + 1..] == TrimRight(v);
  }

  /** Reading printed lines is the sum of their effects; equal signs and hashes inside values do no harm. */
  lemma {:induction false} RenderedRead(env: Env, lines: seq<Line>)
    requires AllSound(lines)
    ensures LinesRead(env, Rendered(lines)) == Effects(env, lines) && NoNewlineIn(Rendered(lines))
    decreases |lines|
  {
    hide LineRead;
    hide Effect;
    hide Sound;
    hide OneLine;
    if lines != [] {
      RenderedLineRead(env, lines[0]);
      assert OneLine(lines[0].Render()) ==> '\n' !in lines[0].Render() by {
        OneLineMeans(lines[0].Render());
      }
      RenderedRead(Effect(env, lines[0]), lines[1..]);
    }
  }

  lemma OneLineMeans(s: string)
    ensures OneLine(s) <==> '\n' !in s
  {
  }

  lemma {:induction false} EffectsAppend(env: Env, a: seq<Line>, b: seq<Line>)
    ensures Effects(env, a + b) == Effects(Effects(env, a), b)
    decreases |a|
  {
    if a == [] {
      assert a + b == b;
    } else {
      assert (a + b)[1..] == a[1..] + b;
      EffectsAppend(Effect(env, a[0]), a[1..], b);
    }
  }

  lemma {:induction false} NoEffects(env: Env, lines: seq<Line>)
    requires forall l :: l in lines ==> Effect(env, l) == env
    ensures Effects(env, lines) == env
  {
    hide Effect;
    if lines != [] {
      assert lines[0] in lines;
      NoEffects(env, lines[1..]);
    }
  }

  /** One effective line among others that have none. */
  lemma OneEffect(env: Env, before: seq<Line>, l: Line, after: seq<Line>)
    requires forall k :: k in before ==> Effect(env, k) == env
    requires forall k :: k in after ==> Effect(Effect(env, l), k) == Effect(env, l)
    ensures Effects(env, before + [l] + after) == Effect(env, l)
  {
    hide Effect;
    EffectsAppend(env, before + [l], after);
    EffectsAppend(env, before, [l]);
    NoEffects(env, before);
    assert [l][1..] == [];
    assert Effects(env, [l]) == Effects(Effect(env, l), []);
    NoEffects(Effect(env, l), after);
  }

  // The effects of the parts.

  /** Reading sound lines turns one environment into another. */
  predicate Yields(env: Env, lines: seq<Line>, out: Env) {
    AllSound(lines) && Effects(env, lines) == out
  }

  lemma Then(env: Env, a: seq<Line>, mid: Env, b: seq<Line>, out: Env)
    requires Yields(env, a, mid) && Yields(mid, b, out)
    ensures Yields(env, a + b, out)
  {
    EffectsAppend(env, a, b);
  }

  lemma {:induction false} HeaderYields(env: Env, lines: seq<string>)
    requires forall l :: l in lines ==> OneLine(l)
    ensures Yields(env, Header(lines), env)
  {
    hide OneLine;
    if lines != [] {
      assert lines[0] in lines;
      HeaderYields(env, lines[1..]);
      assert Header(lines)[1..] == Header(lines[1..]);
    } else {
      NoEffects(env, [Blank]);
    }
  }

  /** A setting stores its value without the trailing space; an absent one stores nothing. */
  lemma SettingYields(env: Env, present: bool, w: Wording, key: string, value: string)
    requires PlainWording(w) && PlainKey(key) && OneLine(value)
    ensures Yields(env, Setting(present, w, key, value), if present then Assigned(env, key, TrimRight(value)) else env)
  {
    hide Assigned;
    hide PlainKey;
    hide OneLine;
    hide TrimRight;
    if present {
      OneEffect(env, [Comment(w.caption(key))], Assignment(key, value), [Blank]);
      assert Setting(present, w, key, value) == [Comment(w.caption(key))] + [Assignment(key, value)] + [Blank];
    }
  }

  lemma AntigravityYields(env: Env, cfg: Config, w: Wording)
    requires PlainWording(w) && OneLine(cfg.antigravitySource) && !env.antigravityEnabled
    ensures Yields(env, AntigravityLines(cfg, w), env.(antigravityEnabled := cfg.antigravityEnabled))
  {
    AntigravityKeysArePlain();
    FlagKeys(env);
    hide PlainKey;
    hide Assigned;
    hide TrimRight;
    var lines := AntigravityLines(cfg, w);
    if lines != [] {
      UnknownKeys(env.(antigravityEnabled := true), TrimRight(lines[3].value));
      OneEffect(env, [lines[0]], lines[1], lines[2..]);
      assert lines == [lines[0]] + [lines[1]] + lines[2..];
    }
  }

  lemma FooterYields(env: Env, cfg: Config, w: Wording)
    requires PlainWording(w) && OneLine(cfg.adminUser) && OneLine(cfg.adminPass)
    ensures Yields(env, Footer(cfg, w), env)
  {
    DashboardKeysArePlain();
    DaemonKeysArePlain();
    DecimalIsOneLine(cfg.pollInterval);
    DecimalIsOneLine(cfg.port);
    UnknownDashboardKeys(env, TrimRight(cfg.adminUser));
    UnknownDashboardKeys(env, TrimRight(cfg.adminPass));
    UnknownDaemonKeys(env, TrimRight(Decimal(cfg.pollInterval)));
    UnknownDaemonKeys(env, TrimRight(Decimal(cfg.port)));
    hide PlainKey;
    hide Assigned;
    hide TrimRight;
    hide Decimal;
    hide OneLine;
    NoEffects(env, Footer(cfg, w));
  }

  lemma {:induction false} DecimalIsOneLine(n: nat)
    ensures OneLine(Decimal(n))
  {
    if n >= 10 {
      DecimalIsOneLine(n / 10);
    }
  }

  /** Keys the parser does not know leave no trace. */
  lemma UnknownKeys(env: Env, val: string)
    ensures Assigned(env, "ZAI_BASE_URL", val) == env
    ensures Assigned(env, "ANTIGRAVITY_SOURCE", val) == env
  {
  }

  lemma UnknownDashboardKeys(env: Env, val: string)
    ensures Assigned(env, "ONWATCH_ADMIN_USER", val) == env
    ensures Assigned(env, "ONWATCH_ADMIN_PASS", val) == env
  {
  }

  lemma UnknownDaemonKeys(env: Env, val: string)
    ensures Assigned(env, "ONWATCH_POLL_INTERVAL", val) == env
    ensures Assigned(env, "ONWATCH_PORT", val) == env
  {
  }

  lemma TokenKeys(env: Env, val: string)
    ensures Assigned(env, "SYNTHETIC_API_KEY", val) == env.(syntheticKey := val)
    ensures Assigned(env, "ZAI_API_KEY", val) == env.(zaiKey := val)
    ensures Assigned(env, "ANTHROPIC_TOKEN", val) == env.(anthropicToken := val)
    ensures Assigned(env, "CODEX_TOKEN", val) == env.(codexToken := val)
  {
  }

  lemma FlagKeys(env: Env)
    ensures TrimRight("true") == "true"
    ensures Assigned(env, "OPENCODE_ENABLED", "true") == env.(openCodeEnabled := true)
    ensures Assigned(env, "ANTIGRAVITY_ENABLED", "true") == env.(antigravityEnabled := true)
    ensures Assigned(env, "GEMINI_ENABLED", "true") == env.(geminiEnabled := true)
    ensures Assigned(env, "GROK_ENABLED", "true") == env.(grokEnabled := true)
  {
  }

  lemma SyntheticKeyIsPlain()
    ensures PlainKey("SYNTHETIC_API_KEY")
  {
  }

  lemma ZaiKeysArePlain()
    ensures PlainKey("ZAI_API_KEY") && PlainKey("ZAI_BASE_URL")
  {
  }

  lemma TokenKeysArePlain()
    ensures PlainKey("ANTHROPIC_TOKEN") && PlainKey("CODEX_TOKEN")
  {
  }

  lemma OpenCodeKeyIsPlain()
    ensures PlainKey("OPENCODE_ENABLED") && OneLine("true")
  {
  }

  lemma AntigravityKeysArePlain()
    ensures PlainKey("ANTIGRAVITY_ENABLED") && PlainKey("ANTIGRAVITY_SOURCE") && OneLine("true") && OneLine("both")
  {
  }

  lemma CliKeysArePlain()
    ensures PlainKey("GEMINI_ENABLED") && PlainKey("GROK_ENABLED")
  {
  }

  lemma DashboardKeysArePlain()
    ensures PlainKey("ONWATCH_ADMIN_USER") && PlainKey("ONWATCH_ADMIN_PASS")
  {
  }

  lemma DaemonKeysArePlain()
    ensures PlainKey("ONWATCH_POLL_INTERVAL") && PlainKey("ONWATCH_PORT")
  {
  }

  lemma TrimRightOfNothing()
    ensures TrimRight("") == ""
  {
  }

  /** The first half: a token is empty until its line is read. */
  lemma TokensYield(cfg: Config, w: Wording)
    requires Printable(cfg) && PlainWording(w)
    ensures Yields(EMPTY, TokenLines(cfg, w),
                   EMPTY.(syntheticKey := TrimRight(cfg.syntheticKey), zaiKey := TrimRight(cfg.zaiKey),
                          anthropicToken := TrimRight(cfg.anthropicToken), codexToken := TrimRight(cfg.codexToken)))
  {
    SyntheticKeyIsPlain();
    ZaiKeysArePlain();
    TokenKeysArePlain();
    TrimRightOfNothing();
    hide PlainKey;
    hide OneLine;
    hide TrimRight;
    hide Assigned;
    hide Yields;
    hide Header;
    hide Setting;
    var e1 := EMPTY.(syntheticKey := TrimRight(cfg.syntheticKey));
    var e2 := e1.(zaiKey := TrimRight(cfg.zaiKey));
    var e3 := e2.(anthropicToken := TrimRight(cfg.anthropicToken));
    var e4 := e3.(codexToken := TrimRight(cfg.codexToken));
    TokenKeys(EMPTY, TrimRight(cfg.syntheticKey));
    TokenKeys(e1, TrimRight(cfg.zaiKey));
    TokenKeys(e2, TrimRight(cfg.anthropicToken));
    TokenKeys(e3, TrimRight(cfg.codexToken));
    UnknownKeys(e2, TrimRight(cfg.zaiBaseURL));
    HeaderYields(EMPTY, w.header);
    SettingYields(EMPTY, cfg.syntheticKey != "", w, "SYNTHETIC_API_KEY", cfg.syntheticKey);
    SettingYields(e1, cfg.zaiKey != "", w, "ZAI_API_KEY", cfg.zaiKey);
    SettingYields(e2, cfg.zaiKey != "", w, "ZAI_BASE_URL", cfg.zaiBaseURL);
    SettingYields(e2, cfg.anthropicToken != "", w, "ANTHROPIC_TOKEN", cfg.anthropicToken);
    SettingYields(e3, cfg.codexToken != "", w, "CODEX_TOKEN", cfg.codexToken);
    var s1 := Setting(cfg.syntheticKey != "", w, "SYNTHETIC_API_KEY", cfg.syntheticKey);
    var s2 := Setting(cfg.zaiKey != "", w, "ZAI_API_KEY", cfg.zaiKey);
    var s3 := Setting(cfg.zaiKey != "", w, "ZAI_BASE_URL", cfg.zaiBaseURL);
    var s4 := Setting(cfg.anthropicToken != "", w, "ANTHROPIC_TOKEN", cfg.anthropicToken);
    var s5 := Setting(cfg.codexToken != "", w, "CODEX_TOKEN", cfg.codexToken);
    var h := Header(w.header);
    Then(EMPTY, h, EMPTY, s1, e1);
    Then(EMPTY, h + s1, e1, s2, e2);
    Then(EMPTY, h + s1 + s2, e2, s3, e2);
    Then(EMPTY, h + s1 + s2 + s3, e2, s4, e3);
    Then(EMPTY, h + s1 + s2 + s3 + s4, e3, s5, e4);
  }

  /** The second half: a flag is off until its line is read. */
  lemma FlagsYield(env: Env, cfg: Config, w: Wording)
    requires Printable(cfg) && PlainWording(w)
    requires !env.openCodeEnabled && !env.antigravityEnabled && !env.geminiEnabled && !env.grokEnabled
    ensures Yields(env, FlagLines(cfg, w),
                   env.(openCodeEnabled := cfg.openCodeEnabled, antigravityEnabled := cfg.antigravityEnabled,
                        geminiEnabled := cfg.geminiEnabled, grokEnabled := cfg.grokEnabled))
  {
    OpenCodeKeyIsPlain();
    CliKeysArePlain();
    hide PlainKey;
    hide OneLine;
    hide TrimRight;
    hide Assigned;
    hide Yields;
    hide Setting;
    hide AntigravityLines;
    hide Footer;
    var e1 := env.(openCodeEnabled := cfg.openCodeEnabled);
    var e2 := e1.(antigravityEnabled := cfg.antigravityEnabled);
    var e3 := e2.(geminiEnabled := cfg.geminiEnabled);
    var e4 := e3.(grokEnabled := cfg.grokEnabled);
    FlagKeys(env);
    FlagKeys(e2);
    FlagKeys(e3);
    var s1 := Setting(cfg.openCodeEnabled, w, "OPENCODE_ENABLED", "true");
    var s2 := AntigravityLines(cfg, w);
    var s3 := Setting(cfg.geminiEnabled, w, "GEMINI_ENABLED", "true");
    var s4 := Setting(cfg.grokEnabled, w, "GROK_ENABLED", "true");
    SettingYields(env, cfg.openCodeEnabled, w, "OPENCODE_ENABLED", "true");
    AntigravityYields(e1, cfg, w);
    SettingYields(e2, cfg.geminiEnabled, w, "GEMINI_ENABLED", "true");
    SettingYields(e3, cfg.grokEnabled, w, "GROK_ENABLED", "true");
    FooterYields(e4, cfg, w);
    Then(env, s1, e1, s2, e2);
    Then(env, s1 + s2, e2, s3, e3);
    Then(env, s1 + s2 + s3, e3, s4, e4);
    Then(env, s1 + s2 + s3 + s4, e4, Footer(cfg, w), e4);
  }

  /**
    The round trip. Whatever one-line values are written, loading the file finds
    every flag and every token, a token without its trailing space, up to the two
    flags that the credential files also turn on.
   */
  lemma LoadedRecoversConfig(cfg: Config, w: Wording, geminiFile: bool, grokFile: bool)
    requires Printable(cfg) && PlainWording(w)
    ensures Loaded(Some(EnvText(cfg, w)), geminiFile, grokFile) ==
      Env(TrimRight(cfg.syntheticKey), TrimRight(cfg.zaiKey), TrimRight(cfg.anthropicToken), TrimRight(cfg.codexToken),
          cfg.openCodeEnabled, cfg.antigravityEnabled, cfg.geminiEnabled || geminiFile, cfg.grokEnabled || grokFile)
  {
    hide LinesRead;
    hide TrimRight;
    hide TokenLines;
    hide FlagLines;
    hide Rendered;
    hide Effects;
    hide AllSound;
    var tokens := EMPTY.(syntheticKey := TrimRight(cfg.syntheticKey), zaiKey := TrimRight(cfg.zaiKey),
                         anthropicToken := TrimRight(cfg.anthropicToken), codexToken := TrimRight(cfg.codexToken));
    var env := tokens.(openCodeEnabled := cfg.openCodeEnabled, antigravityEnabled := cfg.antigravityEnabled,
                       geminiEnabled := cfg.geminiEnabled, grokEnabled := cfg.grokEnabled);
    TokensYield(cfg, w);
    FlagsYield(tokens, cfg, w);
    Then(EMPTY, TokenLines(cfg, w), tokens, FlagLines(cfg, w), env);
    var lines := TokenLines(cfg, w) + FlagLines(cfg, w);
    RenderedRead(EMPTY, lines);
    SplitOfJoined(Rendered(lines));
    LastPieceRead(Rendered(lines));
  }

  lemma LastPieceRead(lines: seq<string>)
    ensures LinesRead(EMPTY, lines + [""]) == LinesRead(EMPTY, lines)
  {
    var env := LinesRead(EMPTY, lines);
    LinesReadAppend(EMPTY, lines, [""]);
    assert LineRead(env, "") == env;
    hide LineRead;
    assert [""][1..] == [];
    assert LinesRead(env, [""]) == LinesRead(LineRead(env, ""), []);
  }

  predicate EndsInSpace(v: string) {
    v != "" && IsSpace(v[|v| - 1])
  }

  /** A token survives exactly when it does not end in white space. */
  lemma TokenSurvivesIffNoTrailingSpace(cfg: Config, w: Wording, geminiFile: bool, grokFile: bool)
    requires Printable(cfg) && PlainWording(w)
    ensures var env := Loaded(Some(EnvText(cfg, w)), geminiFile, grokFile);
      && (env.syntheticKey == cfg.syntheticKey <==> !EndsInSpace(cfg.syntheticKey))
      && (env.zaiKey == cfg.zaiKey <==> !EndsInSpace(cfg.zaiKey))
      && (env.anthropicToken == cfg.anthropicToken <==> !EndsInSpace(cfg.anthropicToken))
      && (env.codexToken == cfg.codexToken <==> !EndsInSpace(cfg.codexToken))
  {
    LoadedRecoversConfig(cfg, w, geminiFile, grokFile);
    TrimRightShortens(cfg.syntheticKey);
    TrimRightShortens(cfg.zaiKey);
    TrimRightShortens(cfg.anthropicToken);
    TrimRightShortens(cfg.codexToken);
    hide *;
  }

  /** One key that does not survive. */
  lemma TrailingSpaceIsLost(w: Wording)
    requires PlainWording(w)
    ensures var cfg := Config("key ", "", "", "", "", false, false, "", false, false, "admin", "pass", 60, 9211);
      Loaded(Some(EnvText(cfg, w)), false, false).syntheticKey == "key"
  {
    var cfg := Config("key ", "", "", "", "", false, false, "", false, false, "admin", "pass", 60, 9211);
    assert Printable(cfg);
    TrimRightAfter("key", " ");
    assert "key" + " " == "key " && TrimRight(" ") == "";
    hide *;
    LoadedRecoversConfig(cfg, w, false, false);
  }

  lemma {:induction false} TrimRightShortens(v: string)
    ensures |TrimRight(v)| <= |v| && (TrimRight(v) == v <==> !EndsInSpace(v))
  {
    if EndsInSpace(v) {
      TrimRightShortens(v[..|v| - 1]);
    }
  }

  // What the lines of the file are, and what a line means to the parser.

  lemma {:induction false} RenderedHolds(lines: seq<Line>, l: Line)
    requires l in lines
    ensures l.Render() in Rendered(lines)
  {
    if l != lines[0] {
      RenderedHolds(lines[1..], l);
    }
  }

  /** Every printed setting is a line of the file. */
  lemma PrintedLine(cfg: Config, w: Wording, l: Line)
    requires Printable(cfg) && PlainWording(w) && l in TokenLines(cfg, w) + FlagLines(cfg, w)
    ensures l.Render() in Split(EnvText(cfg, w))
  {
    hide TokenLines;
    hide FlagLines;
    hide Rendered;
    hide Split;
    hide Joined;
    hide Printable;
    hide PlainWording;
    var lines := TokenLines(cfg, w) + FlagLines(cfg, w);
    LinesAreSound(cfg, w);
    RenderedRead(EMPTY, lines);
    SplitOfJoined(Rendered(lines));
    RenderedHolds(lines, l);
  }

  lemma LinesAreSound(cfg: Config, w: Wording)
    requires Printable(cfg) && PlainWording(w)
    ensures AllSound(TokenLines(cfg, w) + FlagLines(cfg, w))
  {
    hide TokenLines;
    hide FlagLines;
    TokensYield(cfg, w);
    FlagsYield(EMPTY.(syntheticKey := TrimRight(cfg.syntheticKey), zaiKey := TrimRight(cfg.zaiKey),
                      anthropicToken := TrimRight(cfg.anthropicToken), codexToken := TrimRight(cfg.codexToken)), cfg, w);
    hide TrimRight;
    hide Effects;
  }

  /** The settings the parser passes over are printed too: dashboard user and password, interval and port, base URL and source. */
  lemma DashboardIsPrinted(cfg: Config, w: Wording)
    requires Printable(cfg) && PlainWording(w)
    ensures var lines := Split(EnvText(cfg, w));
      && "ONWATCH_ADMIN_USER=" + cfg.adminUser in lines && "ONWATCH_ADMIN_PASS=" + cfg.adminPass in lines
      && "ONWATCH_POLL_INTERVAL=" + Decimal(cfg.pollInterval) in lines && "ONWATCH_PORT=" + Decimal(cfg.port) in lines
  {
    hide Split;
    hide EnvText;
    hide Decimal;
    FooterLine(cfg, w, 1);
    FooterLine(cfg, w, 2);
    FooterLine(cfg, w, 5);
    FooterLine(cfg, w, 8);
    assert "ONWATCH_ADMIN_USER" + "=" == "ONWATCH_ADMIN_USER=" && "ONWATCH_ADMIN_PASS" + "=" == "ONWATCH_ADMIN_PASS=";
    assert "ONWATCH_POLL_INTERVAL" + "=" == "ONWATCH_POLL_INTERVAL=" && "ONWATCH_PORT" + "=" == "ONWATCH_PORT=";
  }

  lemma FooterLine(cfg: Config, w: Wording, i: nat)
    requires Printable(cfg) && PlainWording(w) && i < 9
    ensures |Footer(cfg, w)| == 9 && Footer(cfg, w)[i].Render() in Split(EnvText(cfg, w))
  {
    hide Split;
    hide EnvText;
    hide Decimal;
    hide Printable;
    hide PlainWording;
    assert Footer(cfg, w)[i] in Footer(cfg, w);
    assert Footer(cfg, w)[i] in TokenLines(cfg, w) + FlagLines(cfg, w) by {
      hide TokenLines;
      hide Footer;
      hide Setting;
      hide AntigravityLines;
    }
    PrintedLine(cfg, w, Footer(cfg, w)[i]);
  }

  lemma SourcesArePrinted(cfg: Config, w: Wording)
    requires Printable(cfg) && PlainWording(w)
    ensures cfg.zaiKey != "" ==> Assignment("ZAI_BASE_URL", cfg.zaiBaseURL).Render() in Split(EnvText(cfg, w))
    ensures cfg.antigravityEnabled ==>
      Assignment("ANTIGRAVITY_SOURCE", if cfg.antigravitySource == "" then "both" else cfg.antigravitySource).Render() in Split(EnvText(cfg, w))
  {
    hide Split;
    hide EnvText;
    hide Printable;
    hide PlainWording;
    if cfg.zaiKey != "" {
      var l := Assignment("ZAI_BASE_URL", cfg.zaiBaseURL);
      BaseUrlIsThere(cfg, w);
      PrintedLine(cfg, w, l);
    }
    if cfg.antigravityEnabled {
      var l := Assignment("ANTIGRAVITY_SOURCE", if cfg.antigravitySource == "" then "both" else cfg.antigravitySource);
      SourceIsThere(cfg, w);
      PrintedLine(cfg, w, l);
    }
  }

  lemma BaseUrlIsThere(cfg: Config, w: Wording)
    requires cfg.zaiKey != ""
    ensures Assignment("ZAI_BASE_URL", cfg.zaiBaseURL) in TokenLines(cfg, w) + FlagLines(cfg, w)
  {
    hide FlagLines;
    hide Header;
    var setting := Setting(true, w, "ZAI_BASE_URL", cfg.zaiBaseURL);
    assert setting[1] in setting;
    hide Setting;
  }

  lemma SourceIsThere(cfg: Config, w: Wording)
    requires cfg.antigravityEnabled
    ensures Assignment("ANTIGRAVITY_SOURCE", if cfg.antigravitySource == "" then "both" else cfg.antigravitySource)
         in TokenLines(cfg, w) + FlagLines(cfg, w)
  {
    hide TokenLines;
    hide Footer;
    hide Setting;
    assert AntigravityLines(cfg, w)[3] in AntigravityLines(cfg, w);
    hide AntigravityLines;
  }

  /** The number a decimal says. */
  function Number(s: string): int {
    if s == "" then 0 else 10 * Number(s[..|s| - 1]) + (s[|s| - 1] as int - '0' as int)
  }

  /** Interval and port are printed as the decimals of their values: read back, they are the same numbers. */
  lemma {:induction false} DecimalRoundTrip(n: nat)
    ensures Number(Decimal(n)) == n && Decimal(n) != ""
    ensures forall c :: c in Decimal(n) ==> '0' <= c <= '9'
  {
    if n >= 10 {
      DecimalRoundTrip(n / 10);
      assert Decimal(n)[..|Decimal(n)| - 1] == Decimal(n / 10);
    } else {
      assert Decimal(n)[..0] == "";
    }
  }

  /** A flag is on exactly when its trimmed value is the word true; any other value switches it off. */
  lemma FlagLineMeans(env: Env, value: string)
    requires OneLine(value)
    ensures LineRead(env, "OPENCODE_ENABLED" + "=" + value) == env.(openCodeEnabled := TrimRight(value) == "true")
    ensures LineRead(env, "ANTIGRAVITY_ENABLED" + "=" + value) == env.(antigravityEnabled := TrimRight(value) == "true")
    ensures LineRead(env, "GEMINI_ENABLED" + "=" + value) == env.(geminiEnabled := TrimRight(value) == "true")
    ensures LineRead(env, "GROK_ENABLED" + "=" + value) == env.(grokEnabled := TrimRight(value) == "true")
  {
    hide LineRead;
    hide TrimRight;
    OpenCodeKeyIsPlain();
    AntigravityKeysArePlain();
    CliKeysArePlain();
    hide PlainKey;
    hide OneLine;
    RenderedLineRead(env, Assignment("OPENCODE_ENABLED", value));
    RenderedLineRead(env, Assignment("ANTIGRAVITY_ENABLED", value));
    RenderedLineRead(env, Assignment("GEMINI_ENABLED", value));
    RenderedLineRead(env, Assignment("GROK_ENABLED", value));
    FlagsAssigned(env, TrimRight(value));
    hide Assigned;
  }

  lemma FlagsAssigned(env: Env, val: string)
    ensures Assigned(env, "OPENCODE_ENABLED", val) == env.(openCodeEnabled := val == "true")
    ensures Assigned(env, "ANTIGRAVITY_ENABLED", val) == env.(antigravityEnabled := val == "true")
    ensures Assigned(env, "GEMINI_ENABLED", val) == env.(geminiEnabled := val == "true")
    ensures Assigned(env, "GROK_ENABLED", val) == env.(grokEnabled := val == "true")
  {
  }

  /** A Grok token switches Grok on, unless it is empty; it never switches it off. */
  lemma GrokTokenMeans(env: Env, value: string)
    requires OneLine(value)
    ensures LineRead(env, "GROK_TOKEN" + "=" + value) == env.(grokEnabled := env.grokEnabled || TrimRight(value) != "")
  {
    hide LineRead;
    hide TrimRight;
    GrokTokenIsPlain();
    hide PlainKey;
    hide OneLine;
    RenderedLineRead(env, Assignment("GROK_TOKEN", value));
  }

  lemma GrokTokenIsPlain()
    ensures PlainKey("GROK_TOKEN")
  {
  }

  /** White space in front of a line means nothing. */
  lemma {:induction false} IndentMeansNothing(env: Env, indent: string, line: string)
    requires forall c :: c in indent ==> IsSpace(c)
    ensures LineRead(env, indent + line) == LineRead(env, line)
  {
    TrimLeftDropsIndent(indent, line);
    hide TrimLeft;
    hide Assigned;
  }

  lemma {:induction false} TrimLeftDropsIndent(indent: string, line: string)
    requires forall c :: c in indent ==> IsSpace(c)
    ensures TrimLeft(indent + line) == TrimLeft(line)
  {
    hide IsSpace;
    if indent == "" {
      assert indent + line == line;
    } else {
      assert indent[0] in indent && (indent + line)[1..] == indent[1..] + line;
      TrimLeftDropsIndent(indent[1..], line);
    }
  }

  /** A line without an equal sign means nothing. */
  lemma NoAssignmentMeansNothing(env: Env, line: string)
    requires '=' !in line
    ensures LineRead(env, line) == env
  {
    TrimmedChars(line);
    NoEquals(TrimSpace(line));
    hide TrimLeft;
    hide TrimRight;
  }

  lemma {:induction false} NoEquals(line: string)
    requires '=' !in line
    ensures EqualsAt(line) == |line|
  {
    if line != "" {
      NoEquals(line[1..]);
    }
  }

  lemma TrimmedChars(line: string)
    requires '=' !in line
    ensures '=' !in TrimSpace(line)
  {
    LeftTrimmedChars(line);
    RightTrimmedChars(TrimLeft(line));
  }

  lemma {:induction false} LeftTrimmedChars(line: string)
    requires '=' !in line
    ensures '=' !in TrimLeft(line)
  {
    if line != "" {
      LeftTrimmedChars(line[1..]);
    }
  }

  lemma {:induction false} RightTrimmedChars(line: string)
    requires '=' !in line
    ensures '=' !in TrimRight(line)
  {
    if line != "" {
      RightTrimmedChars(line[..|line| - 1]);
    }
  }

  /** An unreadable file gives nothing, whatever credential files there are. */
  lemma UnreadableFileLoadsNothing(geminiFile: bool, grokFile: bool)
    ensures Loaded(None, geminiFile, grokFile) == Env("", "", "", "", false, false, false, false)
  {
  }
}
