/** Writing a config as TOML and loading it again (mcp_ssh/config.py, app_config_to_toml). */
module ConfigText {
  import opened Wrappers
  import opened Dict
  import opened Registry
  import opened Toml
  import opened TomlReader

  datatype GlobalSettings = GlobalSettings(
    knownHostsFile: string,
    defaultHostKeyPolicy: HostKeyPolicy,
    auditLog: string,
    stateFile: string,
    maxSessions: int,
    keepaliveInterval: int,
    keepaliveCountMax: int,
    connectTimeout: int,
    defaultEncoding: string)

  datatype AppConfig = AppConfig(settings: GlobalSettings, servers: Dict<ServerConfig>)

  // ---- Enumerations and their written values ----

  function AuthText(a: AuthType): string {
    match a
    case Agent => "agent"
    case Key => "key"
    case Password => "password"
    case Cert => "cert"
    case Sk => "sk"
    case KeyboardInteractive => "keyboard_interactive"
    case Gssapi => "gssapi"
  }

  function AuthOf(s: string): Option<AuthType> {
    if s == "agent" then Some(Agent)
    else if s == "key" then Some(Key)
    else if s == "password" then Some(Password)
    else if s == "cert" then Some(Cert)
    else if s == "sk" then Some(Sk)
    else if s == "keyboard_interactive" then Some(KeyboardInteractive)
    else if s == "gssapi" then Some(Gssapi)
    else None
  }

  function PolicyText(p: HostKeyPolicy): string {
    match p case Tofu => "tofu" case Strict => "strict" case AcceptNew => "accept_new"
  }

  function PolicyOf(s: string): Option<HostKeyPolicy> {
    if s == "tofu" then Some(Tofu)
    else if s == "strict" then Some(Strict)
    else if s == "accept_new" then Some(AcceptNew)
    else None
  }

  // ---- Fields ----

  datatype Field =
    | FName | FHost | FPort | FUser | FAuthType | FKeyPath | FCertPath | FPasswordEnv | FJumpHost | FHostKeyPolicy
    | FDefaultCwd | FDefaultEnv | FMaxSessions | FKeepaliveInterval | FNote
    | FKnownHostsFile | FDefaultHostKeyPolicy | FAuditLog | FStateFile | FKeepaliveCountMax | FConnectTimeout
    | FDefaultEncoding

  function FieldText(f: Field): string {
    match f
    case FName => "name"
    case FHost => "host"
    case FPort => "port"
    case FUser => "user"
    case FAuthType => "auth_type"
    case FKeyPath => "key_path"
    case FCertPath => "cert_path"
    case FPasswordEnv => "password_env"
    case FJumpHost => "jump_host"
    case FHostKeyPolicy => "host_key_policy"
    case FDefaultCwd => "default_cwd"
    case FDefaultEnv => "default_env"
    case FMaxSessions => "max_sessions"
    case FKeepaliveInterval => "keepalive_interval"
    case FNote => "note"
    case FKnownHostsFile => "known_hosts_file"
    case FDefaultHostKeyPolicy => "default_host_key_policy"
    case FAuditLog => "audit_log"
    case FStateFile => "state_file"
    case FKeepaliveCountMax => "keepalive_count_max"
    case FConnectTimeout => "connect_timeout"
    case FDefaultEncoding => "default_encoding"
  }

  /** A key of a table and the value written for it, if any. */
  datatype Entry = Entry(field: Field, value: Option<Value>)

  function StrOpt(s: Option<string>): Option<Value> {
    match s case None => None case Some(t) => Some(Str(t))
  }

  function IntOpt(n: Option<int>): Option<Value> {
    match n case None => None case Some(i) => Some(Int(i))
  }

  /** The keys of a server's table in the order they are written; an empty environment is left out. */
  function ServerEntries(s: ServerConfig): (entries: seq<Entry>)
    ensures |entries| == 15
  {
    [ Entry(FName, Some(Str(s.name))),
      Entry(FHost, Some(Str(s.host))),
      Entry(FPort, Some(Int(s.port))),
      Entry(FUser, Some(Str(s.user))),
      Entry(FAuthType, Some(Str(AuthText(s.authType)))),
      Entry(FKeyPath, StrOpt(s.keyPath)),
      Entry(FCertPath, StrOpt(s.certPath)),
      Entry(FPasswordEnv, StrOpt(s.passwordEnv)),
      Entry(FJumpHost, StrOpt(s.jumpHost)),
      Entry(FHostKeyPolicy, if s.hostKeyPolicy.Some? then Some(Str(PolicyText(s.hostKeyPolicy.value))) else None),
      Entry(FDefaultCwd, StrOpt(s.defaultCwd)),
      Entry(FDefaultEnv, if s.defaultEnv != [] then Some(Env(s.defaultEnv)) else None),
      Entry(FMaxSessions, IntOpt(s.maxSessions)),
      Entry(FKeepaliveInterval, IntOpt(s.keepaliveInterval)),
      Entry(FNote, StrOpt(s.note)) ]
  }

  function SettingsEntries(g: GlobalSettings): (entries: seq<Entry>)
    ensures |entries| == 9
  {
    [ Entry(FKnownHostsFile, Some(Str(g.knownHostsFile))),
      Entry(FDefaultHostKeyPolicy, Some(Str(PolicyText(g.defaultHostKeyPolicy)))),
      Entry(FAuditLog, Some(Str(g.auditLog))),
      Entry(FStateFile, Some(Str(g.stateFile))),
      Entry(FMaxSessions, Some(Int(g.maxSessions))),
      Entry(FKeepaliveInterval, Some(Int(g.keepaliveInterval))),
      Entry(FKeepaliveCountMax, Some(Int(g.keepaliveCountMax))),
      Entry(FConnectTimeout, Some(Int(g.connectTimeout))),
      Entry(FDefaultEncoding, Some(Str(g.defaultEncoding))) ]
  }

  /** The pairs of a table: the entries that have a value. */
  function Pairs(entries: seq<Entry>): Dict<Value> {
    if entries == [] then []
    else Pairs(entries[..|entries| - 1]) + Written(entries[|entries| - 1])
  }

  function Written(e: Entry): Dict<Value> {
    if e.value.Some? then [Item(FieldText(e.field), e.value.value)] else []
  }

  // ---- The text of a config ----

  function PairLines(pairs: Dict<Value>): (lines: seq<Line>)
    ensures |lines| == |pairs| && forall i :: 0 <= i < |pairs| ==> lines[i] == Pair(pairs[i].key, pairs[i].value)
  {
    seq(|pairs|, i requires 0 <= i < |pairs| => Pair(pairs[i].key, pairs[i].value))
  }

  function Section(path: seq<string>, pairs: Dict<Value>): seq<Line> {
    [Header(path)] + PairLines(pairs) + [Blank]
  }

  function ServerPath(name: string): seq<string> {
    ["servers", name]
  }

  function ServerSections(servers: Dict<ServerConfig>): seq<Line> {
    if servers == [] then []
    else
      var last := servers[|servers| - 1];
      ServerSections(servers[..|servers| - 1]) + Section(ServerPath(last.key), Pairs(ServerEntries(last.value)))
  }

  function ConfigLines(cfg: AppConfig): seq<Line> {
    Section(["settings"], Pairs(SettingsEntries(cfg.settings))) + ServerSections(cfg.servers)
  }

  function Printed(cfg: AppConfig): string {
    Join(ShowAll(ConfigLines(cfg)))
  }

  lemma ShowAllConcat(a: seq<Line>, b: seq<Line>)
    ensures ShowAll(a + b) == ShowAll(a) + ShowAll(b)
  {
  }

  lemma PairLinesConcat(a: Dict<Value>, b: Dict<Value>)
    ensures PairLines(a + b) == PairLines(a) + PairLines(b)
  {
  }

  /** The lines of a section after one more entry. */
  lemma SectionStep(lines0: seq<string>, head: seq<Line>, pairs: Dict<Value>, e: Entry)
    ensures lines0 + ShowAll(head + PairLines(pairs + Written(e)))
      == lines0 + ShowAll(head + PairLines(pairs))
          + (if e.value.Some? then [Show(Pair(FieldText(e.field), e.value.value))] else [])
  {
    PairLinesConcat(pairs, Written(e));
    assert head + (PairLines(pairs) + PairLines(Written(e))) == (head + PairLines(pairs)) + PairLines(Written(e));
    ShowAllConcat(head + PairLines(pairs), PairLines(Written(e)));
  }

  lemma PairsStep(entries: seq<Entry>, k: nat)
    requires k < |entries|
    ensures Pairs(entries[..k + 1]) == Pairs(entries[..k]) + Written(entries[k])
  {
    assert entries[..k + 1][..k] == entries[..k];
  }

  /** One table: its header, a line per entry that has a value, a blank line. */
  method AppendSection(lines0: seq<string>, path: seq<string>, entries: seq<Entry>) returns (lines: seq<string>)
    ensures lines == lines0 + ShowAll(Section(path, Pairs(entries)))
  {
    lines := lines0 + [Show(Header(path))];
    ghost var head := [Header(path)];
    assert head + PairLines([]) == head;
    for k := 0 to |entries|
      invariant lines == lines0 + ShowAll(head + PairLines(Pairs(entries[..k])))
    {
      var e := entries[k];
      PairsStep(entries, k);
      SectionStep(lines0, head, Pairs(entries[..k]), e);
      if e.value.Some? {
        lines := lines + [Show(Pair(FieldText(e.field), e.value.value))];
      }
    }
    assert entries[..|entries|] == entries;
    ShowAllConcat(head + PairLines(Pairs(entries)), [Blank]);
    lines := lines + [""];
  }

  lemma ServerStep(head: seq<Line>, servers: Dict<ServerConfig>, item: Item<ServerConfig>)
    ensures ShowAll(head + ServerSections(servers + [item]))
      == ShowAll(head + ServerSections(servers))
          + ShowAll(Section(ServerPath(item.key), Pairs(ServerEntries(item.value))))
  {
    var section := Section(ServerPath(item.key), Pairs(ServerEntries(item.value)));
    assert (servers + [item])[..|servers|] == servers;
    assert head + (ServerSections(servers) + section) == (head + ServerSections(servers)) + section;
    ShowAllConcat(head + ServerSections(servers), section);
  }

  /** app_config_to_toml. */
  method AppConfigToToml(cfg: AppConfig) returns (text: string)
    ensures text == Printed(cfg)
  {
    var lines := AppendSection([], ["settings"], SettingsEntries(cfg.settings));
    ghost var head := Section(["settings"], Pairs(SettingsEntries(cfg.settings)));
    assert head + ServerSections([]) == head;
    for k := 0 to |cfg.servers|
      invariant lines == ShowAll(head + ServerSections(cfg.servers[..k]))
    {
      var item := cfg.servers[k];
      assert cfg.servers[..k + 1] == cfg.servers[..k] + [item];
      lines := AppendSection(lines, ServerPath(item.key), ServerEntries(item.value));
      ServerStep(head, cfg.servers[..k], item);
    }
    assert cfg.servers[..|cfg.servers|] == cfg.servers;
    text := Join(lines);
  }

  // ---- Loading ----

  /** The fields of a table, as the model's validation asks for them. */
  type Getter = Field -> Option<Value>

  /** The value a document gives a path. */
  function ValueAt(doc: Doc, path: seq<string>): Option<Value> {
    if doc == [] then None
    else
      var before, last := ValueAt(doc[..|doc| - 1], path), doc[|doc| - 1];
      if before.Some? then before
      else if last.Set? && last.path == path then Some(last.value)
      else None
  }

  /** The document says something at or below the path. */
  predicate Under(doc: Doc, path: seq<string>) {
    exists i :: 0 <= i < |doc| && path <= doc[i].path
  }

  /** The fields of the table at `base`; a table in the place of a field is a value of another kind. */
  function FieldsAt(doc: Doc, base: seq<string>): Getter {
    f =>
      match ValueAt(doc, base + [FieldText(f)])
      case Some(v) => Some(v)
      case None => if Under(doc, base + [FieldText(f)]) then Some(Other) else None
  }

  predicate IsStr(v: Option<Value>) {
    v.None? || v.value.Str?
  }

  predicate IsInt(v: Option<Value>) {
    v.None? || v.value.Int?
  }

  function AsStr(v: Option<Value>): Option<string>
    requires IsStr(v)
  {
    match v case None => None case Some(Str(s)) => Some(s)
  }

  function AsInt(v: Option<Value>): Option<int>
    requires IsInt(v)
  {
    match v case None => None case Some(Int(n)) => Some(n)
  }

  function IntOr(v: Option<Value>, default: int): int
    requires IsInt(v)
  {
    match v case None => default case Some(Int(n)) => n
  }

  function StrOr(v: Option<Value>, default: string): string
    requires IsStr(v)
  {
    match v case None => default case Some(Str(s)) => s
  }

  predicate IsPolicy(v: Option<Value>) {
    IsStr(v) && (v.Some? ==> PolicyOf(v.value.text).Some?)
  }

  /** The values of a server's table have the types the model wants, and the required ones are there. */
  predicate ServerTyped(get: Getter) {
    && get(FName).Some? && IsStr(get(FName)) && get(FHost).Some? && IsStr(get(FHost))
    && get(FUser).Some? && IsStr(get(FUser)) && IsInt(get(FPort))
    && get(FAuthType).Some? && IsStr(get(FAuthType)) && AuthOf(get(FAuthType).value.text).Some?
    && IsStr(get(FKeyPath)) && IsStr(get(FCertPath)) && IsStr(get(FPasswordEnv)) && IsStr(get(FJumpHost))
    && IsPolicy(get(FHostKeyPolicy)) && IsStr(get(FDefaultCwd))
    && (get(FDefaultEnv).Some? ==> get(FDefaultEnv).value.Env?)
    && IsInt(get(FMaxSessions)) && IsInt(get(FKeepaliveInterval)) && IsStr(get(FNote))
  }

  function ServerOf(get: Getter): Option<ServerConfig> {
    if !ServerTyped(get) then None
    else Some(ServerConfig(
      get(FName).value.text, get(FHost).value.text, IntOr(get(FPort), 22), get(FUser).value.text,
      AuthOf(get(FAuthType).value.text).value,
      AsStr(get(FKeyPath)), AsStr(get(FCertPath)), AsStr(get(FPasswordEnv)), AsStr(get(FJumpHost)),
      if get(FHostKeyPolicy).Some? then PolicyOf(get(FHostKeyPolicy).value.text) else None,
      AsStr(get(FDefaultCwd)),
      if get(FDefaultEnv).Some? then get(FDefaultEnv).value.pairs else [],
      AsInt(get(FMaxSessions)), AsInt(get(FKeepaliveInterval)), AsStr(get(FNote))))
  }

  predicate SettingsTyped(get: Getter) {
    && IsStr(get(FKnownHostsFile)) && IsPolicy(get(FDefaultHostKeyPolicy)) && IsStr(get(FAuditLog))
    && IsStr(get(FStateFile)) && IsInt(get(FMaxSessions)) && IsInt(get(FKeepaliveInterval))
    && IsInt(get(FKeepaliveCountMax)) && IsInt(get(FConnectTimeout)) && IsStr(get(FDefaultEncoding))
  }

  const DEFAULTS: GlobalSettings := GlobalSettings(
    "~/.local/share/mcp-ssh/known_hosts", Tofu, "~/.local/share/mcp-ssh/audit.jsonl",
        "~/.local/share/mcp-ssh/state.json",
    10, 30, 5, 15, "utf-8")

  function SettingsOf(get: Getter): Option<GlobalSettings> {
    if !SettingsTyped(get) then None
    else Some(GlobalSettings(
      StrOr(get(FKnownHostsFile), DEFAULTS.knownHostsFile),
      if get(FDefaultHostKeyPolicy).Some? then PolicyOf(get(FDefaultHostKeyPolicy).value.text).value else Tofu,
      StrOr(get(FAuditLog), DEFAULTS.auditLog),
      StrOr(get(FStateFile), DEFAULTS.stateFile),
      IntOr(get(FMaxSessions), 10), IntOr(get(FKeepaliveInterval), 30),
      IntOr(get(FKeepaliveCountMax), 5), IntOr(get(FConnectTimeout), 15),
      StrOr(get(FDefaultEncoding), DEFAULTS.defaultEncoding)))
  }

  /** A name under `servers` that a path adds to those known. */
  function AddName(names: seq<string>, path: seq<string>): seq<string> {
    if |path| >= 2 && path[0] == "servers" && path[1] !in names then names + [path[1]] else names
  }

  function NamesFrom(names: seq<string>, doc: Doc): seq<string>
    decreases |doc|
  {
    if doc == [] then names else NamesFrom(AddName(names, doc[0].path), doc[1..])
  }

  /** The names of the tables under `servers`, in the order in which they come up. */
  function ServerNames(doc: Doc): seq<string> {
    NamesFrom([], doc)
  }

  /** A value stands where the config wants a table; inline tables there are not followed. */
  predicate MisplacedValue(doc: Doc) {
    exists i :: 0 <= i < |doc| && doc[i].Set? &&
                (doc[i].path == ["settings"] || doc[i].path == ["servers"]
                    || (|doc[i].path| == 2 && doc[i].path[0] == "servers"))
  }

  function DecodeServers(doc: Doc, names: seq<string>): Option<Dict<ServerConfig>> {
    if names == [] then Some([])
    else
      var n := names[|names| - 1];
      match (DecodeServers(doc, names[..|names| - 1]), ServerOf(FieldsAt(doc, ServerPath(n))))
      case (Some(front), Some(s)) => Some(front + [Item(n, s)])
      case _ => None
  }

  function Decode(doc: Doc): Option<AppConfig> {
    if MisplacedValue(doc) then None
    else match (SettingsOf(FieldsAt(doc, ["settings"])), DecodeServers(doc, ServerNames(doc)))
      case (Some(g), Some(servers)) => Some(AppConfig(g, servers))
      case _ => None
  }

  /** load_config up to the model's validation. */
  function Load(b: Beyond, text: string): Option<AppConfig> {
    match ReadText(b, text)
    case None => None
    case Some(doc) => Decode(doc)
  }
}
