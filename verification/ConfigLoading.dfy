/** load_config in full: reading, validation, path expansion and the cycle check (mcp_ssh/config.py). */
module ConfigLoading {
  import opened Wrappers
  import opened Dict
  import opened Registry
  import opened JumpGraph
  import opened TomlReader
  import opened ConfigText
  import opened ConfigSections
  import opened ConfigRoundTrip

  /** _expand_path, which depends on the environment and the home directory. */
  type Expansion = string -> string

  function ExpandOpt(expand: Expansion, path: Option<string>): Option<string> {
    match path case None => None case Some(p) => Some(expand(p))
  }

  function ExpandSettings(expand: Expansion, g: GlobalSettings): GlobalSettings {
    g.(knownHostsFile := expand(g.knownHostsFile), auditLog := expand(g.auditLog), stateFile := expand(g.stateFile))
  }

  function ExpandServer(expand: Expansion, s: ServerConfig): ServerConfig {
    s.(keyPath := ExpandOpt(expand, s.keyPath), certPath := ExpandOpt(expand, s.certPath),
       defaultCwd := ExpandOpt(expand, s.defaultCwd))
  }

  function ExpandServers(expand: Expansion, servers: Dict<ServerConfig>): (r: Dict<ServerConfig>)
    ensures |r| == |servers|
    ensures forall i :: 0 <= i < |r| ==> r[i] == Item(servers[i].key, ExpandServer(expand, servers[i].value))
  {
    seq(|servers|, i requires 0 <= i < |servers| => Item(servers[i].key, ExpandServer(expand, servers[i].value)))
  }

  function Expanded(expand: Expansion, cfg: AppConfig): AppConfig {
    AppConfig(ExpandSettings(expand, cfg.settings), ExpandServers(expand, cfg.servers))
  }

  /** What a text loads as: nothing when it does not validate or some chain of jump hosts is circular. */
  ghost function Loads(b: Beyond, expand: Expansion, text: string): Option<AppConfig> {
    match Load(b, text)
    case None => None
    case Some(cfg) =>
      if Acyclic(JumpsOfServers(cfg.servers)) then Some(Expanded(expand, cfg)) else None
  }

  method LoadConfig(b: Beyond, expand: Expansion, text: string) returns (r: Option<AppConfig>)
    ensures r == Loads(b, expand, text)
  {
    var raw := Load(b, text);
    if raw.None? {
      return None;
    }
    var cfg := Expanded(expand, raw.value);
    ExpansionKeepsJumps(expand, raw.value.servers);
    var circular := DetectCircularJumps(cfg.servers);
    r := if circular then None else Some(cfg);
  }

  /** Expanding paths changes no name and no jump host. */
  lemma {:induction false} ExpansionKeepsLookup(expand: Expansion, servers: Dict<ServerConfig>, n: string)
    ensures Lookup(ExpandServers(expand, servers), n) ==
      match Lookup(servers, n) case None => None case Some(s) => Some(ExpandServer(expand, s))
  {
    if servers != [] {
      ExpansionKeepsLookup(expand, servers[1..], n);
      assert ExpandServers(expand, servers)[1..] == ExpandServers(expand, servers[1..]);
    }
  }

  lemma ExpansionKeepsJumps(expand: Expansion, servers: Dict<ServerConfig>)
    ensures JumpsOfServers(ExpandServers(expand, servers)) == JumpsOfServers(servers)
  {
    forall n
      ensures n in Keys(ExpandServers(expand, servers)) <==> n in Keys(servers)
      ensures n in Keys(servers) ==>
        Lookup(ExpandServers(expand, servers), n).value.jumpHost == Lookup(servers, n).value.jumpHost
    {
      ExpansionKeepsLookup(expand, servers, n);
    }
  }

  /** Loading expands the three paths of the settings and the three of each server, and changes nothing else. */
  lemma LoadedIsExpanded(b: Beyond, expand: Expansion, text: string, cfg: AppConfig) returns (raw: AppConfig)
    requires Loads(b, expand, text) == Some(cfg)
    ensures Load(b, text) == Some(raw)
    ensures cfg.settings.knownHostsFile == expand(raw.settings.knownHostsFile)
    ensures cfg.settings.auditLog == expand(raw.settings.auditLog)
    ensures cfg.settings.stateFile == expand(raw.settings.stateFile)
    ensures cfg.settings.(knownHostsFile := raw.settings.knownHostsFile, auditLog := raw.settings.auditLog,
              stateFile := raw.settings.stateFile) == raw.settings
    ensures |cfg.servers| == |raw.servers|
    ensures forall i :: 0 <= i < |cfg.servers| ==>
      var (s, r) := (cfg.servers[i].value, raw.servers[i].value);
      && cfg.servers[i].key == raw.servers[i].key
      && s.keyPath == (if r.keyPath.Some? then Some(expand(r.keyPath.value)) else None)
      && s.certPath == (if r.certPath.Some? then Some(expand(r.certPath.value)) else None)
      && s.defaultCwd == (if r.defaultCwd.Some? then Some(expand(r.defaultCwd.value)) else None)
      && s.(keyPath := r.keyPath, certPath := r.certPath, defaultCwd := r.defaultCwd) == r
  {
    raw := Load(b, text).value;
  }

  /** A plain config that was written loads expanded, unless its jump hosts are circular. */
  lemma WrittenLoadsExpanded(b: Beyond, expand: Expansion, cfg: AppConfig)
    requires IsConfig(cfg) && PlainConfig(cfg)
    ensures Loads(b, expand, Printed(cfg)) ==
      if Acyclic(JumpsOfServers(cfg.servers)) then Some(Expanded(expand, cfg)) else None
  {
    PlainRoundTrip(b, cfg);
  }

  /** A plain config loads back as itself exactly when it has no cycle and its paths are expanded already. */
  lemma PlainLoadsBackIff(b: Beyond, expand: Expansion, cfg: AppConfig)
    requires IsConfig(cfg) && PlainConfig(cfg)
    ensures Loads(b, expand, Printed(cfg)) == Some(cfg) <==>
            Acyclic(JumpsOfServers(cfg.servers)) && Expanded(expand, cfg) == cfg
  {
    WrittenLoadsExpanded(b, expand, cfg);
  }

  /**
   * With an expansion that leaves expanded paths alone, whatever was loaded and is plain can be saved
   * and loaded again.
   */
  lemma SavedLoadsBack(b: Beyond, expand: Expansion, text: string, cfg: AppConfig)
    requires forall path :: expand(expand(path)) == expand(path)
    requires Loads(b, expand, text) == Some(cfg) && IsConfig(cfg) && PlainConfig(cfg)
    ensures Loads(b, expand, Printed(cfg)) == Some(cfg)
  {
    var raw := Load(b, text).value;
    ExpansionKeepsJumps(expand, raw.servers);
    ExpandedTwice(expand, raw);
    PlainLoadsBackIff(b, expand, cfg);
  }

  lemma ExpandedTwice(expand: Expansion, cfg: AppConfig)
    requires forall path :: expand(expand(path)) == expand(path)
    ensures Expanded(expand, Expanded(expand, cfg)) == Expanded(expand, cfg)
  {
    var once := ExpandServers(expand, cfg.servers);
    forall i | 0 <= i < |once|
      ensures ExpandServers(expand, once)[i] == once[i]
    {
    }
    assert ExpandServers(expand, once) == once;
  }
}
