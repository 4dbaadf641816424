/** The server registry: file-backed entries and in-memory ephemeral ones (mcp_ssh/registry.py). */
module Registry {
  import opened Wrappers
  import opened Dict

  datatype AuthType = Agent | Key | Password | Cert | Sk | KeyboardInteractive | Gssapi

  datatype HostKeyPolicy = Tofu | Strict | AcceptNew

  datatype ServerConfig = ServerConfig(
    name: string,
    host: string,
    port: int,
    user: string,
    authType: AuthType,
    keyPath: Option<string>,
    certPath: Option<string>,
    passwordEnv: Option<string>,
    jumpHost: Option<string>,
    hostKeyPolicy: Option<HostKeyPolicy>,
    defaultCwd: Option<string>,
    defaultEnv: Dict<string>,
    maxSessions: Option<int>,
    keepaliveInterval: Option<int>,
    note: Option<string>)

  datatype RegistryError = ServerNotFound | ServerAlreadyExists | WriteFailed

  /** The value of a registry: the config file's servers and the ephemeral ones. */
  datatype Reg = Reg(servers: Dict<ServerConfig>, ephemeral: Dict<ServerConfig>)

  datatype Effect = Effect(reg: Reg, error: Option<RegistryError>)

  predicate Taken(reg: Reg, name: string) {
    Has(reg.servers, name) || Has(reg.ephemeral, name)
  }

  /** Ephemeral entries take precedence. */
  function Find(reg: Reg, name: string): (r: Option<ServerConfig>)
    ensures r.Some? <==> Taken(reg, name)
  {
    if Has(reg.ephemeral, name) then Lookup(reg.ephemeral, name) else Lookup(reg.servers, name)
  }

  function Names(reg: Reg): set<string> {
    Keys(reg.servers) + Keys(reg.ephemeral)
  }

  lemma NamesAreTaken(reg: Reg, name: string)
    ensures name in Names(reg) <==> Taken(reg, name)
  {
  }

  function Values(d: Dict<ServerConfig>): seq<ServerConfig> {
    seq(|d|, i requires 0 <= i < |d| => d[i].value)
  }

  function Listed(reg: Reg): seq<ServerConfig> {
    Values(reg.servers) + Values(reg.ephemeral)
  }

  /** `add` (persisted) and `add_ephemeral`; `writeOk` says whether writing the file would succeed. */
  function Added(reg: Reg, cfg: ServerConfig, persist: bool, writeOk: bool): Effect {
    if Taken(reg, cfg.name) then Effect(reg, Some(ServerAlreadyExists))
    else if !persist then Effect(reg.(ephemeral := reg.ephemeral + [Item(cfg.name, cfg)]), None)
    else if !writeOk then Effect(reg, Some(WriteFailed))
    else Effect(reg.(servers := reg.servers + [Item(cfg.name, cfg)]), None)
  }

  /** `remove` (persisted) and `remove_ephemeral`. */
  function Removed(reg: Reg, name: string, persist: bool, writeOk: bool): Effect {
    if !persist then
      if Has(reg.ephemeral, name) then Effect(reg.(ephemeral := Without(reg.ephemeral, name)), None)
      else Effect(reg, Some(ServerNotFound))
    else if !Has(reg.servers, name) then Effect(reg, Some(ServerNotFound))
    else if !writeOk then Effect(reg, Some(WriteFailed))
    else Effect(reg.(servers := Without(reg.servers, name)), None)
  }

  /** A new entry is found under its name, and every other name keeps its meaning. */
  lemma AddedFind(reg: Reg, cfg: ServerConfig, persist: bool, writeOk: bool, name: string)
    ensures var after := Added(reg, cfg, persist, writeOk);
            && (after.error.None? <==> !Taken(reg, cfg.name) && (persist ==> writeOk))
            && Find(after.reg, name) == (if after.error.None? && name == cfg.name then Some(cfg) else Find(reg, name))
  {
    LookupAppend(reg.servers, [Item(cfg.name, cfg)], name);
    LookupAppend(reg.ephemeral, [Item(cfg.name, cfg)], name);
  }

  /** What an add answers when it does not go through, and that it then changes nothing. */
  lemma AddRefused(reg: Reg, cfg: ServerConfig, persist: bool, writeOk: bool)
    ensures var after := Added(reg, cfg, persist, writeOk);
            && (after.error == Some(ServerAlreadyExists) <==> Taken(reg, cfg.name))
            && (after.error == Some(WriteFailed) <==> !Taken(reg, cfg.name) && persist && !writeOk)
            && (after.error.Some? ==> after.reg == reg)
  {
  }

  /**
   * A removal takes the name out of the side it is asked for and touches nothing else; the answer says
   * whether that side lacked the name or the write failed, and then nothing changes at all.
   */
  lemma RemovedFind(reg: Reg, name: string, persist: bool, writeOk: bool, other: string)
    ensures var after := Removed(reg, name, persist, writeOk);
            var had := Has(if persist then reg.servers else reg.ephemeral, name);
            && after.error == (if !had then Some(ServerNotFound)
                 else if persist && !writeOk then Some(WriteFailed) else None)
            && (after.error.Some? ==> after.reg == reg)
            && (after.error.None? && persist ==>
                  && after.reg.ephemeral == reg.ephemeral
                  && Lookup(after.reg.servers, other) == if other == name then None else Lookup(reg.servers, other))
            && (after.error.None? && !persist ==>
                  && after.reg.servers == reg.servers
                  && Lookup(after.reg.ephemeral, other) == if other == name then None else Lookup(reg.ephemeral, other))
  {
    WithoutLookup(reg.servers, name, other);
    WithoutLookup(reg.ephemeral, name, other);
  }

  /** Adding a fresh entry and removing it again gives the registry back, order included. */
  lemma AddedRemoved(reg: Reg, cfg: ServerConfig, persist: bool)
    requires !Taken(reg, cfg.name)
    ensures Removed(Added(reg, cfg, persist, true).reg, cfg.name, persist, true) == Effect(reg, None)
  {
    var one := [Item(cfg.name, cfg)];
    LookupAppend(reg.servers, one, cfg.name);
    LookupAppend(reg.ephemeral, one, cfg.name);
    WithoutAppend(reg.servers, one, cfg.name);
    WithoutAppend(reg.ephemeral, one, cfg.name);
    WithoutAbsent(reg.servers, cfg.name);
    WithoutAbsent(reg.ephemeral, cfg.name);
    assert Without(one, cfg.name) == [];
    assert reg.servers + [] == reg.servers && reg.ephemeral + [] == reg.ephemeral;
  }

  class Registry {
    var servers: Dict<ServerConfig>
    var ephemeral: Dict<ServerConfig>

    ghost function State(): Reg
      reads this
    {
      Reg(servers, ephemeral)
    }

    constructor (config: Dict<ServerConfig>)
      ensures State() == Reg(config, [])
    {
      servers, ephemeral := config, [];
    }

    method Get(name: string) returns (r: Result<ServerConfig, RegistryError>)
      ensures r == match Find(State(), name) case Some(cfg) => Ok(cfg) case None => Err(ServerNotFound)
      ensures r == match (Lookup(ephemeral, name), Lookup(servers, name))
        case (Some(cfg), _) => Ok(cfg)
        case (None, Some(cfg)) => Ok(cfg)
        case (None, None) => Err(ServerNotFound)
    {
      var found := Lookup(ephemeral, name);
      if found.None? {
        found := Lookup(servers, name);
      }
      r := if found.Some? then Ok(found.value) else Err(ServerNotFound);
    }

    method ListAll() returns (r: seq<ServerConfig>)
      ensures r == Listed(State()) && |r| == |servers| + |ephemeral|
      ensures forall i :: 0 <= i < |servers| ==> r[i] == servers[i].value
      ensures forall i :: 0 <= i < |ephemeral| ==> r[|servers| + i] == ephemeral[i].value
    {
      r := Values(servers) + Values(ephemeral);
    }

    method Add(cfg: ServerConfig, writeOk: bool) returns (error: Option<RegistryError>)
      modifies this
      ensures Effect(State(), error) == Added(old(State()), cfg, true, writeOk)
    {
      if Has(servers, cfg.name) || Has(ephemeral, cfg.name) {
        return Some(ServerAlreadyExists);
      }
      var newServers := servers + [Item(cfg.name, cfg)];
      if !writeOk {
        return Some(WriteFailed);
      }
      servers := newServers;
      return None;
    }

    method Remove(name: string, writeOk: bool) returns (error: Option<RegistryError>)
      modifies this
      ensures Effect(State(), error) == Removed(old(State()), name, true, writeOk)
    {
      if !Has(servers, name) {
        return Some(ServerNotFound);
      }
      var newServers := Without(servers, name);
      if !writeOk {
        return Some(WriteFailed);
      }
      servers := newServers;
      return None;
    }

    method AddEphemeral(cfg: ServerConfig) returns (error: Option<RegistryError>)
      modifies this
      ensures forall w :: Effect(State(), error) == Added(old(State()), cfg, false, w)
    {
      if Has(servers, cfg.name) || Has(ephemeral, cfg.name) {
        return Some(ServerAlreadyExists);
      }
      ephemeral := ephemeral + [Item(cfg.name, cfg)];
      return None;
    }

    method RemoveEphemeral(name: string) returns (error: Option<RegistryError>)
      modifies this
      ensures forall w :: Effect(State(), error) == Removed(old(State()), name, false, w)
    {
      if !Has(ephemeral, name) {
        return Some(ServerNotFound);
      }
      ephemeral := Without(ephemeral, name);
      return None;
    }
  }
}
