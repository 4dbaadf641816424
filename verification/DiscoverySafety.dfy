/** What every step of the discovery engine keeps, in whatever order its tasks run. */
module DiscoverySafety {
  import opened Wrappers
  import opened Registry
  import opened JumpChain
  import opened Discovery
  import Text

  function Max(a: int, b: int): int {
    if a < b then b else a
  }

  // ---- The invariants ----

  ghost predicate Bounded(p: Params, e: Engine) {
    && |e.discovered| <= Max(0, p.maxNodes)
    && forall i :: 0 <= i < |e.discovered| ==> 1 <= e.discovered[i].depth <= p.maxDepth
  }

  ghost predicate DistinctHosts(e: Engine) {
    && (forall i :: 0 <= i < |e.discovered| ==> e.discovered[i].fingerprint in e.visitedFps)
    && (forall i, j :: 0 <= i < j < |e.discovered| ==> e.discovered[i].fingerprint != e.discovered[j].fingerprint)
    && (forall i, j :: 0 <= i < j < |e.discovered| ==> e.discovered[i].name != e.discovered[j].name)
  }

  /** Hosts share no address, and every address of a host has answered. */
  ghost predicate DisjointAddresses(e: Engine) {
    && (forall i, a :: 0 <= i < |e.discovered| && a in e.discovered[i].addrs ==> a in e.finished)
    && (forall i, j, a :: 0 <= i < j < |e.discovered| && a in e.discovered[i].addrs ==> a !in e.discovered[j].addrs)
  }

  ghost predicate NoRepeats<T>(s: seq<T>) {
    forall i, j :: 0 <= i < j < |s| ==> s[i] != s[j]
  }

  /** Each address is dialed at most once, and the counters count what they say. */
  ghost predicate DialedOnce(e: Engine) {
    && NoRepeats(e.dialed)
    && (forall a :: a in e.dialed ==> a in e.visitedIps)
    && (forall a :: a in e.finished ==> a in e.dialed)
    && e.stats.connectsOk == e.nextConn <= |e.finished|
    && e.stats.probes == |e.dialed|
    && e.stats.candidates == |e.visitedIps|
  }

  /** The names of the hosts found via `v`, in discovery order. */
  function NamesVia(hosts: seq<Host>, v: string): seq<string> {
    if hosts == [] then []
    else NamesVia(hosts[..|hosts| - 1], v) + (if hosts[|hosts| - 1].via == v then [hosts[|hosts| - 1].name] else [])
  }

  ghost predicate GraphListsHosts(e: Engine) {
    forall v :: (if v in e.graph then e.graph[v] else []) == NamesVia(e.discovered, v)
        && (v in e.graph ==> e.graph[v] != [])
  }

  /**
   * Every connection the engine opened is closed exactly once or held open exactly once; no seed
   * connection is closed.
   */
  ghost predicate NoLeaks(e: Engine) {
    && (forall n: nat :: multiset(e.closed)[Dialed(n)] + multiset(e.openConns)[Dialed(n)] ==
         if n < e.nextConn then 1 else 0)
    && (forall c :: c in e.closed || c in e.openConns ==> c.Dialed?)
  }

  /** The registry is the one from before the run with one config appended per host. */
  ghost predicate RegistersHosts(p: Params, reg0: Reg, e: Engine) {
    && |e.configs| == |e.discovered| == |e.openConns|
    && e.reg == Appended(reg0, e.configs, p.persist)
    && Free(reg0, e.configs) && DistinctNames(e.configs)
    && forall i :: 0 <= i < |e.configs| ==> Describes(p, e.configs[i], e.discovered[i])
  }

  ghost predicate Describes(p: Params, cfg: ServerConfig, host: Host) {
    && cfg.name == host.name && host.addrs != [] && cfg.host == host.addrs[0]
    && cfg.note == Some(Note(p, host.fingerprint)) && cfg.keyPath == p.keyPath
    && cfg.port == p.port && cfg.authType == Key && cfg.hostKeyPolicy == Some(Tofu)
    && host.poolReachable == cfg.keyPath.Some?
  }

  function HostNode(e: Engine, i: nat): Node
    requires i < |e.discovered| && i < |e.openConns|
  {
    Node(e.discovered[i].name, Some(e.discovered[i].fingerprint), Some(e.openConns[i]), e.discovered[i].depth, false)
  }

  /** A frontier item is a seed or stands for a discovered host. */
  ghost predicate Known(seeds: seq<Node>, e: Engine, n: Node) {
    n in seeds || exists i :: 0 <= i < |e.discovered| && i < |e.openConns| && n == HostNode(e, i)
  }

  /** Host `i` was found via `n`: its record, its depth and its jump host say so. */
  ghost predicate FoundVia(e: Engine, i: nat, n: Node)
    requires i < |e.discovered| && i < |e.configs|
  {
    && e.discovered[i].via == n.name && e.discovered[i].depth == n.depth + 1
    && e.configs[i].jumpHost == if n.isLocal then None else Some(n.name)
  }

  ghost predicate Originates(seeds: seq<Node>, e: Engine) {
    && |e.configs| == |e.discovered| == |e.openConns|
    && forall i :: 0 <= i < |e.discovered| ==> HasOrigin(seeds, e, i)
  }

  ghost predicate HasOrigin(seeds: seq<Node>, e: Engine, i: nat)
    requires i < |e.discovered| == |e.configs| == |e.openConns|
  {
    || (exists s :: s in seeds && FoundVia(e, i, s))
    || (exists j :: 0 <= j < i && FoundVia(e, i, HostNode(e, j)))
  }

  ghost predicate Safe(p: Params, seeds: seq<Node>, reg0: Reg, e: Engine) {
    && Bounded(p, e) && DistinctHosts(e) && DisjointAddresses(e) && DialedOnce(e)
    && GraphListsHosts(e) && NoLeaks(e) && RegistersHosts(p, reg0, e) && Originates(seeds, e)
  }

  ghost predicate AllSeeds(seeds: seq<Node>) {
    forall s :: s in seeds ==> s.depth == 0
  }

  /** The engine before its first step. */
  function Start(reg: Reg): Engine {
    Engine(reg, {}, {}, [], map[], [], false, Stats(0, 0, 0), 0, [], [], {}, [], 0, false)
  }

  lemma StartIsSafe(p: Params, seeds: seq<Node>, reg: Reg)
    ensures Safe(p, seeds, reg, Start(reg))
  {
    assert reg.servers + Items([]) == reg.servers && reg.ephemeral + Items([]) == reg.ephemeral;
  }

  // ---- Small steps ----

  lemma ReserveIsSafe(p: Params, seeds: seq<Node>, reg0: Reg, e: Engine, addr: string)
    requires Safe(p, seeds, reg0, e) && addr !in e.visitedIps
    ensures Safe(p, seeds, reg0, Reserve(e, addr))
  {
    forall i | 0 <= i < |e.discovered|
      ensures HasOrigin(seeds, Reserve(e, addr), i)
    {
      OriginKept(seeds, e, Reserve(e, addr), i);
    }
  }

  lemma GiveUpIsSafe(p: Params, seeds: seq<Node>, reg0: Reg, e: Engine)
    requires Safe(p, seeds, reg0, e)
    ensures Safe(p, seeds, reg0, GiveUp(e))
  {
    forall i | 0 <= i < |e.discovered|
      ensures HasOrigin(seeds, GiveUp(e), i)
    {
      OriginKept(seeds, e, GiveUp(e), i);
    }
  }

  lemma LookIsSafe(p: Params, seeds: seq<Node>, reg0: Reg, e: Engine)
    requires Safe(p, seeds, reg0, e)
    ensures Safe(p, seeds, reg0, Look(e))
  {
    forall i | 0 <= i < |e.discovered|
      ensures HasOrigin(seeds, Look(e), i)
    {
      OriginKept(seeds, e, Look(e), i);
    }
  }

  lemma StartDialIsSafe(p: Params, seeds: seq<Node>, reg0: Reg, e: Engine, addr: string)
    requires Safe(p, seeds, reg0, e) && addr in e.visitedIps && addr !in e.dialed
    ensures Safe(p, seeds, reg0, StartDial(e, addr))
  {
    forall i | 0 <= i < |e.discovered|
      ensures HasOrigin(seeds, StartDial(e, addr), i)
    {
      OriginKept(seeds, e, StartDial(e, addr), i);
    }
  }

  /** `e'` has the hosts of `e` first, with at most more addresses. */
  ghost predicate Extends(e': Engine, e: Engine) {
    && |e.configs| <= |e'.configs| && |e.discovered| <= |e'.discovered| && |e.openConns| <= |e'.openConns|
    && (forall i :: 0 <= i < |e.configs| ==> e'.configs[i] == e.configs[i])
    && (forall i :: 0 <= i < |e.openConns| ==> e'.openConns[i] == e.openConns[i])
    && (forall i :: 0 <= i < |e.discovered| ==> e'.discovered[i] == e.discovered[i].(addrs := e'.discovered[i].addrs))
  }

  lemma OriginKept(seeds: seq<Node>, e: Engine, e': Engine, i: nat)
    requires Extends(e', e)
    requires i < |e.discovered| == |e.configs| == |e.openConns| && |e'.discovered| == |e'.configs| == |e'.openConns|
    requires HasOrigin(seeds, e, i)
    ensures HasOrigin(seeds, e', i)
  {
    if s :| s in seeds && FoundVia(e, i, s) {
      assert FoundVia(e', i, s);
    } else {
      var j :| 0 <= j < i && FoundVia(e, i, HostNode(e, j));
      assert HostNode(e', j) == HostNode(e, j);
      assert FoundVia(e', i, HostNode(e', j));
    }
  }

  lemma KnownKept(seeds: seq<Node>, e: Engine, e': Engine, n: Node)
    requires Known(seeds, e, n) && Extends(e', e)
    ensures Known(seeds, e', n)
  {
    if n !in seeds {
      var i :| 0 <= i < |e.discovered| && i < |e.openConns| && n == HostNode(e, i);
      assert n == HostNode(e', i);
    }
  }

  // ---- The step after a connect ----

  /** When FinishDial may run: the address is being dialed via a frontier item below the depth bound. */
  ghost predicate Finishing(p: Params, seeds: seq<Node>, e: Engine, via: Node, addr: string) {
    && addr in e.dialed && addr !in e.finished
    && Known(seeds, e, via) && 0 <= via.depth < p.maxDepth
  }

  /** A host's record after a step: the same, or with the address just dialed added because its box answered there. */
  ghost predicate Refreshed(h': Host, h: Host, addr: string, outcome: Outcome) {
    && h' == h.(addrs := h'.addrs)
    && (h'.addrs == h.addrs || (outcome == Presents(h.fingerprint) && h'.addrs == h.addrs + [addr]))
  }

  ghost predicate AllRefreshed(hosts': seq<Host>, hosts: seq<Host>, addr: string, outcome: Outcome) {
    |hosts'| == |hosts| && forall i :: 0 <= i < |hosts| ==> Refreshed(hosts'[i], hosts[i], addr, outcome)
  }

  /** The step admitted no host: at most a connection was opened and closed again. */
  ghost predicate Quiet(w: World, e': Engine, e: Engine, addr: string) {
    && e'.reg == e.reg && e'.configs == e.configs && e'.graph == e.graph && e'.openConns == e.openConns
    && e'.visitedIps == e.visitedIps && e'.dialed == e.dialed && e'.finished == e.finished + {addr}
    && e.visitedFps <= e'.visitedFps
    && AllRefreshed(e'.discovered, e.discovered, addr, w.connect(addr))
    && e'.stats.probes == e.stats.probes && e'.stats.candidates == e.stats.candidates
    && e'.stats.connectsOk - e.stats.connectsOk == e'.nextConn - e.nextConn
    && ((e'.nextConn == e.nextConn && e'.closed == e.closed)
        || (e'.nextConn == e.nextConn + 1 && e'.closed == e.closed + [Dialed(e.nextConn)]))
  }

  /** The step admitted one host. */
  ghost predicate Admits(p: Params, w: World, e': Engine, e: Engine, via: Node, addr: string, host: Host,
      cfg: ServerConfig) {
    && w.connect(addr) == Presents(host.fingerprint) && host.fingerprint !in e.visitedFps
    && |e.discovered| < p.maxNodes
    && host == Host(host.name, host.fingerprint, [addr], via.name, via.depth + 1, p.keyPath.Some?)
    && !Taken(e.reg, host.name)
    && cfg == HostConfig(p, host.name, host.fingerprint, addr, via, w.user(via, addr))
    && Added(e.reg, cfg, p.persist, w.writeOk(addr)) == Effect(e'.reg, None)
    && e'.configs == e.configs + [cfg] && e'.discovered == e.discovered + [host]
    && e'.graph == AppendTo(e.graph, via.name, host.name)
    && e'.visitedIps == e.visitedIps && e'.dialed == e.dialed && e'.finished == e.finished + {addr}
    && e'.visitedFps == e.visitedFps + {host.fingerprint}
    && e'.stats == e.stats.(connectsOk := e.stats.connectsOk + 1)
    && e'.nextConn == e.nextConn + 1 && e'.closed == e.closed && e'.openConns == e.openConns + [Dialed(e.nextConn)]
  }

  lemma {:induction false} RecordAddrShape(hosts: seq<Host>, fp: string, addr: string)
    ensures AllRefreshed(RecordAddr(hosts, fp, addr), hosts, addr, Presents(fp))
  {
    if hosts != [] && !(hosts[0].fingerprint == fp && addr !in hosts[0].addrs) {
      RecordAddrShape(hosts[1..], fp, addr);
    }
  }

  /** The two kinds of step. */
  lemma FinishShape(p: Params, w: World, e: Engine, via: Node, addr: string)
    ensures var f := FinishDial(p, w, e, via, addr);
            if f.found.None? then Quiet(w, f.engine, e, addr) else AdmitsLast(p, w, f, e, via, addr)
  {
    if w.connect(addr).Presents? {
      PresentsShape(p, w, e, via, addr, w.connect(addr).fingerprint);
    } else {
      SameHosts(e.discovered, addr, w.connect(addr));
    }
  }

  lemma SameHosts(hosts: seq<Host>, addr: string, outcome: Outcome)
    ensures AllRefreshed(hosts, hosts, addr, outcome)
  {
  }

  lemma PresentsShape(p: Params, w: World, e: Engine, via: Node, addr: string, fp: string)
    requires w.connect(addr) == Presents(fp)
    ensures var f := FinishDial(p, w, e, via, addr);
            if f.found.None? then Quiet(w, f.engine, e, addr) else AdmitsLast(p, w, f, e, via, addr)
  {
    var f := FinishDial(p, w, e, via, addr);
    if fp in e.visitedFps {
      RecordAddrShape(e.discovered, fp, addr);
      assert f.engine.discovered == RecordAddr(e.discovered, fp, addr);
    } else {
      SameHosts(e.discovered, addr, Presents(fp));
      if |e.discovered| < p.maxNodes {
        var e2 := Connected(e, addr).(visitedFps := e.visitedFps + {fp});
        AdmitShape(p, w, e2, e, via, addr, fp);
        assert f == Admit(p, w, e2, via, addr, fp, Dialed(e.nextConn));
      }
    }
  }

  lemma AdmitShape(p: Params, w: World, e2: Engine, e: Engine, via: Node, addr: string, fp: string)
    requires w.connect(addr) == Presents(fp) && fp !in e.visitedFps && |e.discovered| < p.maxNodes
    requires e2 == Connected(e, addr).(visitedFps := e.visitedFps + {fp})
    ensures var f := Admit(p, w, e2, via, addr, fp, Dialed(e.nextConn));
            if f.found.None? then Quiet(w, f.engine, e, addr) else AdmitsLast(p, w, f, e, via, addr)
  {
    SameHosts(e.discovered, addr, Presents(fp));
  }

  /** The last host and config of the new state are the ones admitted. */
  ghost predicate AdmitsLast(p: Params, w: World, f: Finish, e: Engine, via: Node, addr: string) {
    var e' := f.engine;
    && |e'.discovered| > 0 && |e'.configs| > 0 && |e'.openConns| > 0
    && Admits(p, w, e', e, via, addr, e'.discovered[|e'.discovered| - 1], e'.configs[|e'.configs| - 1])
    && f.found == Some(HostNodeLast(e'))
  }

  function HostNodeLast(e: Engine): Node
    requires |e.discovered| > 0 && |e.openConns| > 0
  {
    var h := e.discovered[|e.discovered| - 1];
    Node(h.name, Some(h.fingerprint), Some(e.openConns[|e.openConns| - 1]), h.depth, false)
  }

  // ---- Steps that admit no host ----

  lemma QuietExtends(w: World, e': Engine, e: Engine, addr: string)
    requires Quiet(w, e', e, addr)
    ensures Extends(e', e)
  {
    forall i | 0 <= i < |e.discovered|
      ensures e'.discovered[i] == e.discovered[i].(addrs := e'.discovered[i].addrs)
    {
      assert Refreshed(e'.discovered[i], e.discovered[i], addr, w.connect(addr));
    }
  }

  lemma QuietHosts(p: Params, w: World, e': Engine, e: Engine, addr: string)
    requires Quiet(w, e', e, addr) && Bounded(p, e) && DistinctHosts(e)
    ensures Bounded(p, e') && DistinctHosts(e')
  {
    QuietExtends(w, e', e, addr);
  }

  lemma QuietDisjoint(w: World, e': Engine, e: Engine, addr: string)
    requires Quiet(w, e', e, addr) && DisjointAddresses(e) && DistinctHosts(e) && addr !in e.finished
    ensures DisjointAddresses(e')
  {
    forall i | 0 <= i < |e.discovered|
      ensures Refreshed(e'.discovered[i], e.discovered[i], addr, w.connect(addr))
      ensures forall a :: a in e'.discovered[i].addrs ==>
        a in e.discovered[i].addrs || (a == addr && w.connect(addr) == Presents(e.discovered[i].fingerprint))
    {
      assert Refreshed(e'.discovered[i], e.discovered[i], addr, w.connect(addr));
    }
  }

  lemma QuietCounts(w: World, e': Engine, e: Engine, addr: string)
    requires Quiet(w, e', e, addr) && DialedOnce(e) && addr in e.dialed && addr !in e.finished
    ensures DialedOnce(e')
  {
  }

  lemma QuietGraph(w: World, e': Engine, e: Engine, addr: string)
    requires Quiet(w, e', e, addr) && GraphListsHosts(e)
    ensures GraphListsHosts(e')
  {
    QuietExtends(w, e', e, addr);
    forall v
      ensures NamesVia(e'.discovered, v) == NamesVia(e.discovered, v)
    {
      NamesViaSame(e.discovered, e'.discovered, v);
    }
  }

  lemma {:induction false} NamesViaSame(hosts: seq<Host>, hosts': seq<Host>, v: string)
    requires |hosts| == |hosts'|
    requires forall i :: 0 <= i < |hosts| ==> hosts'[i].name == hosts[i].name && hosts'[i].via == hosts[i].via
    ensures NamesVia(hosts', v) == NamesVia(hosts, v)
  {
    if hosts != [] {
      NamesViaSame(hosts[..|hosts| - 1], hosts'[..|hosts| - 1], v);
    }
  }

  lemma QuietConns(w: World, e': Engine, e: Engine, addr: string)
    requires Quiet(w, e', e, addr) && NoLeaks(e)
    ensures NoLeaks(e')
  {
  }

  lemma QuietRegisters(p: Params, w: World, reg0: Reg, e': Engine, e: Engine, addr: string)
    requires Quiet(w, e', e, addr) && RegistersHosts(p, reg0, e)
    ensures RegistersHosts(p, reg0, e')
  {
    forall i | 0 <= i < |e.configs|
      ensures Describes(p, e.configs[i], e'.discovered[i])
    {
      assert Describes(p, e.configs[i], e.discovered[i]);
      assert Refreshed(e'.discovered[i], e.discovered[i], addr, w.connect(addr));
    }
  }

  // ---- Steps that admit a host ----

  lemma HostIsRegistered(p: Params, reg0: Reg, e: Engine, i: nat)
    requires RegistersHosts(p, reg0, e) && i < |e.discovered|
    ensures Find(e.reg, e.discovered[i].name) == Some(e.configs[i])
  {
    assert Describes(p, e.configs[i], e.discovered[i]);
    HopIsFound(reg0, e.configs, p.persist, i);
  }

  lemma AdmitsHosts(p: Params, w: World, reg0: Reg, e': Engine, e: Engine, via: Node, addr: string, host: Host,
      cfg: ServerConfig)
    requires Admits(p, w, e', e, via, addr, host, cfg) && RegistersHosts(p, reg0, e)
    requires Bounded(p, e) && DistinctHosts(e) && 0 <= via.depth < p.maxDepth
    ensures Bounded(p, e') && DistinctHosts(e')
  {
    forall i | 0 <= i < |e.discovered|
      ensures e.discovered[i].name != host.name
    {
      HostIsRegistered(p, reg0, e, i);
    }
  }

  lemma AdmitsDisjoint(p: Params, w: World, e': Engine, e: Engine, via: Node, addr: string, host: Host,
      cfg: ServerConfig)
    requires Admits(p, w, e', e, via, addr, host, cfg) && DisjointAddresses(e) && addr !in e.finished
    ensures DisjointAddresses(e')
  {
    var n := |e.discovered|;
    assert e'.discovered[n].addrs == [addr];
    forall i | 0 <= i < n
      ensures e'.discovered[i] == e.discovered[i]
      ensures addr !in e.discovered[i].addrs
    {
    }
  }

  lemma AdmitsCounts(p: Params, w: World, e': Engine, e: Engine, via: Node, addr: string, host: Host, cfg: ServerConfig)
    requires Admits(p, w, e', e, via, addr, host, cfg) && DialedOnce(e) && addr in e.dialed && addr !in e.finished
    ensures DialedOnce(e')
  {
  }

  lemma AdmitsGraph(p: Params, w: World, e': Engine, e: Engine, via: Node, addr: string, host: Host, cfg: ServerConfig)
    requires Admits(p, w, e', e, via, addr, host, cfg) && GraphListsHosts(e)
    ensures GraphListsHosts(e')
  {
    assert e'.discovered[..|e'.discovered| - 1] == e.discovered;
  }

  lemma AdmitsConns(p: Params, w: World, e': Engine, e: Engine, via: Node, addr: string, host: Host, cfg: ServerConfig)
    requires Admits(p, w, e', e, via, addr, host, cfg) && NoLeaks(e)
    ensures NoLeaks(e')
  {
  }

  lemma AdmitsRegisters(p: Params, w: World, reg0: Reg, e': Engine, e: Engine, via: Node, addr: string, host: Host,
      cfg: ServerConfig)
    requires Admits(p, w, e', e, via, addr, host, cfg) && RegistersHosts(p, reg0, e)
    ensures RegistersHosts(p, reg0, e')
  {
    AppendedFind(reg0, e.configs, p.persist, cfg.name);
    assert forall x :: x in e.configs ==> x.name != cfg.name;
    AppendedAdd(reg0, e.configs, cfg, p.persist, w.writeOk(addr));
    assert Describes(p, cfg, host);
  }

  /**
   * What a step that finds a host leaves behind: under the first free name, a config with the address dialed,
   * the user the connect went by, the shared key, the discoverer as jump host unless that is the local
   * machine, and a note with session and fingerprint; and the record and the item to expand that go with it.
   */
  lemma FoundIsRegistered(p: Params, w: World, e: Engine, via: Node, addr: string) returns (fp: string, k: nat)
    requires FinishDial(p, w, e, via, addr).found.Some?
    ensures w.connect(addr) == Presents(fp) && fp !in e.visitedFps
    ensures var (f, base) := (FinishDial(p, w, e, via, addr), p.prefix + "-" + FpShort(fp));
            var name := if k == 0 then base else base + "-" + Text.Numeral(k);
            && !Taken(e.reg, name) && (forall j :: 0 <= j < k ==> Taken(e.reg, Candidate(base, j)))
            && Find(f.engine.reg, name) == Some(ServerConfig(
                 name, addr, p.port, w.user(via, addr), Key, p.keyPath, None, None,
                 if via.isLocal then None else Some(via.name), Some(Tofu), None, [], None, None,
                 Some("disc-session=" + p.session + " " + "fp=" + fp)))
            && f.engine.discovered == e.discovered +
                 [Host(name, fp, [addr], via.name, via.depth + 1, p.keyPath.Some?)]
            && f.found == Some(Node(name, Some(fp), Some(Dialed(e.nextConn)), via.depth + 1, false))
  {
    fp := w.connect(addr).fingerprint;
    k := FreshIndex(e.reg, BaseName(p, fp), 0);
    var e2 := Connected(e, addr).(visitedFps := e.visitedFps + {fp});
    assert FinishDial(p, w, e, via, addr) == Admit(p, w, e2, via, addr, fp, Dialed(e.nextConn));
    AdmittedIsRegistered(p, w, e2, via, addr, fp, Dialed(e.nextConn));
  }

  lemma AdmittedIsRegistered(p: Params, w: World, e: Engine, via: Node, addr: string, fp: string, conn: Conn)
    requires Admit(p, w, e, via, addr, fp, conn).found.Some?
    ensures var (f, name) := (Admit(p, w, e, via, addr, fp, conn), FreshName(e.reg, p, fp));
            && Find(f.engine.reg, name) == Some(ServerConfig(
                 name, addr, p.port, w.user(via, addr), Key, p.keyPath, None, None,
                 if via.isLocal then None else Some(via.name), Some(Tofu), None, [], None, None,
                 Some("disc-session=" + p.session + " " + "fp=" + fp)))
            && f.engine.discovered == e.discovered +
                 [Host(name, fp, [addr], via.name, via.depth + 1, p.keyPath.Some?)]
            && f.found == Some(Node(name, Some(fp), Some(conn), via.depth + 1, false))
  {
    var name := FreshName(e.reg, p, fp);
    AddedFind(e.reg, HostConfig(p, name, fp, addr, via, w.user(via, addr)), p.persist, w.writeOk(addr), name);
  }

  // ---- All together ----

  lemma FinishExtends(p: Params, w: World, e: Engine, via: Node, addr: string)
    ensures Extends(FinishDial(p, w, e, via, addr).engine, e)
  {
    FinishShape(p, w, e, via, addr);
    var f := FinishDial(p, w, e, via, addr);
    if f.found.None? {
      QuietExtends(w, f.engine, e, addr);
    }
  }

  lemma FinishOriginates(p: Params, w: World, seeds: seq<Node>, e': Engine, e: Engine, via: Node, addr: string)
    requires Originates(seeds, e) && Known(seeds, e, via) && Extends(e', e)
    requires (Quiet(w, e', e, addr)) || (exists host, cfg :: Admits(p, w, e', e, via, addr, host, cfg))
    ensures Originates(seeds, e')
  {
    forall i | 0 <= i < |e'.discovered|
      ensures HasOrigin(seeds, e', i)
    {
      if i < |e.discovered| {
        OriginKept(seeds, e, e', i);
      } else {
        var host, cfg :| Admits(p, w, e', e, via, addr, host, cfg);
        assert FoundVia(e', i, via);
        KnownKept(seeds, e, e', via);
        if via !in seeds {
          var j :| 0 <= j < |e.discovered| && j < |e.openConns| && via == HostNode(e, j);
          assert HostNode(e', j) == via;
        }
      }
    }
  }

  /** The step after a connect keeps every invariant, whatever the connect gave. */
  lemma FinishIsSafe(p: Params, w: World, seeds: seq<Node>, reg0: Reg, e: Engine, via: Node, addr: string)
    requires Safe(p, seeds, reg0, e) && Finishing(p, seeds, e, via, addr)
    ensures Safe(p, seeds, reg0, FinishDial(p, w, e, via, addr).engine)
  {
    FinishShape(p, w, e, via, addr);
    FinishExtends(p, w, e, via, addr);
    var f := FinishDial(p, w, e, via, addr);
    var e' := f.engine;
    FinishOriginates(p, w, seeds, e', e, via, addr);
    if f.found.None? {
      QuietHosts(p, w, e', e, addr);
      QuietDisjoint(w, e', e, addr);
      QuietCounts(w, e', e, addr);
      QuietGraph(w, e', e, addr);
      QuietConns(w, e', e, addr);
      QuietRegisters(p, w, reg0, e', e, addr);
    } else {
      var host, cfg := e'.discovered[|e'.discovered| - 1], e'.configs[|e'.configs| - 1];
      AdmitsHosts(p, w, reg0, e', e, via, addr, host, cfg);
      AdmitsDisjoint(p, w, e', e, via, addr, host, cfg);
      AdmitsCounts(p, w, e', e, via, addr, host, cfg);
      AdmitsGraph(p, w, e', e, via, addr, host, cfg);
      AdmitsConns(p, w, e', e, via, addr, host, cfg);
      AdmitsRegisters(p, w, reg0, e', e, via, addr, host, cfg);
    }
  }
}
