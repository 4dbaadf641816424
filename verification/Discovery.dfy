/**
 * The discovery engine as a step system (mcp_ssh/discovery.py). The state holds what the engine
 * keeps in its fields, the registry it writes to, and a history of dials and closes. One step
 * is one stretch of code between two awaits.
 */
module Discovery {
  import opened Wrappers
  import opened Registry
  import JumpChain
  import Teardown
  import Text

  /** A connection is owned by the pool (seeds) or opened by the engine, which numbers its own. */
  datatype Conn = PoolConn(name: string) | Dialed(id: nat)

  /** A frontier item; `box` is the fingerprint of its machine, None for the local one. */
  datatype Node = Node(name: string, box: Option<string>, conn: Option<Conn>, depth: int, isLocal: bool)

  datatype Host = Host(name: string, fingerprint: string, addrs: seq<string>, via: string, depth: int,
      poolReachable: bool)

  /** What connecting to an address gives: nothing, a connection without a host key, or a box. */
  datatype Outcome = Unreachable | Keyless | Presents(fingerprint: string)

  datatype Stats = Stats(candidates: int, probes: int, connectsOk: int)

  /** The engine's settings; `keyPath` is None in harvest mode or without a single shared key. */
  datatype Params = Params(session: string, maxDepth: int, maxNodes: int, concurrency: int, port: int,
    prefix: string, persist: bool, keyPath: Option<string>)

  /**
   * The network, the disk and the clock. An address is dialed at most once in a run, so `connect`
   * and `writeOk` may depend on the address alone without losing any behaviour; `expired(t)` says
   * whether the deadline has passed when the engine looks at the clock for the `t`-th time.
   */
  datatype World = World(connect: string -> Outcome, user: (Node, string) -> string, writeOk: string -> bool,
      expired: nat -> bool)

  datatype Engine = Engine(
    reg: Reg,
    visitedIps: set<string>,
    visitedFps: set<string>,
    discovered: seq<Host>,
    graph: map<string, seq<string>>,
    openConns: seq<Conn>,
    truncated: bool,
    stats: Stats,
    // History: connections opened so far, closes in order, addresses dialed in order and answered,
    // the configs registered, looks at the clock, and whether anything was dropped by other than depth.
    nextConn: nat,
    closed: seq<Conn>,
    dialed: seq<string>,
    finished: set<string>,
    configs: seq<ServerConfig>,
    looks: nat,
    dropped: bool)

  // ---- Names of discovered hosts ----

  function AfterColon(s: string): string {
    var i := JumpChain.FirstIndex(s, ':');
    if i < |s| then s[i + 1..] else s
  }

  /** Letters and digits only, in lower case. */
  function Slug(s: string): string {
    if s == [] then []
    else
      var c := s[0];
      var rest := Slug(s[1..]);
      if 'A' <= c <= 'Z' then [(c as int + 32) as char] + rest
      else if 'a' <= c <= 'z' || Text.IsDigit(c) then [c] + rest
      else rest
  }

  /** _fp_short. */
  function FpShort(fp: string): string {
    var slug := Slug(AfterColon(fp));
    if slug == [] then "unknown" else if |slug| > 8 then slug[..8] else slug
  }

  /** A letter or digit in lower case, which stands for itself in a slug. */
  predicate SlugChar(c: char) {
    'a' <= c <= 'z' || '0' <= c <= '9'
  }

  lemma {:induction false} SlugConcat(s: string, t: string)
    ensures Slug(s + t) == Slug(s) + Slug(t)
  {
    if s == [] {
      assert s + t == t;
    } else {
      SlugConcat(s[1..], t);
      assert (s + t)[1..] == s[1..] + t;
    }
  }

  /** Lower-case letters and digits stay, capitals count as lower case, and every other character drops out. */
  lemma {:induction false} SlugMeaning(front: string, c: char, back: string)
    ensures (forall i :: 0 <= i < |front| ==> SlugChar(front[i])) ==> Slug(front) == front
    ensures 'A' <= c <= 'Z' ==> Slug(front + [c] + back) == Slug(front + [(c as int + 32) as char] + back)
    ensures !('A' <= c <= 'Z') && !SlugChar(c) ==> Slug(front + [c] + back) == Slug(front + back)
  {
    SlugConcat(front + [c], back);
    SlugConcat(front, [c]);
    SlugConcat(front, back);
    if 'A' <= c <= 'Z' {
      var low := (c as int + 32) as char;
      SlugConcat(front + [low], back);
      SlugConcat(front, [low]);
    }
    if front != [] {
      SlugMeaning(front[1..], c, back);
    }
  }

  /** A name is made from the first eight slug characters after the first colon. */
  lemma FpShortKeeps(kind: string, front: string, rest: string)
    requires ':' !in kind && |front| == 8 && forall i :: 0 <= i < 8 ==> SlugChar(front[i])
    ensures FpShort(kind + ":" + front + rest) == front
  {
    var fp := kind + ":" + front + rest;
    assert fp[|kind|] == ':' && forall j :: 0 <= j < |kind| ==> fp[j] == kind[j];
    assert JumpChain.FirstIndex(fp, ':') == |kind|;
    assert fp[|kind| + 1..] == front + rest;
    SlugConcat(front, rest);
    SlugMeaning(front, 'a', rest);
  }

  /** The `k`-th name tried for a host. */
  function Candidate(base: string, k: nat): string {
    if k == 0 then base else base + "-" + Text.Numeral(k)
  }

  lemma CandidateInjective(base: string, i: nat, j: nat)
    requires i < j
    ensures Candidate(base, i) != Candidate(base, j)
  {
    var y := Candidate(base, j);
    assert y[|base| + 1..] == Text.Numeral(j);
    if i > 0 {
      var x := Candidate(base, i);
      assert x[|base| + 1..] == Text.Numeral(i);
      if x == y {
        Text.NumeralInjective(i, j);
      }
    }
  }

  function Tried(base: string, k: nat): set<string> {
    set j | 0 <= j < k :: Candidate(base, j)
  }

  /** Trying a taken name leaves fewer taken names untried: the pigeonhole behind the suffix loop. */
  lemma TriedGrows(reg: Reg, base: string, k: nat)
    requires Taken(reg, Candidate(base, k))
    ensures |Names(reg) - Tried(base, k + 1)| < |Names(reg) - Tried(base, k)|
  {
    var n := Candidate(base, k);
    NamesAreTaken(reg, n);
    forall j | 0 <= j < k
      ensures Candidate(base, j) != n
    {
      CandidateInjective(base, j, k);
    }
    assert Tried(base, k + 1) == Tried(base, k) + {n};
    assert Names(reg) - Tried(base, k) == (Names(reg) - Tried(base, k + 1)) + {n};
  }

  /** The first free suffix from `k` on. */
  function FreshIndex(reg: Reg, base: string, k: nat): (r: nat)
    ensures r >= k && !Taken(reg, Candidate(base, r))
    ensures forall j :: k <= j < r ==> Taken(reg, Candidate(base, j))
    decreases |Names(reg) - Tried(base, k)|
  {
    if Taken(reg, Candidate(base, k)) then TriedGrows(reg, base, k); FreshIndex(reg, base, k + 1) else k
  }

  function BaseName(p: Params, fp: string): string {
    p.prefix + "-" + FpShort(fp)
  }

  function FreshName(reg: Reg, p: Params, fp: string): (name: string)
    ensures !Taken(reg, name)
  {
    Candidate(BaseName(p, fp), FreshIndex(reg, BaseName(p, fp), 0))
  }

  // ---- The steps ----

  function Note(p: Params, fp: string): string {
    Teardown.SESSION_TAG + p.session + " " + Teardown.FP_TAG + fp
  }

  function HostConfig(p: Params, name: string, fp: string, addr: string, via: Node, user: string): ServerConfig {
    ServerConfig(name, addr, p.port, user, Key, p.keyPath, None, None,
      if via.isLocal then None else Some(via.name), Some(Tofu), None, [], None, None, Some(Note(p, fp)))
  }

  /** The synchronous reservation of a fresh candidate. */
  function Reserve(e: Engine, addr: string): Engine {
    e.(visitedIps := e.visitedIps + {addr}, stats := e.stats.(candidates := e.stats.candidates + 1))
  }

  /** Something is given up because the deadline passed or the node bound is met. */
  function GiveUp(e: Engine): Engine {
    e.(truncated := true, dropped := true)
  }

  /** One look at the clock. */
  function Look(e: Engine): Engine {
    e.(looks := e.looks + 1)
  }

  /** A task goes on to its connect. */
  function StartDial(e: Engine, addr: string): Engine {
    e.(stats := e.stats.(probes := e.stats.probes + 1), dialed := e.dialed + [addr])
  }

  /** _record_addr: the address goes to the first host of the box, unless it is there already. */
  function RecordAddr(hosts: seq<Host>, fp: string, addr: string): seq<Host> {
    if hosts == [] then []
    else if hosts[0].fingerprint == fp && addr !in hosts[0].addrs then
      [hosts[0].(addrs := hosts[0].addrs + [addr])] + hosts[1..]
    else [hosts[0]] + RecordAddr(hosts[1..], fp, addr)
  }

  datatype Finish = Finish(engine: Engine, found: Option<Node>)

  /** The connect returned a connection: it is counted, whatever becomes of it. */
  function Connected(e: Engine, addr: string): Engine {
    e.(stats := e.stats.(connectsOk := e.stats.connectsOk + 1), nextConn := e.nextConn + 1,
        finished := e.finished + {addr})
  }

  function CloseConn(e: Engine, conn: Conn): Engine {
    e.(closed := e.closed + [conn])
  }

  function AppendTo(graph: map<string, seq<string>>, via: string, name: string): map<string, seq<string>> {
    graph[via := (if via in graph then graph[via] else []) + [name]]
  }

  /** A registered host enters the lists and the graph, and its connection is kept. */
  function Recorded(e: Engine, cfg: ServerConfig, host: Host, conn: Conn): Engine {
    e.(configs := e.configs + [cfg],
       discovered := e.discovered + [host],
       openConns := e.openConns + [conn],
       graph := AppendTo(e.graph, host.via, host.name))
  }

  /** The box is new and there is room: register it, or lose it when registration fails. */
  function Admit(p: Params, w: World, e: Engine, via: Node, addr: string, fp: string, conn: Conn): Finish {
    var name := FreshName(e.reg, p, fp);
    var cfg := HostConfig(p, name, fp, addr, via, w.user(via, addr));
    var effect := Added(e.reg, cfg, p.persist, w.writeOk(addr));
    if effect.error.Some? then Finish(CloseConn(e, conn).(dropped := true), None)
    else
      Finish(
        Recorded(e.(reg := effect.reg), cfg, Host(name, fp, [addr], via.name, via.depth + 1, p.keyPath.Some?), conn),
        Some(Node(name, Some(fp), Some(conn), via.depth + 1, false)))
  }

  /** A connection that shows its box: an extra address of a known one, or a new one if there is room. */
  function MeetBox(p: Params, w: World, e: Engine, via: Node, addr: string, fp: string, conn: Conn): Finish {
    if fp in e.visitedFps then Finish(CloseConn(e.(discovered := RecordAddr(e.discovered, fp, addr)), conn), None)
    else
      var seen := e.(visitedFps := e.visitedFps + {fp});
      if |seen.discovered| >= p.maxNodes then Finish(CloseConn(GiveUp(seen), conn), None)
      else Admit(p, w, seen, via, addr, fp, conn)
  }

  /** Everything a task does after its connect returns: one atomic step. */
  function FinishDial(p: Params, w: World, e: Engine, via: Node, addr: string): Finish {
    match w.connect(addr)
    case Unreachable => Finish(e.(finished := e.finished + {addr}), None)
    case Keyless => Finish(CloseConn(Connected(e, addr), Dialed(e.nextConn)), None)
    case Presents(fp) => MeetBox(p, w, Connected(e, addr), via, addr, fp, Dialed(e.nextConn))
  }
}
