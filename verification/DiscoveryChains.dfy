/** Jump chains of discovered hosts. */
module DiscoveryChains {
  import opened Wrappers
  import opened Dict
  import opened Registry
  import opened JumpGraph
  import JumpChain
  import Teardown
  import opened Discovery
  import opened DiscoverySafety

  /** Following jump_host from a host `k` times, short of its depth, leads to a discovered host `k` levels up. */
  lemma HostAncestor(p: Params, seeds: seq<Node>, reg0: Reg, e: Engine, i: nat, k: nat) returns (j: nat)
    requires Safe(p, seeds, reg0, e) && AllSeeds(seeds)
    requires i < |e.discovered| && k < e.discovered[i].depth
    ensures j < |e.discovered| && e.discovered[j].depth == e.discovered[i].depth - k
    ensures Walk(JumpsOf(e.reg), e.discovered[i].name, k) == Some(e.discovered[j].name)
  {
    forall x | 0 <= x < |e.discovered| && e.discovered[x].depth > 1
      ensures exists y :: JumpsUp(e.discovered, JumpsOf(e.reg), x, y)
    {
      var y := HostParent(p, seeds, reg0, e, x);
      assert JumpsUp(e.discovered, JumpsOf(e.reg), x, y);
    }
    j := Ancestor(e.discovered, JumpsOf(e.reg), i, k);
  }

  /** Host `x` jumps to host `y`, one level up. */
  ghost predicate JumpsUp(hosts: seq<Host>, g: Jumps, x: int, y: int) {
    && 0 <= x < |hosts| && 0 <= y < |hosts|
    && hosts[y].depth == hosts[x].depth - 1 && Next(g, hosts[x].name) == Some(hosts[y].name)
  }

  lemma {:induction false} Ancestor(hosts: seq<Host>, g: Jumps, i: nat, k: nat) returns (j: nat)
    requires forall x :: 0 <= x < |hosts| && hosts[x].depth > 1 ==> exists y :: JumpsUp(hosts, g, x, y)
    requires i < |hosts| && k < hosts[i].depth
    ensures j < |hosts| && hosts[j].depth == hosts[i].depth - k && Walk(g, hosts[i].name, k) == Some(hosts[j].name)
  {
    j := i;
    if k > 0 {
      var x := Ancestor(hosts, g, i, k - 1);
      j :| JumpsUp(hosts, g, x, j);
      WalkOneMore(g, hosts[i].name, k - 1, hosts[x].name);
    }
  }

  /** A host below the first level jumps to the host it was found via, one level up. */
  lemma HostParent(p: Params, seeds: seq<Node>, reg0: Reg, e: Engine, x: nat) returns (j: nat)
    requires Safe(p, seeds, reg0, e) && AllSeeds(seeds)
    requires x < |e.discovered| && e.discovered[x].depth > 1
    ensures j < |e.discovered| && e.discovered[j].depth == e.discovered[x].depth - 1
    ensures Next(JumpsOf(e.reg), e.discovered[x].name) == Some(e.discovered[j].name)
  {
    HostNext(p, reg0, e, x);
    assert HasOrigin(seeds, e, x);
    j :| 0 <= j < x && FoundVia(e, x, HostNode(e, j));
  }

  lemma HostNext(p: Params, reg0: Reg, e: Engine, i: nat)
    requires RegistersHosts(p, reg0, e) && i < |e.discovered|
    ensures e.discovered[i].name in JumpsOf(e.reg)
    ensures Next(JumpsOf(e.reg), e.discovered[i].name) == e.configs[i].jumpHost
  {
    HostIsRegistered(p, reg0, e, i);
    JumpsOfNext(e.reg, e.discovered[i].name);
  }

  /**
   * After exactly its depth many steps the chain of a host is at a seed, or done when the seed was the
   * local machine.
   */
  lemma HostRoot(p: Params, seeds: seq<Node>, reg0: Reg, e: Engine, i: nat) returns (s: Node)
    requires Safe(p, seeds, reg0, e) && AllSeeds(seeds) && i < |e.discovered|
    ensures s in seeds
    ensures e.discovered[i].depth > 0
    ensures Walk(JumpsOf(e.reg), e.discovered[i].name, e.discovered[i].depth)
      == (if s.isLocal then None else Some(s.name))
    ensures Rooted(seeds, reg0) && !s.isLocal ==> Taken(e.reg, s.name) && Find(e.reg, s.name) == Find(reg0, s.name)
  {
    var k := DepthAboveZero(p, e, i);
    var x := HostAncestor(p, seeds, reg0, e, i, k);
    HostNext(p, reg0, e, x);
    s := SeedOfFirstLevel(p, seeds, e, x);
    WalkOneMore(JumpsOf(e.reg), e.discovered[i].name, k, e.discovered[x].name);
    if Rooted(seeds, reg0) && !s.isLocal {
      SeedStaysRegistered(p, seeds, reg0, e, s);
    }
  }

  lemma SeedStaysRegistered(p: Params, seeds: seq<Node>, reg0: Reg, e: Engine, s: Node)
    requires RegistersHosts(p, reg0, e) && Rooted(seeds, reg0) && s in seeds && !s.isLocal
    ensures Taken(e.reg, s.name) && Find(e.reg, s.name) == Find(reg0, s.name)
  {
    JumpsOfNext(reg0, s.name);
    JumpChain.AppendedFind(reg0, e.configs, p.persist, s.name);
  }

  lemma DepthAboveZero(p: Params, e: Engine, i: nat) returns (k: nat)
    requires Bounded(p, e) && i < |e.discovered|
    ensures e.discovered[i].depth == k + 1
  {
    k := e.discovered[i].depth - 1;
  }

  lemma SeedOfFirstLevel(p: Params, seeds: seq<Node>, e: Engine, x: nat) returns (s: Node)
    requires Bounded(p, e) && Originates(seeds, e) && x < |e.discovered| && e.discovered[x].depth == 1
    ensures s in seeds && FoundVia(e, x, s)
  {
    assert HasOrigin(seeds, e, x);
    s :| s in seeds && FoundVia(e, x, s);
  }

  /** The registry's jump graph is acyclic and closed, and the seeds are registered. */
  ghost predicate Rooted(seeds: seq<Node>, reg: Reg) {
    && Closed(JumpsOf(reg)) && Acyclic(JumpsOf(reg))
    && forall s :: s in seeds && !s.isLocal ==> s.name in JumpsOf(reg)
  }

  lemma AddedJumps(reg: Reg, cfg: ServerConfig, persist: bool, writeOk: bool)
    requires Added(reg, cfg, persist, writeOk).error.None?
    ensures cfg.name !in JumpsOf(reg)
    ensures JumpsOf(Added(reg, cfg, persist, writeOk).reg) == JumpsOf(reg)[cfg.name := cfg.jumpHost]
  {
    var after := Added(reg, cfg, persist, writeOk).reg;
    JumpsOfNext(reg, cfg.name);
    forall n
      ensures n in JumpsOf(after) <==> n in JumpsOf(reg) || n == cfg.name
      ensures n in JumpsOf(after) ==> JumpsOf(after)[n] == JumpsOf(reg)[cfg.name := cfg.jumpHost][n]
    {
      AddedFind(reg, cfg, persist, writeOk, n);
      JumpsOfNext(reg, n);
      JumpsOfNext(after, n);
    }
  }

  /** A new server that goes direct or jumps to a registered one leaves the registry closed and acyclic. */
  lemma GrownStaysRooted(seeds: seq<Node>, reg: Reg, cfg: ServerConfig, persist: bool, writeOk: bool)
    requires Rooted(seeds, reg) && Added(reg, cfg, persist, writeOk).error.None?
    requires cfg.jumpHost.Some? ==> cfg.jumpHost.value in JumpsOf(reg)
    ensures Rooted(seeds, Added(reg, cfg, persist, writeOk).reg)
  {
    AddedJumps(reg, cfg, persist, writeOk);
    FreshServerKeepsAcyclic(JumpsOf(reg), cfg.name, cfg.jumpHost);
  }

  /** A discoverer is the local machine or registered. */
  lemma ViaIsRegistered(p: Params, seeds: seq<Node>, reg0: Reg, e: Engine, via: Node, addr: string)
    requires RegistersHosts(p, reg0, e) && Finishing(p, seeds, e, via, addr) && Rooted(seeds, e.reg)
    ensures via.isLocal || via.name in JumpsOf(e.reg)
  {
    if via !in seeds {
      var j :| 0 <= j < |e.discovered| && j < |e.openConns| && via == HostNode(e, j);
      HostNext(p, reg0, e, j);
    }
  }

  /**
   * Discovery keeps a closed registry closed and acyclic: a new host jumps to a registered discoverer or
   * goes direct.
   */
  lemma FinishKeepsRooted(p: Params, w: World, seeds: seq<Node>, reg0: Reg, e: Engine, via: Node, addr: string)
    requires Safe(p, seeds, reg0, e) && Finishing(p, seeds, e, via, addr) && Rooted(seeds, e.reg)
    ensures Rooted(seeds, FinishDial(p, w, e, via, addr).engine.reg)
  {
    FinishShape(p, w, e, via, addr);
    var f := FinishDial(p, w, e, via, addr);
    if f.found.Some? {
      var host, cfg := f.engine.discovered[|f.engine.discovered| - 1], f.engine.configs[|f.engine.configs| - 1];
      assert Admits(p, w, f.engine, e, via, addr, host, cfg);
      ViaIsRegistered(p, seeds, reg0, e, via, addr);
      GrownStaysRooted(seeds, e.reg, cfg, p.persist, w.writeOk(addr));
    }
  }

  // ---- Tearing a session down ----

  /**
   * A discovery run then teardown_discovery. With successful writes the registry from before the
   * run comes back, order included, exactly when no registered name's note carried the session's tag.
   */
  lemma DiscoveryTeardownRestoresIff(p: Params, seeds: seq<Node>, reg0: Reg, e: Engine)
    requires Safe(p, seeds, reg0, e)
    ensures var targets := Teardown.Targets(Listed(e.reg), Teardown.SessionMatch(p.session));
            Teardown.Tear(e.reg, targets, Teardown.WRITES_SUCCEED, |targets|).reg == reg0
            <==> forall t :: t in Teardown.Targets(Listed(reg0), Teardown.SessionMatch(p.session)) ==> !Taken(reg0, t)
  {
    forall cfg | cfg in e.configs
      ensures Teardown.SessionMatch(p.session)(cfg)
    {
      var i :| 0 <= i < |e.configs| && e.configs[i] == cfg;
      assert Describes(p, cfg, e.discovered[i]);
      var tag := Teardown.SESSION_TAG + p.session;
      assert cfg.note.value == tag + (" " + Teardown.FP_TAG + e.discovered[i].fingerprint);
      assert tag <= cfg.note.value;
    }
    Teardown.TeardownRestoresIff(reg0, e.configs, p.persist, Teardown.SessionMatch(p.session));
  }

  /** A server lost that way: tearing session `1` down takes a host of session `12` along. */
  lemma LongerSessionIsLost(p: Params, seeds: seq<Node>, cfg: ServerConfig)
    requires p.session == "1" && cfg.name == "disc-x" && cfg.note == Some("disc-session=12 fp=x")
    ensures var reg0 := Reg([], [Item("disc-x", cfg)]);
            && Safe(p, seeds, reg0, Start(reg0))
            && var targets := Teardown.Targets(Listed(reg0), Teardown.SessionMatch(p.session));
               Teardown.Tear(reg0, targets, Teardown.WRITES_SUCCEED, |targets|).reg != reg0
  {
    var reg0 := Reg([], [Item("disc-x", cfg)]);
    StartIsSafe(p, seeds, reg0);
    DiscoveryTeardownRestoresIff(p, seeds, reg0, Start(reg0));
    assert Teardown.SESSION_TAG + p.session <= cfg.note.value;
    assert Listed(reg0)[0] == cfg;
    Teardown.TargetsMember(Listed(reg0), Teardown.SessionMatch(p.session), "disc-x");
    assert reg0.ephemeral[0].key == "disc-x";
  }

  // ---- Closing connections ----

  /** After the closing sweep every connection the engine opened has been closed exactly once, and no seed's has. */
  lemma SweepClosesEachOnce(p: Params, seeds: seq<Node>, reg0: Reg, e: Engine)
    requires Safe(p, seeds, reg0, e)
    ensures forall n: nat :: multiset(e.closed + e.openConns)[Dialed(n)] == if n < e.nextConn then 1 else 0
    ensures forall c :: c in e.closed + e.openConns ==> c.Dialed?
  {
    assert multiset(e.closed + e.openConns) == multiset(e.closed) + multiset(e.openConns);
  }

  /** The counters of the result are ordered, and the last of them is the number of addresses visited. */
  lemma CountersAreOrdered(p: Params, seeds: seq<Node>, reg0: Reg, e: Engine)
    requires Safe(p, seeds, reg0, e)
    ensures e.stats.connectsOk <= e.stats.probes <= e.stats.candidates == |e.visitedIps|
  {
    var dialed := set a | a in e.dialed;
    NoRepeatsCount(e.dialed);
    SubsetCount(e.finished, dialed);
    SubsetCount(dialed, e.visitedIps);
  }

  lemma {:induction false} NoRepeatsCount<T>(s: seq<T>)
    requires NoRepeats(s)
    ensures |set x | x in s| == |s|
  {
    if s != [] {
      var front, last := s[..|s| - 1], s[|s| - 1];
      NoRepeatsCount(front);
      assert s == front + [last];
      assert (set x | x in s) == (set x | x in front) + {last};
    }
  }

  lemma SubsetCount<T>(a: set<T>, b: set<T>)
    requires a <= b
    ensures |a| <= |b|
  {
    assert b == a + (b - a);
  }
}
