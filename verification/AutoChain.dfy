/** Jump chains found over the cached matrix (mcp_ssh/tools/registry_tools.py, _setup_jump_auto). */
module AutoChain {
  import opened Wrappers
  import opened Dict
  import opened Registry
  import opened JumpGraph
  import opened Topology
  import opened PathFinding
  import opened JumpChain
  import opened Teardown
  import opened Pool
  import Text

  type Matrix = seq<TopologyEdge>

  datatype AutoError =
    | TargetNotFound
    | NoTopology
    | StaleTopology
    | NoPath
    | BuildFailed(error: BuildError)
    | VerifyFailed(cause: PoolError)

  function PrintPath(path: seq<Hop>): (chain: seq<string>)
    ensures |chain| == |path| && forall i :: 0 <= i < |path| ==> chain[i] == PrintHop(path[i])
  {
    seq(|path|, i requires 0 <= i < |path| => PrintHop(path[i]))
  }

  /** `path` is spelled by a walk of least cost to `target`. */
  ghost predicate ShortestPath(matrix: Matrix, target: string, path: seq<Hop>) {
    exists w :: Cheapest(UsableLinks(matrix), w, target) && Spell(w) == path
  }

  ghost predicate Unreachable(matrix: Matrix, target: string) {
    forall w :: IsWalk(UsableLinks(matrix), w) ==> End(w) != target
  }

  /** What one request fixes: names, mode, note, and which writes of the config file succeed. */
  datatype Request = Request(alias: string, target: string, persist: bool, note: Option<string>,
    addOk: nat -> bool, undoOk: nat -> bool, tearOk: nat -> bool)

  /**
   * What the request meets: the cached matrix, the one a forced rescan put in its place, whether the
   * cached one is older than the caller accepts, and the network.
   */
  datatype Situation = Situation(cached: Option<Matrix>, rescan: Option<Matrix>, stale: bool, net: Network)

  /** The registry and the pool. */
  datatype Ground = Ground(reg: Reg, pool: Pool)

  ghost predicate BuiltPath(q: Request, reg: Reg, after: Reg, r: Result<seq<ServerConfig>, BuildError>,
      path: seq<Hop>) {
    Built(reg, after, r, q.alias, PrintPath(path), q.persist, q.note, q.addOk, q.undoOk)
  }

  /** teardown_jump on `before` leaves `after`. */
  ghost predicate TornDown(q: Request, before: Reg, after: Reg) {
    var targets := Targets(Listed(before), JumpMatch(q.alias));
    after == Tear(before, targets, q.tearOk, |targets|).reg
  }

  /** Asking the pool for the alias over registry `reg` turns `pool0` into what `a` holds, with the answer `a` gives. */
  ghost predicate Verifies(q: Request, at: Situation, reg: Reg, pool0: Pool, path: seq<Hop>, a: Answer) {
    && Walk(Descent(JumpsOf(reg), at.net, pool0), q.alias, |path| + 1) == None
    && Get(JumpsOf(reg), at.net, pool0, q.alias, |path| + 1) == a
  }

  /** The chain of `path` was built, and the pool answered for its alias with `conn`. */
  ghost predicate Succeeds(q: Request, at: Situation, before: Ground, after: Ground, hops: seq<ServerConfig>,
      path: seq<Hop>, conn: Conn) {
    && BuiltPath(q, before.reg, after.reg, Ok(hops), path)
    && Verifies(q, at, after.reg, before.pool, path, Answer(after.pool, Ok(conn)))
  }

  /** The chain of `path` was built as `mid`, the pool failed for its alias, and it was torn down. */
  ghost predicate FailsToVerify(q: Request, at: Situation, before: Ground, mid: Reg, after: Ground, cause: PoolError,
      path: seq<Hop>, hops: seq<ServerConfig>) {
    && BuiltPath(q, before.reg, mid, Ok(hops), path)
    && Verifies(q, at, mid, before.pool, path, Answer(after.pool, Err(cause)))
    && TornDown(q, mid, after.reg)
  }

  /** The request gets as far as the search, which runs over `matrix`: the rescan's, else the cached one if fresh. */
  ghost predicate Searches(q: Request, at: Situation, before: Ground, matrix: Matrix) {
    && Taken(before.reg, q.target)
    && (at.rescan == Some(matrix) || (at.rescan.None? && at.cached == Some(matrix) && !at.stale))
  }

  /** What an answer past the search over `matrix` says. */
  ghost predicate AnsweredOver(matrix: Matrix, q: Request, at: Situation, before: Ground, after: Ground,
      r: Result<seq<ServerConfig>, AutoError>) {
    match r
    case Err(NoPath) => Unreachable(matrix, q.target) && after == before
    case Err(BuildFailed(e)) =>
      && after.pool == before.pool
      && exists path :: ShortestPath(matrix, q.target, path) && BuiltPath(q, before.reg, after.reg, Err(e), path)
    case Err(VerifyFailed(cause)) =>
      exists path, hops, mid ::
        ShortestPath(matrix, q.target, path) && FailsToVerify(q, at, before, mid, after, cause, path, hops)
    case Ok(hops) =>
      exists path, conn :: ShortestPath(matrix, q.target, path) && Succeeds(q, at, before, after, hops, path, conn)
    case Err(_) => false
  }

  /** What each answer says about the inputs and about what became of the registry and the pool. */
  ghost predicate Answered(q: Request, at: Situation, before: Ground, after: Ground,
      r: Result<seq<ServerConfig>, AutoError>) {
    if !Taken(before.reg, q.target) then r == Err(TargetNotFound) && after == before
    else
      match at.rescan
      case Some(matrix) => AnsweredOver(matrix, q, at, before, after, r)
      case None =>
        match at.cached
        case None => r == Err(NoTopology) && after == before
        case Some(matrix) =>
          if at.stale then r == Err(StaleTopology) && after == before
          else AnsweredOver(matrix, q, at, before, after, r)
  }

  /** _setup_jump_auto. The alias is verified by asking the pool for it, and torn down if that fails. */
  method SetupJumpAuto(q: Request, at: Situation, registry: Registry, pool: ConnectionPool)
      returns (r: Result<seq<ServerConfig>, AutoError>)
    requires pool.lookup == registry
    modifies registry, pool
    ensures Answered(q, at, Ground(old(registry.State()), old(pool.State())), Ground(registry.State(), pool.State()), r)
  {
    var known := registry.Get(q.target);
    if known.Err? {
      return Err(TargetNotFound);
    }
    var matrix := if at.rescan.Some? then at.rescan else at.cached;
    if matrix.None? {
      return Err(NoTopology);
    }
    if at.rescan.None? && at.stale {
      return Err(StaleTopology);
    }
    var found := FindPath(matrix.value, q.target);
    if found.None? {
      return Err(NoPath);
    }
    r := BuildAndVerify(q, at, matrix.value, registry, pool, found.value);
  }

  /** The part of _setup_jump_auto after the search. */
  method BuildAndVerify(q: Request, at: Situation, ghost matrix: Matrix, registry: Registry, pool: ConnectionPool,
      path: seq<Hop>) returns (r: Result<seq<ServerConfig>, AutoError>)
    requires pool.lookup == registry
    requires ShortestPath(matrix, q.target, path)
    modifies registry, pool
    ensures r.Ok? || r.error.BuildFailed? || r.error.VerifyFailed?
    ensures AnsweredOver(matrix, q, at, Ground(old(registry.State()), old(pool.State())),
              Ground(registry.State(), pool.State()), r)
  {
    ghost var before := Ground(registry.State(), pool.State());
    var built := BuildChain(registry, q.alias, PrintPath(path), q.persist, q.note, q.addOk, q.undoOk);
    ghost var mid := registry.State();
    assert BuiltPath(q, before.reg, mid, built, path);
    if built.Err? {
      return Err(BuildFailed(built.error));
    }
    AliasDescentEnds(q, before.reg, mid, built.value, path, at.net, before.pool);
    var verified := pool.GetVia(q.alias, at.net, |path| + 1);
    assert Verifies(q, at, mid, before.pool, path, Answer(pool.State(), verified));
    if verified.Err? {
      var removed := TeardownJump(registry, q.alias, q.tearOk);
      assert FailsToVerify(q, at, before, mid, Ground(registry.State(), pool.State()), verified.error, path,
          built.value);
      return Err(VerifyFailed(verified.error));
    }
    assert Succeeds(q, at, before, Ground(registry.State(), pool.State()), built.value, path, verified.value);
    return Ok(built.value);
  }

  /** What a successful build over a path says about its hops. */
  lemma BuiltHops(q: Request, reg: Reg, after: Reg, hops: seq<ServerConfig>, path: seq<Hop>)
    requires BuiltPath(q, reg, after, Ok(hops), path)
    ensures DistinctNames(hops) && Linked(hops) && Free(reg, hops)
    ensures |hops| == |path| && (hops != [] ==> hops[|hops| - 1].name == q.alias)
    ensures after == Appended(reg, hops, q.persist) && !Taken(reg, q.alias)
  {
    HopConfigsLinked(reg, q.alias, PrintPath(path), q.note);
  }

  /** The chain of a fresh alias has one hop per path node, so the verifying call terminates. */
  lemma AliasChainEnds(q: Request, reg: Reg, after: Reg, hops: seq<ServerConfig>, path: seq<Hop>)
    requires BuiltPath(q, reg, after, Ok(hops), path)
    ensures Walk(JumpsOf(after), q.alias, |path| + 1) == None
  {
    BuiltHops(q, reg, after, hops, path);
    if path == [] {
      AppendedFind(reg, [], q.persist, q.alias);
      JumpsOfNext(after, q.alias);
      assert hops == [];
      assert Walk(JumpsOf(after), q.alias, 0) == Some(q.alias);
    } else {
      HopsWalk(reg, hops, q.persist, |hops|);
      WalkSplit(JumpsOf(after), q.alias, |hops|, 1);
    }
  }

  lemma AliasDescentEnds(q: Request, reg: Reg, after: Reg, hops: seq<ServerConfig>, path: seq<Hop>, net: Network,
      p: Pool)
    requires BuiltPath(q, reg, after, Ok(hops), path)
    ensures Walk(Descent(JumpsOf(after), net, p), q.alias, |path| + 1) == None
  {
    AliasChainEnds(q, reg, after, hops, path);
    DescentEnds(JumpsOf(after), net, p, q.alias, |path| + 1);
  }

  /** Hop `i` of the chain is hop `i` of the path. */
  lemma HopIsSpelled(q: Request, reg: Reg, after: Reg, hops: seq<ServerConfig>, path: seq<Hop>, i: nat)
    requires BuiltPath(q, reg, after, Ok(hops), path)
    requires i < |path| && Printable(path[i])
    ensures |hops| == |path| && SpellsHop(reg, after, hops[i], path[i])
  {
    BuiltHops(q, reg, after, hops, path);
    HopRoundTrip(path[i]);
    HopIsFound(reg, hops, q.persist, i);
    assert Known(reg, PrintPath(path)[i]);
  }

  /** Following jump_host from the last hop passes the hops backwards and ends. */
  lemma ChainWalk(reg: Reg, hops: seq<ServerConfig>, persist: bool, alias: string)
    requires DistinctNames(hops) && Linked(hops) && Free(reg, hops)
    requires hops != [] && hops[|hops| - 1].name == alias
    ensures forall k :: 0 <= k <= |hops| ==>
      Walk(JumpsOf(Appended(reg, hops, persist)), alias, k)
        == (if k == |hops| then None else Some(hops[|hops| - 1 - k].name))
  {
    forall k | 0 <= k <= |hops|
      ensures Walk(JumpsOf(Appended(reg, hops, persist)), alias, k)
           == (if k == |hops| then None else Some(hops[|hops| - 1 - k].name))
    {
      HopsWalk(reg, hops, persist, k);
    }
  }

  /**
   * The chain refines the path. When its hops are printable, each registered hop carries that hop's
   * address and the port and credentials of that hop's node, and jump_host leads from the
   * alias back along the path to a direct first hop.
   */
  lemma ChainSpellsPath(q: Request, reg: Reg, after: Reg, hops: seq<ServerConfig>, path: seq<Hop>)
    requires BuiltPath(q, reg, after, Ok(hops), path)
    requires path != [] && forall i :: 0 <= i < |path| ==> Printable(path[i])
    ensures Spelled(q, reg, after, hops, path)
  {
    BuiltHops(q, reg, after, hops, path);
    ChainWalk(reg, hops, q.persist, q.alias);
    forall i | 0 <= i < |path|
      ensures SpellsHop(reg, after, hops[i], path[i])
    {
      HopIsSpelled(q, reg, after, hops, path, i);
    }
  }

  /** `hop` is registered, dials the path's address, and is otherwise the node's own server. */
  ghost predicate SpellsHop(reg: Reg, after: Reg, hop: ServerConfig, h: Hop) {
    && Find(after, hop.name) == Some(hop)
    && Taken(reg, h.node)
    && hop == Find(reg, h.node).value.(name := hop.name, host := h.via, jumpHost := hop.jumpHost, note := hop.note)
  }

  /** A verifying call over a chain without open connections dials every path node once, in path order. */
  lemma VerifyDialsThePath(q: Request, reg: Reg, after: Reg, hops: seq<ServerConfig>, path: seq<Hop>, net: Network,
      p: Pool, fuel: nat)
    requires BuiltPath(q, reg, after, Ok(hops), path) && path != []
    requires Walk(Descent(JumpsOf(after), net, p), q.alias, fuel) == None
    requires forall h :: h in hops ==> !p.Reusable(h.name, net.closed)
    requires Get(JumpsOf(after), net, p, q.alias, fuel).result.Ok?
    ensures DialedAlong(JumpsOf(after), net, p, Get(JumpsOf(after), net, p, q.alias, fuel), hops)
  {
    BuiltHops(q, reg, after, hops, path);
    HopsAreChain(reg, hops, q.persist);
    var names := NamesOf(hops);
    forall n | n in names
      ensures !p.Reusable(n, net.closed)
    {
      var i :| 0 <= i < |hops| && names[i] == n;
      assert hops[i] in hops;
    }
    FreshChainIsDialedInOrder(JumpsOf(after), net, p, names, fuel);
  }

  /** The call dialed the hops, each once, the first directly and each later one through the one before. */
  ghost predicate DialedAlong(g: Jumps, net: Network, p: Pool, a: Answer, hops: seq<ServerConfig>) {
    var dials := NewDials(p, a);
    && |dials| == |hops| > 0
    && (forall i :: 0 <= i < |hops| ==> dials[i].name == hops[i].name)
    && dials[0].tunnel == None
    && Chained(Descent(g, net, p), dials)
  }

  /** jump_host leads from the alias back along the hops to a direct first hop, and each hop is the path's. */
  ghost predicate Spelled(q: Request, reg: Reg, after: Reg, hops: seq<ServerConfig>, path: seq<Hop>) {
    && |hops| == |path| > 0 && hops[|hops| - 1].name == q.alias
    && (forall i :: 0 <= i < |path| ==> SpellsHop(reg, after, hops[i], path[i]))
    && forall k :: 0 <= k <= |path| ==>
         Walk(JumpsOf(after), q.alias, k) == (if k == |path| then None else Some(hops[|path| - 1 - k].name))
  }

  lemma VerifyDialsAfterOpen(q: Request, reg: Reg, after: Reg, hops: seq<ServerConfig>, path: seq<Hop>, net: Network,
      p: Pool, fuel: nat)
    requires BuiltPath(q, reg, after, Ok(hops), path) && path != []
    requires Walk(Descent(JumpsOf(after), net, p), q.alias, fuel) == None
    requires Get(JumpsOf(after), net, p, q.alias, fuel).result.Ok?
    ensures DialsAfterOpen(p, net.closed, NewDials(p, Get(JumpsOf(after), net, p, q.alias, fuel)), NamesOf(hops))
  {
    BuiltHops(q, reg, after, hops, path);
    HopsAreChain(reg, hops, q.persist);
    ChainIsDialedFromOpen(JumpsOf(after), net, p, NamesOf(hops), fuel);
  }

  /** How much was dialed tells what was open: nothing when the last hop was, everything when none was. */
  lemma DialsTellWhatWasOpen(p: Pool, closed: set<Conn>, dials: seq<Dial>, hops: seq<ServerConfig>)
    requires hops != [] && DialsAfterOpen(p, closed, dials, NamesOf(hops))
    ensures dials != [] <==> !p.Reusable(hops[|hops| - 1].name, closed)
    ensures |dials| == |hops| <==> forall h :: h in hops ==> !p.Reusable(h.name, closed)
  {
    var names, m := NamesOf(hops), |hops| - |dials|;
    if dials != [] {
      assert dials[|dials| - 1].name == names[m + (|dials| - 1)];
    }
    if m > 0 {
      assert names[m - 1] == hops[m - 1].name && hops[m - 1] in hops;
    } else {
      forall h | h in hops
        ensures !p.Reusable(h.name, closed)
      {
        var i :| 0 <= i < |hops| && hops[i] == h;
        assert dials[i].name == names[m + i];
      }
    }
  }

  /** What the pool's answer for the alias says about the connections open before and the dials made. */
  ghost predicate AliasDialed(q: Request, net: Network, p: Pool, after: Ground, hops: seq<ServerConfig>, a: Answer) {
    var dials := NewDials(p, a);
    && DialsAfterOpen(p, net.closed, dials, NamesOf(hops))
    && (dials != [] <==> !p.Reusable(q.alias, net.closed))
    && (|dials| == |hops| <==> forall h :: h in hops ==> !p.Reusable(h.name, net.closed))
    && (|dials| == |hops| ==> DialedAlong(JumpsOf(after.reg), net, p, a, hops))
  }

  lemma AnswerMeans(q: Request, at: Situation, before: Ground, after: Ground, hops: seq<ServerConfig>, path: seq<Hop>,
      conn: Conn)
    requires Succeeds(q, at, before, after, hops, path, conn) && path != []
    ensures AliasDialed(q, at.net, before.pool, after, hops, Answer(after.pool, Ok(conn)))
  {
    BuiltHops(q, before.reg, after.reg, hops, path);
    VerifyDialsAfterOpen(q, before.reg, after.reg, hops, path, at.net, before.pool, |path| + 1);
    DialsTellWhatWasOpen(before.pool, at.net.closed, NewDials(before.pool, Answer(after.pool, Ok(conn))), hops);
    if forall h :: h in hops ==> !before.pool.Reusable(h.name, at.net.closed) {
      VerifyDialsThePath(q, before.reg, after.reg, hops, path, at.net, before.pool, |path| + 1);
    }
  }

  /**
   * What a success means. The hops are those of a shortest path to the target, over the rescan's matrix when
   * there was a rescan, else over the cached one, which was fresh enough then; where that path is printable
   * the registered chain spells it; and the pool answered for the alias. That answer came with dials of the
   * hops after the last one whose name had an open connection before, in path order: of every hop exactly
   * when none had, and of none exactly when the alias itself had.
   */
  lemma SuccessMeans(q: Request, at: Situation, before: Ground, after: Ground, hops: seq<ServerConfig>)
      returns (path: seq<Hop>, conn: Conn)
    requires Answered(q, at, before, after, Ok(hops)) && q.target != LOCAL_NODE
    ensures at.rescan.Some? ==> ShortestPath(at.rescan.value, q.target, path)
    ensures at.rescan.None? ==> at.cached.Some? && !at.stale && ShortestPath(at.cached.value, q.target, path)
    ensures path != []
    ensures (forall i :: 0 <= i < |path| ==> Printable(path[i])) ==> Spelled(q, before.reg, after.reg, hops, path)
    ensures Verifies(q, at, after.reg, before.pool, path, Answer(after.pool, Ok(conn)))
    ensures AliasDialed(q, at.net, before.pool, after, hops, Answer(after.pool, Ok(conn)))
  {
    var matrix := if at.rescan.Some? then at.rescan.value else at.cached.value;
    path, conn :| ShortestPath(matrix, q.target, path) && Succeeds(q, at, before, after, hops, path, conn);
    PathNotEmpty(matrix, q.target, path);
    BuiltHops(q, before.reg, after.reg, hops, path);
    if forall i :: 0 <= i < |path| ==> Printable(path[i]) {
      ChainSpellsPath(q, before.reg, after.reg, hops, path);
    }
    AnswerMeans(q, at, before, after, hops, path, conn);
  }

  lemma PathNotEmpty(matrix: Matrix, target: string, path: seq<Hop>)
    requires ShortestPath(matrix, target, path) && target != LOCAL_NODE
    ensures path != []
  {
    var w :| Cheapest(UsableLinks(matrix), w, target) && Spell(w) == path;
    CheapestPathShape(UsableLinks(matrix), w, target, path);
  }

  /** While the pool still holds an open connection under the alias, verifying never fails and never dials. */
  lemma OpenAliasIsNotDialed(q: Request, at: Situation, before: Ground, after: Ground,
      r: Result<seq<ServerConfig>, AutoError>)
    requires Answered(q, at, before, after, r) && q.target != LOCAL_NODE
    requires before.pool.Reusable(q.alias, at.net.closed)
    ensures after.pool == before.pool && !(r.Err? && r.error.VerifyFailed?)
  {
    var matrix := if at.rescan.Some? then at.rescan.value else if at.cached.Some? then at.cached.value else [];
    match r
    case Ok(hops) =>
      var path, conn :| ShortestPath(matrix, q.target, path) && Succeeds(q, at, before, after, hops, path, conn);
      PathNotEmpty(matrix, q.target, path);
      AliasIsRegistered(q, before.reg, after.reg, path, hops);
    case Err(VerifyFailed(cause)) =>
      var path, hops, mid :| ShortestPath(matrix, q.target, path)
                          && FailsToVerify(q, at, before, mid, after, cause, path, hops);
      PathNotEmpty(matrix, q.target, path);
      AliasIsRegistered(q, before.reg, mid, path, hops);
    case Err(_) =>
  }

  lemma AliasIsRegistered(q: Request, before: Reg, mid: Reg, path: seq<Hop>, hops: seq<ServerConfig>)
    requires path != [] && BuiltPath(q, before, mid, Ok(hops), path)
    ensures q.alias in JumpsOf(mid)
  {
    BuiltHops(q, before, mid, hops, path);
    HopIsFound(before, hops, q.persist, |hops| - 1);
    JumpsOfNext(mid, q.alias);
  }

  lemma OneLinkIsCheapest(l: Link)
    requires l.from == LOCAL_NODE && l.to != LOCAL_NODE
    ensures Cheapest([l], [l], l.to)
  {
    assert [l][..0] == [];
    forall v | IsWalk([l], v) && End(v) == l.to
      ensures 1 < |v| || v == [l]
    {
      if |v| == 1 {
        assert v[0] in [l] && v == [l];
      }
    }
  }

  /** The matrix with one reachable cell, from here to `b`. */
  function OneCell(): Matrix {
    [TopologyEdge(LOCAL_NODE, "b", true, Some("10.0.0.2"), [], SourceOk)]
  }

  lemma OneCellLinks()
    ensures UsableLinks(OneCell()) == [Link(LOCAL_NODE, "b", "10.0.0.2", 0.0)]
  {
    assert OneCell()[..0] == [];
  }

  lemma OneLinkPath(matrix: Matrix, l: Link)
    requires UsableLinks(matrix) == [l] && l.from == LOCAL_NODE && l.to != LOCAL_NODE
    ensures ShortestPath(matrix, l.to, [Hop(l.to, l.via)])
  {
    OneLinkIsCheapest(l);
    assert Spell([l]) == [Hop(l.to, l.via)];
  }

  lemma OneHopIsKnown(reg: Reg, h: Hop)
    requires Taken(reg, h.node) && Printable(h)
    ensures Resolves(reg, PrintPath([h]))
  {
    HopRoundTrip(h);
    assert PrintPath([h]) == [PrintHop(h)];
  }

  /** A chain of one hop is the alias alone; in memory it can always be registered when the alias is free. */
  lemma OneHopBuilds(q: Request, reg: Reg, h: Hop)
    requires Resolves(reg, PrintPath([h])) && !q.persist && !Taken(reg, q.alias)
    ensures var hops := HopConfigs(reg, q.alias, PrintPath([h]), q.note);
            |hops| == 1 && hops[0].name == q.alias && Registrable(reg, hops, q.persist, q.addOk)
  {
    HopConfigsLinked(reg, q.alias, PrintPath([h]), q.note);
  }

  lemma PlainAddressIsPrintable()
    ensures Printable(Hop("b", "10.0.0.2"))
  {
    assert ':' !in "10.0.0.2";
  }

  lemma BuildGoesThrough(q: Request, reg: Reg, path: seq<Hop>) returns (after: Reg, hops: seq<ServerConfig>)
    requires Resolves(reg, PrintPath(path)) && !Taken(reg, q.alias)
    requires Registrable(reg, HopConfigs(reg, q.alias, PrintPath(path), q.note), q.persist, q.addOk)
    ensures hops == HopConfigs(reg, q.alias, PrintPath(path), q.note)
    ensures BuiltPath(q, reg, after, Ok(hops), path)
  {
    hops := HopConfigs(reg, q.alias, PrintPath(path), q.note);
    after := Appended(reg, hops, q.persist);
  }

  /** A chain that can be built is reported as verified when the alias is open, whatever the network does. */
  lemma OpenAliasSucceeds(q: Request, at: Situation, before: Ground, matrix: Matrix, path: seq<Hop>)
      returns (after: Reg, hops: seq<ServerConfig>)
    requires Searches(q, at, before, matrix) && ShortestPath(matrix, q.target, path) && q.target != LOCAL_NODE
    requires Resolves(before.reg, PrintPath(path)) && !Taken(before.reg, q.alias)
    requires Registrable(before.reg, HopConfigs(before.reg, q.alias, PrintPath(path), q.note), q.persist, q.addOk)
    requires before.pool.Reusable(q.alias, at.net.closed)
    ensures hops == HopConfigs(before.reg, q.alias, PrintPath(path), q.note)
    ensures Answered(q, at, before, Ground(after, before.pool), Ok(hops))
  {
    PathNotEmpty(matrix, q.target, path);
    after, hops := BuildGoesThrough(q, before.reg, path);
    AliasDescentEnds(q, before.reg, after, hops, path, at.net, before.pool);
    AliasIsRegistered(q, before.reg, after, path, hops);
    OpenNameAnswers(JumpsOf(after), at.net, before.pool, q.alias, |path| + 1);
    assert Succeeds(q, at, before, Ground(after, before.pool), hops, path,
        before.pool.SlotOf(q.alias).connection.value);
  }

  lemma OneHopOverOpenAlias(q: Request, at: Situation, before: Ground, matrix: Matrix, l: Link)
      returns (after: Reg, hops: seq<ServerConfig>)
    requires Searches(q, at, before, matrix) && UsableLinks(matrix) == [l]
    requires l.from == LOCAL_NODE && l.to == q.target != LOCAL_NODE && Printable(Hop(l.to, l.via))
    requires !q.persist && !Taken(before.reg, q.alias) && before.pool.Reusable(q.alias, at.net.closed)
    ensures Answered(q, at, before, Ground(after, before.pool), Ok(hops))
    ensures |hops| == 1 && hops[0].name == q.alias
  {
    var path := [Hop(l.to, l.via)];
    OneLinkPath(matrix, l);
    OneHopIsKnown(before.reg, path[0]);
    OneHopBuilds(q, before.reg, path[0]);
    after, hops := OpenAliasSucceeds(q, at, before, matrix, path);
  }

  /**
   * Such a request: `web` led to another server before, was torn down, and its connection is still open.
   * Set up anew for `b` it is reported as verified over the old connection, whatever the network does.
   */
  lemma OldConnectionVerifies(b: ServerConfig, net: Network) returns (after: Reg, hops: seq<ServerConfig>)
    requires Conn(0) !in net.closed
    ensures var q := Request("web", "b", false, None, WRITES_SUCCEED, WRITES_SUCCEED, WRITES_SUCCEED);
            var at := Situation(Some(OneCell()), None, false, net);
            var reg, pool := Reg([Item("b", b)], []), Pool(map["web" := Slot(Some(Conn(0)), Connected)], 1, []);
            && Answered(q, at, Ground(reg, pool), Ground(after, pool), Ok(hops))
            && |hops| == 1 && hops[0].name == "web"
  {
    var q := Request("web", "b", false, None, WRITES_SUCCEED, WRITES_SUCCEED, WRITES_SUCCEED);
    var at := Situation(Some(OneCell()), None, false, net);
    var reg, pool := Reg([Item("b", b)], []), Pool(map["web" := Slot(Some(Conn(0)), Connected)], 1, []);
    OneCellLinks();
    PlainAddressIsPrintable();
    assert reg.servers[0].key == "b";
    after, hops := OneHopOverOpenAlias(q, at, Ground(reg, pool), OneCell(), Link(LOCAL_NODE, "b", "10.0.0.2", 0.0));
  }

  /**
   * With successful writes, a failed verification leaves the registry as it was exactly when no
   * registered name matched the chain before. The failure reported is the pool's answer for the alias
   * over the chain that had been built, of a shortest path over the rescan's matrix or, without a rescan,
   * over the cached one.
   */
  lemma VerifyFailureRestoresIff(q: Request, at: Situation, before: Ground, after: Ground, cause: PoolError)
    requires q.tearOk == WRITES_SUCCEED && Answered(q, at, before, after, Err(VerifyFailed(cause)))
    ensures after.reg == before.reg <==> forall t :: t in Targets(Listed(before.reg), JumpMatch(q.alias)) ==>
      !Taken(before.reg, t)
    ensures exists path, hops, mid ::
      && (at.rescan.Some? ==> ShortestPath(at.rescan.value, q.target, path))
      && (at.rescan.None? ==> at.cached.Some? && !at.stale && ShortestPath(at.cached.value, q.target, path))
      && BuiltPath(q, before.reg, mid, Ok(hops), path)
      && Verifies(q, at, mid, before.pool, path, Answer(after.pool, Err(cause)))
  {
    var matrix := if at.rescan.Some? then at.rescan.value else at.cached.value;
    var path, hops, mid :| ShortestPath(matrix, q.target, path)
                        && FailsToVerify(q, at, before, mid, after, cause, path, hops);
    JumpTeardownRestoresIff(before.reg, q.alias, PrintPath(path), q.note, q.persist);
  }

  // ---- Over a fresh scan ----

  /** The nodes are servers of the registry whose names survive being written into a chain element. */
  ghost predicate CleanNodes(reg: Reg, nodes: seq<TopologyNode>) {
    forall t :: t in nodes ==> Taken(reg, t.name) && '@' !in t.name && Text.Trimmed(t.name)
  }

  lemma {:induction false} WalkLinks(links: seq<Link>, w: seq<Link>, i: nat)
    requires IsWalk(links, w) && i < |w|
    ensures w[i] in links
  {
    if i < |w| - 1 {
      WalkLinks(links, w[..|w| - 1], i);
    }
  }

  /** Every element printed for a path over the scan, if it can be parsed, names a registered server. */
  lemma PathIsKnown(edges: Matrix, world: Vantage, nodes: seq<TopologyNode>, reg: Reg, target: string, path: seq<Hop>,
      i: nat)
    requires Scanned(edges, world, nodes) && DistinctCandidates(nodes) && CleanNodes(reg, nodes)
    requires ShortestPath(edges, target, path) && i < |path|
    ensures ParseHop(PrintPath(path)[i]).Some? ==> Known(reg, PrintPath(path)[i])
  {
    var w :| Cheapest(UsableLinks(edges), w, target) && Spell(w) == path;
    WalkLinks(UsableLinks(edges), w, i);
    var j, t := LinksAreJumpable(edges, world, nodes, w[i]);
    ServerIsNode(path[i]);
  }

  lemma ServerIsNode(h: Hop)
    requires '@' !in h.node && Text.Trimmed(h.node)
    ensures ParseHop(PrintHop(h)).Some? ==> ParseHop(PrintHop(h)).value.server == h.node
  {
    SplitsAtNode(h);
    Text.TrimFixed(h.node);
  }

  /**
   * The scan and the request together. Where the matrix searched is that of a scan of registered, cleanly
   * named servers, an element is never unknown, and the request finds no path exactly when no sequence of
   * jumps the network allows leads from `local` to the target.
   */
  lemma ScanThenSetUp(q: Request, at: Situation, before: Ground, after: Ground, r: Result<seq<ServerConfig>, AutoError>,
      edges: Matrix, world: Vantage, nodes: seq<TopologyNode>)
    requires Answered(q, at, before, after, r) && Taken(before.reg, q.target)
    requires at.rescan == Some(edges) || (at.rescan.None? && at.cached == Some(edges) && !at.stale)
    requires Scanned(edges, world, nodes) && DistinctCandidates(nodes)
    requires CleanNodes(before.reg, nodes)
    ensures r.Err? && r.error.BuildFailed? ==> !r.error.error.HopNotFound?
    ensures r == Err(NoPath) <==> forall k: nat :: !JumpsTo(world, nodes, q.target, k)
  {
    WalksAreJumps(edges, world, nodes, q.target);
    if r == Err(NoPath) {
      assert Unreachable(edges, q.target);
    } else {
      var path := SearchFound(q, at, before, after, r, edges);
      forall i | 0 <= i < |path|
        ensures ParseHop(PrintPath(path)[i]).Some? ==> Known(before.reg, PrintPath(path)[i])
      {
        PathIsKnown(edges, world, nodes, before.reg, q.target, path, i);
      }
      var w :| Cheapest(UsableLinks(edges), w, q.target) && Spell(w) == path;
    }
  }

  /** Any other answer past the search rests on a shortest path, and an unknown element would be one of that path's. */
  lemma SearchFound(q: Request, at: Situation, before: Ground, after: Ground, r: Result<seq<ServerConfig>, AutoError>,
      matrix: Matrix) returns (path: seq<Hop>)
    requires AnsweredOver(matrix, q, at, before, after, r) && r != Err(NoPath)
    ensures ShortestPath(matrix, q.target, path)
    ensures r.Err? && r.error.BuildFailed? && r.error.error.HopNotFound? ==>
      exists i :: 0 <= i < |path| && ParseHop(PrintPath(path)[i]).Some? && !Known(before.reg, PrintPath(path)[i])
  {
    match r
    case Ok(hops) =>
      var conn;
      path, conn :| ShortestPath(matrix, q.target, path) && Succeeds(q, at, before, after, hops, path, conn);
    case Err(VerifyFailed(cause)) =>
      var hops, mid;
      path, hops, mid :| ShortestPath(matrix, q.target, path)
                      && FailsToVerify(q, at, before, mid, after, cause, path, hops);
    case Err(BuildFailed(e)) =>
      path :| ShortestPath(matrix, q.target, path) && BuiltPath(q, before.reg, after.reg, Err(e), path);
      if e.HopNotFound? {
        UnknownIsOnPath(q, before.reg, after.reg, e, path);
      }
  }

  lemma UnknownIsOnPath(q: Request, reg: Reg, after: Reg, e: BuildError, path: seq<Hop>)
    requires BuiltPath(q, reg, after, Err(e), path) && e.HopNotFound?
    ensures exists i :: 0 <= i < |path| && ParseHop(PrintPath(path)[i]).Some? && !Known(reg, PrintPath(path)[i])
  {
    var i: nat :| UnknownAt(reg, PrintPath(path), e, i);
    assert ParseHop(PrintPath(path)[i]).Some? && !Known(reg, PrintPath(path)[i]);
  }
}
