/** Chains of jump hosts: at most one link out of each server (mcp_ssh/config.py, _detect_circular_jumps). */
module JumpGraph {
  import opened Wrappers
  import opened Dict
  import opened Registry

  /** Each known server's jump host; an unknown name has no way on and ends its chain. */
  type Jumps = map<string, Option<string>>

  function Next(g: Jumps, n: string): Option<string> {
    if n in g then g[n] else None
  }

  /** Where `k` jump_host steps from `n` lead, or None when the chain ends sooner. */
  function Walk(g: Jumps, n: string, k: nat): Option<string> {
    if k == 0 then Some(n)
    else match Walk(g, n, k - 1) case None => None case Some(m) => Next(g, m)
  }

  ghost predicate ReachesItself(g: Jumps, n: string) {
    exists k :: k >= 1 && Walk(g, n, k) == Some(n)
  }

  ghost predicate Acyclic(g: Jumps) {
    forall n :: !ReachesItself(g, n)
  }

  ghost predicate Ends(g: Jumps, n: string) {
    exists k :: Walk(g, n, k) == None
  }

  function JumpsOf(reg: Reg): Jumps {
    map n | n in Names(reg) :: (NamesAreTaken(reg, n); Find(reg, n).value.jumpHost)
  }

  lemma JumpsOfNext(reg: Reg, n: string)
    ensures n in JumpsOf(reg) <==> Find(reg, n).Some?
    ensures n in JumpsOf(reg) ==> JumpsOf(reg)[n] == Find(reg, n).value.jumpHost
  {
    NamesAreTaken(reg, n);
  }

  function JumpsOfServers(servers: Dict<ServerConfig>): Jumps {
    map n | n in Keys(servers) :: Lookup(servers, n).value.jumpHost
  }

  lemma {:induction false} WalkSplit(g: Jumps, n: string, i: nat, j: nat)
    ensures Walk(g, n, i + j) == match Walk(g, n, i) case None => None case Some(m) => Walk(g, m, j)
  {
    if j > 0 {
      WalkSplit(g, n, i, j - 1);
      assert i + j - 1 == i + (j - 1);
    }
  }

  lemma WalkOneMore(g: Jumps, n: string, k: nat, m: string)
    requires Walk(g, n, k) == Some(m)
    ensures Walk(g, n, k + 1) == Next(g, m)
  {
  }

  /** `names` is a chain of the graph, listed from its end. */
  ghost predicate ChainOf(g: Jumps, names: seq<string>) {
    forall i :: 0 <= i < |names| ==> LeadsBack(g, names, i)
  }

  ghost predicate LeadsBack(g: Jumps, names: seq<string>, i: nat)
    requires i < |names|
  {
    Next(g, names[i]) == (if i == 0 then None else Some(names[i - 1]))
  }

  /** A chain ends when it stops here or goes on into one that ends. */
  lemma EndsWhenNextEnds(g: Jumps, n: string)
    requires Next(g, n).Some? ==> Ends(g, Next(g, n).value)
    ensures Ends(g, n)
  {
    assert Walk(g, n, 0) == Some(n);
    assert Walk(g, n, 1) == Next(g, n);
    if Next(g, n).Some? {
      var k :| Walk(g, Next(g, n).value, k) == None;
      WalkSplit(g, n, 1, k);
    }
  }

  /** From place `i` the graph leads to the place before, or nowhere. */
  ghost predicate StopsOrLeadsBack(g: Jumps, names: seq<string>, i: nat)
    requires i < |names|
  {
    Next(g, names[i]) == None || (i > 0 && Next(g, names[i]) == Some(names[i - 1]))
  }

  lemma {:induction false} BackwardEnds(g: Jumps, names: seq<string>, i: nat)
    requires i < |names|
    requires forall j :: 0 <= j < |names| ==> StopsOrLeadsBack(g, names, j)
    ensures Ends(g, names[i])
  {
    assert StopsOrLeadsBack(g, names, i);
    if i > 0 {
      BackwardEnds(g, names, i - 1);
    }
    EndsWhenNextEnds(g, names[i]);
  }

  /** Walking a listed chain from place `i` passes the earlier places and then ends. */
  lemma {:induction false} ChainOfWalk(g: Jumps, names: seq<string>, i: nat, k: nat)
    requires ChainOf(g, names) && i < |names| && k <= i + 1
    ensures Walk(g, names[i], k) == if k == i + 1 then None else Some(names[i - k])
  {
    if k > 0 {
      ChainOfWalk(g, names, i, k - 1);
      assert LeadsBack(g, names, i - (k - 1));
    }
  }

  /** A walk that starts on a cycle of length `k` comes home after every lap. */
  lemma {:induction false} Laps(g: Jumps, n: string, k: nat, q: nat)
    requires Walk(g, n, k) == Some(n)
    ensures Walk(g, n, q * k) == Some(n)
  {
    if q > 0 {
      Laps(g, n, k, q - 1);
      assert q * k == (q - 1) * k + k;
      WalkSplit(g, n, (q - 1) * k, k);
    }
  }

  /** A server that reaches itself has a chain without end. */
  lemma CycleNeverEnds(g: Jumps, n: string, k: nat, m: nat)
    requires k >= 1 && Walk(g, n, k) == Some(n)
    ensures Walk(g, n, m).Some?
  {
    Laps(g, n, k, m);
    assert m * k >= m;
    WalkSplit(g, n, m, m * k - m);
  }

  /** A chain that visits a server twice visits one that reaches itself. */
  lemma RevisitIsCycle(g: Jumps, n: string, i: nat, j: nat)
    requires i < j && Walk(g, n, i).Some? && Walk(g, n, i) == Walk(g, n, j)
    ensures ReachesItself(g, Walk(g, n, i).value)
  {
    WalkSplit(g, n, i, j - i);
    assert Walk(g, Walk(g, n, i).value, j - i) == Walk(g, n, i);
  }

  /** The names the first `k` steps of a chain pass. */
  ghost function Passed(g: Jumps, n: string, k: nat): set<string> {
    set i | 0 <= i < k && Walk(g, n, i).Some? :: Walk(g, n, i).value
  }

  /** How many known servers a chain has not passed yet. */
  ghost function Ahead(g: Jumps, n: string, k: nat): nat {
    |g.Keys - Passed(g, n, k)|
  }

  /** The chase after `k` steps: where it stands and what it has passed. */
  ghost predicate Chasing(g: Jumps, n: string, k: nat, current: Option<string>, visited: set<string>) {
    current == Walk(g, n, k) && visited == Passed(g, n, k)
  }

  /** A step past a known server that is new goes to its jump host and leaves fewer servers ahead. */
  lemma ChaseOn(g: Jumps, n: string, k: nat, m: string, visited: set<string>)
    requires Chasing(g, n, k, Some(m), visited) && m !in visited && m in g
    ensures Chasing(g, n, k + 1, g[m], visited + {m}) && Ahead(g, n, k + 1) < Ahead(g, n, k)
  {
    PassedStep(g, n, k);
  }

  /** A server that comes up again. */
  lemma ChaseRepeats(g: Jumps, n: string, k: nat, m: string, visited: set<string>)
    requires Chasing(g, n, k, Some(m), visited) && m in visited
    ensures !Ends(g, n) && exists x :: ReachesItself(g, x)
  {
    var i := PassedAt(g, n, k, m);
    RevisitNeverEnds(g, n, i, k);
  }

  /** The chase is over, or at a name that leads nowhere. */
  lemma ChaseEnds(g: Jumps, n: string, k: nat, current: Option<string>, visited: set<string>)
    requires Chasing(g, n, k, current, visited) && (current.Some? ==> Next(g, current.value) == None)
    ensures Ends(g, n)
  {
    assert Walk(g, n, k) == None || Walk(g, n, k + 1) == None;
  }

  lemma LookupLeads(servers: Dict<ServerConfig>, m: string)
    ensures m in JumpsOfServers(servers) <==> Lookup(servers, m).Some?
    ensures m in JumpsOfServers(servers) ==> JumpsOfServers(servers)[m] == Lookup(servers, m).value.jumpHost
  {
  }

  /** A name passed was passed at some step. */
  lemma PassedAt(g: Jumps, n: string, k: nat, m: string) returns (i: nat)
    requires m in Passed(g, n, k)
    ensures i < k && Walk(g, n, i) == Some(m)
  {
    i :| 0 <= i < k && Walk(g, n, i) == Some(m);
  }

  /** Passing a known server for the first time leaves fewer servers to pass. */
  lemma PassedStep(g: Jumps, n: string, k: nat)
    requires Walk(g, n, k).Some? && Walk(g, n, k).value in g
    ensures Passed(g, n, k + 1) == Passed(g, n, k) + {Walk(g, n, k).value}
    ensures Walk(g, n, k).value !in Passed(g, n, k) ==>
      |g.Keys - Passed(g, n, k + 1)| == |g.Keys - Passed(g, n, k)| - 1
  {
    var m := Walk(g, n, k).value;
    assert Passed(g, n, k + 1) == Passed(g, n, k) + {m};
    if m !in Passed(g, n, k) {
      assert g.Keys - Passed(g, n, k) == (g.Keys - Passed(g, n, k + 1)) + {m};
    }
  }

  /** On an acyclic graph every chain ends: it can pass no server twice, and there are finitely many. */
  lemma {:induction false} AcyclicEnds(g: Jumps, n: string, k: nat)
    requires Acyclic(g)
    ensures Ends(g, n)
    decreases |g.Keys - Passed(g, n, k)|
  {
    match Walk(g, n, k)
    case None =>
    case Some(m) =>
      if m in g {
        if m in Passed(g, n, k) {
          var i :| 0 <= i < k && Walk(g, n, i) == Some(m);
          RevisitIsCycle(g, n, i, k);
        }
        PassedStep(g, n, k);
        AcyclicEnds(g, n, k + 1);
      } else {
        assert Walk(g, n, k + 1) == None;
      }
  }

  /** Two readings of the same condition: no server reaches itself; every chain ends. */
  lemma AcyclicMeansEnds(g: Jumps)
    ensures Acyclic(g) <==> forall n :: Ends(g, n)
  {
    if Acyclic(g) {
      forall n
        ensures Ends(g, n)
      {
        AcyclicEnds(g, n, 0);
      }
    }
    if forall n :: Ends(g, n) {
      forall n, k | k >= 1
        ensures Walk(g, n, k) != Some(n)
      {
        assert Ends(g, n);
        var m :| Walk(g, n, m) == None;
        if Walk(g, n, k) == Some(n) {
          CycleNeverEnds(g, n, k, m);
        }
      }
    }
  }

  // ---- The check ----

  /** _has_cycle: walks from `start` until a server comes up again or the chain ends. */
  method HasCycle(servers: Dict<ServerConfig>, start: string) returns (r: bool)
    ensures r <==> !Ends(JumpsOfServers(servers), start)
    ensures r ==> exists n :: ReachesItself(JumpsOfServers(servers), n)
  {
    ghost var g := JumpsOfServers(servers);
    ghost var k := 0;
    var visited: set<string> := {};
    var current := Some(start);
    while current.Some?
      invariant Chasing(g, start, k, current, visited)
      decreases Ahead(g, start, k)
    {
      if current.value in visited {
        ChaseRepeats(g, start, k, current.value, visited);
        return true;
      }
      var cfg := Lookup(servers, current.value);
      LookupLeads(servers, current.value);
      if cfg.None? {
        ChaseEnds(g, start, k, current, visited);
        return false;
      }
      ChaseOn(g, start, k, current.value, visited);
      visited := visited + {current.value};
      current := cfg.value.jumpHost;
      k := k + 1;
    }
    ChaseEnds(g, start, k, current, visited);
    return false;
  }

  lemma RevisitNeverEnds(g: Jumps, n: string, i: nat, j: nat)
    requires i < j && Walk(g, n, i).Some? && Walk(g, n, i) == Walk(g, n, j)
    ensures !Ends(g, n)
    ensures ReachesItself(g, Walk(g, n, i).value)
  {
    RevisitIsCycle(g, n, i, j);
    var m := Walk(g, n, i).value;
    WalkSplit(g, n, i, j - i);
    forall k: nat
      ensures Walk(g, n, k).Some?
    {
      CycleNeverEnds(g, m, j - i, k);
      WalkSplit(g, n, i, k);
      WalkSplit(g, n, k, i);
    }
  }

  /** _detect_circular_jumps: an error exactly when some server reaches itself by jump_host steps. */
  method DetectCircularJumps(servers: Dict<ServerConfig>) returns (circular: bool)
    ensures circular <==> exists n :: n in Keys(servers) && ReachesItself(JumpsOfServers(servers), n)
    ensures circular <==> !Acyclic(JumpsOfServers(servers))
  {
    ghost var g := JumpsOfServers(servers);
    CyclesAreInside(g);
    for i := 0 to |servers|
      invariant forall j :: 0 <= j < i ==> Ends(g, servers[j].key)
    {
      circular := HasCycle(servers, servers[i].key);
      if circular {
        return;
      }
    }
    forall n | n in g
      ensures !ReachesItself(g, n)
    {
      assert Ends(g, n);
      var m :| Walk(g, n, m) == None;
      forall k | k >= 1
        ensures Walk(g, n, k) != Some(n)
      {
        if Walk(g, n, k) == Some(n) {
          CycleNeverEnds(g, n, k, m);
        }
      }
    }
    circular := false;
  }

  /** Only a known server can reach itself. */
  lemma CyclesAreInside(g: Jumps)
    ensures forall n :: ReachesItself(g, n) ==> n in g
  {
    forall n | ReachesItself(g, n)
      ensures n in g
    {
      var k :| k >= 1 && Walk(g, n, k) == Some(n);
      CycleNeverEnds(g, n, k, 1);
      assert Walk(g, n, 0) == Some(n);
    }
  }

  // ---- Growing a graph ----

  /**
   * New servers keep the graph acyclic when their own chains end, whatever dangling
   * references the old servers had: an old chain either never meets a new server or goes
   * on into a chain that ends.
   */
  lemma GraftKeepsAcyclic(g: Jumps, g': Jumps, added: set<string>)
    requires Acyclic(g)
    requires forall n :: n !in added ==> Next(g', n) == Next(g, n)
    requires forall n :: n in added ==> Ends(g', n)
    ensures Acyclic(g')
  {
    forall n
      ensures Ends(g', n)
    {
      AcyclicEnds(g, n, 0);
      var k :| Walk(g, n, k) == None;
      GraftEnds(g, g', added, n, k);
    }
    AcyclicMeansEnds(g');
  }

  lemma {:induction false} GraftEnds(g: Jumps, g': Jumps, added: set<string>, n: string, k: nat)
    requires forall m :: m !in added ==> Next(g', m) == Next(g, m)
    requires forall m :: m in added ==> Ends(g', m)
    requires Walk(g, n, k) == None
    ensures Ends(g', n)
    decreases k
  {
    if n !in added {
      WalkSplit(g, n, 1, k - 1);
      assert Walk(g, n, 0) == Some(n) && Walk(g', n, 0) == Some(n);
      var next := Walk(g', n, 1);
      if next.Some? {
        GraftEnds(g, g', added, next.value, k - 1);
        var m :| Walk(g', next.value, m) == None;
        WalkSplit(g', n, 1, m);
      }
    }
  }

  /** Every jump host named by a server is itself a server. */
  ghost predicate Closed(g: Jumps) {
    forall n :: n in g && g[n].Some? ==> g[n].value in g
  }

  /** In a closed graph a chain stays among the known servers. */
  lemma {:induction false} ClosedWalk(g: Jumps, n: string, k: nat)
    requires Closed(g) && n in g
    ensures Walk(g, n, k).Some? ==> Walk(g, n, k).value in g
  {
    if k > 0 {
      ClosedWalk(g, n, k - 1);
    }
  }

  /** A server registered under a fresh name, jumping to a known one, keeps a closed graph closed and acyclic. */
  lemma FreshServerKeepsAcyclic(g: Jumps, n: string, jump: Option<string>)
    requires Closed(g) && Acyclic(g) && n !in g
    requires jump.Some? ==> jump.value in g
    ensures Closed(g[n := jump]) && Acyclic(g[n := jump])
  {
    var g' := g[n := jump];
    assert Walk(g', n, 1) == jump by { assert Walk(g', n, 0) == Some(n); }
    if jump.Some? {
      AcyclicEnds(g, jump.value, 0);
      var k :| Walk(g, jump.value, k) == None;
      ClosedWalkKept(g, g', jump.value, k);
      WalkSplit(g', n, 1, k);
    }
    GraftKeepsAcyclic(g, g', {n});
  }

  /** Chains of a closed graph are the same in every graph that agrees on its servers. */
  lemma {:induction false} ClosedWalkKept(g: Jumps, g': Jumps, n: string, k: nat)
    requires Closed(g) && n in g
    requires forall m :: m in g ==> Next(g', m) == Next(g, m)
    ensures Walk(g', n, k) == Walk(g, n, k)
  {
    if k > 0 {
      ClosedWalkKept(g, g', n, k - 1);
      ClosedWalk(g, n, k - 1);
    }
  }

  /**
   * Registering a server does not re-run the cycle check. An acyclic graph stays acyclic exactly
   * when the chain of the new server's jump host does not already dangle at the new name.
   */
  lemma AddKeepsAcyclicIff(g: Jumps, n: string, jump: Option<string>)
    requires Acyclic(g) && n !in g
    ensures Acyclic(g[n := jump]) <==> jump.None? || forall k: nat :: Walk(g, jump.value, k) != Some(n)
  {
    var g' := g[n := jump];
    assert Walk(g', n, 0) == Some(n) && Walk(g', n, 1) == jump;
    if jump.None? {
      GraftKeepsAcyclic(g, g', {n});
    } else if k: nat :| Walk(g, jump.value, k) == Some(n) {
      FirstMeeting(g, g', n, jump.value, k);
      WalkSplit(g', n, 1, k);
      assert ReachesItself(g', n);
    } else {
      AcyclicEnds(g, jump.value, 0);
      var k :| Walk(g, jump.value, k) == None;
      FirstMeeting(g, g', n, jump.value, k);
      WalkSplit(g', n, 1, k);
      GraftKeepsAcyclic(g, g', {n});
    }
  }

  /** Such a registration: `a` jumps to the unknown `b`, and `b`, accepted next, jumps back to `a`. */
  lemma AddClosesCycle(a: ServerConfig, b: ServerConfig, persist: bool)
    requires a.name == "a" && a.jumpHost == Some("b")
    requires b.name == "b" && b.jumpHost == Some("a")
    ensures var reg := Reg([Item("a", a)], []);
            var added := Added(reg, b, persist, true);
            Acyclic(JumpsOf(reg)) && added.error == None && ReachesItself(JumpsOf(added.reg), "a")
  {
    var reg := Reg([Item("a", a)], []);
    var added := Added(reg, b, persist, true);
    var g, g' := JumpsOf(reg), JumpsOf(added.reg);
    assert reg.servers[0].key == "a";
    assert forall n :: Taken(reg, n) <==> n == "a";
    JumpsOfNext(reg, "a");
    JumpsOfNext(reg, "b");
    assert Walk(g, "b", 0) == Some("b") && Walk(g, "b", 1) == None;
    assert Walk(g, "a", 0) == Some("a") && Walk(g, "a", 1) == Some("b") && Walk(g, "a", 2) == None;
    forall n
      ensures Ends(g, n)
    {
      if n != "a" {
        JumpsOfNext(reg, n);
        assert Walk(g, n, 0) == Some(n) && Walk(g, n, 1) == None;
      }
    }
    AcyclicMeansEnds(g);
    AddedFind(reg, b, persist, true, "a");
    AddedFind(reg, b, persist, true, "b");
    JumpsOfNext(added.reg, "a");
    JumpsOfNext(added.reg, "b");
    assert Walk(g', "a", 0) == Some("a") && Walk(g', "a", 1) == Some("b") && Walk(g', "a", 2) == Some("a");
  }

  /** Until a chain meets the new server, it runs the same in both graphs; it meets an unknown name only at its end. */
  lemma {:induction false} FirstMeeting(g: Jumps, g': Jumps, n: string, m: string, k: nat)
    requires n !in g && forall x :: x != n ==> Next(g', x) == Next(g, x)
    requires Walk(g, m, k) == Some(n) || forall i: nat :: Walk(g, m, i) != Some(n)
    ensures Walk(g', m, k) == Walk(g, m, k)
  {
    if k > 0 {
      if Walk(g, m, k) == Some(n) {
        MeetsOnlyLast(g, n, m, k, k);
      }
      SameWhileApart(g, g', n, m, k);
    }
  }

  lemma {:induction false} MeetsOnlyLast(g: Jumps, n: string, m: string, k: nat, bound: nat)
    requires n !in g && Walk(g, m, k) == Some(n) && bound <= k
    ensures forall i :: 0 <= i < bound ==> Walk(g, m, i) != Some(n)
  {
    forall i | 0 <= i < bound
      ensures Walk(g, m, i) != Some(n)
    {
      if Walk(g, m, i) == Some(n) {
        assert Walk(g, m, i + 1) == None;
        WalkSplit(g, m, i + 1, k - i - 1);
      }
    }
  }

  lemma {:induction false} SameWhileApart(g: Jumps, g': Jumps, n: string, m: string, k: nat)
    requires forall x :: x != n ==> Next(g', x) == Next(g, x)
    requires forall i :: 0 <= i < k ==> Walk(g, m, i) != Some(n)
    ensures Walk(g', m, k) == Walk(g, m, k)
  {
    if k > 0 {
      SameWhileApart(g, g', n, m, k - 1);
    }
  }

  /** A config that passed the check, loaded into a registry, gives an acyclic graph. */
  lemma LoadedJumps(servers: Dict<ServerConfig>)
    ensures JumpsOf(Reg(servers, [])) == JumpsOfServers(servers)
  {
    forall n | n in Keys(servers)
      ensures JumpsOf(Reg(servers, []))[n] == JumpsOfServers(servers)[n]
    {
      JumpsOfNext(Reg(servers, []), n);
    }
    assert Keys<ServerConfig>([]) == {};
  }
}
