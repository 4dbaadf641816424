/**
 * What discovery finds: with stable oracles the hosts found are the boxes within reach, each at
 * its least distance from the seeds.
 */
module DiscoveryReach {
  import opened Wrappers
  import opened Discovery
  import opened DiscoverySafety
  import Registry

  /** The addresses a box reveals, whenever it is asked. */
  type Map = Option<string> -> seq<string>

  /** The machine `box` reveals an address at which the box `f` answers. */
  ghost predicate Reveals(w: World, m: Map, box: Option<string>, f: string) {
    exists a :: a in m(box) && w.connect(a) == Presents(f)
  }

  /** `f` is within `n` reveals of the seeds. */
  ghost predicate Near(w: World, m: Map, seeds: seq<Node>, f: string, n: nat)
    decreases n
  {
    n > 0 && (|| (exists s :: s in seeds && Reveals(w, m, s.box, f))
              || (exists g :: Near(w, m, seeds, g, n - 1) && Reveals(w, m, Some(g), f)))
  }

  ghost predicate Reachable(w: World, m: Map, seeds: seq<Node>, f: string) {
    exists n: nat :: Near(w, m, seeds, f, n)
  }

  lemma {:induction false} NearGrows(w: World, m: Map, seeds: seq<Node>, f: string, n: nat, k: nat)
    requires Near(w, m, seeds, f, n) && n <= k
    ensures Near(w, m, seeds, f, k)
    decreases k
  {
    if !exists s :: s in seeds && Reveals(w, m, s.box, f) {
      var g :| Near(w, m, seeds, g, n - 1) && Reveals(w, m, Some(g), f);
      NearGrows(w, m, seeds, g, n - 1, k - 1);
    }
  }

  /** A set of boxes closed under being revealed by a seed or by a member. */
  ghost predicate ClosedUnderReveals(w: World, m: Map, seeds: seq<Node>, boxes: iset<string>) {
    forall f ::
      (exists s :: s in seeds && Reveals(w, m, s.box, f)) || (exists g :: g in boxes && Reveals(w, m, Some(g), f)) ==>
      f in boxes
  }

  /** The reachable boxes are the least closed set. */
  lemma ReachableIsLeast(w: World, m: Map, seeds: seq<Node>, boxes: iset<string>)
    ensures ClosedUnderReveals(w, m, seeds, iset f | Reachable(w, m, seeds, f))
    ensures ClosedUnderReveals(w, m, seeds, boxes) ==> forall f :: Reachable(w, m, seeds, f) ==> f in boxes
  {
    forall f | exists s :: s in seeds && Reveals(w, m, s.box, f)
      ensures Reachable(w, m, seeds, f)
    {
      assert Near(w, m, seeds, f, 1);
    }
    forall f, g | Reachable(w, m, seeds, g) && Reveals(w, m, Some(g), f)
      ensures Reachable(w, m, seeds, f)
    {
      var n: nat :| Near(w, m, seeds, g, n);
      assert Near(w, m, seeds, f, n + 1);
    }
    if ClosedUnderReveals(w, m, seeds, boxes) {
      forall f, n: nat | Near(w, m, seeds, f, n)
        ensures f in boxes
      {
        NearInClosed(w, m, seeds, boxes, f, n);
      }
    }
  }

  lemma {:induction false} NearInClosed(w: World, m: Map, seeds: seq<Node>, boxes: iset<string>, f: string, n: nat)
    requires ClosedUnderReveals(w, m, seeds, boxes) && Near(w, m, seeds, f, n)
    ensures f in boxes
    decreases n
  {
    if !exists s :: s in seeds && Reveals(w, m, s.box, f) {
      var g :| Near(w, m, seeds, g, n - 1) && Reveals(w, m, Some(g), f);
      NearInClosed(w, m, seeds, boxes, g, n - 1);
    }
  }

  // ---- The breadth-first invariants ----

  /** Everything the machine reveals has been dialed and has answered. */
  ghost predicate Expanded(m: Map, e: Engine, box: Option<string>) {
    forall a :: a in m(box) ==> a in e.finished
  }

  /** The visited fingerprints are the hosts', and every answering address led to one of them. */
  ghost predicate Settled(w: World, e: Engine) {
    && (forall f :: f in e.visitedFps ==> exists i :: 0 <= i < |e.discovered| && e.discovered[i].fingerprint == f)
    && (forall a :: a in e.finished && w.connect(a).Presents? ==> w.connect(a).fingerprint in e.visitedFps)
  }

  /** Every host is a box at exactly its depth from the seeds. */
  ghost predicate AtLeastDepth(w: World, m: Map, seeds: seq<Node>, e: Engine) {
    forall i :: 0 <= i < |e.discovered| ==> AtDepth(w, m, seeds, e.discovered[i].fingerprint, e.discovered[i].depth)
  }

  ghost predicate AtDepth(w: World, m: Map, seeds: seq<Node>, f: string, d: int) {
    && d >= 0 && Near(w, m, seeds, f, d)
    && forall n: nat :: Near(w, m, seeds, f, n) ==> d <= n
  }

  /** Where a known node stands: waiting in the queue, being expanded, expanded, or past the depth bound. */
  ghost predicate Placed(p: Params, m: Map, e: Engine, queue: set<Node>, n: Node) {
    || n in queue
    || Expanded(m, e, n.box)
    || (n.depth >= p.maxDepth && e.truncated)
  }

  ghost predicate AllPlaced(p: Params, m: Map, seeds: seq<Node>, e: Engine, queue: set<Node>) {
    && (forall s :: s in seeds ==> Placed(p, m, e, queue, s))
    && (forall i :: 0 <= i < |e.discovered| && i < |e.openConns| ==> Placed(p, m, e, queue, HostNode(e, i)))
  }

  /** The breadth-first state; `queue` holds the frontier, the node being expanded and what it found so far. */
  ghost predicate Breadth(p: Params, w: World, m: Map, seeds: seq<Node>, e: Engine, queue: set<Node>) {
    && |e.discovered| == |e.openConns|
    && Settled(w, e) && AtLeastDepth(w, m, seeds, e) && AllPlaced(p, m, seeds, e, queue)
  }

  /** No node below depth `k` waits in the queue, and `k` is within the depth bound or nothing was cut by it. */
  ghost predicate Level(p: Params, e: Engine, queue: set<Node>, k: int) {
    && (forall n :: n in queue ==> n.depth >= k)
    && (e.truncated ==> k <= p.maxDepth)
  }

  /** Every box within `n <= k` reveals has been found when all nodes below depth `k` are expanded. */
  lemma {:induction false} FoundUpTo(p: Params, w: World, m: Map, seeds: seq<Node>, e: Engine, queue: set<Node>, k: int,
      f: string, n: nat)
    requires AllSeeds(seeds) && Breadth(p, w, m, seeds, e, queue) && Level(p, e, queue, k)
    requires Near(w, m, seeds, f, n) && n <= k
    ensures f in e.visitedFps
    decreases n
  {
    if s :| s in seeds && Reveals(w, m, s.box, f) {
      assert Placed(p, m, e, queue, s);
      var a :| a in m(s.box) && w.connect(a) == Presents(f);
      assert a in e.finished;
    } else {
      var g :| Near(w, m, seeds, g, n - 1) && Reveals(w, m, Some(g), f);
      FoundUpTo(p, w, m, seeds, e, queue, k, g, n - 1);
      var i :| 0 <= i < |e.discovered| && e.discovered[i].fingerprint == g;
      assert AtDepth(w, m, seeds, g, e.discovered[i].depth);
      assert Placed(p, m, e, queue, HostNode(e, i));
      var a :| a in m(Some(g)) && w.connect(a) == Presents(f);
      assert a in e.finished;
    }
  }

  /** A frontier item's distance, and what follows for a box it reveals that was not seen before. */
  lemma NewBoxIsAtDepth(p: Params, w: World, m: Map, seeds: seq<Node>, e: Engine, queue: set<Node>, via: Node,
      addr: string, f: string)
    requires AllSeeds(seeds) && Breadth(p, w, m, seeds, e, queue) && Level(p, e, queue, via.depth)
    requires Known(seeds, e, via) && via.depth >= 0
    requires addr in m(via.box) && w.connect(addr) == Presents(f) && f !in e.visitedFps
    ensures AtDepth(w, m, seeds, f, via.depth + 1)
  {
    assert Reveals(w, m, via.box, f);
    if via !in seeds {
      var i :| 0 <= i < |e.discovered| && i < |e.openConns| && via == HostNode(e, i);
      assert AtDepth(w, m, seeds, e.discovered[i].fingerprint, e.discovered[i].depth);
    }
    assert Near(w, m, seeds, f, via.depth + 1);
    forall n: nat | Near(w, m, seeds, f, n)
      ensures via.depth + 1 <= n
    {
      if n <= via.depth {
        FoundUpTo(p, w, m, seeds, e, queue, via.depth, f, n);
      }
    }
  }

  /** A write of the config file failed for a box that answered. */
  ghost predicate FailedWrite(p: Params, w: World, e: Engine) {
    p.persist && exists a :: a in e.finished && w.connect(a).Presents? && !w.writeOk(a)
  }

  /** The step after a connect loses no box: it drops nothing, or there is room and the write succeeds. */
  ghost predicate LosesNoBox(p: Params, w: World, e: Engine, via: Node, addr: string) {
    || !FinishDial(p, w, e, via, addr).engine.dropped
    || (|e.discovered| < p.maxNodes && (p.persist && w.connect(addr).Presents? ==> w.writeOk(addr)))
  }

  /** A step after a connect that loses no box keeps the breadth-first state; a found host joins the queue. */
  lemma FinishKeepsBreadth(p: Params, w: World, m: Map, seeds: seq<Node>, e: Engine, queue: set<Node>, via: Node,
      addr: string)
    requires AllSeeds(seeds) && Breadth(p, w, m, seeds, e, queue) && Level(p, e, queue, via.depth)
    requires Finishing(p, seeds, e, via, addr) && addr in m(via.box)
    requires LosesNoBox(p, w, e, via, addr)
    ensures var f := FinishDial(p, w, e, via, addr);
            && Breadth(p, w, m, seeds, f.engine, queue + (if f.found.Some? then {f.found.value} else {}))
            && f.engine.truncated == e.truncated
  {
    if FinishDial(p, w, e, via, addr).found.None? {
      QuietHalf(p, w, m, seeds, e, queue, via, addr);
    } else {
      AdmittingHalf(p, w, m, seeds, e, queue, via, addr);
    }
  }

  lemma QuietHalf(p: Params, w: World, m: Map, seeds: seq<Node>, e: Engine, queue: set<Node>, via: Node, addr: string)
    requires Breadth(p, w, m, seeds, e, queue) && LosesNoBox(p, w, e, via, addr)
    requires FinishDial(p, w, e, via, addr).found.None?
    ensures var e' := FinishDial(p, w, e, via, addr).engine;
            Breadth(p, w, m, seeds, e', queue + {}) && e'.truncated == e.truncated
  {
    var e' := FinishDial(p, w, e, via, addr).engine;
    FinishShape(p, w, e, via, addr);
    QuietExtends(w, e', e, addr);
    QuietUndropped(p, w, e, via, addr);
    QuietKeepsBreadth(p, w, m, seeds, e', e, queue, addr);
    assert queue + {} == queue;
  }

  lemma AdmittingHalf(p: Params, w: World, m: Map, seeds: seq<Node>, e: Engine, queue: set<Node>, via: Node,
      addr: string)
    requires AllSeeds(seeds) && Breadth(p, w, m, seeds, e, queue) && Level(p, e, queue, via.depth)
    requires Finishing(p, seeds, e, via, addr) && addr in m(via.box)
    requires FinishDial(p, w, e, via, addr).found.Some?
    ensures var f := FinishDial(p, w, e, via, addr);
            && Breadth(p, w, m, seeds, f.engine, queue + {f.found.value})
            && f.engine.truncated == e.truncated
  {
    var f := FinishDial(p, w, e, via, addr);
    var host, cfg := WhoIsAdmitted(p, w, f, e, via, addr);
    NewBoxIsAtDepth(p, w, m, seeds, e, queue, via, addr, host.fingerprint);
    AdmitsKeepsBreadth(p, w, m, seeds, f.engine, e, queue, via, addr, host, cfg);
  }

  lemma WhoIsAdmitted(p: Params, w: World, f: Finish, e: Engine, via: Node, addr: string)
      returns (host: Host, cfg: Registry.ServerConfig)
    requires f == FinishDial(p, w, e, via, addr) && f.found.Some?
    ensures Admits(p, w, f.engine, e, via, addr, host, cfg) && f.engine.truncated == e.truncated
    ensures |f.engine.discovered| > 0 && |f.engine.openConns| > 0 && f.found == Some(HostNodeLast(f.engine))
  {
    FinishShape(p, w, e, via, addr);
    AdmitsUndropped(p, w, e, via, addr);
    host, cfg := f.engine.discovered[|f.engine.discovered| - 1], f.engine.configs[|f.engine.configs| - 1];
  }

  /** A step that admits no host and loses none saw no new box. */
  lemma QuietUndropped(p: Params, w: World, e: Engine, via: Node, addr: string)
    requires FinishDial(p, w, e, via, addr).found.None? && LosesNoBox(p, w, e, via, addr)
    ensures var e' := FinishDial(p, w, e, via, addr).engine;
            e'.visitedFps == e.visitedFps && e'.truncated == e.truncated
    ensures w.connect(addr).Presents? ==> w.connect(addr).fingerprint in e.visitedFps
  {
  }

  lemma AdmitsUndropped(p: Params, w: World, e: Engine, via: Node, addr: string)
    requires FinishDial(p, w, e, via, addr).found.Some?
    ensures var e' := FinishDial(p, w, e, via, addr).engine; e'.truncated == e.truncated && e'.dropped == e.dropped
  {
  }

  lemma QuietKeepsBreadth(p: Params, w: World, m: Map, seeds: seq<Node>, e': Engine, e: Engine, queue: set<Node>,
      addr: string)
    requires Breadth(p, w, m, seeds, e, queue)
    requires Quiet(w, e', e, addr) && Extends(e', e)
    requires e'.visitedFps == e.visitedFps && e'.truncated == e.truncated
    requires w.connect(addr).Presents? ==> w.connect(addr).fingerprint in e.visitedFps
    ensures Breadth(p, w, m, seeds, e', queue)
  {
    forall i | 0 <= i < |e'.discovered|
      ensures AtDepth(w, m, seeds, e'.discovered[i].fingerprint, e'.discovered[i].depth)
      ensures Placed(p, m, e', queue, HostNode(e', i))
    {
      assert AtDepth(w, m, seeds, e.discovered[i].fingerprint, e.discovered[i].depth);
      assert Placed(p, m, e, queue, HostNode(e, i)) && HostNode(e', i) == HostNode(e, i);
    }
    forall s | s in seeds
      ensures Placed(p, m, e', queue, s)
    {
      assert Placed(p, m, e, queue, s);
    }
    forall f | f in e'.visitedFps
      ensures exists i :: 0 <= i < |e'.discovered| && e'.discovered[i].fingerprint == f
    {
      var i :| 0 <= i < |e.discovered| && e.discovered[i].fingerprint == f;
      assert e'.discovered[i].fingerprint == f;
    }
  }

  lemma AdmitsKeepsBreadth(p: Params, w: World, m: Map, seeds: seq<Node>, e': Engine, e: Engine, queue: set<Node>,
      via: Node, addr: string, host: Host, cfg: Registry.ServerConfig)
    requires Breadth(p, w, m, seeds, e, queue)
    requires Admits(p, w, e', e, via, addr, host, cfg) && e'.truncated == e.truncated
    requires AtDepth(w, m, seeds, host.fingerprint, host.depth)
    ensures |e'.discovered| > 0 && |e'.openConns| > 0
    ensures Breadth(p, w, m, seeds, e', queue + {HostNodeLast(e')})
  {
    var queue' := queue + {HostNodeLast(e')};
    var last := |e.discovered|;
    forall i | 0 <= i < |e'.discovered|
      ensures AtDepth(w, m, seeds, e'.discovered[i].fingerprint, e'.discovered[i].depth)
      ensures Placed(p, m, e', queue', HostNode(e', i))
    {
      if i < last {
        assert AtDepth(w, m, seeds, e.discovered[i].fingerprint, e.discovered[i].depth);
        assert Placed(p, m, e, queue, HostNode(e, i)) && HostNode(e', i) == HostNode(e, i);
      }
    }
    forall s | s in seeds
      ensures Placed(p, m, e', queue', s)
    {
      assert Placed(p, m, e, queue, s);
    }
    forall f | f in e'.visitedFps
      ensures exists i :: 0 <= i < |e'.discovered| && e'.discovered[i].fingerprint == f
    {
      if f == host.fingerprint {
        assert e'.discovered[last].fingerprint == f;
      } else {
        var i :| 0 <= i < |e.discovered| && e.discovered[i].fingerprint == f;
        assert e'.discovered[i].fingerprint == f;
      }
    }
  }

  // ---- What holds whatever is dropped ----

  ghost predicate FoundHost(e: Engine, f: string) {
    exists i :: 0 <= i < |e.discovered| && e.discovered[i].fingerprint == f
  }

  /** Every box that answered is within reach, found or lost. */
  ghost predicate VisitedReachable(w: World, m: Map, seeds: seq<Node>, e: Engine) {
    forall f :: f in e.visitedFps ==> Reachable(w, m, seeds, f)
  }

  lemma RevealedIsReachable(w: World, m: Map, seeds: seq<Node>, e: Engine, via: Node, f: string)
    requires VisitedReachable(w, m, seeds, e) && DistinctHosts(e) && Known(seeds, e, via)
    requires Reveals(w, m, via.box, f)
    ensures Reachable(w, m, seeds, f)
  {
    if via in seeds {
      assert Near(w, m, seeds, f, 1);
    } else {
      var i :| 0 <= i < |e.discovered| && i < |e.openConns| && via == HostNode(e, i);
      var n: nat :| Near(w, m, seeds, e.discovered[i].fingerprint, n);
      assert Near(w, m, seeds, f, n + 1);
    }
  }

  lemma FinishVisits(p: Params, w: World, e: Engine, via: Node, addr: string)
    ensures forall f :: f in FinishDial(p, w, e, via, addr).engine.visitedFps ==>
      f in e.visitedFps || w.connect(addr) == Presents(f)
  {
  }

  lemma FinishStaysReachable(p: Params, w: World, m: Map, seeds: seq<Node>, e: Engine, via: Node, addr: string)
    requires VisitedReachable(w, m, seeds, e) && DistinctHosts(e) && Known(seeds, e, via) && addr in m(via.box)
    ensures VisitedReachable(w, m, seeds, FinishDial(p, w, e, via, addr).engine)
  {
    FinishVisits(p, w, e, via, addr);
    forall f | f in FinishDial(p, w, e, via, addr).engine.visitedFps && f !in e.visitedFps
      ensures Reachable(w, m, seeds, f)
    {
      assert Reveals(w, m, via.box, f);
      RevealedIsReachable(w, m, seeds, e, via, f);
    }
  }

  /** A loss that set no flag left a box that answered but is no host. */
  ghost predicate LossShows(e: Engine) {
    e.dropped && !e.truncated ==> exists f :: f in e.visitedFps && !FoundHost(e, f)
  }

  lemma FinishShowsLoss(p: Params, w: World, e: Engine, via: Node, addr: string)
    requires LossShows(e) && DistinctHosts(e)
    ensures LossShows(FinishDial(p, w, e, via, addr).engine)
  {
    FinishShape(p, w, e, via, addr);
    var f := FinishDial(p, w, e, via, addr);
    if f.engine.dropped && !f.engine.truncated {
      if e.dropped && !e.truncated {
        var lost :| lost in e.visitedFps && !FoundHost(e, lost);
        StaysLost(p, w, e, via, addr, lost);
      } else {
        NewLoss(p, w, e, via, addr);
      }
    }
  }

  lemma StaysLost(p: Params, w: World, e: Engine, via: Node, addr: string, lost: string)
    requires lost in e.visitedFps && !FoundHost(e, lost)
    ensures var e' := FinishDial(p, w, e, via, addr).engine; lost in e'.visitedFps && !FoundHost(e', lost)
  {
    FinishShape(p, w, e, via, addr);
    var f := FinishDial(p, w, e, via, addr);
    forall i | 0 <= i < |f.engine.discovered|
      ensures f.engine.discovered[i].fingerprint != lost
    {
      if i < |e.discovered| {
        assert e.discovered[i].fingerprint != lost;
        FinishExtends(p, w, e, via, addr);
      }
    }
  }

  lemma NewLoss(p: Params, w: World, e: Engine, via: Node, addr: string)
    requires DistinctHosts(e)
    requires var e' := FinishDial(p, w, e, via, addr).engine;
             e'.dropped && !e'.truncated && !(e.dropped && !e.truncated)
    ensures var e' := FinishDial(p, w, e, via, addr).engine;
            && w.connect(addr).Presents?
            && w.connect(addr).fingerprint in e'.visitedFps && !FoundHost(e', w.connect(addr).fingerprint)
  {
  }

  /** Time does not run backwards: a deadline that has passed stays passed. */
  ghost predicate Monotone(w: World) {
    forall s: nat, t: nat :: s <= t && w.expired(s) ==> w.expired(t)
  }

  /** The deadline was seen to have passed. */
  ghost predicate Late(w: World, e: Engine) {
    exists t: nat :: t < e.looks && w.expired(t)
  }

  /** Whatever was dropped was dropped for one of three reasons, and only a failed write leaves the flag unset. */
  ghost predicate DropsExplained(p: Params, w: World, e: Engine) {
    && (e.dropped ==> Late(w, e) || |e.discovered| >= p.maxNodes || FailedWrite(p, w, e))
    && (e.dropped && !FailedWrite(p, w, e) ==> e.truncated)
  }

  /**
   * A step after a connect keeps each host's depth least, provided the state before could be trusted
   * when it admits one.
   */
  lemma FinishKeepsDepths(p: Params, w: World, m: Map, seeds: seq<Node>, e: Engine, queue: set<Node>, via: Node,
      addr: string)
    requires AtLeastDepth(w, m, seeds, e) && Finishing(p, seeds, e, via, addr)
    requires |e.discovered| < p.maxNodes ==>
      AllSeeds(seeds) && Breadth(p, w, m, seeds, e, queue) && Level(p, e, queue, via.depth) && addr in m(via.box)
    ensures AtLeastDepth(w, m, seeds, FinishDial(p, w, e, via, addr).engine)
  {
    FinishShape(p, w, e, via, addr);
    var f := FinishDial(p, w, e, via, addr);
    if f.found.None? {
      QuietExtends(w, f.engine, e, addr);
      forall i | 0 <= i < |f.engine.discovered|
        ensures AtDepth(w, m, seeds, f.engine.discovered[i].fingerprint, f.engine.discovered[i].depth)
      {
        assert AtDepth(w, m, seeds, e.discovered[i].fingerprint, e.discovered[i].depth);
      }
    } else {
      AdmittingHalf(p, w, m, seeds, e, queue, via, addr);
    }
  }
}
