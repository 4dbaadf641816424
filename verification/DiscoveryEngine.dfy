/** The discovery engine as the class that runs (mcp_ssh/discovery.py, DiscoveryEngine). */
module DiscoveryEngine {
  import opened Wrappers
  import opened Registry
  import opened Discovery
  import opened DiscoverySafety
  import opened DiscoveryReach
  import opened DiscoveryChains
  import opened DiscoveryFlag
  import opened DiscoveryAddresses
  import Text

  // ---- The tasks of one expansion ----

  datatype Task = Waiting | Dialing | Done(found: Option<Node>)

  function Weight(t: Task): nat {
    match t case Waiting => 2 case Dialing => 1 case Done(_) => 0
  }

  /** Steps still to be taken. */
  function Work(tasks: seq<Task>): nat {
    if tasks == [] then 0 else Weight(tasks[0]) + Work(tasks[1..])
  }

  /** Tasks that hold the semaphore across an await. */
  function Running(tasks: seq<Task>): nat {
    if tasks == [] then 0 else (if tasks[0].Dialing? then 1 else 0) + Running(tasks[1..])
  }

  /** Tasks that have not looked at the clock yet. */
  function Unstarted(tasks: seq<Task>): nat {
    if tasks == [] then 0 else (if tasks[0].Waiting? then 1 else 0) + Unstarted(tasks[1..])
  }

  /** What gather returns, without the Nones. */
  function Found(tasks: seq<Task>): seq<Node> {
    if tasks == [] then []
    else (if tasks[0].Done? && tasks[0].found.Some? then [tasks[0].found.value] else []) + Found(tasks[1..])
  }

  lemma {:induction false} TaskUpdate(tasks: seq<Task>, i: nat, t: Task)
    requires i < |tasks| && !tasks[i].Done?
    ensures Work(tasks[i := t]) == Work(tasks) - Weight(tasks[i]) + Weight(t)
    ensures Running(tasks[i := t])
      == Running(tasks) - (if tasks[i].Dialing? then 1 else 0) + (if t.Dialing? then 1 else 0)
    ensures Unstarted(tasks[i := t])
      == Unstarted(tasks) - (if tasks[i].Waiting? then 1 else 0) + (if t.Waiting? then 1 else 0)
    ensures |Found(tasks[i := t])| == |Found(tasks)| + (if t.Done? && t.found.Some? then 1 else 0)
    ensures forall n :: n in Found(tasks[i := t]) <==> n in Found(tasks) || t == Done(Some(n))
  {
    if i > 0 {
      TaskUpdate(tasks[1..], i - 1, t);
      assert tasks[i := t][1..] == tasks[1..][i - 1 := t];
    } else {
      assert tasks[i := t][1..] == tasks[1..];
    }
  }

  lemma {:induction false} NoWorkMeansDone(tasks: seq<Task>)
    ensures Work(tasks) == 0 <==> forall i :: 0 <= i < |tasks| ==> tasks[i].Done?
    ensures Running(tasks) == 0 <==> forall i :: 0 <= i < |tasks| ==> !tasks[i].Dialing?
    ensures Work(tasks) == 0 ==> Unstarted(tasks) == 0
  {
    if tasks != [] {
      NoWorkMeansDone(tasks[1..]);
    }
  }

  lemma {:induction false} AllWaiting(n: nat)
    ensures var tasks := seq(n, _ => Waiting); Running(tasks) == 0 && Unstarted(tasks) == n && Found(tasks) == []
  {
    if n > 0 {
      AllWaiting(n - 1);
      assert seq(n, _ => Waiting)[1..] == seq(n - 1, _ => Waiting);
    }
  }

  /** How the tasks of an expansion of `via` stand against the engine's state. */
  ghost predicate TasksFit(seeds: seq<Node>, e: Engine, via: Node, batch: seq<string>, tasks: seq<Task>) {
    && |tasks| == |batch| && NoRepeats(batch)
    && (forall i :: 0 <= i < |batch| ==> batch[i] in e.visitedIps)
    && (forall i :: 0 <= i < |batch| && tasks[i].Waiting? ==> batch[i] !in e.dialed)
    && (forall i :: 0 <= i < |batch| && tasks[i].Dialing? ==> batch[i] in e.dialed && batch[i] !in e.finished)
    && (forall n :: n in Found(tasks) ==> Known(seeds, e, n) && n.depth == via.depth + 1)
  }

  /** While nothing was dropped, the visited addresses without an answer are those of unfinished tasks. */
  ghost predicate OnlyTasksPending(e: Engine, batch: seq<string>, tasks: seq<Task>)
    requires |tasks| == |batch|
  {
    !e.dropped ==> forall a :: a in e.visitedIps && a !in e.finished ==>
        exists i :: 0 <= i < |batch| && batch[i] == a && !tasks[i].Done?
  }

  ghost function ToSet(nodes: seq<Node>): set<Node> {
    set n | n in nodes
  }

  // ---- The frontier ----

  /** First in, first out: depths never fall along the queue and span at most two neighbouring levels. */
  ghost predicate TwoLevels(frontier: seq<Node>) {
    forall i, j :: 0 <= i <= j < |frontier| ==> frontier[i].depth <= frontier[j].depth <= frontier[0].depth + 1
  }

  /** `m` says what the oracle reveals, box by box. */
  ghost predicate Follows(harvest: (nat, Node) -> seq<string>, m: Map) {
    forall t, n :: forall a :: a in harvest(t, n) <==> a in m(n.box)
  }

  /** What stays fixed during a run; `stable` says that `m` is what the harvest oracle reveals. */
  datatype Context = Context(p: Params, w: World, m: Map, seeds: seq<Node>, reg0: Reg, stable: bool)

  /** No box was lost for good: nothing was dropped, or only the deadline dropped something and there is room. */
  ghost predicate NothingLost(c: Context, e: Engine) {
    !e.dropped || (Monotone(c.w) && !FailedWrite(c.p, c.w, e) && |e.discovered| < c.p.maxNodes)
  }

  /** What holds of the state alone between any two steps of a run. */
  ghost predicate Steady(c: Context, e: Engine) {
    && Safe(c.p, c.seeds, c.reg0, e)
    && (Rooted(c.seeds, c.reg0) ==> Rooted(c.seeds, e.reg))
    && DropsExplained(c.p, c.w, e) && LossShows(e)
    && FlagFits(c.p, c.w, c.seeds, e) && Addressed(c.w, e)
    && (c.stable ==> VisitedReachable(c.w, c.m, c.seeds, e))
    && (c.stable && Monotone(c.w) && !FailedWrite(c.p, c.w, e) ==> AtLeastDepth(c.w, c.m, c.seeds, e))
  }

  /** What holds between any two rounds of a run; `queue` are the nodes still to be expanded. */
  ghost predicate Going(c: Context, e: Engine, queue: set<Node>) {
    && Steady(c, e)
    && (c.stable && !e.dropped ==> Breadth(c.p, c.w, c.m, c.seeds, e, queue))
  }

  /** The state inside an expansion of `via`: `rest` is the frontier without `via`. */
  ghost predicate Expanding(c: Context, e: Engine, rest: set<Node>, via: Node, batch: seq<string>, tasks: seq<Task>) {
    && AllSeeds(c.seeds) && Known(c.seeds, e, via) && 0 <= via.depth < c.p.maxDepth
    && (forall n :: n in rest ==> n.depth >= via.depth)
    && TasksFit(c.seeds, e, via, batch, tasks)
    && Steady(c, e)
    && (c.stable && NothingLost(c, e) ==> Breadth(c.p, c.w, c.m, c.seeds, e, rest + {via} + ToSet(Found(tasks))))
    && (c.stable ==> OnlyTasksPending(e, batch, tasks) && forall a :: a in batch ==> a in c.m(via.box))
  }

  /**
   * Steps before a connect leave alone what the state invariant speaks of, but for safety, which has
   * lemmas of its own.
   */
  lemma SteadyUnmoved(c: Context, e: Engine, e': Engine)
    requires Steady(c, e) && Safe(c.p, c.seeds, c.reg0, e')
    requires e' == e.(visitedIps := e'.visitedIps, stats := e'.stats, dialed := e'.dialed, looks := e'.looks,
      truncated := e'.truncated, dropped := e'.dropped)
    requires e.looks <= e'.looks && (e.truncated ==> e'.truncated) && (e'.dropped && !e.dropped ==> e'.truncated)
    requires e'.dropped ==> e.dropped || Late(c.w, e') || |e.discovered| >= c.p.maxNodes
    requires FlagFits(c.p, c.w, c.seeds, e')
    ensures Steady(c, e')
  {
    forall f
      ensures FoundHost(e', f) <==> FoundHost(e, f)
    {
      assert e'.discovered == e.discovered;
    }
    if Late(c.w, e) {
      var t: nat :| t < e.looks && c.w.expired(t);
      assert t < e'.looks;
    }
    assert FailedWrite(c.p, c.w, e') <==> FailedWrite(c.p, c.w, e);
  }

  /** Reserving and dialing do not touch what the breadth-first state speaks of. */
  lemma BreadthUnmoved(c: Context, e: Engine, e': Engine, queue: set<Node>)
    requires Breadth(c.p, c.w, c.m, c.seeds, e, queue)
    requires e' == e.(visitedIps := e'.visitedIps, stats := e'.stats, dialed := e'.dialed, looks := e'.looks,
      truncated := e'.truncated, dropped := e'.dropped)
    requires e.truncated ==> e'.truncated
    ensures Breadth(c.p, c.w, c.m, c.seeds, e', queue)
  {
    forall n: Node | Placed(c.p, c.m, e, queue, n)
      ensures Placed(c.p, c.m, e', queue, n)
    {
    }
    forall i | 0 <= i < |e.discovered|
      ensures HostNode(e', i) == HostNode(e, i)
      ensures Placed(c.p, c.m, e', queue, HostNode(e', i))
    {
      assert Placed(c.p, c.m, e, queue, HostNode(e, i));
    }
  }

  lemma TasksKnownKept(seeds: seq<Node>, e: Engine, e': Engine, nodes: seq<Node>)
    requires Extends(e', e) && forall n :: n in nodes ==> Known(seeds, e, n)
    ensures forall n :: n in nodes ==> Known(seeds, e', n)
  {
    forall n | n in nodes
      ensures Known(seeds, e', n)
    {
      KnownKept(seeds, e, e', n);
    }
  }

  /** Task `i` moves on to `t`; the other tasks still fit. */
  lemma TaskMoves(seeds: seq<Node>, e: Engine, e': Engine, via: Node, batch: seq<string>, tasks: seq<Task>, i: nat,
      t: Task)
    requires TasksFit(seeds, e, via, batch, tasks) && i < |tasks| && !tasks[i].Done? && !t.Waiting?
    requires Extends(e', e) && e.visitedIps <= e'.visitedIps
    requires forall a :: a in e.dialed ==> a in e'.dialed
    requires forall a :: a in e'.dialed && a != batch[i] ==> a in e.dialed
    requires forall a :: a in e'.finished && a != batch[i] ==> a in e.finished
    requires t.Dialing? ==> batch[i] in e'.dialed && batch[i] !in e'.finished
    requires t.Done? && t.found.Some? ==> Known(seeds, e', t.found.value) && t.found.value.depth == via.depth + 1
    ensures TasksFit(seeds, e', via, batch, tasks[i := t])
  {
    TaskUpdate(tasks, i, t);
    TasksKnownKept(seeds, e, e', Found(tasks));
    forall j | 0 <= j < |batch|
      ensures j != i ==> batch[j] != batch[i]
    {
    }
  }

  lemma SteadyStarts(c: Context, e: Engine, addr: string)
    requires Steady(c, e) && !c.w.expired(e.looks) && addr in e.visitedIps && addr !in e.dialed
    ensures Steady(c, StartDial(Look(e), addr))
  {
    var e' := StartDial(Look(e), addr);
    LookIsSafe(c.p, c.seeds, c.reg0, e);
    StartDialIsSafe(c.p, c.seeds, c.reg0, Look(e), addr);
    LateLook(c.w, e, e');
    FlagUnmoved(c.p, c.w, c.seeds, e, e');
    SteadyUnmoved(c, e, e');
  }

  /** A waiting task finds that there is time and starts its dial. */
  lemma ExpandingStart(c: Context, e: Engine, rest: set<Node>, via: Node, batch: seq<string>, tasks: seq<Task>, i: nat)
    requires Expanding(c, e, rest, via, batch, tasks) && i < |tasks| && tasks[i].Waiting?
    requires !c.w.expired(e.looks)
    ensures Expanding(c, StartDial(Look(e), batch[i]), rest, via, batch, tasks[i := Dialing])
  {
    var e', tasks' := StartDial(Look(e), batch[i]), tasks[i := Dialing];
    assert batch[i] !in e.finished;
    TaskMoves(c.seeds, e, e', via, batch, tasks, i, Dialing);
    TaskUpdate(tasks, i, Dialing);
    SteadyStarts(c, e, batch[i]);
    KnownKept(c.seeds, e, e', via);
    assert ToSet(Found(tasks')) == ToSet(Found(tasks));
    if c.stable {
      PendingKept(e, e', batch, tasks, i, Dialing);
      if NothingLost(c, e') {
        BreadthUnmoved(c, e, e', rest + {via} + ToSet(Found(tasks)));
      }
    }
  }

  lemma PendingKept(e: Engine, e': Engine, batch: seq<string>, tasks: seq<Task>, i: nat, t: Task)
    requires |batch| == |tasks| && i < |tasks| && OnlyTasksPending(e, batch, tasks)
    requires e'.visitedIps == e.visitedIps && e.finished <= e'.finished && (e.dropped ==> e'.dropped)
    requires t.Done? && !e'.dropped ==> batch[i] in e'.finished
    ensures OnlyTasksPending(e', batch, tasks[i := t])
  {
    if !e'.dropped {
      forall a | a in e'.visitedIps && a !in e'.finished
        ensures exists j :: 0 <= j < |batch| && batch[j] == a && !tasks[i := t][j].Done?
      {
        var j :| 0 <= j < |batch| && batch[j] == a && !tasks[j].Done?;
        assert batch[j] == a && !tasks[i := t][j].Done?;
      }
    }
  }

  /** A waiting task looks at the clock and gives up, because the deadline has passed or the engine is full. */
  lemma ExpandingGiveUp(c: Context, e: Engine, rest: set<Node>, via: Node, batch: seq<string>, tasks: seq<Task>, i: nat)
    requires Expanding(c, e, rest, via, batch, tasks) && i < |tasks| && tasks[i].Waiting?
    requires c.w.expired(e.looks) || |e.discovered| >= c.p.maxNodes
    ensures Expanding(c, GiveUp(Look(e)), rest, via, batch, tasks[i := Done(None)])
  {
    var e', tasks' := GiveUp(Look(e)), tasks[i := Done(None)];
    TaskMoves(c.seeds, e, e', via, batch, tasks, i, Done(None));
    TaskUpdate(tasks, i, Done(None));
    SteadyGivesUp(c, e);
    KnownKept(c.seeds, e, e', via);
    assert ToSet(Found(tasks')) == ToSet(Found(tasks));
    if c.stable && NothingLost(c, e') {
      assert NothingLost(c, e);
      BreadthUnmoved(c, e, e', rest + {via} + ToSet(Found(tasks)));
    }
  }

  lemma SteadyGivesUp(c: Context, e: Engine)
    requires Steady(c, e)
    requires c.w.expired(e.looks) || |e.discovered| >= c.p.maxNodes
    ensures Steady(c, GiveUp(Look(e)))
  {
    var e' := GiveUp(Look(e));
    assert e.looks < e'.looks;
    LookIsSafe(c.p, c.seeds, c.reg0, e);
    GiveUpIsSafe(c.p, c.seeds, c.reg0, Look(e));
    LateLook(c.w, e, e');
    FlagUnmoved(c.p, c.w, c.seeds, e, e');
    SteadyUnmoved(c, e, e');
  }

  lemma FinishFacts(p: Params, w: World, e: Engine, via: Node, addr: string)
    ensures var f := FinishDial(p, w, e, via, addr);
            && f.engine.visitedIps == e.visitedIps && f.engine.dialed == e.dialed
                 && f.engine.finished == e.finished + {addr}
            && f.engine.looks == e.looks && f.engine.stats.candidates == e.stats.candidates
            && (e.dropped ==> f.engine.dropped) && (e.truncated ==> f.engine.truncated)
            && |f.engine.discovered| == |e.discovered| + (if f.found.Some? then 1 else 0)
            && (f.found.Some? ==> |e.discovered| < p.maxNodes)
  {
    FinishShape(p, w, e, via, addr);
  }

  /** What the step after a connect may drop: a box there is no room for, flagged, or one whose write fails. */
  lemma FinishDrops(p: Params, w: World, e: Engine, via: Node, addr: string)
    ensures var f := FinishDial(p, w, e, via, addr).engine;
            f.dropped && !e.dropped ==>
              (f.truncated && |f.discovered| >= p.maxNodes)
                  || (p.persist && w.connect(addr).Presents? && !w.writeOk(addr) && addr in f.finished)
  {
  }

  lemma FoundIsKnown(p: Params, w: World, seeds: seq<Node>, e: Engine, via: Node, addr: string)
    requires |e.discovered| == |e.openConns|
    requires FinishDial(p, w, e, via, addr).found.Some?
    ensures var f := FinishDial(p, w, e, via, addr);
            Known(seeds, f.engine, f.found.value) && f.found.value.depth == via.depth + 1
  {
    FinishShape(p, w, e, via, addr);
    var f := FinishDial(p, w, e, via, addr);
    var last := |f.engine.discovered| - 1;
    assert f.found.value == HostNode(f.engine, last);
  }

  /** A failed write stays failed, and a step adds one only when it is its own. */
  lemma FailedWriteGrows(p: Params, w: World, e: Engine, e': Engine, addr: string)
    requires e'.finished == e.finished + {addr}
    ensures FailedWrite(p, w, e') <==>
      FailedWrite(p, w, e) || (p.persist && w.connect(addr).Presents? && !w.writeOk(addr))
  {
  }

  lemma FinishExplains(c: Context, e: Engine, via: Node, addr: string)
    requires DropsExplained(c.p, c.w, e)
    ensures DropsExplained(c.p, c.w, FinishDial(c.p, c.w, e, via, addr).engine)
  {
    var f := FinishDial(c.p, c.w, e, via, addr);
    FinishFacts(c.p, c.w, e, via, addr);
    FinishDrops(c.p, c.w, e, via, addr);
    FailedWriteGrows(c.p, c.w, e, f.engine, addr);
    if Late(c.w, e) {
      var t: nat :| t < e.looks && c.w.expired(t);
      assert t < f.engine.looks;
    }
  }

  /** The step after a connect, as seen from the breadth-first state `queue` of a run that lost nothing. */
  lemma SteadyFinish(c: Context, e: Engine, queue: set<Node>, via: Node, addr: string)
    requires AllSeeds(c.seeds) && Steady(c, e) && Finishing(c.p, c.seeds, e, via, addr)
    requires forall n :: n in queue ==> n.depth >= via.depth
    requires c.stable ==> addr in c.m(via.box)
    requires c.stable && NothingLost(c, e) ==> Breadth(c.p, c.w, c.m, c.seeds, e, queue)
    ensures Steady(c, FinishDial(c.p, c.w, e, via, addr).engine)
  {
    var f := FinishDial(c.p, c.w, e, via, addr).engine;
    FinishIsSafe(c.p, c.w, c.seeds, c.reg0, e, via, addr);
    FinishExplains(c, e, via, addr);
    FinishShowsLoss(c.p, c.w, e, via, addr);
    FlagFinish(c.p, c.w, c.seeds, e, via, addr);
    AddressedFinish(c.p, c.w, e, via, addr);
    if Rooted(c.seeds, c.reg0) {
      FinishKeepsRooted(c.p, c.w, c.seeds, c.reg0, e, via, addr);
    }
    if c.stable {
      FinishStaysReachable(c.p, c.w, c.m, c.seeds, e, via, addr);
      if Monotone(c.w) && !FailedWrite(c.p, c.w, f) {
        FinishFacts(c.p, c.w, e, via, addr);
        FailedWriteGrows(c.p, c.w, e, f, addr);
        FinishKeepsDepths(c.p, c.w, c.m, c.seeds, e, queue, via, addr);
      }
    }
  }

  lemma BreadthFinish(c: Context, e: Engine, queue: set<Node>, via: Node, addr: string)
    requires AllSeeds(c.seeds) && Steady(c, e) && Finishing(c.p, c.seeds, e, via, addr)
    requires forall n :: n in queue ==> n.depth >= via.depth
    requires c.stable && addr in c.m(via.box) && NothingLost(c, FinishDial(c.p, c.w, e, via, addr).engine)
    requires NothingLost(c, e) ==> Breadth(c.p, c.w, c.m, c.seeds, e, queue)
    ensures var f := FinishDial(c.p, c.w, e, via, addr);
            Breadth(c.p, c.w, c.m, c.seeds, f.engine, queue + (if f.found.Some? then {f.found.value} else {}))
  {
    var f := FinishDial(c.p, c.w, e, via, addr);
    FinishFacts(c.p, c.w, e, via, addr);
    FailedWriteGrows(c.p, c.w, e, f.engine, addr);
    assert NothingLost(c, e) && LosesNoBox(c.p, c.w, e, via, addr);
    FinishKeepsBreadth(c.p, c.w, c.m, c.seeds, e, queue, via, addr);
  }

  lemma TasksFinish(c: Context, e: Engine, via: Node, batch: seq<string>, tasks: seq<Task>, i: nat)
    requires TasksFit(c.seeds, e, via, batch, tasks) && i < |tasks| && tasks[i].Dialing?
    requires Known(c.seeds, e, via) && |e.discovered| == |e.openConns|
    ensures var f := FinishDial(c.p, c.w, e, via, batch[i]);
            && TasksFit(c.seeds, f.engine, via, batch, tasks[i := Done(f.found)])
            && Known(c.seeds, f.engine, via)
            && (OnlyTasksPending(e, batch, tasks) ==> OnlyTasksPending(f.engine, batch, tasks[i := Done(f.found)]))
  {
    var f := FinishDial(c.p, c.w, e, via, batch[i]);
    FinishFacts(c.p, c.w, e, via, batch[i]);
    FinishExtends(c.p, c.w, e, via, batch[i]);
    KnownKept(c.seeds, e, f.engine, via);
    if f.found.Some? {
      FoundIsKnown(c.p, c.w, c.seeds, e, via, batch[i]);
    }
    TaskMoves(c.seeds, e, f.engine, via, batch, tasks, i, Done(f.found));
    if OnlyTasksPending(e, batch, tasks) {
      PendingKept(e, f.engine, batch, tasks, i, Done(f.found));
    }
  }

  lemma QueueAfter(rest: set<Node>, via: Node, tasks: seq<Task>, i: nat, found: Option<Node>)
    requires i < |tasks| && !tasks[i].Done?
    ensures rest + {via} + ToSet(Found(tasks[i := Done(found)]))
         == rest + {via} + ToSet(Found(tasks)) + (if found.Some? then {found.value} else {})
  {
    TaskUpdate(tasks, i, Done(found));
  }

  /** A dialing task takes the step after its connect. */
  lemma ExpandingFinish(c: Context, e: Engine, rest: set<Node>, via: Node, batch: seq<string>, tasks: seq<Task>, i: nat,
      f: Finish)
    requires Expanding(c, e, rest, via, batch, tasks) && i < |tasks| && tasks[i].Dialing?
    requires f == FinishDial(c.p, c.w, e, via, batch[i])
    ensures Expanding(c, f.engine, rest, via, batch, tasks[i := Done(f.found)])
  {
    var queue := rest + {via} + ToSet(Found(tasks));
    TasksFinish(c, e, via, batch, tasks, i);
    SteadyFinish(c, e, queue, via, batch[i]);
    QueueAfter(rest, via, tasks, i, f.found);
    if c.stable && NothingLost(c, f.engine) {
      BreadthFinish(c, e, queue, via, batch[i]);
    }
  }

  lemma GoingReserve(c: Context, e: Engine, queue: set<Node>, addr: string)
    requires Going(c, e, queue) && addr !in e.visitedIps
    ensures Going(c, Reserve(e, addr), queue)
  {
    ReserveIsSafe(c.p, c.seeds, c.reg0, e, addr);
    FlagUnmoved(c.p, c.w, c.seeds, e, Reserve(e, addr));
    SteadyUnmoved(c, e, Reserve(e, addr));
    if c.stable && !e.dropped {
      BreadthUnmoved(c, e, Reserve(e, addr), queue);
    }
  }

  function ReserveAll(e: Engine, batch: seq<string>): Engine {
    if batch == [] then e else Reserve(ReserveAll(e, batch[..|batch| - 1]), batch[|batch| - 1])
  }

  lemma {:induction false} ReservedAddresses(e: Engine, batch: seq<string>)
    ensures var e' := ReserveAll(e, batch);
            && (forall a :: a in e'.visitedIps <==> a in e.visitedIps || a in batch)
            && e' == e.(visitedIps := e'.visitedIps, stats := e'.stats)
            && e'.stats.candidates == e.stats.candidates + |batch|
  {
    if batch != [] {
      ReservedAddresses(e, batch[..|batch| - 1]);
    }
  }

  lemma {:induction false} GoingReserveAll(c: Context, e: Engine, queue: set<Node>, batch: seq<string>)
    requires Going(c, e, queue)
    requires NoRepeats(batch) && forall a :: a in batch ==> a !in e.visitedIps
    ensures Going(c, ReserveAll(e, batch), queue)
  {
    if batch != [] {
      var front := batch[..|batch| - 1];
      GoingReserveAll(c, e, queue, front);
      ReservedAddresses(e, front);
      GoingReserve(c, ReserveAll(e, front), queue, batch[|batch| - 1]);
    }
  }

  lemma KnownUnmoved(seeds: seq<Node>, e: Engine, e': Engine, n: Node)
    requires Known(seeds, e, n) && e'.discovered == e.discovered && e'.openConns == e.openConns
    ensures Known(seeds, e', n)
  {
    if n !in seeds {
      var i :| 0 <= i < |e.discovered| && i < |e.openConns| && n == HostNode(e, i);
      assert n == HostNode(e', i);
    }
  }

  /** All tasks of a batch of freshly reserved addresses are waiting. */
  lemma ExpandingBegins(c: Context, e: Engine, rest: set<Node>, via: Node, batch: seq<string>, visited0: set<string>)
    requires AllSeeds(c.seeds) && Known(c.seeds, e, via) && 0 <= via.depth < c.p.maxDepth
    requires forall n :: n in rest ==> n.depth >= via.depth
    requires Going(c, e, rest + {via}) && (e.dropped ==> !NothingLost(c, e))
    requires NoRepeats(batch) && forall a :: a in e.visitedIps <==> a in visited0 || a in batch
    requires forall a :: a in batch ==> a !in e.dialed
    requires c.stable ==> (forall a :: a in batch ==> a in c.m(via.box)) && (!e.dropped ==> visited0 <= e.finished)
    ensures Expanding(c, e, rest, via, batch, seq(|batch|, _ => Waiting))
    ensures Running(seq(|batch|, _ => Waiting)) == 0 && Found(seq(|batch|, _ => Waiting)) == []
  {
    var tasks := seq(|batch|, _ => Waiting);
    AllWaiting(|batch|);
    BatchWaits(c.seeds, e, via, batch, tasks);
    assert ToSet(Found(tasks)) == {} && rest + {via} + {} == rest + {via};
    if c.stable {
      BatchIsPending(e, batch, tasks, visited0);
    }
  }

  /** The same, from the state before the reservation. */
  lemma BatchBegins(c: Context, e: Engine, rest: set<Node>, via: Node, batch: seq<string>)
    requires AllSeeds(c.seeds) && Known(c.seeds, e, via) && 0 <= via.depth < c.p.maxDepth
    requires forall n :: n in rest ==> n.depth >= via.depth
    requires Going(c, e, rest + {via}) && (e.dropped ==> !NothingLost(c, e))
    requires NoRepeats(batch) && forall a :: a in batch ==> a !in e.visitedIps
    requires c.stable ==> (forall a :: a in batch ==> a in c.m(via.box)) && (!e.dropped ==> e.visitedIps <= e.finished)
    ensures Expanding(c, ReserveAll(e, batch), rest, via, batch, seq(|batch|, _ => Waiting))
    ensures Running(seq(|batch|, _ => Waiting)) == 0 && Found(seq(|batch|, _ => Waiting)) == []
  {
    GoingReserveAll(c, e, rest + {via}, batch);
    ReservedAddresses(e, batch);
    KnownUnmoved(c.seeds, e, ReserveAll(e, batch), via);
    ExpandingBegins(c, ReserveAll(e, batch), rest, via, batch, e.visitedIps);
  }

  /** A fresh batch before any of its tasks has moved. */
  lemma BatchWaits(seeds: seq<Node>, e: Engine, via: Node, batch: seq<string>, tasks: seq<Task>)
    requires |tasks| == |batch| && Found(tasks) == [] && forall i :: 0 <= i < |tasks| ==> tasks[i].Waiting?
    requires NoRepeats(batch) && forall a :: a in batch ==> a in e.visitedIps && a !in e.dialed
    ensures TasksFit(seeds, e, via, batch, tasks)
  {
  }

  lemma BatchIsPending(e: Engine, batch: seq<string>, tasks: seq<Task>, visited0: set<string>)
    requires |tasks| == |batch| && forall i :: 0 <= i < |tasks| ==> tasks[i].Waiting?
    requires forall a :: a in e.visitedIps ==> a in visited0 || a in batch
    requires !e.dropped ==> visited0 <= e.finished
    ensures OnlyTasksPending(e, batch, tasks)
  {
    if !e.dropped {
      forall a | a in e.visitedIps && a !in e.finished
        ensures exists i :: 0 <= i < |batch| && batch[i] == a && !tasks[i].Done?
      {
        var i :| 0 <= i < |batch| && batch[i] == a;
        assert !tasks[i].Done?;
      }
    }
  }

  /** When every task is done, `via` is expanded and leaves the queue. */
  lemma ExpandingEnds(c: Context, e: Engine, rest: set<Node>, via: Node, batch: seq<string>, tasks: seq<Task>)
    requires Expanding(c, e, rest, via, batch, tasks) && Work(tasks) == 0
    requires c.stable ==> forall a :: a in c.m(via.box) ==> a in e.visitedIps
    ensures Going(c, e, rest + ToSet(Found(tasks))) && Unstarted(tasks) == 0
    ensures c.stable && !e.dropped ==> e.visitedIps <= e.finished
  {
    NoWorkMeansDone(tasks);
    if c.stable && !e.dropped {
      var queue, queue' := rest + {via} + ToSet(Found(tasks)), rest + ToSet(Found(tasks));
      assert Expanded(c.m, e, via.box);
      BreadthWithout(c, e, queue, queue', via);
    }
  }

  /** A node that is expanded, or past the depth bound of a truncated run, may leave the queue. */
  lemma BreadthWithout(c: Context, e: Engine, queue: set<Node>, queue': set<Node>, n: Node)
    requires Breadth(c.p, c.w, c.m, c.seeds, e, queue)
    requires queue <= queue' + {n} && Placed(c.p, c.m, e, {}, n)
    ensures Breadth(c.p, c.w, c.m, c.seeds, e, queue')
  {
    forall i | 0 <= i < |e.discovered|
      ensures Placed(c.p, c.m, e, queue', HostNode(e, i))
    {
      assert Placed(c.p, c.m, e, queue, HostNode(e, i));
    }
    forall s | s in c.seeds
      ensures Placed(c.p, c.m, e, queue', s)
    {
      assert Placed(c.p, c.m, e, queue, s);
    }
  }

  /** Skipping a node at the depth bound: the run is truncated, nothing else changes. */
  lemma GoingSkip(c: Context, e: Engine, queue: set<Node>, queue': set<Node>, n: Node)
    requires Going(c, e, queue) && queue <= queue' + {n} && n.depth >= c.p.maxDepth
    requires Deep(c.p, c.seeds, e)
    ensures Going(c, e.(truncated := true), queue')
  {
    var e' := e.(truncated := true);
    forall i | 0 <= i < |e.discovered|
      ensures HasOrigin(c.seeds, e', i)
    {
      OriginKept(c.seeds, e, e', i);
    }
    FlagUnmoved(c.p, c.w, c.seeds, e, e');
    SteadyUnmoved(c, e, e');
    if c.stable && !e.dropped {
      BreadthUnmoved(c, e, e', queue);
      BreadthWithout(c, e', queue, queue', n);
    }
  }

  lemma GoingStarts(c: Context)
    ensures Going(c, Start(c.reg0), ToSet(c.seeds))
  {
    StartIsSafe(c.p, c.seeds, c.reg0);
  }

  /** A look at the clock that finds there is time. */
  lemma GoingLooks(c: Context, e: Engine, queue: set<Node>)
    requires Going(c, e, queue) && !c.w.expired(e.looks)
    ensures Going(c, Look(e), queue)
  {
    LookIsSafe(c.p, c.seeds, c.reg0, e);
    LateLook(c.w, e, Look(e));
    FlagUnmoved(c.p, c.w, c.seeds, e, Look(e));
    SteadyUnmoved(c, e, Look(e));
    if c.stable && !e.dropped {
      BreadthUnmoved(c, e, Look(e), queue);
    }
  }

  /** When the clock has just said there is time and there is room, whatever was dropped lost a box for good. */
  lemma RoomAndTime(c: Context, e: Engine)
    requires DropsExplained(c.p, c.w, e) && !c.w.expired(e.looks) && |e.discovered| < c.p.maxNodes
    ensures Look(e).dropped ==> !NothingLost(c, Look(e))
  {
    if e.dropped && Late(c.w, e) {
      var t: nat :| t < e.looks && c.w.expired(t);
      assert Monotone(c.w) ==> c.w.expired(e.looks);
    }
    assert FailedWrite(c.p, c.w, Look(e)) <==> FailedWrite(c.p, c.w, e);
  }

  /** Every host sits at its least distance, and the hosts are the boxes within the depth bound. */
  ghost predicate ExactToDepth(c: Context, e: Engine) {
    && (forall i :: 0 <= i < |e.discovered| ==>
         AtDepth(c.w, c.m, c.seeds, e.discovered[i].fingerprint, e.discovered[i].depth))
    && (forall f :: FoundHost(e, f) <==> Near(c.w, c.m, c.seeds, f, Max(0, c.p.maxDepth)))
  }

  /** With the frontier used up and nothing dropped, the run found what its depth bound allows. */
  lemma DoneIsExact(c: Context, e: Engine)
    requires AllSeeds(c.seeds) && Going(c, e, {}) && c.stable && !e.dropped
    ensures ExactToDepth(c, e)
  {
    forall f
      ensures FoundHost(e, f) <==> Near(c.w, c.m, c.seeds, f, Max(0, c.p.maxDepth))
    {
      if i :| 0 <= i < |e.discovered| && e.discovered[i].fingerprint == f {
        assert AtDepth(c.w, c.m, c.seeds, f, e.discovered[i].depth);
        NearGrows(c.w, c.m, c.seeds, f, e.discovered[i].depth, c.p.maxDepth);
      }
      if Near(c.w, c.m, c.seeds, f, Max(0, c.p.maxDepth)) {
        FoundUpTo(c.p, c.w, c.m, c.seeds, e, {}, c.p.maxDepth, f, Max(0, c.p.maxDepth));
      }
    }
  }

  /** A run that dropped nothing and was not truncated found exactly the reachable boxes. */
  lemma DoneIsComplete(c: Context, e: Engine)
    requires AllSeeds(c.seeds) && Going(c, e, {}) && c.stable && !e.truncated && !e.dropped
    ensures Complete(c, e)
  {
    forall f
      ensures FoundHost(e, f) <==> Reachable(c.w, c.m, c.seeds, f)
    {
      if i :| 0 <= i < |e.discovered| && e.discovered[i].fingerprint == f {
        assert AtDepth(c.w, c.m, c.seeds, f, e.discovered[i].depth);
      }
      if n: nat :| Near(c.w, c.m, c.seeds, f, n) {
        FoundUpTo(c.p, c.w, c.m, c.seeds, e, {}, n, f, n);
      }
    }
  }

  /** The hosts are exactly the boxes within reach of the seeds. */
  ghost predicate Complete(c: Context, e: Engine) {
    forall f :: FoundHost(e, f) <==> Reachable(c.w, c.m, c.seeds, f)
  }

  /** Host `i` takes the address, or the search goes on after it. */
  lemma RecordAddrStep(hosts: seq<Host>, fp: string, addr: string, i: nat)
    requires i < |hosts|
    ensures var h := hosts[i];
            hosts[..i] + RecordAddr(hosts[i..], fp, addr) ==
              if h.fingerprint == fp && addr !in h.addrs then hosts[i := h.(addrs := h.addrs + [addr])]
              else hosts[..i + 1] + RecordAddr(hosts[i + 1..], fp, addr)
  {
    assert hosts[i..][1..] == hosts[i + 1..];
  }

  /** What holds at the head of the main loop. */
  ghost predicate Queued(c: Context, e: Engine, frontier: seq<Node>) {
    && Going(c, e, ToSet(frontier))
    && TwoLevels(frontier)
    && (forall n :: n in frontier ==> Known(c.seeds, e, n) && n.depth >= 0)
    && Owes(c.p, c.seeds, e, frontier)
    && (c.stable && !e.dropped ==> e.visitedIps <= e.finished)
  }

  lemma QueuedStarts(c: Context)
    requires AllSeeds(c.seeds)
    ensures Queued(c, Start(c.reg0), c.seeds)
  {
    GoingStarts(c);
  }

  lemma QueuedStops(c: Context, e: Engine, frontier: seq<Node>)
    requires Queued(c, e, frontier) && frontier != []
    requires c.w.expired(e.looks) || |e.discovered| >= c.p.maxNodes
    ensures Queued(c, GiveUp(Look(e)), frontier)
  {
    SteadyGivesUp(c, e);
    forall n | n in frontier
      ensures Known(c.seeds, GiveUp(Look(e)), n)
    {
      KnownUnmoved(c.seeds, e, GiveUp(Look(e)), n);
    }
  }

  lemma QueuedLooks(c: Context, e: Engine, frontier: seq<Node>)
    requires Queued(c, e, frontier) && !c.w.expired(e.looks)
    ensures Queued(c, Look(e), frontier)
  {
    OwesUnmoved(c.p, c.seeds, e, Look(e), frontier);
    GoingLooks(c, e, ToSet(frontier));
    forall n | n in frontier
      ensures Known(c.seeds, Look(e), n)
    {
      KnownUnmoved(c.seeds, e, Look(e), n);
    }
  }

  lemma QueuedIsBounded(c: Context, e: Engine, frontier: seq<Node>)
    requires Queued(c, e, frontier)
    ensures |e.discovered| <= Max(0, c.p.maxNodes)
  {
  }

  /** Popping the first item: what expanding it needs, and what skipping it leaves. */
  lemma FirstAndRest(frontier: seq<Node>)
    requires TwoLevels(frontier) && frontier != []
    ensures ToSet(frontier) == ToSet(frontier[1..]) + {frontier[0]}
    ensures forall n :: n in ToSet(frontier[1..]) ==> n in frontier && n.depth >= frontier[0].depth
  {
    var item, rest := frontier[0], frontier[1..];
    assert frontier == [item] + rest;
    forall n | n in rest
      ensures n.depth >= item.depth
    {
      var i :| 0 <= i < |rest| && rest[i] == n;
      assert frontier[i + 1] == n;
    }
  }

  lemma QueuedPops(c: Context, e: Engine, frontier: seq<Node>)
    requires Queued(c, e, frontier) && frontier != []
    ensures Going(c, e, ToSet(frontier[1..]) + {frontier[0]})
    ensures forall n :: n in ToSet(frontier[1..]) ==> n.depth >= frontier[0].depth
    ensures Known(c.seeds, e, frontier[0]) && frontier[0].depth >= 0
    ensures frontier[0].depth >= c.p.maxDepth ==> Queued(c, e.(truncated := true), frontier[1..])
  {
    var item, rest := frontier[0], frontier[1..];
    FirstAndRest(frontier);
    TwoLevelsTail(frontier, []);
    assert rest + [] == rest;
    if item.depth >= c.p.maxDepth {
      KnownIsDeep(c.p, c.seeds, e, item);
      GoingSkip(c, e, ToSet(frontier), ToSet(rest), item);
      forall n | n in rest
        ensures Known(c.seeds, e.(truncated := true), n)
      {
        KnownUnmoved(c.seeds, e, e.(truncated := true), n);
      }
    }
  }

  /** The popped item's children, one level down, join the end of a sorted frontier. */
  lemma TwoLevelsTail(frontier: seq<Node>, newItems: seq<Node>)
    requires TwoLevels(frontier) && frontier != []
    requires forall n :: n in newItems ==> n.depth == frontier[0].depth + 1
    ensures TwoLevels(frontier[1..] + newItems)
  {
    var next := frontier[1..] + newItems;
    var k := frontier[0].depth;
    forall i | 0 <= i < |next|
      ensures k <= next[i].depth <= k + 1
      ensures i >= |frontier| - 1 ==> next[i].depth == k + 1
    {
      if i < |frontier| - 1 {
        assert next[i] == frontier[i + 1];
      } else {
        assert next[i] == newItems[i - (|frontier| - 1)];
      }
    }
    forall i, j | 0 <= i <= j < |next|
      ensures next[i].depth <= next[j].depth <= next[0].depth + 1
    {
      if j < |frontier| - 1 {
        assert next[i] == frontier[i + 1] && next[j] == frontier[j + 1];
      }
    }
  }

  lemma QueuedGrows(c: Context, e: Engine, e': Engine, frontier: seq<Node>, newItems: seq<Node>)
    requires Queued(c, e, frontier) && frontier != [] && Extends(e', e)
    requires Going(c, e', ToSet(frontier[1..]) + ToSet(newItems))
    requires forall n :: n in newItems ==> Known(c.seeds, e', n) && n.depth == frontier[0].depth + 1
    requires c.stable && !e'.dropped ==> e'.visitedIps <= e'.finished
    requires |e.discovered| < c.p.maxNodes && frontier[0].depth < c.p.maxDepth
    requires Progress(e', e, frontier[0].depth + 1) && |newItems| == |e'.discovered| - |e.discovered|
    ensures Queued(c, e', frontier[1..] + newItems)
  {
    OwesGrows(c.p, c.seeds, e, e', frontier, newItems);
    TwoLevelsTail(frontier, newItems);
    TasksKnownKept(c.seeds, e, e', frontier[1..]);
    assert ToSet(frontier[1..] + newItems) == ToSet(frontier[1..]) + ToSet(newItems);
    assert forall n :: n in frontier[1..] ==> n in frontier;
  }

  /**
   * What a finished run guarantees. Always: the safety invariants, acyclicity carried over, a
   * reason for whatever was dropped, the truncated flag exactly for its causes, and for each host exactly
   * the addresses its box answered at. With stable oracles: only reachable boxes; each at its least
   * depth while time does not run backwards and no write fails; exactly the boxes within the depth
   * bound when nothing was dropped; and, without the truncated flag, all reachable boxes exactly
   * when nothing was dropped.
   */
  ghost predicate RunResult(c: Context, e: Engine) {
    && Safe(c.p, c.seeds, c.reg0, e)
    && (Rooted(c.seeds, c.reg0) ==> Rooted(c.seeds, e.reg))
    && DropsExplained(c.p, c.w, e)
    && FlagExact(c.p, c.w, c.seeds, e) && Addressed(c.w, e)
    && (c.stable ==> forall f :: FoundHost(e, f) ==> Reachable(c.w, c.m, c.seeds, f))
    && (c.stable && Monotone(c.w) && !FailedWrite(c.p, c.w, e) ==> AtLeastDepth(c.w, c.m, c.seeds, e))
    && (c.stable && !e.dropped ==> ExactToDepth(c, e))
    && (c.stable && !e.truncated ==> (Complete(c, e) <==> !e.dropped))
  }

  lemma RunResults(c: Context, e: Engine, frontier: seq<Node>)
    requires AllSeeds(c.seeds) && Queued(c, e, frontier) && (frontier == [] || (e.dropped && e.truncated))
    ensures RunResult(c, e)
  {
    FlagIsExact(c.p, c.w, c.seeds, e, frontier);
    forall f | FoundHost(e, f)
      ensures f in e.visitedFps
    {
      var i :| 0 <= i < |e.discovered| && e.discovered[i].fingerprint == f;
    }
    if c.stable && !e.dropped {
      assert ToSet(frontier) == {};
      DoneIsExact(c, e);
      if !e.truncated {
        DoneIsComplete(c, e);
      }
    }
    if c.stable && e.dropped && !e.truncated {
      var f :| f in e.visitedFps && !FoundHost(e, f);
      assert Reachable(c.w, c.m, c.seeds, f);
    }
  }

  /**
   * The exact result from what a caller can see: the deadline was not met, room was left, and every
   * write for a box that answered succeeded. Reaching the depth bound is allowed.
   */
  lemma UndisturbedRunIsExact(c: Context, e: Engine)
    requires RunResult(c, e) && c.stable
    requires !Late(c.w, e) && |e.discovered| < c.p.maxNodes && !FailedWrite(c.p, c.w, e)
    ensures ExactToDepth(c, e)
    ensures !e.truncated ==> Complete(c, e)
  {
  }

  /**
   * When the clock never runs out, there is room left, and everything stands above the depth bound, the
   * flag is down. An empty list of seeds leaves it down whatever the settings.
   */
  lemma QuietRunIsNotTruncated(c: Context, e: Engine)
    requires RunResult(c, e) && forall t :: !c.w.expired(t)
    requires c.seeds == [] || |e.discovered| < c.p.maxNodes
    requires forall s :: s in c.seeds ==> s.depth < c.p.maxDepth
    requires forall i :: 0 <= i < |e.discovered| ==> e.discovered[i].depth < c.p.maxDepth
    ensures !e.truncated
  {
  }

  /**
   * One address, one box, a disk that refuses the write: the run ends without a host and without the
   * truncated flag.
   */
  lemma LostBoxExample(p: Params, w: World, reg: Reg, via: Node, fp: string)
    requires p.persist && p.maxNodes > 0 && w.connect("10.0.0.1") == Presents(fp) && !w.writeOk("10.0.0.1")
    ensures var e := FinishDial(p, w, StartDial(Look(Reserve(Start(reg), "10.0.0.1")), "10.0.0.1"), via,
      "10.0.0.1").engine;
            && e.discovered == [] && fp in e.visitedFps && e.finished == {"10.0.0.1"}
            && e.reg == reg && !e.truncated && e.dropped
  {
  }

  /** The state after the closing sweep. */
  function Swept(e: Engine): Engine {
    e.(closed := e.closed + e.openConns, openConns := [])
  }

  /** What turns of the tasks do: hosts join, each by one find one level below `via`, and each start looks once. */
  ghost predicate Turned(e': Engine, e: Engine, via: Node, tasks': seq<Task>, tasks: seq<Task>) {
    && e'.visitedIps == e.visitedIps && Extends(e', e) && Progress(e', e, via.depth + 1)
    && |Found(tasks')| - |Found(tasks)| == |e'.discovered| - |e.discovered|
    && e'.looks + Unstarted(tasks') == e.looks + Unstarted(tasks) && e'.stats.candidates == e.stats.candidates
  }

  lemma TurnedTrans(e2: Engine, e1: Engine, e0: Engine, via: Node, tasks2: seq<Task>, tasks1: seq<Task>,
      tasks0: seq<Task>)
    requires Turned(e2, e1, via, tasks2, tasks1) && Turned(e1, e0, via, tasks1, tasks0)
    ensures Turned(e2, e0, via, tasks2, tasks0)
  {
  }

  /** When no task has anything left to do. */
  lemma TasksEnd(c: Context, e: Engine, before: Engine, rest: set<Node>, via: Node, batch: seq<string>,
      tasks: seq<Task>)
    requires Expanding(c, e, rest, via, batch, tasks) && forall i :: 0 <= i < |tasks| ==> tasks[i].Done?
    requires Turned(e, before, via, tasks, seq(|batch|, _ => Waiting))
    requires c.stable ==> forall a :: a in c.m(via.box) ==> a in e.visitedIps
    ensures Going(c, e, rest + ToSet(Found(tasks)))
    ensures forall n :: n in Found(tasks) ==> Known(c.seeds, e, n) && n.depth == via.depth + 1
    ensures |Found(tasks)| == |e.discovered| - |before.discovered| && e.looks == before.looks + |batch|
    ensures c.stable && !e.dropped ==> e.visitedIps <= e.finished
  {
    NoWorkMeansDone(tasks);
    AllWaiting(|batch|);
    ExpandingEnds(c, e, rest, via, batch, tasks);
  }

  class DiscoveryEngine {
    const p: Params
    const world: World
    const registry: Registry
    var visitedIps: set<string>
    var visitedFps: set<string>
    var discovered: seq<Host>
    var graph: map<string, seq<string>>
    var openConns: seq<Conn>
    var truncated: bool
    var stats: Stats
    var nextConn: nat
    ghost var closed: seq<Conn>
    ghost var dialed: seq<string>
    ghost var finished: set<string>
    ghost var configs: seq<ServerConfig>
    var looks: nat
    ghost var dropped: bool

    ghost function State(): Engine
      reads this, registry
    {
      Engine(registry.State(), visitedIps, visitedFps, discovered, graph, openConns, truncated, stats,
        nextConn, closed, dialed, finished, configs, looks, dropped)
    }

    constructor (p: Params, world: World, registry: Registry)
      ensures this.p == p && this.world == world && this.registry == registry
      ensures State() == Start(registry.State())
    {
      this.p, this.world, this.registry := p, world, registry;
      visitedIps, visitedFps, discovered, graph, openConns := {}, {}, [], map[], [];
      truncated, stats, nextConn := false, Stats(0, 0, 0), 0;
      closed, dialed, finished, configs, looks, dropped := [], [], {}, [], 0, false;
    }

    /** The name-suffix loop of _register. */
    method PickName(fp: string) returns (name: string)
      ensures name == FreshName(registry.State(), p, fp)
    {
      var base := BaseName(p, fp);
      ghost var reg := registry.State();
      name := base;
      var suffix := 1;
      var taken := registry.Get(name);
      while taken.Ok?
        invariant suffix >= 1 && name == Candidate(base, suffix - 1)
        invariant taken.Ok? <==> Taken(reg, name)
        invariant FreshIndex(reg, base, 0) == FreshIndex(reg, base, suffix - 1)
        decreases |Names(reg) - Tried(base, suffix - 1)|
      {
        TriedGrows(reg, base, suffix - 1);
        name := base + "-" + Text.Numeral(suffix);
        suffix := suffix + 1;
        taken := registry.Get(name);
      }
    }

    method RecordExtraAddr(fp: string, addr: string)
      modifies this`discovered
      ensures discovered == RecordAddr(old(discovered), fp, addr)
    {
      ghost var hosts := discovered;
      assert hosts[..0] + RecordAddr(hosts[0..], fp, addr)
          == RecordAddr(hosts, fp, addr) by { assert hosts[0..] == hosts; }
      for i := 0 to |discovered|
        invariant discovered == hosts
        invariant RecordAddr(hosts, fp, addr) == hosts[..i] + RecordAddr(hosts[i..], fp, addr)
      {
        RecordAddrStep(hosts, fp, addr, i);
        var host := discovered[i];
        if host.fingerprint == fp && addr !in host.addrs {
          discovered := discovered[i := host.(addrs := host.addrs + [addr])];
          return;
        }
      }
      assert hosts[..|hosts|] == hosts;
    }

    /** Picks the name and registers the config; false when the registry refuses or the write fails. */
    method RegisterHost(name: string, cfg: ServerConfig, addr: string) returns (error: Option<RegistryError>)
      requires cfg.name == name
      modifies registry
      ensures Effect(registry.State(), error) == Added(old(registry.State()), cfg, p.persist, world.writeOk(addr))
    {
      ghost var before := registry.State();
      if p.persist {
        error := registry.Add(cfg, world.writeOk(addr));
      } else {
        error := registry.AddEphemeral(cfg);
        assert Effect(registry.State(), error) == Added(before, cfg, false, world.writeOk(addr));
      }
    }

    /** Registration and the bookkeeping of a new host. */
    method AdmitHost(via: Node, addr: string, fp: string, conn: Conn) returns (found: Option<Node>)
      modifies this, registry
      ensures Finish(State(), found) == Admit(p, world, old(State()), via, addr, fp, conn)
    {
      var name := PickName(fp);
      var cfg := HostConfig(p, name, fp, addr, via, world.user(via, addr));
      var error := RegisterHost(name, cfg, addr);
      if error.Some? {
        closed, dropped := closed + [conn], true;
        return None;
      }
      RecordHost(cfg, Host(name, fp, [addr], via.name, via.depth + 1, p.keyPath.Some?), conn);
      return Some(Node(name, Some(fp), Some(conn), via.depth + 1, false));
    }

    /** A registered host enters the lists and the graph, and its connection is kept. */
    method RecordHost(cfg: ServerConfig, host: Host, conn: Conn)
      modifies this
      ensures State() == Recorded(old(State()), cfg, host, conn)
    {
      configs := configs + [cfg];
      discovered := discovered + [host];
      openConns := openConns + [conn];
      graph := AppendTo(graph, host.via, host.name);
    }

    /** The two-level dedup on the fingerprint, with no await between check and add. */
    method MeetPresented(via: Node, addr: string, fp: string, conn: Conn) returns (found: Option<Node>)
      modifies this, registry
      ensures Finish(State(), found) == MeetBox(p, world, old(State()), via, addr, fp, conn)
    {
      if fp in visitedFps {
        RecordExtraAddr(fp, addr);
        closed := closed + [conn];
        return None;
      }
      visitedFps := visitedFps + {fp};
      if |discovered| >= p.maxNodes {
        truncated, dropped := true, true;
        closed := closed + [conn];
        return None;
      }
      found := AdmitHost(via, addr, fp, conn);
    }

    /** A connection came back: it gets a number and is counted. */
    method CountConnection(addr: string) returns (conn: Conn)
      modifies this`finished, this`stats, this`nextConn
      ensures State() == Connected(old(State()), addr) && conn == Dialed(old(nextConn))
    {
      finished := finished + {addr};
      stats := stats.(connectsOk := stats.connectsOk + 1);
      conn := Dialed(nextConn);
      nextConn := nextConn + 1;
    }

    /** The part of a task after its connect returned. */
    method CompleteDial(via: Node, addr: string) returns (found: Option<Node>)
      modifies this, registry
      ensures Finish(State(), found) == FinishDial(p, world, old(State()), via, addr)
    {
      var outcome := world.connect(addr);
      if outcome.Unreachable? {
        finished := finished + {addr};
        return None;
      }
      var conn := CountConnection(addr);
      if outcome.Keyless? {
        closed := closed + [conn];
        return None;
      }
      found := MeetPresented(via, addr, outcome.fingerprint, conn);
    }

    /** The part of a task before its connect; false when it gives up. */
    method BeginDial(addr: string) returns (go: bool)
      modifies this
      ensures go <==> !world.expired(old(looks)) && |old(discovered)| < p.maxNodes
      ensures State() == if go then StartDial(Look(old(State())), addr) else GiveUp(Look(old(State())))
    {
      var expired := world.expired(looks);
      looks := looks + 1;
      if expired || |discovered| >= p.maxNodes {
        truncated, dropped := true, true;
        return false;
      }
      stats := stats.(probes := stats.probes + 1);
      dialed := dialed + [addr];
      return true;
    }

    /**
     * _expand: reserves the fresh candidates without a pause, then lets one task per address run.
     * The scheduler is arbitrary: at every turn any task may move that waits on its connect, or
     * on the semaphore while a permit is free.
     */
    method Expand(via: Node, candidates: seq<string>, ghost c: Context, ghost rest: set<Node>)
        returns (newItems: seq<Node>)
      requires c.p == p && c.w == world
      requires AllSeeds(c.seeds) && Known(c.seeds, State(), via) && 0 <= via.depth < p.maxDepth
      requires forall n :: n in rest ==> n.depth >= via.depth
      requires Going(c, State(), rest + {via}) && (dropped ==> !NothingLost(c, State()))
      requires c.stable ==>
        (forall a :: a in candidates <==> a in c.m(via.box)) && (!dropped ==> visitedIps <= finished)
      modifies this, registry
      ensures Going(c, State(), rest + ToSet(newItems))
      ensures forall n :: n in newItems ==> Known(c.seeds, State(), n) && n.depth == via.depth + 1
      ensures Extends(State(), old(State())) && Progress(State(), old(State()), via.depth + 1)
      ensures |newItems| == |discovered| - |old(discovered)|
      ensures looks - old(looks) == stats.candidates - old(stats.candidates)
      ensures c.stable && !dropped ==> visitedIps <= finished
    {
      ghost var before := State();
      var batch := ReserveFresh(candidates);
      ReservedAddresses(before, batch);
      BatchBegins(c, before, rest, via, batch);
      ghost var reserved := State();
      newItems := RunTasks(via, batch, c, rest);
      ExtendsTrans(State(), reserved, before);
      ProgressTrans(State(), reserved, before, via.depth + 1);
    }

    /** Lets the tasks of a batch run to their ends, in any order the scheduler likes, and gathers what they found. */
    method RunTasks(via: Node, batch: seq<string>, ghost c: Context, ghost rest: set<Node>)
        returns (newItems: seq<Node>)
      requires c.p == p && c.w == world
      requires Expanding(c, State(), rest, via, batch, seq(|batch|, _ => Waiting))
      requires Running(seq(|batch|, _ => Waiting)) == 0 && Found(seq(|batch|, _ => Waiting)) == []
      requires c.stable ==> forall a :: a in c.m(via.box) ==> a in visitedIps
      modifies this, registry
      ensures Going(c, State(), rest + ToSet(newItems))
      ensures forall n :: n in newItems ==> Known(c.seeds, State(), n) && n.depth == via.depth + 1
      ensures Extends(State(), old(State())) && Progress(State(), old(State()), via.depth + 1)
      ensures |newItems| == |discovered| - |old(discovered)|
      ensures looks == old(looks) + |batch| && stats.candidates == old(stats.candidates)
      ensures c.stable && !dropped ==> visitedIps <= finished
    {
      ghost var before := State();
      AllWaiting(|batch|);
      var tasks: seq<Task> := seq(|batch|, _ => Waiting);
      ghost var waiting := tasks;
      var running := 0;
      while exists i :: 0 <= i < |tasks| && !tasks[i].Done?
        invariant Expanding(c, State(), rest, via, batch, tasks)
        invariant running == Running(tasks) <= Max(1, p.concurrency)
        invariant Turned(State(), before, via, tasks, waiting)
        decreases Work(tasks)
      {
        tasks, running := NextTurn(via, batch, tasks, running, c, rest, before, waiting);
      }
      newItems := Found(tasks);
      TasksEnd(c, State(), before, rest, via, batch, tasks);
    }

    /** The scheduler: some task that may move. */
    method PickTask(tasks: seq<Task>, running: nat) returns (i: nat)
      requires running == Running(tasks)
      requires exists j :: 0 <= j < |tasks| && !tasks[j].Done?
      ensures i < |tasks| && (tasks[i].Dialing? || (tasks[i].Waiting? && running < Max(1, p.concurrency)))
    {
      NoWorkMeansDone(tasks);
      i :| 0 <= i < |tasks| && (tasks[i].Dialing? || (tasks[i].Waiting? && running < Max(1, p.concurrency)));
    }

    /** A waiting task got the semaphore: it starts its dial or gives up. */
    method StartTask(via: Node, batch: seq<string>, tasks0: seq<Task>, i: nat, ghost c: Context, ghost rest: set<Node>)
      returns (tasks: seq<Task>)
      requires c.p == p && c.w == world
      requires Expanding(c, State(), rest, via, batch, tasks0) && i < |tasks0| && tasks0[i].Waiting?
      modifies this
      ensures Expanding(c, State(), rest, via, batch, tasks)
      ensures tasks == tasks0[i := Dialing] || tasks == tasks0[i := Done(None)]
      ensures visitedIps == old(visitedIps) && Extends(State(), old(State())) && |discovered| == |old(discovered)|
      ensures Progress(State(), old(State()), via.depth + 1)
      ensures looks == old(looks) + 1 && stats.candidates == old(stats.candidates)
    {
      ghost var e := State();
      var go := BeginDial(batch[i]);
      if go {
        ExpandingStart(c, e, rest, via, batch, tasks0, i);
        tasks := tasks0[i := Dialing];
      } else {
        ExpandingGiveUp(c, e, rest, via, batch, tasks0, i);
        tasks := tasks0[i := Done(None)];
      }
    }

    /** The connect of a dialing task returned. */
    method EndTask(via: Node, batch: seq<string>, tasks0: seq<Task>, i: nat, ghost c: Context, ghost rest: set<Node>)
      returns (tasks: seq<Task>, found: Option<Node>)
      requires c.p == p && c.w == world
      requires Expanding(c, State(), rest, via, batch, tasks0) && i < |tasks0| && tasks0[i].Dialing?
      modifies this, registry
      ensures Expanding(c, State(), rest, via, batch, tasks) && tasks == tasks0[i := Done(found)]
      ensures visitedIps == old(visitedIps) && Extends(State(), old(State()))
      ensures Progress(State(), old(State()), via.depth + 1)
      ensures |discovered| == |old(discovered)| + (if found.Some? then 1 else 0)
      ensures looks == old(looks) && stats.candidates == old(stats.candidates)
    {
      ghost var e := State();
      found := CompleteDial(via, batch[i]);
      tasks := tasks0[i := Done(found)];
      ExpandingFinish(c, e, rest, via, batch, tasks0, i, Finish(State(), found));
      FinishFacts(p, world, e, via, batch[i]);
      FinishExtends(p, world, e, via, batch[i]);
      FinishProgress(p, world, e, via, batch[i]);
    }

    /**
     * One turn of task `i`: up to its connect, or from its connect to its end. No more connects run than
     * there are permits.
     */
    method TakeTurn(via: Node, batch: seq<string>, tasks0: seq<Task>, running0: nat, i: nat, ghost c: Context,
        ghost rest: set<Node>)
      returns (tasks: seq<Task>, running: nat)
      requires c.p == p && c.w == world
      requires Expanding(c, State(), rest, via, batch, tasks0) && running0 == Running(tasks0)
      requires i < |tasks0| && !tasks0[i].Done? && running0 <= Max(1, p.concurrency)
      requires tasks0[i].Waiting? ==> running0 < Max(1, p.concurrency)
      modifies this, registry
      ensures Expanding(c, State(), rest, via, batch, tasks) && running == Running(tasks) <= Max(1, p.concurrency)
      ensures Work(tasks) < Work(tasks0)
      ensures Turned(State(), old(State()), via, tasks, tasks0)
    {
      if tasks0[i].Waiting? {
        tasks := StartTask(via, batch, tasks0, i, c, rest);
        TaskUpdate(tasks0, i, tasks[i]);
        running := running0 + (if tasks[i].Dialing? then 1 else 0);
      } else {
        var found;
        tasks, found := EndTask(via, batch, tasks0, i, c, rest);
        TaskUpdate(tasks0, i, Done(found));
        running := running0 - 1;
      }
    }

    /** The scheduler gives some task that may move its turn; `before` and `waiting` are how the tasks began. */
    method NextTurn(via: Node, batch: seq<string>, tasks0: seq<Task>, running0: nat, ghost c: Context,
        ghost rest: set<Node>, ghost before: Engine, ghost waiting: seq<Task>)
      returns (tasks: seq<Task>, running: nat)
      requires c.p == p && c.w == world
      requires Expanding(c, State(), rest, via, batch, tasks0) && running0 == Running(tasks0) <= Max(1, p.concurrency)
      requires Turned(State(), before, via, tasks0, waiting)
      requires exists i :: 0 <= i < |tasks0| && !tasks0[i].Done?
      modifies this, registry
      ensures Expanding(c, State(), rest, via, batch, tasks) && running == Running(tasks) <= Max(1, p.concurrency)
      ensures Turned(State(), before, via, tasks, waiting)
      ensures Work(tasks) < Work(tasks0)
    {
      ghost var e := State();
      var i := PickTask(tasks0, running0);
      tasks, running := TakeTurn(via, batch, tasks0, running0, i, c, rest);
      TurnedTrans(State(), e, before, via, tasks, tasks0, waiting);
    }

    /** The reservation loop at the head of _expand. */
    method ReserveFresh(candidates: seq<string>) returns (batch: seq<string>)
      modifies this`visitedIps, this`stats
      ensures State() == ReserveAll(old(State()), batch)
      ensures NoRepeats(batch) && forall a :: a in batch ==> a in candidates && a !in old(visitedIps)
      ensures forall a :: a in candidates ==> a in visitedIps
    {
      batch := [];
      ghost var e := State();
      for k := 0 to |candidates|
        invariant State() == ReserveAll(e, batch)
        invariant NoRepeats(batch) && forall a :: a in batch ==> a in candidates && a !in e.visitedIps
        invariant forall j :: 0 <= j < k ==> candidates[j] in visitedIps
      {
        var cand := candidates[k];
        ReservedAddresses(e, batch);
        if cand !in visitedIps {
          assert (batch + [cand])[..|batch|] == batch;
          visitedIps := visitedIps + {cand};
          stats := stats.(candidates := stats.candidates + 1);
          batch := batch + [cand];
        }
      }
    }

    /**
     * One round of the main loop: the first item is skipped at the depth bound, otherwise expanded, and
     * its finds queue up last.
     */
    method TakeItem(frontier0: seq<Node>, candidates: seq<string>, ghost c: Context) returns (frontier: seq<Node>)
      requires c.p == p && c.w == world && AllSeeds(c.seeds)
      requires Queued(c, State(), frontier0) && frontier0 != []
      requires (dropped ==> !NothingLost(c, State())) && |discovered| < p.maxNodes
      requires c.stable ==> forall a :: a in candidates <==> a in c.m(frontier0[0].box)
      modifies this, registry
      ensures Queued(c, State(), frontier)
      ensures |frontier| - |discovered| == |frontier0| - 1 - |old(discovered)|
      ensures looks - old(looks) == stats.candidates - old(stats.candidates)
    {
      ghost var e := State();
      QueuedPops(c, e, frontier0);
      var item := frontier0[0];
      frontier := frontier0[1..];
      if item.depth >= p.maxDepth {
        truncated := true;
        return;
      }
      var newItems := Expand(item, candidates, c, ToSet(frontier));
      QueuedGrows(c, e, State(), frontier0, newItems);
      frontier := frontier + newItems;
    }

    /** The deadline passed or the node bound is met: what is still queued is given up. */
    method Halt()
      modifies this`truncated, this`dropped
      ensures State() == GiveUp(old(State()))
    {
      truncated, dropped := true, true;
    }

    method LookAtClock() returns (expired: bool)
      modifies this`looks
      ensures State() == Look(old(State())) && expired == world.expired(old(looks))
    {
      expired := world.expired(looks);
      looks := looks + 1;
    }

    /** The main loop; `harvest(t, n)` is what `n` reveals in round `t`. */
    method MainLoop(harvest: (nat, Node) -> seq<string>, ghost c: Context, seeds: seq<Node>) returns (rounds: nat)
      requires c.p == p && c.w == world && c.seeds == seeds && AllSeeds(seeds)
      requires State() == Start(c.reg0) && (c.stable ==> Follows(harvest, c.m))
      modifies this, registry
      ensures RunResult(c, State())
      ensures rounds <= |seeds| + Max(0, p.maxNodes)
      ensures looks == rounds + stats.candidates
    {
      var frontier := seeds;
      rounds := 0;
      QueuedStarts(c);
      while frontier != []
        invariant Queued(c, State(), frontier)
        invariant rounds + |frontier| == |seeds| + |discovered|
        invariant looks == rounds + stats.candidates
        decreases Max(0, p.maxNodes) - |discovered| + |frontier|
      {
        QueuedIsBounded(c, State(), frontier);
        rounds := rounds + 1;
        ghost var e := State();
        var expired := LookAtClock();
        if expired || |discovered| >= p.maxNodes {
          QueuedStops(c, e, frontier);
          Halt();
          break;
        }
        QueuedLooks(c, e, frontier);
        RoomAndTime(c, e);
        frontier := TakeItem(frontier, harvest(rounds, frontier[0]), c);
        QueuedIsBounded(c, State(), frontier);
      }
      QueuedIsBounded(c, State(), frontier);
      RunResults(c, State(), frontier);
    }

    /** The closing sweep: every connection still held is closed. */
    method CloseAll()
      modifies this`closed, this`openConns
      ensures State() == Swept(old(State()))
    {
      ghost var e := State();
      for k := 0 to |openConns|
        invariant openConns == e.openConns
        invariant State() == e.(closed := e.closed + e.openConns[..k])
      {
        assert e.openConns[..k + 1] == e.openConns[..k] + [e.openConns[k]];
        closed := closed + [openConns[k]];
      }
      assert e.openConns[..|e.openConns|] == e.openConns;
      openConns := [];
    }

    /**
     * run, for a new engine. The result before the closing sweep is `last`; after the sweep every
     * connection the engine opened has been closed exactly once, and no seed's connection has.
     */
    method Run(seeds: seq<Node>, harvest: (nat, Node) -> seq<string>, ghost m: Map)
        returns (rounds: nat, ghost last: Engine)
      requires AllSeeds(seeds) && State() == Start(registry.State())
      modifies this, registry
      ensures RunResult(Context(p, world, m, seeds, old(registry.State()), Follows(harvest, m)), last)
      ensures State() == Swept(last)
      ensures rounds <= |seeds| + Max(0, p.maxNodes) && looks == rounds + stats.candidates
      ensures openConns == [] && forall n: nat :: multiset(closed)[Dialed(n)] == if n < nextConn then 1 else 0
      ensures forall conn :: conn in closed ==> conn.Dialed?
      ensures stats.connectsOk <= stats.probes <= stats.candidates == |visitedIps|
    {
      ghost var c := Context(p, world, m, seeds, registry.State(), Follows(harvest, m));
      rounds := MainLoop(harvest, c, seeds);
      last := State();
      SweepClosesEachOnce(p, seeds, c.reg0, last);
      CountersAreOrdered(p, seeds, c.reg0, last);
      CloseAll();
    }
  }

  lemma ExtendsTrans(e2: Engine, e1: Engine, e0: Engine)
    requires Extends(e2, e1) && Extends(e1, e0)
    ensures Extends(e2, e0)
  {
  }
}
