/** Dijkstra over the cached matrix with lexicographic cost (mcp_ssh/topology.py, find_path). */
module PathFinding {
  import opened Wrappers
  import opened Topology

  /** One usable matrix cell, as the search sees it. */
  datatype Link = Link(from: string, to: string, via: string, latency: real)

  datatype Hop = Hop(node: string, via: string)

  datatype Cost = Cost(hops: int, latency: real) {
    predicate Less(other: Cost) {
      hops < other.hops || (hops == other.hops && latency < other.latency)
    }

    predicate AtMost(other: Cost) {
      !other.Less(this)
    }

    function Plus(lat: real): Cost {
      Cost(hops + 1, latency + lat)
    }
  }

  datatype Entry = Entry(cost: Cost, node: string, path: seq<Hop>)

  // ---- Walks: the meaning the search is measured against ----

  predicate Usable(edge: TopologyEdge) {
    edge.reachable && edge.via.Some? && edge.sourceState == SourceOk
  }

  function LinkOf(edge: TopologyEdge): Link
    requires Usable(edge)
  {
    Link(edge.fromNode, edge.toNode, edge.via.value, EdgeLatency(edge.via.value, edge.addresses))
  }

  function UsableLinks(edges: seq<TopologyEdge>): seq<Link> {
    if edges == [] then []
    else
      var front := UsableLinks(edges[..|edges| - 1]);
      var last := edges[|edges| - 1];
      if Usable(last) then front + [LinkOf(last)] else front
  }

  ghost predicate IsWalk(links: seq<Link>, w: seq<Link>) {
    w == [] || (var v, l := w[..|w| - 1], w[|w| - 1]; IsWalk(links, v) && l in links && l.from == End(v))
  }

  function End(w: seq<Link>): string {
    if w == [] then LOCAL_NODE else w[|w| - 1].to
  }

  function CostOf(w: seq<Link>): Cost {
    if w == [] then Cost(0, 0.0) else CostOf(w[..|w| - 1]).Plus(w[|w| - 1].latency)
  }

  function Spell(w: seq<Link>): (path: seq<Hop>)
    ensures |path| == |w|
    ensures forall i :: 0 <= i < |w| ==> path[i] == Hop(w[i].to, w[i].via)
  {
    seq(|w|, i requires 0 <= i < |w| => Hop(w[i].to, w[i].via))
  }

  /** The latencies of all links of `w`, added up. */
  ghost function TotalLatency(w: seq<Link>): real {
    if w == [] then 0.0 else w[0].latency + TotalLatency(w[1..])
  }

  /** `w` reaches `target`, and every walk that does takes more hops, or as many and no less latency in total. */
  ghost predicate Cheapest(links: seq<Link>, w: seq<Link>, target: string) {
    && IsWalk(links, w)
    && End(w) == target
    && forall v :: IsWalk(links, v) && End(v) == target ==>
         |w| < |v| || (|w| == |v| && TotalLatency(w) <= TotalLatency(v))
  }

  lemma {:induction false} TotalOfSnoc(w: seq<Link>)
    requires w != []
    ensures TotalLatency(w) == TotalLatency(w[..|w| - 1]) + w[|w| - 1].latency
  {
    if |w| > 1 {
      TotalOfSnoc(w[1..]);
      assert w[1..][..|w| - 2] == w[..|w| - 1][1..];
    }
  }

  /** The cost the search adds up link by link is the number of hops and the total latency. */
  lemma {:induction false} CostIsTotal(w: seq<Link>)
    ensures CostOf(w) == Cost(|w|, TotalLatency(w))
  {
    if w != [] {
      CostIsTotal(w[..|w| - 1]);
      TotalOfSnoc(w);
    }
  }

  lemma NoShortCut(links: seq<Link>, w: seq<Link>, target: string, i: nat, j: nat)
    requires Cheapest(links, w, target) && i < j <= |w|
    ensures End(w[..i]) != End(w[..j])
  {
    if End(w[..i]) == End(w[..j]) {
      ShortCut(links, w, i, j);
    }
  }

  lemma NeverLocal(links: seq<Link>, w: seq<Link>, target: string, i: nat)
    requires Cheapest(links, w, target) && i < |w|
    ensures w[i].to != LOCAL_NODE
  {
    NoShortCut(links, w, target, 0, i + 1);
  }

  lemma NeverTwice(links: seq<Link>, w: seq<Link>, target: string, i: nat, j: nat)
    requires Cheapest(links, w, target) && i < j < |w|
    ensures w[i].to != w[j].to
  {
    NoShortCut(links, w, target, i + 1, j + 1);
  }

  /** A cheapest walk never visits a node twice and never comes back to `local`. */
  lemma CheapestIsSimple(links: seq<Link>, w: seq<Link>, target: string)
    requires Cheapest(links, w, target)
    ensures forall i :: 0 <= i < |w| ==> w[i].to != LOCAL_NODE
    ensures forall i, j :: 0 <= i < j < |w| ==> w[i].to != w[j].to
  {
    forall i | 0 <= i < |w|
      ensures w[i].to != LOCAL_NODE
    {
      NeverLocal(links, w, target, i);
    }
    forall i, j | 0 <= i < j < |w|
      ensures w[i].to != w[j].to
    {
      NeverTwice(links, w, target, i, j);
    }
  }

  lemma {:induction false} WalkPrefix(links: seq<Link>, w: seq<Link>, i: nat)
    requires IsWalk(links, w) && i <= |w|
    ensures IsWalk(links, w[..i])
  {
    if i < |w| {
      WalkPrefix(links, w[..|w| - 1], i);
      assert w[..|w| - 1][..i] == w[..i];
    } else {
      assert w[..i] == w;
    }
  }

  lemma CutOfSnoc<T>(w: seq<T>, i: nat, j: nat)
    requires i < j < |w|
    ensures var u := w[..|w| - 1];
            && u[..i] == w[..i] && u[..j] == w[..j]
            && w[..i] + w[j..] == (u[..i] + u[j..]) + [w[|w| - 1]]
  {
  }

  lemma WalkMore(links: seq<Link>, v: seq<Link>, l: Link)
    requires IsWalk(links, v) && l in links && l.from == End(v)
    ensures IsWalk(links, v + [l]) && End(v + [l]) == l.to
  {
    assert (v + [l])[..|v + [l]| - 1] == v;
  }

  lemma {:induction false} CutWalk(links: seq<Link>, w: seq<Link>, i: nat, j: nat)
    requires IsWalk(links, w)
    requires i < j <= |w|
    requires End(w[..i]) == End(w[..j])
    ensures IsWalk(links, w[..i] + w[j..]) && End(w[..i] + w[j..]) == End(w)
    decreases |w|
  {
    if j == |w| {
      WalkPrefix(links, w, i);
      assert w[..i] + w[j..] == w[..i] && w[..j] == w;
    } else {
      var u, l := w[..|w| - 1], w[|w| - 1];
      CutOfSnoc(w, i, j);
      CutWalk(links, u, i, j);
      WalkMore(links, u[..i] + u[j..], l);
    }
  }

  /** Cutting a loop out of a walk leaves a walk to the same end with fewer hops, which costs less. */
  lemma ShortCut(links: seq<Link>, w: seq<Link>, i: nat, j: nat)
    requires IsWalk(links, w)
    requires i < j <= |w|
    requires End(w[..i]) == End(w[..j])
    ensures IsWalk(links, w[..i] + w[j..]) && End(w[..i] + w[j..]) == End(w)
    ensures |w[..i] + w[j..]| < |w| && CostOf(w[..i] + w[j..]).Less(CostOf(w))
  {
    CutWalk(links, w, i, j);
    CostIsTotal(w[..i] + w[j..]);
    CostIsTotal(w);
  }

  // ---- The search ----

  /** The out-links of `node`, in matrix order. */
  function OutLinks(links: seq<Link>, node: string): seq<Link> {
    if links == [] then []
    else
      var front := OutLinks(links[..|links| - 1], node);
      var last := links[|links| - 1];
      if last.from == node then front + [last] else front
  }

  lemma {:induction false} OutLinksMember(links: seq<Link>, node: string, l: Link)
    ensures l in OutLinks(links, node) <==> l in links && l.from == node
  {
    if links != [] {
      OutLinksMember(links[..|links| - 1], node, l);
    }
  }

  function Neighbours(graph: map<string, seq<Link>>, node: string): seq<Link> {
    if node in graph then graph[node] else []
  }

  /** `from -> [links]`, as the first loop of find_path fills it. */
  method BuildGraph(edges: seq<TopologyEdge>) returns (graph: map<string, seq<Link>>)
    ensures forall n :: Neighbours(graph, n) == OutLinks(UsableLinks(edges), n)
  {
    graph := map[];
    for k := 0 to |edges|
      invariant forall n :: Neighbours(graph, n) == OutLinks(UsableLinks(edges[..k]), n)
    {
      var edge := edges[k];
      assert edges[..k + 1][..k] == edges[..k];
      if Usable(edge) {
        var link := LinkOf(edge);
        var links := UsableLinks(edges[..k]);
        assert (links + [link])[..|links|] == links;
        graph := graph[link.from := Neighbours(graph, link.from) + [link]];
      }
    }
    assert edges[..|edges|] == edges;
  }

  /** heappop: some entry of least cost leaves the heap. */
  method PopLeast(heap: seq<Entry>) returns (e: Entry, rest: seq<Entry>)
    requires heap != []
    ensures multiset(heap) == multiset(rest) + multiset{e}
    ensures forall x :: x in heap <==> x == e || x in rest
    ensures forall x :: x in heap ==> e.cost.AtMost(x.cost)
    ensures |rest| == |heap| - 1
  {
    var least := 0;
    for k := 1 to |heap|
      invariant least < |heap|
      invariant forall i :: 0 <= i < k ==> heap[least].cost.AtMost(heap[i].cost)
    {
      if heap[k].cost.Less(heap[least].cost) {
        least := k;
      }
    }
    e := heap[least];
    rest := heap[..least] + heap[least + 1..];
    assert heap == heap[..least] + [e] + heap[least + 1..];
  }

  /** Some walk reaches the entry's node at the entry's cost along the entry's path. */
  ghost predicate Witnessed(links: seq<Link>, e: Entry) {
    exists w :: IsWalk(links, w) && End(w) == e.node && CostOf(w) == e.cost && Spell(w) == e.path
  }

  lemma ExtendWitness(links: seq<Link>, e: Entry, l: Link)
    requires Witnessed(links, e) && l in links && l.from == e.node
    ensures Witnessed(links, Entry(e.cost.Plus(l.latency), l.to, e.path + [Hop(l.to, l.via)]))
  {
    var w :| IsWalk(links, w) && End(w) == e.node && CostOf(w) == e.cost && Spell(w) == e.path;
    var v := w + [l];
    assert v[..|v| - 1] == w;
    assert Spell(v) == e.path + [Hop(l.to, l.via)];
    assert IsWalk(links, v);
  }

  /**
   * The frontier state of the search between two pops. `settled` holds the nodes already
   * expanded at their final cost; entries of such nodes still in the heap are the stale ones.
   */
  ghost predicate Frontier(best: map<string, Cost>, heap: seq<Entry>, settled: set<string>) {
    && settled <= best.Keys
    && LOCAL_NODE in best && best[LOCAL_NODE] == Cost(0, 0.0)
    && (forall e :: e in heap ==> e.node in best && best[e.node].AtMost(e.cost))
    && (forall n :: n in best && n !in settled ==> Queued(best, heap, n))
    && (forall s, e :: s in settled && e in heap ==> best[s].AtMost(e.cost))
  }

  ghost predicate AllWitnessed(links: seq<Link>, heap: seq<Entry>) {
    forall e :: e in heap ==> Witnessed(links, e)
  }

  ghost predicate Queued(best: map<string, Cost>, heap: seq<Entry>, n: string)
    requires n in best
  {
    exists e :: e in heap && e.node == n && e.cost == best[n]
  }

  /** Every link of `out` leaving `from` at cost `c` has been offered to its head. */
  ghost predicate Relaxed(best: map<string, Cost>, c: Cost, out: seq<Link>) {
    forall l :: l in out ==> Offered(best, c, l)
  }

  ghost predicate AllRelaxed(links: seq<Link>, best: map<string, Cost>, settled: set<string>)
    requires settled <= best.Keys
  {
    forall s :: s in settled ==> Relaxed(best, best[s], OutLinks(links, s))
  }

  /**
   * Whatever a walk reaches is either settled at no more than the walk's cost, or the heap
   * still holds an entry that costs no more than the walk.
   */
  lemma {:induction false} WalkIsCovered(links: seq<Link>, best: map<string, Cost>, heap: seq<Entry>,
      settled: set<string>, w: seq<Link>)
    requires Frontier(best, heap, settled)
    requires AllRelaxed(links, best, settled)
    requires IsWalk(links, w)
    ensures || (End(w) in settled && best[End(w)].AtMost(CostOf(w)))
            || (exists e :: e in heap && e.cost.AtMost(CostOf(w)))
  {
    if w == [] {
      assert LOCAL_NODE in settled || Queued(best, heap, LOCAL_NODE);
    } else {
      var v, l := w[..|w| - 1], w[|w| - 1];
      assert IsWalk(links, v) && End(v) == l.from;
      WalkIsCovered(links, best, heap, settled, v);
      if End(v) in settled && best[End(v)].AtMost(CostOf(v)) {
        OutLinksMember(links, l.from, l);
        if l.to == LOCAL_NODE {
          CostIsTotal(w);
        } else {
          assert Relaxed(best, best[l.from], OutLinks(links, l.from)) && Offered(best, best[l.from], l);
        }
        assert l.to in settled || Queued(best, heap, l.to);
      }
    }
  }

  /** The nodes the search can ever put in `best`. */
  function Nodes(links: seq<Link>): set<string> {
    {LOCAL_NODE} + set l | l in links :: l.to
  }

  ghost predicate Offered(best: map<string, Cost>, c: Cost, l: Link) {
    l.to != LOCAL_NODE ==> l.to in best && best[l.to].AtMost(c.Plus(l.latency))
  }

  /** Every entry of `heap` costs at least `c`. */
  ghost predicate NoneBelow(heap: seq<Entry>, c: Cost) {
    forall x :: x in heap ==> c.AtMost(x.cost)
  }

  ghost predicate NoneAbove(best: map<string, Cost>, settled: set<string>, c: Cost)
    requires settled <= best.Keys
  {
    forall s :: s in settled ==> best[s].AtMost(c)
  }

  /** `best'` is `best` with some costs lowered and none of `settled` touched. */
  ghost predicate Improves(best': map<string, Cost>, best: map<string, Cost>, settled: set<string>) {
    && best.Keys <= best'.Keys
    && (forall n :: n in best ==> best'[n].AtMost(best[n]))
    && (forall s :: s in settled && s in best ==> best'[s] == best[s])
  }

  /** Offers one out-link of the popped entry `e` to its head, pushing a strict improvement. */
  method Offer(ghost links: seq<Link>, e: Entry, l: Link, best0: map<string, Cost>, heap0: seq<Entry>,
      ghost settled: set<string>)
    returns (best: map<string, Cost>, heap: seq<Entry>)
    requires Witnessed(links, e) && AllWitnessed(links, heap0)
    requires l in links && l.from == e.node
    requires Frontier(best0, heap0, settled)
    requires NoneAbove(best0, settled, e.cost) && NoneBelow(heap0, e.cost)
    ensures Frontier(best, heap, settled) && AllWitnessed(links, heap)
    ensures Offered(best, e.cost, l) && Improves(best, best0, settled)
    ensures best.Keys <= best0.Keys + {l.to}
    ensures Offered(best0, e.cost, l) ==> best == best0 && heap == heap0
    ensures NoneBelow(heap, e.cost)
  {
    best, heap := best0, heap0;
    if l.to != LOCAL_NODE {
      var cost := e.cost.Plus(l.latency);
      if l.to !in best || cost.Less(best[l.to]) {
        var pushed := Entry(cost, l.to, e.path + [Hop(l.to, l.via)]);
        ExtendWitness(links, e, l);
        KeepFrontier(best, heap, settled, pushed);
        best := best[l.to := cost];
        heap := heap + [pushed];
      }
    }
  }

  /** Offers every out-link of the popped entry `e`. */
  method Relax(ghost links: seq<Link>, e: Entry, out: seq<Link>, best0: map<string, Cost>, heap0: seq<Entry>,
      ghost settled: set<string>)
    returns (best: map<string, Cost>, heap: seq<Entry>)
    requires out == OutLinks(links, e.node)
    requires Witnessed(links, e) && AllWitnessed(links, heap0)
    requires Frontier(best0, heap0, settled)
    requires NoneAbove(best0, settled, e.cost) && NoneBelow(heap0, e.cost)
    requires best0.Keys <= Nodes(links)
    ensures Frontier(best, heap, settled) && AllWitnessed(links, heap)
    ensures Relaxed(best, e.cost, out) && Improves(best, best0, settled)
    ensures best.Keys <= Nodes(links)
    ensures Relaxed(best0, e.cost, out) ==> best == best0 && heap == heap0
  {
    best, heap := best0, heap0;
    for k := 0 to |out|
      invariant Frontier(best, heap, settled) && AllWitnessed(links, heap)
      invariant Improves(best, best0, settled)
      invariant NoneAbove(best, settled, e.cost) && NoneBelow(heap, e.cost)
      invariant best.Keys <= Nodes(links)
      invariant OfferedUpTo(best, e.cost, out, k)
      invariant Relaxed(best0, e.cost, out) ==> best == best0 && heap == heap0
    {
      OutLinksMember(links, e.node, out[k]);
      ghost var before := best;
      best, heap := Offer(links, e, out[k], best, heap, settled);
      OfferedStays(best, before, settled, e.cost, out, k);
      ImprovesTrans(best, before, best0, settled);
    }
    AllOffered(best, e.cost, out);
  }

  lemma AllOffered(best: map<string, Cost>, c: Cost, out: seq<Link>)
    requires OfferedUpTo(best, c, out, |out|)
    ensures Relaxed(best, c, out)
  {
  }

  ghost predicate OfferedUpTo(best: map<string, Cost>, c: Cost, out: seq<Link>, k: nat)
    requires k <= |out|
  {
    forall j :: 0 <= j < k ==> Offered(best, c, out[j])
  }

  lemma ImprovesTrans(best2: map<string, Cost>, best1: map<string, Cost>, best0: map<string, Cost>,
      settled: set<string>)
    requires Improves(best2, best1, settled) && Improves(best1, best0, settled)
    requires settled <= best0.Keys
    ensures Improves(best2, best0, settled)
    ensures forall c :: NoneAbove(best1, settled, c) ==> NoneAbove(best2, settled, c)
  {
  }

  lemma OfferedStays(best': map<string, Cost>, best: map<string, Cost>, settled: set<string>, c: Cost, out: seq<Link>,
      k: nat)
    requires Improves(best', best, settled) && k < |out|
    requires OfferedUpTo(best, c, out, k) && Offered(best', c, out[k])
    ensures OfferedUpTo(best', c, out, k + 1)
  {
    forall j | 0 <= j < k
      ensures Offered(best', c, out[j])
    {
      assert Offered(best, c, out[j]);
    }
  }

  /** Settled nodes stay relaxed while costs only fall and settled costs stand. */
  lemma RelaxedStays(links: seq<Link>, best': map<string, Cost>, best: map<string, Cost>, settled: set<string>)
    requires settled <= best.Keys && Improves(best', best, settled)
    requires AllRelaxed(links, best, settled)
    ensures AllRelaxed(links, best', settled)
  {
    forall s | s in settled
      ensures Relaxed(best', best'[s], OutLinks(links, s))
    {
      assert Relaxed(best, best[s], OutLinks(links, s));
    }
  }

  /** Pushing a strictly better entry for an unsettled node keeps the frontier state. */
  lemma KeepFrontier(best: map<string, Cost>, heap: seq<Entry>, settled: set<string>, pushed: Entry)
    requires Frontier(best, heap, settled)
    requires pushed.node != LOCAL_NODE && pushed.node !in settled
    requires pushed.node in best ==> pushed.cost.Less(best[pushed.node])
    requires forall s :: s in settled ==> best[s].AtMost(pushed.cost)
    ensures Frontier(best[pushed.node := pushed.cost], heap + [pushed], settled)
  {
    var best', heap' := best[pushed.node := pushed.cost], heap + [pushed];
    forall n | n in best' && n !in settled
      ensures Queued(best', heap', n)
    {
      if n == pushed.node {
        assert pushed in heap';
      } else {
        assert Queued(best, heap, n);
        var e :| e in heap && e.node == n && e.cost == best[n];
        assert e in heap';
      }
    }
  }

  /**
   * find_path. The search pops a least entry, returns at the target, and otherwise relaxes
   * the popped node's links. There is no visited set: a stale entry is popped and expanded
   * like any other, and the proof shows that such an expansion pushes nothing.
   */
  method FindPath(edges: seq<TopologyEdge>, target: string) returns (r: Option<seq<Hop>>)
    ensures r.None? <==> forall w :: IsWalk(UsableLinks(edges), w) ==> End(w) != target
    ensures r.Some? ==> exists w :: Cheapest(UsableLinks(edges), w, target) && Spell(w) == r.value
  {
    ghost var links := UsableLinks(edges);
    var graph := BuildGraph(edges);
    var heap := [Entry(Cost(0, 0.0), LOCAL_NODE, [])];
    var best := map[LOCAL_NODE := Cost(0, 0.0)];
    ghost var settled: set<string> := {};
    SearchStart(links);
    while heap != []
      invariant Frontier(best, heap, settled) && AllWitnessed(links, heap)
      invariant AllRelaxed(links, best, settled)
      invariant best.Keys <= Nodes(links)
      invariant target !in settled
      decreases |Nodes(links) - settled|, |heap|
    {
      var e, rest := PopLeast(heap);
      if e.node == target {
        PoppedTargetIsCheapest(links, best, heap, settled, e);
        return Some(e.path);
      }
      var out := Neighbours(graph, e.node);
      PopKeepsFrontier(best, heap, settled, e, rest);
      PoppedNode(links, best, settled, e);
      ghost var before, was := best, settled;
      settled := settled + {e.node};
      best, heap := Relax(links, e, out, best, rest, settled);
      RelaxedStays(links, best, before, was);
    }
    forall w | IsWalk(links, w)
      ensures End(w) != target
    {
      WalkIsCovered(links, best, heap, settled, w);
    }
    return None;
  }

  lemma SearchStart(links: seq<Link>)
    ensures var start := Entry(Cost(0, 0.0), LOCAL_NODE, []);
            Frontier(map[LOCAL_NODE := Cost(0, 0.0)], [start], {}) && AllWitnessed(links, [start])
  {
    var start := Entry(Cost(0, 0.0), LOCAL_NODE, []);
    assert start in [start];
    assert IsWalk(links, []) && Spell([]) == [];
    assert Witnessed(links, start);
  }

  /**
   * The two kinds of pop. A new node leaves fewer nodes to settle; a stale entry's node was
   * relaxed at no more than the entry's cost, so its links are all offered already.
   */
  lemma PoppedNode(links: seq<Link>, best: map<string, Cost>, settled: set<string>, e: Entry)
    requires settled <= best.Keys <= Nodes(links)
    requires AllRelaxed(links, best, settled)
    requires e.node in best && best[e.node].AtMost(e.cost)
    ensures e.node !in settled ==> |Nodes(links) - (settled + {e.node})| < |Nodes(links) - settled|
    ensures e.node in settled ==> settled + {e.node} == settled && Relaxed(best, e.cost, OutLinks(links, e.node))
  {
    if e.node in settled {
      assert Relaxed(best, best[e.node], OutLinks(links, e.node));
      forall l | l in OutLinks(links, e.node)
        ensures Offered(best, e.cost, l)
      {
        assert Offered(best, best[e.node], l);
      }
    } else {
      SubsetSize(Nodes(links) - (settled + {e.node}), Nodes(links) - settled);
    }
  }

  lemma SubsetSize<T>(a: set<T>, b: set<T>)
    requires a < b
    ensures |a| < |b|
  {
    assert b == a + (b - a);
    assert |b| == |a| + |b - a|;
  }

  /** Removing the popped entry and settling its node keeps the frontier state. */
  lemma PopKeepsFrontier(best: map<string, Cost>, heap: seq<Entry>, settled: set<string>, e: Entry, rest: seq<Entry>)
    requires Frontier(best, heap, settled)
    requires e in heap
    requires forall x :: x in heap <==> x == e || x in rest
    requires forall x :: x in heap ==> e.cost.AtMost(x.cost)
    ensures Frontier(best, rest, settled + {e.node})
    ensures e.node !in settled ==> e.cost == best[e.node]
    ensures NoneAbove(best, settled + {e.node}, e.cost) && NoneBelow(rest, e.cost)
  {
    assert e.node !in settled ==> Queued(best, heap, e.node);
    forall n | n in best && n !in settled + {e.node}
      ensures Queued(best, rest, n)
    {
      assert Queued(best, heap, n);
      var x :| x in heap && x.node == n && x.cost == best[n];
      assert x in rest;
    }
  }

  lemma PoppedTargetIsCheapest(links: seq<Link>, best: map<string, Cost>, heap: seq<Entry>, settled: set<string>,
      e: Entry)
    requires Frontier(best, heap, settled)
    requires AllRelaxed(links, best, settled)
    requires Witnessed(links, e)
    requires e in heap && e.node !in settled
    requires forall x :: x in heap ==> e.cost.AtMost(x.cost)
    ensures exists w :: Cheapest(links, w, e.node) && Spell(w) == e.path
  {
    var w :| IsWalk(links, w) && End(w) == e.node && CostOf(w) == e.cost && Spell(w) == e.path;
    CostIsTotal(w);
    forall v | IsWalk(links, v) && End(v) == e.node
      ensures |w| < |v| || (|w| == |v| && TotalLatency(w) <= TotalLatency(v))
    {
      WalkIsCovered(links, best, heap, settled, v);
      CostIsTotal(v);
    }
    assert Cheapest(links, w, e.node);
  }

  /** What the returned path looks like: distinct nodes, never `local`, the target last. */
  lemma CheapestPathShape(links: seq<Link>, w: seq<Link>, target: string, path: seq<Hop>)
    requires Cheapest(links, w, target) && Spell(w) == path
    ensures path == [] <==> target == LOCAL_NODE
    ensures path != [] ==> path[|path| - 1].node == target
    ensures forall i :: 0 <= i < |path| ==> path[i].node != LOCAL_NODE
    ensures forall i, j :: 0 <= i < j < |path| ==> path[i].node != path[j].node
  {
    CheapestIsSimple(links, w, target);
  }

  // ---- The search over a scanned matrix ----

  ghost predicate DistinctCandidates(nodes: seq<TopologyNode>) {
    forall t :: t in nodes ==> forall i, j :: 0 <= i < j < |t.candidates| ==> t.candidates[i] != t.candidates[j]
  }

  /**
   * Source `i` may jump to `t` by address `l.via`: connected, allowed to forward, and no answering
   * address is faster.
   */
  ghost predicate Jumpable(world: Vantage, nodes: seq<TopologyNode>, i: nat, l: Link, t: TopologyNode) {
    && i <= |nodes| && l.from == Source(nodes, i)
    && t in nodes && t.name == l.to && t.name != l.from
    && world.From(nodes, i).Some?
    && !SourceForbids(world, nodes, i)
    && Fastest(world.From(nodes, i).value, t, PortOf(nodes, t.name), l.via)
    && l.latency == world.From(nodes, i).value(t.name, l.via, PortOf(nodes, t.name)).latency
  }

  lemma {:induction false} UsableLinksMember(edges: seq<TopologyEdge>, l: Link)
    ensures l in UsableLinks(edges) <==> exists e :: e in edges && Usable(e) && LinkOf(e) == l
  {
    if edges != [] {
      var front, last := edges[..|edges| - 1], edges[|edges| - 1];
      assert edges == front + [last];
      UsableLinksMember(front, l);
      if l in UsableLinks(edges) && l !in UsableLinks(front) {
        assert last in edges && Usable(last) && LinkOf(last) == l;
      }
    }
  }

  lemma CellIsJumpable(e: TopologyEdge, world: Vantage, nodes: seq<TopologyNode>, i: nat, t: TopologyNode)
    requires DistinctCandidates(nodes)
    requires i <= |nodes| && t in nodes && t.name != Source(nodes, i)
    requires IsCell(e, world, nodes, i, t) && Usable(e)
    ensures Jumpable(world, nodes, i, LinkOf(e), t)
  {
    var dialer, port := world.From(nodes, i).value, PortOf(nodes, t.name);
    var via := e.via.value;
    var k :| 0 <= k < |t.candidates| && t.candidates[k] == via;
    assert e.addresses[k] == ProbeAddress(dialer(t.name, via, port), via, port);
    forall i, j | 0 <= i < j < |e.addresses|
      ensures e.addresses[i].addr != e.addresses[j].addr
    {
      assert e.addresses[i].addr == t.candidates[i] && e.addresses[j].addr == t.candidates[j];
    }
    EdgeLatencyOf(e.addresses, k);
  }

  /** The links the search follows are jumps the network allows, at their true least latency. */
  lemma LinksAreJumpable(edges: seq<TopologyEdge>, world: Vantage, nodes: seq<TopologyNode>, l: Link)
      returns (i: nat, t: TopologyNode)
    requires DistinctCandidates(nodes)
    requires Scanned(edges, world, nodes)
    requires l in UsableLinks(edges)
    ensures Jumpable(world, nodes, i, l, t)
  {
    UsableLinksMember(edges, l);
    var e :| e in edges && Usable(e) && LinkOf(e) == l;
    i, t := CellHasPair(edges, Cells(world, nodes), nodes, |nodes| + 1, e);
    CellIsJumpable(e, world, nodes, i, t);
  }

  /** Source `i` may jump to `t`: it is connected, may forward, and some candidate address of `t` answers it. */
  ghost predicate MayJump(world: Vantage, nodes: seq<TopologyNode>, i: nat, t: TopologyNode) {
    && i <= |nodes| && t in nodes && t.name != Source(nodes, i)
    && world.From(nodes, i).Some? && !SourceForbids(world, nodes, i)
    && exists a :: Answers(world.From(nodes, i).value, t, PortOf(nodes, t.name), a)
  }

  /** Every jump the network allows is offered to the search: some answering address suffices. */
  lemma JumpsHaveLinks(edges: seq<TopologyEdge>, world: Vantage, nodes: seq<TopologyNode>, i: nat, t: TopologyNode)
      returns (l: Link)
    requires Scanned(edges, world, nodes) && MayJump(world, nodes, i, t)
    ensures l in UsableLinks(edges) && l.from == Source(nodes, i) && l.to == t.name
  {
    var e := PairHasCell(edges, Cells(world, nodes), nodes, |nodes| + 1, i, t);
    assert IsCell(e, world, nodes, i, t);
    assert Usable(e);
    UsableLinksMember(edges, LinkOf(e));
    l := LinkOf(e);
  }

  /** `n` can be reached from `local` by at most `k` allowed jumps. */
  ghost predicate JumpsTo(world: Vantage, nodes: seq<TopologyNode>, n: string, k: nat)
    decreases k
  {
    n == LOCAL_NODE
    || (k > 0 && exists i: nat, t ::
          MayJump(world, nodes, i, t) && t.name == n && JumpsTo(world, nodes, Source(nodes, i), k - 1))
  }

  /** Over a scanned matrix the walks of the search reach exactly what allowed jumps reach. */
  lemma WalksAreJumps(edges: seq<TopologyEdge>, world: Vantage, nodes: seq<TopologyNode>, n: string)
    requires DistinctCandidates(nodes) && Scanned(edges, world, nodes)
    ensures (exists w :: IsWalk(UsableLinks(edges), w) && End(w) == n) <==> exists k: nat :: JumpsTo(world, nodes, n, k)
  {
    if w :| IsWalk(UsableLinks(edges), w) && End(w) == n {
      WalkJumps(edges, world, nodes, w);
      assert JumpsTo(world, nodes, n, |w|);
    }
    if k: nat :| JumpsTo(world, nodes, n, k) {
      var w := JumpsWalk(edges, world, nodes, n, k);
      assert IsWalk(UsableLinks(edges), w) && End(w) == n;
    }
  }

  lemma {:induction false} WalkJumps(edges: seq<TopologyEdge>, world: Vantage, nodes: seq<TopologyNode>, w: seq<Link>)
    requires DistinctCandidates(nodes) && Scanned(edges, world, nodes) && IsWalk(UsableLinks(edges), w)
    ensures JumpsTo(world, nodes, End(w), |w|)
    decreases |w|
  {
    if w != [] {
      var v, l := w[..|w| - 1], w[|w| - 1];
      assert w == v + [l];
      WalkJumps(edges, world, nodes, v);
      LastJump(edges, world, nodes, l, |v|);
    }
  }

  lemma LastJump(edges: seq<TopologyEdge>, world: Vantage, nodes: seq<TopologyNode>, l: Link, k: nat)
    requires DistinctCandidates(nodes) && Scanned(edges, world, nodes) && l in UsableLinks(edges)
    requires JumpsTo(world, nodes, l.from, k)
    ensures JumpsTo(world, nodes, l.to, k + 1)
  {
    var i, t := LinksAreJumpable(edges, world, nodes, l);
    OneMoreJump(world, nodes, i, l, t, k);
  }

  lemma OneMoreJump(world: Vantage, nodes: seq<TopologyNode>, i: nat, l: Link, t: TopologyNode, k: nat)
    requires Jumpable(world, nodes, i, l, t) && JumpsTo(world, nodes, l.from, k)
    ensures JumpsTo(world, nodes, l.to, k + 1)
  {
    assert MayJump(world, nodes, i, t) && t.name == l.to;
  }

  lemma {:induction false} JumpsWalk(edges: seq<TopologyEdge>, world: Vantage, nodes: seq<TopologyNode>, n: string,
      k: nat) returns (w: seq<Link>)
    requires Scanned(edges, world, nodes) && JumpsTo(world, nodes, n, k)
    ensures IsWalk(UsableLinks(edges), w) && End(w) == n
    decreases k
  {
    if n == LOCAL_NODE {
      w := [];
    } else {
      var i: nat, t :| MayJump(world, nodes, i, t) && t.name == n && JumpsTo(world, nodes, Source(nodes, i), k - 1);
      var v := JumpsWalk(edges, world, nodes, Source(nodes, i), k - 1);
      var l := JumpsHaveLinks(edges, world, nodes, i, t);
      w := v + [l];
      assert w[..|w| - 1] == v;
    }
  }
}
