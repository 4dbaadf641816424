/** The reachability matrix: probe verdicts, matrix cells, rows and the scan (mcp_ssh/topology.py). */
module Topology {
  import opened Wrappers
  import Text

  const LOCAL_NODE: string := "local"

  /** OPEN_ADMINISTRATIVELY_PROHIBITED, section 5.1 of RFC 4254. */
  const CODE_ADMIN_PROHIBITED := 1

  datatype AddressState = Reachable | Refused | ForwardingDisabled | Filtered

  datatype SourceState = SourceOk | SourceUnreachable | SourceForwardingDisabled

  datatype AddressProbe = AddressProbe(addr: string, port: int, state: AddressState, latency: Option<real>, isSsh: bool)

  datatype TopologyEdge = TopologyEdge(
    fromNode: string,
    toNode: string,
    reachable: bool,
    via: Option<string>,
    addresses: seq<AddressProbe>,
    sourceState: SourceState)

  datatype TopologyNode = TopologyNode(name: string, port: int, candidates: seq<string>)

  /** Where `a` stands first in `s`. */
  function FirstAt(s: seq<string>, a: string): (i: nat)
    requires a in s
    ensures i < |s| && s[i] == a
    ensures forall j :: 0 <= j < i ==> s[j] != a
  {
    if s[0] == a then 0 else 1 + FirstAt(s[1..], a)
  }

  /** `s` lists the addresses of `all`, each once, in the order in which they first come up. */
  ghost predicate ListsOnce(s: seq<string>, all: seq<string>) {
    && (forall a :: a in s <==> a in all)
    && forall i, j :: 0 <= i < j < |s| ==> s[i] in all && s[j] in all && FirstAt(all, s[i]) < FirstAt(all, s[j])
  }

  lemma KeptInOrder(s: seq<string>, all: seq<string>, a: string, i: nat, j: nat)
    requires ListsOnce(s, all) && i < j < |s|
    ensures s[i] in all + [a] && s[j] in all + [a] && FirstAt(all + [a], s[i]) < FirstAt(all + [a], s[j])
  {
    FirstAtKept(all, a, s[i]);
    FirstAtKept(all, a, s[j]);
  }

  lemma NewComesLast(all: seq<string>, a: string, x: string)
    requires x in all && a !in all
    ensures FirstAt(all + [a], x) < FirstAt(all + [a], a)
  {
    FirstAtKept(all, a, x);
    assert (all + [a])[|all|] == a;
  }

  lemma ListsOnceMore(s: seq<string>, all: seq<string>, a: string)
    requires ListsOnce(s, all)
    ensures ListsOnce(if a in s then s else s + [a], all + [a])
  {
    var s' := if a in s then s else s + [a];
    forall i, j | 0 <= i < j < |s'|
      ensures s'[i] in all + [a] && s'[j] in all + [a] && FirstAt(all + [a], s'[i]) < FirstAt(all + [a], s'[j])
    {
      if j < |s| {
        KeptInOrder(s, all, a, i, j);
      } else {
        assert s[i] in s && s'[i] == s[i] && s'[j] == a;
        NewComesLast(all, a, s[i]);
      }
    }
  }

  lemma FirstAtKept(all: seq<string>, a: string, x: string)
    requires x in all
    ensures FirstAt(all + [a], x) == FirstAt(all, x)
  {
    var i, j := FirstAt(all + [a], x), FirstAt(all, x);
    assert (all + [a])[j] == x;
    assert i < |all| ==> all[i] == x;
  }

  lemma ListedOnceIsDistinct(s: seq<string>, all: seq<string>)
    requires ListsOnce(s, all)
    ensures forall i, j :: 0 <= i < j < |s| ==> s[i] != s[j]
  {
  }

  /**
   * The candidate addresses of a node: its registered host, then what was harvested, in the order found
   * and each once.
   */
  method MergeCandidates(host: string, harvested: seq<string>) returns (candidates: seq<string>)
    ensures candidates != [] && candidates[0] == host
    ensures ListsOnce(candidates, [host] + harvested)
    ensures forall i, j :: 0 <= i < j < |candidates| ==> candidates[i] != candidates[j]
  {
    candidates := [host];
    ghost var all := [host] + harvested;
    assert all[..1] == [host];
    for k := 0 to |harvested|
      invariant candidates != [] && candidates[0] == host
      invariant ListsOnce(candidates, all[..k + 1])
    {
      assert all[..k + 2] == all[..k + 1] + [harvested[k]];
      ListsOnceMore(candidates, all[..k + 1], harvested[k]);
      if harvested[k] !in candidates {
        candidates := candidates + [harvested[k]];
      }
    }
    assert all[..|harvested| + 1] == all;
    ListedOnceIsDistinct(candidates, all);
  }

  // ---- One probe ----

  datatype DialError = ChannelOpenError(code: int) | TimedOut | OtherError

  datatype DialResult = Opened(latency: real, isSsh: bool) | DialFailed(error: DialError)

  /** What dialing `(target, addr, port)` from one vantage gives; the network is a parameter. */
  type Dialer = (string, string, int) -> DialResult

  function ClassifyError(error: DialError): AddressState {
    match error
    case ChannelOpenError(code) => if code == CODE_ADMIN_PROHIBITED then ForwardingDisabled else Refused
    case TimedOut => Filtered
    case OtherError => Refused
  }

  /**
   * What one probe must say. Code 1 of a refused channel alone means that forwarding is off, a timeout alone
   * that the address is filtered; every other failure is a refusal.
   */
  ghost predicate TellsDial(probe: AddressProbe, result: DialResult, addr: string, port: int) {
    probe == match result
      case Opened(latency, isSsh) => AddressProbe(addr, port, Reachable, Some(latency), isSsh)
      case DialFailed(TimedOut) => AddressProbe(addr, port, Filtered, None, false)
      case DialFailed(ChannelOpenError(1)) => AddressProbe(addr, port, ForwardingDisabled, None, false)
      case DialFailed(_) => AddressProbe(addr, port, Refused, None, false)
  }

  function ProbeAddress(result: DialResult, addr: string, port: int): AddressProbe {
    match result
    case Opened(latency, isSsh) => AddressProbe(addr, port, Reachable, Some(latency), isSsh)
    case DialFailed(error) => AddressProbe(addr, port, ClassifyError(error), None, false)
  }

  function ProbeAll(dialer: Dialer, target: TopologyNode, port: int): (probes: seq<AddressProbe>)
    ensures |probes| == |target.candidates|
    ensures forall i :: 0 <= i < |probes| ==>
      probes[i] == ProbeAddress(dialer(target.name, target.candidates[i], port), target.candidates[i], port)
  {
    seq(|target.candidates|, i requires 0 <= i < |target.candidates| =>
      ProbeAddress(dialer(target.name, target.candidates[i], port), target.candidates[i], port))
  }

  // ---- One cell ----

  /** Latency order with an unknown latency last. */
  predicate Faster(a: Option<real>, b: Option<real>) {
    a.Some? && (b.None? || a.value < b.value)
  }

  /** The first reachable probe of least latency. */
  function BestProbe(probes: seq<AddressProbe>): (best: Option<AddressProbe>)
    ensures best.None? <==> forall p :: p in probes ==> p.state != Reachable
    ensures best.Some? ==> best.value in probes && best.value.state == Reachable
    ensures best.Some? ==> forall p :: p in probes && p.state == Reachable ==> !Faster(p.latency, best.value.latency)
  {
    if probes == [] then None
    else
      var front, last := probes[..|probes| - 1], probes[|probes| - 1];
      assert probes == front + [last];
      var best := BestProbe(front);
      if last.state == Reachable && (best.None? || Faster(last.latency, best.value.latency)) then Some(last) else best
  }

  /** Of equally fast probes the first one wins. */
  lemma {:induction false} BestProbeIsFirst(probes: seq<AddressProbe>) returns (k: nat)
    requires BestProbe(probes).Some?
    ensures k < |probes| && probes[k] == BestProbe(probes).value
    ensures forall i :: 0 <= i < k && probes[i].state == Reachable ==> Faster(probes[k].latency, probes[i].latency)
  {
    var front, last := probes[..|probes| - 1], probes[|probes| - 1];
    var before := BestProbe(front);
    k := |probes| - 1;
    if last.state == Reachable && (before.None? || Faster(last.latency, before.value.latency)) {
      forall i | 0 <= i < k && probes[i].state == Reachable
        ensures Faster(last.latency, probes[i].latency)
      {
        assert front[i] in front;
      }
    } else {
      k := BestProbeIsFirst(front);
    }
  }

  function AggregateCell(fromNode: string, toNode: string, probes: seq<AddressProbe>): TopologyEdge {
    var best := BestProbe(probes);
    TopologyEdge(fromNode, toNode, best.Some?, if best.Some? then Some(best.value.addr) else None, probes, SourceOk)
  }

  /** The latency of the winning address, or 0.0 when no probe of that address carries one. */
  function EdgeLatency(via: string, probes: seq<AddressProbe>): real {
    if probes == [] then 0.0
    else if probes[0].addr == via && probes[0].latency.Some? then probes[0].latency.value
    else EdgeLatency(via, probes[1..])
  }

  lemma {:induction false} EdgeLatencyOf(probes: seq<AddressProbe>, k: nat)
    requires k < |probes| && probes[k].latency.Some?
    requires forall i, j :: 0 <= i < j < |probes| ==> probes[i].addr != probes[j].addr
    ensures EdgeLatency(probes[k].addr, probes) == probes[k].latency.value
  {
    if k > 0 {
      EdgeLatencyOf(probes[1..], k - 1);
    }
  }

  // ---- One row ----

  /** The targets a row has a cell for. */
  function Others(source: string, targets: seq<TopologyNode>): seq<TopologyNode> {
    if targets == [] then []
    else
      var front, last := Others(source, targets[..|targets| - 1]), targets[|targets| - 1];
      if last.name == source then front else front + [last]
  }

  /** Some probe of the row met a source that forbids forwarding. */
  ghost predicate ForwardingOff(dialer: Dialer, others: seq<TopologyNode>, portOf: map<string, int>)
    requires forall t :: t in others ==> t.name in portOf
  {
    exists t :: t in others && ForwardingOffTo(dialer, t, portOf[t.name])
  }

  ghost predicate ForwardingOffTo(dialer: Dialer, t: TopologyNode, port: int) {
    exists a :: a in t.candidates && dialer(t.name, a, port) == DialFailed(ChannelOpenError(1))
  }

  ghost predicate Answers(dialer: Dialer, t: TopologyNode, port: int, a: string) {
    a in t.candidates && dialer(t.name, a, port).Opened?
  }

  /** `a` answers, and no candidate of `t` that answers does so faster. */
  ghost predicate Fastest(dialer: Dialer, t: TopologyNode, port: int, a: string) {
    && Answers(dialer, t, port, a)
    && forall b :: Answers(dialer, t, port, b) ==>
         dialer(t.name, a, port).latency <= dialer(t.name, b, port).latency
  }

  /** What one cell must say about its ordered pair; `off` is the row's forwarding verdict. */
  ghost predicate CellMeaning(edge: TopologyEdge, source: string, dialer: Option<Dialer>, t: TopologyNode, port: int,
      off: bool) {
    && edge.fromNode == source && edge.toNode == t.name
    && edge.addresses == (if dialer.None? then [] else ProbeAll(dialer.value, t, port))
    && edge.sourceState ==
       (if dialer.None? then SourceUnreachable else if off then SourceForwardingDisabled else SourceOk)
    && (edge.reachable <==> dialer.Some? && !off && exists a :: Answers(dialer.value, t, port, a))
    && (edge.via.Some? <==> edge.reachable)
    && (edge.via.Some? ==> Fastest(dialer.value, t, port, edge.via.value))
  }

  /** One cell per target of `others`, in order, each saying what it must. */
  ghost predicate RowCells(edges: seq<TopologyEdge>, source: string, dialer: Option<Dialer>, others: seq<TopologyNode>,
      portOf: map<string, int>, off: bool)
    requires forall t :: t in others ==> t.name in portOf
  {
    && |edges| == |others|
    && forall k :: 0 <= k < |edges| ==> CellMeaning(edges[k], source, dialer, others[k], portOf[others[k].name], off)
  }

  ghost predicate RowMeaning(edges: seq<TopologyEdge>, source: string, dialer: Option<Dialer>,
      targets: seq<TopologyNode>, portOf: map<string, int>)
    requires forall t :: t in targets ==> t.name in portOf
  {
    var others := Others(source, targets);
    OthersMember(source, targets);
    RowCells(edges, source, dialer, others, portOf, dialer.Some? && ForwardingOff(dialer.value, others, portOf))
  }

  lemma {:induction false} OthersMember(source: string, targets: seq<TopologyNode>)
    ensures forall t :: t in Others(source, targets) <==> t in targets && t.name != source
  {
    if targets != [] {
      OthersMember(source, targets[..|targets| - 1]);
      assert targets == targets[..|targets| - 1] + [targets[|targets| - 1]];
    }
  }

  /** The probes of a target are those of its candidate addresses, each what the dial says. */
  lemma ProbesAre(dialer: Dialer, t: TopologyNode, port: int)
    ensures forall a :: a in t.candidates ==>
      ProbeAddress(dialer(t.name, a, port), a, port) in ProbeAll(dialer, t, port)
    ensures forall p :: p in ProbeAll(dialer, t, port) ==>
      p.addr in t.candidates && p == ProbeAddress(dialer(t.name, p.addr, port), p.addr, port)
  {
    var probes := ProbeAll(dialer, t, port);
    forall a | a in t.candidates
      ensures ProbeAddress(dialer(t.name, a, port), a, port) in probes
    {
      var i :| 0 <= i < |t.candidates| && t.candidates[i] == a;
      assert probes[i] == ProbeAddress(dialer(t.name, a, port), a, port);
    }
  }

  /** The best probe is one of a fastest answering address; there is none when no address answers. */
  lemma BestAnswer(dialer: Dialer, t: TopologyNode, port: int)
    ensures var best := BestProbe(ProbeAll(dialer, t, port));
            && (best.Some? <==> exists a :: Answers(dialer, t, port, a))
            && (best.Some? ==> Fastest(dialer, t, port, best.value.addr))
  {
    ProbesAre(dialer, t, port);
    var best := BestProbe(ProbeAll(dialer, t, port));
    if best.Some? {
      assert Answers(dialer, t, port, best.value.addr);
    }
    forall b | Answers(dialer, t, port, b)
      ensures best.Some? && dialer(t.name, best.value.addr, port).latency <= dialer(t.name, b, port).latency
    {
      var p := ProbeAddress(dialer(t.name, b, port), b, port);
      assert p in ProbeAll(dialer, t, port) && p.state == Reachable;
    }
  }

  lemma ForwardingSeen(dialer: Dialer, t: TopologyNode, port: int)
    ensures (exists p :: p in ProbeAll(dialer, t, port) && p.state == ForwardingDisabled) <==>
      ForwardingOffTo(dialer, t, port)
  {
    ProbesAre(dialer, t, port);
    if ForwardingOffTo(dialer, t, port) {
      var a :| a in t.candidates && dialer(t.name, a, port) == DialFailed(ChannelOpenError(1));
      assert ProbeAddress(dialer(t.name, a, port), a, port).state == ForwardingDisabled;
    }
  }

  lemma AggregateMeaning(dialer: Dialer, source: string, t: TopologyNode, port: int)
    ensures CellMeaning(AggregateCell(source, t.name, ProbeAll(dialer, t, port)), source, Some(dialer), t, port, false)
    ensures (exists p :: p in ProbeAll(dialer, t, port) && p.state == ForwardingDisabled) <==>
      ForwardingOffTo(dialer, t, port)
  {
    BestAnswer(dialer, t, port);
    ForwardingSeen(dialer, t, port);
  }

  lemma OthersStep(source: string, targets: seq<TopologyNode>, k: nat)
    requires k < |targets|
    ensures var front := Others(source, targets[..k]);
            Others(source, targets[..k + 1]) == if targets[k].name == source then front else front + [targets[k]]
    ensures forall t :: t in Others(source, targets[..k + 1]) ==> t in targets
  {
    assert targets[..k + 1][..k] == targets[..k];
    OthersMember(source, targets[..k + 1]);
  }

  lemma RowGrows(edges: seq<TopologyEdge>, edge: TopologyEdge, source: string, dialer: Option<Dialer>,
      others: seq<TopologyNode>, t: TopologyNode, portOf: map<string, int>)
    requires forall o :: o in others + [t] ==> o.name in portOf
    requires forall o :: o in others ==> o.name in portOf
    requires t.name in portOf
    requires RowCells(edges, source, dialer, others, portOf, false)
    requires CellMeaning(edge, source, dialer, t, portOf[t.name], false)
    ensures RowCells(edges + [edge], source, dialer, others + [t], portOf, false)
  {
  }

  lemma ForwardingOffGrows(dialer: Dialer, others: seq<TopologyNode>, t: TopologyNode, portOf: map<string, int>)
    requires forall o :: o in others + [t] ==> o.name in portOf
    requires forall o :: o in others ==> o.name in portOf
    requires t.name in portOf
    ensures ForwardingOff(dialer, others + [t], portOf) <==>
      ForwardingOff(dialer, others, portOf) || ForwardingOffTo(dialer, t, portOf[t.name])
  {
    assert (others + [t])[|others|] == t;
    if o :| o in others && ForwardingOffTo(dialer, o, portOf[o.name]) {
      assert o in others + [t];
    }
  }

  /** Relabelling turns the cells of a row that found forwarding off into what such a row must say. */
  lemma RelabelledRow(edges: seq<TopologyEdge>, source: string, dialer: Dialer, others: seq<TopologyNode>,
      portOf: map<string, int>)
    requires forall t :: t in others ==> t.name in portOf
    requires RowCells(edges, source, Some(dialer), others, portOf, false)
    ensures RowCells(Relabel(edges), source, Some(dialer), others, portOf, true)
  {
    forall k | 0 <= k < |edges|
      ensures CellMeaning(Relabel(edges)[k], source, Some(dialer), others[k], portOf[others[k].name], true)
    {
      assert CellMeaning(edges[k], source, Some(dialer), others[k], portOf[others[k].name], false);
    }
  }

  /** _scan_row: probes every other target from `source`, then relabels a row that may not forward. */
  method ScanRow(source: string, dialer: Option<Dialer>, targets: seq<TopologyNode>, portOf: map<string, int>)
    returns (edges: seq<TopologyEdge>)
    requires forall t :: t in targets ==> t.name in portOf
    ensures RowMeaning(edges, source, dialer, targets, portOf)
  {
    edges := [];
    var forwardingDisabled := false;
    ghost var others: seq<TopologyNode> := [];
    for k := 0 to |targets|
      invariant others == Others(source, targets[..k])
      invariant forall t :: t in others ==> t in targets
      invariant RowCells(edges, source, dialer, others, portOf, false)
      invariant forwardingDisabled <==> dialer.Some? && ForwardingOff(dialer.value, others, portOf)
    {
      var target := targets[k];
      OthersStep(source, targets, k);
      if target.name != source {
        var edge, off := ScanCell(source, dialer, target, portOf[target.name]);
        RowGrows(edges, edge, source, dialer, others, target, portOf);
        if dialer.Some? {
          ForwardingOffGrows(dialer.value, others, target, portOf);
        }
        edges, forwardingDisabled := edges + [edge], forwardingDisabled || off;
        others := others + [target];
      }
    }
    assert targets[..|targets|] == targets;
    if forwardingDisabled {
      RelabelledRow(edges, source, dialer.value, others, portOf);
      edges := Relabel(edges);
    }
  }

  /** One target of a row: probed at every address, unless the source could not be reached at all. */
  method ScanCell(source: string, dialer: Option<Dialer>, target: TopologyNode, port: int)
      returns (edge: TopologyEdge, off: bool)
    ensures CellMeaning(edge, source, dialer, target, port, false)
    ensures off <==> dialer.Some? && ForwardingOffTo(dialer.value, target, port)
  {
    if dialer.None? {
      return TopologyEdge(source, target.name, false, None, [], SourceUnreachable), false;
    }
    var probes := ProbeAll(dialer.value, target, port);
    AggregateMeaning(dialer.value, source, target, port);
    return AggregateCell(source, target.name, probes), exists p :: p in probes && p.state == ForwardingDisabled;
  }

  /** A row whose source may not forward: indeterminate, and unusable as a jump hop. */
  function Relabel(edges: seq<TopologyEdge>): (r: seq<TopologyEdge>)
    ensures |r| == |edges|
    ensures forall i :: 0 <= i < |edges| ==>
      r[i] == edges[i].(sourceState := SourceForwardingDisabled, reachable := false, via := None)
  {
    seq(|edges|, i requires 0 <= i < |edges| =>
      edges[i].(sourceState := SourceForwardingDisabled, reachable := false, via := None))
  }

  // ---- The whole matrix ----

  /** The sources in scan order: `local`, then every node. */
  function Source(nodes: seq<TopologyNode>, i: nat): string
    requires i <= |nodes|
  {
    if i == 0 then LOCAL_NODE else nodes[i - 1].name
  }

  /** The network as the scan sees it: the local dialer, and that of each server a connection was made to. */
  datatype Vantage = Vantage(local: Dialer, servers: map<string, Dialer>) {
    /** What source `i` dials with, or None when it cannot be reached. */
    function From(nodes: seq<TopologyNode>, i: nat): Option<Dialer>
      requires i <= |nodes|
    {
      if i == 0 then Some(local)
      else if Source(nodes, i) in servers then Some(servers[Source(nodes, i)])
      else None
    }
  }

  ghost predicate UniqueNames(nodes: seq<TopologyNode>) {
    forall i, j :: 0 <= i < j < |nodes| ==> nodes[i].name != nodes[j].name
  }

  ghost predicate NoneIsLocal(nodes: seq<TopologyNode>) {
    forall i :: 0 <= i < |nodes| ==> nodes[i].name != LOCAL_NODE
  }

  /** The port a target is probed at: that of the last node of its name. */
  function PortOf(nodes: seq<TopologyNode>, name: string): int {
    if nodes == [] then 0
    else if nodes[|nodes| - 1].name == name then nodes[|nodes| - 1].port
    else PortOf(nodes[..|nodes| - 1], name)
  }

  /** With unique names that is the node's own port. */
  lemma {:induction false} UniquePort(nodes: seq<TopologyNode>, t: TopologyNode)
    requires UniqueNames(nodes) && t in nodes
    ensures PortOf(nodes, t.name) == t.port
  {
    var front, last := nodes[..|nodes| - 1], nodes[|nodes| - 1];
    assert nodes == front + [last];
    if t in front {
      var i :| 0 <= i < |front| && front[i] == t;
      assert nodes[i] == t;
      UniqueFront(front, last);
      UniquePort(front, t);
    }
  }

  lemma UniqueFront(front: seq<TopologyNode>, last: TopologyNode)
    requires UniqueNames(front + [last])
    ensures UniqueNames(front)
  {
    assert forall i :: 0 <= i < |front| ==> (front + [last])[i] == front[i];
  }

  /** TCP forwarding is off at source `i`: some probe of its row came back prohibited. */
  ghost predicate SourceForbids(world: Vantage, nodes: seq<TopologyNode>, i: nat)
    requires i <= |nodes|
  {
    && world.From(nodes, i).Some?
    && exists t :: t in nodes && t.name != Source(nodes, i)
         && ForwardingOffTo(world.From(nodes, i).value, t, PortOf(nodes, t.name))
  }

  ghost predicate IsCell(edge: TopologyEdge, world: Vantage, nodes: seq<TopologyNode>, i: nat, t: TopologyNode)
    requires i <= |nodes|
  {
    CellMeaning(edge, Source(nodes, i), world.From(nodes, i), t, PortOf(nodes, t.name), SourceForbids(world, nodes, i))
  }

  /** What a cell of source `i` and target `t` must say, as a value the row and matrix shapes take. */
  type CellTest = (TopologyEdge, nat, TopologyNode) -> bool

  ghost function Cells(world: Vantage, nodes: seq<TopologyNode>): CellTest {
    (edge: TopologyEdge, i: nat, t: TopologyNode) => i <= |nodes| && IsCell(edge, world, nodes, i, t)
  }

  /** `edges` holds the row of source `i`: one cell per other node, in node order. */
  ghost predicate IsRow(edges: seq<TopologyEdge>, cell: CellTest, nodes: seq<TopologyNode>, i: nat)
    requires i <= |nodes|
  {
    var others := Others(Source(nodes, i), nodes);
    && |edges| == |others|
    && forall k :: 0 <= k < |edges| ==> cell(edges[k], i, others[k])
  }

  /** `edges` is the concatenation of the first `k` rows. */
  ghost predicate IsMatrix(edges: seq<TopologyEdge>, cell: CellTest, nodes: seq<TopologyNode>, k: nat)
    requires k <= |nodes| + 1
    decreases k
  {
    if k == 0 then edges == []
    else
      var width := |Others(Source(nodes, k - 1), nodes)|;
      && width <= |edges|
      && IsMatrix(edges[..|edges| - width], cell, nodes, k - 1)
      && IsRow(edges[|edges| - width..], cell, nodes, k - 1)
  }

  /** `edges` is the whole matrix of a scan. */
  ghost predicate Scanned(edges: seq<TopologyEdge>, world: Vantage, nodes: seq<TopologyNode>) {
    IsMatrix(edges, Cells(world, nodes), nodes, |nodes| + 1)
  }

  ghost predicate KnowsPorts(portOf: map<string, int>, nodes: seq<TopologyNode>, k: nat)
    requires k <= |nodes|
  {
    forall i :: 0 <= i < k ==> nodes[i].name in portOf && portOf[nodes[i].name] == PortOf(nodes[..k], nodes[i].name)
  }

  /** The dictionary of ports: a later node of the same name overwrites an earlier one's. */
  method CollectPorts(nodes: seq<TopologyNode>) returns (portOf: map<string, int>)
    ensures KnowsPorts(portOf, nodes, |nodes|)
  {
    portOf := map[];
    for k := 0 to |nodes|
      invariant KnowsPorts(portOf, nodes, k)
    {
      assert nodes[..k + 1][..k] == nodes[..k];
      portOf := portOf[nodes[k].name := nodes[k].port];
    }
  }

  /** The row of source `i`, whose dialer is looked up first. */
  method ScanFrom(nodes: seq<TopologyNode>, world: Vantage, portOf: map<string, int>, i: nat)
      returns (row: seq<TopologyEdge>)
    requires i <= |nodes| && KnowsPorts(portOf, nodes, |nodes|)
    ensures IsRow(row, Cells(world, nodes), nodes, i)
  {
    forall t | t in nodes
      ensures t.name in portOf
    {
      var j :| 0 <= j < |nodes| && nodes[j] == t;
    }
    row := ScanRow(Source(nodes, i), world.From(nodes, i), nodes, portOf);
    RowIsRow(row, world, nodes, portOf, i);
  }

  /** scan_topology from the harvested nodes on: the `local` row, then one row per node. */
  method ScanTopology(nodes: seq<TopologyNode>, world: Vantage) returns (edges: seq<TopologyEdge>)
    ensures Scanned(edges, world, nodes)
  {
    var portOf := CollectPorts(nodes);
    edges := [];
    for i := 0 to |nodes| + 1
      invariant IsMatrix(edges, Cells(world, nodes), nodes, i)
    {
      var row := ScanFrom(nodes, world, portOf, i);
      MatrixGrows(edges, row, Cells(world, nodes), nodes, i);
      edges := edges + row;
    }
  }

  lemma MatrixGrows(edges: seq<TopologyEdge>, row: seq<TopologyEdge>, cell: CellTest, nodes: seq<TopologyNode>, k: nat)
    requires k <= |nodes| && IsMatrix(edges, cell, nodes, k) && IsRow(row, cell, nodes, k)
    ensures IsMatrix(edges + row, cell, nodes, k + 1)
  {
    var all := edges + row;
    assert all[..|all| - |row|] == edges && all[|all| - |row|..] == row;
  }

  lemma RowIsRow(edges: seq<TopologyEdge>, world: Vantage, nodes: seq<TopologyNode>, portOf: map<string, int>, i: nat)
    requires i <= |nodes| && KnowsPorts(portOf, nodes, |nodes|)
    requires forall t :: t in nodes ==> t.name in portOf
    requires RowMeaning(edges, Source(nodes, i), world.From(nodes, i), nodes, portOf)
    ensures IsRow(edges, Cells(world, nodes), nodes, i)
  {
    var dialer, others := world.From(nodes, i), Others(Source(nodes, i), nodes);
    OthersMember(Source(nodes, i), nodes);
    assert nodes[..|nodes|] == nodes;
    forall t | t in nodes
      ensures portOf[t.name] == PortOf(nodes, t.name)
    {
      var j :| 0 <= j < |nodes| && nodes[j] == t;
    }
    assert (dialer.Some? && ForwardingOff(dialer.value, others, portOf)) <==> SourceForbids(world, nodes, i);
    forall k | 0 <= k < |edges|
      ensures IsCell(edges[k], world, nodes, i, others[k])
    {
      assert others[k] in nodes;
    }
  }

  // ---- What the matrix says ----

  lemma {:induction false} OthersCount(source: string, nodes: seq<TopologyNode>)
    requires UniqueNames(nodes)
    ensures |Others(source, nodes)| == |nodes| - (if exists t :: t in nodes && t.name == source then 1 else 0)
  {
    if nodes != [] {
      var front, last := nodes[..|nodes| - 1], nodes[|nodes| - 1];
      assert nodes == front + [last];
      OthersCount(source, front);
    }
  }

  /** n uniquely named servers, none of them called `local`, give exactly n*n cells. */
  lemma {:induction false} MatrixSize(edges: seq<TopologyEdge>, cell: CellTest, nodes: seq<TopologyNode>, k: nat)
    requires UniqueNames(nodes) && NoneIsLocal(nodes)
    requires k <= |nodes| + 1 && IsMatrix(edges, cell, nodes, k)
    ensures |edges| == if k == 0 then 0 else |nodes| + (k - 1) * (|nodes| - 1)
    ensures k == |nodes| + 1 ==> |edges| == |nodes| * |nodes|
    decreases k
  {
    if k > 0 {
      var source := Source(nodes, k - 1);
      var width := |Others(source, nodes)|;
      OthersCount(source, nodes);
      MatrixSize(edges[..|edges| - width], cell, nodes, k - 1);
      if k > 1 {
        assert nodes[k - 2] in nodes && nodes[k - 2].name == source;
        assert (k - 1) * (|nodes| - 1) == (k - 2) * (|nodes| - 1) + (|nodes| - 1);
      }
      if k == |nodes| + 1 {
        assert |nodes| + |nodes| * (|nodes| - 1) == |nodes| * |nodes|;
      }
    }
  }

  /** Every ordered pair of the first `k` sources and a node of another name has its cell. */
  lemma {:induction false} PairHasCell(edges: seq<TopologyEdge>, cell: CellTest, nodes: seq<TopologyNode>, k: nat,
      i: nat, t: TopologyNode)
    returns (e: TopologyEdge)
    requires k <= |nodes| + 1 && IsMatrix(edges, cell, nodes, k)
    requires i < k && t in nodes && t.name != Source(nodes, i)
    ensures e in edges && cell(e, i, t)
    decreases k
  {
    var at := |edges| - |Others(Source(nodes, k - 1), nodes)|;
    assert edges == edges[..at] + edges[at..];
    if i < k - 1 {
      e := PairHasCell(edges[..at], cell, nodes, k - 1, i, t);
    } else {
      e := RowHasCell(edges[at..], cell, nodes, i, t);
    }
  }

  lemma RowHasCell(row: seq<TopologyEdge>, cell: CellTest, nodes: seq<TopologyNode>, i: nat, t: TopologyNode)
    returns (e: TopologyEdge)
    requires i <= |nodes| && IsRow(row, cell, nodes, i) && t in nodes && t.name != Source(nodes, i)
    ensures e in row && cell(e, i, t)
  {
    var others := Others(Source(nodes, i), nodes);
    OthersMember(Source(nodes, i), nodes);
    var j :| 0 <= j < |others| && others[j] == t;
    e := row[j];
  }

  /**
   * The matrix read from the network. For `local` and for every node as a source, each node of another name
   * has a cell, told from what that very source dials with, if it could be connected at all: the target can
   * be reached exactly when some candidate address of it opens and no dial from there to any other node
   * comes back with code 1; `via` is then a candidate that opens and that none opening beats; and each
   * candidate address is listed with what its dial gave.
   */
  lemma MatrixTellsNetwork(edges: seq<TopologyEdge>, world: Vantage, nodes: seq<TopologyNode>, i: nat,
      source: string, dialer: Option<Dialer>, t: TopologyNode) returns (e: TopologyEdge)
    requires Scanned(edges, world, nodes) && i <= |nodes|
    requires source == (if i == 0 then "local" else nodes[i - 1].name) && t in nodes && t.name != source
    requires dialer == (if i == 0 then Some(world.local)
      else if source in world.servers then Some(world.servers[source]) else None)
    ensures e in edges
    ensures CellMeaning(e, source, dialer, t, PortOf(nodes, t.name), dialer.Some? && exists u ::
              u in nodes && u.name != source && ForwardingOffTo(dialer.value, u, PortOf(nodes, u.name)))
    ensures |e.addresses| == if dialer.None? then 0 else |t.candidates|
    ensures dialer.Some? ==> forall k :: 0 <= k < |t.candidates| ==>
      TellsDial(e.addresses[k], dialer.value(t.name, t.candidates[k], PortOf(nodes, t.name)), t.candidates[k],
                PortOf(nodes, t.name))
  {
    e := PairHasCell(edges, Cells(world, nodes), nodes, |nodes| + 1, i, t);
    CellFromSource(e, world, nodes, i, source, dialer, t);
    if dialer.Some? {
      CellTellsDials(e, source, dialer.value, t, PortOf(nodes, t.name), e.sourceState == SourceForwardingDisabled);
    }
  }

  lemma CellFromSource(e: TopologyEdge, world: Vantage, nodes: seq<TopologyNode>, i: nat, source: string,
      dialer: Option<Dialer>, t: TopologyNode)
    requires i <= |nodes| && IsCell(e, world, nodes, i, t)
    requires source == (if i == 0 then "local" else nodes[i - 1].name)
    requires dialer == (if i == 0 then Some(world.local)
      else if source in world.servers then Some(world.servers[source]) else None)
    ensures CellMeaning(e, source, dialer, t, PortOf(nodes, t.name), dialer.Some? && exists u ::
              u in nodes && u.name != source && ForwardingOffTo(dialer.value, u, PortOf(nodes, u.name)))
  {
    assert source == Source(nodes, i) && dialer == world.From(nodes, i);
  }

  lemma CellTellsDials(e: TopologyEdge, source: string, dialer: Dialer, t: TopologyNode, port: int, off: bool)
    requires CellMeaning(e, source, Some(dialer), t, port, off)
    ensures |e.addresses| == |t.candidates|
    ensures forall k :: 0 <= k < |t.candidates| ==>
      TellsDial(e.addresses[k], dialer(t.name, t.candidates[k], port), t.candidates[k], port)
  {
  }

  /** Every cell belongs to an ordered pair of a source and a node of another name. */
  lemma {:induction false} CellHasPair(edges: seq<TopologyEdge>, cell: CellTest, nodes: seq<TopologyNode>, k: nat,
      e: TopologyEdge)
    returns (i: nat, t: TopologyNode)
    requires k <= |nodes| + 1 && IsMatrix(edges, cell, nodes, k) && e in edges
    ensures i < k && t in nodes && t.name != Source(nodes, i) && cell(e, i, t)
    decreases k
  {
    var at := |edges| - |Others(Source(nodes, k - 1), nodes)|;
    assert edges == edges[..at] + edges[at..];
    if e in edges[..at] {
      i, t := CellHasPair(edges[..at], cell, nodes, k - 1, e);
    } else {
      i := k - 1;
      t := CellOfRow(edges[at..], cell, nodes, i, e);
    }
  }

  lemma CellOfRow(row: seq<TopologyEdge>, cell: CellTest, nodes: seq<TopologyNode>, i: nat, e: TopologyEdge)
    returns (t: TopologyNode)
    requires i <= |nodes| && IsRow(row, cell, nodes, i) && e in row
    ensures t in nodes && t.name != Source(nodes, i) && cell(e, i, t)
  {
    var j :| 0 <= j < |row| && row[j] == e;
    OthersMember(Source(nodes, i), nodes);
    t := Others(Source(nodes, i), nodes)[j];
  }

  /** No ordered pair has two cells when names are unique and none is `local`. */
  lemma {:induction false} CellsAreUnique(edges: seq<TopologyEdge>, cell: CellTest, nodes: seq<TopologyNode>, k: nat,
      x: nat, y: nat)
    requires UniqueNames(nodes) && NoneIsLocal(nodes)
    requires k <= |nodes| + 1 && IsMatrix(edges, cell, nodes, k)
    requires forall e, i: nat, t :: cell(e, i, t) ==>
      i <= |nodes| && e.fromNode == Source(nodes, i) && e.toNode == t.name
    requires x < y < |edges|
    ensures edges[x].fromNode != edges[y].fromNode || edges[x].toNode != edges[y].toNode
    decreases k
  {
    if k > 0 {
      var source := Source(nodes, k - 1);
      var others := Others(source, nodes);
      var at := |edges| - |others|;
      if y < at {
        CellsAreUnique(edges[..at], cell, nodes, k - 1, x, y);
      } else if x < at {
        assert edges[..at][x] == edges[x];
        var i, t := CellHasPair(edges[..at], cell, nodes, k - 1, edges[x]);
        assert edges[at..][y - at] == edges[y];
        SourcesDiffer(nodes, i, k - 1);
      } else {
        assert edges[at..][x - at] == edges[x] && edges[at..][y - at] == edges[y];
        OthersUnique(source, nodes);
        assert others[x - at].name != others[y - at].name;
      }
    }
  }

  lemma SourcesDiffer(nodes: seq<TopologyNode>, i: nat, j: nat)
    requires UniqueNames(nodes) && NoneIsLocal(nodes) && i < j <= |nodes|
    ensures Source(nodes, i) != Source(nodes, j)
  {
    assert nodes[j - 1].name != LOCAL_NODE;
    if i > 0 {
      assert nodes[i - 1].name != nodes[j - 1].name;
    }
  }

  lemma {:induction false} OthersUnique(source: string, nodes: seq<TopologyNode>)
    requires UniqueNames(nodes)
    ensures UniqueNames(Others(source, nodes))
  {
    if nodes != [] {
      var front, last := nodes[..|nodes| - 1], nodes[|nodes| - 1];
      OthersUnique(source, front);
      OthersMember(source, front);
      forall i | 0 <= i < |Others(source, front)|
        ensures Others(source, front)[i].name != last.name
      {
        assert Others(source, front)[i] in front;
      }
    }
  }

  // ---- Adjacency ----

  /** The targets of the reachable cells of `source`, in matrix order. */
  function ReachableFrom(edges: seq<TopologyEdge>, source: string): seq<string> {
    if edges == [] then []
    else
      var front, last := ReachableFrom(edges[..|edges| - 1], source), edges[|edges| - 1];
      if last.reachable && last.fromNode == source then front + [last.toNode] else front
  }

  lemma {:induction false} ReachableFromMember(edges: seq<TopologyEdge>, source: string, t: string)
    ensures t in ReachableFrom(edges, source) <==>
      exists e :: e in edges && e.reachable && e.fromNode == source && e.toNode == t
  {
    if edges != [] {
      var front, last := edges[..|edges| - 1], edges[|edges| - 1];
      assert edges == front + [last];
      ReachableFromMember(front, source, t);
      if t in ReachableFrom(edges, source) && t !in ReachableFrom(front, source) {
        assert last in edges;
      }
    }
  }

  /** _build_adjacency: per source the sorted targets of its reachable cells, no key for a source without any. */
  method BuildAdjacency(edges: seq<TopologyEdge>) returns (adj: map<string, seq<string>>)
    ensures forall s :: s in adj <==> ReachableFrom(edges, s) != []
    ensures forall s :: s in adj ==> Text.Sorted(adj[s]) && multiset(adj[s]) == multiset(ReachableFrom(edges, s))
  {
    adj := map[];
    for k := 0 to |edges|
      invariant forall s :: s in adj <==> ReachableFrom(edges[..k], s) != []
      invariant forall s :: s in adj ==> adj[s] == ReachableFrom(edges[..k], s)
    {
      var e := edges[k];
      assert edges[..k + 1][..k] == edges[..k];
      if e.reachable {
        adj := adj[e.fromNode := (if e.fromNode in adj then adj[e.fromNode] else []) + [e.toNode]];
      }
    }
    assert edges[..|edges|] == edges;
    adj := map s | s in adj :: Text.Sort(adj[s]);
  }
}
