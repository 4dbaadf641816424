/** What the truncated flag of a discovery run says (mcp_ssh/discovery.py, run and _expand). */
module DiscoveryFlag {
  import opened Discovery
  import opened DiscoverySafety
  import opened DiscoveryReach

  /** A seed or a host stands at the depth bound or deeper, where it is not expanded. */
  ghost predicate Deep(p: Params, seeds: seq<Node>, e: Engine) {
    || (exists s :: s in seeds && s.depth >= p.maxDepth)
    || (exists i :: 0 <= i < |e.discovered| && e.discovered[i].depth >= p.maxDepth)
  }

  /** The flag is set only for a cause, and a look that met the deadline sets it. */
  ghost predicate FlagFits(p: Params, w: World, seeds: seq<Node>, e: Engine) {
    && (e.truncated ==> Late(w, e) || |e.discovered| >= p.maxNodes || Deep(p, seeds, e))
    && (Late(w, e) ==> e.truncated)
  }

  /**
   * What the flag of a finished run says: a look met the deadline, or the node bound was met with
   * something to look at, or something stands at the depth bound.
   */
  ghost predicate FlagExact(p: Params, w: World, seeds: seq<Node>, e: Engine) {
    e.truncated <==>
      || (exists t: nat :: t < e.looks && w.expired(t))
      || (seeds != [] && |e.discovered| >= p.maxNodes)
      || (exists s :: s in seeds && s.depth >= p.maxDepth)
      || (exists i :: 0 <= i < |e.discovered| && e.discovered[i].depth >= p.maxDepth)
  }

  /** What later stretches of a run do to the flag and the hosts: it stays set, and new hosts stand at `depth`. */
  ghost predicate Progress(e': Engine, e: Engine, depth: int) {
    && (e.truncated ==> e'.truncated)
    && |e.discovered| <= |e'.discovered|
    && (forall i :: 0 <= i < |e.discovered| ==> e'.discovered[i].depth == e.discovered[i].depth)
    && (forall i :: |e.discovered| <= i < |e'.discovered| ==> e'.discovered[i].depth == depth)
  }

  lemma ProgressTrans(e2: Engine, e1: Engine, e0: Engine, depth: int)
    requires Progress(e2, e1, depth) && Progress(e1, e0, depth)
    ensures Progress(e2, e0, depth)
  {
  }

  lemma DeepKept(p: Params, seeds: seq<Node>, e: Engine, e': Engine, depth: int)
    requires Progress(e', e, depth) && Deep(p, seeds, e)
    ensures Deep(p, seeds, e')
  {
    if i :| 0 <= i < |e.discovered| && e.discovered[i].depth >= p.maxDepth {
      assert e'.discovered[i].depth >= p.maxDepth;
    }
  }

  /** What becomes deep is new. */
  lemma DeepIsNew(p: Params, seeds: seq<Node>, e: Engine, e': Engine, depth: int)
    requires Progress(e', e, depth) && Deep(p, seeds, e') && !Deep(p, seeds, e)
    ensures |e'.discovered| > |e.discovered| && depth >= p.maxDepth
  {
    var i :| 0 <= i < |e'.discovered| && e'.discovered[i].depth >= p.maxDepth;
  }

  /** A look makes the run late exactly when the deadline has passed. */
  lemma LateLook(w: World, e: Engine, e': Engine)
    requires e'.looks == e.looks + 1
    ensures Late(w, e') <==> Late(w, e) || w.expired(e.looks)
  {
    if Late(w, e) {
      var t: nat :| t < e.looks && w.expired(t);
      assert t < e'.looks;
    }
    if w.expired(e.looks) {
      assert e.looks < e'.looks;
    }
  }

  /** Steps that leave the hosts alone and raise the flag for a cause, and at the latest when the deadline is met. */
  lemma FlagUnmoved(p: Params, w: World, seeds: seq<Node>, e: Engine, e': Engine)
    requires FlagFits(p, w, seeds, e) && e'.discovered == e.discovered
    requires e.looks <= e'.looks && (e.truncated ==> e'.truncated)
    requires e'.truncated && !e.truncated ==> Late(w, e') || |e.discovered| >= p.maxNodes || Deep(p, seeds, e)
    requires Late(w, e') ==> Late(w, e) || e'.truncated
    ensures FlagFits(p, w, seeds, e')
  {
    if Late(w, e) {
      var t: nat :| t < e.looks && w.expired(t);
      assert t < e'.looks;
    }
    assert Deep(p, seeds, e) <==> Deep(p, seeds, e');
  }

  lemma FinishProgress(p: Params, w: World, e: Engine, via: Node, addr: string)
    ensures var f := FinishDial(p, w, e, via, addr).engine;
            && Progress(f, e, via.depth + 1) && f.looks == e.looks
            && (f.truncated && !e.truncated ==> |f.discovered| >= p.maxNodes)
  {
    FinishShape(p, w, e, via, addr);
    FinishExtends(p, w, e, via, addr);
    FinishRaises(p, w, e, via, addr);
    var f := FinishDial(p, w, e, via, addr).engine;
    forall i | 0 <= i < |e.discovered|
      ensures f.discovered[i].depth == e.discovered[i].depth
    {
      assert f.discovered[i] == e.discovered[i].(addrs := f.discovered[i].addrs);
    }
  }

  /** The step after a connect raises the flag only when there is no room. */
  lemma FinishRaises(p: Params, w: World, e: Engine, via: Node, addr: string)
    ensures var f := FinishDial(p, w, e, via, addr).engine;
            && f.looks == e.looks && (e.truncated ==> f.truncated)
            && (f.truncated && !e.truncated ==> |f.discovered| >= p.maxNodes)
  {
  }

  lemma FlagFinish(p: Params, w: World, seeds: seq<Node>, e: Engine, via: Node, addr: string)
    requires FlagFits(p, w, seeds, e)
    ensures FlagFits(p, w, seeds, FinishDial(p, w, e, via, addr).engine)
  {
    var f := FinishDial(p, w, e, via, addr).engine;
    FinishProgress(p, w, e, via, addr);
    assert Late(w, f) <==> Late(w, e);
    if Deep(p, seeds, e) {
      DeepKept(p, seeds, e, f, via.depth + 1);
    }
  }

  // ---- The main loop ----

  /** While the flag is down, whatever would raise it is still queued. */
  ghost predicate Owes(p: Params, seeds: seq<Node>, e: Engine, frontier: seq<Node>) {
    && (seeds == [] ==> frontier == [] && !e.truncated)
    && (!e.truncated ==>
         && (Deep(p, seeds, e) ==> exists n :: n in frontier && n.depth >= p.maxDepth)
         && (seeds != [] && |e.discovered| >= p.maxNodes ==> frontier != []))
  }

  lemma OwesStarts(p: Params, seeds: seq<Node>, e: Engine)
    requires e.discovered == [] && !e.truncated
    ensures Owes(p, seeds, e, seeds)
  {
  }

  lemma OwesUnmoved(p: Params, seeds: seq<Node>, e: Engine, e': Engine, frontier: seq<Node>)
    requires Owes(p, seeds, e, frontier) && e'.discovered == e.discovered && e'.truncated == e.truncated
    ensures Owes(p, seeds, e', frontier)
  {
    assert Deep(p, seeds, e) <==> Deep(p, seeds, e');
  }

  lemma KnownIsDeep(p: Params, seeds: seq<Node>, e: Engine, n: Node)
    requires Known(seeds, e, n) && n.depth >= p.maxDepth
    ensures Deep(p, seeds, e)
  {
  }

  /** The first item is expanded and its children, one level down, join the queue. */
  lemma OwesGrows(p: Params, seeds: seq<Node>, e: Engine, e': Engine, frontier: seq<Node>, newItems: seq<Node>)
    requires Owes(p, seeds, e, frontier) && frontier != [] && frontier[0].depth < p.maxDepth
    requires |e.discovered| < p.maxNodes && Progress(e', e, frontier[0].depth + 1)
    requires |newItems| == |e'.discovered| - |e.discovered|
    requires forall n :: n in newItems ==> n.depth == frontier[0].depth + 1
    ensures Owes(p, seeds, e', frontier[1..] + newItems)
  {
    var next := frontier[1..] + newItems;
    if !e'.truncated && Deep(p, seeds, e') {
      if Deep(p, seeds, e) {
        var n :| n in frontier && n.depth >= p.maxDepth;
        assert frontier == [frontier[0]] + frontier[1..];
        assert n in next;
      } else {
        DeepIsNew(p, seeds, e, e', frontier[0].depth + 1);
        assert newItems[0] in next;
      }
    }
  }

  /** With nothing queued any more, or with the flag up, the flag is exact. */
  lemma FlagIsExact(p: Params, w: World, seeds: seq<Node>, e: Engine, frontier: seq<Node>)
    requires FlagFits(p, w, seeds, e) && Owes(p, seeds, e, frontier) && (frontier == [] || e.truncated)
    ensures FlagExact(p, w, seeds, e)
  {
    assert Late(w, e) <==> exists t: nat :: t < e.looks && w.expired(t);
    assert Deep(p, seeds, e) <==>
      || (exists s :: s in seeds && s.depth >= p.maxDepth)
      || (exists i :: 0 <= i < |e.discovered| && e.discovered[i].depth >= p.maxDepth);
  }
}
