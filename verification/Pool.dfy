/** The connection pool: slots, recursive dialing through jump hosts (mcp_ssh/pool.py). */
module Pool {
  import opened Wrappers
  import opened Registry
  import opened JumpGraph

  datatype Status = Connected | Disconnected | Connecting

  /** A connection, told apart by its serial number. */
  datatype Conn = Conn(serial: nat)

  datatype Slot = Slot(connection: Option<Conn>, status: Status)

  /** One call of create_connection: whom, through which tunnel, and what came back. */
  datatype Dial = Dial(name: string, tunnel: Option<Conn>, conn: Option<Conn>)

  datatype DialOutcome = Established | DisconnectError | NetworkError | OtherFailure

  /**
   * ConnectFailed is the pool's own ConnectionError; Escaped stands for an exception
   * that no except clause of get_connection names.
   */
  datatype PoolError =
    | NotFound(name: string)
    | AuthFailed(name: string)
    | ConnectFailed(name: string)
    | Escaped(name: string)

  /** The world during one call: what authenticates, what dials give, which connections are closed. */
  datatype Network = Network(authOk: string -> bool, dial: (string, Option<Conn>) -> DialOutcome, closed: set<Conn>)

  datatype Pool = Pool(slots: map<string, Slot>, serial: nat, dials: seq<Dial>) {
    function SlotOf(name: string): Slot {
      if name in slots then slots[name] else Slot(None, Disconnected)
    }

    function SetStatus(name: string, status: Status): Pool {
      this.(slots := slots[name := SlotOf(name).(status := status)])
    }

    /** The slot of `name` holds an open connection that a call may hand out again. */
    predicate Reusable(name: string, closed: set<Conn>) {
      SlotOf(name).status == Connected && SlotOf(name).connection.Some? && SlotOf(name).connection.value !in closed
    }
  }

  datatype Answer = Answer(pool: Pool, result: Result<Conn, PoolError>)

  /** create_connection for `name` through `tunnel`, and the except clauses around it. */
  function Dialed(net: Network, p: Pool, name: string, tunnel: Option<Conn>): Answer {
    match net.dial(name, tunnel)
    case Established =>
      var conn := Conn(p.serial);
      Answer(Pool(p.slots[name := Slot(Some(conn), Connected)], p.serial + 1,
          p.dials + [Dial(name, tunnel, Some(conn))]), Ok(conn))
    case OtherFailure =>
      Answer(p.(dials := p.dials + [Dial(name, tunnel, None)]), Err(Escaped(name)))
    case _ =>
      Answer(p.(dials := p.dials + [Dial(name, tunnel, None)]).SetStatus(name, Disconnected), Err(ConnectFailed(name)))
  }

  /** What becomes of a call for `name` once the call for its jump host has answered. */
  function Onward(net: Network, name: string, inner: Answer): Answer {
    match inner.result
    case Ok(conn) => Dialed(net, inner.pool, name, Some(conn))
    case Err(NotFound(_)) => inner.(pool := inner.pool.SetStatus(name, Disconnected))
    case Err(AuthFailed(_)) => inner.(pool := inner.pool.SetStatus(name, Disconnected))
    case Err(_) => inner
  }

  /** Where a call looks no further: unknown, already open, or not authenticating. */
  predicate Stops(g: Jumps, net: Network, p: Pool, n: string) {
    n !in g || p.Reusable(n, net.closed) || !net.authOk(n)
  }

  /** The part of the jump graph a call descends: each name that does not stop it leads to its jump host. */
  function Descent(g: Jumps, net: Network, p: Pool): Jumps {
    map n | n in g && !Stops(g, net, p, n) :: g[n]
  }

  /**
   * get_connection as a function of the pool, for names whose descent ends. `fuel` bounds the
   * descent; it never changes the answer (FuelIsIrrelevant).
   */
  function Get(g: Jumps, net: Network, p: Pool, name: string, fuel: nat): Answer
    requires Walk(Descent(g, net, p), name, fuel) == None
    decreases fuel
  {
    if name !in g then Answer(p, Err(NotFound(name)))
    else if p.Reusable(name, net.closed) then Answer(p, Ok(p.SlotOf(name).connection.value))
    else
      var p1 := p.SetStatus(name, Connecting);
      if !net.authOk(name) then Answer(p1.SetStatus(name, Disconnected), Err(AuthFailed(name)))
      else match g[name]
        case None => Dialed(net, p1, name, None)
        case Some(jump) =>
          DescentStep(g, net, p, name, jump, fuel);
          Onward(net, name, Get(g, net, p1, jump, fuel - 1))
  }

  lemma OpenNameAnswers(g: Jumps, net: Network, p: Pool, name: string, fuel: nat)
    requires Walk(Descent(g, net, p), name, fuel) == None
    requires name in g && p.Reusable(name, net.closed)
    ensures Get(g, net, p, name, fuel) == Answer(p, Ok(p.SlotOf(name).connection.value))
  {
  }

  /** A call on its way down does not change where it stops. */
  lemma DescentStep(g: Jumps, net: Network, p: Pool, name: string, jump: string, fuel: nat)
    requires Walk(Descent(g, net, p), name, fuel) == None
    requires !Stops(g, net, p, name) && g[name] == Some(jump)
    ensures Descent(g, net, p.SetStatus(name, Connecting)) == Descent(g, net, p)
    ensures Next(Descent(g, net, p), name) == Some(jump)
    ensures fuel >= 1 && Walk(Descent(g, net, p), jump, fuel - 1) == None
  {
    var p1 := p.SetStatus(name, Connecting);
    forall n
      ensures p1.Reusable(n, net.closed) <==> p.Reusable(n, net.closed)
    {
    }
    ShorterChain(Descent(g, net, p), name, jump, fuel);
  }

  lemma ShorterChain(g: Jumps, name: string, jump: string, fuel: nat)
    requires Walk(g, name, fuel) == None
    requires Next(g, name) == Some(jump)
    ensures fuel >= 1 && Walk(g, jump, fuel - 1) == None
  {
    assert Walk(g, name, 0) == Some(name);
    WalkSplit(g, name, 1, fuel - 1);
  }

  /** A descent follows the chain of jump hosts for as long as it goes. */
  lemma {:induction false} DescentIsChain(g: Jumps, net: Network, p: Pool, name: string, k: nat)
    ensures Walk(Descent(g, net, p), name, k).Some? ==> Walk(Descent(g, net, p), name, k) == Walk(g, name, k)
  {
    if k > 0 {
      DescentIsChain(g, net, p, name, k - 1);
    }
  }

  /** Every descent ends when the chain does, as all chains do in a registry that passed the cycle check. */
  lemma DescentEnds(g: Jumps, net: Network, p: Pool, name: string, k: nat)
    requires Walk(g, name, k) == None
    ensures Walk(Descent(g, net, p), name, k) == None
  {
    DescentIsChain(g, net, p, name, k);
  }

  /** An open connection or a failing authentication ends a descent even on a cycle. */
  lemma StopEndsDescent(g: Jumps, net: Network, p: Pool, name: string, k: nat)
    requires Walk(g, name, k).Some? && Stops(g, net, p, Walk(g, name, k).value)
    ensures Walk(Descent(g, net, p), name, k + 1) == None
  {
    DescentIsChain(g, net, p, name, k);
  }

  lemma {:induction false} FuelIsIrrelevant(g: Jumps, net: Network, p: Pool, name: string, m: nat, n: nat)
    requires Walk(Descent(g, net, p), name, m) == None && Walk(Descent(g, net, p), name, n) == None
    ensures Get(g, net, p, name, m) == Get(g, net, p, name, n)
    decreases m
  {
    if !Stops(g, net, p, name) && g[name].Some? {
      var jump := g[name].value;
      DescentStep(g, net, p, name, jump, m);
      DescentStep(g, net, p, name, jump, n);
      FuelIsIrrelevant(g, net, p.SetStatus(name, Connecting), jump, m - 1, n - 1);
    }
  }

  // ---- What a call dials ----

  /** The dials of a call run outwards along the chain, each through the connection before it. */
  ghost predicate Chained(g: Jumps, dials: seq<Dial>) {
    forall i :: 0 <= i < |dials| - 1 ==>
      && Next(g, dials[i + 1].name) == Some(dials[i].name)
      && dials[i].conn.Some? && dials[i + 1].tunnel == dials[i].conn
  }

  /** The innermost dial goes direct, or through a connection the pool already had open. */
  ghost predicate Rooted(g: Jumps, net: Network, p: Pool, first: Dial) {
    match Next(g, first.name)
    case None => first.tunnel == None
    case Some(jump) => p.Reusable(jump, net.closed) && first.tunnel == p.SlotOf(jump).connection
  }

  /** What the dials of a call say about its result. */
  ghost predicate Explains(p: Pool, name: string, closed: set<Conn>, dials: seq<Dial>, result: Result<Conn,
      PoolError>) {
    match result
    case Ok(c) =>
      if dials == [] then p.Reusable(name, closed) && p.SlotOf(name).connection == Some(c)
      else dials[|dials| - 1].name == name && dials[|dials| - 1].conn == Some(c)
    case Err(NotFound(_)) => dials == []
    case Err(AuthFailed(_)) => dials == []
    case Err(e) => dials != [] && dials[|dials| - 1].name == e.name && dials[|dials| - 1].conn == None
  }

  /** The dials a call adds. */
  function NewDials(p: Pool, a: Answer): seq<Dial> {
    if |p.dials| <= |a.pool.dials| then a.pool.dials[|p.dials|..] else []
  }

  lemma {:induction false} DialsRunAlongChain(g: Jumps, net: Network, p: Pool, name: string, fuel: nat)
    requires Walk(Descent(g, net, p), name, fuel) == None
    ensures DialsAreGood(g, net, p, name, Get(g, net, p, name, fuel))
    decreases fuel
  {
    if !Stops(g, net, p, name) {
      var p1 := p.SetStatus(name, Connecting);
      match g[name]
      case None =>
        var a := Dialed(net, p1, name, None);
        assert NewDials(p, a) == [a.pool.dials[|p.dials|]];
      case Some(jump) =>
        DescentStep(g, net, p, name, jump, fuel);
        DialsRunAlongChain(g, net, p1, jump, fuel - 1);
        var inner := Get(g, net, p1, jump, fuel - 1);
        InnerDials(g, net, p, name, jump, inner);
        if inner.result.Ok? {
          OuterDial(g, net, p, name, jump, inner);
        }
    }
  }

  /** All that is claimed of the dials of one call. */
  ghost predicate DialsAreGood(g: Jumps, net: Network, p: Pool, name: string, a: Answer) {
    var dials := NewDials(p, a);
    && a.pool.dials == p.dials + dials
    && Chained(Descent(g, net, p), dials)
    && (dials != [] ==> Rooted(g, net, p, dials[0]))
    && Explains(p, name, net.closed, dials, a.result)
  }

  /** A root seen while `name` was connecting was a root before: `name` itself was not reusable then. */
  lemma InnerDials(g: Jumps, net: Network, p: Pool, name: string, jump: string, inner: Answer)
    requires DialsAreGood(g, net, p.SetStatus(name, Connecting), jump, inner)
    requires Descent(g, net, p.SetStatus(name, Connecting)) == Descent(g, net, p)
    ensures var dials := NewDials(p, inner);
            && inner.pool.dials == p.dials + dials && Chained(Descent(g, net, p), dials)
            && (dials != [] ==> Rooted(g, net, p, dials[0]))
            && (inner.result.Ok? && dials == [] ==>
                 p.Reusable(jump, net.closed) && p.SlotOf(jump).connection == Some(inner.result.value))
  {
    var p1 := p.SetStatus(name, Connecting);
    forall n | p1.Reusable(n, net.closed)
      ensures p.Reusable(n, net.closed) && p.SlotOf(n) == p1.SlotOf(n)
    {
      assert n != name;
    }
  }

  lemma OuterDial(g: Jumps, net: Network, p: Pool, name: string, jump: string, inner: Answer)
    requires DialsAreGood(g, net, p.SetStatus(name, Connecting), jump, inner) && inner.result.Ok?
    requires Descent(g, net, p.SetStatus(name, Connecting)) == Descent(g, net, p)
    requires !Stops(g, net, p, name) && g[name] == Some(jump)
    ensures DialsAreGood(g, net, p, name, Dialed(net, inner.pool, name, Some(inner.result.value)))
  {
    InnerDials(g, net, p, name, jump, inner);
    var conn := inner.result.value;
    var a := Dialed(net, inner.pool, name, Some(conn));
    var last := DialedAdds(p, net, inner.pool, name, conn);
    var dials := NewDials(p, inner);
    ChainedMore(Descent(g, net, p), dials, last);
    DialsWithLast(g, net, p, name, a, dials, last);
  }

  lemma DialedAdds(p: Pool, net: Network, inner: Pool, name: string, conn: Conn) returns (last: Dial)
    ensures var a := Dialed(net, inner, name, Some(conn));
            && a.pool.dials == inner.dials + [last] && last.name == name && last.tunnel == Some(conn)
            && Explains(p, name, net.closed, [last], a.result)
  {
    var a := Dialed(net, inner, name, Some(conn));
    last := a.pool.dials[|inner.dials|];
  }

  /** What the last dial explains, it explains with any dials before it. */
  lemma DialsWithLast(g: Jumps, net: Network, p: Pool, name: string, a: Answer, dials: seq<Dial>, last: Dial)
    requires a.pool.dials == p.dials + dials + [last] && Chained(Descent(g, net, p), dials + [last])
    requires Rooted(g, net, p, if dials == [] then last else dials[0])
    requires Explains(p, name, net.closed, [last], a.result)
    ensures DialsAreGood(g, net, p, name, a)
  {
    Snoc(p.dials, dials, last, a.pool.dials);
    assert NewDials(p, a) == dials + [last];
  }

  lemma Snoc<T>(before: seq<T>, more: seq<T>, last: T, all: seq<T>)
    requires all == before + more + [last]
    ensures all == before + (more + [last]) && all[|before|..] == more + [last]
  {
  }

  lemma ChainedMore(g: Jumps, dials: seq<Dial>, last: Dial)
    requires Chained(g, dials)
    requires dials != [] ==> Next(g, last.name) == Some(dials[|dials| - 1].name)
                             && dials[|dials| - 1].conn.Some? && last.tunnel == dials[|dials| - 1].conn
    ensures Chained(g, dials + [last])
  {
  }

  /** No name is dialed twice in one call. */
  lemma DialsAreDistinct(g: Jumps, net: Network, p: Pool, name: string, fuel: nat)
    requires Walk(Descent(g, net, p), name, fuel) == None
    ensures var dials := NewDials(p, Get(g, net, p, name, fuel));
            forall i, j :: 0 <= i < j < |dials| ==> dials[i].name != dials[j].name
  {
    DialsRunAlongChain(g, net, p, name, fuel);
    var dials, down := NewDials(p, Get(g, net, p, name, fuel)), Descent(g, net, p);
    forall i, j | 0 <= i < j < |dials|
      ensures dials[i].name != dials[j].name
    {
      ChainedWalk(down, dials, i, j);
      if dials[i].name == dials[j].name {
        var d := DialIsOnChain(g, net, p, name, fuel, j);
        CycleNeverEnds(down, dials[j].name, j - i, fuel);
        WalkSplit(down, name, d, fuel);
        WalkSplit(down, name, fuel, d);
      }
    }
  }

  lemma {:induction false} ChainedWalk(g: Jumps, dials: seq<Dial>, i: nat, j: nat)
    requires Chained(g, dials) && i <= j < |dials|
    ensures Walk(g, dials[j].name, j - i) == Some(dials[i].name)
    decreases j - i
  {
    if i < j {
      ChainedWalk(g, dials, i + 1, j);
      assert Next(g, dials[i + 1].name) == Some(dials[i].name);
    }
  }

  ghost predicate OnDescent(down: Jumps, name: string, other: string) {
    exists d :: Walk(down, name, d) == Some(other)
  }

  lemma OnDescentFromAbove(down: Jumps, name: string, jump: string, other: string)
    requires Next(down, name) == Some(jump) && OnDescent(down, jump, other)
    ensures OnDescent(down, name, other)
  {
    var d :| Walk(down, jump, d) == Some(other);
    assert Walk(down, name, 0) == Some(name);
    WalkSplit(down, name, 1, d);
  }

  lemma OnDescentFromSelf(down: Jumps, name: string)
    ensures OnDescent(down, name, name)
  {
    assert Walk(down, name, 0) == Some(name);
  }

  ghost predicate AllOnDescent(down: Jumps, name: string, dials: seq<Dial>) {
    forall i :: 0 <= i < |dials| ==> OnDescent(down, name, dials[i].name)
  }

  lemma AllOnDescentFromAbove(down: Jumps, name: string, jump: string, dials: seq<Dial>)
    requires Next(down, name) == Some(jump) && AllOnDescent(down, jump, dials)
    ensures AllOnDescent(down, name, dials)
  {
    forall i | 0 <= i < |dials|
      ensures OnDescent(down, name, dials[i].name)
    {
      OnDescentFromAbove(down, name, jump, dials[i].name);
    }
  }

  /** A call adds the dials of the call for its jump host, and at most its own after them. */
  lemma OwnDialIsLast(g: Jumps, net: Network, p: Pool, name: string, inner: Answer)
    requires p.dials <= inner.pool.dials
    ensures var a, below := Onward(net, name, inner), NewDials(p, inner);
            var dials := NewDials(p, a);
            dials == below || (|dials| == |below| + 1 && below == dials[..|below|] && dials[|below|].name == name)
  {
  }

  /** Every name a call dials lies on the descent from the name asked for. */
  lemma {:induction false} DialsAreOnDescent(g: Jumps, net: Network, p: Pool, name: string, fuel: nat)
    requires Walk(Descent(g, net, p), name, fuel) == None
    ensures AllOnDescent(Descent(g, net, p), name, NewDials(p, Get(g, net, p, name, fuel)))
    decreases fuel
  {
    var down := Descent(g, net, p);
    OnDescentFromSelf(down, name);
    if !Stops(g, net, p, name) && g[name].Some? {
      var jump, p1 := g[name].value, p.SetStatus(name, Connecting);
      DescentStep(g, net, p, name, jump, fuel);
      DialsAreOnDescent(g, net, p1, jump, fuel - 1);
      DialsRunAlongChain(g, net, p1, jump, fuel - 1);
      var inner := Get(g, net, p1, jump, fuel - 1);
      AllOnDescentFromAbove(down, name, jump, NewDials(p, inner));
      OwnDialIsLast(g, net, p, name, inner);
    }
  }

  lemma DialIsOnChain(g: Jumps, net: Network, p: Pool, name: string, fuel: nat, i: nat) returns (d: nat)
    requires Walk(Descent(g, net, p), name, fuel) == None
    requires i < |NewDials(p, Get(g, net, p, name, fuel))|
    ensures Walk(Descent(g, net, p), name, d) == Some(NewDials(p, Get(g, net, p, name, fuel))[i].name)
  {
    DialsAreOnDescent(g, net, p, name, fuel);
    assert OnDescent(Descent(g, net, p), name, NewDials(p, Get(g, net, p, name, fuel))[i].name);
    d :| Walk(Descent(g, net, p), name, d) == Some(NewDials(p, Get(g, net, p, name, fuel))[i].name);
  }

  /**
   * A chain none of whose connections is open is dialed whole: every hop once, in order, each through
   * the one before.
   */
  lemma FreshChainIsDialedInOrder(g: Jumps, net: Network, p: Pool, names: seq<string>, fuel: nat)
    requires names != [] && ChainOf(g, names)
    requires Walk(Descent(g, net, p), names[|names| - 1], fuel) == None
    requires forall n :: n in names ==> !p.Reusable(n, net.closed)
    requires Get(g, net, p, names[|names| - 1], fuel).result.Ok?
    ensures var dials := NewDials(p, Get(g, net, p, names[|names| - 1], fuel));
            && |dials| == |names|
            && (forall i :: 0 <= i < |names| ==> dials[i].name == names[i])
            && dials[0].tunnel == None
            && Chained(Descent(g, net, p), dials)
  {
    var name, down := names[|names| - 1], Descent(g, net, p);
    DialsRunAlongChain(g, net, p, name, fuel);
    var dials := NewDials(p, Get(g, net, p, name, fuel));
    assert dials != [] && dials[|dials| - 1].name == name;
    DialsFollowNames(g, net, p, names, dials);
    assert LeadsBack(g, names, |names| - |dials|);
  }

  /** Nothing that was open is dialed. */
  lemma {:induction false} DialedWereClosed(g: Jumps, net: Network, p: Pool, name: string, fuel: nat)
    requires Walk(Descent(g, net, p), name, fuel) == None
    ensures forall dial :: dial in NewDials(p, Get(g, net, p, name, fuel)) ==> !p.Reusable(dial.name, net.closed)
    decreases fuel
  {
    if !Stops(g, net, p, name) && g[name].Some? {
      var jump, p1 := g[name].value, p.SetStatus(name, Connecting);
      DescentStep(g, net, p, name, jump, fuel);
      DialedWereClosed(g, net, p1, jump, fuel - 1);
      DialsRunAlongChain(g, net, p1, jump, fuel - 1);
      var inner := Get(g, net, p1, jump, fuel - 1);
      StopKept(g, net, p, name);
      if inner.result.Ok? {
        var last := DialedAdds(p, net, inner.pool, name, inner.result.value);
        Snoc(p.dials, NewDials(p1, inner), last, Onward(net, name, inner).pool.dials);
      }
    }
  }

  /** The names of a chain the call dialed: those after the last open one, in order. */
  ghost predicate DialsAfterOpen(p: Pool, closed: set<Conn>, dials: seq<Dial>, names: seq<string>) {
    && |dials| <= |names|
    && (forall i :: 0 <= i < |dials| ==>
          dials[i].name == names[|names| - |dials| + i] && !p.Reusable(names[|names| - |dials| + i], closed))
    && (|dials| < |names| ==> p.Reusable(names[|names| - |dials| - 1], closed))
  }

  /** A call for the end of a chain that succeeds dials exactly what comes after the last open connection. */
  lemma ChainIsDialedFromOpen(g: Jumps, net: Network, p: Pool, names: seq<string>, fuel: nat)
    requires names != [] && ChainOf(g, names)
    requires Walk(Descent(g, net, p), names[|names| - 1], fuel) == None
    requires Get(g, net, p, names[|names| - 1], fuel).result.Ok?
    ensures DialsAfterOpen(p, net.closed, NewDials(p, Get(g, net, p, names[|names| - 1], fuel)), names)
  {
    var name := names[|names| - 1];
    var dials := NewDials(p, Get(g, net, p, name, fuel));
    DialsRunAlongChain(g, net, p, name, fuel);
    DialedWereClosed(g, net, p, name, fuel);
    if dials != [] {
      DialsFollowNames(g, net, p, names, dials);
      DialsStartPastOpen(g, net, p, names, dials);
    }
  }

  lemma DialsStartPastOpen(g: Jumps, net: Network, p: Pool, names: seq<string>, dials: seq<Dial>)
    requires ChainOf(g, names) && 0 < |dials| <= |names| && Rooted(g, net, p, dials[0])
    requires forall i :: 0 <= i < |dials| ==> dials[i].name == names[|names| - |dials| + i]
    requires forall dial :: dial in dials ==> !p.Reusable(dial.name, net.closed)
    ensures DialsAfterOpen(p, net.closed, dials, names)
  {
    var m := |names| - |dials|;
    assert dials[0].name == names[m] && LeadsBack(g, names, m);
    forall i | 0 <= i < |dials|
      ensures dials[i].name == names[m + i] && !p.Reusable(names[m + i], net.closed)
    {
      assert dials[i] in dials && dials[i].name == names[m + i];
    }
  }

  /** Dials that end at the chain's last name run along its last names. */
  lemma DialsFollowNames(g: Jumps, net: Network, p: Pool, names: seq<string>, dials: seq<Dial>)
    requires names != [] && ChainOf(g, names) && dials != [] && Chained(Descent(g, net, p), dials)
    requires dials[|dials| - 1].name == names[|names| - 1]
    ensures |dials| <= |names|
    ensures forall i :: 0 <= i < |dials| ==> dials[i].name == names[|names| - |dials| + i]
  {
    var name, down := names[|names| - 1], Descent(g, net, p);
    if |dials| > |names| {
      ChainedWalk(down, dials, |dials| - 1 - |names|, |dials| - 1);
      DescentIsChain(g, net, p, name, |names|);
      ChainOfWalk(g, names, |names| - 1, |names|);
    }
    forall i | 0 <= i < |dials|
      ensures dials[i].name == names[|names| - |dials| + i]
    {
      ChainedWalk(down, dials, i, |dials| - 1);
      DescentIsChain(g, net, p, name, |dials| - 1 - i);
      ChainOfWalk(g, names, |names| - 1, |dials| - 1 - i);
    }
  }

  // ---- What a call leaves behind ----

  /** Slots the descent does not pass are untouched. */
  lemma {:induction false} OtherSlotsUntouched(g: Jumps, net: Network, p: Pool, name: string, fuel: nat, other: string)
    requires Walk(Descent(g, net, p), name, fuel) == None
    requires forall d: nat :: Walk(Descent(g, net, p), name, d) != Some(other)
    ensures var q := Get(g, net, p, name, fuel).pool;
            q.SlotOf(other) == p.SlotOf(other) && (other in q.slots <==> other in p.slots)
    decreases fuel
  {
    var down := Descent(g, net, p);
    assert Walk(down, name, 0) != Some(other);
    if Next(down, name).Some? {
      var jump := g[name].value;
      DescentStep(g, net, p, name, jump, fuel);
      forall d: nat
        ensures Walk(down, jump, d) != Some(other)
      {
        WalkSplit(down, name, 1, d);
        assert Walk(down, name, 1 + d) != Some(other);
      }
      OtherSlotsUntouched(g, net, p.SetStatus(name, Connecting), jump, fuel - 1, other);
    }
  }

  /** Connection serials in the pool are all in the past, and a connected slot has a connection. */
  ghost predicate Valid(p: Pool) {
    forall n :: n in p.slots ==>
      && (p.slots[n].status == Connected ==> p.slots[n].connection.Some?)
      && (p.slots[n].connection.Some? ==> p.slots[n].connection.value.serial < p.serial)
  }

  lemma SetStatusKeepsValid(p: Pool, name: string, status: Status)
    requires Valid(p) && status != Connected
    ensures Valid(p.SetStatus(name, status))
  {
  }

  lemma DialedKeepsValid(net: Network, p: Pool, name: string, tunnel: Option<Conn>)
    requires Valid(p)
    ensures Valid(Dialed(net, p, name, tunnel).pool) && Dialed(net, p, name, tunnel).pool.serial >= p.serial
  {
    SetStatusKeepsValid(p, name, Disconnected);
  }

  lemma {:induction false} GetKeepsValid(g: Jumps, net: Network, p: Pool, name: string, fuel: nat)
    requires Walk(Descent(g, net, p), name, fuel) == None && Valid(p)
    ensures var a := Get(g, net, p, name, fuel); Valid(a.pool) && a.pool.serial >= p.serial
    decreases fuel
  {
    var p1 := p.SetStatus(name, Connecting);
    SetStatusKeepsValid(p, name, Connecting);
    SetStatusKeepsValid(p1, name, Disconnected);
    if !Stops(g, net, p, name) {
      match g[name]
      case None =>
        DialedKeepsValid(net, p1, name, None);
      case Some(jump) =>
        DescentStep(g, net, p, name, jump, fuel);
        GetKeepsValid(g, net, p1, jump, fuel - 1);
        var inner := Get(g, net, p1, jump, fuel - 1);
        SetStatusKeepsValid(inner.pool, name, Disconnected);
        if inner.result.Ok? {
          DialedKeepsValid(net, inner.pool, name, Some(inner.result.value));
        }
    }
  }

  /** A name's own slot is not touched by the call for its jump host. */
  lemma InnerLeavesOwnSlot(g: Jumps, net: Network, p: Pool, name: string, jump: string, fuel: nat)
    requires Walk(Descent(g, net, p), name, fuel) == None
    requires !Stops(g, net, p, name) && g[name] == Some(jump)
    ensures var p1 := p.SetStatus(name, Connecting);
            && fuel >= 1 && Walk(Descent(g, net, p1), jump, fuel - 1) == None
            && var q := Get(g, net, p1, jump, fuel - 1).pool;
               q.SlotOf(name) == p1.SlotOf(name) && name in q.slots
  {
    var down := Descent(g, net, p);
    DescentStep(g, net, p, name, jump, fuel);
    forall d: nat
      ensures Walk(down, jump, d) != Some(name)
    {
      WalkSplit(down, name, 1, d);
      if Walk(down, jump, d) == Some(name) {
        assert Walk(down, name, 0) == Some(name);
        CycleNeverEnds(down, name, 1 + d, fuel);
      }
    }
    OtherSlotsUntouched(g, net, p.SetStatus(name, Connecting), jump, fuel - 1, name);
  }

  // ---- How a call ends, told beforehand ----

  /** The descent from `name` stops after exactly `d` steps, at `Bottom`. */
  ghost predicate StopsAfter(g: Jumps, net: Network, p: Pool, name: string, d: nat) {
    Walk(Descent(g, net, p), name, d).Some? && Walk(Descent(g, net, p), name, d + 1) == None
  }

  /** Every descent that ends stops after some number of steps. */
  lemma {:induction false} SomeBottom(g: Jumps, net: Network, p: Pool, name: string, fuel: nat) returns (d: nat)
    requires Walk(Descent(g, net, p), name, fuel) == None
    ensures StopsAfter(g, net, p, name, d) && d < fuel
  {
    assert Walk(Descent(g, net, p), name, 0) == Some(name);
    d := fuel - 1;
    if Walk(Descent(g, net, p), name, d) == None {
      d := SomeBottom(g, net, p, name, d);
    }
  }

  /** The hop `i` steps below `name`. */
  ghost function HopBelow(g: Jumps, net: Network, p: Pool, name: string, d: nat, i: nat): string
    requires StopsAfter(g, net, p, name, d) && i <= d
  {
    StepsBelow(Descent(g, net, p), name, i, d);
    Walk(Descent(g, net, p), name, i).value
  }

  /** A walk that gets far gets less far. */
  lemma StepsBelow(g: Jumps, name: string, i: nat, d: nat)
    requires i <= d && Walk(g, name, d).Some?
    ensures Walk(g, name, i).Some?
  {
    WalkSplit(g, name, i, d - i);
  }

  /** The descent ends at a name that is not registered or does not authenticate: nothing will be dialed. */
  ghost predicate Blocked(g: Jumps, net: Network, p: Pool, n: string) {
    n !in g || (!p.Reusable(n, net.closed) && !net.authOk(n))
  }

  /** The connection hop `i` hands out when everything below it succeeds: serial numbers count the dials. */
  ghost function ConnOf(g: Jumps, net: Network, p: Pool, name: string, d: nat, i: nat): Conn
    requires StopsAfter(g, net, p, name, d) && i <= d
  {
    var bottom := HopBelow(g, net, p, name, d, d);
    if !p.Reusable(bottom, net.closed) then Conn(p.serial + (d - i))
    else if i == d then p.SlotOf(bottom).connection.value
    else Conn(p.serial + (d - i) - 1)
  }

  /** Hop `i` would be dialed successfully, once everything below it is connected. */
  ghost predicate Connects(g: Jumps, net: Network, p: Pool, name: string, d: nat, i: nat)
    requires StopsAfter(g, net, p, name, d) && i <= d
  {
    var tunnel := if i == d then None else Some(ConnOf(g, net, p, name, d, i + 1));
    var hop := HopBelow(g, net, p, name, d, i);
    p.Reusable(hop, net.closed) || net.dial(hop, tunnel) == Established
  }

  /** Hop `i` is the first whose dial fails, counting from the bottom, with this outcome. */
  ghost predicate FailsFirst(g: Jumps, net: Network, p: Pool, name: string, d: nat, i: nat, outcome: DialOutcome)
    requires StopsAfter(g, net, p, name, d)
  {
    && i <= d && !Connects(g, net, p, name, d, i)
    && outcome == net.dial(HopBelow(g, net, p, name, d, i),
                           if i == d then None else Some(ConnOf(g, net, p, name, d, i + 1)))
    && AllConnectBelow(g, net, p, name, d, i + 1)
  }

  ghost predicate AllConnectBelow(g: Jumps, net: Network, p: Pool, name: string, d: nat, i: nat)
    requires StopsAfter(g, net, p, name, d)
  {
    forall j :: i <= j <= d ==> Connects(g, net, p, name, d, j)
  }

  /** The number of dials of a call that succeeds: one per hop, but for a bottom already open. */
  ghost function DialsNeeded(g: Jumps, net: Network, p: Pool, name: string, d: nat): nat
    requires StopsAfter(g, net, p, name, d)
  {
    if p.Reusable(HopBelow(g, net, p, name, d, d), net.closed) then d else d + 1
  }

  /** What is told of the call for the jump host is what is told of the hops below. */
  lemma OneStepDown(g: Jumps, net: Network, p: Pool, name: string, jump: string, d: nat)
    requires !Stops(g, net, p, name) && g[name] == Some(jump)
    requires StopsAfter(g, net, p, name, d)
    ensures var p1 := p.SetStatus(name, Connecting);
            && d > 0 && Descent(g, net, p1) == Descent(g, net, p) && StopsAfter(g, net, p1, jump, d - 1)
            && DialsNeeded(g, net, p, name, d) == DialsNeeded(g, net, p1, jump, d - 1) + 1
    ensures forall i: nat :: i < d ==> SameBelow(g, net, p, name, jump, d, i)
  {
    StopKept(g, net, p, name);
    StopsOneLower(Descent(g, net, p), name, jump, d);
    HopShifts(g, net, p, name, jump, d, d - 1);
    forall i: nat | i < d
      ensures SameBelow(g, net, p, name, jump, d, i)
    {
      HopShifts(g, net, p, name, jump, d, i);
      if i + 1 < d {
        HopShifts(g, net, p, name, jump, d, i + 1);
      }
    }
  }

  lemma StopsOneLower(down: Jumps, name: string, jump: string, d: nat)
    requires Next(down, name) == Some(jump)
    requires Walk(down, name, d).Some? && Walk(down, name, d + 1) == None
    ensures d > 0 && Walk(down, jump, d - 1).Some? && Walk(down, jump, d) == None
  {
    assert Walk(down, name, 0) == Some(name) && Walk(down, name, 1) == Some(jump);
    WalkSplit(down, name, 1, d);
    if d > 0 {
      WalkSplit(down, name, 1, d - 1);
    }
  }

  lemma HopShifts(g: Jumps, net: Network, p: Pool, name: string, jump: string, d: nat, i: nat)
    requires Next(Descent(g, net, p), name) == Some(jump) && i < d
    requires Descent(g, net, p.SetStatus(name, Connecting)) == Descent(g, net, p)
    requires StopsAfter(g, net, p, name, d) && StopsAfter(g, net, p.SetStatus(name, Connecting), jump, d - 1)
    ensures HopBelow(g, net, p.SetStatus(name, Connecting), jump, d - 1, i) == HopBelow(g, net, p, name, d, i + 1)
  {
    var down := Descent(g, net, p);
    assert Walk(down, name, 0) == Some(name) && Walk(down, name, 1) == Some(jump);
    WalkSplit(down, name, 1, i);
  }

  lemma StopKept(g: Jumps, net: Network, p: Pool, name: string)
    requires !p.Reusable(name, net.closed)
    ensures forall n :: p.SetStatus(name, Connecting).Reusable(n, net.closed) <==> p.Reusable(n, net.closed)
    ensures forall n :: p.Reusable(n, net.closed) ==> p.SetStatus(name, Connecting).SlotOf(n) == p.SlotOf(n)
    ensures Descent(g, net, p.SetStatus(name, Connecting)) == Descent(g, net, p)
  {
  }

  ghost predicate SameBelow(g: Jumps, net: Network, p: Pool, name: string, jump: string, d: nat, i: nat)
    requires i < d && StopsAfter(g, net, p, name, d) && StopsAfter(g, net, p.SetStatus(name, Connecting), jump, d - 1)
  {
    var p1 := p.SetStatus(name, Connecting);
    && HopBelow(g, net, p1, jump, d - 1, i) == HopBelow(g, net, p, name, d, i + 1)
    && ConnOf(g, net, p1, jump, d - 1, i) == ConnOf(g, net, p, name, d, i + 1)
    && (Connects(g, net, p1, jump, d - 1, i) <==> Connects(g, net, p, name, d, i + 1))
  }

  /** How the answer of a call follows from where it stops and which dial fails first. */
  ghost predicate AnswersAsTold(g: Jumps, net: Network, p: Pool, name: string, d: nat, a: Answer)
    requires StopsAfter(g, net, p, name, d)
  {
    var bottom := HopBelow(g, net, p, name, d, d);
    if Blocked(g, net, p, bottom) then a.result == Err(if bottom !in g then NotFound(bottom) else AuthFailed(bottom))
    else
      && (AllConnectBelow(g, net, p, name, d, 0) ==>
            a.result == Ok(ConnOf(g, net, p, name, d, 0))
                && a.pool.serial == p.serial + DialsNeeded(g, net, p, name, d))
      && (forall i, outcome :: FailsFirst(g, net, p, name, d, i, outcome) ==>
            var hop := HopBelow(g, net, p, name, d, i);
            a.result == Err(if outcome.OtherFailure? then Escaped(hop) else ConnectFailed(hop)))
  }

  lemma {:induction false} AnswerIsTold(g: Jumps, net: Network, p: Pool, name: string, fuel: nat, d: nat)
    requires Walk(Descent(g, net, p), name, fuel) == None && StopsAfter(g, net, p, name, d)
    ensures AnswersAsTold(g, net, p, name, d, Get(g, net, p, name, fuel))
    decreases fuel
  {
    assert Walk(Descent(g, net, p), name, 0) == Some(name);
    if !Stops(g, net, p, name) && g[name].Some? {
      var jump, p1 := g[name].value, p.SetStatus(name, Connecting);
      DescentStep(g, net, p, name, jump, fuel);
      OneStepDown(g, net, p, name, jump, d);
      AnswerIsTold(g, net, p1, jump, fuel - 1, d - 1);
      OnwardIsTold(g, net, p, name, jump, d, Get(g, net, p1, jump, fuel - 1));
    } else {
      assert AllConnectBelow(g, net, p, name, d, 0) ==> Connects(g, net, p, name, d, 0);
      BottomAtOnce(Descent(g, net, p), name, d);
    }
  }

  lemma BottomAtOnce(g: Jumps, name: string, d: nat)
    requires Next(g, name) == None && Walk(g, name, d).Some?
    ensures d == 0
  {
    assert Walk(g, name, 0) == Some(name);
    assert Walk(g, name, 1) == None;
    if d > 0 {
      WalkSplit(g, name, 1, d - 1);
    }
  }

  /** When all hops connect, so do those below the jump host's, and the last dial succeeds. */
  lemma OnwardSucceeds(g: Jumps, net: Network, p: Pool, name: string, jump: string, d: nat, inner: Answer)
    requires !Stops(g, net, p, name) && g[name] == Some(jump) && d > 0
    requires StopsAfter(g, net, p, name, d) && StopsAfter(g, net, p.SetStatus(name, Connecting), jump, d - 1)
    requires AnswersAsTold(g, net, p.SetStatus(name, Connecting), jump, d - 1, inner)
    requires !Blocked(g, net, p, HopBelow(g, net, p, name, d, d)) && AllConnectBelow(g, net, p, name, d, 0)
    ensures var a := Onward(net, name, inner);
            && a.result == Ok(ConnOf(g, net, p, name, d, 0))
            && a.pool.serial == p.serial + DialsNeeded(g, net, p, name, d)
  {
    OneStepDown(g, net, p, name, jump, d);
    assert SameBelow(g, net, p, name, jump, d, d - 1) && SameBelow(g, net, p, name, jump, d, 0);
    assert Walk(Descent(g, net, p), name, 0) == Some(name);
    BelowShifts(g, net, p, name, jump, d, 0);
    assert AllConnectBelow(g, net, p, name, d, 1) && Connects(g, net, p, name, d, 0);
  }

  /** The first hop to fail is `name` itself, or the first below the jump host's call. */
  lemma OnwardFails(g: Jumps, net: Network, p: Pool, name: string, jump: string, d: nat, inner: Answer, i: nat,
      outcome: DialOutcome)
    requires !Stops(g, net, p, name) && g[name] == Some(jump) && d > 0
    requires StopsAfter(g, net, p, name, d) && StopsAfter(g, net, p.SetStatus(name, Connecting), jump, d - 1)
    requires AnswersAsTold(g, net, p.SetStatus(name, Connecting), jump, d - 1, inner)
    requires !Blocked(g, net, p, HopBelow(g, net, p, name, d, d)) && FailsFirst(g, net, p, name, d, i, outcome)
    ensures var hop := HopBelow(g, net, p, name, d, i);
            Onward(net, name, inner).result == Err(if outcome.OtherFailure? then Escaped(hop) else ConnectFailed(hop))
  {
    OneStepDown(g, net, p, name, jump, d);
    assert SameBelow(g, net, p, name, jump, d, d - 1) && SameBelow(g, net, p, name, jump, d, 0);
    assert Walk(Descent(g, net, p), name, 0) == Some(name);
    if i > 0 {
      FailureShifts(g, net, p, name, jump, d, i, outcome);
    } else {
      BelowShifts(g, net, p, name, jump, d, 0);
    }
  }

  lemma OnwardIsTold(g: Jumps, net: Network, p: Pool, name: string, jump: string, d: nat, inner: Answer)
    requires !Stops(g, net, p, name) && g[name] == Some(jump) && d > 0
    requires StopsAfter(g, net, p, name, d) && StopsAfter(g, net, p.SetStatus(name, Connecting), jump, d - 1)
    requires AnswersAsTold(g, net, p.SetStatus(name, Connecting), jump, d - 1, inner)
    ensures AnswersAsTold(g, net, p, name, d, Onward(net, name, inner))
  {
    OneStepDown(g, net, p, name, jump, d);
    assert SameBelow(g, net, p, name, jump, d, d - 1);
    if !Blocked(g, net, p, HopBelow(g, net, p, name, d, d)) {
      if AllConnectBelow(g, net, p, name, d, 0) {
        OnwardSucceeds(g, net, p, name, jump, d, inner);
      }
      forall i: nat, outcome | FailsFirst(g, net, p, name, d, i, outcome)
        ensures var hop := HopBelow(g, net, p, name, d, i);
                Onward(net, name, inner).result ==
                  Err(if outcome.OtherFailure? then Escaped(hop) else ConnectFailed(hop))
      {
        OnwardFails(g, net, p, name, jump, d, inner, i, outcome);
      }
    } else {
      StopKept(g, net, p, name);
    }
  }

  lemma BelowShifts(g: Jumps, net: Network, p: Pool, name: string, jump: string, d: nat, i: nat)
    requires !Stops(g, net, p, name) && g[name] == Some(jump) && d > 0
    requires StopsAfter(g, net, p, name, d) && StopsAfter(g, net, p.SetStatus(name, Connecting), jump, d - 1)
    ensures AllConnectBelow(g, net, p, name, d, i + 1) <==>
      AllConnectBelow(g, net, p.SetStatus(name, Connecting), jump, d - 1, i)
  {
    var p1 := p.SetStatus(name, Connecting);
    OneStepDown(g, net, p, name, jump, d);
    if AllConnectBelow(g, net, p, name, d, i + 1) {
      var below := d - 1;
      forall j: nat | i <= j <= below
        ensures Connects(g, net, p1, jump, below, j)
      {
        assert SameBelow(g, net, p, name, jump, d, j);
        assert Connects(g, net, p, name, d, j + 1);
      }
    }
    if AllConnectBelow(g, net, p1, jump, d - 1, i) {
      forall j | i + 1 <= j <= d
        ensures Connects(g, net, p, name, d, j)
      {
        assert SameBelow(g, net, p, name, jump, d, j - 1) && Connects(g, net, p1, jump, d - 1, j - 1);
      }
    }
  }

  lemma FailureShifts(g: Jumps, net: Network, p: Pool, name: string, jump: string, d: nat, i: nat, outcome: DialOutcome)
    requires !Stops(g, net, p, name) && g[name] == Some(jump) && d > 0 && i > 0
    requires StopsAfter(g, net, p, name, d) && StopsAfter(g, net, p.SetStatus(name, Connecting), jump, d - 1)
    requires FailsFirst(g, net, p, name, d, i, outcome)
    ensures FailsFirst(g, net, p.SetStatus(name, Connecting), jump, d - 1, i - 1, outcome)
    ensures HopBelow(g, net, p.SetStatus(name, Connecting), jump, d - 1, i - 1) == HopBelow(g, net, p, name, d, i)
  {
    OneStepDown(g, net, p, name, jump, d);
    BelowShifts(g, net, p, name, jump, d, i);
    assert SameBelow(g, net, p, name, jump, d, i - 1);
    if i < d {
      assert SameBelow(g, net, p, name, jump, d, i);
    }
  }

  /** When not everything connects, some dial is the first to fail. */
  lemma {:induction false} SomeFailsFirst(g: Jumps, net: Network, p: Pool, name: string, d: nat, k: nat)
      returns (i: nat, outcome: DialOutcome)
    requires StopsAfter(g, net, p, name, d)
    requires AllConnectBelow(g, net, p, name, d, k) && !AllConnectBelow(g, net, p, name, d, 0) && k <= d + 1
    ensures FailsFirst(g, net, p, name, d, i, outcome)
    decreases k
  {
    if k > 0 && Connects(g, net, p, name, d, k - 1) {
      i, outcome := SomeFailsFirst(g, net, p, name, d, k - 1);
    } else {
      i := k - 1;
      outcome := net.dial(HopBelow(g, net, p, name, d, i),
        if i == d then None else Some(ConnOf(g, net, p, name, d, i + 1)));
    }
  }

  /** The failures get_connection has no except clause for: anything stray, and a jump host's own ConnectionError. */
  predicate PassesThrough(e: PoolError, name: string) {
    e.Escaped? || (e.ConnectFailed? && e.name != name)
  }

  /**
   * After a failed call the slot of a registered name says `connecting` when the failure passed through
   * uncaught, else `disconnected`.
   */
  lemma StatusOfFailure(g: Jumps, net: Network, p: Pool, name: string, fuel: nat)
    requires Walk(Descent(g, net, p), name, fuel) == None
    requires name in g && Get(g, net, p, name, fuel).result.Err?
    ensures var a := Get(g, net, p, name, fuel);
            && name in a.pool.slots
            && a.pool.SlotOf(name).status == if PassesThrough(a.result.error, name) then Connecting else Disconnected
  {
    if net.authOk(name) && g[name].Some? {
      var jump := g[name].value;
      InnerLeavesOwnSlot(g, net, p, name, jump, fuel);
      var inner := Get(g, net, p.SetStatus(name, Connecting), jump, fuel - 1);
      if inner.result.Err? && inner.result.error.ConnectFailed? {
        FailingNameIsDeeper(g, net, p, name, jump, fuel);
      }
    }
  }

  /** A jump host's call never blames the name that asked for it. */
  lemma FailingNameIsDeeper(g: Jumps, net: Network, p: Pool, name: string, jump: string, fuel: nat)
    requires Walk(Descent(g, net, p), name, fuel) == None
    requires !Stops(g, net, p, name) && g[name] == Some(jump)
    ensures var p1 := p.SetStatus(name, Connecting);
            && fuel >= 1 && Walk(Descent(g, net, p1), jump, fuel - 1) == None
            && var r := Get(g, net, p1, jump, fuel - 1).result;
               r.Err? && r.error.ConnectFailed? ==> r.error.name != name
  {
    var down, p1 := Descent(g, net, p), p.SetStatus(name, Connecting);
    DescentStep(g, net, p, name, jump, fuel);
    var a := Get(g, net, p1, jump, fuel - 1);
    DialsRunAlongChain(g, net, p1, jump, fuel - 1);
    if a.result.Err? && a.result.error.ConnectFailed? && a.result.error.name == name {
      FailedDialIsLast(g, net, p1, jump, a);
      var d := DialIsOnChain(g, net, p1, jump, fuel - 1, |NewDials(p1, a)| - 1);
      NotBelowItself(down, name, jump, d, fuel);
    }
  }

  /** The name a failed call blames is the one dialed last. */
  lemma FailedDialIsLast(g: Jumps, net: Network, p: Pool, name: string, a: Answer)
    requires DialsAreGood(g, net, p, name, a) && a.result.Err? && a.result.error.ConnectFailed?
    ensures NewDials(p, a) != [] && NewDials(p, a)[|NewDials(p, a)| - 1].name == a.result.error.name
  {
  }

  /** On a chain that ends no name comes up again below itself. */
  lemma NotBelowItself(down: Jumps, name: string, jump: string, d: nat, fuel: nat)
    requires Next(down, name) == Some(jump) && Walk(down, name, fuel) == None
    ensures Walk(down, jump, d) != Some(name)
  {
    assert Walk(down, name, 0) == Some(name) && Walk(down, name, 1) == Some(jump);
    WalkSplit(down, name, 1, d);
    if Walk(down, jump, d) == Some(name) {
      CycleNeverEnds(down, name, 1 + d, fuel);
    }
  }

  /**
   * The slot after a failed call, told from the jump graph, the network and the pool before it.
   * The call fails exactly when its descent is blocked or some dial does not connect, and then the
   * slot says `disconnected` exactly when the descent is blocked or the first failing dial is the
   * name's own with an outcome an except clause names. Otherwise it is left at `connecting`.
   */
  lemma StatusAfterFailure(g: Jumps, net: Network, p: Pool, name: string, fuel: nat, d: nat)
    requires Walk(Descent(g, net, p), name, fuel) == None && StopsAfter(g, net, p, name, d)
    ensures var a := Get(g, net, p, name, fuel);
            var blocked := Blocked(g, net, p, HopBelow(g, net, p, name, d, d));
            && (a.result.Err? <==> blocked || !AllConnectBelow(g, net, p, name, d, 0))
            && (a.result.Err? && name in g ==>
                  && name in a.pool.slots
                  && a.pool.SlotOf(name).status ==
                     if blocked ||
                        (exists outcome :: FailsFirst(g, net, p, name, d, 0, outcome) && outcome != OtherFailure)
                     then Disconnected else Connecting)
  {
    var a := Get(g, net, p, name, fuel);
    AnswerIsTold(g, net, p, name, fuel, d);
    assert Walk(Descent(g, net, p), name, 0) == Some(name);
    if !Blocked(g, net, p, HopBelow(g, net, p, name, d, d)) && !AllConnectBelow(g, net, p, name, d, 0) {
      assert AllConnectBelow(g, net, p, name, d, d + 1);
      var i, outcome := SomeFailsFirst(g, net, p, name, d, d + 1);
      if i > 0 {
        HopsDiffer(g, net, p, name, fuel, d, i);
        assert !AllConnectBelow(g, net, p, name, d, 1);
      }
    }
    if a.result.Err? && name in g {
      StatusOfFailure(g, net, p, name, fuel);
    }
  }

  lemma HopsDiffer(g: Jumps, net: Network, p: Pool, name: string, fuel: nat, d: nat, i: nat)
    requires Walk(Descent(g, net, p), name, fuel) == None && StopsAfter(g, net, p, name, d) && 0 < i <= d
    ensures HopBelow(g, net, p, name, d, i) != name
  {
    var down := Descent(g, net, p);
    assert Walk(down, name, 0) == Some(name);
    if HopBelow(g, net, p, name, d, i) == name {
      StepsBelow(down, name, i, d);
      CycleNeverEnds(down, name, i, fuel);
    }
  }

  /** A failing jump host leaves the caller's slot at `connecting`: the two-hop chain a -> b with b refused. */
  lemma StuckConnectingExample(net: Network)
    requires net.authOk("a") && net.authOk("b") && net.dial("b", None) == NetworkError
    ensures var g, p := map["a" := Some("b"), "b" := None], Pool(map[], 0, []);
            && Walk(Descent(g, net, p), "a", 2) == None
            && var r := Get(g, net, p, "a", 2);
               r.result == Err(ConnectFailed("b")) && r.pool.SlotOf("a").status == Connecting
                   && r.pool.SlotOf("b").status == Disconnected
  {
    var g: Jumps, p := map["a" := Some("b"), "b" := None], Pool(map[], 0, []);
    assert Walk(g, "a", 0) == Some("a") && Walk(g, "a", 1) == Some("b");
    DescentEnds(g, net, p, "a", 2);
    DescentStep(g, net, p, "a", "b", 2);
    var p1 := p.SetStatus("a", Connecting);
    var inner := Get(g, net, p1, "b", 1);
    assert inner == Dialed(net, p1.SetStatus("b", Connecting), "b", None);
  }

  /** A call returns even on a cycle when an open connection stops it: a -> b -> a with b open. */
  lemma CycleWithOpenHopReturns(net: Network, p: Pool)
    requires p.Reusable("b", net.closed) && !p.Reusable("a", net.closed) && net.authOk("a")
    ensures var g := map["a" := Some("b"), "b" := Some("a")];
            && ReachesItself(g, "a")
            && Walk(Descent(g, net, p), "a", 2) == None
            && Get(g, net, p, "a", 2)
                 == Dialed(net, p.SetStatus("a", Connecting), "a", Some(p.SlotOf("b").connection.value))
  {
    var g: Jumps := map["a" := Some("b"), "b" := Some("a")];
    assert Walk(g, "a", 0) == Some("a") && Walk(g, "a", 1) == Some("b") && Walk(g, "a", 2) == Some("a");
    StopEndsDescent(g, net, p, "a", 1);
    DescentStep(g, net, p, "a", "b", 2);
  }

  /** A connection handed out is not closed, and a new one is numbered past all earlier ones. */
  lemma AnswerIsOpen(g: Jumps, net: Network, p: Pool, name: string, fuel: nat)
    requires Walk(Descent(g, net, p), name, fuel) == None && Valid(p)
    requires forall c :: c in net.closed ==> c.serial < p.serial
    ensures var a := Get(g, net, p, name, fuel);
            a.result.Ok? ==>
              && a.result.value !in net.closed
              && (NewDials(p, a) != [] ==> a.result.value.serial >= p.serial)
  {
    if !Stops(g, net, p, name) && g[name].Some? {
      var jump, p1 := g[name].value, p.SetStatus(name, Connecting);
      DescentStep(g, net, p, name, jump, fuel);
      GetKeepsValid(g, net, p1, jump, fuel - 1);
      var inner := Get(g, net, p1, jump, fuel - 1);
      assert inner.result.Ok? ==> Onward(net, name, inner) == Dialed(net, inner.pool, name, Some(inner.result.value));
    }
  }

  /**
   * A call answers without a dial exactly when the name's slot is `connected` with a connection that is not
   * closed. It then gives that connection and changes nothing.
   */
  lemma ReusedIff(g: Jumps, net: Network, p: Pool, name: string, fuel: nat)
    requires Walk(Descent(g, net, p), name, fuel) == None && name in g
    ensures var a := Get(g, net, p, name, fuel);
            var open := && name in p.slots && p.slots[name].status == Connected
                        && p.slots[name].connection.Some? && p.slots[name].connection.value !in net.closed;
            && (a.result.Ok? && NewDials(p, a) == [] <==> open)
            && (open ==> a == Answer(p, Ok(p.slots[name].connection.value)))
  {
    DialsRunAlongChain(g, net, p, name, fuel);
  }

  /**
   * A direct, authenticating name without an open connection is dialed once, without a tunnel, closed
   * connection or not. The outcome decides answer and slot; a failure leaves the old connection there.
   */
  lemma ClosedIsDialed(g: Jumps, net: Network, p: Pool, name: string, fuel: nat)
    requires Walk(Descent(g, net, p), name, fuel) == None
    requires name in g && g[name] == None && net.authOk(name)
    requires !(&& name in p.slots && p.slots[name].status == Connected
               && p.slots[name].connection.Some? && p.slots[name].connection.value !in net.closed)
    ensures var a, was := Get(g, net, p, name, fuel), if name in p.slots then p.slots[name].connection else None;
            match net.dial(name, None)
            case Established =>
              && a.result == Ok(Conn(p.serial)) && a.pool.dials == p.dials + [Dial(name, None, Some(Conn(p.serial)))]
              && a.pool.slots == p.slots[name := Slot(Some(Conn(p.serial)), Connected)]
            case OtherFailure =>
              && a.result == Err(Escaped(name)) && a.pool.dials == p.dials + [Dial(name, None, None)]
              && a.pool.slots == p.slots[name := Slot(was, Connecting)]
            case _ =>
              && a.result == Err(ConnectFailed(name)) && a.pool.dials == p.dials + [Dial(name, None, None)]
              && a.pool.slots == p.slots[name := Slot(was, Disconnected)]
  {
    assert Get(g, net, p, name, fuel) == Dialed(net, p.SetStatus(name, Connecting), name, None);
  }

  /** Asking again while nothing closed gives the same connection without a dial. */
  lemma SecondCallReuses(g: Jumps, net: Network, p: Pool, name: string, fuel: nat)
    requires Walk(Descent(g, net, p), name, fuel) == None && Valid(p)
    requires forall c :: c in net.closed ==> c.serial < p.serial
    requires Get(g, net, p, name, fuel).result.Ok?
    ensures var a := Get(g, net, p, name, fuel);
            && a.pool.Reusable(name, net.closed)
            && Walk(Descent(g, net, a.pool), name, 1) == None
            && Get(g, net, a.pool, name, 1) == a
  {
    var a := Get(g, net, p, name, fuel);
    if !p.Reusable(name, net.closed) && g[name].Some? {
      var jump := g[name].value;
      DescentStep(g, net, p, name, jump, fuel);
      GetKeepsValid(g, net, p.SetStatus(name, Connecting), jump, fuel - 1);
    }
    assert Walk(Descent(g, net, a.pool), name, 0) == Some(name);
  }

  // ---- The class ----

  class ConnectionPool {
    const lookup: Registry
    var slots: map<string, Slot>
    var serial: nat
    ghost var dials: seq<Dial>

    ghost function State(): Pool
      reads this
    {
      Pool(slots, serial, dials)
    }

    constructor (registry: Registry)
      ensures lookup == registry && State() == Pool(map[], 0, [])
    {
      lookup, slots, serial, dials := registry, map[], 0, [];
    }

    /**
     * get_connection for a name whose descent ends: every name of a registry that passed the cycle
     * check (DescentEnds), and others when an open connection or a failing authentication stops it.
     */
    method GetConnection(name: string, net: Network) returns (r: Result<Conn, PoolError>)
      requires Ends(Descent(JumpsOf(lookup.State()), net, State()), name)
      modifies this
      ensures forall fuel: nat | Walk(Descent(JumpsOf(lookup.State()), net, old(State())), name, fuel) == None ::
                Answer(State(), r) == Get(JumpsOf(lookup.State()), net, old(State()), name, fuel)
    {
      ghost var k :| Walk(Descent(JumpsOf(lookup.State()), net, State()), name, k) == None;
      ghost var before := State();
      r := GetVia(name, net, k);
      forall fuel: nat | Walk(Descent(JumpsOf(lookup.State()), net, before), name, fuel) == None
        ensures Answer(State(), r) == Get(JumpsOf(lookup.State()), net, before, name, fuel)
      {
        FuelIsIrrelevant(JumpsOf(lookup.State()), net, before, name, k, fuel);
      }
    }

    method GetVia(name: string, net: Network, ghost fuel: nat) returns (r: Result<Conn, PoolError>)
      requires Walk(Descent(JumpsOf(lookup.State()), net, State()), name, fuel) == None
      modifies this
      ensures Answer(State(), r) == Get(JumpsOf(lookup.State()), net, old(State()), name, fuel)
      decreases fuel, 1
    {
      ghost var before := State();
      JumpsOfNext(lookup.State(), name);
      var found := lookup.Get(name);
      if found.Err? {
        return Err(NotFound(name));
      }
      var slot := SlotOf(name);
      if slot.status == Connected && slot.connection.Some? && slot.connection.value !in net.closed {
        return Ok(slot.connection.value);
      }
      SetStatus(name, Connecting);
      if !net.authOk(name) {
        SetStatus(name, Disconnected);
        return Err(AuthFailed(name));
      }
      if found.value.jumpHost.Some? {
        DescentStep(JumpsOf(lookup.State()), net, before, name, found.value.jumpHost.value, fuel);
      }
      r := ConnectThrough(name, found.value.jumpHost, net, fuel);
    }

    /** _connect: the jump host's connection first, if there is one, then the dial. */
    method ConnectThrough(name: string, jumpHost: Option<string>, net: Network, ghost fuel: nat)
        returns (r: Result<Conn, PoolError>)
      requires jumpHost.Some? ==>
        fuel >= 1 && Walk(Descent(JumpsOf(lookup.State()), net, State()), jumpHost.value, fuel - 1) == None
      modifies this
      ensures Answer(State(), r) == match jumpHost
        case None => Dialed(net, old(State()), name, None)
        case Some(jump) => Onward(net, name, Get(JumpsOf(lookup.State()), net, old(State()), jump, fuel - 1))
      decreases fuel, 0
    {
      if jumpHost.None? {
        r := DialOut(name, net, None);
      } else {
        var inner := GetVia(jumpHost.value, net, fuel - 1);
        r := GoOn(name, net, inner);
      }
    }

    /** Dials through the jump host's connection, or passes its error on. */
    method GoOn(name: string, net: Network, inner: Result<Conn, PoolError>) returns (r: Result<Conn, PoolError>)
      modifies this
      ensures Answer(State(), r) == Onward(net, name, Answer(old(State()), inner))
    {
      if inner.Ok? {
        r := DialOut(name, net, Some(inner.value));
      } else {
        if inner.error.NotFound? || inner.error.AuthFailed? {
          SetStatus(name, Disconnected);
        }
        r := inner;
      }
    }

    method DialOut(name: string, net: Network, tunnel: Option<Conn>) returns (r: Result<Conn, PoolError>)
      modifies this
      ensures Answer(State(), r) == Dialed(net, old(State()), name, tunnel)
    {
      match net.dial(name, tunnel) {
        case Established =>
          var conn := Conn(serial);
          serial, dials := serial + 1, dials + [Dial(name, tunnel, Some(conn))];
          slots := slots[name := Slot(Some(conn), Connected)];
          r := Ok(conn);
        case OtherFailure =>
          dials := dials + [Dial(name, tunnel, None)];
          r := Err(Escaped(name));
        case _ =>
          dials := dials + [Dial(name, tunnel, None)];
          SetStatus(name, Disconnected);
          r := Err(ConnectFailed(name));
      }
    }

    function SlotOf(name: string): Slot
      reads this
    {
      if name in slots then slots[name] else Slot(None, Disconnected)
    }

    method SetStatus(name: string, status: Status)
      modifies this`slots
      ensures State() == old(State()).SetStatus(name, status)
    {
      slots := slots[name := SlotOf(name).(status := status)];
    }

    /** The disconnect callback empties the slot. */
    method OnClose(name: string)
      modifies this`slots
      ensures State() ==
        if name in old(slots) then old(State()).(slots := old(slots)[name := Slot(None, Disconnected)])
        else old(State())
    {
      if name in slots {
        slots := slots[name := Slot(None, Disconnected)];
      }
    }
  }
}
