# Jump chains, reachability and discovery: a verified model

mcp_ssh keeps a registry of SSH servers in which a server may name another one as its
`jump_host`. Around that registry it scans which server reaches which, finds shortest jump
paths, builds and removes chains of jump hosts, dials through them, and discovers new machines
breadth first with many connects in flight. This project models that logic and proves what it
promises. Three smaller cores stand beside it: the TOML the registry is written as, the byte
buffer of a terminal session, and the escape stripper.

`dafny verify dfyconfig.toml` checks everything.

## How the model is laid out

- `Topology`, `PathFinding`: the reachability matrix from probe verdicts to adjacency, and the
  shortest-path search over it. Latencies are real numbers of either sign.
- `Registry`, `Dict`: the two maps, insertion ordered as in the program, so that "gives the
  registry back" includes the listing order. Writing the config file succeeds or fails as a
  parameter says.
- `JumpGraph`, `Pool`: the cycle check, what keeps the graph acyclic, and the recursive dial.
  What authenticates, what a dial gives and which connections are closed are parameters.
- `JumpChain`, `Teardown`, `AutoChain`: building, removing and auto-building chains.
- `Discovery`: one step of the engine is one stretch of code between two awaits.
  `DiscoverySafety`, `DiscoveryAddresses` and `DiscoveryChains` prove what every step keeps,
  `DiscoveryReach` what a run finds, `DiscoveryFlag` when a run is truncated, and
  `DiscoveryEngine` is the class that runs, with a scheduler that may pick any task that can move
  and a deadline that may pass at any moment.
- `Toml`, `TomlReader`: the lines a config is written with, and a reader of TOML v1.0.0 that knows
  comments, all key forms, basic strings with escapes on one line and on several, inline tables and
  headers; what the writer never begins is read by a parameter. `TomlLines` proves that plain lines
  come back, `TomlPinned` that nothing else comes back as itself, `TomlSteps` that reading only
  goes forward.
- `ConfigText`, `ConfigFields`: the writer, the tables' fields and their validation.
  `ConfigReading`, `ConfigSections`, `ConfigDecoding`, `ConfigNames` take the text apart section by
  section, `ConfigRoundTrip` has the theorems, and `ConfigLoading` adds path expansion, a parameter,
  and the cycle check.
- `PtyBuffer` and `Ansi`: terminal output. `Text`, `Digits`, `Seqs`, `Wrappers`: numerals, trimming,
  order of strings, the digits of other scripts, sequences, Option and Result.

Classes (`Registry`, `ConnectionPool`, `DiscoveryEngine`, `Session`) carry the program's fields;
their methods are tied to functions or predicates of the old and the new state, and the lemmas
are about those.

## What the code does that its documentation does not say

- `app_config_to_toml` is documented to round-trip always. It writes strings and names as they
  are: a quote or backslash in a string, or a name that is no bare key, is lost or changed on
  loading, and where no name may be read below another's, or strings have no newline, the round
  trip works exactly for plain configs (`ConfigRoundTrip.RoundTripIff`, `QuotedNoteIsLost`,
  `TomlLines.BackslashIsTaken`).
- A path hop whose address ends in a colon and digits, such as an IPv6 address, is parsed as host
  and port when its chain is built (`JumpChain.PortLikeHopIsMisread`); digits that `int` refuses
  make the request fail instead (`JumpChain.SuperscriptFails`).
- An automatic chain is promised to be verified with a real connect. Tear-down leaves the pool
  alone, so an alias set up again while its old connection is open is reported as verified without
  a dial. A dial is made exactly when the alias is not open before, and of the whole chain exactly
  when no hop's name is (`AutoChain.SuccessMeans`, `AutoChain.OldConnectionVerifies`).
- A failing jump host leaves the caller's slot at `connecting` (`Pool.StatusAfterFailure`,
  `Pool.StuckConnectingExample`).
- `add` does not repeat the cycle check (`JumpGraph.AddKeepsAcyclicIff`, `JumpGraph.AddClosesCycle`).
- Tear-down goes by name prefix or by substring of the note, so it restores the registry only when
  nothing from before matches (`Teardown.TeardownRestoresIff`, `Teardown.HopperIsLost`,
  `DiscoveryChains.LongerSessionIsLost`).
- A box whose registration fails is lost while its fingerprint stays visited, without the truncated
  flag (`DiscoveryEngine.LostBoxExample`). An untruncated run is complete exactly when that, or any
  other drop, did not happen.

## Model

| member | source | states |
|---|---|---|
| `Topology.MergeCandidates` | mcp_ssh/topology.py:443-460 | A node's candidate addresses are its registered host first and then the harvested ones in the order found, each exactly once, where it first came up |
| `Topology.BestProbe` | mcp_ssh/topology.py:356-360 | The winner is a reachable probe no reachable probe beats, an unknown latency counting as slowest; there is none exactly when no probe is reachable |
| `Topology.BestProbeIsFirst` | mcp_ssh/topology.py:356-360 | The tie-break is deterministic: every reachable probe before the winner is strictly slower |
| `Topology.AggregateMeaning` | mcp_ssh/topology.py:311-368 | The aggregated cell of a probed pair is reachable iff some candidate answered, and its via is then a candidate that no answering one beats; the row learns that forwarding is off iff some dial was refused with the RFC 4254 code 1 |
| `Topology.EdgeLatencyOf` | mcp_ssh/topology.py:623-628 | With candidates listed once each, the latency looked up for a winning address is that very probe's |
| `Topology.RelabelledRow` | mcp_ssh/topology.py:507-513 | Relabelling a finished row gives exactly what a row without forwarding must say: no cell reachable, no via, verdicts kept |
| `Topology.ScanRow` | mcp_ssh/topology.py:465-514 | One cell per other target in order, each with its probes, source state, reachability and via as the dialer dictates, under one verdict on forwarding for the whole row |
| `Topology.ScanTopology` | mcp_ssh/topology.py:540-570 | For every list of nodes, names repeated or called `local` included: the matrix is the `local` row followed by one complete row per node, each seen from its own dialer, ports looked up by name |
| `Topology.CollectPorts` | mcp_ssh/topology.py:550 | The port kept for a name is that of the last node of that name |
| `Topology.ScanFrom` | mcp_ssh/topology.py:550-570 | The row of one source holds one cell per node of another name, in node order, each saying what that source's dialer dictates |
| `Topology.UniquePort` | mcp_ssh/topology.py:550 | Where names are unique every node is probed at its own port |
| `Topology.MatrixSize` | mcp_ssh/topology.py:528-570 | n uniquely named servers, none called `local`, give exactly n*n cells |
| `Topology.PairHasCell` | mcp_ssh/topology.py:552-570 | Every ordered pair of a source and another node has a cell saying what it must |
| `Topology.MatrixTellsNetwork` | mcp_ssh/topology.py:278-570 | The matrix read from the network: for `local` and each node as a source, every other node has a cell told from that source's own dialer, or its absence. Reachable exactly when some candidate opens and no dial from there is refused with code 1; via is a candidate that opens and none opening beats; each address has what its dial gave, filtered for a timeout alone, refused for every failure but that and code 1 |
| `Topology.CellHasPair` | mcp_ssh/topology.py:552-570 | Every cell belongs to such a pair |
| `Topology.CellsAreUnique` | mcp_ssh/topology.py:552-570 | When names are unique and none is `local`, no ordered pair has two cells |
| `Topology.BuildAdjacency` | mcp_ssh/topology.py:517-525 | A source has an entry iff it has a reachable cell, and the entry is the sorted list of exactly the targets of its reachable cells |
| `Topology.ReachableFromMember` | mcp_ssh/topology.py:520-522 | The adjacency list's contents are the reachable cells of the source, both directions |
| `Text.InsertSorted` | mcp_ssh/topology.py:523-524 | The order used for sorting the targets: insertion keeps a sorted list sorted and adds exactly one element |
| `Text.AtMostMeaning` | mcp_ssh/topology.py:523-524 | That order is by character: a prefix comes first, otherwise the smaller character at the first difference |
| `PathFinding.BuildGraph` | mcp_ssh/topology.py:593-599 | The adjacency used by the search lists, per node and in matrix order, exactly the links of the usable cells |
| `PathFinding.PopLeast` | mcp_ssh/topology.py:610 | Popping takes out one entry that no other entry undercuts and leaves all the others |
| `PathFinding.Offer` | mcp_ssh/topology.py:613-619 | Offering one link keeps the frontier invariant, never raises a cost, never touches a settled node, and pushes nothing when the link had been offered already |
| `PathFinding.Relax` | mcp_ssh/topology.py:613-619 | Relaxing a popped node offers all its links; when all were offered before, costs and heap stay as they are |
| `PathFinding.WalkIsCovered` | mcp_ssh/topology.py:609-619 | The search invariant: whatever any walk reaches is settled at no more than the walk's cost, or the heap holds an entry that costs no more |
| `PathFinding.PoppedNode` | mcp_ssh/topology.py:609-619 | The termination argument without a visited set: a pop settles a new node, or is stale and then every link of its node is already offered |
| `PathFinding.PopKeepsFrontier` | mcp_ssh/topology.py:610-612 | Popping keeps the frontier invariant, and the node popped first time has its final cost |
| `PathFinding.PoppedTargetIsCheapest` | mcp_ssh/topology.py:610-612 | When the target is popped its entry's path is spelled by a walk with the fewest hops among all walks and, of those, the least total latency |
| `PathFinding.FindPath` | mcp_ssh/topology.py:585-620 | None exactly when no usable walk reaches the target; otherwise the path of a walk such that every walk from `local` to the target takes more hops, or as many and no less latency summed over its links, for all real latencies; terminates |
| `PathFinding.ShortCut` | mcp_ssh/topology.py:609-619 | Cutting a loop out of a walk keeps its ends, takes fewer hops and so strictly lowers its cost, negative latencies included |
| `PathFinding.CostIsTotal` | mcp_ssh/topology.py:613-616 | The cost added up link by link is the number of hops and the sum of the latencies |
| `PathFinding.CheapestIsSimple` | mcp_ssh/topology.py:609-619 | A cheapest walk visits no node twice and never returns to `local` |
| `PathFinding.CheapestPathShape` | mcp_ssh/topology.py:588-591 | The returned path has distinct nodes, never `local`, and ends at the target; it is empty exactly for `local` |
| `PathFinding.LinksAreJumpable` | mcp_ssh/topology.py:595-599 | Over a scanned matrix every link the search follows is a jump the network allows from some source node, by a fastest answering address at its true latency |
| `PathFinding.JumpsHaveLinks` | mcp_ssh/topology.py:595-599 | Conversely every pair with an answering address from a forwarding source is offered to the search |
| `PathFinding.WalksAreJumps` | mcp_ssh/topology.py:595-619 | Over a scanned matrix the walks of the search reach a node exactly when some sequence of jumps the network allows does |
| `Registry.Registry.constructor` | mcp_ssh/registry.py:30-39 | A registry starts with the file's servers and no ephemeral ones |
| `Registry.Registry.Get` | mcp_ssh/registry.py:41-54 | The ephemeral entry, else the file-backed one, else ServerNotFound |
| `Registry.Registry.ListAll` | mcp_ssh/registry.py:56-58 | File-backed servers in order, then ephemeral ones in order |
| `Registry.Registry.Add` | mcp_ssh/registry.py:60-73 | Refuses a name taken on either side, keeps everything when the write fails, otherwise appends to the file-backed side alone |
| `Registry.Registry.Remove` | mcp_ssh/registry.py:75-86 | Removes the file-backed entry alone, or reports it missing, or changes nothing when the write fails |
| `Registry.Registry.AddEphemeral` | mcp_ssh/registry.py:96-111 | Refuses a name taken on either side, otherwise appends to the ephemeral side alone |
| `Registry.Registry.RemoveEphemeral` | mcp_ssh/registry.py:113-121 | Removes the ephemeral entry alone or reports it missing |
| `Registry.AddedFind` | mcp_ssh/registry.py:60-73 | An accepted entry is found under its name and no other name changes its meaning; acceptance iff the name is free and the write succeeds |
| `Registry.AddRefused` | mcp_ssh/registry.py:60-73 | Which error an add answers, by whether the name is taken on either side and the write succeeds, and that a refused add changes nothing |
| `Registry.AddedRemoved` | mcp_ssh/registry.py:60-121 | Adding and removing a fresh entry gives the registry back exactly, order included, on either side |
| `Registry.RemovedFind` | mcp_ssh/registry.py:75-121 | A removal takes the name out of the side it is asked for and leaves every other name and the other side alone; it answers not found or write failed exactly then, and changes nothing |
| `JumpGraph.HasCycle` | mcp_ssh/config.py:48-60 | True exactly when the chain from the start never ends, and then some server does reach itself; terminates on every graph |
| `JumpGraph.DetectCircularJumps` | mcp_ssh/config.py:42-66 | An error exactly when some server reaches itself by one or more jump_host steps, unknown names ending a chain |
| `JumpGraph.AcyclicMeansEnds` | mcp_ssh/config.py:48-60 | No server reaches itself if and only if every chain ends |
| `JumpGraph.LoadedJumps` | mcp_ssh/config.py:97 | The graph the check accepted is the graph of the registry loaded from that config |
| `JumpGraph.GraftKeepsAcyclic` | mcp_ssh/registry.py:60-73 | New servers whose chains end keep any acyclic graph acyclic, dangling references of old servers included |
| `JumpGraph.AddKeepsAcyclicIff` | mcp_ssh/registry.py:60-73 | add does not repeat the cycle check: an acyclic registry stays acyclic exactly when the chain of the new server's jump host does not dangle at the new name |
| `JumpGraph.AddClosesCycle` | mcp_ssh/registry.py:60-73 | Such a registration: with a -> b dangling, adding b -> a is accepted and the graph has a cycle |
| `JumpGraph.FreshServerKeepsAcyclic` | mcp_ssh/discovery.py:745-757 | In a closed acyclic registry a fresh server that jumps to a known one keeps it closed and acyclic |
| `Pool.ConnectionPool.constructor` | mcp_ssh/pool.py:148-163 | A pool starts without slots |
| `Pool.ConnectionPool.GetConnection` | mcp_ssh/pool.py:177-217 | For every name whose descent ends, on a cycle too where an open connection or a failing authentication stops it, the call terminates and leaves exactly the slots, dials and answer of the specification function |
| `Pool.ConnectionPool.GetVia` | mcp_ssh/pool.py:177-217 | The recursive body: lookup, reuse, status changes, jump host first, dial, error handling, all as the specification function says, for every descent that ends |
| `Pool.ConnectionPool.ConnectThrough` | mcp_ssh/pool.py:265-284 | Connecting asks for the jump host's connection first, if there is a jump host, and dials through it |
| `Pool.DescentEnds` | mcp_ssh/pool.py:360-362 | Every chain that ends gives a descent that ends, so every name of a registry that passed the cycle check can be asked for |
| `Pool.StopEndsDescent` | mcp_ssh/pool.py:188-192 | A name the call looks no further than ends the descent, wherever the chain goes on to |
| `Pool.CycleWithOpenHopReturns` | mcp_ssh/pool.py:188-192 | On a -> b -> a with b open, asking for a returns after one dial through b's connection |
| `Pool.DescentIsChain` | mcp_ssh/pool.py:360-362 | As far as a descent goes it is the chain of jump hosts |
| `Pool.ConnectionPool.GoOn` | mcp_ssh/pool.py:197-213 | What happens after the jump host answered: dial through it, or pass its error on, touching the status only for the errors the except clauses name |
| `Pool.ConnectionPool.DialOut` | mcp_ssh/pool.py:197-217 | A dial's outcome decides slot, status and error |
| `Pool.ConnectionPool.OnClose` | mcp_ssh/pool.py:259-263 | The disconnect callback empties an existing slot and creates none |
| `Pool.FuelIsIrrelevant` | mcp_ssh/pool.py:360-362 | The bound used for the recursion never changes the answer |
| `Pool.DialsRunAlongChain` | mcp_ssh/pool.py:265-284 | New dials run outwards along the chain, each tunnelled through the connection the dial before it returned, the innermost direct or through a connection already open; the last dial explains the result |
| `Pool.DialIsOnChain` | mcp_ssh/pool.py:360-362 | Only names on the descent from the requested one are dialed |
| `Pool.DialsAreDistinct` | mcp_ssh/pool.py:360-362 | No name is dialed twice in one call |
| `Pool.FreshChainIsDialedInOrder` | mcp_ssh/pool.py:360-362 | A chain with no open connection is dialed whole, every hop once, in order, the first direct |
| `Pool.ChainIsDialedFromOpen` | mcp_ssh/pool.py:360-362 | A call for the end of a chain that succeeds dials exactly the names after the last open one, in order |
| `Pool.DialedWereClosed` | mcp_ssh/pool.py:190-192 | Nothing that was open is dialed |
| `Pool.OtherSlotsUntouched` | mcp_ssh/pool.py:188-217 | Slots off the descent stay as they were |
| `Pool.GetKeepsValid` | mcp_ssh/pool.py:215-217 | Connected slots always hold a connection, and connection numbers only grow |
| `Pool.AnswerIsOpen` | mcp_ssh/pool.py:188-217 | A connection handed out is never a closed one, and one made by the call has a new number |
| `Pool.ReusedIff` | mcp_ssh/pool.py:188-193 | A call for a registered name answers without a dial exactly when its slot is connected and holds a connection that is not closed; it then gives that connection and changes nothing |
| `Pool.ClosedIsDialed` | mcp_ssh/pool.py:190-217 | A direct, authenticating name whose slot is not connected, is empty or holds a closed connection is dialed once without a tunnel; a success fills the slot with the new connection, a disconnect or network error leaves it disconnected, any other failure at connecting, and no other slot changes |
| `Pool.StatusAfterFailure` | mcp_ssh/pool.py:188-213 | Told from the graph, the network and the pool before the call: it fails exactly when the descent stops at an unknown or unauthenticated hop or some dial below does not connect, and then the slot says disconnected exactly when the descent was so blocked or the first dial to fail is the name's own with an outcome an except clause names; otherwise it stays at connecting |
| `Pool.AnswerIsTold` | mcp_ssh/pool.py:188-217 | The answer told beforehand: the error of the hop that blocks the descent, else the name's own connection and how many new ones were made if all dials connect, else the error of the first dial to fail |
| `Pool.StuckConnectingExample` | mcp_ssh/pool.py:196-213 | The concrete case: on the chain a -> b with b refusing, a stays at connecting |
| `Pool.SecondCallReuses` | mcp_ssh/pool.py:190-192 | Asking again while nothing closed gives the same connection and changes nothing |
| `JumpChain.HopRoundTrip` | mcp_ssh/tools/registry_tools.py:157-175 | Printing a path hop as node@via and parsing it loses nothing exactly when the node has no @ or outer space and via is non-empty, without outer space, and does not end in a colon and digits of any script |
| `JumpChain.BareHopParses` | mcp_ssh/tools/registry_tools.py:163-165 | A bare server name has no overrides |
| `Text.TrimCuts` | mcp_ssh/tools/registry_tools.py:163-171 | Stripping cuts white space off both ends, all of it and nothing else |
| `JumpChain.ManualHopParses` | mcp_ssh/tools/registry_tools.py:157-175 | server@host:port gives back all three, for every host, colons included |
| `JumpChain.PortLikeHopIsMisread` | mcp_ssh/tools/registry_tools.py:169-172 | Otherwise-clean hops whose via ends in a colon and digits are read as a shorter host and a port, or fail to be read when int refuses the digits |
| `JumpChain.Ipv6HopIsMisread` | mcp_ssh/tools/registry_tools.py:169-172 | An IPv6 via such as fe80::1 is such a hop |
| `JumpChain.ForeignDigitIsMisread` | mcp_ssh/tools/registry_tools.py:169-172 | An Arabic digit is taken for a port |
| `JumpChain.SuperscriptFails` | mcp_ssh/tools/registry_tools.py:169-172 | A superscript passes isdigit and makes int raise, so the element cannot be read |
| `Digits.NumberFails` | mcp_ssh/tools/registry_tools.py:169-172 | int raises on a string of digits exactly when one of them is no decimal digit |
| `Digits.AsciiNumber` | mcp_ssh/tools/registry_tools.py:169-172 | On ASCII digits isdigit holds and int gives the ordinary value |
| `JumpChain.HopNamesDistinct` | mcp_ssh/tools/registry_tools.py:148-154 | The generated names of one chain are pairwise distinct, by injectivity of the decimal index |
| `Text.NumeralIsShort` | mcp_ssh/tools/registry_tools.py:148-154 | An index is written without leading zeros |
| `JumpChain.ResolveHops` | mcp_ssh/tools/registry_tools.py:257-291 | All hop configs in order when every element can be read and names a registered server, otherwise why the first element that does not stopped the build: its port or its server |
| `JumpChain.RegisterHops` | mcp_ssh/tools/registry_tools.py:293-310 | All hops appended in order, or the first refused one named and the earlier ones rolled back but for those whose removal failed |
| `JumpChain.Rollback` | mcp_ssh/tools/registry_tools.py:302-304 | Removing the added hops last first leaves exactly those whose removal could not be written |
| `JumpChain.BuildChain` | mcp_ssh/tools/registry_tools.py:237-310 | The complete outcome per answer: alias taken, the first element that cannot be read or names no server, the first refused hop with rollback, or the whole chain registered |
| `JumpChain.EphemeralFailureChangesNothing` | mcp_ssh/tools/registry_tools.py:298-309 | An ephemeral build is all or nothing: any error leaves both maps as they were |
| `JumpChain.PersistedRollbackIff` | mcp_ssh/tools/registry_tools.py:298-310 | A refused persisted build stopped at one hop, the first that could not be added, and left the registry as it was exactly when the rollback write of every hop before it succeeded |
| `JumpChain.BuildAddsOneNamePerHop` | mcp_ssh/tools/registry_tools.py:298-310 | Success adds exactly one name per hop, on the chosen side only |
| `JumpChain.HopsAreChain` | mcp_ssh/tools/registry_tools.py:280-291 | In the grown registry jump_host leads from each hop to the one before and from the first nowhere |
| `JumpChain.HopIsServerRedressed` | mcp_ssh/tools/registry_tools.py:257-291 | What a successful build registers for each element: the server it names with all its fields kept but the name, the jump host, the note, the host when one is written and not empty, and the port when one is written and not 0; generated names and notes spelled out |
| `JumpChain.ManualHopIsRegistered` | mcp_ssh/tools/registry_tools.py:270-291 | An element server@host:port registers that server under the hop's name at that host and port, with its own user, keys and policy |
| `JumpChain.ChainKeepsAcyclic` | mcp_ssh/tools/registry_tools.py:280-310 | A linked chain of new names keeps any acyclic registry acyclic, with dangling references, even when only some hops stay registered |
| `JumpChain.BuildKeepsAcyclic` | mcp_ssh/tools/registry_tools.py:237-310 | _build_chain keeps any acyclic registry acyclic whatever it answers, in both modes, even when its rollback fails half way |
| `Teardown.RemoveTargets` | mcp_ssh/tools/registry_tools.py:599-607 | Each target is removed from the ephemeral side, else from the file-backed one; the reply lists those that went |
| `Teardown.TornOut` | mcp_ssh/tools/registry_tools.py:599-607 | What tearing down a list of targets does to any name: nothing unless it is a target; a target loses its ephemeral entry or, without one, the file-backed entry exactly when a write for it succeeds; it is reported exactly when it lost an entry, and other names are not |
| `Teardown.TargetsMember` | mcp_ssh/tools/registry_tools.py:587-591 | The targets are exactly the names of the listed servers that match |
| `Teardown.JumpMatchIff` | mcp_ssh/tools/registry_tools.py:586-591 | A server goes with the chain exactly when it bears the alias or its name begins with an underscore, the alias and _hop |
| `Teardown.SessionMatchIff` | mcp_ssh/discovery.py:1157-1163 | An entry goes with the session exactly when its note has disc-session= and the session somewhere |
| `Teardown.TeardownJump` | mcp_ssh/tools/registry_tools.py:576-618 | No reply but an error when nothing matches the alias or the hop prefix, otherwise the registry with the matching names torn out |
| `Teardown.TeardownDiscovery` | mcp_ssh/discovery.py:1144-1188 | The same for entries whose note contains the session tag anywhere |
| `Teardown.TeardownRestoresIff` | mcp_ssh/tools/registry_tools.py:586-607 | Set-up then tear-down gives the registry back, order included, exactly when no listed name from before that matches is itself registered, ephemeral or persisted, writes succeeding |
| `Teardown.HopperIsLost` | mcp_ssh/tools/registry_tools.py:586-607 | A server lost that way: building and tearing down the alias web takes a server called _web_hopper along |
| `Teardown.JumpTeardownRestoresIff` | mcp_ssh/tools/registry_tools.py:586-607 | The instance for _build_chain and teardown_jump |
| `Teardown.KeyedCondition` | mcp_ssh/tools/registry_tools.py:587-591 | When entries are kept under their own names the condition is that nothing from before matches |
| `AutoChain.SetupJumpAuto` | mcp_ssh/tools/registry_tools.py:347-442 | Per answer, exactly which inputs lead to it and what became of registry and pool: target unknown, no matrix, matrix stale, or no walk to the target, with everything untouched; the build's own error along a least-cost path, the pool untouched; or the pool's answer for the alias over the built registry, which is torn down again when that is an error. The matrix searched is the rescan's when there was a rescan, whatever is cached, and else the cached one if it is not stale |
| `AutoChain.BuildAndVerify` | mcp_ssh/tools/registry_tools.py:407-442 | From a found path on: build, ask the pool for the alias, keep or tear down, as the answer says |
| `AutoChain.SuccessMeans` | mcp_ssh/tools/registry_tools.py:375-442 | A success means: the hops are those of a least-cost path to the target over the rescan's matrix or, without a rescan, over the cached one, which was not stale; the registered chain spells it, and the pool answered for the alias. The answer took a dial of each hop after the last one whose name the pool still held open, in path order; nothing was dialed exactly when the alias itself was still open, and every hop was exactly when none was |
| `AutoChain.OpenAliasIsNotDialed` | mcp_ssh/tools/registry_tools.py:416-428 | While the pool holds an open connection under the alias, verifying never fails and never dials, whatever the request |
| `AutoChain.OpenAliasSucceeds` | mcp_ssh/tools/registry_tools.py:407-442 | Any chain that can be built is then reported as verified, whatever the network does |
| `AutoChain.OldConnectionVerifies` | mcp_ssh/tools/registry_tools.py:416-442 | Such a request: web led elsewhere before and its connection is still open; set up anew for b it is reported as verified without a dial |
| `AutoChain.ScanThenSetUp` | mcp_ssh/tools/registry_tools.py:366-411 | Where the matrix searched, the rescan's or else the cached one, is that of a scan of registered, cleanly named servers, no element is ever unknown, and the answer is no path exactly when no sequence of jumps the network allows leads to the target |
| `AutoChain.AliasChainEnds` | mcp_ssh/tools/registry_tools.py:413-419 | The verifying dial of a fresh alias terminates, even in a registry with cycles elsewhere |
| `AutoChain.ChainSpellsPath` | mcp_ssh/tools/registry_tools.py:409-413 | For printable hops, jump_host from the alias spells the path backwards, each hop with that hop's via as host and its node's port and credentials, and ends at None |
| `AutoChain.VerifyDialsThePath` | mcp_ssh/tools/registry_tools.py:417-419 | A verifying call that succeeds over a chain without open connections dialed every path node once, in path order, the first direct |
| `AutoChain.VerifyFailureRestoresIff` | mcp_ssh/tools/registry_tools.py:375-428 | With successful writes a failed verification leaves the registry as it was exactly when no registered name matched the chain before, and the reported error is the pool's answer over the chain that had been built along a least-cost path over the rescan's matrix or, without a rescan, the cached one |
| `Discovery.CandidateInjective` | mcp_ssh/discovery.py:731-735 | The suffixed names tried for a host never repeat |
| `Discovery.TriedGrows` | mcp_ssh/discovery.py:731-735 | Every taken name tried leaves fewer taken names untried, so the suffix loop ends |
| `Discovery.FreshIndex` | mcp_ssh/discovery.py:731-735 | The first free suffix: free, and all before it taken |
| `Discovery.FreshName` | mcp_ssh/discovery.py:729-735 | The chosen name is free on both sides of the registry, so add and add_ephemeral cannot collide |
| `Discovery.SlugMeaning` | mcp_ssh/discovery.py:486-491 | In the short form of a fingerprint letters and digits stay, capitals in lower case, and every other character drops out, wherever it stands |
| `Discovery.FpShortKeeps` | mcp_ssh/discovery.py:486-491 | The short form is made of the first eight such characters after the first colon |
| `DiscoverySafety.StartIsSafe` | mcp_ssh/discovery.py:564-633 | The initial engine satisfies every safety invariant |
| `DiscoverySafety.ReserveIsSafe` | mcp_ssh/discovery.py:820-827 | Reserving a fresh address keeps every safety invariant |
| `DiscoverySafety.GiveUpIsSafe` | mcp_ssh/discovery.py:831-836 | A task that gives up keeps every safety invariant |
| `DiscoverySafety.StartDialIsSafe` | mcp_ssh/discovery.py:837-849 | A task that starts its dial keeps every safety invariant |
| `DiscoverySafety.FinishShape` | mcp_ssh/discovery.py:850-896 | The stretch after a connect either admits exactly one host with all its records, or changes no more than an extra address, the counters and one opened and closed connection |
| `DiscoverySafety.FoundIsRegistered` | mcp_ssh/discovery.py:711-896 | A stretch that finds a host registers it under the first free name at the address dialed, with the user the connect went by, the engine's port and key, the discoverer as jump host unless that is local, and the note with session and fingerprint; the host record and the frontier item say the same |
| `DiscoverySafety.FinishIsSafe` | mcp_ssh/discovery.py:850-896 | That stretch keeps every invariant: at most max_nodes hosts of depth 1 to max_depth, distinct fingerprints and names, disjoint addresses, one dial per address, graph lists, no leaks, one registry entry per host, provenance |
| `DiscoveryChains.HostAncestor` | mcp_ssh/discovery.py:745-757 | k jump_host steps from a host lead to a discovered host exactly k levels up |
| `DiscoveryChains.HostRoot` | mcp_ssh/discovery.py:745-757 | After exactly its depth many steps a host's chain is at a seed, still registered as it was, or ended if the seed was local |
| `DiscoveryChains.FinishKeepsRooted` | mcp_ssh/discovery.py:745-758 | Discovery keeps a closed acyclic registry closed and acyclic |
| `DiscoveryChains.DiscoveryTeardownRestoresIff` | mcp_ssh/discovery.py:1157-1171 | A run then teardown_discovery gives the registry back, order included, exactly when no registered name's note carried the tag before |
| `DiscoveryChains.LongerSessionIsLost` | mcp_ssh/discovery.py:1157-1171 | A host lost that way: tearing session 1 down takes a host of session 12 along |
| `DiscoveryChains.SweepClosesEachOnce` | mcp_ssh/discovery.py:790-797 | After the closing sweep each connection the engine opened has been closed exactly once, and no seed connection has |
| `DiscoveryChains.CountersAreOrdered` | mcp_ssh/discovery.py:827-852 | connects_ok <= probes <= candidates, and candidates is the number of visited addresses |
| `DiscoveryReach.ReachableIsLeast` | mcp_ssh/discovery.py:809-900 | The reachable boxes are the least set closed under being revealed by a seed or a member |
| `DiscoveryReach.FoundUpTo` | mcp_ssh/discovery.py:768-788 | The breadth-first invariant: with all nodes above a depth expanded, every box within that many reveals has been found |
| `DiscoveryReach.NewBoxIsAtDepth` | mcp_ssh/discovery.py:874-900 | A box first seen via a frontier item lies at exactly one more than the item's depth from the seeds |
| `DiscoveryReach.FinishKeepsBreadth` | mcp_ssh/discovery.py:850-900 | The stretch after a connect keeps the breadth-first invariant, a found host joining the queue, unless that very stretch loses a box |
| `DiscoveryReach.FinishKeepsDepths` | mcp_ssh/discovery.py:850-900 | The stretch after a connect keeps every host at its least depth |
| `DiscoveryReach.FinishStaysReachable` | mcp_ssh/discovery.py:850-900 | Whatever was dropped before, a box that answers is within reach of the seeds |
| `DiscoveryReach.FinishShowsLoss` | mcp_ssh/discovery.py:850-900 | A loss without the truncated flag leaves a box that answered and is no host |
| `DiscoveryAddresses.RecordedAt` | mcp_ssh/discovery.py:902-907 | The extra address goes to the end of the list of the first host of the box that lacks it, or nowhere |
| `DiscoveryAddresses.AddressedFinish` | mcp_ssh/discovery.py:850-907 | Each host keeps listing exactly the addresses its box answered at |
| `DiscoveryFlag.FlagFinish` | mcp_ssh/discovery.py:861-867 | The stretch after a connect raises the truncated flag only for lack of room |
| `DiscoveryFlag.OwesGrows` | mcp_ssh/discovery.py:776-788 | While the flag is down, whatever will raise it is still queued: expanding an item keeps that |
| `DiscoveryFlag.FlagIsExact` | mcp_ssh/discovery.py:766-807 | When the loop ends, the truncated flag is up exactly when a look at the clock met the deadline, or the node bound is met and there were seeds, or a seed or host stands at the depth bound |
| `DiscoveryEngine.DoneIsExact` | mcp_ssh/discovery.py:768-788 | A run that dropped nothing found exactly the boxes within the depth bound, each at its least distance |
| `DiscoveryEngine.DoneIsComplete` | mcp_ssh/discovery.py:768-788 | A run that dropped nothing and was not truncated found exactly the reachable boxes |
| `DiscoveryEngine.UndisturbedRunIsExact` | mcp_ssh/discovery.py:763-807 | From what a caller can see: no look at the clock met the deadline, room was left and no write for an answering box failed, so the run found exactly the boxes within the depth bound, each at its least distance, and without the truncated flag all reachable ones; reaching the depth bound is allowed |
| `DiscoveryEngine.QuietRunIsNotTruncated` | mcp_ssh/discovery.py:763-807 | A run whose clock never expires, that has room left and nothing at the depth bound, ends without the truncated flag; so does any such run without seeds |
| `DiscoveryEngine.LostBoxExample` | mcp_ssh/discovery.py:850-896 | One address, one box, a write that fails: no host, no truncated flag, and the box counts as visited |
| `DiscoveryEngine.SteadyFinish` | mcp_ssh/discovery.py:850-896 | The last stretch of a task keeps what holds between any two steps: safety, acyclicity, a cause for whatever was dropped and for the truncated flag, exact address lists, and under stable oracles soundness and least depths |
| `DiscoveryEngine.TwoLevelsTail` | mcp_ssh/discovery.py:776-788 | The frontier stays sorted by depth and within two neighbouring depths when an item is popped and its finds are appended |
| `DiscoveryEngine.ExpandingStart` | mcp_ssh/discovery.py:829-849 | Any waiting task may start its dial while its look at the clock finds time: the invariant of the concurrent expansion is kept |
| `DiscoveryEngine.ExpandingGiveUp` | mcp_ssh/discovery.py:831-836 | Any waiting task may give up |
| `DiscoveryEngine.ExpandingFinish` | mcp_ssh/discovery.py:850-896 | Any dialing task may take its last stretch |
| `DiscoveryEngine.RunResults` | mcp_ssh/discovery.py:768-788 | When the loop ends, the invariant yields all results of a run: always safety, acyclicity, a cause for every drop, the truncated flag exactly for its causes, and for each host exactly the addresses its box answered at; under stable oracles only reachable boxes, least depths while time is monotone and writes succeed, exactness when nothing was dropped, and without truncation completeness if and only if nothing was dropped |
| `DiscoveryEngine.DiscoveryEngine.constructor` | mcp_ssh/discovery.py:564-633 | A new engine is in the initial state |
| `DiscoveryEngine.DiscoveryEngine.PickName` | mcp_ssh/discovery.py:729-735 | The suffix loop ends and returns the first free name |
| `DiscoveryEngine.DiscoveryEngine.RecordExtraAddr` | mcp_ssh/discovery.py:902-907 | The extra address goes to the first host of the box that lacks it, and nothing else changes |
| `DiscoveryEngine.DiscoveryEngine.AdmitHost` | mcp_ssh/discovery.py:868-896 | Registration and bookkeeping of a new host, or the connection closed when the registry refuses |
| `DiscoveryEngine.DiscoveryEngine.MeetPresented` | mcp_ssh/discovery.py:857-896 | Known box, full engine or new host, as the atomic stretch decides |
| `DiscoveryEngine.DiscoveryEngine.CompleteDial` | mcp_ssh/discovery.py:850-896 | A discovery task's code after its connect is one atomic step of the model |
| `DiscoveryEngine.DiscoveryEngine.BeginDial` | mcp_ssh/discovery.py:831-849 | A discovery task's code before its connect: one look at the clock, and it gives up exactly when that look meets the deadline or the engine is full |
| `DiscoveryEngine.DiscoveryEngine.ReserveFresh` | mcp_ssh/discovery.py:820-827 | The batch is repeat-free, made of candidates not visited before, and afterwards every candidate is visited |
| `DiscoveryEngine.DiscoveryEngine.PickTask` | mcp_ssh/discovery.py:829-830 | While a task is unfinished some task may move: one that is connecting, or a waiting one with a permit free, so the expansion never deadlocks |
| `DiscoveryEngine.DiscoveryEngine.TakeTurn` | mcp_ssh/discovery.py:829-896 | One turn of an arbitrary movable task keeps the invariant of the expansion, brings its end nearer, and looks at the clock once on starting; never are more than max(1, concurrency) connects in flight |
| `DiscoveryEngine.DiscoveryEngine.Expand` | mcp_ssh/discovery.py:809-900 | For every order in which the tasks move, all invariants hold afterwards, a batch being given up for cause only; the item is expanded and its finds, one level down, are returned, as many as hosts were admitted, each admitted one level below the item, with one look at the clock per candidate |
| `DiscoveryEngine.DiscoveryEngine.TakeItem` | mcp_ssh/discovery.py:776-788 | One round keeps the invariant and shortens frontier minus hosts by exactly one |
| `DiscoveryEngine.DiscoveryEngine.MainLoop` | mcp_ssh/discovery.py:766-788 | At most seeds plus max_nodes rounds, without help from the clock, one look at the clock per round and candidate, with all results of a run, the truncated flag exactly for its causes among them |
| `DiscoveryEngine.DiscoveryEngine.CloseAll` | mcp_ssh/discovery.py:790-797 | The held connections are closed in order and no longer held |
| `DiscoveryEngine.DiscoveryEngine.Run` | mcp_ssh/discovery.py:763-807 | A whole run on a new engine: safety, acyclicity, a cause for whatever was dropped, the truncated flag up exactly when a look met the deadline, the node bound was met or something stands at the depth bound, exact address lists, soundness, least depths, exactness and completeness under stable oracles, bounded rounds, every opened connection closed exactly once, ordered counters |
| `PtyBuffer.Session.constructor` | mcp_ssh/session.py:369 | A session starts with an empty buffer |
| `PtyBuffer.Session.Append` | mcp_ssh/session.py:446-453 | A drained chunk goes in last; a full deque first loses its oldest chunk |
| `PtyBuffer.Session.AppendLeft` | mcp_ssh/session.py:476 | Pushing back on a full deque would lose the newest chunk, and only then is anything lost |
| `PtyBuffer.Session.PtyRead` | mcp_ssh/session.py:465-477 | A read delivers exactly the oldest min(max_bytes, buffered) bytes, keeps the rest in order, and never evicts |
| `PtyBuffer.DrainConserves` | mcp_ssh/session.py:446-453 | Draining conserves: what left followed by what is buffered is what was drained |
| `PtyBuffer.EvictsOnlyWhenFull` | mcp_ssh/session.py:369-453 | Only a deque of 65536 chunks evicts, and then its oldest chunk; the new bytes come last |
| `PtyBuffer.ReadConserves` | mcp_ssh/session.py:465-477 | Reading conserves likewise |
| `PtyBuffer.RunConserves` | mcp_ssh/session.py:369-477 | After any interleaving of drains and reads the bytes delivered or evicted, in order, followed by the buffered ones, are exactly the bytes drained |
| `Ansi.ScannerRefinesPattern` | mcp_ssh/utils.py:9-17 | A scanner without backtracking finds exactly the match that the pattern's ordered alternation prefers, or none |
| `Ansi.ControlSequenceVanishes` | mcp_ssh/utils.py:12 | ESC [ with digits, semicolons and question marks up to a letter is gone from the output; when another character stops the parameters only ESC [ is |
| `Ansi.SystemCommandVanishes` | mcp_ssh/utils.py:13 | ESC ] with any text up to BEL or ESC backslash is gone |
| `Ansi.ShortEscapesVanish` | mcp_ssh/utils.py:14-15 | ESC, a parenthesis and a letter or digit are gone; so are ESC and any other single character but a newline |
| `Ansi.OnePassIsStripAnsi` | mcp_ssh/utils.py:26-29 | One pass over the text computes substitution and both replacements |
| `Ansi.ReplaceIsFold` | mcp_ssh/utils.py:28 | The two replacements are one left-to-right fold |
| `Ansi.StripAnsiOutput` | mcp_ssh/utils.py:20-29 | The output has no carriage return, and ESC only before a newline or at the end |
| `Ansi.UnchangedIff` | mcp_ssh/utils.py:20-29 | A text is left alone exactly when it has that shape |
| `Ansi.PlainTextUnchanged` | mcp_ssh/utils.py:20-29 | Text without ESC and CR is unchanged |
| `Ansi.StripAnsiIdempotent` | mcp_ssh/utils.py:20-29 | strip_ansi is idempotent |
| `ConfigText.AppendSection` | mcp_ssh/config.py:134-176 | Header, one line per present value in order, blank line |
| `ConfigText.AppConfigToToml` | mcp_ssh/config.py:124-178 | The text is the lines of the settings table and of one table per server, joined by newlines |
| `TomlPinned.StringIsPinned` | mcp_ssh/config.py:136-175 | A string written between quotes that is read back as itself was plain and was read to its own end, whatever guarded text follows: an escape is always longer than what it stands for, and no reading of a string loses one of the characters = , [ ] } |
| `TomlPinned.PartIsPinned` | mcp_ssh/config.py:148-169 | A name or environment key that is read back as itself, bare or quoted, is a bare key |
| `TomlLines.BackslashIsTaken` | mcp_ssh/config.py:136-175 | A backslash written before an escape letter comes back as the character the escape names |
| `TomlLines.ValueRead` | mcp_ssh/config.py:136-174 | Reading a printed value gives it back, for plain strings, integers and inline tables with distinct bare keys |
| `TomlLines.PathRead` | mcp_ssh/config.py:134-148 | Reading a printed table header path of bare keys gives it back |
| `TomlLines.PairLineRead` | mcp_ssh/config.py:136-175 | A plain pair line sets its key under the current header unless the place is taken, and reading goes on at the next line |
| `TomlLines.PairLineIsPinned` | mcp_ssh/config.py:136-175 | A pair line that is read at all sets its key once and for all, and it sets the value that was written only if that value is plain |
| `TomlLines.NamedHeaderRead` | mcp_ssh/config.py:148 | A header line with any name without a newline is read as one table or not at all, and the table is the one named only if the name is bare |
| `TomlLines.AnyHeaderRead` | mcp_ssh/config.py:148 | The same for any name: the table is the one named only if the name is bare, and lies deeper only if the name has a dot |
| `TomlReader.ReadingAppends` | mcp_ssh/config.py:78 | What a document has said stays the front of what it says: no later line takes a key back |
| `TomlSteps.ValueSuffix` | mcp_ssh/config.py:78 | Reading a value, other kinds included, leaves the back of the text |
| `TomlSteps.LinesLeft` | mcp_ssh/config.py:78 | After any newline of written lines what is left is the text of the last of them |
| `ConfigFields.PairsLookup` | mcp_ssh/config.py:148-175 | Looking a field up in its printed table gives what was written for it, absence included |
| `ConfigFields.ServerDecodesIff` | mcp_ssh/models.py:39-54 | A table decodes to a server exactly when it says each of its fields with the right type, leaving out at most what is absent, the port 22 and an empty environment |
| `ConfigFields.SettingsDecodeIff` | mcp_ssh/models.py:57-66 | The settings table decodes to settings exactly when it says each of them or leaves out one that has its default, spelled out |
| `ConfigSections.PrintedLines` | mcp_ssh/config.py:124-178 | The printed text is the sections one after the other, each line ended by a newline, a blank line between two sections |
| `ConfigSections.ConfigRead` | mcp_ssh/config.py:78 | A plain config is read as the tables and keys that were written, in order |
| `ConfigDecoding.ConfigDecodes` | mcp_ssh/config.py:83 | Those tables and keys validate to the config they came from |
| `ConfigDecoding.DecodesExactly` | mcp_ssh/config.py:83 | A document decodes to given servers exactly when their keys are the names that come up, in order, and their tables decode to them |
| `ConfigNames.NamesGrow` | mcp_ssh/config.py:147-148 | Reading on brings up no more servers than there are header lines, whatever the strings make of the lines |
| `ConfigNames.NamesAreBare` | mcp_ssh/config.py:147-148 | All the names come back only if every one of them is bare |
| `ConfigReading.PairLinesArePinned` | mcp_ssh/config.py:134-175 | When the pairs of a section come back as written they were all plain, and reading went on right after them |
| `ConfigRoundTrip.PlainRoundTrip` | mcp_ssh/config.py:74-86 | A config whose names and environment keys are bare and whose strings have no quote, backslash or control character but tab is read and validated as itself, in every field and in the order of its servers |
| `ConfigRoundTrip.ConfigIsPinned` | mcp_ssh/config.py:69-178 | Where no server's header may be read below an earlier server, a config that loads back as itself has bare names and plain contents, newlines in its strings or not |
| `ConfigRoundTrip.NextNameIsBare` | mcp_ssh/config.py:147-148 | The next server comes up under its own name only if the name is bare, whatever the name and the text after it hold |
| `ConfigRoundTrip.HeaderOfAnyName` | mcp_ssh/config.py:148 | A header with any name in it is one table: the name's own if the name is bare, or one below another name if the name has a dot and a quote or that other name in it |
| `ConfigRoundTrip.NamesArePinned` | mcp_ssh/config.py:69-178 | Without newlines in its strings, a config that loads back as itself has bare server names |
| `ConfigRoundTrip.RoundTripIff` | mcp_ssh/config.py:69-178 | For every config none of whose names may be read below an earlier server's, or none of whose strings holds a newline: writing and reading gives the config back, order included, if and only if its names and environment keys are bare and its strings have no quote, backslash or control character but tab. The reader knows escapes, multi-line strings, quoted and dotted keys, comments and inline tables |
| `ConfigRoundTrip.OneServerLoadsIff` | mcp_ssh/config.py:127-129 | A config of one server comes back exactly when the name is bare and the note plain, for every name and note |
| `ConfigRoundTrip.QuotedNoteIsLost` | mcp_ssh/config.py:127-129 | A quote in a note is enough to lose the round trip, whatever the documentation of the function promises |
| `ConfigRoundTrip.BackslashNoteIsLost` | mcp_ssh/config.py:127-129 | So is a backslash in a note |
| `ConfigRoundTrip.SpacedNameIsLost` | mcp_ssh/config.py:148 | So is a blank in a server's name |
| `ConfigLoading.LoadConfig` | mcp_ssh/config.py:69-99 | All of load_config: reading, validation, path expansion, and the cycle check over the expanded servers, which is the check before expansion |
| `ConfigLoading.LoadedIsExpanded` | mcp_ssh/config.py:16-39 | Loading expands key, certificate and working directory of each server and the three files of the settings, where present, and changes nothing else |
| `ConfigLoading.WrittenLoadsExpanded` | mcp_ssh/config.py:69-178 | A plain config that was written loads with its paths expanded, and not at all exactly when its jump hosts are circular |
| `ConfigLoading.PlainLoadsBackIff` | mcp_ssh/config.py:69-178 | A plain config loads back as itself exactly when it has no cycle and its paths are expanded already |
| `ConfigLoading.SavedLoadsBack` | mcp_ssh/config.py:69-178 | Where expanding twice is expanding once, a plain config that was loaded can be saved and loaded again without change |

## Left out

- PathFinding.PopLeast: does not fix which of several equally cheap entries is popped; the program goes by node name and path, and every choice is covered.
- PathFinding.FindPath: latencies are reals, so rounding, infinities and NaN of floating point are not modelled.
- Topology.ScanTopology: starts from harvested nodes, with one dial outcome per source, target, address and port.
- Pool.ConnectionPool.GetConnection: says nothing of a descent that never ends, that is, a cycle no hop of which is open or fails to authenticate; there the program recurses until the interpreter stops it.
- Pool.ConnectionPool.GetVia: one call at a time; callbacks and other calls that interleave with a dial, host-key errors (none is raised in this module), the mapping of authentication settings and known-hosts text are not modelled.
- AutoChain.SetupJumpAuto: the reply for a missing pool or state store and the shape of replies are not modelled; a rescan is a parameter, and the pool before the call is the pool the rescan leaves.
- AutoChain.VerifyFailureRestoresIff: speaks of the registry alone; slots the failed dial left in the pool stay.
- JumpChain.HopRoundTrip: digits are those of Unicode 14; the interpreter's limit of 4300 digits for one integer is not modelled.
- JumpChain.BuildChain: hop notes quote the alias with single quotes in all cases.
- DiscoveryEngine.DiscoveryEngine.Run: connect and write outcomes are functions of the address, each being dialed at most once in a run, and the clock is a function of how often it has been looked at; exactness and completeness assume that connects and harvests are stable and that no keys are harvested; stray exceptions and cancellation are not modelled.
- DiscoveryEngine.DoneIsComplete: is about runs that drop nothing; with a failed registration, which the program swallows, completeness fails, as `RunResults` says.
- ConfigRoundTrip.RoundTripIff: makes no claim for a config with both a string that holds a newline and a server name that has a dot together with a quote or an earlier server's name. Such a name may be read as a table below that server, such a string can write further tables into the file, and integers have shorter forms than the decimal one, so nothing bounds what the text can say; that such a config never loads back is neither proved nor refuted.
- ConfigText.Load: the coercions of model validation, sub-tables in the place of `default_env` and inline tables in the place of a server's table are not part of it; the writer writes none of them.
- TomlReader.ReadDoc: values of other kinds (booleans, floats, dates, arrays, other integer and string forms) and array-of-tables headers are read by a parameter that may take any amount of text and yield anything.
- PtyBuffer.Session.PtyRead: the tmux branch, UTF-8 decoding and process state are not modelled.
- Harvesting of keys, breadcrumbs and addresses, CIDR expansion and injected candidates: candidates are what an oracle reveals; the expansion cap, which the truncated flag does not reflect, is outside.
- Banners, time-outs, latency measurement, session identifiers, user names and first-seen times: parameters or omitted.
- Semaphore use while probing: the verdicts do not depend on it.
- Pinning and closing of pool connections, proxies, file transfer, process and tmux sessions, auditing, file watching and state files.
