/** Jump chains: parsing, building, tearing down (mcp_ssh/tools/registry_tools.py). */
module JumpChain {
  import opened Wrappers
  import opened Dict
  import opened Registry
  import opened Seqs
  import opened JumpGraph
  import opened PathFinding
  import opened Topology
  import Digits
  import Text

  // ---- Chain elements ----

  datatype ParsedHop = ParsedHop(server: string, host: Option<string>, port: Option<int>)

  function FirstIndex(s: string, c: char): (i: nat)
    ensures i <= |s|
    ensures forall j :: 0 <= j < i ==> s[j] != c
    ensures i < |s| ==> s[i] == c
  {
    if s == [] || s[0] == c then 0 else 1 + FirstIndex(s[1..], c)
  }

  function LastIndex(s: string, c: char): (r: Option<nat>)
    ensures r.None? ==> forall j :: 0 <= j < |s| ==> s[j] != c
    ensures r.Some? ==> r.value < |s| && s[r.value] == c && forall j :: r.value < j < |s| ==> s[j] != c
  {
    if s == [] then None
    else if s[|s| - 1] == c then Some(|s| - 1)
    else LastIndex(s[..|s| - 1], c)
  }

  /** The address ends in a colon and at least one digit of any script, nothing else after the colon. */
  predicate EndsWithPort(addr: string) {
    var colon := LastIndex(addr, ':');
    colon.Some? && Digits.AllDigits(addr[colon.value + 1..])
  }

  /**
   * _parse_hop: `server`, `server@host` or `server@host:port`. There is no result when the port is made
   * of digits that `int` refuses, such as superscripts.
   */
  function ParseHop(element: string): Option<ParsedHop> {
    var at := FirstIndex(element, '@');
    var server := Text.Trim(element[..at]);
    var addr := Text.Trim(if at < |element| then element[at + 1..] else "");
    if addr == "" then Some(ParsedHop(server, None, None)) else ParseAddress(server, addr)
  }

  function ParseAddress(server: string, addr: string): Option<ParsedHop> {
    if EndsWithPort(addr) then
      var colon := LastIndex(addr, ':').value;
      match Digits.Number(addr[colon + 1..])
      case Some(port) => Some(ParsedHop(server, Some(Text.Trim(addr[..colon])), Some(port)))
      case None => None
    else Some(ParsedHop(server, Some(addr), None))
  }

  /** The element auto mode writes for one hop of a path. */
  function PrintHop(h: Hop): string {
    h.node + "@" + h.via
  }

  /** The hops whose printed form reads back as itself. */
  predicate Printable(h: Hop) {
    && '@' !in h.node && Text.Trimmed(h.node)
    && h.via != "" && Text.Trimmed(h.via) && !EndsWithPort(h.via)
  }

  /** Printing a hop and parsing it again loses nothing exactly for the printable hops. */
  lemma HopRoundTrip(h: Hop)
    ensures ParseHop(PrintHop(h)) == Some(ParsedHop(h.node, Some(h.via), None)) <==> Printable(h)
  {
    if '@' !in h.node {
      CleanNodeRoundTrip(h);
    } else {
      ParsedServerIsClean(PrintHop(h));
    }
  }

  lemma CleanNodeRoundTrip(h: Hop)
    requires '@' !in h.node
    ensures ParseHop(PrintHop(h)) == Some(ParsedHop(h.node, Some(h.via), None)) <==> Printable(h)
  {
    SplitsAtNode(h);
    Text.TrimFixed(h.node);
    Text.TrimFixed(h.via);
    if ParseHop(PrintHop(h)) == Some(ParsedHop(h.node, Some(h.via), None)) {
      ParsedHost(Text.Trim(h.node), Text.Trim(h.via));
    }
  }

  /** An address is taken as it stands exactly when it does not end like a port. */
  lemma ParsedHost(server: string, addr: string)
    ensures ParseAddress(server, addr).Some? && ParseAddress(server, addr).value.port == None ==>
      !EndsWithPort(addr) && ParseAddress(server, addr).value.host == Some(addr)
  {
  }

  /** A parsed server has no at-sign. */
  lemma ParsedServerIsClean(element: string)
    ensures ParseHop(element).Some? ==> '@' !in ParseHop(element).value.server
  {
    var front := element[..FirstIndex(element, '@')];
    assert '@' !in front;
    Text.TrimKeeps(front);
  }

  lemma SplitsAtNode(h: Hop)
    requires '@' !in h.node
    ensures var element, at := PrintHop(h), FirstIndex(PrintHop(h), '@');
            at == |h.node| < |element| && element[..at] == h.node && element[at + 1..] == h.via
  {
    var element := PrintHop(h);
    assert element[|h.node|] == '@';
    forall j | 0 <= j < |h.node|
      ensures element[j] != '@'
    {
      assert element[j] == h.node[j];
    }
  }

  /** What becomes of an address that ends like a port: the tail is taken for one, or parsing fails over it. */
  lemma PortLikeHopIsMisread(h: Hop)
    requires '@' !in h.node && Text.Trimmed(h.node) && Text.Trimmed(h.via) && EndsWithPort(h.via)
    ensures var colon := LastIndex(h.via, ':').value;
            var port := Digits.Number(h.via[colon + 1..]);
            ParseHop(PrintHop(h)) ==
              if port.None? then None else Some(ParsedHop(h.node, Some(Text.Trim(h.via[..colon])), Some(port.value)))
  {
    PrintedHopParts(h);
  }

  /** What parsing a printed hop takes apart, when outer space does not get lost. */
  lemma PrintedHopParts(h: Hop)
    requires '@' !in h.node && Text.Trimmed(h.node) && Text.Trimmed(h.via)
    ensures ParseHop(PrintHop(h)) ==
      if h.via == "" then Some(ParsedHop(h.node, None, None)) else ParseAddress(h.node, h.via)
  {
    SplitsAtNode(h);
    Text.TrimFixed(h.node);
    Text.TrimFixed(h.via);
  }

  /** A bare server name has no overrides. */
  lemma BareHopParses(server: string)
    requires '@' !in server
    ensures ParseHop(server) == Some(ParsedHop(Text.Trim(server), None, None))
  {
    assert server[..|server|] == server;
    Text.TrimFixed("");
  }

  /** The last colon of `host:port` is the one before the port, whatever colons the host has. */
  lemma PortTail(host: string, digits: string)
    requires Text.Trimmed(host) && digits != "" && Text.AllDigits(digits)
    ensures var addr := host + ":" + digits;
            && LastIndex(addr, ':') == Some(|host|) && EndsWithPort(addr) && Text.Trimmed(addr)
            && addr[..|host|] == host && addr[|host| + 1..] == digits
  {
    var addr := host + ":" + digits;
    assert addr[|host|] == ':' && addr[..|host|] == host && addr[|host| + 1..] == digits;
    forall j | |host| < j < |addr|
      ensures addr[j] != ':'
    {
      assert addr[j] == digits[j - |host| - 1];
    }
    assert Text.IsDigit(addr[|addr| - 1]);
    Digits.AsciiNumber(digits);
  }

  /** `server@host:port` gives back all three. */
  lemma ManualHopParses(server: string, host: string, port: nat)
    requires '@' !in server && Text.Trimmed(server) && Text.Trimmed(host)
    ensures ParseHop(server + "@" + (host + ":" + Text.Numeral(port)))
      == Some(ParsedHop(server, Some(host), Some(port)))
  {
    PortTail(host, Text.Numeral(port));
    PortLikeHopIsMisread(Hop(server, host + ":" + Text.Numeral(port)));
    Text.TrimFixed(host);
    Text.NumeralValue(port);
    Digits.AsciiNumber(Text.Numeral(port));
  }

  /** A registered IPv6 host is such an address: its last group is dialed as a port. */
  lemma Ipv6HopIsMisread()
    ensures EndsWithPort("fe80::1") && Text.Trimmed("fe80::1") && LastIndex("fe80::1", ':') == Some(5)
    ensures !Printable(Hop("db", "fe80::1"))
  {
    var addr := "fe80::1";
    assert addr[5] == ':' && addr[6] == '1';
    assert addr[6..] == "1";
    Digits.AsciiNumber("1");
  }

  /** A digit of another script is taken for a port too, here the Arabic three. */
  lemma ForeignDigitIsMisread()
    ensures ParseHop("db@h:" + [0x663 as char]) == Some(ParsedHop("db", Some("h"), Some(3)))
  {
    Digits.Samples();
    ShortPort(0x663 as char);
  }

  /** A superscript is a digit that `int` refuses: parsing fails, and with it the whole request. */
  lemma SuperscriptFails()
    ensures ParseHop("db@h:" + [0xB2 as char]) == None
  {
    Digits.Samples();
    ShortPort(0xB2 as char);
  }

  lemma ShortPort(digit: char)
    requires Digits.IsDigit(digit) && digit != ':' && !Text.IsSpace(digit)
    ensures ParseHop("db@h:" + [digit]) ==
      match Digits.Decimal(digit) case Some(n) => Some(ParsedHop("db", Some("h"), Some(n))) case None => None
  {
    var via := "h:" + [digit];
    assert "db@h:" + [digit] == PrintHop(Hop("db", via));
    assert via[1] == ':' && via[2..] == [digit] && via[..1] == "h";
    Text.TrimFixed("h");
    PortLikeHopIsMisread(Hop("db", via));
    Digits.OneDigit(digit);
  }

  // ---- Hop names ----

  function Prefix(alias: string): string {
    "_" + alias + "_hop"
  }

  /** _hop_name: the last hop carries the alias, the others generated names. */
  function HopName(alias: string, index: nat, total: nat): string
    requires index < total
  {
    if index == total - 1 then alias else Prefix(alias) + Text.Numeral(index)
  }

  lemma HopNamesDistinct(alias: string, i: nat, j: nat, total: nat)
    requires i < j < total
    ensures HopName(alias, i, total) != HopName(alias, j, total)
  {
    var p := Prefix(alias);
    assert |p| > |alias|;
    if j < total - 1 && HopName(alias, i, total) == HopName(alias, j, total) {
      assert (p + Text.Numeral(i))[|p|..] == Text.Numeral(i);
      assert (p + Text.Numeral(j))[|p|..] == Text.Numeral(j);
      Text.NumeralInjective(i, j);
    }
  }

  // ---- Building ----

  /** BadPort stands for the ValueError of `int`, which no handler catches. */
  datatype BuildError =
    | AliasTaken
    | HopNotFound(server: string)
    | BadPort(element: string)
    | RegistryFailed(server: string)

  /** The note of a hop; the alias is shown between single quotes. */
  function HopNote(alias: string, note: Option<string>, i: nat, total: nat, server: string): string {
    if note.Some? && note.value != "" && i + 1 == total then note.value
    else "jump chain '" + alias + "' hop " + Text.Numeral(i) + " via " + server
  }

  /** A registered server re-dressed as hop `i`: new name, dial address and jump host, same credentials. */
  function HopConfig(base: ServerConfig, alias: string, i: nat, total: nat, parsed: ParsedHop,
      note: Option<string>): ServerConfig
    requires i < total
  {
    base.(
      name := HopName(alias, i, total),
      host := if parsed.host.Some? && parsed.host.value != "" then parsed.host.value else base.host,
      port := if parsed.port.Some? && parsed.port.value != 0 then parsed.port.value else base.port,
      jumpHost := if i == 0 then None else Some(HopName(alias, i - 1, total)),
      note := Some(HopNote(alias, note, i, total, parsed.server)))
  }

  /** The element can be parsed and names a registered server. */
  predicate Known(reg: Reg, element: string) {
    ParseHop(element).Some? && Taken(reg, ParseHop(element).value.server)
  }

  predicate Resolves(reg: Reg, chain: seq<string>) {
    forall i :: 0 <= i < |chain| ==> Known(reg, chain[i])
  }

  /** What stops the build at an element that is not known. */
  function Trouble(element: string): BuildError {
    match ParseHop(element) case None => BadPort(element) case Some(parsed) => HopNotFound(parsed.server)
  }

  /** Element `i` is the first that is not known, and `e` says why. */
  ghost predicate UnknownAt(reg: Reg, chain: seq<string>, e: BuildError, i: nat) {
    && i < |chain| && !Known(reg, chain[i]) && e == Trouble(chain[i])
    && forall j :: 0 <= j < i ==> Known(reg, chain[j])
  }

  ghost predicate FirstUnknown(reg: Reg, chain: seq<string>, e: BuildError) {
    exists i: nat :: UnknownAt(reg, chain, e, i)
  }

  /** The config of hop `i` of a chain. */
  function HopAt(reg: Reg, alias: string, chain: seq<string>, note: Option<string>, i: nat): ServerConfig
    requires i < |chain| && Known(reg, chain[i])
  {
    var parsed := ParseHop(chain[i]).value;
    HopConfig(Find(reg, parsed.server).value, alias, i, |chain|, parsed, note)
  }

  function HopConfigs(reg: Reg, alias: string, chain: seq<string>, note: Option<string>): (hops: seq<ServerConfig>)
    requires Resolves(reg, chain)
    ensures |hops| == |chain|
  {
    seq(|chain|, i requires 0 <= i < |chain| => HopAt(reg, alias, chain, note, i))
  }

  /** The registry with `hops` appended to the side `persist` selects. */
  function Appended(reg: Reg, hops: seq<ServerConfig>, persist: bool): Reg {
    if persist then reg.(servers := reg.servers + Items(hops)) else reg.(ephemeral := reg.ephemeral + Items(hops))
  }

  function Items(hops: seq<ServerConfig>): Dict<ServerConfig> {
    seq(|hops|, i requires 0 <= i < |hops| => Item(hops[i].name, hops[i]))
  }

  ghost predicate DistinctNames(hops: seq<ServerConfig>) {
    forall i, j :: 0 <= i < j < |hops| ==> hops[i].name != hops[j].name
  }

  lemma HopConfigsDistinct(reg: Reg, alias: string, chain: seq<string>, note: Option<string>)
    requires Resolves(reg, chain)
    ensures DistinctNames(HopConfigs(reg, alias, chain, note))
  {
    forall i, j | 0 <= i < j < |chain|
      ensures HopName(alias, i, |chain|) != HopName(alias, j, |chain|)
    {
      HopNamesDistinct(alias, i, j, |chain|);
    }
  }

  lemma {:induction false} ItemsHas(hops: seq<ServerConfig>, n: string)
    ensures Has(Items(hops), n) <==> exists i :: 0 <= i < |hops| && hops[i].name == n
    ensures Lookup(Items(hops), n).Some? ==>
      Lookup(Items(hops), n).value in hops && Lookup(Items(hops), n).value.name == n
  {
    var items := Items(hops);
    if hops != [] {
      ItemsHas(hops[1..], n);
      assert items[1..] == Items(hops[1..]);
    }
    if i :| 0 <= i < |hops| && hops[i].name == n {
      assert items[i].key == n;
    }
  }

  lemma AppendedFind(reg: Reg, hops: seq<ServerConfig>, persist: bool, n: string)
    ensures Taken(Appended(reg, hops, persist), n) <==>
      Taken(reg, n) || exists i :: 0 <= i < |hops| && hops[i].name == n
    ensures Taken(reg, n) && Free(reg, hops) ==> Find(Appended(reg, hops, persist), n) == Find(reg, n)
    ensures !Taken(reg, n) ==> Find(Appended(reg, hops, persist), n) == Lookup(Items(hops), n)
  {
    LookupAppend(reg.servers, Items(hops), n);
    LookupAppend(reg.ephemeral, Items(hops), n);
    ItemsHas(hops, n);
  }

  ghost predicate Free(reg: Reg, hops: seq<ServerConfig>) {
    forall i :: 0 <= i < |hops| ==> !Taken(reg, hops[i].name)
  }

  /** The hop names are free and, when persisting, every write succeeds. */
  ghost predicate Registrable(reg: Reg, hops: seq<ServerConfig>, persist: bool, addOk: nat -> bool) {
    forall i :: 0 <= i < |hops| ==> !Taken(reg, hops[i].name) && (persist ==> addOk(i))
  }

  /** Registration stops at hop `j`: the earlier ones went in, this one does not. */
  ghost predicate StopsAt(reg: Reg, hops: seq<ServerConfig>, persist: bool, addOk: nat -> bool, j: nat) {
    j < |hops| && Registrable(reg, hops[..j], persist, addOk) && (Taken(reg, hops[j].name) || (persist && !addOk(j)))
  }

  /** The hops from `i` to `k` whose rollback fails; only a failing file write can make it fail. */
  function Stuck(hops: seq<ServerConfig>, persist: bool, undoOk: nat -> bool, i: nat, k: nat): seq<ServerConfig>
    requires i <= k <= |hops|
    decreases k - i
  {
    if i == k then []
    else (if persist && !undoOk(i) then [hops[i]] else []) + Stuck(hops, persist, undoOk, i + 1, k)
  }

  lemma {:induction false} StuckAreHops(hops: seq<ServerConfig>, persist: bool, undoOk: nat -> bool, i: nat, k: nat)
    requires i <= k <= |hops|
    ensures forall h :: h in Stuck(hops, persist, undoOk, i, k) ==> h in hops[i..k]
    decreases k - i
  {
    if i < k {
      StuckAreHops(hops, persist, undoOk, i + 1, k);
      assert hops[i..k] == [hops[i]] + hops[i + 1..k];
    }
  }

  lemma {:induction false} NothingStuck(hops: seq<ServerConfig>, persist: bool, undoOk: nat -> bool, i: nat, k: nat)
    requires i <= k <= |hops|
    ensures Stuck(hops, persist, undoOk, i, k) == [] <==> !persist || forall x :: i <= x < k ==> undoOk(x)
    decreases k - i
  {
    if i < k {
      NothingStuck(hops, persist, undoOk, i + 1, k);
    }
  }

  lemma ItemsConcat(a: seq<ServerConfig>, b: seq<ServerConfig>)
    ensures Items(a + b) == Items(a) + Items(b)
  {
  }

  lemma ItemsMiddle(prior: Dict<ServerConfig>, front: seq<ServerConfig>, h: ServerConfig, back: seq<ServerConfig>)
    ensures prior + Items(front + [h] + back) == (prior + Items(front)) + [Item(h.name, h)] + Items(back)
    ensures prior + Items(front + back) == (prior + Items(front)) + Items(back)
  {
    ItemsConcat(front + [h], back);
    ItemsConcat(front, [h]);
    ItemsConcat(front, back);
    assert Items([h]) == [Item(h.name, h)];
  }

  lemma SideRemove(prior: Dict<ServerConfig>, front: seq<ServerConfig>, h: ServerConfig, back: seq<ServerConfig>)
    requires !Has(prior, h.name)
    requires forall x :: x in front + back ==> x.name != h.name
    ensures Has(prior + Items(front + [h] + back), h.name)
    ensures Without(prior + Items(front + [h] + back), h.name) == prior + Items(front + back)
  {
    ItemsHas(front, h.name);
    ItemsHas(back, h.name);
    LookupAppend(prior, Items(front), h.name);
    ItemsMiddle(prior, front, h, back);
    WithoutMiddle(prior + Items(front), Item(h.name, h), Items(back));
  }

  /** Dropping the one hop called `h.name` from an appended registry drops exactly that hop. */
  lemma AppendedRemove(reg: Reg, front: seq<ServerConfig>, h: ServerConfig, back: seq<ServerConfig>, persist: bool,
      writeOk: bool)
    requires !Taken(reg, h.name)
    requires forall x :: x in front + back ==> x.name != h.name
    ensures var before := Appended(reg, front + [h] + back, persist);
            Removed(before, h.name, persist, writeOk).reg ==
                if persist && !writeOk then before else Appended(reg, front + back, persist)
  {
    SideRemove(if persist then reg.servers else reg.ephemeral, front, h, back);
  }

  /** Appending one more hop is adding it. */
  lemma AppendedAdd(reg: Reg, front: seq<ServerConfig>, h: ServerConfig, persist: bool, writeOk: bool)
    requires forall x :: x in front ==> x.name != h.name
    ensures var after := Added(Appended(reg, front, persist), h, persist, writeOk);
            if Taken(reg, h.name) || (persist && !writeOk) then
              after.reg == Appended(reg, front, persist) && after.error.Some?
            else after == Effect(Appended(reg, front + [h], persist), None)
  {
    AppendedFind(reg, front, persist, h.name);
    assert Items(front + [h]) == Items(front) + [Item(h.name, h)];
    assert reg.servers + (Items(front) + [Item(h.name, h)]) == reg.servers + Items(front) + [Item(h.name, h)];
    assert reg.ephemeral + (Items(front) + [Item(h.name, h)]) == reg.ephemeral + Items(front) + [Item(h.name, h)];
  }

  /** The rollback of _build_chain: removes the first `k` hops, last first, and shrugs off failing writes. */
  method Rollback(registry: Registry, ghost reg: Reg, hops: seq<ServerConfig>, k: nat, persist: bool,
      undoOk: nat -> bool)
    requires k <= |hops| && DistinctNames(hops)
    requires Free(reg, hops[..k])
    requires registry.State() == Appended(reg, hops[..k], persist)
    modifies registry
    ensures registry.State() == Appended(reg, Stuck(hops, persist, undoOk, 0, k), persist)
  {
    assert hops[..k] + [] == hops[..k];
    for i := k downto 0
      invariant registry.State() == Appended(reg, hops[..i] + Stuck(hops, persist, undoOk, i, k), persist)
    {
      var h := hops[i];
      ghost var back := Stuck(hops, persist, undoOk, i + 1, k);
      StuckAreHops(hops, persist, undoOk, i + 1, k);
      assert hops[..i + 1] == hops[..i] + [h];
      assert h == hops[..k][i];
      AppendedRemove(reg, hops[..i], h, back, persist, undoOk(i));
      Associates(hops[..i], [h], back);
      EmptyFirst(back);
      if persist {
        var error := registry.Remove(h.name, undoOk(i));
      } else {
        var error := registry.RemoveEphemeral(h.name);
        assert Effect(registry.State(), error)
            == Removed(Appended(reg, hops[..i + 1] + back, persist), h.name, false, undoOk(i));
      }
    }
    assert hops[..0] + Stuck(hops, persist, undoOk, 0, k) == Stuck(hops, persist, undoOk, 0, k);
  }

  /**
   * _build_chain. `addOk(i)` and `undoOk(i)` say whether writing the config file succeeds when
   * hop `i` is added and when it is rolled back.
   */
  method BuildChain(registry: Registry, alias: string, chain: seq<string>, persist: bool, note: Option<string>,
    addOk: nat -> bool, undoOk: nat -> bool) returns (r: Result<seq<ServerConfig>, BuildError>)
    modifies registry
    ensures Built(old(registry.State()), registry.State(), r, alias, chain, persist, note, addOk, undoOk)
  {
    ghost var reg := registry.State();
    var existing := registry.Get(alias);
    if existing.Ok? {
      return Err(AliasTaken);
    }
    var resolved := ResolveHops(registry, alias, chain, note);
    if resolved.Err? {
      return Err(resolved.error);
    }
    HopConfigsDistinct(reg, alias, chain, note);
    var error := RegisterHops(registry, resolved.value, persist, addOk, undoOk);
    r := if error.Some? then Err(RegistryFailed(error.value)) else Ok(resolved.value);
  }

  /** The first `i` elements of the chain are known. */
  predicate KnownUpTo(reg: Reg, chain: seq<string>, i: nat) {
    i <= |chain| && forall j :: 0 <= j < i ==> Known(reg, chain[j])
  }

  /** Their configs. */
  ghost function HopsUpTo(reg: Reg, alias: string, chain: seq<string>, note: Option<string>, i: nat): seq<ServerConfig>
    requires KnownUpTo(reg, chain, i)
  {
    if i == 0 then [] else HopsUpTo(reg, alias, chain, note, i - 1) + [HopAt(reg, alias, chain, note, i - 1)]
  }

  lemma {:induction false} HopsUpToAt(reg: Reg, alias: string, chain: seq<string>, note: Option<string>, i: nat, k: nat)
    requires KnownUpTo(reg, chain, i) && k < i
    ensures |HopsUpTo(reg, alias, chain, note, i)| == i
    ensures HopsUpTo(reg, alias, chain, note, i)[k] == HopAt(reg, alias, chain, note, k)
    decreases i
  {
    var front := HopsUpTo(reg, alias, chain, note, i - 1);
    if i > 1 {
      HopsUpToAt(reg, alias, chain, note, i - 1, if k < i - 1 then k else 0);
    }
    SnocAt(front, HopAt(reg, alias, chain, note, i - 1), k);
  }

  lemma ResolveOneMore(reg: Reg, alias: string, chain: seq<string>, note: Option<string>, i: nat, parsed: ParsedHop,
      base: ServerConfig)
    requires KnownUpTo(reg, chain, i) && i < |chain|
    requires ParseHop(chain[i]) == Some(parsed) && Find(reg, parsed.server) == Some(base)
    ensures KnownUpTo(reg, chain, i + 1)
    ensures HopsUpTo(reg, alias, chain, note, i + 1)
      == HopsUpTo(reg, alias, chain, note, i) + [HopConfig(base, alias, i, |chain|, parsed, note)]
  {
  }

  lemma StopsResolving(reg: Reg, chain: seq<string>, i: nat)
    requires KnownUpTo(reg, chain, i) && i < |chain| && !Known(reg, chain[i])
    ensures FirstUnknown(reg, chain, Trouble(chain[i]))
  {
    assert UnknownAt(reg, chain, Trouble(chain[i]), i);
  }

  lemma AllResolved(reg: Reg, alias: string, chain: seq<string>, note: Option<string>)
    requires KnownUpTo(reg, chain, |chain|)
    ensures Resolves(reg, chain) && HopsUpTo(reg, alias, chain, note, |chain|) == HopConfigs(reg, alias, chain, note)
  {
    var hops := HopsUpTo(reg, alias, chain, note, |chain|);
    if chain != [] {
      HopsUpToAt(reg, alias, chain, note, |chain|, 0);
    }
    forall k | 0 <= k < |chain|
      ensures hops[k] == HopConfigs(reg, alias, chain, note)[k]
    {
      HopsUpToAt(reg, alias, chain, note, |chain|, k);
    }
  }

  /** The first half of _build_chain: one config per element, or why the first that is not known stopped it. */
  method ResolveHops(registry: Registry, alias: string, chain: seq<string>, note: Option<string>)
    returns (r: Result<seq<ServerConfig>, BuildError>)
    ensures r.Ok? ==> Resolves(registry.State(), chain) && r.value == HopConfigs(registry.State(), alias, chain, note)
    ensures r.Err? ==> FirstUnknown(registry.State(), chain, r.error)
  {
    ghost var reg := registry.State();
    var hops: seq<ServerConfig> := [];
    for i := 0 to |chain|
      invariant KnownUpTo(reg, chain, i) && hops == HopsUpTo(reg, alias, chain, note, i)
    {
      var parsed := ParseHop(chain[i]);
      if parsed.None? {
        StopsResolving(reg, chain, i);
        return Err(BadPort(chain[i]));
      }
      var base := registry.Get(parsed.value.server);
      if base.Err? {
        StopsResolving(reg, chain, i);
        return Err(HopNotFound(parsed.value.server));
      }
      hops := hops + [HopConfig(base.value, alias, i, |chain|, parsed.value, note)];
      ResolveOneMore(reg, alias, chain, note, i, parsed.value, base.value);
    }
    AllResolved(reg, alias, chain, note);
    return Ok(hops);
  }

  /** The second half of _build_chain: adds the hops in order, rolling back at the first that is refused. */
  method RegisterHops(registry: Registry, hops: seq<ServerConfig>, persist: bool, addOk: nat -> bool,
      undoOk: nat -> bool)
    returns (error: Option<string>)
    requires DistinctNames(hops)
    modifies registry
    ensures error.None? ==> Registrable(old(registry.State()), hops, persist, addOk)
    ensures error.None? ==> registry.State() == Appended(old(registry.State()), hops, persist)
    ensures error.Some? ==> Refused(old(registry.State()), registry.State(), hops, persist, addOk, undoOk, error.value)
  {
    ghost var reg := registry.State();
    assert reg.servers + Items([]) == reg.servers && reg.ephemeral + Items([]) == reg.ephemeral;
    assert hops[..0] == [];
    for k := 0 to |hops|
      invariant registry.State() == Appended(reg, hops[..k], persist)
      invariant Registrable(reg, hops[..k], persist, addOk)
    {
      var h := hops[k];
      assert hops[..k + 1] == hops[..k] + [h];
      AppendedAdd(reg, hops[..k], h, persist, addOk(k));
      var refusal;
      if persist {
        refusal := registry.Add(h, addOk(k));
      } else {
        refusal := registry.AddEphemeral(h);
        assert Effect(registry.State(), refusal) == Added(Appended(reg, hops[..k], persist), h, false, addOk(k));
      }
      if refusal.Some? {
        assert StopsAt(reg, hops, persist, addOk, k);
        Rollback(registry, reg, hops, k, persist, undoOk);
        return Some(h.name);
      }
    }
    assert hops[..|hops|] == hops;
    return None;
  }

  /** The hop called `server` was refused and the earlier ones rolled back. */
  ghost predicate Refused(reg: Reg, after: Reg, hops: seq<ServerConfig>, persist: bool, addOk: nat -> bool,
      undoOk: nat -> bool, server: string) {
    exists j: nat :: StopsAt(reg, hops, persist, addOk, j) && server == hops[j].name
                     && after == Appended(reg, Stuck(hops, persist, undoOk, 0, j), persist)
  }

  /** What one run of _build_chain may do to the registry: all of the chain, or an error. */
  ghost predicate Built(reg: Reg, after: Reg, r: Result<seq<ServerConfig>, BuildError>, alias: string,
      chain: seq<string>, persist: bool, note: Option<string>, addOk: nat -> bool, undoOk: nat -> bool)
  {
    match r
    case Ok(hops) =>
      && !Taken(reg, alias) && Resolves(reg, chain)
      && hops == HopConfigs(reg, alias, chain, note)
      && Registrable(reg, hops, persist, addOk)
      && after == Appended(reg, hops, persist)
    case Err(AliasTaken) => Taken(reg, alias) && after == reg
    case Err(RegistryFailed(server)) =>
      && !Taken(reg, alias) && Resolves(reg, chain)
      && Refused(reg, after, HopConfigs(reg, alias, chain, note), persist, addOk, undoOk, server)
    case Err(e) => !Taken(reg, alias) && FirstUnknown(reg, chain, e) && after == reg
  }

  /** An ephemeral build is all or nothing: an error leaves both maps as they were. */
  lemma EphemeralFailureChangesNothing(reg: Reg, after: Reg, r: Result<seq<ServerConfig>, BuildError>, alias: string,
      chain: seq<string>, note: Option<string>, addOk: nat -> bool, undoOk: nat -> bool)
    requires Built(reg, after, r, alias, chain, false, note, addOk, undoOk) && r.Err?
    ensures after == reg
  {
    if r.error.RegistryFailed? {
      RefusedEphemeral(reg, after, HopConfigs(reg, alias, chain, note), addOk, undoOk, r.error.server);
    }
  }

  lemma RefusedEphemeral(reg: Reg, after: Reg, hops: seq<ServerConfig>, addOk: nat -> bool, undoOk: nat -> bool,
      server: string)
    requires Refused(reg, after, hops, false, addOk, undoOk, server)
    ensures after == reg
  {
    var j: nat :| StopsAt(reg, hops, false, addOk, j)
        && after == Appended(reg, Stuck(hops, false, undoOk, 0, j), false);
    NothingStuck(hops, false, undoOk, 0, j);
    assert reg.ephemeral + Items([]) == reg.ephemeral;
  }

  /** A successful build adds exactly one name per hop. */
  lemma BuildAddsOneNamePerHop(reg: Reg, after: Reg, hops: seq<ServerConfig>, alias: string, chain: seq<string>,
      persist: bool, note: Option<string>, addOk: nat -> bool, undoOk: nat -> bool)
    requires Built(reg, after, Ok(hops), alias, chain, persist, note, addOk, undoOk)
    ensures |Names(after)| == |Names(reg)| + |chain|
    ensures if persist then after.ephemeral == reg.ephemeral else after.servers == reg.servers
  {
    HopConfigsDistinct(reg, alias, chain, note);
    NamesGrow(reg, hops, persist);
  }

  lemma NamesGrow(reg: Reg, hops: seq<ServerConfig>, persist: bool)
    requires DistinctNames(hops) && Free(reg, hops)
    ensures |Names(Appended(reg, hops, persist))| == |Names(reg)| + |hops|
  {
    var items := Items(hops);
    KeysAppend(reg.servers, items);
    KeysAppend(reg.ephemeral, items);
    KeysCount(items);
    forall n | n in Keys(items)
      ensures n !in Names(reg)
    {
      NamesAreTaken(reg, n);
    }
    assert Names(Appended(reg, hops, persist)) == Names(reg) + Keys(items);
  }

  lemma NothingStuckIff(reg: Reg, hops: seq<ServerConfig>, undoOk: nat -> bool, j: nat)
    requires j <= |hops|
    ensures Appended(reg, Stuck(hops, true, undoOk, 0, j), true) == reg <==> forall i :: 0 <= i < j ==> undoOk(i)
  {
    var stuck := Stuck(hops, true, undoOk, 0, j);
    NothingStuck(hops, true, undoOk, 0, j);
    assert |reg.servers + Items(stuck)| == |reg.servers| + |stuck|;
    assert reg.servers + Items([]) == reg.servers;
  }

  lemma StopsOnce(reg: Reg, hops: seq<ServerConfig>, persist: bool, addOk: nat -> bool, j: nat, k: nat)
    requires StopsAt(reg, hops, persist, addOk, j) && StopsAt(reg, hops, persist, addOk, k)
    ensures k <= j
  {
    TakeAt(hops, k, j);
  }

  /**
   * A persisted build that is refused stops at one hop, the first that cannot be added, and leaves the
   * registry as it was exactly when the rollback write of every hop before it succeeded.
   */
  lemma PersistedRollbackIff(reg: Reg, after: Reg, alias: string, chain: seq<string>, note: Option<string>,
    addOk: nat -> bool, undoOk: nat -> bool, server: string) returns (j: nat)
    requires Built(reg, after, Err(RegistryFailed(server)), alias, chain, true, note, addOk, undoOk)
    ensures var hops := HopConfigs(reg, alias, chain, note);
            && StopsAt(reg, hops, true, addOk, j) && server == hops[j].name
            && forall k: nat :: StopsAt(reg, hops, true, addOk, k) ==> k == j
    ensures after == reg <==> forall i :: 0 <= i < j ==> undoOk(i)
  {
    var hops := HopConfigs(reg, alias, chain, note);
    j :| StopsAt(reg, hops, true, addOk, j) && server == hops[j].name
         && after == Appended(reg, Stuck(hops, true, undoOk, 0, j), true);
    NothingStuckIff(reg, hops, undoOk, j);
    forall k: nat | StopsAt(reg, hops, true, addOk, k)
      ensures k == j
    {
      StopsOnce(reg, hops, true, addOk, j, k);
      StopsOnce(reg, hops, true, addOk, k, j);
    }
  }

  // ---- What a built chain is ----

  /** In the grown registry each hop is found under its name and leads to the hop before it. */
  lemma HopIsFound(reg: Reg, hops: seq<ServerConfig>, persist: bool, i: nat)
    requires DistinctNames(hops) && Free(reg, hops) && i < |hops|
    ensures Find(Appended(reg, hops, persist), hops[i].name) == Some(hops[i])
    ensures Next(JumpsOf(Appended(reg, hops, persist)), hops[i].name) == hops[i].jumpHost
  {
    var n := hops[i].name;
    AppendedFind(reg, hops, persist, n);
    ItemsHas(hops, n);
    JumpsOfNext(Appended(reg, hops, persist), n);
  }

  /**
   * What a successful build registers for element `i`: the server the element names, with everything it
   * holds, but under the hop's name, behind the hop before, with a note of its own, and at the host and
   * port written in the element where one is written. An empty host and port 0 count as not written.
   */
  lemma HopIsServerRedressed(reg: Reg, after: Reg, hops: seq<ServerConfig>, alias: string, chain: seq<string>,
      persist: bool, note: Option<string>, addOk: nat -> bool, undoOk: nat -> bool, i: nat)
      returns (parsed: ParsedHop, base: ServerConfig)
    requires Built(reg, after, Ok(hops), alias, chain, persist, note, addOk, undoOk) && i < |chain|
    ensures ParseHop(chain[i]) == Some(parsed) && Find(reg, parsed.server) == Some(base)
    ensures |hops| == |chain| && Find(after, hops[i].name) == Some(hops[i])
    ensures var (hop, last) := (hops[i], i == |chain| - 1);
            && hop.name == (if last then alias else "_" + alias + "_hop" + Text.Numeral(i))
            && hop.jumpHost == (if i == 0 then None else Some("_" + alias + "_hop" + Text.Numeral(i - 1)))
            && hop.host == (match parsed.host case Some(h) => if h != "" then h else base.host case None => base.host)
            && hop.port == (match parsed.port case Some(n) => if n != 0 then n else base.port case None => base.port)
            && hop.note == Some(if last && note.Some? && note.value != "" then note.value
                 else "jump chain '" + alias + "' hop " + Text.Numeral(i) + " via " + parsed.server)
            && hop == base.(name := hop.name, host := hop.host, port := hop.port, jumpHost := hop.jumpHost,
                 note := hop.note)
  {
    parsed := ParseHop(chain[i]).value;
    base := Find(reg, parsed.server).value;
    HopConfigsDistinct(reg, alias, chain, note);
    HopIsFound(reg, hops, persist, i);
  }

  /** An element `server@host:port` registers that server at that host and port, all else being the server's own. */
  lemma ManualHopIsRegistered(reg: Reg, after: Reg, hops: seq<ServerConfig>, alias: string, chain: seq<string>,
      persist: bool, note: Option<string>, addOk: nat -> bool, undoOk: nat -> bool, i: nat, server: string,
      host: string, port: nat)
    requires Built(reg, after, Ok(hops), alias, chain, persist, note, addOk, undoOk)
    requires i < |chain| && chain[i] == server + "@" + (host + ":" + Text.Numeral(port))
    requires '@' !in server && Text.Trimmed(server) && Text.Trimmed(host)
    ensures |hops| == |chain| && Find(reg, server).Some? && Find(after, hops[i].name) == Some(hops[i])
    ensures var (hop, base) := (hops[i], Find(reg, server).value);
            && hop.port == (if port == 0 then base.port else port)
            && hop.host == (if host == "" then base.host else host)
            && hop == base.(name := hop.name, host := hop.host, port := hop.port, jumpHost := hop.jumpHost,
                 note := hop.note)
  {
    ManualHopParses(server, host, port);
    var parsed, base := HopIsServerRedressed(reg, after, hops, alias, chain, persist, note, addOk, undoOk, i);
  }

  /** Each hop jumps through the hop before it, the first goes direct. */
  ghost predicate Linked(hops: seq<ServerConfig>) {
    forall i :: 0 <= i < |hops| ==> LinkedAt(hops, i)
  }

  ghost predicate LinkedAt(hops: seq<ServerConfig>, i: nat)
    requires i < |hops|
  {
    hops[i].jumpHost == (if i == 0 then None else Some(hops[i - 1].name))
  }

  lemma HopAtFields(reg: Reg, alias: string, chain: seq<string>, note: Option<string>, i: nat)
    requires i < |chain| && Known(reg, chain[i])
    ensures HopAt(reg, alias, chain, note, i).name == HopName(alias, i, |chain|)
    ensures HopAt(reg, alias, chain, note, i).jumpHost == if i == 0 then None else Some(HopName(alias, i - 1, |chain|))
  {
  }

  lemma HopLinked(reg: Reg, alias: string, chain: seq<string>, note: Option<string>, i: nat)
    requires Resolves(reg, chain) && i < |chain|
    ensures LinkedAt(HopConfigs(reg, alias, chain, note), i)
  {
    HopAtFields(reg, alias, chain, note, i);
    if i > 0 {
      HopAtFields(reg, alias, chain, note, i - 1);
    }
  }

  lemma HopConfigsLinked(reg: Reg, alias: string, chain: seq<string>, note: Option<string>)
    requires Resolves(reg, chain)
    ensures var hops := HopConfigs(reg, alias, chain, note);
            DistinctNames(hops) && Linked(hops) && (hops != [] ==> hops[|hops| - 1].name == alias)
  {
    HopConfigsDistinct(reg, alias, chain, note);
    forall i | 0 <= i < |chain|
      ensures LinkedAt(HopConfigs(reg, alias, chain, note), i)
    {
      HopLinked(reg, alias, chain, note, i);
    }
    if chain != [] {
      HopAtFields(reg, alias, chain, note, |chain| - 1);
    }
  }

  function NamesOf(hops: seq<ServerConfig>): (names: seq<string>)
    ensures |names| == |hops| && forall i :: 0 <= i < |hops| ==> names[i] == hops[i].name
  {
    seq(|hops|, i requires 0 <= i < |hops| => hops[i].name)
  }

  /** The added hops are a chain of the grown registry: jump_host leads from each to the one before. */
  lemma HopsAreChain(reg: Reg, hops: seq<ServerConfig>, persist: bool)
    requires DistinctNames(hops) && Linked(hops) && Free(reg, hops)
    ensures ChainOf(JumpsOf(Appended(reg, hops, persist)), NamesOf(hops))
  {
    forall i | 0 <= i < |hops|
      ensures LeadsBack(JumpsOf(Appended(reg, hops, persist)), NamesOf(hops), i)
    {
      HopIsFound(reg, hops, persist, i);
      assert LinkedAt(hops, i);
    }
  }

  lemma NamesWalk(g: Jumps, hops: seq<ServerConfig>, k: nat)
    requires ChainOf(g, NamesOf(hops)) && hops != [] && k <= |hops|
    ensures Walk(g, hops[|hops| - 1].name, k) == (if k == |hops| then None else Some(hops[|hops| - 1 - k].name))
  {
    ChainOfWalk(g, NamesOf(hops), |hops| - 1, k);
  }

  /** From the last hop, `k` steps lead to the hop `k` places before it, and then nowhere. */
  lemma HopsWalk(reg: Reg, hops: seq<ServerConfig>, persist: bool, k: nat)
    requires DistinctNames(hops) && Linked(hops) && Free(reg, hops)
    requires hops != [] && k <= |hops|
    ensures Walk(JumpsOf(Appended(reg, hops, persist)), hops[|hops| - 1].name, k)
      == (if k == |hops| then None else Some(hops[|hops| - 1 - k].name))
  {
    HopsAreChain(reg, hops, persist);
    NamesWalk(JumpsOf(Appended(reg, hops, persist)), hops, k);
  }

  /** Names no hop bears keep their jump host. */
  lemma OtherJumpsKept(reg: Reg, hops: seq<ServerConfig>, persist: bool, n: string)
    requires forall h :: h in hops ==> h.name != n
    ensures Next(JumpsOf(Appended(reg, hops, persist)), n) == Next(JumpsOf(reg), n)
  {
    OtherFound(reg, hops, persist, n);
    JumpsOfNext(reg, n);
    JumpsOfNext(Appended(reg, hops, persist), n);
  }

  lemma OtherFound(reg: Reg, hops: seq<ServerConfig>, persist: bool, n: string)
    requires forall h :: h in hops ==> h.name != n
    ensures Find(Appended(reg, hops, persist), n) == Find(reg, n)
  {
    ItemsHas(hops, n);
    LookupAppend(reg.servers, Items(hops), n);
    LookupAppend(reg.ephemeral, Items(hops), n);
  }

  /** When only some of the hops were kept, a hop's name still leads to the hop before it, or nowhere. */
  lemma KeptHopLeads(reg: Reg, hops: seq<ServerConfig>, kept: seq<ServerConfig>, persist: bool, i: nat)
    requires DistinctNames(hops) && Linked(hops) && Free(reg, hops) && i < |hops|
    requires forall h :: h in kept ==> h in hops
    ensures StopsOrLeadsBack(JumpsOf(Appended(reg, kept, persist)), NamesOf(hops), i)
  {
    var n := hops[i].name;
    AppendedFind(reg, kept, persist, n);
    ItemsHas(kept, n);
    JumpsOfNext(Appended(reg, kept, persist), n);
    if Find(Appended(reg, kept, persist), n).Some? {
      assert Find(Appended(reg, kept, persist), n) == Some(hops[i]);
      assert LinkedAt(hops, i);
    }
  }

  /**
   * A linked chain of new servers keeps any registry acyclic, dangling jump hosts included,
   * even when only some of its hops stay registered.
   */
  lemma ChainKeepsAcyclic(reg: Reg, hops: seq<ServerConfig>, kept: seq<ServerConfig>, persist: bool)
    requires DistinctNames(hops) && Linked(hops) && Free(reg, hops)
    requires forall h :: h in kept ==> h in hops
    requires Acyclic(JumpsOf(reg))
    ensures Acyclic(JumpsOf(Appended(reg, kept, persist)))
  {
    var g, g' := JumpsOf(reg), JumpsOf(Appended(reg, kept, persist));
    var added := set i | 0 <= i < |hops| :: hops[i].name;
    forall n | n !in added
      ensures Next(g', n) == Next(g, n)
    {
      OtherJumpsKept(reg, kept, persist, n);
    }
    forall n | n in added
      ensures Ends(g', n)
    {
      var i :| 0 <= i < |hops| && hops[i].name == n;
      forall j | 0 <= j < |hops|
        ensures StopsOrLeadsBack(g', NamesOf(hops), j)
      {
        KeptHopLeads(reg, hops, kept, persist, j);
      }
      BackwardEnds(g', NamesOf(hops), i);
    }
    GraftKeepsAcyclic(g, g', added);
  }

  lemma RefusedKeepsAcyclic(reg: Reg, after: Reg, hops: seq<ServerConfig>, persist: bool, addOk: nat -> bool,
      undoOk: nat -> bool, server: string)
    requires DistinctNames(hops) && Linked(hops) && Acyclic(JumpsOf(reg))
    requires Refused(reg, after, hops, persist, addOk, undoOk, server)
    ensures Acyclic(JumpsOf(after))
  {
    var j: nat :| StopsAt(reg, hops, persist, addOk, j)
        && after == Appended(reg, Stuck(hops, persist, undoOk, 0, j), persist);
    var tried := hops[..j];
    forall i | 0 <= i < j
      ensures LinkedAt(tried, i)
    {
      assert LinkedAt(hops, i);
    }
    StuckAreHops(hops, persist, undoOk, 0, j);
    ChainKeepsAcyclic(reg, tried, Stuck(hops, persist, undoOk, 0, j), persist);
  }

  /** _build_chain keeps any registry acyclic whatever it answers, even when its rollback fails half way. */
  lemma BuildKeepsAcyclic(reg: Reg, after: Reg, r: Result<seq<ServerConfig>, BuildError>, alias: string,
      chain: seq<string>, persist: bool, note: Option<string>, addOk: nat -> bool, undoOk: nat -> bool)
    requires Built(reg, after, r, alias, chain, persist, note, addOk, undoOk)
    requires Acyclic(JumpsOf(reg))
    ensures Acyclic(JumpsOf(after))
  {
    if r.Ok? {
      HopConfigsLinked(reg, alias, chain, note);
      ChainKeepsAcyclic(reg, r.value, r.value, persist);
    } else if r.error.RegistryFailed? {
      HopConfigsLinked(reg, alias, chain, note);
      RefusedKeepsAcyclic(reg, after, HopConfigs(reg, alias, chain, note), persist, addOk, undoOk, r.error.server);
    }
  }
}
