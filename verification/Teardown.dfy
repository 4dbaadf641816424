/** Taking sets of servers out again: teardown_jump and teardown_discovery. */
module Teardown {
  import opened Wrappers
  import opened Dict
  import opened Registry
  import opened JumpChain
  import Text

  // ---- Removing a list of names ----

  /** Tries the ephemeral entry first and the file-backed one after that. */
  function RemovedEither(reg: Reg, name: string, writeOk: bool): Effect {
    var first := Removed(reg, name, false, true);
    if first.error.None? then first else Removed(reg, name, true, writeOk)
  }

  datatype Torn = Torn(reg: Reg, removed: seq<string>)

  /** The registry after the first `k` targets, and the names whose removal succeeded. */
  function Tear(reg: Reg, targets: seq<string>, writeOk: nat -> bool, k: nat): Torn
    requires k <= |targets|
  {
    if k == 0 then Torn(reg, [])
    else
      var before := Tear(reg, targets, writeOk, k - 1);
      var effect := RemovedEither(before.reg, targets[k - 1], writeOk(k - 1));
      Torn(effect.reg, before.removed + if effect.error.None? then [targets[k - 1]] else [])
  }

  method RemoveTargets(registry: Registry, targets: seq<string>, writeOk: nat -> bool) returns (removed: seq<string>)
    modifies registry
    ensures Torn(registry.State(), removed) == Tear(old(registry.State()), targets, writeOk, |targets|)
  {
    removed := [];
    for k := 0 to |targets|
      invariant Torn(registry.State(), removed) == Tear(old(registry.State()), targets, writeOk, k)
    {
      ghost var before := registry.State();
      var error := registry.RemoveEphemeral(targets[k]);
      assert Effect(registry.State(), error) == Removed(before, targets[k], false, true);
      if error.Some? {
        error := registry.Remove(targets[k], writeOk(k));
      }
      if error.None? {
        removed := removed + [targets[k]];
      }
    }
  }

  /** Every write of the config file succeeds. */
  const WRITES_SUCCEED: nat -> bool := _ => true

  lemma TornOnce(before: Reg, n: string, writeOk: bool, t: string)
    ensures var effect := RemovedEither(before, n, writeOk);
            && (effect.error.None? <==> Has(before.ephemeral, n) || (Has(before.servers, n) && writeOk))
            && Lookup(effect.reg.ephemeral, t) == (if t == n then None else Lookup(before.ephemeral, t))
            && Lookup(effect.reg.servers, t) ==
               if t == n && !Has(before.ephemeral, t) && writeOk then None else Lookup(before.servers, t)
  {
    WithoutLookup(before.ephemeral, n, t);
    WithoutLookup(before.servers, n, t);
  }

  /** Some target up to the `k`-th is `t`, with a write that succeeds. */
  ghost predicate Struck(targets: seq<string>, writeOk: nat -> bool, k: nat, t: string)
    requires k <= |targets|
  {
    exists j :: 0 <= j < k && targets[j] == t && writeOk(j)
  }

  /** The name `t` after the first `k` targets. */
  ghost predicate TornName(reg: Reg, torn: Torn, targets: seq<string>, writeOk: nat -> bool, k: nat, t: string)
    requires k <= |targets|
  {
    && Lookup(torn.reg.ephemeral, t) == (if t in targets[..k] then None else Lookup(reg.ephemeral, t))
    && (t !in targets[..k] ==> Lookup(torn.reg.servers, t) == Lookup(reg.servers, t) && t !in torn.removed)
    && (t in targets[..k] && Has(reg.ephemeral, t) ==> t in torn.removed)
    && (!Has(reg.ephemeral, t) ==>
         && (t in torn.removed <==> Has(reg.servers, t) && Struck(targets, writeOk, k, t))
         && Lookup(torn.reg.servers, t) == if t in torn.removed then None else Lookup(reg.servers, t))
  }

  /**
   * What tearing a list of targets out of the registry does to the name `t`: nothing to its entries unless
   * it is a target; a target loses its ephemeral entry or, without one, the file-backed entry exactly when a
   * write for it succeeds; and it is reported as removed when it loses an entry.
   */
  lemma {:induction false} TornOut(reg: Reg, targets: seq<string>, writeOk: nat -> bool, k: nat, t: string)
    requires k <= |targets|
    ensures TornName(reg, Tear(reg, targets, writeOk, k), targets, writeOk, k, t)
  {
    if k > 0 {
      TornOut(reg, targets, writeOk, k - 1, t);
      TornStep(reg, targets, writeOk, k - 1, t);
    }
  }

  lemma TornStep(reg: Reg, targets: seq<string>, writeOk: nat -> bool, k: nat, t: string)
    requires k < |targets| && TornName(reg, Tear(reg, targets, writeOk, k), targets, writeOk, k, t)
    ensures TornName(reg, Tear(reg, targets, writeOk, k + 1), targets, writeOk, k + 1, t)
  {
    var before := Tear(reg, targets, writeOk, k);
    var effect := RemovedEither(before.reg, targets[k], writeOk(k));
    var last := if effect.error.None? then [targets[k]] else [];
    StruckMore(targets, writeOk, k, t);
    TornOnce(before.reg, targets[k], writeOk(k), t);
    assert Tear(reg, targets, writeOk, k + 1) == Torn(effect.reg, before.removed + last);
    assert t in before.removed + last <==> t in before.removed || (effect.error.None? && t == targets[k]);
  }

  lemma StruckMore(targets: seq<string>, writeOk: nat -> bool, k: nat, t: string)
    requires k < |targets|
    ensures t in targets[..k + 1] <==> t in targets[..k] || t == targets[k]
    ensures Struck(targets, writeOk, k + 1, t) <==> Struck(targets, writeOk, k, t) || (t == targets[k] && writeOk(k))
  {
    assert targets[..k + 1] == targets[..k] + [targets[k]];
  }

  // ---- Choosing the targets ----

  /** The names of the listed servers that satisfy `matches`, in listing order. */
  function Targets(listed: seq<ServerConfig>, matches: ServerConfig -> bool): seq<string> {
    if listed == [] then []
    else (if matches(listed[0]) then [listed[0].name] else []) + Targets(listed[1..], matches)
  }

  lemma {:induction false} TargetsMember(listed: seq<ServerConfig>, matches: ServerConfig -> bool, t: string)
    ensures t in Targets(listed, matches) <==> exists c :: c in listed && matches(c) && c.name == t
  {
    if listed != [] {
      TargetsMember(listed[1..], matches, t);
      assert listed == [listed[0]] + listed[1..];
    }
  }

  /** The entries teardown_jump goes for. */
  function JumpMatch(alias: string): ServerConfig -> bool {
    (cfg: ServerConfig) => cfg.name == alias || Text.StartsWith(cfg.name, Prefix(alias))
  }

  /** Exactly the alias and the names that begin with an underscore, the alias and `_hop`. */
  lemma JumpMatchIff(alias: string, cfg: ServerConfig)
    ensures JumpMatch(alias)(cfg) <==> cfg.name == alias || exists rest :: cfg.name == "_" + alias + "_hop" + rest
  {
    var prefix := "_" + alias + "_hop";
    if prefix <= cfg.name {
      assert cfg.name == prefix + cfg.name[|prefix|..];
    }
  }

  const SESSION_TAG: string := "disc-session="

  const FP_TAG: string := "fp="

  /** The entries teardown_discovery goes for: the session's tag occurs anywhere in the note. */
  function SessionMatch(session: string): ServerConfig -> bool {
    (cfg: ServerConfig) => cfg.note.Some? && Text.Contains(cfg.note.value, SESSION_TAG + session)
  }

  /** Exactly the entries whose note has the session's tag somewhere. */
  lemma SessionMatchIff(session: string, cfg: ServerConfig)
    ensures SessionMatch(session)(cfg) <==>
      exists front, back :: cfg.note == Some(front + ("disc-session=" + session) + back)
  {
    if cfg.note.Some? {
      Text.ContainsMeaning(cfg.note.value, "disc-session=" + session);
    }
  }

  /** teardown_jump; None stands for the "no such chain" reply. */
  method TeardownJump(registry: Registry, alias: string, writeOk: nat -> bool) returns (removed: Option<seq<string>>)
    modifies registry
    ensures var targets := Targets(Listed(old(registry.State())), JumpMatch(alias));
            && (removed.None? <==> targets == [])
            && var torn := Tear(old(registry.State()), targets, writeOk, |targets|);
               registry.State() == torn.reg && (removed.Some? ==> removed.value == torn.removed)
  {
    var listed := registry.ListAll();
    var targets := Targets(listed, JumpMatch(alias));
    if targets == [] {
      return None;
    }
    var done := RemoveTargets(registry, targets, writeOk);
    return Some(done);
  }

  /** teardown_discovery: removes even when nothing matches, which removes nothing. */
  method TeardownDiscovery(registry: Registry, session: string, writeOk: nat -> bool)
      returns (removed: Option<seq<string>>)
    modifies registry
    ensures var targets := Targets(Listed(old(registry.State())), SessionMatch(session));
            && (removed.None? <==> targets == [])
            && var torn := Tear(old(registry.State()), targets, writeOk, |targets|);
               registry.State() == torn.reg && (removed.Some? ==> removed.value == torn.removed)
  {
    var listed := registry.ListAll();
    var targets := Targets(listed, SessionMatch(session));
    var done := RemoveTargets(registry, targets, writeOk);
    return if targets == [] then None else Some(done);
  }

  // ---- Set-up then tear-down ----

  function Drop(hops: seq<ServerConfig>, name: string): seq<ServerConfig> {
    if hops == [] then []
    else (if hops[0].name == name then [] else [hops[0]]) + Drop(hops[1..], name)
  }

  lemma {:induction false} DropItems(hops: seq<ServerConfig>, name: string)
    ensures Items(Drop(hops, name)) == Without(Items(hops), name)
    ensures forall h :: h in Drop(hops, name) <==> h in hops && h.name != name
  {
    if hops != [] {
      DropItems(hops[1..], name);
      assert hops == [hops[0]] + hops[1..];
      assert Items(hops)[1..] == Items(hops[1..]);
      ItemsConcat([hops[0]], Drop(hops[1..], name));
      assert Items([hops[0]]) == [Item(hops[0].name, hops[0])];
    }
  }

  /** Removing a name that only added entries may bear touches added entries only. */
  lemma RemoveAdded(reg: Reg, hops: seq<ServerConfig>, persist: bool, name: string)
    requires !Taken(reg, name)
    ensures RemovedEither(Appended(reg, hops, persist), name, true).reg == Appended(reg, Drop(hops, name), persist)
  {
    var prior := if persist then reg.servers else reg.ephemeral;
    DropItems(hops, name);
    WithoutAppend(prior, Items(hops), name);
    WithoutAbsent(prior, name);
    LookupAppend(prior, Items(hops), name);
    if !Has(Items(hops), name) {
      WithoutAbsent(Items(hops), name);
    }
  }

  lemma {:induction false} TearAdded(reg: Reg, hops: seq<ServerConfig>, persist: bool, targets: seq<string>, k: nat)
    returns (rest: seq<ServerConfig>)
    requires k <= |targets| && forall t :: t in targets ==> !Taken(reg, t)
    ensures Tear(Appended(reg, hops, persist), targets, WRITES_SUCCEED, k).reg == Appended(reg, rest, persist)
    ensures forall h :: h in rest <==> h in hops && h.name !in targets[..k]
    ensures (forall h :: h in hops ==> h.name in targets[..k]) ==> rest == []
  {
    if k == 0 {
      rest := hops;
    } else {
      var before := TearAdded(reg, hops, persist, targets, k - 1);
      RemoveAdded(reg, before, persist, targets[k - 1]);
      rest := Drop(before, targets[k - 1]);
      DropItems(before, targets[k - 1]);
      assert targets[..k] == targets[..k - 1] + [targets[k - 1]];
    }
    if rest != [] {
      assert rest[0] in rest;
    }
  }

  /**
   * Removal only removes; a target is gone from the ephemeral side, and from the file side if it was on
   * that side alone.
   */
  lemma {:induction false} TearRemoves(reg: Reg, targets: seq<string>, k: nat, t: string)
    requires k <= |targets|
    ensures var after := Tear(reg, targets, WRITES_SUCCEED, k).reg;
            && (Has(after.ephemeral, t) ==> Has(reg.ephemeral, t))
            && (Has(after.servers, t) ==> Has(reg.servers, t))
            && (t in targets[..k] ==> !Has(after.ephemeral, t))
            && (t in targets[..k] && !Has(reg.ephemeral, t) ==> !Has(after.servers, t))
  {
    if k > 0 {
      TearRemoves(reg, targets, k - 1, t);
      assert targets[..k] == targets[..k - 1] + [targets[k - 1]];
      RemovalRemoves(Tear(reg, targets, WRITES_SUCCEED, k - 1).reg, targets[k - 1], t);
    }
  }

  lemma RemovalRemoves(before: Reg, n: string, t: string)
    ensures var after := RemovedEither(before, n, true).reg;
            && (Has(after.ephemeral, t) ==> Has(before.ephemeral, t) && t != n)
            && (Has(after.servers, t) ==> Has(before.servers, t))
            && (t == n && !Has(before.ephemeral, t) ==> !Has(after.servers, t))
  {
    WithoutLookup(before.ephemeral, n, t);
    WithoutLookup(before.servers, n, t);
  }

  /** The listing of a grown registry: the old targets and the added names. */
  lemma GrownTargets(reg: Reg, hops: seq<ServerConfig>, persist: bool, matches: ServerConfig -> bool)
    requires forall h :: h in hops ==> matches(h)
    ensures var targets := Targets(Listed(Appended(reg, hops, persist)), matches);
            forall t :: t in targets <==> t in Targets(Listed(reg), matches) || exists h :: h in hops && h.name == t
  {
    var after := Appended(reg, hops, persist);
    ValuesConcat(if persist then reg.servers else reg.ephemeral, hops);
    forall c
      ensures c in Listed(after) <==> c in Listed(reg) || c in hops
    {
    }
    forall t
      ensures t in Targets(Listed(after), matches) <==>
        t in Targets(Listed(reg), matches) || exists h :: h in hops && h.name == t
    {
      TargetsMember(Listed(after), matches, t);
      TargetsMember(Listed(reg), matches, t);
    }
  }

  lemma ValuesConcat(prior: Dict<ServerConfig>, hops: seq<ServerConfig>)
    ensures Values(prior + Items(hops)) == Values(prior) + hops
  {
  }

  /**
   * Set-up then tear-down. With successful writes, tearing down gives back the registry
   * from before the set-up, order included, exactly when no listed name from before that
   * matches is itself registered.
   */
  lemma TeardownRestoresIff(reg: Reg, hops: seq<ServerConfig>, persist: bool, matches: ServerConfig -> bool)
    requires Free(reg, hops)
    requires forall h :: h in hops ==> matches(h)
    ensures var after := Appended(reg, hops, persist);
            var targets := Targets(Listed(after), matches);
            Tear(after, targets, WRITES_SUCCEED, |targets|).reg == reg
            <==> forall t :: t in Targets(Listed(reg), matches) ==> !Taken(reg, t)
  {
    var after := Appended(reg, hops, persist);
    var targets := Targets(Listed(after), matches);
    assert targets[..|targets|] == targets;
    GrownTargets(reg, hops, persist, matches);
    if t :| t in Targets(Listed(reg), matches) && Taken(reg, t) {
      TearRemoves(after, targets, |targets|, t);
      AppendedFind(reg, hops, persist, t);
      LookupAppend(reg.ephemeral, Items(hops), t);
      ItemsHas(hops, t);
    } else {
      forall t | t in targets
        ensures !Taken(reg, t)
      {
        if h :| h in hops && h.name == t {
          var i :| 0 <= i < |hops| && hops[i] == h;
        }
      }
      var rest := TearAdded(reg, hops, persist, targets, |targets|);
      forall h | h in hops
        ensures h.name in targets
      {
      }
      assert reg.servers + Items([]) == reg.servers && reg.ephemeral + Items([]) == reg.ephemeral;
    }
  }

  /** The instance for jump chains: build, then teardown_jump. */
  lemma JumpTeardownRestoresIff(reg: Reg, alias: string, chain: seq<string>, note: Option<string>, persist: bool)
    requires Resolves(reg, chain) && Free(reg, HopConfigs(reg, alias, chain, note))
    ensures var after := Appended(reg, HopConfigs(reg, alias, chain, note), persist);
            var targets := Targets(Listed(after), JumpMatch(alias));
            Tear(after, targets, WRITES_SUCCEED, |targets|).reg == reg
            <==> forall t :: t in Targets(Listed(reg), JumpMatch(alias)) ==> !Taken(reg, t)
  {
    var hops := HopConfigs(reg, alias, chain, note);
    forall h | h in hops
      ensures JumpMatch(alias)(h)
    {
      var i :| 0 <= i < |hops| && hops[i] == h;
      if i != |hops| - 1 {
        assert HopName(alias, i, |hops|)[..|Prefix(alias)|] == Prefix(alias);
      }
    }
    TeardownRestoresIff(reg, hops, persist, JumpMatch(alias));
  }

  /** A server lost that way: building and tearing down `web` takes the unrelated `_web_hopper` along. */
  lemma HopperIsLost(gw: ServerConfig, hopper: ServerConfig)
    requires gw.name == "gw" && hopper.name == "_web_hopper"
    ensures var reg := Reg([], [Item("gw", gw), Item("_web_hopper", hopper)]);
            && Resolves(reg, ["gw"]) && Free(reg, HopConfigs(reg, "web", ["gw"], None))
            && Taken(reg, "_web_hopper")
            && var after := Appended(reg, HopConfigs(reg, "web", ["gw"], None), false);
               var targets := Targets(Listed(after), JumpMatch("web"));
               !Taken(Tear(after, targets, WRITES_SUCCEED, |targets|).reg, "_web_hopper")
  {
    var reg := Reg([], [Item("gw", gw), Item("_web_hopper", hopper)]);
    assert reg.ephemeral[0].key == "gw" && reg.ephemeral[1].key == "_web_hopper";
    BareHopParses("gw");
    Text.TrimFixed("gw");
    var hops := HopConfigs(reg, "web", ["gw"], None);
    HopAtFields(reg, "web", ["gw"], None, 0);
    assert hops == [hops[0]] && hops[0].name == "web";
    var after := Appended(reg, hops, false);
    var targets := Targets(Listed(after), JumpMatch("web"));
    HopperMatches(hopper);
    assert Listed(after)[1] == hopper;
    TargetsMember(Listed(after), JumpMatch("web"), "_web_hopper");
    assert targets[..|targets|] == targets;
    TearRemoves(after, targets, |targets|, "_web_hopper");
  }

  lemma HopperMatches(hopper: ServerConfig)
    requires hopper.name == "_web_hopper"
    ensures JumpMatch("web")(hopper)
  {
    assert "_web_hopper"[..|Prefix("web")|] == Prefix("web");
  }

  /** When entries are registered under their own names, the condition is that nothing matched before. */
  lemma KeyedCondition(reg: Reg, matches: ServerConfig -> bool)
    requires forall item :: item in reg.servers + reg.ephemeral ==> item.key == item.value.name
    ensures (forall t :: t in Targets(Listed(reg), matches) ==> !Taken(reg, t)) <==> Targets(Listed(reg), matches) == []
  {
    var targets := Targets(Listed(reg), matches);
    if targets != [] {
      TargetsMember(Listed(reg), matches, targets[0]);
      var c :| c in Listed(reg) && c.name == targets[0];
      ListedIsTaken(reg, c);
    }
  }

  lemma ListedIsTaken(reg: Reg, c: ServerConfig)
    requires forall item :: item in reg.servers + reg.ephemeral ==> item.key == item.value.name
    requires c in Listed(reg)
    ensures Taken(reg, c.name)
  {
    var all := reg.servers + reg.ephemeral;
    assert Listed(reg) == Values(all);
    var i :| 0 <= i < |all| && all[i].value == c;
    assert all[i] in all;
    if i < |reg.servers| {
      assert reg.servers[i].key == c.name;
    } else {
      assert reg.ephemeral[i - |reg.servers|].key == c.name;
    }
  }
}
