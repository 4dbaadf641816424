/** The text of a config section by section, and what reading plain sections gives. */
module ConfigSections {
  import opened Wrappers
  import opened Dict
  import opened Registry
  import opened Seqs
  import opened Toml
  import opened TomlReader
  import opened TomlPinned
  import opened TomlLines
  import opened ConfigText
  import opened ConfigFields
  import opened ConfigReading
  import Text

  // ---- Which configs ----

  /** Every server is stored under a bare key. */
  predicate BareNames(cfg: AppConfig) {
    forall i :: 0 <= i < |cfg.servers| ==> BareKey(cfg.servers[i].key)
  }

  /** Strings hold no quote, backslash or control character but tab, and environment keys are bare. */
  predicate PlainContents(cfg: AppConfig) {
    PlainSettings(cfg.settings) && forall i :: 0 <= i < |cfg.servers| ==> PlainServer(cfg.servers[i].value)
  }

  /** A header with the first name may be read as a table below the second. */
  predicate MayReadBelow(name: string, other: string) {
    '.' in name && ('"' in name || '\'' in name || Text.Contains(name, other))
  }

  /** No server's header may be read as a table below an earlier server. */
  predicate NamesStandAlone(cfg: AppConfig) {
    forall i, j :: 0 <= j < i < |cfg.servers| ==> !MayReadBelow(cfg.servers[i].key, cfg.servers[j].key)
  }

  predicate PlainConfig(cfg: AppConfig) {
    BareNames(cfg) && PlainContents(cfg)
  }

  predicate OneLineOpt(s: Option<string>) {
    s.Some? ==> '\n' !in s.value
  }

  predicate OneLineServer(s: ServerConfig) {
    && '\n' !in s.name && '\n' !in s.host && '\n' !in s.user
    && OneLineOpt(s.keyPath) && OneLineOpt(s.certPath) && OneLineOpt(s.passwordEnv) && OneLineOpt(s.jumpHost)
    && OneLineOpt(s.defaultCwd) && OneLineOpt(s.note)
    && forall i :: 0 <= i < |s.defaultEnv| ==> '\n' !in s.defaultEnv[i].key && '\n' !in s.defaultEnv[i].value
  }

  /** No string of the config holds a newline. */
  predicate OneLined(cfg: AppConfig) {
    && '\n' !in cfg.settings.knownHostsFile && '\n' !in cfg.settings.auditLog
    && '\n' !in cfg.settings.stateFile && '\n' !in cfg.settings.defaultEncoding
    && forall i :: 0 <= i < |cfg.servers| ==> '\n' !in cfg.servers[i].key && OneLineServer(cfg.servers[i].value)
  }

  /** The dictionaries of a config have no key twice. */
  ghost predicate IsConfig(cfg: AppConfig) {
    && UniqueKeys(cfg.servers)
    && forall i :: 0 <= i < |cfg.servers| ==> UniqueKeys(cfg.servers[i].value.defaultEnv)
  }

  // ---- The text of a config, section by section ----

  function SectionLines(path: seq<string>, pairs: Dict<Value>): seq<Line> {
    [Header(path)] + PairLines(pairs)
  }

  function SectionText(path: seq<string>, pairs: Dict<Value>): string {
    Show(Header(path)) + "\n" + Ended(PairLines(pairs))
  }

  function ServerPairs(s: ServerConfig): Dict<Value> {
    Pairs(ServerEntries(s))
  }

  function SettingsPairs(g: GlobalSettings): Dict<Value> {
    Pairs(SettingsEntries(g))
  }

  function ServerLines(item: Item<ServerConfig>): seq<Line> {
    [Blank] + SectionLines(ServerPath(item.key), ServerPairs(item.value))
  }

  function SpacedLines(servers: Dict<ServerConfig>): seq<Line> {
    if servers == [] then [] else ServerLines(servers[0]) + SpacedLines(servers[1..])
  }

  function TextLines(cfg: AppConfig): seq<Line> {
    SectionLines(["settings"], SettingsPairs(cfg.settings)) + SpacedLines(cfg.servers)
  }

  lemma SectionEnded(path: seq<string>, pairs: Dict<Value>)
    ensures Ended(SectionLines(path, pairs)) == SectionText(path, pairs)
  {
    EndedConcat([Header(path)], PairLines(pairs));
    EndedOne(Header(path));
  }

  /** A server's section with the blank line before it. */
  lemma FirstServerText(first: Item<ServerConfig>, rest: Dict<ServerConfig>)
    ensures Ended(SpacedLines([first] + rest))
         == "\n" + (SectionText(ServerPath(first.key), ServerPairs(first.value)) + Ended(SpacedLines(rest)))
  {
    assert ([first] + rest)[1..] == rest;
    SpacedText(SectionLines(ServerPath(first.key), ServerPairs(first.value)), SpacedLines(rest));
    SectionEnded(ServerPath(first.key), ServerPairs(first.value));
  }

  lemma SpacedText(lines: seq<Line>, more: seq<Line>)
    ensures Ended(([Blank] + lines) + more) == "\n" + (Ended(lines) + Ended(more))
  {
    EndedConcat([Blank] + lines, more);
    EndedConcat([Blank], lines);
    EndedBlank();
    Associates("\n", Ended(lines), Ended(more));
  }

  lemma EndedBlank()
    ensures Ended([Blank]) == "\n"
  {
    EndedOne(Blank);
    EmptyFirst("\n");
  }

  lemma {:induction false} SpacedSnoc(front: Dict<ServerConfig>, last: Item<ServerConfig>)
    ensures SpacedLines(front + [last]) == SpacedLines(front) + ServerLines(last)
  {
    if front == [] {
      assert [] + [last] == [last] && [last][1..] == [];
    } else {
      SpacedSnoc(front[1..], last);
      assert (front + [last])[1..] == front[1..] + [last];
      Associates(ServerLines(front[0]), SpacedLines(front[1..]), ServerLines(last));
    }
  }

  lemma Respace(head: seq<Line>, front: seq<Line>, spaced: seq<Line>, lines: seq<Line>)
    requires head + [Blank] + front == head + spaced + [Blank]
    ensures head + [Blank] + (front + (lines + [Blank])) == head + (spaced + ([Blank] + lines)) + [Blank]
  {
    assert head + [Blank] + (front + (lines + [Blank])) == (head + [Blank] + front) + (lines + [Blank]);
    assert head + (spaced + ([Blank] + lines)) + [Blank] == (head + spaced + [Blank]) + (lines + [Blank]);
  }

  lemma {:induction false} LinesAreSpaced(head: seq<Line>, servers: Dict<ServerConfig>)
    ensures head + [Blank] + ServerSections(servers) == head + SpacedLines(servers) + [Blank]
  {
    if servers != [] {
      var front, last := servers[..|servers| - 1], servers[|servers| - 1];
      assert servers == front + [last];
      LinesAreSpaced(head, front);
      SpacedSnoc(front, last);
      Respace(head, ServerSections(front), SpacedLines(front),
          SectionLines(ServerPath(last.key), ServerPairs(last.value)));
    }
  }

  /** The joined lines are the sections one after the other, each line ended, a blank line between two sections. */
  lemma PrintedLines(cfg: AppConfig)
    ensures Printed(cfg) == Ended(TextLines(cfg))
    ensures Printed(cfg) == SectionText(["settings"], SettingsPairs(cfg.settings)) + Ended(SpacedLines(cfg.servers))
  {
    var head := SectionLines(["settings"], SettingsPairs(cfg.settings));
    var lines := head + SpacedLines(cfg.servers);
    assert Section(["settings"], SettingsPairs(cfg.settings)) == head + [Blank];
    LinesAreSpaced(head, cfg.servers);
    assert ShowAll(lines + [Blank]) == ShowAll(lines) + [""];
    JoinEnds(ShowAll(lines));
    EndedConcat(head, SpacedLines(cfg.servers));
    SectionEnded(["settings"], SettingsPairs(cfg.settings));
  }

  lemma SpacedGuarded(servers: Dict<ServerConfig>)
    ensures Guarded(Ended(SpacedLines(servers)))
  {
    if servers != [] {
      assert servers == [servers[0]] + servers[1..];
      FirstServerText(servers[0], servers[1..]);
      var t := Ended(SpacedLines(servers));
      assert t[1..][0] == '[';
      assert Guarded(t[1..]);
    }
  }

  // ---- Reading sections ----

  function SectionItems(path: seq<string>, pairs: Dict<Value>): Doc {
    [Table(path)] + PairItems(path, pairs)
  }

  predicate BarePath(path: seq<string>) {
    path != [] && forall k :: k in path ==> BareKey(k)
  }

  lemma {:induction false} BarePathAsIs(path: seq<string>)
    requires BarePath(path)
    ensures '\r' !in Dotted(path)
  {
    assert BareKey(path[0]);
    if |path| > 1 {
      BarePathAsIs(path[1..]);
    }
  }

  /** The header line of a section, then whatever follows it. */
  lemma SectionStarts(b: Beyond, path: seq<string>, pairs: Dict<Value>, w: string, doc: Doc, header: seq<string>)
    requires BarePath(path)
    ensures ReadDoc(b, Normalized(SectionText(path, pairs) + w), doc, header) ==
      if FitsTable(doc, path) then ReadDoc(b, Normalized(Ended(PairLines(pairs)) + w), doc + [Table(path)], path)
      else None
  {
    var line, rest := Show(Header(path)) + "\n", Ended(PairLines(pairs)) + w;
    Associates(line, Ended(PairLines(pairs)), w);
    BarePathAsIs(path);
    NormalizedSplit(line, rest);
    NormalizedAsIs(line);
    HeaderLineRead(b, path, Normalized(rest), doc, header);
  }

  lemma {:induction false} NormalizedLines(pairs: Dict<Value>, w: string)
    requires GoodPairs(pairs) && AllPlain(pairs)
    ensures Normalized(Ended(PairLines(pairs)) + w) == Ended(PairLines(pairs)) + Normalized(w)
    decreases |pairs|
  {
    if pairs == [] {
      assert Ended(PairLines(pairs)) + w == w;
    } else {
      var item, more := pairs[0], pairs[1..];
      assert pairs == [item] + more;
      GoodRest(item, more);
      EndedPairFirst(item, more, w);
      EndedPairFirst(item, more, Normalized(w));
      NormalizedPairLine(item.key, item.value, Ended(PairLines(more)) + w);
      PlainAsIs(item.value);
      NormalizedLines(more, w);
    }
  }

  /** Nothing in the document is at, below or in the way of the path. */
  ghost predicate Clear(doc: Doc, path: seq<string>) {
    forall i :: 0 <= i < |doc| ==> !(path <= doc[i].path) && (doc[i].Set? ==> !(doc[i].path <= path))
  }

  lemma ClearFits(doc: Doc, path: seq<string>, pairs: Dict<Value>)
    requires Clear(doc, path)
    ensures FitsTable(doc, path) && PlacesFree(doc + [Table(path)], path, pairs)
    ensures AllEmpty(doc + [Table(path)], path, pairs)
  {
    var doc' := doc + [Table(path)];
    forall k | 0 <= k < |pairs|
      ensures FitsSet(doc', path + [pairs[k].key]) && ValueAt(doc', path + [pairs[k].key]) == None
    {
      forall i | 0 <= i < |doc'|
        ensures !(path + [pairs[k].key] <= doc'[i].path) && (doc'[i].Set? ==> !(doc'[i].path <= path + [pairs[k].key]))
      {
        PrefixOfChild(path, pairs[k].key, doc'[i].path);
      }
      FitsMeansEmpty(doc', path + [pairs[k].key]);
    }
  }

  lemma PrefixOfChild(path: seq<string>, key: string, q: seq<string>)
    ensures path + [key] <= q ==> path <= q && |q| > |path|
    ensures q <= path + [key] ==> q <= path || path <= q
  {
    if path + [key] <= q {
      assert path == (path + [key])[..|path|] == q[..|path|];
    }
    if q <= path + [key] {
      assert |q| <= |path| ==> q == (path + [key])[..|q|] == path[..|q|];
      assert |q| > |path| ==> path == (path + [key])[..|path|] == q[..|path|];
    }
  }

  lemma SectionBody(b: Beyond, path: seq<string>, pairs: Dict<Value>, w: string, doc: Doc)
    requires GoodPairs(pairs) && AllPlain(pairs) && PlacesFree(doc + [Table(path)], path, pairs)
    ensures ReadDoc(b, Normalized(Ended(PairLines(pairs)) + w), doc + [Table(path)], path)
         == ReadDoc(b, Normalized(w), doc + SectionItems(path, pairs), path)
  {
    NormalizedLines(pairs, w);
    PairLinesRead(b, pairs, Normalized(w), doc + [Table(path)], path);
    Associates(doc, [Table(path)], PairItems(path, pairs));
  }

  /** A plain section is read as its items, and reading goes on after it. */
  lemma SectionRead(b: Beyond, path: seq<string>, pairs: Dict<Value>, w: string, doc: Doc, header: seq<string>)
    requires BarePath(path) && GoodPairs(pairs) && AllPlain(pairs) && Clear(doc, path)
    ensures ReadDoc(b, Normalized(SectionText(path, pairs) + w), doc, header)
         == ReadDoc(b, Normalized(w), doc + SectionItems(path, pairs), path)
  {
    ClearFits(doc, path, pairs);
    SectionStarts(b, path, pairs, w, doc, header);
    SectionBody(b, path, pairs, w, doc);
  }

  /** The document speaks of the settings and of the servers named, and of nothing else. */
  ghost predicate Knows(doc: Doc, names: seq<string>) {
    forall i :: 0 <= i < |doc| ==> KnownPath(doc[i].path, names)
  }

  ghost predicate KnownPath(path: seq<string>, names: seq<string>) {
    path != [] && (path[0] == "settings" || (path[0] == "servers" && |path| >= 2 && path[1] in names))
  }

  lemma PrefixAt(a: seq<string>, c: seq<string>, k: nat)
    ensures a <= c && k < |a| ==> a[k] == c[k]
  {
  }

  lemma OtherPath(path: seq<string>, names: seq<string>, n: string)
    requires KnownPath(path, names) && n !in names
    ensures !(ServerPath(n) <= path) && !(path <= ServerPath(n))
  {
    assert "settings" != "servers";
    PrefixAt(ServerPath(n), path, 0);
    PrefixAt(ServerPath(n), path, 1);
    PrefixAt(path, ServerPath(n), 0);
    PrefixAt(path, ServerPath(n), 1);
  }

  lemma NewServerIsClear(doc: Doc, names: seq<string>, n: string)
    requires Knows(doc, names) && n !in names
    ensures Clear(doc, ServerPath(n))
  {
    forall i | 0 <= i < |doc|
      ensures !(ServerPath(n) <= doc[i].path) && !(doc[i].path <= ServerPath(n))
    {
      OtherPath(doc[i].path, names, n);
    }
  }

  lemma SectionIsKnown(doc: Doc, names: seq<string>, n: string, pairs: Dict<Value>)
    requires Knows(doc, names)
    ensures Knows(doc + SectionItems(ServerPath(n), pairs), names + [n])
  {
    var items := SectionItems(ServerPath(n), pairs);
    forall i | 0 <= i < |doc + items|
      ensures KnownPath((doc + items)[i].path, names + [n])
    {
      if i < |doc| {
        assert KnownPath(doc[i].path, names);
      } else if i > |doc| {
        assert items[i - |doc|] == PairItems(ServerPath(n), pairs)[i - |doc| - 1];
      }
    }
  }

  /** The names of `servers` are new and differ. */
  ghost predicate NewNames(names: seq<string>, servers: Dict<ServerConfig>) {
    UniqueKeys(servers) && forall i :: 0 <= i < |servers| ==> servers[i].key !in names
  }

  lemma NewNamesRest(names: seq<string>, servers: Dict<ServerConfig>)
    requires servers != [] && NewNames(names, servers)
    ensures servers[0].key !in names && NewNames(names + [servers[0].key], servers[1..])
  {
    var rest := servers[1..];
    forall i | 0 <= i < |rest|
      ensures rest[i].key !in names + [servers[0].key]
    {
      assert rest[i] == servers[i + 1];
    }
    forall i, j | 0 <= i < j < |rest|
      ensures rest[i].key != rest[j].key
    {
      assert rest[i] == servers[i + 1] && rest[j] == servers[j + 1];
    }
  }

  ghost predicate UniqueEnvs(servers: Dict<ServerConfig>) {
    forall i :: 0 <= i < |servers| ==> UniqueKeys(servers[i].value.defaultEnv)
  }

  ghost predicate PlainServers(servers: Dict<ServerConfig>) {
    forall i :: 0 <= i < |servers| ==> BareKey(servers[i].key) && PlainServer(servers[i].value)
  }

  function ServerItems(item: Item<ServerConfig>): Doc {
    SectionItems(ServerPath(item.key), ServerPairs(item.value))
  }

  function ServersDoc(servers: Dict<ServerConfig>): Doc {
    if servers == [] then []
    else ServerItems(servers[0]) + ServersDoc(servers[1..])
  }

  lemma ServerPairsGood(s: ServerConfig)
    requires UniqueKeys(s.defaultEnv)
    ensures GoodPairs(ServerPairs(s))
    ensures AllPlain(ServerPairs(s)) <==> PlainServer(s)
  {
    ServerEntriesWritable(s);
    PairsAreGood(ServerEntries(s));
    PlainPairsIff(ServerEntries(s));
    PlainServerIff(s);
  }

  /** The blank line before a server's section. */
  lemma ServerStarts(b: Beyond, first: Item<ServerConfig>, rest: Dict<ServerConfig>, doc: Doc, header: seq<string>)
    ensures ReadDoc(b, Normalized(Ended(SpacedLines([first] + rest))), doc, header)
         == ReadDoc(b, Normalized(SectionText(ServerPath(first.key), ServerPairs(first.value))
             + Ended(SpacedLines(rest))), doc, header)
  {
    var w := SectionText(ServerPath(first.key), ServerPairs(first.value)) + Ended(SpacedLines(rest));
    FirstServerText(first, rest);
    NormalizedNewline(w);
    BlankLineRead(b, Normalized(w), doc, header);
  }

  lemma SettingsPathIsBare()
    ensures BarePath(["settings"])
  {
    assert BareKey("settings");
  }

  lemma ServerPathIsBare(n: string)
    requires BareKey(n)
    ensures BarePath(ServerPath(n))
  {
    assert BareKey("servers");
  }

  lemma FirstServerRead(b: Beyond, first: Item<ServerConfig>, rest: Dict<ServerConfig>, doc: Doc, header: seq<string>,
      names: seq<string>)
    requires BareKey(first.key) && PlainServer(first.value) && UniqueKeys(first.value.defaultEnv)
    requires Knows(doc, names) && first.key !in names
    ensures ReadDoc(b, Normalized(Ended(SpacedLines([first] + rest))), doc, header)
         == ReadDoc(b, Normalized(Ended(SpacedLines(rest))), doc + ServerItems(first), ServerPath(first.key))
    ensures Knows(doc + ServerItems(first), names + [first.key])
  {
    ServerStarts(b, first, rest, doc, header);
    NewServerIsClear(doc, names, first.key);
    ServerPathIsBare(first.key);
    ServerPairsGood(first.value);
    SectionRead(b, ServerPath(first.key), ServerPairs(first.value), Ended(SpacedLines(rest)), doc, header);
    SectionIsKnown(doc, names, first.key, ServerPairs(first.value));
  }

  lemma {:induction false} ServersRead(b: Beyond, servers: Dict<ServerConfig>, doc: Doc, header: seq<string>,
      names: seq<string>)
    requires PlainServers(servers) && UniqueEnvs(servers) && NewNames(names, servers) && Knows(doc, names)
    ensures ReadDoc(b, Normalized(Ended(SpacedLines(servers))), doc, header) == Some(doc + ServersDoc(servers))
    decreases |servers|
  {
    if servers == [] {
      assert doc + ServersDoc(servers) == doc;
    } else {
      var first, rest := servers[0], servers[1..];
      var items := ServerItems(first);
      assert servers == [first] + rest;
      NewNamesRest(names, servers);
      FirstServerRead(b, first, rest, doc, header, names);
      RestOfServers(servers);
      Associates(doc, items, ServersDoc(rest));
      ServersRead(b, rest, doc + items, ServerPath(first.key), names + [first.key]);
    }
  }

  lemma RestOfServers(servers: Dict<ServerConfig>)
    requires servers != []
    ensures PlainServers(servers) ==> PlainServers(servers[1..])
    ensures UniqueEnvs(servers) ==> UniqueEnvs(servers[1..])
  {
    assert forall i :: 0 <= i < |servers[1..]| ==> servers[1..][i] == servers[i + 1];
  }

  function ConfigDoc(cfg: AppConfig): Doc {
    SectionItems(["settings"], SettingsPairs(cfg.settings)) + ServersDoc(cfg.servers)
  }

  lemma SettingsPairsGood(g: GlobalSettings)
    ensures GoodPairs(SettingsPairs(g))
    ensures AllPlain(SettingsPairs(g)) <==> PlainSettings(g)
  {
    SettingsEntriesWritable(g);
    PairsAreGood(SettingsEntries(g));
    PlainPairsIff(SettingsEntries(g));
    PlainSettingsIff(g);
  }

  lemma SettingsAreKnown(pairs: Dict<Value>)
    ensures Knows(SectionItems(["settings"], pairs), [])
  {
    var items := SectionItems(["settings"], pairs);
    forall i | 0 <= i < |items|
      ensures KnownPath(items[i].path, [])
    {
      if i > 0 {
        assert items[i] == PairItems(["settings"], pairs)[i - 1];
      }
    }
  }

  /** A plain config is read as its sections. */
  lemma ConfigRead(b: Beyond, cfg: AppConfig)
    requires IsConfig(cfg) && PlainConfig(cfg)
    ensures ReadText(b, Printed(cfg)) == Some(ConfigDoc(cfg))
  {
    var pairs := SettingsPairs(cfg.settings);
    PrintedLines(cfg);
    SettingsPairsGood(cfg.settings);
    SettingsPathIsBare();
    SectionRead(b, ["settings"], pairs, Ended(SpacedLines(cfg.servers)), [], []);
    EmptyFirst(SectionItems(["settings"], pairs));
    SettingsAreKnown(pairs);
    ServersRead(b, cfg.servers, SectionItems(["settings"], pairs), ["settings"], []);
  }
}
