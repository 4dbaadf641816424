/** When a written config loads back as itself. */
module ConfigRoundTrip {
  import opened Wrappers
  import opened Dict
  import opened Registry
  import opened Seqs
  import opened Toml
  import opened TomlReader
  import opened TomlPinned
  import opened TomlLines
  import opened ConfigText
  import opened ConfigFields
  import opened ConfigReading
  import opened ConfigSections
  import opened ConfigDecoding
  import opened ConfigNames

  // ---- Plain configs load back ----

  /** Writing a plain config and loading it gives the config again. */
  lemma PlainRoundTrip(b: Beyond, cfg: AppConfig)
    requires IsConfig(cfg) && PlainConfig(cfg)
    ensures Load(b, Printed(cfg)) == Some(cfg)
  {
    ConfigRead(b, cfg);
    ConfigDecodes(cfg);
  }

  // ---- A config that loads back under bare names has plain contents ----

  lemma FieldComesBack(d: Doc, path: seq<string>, e: Entry)
    requires PlainEntry(e) || FieldsAt(d, path)(e.field) == e.value
    requires e.value.Some? && !e.value.value.Other?
    ensures PlainValue(e.value.value) || ValueAt(d, path + [FieldText(e.field)]) == e.value
  {
  }

  /** A table that decodes as written gives back each of its pairs that is not plain. */
  lemma TableComesBack(d: Doc, path: seq<string>, entries: seq<Entry>)
    requires Determines(FieldsAt(d, path), entries) && WritableEntries(entries)
    ensures ComesBack(d, path, Pairs(entries))
  {
    var pairs := Pairs(entries);
    forall i | 0 <= i < |pairs|
      ensures PlainValue(pairs[i].value) || ValueAt(d, path + [pairs[i].key]) == Some(pairs[i].value)
    {
      var e := EntryOf(entries, pairs[i]);
      FieldComesBack(d, path, e);
    }
  }

  lemma EntryOf(entries: seq<Entry>, item: Item<Value>) returns (e: Entry)
    requires item in Pairs(entries)
    ensures e in entries && item == Item(FieldText(e.field), item.value) && e.value == Some(item.value)
  {
    PairsMember(entries, item);
    var j :| 0 <= j < |entries| && item in Written(entries[j]);
    e := entries[j];
  }

  /** A section that is read and comes back is plain, and reading went on right after it. */
  lemma SectionIsPinned(b: Beyond, path: seq<string>, entries: seq<Entry>, w: string, doc: Doc, header: seq<string>,
      d: Doc)
    requires BarePath(path) && WritableEntries(entries) && Guarded(w) && Clear(doc, path)
    requires ReadDoc(b, Normalized(SectionText(path, Pairs(entries)) + w), doc, header) == Some(d)
    requires Determines(FieldsAt(d, path), entries)
    ensures PlainEntries(entries)
    ensures ReadDoc(b, Normalized(w), doc + SectionItems(path, Pairs(entries)), path) == Some(d)
  {
    var pairs := Pairs(entries);
    PairsAreGood(entries);
    TableComesBack(d, path, entries);
    ClearFits(doc, path, pairs);
    SectionStarts(b, path, pairs, w, doc, header);
    PairLinesArePinned(b, pairs, w, doc + [Table(path)], path, d);
    PlainPairsIff(entries);
    Associates(doc, [Table(path)], PairItems(path, pairs));
  }

  lemma FirstServerIsPinned(b: Beyond, first: Item<ServerConfig>, rest: Dict<ServerConfig>, doc: Doc,
      header: seq<string>, names: seq<string>, d: Doc)
    requires BareKey(first.key) && UniqueKeys(first.value.defaultEnv)
    requires Knows(doc, names) && first.key !in names
    requires ReadDoc(b, Normalized(Ended(SpacedLines([first] + rest))), doc, header) == Some(d)
    requires ServerOf(FieldsAt(d, ServerPath(first.key))) == Some(first.value)
    ensures PlainServer(first.value)
    ensures ReadDoc(b, Normalized(Ended(SpacedLines(rest))), doc + ServerItems(first), ServerPath(first.key)) == Some(d)
    ensures Knows(doc + ServerItems(first), names + [first.key])
  {
    ServerStarts(b, first, rest, doc, header);
    NewServerIsClear(doc, names, first.key);
    ServerPathIsBare(first.key);
    SpacedGuarded(rest);
    ServerEntriesWritable(first.value);
    ServerDetermines(FieldsAt(d, ServerPath(first.key)), first.value);
    SectionIsPinned(b, ServerPath(first.key), ServerEntries(first.value), Ended(SpacedLines(rest)), doc, header, d);
    PlainServerIff(first.value);
    SectionIsKnown(doc, names, first.key, ServerPairs(first.value));
  }

  ghost predicate BareServers(servers: Dict<ServerConfig>) {
    forall i :: 0 <= i < |servers| ==> BareKey(servers[i].key)
  }

  // ---- Names ----

  /** Every named server's table has its header in the document. */
  ghost predicate HasTables(doc: Doc, names: seq<string>) {
    forall n :: n in names ==> Table(ServerPath(n)) in doc
  }

  /** None of the servers' headers may be read below one of the names, nor below an earlier server. */
  ghost predicate Alone(names: seq<string>, servers: Dict<ServerConfig>) {
    forall i :: 0 <= i < |servers| ==>
      && (forall n :: n in names ==> !MayReadBelow(servers[i].key, n))
      && forall j :: 0 <= j < i ==> !MayReadBelow(servers[i].key, servers[j].key)
  }

  lemma AloneRest(names: seq<string>, servers: Dict<ServerConfig>)
    requires servers != [] && Alone(names, servers)
    ensures forall n :: n in names ==> !MayReadBelow(servers[0].key, n)
    ensures Alone(names + [servers[0].key], servers[1..])
  {
    var rest := servers[1..];
    forall i | 0 <= i < |rest|
      ensures forall n :: n in names + [servers[0].key] ==> !MayReadBelow(rest[i].key, n)
      ensures forall j :: 0 <= j < i ==> !MayReadBelow(rest[i].key, rest[j].key)
    {
      assert rest[i] == servers[i + 1];
      forall j | 0 <= j < i
        ensures !MayReadBelow(rest[i].key, rest[j].key)
      {
        assert rest[j] == servers[j + 1];
      }
    }
  }

  /** Names come up in order and stay. */
  lemma {:induction false} NamesOnlyGrow(names: seq<string>, doc: Doc)
    ensures names <= NamesFrom(names, doc)
    decreases |doc|
  {
    if doc != [] {
      NamesOnlyGrow(AddName(names, doc[0].path), doc[1..]);
    }
  }

  lemma NamesOfFront(a: Doc, d: Doc)
    requires a <= d
    ensures ServerNames(a) <= ServerNames(d)
  {
    assert d == a + d[|a|..];
    NamesFromConcat([], a, d[|a|..]);
    NamesOnlyGrow(ServerNames(a), d[|a|..]);
  }

  lemma NormalizedAround(front: string, n: string, w: string)
    requires front != "" && '\r' !in front
    ensures Normalized(front + (n + ("]\n" + w))) == front + (Normalized(n) + ("]\n" + Normalized(w)))
  {
    assert front[|front| - 1] in front;
    NormalizedSplit(front, n + ("]\n" + w));
    NormalizedAsIs(front);
    NormalizedSplit(n, "]\n" + w);
    NormalizedClose(w);
  }

  lemma NormalizedClose(w: string)
    ensures Normalized("]\n" + w) == "]\n" + Normalized(w)
  {
    assert ("]\n" + w)[1..] == "\n" + w;
    NormalizedNewline(w);
  }

  lemma Regrouped4(a: string, b: string, c: string, d: string)
    ensures a + (b + (c + d)) == (a + b + c) + d
  {
  }

  /** The text of a server's header, normalized. */
  lemma NormalizedHeader(n: string, w: string)
    ensures Normalized(Show(Header(ServerPath(n))) + "\n" + w)
         == "[" + ("servers" + ("." + (Normalized(n) + ("]\n" + Normalized(w)))))
  {
    HeaderText(ServerPath(n), w);
    assert ServerPath(n)[1..] == [n];
    assert DottedThen(ServerPath(n), "]\n" + w) == "servers" + ("." + (n + ("]\n" + w)));
    Regrouped4("[", "servers", ".", n + ("]\n" + w));
    Regrouped4("[", "servers", ".", Normalized(n) + ("]\n" + Normalized(w)));
    NormalizedAround("[" + "servers" + ".", n, w);
  }

  /** What the first table of a name can be: the name's own if it is bare, else one below another name. */
  lemma HeaderOfAnyName(b: Beyond, n: string, w: string, doc: Doc, header: seq<string>, d: Doc) returns (p: seq<string>)
    requires ReadDoc(b, Normalized(Show(Header(ServerPath(n))) + "\n" + w), doc, header) == Some(d)
    ensures |p| >= 2 && p[0] == "servers" && FitsTable(doc, p) && doc + [Table(p)] <= d
    ensures p[1] == n ==> BareKey(n)
    ensures |p| > 2 ==> MayReadBelow(n, p[1])
  {
    NormalizedHeader(n, w);
    NormalizedShrinks(n);
    NormalizedHas(n);
    assert BareKey("servers");
    p := AnyHeaderRead(b, "servers", Normalized(n), n, Normalized(w), doc, header, d);
    if '"' !in n && '\'' !in n {
      var a, c :| Normalized(n) == a + (p[1] + c);
      BareKeyOnLine(p[1]);
      OccursInNormalized(p[1], n, a, c);
    }
  }

  /** Headers that stand alone bring up their own names, which must then be bare. */
  lemma NextNameIsBare(b: Beyond, n: string, w: string, doc: Doc, header: seq<string>, names: seq<string>,
      more: seq<string>, d: Doc)
    requires ReadDoc(b, Normalized(Show(Header(ServerPath(n))) + "\n" + w), doc, header) == Some(d)
    requires ServerNames(doc) == names && HasTables(doc, names) && ServerNames(d) == names + ([n] + more)
    requires forall k :: k in names ==> !MayReadBelow(n, k)
    ensures BareKey(n)
  {
    var p := HeaderOfAnyName(b, n, w, doc, header, d);
    NamesAfter(doc, Table(p));
    NamesOfFront(doc + [Table(p)], d);
    HeaderIsNew(doc, names, p);
    assert p[1] !in names;
    assert (names + [p[1]])[|names|] == ServerNames(d)[|names|] == n;
  }

  /** A new header under a name that has come up lies below it. */
  lemma HeaderIsNew(doc: Doc, names: seq<string>, p: seq<string>)
    requires HasTables(doc, names) && FitsTable(doc, p) && |p| >= 2 && p[0] == "servers"
    ensures p[1] in names ==> |p| > 2
  {
    if |p| == 2 {
      assert p == ServerPath(p[1]);
    }
  }

  lemma RestDecodes(d: Doc, servers: Dict<ServerConfig>)
    requires servers != [] && TablesDecode(d, servers)
    ensures TablesDecode(d, servers[1..])
  {
    assert forall i :: 0 <= i < |servers[1..]| ==> servers[1..][i] == servers[i + 1];
  }

  lemma PlainThenRest(servers: Dict<ServerConfig>)
    requires servers != [] && BareKey(servers[0].key) && PlainServer(servers[0].value) && PlainServers(servers[1..])
    ensures PlainServers(servers)
  {
    assert forall i :: 1 <= i < |servers| ==> servers[1..][i - 1] == servers[i];
  }

  /** What is known of a document before its next server is read. */
  ghost predicate Before(doc: Doc, names: seq<string>) {
    Knows(doc, names) && HasTables(doc, names) && ServerNames(doc) == names
  }

  lemma BeforeNext(doc: Doc, names: seq<string>, first: Item<ServerConfig>)
    requires Before(doc, names) && first.key !in names
    ensures Before(doc + ServerItems(first), names + [first.key])
  {
    var items := ServerItems(first);
    SectionIsKnown(doc, names, first.key, ServerPairs(first.value));
    NamesFromConcat([], doc, items);
    SectionNames(names, ServerPath(first.key), ServerPairs(first.value));
    forall n | n in names + [first.key]
      ensures Table(ServerPath(n)) in doc + items
    {
      assert items[0] == Table(ServerPath(first.key)) && items[0] in items;
    }
  }

  /** The next server's name is bare, its contents are plain, and the other servers are read after it. */
  lemma NextServerIsPinned(b: Beyond, first: Item<ServerConfig>, rest: Dict<ServerConfig>, doc: Doc,
      header: seq<string>, names: seq<string>, d: Doc)
    requires UniqueKeys(first.value.defaultEnv) && Before(doc, names) && first.key !in names
    requires forall n :: n in names ==> !MayReadBelow(first.key, n)
    requires ReadDoc(b, Normalized(Ended(SpacedLines([first] + rest))), doc, header) == Some(d)
    requires ServerNames(d) == names + ([first.key] + KeyList(rest))
    requires ServerOf(FieldsAt(d, ServerPath(first.key))) == Some(first.value)
    ensures BareKey(first.key) && PlainServer(first.value)
    ensures ReadDoc(b, Normalized(Ended(SpacedLines(rest))), doc + ServerItems(first), ServerPath(first.key)) == Some(d)
  {
    var path, pairs := ServerPath(first.key), ServerPairs(first.value);
    ServerStarts(b, first, rest, doc, header);
    Associates(Show(Header(path)) + "\n", Ended(PairLines(pairs)), Ended(SpacedLines(rest)));
    NextNameIsBare(b, first.key, Ended(PairLines(pairs)) + Ended(SpacedLines(rest)), doc, header, names, KeyList(rest),
        d);
    FirstServerIsPinned(b, first, rest, doc, header, names, d);
  }

  lemma {:induction false} ServersArePinned(b: Beyond, servers: Dict<ServerConfig>, doc: Doc, header: seq<string>,
      names: seq<string>, d: Doc)
    requires Alone(names, servers) && UniqueEnvs(servers) && NewNames(names, servers) && Before(doc, names)
    requires ReadDoc(b, Normalized(Ended(SpacedLines(servers))), doc, header) == Some(d)
    requires ServerNames(d) == names + KeyList(servers) && TablesDecode(d, servers)
    ensures PlainServers(servers)
    decreases |servers|
  {
    if servers != [] {
      var first, rest := servers[0], servers[1..];
      SplitFirst(servers);
      NewNamesRest(names, servers);
      AloneRest(names, servers);
      KeyListFirst(first, rest);
      NextServerIsPinned(b, first, rest, doc, header, names, d);
      BeforeNext(doc, names, first);
      RestOfServers(servers);
      RestDecodes(d, servers);
      Associates(names, [first.key], KeyList(rest));
      ServersArePinned(b, rest, doc + ServerItems(first), ServerPath(first.key), names + [first.key], d);
      PlainThenRest(servers);
    }
  }

  /** What a loaded config says about the document it was decoded from. */
  lemma Loaded(b: Beyond, cfg: AppConfig) returns (d: Doc)
    requires Load(b, Printed(cfg)) == Some(cfg)
    ensures ReadText(b, Printed(cfg)) == Some(d) && ServerNames(d) == KeyList(cfg.servers)
    ensures SettingsOf(FieldsAt(d, ["settings"])) == Some(cfg.settings) && TablesDecode(d, cfg.servers)
  {
    d := ReadText(b, Printed(cfg)).value;
    DecodesExactly(d, ServerNames(d), cfg.servers);
  }

  lemma SettingsArePinned(b: Beyond, g: GlobalSettings, w: string, d: Doc)
    requires Guarded(w) && SettingsOf(FieldsAt(d, ["settings"])) == Some(g)
    requires ReadDoc(b, Normalized(SectionText(["settings"], SettingsPairs(g)) + w), [], []) == Some(d)
    ensures PlainSettings(g)
    ensures ReadDoc(b, Normalized(w), SectionItems(["settings"], SettingsPairs(g)), ["settings"]) == Some(d)
  {
    SettingsEntriesWritable(g);
    SettingsDetermine(FieldsAt(d, ["settings"]), g);
    SettingsPathIsBare();
    SectionIsPinned(b, ["settings"], SettingsEntries(g), w, [], [], d);
    PlainSettingsIff(g);
    EmptyFirst(SectionItems(["settings"], SettingsPairs(g)));
  }

  /** After the settings no server has come up. */
  lemma BeforeFirst(pairs: Dict<Value>)
    ensures Before(SectionItems(["settings"], pairs), [])
  {
    SettingsAreKnown(pairs);
    assert "settings" != "servers";
    SectionNames([], ["settings"], pairs);
  }

  /** Where no name may be read below an earlier one, what loads back as it was written is plain, names and all. */
  lemma ConfigIsPinned(b: Beyond, cfg: AppConfig)
    requires IsConfig(cfg) && NamesStandAlone(cfg) && Load(b, Printed(cfg)) == Some(cfg)
    ensures PlainConfig(cfg)
  {
    var d := Loaded(b, cfg);
    PrintedLines(cfg);
    SpacedGuarded(cfg.servers);
    SettingsArePinned(b, cfg.settings, Ended(SpacedLines(cfg.servers)), d);
    BeforeFirst(SettingsPairs(cfg.settings));
    EmptyFirst(KeyList(cfg.servers));
    ServersArePinned(b, cfg.servers, SectionItems(["settings"], SettingsPairs(cfg.settings)), ["settings"], [], d);
  }

  lemma BareNamesStandAlone(cfg: AppConfig)
    requires BareNames(cfg)
    ensures NamesStandAlone(cfg)
  {
  }

  // ---- A config without newlines that loads back has bare names ----

  predicate OneLineValue(v: Value) {
    match v
    case Str(t) => '\n' !in t
    case Int(_) => true
    case Env(pairs) => forall i :: 0 <= i < |pairs| ==> '\n' !in pairs[i].key && '\n' !in pairs[i].value
    case Other => true
  }

  lemma {:induction false} PairsOnOneLine(pairs: Dict<string>)
    requires OneLineValue(Env(pairs))
    ensures '\n' !in ShowPairs(pairs)
  {
    if pairs != [] {
      assert forall i :: 0 <= i < |pairs[1..]| ==> pairs[1..][i] == pairs[i + 1];
      PairsOnOneLine(pairs[1..]);
    }
  }

  lemma ValueOnOneLine(v: Value)
    requires OneLineValue(v)
    ensures '\n' !in ShowValue(v)
  {
    match v
    case Str(_) =>
    case Int(n) => DecimalRead(n);
    case Env(pairs) => PairsOnOneLine(pairs);
    case Other =>
  }

  lemma PlainOnOneLine(s: string)
    requires Plain(s)
    ensures '\n' !in s
  {
  }

  predicate OneLineEntry(e: Entry) {
    e.value.Some? ==> OneLineValue(e.value.value)
  }

  predicate OneLineEntries(entries: seq<Entry>) {
    forall i :: 0 <= i < |entries| ==> OneLineEntry(entries[i])
  }

  lemma EnumsOnOneLine(a: AuthType, p: HostKeyPolicy)
    ensures '\n' !in AuthText(a) && '\n' !in PolicyText(p)
  {
    EnumTextsPlain(a, p);
    PlainOnOneLine(AuthText(a));
    PlainOnOneLine(PolicyText(p));
  }

  lemma ServerOnOneLine(s: ServerConfig)
    requires OneLineServer(s)
    ensures OneLineEntries(ServerEntries(s))
  {
    EnumsOnOneLine(s.authType, if s.hostKeyPolicy.Some? then s.hostKeyPolicy.value else Tofu);
  }

  lemma SettingsOnOneLine(cfg: AppConfig)
    requires OneLined(cfg)
    ensures OneLineEntries(SettingsEntries(cfg.settings))
  {
    EnumsOnOneLine(Agent, cfg.settings.defaultHostKeyPolicy);
  }

  lemma PairsAreLines(entries: seq<Entry>)
    requires WritableEntries(entries) && OneLineEntries(entries)
    ensures AllConfigLines(PairLines(Pairs(entries)))
  {
    PairsAreGood(entries);
    var pairs := Pairs(entries);
    forall i | 0 <= i < |pairs|
      ensures ConfigLine(PairLines(pairs)[i])
    {
      var e := EntryOf(entries, pairs[i]);
      assert OneLineEntry(e);
      ValueOnOneLine(pairs[i].value);
    }
  }

  lemma {:induction false} PairLinesNameNone(pairs: Dict<Value>)
    ensures HeaderNames(PairLines(pairs)) == []
  {
    if pairs != [] {
      PairLinesNameNone(pairs[1..]);
      assert PairLines(pairs)[1..] == PairLines(pairs[1..]);
    }
  }

  lemma {:induction false} SpacedAreLines(servers: Dict<ServerConfig>)
    requires UniqueEnvs(servers)
    requires forall i :: 0 <= i < |servers| ==> '\n' !in servers[i].key && OneLineServer(servers[i].value)
    ensures AllConfigLines(SpacedLines(servers)) && HeaderNames(SpacedLines(servers)) == KeyList(servers)
  {
    if servers != [] {
      var first, rest := servers[0], servers[1..];
      RestOfServers(servers);
      assert forall i :: 0 <= i < |rest| ==> rest[i] == servers[i + 1];
      SpacedAreLines(rest);
      FirstServerIsLines(first);
      HeaderNamesConcat(ServerLines(first), SpacedLines(rest));
    }
  }

  lemma SectionIsLines(path: seq<string>, entries: seq<Entry>)
    requires WritableEntries(entries) && OneLineEntries(entries) && ConfigLine(Header(path))
    ensures AllConfigLines(SectionLines(path, Pairs(entries)))
    ensures HeaderNames(SectionLines(path, Pairs(entries))) == if IsServerHeader(Header(path)) then [path[1]] else []
  {
    PairsAreLines(entries);
    PairLinesNameNone(Pairs(entries));
    HeaderNamesConcat([Header(path)], PairLines(Pairs(entries)));
    assert [Header(path)][1..] == [];
  }

  lemma ServerHeaderIsLine(n: string)
    requires '\n' !in n
    ensures ConfigLine(Header(ServerPath(n)))
  {
    assert ServerPath(n)[1..] == [n] && '\n' !in "servers";
    var d := "servers" + "." + n;
    assert Dotted(ServerPath(n)) == d && '\n' !in d;
  }

  lemma SettingsHeaderIsLine()
    ensures ConfigLine(Header(["settings"]))
  {
    assert '\n' !in "settings";
  }

  lemma FirstServerIsLines(first: Item<ServerConfig>)
    requires UniqueKeys(first.value.defaultEnv) && '\n' !in first.key && OneLineServer(first.value)
    ensures AllConfigLines(ServerLines(first)) && HeaderNames(ServerLines(first)) == [first.key]
  {
    ServerEntriesWritable(first.value);
    ServerOnOneLine(first.value);
    ServerHeaderIsLine(first.key);
    SectionIsLines(ServerPath(first.key), ServerEntries(first.value));
    HeaderNamesConcat([Blank], SectionLines(ServerPath(first.key), ServerPairs(first.value)));
    assert [Blank][1..] == [];
  }

  lemma TextIsLines(cfg: AppConfig)
    requires IsConfig(cfg) && OneLined(cfg)
    ensures AllConfigLines(TextLines(cfg)) && HeaderNames(TextLines(cfg)) == KeyList(cfg.servers)
  {
    SettingsEntriesWritable(cfg.settings);
    SettingsOnOneLine(cfg);
    SettingsHeaderIsLine();
    SectionIsLines(["settings"], SettingsEntries(cfg.settings));
    SpacedAreLines(cfg.servers);
    HeaderNamesConcat(SectionLines(["settings"], SettingsPairs(cfg.settings)), SpacedLines(cfg.servers));
    EmptyFirst(KeyList(cfg.servers));
  }

  lemma {:induction false} OneLineAsIs(s: string)
    requires '\n' !in s
    ensures Normalized(s) == s
  {
    if s != "" {
      OneLineAsIs(s[1..]);
      assert |s| > 1 ==> s[1] in s;
      assert s == [s[0]] + s[1..];
    }
  }

  lemma LineEnds(line: Line)
    requires ConfigLine(line)
    ensures Show(line) == "" || Show(line)[|Show(line)| - 1] != '\r'
  {
    if line.Pair? {
      ShownValueEnds(line.value);
    }
  }

  lemma {:induction false} LinesAsTheyAre(lines: seq<Line>)
    requires AllConfigLines(lines)
    ensures Normalized(Ended(lines)) == Ended(lines)
  {
    if lines != [] {
      var line, rest := lines[0], lines[1..];
      SplitFirst(lines);
      assert line in lines;
      EndedConcat([line], rest);
      EndedOne(line);
      LinesAsTheyAre(rest);
      LineEnds(line);
      OneLineAsIs(Show(line));
      NormalizedNewline(Ended(rest));
      NormalizedSplit(Show(line), "\n" + Ended(rest));
      Associates(Show(line), "\n", Ended(rest));
    }
  }

  /** The header that starts the text. */
  lemma SettingsFirst(b: Beyond, cfg: AppConfig, d: Doc)
    requires IsConfig(cfg) && OneLined(cfg) && ReadText(b, Printed(cfg)) == Some(d)
    ensures ReadDoc(b, Ended(TextLines(cfg)[1..]), [Table(["settings"])], ["settings"]) == Some(d)
    ensures AllConfigLines(TextLines(cfg)[1..]) && HeaderNames(TextLines(cfg)[1..]) == KeyList(cfg.servers)
  {
    var lines := TextLines(cfg);
    PrintedLines(cfg);
    TextIsLines(cfg);
    LinesAsTheyAre(lines);
    SplitFirst(lines);
    assert lines[0] == Header(["settings"]);
    EndedConcat([lines[0]], lines[1..]);
    EndedOne(lines[0]);
    SettingsLineStep(b, Ended(lines[1..]), [], [], d);
    EmptyFirst([Table(["settings"])]);
    EmptyFirst(HeaderNames(lines[1..]));
  }

  lemma NoNamesYet()
    ensures ServerNames([Table(["settings"])]) == [] && InTable(["settings"], [])
  {
    assert "settings" != "servers";
    NamesAfter([], Table(["settings"]));
    EmptyFirst([Table(["settings"])]);
  }

  /** Without newlines in its strings, a config loads back only if its servers have bare names. */
  lemma NamesArePinned(b: Beyond, cfg: AppConfig)
    requires IsConfig(cfg) && OneLined(cfg) && Load(b, Printed(cfg)) == Some(cfg)
    ensures BareNames(cfg)
  {
    var d := Loaded(b, cfg);
    SettingsFirst(b, cfg, d);
    NoNamesYet();
    EmptyFirst(KeyList(cfg.servers));
    NamesAreBare(b, TextLines(cfg)[1..], [Table(["settings"])], ["settings"], d);
    KeysAreBare(cfg.servers);
  }

  lemma {:induction false} KeysAreBare(servers: Dict<ServerConfig>)
    requires forall n :: n in KeyList(servers) ==> BareKey(n)
    ensures BareServers(servers)
  {
    if servers != [] {
      KeysAreBare(servers[1..]);
      assert forall i :: 1 <= i < |servers| ==> servers[1..][i - 1] == servers[i];
    }
  }

  /**
   * The round trip, exactly: a config none of whose names may be read below an earlier one, or whose
   * strings hold no newline, loads back as itself if and only if its names are bare and its contents plain.
   */
  lemma RoundTripIff(b: Beyond, cfg: AppConfig)
    requires IsConfig(cfg) && (NamesStandAlone(cfg) || OneLined(cfg))
    ensures Load(b, Printed(cfg)) == Some(cfg) <==> PlainConfig(cfg)
  {
    if PlainConfig(cfg) {
      PlainRoundTrip(b, cfg);
    }
    if Load(b, Printed(cfg)) == Some(cfg) {
      if !NamesStandAlone(cfg) {
        NamesArePinned(b, cfg);
        BareNamesStandAlone(cfg);
      }
      ConfigIsPinned(b, cfg);
    }
  }

  // ---- One server ----

  function OneServer(name: string, note: string): AppConfig {
    AppConfig(DEFAULTS, [Item(name, ServerConfig(
      "web", "10.0.0.1", 22, "root", Agent, None, None, None, None, None, None, [], None, None, Some(note)))])
  }

  /** A config of one server, whatever its name and note: they decide. */
  lemma OneServerLoadsIff(b: Beyond, name: string, note: string)
    ensures Load(b, Printed(OneServer(name, note))) == Some(OneServer(name, note)) <==> BareKey(name) && Plain(note)
  {
    var cfg := OneServer(name, note);
    DefaultsPlain();
    assert cfg.servers[0].key == name && cfg.servers[0].value.note == Some(note);
    assert BareNames(cfg) <==> BareKey(name);
    assert PlainServer(cfg.servers[0].value) <==> Plain(note);
    assert PlainContents(cfg) <==> Plain(note);
    RoundTripIff(b, cfg);
  }

  lemma LostUnlessPlain(b: Beyond, name: string, note: string)
    requires (exists i :: 0 <= i < |name| && !KeyChar(name[i])) || (exists i :: 0 <= i < |note| && !PlainChar(note[i]))
    ensures Load(b, Printed(OneServer(name, note))) != Some(OneServer(name, note))
  {
    OneServerLoadsIff(b, name, note);
  }

  /** A quote in a note: what was written is not what is loaded. */
  lemma QuotedNoteIsLost(b: Beyond)
    ensures Load(b, Printed(OneServer("web", "the \"new\" box"))) != Some(OneServer("web", "the \"new\" box"))
  {
    var note := "the \"new\" box";
    assert !PlainChar(note[4]);
    LostUnlessPlain(b, "web", note);
  }

  /** A backslash in a note. */
  lemma BackslashNoteIsLost(b: Beyond)
    ensures Load(b, Printed(OneServer("web", "C:\\temp"))) != Some(OneServer("web", "C:\\temp"))
  {
    var note := "C:\\temp";
    assert !PlainChar(note[2]);
    LostUnlessPlain(b, "web", note);
  }

  /** A blank in a server's name. */
  lemma SpacedNameIsLost(b: Beyond)
    ensures Load(b, Printed(OneServer("web 1", "main"))) != Some(OneServer("web 1", "main"))
  {
    var name := "web 1";
    assert !KeyChar(name[3]);
    LostUnlessPlain(b, name, "main");
  }
}
