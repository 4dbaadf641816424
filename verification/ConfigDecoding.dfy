/** What a document of sections decodes to, and what a decoded config says about its document. */
module ConfigDecoding {
  import opened Wrappers
  import opened Dict
  import opened Registry
  import opened Seqs
  import opened Toml
  import opened TomlReader
  import opened ConfigText
  import opened ConfigFields
  import opened ConfigReading
  import opened ConfigSections

  function KeyList(servers: Dict<ServerConfig>): seq<string> {
    if servers == [] then [] else [servers[0].key] + KeyList(servers[1..])
  }

  lemma KeyListFirst(first: Item<ServerConfig>, rest: Dict<ServerConfig>)
    ensures KeyList([first] + rest) == [first.key] + KeyList(rest)
  {
    assert ([first] + rest)[1..] == rest;
  }

  lemma {:induction false} KeyListSnoc(front: Dict<ServerConfig>, last: Item<ServerConfig>)
    ensures KeyList(front + [last]) == KeyList(front) + [last.key]
  {
    if front == [] {
      assert [] + [last] == [last] && [last][1..] == [];
    } else {
      KeyListSnoc(front[1..], last);
      assert (front + [last])[0] == front[0] && (front + [last])[1..] == front[1..] + [last];
      Associates([front[0].key], KeyList(front[1..]), [last.key]);
    }
  }

  lemma {:induction false} KeyListMember(servers: Dict<ServerConfig>, n: string)
    requires n in KeyList(servers)
    ensures exists i :: 0 <= i < |servers| && servers[i].key == n
  {
    if servers[0].key != n {
      KeyListMember(servers[1..], n);
      var i :| 0 <= i < |servers[1..]| && servers[1..][i].key == n;
      assert servers[i + 1].key == n;
    }
  }

  /** The key of a server is not among those of the servers before and after it. */
  lemma KeyIsOnlyHere(servers: Dict<ServerConfig>, i: nat)
    requires UniqueKeys(servers) && i < |servers|
    ensures servers[i].key !in KeyList(servers[..i]) && servers[i].key !in KeyList(servers[i + 1..])
  {
    if servers[i].key in KeyList(servers[..i]) {
      KeyListMember(servers[..i], servers[i].key);
    }
    if servers[i].key in KeyList(servers[i + 1..]) {
      KeyListMember(servers[i + 1..], servers[i].key);
    }
  }

  // ---- The names a document brings up ----

  lemma {:induction false} NamesFromConcat(names: seq<string>, a: Doc, c: Doc)
    ensures NamesFrom(names, a + c) == NamesFrom(NamesFrom(names, a), c)
    decreases |a|
  {
    if a == [] {
      assert a + c == c;
    } else {
      NamesFromConcat(AddName(names, a[0].path), a[1..], c);
      assert (a + c)[1..] == a[1..] + c;
    }
  }

  lemma {:induction false} KnownNames(names: seq<string>, doc: Doc)
    requires forall i :: 0 <= i < |doc| ==> AddName(names, doc[i].path) == names
    ensures NamesFrom(names, doc) == names
  {
    if doc != [] {
      KnownNames(names, doc[1..]);
    }
  }

  /** A section brings up what its header names. */
  lemma SectionNames(names: seq<string>, path: seq<string>, pairs: Dict<Value>)
    requires path != [] && path != ["servers"]
    ensures NamesFrom(names, SectionItems(path, pairs)) == AddName(names, path)
  {
    var items := SectionItems(path, pairs);
    var names' := AddName(names, path);
    assert items[1..] == PairItems(path, pairs);
    forall i | 0 <= i < |pairs|
      ensures AddName(names', PairItems(path, pairs)[i].path) == names'
    {
      assert (path + [pairs[i].key])[0] == path[0];
      assert |path| >= 2 ==> (path + [pairs[i].key])[1] == path[1];
    }
    KnownNames(names', PairItems(path, pairs));
  }

  lemma FirstServerName(names: seq<string>, first: Item<ServerConfig>, rest: Dict<ServerConfig>)
    requires first.key !in names
    requires NamesFrom(names + [first.key], ServersDoc(rest)) == names + [first.key] + KeyList(rest)
    ensures NamesFrom(names, ServersDoc([first] + rest)) == names + KeyList([first] + rest)
  {
    assert ([first] + rest)[1..] == rest;
    NamesFromConcat(names, ServerItems(first), ServersDoc(rest));
    SectionNames(names, ServerPath(first.key), ServerPairs(first.value));
    KeyListFirst(first, rest);
    Associates(names, [first.key], KeyList(rest));
  }

  lemma {:induction false} ServersNames(names: seq<string>, servers: Dict<ServerConfig>)
    requires NewNames(names, servers)
    ensures NamesFrom(names, ServersDoc(servers)) == names + KeyList(servers)
    decreases |servers|
  {
    if servers == [] {
      assert names + KeyList(servers) == names;
    } else {
      NewNamesRest(names, servers);
      ServersNames(names + [servers[0].key], servers[1..]);
      FirstServerName(names, servers[0], servers[1..]);
      assert servers == [servers[0]] + servers[1..];
    }
  }

  // ---- The values of a section ----

  lemma {:induction false} PairItemsValue(path: seq<string>, pairs: Dict<Value>, k: string)
    ensures ValueAt(PairItems(path, pairs), path + [k]) == Lookup(pairs, k)
  {
    if pairs != [] {
      var item, more := pairs[0], pairs[1..];
      assert pairs == [item] + more;
      var placed := Set(path + [item.key], item.value);
      PairItemsFirst(path, item, more);
      ValueAtConcat([placed], PairItems(path, more), path + [k]);
      ValueAtOne(placed, path + [k]);
      PairItemsValue(path, more, k);
      assert item.key == k || !(path + [item.key] <= path + [k]) by {
        if item.key != k {
          SiblingsApart(path, item.key, k);
        }
      }
    }
  }

  /** Nothing in the document is at the path or below it. */
  ghost predicate Avoids(doc: Doc, path: seq<string>) {
    forall i :: 0 <= i < |doc| ==> !(path <= doc[i].path)
  }

  lemma AvoidsBelow(doc: Doc, path: seq<string>, k: string)
    requires Avoids(doc, path)
    ensures ValueAt(doc, path + [k]) == None && Avoids(doc, path + [k])
  {
    forall i | 0 <= i < |doc|
      ensures !(path + [k] <= doc[i].path) && doc[i].path != path + [k]
    {
      PrefixOfChild(path, k, doc[i].path);
    }
    ValueAtNone(doc, path + [k]);
  }

  lemma AvoidsConcat(a: Doc, c: Doc, path: seq<string>)
    requires Avoids(a, path) && Avoids(c, path)
    ensures Avoids(a + c, path)
  {
  }

  lemma SectionAvoids(path: seq<string>, pairs: Dict<Value>, k: string)
    requires !Has(pairs, k)
    ensures Avoids(SectionItems(path, pairs), path + [k])
  {
    var items := SectionItems(path, pairs);
    forall i | 0 <= i < |items|
      ensures !(path + [k] <= items[i].path)
    {
      if i > 0 {
        assert items[i] == PairItems(path, pairs)[i - 1];
        SiblingsApart(path, k, pairs[i - 1].key);
      }
    }
  }

  /** The fields of a section, whatever other sections stand before and after it. */
  lemma SectionField(a: Doc, path: seq<string>, pairs: Dict<Value>, c: Doc, f: Field)
    requires Avoids(a, path) && Avoids(c, path)
    ensures FieldsAt(a + (SectionItems(path, pairs) + c), path)(f) == Lookup(pairs, FieldText(f))
  {
    var k, items := FieldText(f), SectionItems(path, pairs);
    var place := path + [k];
    AvoidsBelow(a, path, k);
    AvoidsBelow(c, path, k);
    ValueAtConcat(a, items + c, place);
    ValueAtConcat(items, c, place);
    ValueAtConcat([Table(path)], PairItems(path, pairs), place);
    ValueAtOne(Table(path), place);
    PairItemsValue(path, pairs, k);
    if !Has(pairs, k) {
      SectionAvoids(path, pairs, k);
      AvoidsConcat(items, c, place);
      AvoidsConcat(a, items + c, place);
    }
  }

  lemma SectionAnswers(a: Doc, path: seq<string>, entries: seq<Entry>, c: Doc)
    requires Avoids(a, path) && Avoids(c, path) && DistinctFields(entries)
    ensures Answers(FieldsAt(a + (SectionItems(path, Pairs(entries)) + c), path), entries)
  {
    forall i | 0 <= i < |entries|
      ensures FieldsAt(a + (SectionItems(path, Pairs(entries)) + c), path)(entries[i].field) == entries[i].value
    {
      SectionField(a, path, Pairs(entries), c, entries[i].field);
      PairsLookup(entries, i);
    }
  }

  // ---- The document of a config ----

  /** Every item lies under one of the named servers; its values lie in the server's table. */
  ghost predicate InServers(doc: Doc, names: seq<string>) {
    forall i :: 0 <= i < |doc| ==>
      var path := doc[i].path; |path| >= 2 && path[0] == "servers" && path[1] in names && (doc[i].Set? ==> |path| == 3)
  }

  lemma ServerItemsInside(item: Item<ServerConfig>)
    ensures InServers(ServerItems(item), [item.key])
  {
    var path, pairs := ServerPath(item.key), ServerPairs(item.value);
    forall i | 0 < i < |ServerItems(item)|
      ensures ServerItems(item)[i] == Set(path + [pairs[i - 1].key], pairs[i - 1].value)
    {
      assert ServerItems(item)[i] == PairItems(path, pairs)[i - 1];
    }
  }

  lemma InServersConcat(a: Doc, c: Doc, x: seq<string>, y: seq<string>)
    requires InServers(a, x) && InServers(c, y)
    ensures InServers(a + c, x + y)
  {
  }

  lemma {:induction false} ServersDocInside(servers: Dict<ServerConfig>)
    ensures InServers(ServersDoc(servers), KeyList(servers))
  {
    if servers != [] {
      var first, rest := servers[0], servers[1..];
      assert servers == [first] + rest;
      ServerItemsInside(first);
      ServersDocInside(rest);
      KeyListFirst(first, rest);
      InServersConcat(ServerItems(first), ServersDoc(rest), [first.key], KeyList(rest));
    }
  }

  lemma OthersAvoid(doc: Doc, names: seq<string>, n: string)
    requires InServers(doc, names) && n !in names
    ensures Avoids(doc, ServerPath(n)) && Avoids(doc, ["settings"])
  {
    assert "settings" != "servers";
    forall i | 0 <= i < |doc|
      ensures !(ServerPath(n) <= doc[i].path) && !(["settings"] <= doc[i].path)
    {
      PrefixAt(ServerPath(n), doc[i].path, 1);
      PrefixAt(["settings"], doc[i].path, 0);
    }
  }

  lemma SettingsAvoid(pairs: Dict<Value>, n: string)
    ensures Avoids(SectionItems(["settings"], pairs), ServerPath(n))
  {
    SettingsAreKnown(pairs);
    var items := SectionItems(["settings"], pairs);
    forall i | 0 <= i < |items|
      ensures !(ServerPath(n) <= items[i].path)
    {
      OtherPath(items[i].path, [], n);
    }
  }

  lemma {:induction false} ServersDocConcat(a: Dict<ServerConfig>, c: Dict<ServerConfig>)
    ensures ServersDoc(a + c) == ServersDoc(a) + ServersDoc(c)
  {
    if a == [] {
      assert a + c == c;
    } else {
      ServersDocConcat(a[1..], c);
      RestOfConcat(a, c);
      Associates(ServerItems(a[0]), ServersDoc(a[1..]), ServersDoc(c));
    }
  }

  /** A server's table in the document of its config. */
  lemma ServerComesBack(cfg: AppConfig, i: nat)
    requires IsConfig(cfg) && i < |cfg.servers|
    ensures ServerOf(FieldsAt(ConfigDoc(cfg), ServerPath(cfg.servers[i].key))) == Some(cfg.servers[i].value)
  {
    var front, s, back := cfg.servers[..i], cfg.servers[i], cfg.servers[i + 1..];
    var settings := SectionItems(["settings"], SettingsPairs(cfg.settings));
    assert cfg.servers == front + ([s] + back);
    KeyIsOnlyHere(cfg.servers, i);
    ServersDocConcat(front, [s] + back);
    assert ([s] + back)[1..] == back;
    Associates(settings, ServersDoc(front), ServerItems(s) + ServersDoc(back));
    ServersDocInside(front);
    ServersDocInside(back);
    OthersAvoid(ServersDoc(front), KeyList(front), s.key);
    OthersAvoid(ServersDoc(back), KeyList(back), s.key);
    SettingsAvoid(SettingsPairs(cfg.settings), s.key);
    AvoidsConcat(settings, ServersDoc(front), ServerPath(s.key));
    ServerEntriesDistinct(s.value);
    SectionAnswers(settings + ServersDoc(front), ServerPath(s.key), ServerEntries(s.value), ServersDoc(back));
    ServerDecodes(FieldsAt(ConfigDoc(cfg), ServerPath(s.key)), s.value);
  }

  lemma SettingsComeBack(cfg: AppConfig)
    requires IsConfig(cfg)
    ensures SettingsOf(FieldsAt(ConfigDoc(cfg), ["settings"])) == Some(cfg.settings)
  {
    var items := SectionItems(["settings"], SettingsPairs(cfg.settings));
    ServersDocInside(cfg.servers);
    NoSettingsThere(ServersDoc(cfg.servers), KeyList(cfg.servers));
    SettingsEntriesDistinct(cfg.settings);
    SectionAnswers([], ["settings"], SettingsEntries(cfg.settings), ServersDoc(cfg.servers));
    assert [] + ConfigDoc(cfg) == ConfigDoc(cfg);
    SettingsDecode(FieldsAt(ConfigDoc(cfg), ["settings"]), cfg.settings);
  }

  lemma NoSettingsThere(doc: Doc, names: seq<string>)
    requires InServers(doc, names)
    ensures Avoids(doc, ["settings"])
  {
    assert "settings" != "servers";
    forall i | 0 <= i < |doc|
      ensures !(["settings"] <= doc[i].path)
    {
      PrefixAt(["settings"], doc[i].path, 0);
    }
  }

  lemma ConfigIsWellPlaced(cfg: AppConfig)
    ensures !MisplacedValue(ConfigDoc(cfg))
  {
    var pairs := SettingsPairs(cfg.settings);
    var items: Doc, servers: Doc := SectionItems(["settings"], pairs), ServersDoc(cfg.servers);
    ServersDocInside(cfg.servers);
    assert "settings" != "servers";
    forall i | 0 <= i < |items + servers|
      ensures var x: DocItem := (items + servers)[i];
              x.Set? ==> |x.path| == 3 || (|x.path| == 2 && x.path[0] == "settings")
    {
      if 0 < i < |items| {
        assert items[i] == PairItems(["settings"], pairs)[i - 1];
      } else if i >= |items| {
        assert (items + servers)[i] == servers[i - |items|];
      }
    }
  }

  lemma ConfigNames(cfg: AppConfig)
    requires IsConfig(cfg)
    ensures ServerNames(ConfigDoc(cfg)) == KeyList(cfg.servers)
  {
    var items := SectionItems(["settings"], SettingsPairs(cfg.settings));
    NamesFromConcat([], items, ServersDoc(cfg.servers));
    SectionNames([], ["settings"], SettingsPairs(cfg.settings));
    ServersNames([], cfg.servers);
    assert [] + KeyList(cfg.servers) == KeyList(cfg.servers);
  }

  /** The tables of the servers decode to them. */
  ghost predicate TablesDecode(doc: Doc, servers: Dict<ServerConfig>) {
    forall i :: 0 <= i < |servers| ==> ServerOf(FieldsAt(doc, ServerPath(servers[i].key))) == Some(servers[i].value)
  }

  lemma TablesDecodeSnoc(doc: Doc, front: Dict<ServerConfig>, last: Item<ServerConfig>)
    ensures TablesDecode(doc, front + [last]) <==>
            TablesDecode(doc, front) && ServerOf(FieldsAt(doc, ServerPath(last.key))) == Some(last.value)
  {
    var servers := front + [last];
    SnocAt(front, last, |front|);
    if TablesDecode(doc, servers) {
      assert ServerOf(FieldsAt(doc, ServerPath(servers[|front|].key))) == Some(servers[|front|].value);
      forall i | 0 <= i < |front|
        ensures ServerOf(FieldsAt(doc, ServerPath(front[i].key))) == Some(front[i].value)
      {
        SnocAt(front, last, i);
        assert ServerOf(FieldsAt(doc, ServerPath(servers[i].key))) == Some(servers[i].value);
      }
    }
  }

  lemma DecodeSnoc(doc: Doc, names: seq<string>, n: string)
    ensures DecodeServers(doc, names + [n]) ==
      match (DecodeServers(doc, names), ServerOf(FieldsAt(doc, ServerPath(n))))
      case (Some(f), Some(s)) => Some(f + [Item(n, s)])
      case _ => None
  {
    assert (names + [n])[..|names|] == names;
  }

  lemma LastServerDecodes(doc: Doc, names: seq<string>, n: string, front: Dict<ServerConfig>, last: Item<ServerConfig>)
    requires DecodeServers(doc, names) == Some(front) <==> names == KeyList(front) && TablesDecode(doc, front)
    ensures DecodeServers(doc, names + [n]) == Some(front + [last]) <==>
            names + [n] == KeyList(front + [last]) && TablesDecode(doc, front + [last])
  {
    DecodeSnoc(doc, names, n);
    TablesDecodeSnoc(doc, front, last);
    KeyListSnoc(front, last);
    SnocsEqual(names, n, KeyList(front), last.key);
    match (DecodeServers(doc, names), ServerOf(FieldsAt(doc, ServerPath(n))))
    case (Some(f), Some(s)) => SnocsEqual(f, Item(n, s), front, last);
    case _ =>
  }

  /** Decoding servers gives exactly those whose keys are the names and whose values the tables decode to. */
  lemma {:induction false} DecodesExactly(doc: Doc, names: seq<string>, servers: Dict<ServerConfig>)
    ensures DecodeServers(doc, names) == Some(servers) <==> names == KeyList(servers) && TablesDecode(doc, servers)
    decreases |names|
  {
    if names != [] && servers != [] {
      var front, last := servers[..|servers| - 1], servers[|servers| - 1];
      var fewer, n := names[..|names| - 1], names[|names| - 1];
      DecodesExactly(doc, fewer, front);
      LastServerDecodes(doc, fewer, n, front, last);
      SplitLast(servers);
      SplitLast(names);
    }
  }

  /** The document of a config decodes to the config. */
  lemma ConfigDecodes(cfg: AppConfig)
    requires IsConfig(cfg)
    ensures Decode(ConfigDoc(cfg)) == Some(cfg)
  {
    ConfigIsWellPlaced(cfg);
    ConfigNames(cfg);
    SettingsComeBack(cfg);
    forall i | 0 <= i < |cfg.servers|
      ensures ServerOf(FieldsAt(ConfigDoc(cfg), ServerPath(cfg.servers[i].key))) == Some(cfg.servers[i].value)
    {
      ServerComesBack(cfg, i);
    }
    DecodesExactly(ConfigDoc(cfg), KeyList(cfg.servers), cfg.servers);
  }
}
