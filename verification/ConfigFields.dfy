/** The fields of a config's tables: their keys, their values, and what decoding them gives. */
module ConfigFields {
  import opened Wrappers
  import opened Dict
  import opened Registry
  import opened Toml
  import opened ConfigText

  // ---- Which configs ----

  predicate PlainOpt(s: Option<string>) {
    s.Some? ==> Plain(s.value)
  }

  predicate PlainServer(s: ServerConfig) {
    && Plain(s.name) && Plain(s.host) && Plain(s.user)
    && PlainOpt(s.keyPath) && PlainOpt(s.certPath) && PlainOpt(s.passwordEnv) && PlainOpt(s.jumpHost)
    && PlainOpt(s.defaultCwd) && PlainPairs(s.defaultEnv) && PlainOpt(s.note)
  }

  predicate PlainSettings(g: GlobalSettings) {
    Plain(g.knownHostsFile) && Plain(g.auditLog) && Plain(g.stateFile) && Plain(g.defaultEncoding)
  }

  // ---- Keys of tables ----

  /** Length, first two and last characters: enough to tell the keys apart. */
  datatype Signature = Signature(size: nat, first: char, second: char, last: char)

  function SignatureOf(s: string): Signature
    requires |s| >= 2
  {
    Signature(|s|, s[0], s[1], s[|s| - 1])
  }

  function FieldSignature(f: Field): Signature {
    match f
    case FName => Signature(4, 'n', 'a', 'e')
    case FHost => Signature(4, 'h', 'o', 't')
    case FPort => Signature(4, 'p', 'o', 't')
    case FUser => Signature(4, 'u', 's', 'r')
    case FAuthType => Signature(9, 'a', 'u', 'e')
    case FKeyPath => Signature(8, 'k', 'e', 'h')
    case FCertPath => Signature(9, 'c', 'e', 'h')
    case FPasswordEnv => Signature(12, 'p', 'a', 'v')
    case FJumpHost => Signature(9, 'j', 'u', 't')
    case FHostKeyPolicy => Signature(15, 'h', 'o', 'y')
    case FDefaultCwd => Signature(11, 'd', 'e', 'd')
    case FDefaultEnv => Signature(11, 'd', 'e', 'v')
    case FMaxSessions => Signature(12, 'm', 'a', 's')
    case FKeepaliveInterval => Signature(18, 'k', 'e', 'l')
    case FNote => Signature(4, 'n', 'o', 'e')
    case FKnownHostsFile => Signature(16, 'k', 'n', 'e')
    case FDefaultHostKeyPolicy => Signature(23, 'd', 'e', 'y')
    case FAuditLog => Signature(9, 'a', 'u', 'g')
    case FStateFile => Signature(10, 's', 't', 'e')
    case FKeepaliveCountMax => Signature(19, 'k', 'e', 'x')
    case FConnectTimeout => Signature(15, 'c', 'o', 't')
    case FDefaultEncoding => Signature(16, 'd', 'e', 'g')
  }

  lemma FieldTextSignature(f: Field)
    ensures |FieldText(f)| >= 2 && SignatureOf(FieldText(f)) == FieldSignature(f)
  {
  }

  lemma FieldTextInjective(f: Field, g: Field)
    ensures FieldText(f) == FieldText(g) ==> f == g
  {
    FieldTextSignature(f);
    FieldTextSignature(g);
  }

  lemma ShortKeysAreBare()
    ensures BareKey("name") && BareKey("host") && BareKey("port") && BareKey("user") && BareKey("note")
    ensures BareKey("auth_type") && BareKey("key_path") && BareKey("cert_path") && BareKey("jump_host")
      && BareKey("audit_log")
  {
  }

  lemma MiddleKeysAreBare()
    ensures BareKey("password_env") && BareKey("default_cwd") && BareKey("default_env") && BareKey("max_sessions")
    ensures BareKey("state_file") && BareKey("host_key_policy") && BareKey("connect_timeout")
  {
  }

  lemma LongKeysAreBare()
    ensures BareKey("keepalive_interval") && BareKey("known_hosts_file") && BareKey("default_encoding")
  {
  }

  lemma LongestKeysAreBare()
    ensures BareKey("default_host_key_policy") && BareKey("keepalive_count_max")
  {
  }

  lemma FieldTextBare(f: Field)
    ensures BareKey(FieldText(f))
  {
    ShortKeysAreBare();
    MiddleKeysAreBare();
    LongKeysAreBare();
    LongestKeysAreBare();
  }

  ghost predicate DistinctFields(entries: seq<Entry>) {
    forall i, j :: 0 <= i < j < |entries| ==> entries[i].field != entries[j].field
  }

  /** A pair of the table comes from an entry. */
  lemma {:induction false} PairsMember(entries: seq<Entry>, item: Item<Value>)
    ensures item in Pairs(entries) <==> exists i :: 0 <= i < |entries| && item in Written(entries[i])
  {
    if entries != [] {
      var front, last := entries[..|entries| - 1], entries[|entries| - 1];
      PairsMember(front, item);
      if i :| 0 <= i < |entries| && item in Written(entries[i]) {
        if i < |front| {
          assert front[i] == entries[i];
        }
      }
      if item in Pairs(front) {
        var i :| 0 <= i < |front| && item in Written(front[i]);
        assert item in Written(entries[i]);
      }
    }
  }

  lemma {:induction false} PairsUnique(entries: seq<Entry>)
    requires DistinctFields(entries)
    ensures UniqueKeys(Pairs(entries))
  {
    if entries != [] {
      var front, last := entries[..|entries| - 1], entries[|entries| - 1];
      PairsUnique(front);
      AbsentField(front, last.field);
    }
  }

  /** An entry of another field does not answer for this one. */
  lemma LookupSkips(front: seq<Entry>, last: Entry, f: Field)
    requires last.field != f
    ensures Lookup(Pairs(front + [last]), FieldText(f)) == Lookup(Pairs(front), FieldText(f))
  {
    assert (front + [last])[..|front|] == front;
    FieldTextInjective(last.field, f);
    LookupAppend(Pairs(front), Written(last), FieldText(f));
    assert !Has(Written(last), FieldText(f));
  }

  lemma LookupLast(front: seq<Entry>, last: Entry)
    requires Lookup(Pairs(front), FieldText(last.field)) == None
    ensures Lookup(Pairs(front + [last]), FieldText(last.field)) == last.value
  {
    assert (front + [last])[..|front|] == front;
    LookupAppend(Pairs(front), Written(last), FieldText(last.field));
  }

  lemma {:induction false} AbsentField(entries: seq<Entry>, f: Field)
    requires forall i :: 0 <= i < |entries| ==> entries[i].field != f
    ensures Lookup(Pairs(entries), FieldText(f)) == None
  {
    if entries != [] {
      var front, last := entries[..|entries| - 1], entries[|entries| - 1];
      assert entries == front + [last];
      AbsentField(front, f);
      LookupSkips(front, last, f);
    }
  }

  /** Looking a field up in its table gives the value of its entry. */
  lemma {:induction false} PairsLookup(entries: seq<Entry>, i: nat)
    requires DistinctFields(entries) && i < |entries|
    ensures Lookup(Pairs(entries), FieldText(entries[i].field)) == entries[i].value
  {
    var front, last := entries[..|entries| - 1], entries[|entries| - 1];
    assert entries == front + [last];
    if i < |front| {
      PairsLookup(front, i);
      LookupSkips(front, last, entries[i].field);
    } else {
      AbsentField(front, last.field);
      LookupLast(front, last);
    }
  }

  // ---- The entries of a config's tables ----

  /** Where a server's field stands among its entries. */
  function ServerRank(f: Field): nat {
    match f
    case FName => 0 case FHost => 1 case FPort => 2 case FUser => 3 case FAuthType => 4
    case FKeyPath => 5 case FCertPath => 6 case FPasswordEnv => 7 case FJumpHost => 8 case FHostKeyPolicy => 9
    case FDefaultCwd => 10 case FDefaultEnv => 11 case FMaxSessions => 12 case FKeepaliveInterval => 13 case FNote => 14
    case _ => 15
  }

  function SettingsRank(f: Field): nat {
    match f
    case FKnownHostsFile => 0 case FDefaultHostKeyPolicy => 1 case FAuditLog => 2 case FStateFile => 3
    case FMaxSessions => 4 case FKeepaliveInterval => 5 case FKeepaliveCountMax => 6 case FConnectTimeout => 7
    case FDefaultEncoding => 8
    case _ => 9
  }

  lemma ServerEntriesDistinct(s: ServerConfig)
    ensures forall i :: 0 <= i < 15 ==> ServerRank(ServerEntries(s)[i].field) == i
    ensures DistinctFields(ServerEntries(s))
  {
    var e := ServerEntries(s);
    forall i | 0 <= i < 15
      ensures ServerRank(e[i].field) == i
    {
      if i < 8 {
      } else {
      }
    }
  }

  lemma SettingsEntriesDistinct(g: GlobalSettings)
    ensures forall i :: 0 <= i < 9 ==> SettingsRank(SettingsEntries(g)[i].field) == i
    ensures DistinctFields(SettingsEntries(g))
  {
    var e := SettingsEntries(g);
    forall i | 0 <= i < 9
      ensures SettingsRank(e[i].field) == i
    {
    }
  }

  // ---- What a table must say to decode to a given server, fields it leaves out included ----

  /** The table says what the server's fields are; it may leave out the port 22 and an empty environment. */
  ghost predicate SaysServer(get: Getter, s: ServerConfig) {
    && get(FName) == Some(Str(s.name)) && get(FHost) == Some(Str(s.host)) && get(FUser) == Some(Str(s.user))
    && (get(FPort) == Some(Int(s.port)) || (get(FPort) == None && s.port == 22))
    && get(FAuthType) == Some(Str(AuthText(s.authType)))
    && get(FKeyPath) == StrOpt(s.keyPath) && get(FCertPath) == StrOpt(s.certPath)
    && get(FPasswordEnv) == StrOpt(s.passwordEnv) && get(FJumpHost) == StrOpt(s.jumpHost)
    && get(FHostKeyPolicy) == (match s.hostKeyPolicy case Some(p) => Some(Str(PolicyText(p))) case None => None)
    && get(FDefaultCwd) == StrOpt(s.defaultCwd)
    && (get(FDefaultEnv) == Some(Env(s.defaultEnv)) || (get(FDefaultEnv) == None && s.defaultEnv == []))
    && get(FMaxSessions) == IntOpt(s.maxSessions) && get(FKeepaliveInterval) == IntOpt(s.keepaliveInterval)
    && get(FNote) == StrOpt(s.note)
  }

  lemma AuthReads(a: AuthType, s: string)
    ensures AuthOf(s) == Some(a) <==> s == AuthText(a)
  {
  }

  lemma PolicyReads(p: HostKeyPolicy, s: string)
    ensures PolicyOf(s) == Some(p) <==> s == PolicyText(p)
  {
  }

  /** A table decodes to a server exactly when it says so. */
  lemma ServerDecodesIff(get: Getter, s: ServerConfig)
    ensures ServerOf(get) == Some(s) <==> SaysServer(get, s)
  {
    if ServerOf(get) == Some(s) {
      AuthReads(s.authType, get(FAuthType).value.text);
      if s.hostKeyPolicy.Some? {
        PolicyReads(s.hostKeyPolicy.value, get(FHostKeyPolicy).value.text);
      }
    }
    if SaysServer(get, s) {
      SaidIsTyped(get, s);
      AuthReads(s.authType, AuthText(s.authType));
      if s.hostKeyPolicy.Some? {
        PolicyReads(s.hostKeyPolicy.value, PolicyText(s.hostKeyPolicy.value));
      }
    }
  }

  lemma SaidIsTyped(get: Getter, s: ServerConfig)
    requires SaysServer(get, s)
    ensures ServerTyped(get)
  {
    AuthReads(s.authType, AuthText(s.authType));
    if s.hostKeyPolicy.Some? {
      PolicyReads(s.hostKeyPolicy.value, PolicyText(s.hostKeyPolicy.value));
    }
  }

  /** `v` says `text`, or says nothing and `text` is the default. */
  ghost predicate SaysText(v: Option<Value>, text: string, default: string) {
    v == Some(Str(text)) || (v == None && text == default)
  }

  ghost predicate SaysNumber(v: Option<Value>, n: int, default: int) {
    v == Some(Int(n)) || (v == None && n == default)
  }

  /** The settings table says what the settings are; every key may be left out for its default. */
  lemma SettingsDecodeIff(get: Getter, g: GlobalSettings)
    ensures SettingsOf(get) == Some(g) <==>
      && SaysText(get(FKnownHostsFile), g.knownHostsFile, "~/.local/share/mcp-ssh/known_hosts")
      && SaysText(get(FDefaultHostKeyPolicy), PolicyText(g.defaultHostKeyPolicy), "tofu")
      && SaysText(get(FAuditLog), g.auditLog, "~/.local/share/mcp-ssh/audit.jsonl")
      && SaysText(get(FStateFile), g.stateFile, "~/.local/share/mcp-ssh/state.json")
      && SaysNumber(get(FMaxSessions), g.maxSessions, 10)
      && SaysNumber(get(FKeepaliveInterval), g.keepaliveInterval, 30)
      && SaysNumber(get(FKeepaliveCountMax), g.keepaliveCountMax, 5)
      && SaysNumber(get(FConnectTimeout), g.connectTimeout, 15)
      && SaysText(get(FDefaultEncoding), g.defaultEncoding, "utf-8")
  {
    PolicyReads(g.defaultHostKeyPolicy, PolicyText(g.defaultHostKeyPolicy));
    PolicyReads(Tofu, PolicyText(g.defaultHostKeyPolicy));
    if get(FDefaultHostKeyPolicy).Some? && get(FDefaultHostKeyPolicy).value.Str? {
      PolicyReads(g.defaultHostKeyPolicy, get(FDefaultHostKeyPolicy).value.text);
    }
  }

  /** `get` answers with the values of the entries. */
  ghost predicate Answers(get: Getter, entries: seq<Entry>) {
    forall i :: 0 <= i < |entries| ==> get(entries[i].field) == entries[i].value
  }

  lemma ServerAnswers(get: Getter, s: ServerConfig)
    requires Answers(get, ServerEntries(s))
    ensures SaysServer(get, s)
  {
    var e := ServerEntries(s);
    assert get(e[0].field) == e[0].value && get(e[1].field) == e[1].value && get(e[2].field) == e[2].value;
    assert get(e[3].field) == e[3].value && get(e[4].field) == e[4].value && get(e[5].field) == e[5].value;
    assert get(e[6].field) == e[6].value && get(e[7].field) == e[7].value && get(e[8].field) == e[8].value;
    assert get(e[9].field) == e[9].value && get(e[10].field) == e[10].value && get(e[11].field) == e[11].value;
    assert get(e[12].field) == e[12].value && get(e[13].field) == e[13].value && get(e[14].field) == e[14].value;
  }

  /** A table that answers with a server's entries decodes to the server. */
  lemma ServerDecodes(get: Getter, s: ServerConfig)
    requires Answers(get, ServerEntries(s))
    ensures ServerOf(get) == Some(s)
  {
    ServerAnswers(get, s);
    ServerDecodesIff(get, s);
  }

  lemma SettingsDecode(get: Getter, g: GlobalSettings)
    requires Answers(get, SettingsEntries(g))
    ensures SettingsOf(get) == Some(g)
  {
    var e := SettingsEntries(g);
    assert get(e[0].field) == e[0].value && get(e[1].field) == e[1].value && get(e[2].field) == e[2].value;
    assert get(e[3].field) == e[3].value && get(e[4].field) == e[4].value && get(e[5].field) == e[5].value;
    assert get(e[6].field) == e[6].value && get(e[7].field) == e[7].value && get(e[8].field) == e[8].value;
    SettingsDecodeIff(get, g);
  }

  // ---- Which entries are plain, and which a decoded table determines ----

  predicate PlainEntry(e: Entry) {
    e.value.Some? ==> PlainValue(e.value.value)
  }

  predicate PlainEntries(entries: seq<Entry>) {
    forall i :: 0 <= i < |entries| ==> PlainEntry(entries[i])
  }

  lemma EnumTextsPlain(a: AuthType, p: HostKeyPolicy)
    ensures Plain(AuthText(a)) && Plain(PolicyText(p))
  {
  }

  lemma PlainServerIff(s: ServerConfig)
    ensures PlainEntries(ServerEntries(s)) <==> PlainServer(s)
  {
    EnumTextsPlain(s.authType, if s.hostKeyPolicy.Some? then s.hostKeyPolicy.value else Tofu);
    var e := ServerEntries(s);
    if PlainEntries(e) {
      assert PlainEntry(e[0]) && PlainEntry(e[1]) && PlainEntry(e[3]) && PlainEntry(e[5]) && PlainEntry(e[6])
          && PlainEntry(e[7]);
      assert PlainEntry(e[8]) && PlainEntry(e[10]) && PlainEntry(e[11]) && PlainEntry(e[14]);
    }
  }

  lemma PlainSettingsIff(g: GlobalSettings)
    ensures PlainEntries(SettingsEntries(g)) <==> PlainSettings(g)
  {
    EnumTextsPlain(Agent, g.defaultHostKeyPolicy);
    var e := SettingsEntries(g);
    if PlainEntries(e) {
      assert PlainEntry(e[0]) && PlainEntry(e[2]) && PlainEntry(e[3]) && PlainEntry(e[8]);
    }
  }

  /** Every entry that is not plain is answered with its value. */
  ghost predicate Determines(get: Getter, entries: seq<Entry>) {
    forall i :: 0 <= i < |entries| ==> PlainEntry(entries[i]) || get(entries[i].field) == entries[i].value
  }

  /** A table that decodes to a server says what the server's strings and environment are. */
  lemma ServerDetermines(get: Getter, s: ServerConfig)
    requires ServerOf(get) == Some(s)
    ensures Determines(get, ServerEntries(s))
  {
    EnumTextsPlain(s.authType, if s.hostKeyPolicy.Some? then s.hostKeyPolicy.value else Tofu);
  }

  lemma SettingsDetermine(get: Getter, g: GlobalSettings)
    requires SettingsOf(get) == Some(g)
    ensures forall i :: 0 <= i < 9 ==>
      PlainEntry(SettingsEntries(g)[i]) || get(SettingsEntries(g)[i].field) == SettingsEntries(g)[i].value
  {
    EnumTextsPlain(Agent, g.defaultHostKeyPolicy);
    DefaultsPlain();
  }

  lemma KnownHostsPathPlain()
    ensures Plain(DEFAULTS.knownHostsFile)
  {
  }

  lemma AuditLogPathPlain()
    ensures Plain(DEFAULTS.auditLog)
  {
  }

  lemma StateFilePathPlain()
    ensures Plain(DEFAULTS.stateFile)
  {
  }

  lemma EncodingPlain()
    ensures Plain(DEFAULTS.defaultEncoding)
  {
  }

  lemma DefaultsPlain()
    ensures PlainSettings(DEFAULTS)
  {
    KnownHostsPathPlain();
    AuditLogPathPlain();
    StateFilePathPlain();
    EncodingPlain();
  }

  // ---- The pairs of a table ----

  ghost predicate WritableEntries(entries: seq<Entry>) {
    DistinctFields(entries) && forall i :: 0 <= i < |entries| && entries[i].value.Some? ==>
        Writable(entries[i].value.value)
  }

  lemma ServerEntriesWritable(s: ServerConfig)
    requires UniqueKeys(s.defaultEnv)
    ensures WritableEntries(ServerEntries(s))
  {
    ServerEntriesDistinct(s);
    var e := ServerEntries(s);
    forall i | 0 <= i < 15 && e[i].value.Some?
      ensures Writable(e[i].value.value)
    {
      EntryIsWritable(s, i);
    }
  }

  lemma EntryIsWritable(s: ServerConfig, i: nat)
    requires UniqueKeys(s.defaultEnv) && i < 15 && ServerEntries(s)[i].value.Some?
    ensures Writable(ServerEntries(s)[i].value.value)
  {
  }

  lemma SettingsEntriesWritable(g: GlobalSettings)
    ensures WritableEntries(SettingsEntries(g))
  {
    SettingsEntriesDistinct(g);
  }

  /** Pairs a table can be written with: bare keys, none twice, and values a dictionary can give. */
  ghost predicate GoodPairs(pairs: Dict<Value>) {
    UniqueKeys(pairs) && forall i :: 0 <= i < |pairs| ==> BareKey(pairs[i].key) && Writable(pairs[i].value)
  }

  predicate AllPlain(pairs: Dict<Value>) {
    forall i :: 0 <= i < |pairs| ==> PlainValue(pairs[i].value)
  }

  lemma PairsAreGood(entries: seq<Entry>)
    requires WritableEntries(entries)
    ensures GoodPairs(Pairs(entries))
  {
    PairsUnique(entries);
    var pairs := Pairs(entries);
    forall i | 0 <= i < |pairs|
      ensures BareKey(pairs[i].key) && Writable(pairs[i].value)
    {
      PairsMember(entries, pairs[i]);
      var j :| 0 <= j < |entries| && pairs[i] in Written(entries[j]);
      FieldTextBare(entries[j].field);
    }
  }

  lemma PlainPairsIff(entries: seq<Entry>)
    ensures AllPlain(Pairs(entries)) <==> PlainEntries(entries)
  {
    var pairs := Pairs(entries);
    if PlainEntries(entries) {
      forall i | 0 <= i < |pairs|
        ensures PlainValue(pairs[i].value)
      {
        PairsMember(entries, pairs[i]);
        var j :| 0 <= j < |entries| && pairs[i] in Written(entries[j]);
        assert PlainEntry(entries[j]);
      }
    }
    if AllPlain(pairs) {
      forall j | 0 <= j < |entries| && entries[j].value.Some?
        ensures PlainValue(entries[j].value.value)
      {
        var item := Item(FieldText(entries[j].field), entries[j].value.value);
        assert item in Written(entries[j]);
        PairsMember(entries, item);
      }
    }
  }
}
