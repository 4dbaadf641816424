/** Reading written lines: plain ones come back as they were, and one that comes back as it was is plain. */
module TomlLines {
  import opened Wrappers
  import opened Dict
  import opened Seqs
  import opened Toml
  import opened TomlReader
  import opened TomlPinned
  import Text

  // ---- Plain pieces read back ----

  lemma NoBlanksFirst(s: string)
    requires s == "" || (s[0] != ' ' && s[0] != '\t')
    ensures SkipBlanks(s) == s
  {
  }

  lemma {:induction false} PlainBodyRead(v: string, tail: string)
    requires Plain(v)
    ensures Body(v + "\"" + tail, false) == Some(Read(v, tail))
  {
    var s := v + "\"" + tail;
    if v == "" {
      assert s[1..] == tail;
    } else {
      PlainBodyRead(v[1..], tail);
      assert s[0] == v[0] && s[1..] == v[1..] + "\"" + tail;
      assert [v[0]] + v[1..] == v;
    }
  }

  lemma StringRead(v: string, tail: string)
    requires Plain(v) && (tail == "" || tail[0] != '"')
    ensures ReadString(Quoted(v) + tail) == Some(Read(v, tail))
  {
    var s := Quoted(v) + tail;
    PlainBodyRead(v, tail);
    assert s[1..] == v + "\"" + tail;
    if v == "" {
      assert |s| > 2 ==> s[2] != '"';
    } else {
      assert s[1] == v[0] != '"';
    }
  }

  lemma EscapeRead(e: char, rest: string, value: string, tail: string)
    requires ShortEscape(e).Some? && Body(rest, false) == Some(Read(value, tail))
    ensures Body("\\" + ([e] + rest), false) == Some(Read([ShortEscape(e).value] + value, tail))
  {
    var s := "\\" + ([e] + rest);
    assert s[1..] == [e] + rest && ([e] + rest)[1..] == rest;
    assert Escape([e] + rest, false) == Some(Read([ShortEscape(e).value], rest));
  }

  lemma {:induction false} EscapedBodyRead(front: string, e: char, back: string, tail: string)
    requires Plain(front) && Plain(back) && ShortEscape(e).Some?
    ensures Body(front + ("\\" + ([e] + (back + "\"" + tail))), false)
      == Some(Read(front + ([ShortEscape(e).value] + back), tail))
  {
    var rest := back + "\"" + tail;
    var s := front + ("\\" + ([e] + rest));
    if front == "" {
      PlainBodyRead(back, tail);
      EscapeRead(e, rest, back, tail);
      assert s == "\\" + ([e] + rest);
      assert front + ([ShortEscape(e).value] + back) == [ShortEscape(e).value] + back;
    } else {
      EscapedBodyRead(front[1..], e, back, tail);
      assert s[0] == front[0] && s[1..] == front[1..] + ("\\" + ([e] + rest));
      assert [front[0]] + (front[1..] + ([ShortEscape(e).value] + back)) == front + ([ShortEscape(e).value] + back);
    }
  }

  /** A backslash before one of the escape letters is not read as itself: it comes back as the character they name. */
  lemma BackslashIsTaken(front: string, e: char, back: string, tail: string)
    requires Plain(front) && Plain(back) && ShortEscape(e).Some?
    ensures ReadString(Quoted(front + "\\" + [e] + back) + tail)
      == Some(Read(front + [ShortEscape(e).value] + back, tail))
  {
    var body := front + ("\\" + ([e] + (back + "\"" + tail)));
    EscapedBodyRead(front, e, back, tail);
    EscapedText(front, "\\", [e], back, tail);
    ShortString(body);
    Associates(front, [ShortEscape(e).value], back);
  }

  lemma EscapedText(front: string, slash: string, letter: string, back: string, tail: string)
    ensures Quoted(front + slash + letter + back) + tail == "\"" + (front + (slash + (letter + (back + "\"" + tail))))
  {
  }

  lemma ShortString(body: string)
    requires body != "" && body[0] != '"'
    ensures ReadString("\"" + body) == Body(body, false)
  {
    assert ("\"" + body)[1..] == body;
  }

  lemma {:induction false} BareRunRead(k: string, tail: string)
    requires forall i :: 0 <= i < |k| ==> KeyChar(k[i])
    requires tail == "" || !KeyChar(tail[0])
    ensures BareRun(k + tail) == |k|
  {
    var s := k + tail;
    if k == "" {
      assert s == tail;
    } else {
      BareRunRead(k[1..], tail);
      assert s[0] == k[0] && s[1..] == k[1..] + tail;
    }
  }

  lemma PartRead(k: string, tail: string)
    requires BareKey(k) && (tail == "" || !KeyChar(tail[0]))
    ensures ReadPart(k + tail) == Some(Read(k, tail))
  {
    BareRunRead(k, tail);
    assert (k + tail)[0] == k[0] && (k + tail)[..|k|] == k && (k + tail)[|k|..] == tail;
  }

  lemma KeyRead(k: string, tail: string)
    requires BareKey(k) && EndsKey(tail)
    ensures ReadKey(k + tail) == Some(Read([k], SkipBlanks(tail)))
  {
    EndsKeyIsGuarded(tail);
    PartRead(k, tail);
  }

  /** A dotted key with the text that follows it. */
  function DottedThen(path: seq<string>, tail: string): string
    requires path != []
  {
    path[0] + if |path| == 1 then tail else "." + DottedThen(path[1..], tail)
  }

  lemma {:induction false} DottedIsThen(path: seq<string>, tail: string)
    requires path != []
    ensures Dotted(path) + tail == DottedThen(path, tail)
  {
    if |path| > 1 {
      DottedIsThen(path[1..], tail);
      Regroup3(path[0], ".", Dotted(path[1..]), tail);
    }
  }

  lemma Regroup3(a: string, b: string, c: string, d: string)
    ensures (a + b + c) + d == a + (b + (c + d))
  {
  }

  lemma {:induction false} PathRead(path: seq<string>, tail: string)
    requires path != [] && (forall k :: k in path ==> BareKey(k)) && EndsKey(tail)
    ensures ReadKey(DottedThen(path, tail)) == Some(Read(path, SkipBlanks(tail)))
    ensures DottedThen(path, tail) != "" && KeyChar(DottedThen(path, tail)[0])
    decreases |path|
  {
    var key := path[0];
    assert BareKey(key) && DottedThen(path, tail)[0] == key[0];
    if |path| == 1 {
      KeyRead(key, tail);
      assert path == [key];
    } else {
      var more := DottedThen(path[1..], tail);
      PathRead(path[1..], tail);
      DottedKeyRead(key, path[1..], more, SkipBlanks(tail));
      assert path == [key] + path[1..];
    }
  }

  lemma DottedKeyRead(key: string, parts: seq<string>, more: string, rest: string)
    requires BareKey(key) && more != "" && KeyChar(more[0]) && ReadKey(more) == Some(Read(parts, rest))
    ensures ReadKey(key + ("." + more)) == Some(Read([key] + parts, rest))
  {
    PartRead(key, "." + more);
    NoBlanksFirst("." + more);
    NoBlanksFirst(more);
    assert ("." + more)[1..] == more;
  }

  // ---- Numbers ----

  lemma {:induction false} NumeralStarts(n: nat)
    ensures var s := Text.Numeral(n); |s| > 1 ==> s[0] != '0'
  {
    if n >= 10 {
      NumeralStarts(n / 10);
    }
  }

  lemma DecimalRead(n: int)
    ensures Decimal(Text.SignedNumeral(n)) == Some(n)
    ensures var s := Text.SignedNumeral(n); s != "" && forall i :: 0 <= i < |s| ==> Text.IsDigit(s[i]) || s[i] == '-'
  {
    var m := if n < 0 then -n else n;
    NumeralStarts(m);
    Text.NumeralValue(m);
    assert ("-" + Text.Numeral(m))[1..] == Text.Numeral(m);
  }

  lemma {:induction false} WordRead(w: string, tail: string)
    requires forall i :: 0 <= i < |w| ==> !Delimiter(w[i])
    requires tail == "" || Delimiter(tail[0])
    ensures WordLength(w + tail) == |w|
  {
    var s := w + tail;
    if w == "" {
      assert s == tail;
    } else {
      WordRead(w[1..], tail);
      assert s[0] == w[0] && s[1..] == w[1..] + tail;
    }
  }

  lemma NumberRead(b: Beyond, n: int, tail: string)
    requires tail == "" || Delimiter(tail[0])
    ensures ReadValue(b, Text.SignedNumeral(n) + tail) == Some(Read(Int(n), tail))
  {
    var w := Text.SignedNumeral(n);
    DecimalRead(n);
    WordRead(w, tail);
    var s := w + tail;
    assert s[0] == w[0] && s[..|w|] == w && s[|w|..] == tail;
  }

  // ---- Inline tables ----

  /** Pairs with the closing brace and the text that follows it. */
  function PairsThen(pairs: Dict<string>, tail: string): string
    requires pairs != []
    decreases |pairs|, 0
  {
    pairs[0].key + (" = " + (Quoted(pairs[0].value) + AfterPair(pairs[1..], tail)))
  }

  /** What is left of an inline table once a pair has been written. */
  function AfterPair(more: Dict<string>, tail: string): string
    decreases |more|, 1
  {
    if more == [] then " }" + tail else ", " + PairsThen(more, tail)
  }

  lemma {:induction false} PairsAreThen(pairs: Dict<string>, tail: string)
    requires pairs != []
    ensures ShowPairs(pairs) + (" }" + tail) == PairsThen(pairs, tail)
  {
    var k, q := pairs[0].key, Quoted(pairs[0].value);
    if |pairs| == 1 {
      assert pairs[1..] == [];
      Regroup3(k, " = ", q, " }" + tail);
    } else {
      PairsAreThen(pairs[1..], tail);
      Regroup5(k, " = ", q, ", ", ShowPairs(pairs[1..]), " }" + tail);
    }
  }

  lemma Regroup5(a: string, b: string, c: string, d: string, e: string, f: string)
    ensures ((a + b + c) + (d + e)) + f == a + (b + (c + (d + (e + f))))
  {
  }

  lemma ThenFirst(item: Item<string>, more: Dict<string>, tail: string)
    ensures PairsThen([item] + more, tail) == item.key + (" = " + (Quoted(item.value) + AfterPair(more, tail)))
  {
    assert ([item] + more)[1..] == more;
  }

  lemma AssignmentKey(k: string, x: string)
    requires BareKey(k)
    ensures ReadKey(k + (" = " + x)) == Some(Read([k], "= " + x))
  {
    assert (" = " + x)[1..] == "= " + x;
    NoBlanksFirst("= " + x);
    KeyRead(k, " = " + x);
  }

  lemma AfterPairFacts(more: Dict<string>, tail: string)
    ensures Guarded(AfterPair(more, tail)) && AfterPair(more, tail)[0] != '"'
    ensures var t := SkipBlanks(AfterPair(more, tail));
            if more == [] then t == "}" + tail
            else t != "" && t[0] == ',' && SkipBlanks(t[1..]) == SkipBlanks(PairsThen(more, tail))
  {
    var s := AfterPair(more, tail);
    if more == [] {
      assert s[1..] == "}" + tail;
      NoBlanksFirst("}" + tail);
      assert Guarded(s[1..]);
    } else {
      NoBlanksFirst(s);
      assert s[1..][1..] == PairsThen(more, tail) && s[1..][0] == ' ';
    }
  }

  /** Reading one written pair: its key, its value, and on to the next pair or the end. */
  lemma PairRead(b: Beyond, item: Item<string>, more: Dict<string>, tail: string, sofar: Dict<string>)
    requires BareKey(item.key) && Plain(item.value) && !Has(sofar, item.key)
    ensures ReadPairs(b, PairsThen([item] + more, tail), Some(sofar)) ==
      if more == [] then Some(Read(Env(sofar + [item]), tail))
      else ReadPairs(b, SkipBlanks(PairsThen(more, tail)), Some(sofar + [item]))
  {
    var after := AfterPair(more, tail);
    var x := Quoted(item.value) + after;
    ThenFirst(item, more, tail);
    AssignmentKey(item.key, x);
    AfterPairFacts(more, tail);
    StringRead(item.value, after);
    StringValueRead(b, x);
    PairUnfolds(b, item.key + (" = " + x), item, x, after, sofar);
    if more == [] {
      assert ("}" + tail)[1..] == tail;
    } else {
      ShorterAfter(item, more, tail);
    }
  }

  lemma StringValueRead(b: Beyond, x: string)
    requires x != "" && x[0] == '"' && ReadString(x).Some?
    ensures ReadValue(b, x) == Some(Read(Str(ReadString(x).value.value), ReadString(x).value.rest))
  {
  }

  /** What comes of a pair whose key and string value are read. */
  lemma PairUnfolds(b: Beyond, s: string, item: Item<string>, x: string, after: string, sofar: Dict<string>)
    requires x != "" && x[0] != ' ' && x[0] != '\t' && |s| >= |x| + 2
    requires ReadKey(s) == Some(Read([item.key], "= " + x)) && ReadValue(b, x) == Some(Read(Str(item.value), after))
    requires !Has(sofar, item.key)
    ensures var t := SkipBlanks(after);
            ReadPairs(b, s, Some(sofar)) ==
              if t == "" then None
              else if t[0] == '}' then Some(Read(Env(sofar + [item]), t[1..]))
              else if t[0] == ',' && |t| < |s| then ReadPairs(b, SkipBlanks(t[1..]), Some(sofar + [item]))
              else None
  {
    ValueAfterBlank(b, x);
  }

  lemma ShorterAfter(item: Item<string>, more: Dict<string>, tail: string)
    ensures |SkipBlanks(AfterPair(more, tail))| < |PairsThen([item] + more, tail)|
  {
    ThenFirst(item, more, tail);
  }

  /** A written pair in front of pairs that read back. */
  lemma PairThenRest(b: Beyond, item: Item<string>, more: Dict<string>, tail: string, sofar: Dict<string>,
      all: Dict<string>)
    requires BareKey(item.key) && Plain(item.value) && !Has(sofar, item.key) && PlainPairs(more)
    requires
      if more == [] then all == sofar + [item]
      else ReadPairs(b, PairsThen(more, tail), Some(sofar + [item])) == Some(Read(Env(all), tail))
    ensures ReadPairs(b, PairsThen([item] + more, tail), Some(sofar)) == Some(Read(Env(all), tail))
  {
    PairRead(b, item, more, tail, sofar);
    if more != [] {
      PairsStart(more, tail);
    }
  }

  lemma {:induction false} PairsRead(b: Beyond, pairs: Dict<string>, tail: string, sofar: Dict<string>)
    requires pairs != [] && PlainPairs(pairs) && UniqueKeys(sofar + pairs)
    ensures ReadPairs(b, PairsThen(pairs, tail), Some(sofar)) == Some(Read(Env(sofar + pairs), tail))
    decreases |pairs|
  {
    var item, more := pairs[0], pairs[1..];
    SplitFirst(pairs);
    Associates(sofar, [item], more);
    FirstIsNew(sofar, item, more);
    if more == [] {
      assert sofar + pairs == sofar + [item];
    } else {
      PairsRead(b, more, tail, sofar + [item]);
    }
    PairThenRest(b, item, more, tail, sofar, sofar + pairs);
  }

  lemma FirstIsNew(sofar: Dict<string>, item: Item<string>, more: Dict<string>)
    requires UniqueKeys(sofar + ([item] + more))
    ensures !Has(sofar, item.key)
  {
    var all := sofar + ([item] + more);
    assert all[|sofar|] == item;
    forall i | 0 <= i < |sofar|
      ensures sofar[i].key != item.key
    {
      assert all[i] == sofar[i];
    }
  }

  lemma ValueAfterBlank(b: Beyond, x: string)
    requires x != "" && x[0] != ' ' && x[0] != '\t'
    ensures SkipBlanks(("= " + x)[1..]) == x
  {
    assert ("= " + x)[1..] == " " + x && (" " + x)[1..] == x;
    NoBlanksFirst(x);
  }

  lemma PairsStart(pairs: Dict<string>, tail: string)
    requires pairs != [] && PlainPairs(pairs)
    ensures SkipBlanks(PairsThen(pairs, tail)) == PairsThen(pairs, tail)
    ensures PairsThen(pairs, tail) != "" && KeyChar(PairsThen(pairs, tail)[0])
  {
    assert BareKey(pairs[0].key);
    assert PairsThen(pairs, tail)[0] == pairs[0].key[0];
    NoBlanksFirst(PairsThen(pairs, tail));
  }

  /** The text of an inline table: an opening brace, a blank and the pairs. */
  lemma TableText(pairs: Dict<string>, tail: string)
    requires pairs != []
    ensures var s := ShowValue(Env(pairs)) + tail;
            s != "" && s[0] == '{' && SkipBlanks(s[1..]) == SkipBlanks(PairsThen(pairs, tail))
  {
    var shown := ShowPairs(pairs);
    PairsAreThen(pairs, tail);
    var s := ("{ " + shown + " }") + tail;
    assert s == "{" + (" " + (shown + (" }" + tail)));
    assert s[1..] == " " + PairsThen(pairs, tail);
    assert s[1..][1..] == PairsThen(pairs, tail);
  }

  lemma TableRead(b: Beyond, pairs: Dict<string>, tail: string)
    requires pairs != [] && PlainPairs(pairs) && UniqueKeys(pairs)
    ensures ReadValue(b, ShowValue(Env(pairs)) + tail) == Some(Read(Env(pairs), tail))
  {
    TableText(pairs, tail);
    PairsStart(pairs, tail);
    assert [] + pairs == pairs;
    PairsRead(b, pairs, tail, []);
  }

  /** A written plain value reads back as itself, up to the delimiter that follows. */
  lemma ValueRead(b: Beyond, v: Value, tail: string)
    requires PlainValue(v) && Writable(v)
    requires tail != "" && Delimiter(tail[0])
    ensures ReadValue(b, ShowValue(v) + tail) == Some(Read(v, tail))
  {
    match v
    case Str(t) => StringRead(t, tail);
    case Int(n) => NumberRead(b, n, tail);
    case Env(pairs) => TableRead(b, pairs, tail);
  }

  // ---- Written values that read back as themselves are plain ----

  function NormalizedPairs(pairs: Dict<string>): (r: Dict<string>)
    ensures |r| == |pairs|
  {
    if pairs == [] then []
    else [Item(Normalized(pairs[0].key), Normalized(pairs[0].value))] + NormalizedPairs(pairs[1..])
  }

  /** What normalizing line ends makes of a value about to be written. */
  function NormalizedValue(v: Value): Value {
    match v
    case Str(t) => Str(Normalized(t))
    case Env(pairs) => Env(NormalizedPairs(pairs))
    case _ => v
  }

  lemma {:induction false} NormalizedShrinks(v: string)
    ensures Shrunk(Normalized(v), v)
  {
    if v != "" {
      NormalizedShrinks(v[1..]);
      if !(v[0] == '\r' && |v| > 1 && v[1] == '\n') {
        assert ([v[0]] + Normalized(v[1..]))[1..] == Normalized(v[1..]);
      }
    }
  }

  /** Reading more pairs keeps the string pairs read so far at the front, or gives up on string pairs. */
  lemma {:induction false} PairsAppend(b: Beyond, s: string, sofar: Option<Dict<string>>)
    requires ReadPairs(b, s, sofar).Some? && ReadPairs(b, s, sofar).value.value.Env?
    ensures sofar.Some? && sofar.value < ReadPairs(b, s, sofar).value.value.pairs
    decreases |s|
  {
    var key := ReadKey(s).value;
    var v := ReadValue(b, SkipBlanks(key.rest[1..])).value;
    var t, more := SkipBlanks(v.rest), OneMore(sofar, key.value, v.value);
    if t[0] == ',' {
      PairsAppend(b, SkipBlanks(t[1..]), more);
    }
  }

  /** A key of one part was read as one part. */
  lemma SinglePart(s: string)
    requires ReadKey(s).Some? && |ReadKey(s).value.value| == 1
    ensures ReadPart(s).Some? && ReadPart(s).value.value == ReadKey(s).value.value[0]
    ensures SkipBlanks(ReadPart(s).value.rest) == ReadKey(s).value.rest
  {
    var t := SkipBlanks(ReadPart(s).value.rest);
    if t != "" && t[0] == '.' {
      KeyHasParts(SkipBlanks(t[1..]));
    }
  }

  lemma KeyHasParts(s: string)
    requires ReadKey(s).Some?
    ensures |ReadKey(s).value.value| >= 1
  {
  }

  /** The first of the pairs still to be read, when all of them read back as written. */
  lemma FirstPairIsPinned(b: Beyond, item': Item<string>, item: Item<string>, more': Dict<string>, tail: string,
      sofar: Dict<string>)
    requires Shrunk(item'.key, item.key) && Shrunk(item'.value, item.value)
    requires var r := ReadPairs(b, SkipBlanks(PairsThen([item'] + more', tail)), Some(sofar));
             r.Some? && r.value.value.Env? && sofar + [item] <= r.value.value.pairs
    ensures BareKey(item.key) && Plain(item.value) && item' == item
  {
    var after := AfterPair(more', tail);
    var x := Quoted(item'.value) + after;
    ThenFirst(item', more', tail);
    AfterPairFacts(more', tail);
    var s := SkipBlanks(item'.key + (" = " + x));
    FirstPairAppends(b, s, sofar, item);
    SinglePart(s);
    EqualsEndsKey(x);
    PartIsPinned(item'.key, item.key, " = " + x);
    ValueAfterBlank(b, x);
    StringIsPinned(item'.value, item.value, after);
  }

  lemma EqualsEndsKey(x: string)
    ensures EndsKey(" = " + x) && SkipBlanks(" = " + x) == "= " + x
  {
    assert (" = " + x)[1..] == "= " + x;
    NoBlanksFirst("= " + x);
  }

  lemma FirstPairAppends(b: Beyond, s: string, sofar: Dict<string>, item: Item<string>)
    requires var r := ReadPairs(b, s, Some(sofar));
             r.Some? && r.value.value.Env? && sofar + [item] <= r.value.value.pairs
    ensures var key := ReadKey(s);
            && key.Some? && key.value.value == [item.key] && key.value.rest != "" && key.value.rest[0] == '='
            && var v := ReadValue(b, SkipBlanks(key.value.rest[1..])); v.Some? && v.value.value == Str(item.value)
  {
    var all := ReadPairs(b, s, Some(sofar)).value.value.pairs;
    var key := ReadKey(s).value;
    var v := ReadValue(b, SkipBlanks(key.rest[1..])).value;
    var t, more := SkipBlanks(v.rest), OneMore(Some(sofar), key.value, v.value);
    if t[0] == ',' {
      PairsAppend(b, SkipBlanks(t[1..]), more);
    }
    assert more.Some? && more.value <= all;
    assert all[|sofar|] == (sofar + [item])[|sofar|] == item;
    assert more.value[|sofar|] == all[|sofar|];
  }

  lemma NormalizedFirst(item: Item<string>, more: Dict<string>)
    ensures NormalizedPairs([item] + more)
      == [Item(Normalized(item.key), Normalized(item.value))] + NormalizedPairs(more)
  {
    assert ([item] + more)[1..] == more;
  }

  /** The first pair is plain, and the others read back after it. */
  lemma FirstThenRest(b: Beyond, item: Item<string>, more: Dict<string>, tail: string, sofar: Dict<string>)
    requires var r := ReadPairs(b, SkipBlanks(PairsThen(NormalizedPairs([item] + more), tail)), Some(sofar));
             r.Some? && r.value.value == Env((sofar + [item]) + more)
    ensures BareKey(item.key) && Plain(item.value)
    ensures more != [] ==>
      var r := ReadPairs(b, SkipBlanks(PairsThen(NormalizedPairs(more), tail)), Some(sofar + [item]));
      r.Some? && r.value.value == Env((sofar + [item]) + more)
  {
    NormalizedFirst(item, more);
    NormalizedShrinks(item.key);
    NormalizedShrinks(item.value);
    FirstPairIsPinned(b, Item(Normalized(item.key), Normalized(item.value)), item, NormalizedPairs(more), tail, sofar);
    if more != [] {
      OnToTheRest(b, item, NormalizedPairs(more), tail, sofar);
    }
  }

  lemma {:induction false} PairsArePinned(b: Beyond, pairs: Dict<string>, tail: string, sofar: Dict<string>)
    requires pairs != []
    requires var r := ReadPairs(b, SkipBlanks(PairsThen(NormalizedPairs(pairs), tail)), Some(sofar));
             r.Some? && r.value.value == Env(sofar + pairs)
    ensures PlainPairs(pairs)
    decreases |pairs|
  {
    var item, more := pairs[0], pairs[1..];
    SplitFirst(pairs);
    Associates(sofar, [item], more);
    FirstThenRest(b, item, more, tail, sofar);
    if more != [] {
      PairsArePinned(b, more, tail, sofar + [item]);
    }
  }

  lemma OnToTheRest(b: Beyond, item: Item<string>, more': Dict<string>, tail: string, sofar: Dict<string>)
    requires BareKey(item.key) && Plain(item.value) && more' != []
    requires ReadPairs(b, SkipBlanks(PairsThen([item] + more', tail)), Some(sofar)).Some?
    ensures ReadPairs(b, SkipBlanks(PairsThen([item] + more', tail)), Some(sofar))
         == ReadPairs(b, SkipBlanks(PairsThen(more', tail)), Some(sofar + [item]))
  {
    var s := PairsThen([item] + more', tail);
    ThenFirst(item, more', tail);
    assert s[0] == item.key[0];
    NoBlanksFirst(s);
    AssignmentKey(item.key, Quoted(item.value) + AfterPair(more', tail));
    assert !Has(sofar, item.key);
    PairRead(b, item, more', tail, sofar);
  }

  /** A written value that reads back as itself, whatever guarded text follows, is plain. */
  lemma ValueIsPinned(b: Beyond, v: Value, tail: string)
    requires Writable(v) && Guarded(tail)
    requires var r := ReadValue(b, ShowValue(NormalizedValue(v)) + tail); r.Some? && r.value.value == v
    ensures PlainValue(v)
  {
    match v
    case Str(t) =>
      NormalizedShrinks(t);
      StringIsPinned(Normalized(t), t, tail);
    case Int(_) =>
    case Env(pairs) => TableIsPinned(b, pairs, tail);
  }

  lemma TableIsPinned(b: Beyond, pairs: Dict<string>, tail: string)
    requires pairs != []
    requires var r := ReadValue(b, ShowValue(Env(NormalizedPairs(pairs))) + tail);
             r.Some? && r.value.value == Env(pairs)
    ensures PlainPairs(pairs)
  {
    TableText(NormalizedPairs(pairs), tail);
    EmptyTableIsEmpty(b, ShowValue(Env(NormalizedPairs(pairs))) + tail, pairs);
    assert [] + pairs == pairs;
    PairsArePinned(b, pairs, tail, []);
  }

  lemma EmptyTableIsEmpty(b: Beyond, s: string, pairs: Dict<string>)
    requires s != "" && s[0] == '{' && pairs != []
    requires ReadValue(b, s).Some? && ReadValue(b, s).value.value == Env(pairs)
    ensures ReadPairs(b, SkipBlanks(s[1..]), Some([])) == ReadValue(b, s)
  {
  }

  // ---- Lines ----

  /** A line whose first character starts a statement is read as that statement. */
  lemma StatementLine(b: Beyond, s: string, doc: Doc, header: seq<string>)
    requires s != "" && s[0] != ' ' && s[0] != '\t' && s[0] != '\n'
    ensures ReadDoc(b, s, doc, header) ==
      match ReadStatement(b, s, doc, header)
      case None => None
      case Some(step) => match EndOfLine(step.rest)
        case None => None
        case Some(rest) => if |rest| < |s| then ReadDoc(b, rest, step.doc, step.header) else None
  {
    NoBlanksFirst(s);
  }

  /** A statement that ends its line. */
  lemma WholeLine(b: Beyond, s: string, doc: Doc, header: seq<string>, step: Step, w: string)
    requires s != "" && s[0] != ' ' && s[0] != '\t' && s[0] != '\n'
    requires ReadStatement(b, s, doc, header) == Some(step) && step.rest == "\n" + w && |w| < |s|
    ensures ReadDoc(b, s, doc, header) == ReadDoc(b, w, step.doc, step.header)
  {
    StatementLine(b, s, doc, header);
    NewlineEnds(w);
  }

  lemma BlankLineRead(b: Beyond, w: string, doc: Doc, header: seq<string>)
    ensures ReadDoc(b, "\n" + w, doc, header) == ReadDoc(b, w, doc, header)
  {
    NoBlanksFirst("\n" + w);
    assert ("\n" + w)[1..] == w;
  }

  lemma NewlineEnds(w: string)
    ensures EndOfLine("\n" + w) == Some(w)
  {
    NoBlanksFirst("\n" + w);
    assert ("\n" + w)[1..] == w;
  }

  lemma HeaderRead(path: seq<string>, tail: string, doc: Doc)
    requires path != [] && (forall k :: k in path ==> BareKey(k)) && tail != "" && tail[0] == ']'
    ensures ReadHeader(DottedThen(path, tail), doc) ==
      if FitsTable(doc, path) then Some(Step(doc + [Table(path)], path, tail[1..])) else None
  {
    NoBlanksFirst(tail);
    PathRead(path, tail);
    NoBlanksFirst(DottedThen(path, tail));
  }

  lemma HeaderStatement(b: Beyond, s: string, doc: Doc, header: seq<string>)
    requires |s| > 1 && s[0] == '[' && s[1] != '['
    ensures ReadStatement(b, s, doc, header) == ReadHeader(s[1..], doc)
  {
  }

  lemma HeaderText(path: seq<string>, w: string)
    requires path != []
    ensures Show(Header(path)) + "\n" + w == "[" + DottedThen(path, "]\n" + w)
  {
    DottedIsThen(path, "]\n" + w);
    var d := Dotted(path);
    assert ("[" + d + "]") + "\n" + w == "[" + (d + ("]\n" + w));
  }

  lemma ClosedHeader(w: string)
    ensures ("]\n" + w)[1..] == "\n" + w && ("]\n" + w)[0] == ']'
    ensures EndsKey("]\n" + w)
  {
    NoBlanksFirst("]\n" + w);
  }

  lemma HeaderLineRead(b: Beyond, path: seq<string>, w: string, doc: Doc, header: seq<string>)
    requires path != [] && forall k :: k in path ==> BareKey(k)
    ensures ReadDoc(b, Show(Header(path)) + "\n" + w, doc, header) ==
      if FitsTable(doc, path) then ReadDoc(b, w, doc + [Table(path)], path) else None
  {
    var tail := "]\n" + w;
    HeaderText(path, w);
    PathRead(path, tail);
    HeaderRead(path, tail, doc);
    DottedIsThen(path, tail);
    ClosedHeader(w);
    HeaderIsLine(b, DottedThen(path, tail), path, w, doc, header);
  }

  /** A header whose inside is read up to the line's end. */
  lemma HeaderIsLine(b: Beyond, h: string, path: seq<string>, w: string, doc: Doc, header: seq<string>)
    requires h != "" && KeyChar(h[0]) && |w| <= |h|
    requires ReadHeader(h, doc) ==
      if FitsTable(doc, path) then Some(Step(doc + [Table(path)], path, "\n" + w)) else None
    ensures ReadDoc(b, "[" + h, doc, header) ==
      if FitsTable(doc, path) then ReadDoc(b, w, doc + [Table(path)], path) else None
  {
    var s := "[" + h;
    assert s[1..] == h && s[1] == h[0];
    HeaderStatement(b, s, doc, header);
    if FitsTable(doc, path) {
      WholeLine(b, s, doc, header, Step(doc + [Table(path)], path, "\n" + w), w);
    } else {
      StatementLine(b, s, doc, header);
    }
  }

  /** A pair under a simple key is set unless the place is taken. */
  lemma SimpleKeyAdds(doc: Doc, header: seq<string>, key: string, v: Value)
    ensures AddKey(doc, header, [key], v) ==
      if FitsSet(doc, header + [key]) then Some(doc + [Set(header + [key], v)]) else None
  {
  }

  lemma PairLineStarts(b: Beyond, key: string, x: string, doc: Doc, header: seq<string>)
    requires BareKey(key) && x != "" && x[0] != ' ' && x[0] != '\t'
    ensures var s := key + (" = " + x);
            && s[0] == key[0] && s[0] != '[' && s[0] != '#' && s[0] != ' ' && s[0] != '\t' && s[0] != '\n'
            && ReadStatement(b, s, doc, header) ==
               match ReadValue(b, x)
               case None => None
               case Some(v) => match AddKey(doc, header, [key], v.value)
                 case None => None
                 case Some(d) => Some(Step(d, header, v.rest))
  {
    AssignmentKey(key, x);
    ValueAfterBlank(b, x);
    assert KeyChar(key[0]);
  }

  lemma ShowPairLine(key: string, v: Value, w: string)
    ensures Show(Pair(key, v)) + "\n" + w == key + (" = " + (ShowValue(v) + ("\n" + w)))
  {
    Regroup4(key, " = ", ShowValue(v), "\n", w);
  }

  lemma Regroup4(a: string, b: string, c: string, d: string, e: string)
    ensures ((a + b + c) + d) + e == a + (b + (c + (d + e)))
  {
  }

  lemma ShownValueStarts(v: Value)
    requires !v.Other?
    ensures ShowValue(v) != "" && ShowValue(v)[0] != ' ' && ShowValue(v)[0] != '\t'
  {
    if v.Int? {
      DecimalRead(v.number);
    }
  }

  lemma PairLineRead(b: Beyond, key: string, v: Value, w: string, doc: Doc, header: seq<string>)
    requires BareKey(key) && PlainValue(v) && Writable(v)
    ensures ReadDoc(b, Show(Pair(key, v)) + "\n" + w, doc, header) ==
      if FitsSet(doc, header + [key]) then ReadDoc(b, w, doc + [Set(header + [key], v)], header) else None
  {
    var x := ShowValue(v) + ("\n" + w);
    ShowPairLine(key, v, w);
    ShownValueStarts(v);
    PairLineStarts(b, key, x, doc, header);
    ValueRead(b, v, "\n" + w);
    SimpleKeyAdds(doc, header, key, v);
    if FitsSet(doc, header + [key]) {
      WholeLine(b, key + (" = " + x), doc, header, Step(doc + [Set(header + [key], v)], header, "\n" + w), w);
    } else {
      StatementLine(b, key + (" = " + x), doc, header);
    }
  }

  /** A pair line that is read at all sets its key once and for all; only a plain value is set as it was. */
  lemma PairLineIsPinned(b: Beyond, key: string, v: Value, w: string, doc: Doc, header: seq<string>)
    requires BareKey(key) && Writable(v) && Guarded(w)
    requires ReadDoc(b, Show(Pair(key, NormalizedValue(v))) + "\n" + w, doc, header).Some?
    ensures var d := ReadDoc(b, Show(Pair(key, NormalizedValue(v))) + "\n" + w, doc, header).value;
            && |d| > |doc| && d[..|doc|] == doc
            && d[|doc|].Set? && d[|doc|].path == header + [key]
            && (d[|doc|].value == v ==> PlainValue(v))
  {
    var v' := NormalizedValue(v);
    var x := ShowValue(v') + ("\n" + w);
    ShowPairLine(key, v', w);
    ShownValueStarts(v');
    PairLineStarts(b, key, x, doc, header);
    StatementLine(b, key + (" = " + x), doc, header);
    assert ("\n" + w)[1..] == w && Guarded("\n" + w);
    var r := ReadValue(b, x).value;
    SimpleKeyAdds(doc, header, key, r.value);
    if r.value == v {
      ValueIsPinned(b, v, "\n" + w);
    }
    var rest := EndOfLine(r.rest).value;
    ReadingAppends(b, rest, doc + [Set(header + [key], r.value)], header);
  }

  // ---- Headers with any name in them ----

  /** A key never runs past the end of its line. */
  lemma {:induction false} KeyStaysOnLine(s: string) returns (used: string)
    requires ReadKey(s).Some?
    ensures s == used + ReadKey(s).value.rest && '\n' !in used
    decreases |s|
  {
    var part := ReadPart(s).value;
    var front := PartFacts(s);
    var blanks := BlanksHaveNoGuards(part.rest);
    var t := SkipBlanks(part.rest);
    used := front + blanks;
    if t != "" && t[0] == '.' {
      var gap := BlanksHaveNoGuards(t[1..]);
      var more := KeyStaysOnLine(SkipBlanks(t[1..]));
      var rest := ReadKey(SkipBlanks(t[1..])).value.rest;
      RegroupKey(s, front, blanks, t, gap, more, rest);
      used := front + blanks + "." + gap + more;
    }
  }

  lemma RegroupKey(s: string, front: string, blanks: string, t: string, gap: string, more: string, rest: string)
    requires s == front + (blanks + t) && t != "" && t[0] == '.' && t[1..] == gap + (more + rest)
    ensures s == (front + blanks + "." + gap + more) + rest
  {
    assert t == "." + t[1..];
  }

  /** What follows a cut that lies before the line end. */
  lemma CutOnLine(line: string, w: string, used: string, rest: string) returns (l: string)
    requires '\n' !in line && '\n' !in used && line + ("\n" + w) == used + rest
    ensures rest == l + ("\n" + w) && '\n' !in l
  {
    var s := line + ("\n" + w);
    assert s[|line|] == '\n';
    assert forall k :: 0 <= k < |used| ==> s[k] == used[k] && used[k] in used;
    l := line[|used|..];
    assert rest == s[|used|..];
  }

  lemma {:induction false} CommentStops(l: string, w: string)
    requires '\n' !in l
    ensures SkipComment(l + ("\n" + w)).Some? ==> SkipComment(l + ("\n" + w)) == Some(w)
  {
    var s := l + ("\n" + w);
    if l == "" {
      assert s == "\n" + w && s[1..] == w;
    } else {
      CommentStops(l[1..], w);
      assert s[0] == l[0] && s[1..] == l[1..] + ("\n" + w);
      assert l[0] in l;
    }
  }

  /** Ending a line ends it at its newline or not at all. */
  lemma EndOfLineStops(l: string, w: string)
    requires '\n' !in l
    ensures EndOfLine(l + ("\n" + w)).Some? ==> EndOfLine(l + ("\n" + w)) == Some(w)
  {
    SkipBlanksConcat(l, "\n" + w);
    var t := SkipBlanks(l);
    var blanks := BlanksHaveNoGuards(l);
    if t == "" {
      NewlineEnds(w);
      NoBlanksFirst("\n" + w);
    } else {
      assert '\n' !in t;
      var s := t + ("\n" + w);
      assert s[0] == t[0] && s[1..] == t[1..] + ("\n" + w) && t[0] in t;
      CommentStops(t[1..], w);
    }
  }

  /** What a header line that names `group` and any text without a newline is read as, if it is read. */
  ghost predicate NamesTable(p: seq<string>, group: string, name: string) {
    && |p| >= 2 && p[0] == group
    && (p[1] == name ==> BareKey(name) && p == [group, name])
  }

  /** The key of such a header, and where reading it stops. */
  lemma NamedKey(group: string, name: string, w: string) returns (p: seq<string>, l: string)
    requires BareKey(group) && '\n' !in name
    requires var r := ReadKey(group + ("." + (name + ("]\n" + w))));
             r.Some? && r.value.rest != "" && r.value.rest[0] == ']'
    ensures ReadKey(group + ("." + (name + ("]\n" + w)))) == Some(Read(p, "]" + (l + ("\n" + w)))) && '\n' !in l
    ensures NamesTable(p, group, name)
  {
    var tail := "]\n" + w;
    var x := name + tail;
    var s := group + ("." + x);
    PartRead(group, "." + x);
    NoBlanksFirst("." + x);
    assert ("." + x)[1..] == x;
    var inner := ReadKey(SkipBlanks(x)).value;
    KeyHasParts(SkipBlanks(x));
    p := [group] + inner.value;
    l := RestOnLine(name, w, inner.rest);
    FirstPartOf(SkipBlanks(x));
    if inner.value[0] == name {
      assert SkipBlanks(tail) == tail;
      PartIsPinned(name, name, tail);
      assert inner.value == [name];
    }
  }

  lemma FirstPartOf(s: string)
    requires ReadKey(s).Some?
    ensures ReadPart(s).Some? && ReadKey(s).value.value != [] && ReadKey(s).value.value[0] == ReadPart(s).value.value
    ensures var t := SkipBlanks(ReadPart(s).value.rest);
            t == "" || t[0] != '.' ==> ReadKey(s).value.value == [ReadPart(s).value.value]
  {
  }

  lemma ClosedLine(name: string, w: string)
    ensures name + ("]\n" + w) == (name + "]") + ("\n" + w)
  {
  }

  lemma RestOnLine(name: string, w: string, rest: string) returns (l: string)
    requires '\n' !in name
    requires var r := ReadKey(SkipBlanks(name + ("]\n" + w))); r.Some? && r.value.rest == rest
    requires rest != "" && rest[0] == ']'
    ensures rest == "]" + (l + ("\n" + w)) && '\n' !in l
  {
    var line := LeadingBlanks(name, w);
    var used := KeyStaysOnLine(line + "]" + ("\n" + w));
    var l1 := CutOnLine(line + "]", w, used, rest);
    l := AfterBracket(l1, w, rest);
  }

  /** The blanks before a name do not matter. */
  lemma LeadingBlanks(name: string, w: string) returns (line: string)
    requires '\n' !in name
    ensures SkipBlanks(name + ("]\n" + w)) == line + "]" + ("\n" + w) && '\n' !in line + "]"
  {
    line := SkipBlanks(name);
    SkipBlanksConcat(name, "]\n" + w);
    NoBlanksFirst("]\n" + w);
    var blanks := BlanksHaveNoGuards(name);
    assert forall c :: c in line ==> c in name;
    ClosedLine(line, w);
  }

  lemma AfterBracket(l1: string, w: string, rest: string) returns (l: string)
    requires rest == l1 + ("\n" + w) && '\n' !in l1 && rest[0] == ']'
    ensures rest == "]" + (l + ("\n" + w)) && '\n' !in l
  {
    assert l1 != "" && l1[0] == ']';
    l := l1[1..];
  }

  /** Such a header line, if it is read, adds one table and goes on at the next line. */
  lemma NamedHeaderRead(b: Beyond, group: string, name: string, w: string, doc: Doc, header: seq<string>)
      returns (p: seq<string>)
    requires BareKey(group) && '\n' !in name
    requires ReadDoc(b, Show(Header([group, name])) + "\n" + w, doc, header).Some?
    ensures NamesTable(p, group, name)
    ensures ReadDoc(b, Show(Header([group, name])) + "\n" + w, doc, header) == ReadDoc(b, w, doc + [Table(p)], p)
  {
    var tail := "]\n" + w;
    var h := DottedThen([group, name], tail);
    var s := "[" + h;
    HeaderText([group, name], w);
    assert [group, name][1..] == [name];
    assert h == group + ("." + (name + tail));
    assert s[1..] == h && s[1] == group[0];
    HeaderStatement(b, s, doc, header);
    StatementLine(b, s, doc, header);
    NoBlanksFirst(h);
    var l;
    p, l := NamedKey(group, name, w);
    EndOfLineStops(l, w);
    assert ("]" + (l + ("\n" + w)))[1..] == l + ("\n" + w);
  }

  // ---- Headers with any name at all in them ----

  /** The first part of a name's header, and what is left of the name after it. */
  lemma FirstPartStaysInside(name: string, w: string) returns (blanks: string, used: string, left: string)
    requires ReadPart(SkipBlanks(name + ("]\n" + w))).Some?
    ensures name == blanks + (used + left)
    ensures PartTook(used, ReadPart(SkipBlanks(name + ("]\n" + w))).value.value)
    ensures ReadPart(SkipBlanks(name + ("]\n" + w))).value.rest == left + ("]\n" + w)
  {
    var tail := "]\n" + w;
    var text := SkipBlanks(name);
    SkipBlanksConcat(name, tail);
    NoBlanksFirst(tail);
    blanks := BlanksHaveNoGuards(name);
    var s := SkipBlanks(name + tail);
    assert text != "";
    used := PartFacts(s);
    var rest := ReadPart(s).value.rest;
    EndsBeforeBracket(text, w, used, rest, ReadPart(s).value.value);
    left := text[|used|..];
    CutInside(text, tail, used, rest);
  }

  lemma CutInside(text: string, tail: string, used: string, rest: string)
    requires text + tail == used + rest && |used| <= |text|
    ensures text == used + text[|used|..] && rest == text[|used|..] + tail
  {
    var s := text + tail;
    assert used == s[..|used|] && rest == s[|used|..];
  }

  lemma EndsBeforeBracket(text: string, w: string, used: string, rest: string, value: string)
    requires text + ("]\n" + w) == used + rest && PartTook(used, value)
    ensures |used| <= |text|
  {
    var s := text + ("]\n" + w);
    assert s[|text|] == ']' && s[|text| + 1] == '\n';
    assert forall k :: 0 <= k < |used| ==> s[k] == used[k] && used[k] in used;
  }

  /** A header reaches below a first part only over a dot in its name. */
  lemma DotIsInside(name: string, w: string)
    requires var r := ReadKey(SkipBlanks(name + ("]\n" + w))); r.Some? && |r.value.value| > 1
    ensures '.' in name
  {
    var s, tail := SkipBlanks(name + ("]\n" + w)), "]\n" + w;
    FirstPartOf(s);
    var blanks, used, left := FirstPartStaysInside(name, w);
    SkipBlanksConcat(left, tail);
    NoBlanksFirst(tail);
    var skipped := BlanksHaveNoGuards(left);
    assert SkipBlanks(left)[0] in SkipBlanks(left);
  }

  /** A part of a key holds no newline unless it is quoted. */
  lemma BareKeyOnLine(k: string)
    requires BareKey(k)
    ensures '\n' !in k
  {
  }

  ghost predicate Occurs(part: string, s: string) {
    exists a, c :: s == a + (part + c)
  }

  /** Without quotes in the name the first part stands in it as it is read. */
  lemma UnquotedPartOccurs(name: string, w: string)
    requires '"' !in name && '\'' !in name
    requires ReadPart(SkipBlanks(name + ("]\n" + w))).Some?
    ensures var part := ReadPart(SkipBlanks(name + ("]\n" + w))).value.value;
            BareKey(part) && Occurs(part, name)
  {
    var part := ReadPart(SkipBlanks(name + ("]\n" + w))).value.value;
    var blanks, used, left := FirstPartStaysInside(name, w);
    assert forall i :: 0 <= i < |used| ==> used[i] == name[|blanks| + i];
  }

  /**
   * A header line with any name in it, if the document is read to its end: one table below `group`. It is
   * the one named only if the name is bare, and it lies deeper only if the name has a dot.
   */
  lemma AnyHeaderRead(b: Beyond, group: string, name': string, name: string, w: string, doc: Doc, header: seq<string>,
      d: Doc)
    returns (p: seq<string>)
    requires BareKey(group) && Shrunk(name', name)
    requires ReadDoc(b, "[" + (group + ("." + (name' + ("]\n" + w)))), doc, header) == Some(d)
    ensures |p| >= 2 && p[0] == group && FitsTable(doc, p) && doc + [Table(p)] <= d
    ensures p[1] == name ==> BareKey(name)
    ensures |p| > 2 ==> '.' in name'
    ensures '"' !in name' && '\'' !in name' ==> BareKey(p[1]) && Occurs(p[1], name')
  {
    var x := name' + ("]\n" + w);
    var h := group + ("." + x);
    assert KeyChar(group[0]) && h[0] == group[0];
    HeaderStarts(b, h, doc, header);
    GroupedKey(group, x);
    p := [group] + ReadKey(SkipBlanks(x)).value.value;
    AnyNameReads(name', name, w);
    var step := ReadHeader(h, doc).value;
    ReadingAppends(b, EndOfLine(step.rest).value, step.doc, step.header);
  }

  lemma HeaderStarts(b: Beyond, h: string, doc: Doc, header: seq<string>)
    requires h != "" && KeyChar(h[0]) && ReadDoc(b, "[" + h, doc, header).Some?
    ensures ReadKey(h).Some? && ReadKey(h).value.rest != "" && FitsTable(doc, ReadKey(h).value.value)
    ensures ReadHeader(h, doc)
      == Some(Step(doc + [Table(ReadKey(h).value.value)], ReadKey(h).value.value, ReadKey(h).value.rest[1..]))
    ensures var rest := EndOfLine(ReadKey(h).value.rest[1..]);
            rest.Some? && ReadDoc(b, "[" + h, doc, header)
              == ReadDoc(b, rest.value, doc + [Table(ReadKey(h).value.value)], ReadKey(h).value.value)
  {
    var s := "[" + h;
    assert s[1..] == h && s[1] == h[0];
    HeaderStatement(b, s, doc, header);
    StatementLine(b, s, doc, header);
    NoBlanksFirst(h);
  }

  lemma GroupedKey(group: string, x: string)
    requires BareKey(group)
    ensures ReadKey(group + ("." + x)) ==
      match ReadKey(SkipBlanks(x)) case None => None case Some(more) => Some(Read([group] + more.value, more.rest))
  {
    PartRead(group, "." + x);
    NoBlanksFirst("." + x);
    assert ("." + x)[1..] == x;
  }

  lemma AnyNameReads(name': string, name: string, w: string)
    requires Shrunk(name', name) && ReadKey(SkipBlanks(name' + ("]\n" + w))).Some?
    ensures var parts := ReadKey(SkipBlanks(name' + ("]\n" + w))).value.value;
            && parts != [] && (parts[0] == name ==> BareKey(name)) && (|parts| > 1 ==> '.' in name')
            && ('"' !in name' && '\'' !in name' ==> BareKey(parts[0]) && Occurs(parts[0], name'))
  {
    var tail := "]\n" + w;
    FirstPartOf(SkipBlanks(name' + tail));
    var parts := ReadKey(SkipBlanks(name' + tail)).value.value;
    if parts[0] == name {
      NoBlanksFirst(tail);
      PartIsPinned(name', name, tail);
    }
    if |parts| > 1 {
      DotIsInside(name', w);
    }
    if '"' !in name' && '\'' !in name' {
      UnquotedPartOccurs(name', w);
    }
  }
}
