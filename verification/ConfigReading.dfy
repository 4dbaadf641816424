/** Reading the written sections of a config, whatever text comes after them. */
module ConfigReading {
  import opened Wrappers
  import opened Dict
  import opened Seqs
  import opened Toml
  import opened TomlReader
  import opened TomlPinned
  import opened TomlLines
  import opened ConfigText
  import opened ConfigFields
  import Text

  // ---- Normalizing written text ----

  lemma {:induction false} NormalizedSplit(a: string, b: string)
    requires b == "" || b[0] != '\n' || a == "" || a[|a| - 1] != '\r'
    ensures Normalized(a + b) == Normalized(a) + Normalized(b)
  {
    if a == "" {
      assert a + b == b;
    } else {
      NormalizedSplit(a[1..], b);
      NormalizedStep(a, b);
    }
  }

  lemma NormalizedStep(a: string, b: string)
    requires a != "" && (|a| > 1 || b == "" || b[0] != '\n' || a[0] != '\r')
    requires Normalized(a[1..] + b) == Normalized(a[1..]) + Normalized(b)
    ensures Normalized(a + b) == Normalized(a) + Normalized(b)
  {
    RestOfConcat(a, b);
    assert |a| > 1 ==> (a + b)[1] == a[1];
    assert |a| == 1 && b != "" ==> (a + b)[1] == b[0];
    Associates([a[0]], Normalized(a[1..]), Normalized(b));
  }

  lemma {:induction false} NormalizedAsIs(s: string)
    requires '\r' !in s
    ensures Normalized(s) == s
  {
    if s != "" {
      NormalizedAsIs(s[1..]);
      assert s == [s[0]] + s[1..] && s[0] in s;
    }
  }

  lemma {:induction false} NormalizedHas(s: string)
    ensures forall c :: c in Normalized(s) ==> c in s
  {
    if s != "" {
      NormalizedHas(s[1..]);
      assert forall c :: c in s[1..] ==> c in s;
    }
  }

  lemma {:induction false} PrefixOfNormalized(part: string, s: string)
    requires part <= Normalized(s) && '\n' !in part
    ensures part <= s
  {
    if part != "" {
      assert part[0] in part && Normalized(s)[0] == part[0];
      if s[0] == '\r' && |s| > 1 && s[1] == '\n' {
        NormalizedStarts(s[1..]);
        assert false;
      } else {
        assert Normalized(s)[1..] == Normalized(s[1..]) && part[1..] <= Normalized(s)[1..];
        PrefixOfNormalized(part[1..], s[1..]);
      }
    }
  }

  lemma NormalizedStarts(s: string)
    requires s != "" && s[0] != '\r'
    ensures Normalized(s) != "" && Normalized(s)[0] == s[0]
  {
  }

  /** What occurs on one line of a normalized text occurs in the text. */
  lemma {:induction false} OccursInNormalized(part: string, s: string, a: string, c: string)
    requires Normalized(s) == a + (part + c) && '\n' !in part
    ensures Text.Contains(s, part)
  {
    if a == "" {
      assert part <= Normalized(s);
      PrefixOfNormalized(part, s);
    } else if s[0] == '\r' && |s| > 1 && s[1] == '\n' {
      OccursInNormalized(part, s[1..], a, c);
    } else {
      assert Normalized(s)[1..] == Normalized(s[1..]) && (a + (part + c))[1..] == a[1..] + (part + c);
      OccursInNormalized(part, s[1..], a[1..], c);
    }
  }

  lemma NormalizedQuoted(v: string)
    ensures Normalized(Quoted(v)) == Quoted(Normalized(v))
  {
    NormalizedSplit("\"" + v, "\"");
    NormalizedSplit("\"", v);
    NormalizedAsIs("\"");
  }

  /** One pair of an inline table and what follows it. */
  lemma NormalizedPair(k: string, v: string, rest: string)
    requires rest == "" || rest[0] != '\n'
    ensures Normalized(k + " = " + Quoted(v) + rest) == Normalized(k) + " = " + Quoted(Normalized(v)) + Normalized(rest)
  {
    NormalizedSplit(k + " = " + Quoted(v), rest);
    NormalizedSplit(k + " = ", Quoted(v));
    NormalizedSplit(k, " = ");
    NormalizedAsIs(" = ");
    NormalizedQuoted(v);
  }

  lemma {:induction false} NormalizedShowPairs(pairs: Dict<string>)
    ensures Normalized(ShowPairs(pairs)) == ShowPairs(NormalizedPairs(pairs))
  {
    if pairs != [] {
      var item, more := pairs[0], pairs[1..];
      var more' := NormalizedPairs(more);
      NormalizedShowPairs(more);
      assert NormalizedPairs(pairs)[1..] == more';
      var rest := if |pairs| == 1 then "" else ", " + ShowPairs(more);
      NormalizedPair(item.key, item.value, rest);
      if |pairs| > 1 {
        NormalizedSplit(", ", ShowPairs(more));
        NormalizedAsIs(", ");
      }
    }
  }

  lemma NormalizedShow(v: Value)
    requires !v.Other?
    ensures Normalized(ShowValue(v)) == ShowValue(NormalizedValue(v))
  {
    match v
    case Str(t) => NormalizedQuoted(t);
    case Int(n) =>
      DecimalRead(n);
      NormalizedAsIs(ShowValue(v));
    case Env(pairs) =>
      NormalizedShowPairs(pairs);
      NormalizedSplit("{ " + ShowPairs(pairs), " }");
      NormalizedSplit("{ ", ShowPairs(pairs));
      NormalizedAsIs("{ ");
      NormalizedAsIs(" }");
  }

  /** A written value does not end in a carriage return. */
  lemma ShownValueEnds(v: Value)
    requires !v.Other?
    ensures ShowValue(v) != "" && ShowValue(v)[|ShowValue(v)| - 1] != '\r'
  {
    if v.Int? {
      DecimalRead(v.number);
    }
  }

  lemma BareKeyAsIs(k: string)
    requires BareKey(k)
    ensures Normalized(k) == k
  {
    NormalizedAsIs(k);
  }

  lemma NormalizedPairLine(key: string, v: Value, w: string)
    requires BareKey(key) && !v.Other?
    ensures Normalized(Show(Pair(key, v)) + "\n" + w) == Show(Pair(key, NormalizedValue(v))) + "\n" + Normalized(w)
  {
    var shown := ShowValue(v);
    ShowPairLine(key, v, w);
    ShowPairLine(key, NormalizedValue(v), Normalized(w));
    NormalizedSplit(key, " = " + (shown + ("\n" + w)));
    BareKeyAsIs(key);
    NormalizedSplit(" = ", shown + ("\n" + w));
    NormalizedAsIs(" = ");
    ShownValueEnds(v);
    NormalizedSplit(shown, "\n" + w);
    NormalizedShow(v);
    NormalizedNewline(w);
  }

  lemma NormalizedNewline(w: string)
    ensures Normalized("\n" + w) == "\n" + Normalized(w)
  {
    assert ("\n" + w)[1..] == w;
  }

  lemma {:induction false} NormalizedGuarded(t: string)
    requires Guarded(t)
    ensures Guarded(Normalized(t))
  {
    if t != "" && !IsGuard(t[0]) {
      NormalizedGuarded(t[1..]);
      if !(t[0] == '\r' && |t| > 1 && t[1] == '\n') {
        assert ([t[0]] + Normalized(t[1..]))[1..] == Normalized(t[1..]);
      }
    }
  }

  // ---- Written lines are guarded ----

  ghost predicate BareLines(lines: seq<Line>) {
    forall i :: 0 <= i < |lines| && lines[i].Pair? ==> BareKey(lines[i].key)
  }

  lemma {:induction false} BareThenGuard(k: string, x: string)
    requires forall i :: 0 <= i < |k| ==> KeyChar(k[i])
    ensures Guarded(k + (" = " + x))
  {
    var s := k + (" = " + x);
    if k == "" {
      assert s[0] == ' ' && s[1..][0] == '=';
      assert Guarded(s[1..]);
    } else {
      BareThenGuard(k[1..], x);
      assert s[0] == k[0] && s[1..] == k[1..] + (" = " + x);
    }
  }

  lemma {:induction false} EndedIsGuarded(lines: seq<Line>)
    requires BareLines(lines)
    ensures Guarded(Ended(lines))
  {
    if lines != [] {
      var first, rest := lines[0], lines[1..];
      assert lines == [first] + rest;
      EndedConcat([first], rest);
      EndedOne(first);
      EndedIsGuarded(rest);
      var s := Show(first) + "\n" + Ended(rest);
      match first
      case Blank => assert s[1..] == Ended(rest);
      case Header(path) => assert s[0] == '[';
      case Pair(key, v) =>
        ShowPairLine(key, v, Ended(rest));
        BareThenGuard(key, ShowValue(v) + ("\n" + Ended(rest)));
    }
  }

  // ---- Sections ----

  function PairItems(header: seq<string>, pairs: Dict<Value>): (items: Doc)
    ensures |items| == |pairs| && forall i :: 0 <= i < |pairs| ==>
      items[i] == Set(header + [pairs[i].key], pairs[i].value)
  {
    seq(|pairs|, i requires 0 <= i < |pairs| => Set(header + [pairs[i].key], pairs[i].value))
  }

  lemma PairItemsFirst(header: seq<string>, item: Item<Value>, more: Dict<Value>)
    ensures PairItems(header, [item] + more) == [Set(header + [item.key], item.value)] + PairItems(header, more)
  {
  }

  lemma MoreItems(doc: Doc, header: seq<string>, item: Item<Value>, more: Dict<Value>)
    ensures (doc + [Set(header + [item.key], item.value)]) + PairItems(header, more)
      == doc + PairItems(header, [item] + more)
  {
    PairItemsFirst(header, item, more);
    Associates(doc, [Set(header + [item.key], item.value)], PairItems(header, more));
  }

  lemma NoPairs(doc: Doc, header: seq<string>, w: string)
    ensures Ended(PairLines([])) + w == w && doc + PairItems(header, []) == doc
  {
  }

  lemma AllPlainFirst(item: Item<Value>, more: Dict<Value>)
    requires PlainValue(item.value) && AllPlain(more)
    ensures AllPlain([item] + more)
  {
  }

  lemma EndedPairFirst(item: Item<Value>, more: Dict<Value>, w: string)
    ensures Ended(PairLines([item] + more)) + w
      == Show(Pair(item.key, item.value)) + "\n" + (Ended(PairLines(more)) + w)
  {
    var line := Pair(item.key, item.value);
    assert PairLines([item] + more) == [line] + PairLines(more);
    EndedConcat([line], PairLines(more));
    EndedOne(line);
    Associates(Show(line) + "\n", Ended(PairLines(more)), w);
  }

  /** None of the pairs' places under the header is taken. */
  ghost predicate PlacesFree(doc: Doc, header: seq<string>, pairs: Dict<Value>) {
    forall i :: 0 <= i < |pairs| ==> FitsSet(doc, header + [pairs[i].key])
  }

  lemma PlacesStayFree(doc: Doc, header: seq<string>, item: Item<Value>, more: Dict<Value>)
    requires PlacesFree(doc, header, more) && UniqueKeys([item] + more)
    ensures PlacesFree(doc + [Set(header + [item.key], item.value)], header, more)
  {
    var doc' := doc + [Set(header + [item.key], item.value)];
    forall i | 0 <= i < |more|
      ensures FitsSet(doc', header + [more[i].key])
    {
      assert ([item] + more)[i + 1].key != ([item] + more)[0].key;
      SiblingsApart(header, item.key, more[i].key);
      assert FitsSet(doc, header + [more[i].key]);
    }
  }

  lemma SiblingsApart(header: seq<string>, a: string, b: string)
    requires a != b
    ensures !(header + [a] <= header + [b]) && !(header + [b] <= header + [a])
  {
    assert (header + [a])[|header|] == a && (header + [b])[|header|] == b;
  }

  lemma GoodRest(item: Item<Value>, more: Dict<Value>)
    requires GoodPairs([item] + more)
    ensures GoodPairs(more) && BareKey(item.key) && Writable(item.value)
  {
    var all := [item] + more;
    assert all[0] == item;
    forall i | 0 <= i < |more|
      ensures BareKey(more[i].key) && Writable(more[i].value)
    {
      assert all[i + 1] == more[i];
    }
    forall i, j | 0 <= i < j < |more|
      ensures more[i].key != more[j].key
    {
      assert all[i + 1] == more[i] && all[j + 1] == more[j];
    }
  }

  /** Plain pair lines are read one by one. */
  lemma {:induction false} PairLinesRead(b: Beyond, pairs: Dict<Value>, w: string, doc: Doc, header: seq<string>)
    requires GoodPairs(pairs) && AllPlain(pairs) && PlacesFree(doc, header, pairs)
    ensures ReadDoc(b, Ended(PairLines(pairs)) + w, doc, header)
      == ReadDoc(b, w, doc + PairItems(header, pairs), header)
    decreases |pairs|
  {
    if pairs == [] {
      NoPairs(doc, header, w);
    } else {
      var item, more := pairs[0], pairs[1..];
      SplitFirst(pairs);
      GoodRest(item, more);
      EndedPairFirst(item, more, w);
      PairLineRead(b, item.key, item.value, Ended(PairLines(more)) + w, doc, header);
      PlacesStayFree(doc, header, item, more);
      MoreItems(doc, header, item, more);
      PairLinesRead(b, more, w, doc + [Set(header + [item.key], item.value)], header);
    }
  }

  // ---- What a document says, piece by piece ----

  lemma {:induction false} ValueAtConcat(a: Doc, c: Doc, path: seq<string>)
    ensures ValueAt(a + c, path) == if ValueAt(a, path).Some? then ValueAt(a, path) else ValueAt(c, path)
  {
    if c == [] {
      assert a + c == a;
    } else {
      ValueAtConcat(a, c[..|c| - 1], path);
      assert (a + c)[..|a + c| - 1] == a + c[..|c| - 1];
    }
  }

  lemma ValueAtOne(x: DocItem, path: seq<string>)
    ensures ValueAt([x], path) == if x.Set? && x.path == path then Some(x.value) else None
  {
    assert [x][..0] == [];
  }

  lemma {:induction false} ValueAtNone(doc: Doc, path: seq<string>)
    requires forall i :: 0 <= i < |doc| ==> doc[i].Set? ==> doc[i].path != path
    ensures ValueAt(doc, path) == None
  {
    if doc != [] {
      ValueAtNone(doc[..|doc| - 1], path);
    }
  }

  /** The place of a value that fits is empty. */
  lemma FitsMeansEmpty(doc: Doc, path: seq<string>)
    requires FitsSet(doc, path)
    ensures ValueAt(doc, path) == None
  {
    ValueAtNone(doc, path);
  }

  // ---- Sections that come back as written are plain ----

  /** The final document gives each pair that is not plain the value that was written. */
  ghost predicate ComesBack(d: Doc, header: seq<string>, pairs: Dict<Value>) {
    forall i :: 0 <= i < |pairs| ==>
        PlainValue(pairs[i].value) || ValueAt(d, header + [pairs[i].key]) == Some(pairs[i].value)
  }

  /** The first value set at a place is the one the document gives it. */
  lemma FirstSetStays(doc: Doc, d: Doc, path: seq<string>)
    requires |d| > |doc| && d[..|doc|] == doc && ValueAt(doc, path) == None
    requires d[|doc|].Set? && d[|doc|].path == path
    ensures ValueAt(d, path) == Some(d[|doc|].value)
  {
    var x, more := d[|doc|], d[|doc| + 1..];
    SplitAfter(doc, d);
    ValueAtConcat(doc, [x] + more, path);
    ValueAtConcat([x], more, path);
    ValueAtOne(x, path);
  }

  /** The first pair line is plain, was read as it stands, and the rest is read after it. */
  lemma FirstLineIsPinned(b: Beyond, item: Item<Value>, w: string, doc: Doc, header: seq<string>, d: Doc)
    requires BareKey(item.key) && Writable(item.value) && Guarded(w)
    requires ValueAt(doc, header + [item.key]) == None
    requires ReadDoc(b, Normalized(Show(Pair(item.key, item.value)) + "\n" + w), doc, header) == Some(d)
    requires PlainValue(item.value) || ValueAt(d, header + [item.key]) == Some(item.value)
    ensures PlainValue(item.value) && FitsSet(doc, header + [item.key])
    ensures ReadDoc(b, Normalized(w), doc + [Set(header + [item.key], item.value)], header) == Some(d)
  {
    var path := header + [item.key];
    NormalizedPairLine(item.key, item.value, w);
    NormalizedGuarded(w);
    PairLineIsPinned(b, item.key, item.value, Normalized(w), doc, header);
    FirstSetStays(doc, d, path);
    PlainAsIs(item.value);
    PairLineRead(b, item.key, item.value, Normalized(w), doc, header);
  }

  /** Plain values have no carriage return to normalize. */
  lemma PlainAsIs(v: Value)
    requires PlainValue(v)
    ensures NormalizedValue(v) == v
  {
    match v
    case Str(t) => NormalizedAsIs(t);
    case Env(pairs) => PlainPairsAsIs(pairs);
    case Int(_) =>
  }

  lemma {:induction false} PlainPairsAsIs(pairs: Dict<string>)
    requires PlainPairs(pairs)
    ensures NormalizedPairs(pairs) == pairs
  {
    if pairs != [] {
      BareKeyAsIs(pairs[0].key);
      NormalizedAsIs(pairs[0].value);
      PlainPairsAsIs(pairs[1..]);
      assert pairs == [pairs[0]] + pairs[1..];
    }
  }

  ghost predicate AllEmpty(doc: Doc, header: seq<string>, pairs: Dict<Value>) {
    forall i :: 0 <= i < |pairs| ==> ValueAt(doc, header + [pairs[i].key]) == None
  }

  lemma RestComesBack(d: Doc, header: seq<string>, item: Item<Value>, more: Dict<Value>)
    requires ComesBack(d, header, [item] + more)
    ensures PlainValue(item.value) || ValueAt(d, header + [item.key]) == Some(item.value)
    ensures ComesBack(d, header, more)
  {
    var all := [item] + more;
    assert all[0] == item;
    forall i | 0 <= i < |more|
      ensures PlainValue(more[i].value) || ValueAt(d, header + [more[i].key]) == Some(more[i].value)
    {
      assert all[i + 1] == more[i];
    }
  }

  /** One pair line off the front. */
  lemma OneLineIsPinned(b: Beyond, item: Item<Value>, more: Dict<Value>, w: string, doc: Doc, header: seq<string>,
      d: Doc)
    requires GoodPairs([item] + more) && Guarded(w) && AllEmpty(doc, header, [item] + more)
    requires ReadDoc(b, Normalized(Ended(PairLines([item] + more)) + w), doc, header) == Some(d)
    requires ComesBack(d, header, [item] + more)
    ensures GoodPairs(more) && ComesBack(d, header, more) && PlainValue(item.value)
    ensures AllEmpty(doc + [Set(header + [item.key], item.value)], header, more)
    ensures ReadDoc(b, Normalized(Ended(PairLines(more)) + w), doc + [Set(header + [item.key], item.value)], header)
      == Some(d)
  {
    assert ([item] + more)[0] == item;
    GoodRest(item, more);
    RestComesBack(d, header, item, more);
    EndedPairFirst(item, more, w);
    LinesThenGuarded(more, w);
    FirstLineIsPinned(b, item, Ended(PairLines(more)) + w, doc, header, d);
    StillEmpty(doc, header, item, more);
  }

  lemma {:induction false} PairLinesArePinned(b: Beyond, pairs: Dict<Value>, w: string, doc: Doc, header: seq<string>,
      d: Doc)
    requires GoodPairs(pairs) && Guarded(w) && AllEmpty(doc, header, pairs)
    requires ReadDoc(b, Normalized(Ended(PairLines(pairs)) + w), doc, header) == Some(d)
    requires ComesBack(d, header, pairs)
    ensures AllPlain(pairs)
    ensures ReadDoc(b, Normalized(w), doc + PairItems(header, pairs), header) == Some(d)
    decreases |pairs|
  {
    if pairs == [] {
      NoPairs(doc, header, w);
    } else {
      var item, more := pairs[0], pairs[1..];
      SplitFirst(pairs);
      OneLineIsPinned(b, item, more, w, doc, header, d);
      MoreItems(doc, header, item, more);
      PairLinesArePinned(b, more, w, doc + [Set(header + [item.key], item.value)], header, d);
      AllPlainFirst(item, more);
    }
  }

  lemma {:induction false} LinesThenGuarded(pairs: Dict<Value>, w: string)
    requires GoodPairs(pairs) && Guarded(w)
    ensures Guarded(Ended(PairLines(pairs)) + w)
  {
    if pairs == [] {
      assert Ended(PairLines(pairs)) + w == w;
    } else {
      var item, more := pairs[0], pairs[1..];
      assert pairs == [item] + more;
      GoodRest(item, more);
      EndedPairFirst(item, more, w);
      ShowPairLine(item.key, item.value, Ended(PairLines(more)) + w);
      BareThenGuard(item.key, ShowValue(item.value) + ("\n" + (Ended(PairLines(more)) + w)));
    }
  }

  lemma StillEmpty(doc: Doc, header: seq<string>, item: Item<Value>, more: Dict<Value>)
    requires UniqueKeys([item] + more)
    requires AllEmpty(doc, header, [item] + more)
    ensures AllEmpty(doc + [Set(header + [item.key], item.value)], header, more)
  {
    var placed := Set(header + [item.key], item.value);
    forall i | 0 <= i < |more|
      ensures ValueAt(doc + [placed], header + [more[i].key]) == None
    {
      assert ([item] + more)[i + 1].key != ([item] + more)[0].key;
      assert ValueAt(doc, header + [([item] + more)[i + 1].key]) == None;
      SiblingsApart(header, item.key, more[i].key);
      ValueAtConcat(doc, [placed], header + [more[i].key]);
      ValueAtOne(placed, header + [more[i].key]);
    }
  }
}
