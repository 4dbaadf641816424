/**
 * The names of the servers read from a config whose strings hold no newline. Whatever the strings make
 * of the lines, each header line brings up one server at most, so all the names come back only if each
 * header was read as it was meant.
 */
module ConfigNames {
  import opened Wrappers
  import opened Dict
  import opened Seqs
  import opened Toml
  import opened TomlReader
  import opened TomlLines
  import opened TomlSteps
  import opened ConfigText
  import opened ConfigDecoding

  // ---- Lines of a config ----

  predicate IsServerHeader(line: Line) {
    line.Header? && |line.path| == 2 && line.path[0] == "servers"
  }

  /** A line that a config is written with, on one line of the text. */
  ghost predicate ConfigLine(line: Line) {
    && '\n' !in Show(line)
    && match line
       case Blank => true
       case Header(path) => path == ["settings"] || IsServerHeader(line)
       case Pair(key, v) => BareKey(key) && Writable(v)
  }

  ghost predicate AllConfigLines(lines: seq<Line>) {
    forall line :: line in lines ==> ConfigLine(line)
  }

  /** The servers the header lines name. */
  function HeaderNames(lines: seq<Line>): seq<string> {
    if lines == [] then []
    else (if IsServerHeader(lines[0]) then [lines[0].path[1]] else []) + HeaderNames(lines[1..])
  }

  lemma {:induction false} HeaderNamesConcat(a: seq<Line>, c: seq<Line>)
    ensures HeaderNames(a + c) == HeaderNames(a) + HeaderNames(c)
  {
    if a == [] {
      assert a + c == c;
    } else {
      HeaderNamesConcat(a[1..], c);
      RestOfConcat(a, c);
      Associates(if IsServerHeader(a[0]) then [a[0].path[1]] else [], HeaderNames(a[1..]), HeaderNames(c));
    }
  }

  // ---- One line ----

  /** Keys go under the settings, or under a server that has come up. */
  ghost predicate InTable(header: seq<string>, names: seq<string>) {
    header != [] && (header[0] == "servers" ==> |header| >= 2 && header[1] in names)
  }

  lemma NamesAfter(doc: Doc, x: DocItem)
    ensures ServerNames(doc + [x]) == AddName(ServerNames(doc), x.path)
  {
    NamesFromConcat([], doc, [x]);
    assert [x][1..] == [];
  }

  /** A pair line brings up no server, whatever its value turns out to be. */
  lemma PairLineStep(b: Beyond, key: string, v: Value, lines: seq<Line>, doc: Doc, header: seq<string>, d: Doc)
    returns (j: nat, doc': Doc)
    requires BareKey(key) && Writable(v) && AllConfigLines([Pair(key, v)] + lines)
    requires InTable(header, ServerNames(doc))
    requires ReadDoc(b, Show(Pair(key, v)) + "\n" + Ended(lines), doc, header) == Some(d)
    ensures j <= |lines| && ServerNames(doc') == ServerNames(doc)
    ensures ReadDoc(b, Ended(lines[j..]), doc', header) == Some(d)
  {
    var w := Ended(lines);
    var x := ShowValue(v) + ("\n" + w);
    ShowPairLine(key, v, w);
    ShownValueStarts(v);
    PairLineStarts(b, key, x, doc, header);
    StatementLine(b, key + (" = " + x), doc, header);
    var r := ReadValue(b, x).value;
    SimpleKeyAdds(doc, header, key, r.value);
    doc' := doc + [Set(header + [key], r.value)];
    PairAddsNoName(doc, header, key, r.value);
    ValueSuffix(b, x);
    EndOfLineEnds(r.rest);
    var u := EndOfLine(r.rest).value;
    LineStartFurther(u, r.rest, x);
    assert key + (" = " + x) == (key + " = ") + x;
    LineStartFurther(u, x, key + (" = " + x));
    j := PairLineLeft(key, v, lines, u);
  }

  lemma PairAddsNoName(doc: Doc, header: seq<string>, key: string, v: Value)
    requires InTable(header, ServerNames(doc))
    ensures ServerNames(doc + [Set(header + [key], v)]) == ServerNames(doc)
  {
    NamesAfter(doc, Set(header + [key], v));
    assert (header + [key])[0] == header[0];
    assert |header| >= 2 ==> (header + [key])[1] == header[1];
  }

  lemma PairLineLeft(key: string, v: Value, lines: seq<Line>, u: string) returns (j: nat)
    requires AllConfigLines([Pair(key, v)] + lines)
    requires LineStart(u, key + (" = " + (ShowValue(v) + ("\n" + Ended(lines)))))
    ensures j <= |lines| && u == Ended(lines[j..])
  {
    ShowPairLine(key, v, Ended(lines));
    j := LinesLeftAfter(Pair(key, v), lines, u);
  }

  lemma LinesLeftAfter(line: Line, lines: seq<Line>, u: string) returns (j: nat)
    requires AllConfigLines([line] + lines) && LineStart(u, Show(line) + "\n" + Ended(lines))
    ensures j <= |lines| && u == Ended(lines[j..])
  {
    var all := [line] + lines;
    EndedConcat([line], lines);
    EndedOne(line);
    OnOneLine(all);
    var k := LinesLeft(all, u);
    j := k - 1;
    assert all[k..] == lines[j..];
  }

  lemma OnOneLine(lines: seq<Line>)
    requires AllConfigLines(lines)
    ensures forall i :: 0 <= i < |lines| ==> '\n' !in Show(lines[i])
  {
    forall i | 0 <= i < |lines|
      ensures '\n' !in Show(lines[i])
    {
      assert lines[i] in lines;
    }
  }

  /** A server's header brings up one server at most; it brings up the one it names only if the name is bare. */
  lemma HeaderLineStep(b: Beyond, n: string, w: string, doc: Doc, header: seq<string>, d: Doc)
      returns (doc': Doc, header': seq<string>)
    requires '\n' !in n
    requires ReadDoc(b, Show(Header(ServerPath(n))) + "\n" + w, doc, header) == Some(d)
    ensures ReadDoc(b, w, doc', header') == Some(d) && InTable(header', ServerNames(doc'))
    ensures ServerNames(doc') == ServerNames(doc) || BroughtUp(ServerNames(doc), n, ServerNames(doc'))
  {
    assert BareKey("servers");
    var p := NamedHeaderRead(b, "servers", n, w, doc, header);
    doc', header' := doc + [Table(p)], p;
    NamesAfter(doc, Table(p));
    if p[1] !in ServerNames(doc) {
      assert ServerNames(doc') == ServerNames(doc) + [p[1]];
    }
  }

  /** One name has come up; if it is `n`, then `n` is bare. */
  ghost predicate BroughtUp(before: seq<string>, n: string, after: seq<string>) {
    exists m :: after == before + [m] && (m == n ==> BareKey(n))
  }

  lemma SettingsLineStep(b: Beyond, w: string, doc: Doc, header: seq<string>, d: Doc)
    requires ReadDoc(b, Show(Header(["settings"])) + "\n" + w, doc, header) == Some(d)
    ensures ReadDoc(b, w, doc + [Table(["settings"])], ["settings"]) == Some(d)
    ensures ServerNames(doc + [Table(["settings"])]) == ServerNames(doc)
  {
    assert BareKey("settings") && "settings" != "servers";
    HeaderLineRead(b, ["settings"], w, doc, header);
    NamesAfter(doc, Table(["settings"]));
  }

  /** What reading one line, and whatever of the next ones a string on it swallows, does to the names. */
  lemma LineStep(b: Beyond, line: Line, lines: seq<Line>, doc: Doc, header: seq<string>, d: Doc)
    returns (j: nat, doc': Doc, header': seq<string>)
    requires AllConfigLines([line] + lines) && ConfigLine(line) && InTable(header, ServerNames(doc))
    requires ReadDoc(b, Ended([line] + lines), doc, header) == Some(d)
    ensures j <= |lines| && ReadDoc(b, Ended(lines[j..]), doc', header') == Some(d)
      && InTable(header', ServerNames(doc'))
    ensures ServerNames(doc') == ServerNames(doc)
         || (IsServerHeader(line) && j == 0 && BroughtUp(ServerNames(doc), line.path[1], ServerNames(doc')))
  {
    EndedConcat([line], lines);
    EndedOne(line);
    assert lines[0..] == lines;
    match line
    case Blank =>
      BlankLineRead(b, Ended(lines), doc, header);
      j, doc', header' := 0, doc, header;
    case Pair(key, v) =>
      header' := header;
      j, doc' := PairLineStep(b, key, v, lines, doc, header, d);
    case Header(path) =>
      j := 0;
      if path == ["settings"] {
        SettingsLineStep(b, Ended(lines), doc, header, d);
        doc', header' := doc + [Table(["settings"])], ["settings"];
        assert "settings" != "servers";
      } else {
        assert path == ServerPath(path[1]);
        NameOnLine(path[1]);
        doc', header' := HeaderLineStep(b, path[1], Ended(lines), doc, header, d);
      }
  }

  lemma NameOnLine(n: string)
    requires '\n' !in Show(Header(ServerPath(n)))
    ensures '\n' !in n
  {
    assert ServerPath(n)[1..] == [n];
    var d := "servers" + "." + n;
    assert Dotted(ServerPath(n)) == d && Show(Header(ServerPath(n))) == "[" + d + "]";
    assert '\n' in n ==> '\n' in d;
    assert '\n' in d ==> '\n' in "[" + d + "]";
  }

  // ---- All lines ----

  lemma LinesFrom(line: Line, lines: seq<Line>, j: nat)
    requires AllConfigLines([line] + lines) && j <= |lines|
    ensures AllConfigLines(lines[j..]) && ConfigLine(line)
    ensures exists front :: HeaderNames(lines) == front + HeaderNames(lines[j..])
  {
    assert line in [line] + lines;
    forall l | l in lines[j..]
      ensures ConfigLine(l)
    {
      assert l in [line] + lines;
    }
    HeaderNamesConcat(lines[..j], lines[j..]);
    assert lines == lines[..j] + lines[j..];
  }

  /** Reading on brings up no more servers than there are headers. */
  lemma {:induction false} NamesGrow(b: Beyond, lines: seq<Line>, doc: Doc, header: seq<string>, d: Doc)
    requires AllConfigLines(lines) && InTable(header, ServerNames(doc))
    requires ReadDoc(b, Ended(lines), doc, header) == Some(d)
    ensures ServerNames(doc) <= ServerNames(d) && |ServerNames(d)| <= |ServerNames(doc)| + |HeaderNames(lines)|
    decreases |lines|
  {
    if lines == [] {
      assert Ended(lines) == "";
    } else {
      var line, rest := lines[0], lines[1..];
      assert lines == [line] + rest;
      var j, doc', header' := LineStep(b, line, rest, doc, header, d);
      LinesFrom(line, rest, j);
      NamesGrow(b, rest[j..], doc', header', d);
    }
  }

  /** All the names come back only if every one of them is bare. */
  lemma {:induction false} NamesAreBare(b: Beyond, lines: seq<Line>, doc: Doc, header: seq<string>, d: Doc)
    requires AllConfigLines(lines) && InTable(header, ServerNames(doc))
    requires ReadDoc(b, Ended(lines), doc, header) == Some(d)
    requires ServerNames(d) == ServerNames(doc) + HeaderNames(lines)
    ensures forall n :: n in HeaderNames(lines) ==> BareKey(n)
    decreases |lines|
  {
    if lines != [] {
      var line, rest := lines[0], lines[1..];
      assert lines == [line] + rest;
      var j, doc', header' := LineStep(b, line, rest, doc, header, d);
      LinesFrom(line, rest, j);
      NamesGrow(b, rest[j..], doc', header', d);
      NamesAccounted(line, rest, j, ServerNames(doc), ServerNames(doc'), ServerNames(d));
      NamesAreBare(b, rest[j..], doc', header', d);
    }
  }

  /** When all the names of the headers come up, the line's own has, and the swallowed lines held none. */
  lemma NamesAccounted(line: Line, rest: seq<Line>, j: nat, before: seq<string>, after: seq<string>, all: seq<string>)
    requires j <= |rest| && all == before + HeaderNames([line] + rest)
    requires exists front :: HeaderNames(rest) == front + HeaderNames(rest[j..])
    requires after == before || (IsServerHeader(line) && j == 0 && BroughtUp(before, line.path[1], after))
    requires after <= all && |all| <= |after| + |HeaderNames(rest[j..])|
    ensures all == after + HeaderNames(rest[j..])
    ensures IsServerHeader(line) ==> BareKey(line.path[1])
    ensures HeaderNames([line] + rest) == (if IsServerHeader(line) then [line.path[1]] else []) + HeaderNames(rest[j..])
  {
    assert ([line] + rest)[1..] == rest;
    var front :| HeaderNames(rest) == front + HeaderNames(rest[j..]);
    if IsServerHeader(line) {
      SplitStart(rest, j);
      HeaderAccounted(before, line.path[1], HeaderNames(rest), after, all);
    } else {
      assert HeaderNames([line] + rest) == HeaderNames(rest) by {
        EmptyFirst(HeaderNames(rest));
      }
      FrontAccounted(before, front, HeaderNames(rest[j..]), all);
      EmptyFirst(HeaderNames(rest[j..]));
    }
  }

  lemma SplitStart<T>(s: seq<T>, j: nat)
    ensures j == 0 ==> s[j..] == s
  {
  }

  lemma HeaderAccounted(before: seq<string>, n: string, rest: seq<string>, after: seq<string>, all: seq<string>)
    requires all == before + ([n] + rest) && |all| <= |after| + |rest| && after <= all
    requires after == before || BroughtUp(before, n, after)
    ensures all == after + rest && BareKey(n)
  {
    assert after != before;
    var m :| after == before + [m] && (m == n ==> BareKey(n));
    assert after[|before|] == all[|before|] == n;
    Associates(before, [n], rest);
  }

  lemma FrontAccounted<T>(before: seq<T>, front: seq<T>, rest: seq<T>, all: seq<T>)
    requires all == before + (front + rest) && |all| <= |before| + |rest|
    ensures front == [] && all == before + rest
  {
    assert |all| == |before| + |front| + |rest|;
  }
}
