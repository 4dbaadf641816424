/** Reading goes forward only: what is left is always the back of the text, and after a line the front of another. */
module TomlSteps {
  import opened Wrappers
  import opened Dict
  import opened Seqs
  import opened Toml
  import opened TomlReader
  import opened TomlPinned
  import opened TomlLines

  ghost predicate Suffix(u: string, s: string) {
    exists a: string :: s == a + u
  }

  lemma SuffixTransitive(u: string, t: string, s: string)
    requires Suffix(u, t) && Suffix(t, s)
    ensures Suffix(u, s)
  {
    var a: string :| t == a + u;
    var c: string :| s == c + t;
    Associates(c, a, u);
  }

  lemma BlanksSuffix(s: string)
    ensures Suffix(SkipBlanks(s), s)
  {
    var used := BlanksHaveNoGuards(s);
  }

  lemma KeySuffix(s: string)
    requires ReadKey(s).Some?
    ensures Suffix(ReadKey(s).value.rest, s)
  {
    var used := KeyStaysOnLine(s);
  }

  lemma StringSuffix(s: string)
    requires s != "" && s[0] == '"' && ReadString(s).Some?
    ensures Suffix(ReadString(s).value.rest, s)
  {
    var used := StringFacts(s);
  }

  lemma DropSuffix(s: string)
    requires s != ""
    ensures Suffix(s[1..], s)
  {
    assert s == [s[0]] + s[1..];
  }

  /** What follows one character and the blanks after it. */
  lemma TailSuffix(s: string)
    requires s != ""
    ensures Suffix(SkipBlanks(s[1..]), s)
  {
    DropSuffix(s);
    BlanksSuffix(s[1..]);
    SuffixTransitive(SkipBlanks(s[1..]), s[1..], s);
  }

  lemma {:induction false} ValueSuffix(b: Beyond, s: string)
    requires ReadValue(b, s).Some?
    ensures Suffix(ReadValue(b, s).value.rest, s)
    decreases |s|, 1
  {
    if s[0] == '"' {
      StringSuffix(s);
    } else if s[0] == '{' {
      var t := SkipBlanks(s[1..]);
      TailSuffix(s);
      if t != "" && t[0] == '}' {
        DropSuffix(t);
      } else {
        PairsSuffix(b, t, Some([]));
      }
      SuffixTransitive(ReadValue(b, s).value.rest, t, s);
    } else if Decimal(s[..WordLength(s)]).Some? {
      assert s == s[..WordLength(s)] + s[WordLength(s)..];
    } else {
      var n := b.value(s).value.length;
      assert s == s[..n] + s[n..];
    }
  }

  lemma {:induction false} PairsSuffix(b: Beyond, s: string, sofar: Option<Dict<string>>)
    requires ReadPairs(b, s, sofar).Some?
    ensures Suffix(ReadPairs(b, s, sofar).value.rest, s)
    decreases |s|, 0
  {
    var key := ReadKey(s).value;
    var x := SkipBlanks(key.rest[1..]);
    var v := ReadValue(b, x).value;
    var t, more := SkipBlanks(v.rest), OneMore(sofar, key.value, v.value);
    ValueSuffix(b, x);
    PairSuffix(s, key.rest, x, v.rest);
    if t[0] == ',' {
      PairsSuffix(b, SkipBlanks(t[1..]), more);
      TailSuffix(t);
      SuffixTransitive(ReadPairs(b, s, sofar).value.rest, SkipBlanks(t[1..]), t);
    } else {
      DropSuffix(t);
    }
    SuffixTransitive(ReadPairs(b, s, sofar).value.rest, t, s);
  }

  /** What follows a key, an equals sign, a value and blanks. */
  lemma PairSuffix(s: string, rest: string, x: string, after: string)
    requires ReadKey(s).Some? && ReadKey(s).value.rest == rest && rest != "" && x == SkipBlanks(rest[1..])
    requires Suffix(after, x)
    ensures Suffix(SkipBlanks(after), s)
  {
    KeySuffix(s);
    TailSuffix(rest);
    SuffixTransitive(x, rest, s);
    SuffixTransitive(after, x, s);
    BlanksSuffix(after);
    SuffixTransitive(SkipBlanks(after), after, s);
  }

  // ---- Line ends ----

  /** `u` is what is left of `s` after one of its newlines, or nothing. */
  ghost predicate LineStart(u: string, s: string) {
    u == "" || Suffix("\n" + u, s)
  }

  lemma LineStartFurther(u: string, t: string, s: string)
    requires LineStart(u, t) && Suffix(t, s)
    ensures LineStart(u, s)
  {
    if u != "" {
      SuffixTransitive("\n" + u, t, s);
    }
  }

  lemma NewlineStarts(s: string)
    requires s != "" && s[0] == '\n'
    ensures LineStart(s[1..], s)
  {
    assert s == "" + ("\n" + s[1..]);
  }

  lemma {:induction false} CommentEnds(s: string)
    requires SkipComment(s).Some?
    ensures LineStart(SkipComment(s).value, s)
  {
    if s != "" && s[0] == '\n' {
      NewlineStarts(s);
    } else if s != "" {
      CommentEnds(s[1..]);
      DropSuffix(s);
      LineStartFurther(SkipComment(s).value, s[1..], s);
    }
  }

  lemma EndOfLineEnds(s: string)
    requires EndOfLine(s).Some?
    ensures LineStart(EndOfLine(s).value, s)
  {
    var t := SkipBlanks(s);
    BlanksSuffix(s);
    if t != "" {
      if t[0] == '#' {
        CommentEnds(t[1..]);
        DropSuffix(t);
        LineStartFurther(EndOfLine(s).value, t[1..], t);
      } else {
        NewlineStarts(t);
      }
      LineStartFurther(EndOfLine(s).value, t, s);
    }
  }

  /** What is left after some newline of written lines is the text of the last of them. */
  lemma {:induction false} LinesLeft(lines: seq<Line>, u: string) returns (j: nat)
    requires forall i :: 0 <= i < |lines| ==> '\n' !in Show(lines[i])
    requires LineStart(u, Ended(lines))
    ensures j <= |lines| && u == Ended(lines[j..]) && (lines != [] ==> j > 0)
  {
    j := 0;
    if lines == [] {
      assert Ended(lines) == "" && lines[0..] == lines;
    } else if u == "" {
      j := |lines|;
      assert lines[j..] == [] && Ended([]) == "";
    } else {
      var first, rest := lines[0], lines[1..];
      assert lines == [first] + rest;
      EndedConcat([first], rest);
      EndedOne(first);
      var line, text := Show(first) + "\n", Ended(rest);
      AfterFirstLine(Show(first), text, u);
      if u == text {
        j := 1;
      } else {
        var k := LinesLeft(rest, u);
        j := k + 1;
        assert rest[k..] == lines[j..];
      }
    }
  }

  lemma AfterFirstLine(line: string, text: string, u: string)
    requires '\n' !in line && u != "" && LineStart(u, line + "\n" + text)
    ensures u == text || LineStart(u, text)
  {
    var s := line + "\n" + text;
    var a: string :| s == a + ("\n" + u);
    assert s[|a|] == '\n' && s[|a| + 1..] == u;
    assert forall k :: 0 <= k < |line| ==> s[k] == line[k] && line[k] in line;
    if |a| == |line| {
      assert s[|line| + 1..] == text;
    } else {
      var c := a[|line| + 1..];
      assert s[|line| + 1..] == text && s[|line| + 1..] == c + ("\n" + u);
    }
  }
}
