/**
 * What reading can make of a written string or key. Reading never makes a text longer, and it never
 * loses one of the characters that hold a document together; so a string or key that is read back
 * as itself, whatever follows it, was plain.
 */
module TomlPinned {
  import opened Wrappers
  import opened Dict
  import opened Toml
  import opened TomlReader

  // ---- Guards ----

  /** The characters that hold a document together; no escape is written with one. */
  predicate IsGuard(c: char) {
    c == '=' || c == ',' || c == '[' || c == ']' || c == '}'
  }

  function Guards(s: string): nat {
    if s == "" then 0 else (if IsGuard(s[0]) then 1 else 0) + Guards(s[1..])
  }

  lemma {:induction false} GuardsConcat(a: string, b: string)
    ensures Guards(a + b) == Guards(a) + Guards(b)
  {
    if a == "" {
      assert a + b == b;
    } else {
      GuardsConcat(a[1..], b);
      assert (a + b)[1..] == a[1..] + b;
    }
  }

  predicate IsQuote(c: char) {
    c == '"' || c == '\''
  }

  /** Before any quote there is a guard. */
  predicate Guarded(t: string) {
    t == "" || IsGuard(t[0]) || (!IsQuote(t[0]) && Guarded(t[1..]))
  }

  /** What is read of a guarded text up to a quote holds a guard. */
  lemma {:induction false} QuoteMeetsGuard(t: string, a: string)
    requires Guarded(t) && a <= t && a != "" && IsQuote(a[|a| - 1])
    ensures Guards(a) >= 1
  {
    assert a[0] == t[0];
    if !IsGuard(t[0]) {
      assert |a| > 1;
      QuoteMeetsGuard(t[1..], a[1..]);
    }
  }

  /** `v'` is what normalizing line ends made of `v`: no longer, and with the same guards. */
  predicate Shrunk(v': string, v: string) {
    |v'| <= |v| && Guards(v') == Guards(v)
  }

  // ---- Facts about one reading step ----

  /** The hexadecimal digits of an escape are no guards. */
  lemma {:induction false} HexHasNoGuards(s: string)
    requires Hex(s).Some?
    ensures Guards(s) == 0
  {
    if s != "" {
      var front, last := s[..|s| - 1], s[|s| - 1..];
      HexHasNoGuards(front);
      assert s == front + last;
      GuardsConcat(front, last);
    }
  }

  lemma {:induction false} WhiteHasNoGuards(s: string) returns (used: string)
    ensures s == used + SkipWhite(s) && Guards(used) == 0
    ensures used == "" ==> s == "" || (s[0] != ' ' && s[0] != '\t' && s[0] != '\n')
  {
    used := "";
    if s != "" && (s[0] == ' ' || s[0] == '\t' || s[0] == '\n') {
      var more := WhiteHasNoGuards(s[1..]);
      used := [s[0]] + more;
      assert used[1..] == more;
    }
  }

  lemma {:induction false} BlanksHaveNoGuards(s: string) returns (used: string)
    ensures s == used + SkipBlanks(s) && Guards(used) == 0 && '\n' !in used
    ensures forall i :: 0 <= i < |used| ==> used[i] == ' ' || used[i] == '\t'
  {
    used := "";
    if s != "" && (s[0] == ' ' || s[0] == '\t') {
      var more := BlanksHaveNoGuards(s[1..]);
      used := [s[0]] + more;
      assert used[1..] == more;
    }
  }

  /** An escape stands for at most one character, is written without guards, and on one line without newlines. */
  lemma EscapeFacts(s: string, multi: bool) returns (used: string)
    requires Escape(s, multi).Some?
    ensures s == used + Escape(s, multi).value.rest && used != ""
    ensures |Escape(s, multi).value.value| <= 1 && Guards(used) == 0
    ensures !multi ==> '\n' !in used
  {
    if ShortEscape(s[0]).Some? {
      used := [s[0]];
      assert used[1..] == "";
    } else if s[0] == 'u' {
      used := CodePointFacts(s, 4);
    } else if s[0] == 'U' {
      used := CodePointFacts(s, 8);
    } else {
      used := WhiteHasNoGuards(s);
    }
  }

  lemma CodePointFacts(s: string, width: nat) returns (used: string)
    requires s != "" && !IsGuard(s[0]) && s[0] != '\n' && CodePoint(s[1..], width).Some?
    ensures s == used + CodePoint(s[1..], width).value.rest && used != ""
    ensures |CodePoint(s[1..], width).value.value| == 1 && Guards(used) == 0 && '\n' !in used
  {
    var digits := s[1..][..width];
    used := [s[0]] + digits;
    assert used[1..] == digits;
    HexHasNoGuards(digits);
    HexHasNoNewline(digits);
    assert s[1..] == digits + s[1..][width..];
  }

  lemma {:induction false} HexHasNoNewline(s: string)
    requires Hex(s).Some?
    ensures '\n' !in s
  {
    if s != "" {
      HexHasNoNewline(s[..|s| - 1]);
      assert s == s[..|s| - 1] + [s[|s| - 1]];
    }
  }

  /** What the body of a string took off the front of the text, and what it made of it. */
  ghost predicate BodyTook(used: string, value: string, multi: bool) {
    && used != "" && used[|used| - 1] == '"'
    && Guards(value) >= Guards(used)
    && |value| + (if multi then 3 else 1) <= |used|
    && (!multi && |value| + 1 == |used| ==> used == value + "\"" && Plain(value))
    && (!multi ==> '\n' !in used)
  }

  lemma BodyTookChar(c: char, used: string, value: string, multi: bool)
    requires BodyTook(used, value, multi)
    requires !Illegal(c, multi) && c != '\\' && (multi || c != '"')
    ensures BodyTook([c] + used, [c] + value, multi)
  {
    assert ([c] + used)[1..] == used && ([c] + value)[1..] == value;
    if !multi && |value| + 1 == |used| {
      assert [c] + (value + "\"") == ([c] + value) + "\"";
    }
  }

  lemma BodyTookEscape(e: string, front: string, used: string, value: string, multi: bool)
    requires BodyTook(used, value, multi)
    requires e != "" && Guards(e) == 0 && |front| <= 1 && (!multi ==> '\n' !in e)
    ensures BodyTook("\\" + e + used, front + value, multi)
  {
    GuardsConcat("\\" + e, used);
    GuardsConcat("\\", e);
    assert "\\"[1..] == "";
    GuardsConcat(front, value);
  }

  lemma {:induction false} BodyFacts(s: string, multi: bool) returns (used: string)
    requires Body(s, multi).Some?
    ensures s == used + Body(s, multi).value.rest
    ensures BodyTook(used, Body(s, multi).value.value, multi)
    decreases |s|
  {
    if s[0] == '"' && !multi {
      used := "\"";
      assert used[1..] == "";
    } else if "\"\"\"" <= s {
      used := ClosingFacts(s);
    } else if s[0] == '\\' {
      var e := Escape(s[1..], multi).value;
      var escape := EscapeFacts(s[1..], multi);
      var more := BodyFacts(e.rest, multi);
      var inner := Body(e.rest, multi).value;
      BodyTookEscape(escape, e.value, more, inner.value, multi);
      used := "\\" + escape + more;
      Regrouped(s, escape, e.rest, more, inner.rest);
    } else {
      var more := BodyFacts(s[1..], multi);
      var inner := Body(s[1..], multi).value;
      BodyTookChar(s[0], more, inner.value, multi);
      used := [s[0]] + more;
      FirstThenMore(s, more, inner.rest);
    }
  }

  lemma FirstThenMore(s: string, more: string, rest: string)
    requires s != "" && s[1..] == more + rest
    ensures s == ([s[0]] + more) + rest
  {
  }

  lemma Regrouped(s: string, escape: string, after: string, more: string, rest: string)
    requires s != "" && s[0] == '\\' && s[1..] == escape + after && after == more + rest
    ensures s == "\\" + escape + more + rest
  {
  }

  lemma ClosingFacts(s: string) returns (used: string)
    requires "\"\"\"" <= s
    ensures s == used + Closing(s[3..]).rest
    ensures BodyTook(used, Closing(s[3..]).value, true)
  {
    var extra := Closing(s[3..]).value;
    used := "\"\"\"" + extra;
    QuotesAreNoGuards(used);
  }

  lemma {:induction false} QuotesAreNoGuards(s: string)
    requires forall i :: 0 <= i < |s| ==> s[i] == '"'
    ensures Guards(s) == 0
  {
    if s != "" {
      QuotesAreNoGuards(s[1..]);
    }
  }

  // ---- Strings ----

  /**
   * What reading a string took and made of it; only a plain string is read without getting shorter than
   * its quoted form.
   */
  ghost predicate StringTook(used: string, value: string) {
    && used != "" && used[|used| - 1] == '"'
    && Guards(value) >= Guards(used)
    && |value| + 2 <= |used|
    && (|value| + 2 == |used| ==> used == Quoted(value) && Plain(value))
  }

  lemma StringFacts(s: string) returns (used: string)
    requires s != "" && s[0] == '"' && ReadString(s).Some?
    ensures s == used + ReadString(s).value.rest
    ensures StringTook(used, ReadString(s).value.value)
  {
    if "\"\"\"" <= s {
      if |s| > 3 && s[3] == '\n' {
        used := LongFacts("\"\"\"\n", s[4..]);
        assert s == "\"\"\"\n" + s[4..];
      } else {
        used := LongFacts("\"\"\"", s[3..]);
        assert s == "\"\"\"" + s[3..];
      }
    } else {
      var more := BodyFacts(s[1..], false);
      OpensShort(more, Body(s[1..], false).value.value);
      used := "\"" + more;
      assert s == "\"" + s[1..];
    }
  }

  lemma LongFacts(open: string, body: string) returns (used: string)
    requires open == "\"\"\"" || open == "\"\"\"\n"
    requires Body(body, true).Some?
    ensures open + body == used + Body(body, true).value.rest
    ensures StringTook(used, Body(body, true).value.value)
  {
    var more := BodyFacts(body, true);
    OpensLong(open, more, Body(body, true).value.value);
    used := open + more;
  }

  lemma OpensLong(open: string, more: string, value: string)
    requires open == "\"\"\"" || open == "\"\"\"\n"
    requires BodyTook(more, value, true)
    ensures StringTook(open + more, value)
  {
    QuotesAreNoGuards("\"\"\"");
    GuardsConcat("\"\"\"", "\n");
    assert "\n"[1..] == "" && "\"\"\"\n" == "\"\"\"" + "\n";
    GuardsConcat(open, more);
  }

  lemma OpensShort(more: string, value: string)
    requires BodyTook(more, value, false)
    ensures StringTook("\"" + more, value)
  {
    assert ("\"" + more)[1..] == more;
  }

  /** A written string that reads back as itself, whatever guarded text follows, is plain and was read to its end. */
  lemma StringIsPinned(v': string, v: string, tail: string)
    requires Shrunk(v', v) && Guarded(tail)
    requires ReadString(Quoted(v') + tail).Some? && ReadString(Quoted(v') + tail).value.value == v
    ensures Plain(v) && v' == v && ReadString(Quoted(v') + tail).value.rest == tail
  {
    var s := Quoted(v') + tail;
    var rest := ReadString(s).value.rest;
    var used := StringFacts(s);
    if |used| > |v'| + 2 {
      var a := CutFurther(Quoted(v'), tail, used, rest);
      QuoteMeetsGuard(tail, a);
      GuardsConcat(Quoted(v'), a);
      QuotedGuards(v');
      assert false;
    } else {
      assert used == s[..|used|] && Quoted(v') == s[..|v'| + 2];
      assert |used| == |v'| + 2 && Quoted(v) == Quoted(v');
      assert Quoted(v)[1..|v| + 1] == v && Quoted(v')[1..|v'| + 1] == v';
      assert rest == s[|used|..];
    }
  }

  lemma QuotedGuards(v: string)
    ensures Guards(Quoted(v)) == Guards(v)
  {
    GuardsConcat("\"" + v, "\"");
    GuardsConcat("\"", v);
    assert "\""[1..] == "";
  }

  // ---- Keys ----

  lemma {:induction false} LiteralFacts(s: string) returns (used: string)
    requires Literal(s).Some?
    ensures s == used + Literal(s).value.rest
    ensures used == Literal(s).value.value + "'" && '\n' !in used
  {
    if s[0] == '\'' {
      used := "'";
    } else {
      var more := LiteralFacts(s[1..]);
      used := [s[0]] + more;
    }
  }

  /** What reading one part of a key took: a bare key as it stands, or a quoted one with its quotes. */
  ghost predicate PartTook(used: string, value: string) {
    && '\n' !in used
    && if used == value then BareKey(used)
       else used != "" && IsQuote(used[|used| - 1]) && |value| + 2 <= |used| && Guards(value) >= Guards(used)
  }

  lemma PartFacts(s: string) returns (used: string)
    requires ReadPart(s).Some?
    ensures s == used + ReadPart(s).value.rest && PartTook(used, ReadPart(s).value.value)
    ensures used == ReadPart(s).value.value ==> ReadPart(s).value.rest == "" || !KeyChar(ReadPart(s).value.rest[0])
  {
    if KeyChar(s[0]) {
      used := s[..BareRun(s)];
    } else if s[0] == '"' {
      var more := BodyFacts(s[1..], false);
      used := "\"" + more;
      assert used[1..] == more;
    } else {
      var more := LiteralFacts(s[1..]);
      used := "'" + more;
      var value := Literal(s[1..]).value.value;
      GuardsConcat(value, "'");
      assert used[1..] == more && "'"[1..] == "";
    }
  }

  /** The text that follows a key: blanks, then a guard. */
  predicate EndsKey(tail: string) {
    SkipBlanks(tail) != "" && IsGuard(SkipBlanks(tail)[0])
  }

  lemma {:induction false} EndsKeyIsGuarded(tail: string)
    requires EndsKey(tail)
    ensures Guarded(tail) && tail != "" && !KeyChar(tail[0])
  {
    if tail[0] == ' ' || tail[0] == '\t' {
      EndsKeyIsGuarded(tail[1..]);
    }
  }

  lemma {:induction false} SkipBlanksConcat(a: string, b: string)
    ensures SkipBlanks(a + b) == if SkipBlanks(a) == "" then SkipBlanks(b) else SkipBlanks(a) + b
  {
    if a == "" {
      assert a + b == b;
    } else if a[0] == ' ' || a[0] == '\t' {
      SkipBlanksConcat(a[1..], b);
      assert (a + b)[1..] == a[1..] + b;
    }
  }

  /** A written key part that reads back as itself is a bare key and was read to its end. */
  lemma PartIsPinned(k': string, k: string, tail: string)
    requires Shrunk(k', k) && EndsKey(tail)
    requires var r := ReadPart(SkipBlanks(k' + tail)); r.Some? && r.value.value == k
    ensures BareKey(k) && k' == k && ReadPart(SkipBlanks(k' + tail)).value.rest == tail
  {
    SkipBlanksConcat(k', tail);
    EndsKeyIsGuarded(tail);
    var blanks := BlanksHaveNoGuards(k');
    var left := SkipBlanks(k');
    GuardsConcat(blanks, left);
    assert left != "";
    var s := left + tail;
    var rest := ReadPart(s).value.rest;
    var used := PartFacts(s);
    StaysInside(left, tail, used, k, rest);
    assert used == s[..|used|] && |used| >= |k| && |k'| == |blanks| + |left|;
    assert used == k && |used| == |left| && blanks == "";
    assert left == s[..|left|] && rest == s[|used|..];
  }

  /** Two ways of cutting one text. */
  lemma CutFurther(left: string, tail: string, used: string, rest: string) returns (a: string)
    requires left + tail == used + rest && |used| > |left|
    ensures used == left + a && tail == a + rest && a != "" && a[|a| - 1] == used[|used| - 1]
  {
    var s := left + tail;
    a := used[|left|..];
    assert used == s[..|used|] && left == s[..|left|] && tail == s[|left|..] && rest == s[|used|..];
    assert a == tail[..|a|];
  }

  /** A key part with the guards of the text `left` was read within `left`. */
  lemma StaysInside(left: string, tail: string, used: string, k: string, rest: string)
    requires left + tail == used + rest && Guarded(tail) && tail != "" && !KeyChar(tail[0])
    requires PartTook(used, k) && Guards(k) == Guards(left)
    ensures |used| <= |left|
  {
    if |used| > |left| {
      var a := CutFurther(left, tail, used, rest);
      assert used[|left|] == a[0] == tail[0];
      GuardsConcat(left, a);
      if used != k {
        QuoteMeetsGuard(tail, a);
      }
    }
  }
}
