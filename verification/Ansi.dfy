/** Stripping terminal escapes (mcp_ssh/utils.py, strip_ansi). */
module Ansi {
  import opened Wrappers

  const ESC: char := '\U{1B}'
  const BEL: char := '\U{07}'

  // ---- The regular expression and what matching it means ----

  datatype Class = Only(c: char) | ParamByte | Letter | StringByte | Paren | Alnum | NotNewline {
    predicate In(x: char) {
      match this
      case Only(c) => x == c
      case ParamByte => '0' <= x <= '9' || x == ';' || x == '?'
      case Letter => 'A' <= x <= 'Z' || 'a' <= x <= 'z'
      case StringByte => x != BEL && x != ESC
      case Paren => x == '(' || x == ')'
      case Alnum => '0' <= x <= '9' || 'A' <= x <= 'Z' || 'a' <= x <= 'z'
      case NotNewline => x != '\n'
    }
  }

  datatype Re = One(cls: Class) | Many(cls: Class) | Cat(a: Re, b: Re) | Alt(a: Re, b: Re)

  /** A control sequence, section 5.4 of ECMA-48, as far as the pattern goes. */
  const CSI: Re := Cat(One(Only('[')), Cat(Many(ParamByte), One(Letter)))

  /** An operating system command up to BEL or ESC backslash. */
  const OSC: Re := Cat(One(Only(']')), Cat(Many(StringByte), STRING_END))

  const STRING_END: Re := Alt(One(Only(BEL)), Cat(One(Only(ESC)), One(Only('\\'))))

  const CHARSET: Re := Cat(One(Paren), One(Alnum))

  /** What may stand after ESC, in the order it is tried. */
  const BODY: Re := Alt(CSI, Alt(OSC, Alt(CHARSET, One(NotNewline))))

  const PATTERN: Re := Cat(One(Only(ESC)), BODY)

  /** Where a greedy repetition that starts at `i` stops. */
  function Skip(cls: Class, s: string, i: nat): (k: nat)
    requires i <= |s|
    ensures i <= k <= |s|
    ensures forall j :: i <= j < k ==> cls.In(s[j])
    ensures k < |s| ==> !cls.In(s[k])
    decreases |s| - i
  {
    if i < |s| && cls.In(s[i]) then Skip(cls, s, i + 1) else i
  }

  /** The ends of a repetition in the order a backtracking matcher tries them: longest first. */
  function Backoff(cls: Class, s: string, i: nat): seq<nat>
    decreases |s| - i
  {
    if i < |s| && cls.In(s[i]) then Backoff(cls, s, i + 1) + [i] else [i]
  }

  /** Every end of a match of `re` at `i`, in order of preference. */
  function Ends(re: Re, s: string, i: nat): seq<nat>
    decreases re, 0
  {
    match re
    case One(cls) => if i < |s| && cls.In(s[i]) then [i + 1] else []
    case Many(cls) => Backoff(cls, s, i)
    case Cat(a, b) => EndsFrom(Ends(a, s, i), b, s)
    case Alt(a, b) => Ends(a, s, i) + Ends(b, s, i)
  }

  /** The ends of `re` from each of `starts` in turn. */
  function EndsFrom(starts: seq<nat>, re: Re, s: string): seq<nat>
    decreases re, |starts| + 1
  {
    if starts == [] then [] else Ends(re, s, starts[0]) + EndsFrom(starts[1..], re, s)
  }

  /** The match a backtracking matcher settles for: the first end in preference order. */
  function FirstEnd(re: Re, s: string, i: nat): Option<nat>
    requires i <= |s|
  {
    var ends := Ends(re, s, i);
    if ends == [] then None else Some(ends[0])
  }

  // ---- The one-pass scanner ----

  /** The end of the escape that starts at `i`, found without backtracking. */
  function EscapeEnd(s: string, i: nat): (r: Option<nat>)
    requires i < |s|
    ensures r.Some? ==> i + 2 <= r.value <= |s|
    ensures r.Some? ==> s[i] == ESC && s[i + 1] != '\n'
    ensures r.None? ==> s[i] != ESC || i + 1 == |s| || s[i + 1] == '\n'
  {
    if s[i] != ESC || i + 1 == |s| || s[i + 1] == '\n' then None
    else if s[i + 1] == '[' then
      var k := Skip(ParamByte, s, i + 2);
      if k < |s| && Letter.In(s[k]) then Some(k + 1) else Some(i + 2)
    else if s[i + 1] == ']' then
      var k := Skip(StringByte, s, i + 2);
      if k < |s| && s[k] == BEL then Some(k + 1)
      else if k + 1 < |s| && s[k + 1] == '\\' then Some(k + 2)
      else Some(i + 2)
    else if Paren.In(s[i + 1]) && i + 2 < |s| && Alnum.In(s[i + 2]) then Some(i + 3)
    else Some(i + 2)
  }

  /** `re` matches nowhere where a character of `cls` stands. */
  ghost predicate NeverStartsIn(re: Re, cls: Class, s: string) {
    forall e :: 0 <= e < |s| && cls.In(s[e]) ==> Ends(re, s, e) == []
  }

  lemma EndsFromOne(x: nat, re: Re, s: string)
    ensures EndsFrom([x], re, s) == Ends(re, s, x)
  {
    assert [x][1..] == [];
    assert EndsFrom([], re, s) == [];
    assert Ends(re, s, x) + [] == Ends(re, s, x);
  }

  lemma {:induction false} EndsFromConcat(a: seq<nat>, b: seq<nat>, re: Re, s: string)
    ensures EndsFrom(a + b, re, s) == EndsFrom(a, re, s) + EndsFrom(b, re, s)
  {
    if a == [] {
      assert a + b == b;
      assert EndsFrom(a, re, s) == [];
    } else {
      assert (a + b)[0] == a[0] && (a + b)[1..] == a[1..] + b;
      EndsFromConcat(a[1..], b, re, s);
    }
  }

  /** What follows a repetition but cannot start inside it needs no backing off. */
  lemma {:induction false} NoBacktracking(cls: Class, re: Re, s: string, i: nat)
    requires i <= |s| && NeverStartsIn(re, cls, s)
    ensures EndsFrom(Backoff(cls, s, i), re, s) == Ends(re, s, Skip(cls, s, i))
    decreases |s| - i
  {
    EndsFromOne(i, re, s);
    if i < |s| && cls.In(s[i]) {
      NoBacktracking(cls, re, s, i + 1);
      EndsFromConcat(Backoff(cls, s, i + 1), [i], re, s);
    }
  }

  /** A character class followed by something: match the character, go on after it. */
  lemma OneThen(cls: Class, re: Re, s: string, i: nat)
    ensures Ends(Cat(One(cls), re), s, i) == if i < |s| && cls.In(s[i]) then Ends(re, s, i + 1) else []
  {
    if i < |s| && cls.In(s[i]) {
      EndsFromOne(i + 1, re, s);
    }
  }

  /** A repetition followed by something that cannot start inside it. */
  lemma ManyThen(cls: Class, re: Re, s: string, i: nat)
    requires i <= |s| && NeverStartsIn(re, cls, s)
    ensures Ends(Cat(Many(cls), re), s, i) == Ends(re, s, Skip(cls, s, i))
  {
    NoBacktracking(cls, re, s, i);
  }

  lemma CsiEnds(s: string, i: nat)
    requires i <= |s|
    ensures Ends(CSI, s, i) ==
      if i < |s| && s[i] == '[' then
        var k := Skip(ParamByte, s, i + 1);
        if k < |s| && Letter.In(s[k]) then [k + 1] else []
      else []
  {
    OneThen(Only('['), Cat(Many(ParamByte), One(Letter)), s, i);
    if i < |s| && s[i] == '[' {
      assert NeverStartsIn(One(Letter), ParamByte, s);
      ManyThen(ParamByte, One(Letter), s, i + 1);
    }
  }

  lemma StringEndEnds(s: string, e: nat)
    requires e <= |s|
    ensures Ends(STRING_END, s, e) ==
      if e < |s| && s[e] == BEL then [e + 1]
      else if e + 1 < |s| && s[e] == ESC && s[e + 1] == '\\' then [e + 2]
      else []
  {
    OneThen(Only(ESC), One(Only('\\')), s, e);
  }

  lemma StringThenEnd(s: string, i: nat)
    requires i <= |s|
    ensures Ends(Cat(Many(StringByte), STRING_END), s, i) == Ends(STRING_END, s, Skip(StringByte, s, i))
  {
    forall e | 0 <= e < |s| && StringByte.In(s[e])
      ensures Ends(STRING_END, s, e) == []
    {
      StringEndEnds(s, e);
    }
    assert NeverStartsIn(STRING_END, StringByte, s);
    ManyThen(StringByte, STRING_END, s, i);
  }

  lemma OscEnds(s: string, i: nat)
    requires i <= |s|
    ensures Ends(OSC, s, i) ==
      if i < |s| && s[i] == ']' then
        var k := Skip(StringByte, s, i + 1);
        if k < |s| && s[k] == BEL then [k + 1]
        else if k + 1 < |s| && s[k + 1] == '\\' then [k + 2]
        else []
      else []
  {
    OneThen(Only(']'), Cat(Many(StringByte), STRING_END), s, i);
    if i < |s| && s[i] == ']' {
      StringThenEnd(s, i + 1);
      StringEndEnds(s, Skip(StringByte, s, i + 1));
    }
  }

  lemma CharsetEnds(s: string, i: nat)
    requires i <= |s|
    ensures Ends(CHARSET, s, i) == if i + 1 < |s| && Paren.In(s[i]) && Alnum.In(s[i + 1]) then [i + 2] else []
  {
    OneThen(Paren, One(Alnum), s, i);
  }

  lemma BodyEnds(s: string, i: nat)
    ensures Ends(BODY, s, i)
      == Ends(CSI, s, i) + (Ends(OSC, s, i) + (Ends(CHARSET, s, i) + Ends(One(NotNewline), s, i)))
  {
    var rest := Alt(CHARSET, One(NotNewline));
    assert Ends(rest, s, i) == Ends(CHARSET, s, i) + Ends(One(NotNewline), s, i);
    assert Ends(Alt(OSC, rest), s, i) == Ends(OSC, s, i) + Ends(rest, s, i);
  }

  /** What is first in a list of alternatives, each a list of ends. */
  function FirstOf(csi: seq<nat>, osc: seq<nat>, charset: seq<nat>, other: seq<nat>): Option<nat> {
    if csi != [] then Some(csi[0])
    else if osc != [] then Some(osc[0])
    else if charset != [] then Some(charset[0])
    else if other != [] then Some(other[0])
    else None
  }

  lemma FirstOfAll(csi: seq<nat>, osc: seq<nat>, charset: seq<nat>, other: seq<nat>)
    ensures var all := csi + (osc + (charset + other));
            FirstOf(csi, osc, charset, other) == if all == [] then None else Some(all[0])
  {
  }

  lemma BodyFirst(s: string, i: nat)
    requires i <= |s|
    ensures FirstEnd(BODY, s, i)
         == FirstOf(Ends(CSI, s, i), Ends(OSC, s, i), Ends(CHARSET, s, i), Ends(One(NotNewline), s, i))
  {
    BodyEnds(s, i);
    FirstOfAll(Ends(CSI, s, i), Ends(OSC, s, i), Ends(CHARSET, s, i), Ends(One(NotNewline), s, i));
  }

  /** The ends of the four alternatives, told by the characters. */
  lemma Alternatives(s: string, i: nat) returns (csi: seq<nat>, osc: seq<nat>, charset: seq<nat>, other: seq<nat>)
    requires i <= |s|
    ensures FirstEnd(BODY, s, i) == FirstOf(csi, osc, charset, other)
    ensures csi == if i < |s| && s[i] == '[' then
              var k := Skip(ParamByte, s, i + 1);
              if k < |s| && Letter.In(s[k]) then [k + 1] else []
            else []
    ensures osc == if i < |s| && s[i] == ']' then
              var k := Skip(StringByte, s, i + 1);
              if k < |s| && s[k] == BEL then [k + 1] else if k + 1 < |s| && s[k + 1] == '\\' then [k + 2] else []
            else []
    ensures charset == if i + 1 < |s| && Paren.In(s[i]) && Alnum.In(s[i + 1]) then [i + 2] else []
    ensures other == if i < |s| && s[i] != '\n' then [i + 1] else []
  {
    csi, osc, charset, other := Ends(CSI, s, i), Ends(OSC, s, i), Ends(CHARSET, s, i), Ends(One(NotNewline), s, i);
    BodyFirst(s, i);
    CsiEnds(s, i);
    OscEnds(s, i);
    CharsetEnds(s, i);
  }

  lemma PatternFirst(s: string, i: nat)
    requires i < |s|
    ensures FirstEnd(PATTERN, s, i) == if s[i] == ESC then FirstEnd(BODY, s, i + 1) else None
  {
    OneThen(Only(ESC), BODY, s, i);
  }

  /** The scanner finds exactly the match the ordered alternation prefers. */
  lemma ScannerRefinesPattern(s: string, i: nat)
    requires i < |s|
    ensures FirstEnd(PATTERN, s, i) == EscapeEnd(s, i)
  {
    PatternFirst(s, i);
    if s[i] == ESC {
      var csi, osc, charset, other := Alternatives(s, i + 1);
    }
  }

  // ---- strip_ansi ----

  /** `sub("", text)` from position `i` on: leftmost matches, none overlapping. */
  function Sub(s: string, i: nat): string
    requires i <= |s|
    decreases |s| - i
  {
    if i == |s| then ""
    else
      ScannerRefinesPattern(s, i);
      match FirstEnd(PATTERN, s, i)
      case Some(end) => Sub(s, end)
      case None => [s[i]] + Sub(s, i + 1)
  }

  /** `str.replace` for a non-empty pattern. */
  function Replace(s: string, pattern: string, replacement: string): string
    requires pattern != ""
  {
    if s == "" then ""
    else if pattern <= s then replacement + Replace(s[|pattern|..], pattern, replacement)
    else [s[0]] + Replace(s[1..], pattern, replacement)
  }

  function StripAnsi(s: string): string {
    Replace(Replace(Sub(s, 0), "\r\n", "\n"), "\r", "\n")
  }

  // ---- One pass instead of three ----

  function Flush(cr: bool): string {
    if cr then "\n" else ""
  }

  /** Line ends in one pass; `cr` says that a carriage return is still to be written out. */
  function Fold(t: string, cr: bool): string {
    if t == "" then Flush(cr)
    else if t[0] == '\r' then Flush(cr) + Fold(t[1..], true)
    else if t[0] == '\n' then "\n" + Fold(t[1..], false)
    else Flush(cr) + [t[0]] + Fold(t[1..], false)
  }

  /** Escapes and line ends together, one character or one escape at a time. */
  function Scan(s: string, i: nat, cr: bool): string
    requires i <= |s|
    decreases |s| - i
  {
    if i == |s| then Flush(cr)
    else match EscapeEnd(s, i)
      case Some(end) => Scan(s, end, cr)
      case None =>
        if s[i] == '\r' then Flush(cr) + Scan(s, i + 1, true)
        else if s[i] == '\n' then "\n" + Scan(s, i + 1, false)
        else Flush(cr) + [s[i]] + Scan(s, i + 1, false)
  }

  lemma {:induction false} ReplaceIsFold(t: string)
    ensures Replace(Replace(t, "\r\n", "\n"), "\r", "\n") == Fold(t, false)
    decreases |t|
  {
    if t != "" {
      var u := Replace(t, "\r\n", "\n");
      if "\r\n" <= t {
        ReplaceIsFold(t[2..]);
        assert u == "\n" + Replace(t[2..], "\r\n", "\n");
        assert u[1..] == Replace(t[2..], "\r\n", "\n");
        assert t[1..][1..] == t[2..] && t[1..][0] == '\n';
      } else {
        ReplaceIsFold(t[1..]);
        assert u == [t[0]] + Replace(t[1..], "\r\n", "\n");
        assert u[1..] == Replace(t[1..], "\r\n", "\n");
        if t[0] == '\r' {
          LoneReturn(t[1..]);
        }
      }
    }
  }

  /** A carriage return not followed by a newline is a newline of its own. */
  lemma LoneReturn(t: string)
    requires t == "" || t[0] != '\n'
    ensures Fold(t, true) == "\n" + Fold(t, false)
  {
  }

  lemma {:induction false} ScanIsFoldOfSub(s: string, i: nat, cr: bool)
    requires i <= |s|
    ensures Scan(s, i, cr) == Fold(Sub(s, i), cr)
    decreases |s| - i
  {
    if i < |s| {
      ScannerRefinesPattern(s, i);
      match EscapeEnd(s, i)
      case Some(end) =>
        ScanIsFoldOfSub(s, end, cr);
      case None =>
        ScanIsFoldOfSub(s, i + 1, s[i] == '\r');
        assert ([s[i]] + Sub(s, i + 1))[1..] == Sub(s, i + 1);
    }
  }

  /** The one-pass scanner computes strip_ansi. */
  lemma OnePassIsStripAnsi(s: string)
    ensures Scan(s, 0, false) == StripAnsi(s)
  {
    ScanIsFoldOfSub(s, 0, false);
    ReplaceIsFold(Sub(s, 0));
  }

  // ---- What the output looks like ----

  /** An escape character stands only before a newline or at the end. */
  ghost predicate EscapesAreStranded(t: string) {
    forall k :: 0 <= k < |t| && t[k] == ESC ==> k + 1 == |t| || t[k + 1] == '\n'
  }

  lemma StrandedCons(c: char, rest: string)
    requires EscapesAreStranded(rest)
    requires c == ESC ==> rest == "" || rest[0] == '\n'
    ensures EscapesAreStranded([c] + rest)
  {
    var t := [c] + rest;
    forall k | 0 <= k < |t| && t[k] == ESC
      ensures k + 1 == |t| || t[k + 1] == '\n'
    {
      if k > 0 {
        assert t[k] == rest[k - 1];
      }
    }
  }

  lemma {:induction false} SubStrands(s: string, i: nat)
    requires i <= |s|
    ensures EscapesAreStranded(Sub(s, i))
    ensures i < |s| && s[i] == '\n' ==> Sub(s, i) != "" && Sub(s, i)[0] == '\n'
    decreases |s| - i
  {
    if i < |s| {
      ScannerRefinesPattern(s, i);
      match EscapeEnd(s, i)
      case Some(end) =>
        SubStrands(s, end);
      case None =>
        SubStrands(s, i + 1);
        StrandedCons(s[i], Sub(s, i + 1));
    }
  }

  lemma {:induction false} FoldOutput(t: string, cr: bool)
    requires EscapesAreStranded(t)
    ensures '\r' !in Fold(t, cr)
    ensures EscapesAreStranded(Fold(t, cr))
    ensures t != "" && t[0] == '\n' ==> Fold(t, cr)[0] == '\n'
  {
    if t != "" {
      var rest := Fold(t[1..], t[0] == '\r');
      forall k | 0 <= k < |t[1..]| && t[1..][k] == ESC
        ensures k + 1 == |t[1..]| || t[1..][k + 1] == '\n'
      {
        assert t[k + 1] == ESC;
      }
      FoldOutput(t[1..], t[0] == '\r');
      if t[0] == ESC && |t| > 1 {
        assert t[1..][0] == '\n';
      }
      Prepended(if t[0] == '\r' then Flush(cr) else if t[0] == '\n' then "\n" else Flush(cr) + [t[0]], rest, t);
    }
  }

  /** Putting a newline, a character or both before stranded escapes keeps them stranded. */
  lemma Prepended(head: string, rest: string, t: string)
    requires EscapesAreStranded(rest)
    requires |head| <= 2 && (|head| == 2 ==> head[0] == '\n')
    requires head != "" && head[|head| - 1] == ESC ==> rest == "" || rest[0] == '\n'
    ensures EscapesAreStranded(head + rest)
  {
    var all := head + rest;
    forall k | 0 <= k < |all| && all[k] == ESC
      ensures k + 1 == |all| || all[k + 1] == '\n'
    {
      if k >= |head| {
        assert rest[k - |head|] == ESC;
      }
    }
  }

  /** The output has no carriage return, and its escapes are stranded. */
  lemma StripAnsiOutput(s: string)
    ensures '\r' !in StripAnsi(s)
    ensures EscapesAreStranded(StripAnsi(s))
  {
    SubStrands(s, 0);
    FoldOutput(Sub(s, 0), false);
    ReplaceIsFold(Sub(s, 0));
  }

  lemma {:induction false} NothingToStrip(t: string, i: nat)
    requires i <= |t| && '\r' !in t && EscapesAreStranded(t)
    ensures Scan(t, i, false) == t[i..]
    decreases |t| - i
  {
    if i < |t| {
      NothingToStrip(t, i + 1);
      assert t[i] in t;
      assert t[i..] == [t[i]] + t[i + 1..];
    }
  }

  /** strip_ansi leaves a text alone exactly when it has no carriage return and only stranded escapes. */
  lemma UnchangedIff(s: string)
    ensures StripAnsi(s) == s <==> '\r' !in s && EscapesAreStranded(s)
  {
    StripAnsiOutput(s);
    if '\r' !in s && EscapesAreStranded(s) {
      NothingToStrip(s, 0);
      OnePassIsStripAnsi(s);
    }
  }

  /** Text without escape characters and carriage returns is unchanged. */
  lemma PlainTextUnchanged(s: string)
    requires ESC !in s && '\r' !in s
    ensures StripAnsi(s) == s
  {
    UnchangedIff(s);
  }

  lemma StripAnsiIdempotent(s: string)
    ensures StripAnsi(StripAnsi(s)) == StripAnsi(s)
  {
    StripAnsiOutput(s);
    UnchangedIff(StripAnsi(s));
  }

  // ---- Which sequences disappear ----

  lemma {:induction false} SkipTo(cls: Class, s: string, i: nat, k: nat)
    requires i <= k <= |s| && forall j :: i <= j < k ==> cls.In(s[j])
    requires k < |s| ==> !cls.In(s[k])
    ensures Skip(cls, s, i) == k
    decreases k - i
  {
    if i < k {
      SkipTo(cls, s, i + 1, k);
    }
  }

  /** `t` is what stands in `s` from `d` on. */
  ghost predicate TailAt(s: string, d: nat, t: string) {
    |s| == d + |t| && forall j :: 0 <= j < |t| ==> s[d + j] == t[j]
  }

  lemma SkipShift(cls: Class, s: string, d: nat, t: string, i: nat)
    requires TailAt(s, d, t) && i <= |t|
    ensures Skip(cls, s, d + i) == d + Skip(cls, t, i)
  {
    var k := Skip(cls, t, i);
    forall j | d + i <= j < d + k
      ensures cls.In(s[j])
    {
      assert s[j] == t[j - d];
    }
    SkipTo(cls, s, d + i, d + k);
  }

  /** Where an escape ends does not depend on what stands before it. */
  lemma EscapeShift(s: string, d: nat, t: string, i: nat)
    requires TailAt(s, d, t) && i < |t|
    ensures EscapeEnd(s, d + i) == match EscapeEnd(t, i) case Some(end) => Some(d + end) case None => None
  {
    assert s[d + i] == t[i];
    if i + 2 <= |t| {
      assert s[d + (i + 1)] == t[i + 1];
      SkipShift(ParamByte, s, d, t, i + 2);
      SkipShift(StringByte, s, d, t, i + 2);
    }
  }

  lemma ScanEscape(s: string, i: nat, end: nat, cr: bool)
    requires i < |s| && EscapeEnd(s, i) == Some(end)
    ensures Scan(s, i, cr) == Scan(s, end, cr)
  {
  }

  /** What one character outside an escape writes. */
  function Wrote(c: char, cr: bool): string {
    if c == '\r' then Flush(cr) else if c == '\n' then "\n" else Flush(cr) + [c]
  }

  lemma ScanChar(s: string, i: nat, cr: bool)
    requires i < |s| && EscapeEnd(s, i).None?
    ensures Scan(s, i, cr) == Wrote(s[i], cr) + Scan(s, i + 1, s[i] == '\r')
  {
  }

  /** What is written for the rest of a text does not depend on what stands before it. */
  lemma {:induction false} ScanShift(s: string, j: nat, t: string, i: nat, cr: bool)
    requires i <= |t| && i <= j && TailAt(s, j - i, t)
    ensures Scan(s, j, cr) == Scan(t, i, cr)
    decreases |t| - i
  {
    if i < |t| {
      EscapeShift(s, j - i, t, i);
      var c := t[i];
      assert s[j] == c;
      if EscapeEnd(t, i).Some? {
        var end := EscapeEnd(t, i).value;
        ScanShift(s, j - i + end, t, end, cr);
        ScanEscape(t, i, end, cr);
        ScanEscape(s, j, j - i + end, cr);
      } else {
        ScanShift(s, j + 1, t, i + 1, c == '\r');
        ScanChar(t, i, cr);
        ScanChar(s, j, cr);
      }
    }
  }

  lemma ScanBehind(c: char, rest: string, cr: bool)
    requires c != ESC
    ensures Scan([c] + rest, 0, cr) == Wrote(c, cr) + Scan(rest, 0, c == '\r')
  {
    ScanChar([c] + rest, 0, cr);
    ScanShift([c] + rest, 1, rest, 0, c == '\r');
  }

  /** Texts that read alike from the start. */
  ghost predicate ReadAlike(t: string, u: string) {
    Scan(t, 0, false) == Scan(u, 0, false) && Scan(t, 0, true) == Scan(u, 0, true)
  }

  lemma AlikeBehind(c: char, t: string, u: string)
    requires c != ESC && ReadAlike(t, u)
    ensures ReadAlike([c] + t, [c] + u)
  {
    ScanBehind(c, t, false);
    ScanBehind(c, t, true);
    ScanBehind(c, u, false);
    ScanBehind(c, u, true);
  }

  /** Plain text does not look at what comes next: texts that read alike read alike behind it. */
  lemma {:induction false} PlainFront(front: string, t: string, u: string)
    requires ESC !in front && ReadAlike(t, u)
    ensures ReadAlike(front + t, front + u)
  {
    if front == "" {
      assert front + t == t && front + u == u;
    } else {
      var c := front[0];
      assert c in front;
      PlainFront(front[1..], t, u);
      AlikeBehind(c, front[1..] + t, front[1..] + u);
      assert front + t == [c] + (front[1..] + t) && front + u == [c] + (front[1..] + u);
    }
  }

  /** An escape behind plain text disappears, and what follows is read as if it had not been there. */
  lemma EscapeVanishes(front: string, q: string, back: string)
    requires ESC !in front && q != "" && EscapeEnd(q + back, 0) == Some(|q|)
    ensures StripAnsi(front + q + back) == StripAnsi(front + back)
  {
    ScanShift(q + back, |q|, back, 0, false);
    ScanShift(q + back, |q|, back, 0, true);
    assert ReadAlike(q + back, back);
    assert front + q + back == front + (q + back);
    PlainFront(front, q + back, back);
    OnePassIsStripAnsi(front + q + back);
    OnePassIsStripAnsi(front + back);
  }

  /**
   * ESC, an opening bracket, digits, semicolons and question marks, then a letter: gone. Where another
   * character stands in the place of the letter, only ESC and the bracket go.
   */
  lemma ControlSequenceVanishes(front: string, params: string, final: char, back: string)
    requires '\U{1B}' !in front
    requires forall i :: 0 <= i < |params| ==> '0' <= params[i] <= '9' || params[i] == ';' || params[i] == '?'
    ensures ('A' <= final <= 'Z' || 'a' <= final <= 'z') ==>
      StripAnsi(front + ("\U{1B}[" + params + [final]) + back) == StripAnsi(front + back)
    ensures !('A' <= final <= 'Z' || 'a' <= final <= 'z' || '0' <= final <= '9' || final == ';' || final == '?') ==>
      StripAnsi(front + "\U{1B}[" + (params + [final] + back)) == StripAnsi(front + (params + [final] + back))
  {
    var q := "\U{1B}[" + params + [final];
    var s := q + back;
    assert forall i :: 0 <= i < |params| ==> s[2 + i] == params[i];
    if !ParamByte.In(final) {
      SkipTo(ParamByte, s, 2, 2 + |params|);
      if Letter.In(final) {
        EscapeVanishes(front, q, back);
      } else {
        assert "\U{1B}[" + (params + [final] + back) == s;
        EscapeVanishes(front, "\U{1B}[", params + [final] + back);
      }
    }
  }

  /** ESC, a closing bracket, a text without BEL and ESC, then BEL or ESC backslash: gone. */
  lemma SystemCommandVanishes(front: string, text: string, back: string)
    requires '\U{1B}' !in front && '\U{1B}' !in text && '\U{07}' !in text
    ensures StripAnsi(front + ("\U{1B}]" + text + "\U{07}") + back) == StripAnsi(front + back)
    ensures StripAnsi(front + ("\U{1B}]" + text + "\U{1B}\\") + back) == StripAnsi(front + back)
  {
    var bel, st := "\U{1B}]" + text + "\U{07}", "\U{1B}]" + text + "\U{1B}\\";
    assert forall i :: 0 <= i < |text| ==> (bel + back)[2 + i] == text[i] && (st + back)[2 + i] == text[i];
    SkipTo(StringByte, bel + back, 2, 2 + |text|);
    SkipTo(StringByte, st + back, 2, 2 + |text|);
    EscapeVanishes(front, bel, back);
    EscapeVanishes(front, st, back);
  }

  /** ESC, a parenthesis and a letter or digit: gone. So are ESC and any other character but a newline. */
  lemma ShortEscapesVanish(front: string, c: char, x: char, back: string)
    requires '\U{1B}' !in front
    ensures (c == '(' || c == ')') && ('0' <= x <= '9' || 'A' <= x <= 'Z' || 'a' <= x <= 'z') ==>
      StripAnsi(front + ['\U{1B}', c, x] + back) == StripAnsi(front + back)
    ensures (c == '(' || c == ')') && !('0' <= x <= '9' || 'A' <= x <= 'Z' || 'a' <= x <= 'z') ==>
      StripAnsi(front + ['\U{1B}', c] + ([x] + back)) == StripAnsi(front + ([x] + back))
    ensures c !in "[]()\n" ==> StripAnsi(front + ['\U{1B}', c] + back) == StripAnsi(front + back)
  {
    if Paren.In(c) && Alnum.In(x) {
      EscapeVanishes(front, ['\U{1B}', c, x], back);
    } else if Paren.In(c) {
      EscapeVanishes(front, ['\U{1B}', c], [x] + back);
    }
    if c !in "[]()\n" {
      assert "[]()\n" == ['[', ']', '(', ')', '\n'];
      EscapeVanishes(front, ['\U{1B}', c], back);
    }
  }
}
