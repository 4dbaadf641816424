/** TOML v1.0.0 as the config file uses it: the values and lines that are written, and their text. */
module Toml {
  import opened Dict
  import opened Seqs
  import Text

  /** Env is an inline table of strings under simple keys; Other stands for every value of another kind. */
  datatype Value = Str(text: string) | Int(number: int) | Env(pairs: Dict<string>) | Other

  datatype Line = Blank | Header(path: seq<string>) | Pair(key: string, value: Value)

  // ---- What stands for itself ----

  predicate KeyChar(c: char) {
    'A' <= c <= 'Z' || 'a' <= c <= 'z' || '0' <= c <= '9' || c == '_' || c == '-'
  }

  predicate BareKey(k: string) {
    k != "" && forall i :: 0 <= i < |k| ==> KeyChar(k[i])
  }

  /**
   * The characters of a basic string that stand for themselves: no quote, no backslash, no control
   * character but tab.
   */
  predicate PlainChar(c: char) {
    c != '"' && c != '\\' && (c as int >= 0x20 || c == '\t') && c as int != 0x7F
  }

  predicate Plain(s: string) {
    forall i :: 0 <= i < |s| ==> PlainChar(s[i])
  }

  predicate PlainPairs(pairs: Dict<string>) {
    forall i :: 0 <= i < |pairs| ==> BareKey(pairs[i].key) && Plain(pairs[i].value)
  }

  predicate PlainValue(v: Value) {
    match v
    case Str(s) => Plain(s)
    case Int(_) => true
    case Env(pairs) => PlainPairs(pairs)
    case Other => false
  }

  ghost predicate UniqueKeys<V>(d: Dict<V>) {
    forall i, j :: 0 <= i < j < |d| ==> d[i].key != d[j].key
  }

  /** What a dictionary gives the writer: inline tables are not empty and have no key twice. */
  ghost predicate Writable(v: Value) {
    !v.Other? && (v.Env? ==> v.pairs != [] && UniqueKeys(v.pairs))
  }

  // ---- Writing ----

  function Quoted(s: string): string {
    "\"" + s + "\""
  }

  /** `K = "v"`, several joined by a comma and a space. */
  function ShowPairs(pairs: Dict<string>): string {
    if pairs == [] then ""
    else
      var first := pairs[0].key + " = " + Quoted(pairs[0].value);
      first + (if |pairs| == 1 then "" else ", " + ShowPairs(pairs[1..]))
  }

  function ShowValue(v: Value): string {
    match v
    case Str(s) => Quoted(s)
    case Int(n) => Text.SignedNumeral(n)
    case Env(pairs) => "{ " + ShowPairs(pairs) + " }"
    case Other => ""
  }

  function Dotted(path: seq<string>): string {
    if path == [] then "" else if |path| == 1 then path[0] else path[0] + "." + Dotted(path[1..])
  }

  function Show(line: Line): string {
    match line
    case Blank => ""
    case Header(path) => "[" + Dotted(path) + "]"
    case Pair(key, value) => key + " = " + ShowValue(value)
  }

  function ShowAll(lines: seq<Line>): (r: seq<string>)
    ensures |r| == |lines| && forall i :: 0 <= i < |lines| ==> r[i] == Show(lines[i])
  {
    seq(|lines|, i requires 0 <= i < |lines| => Show(lines[i]))
  }

  /** `"\n".join(lines)`. */
  function Join(lines: seq<string>): string {
    if lines == [] then "" else if |lines| == 1 then lines[0] else lines[0] + "\n" + Join(lines[1..])
  }

  /** Each text followed by a newline. */
  function EndAll(texts: seq<string>): string {
    if texts == [] then "" else texts[0] + "\n" + EndAll(texts[1..])
  }

  function Ended(lines: seq<Line>): string {
    EndAll(ShowAll(lines))
  }

  lemma EndFirst(first: string, rest: seq<string>)
    ensures EndAll([first] + rest) == first + "\n" + EndAll(rest)
  {
    assert ([first] + rest)[1..] == rest;
  }

  lemma {:induction false} EndAllConcat(a: seq<string>, b: seq<string>)
    ensures EndAll(a + b) == EndAll(a) + EndAll(b)
  {
    if a == [] {
      assert a + b == b;
    } else {
      var first, rest := a[0], a[1..];
      EndAllConcat(rest, b);
      assert a + b == [first] + (rest + b) && a == [first] + rest;
      EndFirst(first, rest + b);
      EndFirst(first, rest);
      Associates(first + "\n", EndAll(rest), EndAll(b));
    }
  }

  lemma EndedConcat(a: seq<Line>, b: seq<Line>)
    ensures Ended(a + b) == Ended(a) + Ended(b)
  {
    assert ShowAll(a + b) == ShowAll(a) + ShowAll(b);
    EndAllConcat(ShowAll(a), ShowAll(b));
  }

  lemma EndedOne(line: Line)
    ensures Ended([line]) == Show(line) + "\n"
  {
    assert ShowAll([line]) == [Show(line)];
    assert [Show(line)] + [] == [Show(line)];
    EndFirst(Show(line), []);
  }

  /** Joining texts the last of which is empty ends every other text. */
  lemma {:induction false} JoinEnds(texts: seq<string>)
    ensures Join(texts + [""]) == EndAll(texts)
  {
    var all := texts + [""];
    if texts == [] {
      assert all == [""];
    } else {
      JoinEnds(texts[1..]);
      assert all[1..] == texts[1..] + [""];
    }
  }
}
