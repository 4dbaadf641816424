/**
 * Reading TOML v1.0.0 the way Python's tomllib does, as far as a written config can reach it: comments,
 * bare, quoted and dotted keys, basic strings on one line and on several, decimal integers, inline
 * tables and table headers. Every other form, which the writer never begins, is read by a parameter.
 */
module TomlReader {
  import opened Wrappers
  import opened Dict
  import opened Toml
  import Text

  /** What was read off the front of a text, and what is left of it. */
  datatype Read<T> = Read(value: T, rest: string)

  // ---- White space ----

  /** Line ends are one character, before anything else is read. */
  function Normalized(s: string): string {
    if s == "" then ""
    else if s[0] == '\r' && |s| > 1 && s[1] == '\n' then Normalized(s[1..])
    else [s[0]] + Normalized(s[1..])
  }

  function SkipBlanks(s: string): (r: string)
    ensures |r| <= |s|
    ensures r != "" ==> r[0] != ' ' && r[0] != '\t'
  {
    if s != "" && (s[0] == ' ' || s[0] == '\t') then SkipBlanks(s[1..]) else s
  }

  function SkipWhite(s: string): (r: string)
    ensures |r| <= |s|
  {
    if s != "" && (s[0] == ' ' || s[0] == '\t' || s[0] == '\n') then SkipWhite(s[1..]) else s
  }

  /** Control characters but tab, and within one line the newline, may not stand in text. */
  predicate Illegal(c: char, multi: bool) {
    (c as int < 0x20 && c != '\t' && !(multi && c == '\n')) || c as int == 0x7F
  }

  // ---- Strings ----

  function HexDigit(c: char): Option<nat> {
    if '0' <= c <= '9' then Some(c as int - '0' as int)
    else if 'a' <= c <= 'f' then Some(c as int - 'a' as int + 10)
    else if 'A' <= c <= 'F' then Some(c as int - 'A' as int + 10)
    else None
  }

  function Hex(s: string): Option<nat> {
    if s == "" then Some(0)
    else match (Hex(s[..|s| - 1]), HexDigit(s[|s| - 1]))
      case (Some(n), Some(d)) => Some(16 * n + d)
      case _ => None
  }

  /** The character of a code point, unless it is a surrogate or out of range. */
  function Scalar(s: string): Option<char> {
    match Hex(s)
    case Some(n) => if n < 0xD800 || 0xE000 <= n < 0x110000 then Some(n as char) else None
    case None => None
  }

  /** The letters that name an escape of one character, and that character. */
  function ShortEscape(c: char): Option<char> {
    match c
    case 'b' => Some(8 as char)
    case 't' => Some('\t')
    case 'n' => Some('\n')
    case 'f' => Some(12 as char)
    case 'r' => Some('\r')
    case '"' => Some('"')
    case '\\' => Some('\\')
    case _ => None
  }

  function CodePoint(s: string, width: nat): Option<Read<string>> {
    if |s| < width then None
    else match Scalar(s[..width]) case Some(c) => Some(Read([c], s[width..])) case None => None
  }

  /** The escape whose backslash has just been read; over several lines a backslash may also swallow a line end. */
  function Escape(s: string, multi: bool): Option<Read<string>> {
    if s == "" then None
    else if ShortEscape(s[0]).Some? then Some(Read([ShortEscape(s[0]).value], s[1..]))
    else if s[0] == 'u' then CodePoint(s[1..], 4)
    else if s[0] == 'U' then CodePoint(s[1..], 8)
    else if multi && (s[0] == ' ' || s[0] == '\t' || s[0] == '\n') then
      if SkipBlanks(s) != "" && SkipBlanks(s)[0] != '\n' then None else Some(Read("", SkipWhite(s)))
    else None
  }

  function Then(front: string, r: Option<Read<string>>): Option<Read<string>> {
    match r case None => None case Some(x) => Some(Read(front + x.value, x.rest))
  }

  /** After the three closing quotes one or two more still belong to the string. */
  function Closing(s: string): Read<string> {
    if s == "" || s[0] != '"' then Read("", s)
    else if |s| == 1 || s[1] != '"' then Read("\"", s[1..])
    else Read("\"\"", s[2..])
  }

  /** The body of a basic string up to its end. */
  function Body(s: string, multi: bool): Option<Read<string>>
    decreases |s|
  {
    if s == "" then None
    else if s[0] == '"' && !multi then Some(Read("", s[1..]))
    else if "\"\"\"" <= s then Some(Closing(s[3..]))
    else if s[0] == '\\' then
      match Escape(s[1..], multi)
      case None => None
      case Some(e) => if |e.rest| < |s| then Then(e.value, Body(e.rest, multi)) else None
    else if Illegal(s[0], multi) then None
    else Then([s[0]], Body(s[1..], multi))
  }

  /** A basic string, on one line or on several; a newline right after three opening quotes is dropped. */
  function ReadString(s: string): Option<Read<string>>
    requires s != "" && s[0] == '"'
  {
    if "\"\"\"" <= s then Body(if |s| > 3 && s[3] == '\n' then s[4..] else s[3..], true)
    else Body(s[1..], false)
  }

  // ---- Keys ----

  function BareRun(s: string): (n: nat)
    ensures n <= |s|
    ensures forall i :: 0 <= i < n ==> KeyChar(s[i])
    ensures n < |s| ==> !KeyChar(s[n])
  {
    if s != "" && KeyChar(s[0]) then 1 + BareRun(s[1..]) else 0
  }

  /** A literal string: no escapes. */
  function Literal(s: string): Option<Read<string>> {
    if s == "" then None
    else if s[0] == '\'' then Some(Read("", s[1..]))
    else if Illegal(s[0], false) then None
    else Then([s[0]], Literal(s[1..]))
  }

  /** One part of a key: bare or quoted either way. */
  function ReadPart(s: string): Option<Read<string>> {
    if s == "" then None
    else if KeyChar(s[0]) then Some(Read(s[..BareRun(s)], s[BareRun(s)..]))
    else if s[0] == '"' then Body(s[1..], false)
    else if s[0] == '\'' then Literal(s[1..])
    else None
  }

  /** A key: parts between dots, blanks around the dots. */
  function ReadKey(s: string): Option<Read<seq<string>>>
    decreases |s|
  {
    match ReadPart(s)
    case None => None
    case Some(part) =>
      var t := SkipBlanks(part.rest);
      if t == "" || t[0] != '.' then Some(Read([part.value], t))
      else if |t| > |s| then None
      else match ReadKey(SkipBlanks(t[1..]))
        case None => None
        case Some(more) => Some(Read([part.value] + more.value, more.rest))
  }

  // ---- Values ----

  /** How the forms the writer never begins are read: values of other kinds, and arrays of tables. */
  datatype Beyond = Beyond(
    value: string -> Option<Taken>,
    statement: (Doc, seq<string>, string) -> Option<Appended>)

  /** A value and how much text it took. */
  datatype Taken = Taken(value: Value, length: nat)

  /** What reading an array-of-tables header adds, the header that keys then go under, and the text it took. */
  datatype Appended = Appended(items: Doc, header: seq<string>, length: nat)

  function Foreign(b: Beyond, s: string): Option<Read<Value>> {
    match b.value(s)
    case None => None
    case Some(t) => if 0 < t.length <= |s| then Some(Read(t.value, s[t.length..])) else None
  }

  predicate Delimiter(c: char) {
    c == ' ' || c == '\t' || c == '\n' || c == '\r' || c == ',' || c == '}' || c == ']' || c == '#'
  }

  /** The length of the word at the front of a text. */
  function WordLength(s: string): (n: nat)
    ensures n <= |s|
  {
    if s != "" && !Delimiter(s[0]) then 1 + WordLength(s[1..]) else 0
  }

  /** A decimal integer without leading zeros. */
  function Decimal(s: string): Option<int> {
    var digits := if s != "" && s[0] == '-' then s[1..] else s;
    if digits == "" || !Text.AllDigits(digits) || (|digits| > 1 && digits[0] == '0') then None
    else
      var n: int := Text.Value(digits);
      Some(if s[0] == '-' then 0 - n else n)
  }

  function ReadValue(b: Beyond, s: string): Option<Read<Value>>
    decreases |s|, 1
  {
    if s == "" then None
    else if s[0] == '"' then
      match ReadString(s) case None => None case Some(r) => Some(Read(Str(r.value), r.rest))
    else if s[0] == '{' then
      var t := SkipBlanks(s[1..]);
      if t != "" && t[0] == '}' then Some(Read(Env([]), t[1..])) else ReadPairs(b, t, Some([]))
    else
      match Decimal(s[..WordLength(s)])
      case Some(n) => Some(Read(Int(n), s[WordLength(s)..]))
      case None => Foreign(b, s)
  }

  /** The string pairs read so far with one more, while all of them are strings under simple keys. */
  function OneMore(sofar: Option<Dict<string>>, key: seq<string>, v: Value): Option<Dict<string>> {
    if sofar.Some? && |key| == 1 && v.Str? then Some(sofar.value + [Item(key[0], v.text)]) else None
  }

  /** The pairs of an inline table from the next one on; no key may come twice. */
  function ReadPairs(b: Beyond, s: string, sofar: Option<Dict<string>>): Option<Read<Value>>
    decreases |s|, 0
  {
    match ReadKey(s)
    case None => None
    case Some(key) =>
      if key.rest == "" || key.rest[0] != '=' || |key.rest| > |s| then None
      else if sofar.Some? && |key.value| == 1 && Has(sofar.value, key.value[0]) then None
      else match ReadValue(b, SkipBlanks(key.rest[1..]))
        case None => None
        case Some(v) =>
          var t, more := SkipBlanks(v.rest), OneMore(sofar, key.value, v.value);
          if t == "" then None
          else if t[0] == '}' then Some(Read(if more.Some? then Env(more.value) else Other, t[1..]))
          else if t[0] == ',' && |t| < |s| then ReadPairs(b, SkipBlanks(t[1..]), more)
          else None
  }

  // ---- Documents ----

  /** What a document says, in order: a table header, a table a dotted key implies, a value under a path. */
  datatype DocItem = Table(path: seq<string>) | Implied(path: seq<string>) | Set(path: seq<string>, value: Value)

  type Doc = seq<DocItem>

  /** A header may not repeat a table nor reach into a value. */
  predicate FitsTable(doc: Doc, path: seq<string>) {
    forall i :: 0 <= i < |doc| ==> if doc[i].Set? then !(doc[i].path <= path) else doc[i].path != path
  }

  /** A dotted key may not reopen a table that has a header nor reach into a value. */
  predicate FitsImplied(doc: Doc, path: seq<string>) {
    forall i :: 0 <= i < |doc| ==>
      match doc[i] case Set(p, _) => !(p <= path) case Table(p) => p != path case Implied(_) => true
  }

  /** A value may not stand where there is a value or a table, nor inside a value. */
  predicate FitsSet(doc: Doc, path: seq<string>) {
    forall i :: 0 <= i < |doc| ==> !(path <= doc[i].path) && (doc[i].Set? ==> !(doc[i].path <= path))
  }

  /** The tables a dotted key implies, from the `k`-th on. */
  function Containers(doc: Doc, header: seq<string>, key: seq<string>, k: nat): Option<Doc>
    decreases |key| - k
  {
    if k >= |key| then Some(doc)
    else if !FitsImplied(doc, header + key[..k]) then None
    else Containers(doc + [Implied(header + key[..k])], header, key, k + 1)
  }

  function AddKey(doc: Doc, header: seq<string>, key: seq<string>, v: Value): Option<Doc> {
    match Containers(doc, header, key, 1)
    case None => None
    case Some(d) => if FitsSet(d, header + key) then Some(d + [Set(header + key, v)]) else None
  }

  datatype Step = Step(doc: Doc, header: seq<string>, rest: string)

  function ReadHeader(s: string, doc: Doc): Option<Step> {
    match ReadKey(SkipBlanks(s))
    case None => None
    case Some(key) =>
      if key.rest == "" || key.rest[0] != ']' || !FitsTable(doc, key.value) then None
      else Some(Step(doc + [Table(key.value)], key.value, key.rest[1..]))
  }

  function ReadAssignment(b: Beyond, s: string, doc: Doc, header: seq<string>): Option<Step> {
    match ReadKey(s)
    case None => None
    case Some(key) =>
      if key.rest == "" || key.rest[0] != '=' then None
      else match ReadValue(b, SkipBlanks(key.rest[1..]))
        case None => None
        case Some(v) => match AddKey(doc, header, key.value, v.value)
          case None => None
          case Some(d) => Some(Step(d, header, v.rest))
  }

  function ReadStatement(b: Beyond, s: string, doc: Doc, header: seq<string>): Option<Step>
    requires s != ""
  {
    if s[0] == '#' then Some(Step(doc, header, s))
    else if "[[" <= s then
      match b.statement(doc, header, s)
      case None => None
      case Some(a) => if a.length <= |s| then Some(Step(doc + a.items, a.header, s[a.length..])) else None
    else if s[0] == '[' then ReadHeader(s[1..], doc)
    else ReadAssignment(b, s, doc, header)
  }

  /** The rest of a comment and its line end. */
  function SkipComment(s: string): Option<string> {
    if s == "" then Some("")
    else if s[0] == '\n' then Some(s[1..])
    else if Illegal(s[0], false) then None
    else SkipComment(s[1..])
  }

  /** After a statement the line must end, but for blanks and a comment. */
  function EndOfLine(s: string): Option<string> {
    var t := SkipBlanks(s);
    if t == "" then Some("")
    else if t[0] == '\n' then Some(t[1..])
    else if t[0] == '#' then SkipComment(t[1..])
    else None
  }

  function ReadDoc(b: Beyond, s: string, doc: Doc, header: seq<string>): Option<Doc>
    decreases |s|
  {
    var t := SkipBlanks(s);
    if t == "" then Some(doc)
    else if t[0] == '\n' then ReadDoc(b, t[1..], doc, header)
    else match ReadStatement(b, t, doc, header)
      case None => None
      case Some(step) => match EndOfLine(step.rest)
        case None => None
        case Some(rest) => if |rest| < |s| then ReadDoc(b, rest, step.doc, step.header) else None
  }

  /** The whole file. */
  function ReadText(b: Beyond, text: string): Option<Doc> {
    ReadDoc(b, Normalized(text), [], [])
  }

  /** Reading on only adds: what a document said before stays the front of what it says. */
  lemma {:induction false} ReadingAppends(b: Beyond, s: string, doc: Doc, header: seq<string>)
    ensures ReadDoc(b, s, doc, header).Some? ==> doc <= ReadDoc(b, s, doc, header).value
    decreases |s|
  {
    var t := SkipBlanks(s);
    if t != "" {
      if t[0] == '\n' {
        ReadingAppends(b, t[1..], doc, header);
      } else {
        var step := ReadStatement(b, t, doc, header);
        if step.Some? {
          StatementAppends(b, t, doc, header);
          var rest := EndOfLine(step.value.rest);
          if rest.Some? && |rest.value| < |s| {
            ReadingAppends(b, rest.value, step.value.doc, step.value.header);
          }
        }
      }
    }
  }

  lemma StatementAppends(b: Beyond, s: string, doc: Doc, header: seq<string>)
    requires s != "" && ReadStatement(b, s, doc, header).Some?
    ensures doc <= ReadStatement(b, s, doc, header).value.doc
  {
    if s[0] != '#' && s[0] != '[' {
      var key := ReadKey(s);
      ContainersAppend(doc, header, key.value.value, 1);
    }
  }

  lemma {:induction false} ContainersAppend(doc: Doc, header: seq<string>, key: seq<string>, k: nat)
    ensures Containers(doc, header, key, k).Some? ==> doc <= Containers(doc, header, key, k).value
    decreases |key| - k
  {
    if k < |key| && FitsImplied(doc, header + key[..k]) {
      ContainersAppend(doc + [Implied(header + key[..k])], header, key, k + 1);
    }
  }
}
