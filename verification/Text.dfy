/** Strings: code-point order, decimal numerals, and the whitespace trimming the source uses. */
module Text {

  // ---- Order ----

  /** Lexicographic order by character, the order of sorted lists of names. */
  predicate AtMost(a: string, b: string) {
    a == [] || (b != [] && (a[0] < b[0] || (a[0] == b[0] && AtMost(a[1..], b[1..]))))
  }

  /** `a` has the smaller character where the two first differ. */
  ghost predicate SmallerAt(a: string, b: string, k: nat) {
    k < |a| && k < |b| && a[..k] == b[..k] && a[k] < b[k]
  }

  lemma SmallerAtTail(a: string, b: string, k: nat)
    requires a != [] && b != [] && a[0] == b[0]
    ensures SmallerAt(a, b, k + 1) <==> SmallerAt(a[1..], b[1..], k)
  {
    if k < |a| - 1 && k < |b| - 1 {
      assert a[..k + 1] == [a[0]] + a[1..][..k] && b[..k + 1] == [b[0]] + b[1..][..k];
    }
  }

  /** What the order means: a prefix comes first, otherwise the first difference decides. */
  lemma {:induction false} AtMostMeaning(a: string, b: string)
    ensures AtMost(a, b) <==> a <= b || exists k :: SmallerAt(a, b, k)
  {
    if a != [] && b != [] && a[0] == b[0] {
      AtMostMeaning(a[1..], b[1..]);
      assert a == [a[0]] + a[1..] && b == [b[0]] + b[1..];
      if k: nat :| SmallerAt(a, b, k) {
        SmallerAtTail(a, b, k - 1);
      }
      if k: nat :| SmallerAt(a[1..], b[1..], k) {
        SmallerAtTail(a, b, k);
      }
    } else if a != [] && b != [] && a[0] < b[0] {
      assert SmallerAt(a, b, 0);
    }
  }

  lemma {:induction false} AtMostTotal(a: string, b: string)
    ensures AtMost(a, b) || AtMost(b, a)
  {
    if a != [] && b != [] && a[0] == b[0] {
      AtMostTotal(a[1..], b[1..]);
    }
  }

  lemma {:induction false} AtMostTransitive(a: string, b: string, c: string)
    requires AtMost(a, b) && AtMost(b, c)
    ensures AtMost(a, c)
  {
    if a != [] && a[0] == b[0] == c[0] {
      AtMostTransitive(a[1..], b[1..], c[1..]);
    }
  }

  ghost predicate Sorted(s: seq<string>) {
    forall i, j :: 0 <= i < j < |s| ==> AtMost(s[i], s[j])
  }

  function Insert(x: string, s: seq<string>): (r: seq<string>)
    ensures multiset(r) == multiset(s) + multiset{x}
  {
    if s == [] || AtMost(x, s[0]) then [x] + s
    else
      assert s == [s[0]] + s[1..];
      [s[0]] + Insert(x, s[1..])
  }

  lemma {:induction false} InsertSorted(x: string, s: seq<string>)
    requires Sorted(s)
    ensures Sorted(Insert(x, s))
  {
    if s == [] {
    } else if AtMost(x, s[0]) {
      forall j | 0 <= j < |s|
        ensures AtMost(x, s[j])
      {
        if j > 0 {
          AtMostTransitive(x, s[0], s[j]);
        }
      }
    } else {
      var r := Insert(x, s[1..]);
      InsertSorted(x, s[1..]);
      AtMostTotal(x, s[0]);
      forall j | 0 <= j < |r|
        ensures AtMost(s[0], r[j])
      {
        assert r[j] in multiset(r);
      }
    }
  }

  function Sort(s: seq<string>): (r: seq<string>)
    ensures multiset(r) == multiset(s)
    ensures Sorted(r)
  {
    if s == [] then []
    else
      assert s == [s[0]] + s[1..];
      var rest := Sort(s[1..]);
      InsertSorted(s[0], rest);
      Insert(s[0], rest)
  }

  // ---- Decimal numerals ----

  predicate IsDigit(c: char) {
    '0' <= c <= '9'
  }

  predicate AllDigits(s: string) {
    forall i :: 0 <= i < |s| ==> IsDigit(s[i])
  }

  function Digit(d: nat): char
    requires d < 10
  {
    '0' + d as char
  }

  function Numeral(n: nat): (s: string)
    ensures s != [] && AllDigits(s)
  {
    if n < 10 then [Digit(n)] else Numeral(n / 10) + [Digit(n % 10)]
  }

  function Value(s: string): nat
    requires AllDigits(s)
  {
    if s == [] then 0 else 10 * Value(s[..|s| - 1]) + (s[|s| - 1] as int - '0' as int)
  }

  lemma {:induction false} NumeralValue(n: nat)
    ensures Value(Numeral(n)) == n
  {
    var s := Numeral(n);
    if n >= 10 {
      NumeralValue(n / 10);
      assert s[..|s| - 1] == Numeral(n / 10);
    } else {
      assert s[..0] == [];
    }
  }

  /** No leading zeros. */
  lemma {:induction false} NumeralIsShort(n: nat)
    ensures Numeral(n)[0] == '0' <==> n == 0
    ensures n == 0 ==> Numeral(n) == "0"
  {
    if n >= 10 {
      NumeralIsShort(n / 10);
    }
  }

  /** Distinct numbers have distinct numerals. */
  lemma NumeralInjective(m: nat, n: nat)
    requires Numeral(m) == Numeral(n)
    ensures m == n
  {
    NumeralValue(m);
    NumeralValue(n);
  }

  function SignedNumeral(i: int): string {
    if i < 0 then "-" + Numeral(-i) else Numeral(i)
  }

  // ---- Prefixes and infixes ----

  /** The prefix relation of `str.startswith`, on Dafny strings. */
  predicate StartsWith(s: string, prefix: string) {
    prefix <= s
  }

  /** Substring search, the relation of the `in` operator on strings. */
  predicate Contains(s: string, part: string) {
    part <= s || (s != [] && Contains(s[1..], part))
  }

  lemma {:induction false} ContainsMeaning(s: string, part: string)
    ensures Contains(s, part) <==> exists front, back :: s == front + part + back
  {
    if Contains(s, part) && !(part <= s) {
      ContainsMeaning(s[1..], part);
      var front, back :| s[1..] == front + part + back;
      assert s == ([s[0]] + front) + part + back;
    } else if part <= s {
      assert s == [] + part + s[|part|..];
    }
    if front, back :| s == front + part + back {
      if front == [] {
        assert s[..|part|] == part;
      } else {
        ContainsMeaning(s[1..], part);
        assert s[1..] == front[1..] + part + back;
      }
    }
  }

  // ---- Trimming ----

  /** The characters Python's `str.strip()` removes. */
  predicate IsSpace(c: char) {
    var n := c as int;
    || 0x09 <= n <= 0x0D || 0x1C <= n <= 0x20 || n == 0x85 || n == 0xA0 || n == 0x1680
    || 0x2000 <= n <= 0x200A || n == 0x2028 || n == 0x2029 || n == 0x202F || n == 0x205F || n == 0x3000
  }

  function TrimLeft(s: string): string {
    if s != [] && IsSpace(s[0]) then TrimLeft(s[1..]) else s
  }

  function TrimRight(s: string): string {
    if s != [] && IsSpace(s[|s| - 1]) then TrimRight(s[..|s| - 1]) else s
  }

  function Trim(s: string): string {
    TrimRight(TrimLeft(s))
  }

  /** Neither end of `s` is white space. */
  predicate Trimmed(s: string) {
    s == [] || (!IsSpace(s[0]) && !IsSpace(s[|s| - 1]))
  }

  lemma {:induction false} TrimLeftSize(s: string)
    ensures |TrimLeft(s)| <= |s|
    ensures TrimLeft(s) != s ==> |TrimLeft(s)| < |s|
    ensures TrimLeft(s) == s <==> s == [] || !IsSpace(s[0])
  {
    if s != [] && IsSpace(s[0]) {
      TrimLeftSize(s[1..]);
    }
  }

  lemma {:induction false} TrimRightSize(s: string)
    ensures |TrimRight(s)| <= |s|
    ensures TrimRight(s) != s ==> |TrimRight(s)| < |s|
    ensures TrimRight(s) == s <==> s == [] || !IsSpace(s[|s| - 1])
  {
    if s != [] && IsSpace(s[|s| - 1]) {
      TrimRightSize(s[..|s| - 1]);
    }
  }

  lemma {:induction false} TrimLeftKeeps(s: string)
    ensures forall c :: c in TrimLeft(s) ==> c in s
  {
    if s != [] && IsSpace(s[0]) {
      TrimLeftKeeps(s[1..]);
      assert forall c :: c in s[1..] ==> c in s;
    }
  }

  lemma {:induction false} TrimRightKeeps(s: string)
    ensures forall c :: c in TrimRight(s) ==> c in s
  {
    if s != [] && IsSpace(s[|s| - 1]) {
      TrimRightKeeps(s[..|s| - 1]);
      assert forall c :: c in s[..|s| - 1] ==> c in s;
    }
  }

  lemma TrimKeeps(s: string)
    ensures forall c :: c in Trim(s) ==> c in s
  {
    TrimLeftKeeps(s);
    TrimRightKeeps(TrimLeft(s));
  }

  predicate AllSpace(s: string) {
    forall i :: 0 <= i < |s| ==> IsSpace(s[i])
  }

  lemma {:induction false} TrimLeftCuts(s: string) returns (front: string)
    ensures s == front + TrimLeft(s) && AllSpace(front)
  {
    front := [];
    if s != [] && IsSpace(s[0]) {
      front := TrimLeftCuts(s[1..]);
      front := [s[0]] + front;
    }
  }

  lemma {:induction false} TrimRightCuts(s: string) returns (back: string)
    ensures s == TrimRight(s) + back && AllSpace(back)
    ensures TrimRight(s) == [] || (TrimRight(s)[0] == s[0] && !IsSpace(TrimRight(s)[|TrimRight(s)| - 1]))
  {
    back := [];
    if s != [] && IsSpace(s[|s| - 1]) {
      back := TrimRightCuts(s[..|s| - 1]);
      back := back + [s[|s| - 1]];
    }
  }

  /** Trimming cuts off white space at both ends, and all of it. */
  lemma TrimCuts(s: string) returns (front: string, back: string)
    ensures s == front + Trim(s) + back && AllSpace(front) && AllSpace(back)
    ensures Trimmed(Trim(s))
  {
    TrimLeftStops(s);
    front := TrimLeftCuts(s);
    back := TrimRightCuts(TrimLeft(s));
  }

  lemma {:induction false} TrimLeftStops(s: string)
    ensures TrimLeft(s) == [] || !IsSpace(TrimLeft(s)[0])
  {
    if s != [] && IsSpace(s[0]) {
      TrimLeftStops(s[1..]);
    }
  }

  /** Trimming changes exactly the strings with white space at an end. */
  lemma TrimFixed(s: string)
    ensures |Trim(s)| <= |s|
    ensures Trim(s) == s <==> Trimmed(s)
  {
    TrimLeftSize(s);
    TrimRightSize(TrimLeft(s));
  }
}
