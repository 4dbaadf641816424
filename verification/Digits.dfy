/** The digits Python's `str.isdigit` and `int` know, by Unicode 14. */
module Digits {
  import opened Wrappers
  import Text

  /** The zeros of the decimal scripts other than ASCII, ascending; each starts a block of ten digits. */
  const ZEROS: seq<int> := INDIC_ZEROS + EASTERN_ZEROS + LATER_ZEROS

  const INDIC_ZEROS: seq<int> := [
    0x0660, 0x06F0, 0x07C0, 0x0966, 0x09E6, 0x0A66, 0x0AE6, 0x0B66, 0x0BE6, 0x0C66, 0x0CE6, 0x0D66, 0x0DE6]

  const EASTERN_ZEROS: seq<int> := [
    0x0E50, 0x0ED0, 0x0F20, 0x1040, 0x1090, 0x17E0, 0x1810, 0x1946, 0x19D0, 0x1A80, 0x1A90, 0x1B50, 0x1BB0,
    0x1C40, 0x1C50, 0xA620, 0xA8D0, 0xA900, 0xA9D0, 0xA9F0, 0xAA50, 0xABF0, 0xFF10]

  const LATER_ZEROS: seq<int> := [
    0x104A0, 0x10D30, 0x11066, 0x110F0, 0x11136, 0x111D0, 0x112F0, 0x11450, 0x114D0, 0x11650, 0x116C0, 0x11730,
    0x118E0, 0x11950, 0x11C50, 0x11D50, 0x11DA0, 0x16A60, 0x16AC0, 0x16B50, 0x1D7CE, 0x1D7D8, 0x1D7E2, 0x1D7EC,
    0x1D7F6, 0x1E140, 0x1E2F0, 0x1E950, 0x1FBF0]

  datatype Block = Block(first: int, last: int)

  /** Digits that are no decimals: superscripts, subscripts, circled digits and the like. */
  const OTHERS: seq<Block> := [
    Block(0xB2, 0xB3), Block(0xB9, 0xB9), Block(0x1369, 0x1371), Block(0x19DA, 0x19DA), Block(0x2070, 0x2070),
    Block(0x2074, 0x2079), Block(0x2080, 0x2089), Block(0x2460, 0x2468), Block(0x2474, 0x247C),
    Block(0x2488, 0x2490), Block(0x24EA, 0x24EA), Block(0x24F5, 0x24FD), Block(0x24FF, 0x24FF),
    Block(0x2776, 0x277E), Block(0x2780, 0x2788), Block(0x278A, 0x2792), Block(0x10A40, 0x10A43),
    Block(0x10E60, 0x10E68), Block(0x11052, 0x1105A), Block(0x1F100, 0x1F10A)]

  /** The digit that code point `n` is in one of the blocks, looked up in ascending order. */
  function InScript(n: int, zeros: seq<int>): (d: Option<nat>)
    ensures d.Some? ==> d.value < 10
  {
    if zeros == [] || n < zeros[0] then None
    else if n < zeros[0] + 10 then Some(n - zeros[0])
    else InScript(n, zeros[1..])
  }

  predicate InBlocks(n: int, blocks: seq<Block>) {
    blocks != [] && (blocks[0].first <= n <= blocks[0].last || InBlocks(n, blocks[1..]))
  }

  /** The value `int` gives a decimal digit of any script. */
  function Decimal(c: char): (d: Option<nat>)
    ensures d.Some? ==> d.value < 10
    ensures Text.IsDigit(c) ==> d == Some(c as int - '0' as int)
  {
    if Text.IsDigit(c) then Some(c as int - '0' as int) else InScript(c as int, ZEROS)
  }

  /** `str.isdigit` of one character. */
  predicate IsDigit(c: char) {
    Decimal(c).Some? || InBlocks(c as int, OTHERS)
  }

  /** `str.isdigit`. */
  predicate AllDigits(s: string) {
    s != "" && forall i :: 0 <= i < |s| ==> IsDigit(s[i])
  }

  /** `int` of a string of digits; it raises when one of them is no decimal. */
  function Number(s: string): Option<nat> {
    if s == "" then Some(0)
    else match (Number(s[..|s| - 1]), Decimal(s[|s| - 1]))
      case (Some(n), Some(d)) => Some(10 * n + d)
      case _ => None
  }

  /** `int` raises exactly when some digit is no decimal. */
  lemma {:induction false} NumberFails(s: string)
    ensures Number(s).None? <==> exists i :: 0 <= i < |s| && Decimal(s[i]).None?
  {
    if s != "" {
      var front, last := s[..|s| - 1], s[|s| - 1];
      NumberFails(front);
      if i :| 0 <= i < |s| && Decimal(s[i]).None? {
        if i < |front| {
          assert Decimal(front[i]).None?;
        }
      }
    }
  }

  lemma OneDigit(c: char)
    ensures Number([c]) == Decimal(c)
  {
    assert [c][..0] == "" && Number("") == Some(0);
  }

  /** The Arabic three is a decimal, the superscript two a digit only. */
  lemma Samples()
    ensures Decimal(0x663 as char) == Some(3)
    ensures Decimal(0xB2 as char) == None && IsDigit(0xB2 as char)
  {
    assert INDIC_ZEROS[0] == 0x660 && OTHERS[0] == Block(0xB2, 0xB3);
    assert ZEROS[0] == INDIC_ZEROS[0];
    assert InScript(0x663, ZEROS) == Some(3);
    assert InScript(0xB2, ZEROS) == None && InBlocks(0xB2, OTHERS);
  }

  /** On ASCII digits both agree with the ordinary decimal numerals. */
  lemma {:induction false} AsciiNumber(s: string)
    requires Text.AllDigits(s)
    ensures Number(s) == Some(Text.Value(s)) && (s != "" ==> AllDigits(s))
  {
    if s != "" {
      AsciiNumber(s[..|s| - 1]);
    }
  }
}
