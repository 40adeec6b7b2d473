/** Types and constants of C that several parts share. */
module Basics {

  datatype Option<+T> = None | Some(value: T)

  type Byte = x: int | 0 <= x < 256

  const INT_MAX := 0x7fff_ffff

  /** The number of values of an unsigned int. */
  const WORD := 0x1_0000_0000

  /** The set with `x` in it, or without. */
  ghost function Marked<T>(a: set<T>, x: T, there: bool): set<T> {
    if there then a + {x} else a - {x}
  }

  lemma MarkedSame<T>(a: set<T>, x: T)
    ensures Marked(a, x, x in a) == a
  {
  }

  /** The value of a hexadecimal digit of either case, or -1. */
  function HexVal(c: char): int {
    if '0' <= c <= '9' then c as int - '0' as int
    else if 'a' <= c <= 'f' then c as int - 'a' as int + 10
    else if 'A' <= c <= 'F' then c as int - 'A' as int + 10
    else -1
  }

  /** The value is the place of the digit in one of two strings, as in xdigits_l and xdigits_u of inet.c. */
  lemma HexValExact(c: char, v: int)
    ensures 0 <= v < 16 ==> (HexVal(c) == v <==> c == "0123456789abcdef"[v] || c == "0123456789ABCDEF"[v])
    ensures HexVal(c) == -1 <==> c !in "0123456789abcdef" && c !in "0123456789ABCDEF"
    ensures -1 <= HexVal(c) < 16
  {
    assert 0 <= v < 10 ==> "0123456789abcdef"[v] as int == '0' as int + v;
    assert 10 <= v < 16 ==> "0123456789abcdef"[v] as int == 'a' as int + v - 10;
    assert 0 <= v < 10 ==> "0123456789ABCDEF"[v] as int == '0' as int + v;
    assert 10 <= v < 16 ==> "0123456789ABCDEF"[v] as int == 'A' as int + v - 10;
    var d := HexVal(c);
    if d >= 0 {
      assert c == "0123456789abcdef"[d] || c == "0123456789ABCDEF"[d];
    }
  }
}
