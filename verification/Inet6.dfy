/** Text of IPv6 addresses: inet_ntop6 and inet_pton6 of libs/libuv/inet.c. */
module Inet6 {
  import opened Basics
  import opened Inet4

  const TMP6_SIZE := 46

  function HexChar(d: int): char
    requires 0 <= d < 16
  {
    if d < 10 then '0' + d as char else 'a' + (d - 10) as char
  }

  /** The output of %x. */
  function Hex(n: nat): string {
    if n < 16 then [HexChar(n)] else Hex(n / 16) + [HexChar(n % 16)]
  }

  type Word = x: int | 0 <= x < 65536

  function WordAt(b: seq<Byte>, i: int): Word
    requires |b| == 16 && 0 <= i < 8
  {
    var hi: int, lo: int := b[2 * i], b[2 * i + 1];
    hi * 256 + lo
  }

  // ---------- Printing ----------

  /** A run of zero words; base == -1 stands for no run. */
  datatype Zeros = Zeros(base: int, len: int)

  predicate Inside(z: Zeros, i: int) {
    z.base != -1 && z.base <= i < z.base + z.len
  }

  /** The test for an encapsulated IPv4 address, at word 6. */
  predicate Embedded(b: seq<Byte>, z: Zeros)
    requires |b| == 16
  {
    z.base == 0 && (z.len == 6 || (z.len == 7 && WordAt(b, 7) != 1) || (z.len == 5 && WordAt(b, 5) == 0xffff))
  }

  /** What the formatting loop prints from word `i` on, with the colon of a trailing run. */
  function PrintFrom(b: seq<Byte>, z: Zeros, i: nat): string
    requires |b| == 16 && i <= 8
    decreases 8 - i
  {
    if i == 8 then
      if z.base != -1 && z.base + z.len == 8 then ":" else ""
    else if Inside(z, i) then
      (if i == z.base then ":" else "") + PrintFrom(b, z, i + 1)
    else
      (if i != 0 then ":" else "") +
      if i == 6 && Embedded(b, z) then
        Print4(b[12..]) + (if z.base + z.len == 8 then ":" else "")
      else
        Hex(WordAt(b, i)) + PrintFrom(b, z, i + 1)
  }

  // ---------- Parsing as a function ----------

  /** The bytes written so far, the position of "::" (-1: none), val, seen_xdigits and curtok. */
  datatype Six = Six(out: seq<Byte>, colon: int, val: int, seen: int, tok: nat)

  function WordBytes(w: int): seq<Byte>
    requires 0 <= w < 65536
  {
    [w / 256, w % 256]
  }

  ghost predicate SixOk(s: string, x: Six) {
    |x.out| <= 16 && -1 <= x.colon <= |x.out| && 0 <= x.seen <= 4 && 0 <= x.val < Pow16(x.seen) && x.tok <= |s|
  }

  function Pow16(k: nat): nat {
    if k == 0 then 1 else 16 * Pow16(k - 1)
  }

  /** The end of inet_pton6, from the shift on. */
  function Shifted(out: seq<Byte>, colon: int): Result<seq<Byte>>
    requires |out| <= 16 && -1 <= colon <= |out|
  {
    if colon >= 0 then
      if |out| == 16 then Err(EINVAL)
      else Ok(out[..colon] + seq(16 - |out|, _ => 0) + out[colon..])
    else if |out| != 16 then Err(EINVAL)
    else Ok(out)
  }

  function Finish6(s: string, x: Six): Result<seq<Byte>>
    requires SixOk(s, x)
  {
    if x.seen > 0 then
      if |x.out| + 2 > 16 then Err(EINVAL)
      else
        Pow16Four(x.seen);
        Shifted(x.out + WordBytes(x.val), x.colon)
    else Shifted(x.out, x.colon)
  }

  lemma Pow16Four(k: nat)
    requires k <= 4
    ensures Pow16(k) <= 65536
  {
    assert Pow16(4) == 65536 && Pow16(3) == 4096 && Pow16(2) == 256 && Pow16(1) == 16;
  }

  function Run6(s: string, i: nat, x: Six): Result<seq<Byte>>
    requires i <= |s| && SixOk(s, x)
    decreases |s| - i
  {
    if i == |s| then Finish6(s, x)
    else
      var c, d := s[i], HexVal(s[i]);
      if d >= 0 then
        if x.seen + 1 > 4 then Err(EINVAL)
        else Run6(s, i + 1, x.(val := x.val * 16 + d, seen := x.seen + 1))
      else if c == ':' then
        if x.seen == 0 then
          if x.colon >= 0 then Err(EINVAL)
          else Run6(s, i + 1, x.(colon := |x.out|, tok := i + 1))
        else if i + 1 == |s| then Err(EINVAL)
        else if |x.out| + 2 > 16 then Err(EINVAL)
        else
          Pow16Four(x.seen);
          Run6(s, i + 1, Six(x.out + WordBytes(x.val), x.colon, 0, 0, i + 1))
      else if c == '.' && |x.out| + 4 <= 16 then
        match Parse4(s[x.tok..])
        case Ok(q) =>
          Parse4Exact(s[x.tok..], q);
          Finish6(s, Six(x.out + q, x.colon, 0, 0, x.tok))
        case Err(_) => Err(EINVAL)
      else Err(EINVAL)
  }

  function Parse6(s: string): Result<seq<Byte>> {
    var start := if s != "" && s[0] == ':' then 1 else 0;
    if start == 1 && (|s| == 1 || s[1] != ':') then Err(EINVAL)
    else Run6(s, start, Six([], -1, 0, 0, start))
  }

  // ---------- Steps of the parser on printed text ----------

  lemma HexRoundTrip(d: int)
    requires 0 <= d < 16
    ensures HexVal(HexChar(d)) == d
  {
  }

  lemma {:induction false} HexLength(w: nat, k: nat)
    requires 1 <= k && w < Pow16(k)
    ensures 1 <= |Hex(w)| <= k && w < Pow16(|Hex(w)|)
    decreases k
  {
    if w >= 16 {
      assert Pow16(1) == 16;
      HexLength(w / 16, k - 1);
    } else {
      assert Pow16(1) == 16;
    }
  }

  ghost predicate TextAt(s: string, i: int, t: string) {
    0 <= i && i + |t| <= |s| && s[i..i + |t|] == t
  }

  lemma TextSplit(s: string, i: int, a: string, b: string)
    requires TextAt(s, i, a + b)
    ensures TextAt(s, i, a) && TextAt(s, i + |a|, b)
  {
    assert s[i..i + |a + b|][..|a|] == s[i..i + |a|];
    assert s[i..i + |a + b|][|a|..] == s[i + |a|..i + |a + b|];
    assert (a + b)[..|a|] == a && (a + b)[|a|..] == b;
  }

  ghost predicate HexText(g: string) {
    forall k :: 0 <= k < |g| ==> HexVal(g[k]) >= 0
  }

  /** The value of the digits. */
  ghost function HexNum(g: string): (v: nat)
    requires HexText(g)
    ensures v < Pow16(|g|)
  {
    if g == "" then 0 else HexNum(g[..|g| - 1]) * 16 + HexVal(g[|g| - 1])
  }

  lemma RunDigit(s: string, i: nat, x: Six)
    requires SixOk(s, x) && x.seen < 4 && i < |s| && HexVal(s[i]) >= 0
    ensures var y := x.(val := x.val * 16 + HexVal(s[i]), seen := x.seen + 1);
            SixOk(s, y) && Run6(s, i, x) == Run6(s, i + 1, y)
  {
  }

  lemma HexNumNext(g: string, k: nat)
    requires HexText(g) && k < |g|
    ensures HexNum(g[..k + 1]) == HexNum(g[..k]) * 16 + HexVal(g[k])
  {
    assert g[..k + 1][..k] == g[..k];
  }

  lemma {:induction false} RunDigits(s: string, i: nat, x: Six, g: string, k: nat)
    requires SixOk(s, x) && x.seen == 0 && x.val == 0 && k <= |g| <= 4 && HexText(g) && TextAt(s, i, g)
    ensures var y := x.(val := HexNum(g[..k]), seen := k);
            SixOk(s, y) && Run6(s, i, x) == Run6(s, i + k, y)
    decreases k
  {
    hide Run6, HexNum, Pow16, SixOk;
    if k == 0 {
      NoDigits(g, x);
    } else {
      RunDigits(s, i, x, g, k - 1);
      HexNumNext(g, k - 1);
      assert s[i..i + |g|][k - 1] == s[i + k - 1];
      RunDigit(s, i + k - 1, x.(val := HexNum(g[..k - 1]), seen := k - 1));
    }
  }

  lemma NoDigits(g: string, x: Six)
    requires x.seen == 0 && x.val == 0
    ensures HexText(g[..0]) && x.(val := HexNum(g[..0]), seen := 0) == x
  {
  }

  /** Up to four digits of either case. */
  lemma RunGroup(s: string, i: nat, x: Six, g: string)
    requires SixOk(s, x) && x.seen == 0 && x.val == 0 && |g| <= 4 && HexText(g) && TextAt(s, i, g)
    ensures var y := x.(val := HexNum(g), seen := |g|);
            SixOk(s, y) && Run6(s, i, x) == Run6(s, i + |g|, y)
  {
    hide Run6, HexNum, SixOk;
    RunDigits(s, i, x, g, |g|);
    assert g[..|g|] == g;
  }

  lemma {:induction false} HexNumHex(w: nat)
    ensures HexText(Hex(w)) && HexNum(Hex(w)) == w
  {
    HexRoundTrip(w % 16);
    if w >= 16 {
      HexNumHex(w / 16);
      assert Hex(w)[..|Hex(w)| - 1] == Hex(w / 16);
    } else {
      assert Hex(w)[..0] == "";
    }
  }

  lemma RunHex(s: string, i: nat, x: Six, w: nat)
    requires SixOk(s, x) && x.seen == 0 && x.val == 0 && w < 65536 && TextAt(s, i, Hex(w))
    ensures var y := x.(val := w, seen := |Hex(w)|);
            SixOk(s, y) && y.seen > 0 && Run6(s, i, x) == Run6(s, i + |Hex(w)|, y)
  {
    hide Run6;
    assert Pow16(4) == 65536;
    HexLength(w, 4);
    HexNumHex(w);
    RunGroup(s, i, x, Hex(w));
  }

  /** A colon after a word: the word is written. */
  lemma RunColon(s: string, i: nat, x: Six)
    requires SixOk(s, x) && x.seen > 0 && i + 1 < |s| && s[i] == ':' && |x.out| + 2 <= 16 && x.val < 65536
    ensures var y := Six(x.out + WordBytes(x.val), x.colon, 0, 0, i + 1);
            SixOk(s, y) && Run6(s, i, x) == Run6(s, i + 1, y)
  {
  }

  /** A colon without a word before it: the place of "::". */
  lemma RunDoubleColon(s: string, i: nat, x: Six)
    requires SixOk(s, x) && x.seen == 0 && i < |s| && s[i] == ':' && x.colon == -1
    ensures var y := x.(colon := |x.out|, tok := i + 1);
            SixOk(s, y) && Run6(s, i, x) == Run6(s, i + 1, y)
  {
  }

  lemma {:induction false} DecIsHex(n: nat, k: nat)
    requires k < |Dec(n)|
    ensures 0 <= HexVal(Dec(n)[k]) < 16
  {
    if n >= 10 && k < |Dec(n)| - 1 {
      DecIsHex(n / 10, k);
    }
  }

  /** A dotted quad at the end of the text. */
  lemma RunQuad(s: string, i: nat, x: Six, q: seq<Byte>)
    requires SixOk(s, x) && x.seen == 0 && x.tok == i && |q| == 4 && |x.out| + 4 <= 16
    requires TextAt(s, i, Print4(q)) && i + |Print4(q)| == |s|
    ensures Run6(s, i, x) == Shifted(x.out + q, x.colon)
  {
    var d, rest := Dec(q[0]), "." + Dec(q[1]) + "." + Dec(q[2]) + "." + Dec(q[3]);
    assert Print4(q) == d + rest;
    TextSplit(s, i, d, rest);
    DecLength(q[0]);
    forall k | 0 <= k < |d| ensures HexVal(d[k]) >= 0 {
      DecIsHex(q[0], k);
    }
    RunGroup(s, i, x, d);
    assert s[i + |d|] == s[i + |d|..i + |d| + |rest|][0] == '.';
    assert s[i..] == Print4(q);
    ParsePrint4(q);
  }

  // ---------- Round trip ----------

  ghost predicate ZerosOk(b: seq<Byte>, z: Zeros)
    requires |b| == 16
  {
    z.base == -1 ||
    (0 <= z.base && 2 <= z.len && z.base + z.len <= 8 && forall i :: z.base <= i < z.base + z.len ==> WordAt(b, i) == 0)
  }

  lemma BytesOfWord(b: seq<Byte>, i: int)
    requires |b| == 16 && 0 <= i < 8
    ensures WordBytes(WordAt(b, i)) == b[2 * i..2 * i + 2]
  {
  }

  /** The parts of the printed text. */
  lemma PrintParts(b: seq<Byte>, z: Zeros, i: nat)
    requires |b| == 16 && i < 8 && !Inside(z, i)
    ensures i == 6 && Embedded(b, z) && z.base + z.len < 8 ==> PrintFrom(b, z, i) == ":" + Print4(b[12..])
    ensures !(i == 6 && Embedded(b, z)) ==>
              PrintFrom(b, z, i) == (if i != 0 then ":" else "") + (Hex(WordAt(b, i)) + PrintFrom(b, z, i + 1))
  {
    assert Print4(b[12..]) + "" == Print4(b[12..]);
  }

  lemma PrintEnd(s: string, p: int, b: seq<Byte>, z: Zeros)
    requires |b| == 16 && (z.base == -1 || z.base + z.len < 8) && Ends(s, p, PrintFrom(b, z, 8))
    ensures p == |s|
  {
  }

  ghost predicate Ends(s: string, p: int, t: string) {
    TextAt(s, p, t) && p + |t| == |s|
  }

  lemma EndsSplit(s: string, p: int, a: string, b: string)
    requires Ends(s, p, a + b)
    ensures TextAt(s, p, a) && Ends(s, p + |a|, b)
    ensures a != [] ==> s[p] == a[0]
    ensures b != [] ==> p + |a| < |s|
  {
    TextSplit(s, p, a, b);
    assert a != [] ==> s[p..p + |a|][0] == s[p];
  }

  /** A colon and a word, after a word. */
  lemma RunWord(s: string, p: nat, x: Six, w: nat, t: string)
    requires SixOk(s, x) && x.seen > 0 && x.val < 65536 && |x.out| + 2 <= 16 && w < 65536
    requires Ends(s, p, ":" + (Hex(w) + t))
    ensures var y := Six(x.out + WordBytes(x.val), x.colon, w, |Hex(w)|, p + 1);
            && SixOk(s, y) && y.seen > 0 && Run6(s, p, x) == Run6(s, p + 1 + |Hex(w)|, y)
            && Ends(s, p + 1 + |Hex(w)|, t)
  {
    hide Run6;
    EndsSplit(s, p, ":", Hex(w) + t);
    EndsSplit(s, p + 1, Hex(w), t);
    RunColon(s, p, x);
    RunHex(s, p + 1, Six(x.out + WordBytes(x.val), x.colon, 0, 0, p + 1), w);
  }

  /** A colon and a dotted quad, after a word. */
  lemma RunWordQuad(s: string, p: nat, x: Six, q: seq<Byte>)
    requires SixOk(s, x) && x.seen > 0 && x.val < 65536 && |x.out| + 6 <= 16 && |q| == 4
    requires Ends(s, p, ":" + Print4(q))
    ensures Run6(s, p, x) == Shifted(x.out + WordBytes(x.val) + q, x.colon)
  {
    Print4Length(q);
    hide Run6, Print4;
    EndsSplit(s, p, ":", Print4(q));
    RunColon(s, p, x);
    RunQuad(s, p + 1, Six(x.out + WordBytes(x.val), x.colon, 0, 0, p + 1), q);
  }

  lemma RunEnd(s: string, p: nat, x: Six)
    requires SixOk(s, x) && x.seen > 0 && x.val < 65536 && |x.out| + 2 <= 16 && p == |s|
    ensures Run6(s, p, x) == Shifted(x.out + WordBytes(x.val), x.colon)
  {
  }

  lemma Rejoin(out: seq<Byte>, b: seq<Byte>, i: int, j: int)
    requires 0 <= i <= j <= |b|
    ensures out + b[i..j] + b[j..] == out + b[i..]
  {
  }

  /** Words after the run, or all words if there is none; word i - 1 has been read but not written. */
  lemma {:induction false} RunTail(s: string, p: nat, x: Six, b: seq<Byte>, z: Zeros, i: int)
    requires SixOk(s, x) && |b| == 16 && 1 <= i <= 8 && (z.base == -1 || (0 <= z.base && z.base + z.len <= i - 1))
    requires Ends(s, p, PrintFrom(b, z, i)) && x.seen > 0 && x.val == WordAt(b, i - 1) && |x.out| <= 2 * (i - 1)
    ensures Run6(s, p, x) == Shifted(x.out + b[2 * (i - 1)..], x.colon)
    decreases 8 - i
  {
    hide Run6, PrintFrom, Hex, SixOk, WordAt, WordBytes, Shifted, Ends, Print4;
    BytesOfWord(b, i - 1);
    if i == 8 {
      PrintEnd(s, p, b, z);
      RunEnd(s, p, x);
      assert b[14..16] == b[14..];
    } else {
      PrintParts(b, z, i);
      if i == 6 && Embedded(b, z) {
        RunWordQuad(s, p, x, b[12..]);
        Rejoin(x.out, b, 10, 12);
      } else {
        var w := WordAt(b, i);
        RunWord(s, p, x, w, PrintFrom(b, z, i + 1));
        RunTail(s, p + 1 + |Hex(w)|, Six(x.out + b[2 * (i - 1)..2 * i], x.colon, w, |Hex(w)|, p + 1), b, z, i + 1);
        Rejoin(x.out, b, 2 * (i - 1), 2 * i);
      }
    }
  }

  /** The second colon of "::", and the words after the run. */
  lemma RunAfter(s: string, p: nat, x: Six, b: seq<Byte>, z: Zeros)
    requires SixOk(s, x) && |b| == 16 && 0 <= z.base && 2 <= z.len && z.base + z.len < 8
    requires Ends(s, p, PrintFrom(b, z, z.base + z.len)) && |x.out| == 2 * z.base
    requires x.seen == 0 && x.val == 0 && x.colon == -1
    ensures Run6(s, p, x) == Shifted(x.out + b[2 * (z.base + z.len)..], |x.out|)
  {
    hide Run6, PrintFrom, Hex, Print4, WordAt, Shifted, Ends, TextAt, SixOk;
    var i := z.base + z.len;
    PrintParts(b, z, i);
    Print4Length(b[12..]);
    var y := x.(colon := |x.out|, tok := p + 1);
    if i == 6 && Embedded(b, z) {
      EndsSplit(s, p, ":", Print4(b[12..]));
      RunDoubleColon(s, p, x);
      RunQuad(s, p + 1, y, b[12..]);
    } else {
      var w, t := WordAt(b, i), PrintFrom(b, z, i + 1);
      EndsSplit(s, p, ":", Hex(w) + t);
      EndsSplit(s, p + 1, Hex(w), t);
      RunDoubleColon(s, p, x);
      RunHex(s, p + 1, y, w);
      RunTail(s, p + 1 + |Hex(w)|, y.(val := w, seen := |Hex(w)|), b, z, i + 1);
    }
  }

  /** Inside the run nothing is printed. */
  lemma {:induction false} PrintInside(b: seq<Byte>, z: Zeros, i: int)
    requires |b| == 16 && 0 <= z.base < i <= z.base + z.len <= 8
    ensures PrintFrom(b, z, i) == PrintFrom(b, z, z.base + z.len)
    decreases z.base + z.len - i
  {
    if i < z.base + z.len {
      PrintInside(b, z, i + 1);
    }
  }

  lemma PrintZeros(b: seq<Byte>, z: Zeros)
    requires |b| == 16 && 0 <= z.base && 2 <= z.len && z.base + z.len <= 8
    ensures PrintFrom(b, z, z.base) == ":" + PrintFrom(b, z, z.base + z.len)
    ensures PrintFrom(b, z, z.base + z.len) != "" && PrintFrom(b, z, z.base + z.len)[0] == ':'
  {
    PrintInside(b, z, z.base + 1);
  }

  /** Putting the zeros back gives the address. */
  lemma ShiftBack(b: seq<Byte>, z: Zeros)
    requires |b| == 16 && ZerosOk(b, z) && z.base != -1
    ensures Shifted(b[..2 * z.base] + b[2 * (z.base + z.len)..], 2 * z.base) == Ok(b)
  {
    var out := b[..2 * z.base] + b[2 * (z.base + z.len)..];
    var r := out[..2 * z.base] + seq(16 - |out|, _ => 0) + out[2 * z.base..];
    assert |r| == 16;
    forall k | 0 <= k < 16 ensures r[k] == b[k] {
      if 2 * z.base <= k < 2 * (z.base + z.len) {
        assert WordAt(b, k / 2) == 0;
      }
    }
    assert r == b;
  }

  /** The text after the first colon of "::". */
  lemma RunZeros(s: string, p: nat, x: Six, b: seq<Byte>, z: Zeros)
    requires SixOk(s, x) && |b| == 16 && ZerosOk(b, z) && z.base != -1
    requires Ends(s, p, PrintFrom(b, z, z.base + z.len)) && x.out == b[..2 * z.base]
    requires x.seen == 0 && x.val == 0 && x.colon == -1
    ensures Run6(s, p, x) == Ok(b)
  {
    ShiftBack(b, z);
    if z.base + z.len == 8 {
      assert PrintFrom(b, z, 8) == ":" && s[p..p + 1][0] == s[p];
      RunDoubleColon(s, p, x);
      assert b[..2 * z.base] + b[16..] == b[..2 * z.base];
    } else {
      RunAfter(s, p, x, b, z);
    }
  }

  /** Words before the run; word i - 1 has been read but not written. */
  lemma {:induction false} RunHead(s: string, p: nat, x: Six, b: seq<Byte>, z: Zeros, i: int)
    requires SixOk(s, x) && |b| == 16 && ZerosOk(b, z) && 1 <= i <= z.base
    requires Ends(s, p, PrintFrom(b, z, i)) && x.colon == -1
    requires x.seen > 0 && x.val == WordAt(b, i - 1) && x.out == b[..2 * (i - 1)]
    ensures Run6(s, p, x) == Ok(b)
    decreases z.base - i
  {
    hide Run6, PrintFrom, Hex, WordAt, WordBytes, Ends, TextAt;
    BytesOfWord(b, i - 1);
    assert b[..2 * (i - 1)] + b[2 * (i - 1)..2 * i] == b[..2 * i];
    if i == z.base {
      var t := PrintFrom(b, z, z.base + z.len);
      PrintZeros(b, z);
      EndsSplit(s, p, ":", t);
      RunColon(s, p, x);
      RunZeros(s, p + 1, Six(b[..2 * i], -1, 0, 0, p + 1), b, z);
    } else {
      PrintParts(b, z, i);
      var w := WordAt(b, i);
      RunWord(s, p, x, w, PrintFrom(b, z, i + 1));
      RunHead(s, p + 1 + |Hex(w)|, Six(b[..2 * i], -1, w, |Hex(w)|, p + 1), b, z, i + 1);
    }
  }

  lemma HexFirst(w: nat)
    requires w < 65536
    ensures |Hex(w)| >= 1 && HexVal(Hex(w)[0]) >= 0
    decreases w
  {
    if w >= 16 {
      HexFirst(w / 16);
    } else {
      HexRoundTrip(w);
    }
  }

  /** For every run of zero words that is left out, the text is read back as the address. */
  lemma ParsePrint(b: seq<Byte>, z: Zeros)
    requires |b| == 16 && ZerosOk(b, z)
    ensures Parse6(PrintFrom(b, z, 0)) == Ok(b)
  {
    if z.base == 0 {
      ParseLeading(b, z);
    } else {
      ParseWord(b, z);
    }
  }

  lemma EndsAll(s: string)
    ensures Ends(s, 0, s)
  {
  }

  /** The first character, and what follows the first word. */
  lemma FirstWord(s: string, b: seq<Byte>, z: Zeros)
    requires |b| == 16 && (z.base == -1 || z.base > 0) && s == PrintFrom(b, z, 0)
    ensures s != "" && s[0] != ':' && TextAt(s, 0, Hex(WordAt(b, 0)))
    ensures Ends(s, |Hex(WordAt(b, 0))|, PrintFrom(b, z, 1))
  {
    hide PrintFrom, WordAt, Hex, Ends, TextAt, Embedded, Print4;
    var w, t := WordAt(b, 0), PrintFrom(b, z, 1);
    PrintParts(b, z, 0);
    HexFirst(w);
    EndsAll(s);
    assert s == Hex(w) + t;
    EndsSplit(s, 0, Hex(w), t);
  }

  lemma ParseStart(s: string)
    requires s != "" && s[0] != ':'
    ensures SixOk(s, Six([], -1, 0, 0, 0)) && Parse6(s) == Run6(s, 0, Six([], -1, 0, 0, 0))
  {
  }

  lemma ParseLeading(b: seq<Byte>, z: Zeros)
    requires |b| == 16 && ZerosOk(b, z) && z.base == 0
    ensures Parse6(PrintFrom(b, z, 0)) == Ok(b)
  {
    hide Run6, WordAt, PrintFrom, Ends, TextAt;
    var s, t := PrintFrom(b, z, 0), PrintFrom(b, z, z.len);
    EndsAll(s);
    PrintZeros(b, z);
    EndsSplit(s, 0, ":", t);
    RunZeros(s, 1, Six([], -1, 0, 0, 1), b, z);
  }

  lemma ParseWord(b: seq<Byte>, z: Zeros)
    requires |b| == 16 && ZerosOk(b, z) && z.base != 0
    ensures Parse6(PrintFrom(b, z, 0)) == Ok(b)
  {
    hide Run6, WordAt, PrintFrom, Hex, Ends, TextAt, Parse6;
    var s, w, t := PrintFrom(b, z, 0), WordAt(b, 0), PrintFrom(b, z, 1);
    FirstWord(s, b, z);
    ParseStart(s);
    var x := Six([], -1, 0, 0, 0);
    RunHex(s, 0, x, w);
    var y := x.(val := w, seen := |Hex(w)|);
    if z.base == -1 {
      RunTail(s, |Hex(w)|, y, b, z, 1);
      assert [] + b[0..] == b;
    } else {
      RunHead(s, |Hex(w)|, y, b, z, 1);
    }
  }

  // ---------- The run that is left out ----------

  const NoZeros := Zeros(-1, 0)

  function Longer(best: Zeros, cur: Zeros): Zeros {
    if cur.base != -1 && (best.base == -1 || cur.len > best.len) then cur else best
  }

  /** The loop over the words, from word `i` on, and the two tests after it. */
  function Scan(b: seq<Byte>, i: nat, best: Zeros, cur: Zeros): Zeros
    requires |b| == 16 && i <= 8
    decreases 8 - i
  {
    if i == 8 then
      var z := Longer(best, cur);
      if z.base != -1 && z.len < 2 then z.(base := -1) else z
    else if WordAt(b, i) == 0 then
      Scan(b, i + 1, best, if cur.base == -1 then Zeros(i, 1) else cur.(len := cur.len + 1))
    else
      Scan(b, i + 1, Longer(best, cur), cur.(base := -1))
  }

  function Best(b: seq<Byte>): Zeros
    requires |b| == 16
  {
    Scan(b, 0, NoZeros, NoZeros)
  }

  function Print6(b: seq<Byte>): string
    requires |b| == 16
  {
    PrintFrom(b, Best(b), 0)
  }

  ghost predicate ZeroRun(b: seq<Byte>, j: int, m: int)
    requires |b| == 16
  {
    0 <= j && 0 < m && j + m <= 8 && forall i :: j <= i < j + m ==> WordAt(b, i) == 0
  }

  /** `z` beats the run of `m` zero words at `j`: it is longer, or as long and not later. */
  ghost predicate Beats(z: Zeros, j: int, m: int) {
    z.base != -1 && (m < z.len || (m == z.len && z.base <= j))
  }

  /** Either `z` is the first of the longest zero runs, of two words or more, or there is no such run. */
  ghost predicate FirstLongest(b: seq<Byte>, z: Zeros)
    requires |b| == 16
  {
    && (z.base != -1 ==> ZeroRun(b, z.base, z.len) && z.len >= 2)
    && forall j, m :: ZeroRun(b, j, m) && m >= 2 ==> Beats(z, j, m)
  }

  /** `best` is the first longest run that ends before word `e`; `cur` is the run that reaches word `i`. */
  ghost predicate Scanned(b: seq<Byte>, i: int, best: Zeros, cur: Zeros)
    requires |b| == 16 && 0 <= i <= 8
  {
    && (cur.base != -1 ==> ZeroRun(b, cur.base, cur.len) && cur.base + cur.len == i)
    && (best.base != -1 ==> ZeroRun(b, best.base, best.len) && best.base + best.len < Edge(i, cur))
    && (0 < Edge(i, cur) ==> WordAt(b, Edge(i, cur) - 1) != 0)
    && (forall j, m :: ZeroRun(b, j, m) && j + m <= Edge(i, cur) ==> Beats(best, j, m))
  }

  function Edge(i: int, cur: Zeros): int {
    if cur.base == -1 then i else cur.base
  }

  /** A zero run does not cross a word that is not zero. */
  lemma RunSide(b: seq<Byte>, j: int, m: int, e: int)
    requires |b| == 16 && ZeroRun(b, j, m) && 0 <= e < 8 && WordAt(b, e) != 0
    ensures j + m <= e || e < j
  {
  }

  lemma LongerBeats(b: seq<Byte>, i: int, best: Zeros, cur: Zeros, j: int, m: int)
    requires |b| == 16 && 0 <= i <= 8 && Scanned(b, i, best, cur) && ZeroRun(b, j, m) && j + m <= i
    ensures Beats(Longer(best, cur), j, m)
  {
    var e := Edge(i, cur);
    if 0 < e {
      RunSide(b, j, m, e - 1);
    }
  }

  lemma {:induction false} ScanLongest(b: seq<Byte>, i: nat, best: Zeros, cur: Zeros)
    requires |b| == 16 && i <= 8 && Scanned(b, i, best, cur)
    ensures FirstLongest(b, Scan(b, i, best, cur))
    decreases 8 - i
  {
    hide WordAt, Scanned, FirstLongest;
    if i == 8 {
      ScanEnds(b, best, cur);
    } else if WordAt(b, i) == 0 {
      ScanZero(b, i, best, cur);
      ScanLongest(b, i + 1, best, if cur.base == -1 then Zeros(i, 1) else cur.(len := cur.len + 1));
    } else {
      ScanOther(b, i, best, cur);
      ScanLongest(b, i + 1, Longer(best, cur), cur.(base := -1));
    }
  }

  lemma ScanEnds(b: seq<Byte>, best: Zeros, cur: Zeros)
    requires |b| == 16 && Scanned(b, 8, best, cur)
    ensures FirstLongest(b, Scan(b, 8, best, cur))
  {
    hide WordAt;
    forall j, m | ZeroRun(b, j, m) ensures Beats(Longer(best, cur), j, m) {
      LongerBeats(b, 8, best, cur, j, m);
    }
  }

  lemma ScanZero(b: seq<Byte>, i: nat, best: Zeros, cur: Zeros)
    requires |b| == 16 && i < 8 && Scanned(b, i, best, cur) && WordAt(b, i) == 0
    ensures Scanned(b, i + 1, best, if cur.base == -1 then Zeros(i, 1) else cur.(len := cur.len + 1))
  {
    hide WordAt;
  }

  lemma ScanOther(b: seq<Byte>, i: nat, best: Zeros, cur: Zeros)
    requires |b| == 16 && i < 8 && Scanned(b, i, best, cur) && WordAt(b, i) != 0
    ensures Scanned(b, i + 1, Longer(best, cur), cur.(base := -1))
  {
    hide WordAt;
    forall j, m | ZeroRun(b, j, m) && j + m <= i + 1 ensures Beats(Longer(best, cur), j, m) {
      RunSide(b, j, m, i);
      LongerBeats(b, i, best, cur, j, m);
    }
  }

  lemma BestIsFirstLongest(b: seq<Byte>)
    requires |b| == 16
    ensures FirstLongest(b, Best(b)) && ZerosOk(b, Best(b))
  {
    ScanLongest(b, 0, NoZeros, NoZeros);
  }

  /** inet_pton6 reads back what inet_ntop6 prints. */
  lemma ParsePrint6(b: seq<Byte>)
    requires |b| == 16
    ensures Parse6(Print6(b)) == Ok(b)
  {
    BestIsFirstLongest(b);
    ParsePrint(b, Best(b));
  }
}
