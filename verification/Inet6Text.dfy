/** The form of the text that inet_ntop6 prints, and the loops of inet_ntop6 and inet_pton6. */
module Inet6Text {
  import opened Basics
  import opened Inet4
  import opened Inet6

  // ---------- The form of sections 4.1 to 4.3 of RFC 5952 ----------

  /** Words `i` to `j` in hexadecimal, with a colon before each. */
  function More(b: seq<Byte>, i: nat, j: nat): string
    requires |b| == 16 && i <= j <= 8
    decreases j - i
  {
    if i == j then "" else ":" + (Hex(WordAt(b, i)) + More(b, i + 1, j))
  }

  /** Words `i` to `j` in hexadecimal, with colons between them. */
  function Join(b: seq<Byte>, i: nat, j: nat): string
    requires |b| == 16 && i <= j <= 8
  {
    if i == j then "" else Hex(WordAt(b, i)) + More(b, i + 1, j)
  }

  /** The text of an address with run `z` left out, without the loop that prints it. */
  function Form(b: seq<Byte>, z: Zeros): string
    requires |b| == 16 && ZerosOk(b, z)
  {
    if z.base == -1 then Join(b, 0, 8)
    else if z.base == 0 && z.len == 6 then "::" + Print4(b[12..])
    else if z.base == 0 && z.len == 5 && WordAt(b, 5) == 0xffff then "::ffff:" + Print4(b[12..])
    else Join(b, 0, z.base) + "::" + Join(b, z.base + z.len, 8)
  }

  /** Words after the run, or all of them. */
  lemma {:induction false} PrintTail(b: seq<Byte>, z: Zeros, i: nat)
    requires |b| == 16 && 0 < i <= 8 && (z.base == -1 || (0 <= z.base && z.base + z.len <= i && z.base + z.len < 8))
    requires i <= 6 ==> !Embedded(b, z)
    ensures PrintFrom(b, z, i) == More(b, i, 8)
    decreases 8 - i
  {
    hide PrintFrom, WordAt, Hex, Embedded;
    if i < 8 {
      PrintTail(b, z, i + 1);
      PrintParts(b, z, i);
    } else {
      PrintNone(b, z);
    }
  }

  lemma PrintNone(b: seq<Byte>, z: Zeros)
    requires |b| == 16 && (z.base == -1 || z.base + z.len < 8)
    ensures PrintFrom(b, z, 8) == ""
  {
  }

  lemma Regroup(c: string, h: string, m: string, t: string)
    ensures c + (h + (m + t)) == c + (h + m) + t
  {
  }

  lemma {:induction false} PrintHead(b: seq<Byte>, z: Zeros, i: nat)
    requires |b| == 16 && 0 < i <= z.base < 8
    ensures PrintFrom(b, z, i) == More(b, i, z.base) + PrintFrom(b, z, z.base)
    decreases z.base - i
  {
    hide PrintFrom, Hex, WordAt;
    if i < z.base {
      PrintHead(b, z, i + 1);
      PrintParts(b, z, i);
      Regroup(":", Hex(WordAt(b, i)), More(b, i + 1, z.base), PrintFrom(b, z, z.base));
    }
  }

  lemma PrintMapped(b: seq<Byte>, z: Zeros)
    requires |b| == 16 && z.base == 0 && z.len == 5 && WordAt(b, 5) == 0xffff
    ensures PrintFrom(b, z, 5) == ":ffff:" + Print4(b[12..])
  {
    assert Hex(0xffff) == "ffff" by {
      assert Hex(0xf) == "f" && Hex(0xff) == "ff" && Hex(0xfff) == "fff";
    }
    assert PrintFrom(b, z, 6) == ":" + Print4(b[12..]) by {
      PrintParts(b, z, 6);
    }
    PrintParts(b, z, 5);
  }

  lemma PrintColon(b: seq<Byte>, z: Zeros)
    requires |b| == 16 && z.base != -1 && z.base + z.len == 8
    ensures PrintFrom(b, z, 8) == ":"
  {
  }

  /** The part after the first colon of "::". */
  lemma PrintAfter(b: seq<Byte>, z: Zeros)
    requires |b| == 16 && ZerosOk(b, z) && z.base != -1
    ensures PrintFrom(b, z, z.base + z.len) ==
            if z.base == 0 && z.len == 6 then ":" + Print4(b[12..])
            else if z.base == 0 && z.len == 5 && WordAt(b, 5) == 0xffff then ":ffff:" + Print4(b[12..])
            else ":" + Join(b, z.base + z.len, 8)
  {
    hide Hex, Print4, PrintFrom, WordAt, More;
    var e := z.base + z.len;
    if e == 8 {
      PrintColon(b, z);
      EmptyJoin(b, 8);
    } else if z.base == 0 && z.len == 6 {
      PrintParts(b, z, 6);
    } else if z.base == 0 && z.len == 5 && WordAt(b, 5) == 0xffff {
      PrintMapped(b, z);
    } else {
      PrintTail(b, z, e);
      MoreJoin(b, e);
    }
  }

  lemma MoreJoin(b: seq<Byte>, i: nat)
    requires |b| == 16 && i < 8
    ensures More(b, i, 8) == ":" + Join(b, i, 8)
  {
  }

  /** Words from the first one on, before a run or with none. */
  lemma PrintFirst(b: seq<Byte>, z: Zeros)
    requires |b| == 16 && ZerosOk(b, z) && z.base != 0
    ensures z.base == -1 ==> PrintFrom(b, z, 0) == Join(b, 0, 8)
    ensures z.base > 0 ==> PrintFrom(b, z, 0) == Join(b, 0, z.base) + PrintFrom(b, z, z.base)
  {
    hide PrintFrom, Hex, WordAt, More;
    PrintParts(b, z, 0);
    if z.base == -1 {
      PrintTail(b, z, 1);
    } else {
      PrintHead(b, z, 1);
    }
  }

  lemma TwoColons(l: string, r: string)
    ensures l + (":" + (":" + r)) == l + "::" + r
  {
  }

  lemma EmptyJoin(b: seq<Byte>, i: nat)
    requires |b| == 16 && i <= 8
    ensures Join(b, i, i) == ""
  {
  }

  /** The loop prints the form above, with the first longest zero run left out. */
  lemma PrintForm(b: seq<Byte>)
    requires |b| == 16
    ensures ZerosOk(b, Best(b)) && Print6(b) == Form(b, Best(b))
  {
    hide Best, PrintFrom, Join, WordAt, FirstLongest, Print4;
    var z := Best(b);
    BestIsFirstLongest(b);
    if z.base != 0 {
      PrintFirst(b, z);
    }
    if z.base != -1 {
      PrintZeros(b, z);
      PrintAfter(b, z);
      EmptyJoin(b, 0);
      TwoColons(Join(b, 0, z.base), Join(b, z.base + z.len, 8));
      assert ":" + (":" + Print4(b[12..])) == "::" + Print4(b[12..]);
      assert ":" + (":ffff:" + Print4(b[12..])) == "::ffff:" + Print4(b[12..]);
    }
  }

  /** Lower case, without leading zeros, and at most four digits. */
  ghost predicate Canonical(h: string) {
    && 1 <= |h| <= 4 && (h[0] == '0' ==> |h| == 1)
    && forall k :: 0 <= k < |h| ==> '0' <= h[k] <= '9' || 'a' <= h[k] <= 'f'
  }

  lemma {:induction false} HexDigits(w: nat)
    ensures Hex(w) != "" && (Hex(w)[0] == '0' ==> w == 0)
    ensures forall k :: 0 <= k < |Hex(w)| ==> '0' <= Hex(w)[k] <= '9' || 'a' <= Hex(w)[k] <= 'f'
    decreases w
  {
    if w >= 16 {
      HexDigits(w / 16);
    }
  }

  lemma HexCanonical(w: Word)
    ensures Canonical(Hex(w))
  {
    assert Pow16(3) == 4096 && Pow16(4) == 65536;
    HexLength(w, 4);
    HexDigits(w);
  }

  /** No two colons next to each other. */
  ghost predicate Plain(t: string) {
    forall k :: 0 <= k && k + 1 < |t| ==> t[k] != ':' || t[k + 1] != ':'
  }

  lemma PlainWord(h: string, t: string)
    requires Canonical(h) && Plain(t)
    ensures Plain(h + t) && Plain(":" + (h + t)) && (t == "" || t[|t| - 1] != ':' ==> (h + t)[|h + t| - 1] != ':')
  {
  }

  lemma {:induction false} MoreForm(b: seq<Byte>, i: nat, j: nat)
    requires |b| == 16 && i <= j <= 8
    ensures Plain(More(b, i, j)) && |More(b, i, j)| <= 5 * (j - i)
    ensures More(b, i, j) == "" || More(b, i, j)[|More(b, i, j)| - 1] != ':'
    decreases j - i
  {
    hide WordAt, Hex;
    if i < j {
      HexCanonical(WordAt(b, i));
      MoreForm(b, i + 1, j);
      PlainWord(Hex(WordAt(b, i)), More(b, i + 1, j));
    }
  }

  lemma JoinForm(b: seq<Byte>, i: nat, j: nat)
    requires |b| == 16 && i <= j <= 8
    ensures var t := Join(b, i, j);
            Plain(t) && (i < j ==> |t| <= 5 * (j - i) - 1) && (t != "" ==> t[0] != ':' && t[|t| - 1] != ':')
  {
    hide WordAt, Hex, More;
    if i < j {
      HexCanonical(WordAt(b, i));
      MoreForm(b, i + 1, j);
      PlainWord(Hex(WordAt(b, i)), More(b, i + 1, j));
    }
  }

  /** The buffer of 46 bytes, and the 40 bytes that a caller needs, are never exceeded. */
  lemma Print6Length(b: seq<Byte>)
    requires |b| == 16
    ensures 2 <= |Print6(b)| <= 39
  {
    hide Best, PrintFrom, Join, WordAt, Print4, Print6;
    PrintForm(b);
    var z := Best(b);
    Print4Length(b[12..]);
    if z.base == -1 {
      JoinForm(b, 0, 8);
      JoinLower(b);
    } else {
      JoinForm(b, 0, z.base);
      JoinForm(b, z.base + z.len, 8);
      EmptyJoin(b, 0);
      EmptyJoin(b, 8);
    }
  }

  lemma JoinLower(b: seq<Byte>)
    requires |b| == 16
    ensures |Join(b, 0, 8)| >= 2
  {
    HexFirst(WordAt(b, 0));
  }

  /** Where two colons meet: only where a run is left out. */
  lemma DoubleColon(b: seq<Byte>, k: int)
    requires |b| == 16 && 0 <= k && k + 1 < |Print6(b)| && Print6(b)[k] == ':' && Print6(b)[k + 1] == ':'
    ensures Best(b).base != -1 && ZerosOk(b, Best(b)) && k == |Join(b, 0, Best(b).base)|
  {
    hide Best, PrintFrom, Join, WordAt, Print4, Print6;
    PrintForm(b);
    var z := Best(b);
    if z.base == -1 {
      JoinForm(b, 0, 8);
      assert false;
    } else {
      var l, r := Join(b, 0, z.base), Join(b, z.base + z.len, 8);
      JoinForm(b, 0, z.base);
      JoinForm(b, z.base + z.len, 8);
      EmptyJoin(b, 0);
      QuadPlain(b[12..]);
      if z.base == 0 && z.len == 6 {
        OneDouble("", Print4(b[12..]), k);
      } else if z.base == 0 && z.len == 5 && WordAt(b, 5) == 0xffff {
        var t := "ffff:" + Print4(b[12..]);
        assert "::ffff:" + Print4(b[12..]) == "" + "::" + t;
        OneDouble("", t, k);
      } else {
        OneDouble(l, r, k);
      }
    }
  }

  lemma OneDouble(l: string, r: string, k: int)
    requires Plain(l) && Plain(r) && (l != "" ==> l[|l| - 1] != ':') && (r != "" ==> r[0] != ':')
    requires var t := l + "::" + r; 0 <= k && k + 1 < |t| && t[k] == ':' && t[k + 1] == ':'
    ensures k == |l|
  {
  }

  lemma {:induction false} DecPlain(n: nat, k: nat)
    requires k < |Dec(n)|
    ensures Dec(n)[k] != ':'
  {
    if n >= 10 && k < |Dec(n)| - 1 {
      DecPlain(n / 10, k);
    }
  }

  lemma QuadPlain(q: seq<Byte>)
    requires |q| == 4
    ensures forall k :: 0 <= k < |Print4(q)| ==> Print4(q)[k] != ':'
    ensures Print4(q) != ""
  {
    Print4Length(q);
    forall i, k | 0 <= i < 4 && 0 <= k < |Dec(q[i])| ensures Dec(q[i])[k] != ':' {
      DecPlain(q[i], k);
    }
  }

  // ---------- inet_ntop6 ----------

  /** sprintf and single characters: the text at position `tp` of the buffer. */
  method Emit(tmp: array<char>, tp: nat, text: string) returns (tp': nat)
    requires tp + |text| <= tmp.Length
    modifies tmp
    ensures tp' == tp + |text| && tmp[..tp'] == old(tmp[..tp]) + text
  {
    tp' := tp;
    for k := 0 to |text|
      invariant tp' == tp + k && tmp[..tp'] == old(tmp[..tp]) + text[..k]
    {
      tmp[tp'] := text[k];
      tp' := tp' + 1;
      assert tmp[..tp'] == tmp[..tp' - 1] + [text[k]];
    }
  }

  /** The loop that copies the bytes into words. */
  method Words(src: seq<Byte>) returns (words: array<Word>)
    requires |src| == 16
    ensures fresh(words) && words.Length == 8
    ensures forall i :: 0 <= i < 8 ==> words[i] == WordAt(src, i)
  {
    words := new Word[8](_ => 0);
    for i := 0 to 16
      invariant words.Length == 8
      invariant forall k :: 0 <= k < 8 ==>
        words[k] == if 2 * k + 1 < i then WordAt(src, k) else if 2 * k < i then (src[2 * k] as int) * 256 else 0
    {
      words[i / 2] := words[i / 2] + if i % 2 == 0 then (src[i] as int) * 256 else src[i] as int;
    }
  }

  /** The loop that finds the longest zero run. */
  method Longest(words: array<Word>, ghost src: seq<Byte>) returns (best: Zeros)
    requires |src| == 16 && words.Length == 8 && forall i :: 0 <= i < 8 ==> words[i] == WordAt(src, i)
    ensures best == Best(src)
  {
    best := NoZeros;
    var cur := NoZeros;
    for i := 0 to 8
      invariant Best(src) == Scan(src, i, best, cur)
    {
      if words[i] == 0 {
        if cur.base == -1 {
          cur := Zeros(i, 1);
        } else {
          cur := cur.(len := cur.len + 1);
        }
      } else {
        if cur.base != -1 {
          if best.base == -1 || cur.len > best.len {
            best := cur;
          }
          cur := cur.(base := -1);
        }
      }
    }
    if cur.base != -1 {
      if best.base == -1 || cur.len > best.len {
        best := cur;
      }
    }
    if best.base != -1 && best.len < 2 {
      best := best.(base := -1);
    }
  }

  /** What is left to print after a part of it. */
  lemma Printed(whole: string, done: string, part: string, rest: string)
    requires whole == done + (part + rest)
    ensures whole == (done + part) + rest
  {
  }

  lemma PrintStep(b: seq<Byte>, z: Zeros, i: nat)
    requires |b| == 16 && i < 8 && Inside(z, i)
    ensures PrintFrom(b, z, i) == (if i == z.base then ":" else "") + PrintFrom(b, z, i + 1)
  {
  }

  lemma PrintLast(b: seq<Byte>, z: Zeros)
    requires |b| == 16
    ensures PrintFrom(b, z, 8) == if z.base != -1 && z.base + z.len == 8 then ":" else ""
  {
  }

  /** The formatting loop and the test for a trailing run; it never leaves the buffer. */
  method Format(src: seq<Byte>, words: array<Word>, best: Zeros, tmp: array<char>) returns (tp: nat)
    requires |src| == 16 && words.Length == 8 && forall i :: 0 <= i < 8 ==> words[i] == WordAt(src, i)
    requires tmp.Length == TMP6_SIZE && |PrintFrom(src, best, 0)| < TMP6_SIZE
    modifies tmp
    ensures tp < TMP6_SIZE && tmp[..tp] == PrintFrom(src, best, 0)
  {
    hide WordAt, Hex, Print4, PrintFrom;
    ghost var text := PrintFrom(src, best, 0);
    var mark, last := words[5], words[7];
    tp := 0;
    var i := 0;
    ghost var rest := text;
    while i < 8
      invariant 0 <= i <= 8 && tp <= tmp.Length && rest == PrintFrom(src, best, i) && text == tmp[..tp] + rest
    {
      if best.base != -1 && i >= best.base && i < best.base + best.len {
        PrintStep(src, best, i);
        if i == best.base {
          Printed(text, tmp[..tp], ":", PrintFrom(src, best, i + 1));
          tp := Emit(tmp, tp, ":");
        }
        i := i + 1;
        rest := PrintFrom(src, best, i);
        continue;
      }
      PrintParts(src, best, i);
      if i != 0 {
        rest := rest[1..];
        Printed(text, tmp[..tp], ":", rest);
        tp := Emit(tmp, tp, ":");
      }
      if i == 6 && best.base == 0 &&
         (best.len == 6 || (best.len == 7 && last != 0x0001) || (best.len == 5 && mark == 0xffff))
      {
        var quad := Ntop4(src[12..], TMP6_SIZE - tp);
        assert quad == Ok(Print4(src[12..]));
        rest := "";
        tp := Emit(tmp, tp, quad.value);
        break;
      }
      Printed(text, tmp[..tp], Hex(words[i]), PrintFrom(src, best, i + 1));
      tp := Emit(tmp, tp, Hex(words[i]));
      i := i + 1;
      rest := PrintFrom(src, best, i);
    }
    PrintLast(src, best);
    if best.base != -1 && best.base + best.len == 8 {
      tp := Emit(tmp, tp, ":");
    }
  }

  method Ntop6(src: seq<Byte>, size: nat) returns (r: Result<string>)
    requires |src| == 16
    ensures r == if |Print6(src)| < size then Ok(Print6(src)) else Err(ENOSPC)
  {
    Print6Length(src);
    var words := Words(src);
    var best := Longest(words, src);
    var tmp := new char[TMP6_SIZE](_ => '\0');
    var tp := Format(src, words, best, tmp);
    if tp + 1 > size {
      return Err(ENOSPC);
    }
    return Ok(tmp[..tp]);
  }

  // ---------- inet_pton6 ----------

  ghost predicate Cleared(tmp: seq<Byte>, i: int, j: int)
    requires 0 <= i <= j <= |tmp|
  {
    forall k :: i <= k < j ==> tmp[k] == 0
  }

  /** Bytes at position `tp`, behind which the buffer stays clear. */
  method Store(tmp: array<Byte>, tp: nat, bytes: seq<Byte>)
    requires tp + |bytes| <= tmp.Length == 16 && Cleared(tmp[..], tp, 16)
    modifies tmp
    ensures tmp[..tp + |bytes|] == old(tmp[..tp]) + bytes && Cleared(tmp[..], tp + |bytes|, 16)
  {
    for k := 0 to |bytes|
      invariant tmp[..tp + k] == old(tmp[..tp]) + bytes[..k] && Cleared(tmp[..], tp + k, 16)
    {
      tmp[tp + k] := bytes[k];
      assert tmp[..tp + k + 1] == tmp[..tp + k] + [bytes[k]];
    }
  }

  /** The hand-written shift to the end of the buffer, whose two regions may overlap. */
  method Shift(tmp: array<Byte>, tp: nat, colonp: nat)
    requires colonp <= tp < tmp.Length == 16 && Cleared(tmp[..], tp, 16)
    modifies tmp
    ensures Shifted(old(tmp[..tp]), colonp) == Ok(tmp[..])
  {
    ghost var out := tmp[..tp];
    var n := tp - colonp;
    for i := 1 to n + 1
      invariant forall k :: 0 <= k < tp - (i - 1) ==> tmp[k] == out[k]
      invariant forall k :: tp - (i - 1) <= k < 16 - (i - 1) ==> tmp[k] == 0
      invariant forall k :: 16 - (i - 1) <= k < 16 ==> tmp[k] == out[k - (16 - tp)]
    {
      tmp[16 - i] := tmp[colonp + n - i];
      tmp[colonp + n - i] := 0;
    }
    MovedBack(out, tmp[..], colonp);
  }

  lemma MovedBack(out: seq<Byte>, a: seq<Byte>, colon: nat)
    requires colon <= |out| < |a| == 16
    requires forall k :: 0 <= k < colon ==> a[k] == out[k]
    requires forall k :: colon <= k < colon + 16 - |out| ==> a[k] == 0
    requires forall k :: colon + 16 - |out| <= k < 16 ==> a[k] == out[k - (16 - |out|)]
    ensures Shifted(out, colon) == Ok(a)
  {
    assert a == out[..colon] + seq(16 - |out|, _ => 0) + out[colon..];
  }

  /** The tests after the loop. */
  method Finish(tmp: array<Byte>, tp: nat, colonp: int, val: int, seen: int, ghost src: string, ghost tok: nat)
    returns (r: Result<seq<Byte>>)
    requires tp <= tmp.Length == 16 && Cleared(tmp[..], tp, 16) && SixOk(src, Six(tmp[..tp], colonp, val, seen, tok))
    modifies tmp
    ensures r == old(Finish6(src, Six(tmp[..tp], colonp, val, seen, tok)))
  {
    var end := tp;
    if seen > 0 {
      if tp + 2 > 16 {
        return Err(EINVAL);
      }
      Pow16Four(seen);
      Store(tmp, tp, WordBytes(val));
      end := tp + 2;
    }
    if colonp != -1 {
      if end == 16 {
        return Err(EINVAL);
      }
      Shift(tmp, end, colonp);
      end := 16;
    }
    if end != 16 {
      return Err(EINVAL);
    }
    assert tmp[..16] == tmp[..];
    return Ok(tmp[..]);
  }

  lemma ParseBegins(s: string)
    ensures var start := if s != "" && s[0] == ':' then 1 else 0;
            Parse6(s) == if start == 1 && (|s| == 1 || s[1] != ':') then Err(EINVAL)
                         else Run6(s, start, Six([], -1, 0, 0, start))
  {
  }

  /** The characters at which the loop gives up. */
  lemma RunRefused(s: string, i: nat, x: Six)
    requires SixOk(s, x) && i < |s|
    requires
      || (HexVal(s[i]) >= 0 && x.seen == 4)
      || (s[i] == ':' && x.seen == 0 && x.colon >= 0)
      || (s[i] == ':' && x.seen > 0 && (i + 1 == |s| || |x.out| + 2 > 16))
      || (HexVal(s[i]) < 0 && s[i] != ':' && !(s[i] == '.' && |x.out| + 4 <= 16 && Parse4(s[x.tok..]).Ok?))
    ensures Run6(s, i, x) == Err(EINVAL)
  {
  }

  lemma RunDotted(s: string, i: nat, x: Six)
    requires SixOk(s, x) && i < |s| && s[i] == '.' && |x.out| + 4 <= 16 && Parse4(s[x.tok..]).Ok?
    ensures var y := Six(x.out + Parse4(s[x.tok..]).value, x.colon, 0, 0, x.tok);
            |Parse4(s[x.tok..]).value| == 4 && SixOk(s, y) && Run6(s, i, x) == Finish6(s, y)
  {
    Parse4Exact(s[x.tok..], Parse4(s[x.tok..]).value);
  }

  lemma RunDone(s: string, x: Six)
    requires SixOk(s, x)
    ensures Run6(s, |s|, x) == Finish6(s, x)
  {
  }

  method Pton6(src: string) returns (r: Result<seq<Byte>>)
    ensures r == Parse6(src)
  {
    hide Run6, Parse6, Parse4, Finish6;
    ParseBegins(src);
    var tmp := new Byte[16](_ => 0);
    var tp, colonp, curtok, seen, val := 0, -1, 0, 0, 0;
    var i := 0;
    if src != "" && src[0] == ':' {
      i := 1;
      if |src| == 1 || src[1] != ':' {
        return Err(EINVAL);
      }
    }
    curtok := i;
    assert tmp[..0] == [];
    while i < |src|
      invariant 0 <= i <= |src| && 0 <= tp <= 16 && Cleared(tmp[..], tp, 16)
      invariant SixOk(src, Six(tmp[..tp], colonp, val, seen, curtok))
      invariant Parse6(src) == Run6(src, i, Six(tmp[..tp], colonp, val, seen, curtok))
    {
      ghost var at, x := i, Six(tmp[..tp], colonp, val, seen, curtok);
      var ch := src[i];
      i := i + 1;
      var d := HexVal(ch);
      if d >= 0 {
        val := val * 16 + d;
        seen := seen + 1;
        if seen > 4 {
          RunRefused(src, at, x);
          return Err(EINVAL);
        }
        RunDigit(src, at, x);
        continue;
      }
      if ch == ':' {
        curtok := i;
        if seen == 0 {
          if colonp != -1 {
            RunRefused(src, at, x);
            return Err(EINVAL);
          }
          colonp := tp;
          RunDoubleColon(src, at, x);
          continue;
        } else if i == |src| {
          RunRefused(src, at, x);
          return Err(EINVAL);
        }
        if tp + 2 > 16 {
          RunRefused(src, at, x);
          return Err(EINVAL);
        }
        Pow16Four(seen);
        RunColon(src, at, x);
        Store(tmp, tp, WordBytes(val));
        tp := tp + 2;
        seen, val := 0, 0;
        continue;
      }
      if ch == '.' && tp + 4 <= 16 {
        var quad := Pton4(src, curtok);
        if quad.Ok? {
          RunDotted(src, at, x);
          Store(tmp, tp, quad.value);
          tp := tp + 4;
          r := Finish(tmp, tp, colonp, 0, 0, src, curtok);
          return;
        }
      }
      RunRefused(src, at, x);
      return Err(EINVAL);
    }
    RunDone(src, Six(tmp[..tp], colonp, val, seen, curtok));
    r := Finish(tmp, tp, colonp, val, seen, src, curtok);
  }

  // ---------- uv_inet_pton ----------

  /** The position of the first `c`, or -1. */
  function IndexOf(s: string, c: char): (k: int)
    ensures -1 <= k < |s| && (k >= 0 ==> s[k] == c) && forall j :: 0 <= j < (if k < 0 then |s| else k) ==> s[j] != c
  {
    if s == "" then -1
    else if s[0] == c then 0
    else
      var k := IndexOf(s[1..], c);
      assert forall j :: 0 < j < |s| ==> s[j] == s[1..][j - 1];
      if k < 0 then -1 else k + 1
  }

  /** uv_inet_pton for AF_INET6: a zone is cut off, and the rest has to fit into the buffer. */
  function ParseZone(src: string): Result<seq<Byte>> {
    var p := IndexOf(src, '%');
    if p < 0 then Parse6(src)
    else if p > TMP6_SIZE - 1 then Err(EINVAL)
    else Parse6(src[..p])
  }

  method PtonZone(src: string) returns (r: Result<seq<Byte>>)
    ensures r == ParseZone(src)
  {
    var s := src;
    var p := IndexOf(src, '%');
    if p >= 0 {
      var len := p;
      if len > TMP6_SIZE - 1 {
        return Err(EINVAL);
      }
      s := src[..len];
    }
    r := Pton6(s);
  }

  ghost predicate AddressChars(t: string) {
    forall k :: 0 <= k < |t| ==> HexVal(t[k]) >= 0 || t[k] == ':' || t[k] == '.'
  }

  lemma {:induction false} HexChars(w: nat)
    ensures AddressChars(Hex(w))
  {
    if w >= 16 {
      HexChars(w / 16);
    }
  }

  lemma QuadChars(q: seq<Byte>)
    requires |q| == 4
    ensures AddressChars(Print4(q))
  {
    forall i, k | 0 <= i < 4 && 0 <= k < |Dec(q[i])| ensures HexVal(Dec(q[i])[k]) >= 0 {
      DecIsHex(q[i], k);
    }
  }

  lemma {:induction false} PrintChars(b: seq<Byte>, z: Zeros, i: nat)
    requires |b| == 16 && i <= 8
    ensures AddressChars(PrintFrom(b, z, i))
    decreases 8 - i
  {
    hide Hex, Print4, WordAt;
    if i < 8 {
      PrintChars(b, z, i + 1);
      HexChars(WordAt(b, i));
      QuadChars(b[12..]);
    }
  }

  /** Any address reads back through uv_inet_pton, with any zone behind it. */
  lemma ZoneRoundTrip(b: seq<Byte>, zone: string)
    requires |b| == 16
    ensures ParseZone(Print6(b)) == Ok(b) && ParseZone(Print6(b) + "%" + zone) == Ok(b)
  {
    hide Parse6, Print6;
    var t := Print6(b);
    ParsePrint6(b);
    Print6Length(b);
    Print6Chars(b);
    var s := t + "%" + zone;
    assert s[|t|] == '%' && s[..|t|] == t;
    assert forall k :: 0 <= k < |t| ==> s[k] == t[k];
  }

  lemma Print6Chars(b: seq<Byte>)
    requires |b| == 16
    ensures AddressChars(Print6(b))
  {
    PrintChars(b, Best(b), 0);
  }
}
