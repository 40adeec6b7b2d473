/** Dotted-quad text of IPv4 addresses: inet_ntop4 and inet_pton4 of libs/libuv/inet.c. A C string is
    the sequence of its characters without the terminating NUL. */
module Inet4 {
  import opened Basics

  datatype Error = EINVAL | ENOSPC

  datatype Result<+T> = Ok(value: T) | Err(error: Error)

  const TMP_SIZE := 16

  function DigitChar(d: int): char
    requires 0 <= d < 10
  {
    '0' + d as char
  }

  /** strchr(digits, ch) - digits, or -1. */
  function DigitVal(c: char): int {
    if '0' <= c <= '9' then c as int - '0' as int else -1
  }

  /** The output of %u. */
  function Dec(n: nat): string {
    if n < 10 then [DigitChar(n)] else Dec(n / 10) + [DigitChar(n % 10)]
  }

  function Print4(b: seq<Byte>): string
    requires |b| == 4
  {
    Dec(b[0]) + "." + Dec(b[1]) + "." + Dec(b[2]) + "." + Dec(b[3])
  }

  // ---------- Parsing as a function ----------

  /** The octets closed by a dot, the octet *tp, and the variables saw_digit and octets. */
  datatype Quad = Quad(closed: seq<Byte>, cur: Byte, saw: bool, octets: int)

  function Step4(q: Quad, c: char): Result<Quad> {
    var d := DigitVal(c);
    if d >= 0 then
      var nw := q.cur * 10 + d;
      if q.saw && q.cur == 0 then Err(EINVAL)
      else if nw > 255 then Err(EINVAL)
      else if q.saw then Ok(q.(cur := nw))
      else if q.octets + 1 > 4 then Err(EINVAL)
      else Ok(Quad(q.closed, nw, true, q.octets + 1))
    else if c == '.' && q.saw then
      if q.octets == 4 then Err(EINVAL) else Ok(Quad(q.closed + [q.cur], 0, false, q.octets))
    else Err(EINVAL)
  }

  function Run4(s: string, q: Quad): Result<seq<Byte>> {
    if s == [] then
      if q.octets < 4 then Err(EINVAL) else Ok(q.closed + [q.cur])
    else
      match Step4(q, s[0])
      case Err(e) => Err(e)
      case Ok(q') => Run4(s[1..], q')
  }

  const Quad0 := Quad([], 0, false, 0)

  function Parse4(s: string): Result<seq<Byte>> {
    Run4(s, Quad0)
  }

  // ---------- Printing, then parsing ----------

  lemma DigitRoundTrip(d: int)
    requires 0 <= d < 10
    ensures DigitVal(DigitChar(d)) == d
  {
  }

  lemma DigitOf(c: char)
    requires DigitVal(c) >= 0
    ensures DigitVal(c) < 10 && c == DigitChar(DigitVal(c))
  {
  }

  lemma {:induction false} RunDec(n: nat, rest: string, q: Quad)
    requires n < 256 && q.cur == 0 && !q.saw && q.octets < 4
    ensures Run4(Dec(n) + rest, q) == Run4(rest, Quad(q.closed, n, true, q.octets + 1))
    decreases n
  {
    if n < 10 {
      DigitRoundTrip(n);
      assert (Dec(n) + rest)[1..] == rest;
    } else {
      var d := n % 10;
      DigitRoundTrip(d);
      assert Dec(n) + rest == Dec(n / 10) + ([DigitChar(d)] + rest);
      RunDec(n / 10, [DigitChar(d)] + rest, q);
      assert ([DigitChar(d)] + rest)[1..] == rest;
    }
  }

  lemma RunDot(rest: string, q: Quad)
    requires q.saw && q.octets < 4
    ensures Run4("." + rest, q) == Run4(rest, Quad(q.closed + [q.cur], 0, false, q.octets))
  {
    assert ("." + rest)[1..] == rest;
  }

  lemma ParsePrint4(b: seq<Byte>)
    requires |b| == 4
    ensures Parse4(Print4(b)) == Ok(b)
  {
    hide Run4, Dec;
    var r3 := Dec(b[3]);
    var r2 := Dec(b[2]) + ("." + r3);
    var r1 := Dec(b[1]) + ("." + r2);
    assert Print4(b) == Dec(b[0]) + ("." + r1);
    assert r3 == Dec(b[3]) + [];
    assert [] + [b[0]] == b[..1] && b[..1] + [b[1]] == b[..2] && b[..2] + [b[2]] == b[..3] && b[..3] + [b[3]] == b;
    RunOver([], Quad(b[..3], b[3], true, 4));
    RunDec(b[0], "." + r1, Quad0);
    RunDot(r1, Quad([], b[0], true, 1));
    RunDec(b[1], "." + r2, Quad(b[..1], 0, false, 1));
    RunDot(r2, Quad(b[..1], b[1], true, 2));
    RunDec(b[2], "." + r3, Quad(b[..2], 0, false, 2));
    RunDot(r3, Quad(b[..2], b[2], true, 3));
    RunDec(b[3], [], Quad(b[..3], 0, false, 3));
  }

  // ---------- Parsing, then printing ----------

  function Dotted(b: seq<Byte>): string {
    if b == [] then "" else Dotted(b[..|b| - 1]) + Dec(b[|b| - 1]) + "."
  }

  /** The text that leads to a state of the parser. */
  function Consumed(q: Quad): string {
    Dotted(q.closed) + if q.saw then Dec(q.cur) else ""
  }

  ghost predicate QuadOk(q: Quad) {
    |q.closed| + (if q.saw then 1 else 0) == q.octets <= 4 && (!q.saw ==> q.cur == 0 && q.octets < 4)
  }

  lemma StepConsumes(q: Quad, c: char)
    requires QuadOk(q) && Step4(q, c).Ok?
    ensures QuadOk(Step4(q, c).value) && Consumed(Step4(q, c).value) == Consumed(q) + [c]
  {
    if DigitVal(c) >= 0 {
      DigitOf(c);
      if q.saw {
        assert Dec(q.cur * 10 + DigitVal(c)) == Dec(q.cur) + [c];
      }
    } else {
      assert (q.closed + [q.cur])[..|q.closed|] == q.closed;
    }
  }

  lemma {:induction false} RunConsumes(s: string, q: Quad)
    requires QuadOk(q) && Run4(s, q).Ok?
    ensures |Run4(s, q).value| == 4 && Print4(Run4(s, q).value) == Consumed(q) + s
  {
    if s == [] {
      var b := q.closed + [q.cur];
      assert b[..3] == q.closed && b[..3][..2] == b[..2] && b[..2][..1] == b[..1];
      assert Dotted(b[..1]) == Dec(b[0]) + ".";
      assert Dotted(b[..2]) == Dec(b[0]) + "." + Dec(b[1]) + ".";
      assert Dotted(b[..3]) == Dec(b[0]) + "." + Dec(b[1]) + "." + Dec(b[2]) + ".";
    } else {
      StepConsumes(q, s[0]);
      RunConsumes(s[1..], Step4(q, s[0]).value);
      assert [s[0]] + s[1..] == s;
    }
  }

  /** inet_pton4 accepts exactly the texts that inet_ntop4 prints, and inverts it. */
  lemma Parse4Exact(s: string, b: seq<Byte>)
    ensures Parse4(s) == Ok(b) <==> |b| == 4 && s == Print4(b)
  {
    if Parse4(s) == Ok(b) {
      RunConsumes(s, Quad0);
      assert Consumed(Quad0) + s == s;
    }
    if |b| == 4 && s == Print4(b) {
      ParsePrint4(b);
    }
  }

  // ---------- Decimal numbers ----------

  /** The value is the place of the digit in the string `digits` of the source. */
  lemma DigitValExact(c: char, v: int)
    ensures 0 <= v < 10 ==> (DigitVal(c) == v <==> c == "0123456789"[v])
    ensures DigitVal(c) == -1 <==> c !in "0123456789"
  {
    assert 0 <= v < 10 ==> "0123456789"[v] as int == '0' as int + v;
    if DigitVal(c) >= 0 {
      assert c == "0123456789"[DigitVal(c)];
    }
  }

  /** Decimal digits without a leading zero. */
  ghost predicate DecText(s: string) {
    && s != "" && (forall i :: 0 <= i < |s| ==> '0' <= s[i] <= '9') && (s[0] == '0' ==> |s| == 1)
  }

  /** The number that the digits stand for. */
  ghost function DecNum(s: string): int {
    if s == "" then 0 else 10 * DecNum(s[..|s| - 1]) + (s[|s| - 1] as int - '0' as int)
  }

  lemma {:induction false} DecExact(n: nat)
    ensures DecText(Dec(n)) && DecNum(Dec(n)) == n && (n > 0 ==> Dec(n)[0] != '0')
  {
    if n >= 10 {
      DecExact(n / 10);
      assert Dec(n)[..|Dec(n)| - 1] == Dec(n / 10);
    } else {
      assert Dec(n)[..0] == "";
    }
  }

  lemma DecStep(v: nat, d: nat)
    requires 1 <= v && d < 10
    ensures Dec(10 * v + d) == Dec(v) + [DigitChar(d)]
  {
  }

  lemma OneDigit(c: char)
    requires '0' <= c <= '9'
    ensures DecNum([c]) == c as int - '0' as int && Dec(c as int - '0' as int) == [c]
  {
    assert [c][..0] == "";
  }

  lemma DecNumLast(s: string)
    requires s != ""
    ensures DecNum(s) == 10 * DecNum(s[..|s| - 1]) + (s[|s| - 1] as int - '0' as int)
  {
  }

  /** There is no other way to write a number without a leading zero. */
  lemma {:induction false} DecOnly(s: string)
    requires DecText(s)
    ensures DecNum(s) >= 0 && Dec(DecNum(s)) == s && (|s| > 1 ==> DecNum(s) >= 10)
  {
    hide Dec, DecNum;
    var n := |s| - 1;
    OneDigit(s[0]);
    if n == 0 {
      assert s == [s[0]];
    } else {
      DecOnly(s[..n]);
      assert n == 1 ==> s[..n] == [s[0]];
      DecNumLast(s);
      DecStep(DecNum(s[..n]), s[n] as int - '0' as int);
      assert s == s[..n] + [s[n]];
    }
  }

  /** Four decimal numbers from 0 to 255 with dots between them. */
  ghost predicate Dotted4(s: string, p: seq<string>, b: seq<Byte>) {
    && |p| == |b| == 4 && s == p[0] + "." + p[1] + "." + p[2] + "." + p[3]
    && forall i :: 0 <= i < 4 ==> DecText(p[i]) && DecNum(p[i]) == b[i]
  }

  /** inet_pton4 accepts exactly four decimal numbers from 0 to 255 without leading zeros, with their values. */
  lemma Parse4Decimal(s: string, b: seq<Byte>)
    ensures Parse4(s) == Ok(b) <==> exists p :: Dotted4(s, p, b)
  {
    hide Dec, DecNum, DecText, Parse4;
    Parse4Exact(s, b);
    if |b| == 4 && s == Print4(b) {
      var p := [Dec(b[0]), Dec(b[1]), Dec(b[2]), Dec(b[3])];
      forall i | 0 <= i < 4 ensures DecText(p[i]) && DecNum(p[i]) == b[i] {
        DecExact(b[i]);
      }
      assert Dotted4(s, p, b);
    }
    if p :| Dotted4(s, p, b) {
      forall i | 0 <= i < 4 ensures Dec(b[i]) == p[i] {
        DecOnly(p[i]);
      }
    }
  }

  lemma DecLength(n: nat)
    requires n < 1000
    ensures 1 <= |Dec(n)| <= 3
  {
    assert n >= 10 ==> |Dec(n)| == |Dec(n / 10)| + 1;
    assert n >= 100 ==> |Dec(n / 10)| == |Dec(n / 10 / 10)| + 1;
  }

  lemma Print4Length(b: seq<Byte>)
    requires |b| == 4
    ensures 7 <= |Print4(b)| <= 15
  {
    DecLength(b[0]);
    DecLength(b[1]);
    DecLength(b[2]);
    DecLength(b[3]);
  }

  // ---------- The functions of the source ----------

  /** inet_ntop4. The text always fits into tmp, so that snprintf never truncates it. */
  method Ntop4(src: seq<Byte>, size: nat) returns (r: Result<string>)
    requires |src| == 4
    ensures |Print4(src)| < TMP_SIZE
    ensures r == if |Print4(src)| < size then Ok(Print4(src)) else Err(ENOSPC)
  {
    Print4Length(src);
    var tmp := Dec(src[0]) + "." + Dec(src[1]) + "." + Dec(src[2]) + "." + Dec(src[3]);
    var l := |tmp|;
    if l <= 0 || l >= size {
      return Err(ENOSPC);
    }
    return Ok(tmp);
  }

  lemma RunNext(src: string, i: nat, q: Quad)
    requires i < |src|
    ensures Run4(src[i..], q) ==
            match Step4(q, src[i])
            case Err(e) => Err(e)
            case Ok(q') => Run4(src[i + 1..], q')
  {
    assert src[i..][0] == src[i] && src[i..][1..] == src[i + 1..];
  }

  lemma RunOver(src: string, q: Quad)
    ensures Run4(src[|src|..], q) == if q.octets < 4 then Err(EINVAL) else Ok(q.closed + [q.cur])
  {
  }

  /** inet_pton4, applied to the text from position `from` on. */
  method Pton4(src: string, from: nat) returns (r: Result<seq<Byte>>)
    requires from <= |src|
    ensures r == Parse4(src[from..])
  {
    hide Run4;
    var tmp := new Byte[4](_ => 0);
    var tp, saw, octets := 0, false, 0;
    var i := from;
    while i < |src|
      invariant from <= i <= |src| && 0 <= tp < 4
      invariant QuadOk(Quad(tmp[..tp], tmp[tp], saw, octets))
      invariant Parse4(src[from..]) == Run4(src[i..], Quad(tmp[..tp], tmp[tp], saw, octets))
    {
      var ch := src[i];
      ghost var q := Quad(tmp[..tp], tmp[tp], saw, octets);
      RunNext(src, i, q);
      i := i + 1;
      var d := DigitVal(ch);
      if d >= 0 {
        DigitOf(ch);
        var nw := tmp[tp] * 10 + d;
        if saw && tmp[tp] == 0 {
          return Err(EINVAL);
        }
        if nw > 255 {
          return Err(EINVAL);
        }
        tmp[tp] := nw;
        assert tmp[..tp] == q.closed;
        if !saw {
          octets := octets + 1;
          if octets > 4 {
            return Err(EINVAL);
          }
          saw := true;
        }
      } else if ch == '.' && saw {
        if octets == 4 {
          return Err(EINVAL);
        }
        tp := tp + 1;
        tmp[tp] := 0;
        saw := false;
        assert tmp[..tp] == q.closed + [q.cur];
      } else {
        return Err(EINVAL);
      }
    }
    RunOver(src, Quad(tmp[..tp], tmp[tp], saw, octets));
    if octets < 4 {
      return Err(EINVAL);
    }
    assert tmp[..] == tmp[..tp] + [tmp[tp]];
    return Ok(tmp[..]);
  }
}
