/** The Intel HEX format that IntelHex writes and reads: the bytes that a record spells, its checksum, and the memory
    that a file of data, segment and linear address records describes. */
module IntelHexFormat {
  import opened Basics
  import opened IntelHex

  // ---------- The bytes of a record ----------

  ghost predicate HexDigits(s: string) {
    forall i :: 0 <= i < |s| ==> HexVal(s[i]) >= 0
  }

  /** The byte that two digits spell. */
  ghost function Pair(x: char, y: char): int {
    16 * HexVal(x) + HexVal(y)
  }

  /** The bytes that the digits behind the colon spell, in pairs. */
  ghost function Spelled(s: string): seq<int>
    requires |s| % 2 == 1
  {
    seq(|s| / 2, j requires 0 <= j < |s| / 2 => Pair(s[1 + 2 * j], s[2 + 2 * j]))
  }

  ghost function Total(b: seq<int>): int {
    if b == [] then 0 else b[0] + Total(b[1..])
  }

  lemma {:induction false} TotalAppend(a: seq<int>, b: seq<int>)
    ensures Total(a + b) == Total(a) + Total(b)
  {
    if a == [] {
      assert a + b == b;
    } else {
      assert (a + b)[1..] == a[1..] + b;
      TotalAppend(a[1..], b);
    }
  }

  lemma {:induction false} SumTotal(d: seq<Byte>)
    ensures Sum(d) == Total(d)
  {
    if d != [] {
      var n := |d| - 1;
      SumTotal(d[..n]);
      var front: seq<int>, last: seq<int> := d[..n], [d[n]];
      TotalAppend(front, last);
      assert front + last == d;
      assert Total(last) == d[n] + Total([]);
    }
  }

  lemma HexPair(b: Byte)
    ensures Pair(Hex2(b)[0], Hex2(b)[1]) == b
  {
    UpperVal(b / 16);
    UpperVal(b % 16);
  }

  /** The byte that makes the sum 0. */
  ghost predicate Closes(c: int, x: int) {
    c == (-x) % 256
  }

  lemma ZeroSum(x: int, c: int)
    requires Closes(c, x)
    ensures (x + c) % 256 == 0
  {
  }

  lemma HeadTotal(n: int, h: int, l: int, t: int)
    ensures Total([n, h, l, t]) == n + h + l + t
  {
    assert [n, h, l, t][1..] == [h, l, t] && [h, l, t][1..] == [l, t] && [l, t][1..] == [t];
    assert Total([t]) == t && Total([l, t]) == l + t && Total([h, l, t]) == h + (l + t);
  }

  /** A record spells its length, address, type and data, and one more byte that makes the sum of all of them 0 in
      eight bits. */
  lemma RecordBytes(t: int, a: int, d: seq<Byte>)
    requires 0 <= t < 256 && 0 <= a < 65536 && |d| < 256
    ensures |Record(t, a, d)| == 11 + 2 * |d| && Record(t, a, d)[0] == ':'
    ensures var b := Spelled(Record(t, a, d));
            && |b| == 5 + |d| && b[..4] == [|d|, a / 256, a % 256, t] && b[4..4 + |d|] == d && Total(b) % 256 == 0
  {
    hide Record, Spelled, Total, Checksum;
    RecordFields(t, a, d);
    RecordSpelled(t, a, d);
    ChecksumTotal(t, a, a / 256, a % 256, d);
  }

  lemma ChecksumTotal(t: int, a: int, h: int, l: int, d: seq<Byte>)
    requires a == 256 * h + l && 0 <= h < 256 && 0 <= l < 256
    ensures Total([|d|, h, l, t] + d + [Checksum(|d|, a, t, d) as int]) % 256 == 0
  {
    ChecksumIs(t, a, h, l, d);
    ClosedRecord(t, h, l, d, Checksum(|d|, a, t, d));
  }

  lemma ClosedRecord(t: int, h: int, l: int, d: seq<Byte>, c: Byte)
    requires Closes(c, |d| + h + l + t + Sum(d))
    ensures Total([|d|, h, l, t] + d + [c as int]) % 256 == 0
  {
    ClosedTotal(|d|, h, l, t, d, c);
  }

  lemma ClosedTotal(n: int, h: int, l: int, t: int, d: seq<Byte>, c: int)
    requires Closes(c, n + h + l + t + Sum(d))
    ensures Total([n, h, l, t] + d + [c]) % 256 == 0
  {
    hide Total, Sum;
    RecordTotal(n, h, l, t, d, c);
    SumTotal(d);
    ZeroSum(n + h + l + t + Sum(d), c);
  }

  lemma RecordTotal(n: int, h: int, l: int, t: int, d: seq<int>, c: int)
    ensures Total([n, h, l, t] + d + [c]) == n + h + l + t + Total(d) + c
  {
    hide Total;
    TotalAppend([n, h, l, t] + d, [c]);
    TotalAppend([n, h, l, t], d);
    HeadTotal(n, h, l, t);
    OneTotal(c);
  }

  lemma ChecksumIs(t: int, a: int, h: int, l: int, d: seq<Byte>)
    requires a == 256 * h + l && 0 <= h < 256 && 0 <= l < 256
    ensures Closes(Checksum(|d|, a, t, d), |d| + h + l + t + Sum(d))
  {
    assert a / 256 == h && a % 256 == l;
  }

  lemma OneTotal(c: int)
    ensures Total([c]) == c
  {
  }

  lemma RecordSpelled(t: int, a: int, d: seq<Byte>)
    requires 0 <= t < 256 && 0 <= a < 65536 && |d| < 256
    ensures |Record(t, a, d)| == 11 + 2 * |d|
    ensures Spelled(Record(t, a, d)) == [|d|, a / 256, a % 256, t] + d + [Checksum(|d|, a, t, d) as int]
  {
    hide Record, Checksum, Hex2, Pair;
    var s, n := Record(t, a, d), |d|;
    RecordFields(t, a, d);
    AddressHalves(a);
    var all: seq<int> := [n, a / 256, a % 256, t] + d + [Checksum(n, a, t, d) as int];
    forall j | 0 <= j < 5 + n ensures Pair(s[1 + 2 * j], s[2 + 2 * j]) == all[j] {
      var v: Byte := all[j];
      HexPair(v);
      assert s[1 + 2 * j..3 + 2 * j] == Hex2(v) by {
        FieldAt(s, t, a, d, j);
      }
      assert s[1 + 2 * j..3 + 2 * j][0] == s[1 + 2 * j] && s[1 + 2 * j..3 + 2 * j][1] == s[2 + 2 * j];
    }
  }

  lemma AddressHalves(a: int)
    requires 0 <= a < 65536
    ensures Hex4(a)[..2] == Hex2(a / 256) && Hex4(a)[2..] == Hex2(a % 256)
  {
  }

  lemma FieldAt(s: string, t: int, a: int, d: seq<Byte>, j: int)
    requires 0 <= t < 256 && 0 <= a < 65536 && |d| < 256 && s == Record(t, a, d) && |s| == 11 + 2 * |d|
             && 0 <= j < 5 + |d|
    ensures s[1 + 2 * j..3 + 2 * j] ==
            Hex2(([|d|, a / 256, a % 256, t] + d + [Checksum(|d|, a, t, d) as int])[j])
  {
    hide Record, Checksum, Hex2;
    RecordFields(t, a, d);
    AddressHalves(a);
    if j == 1 {
      assert s[3..7][..2] == s[3..5];
    } else if j == 2 {
      assert s[3..7][2..] == s[5..7];
    } else if j == 4 + |d| {
      assert s[9 + 2 * |d|..] == s[1 + 2 * j..3 + 2 * j];
    } else if j >= 4 {
      assert s[9 + 2 * (j - 4)..9 + 2 * (j - 4) + 2] == Hex2(d[j - 4]);
    }
  }

  /** Three records as they are known: the end of a file, a segment and a linear address. */
  lemma KnownRecords()
    ensures EndRecord == ":00000001FF"
    ensures Record(2, 0, [0x12, 0x00]) == ":020000021200EA"
    ensures Record(4, 0, [0x08, 0x00]) == ":020000040800F2"
  {
    hide Checksum, HexAll;
    assert HexAll([]) == "" && Checksum(0, 0, 1, []) == 0xff by {
      NoBytes();
    }
    TwoBytes(2, 0x12, 0x00);
    TwoBytes(4, 0x08, 0x00);
  }

  lemma NoBytes()
    ensures HexAll([]) == "" && Checksum(0, 0, 1, []) == 0xff
  {
  }

  lemma TwoBytes(t: int, x: Byte, y: Byte)
    ensures HexAll([x, y]) == Hex2(x) + Hex2(y) && Checksum(2, 0, t, [x, y]) as int == (-(2 + t + (x + y))) % 256
  {
    hide Hex2;
    var d := [x, y];
    EmptySums(d);
    SumSnoc(d, 0);
    SumSnoc(d, 1);
    assert d[..2] == d;
  }

  // ---------- Lines of digits ----------

  /** A record that is read is accepted exactly if its bytes sum to 0 in eight bits. */
  lemma ChecksumExact(rec: string, data: seq<Byte>)
    requires |data| == MAXDATA && ReadRec(rec, data).Some?
    ensures var r := ReadRec(rec, data).value;
            && r.reclen as int <= |r.data|
            && (r.rc == r.cksum <==>
                  (r.reclen + r.loadofs / 256 % 256 + r.loadofs % 256 + r.rectyp + Total(r.data[..r.reclen]) + r.cksum)
                  % 256 == 0)
  {
    hide Field, ReadData;
    var r := ReadRec(rec, data).value;
    SumTotal(r.data[..r.reclen]);
    Negated(r.reclen + r.loadofs / 256 % 256 + r.loadofs % 256 + r.rectyp + Sum(r.data[..r.reclen]), r.cksum);
  }

  lemma Negated(x: int, c: Byte)
    ensures (-x) % 256 == c <==> (x + c) % 256 == 0
  {
  }

  lemma NotSpecial(c: char)
    requires HexVal(c) >= 0
    ensures !IsSpace(c) && c != '+' && c != '-' && c != 'x' && c != 'X' && HexVal(c) < 16
  {
  }

  lemma Strtoul2Digits(s: string)
    requires |s| == 2 && HexDigits(s)
    ensures Strtoul(s) == (Pair(s[0], s[1]), 2) && 0 <= Pair(s[0], s[1]) < 256
  {
    NotSpecial(s[0]);
    NotSpecial(s[1]);
    assert Digits(s, 2, 16 * HexVal(s[0]) + HexVal(s[1])) == (16 * HexVal(s[0]) + HexVal(s[1]), 2);
    assert Digits(s, 1, HexVal(s[0])) == (16 * HexVal(s[0]) + HexVal(s[1]), 2);
  }

  lemma Strtoul4Digits(s: string)
    requires |s| == 4 && HexDigits(s)
    ensures Strtoul(s) == (256 * Pair(s[0], s[1]) + Pair(s[2], s[3]), 4)
    ensures 0 <= 256 * Pair(s[0], s[1]) + Pair(s[2], s[3]) < 65536
  {
    NotSpecial(s[0]);
    NotSpecial(s[1]);
    NotSpecial(s[2]);
    NotSpecial(s[3]);
    var v1, v2, v3 := HexVal(s[0]), Pair(s[0], s[1]), 16 * Pair(s[0], s[1]) + HexVal(s[2]);
    assert Digits(s, 4, 16 * v3 + HexVal(s[3])) == (16 * v3 + HexVal(s[3]), 4);
    assert Digits(s, 3, v3) == (16 * v3 + HexVal(s[3]), 4);
    assert Digits(s, 2, v2) == (16 * v3 + HexVal(s[3]), 4);
    assert Digits(s, 1, v1) == (16 * v3 + HexVal(s[3]), 4);
  }

  /** The number that hexadecimal digits stand for. */
  ghost function HexNumber(s: string): int {
    if s == "" then 0 else 16 * HexNumber(s[..|s| - 1]) + HexVal(s[|s| - 1])
  }

  lemma {:induction false} DigitsFrom(s: string, p: nat, k: nat)
    requires p + k <= |s| && HexDigits(s[p..])
    ensures Digits(s, p + k, HexNumber(s[p..p + k])) == (HexNumber(s[p..]), |s|)
    decreases |s| - k
  {
    if p + k == |s| {
      assert s[p..p + k] == s[p..];
    } else {
      assert s[p..p + k + 1][..k] == s[p..p + k] && s[p..p + k + 1][k] == s[p + k] && s[p..][k] == s[p + k];
      DigitsFrom(s, p, k + 1);
    }
  }

  lemma {:induction false} SpacesFrom(s: string, p: nat, i: nat)
    requires i <= p < |s| && (forall k :: i <= k < p ==> IsSpace(s[k])) && !IsSpace(s[p])
    ensures SkipSpace(s, i) == p
    decreases p - i
  {
    if i < p {
      SpacesFrom(s, p, i + 1);
    }
  }

  /** strtoul takes white space, an optional sign, an optional 0x or 0X and digits, and counts all of them; a minus sign
      negates the number. */
  lemma StrtoulForm(space: string, sign: string, prefix: string, digits: string)
    requires (forall k :: 0 <= k < |space| ==> IsSpace(space[k])) && sign in {"", "+", "-"}
             && prefix in {"", "0x", "0X"}
    requires digits != "" && HexDigits(digits)
    ensures var s := space + sign + prefix + digits;
            Strtoul(s) == (if sign == "-" then -HexNumber(digits) else HexNumber(digits), |s|)
  {
    hide Strtoul, HexNumber, SkipSpace, Digits;
    var s := space + sign + prefix + digits;
    var i, j, k := |space|, |space| + |sign|, |space| + |sign| + |prefix|;
    assert s[k..] == digits;
    NotSpecial(digits[0]);
    if |digits| > 1 {
      NotSpecial(digits[1]);
    }
    assert s[i] == if sign != "" then sign[0] else if prefix != "" then '0' else digits[0];
    assert prefix != "" ==> s[j] == '0' && s[j + 1] == prefix[1] && s[j + 2] == digits[0];
    assert prefix == "" ==> s[j] == digits[0] && (|digits| > 1 ==> s[j + 1] == digits[1]);
    StrtoulAt(s, i, j, k);
  }

  lemma StrtoulAt(s: string, i: nat, j: nat, k: nat)
    requires i <= j <= k < |s| && (forall x :: 0 <= x < i ==> IsSpace(s[x])) && !IsSpace(s[i])
    requires j == if s[i] == '+' || s[i] == '-' then i + 1 else i
    requires k == if j + 2 < |s| && s[j] == '0' && (s[j + 1] == 'x' || s[j + 1] == 'X') then j + 2 else j
    requires HexDigits(s[k..])
    ensures Strtoul(s) == (if s[i] == '-' then -HexNumber(s[k..]) else HexNumber(s[k..]), |s|)
  {
    hide HexNumber;
    SpacesFrom(s, i, 0);
    assert s[k..][0] == s[k] && s[k..k] == "";
    NoNumber();
    DigitsFrom(s, k, 0);
  }

  lemma NoNumber()
    ensures HexNumber("") == 0
  {
  }

  /** Digits behind a colon. */
  ghost predicate HexLine(rec: string) {
    rec != "" && rec[0] == ':' && |rec| % 2 == 1 && HexDigits(rec[1..])
  }

  lemma PairField(rec: string, j: nat)
    requires HexLine(rec) && j < |rec| / 2
    ensures Field(rec, 1 + 2 * j, 2) == Some(Spelled(rec)[j]) && 0 <= Spelled(rec)[j] < 256
  {
    var f := rec[1 + 2 * j..3 + 2 * j];
    assert f[0] == rec[1 + 2 * j] && f[1] == rec[2 + 2 * j];
    assert rec[1..][2 * j] == f[0] && rec[1..][2 * j + 1] == f[1];
    Strtoul2Digits(f);
  }

  lemma WordField(rec: string)
    requires HexLine(rec) && 7 <= |rec|
    ensures Field(rec, 3, 4) == Some(256 * Spelled(rec)[1] + Spelled(rec)[2])
    ensures 0 <= 256 * Spelled(rec)[1] + Spelled(rec)[2] < 65536
  {
    var f := rec[3..7];
    assert f[0] == rec[3] && f[1] == rec[4] && f[2] == rec[5] && f[3] == rec[6];
    assert rec[1..][2] == f[0] && rec[1..][3] == f[1] && rec[1..][4] == f[2] && rec[1..][5] == f[3];
    Strtoul4Digits(f);
  }

  ghost predicate AreBytes(b: seq<int>) {
    forall i :: 0 <= i < |b| ==> 0 <= b[i] < 256
  }

  lemma {:induction false} DataField(rec: string, n: nat, j: nat, data: seq<Byte>)
    requires HexLine(rec) && j <= n <= |data| && 4 + n <= |rec| / 2
    ensures ReadData(rec, n, j, data).Some?
    ensures var d := ReadData(rec, n, j, data).value;
            d[..j] == data[..j] && d[n..] == data[n..] && forall i :: j <= i < n ==> d[i] as int == Spelled(rec)[4 + i]
    decreases n - j
  {
    hide Field, Spelled;
    SpelledLength(rec);
    if j < n {
      PairField(rec, 4 + j);
      var v := Spelled(rec)[4 + j];
      DataField(rec, n, j + 1, data[j := v % 256]);
      var d := ReadData(rec, n, j, data).value;
      assert d[..j + 1] == data[j := v % 256][..j + 1];
      assert d[..j] == d[..j + 1][..j] && d[j] == d[..j + 1][j];
    }
  }

  /** A line of digits is read as the bytes that it spells, upper and lower case alike, if it has as many as its length
      says; and it is accepted exactly if they sum to 0 in eight bits, extra digits at the end not counted. */
  lemma ReadHexLine(rec: string, data: seq<Byte>)
    requires HexLine(rec) && |data| == MAXDATA && |rec| >= 11 && 5 + Spelled(rec)[0] <= |rec| / 2
    ensures ReadRec(rec, data).Some?
    ensures var r, b, n := ReadRec(rec, data).value, Spelled(rec), Spelled(rec)[0];
            && 0 <= n < 256 && r.reclen as int == n && r.loadofs == 256 * b[1] + b[2] && r.rectyp as int == b[3]
            && |r.data| == MAXDATA && (forall i :: 0 <= i < n ==> r.data[i] as int == b[4 + i])
            && r.data[n..] == data[n..] && r.cksum as int == b[4 + n]
            && (r.rc == r.cksum <==> Total(b[..5 + n]) % 256 == 0)
  {
    hide Field, ReadData, Spelled, Total, Checksum;
    SpelledLength(rec);
    PairField(rec, 0);
    WordField(rec);
    PairField(rec, 3);
    var b := Spelled(rec);
    var n := b[0];
    PairField(rec, 1);
    PairField(rec, 2);
    DataField(rec, n, 0, data);
    PairField(rec, 4 + n);
    SmallWord(256 * b[1] + b[2]);
    var r := ReadRec(rec, data).value;
    ChecksumExact(rec, data);
    var d: seq<int> := r.data[..n];
    RecordTotal(n, b[1], b[2], b[3], d, b[4 + n]);
    assert b[..5 + n] == [n, b[1], b[2], b[3]] + d + [b[4 + n]];
    Halves(b[1], b[2]);
  }

  lemma SpelledLength(rec: string)
    requires |rec| % 2 == 1
    ensures |Spelled(rec)| == |rec| / 2
  {
  }

  lemma SmallWord(x: int)
    requires 0 <= x < 65536
    ensures U32(x) == x
  {
  }

  lemma Halves(h: int, l: int)
    requires 0 <= h < 256 && 0 <= l < 256
    ensures (256 * h + l) / 256 % 256 == h && (256 * h + l) % 256 == l
  {
  }

  /** A line that does not begin with a colon is skipped. */
  lemma OtherLineSkipped(line: string, rest: string, im: Image)
    requires |im.data| == MAXDATA && OneLine(line) && 0 < |line| < MAX_LINE_LEN && line[0] != ':'
    ensures ReadFile(line + "\n" + rest, im) == ReadFile(rest, im)
  {
    hide ReadFile;
    ReadWhole(line, rest, im);
  }

  /** A line of digits whose bytes do not sum to 0 in eight bits, or whose type is unknown, or that has fewer bytes than
      its length says, ends the reading with an error. */
  lemma BadLineRefused(rec: string, rest: string, im: Image)
    requires |im.data| == MAXDATA && HexLine(rec) && OneLine(rec) && 11 <= |rec| < MAX_LINE_LEN
    requires var b := Spelled(rec); |b| < 5 + b[0] || Total(b[..5 + b[0]]) % 256 != 0 || b[3] > 5
    ensures ReadFile(rec + "\n" + rest, im) == Done(-1, im.buf)
  {
    hide ReadFile, Spelled, Total, ReadRec;
    ReadWhole(rec, rest, im);
    LineStep(rec, im);
    SpelledLength(rec);
    if |rec| / 2 < 5 + Spelled(rec)[0] {
      ShortLine(rec, im.data);
    } else {
      ReadHexLine(rec, im.data);
    }
  }

  lemma ShortLine(rec: string, data: seq<Byte>)
    requires HexLine(rec) && |data| == MAXDATA && 11 <= |rec| && |rec| / 2 < 5 + Spelled(rec)[0]
    ensures ReadRec(rec, data) == None
  {
    hide Strtoul, Spelled;
    PairField(rec, 0);
  }

  // ---------- The memory that a file describes ----------

  /** A record: bytes at an offset from the current base, a new base as a segment or as the upper half of an address, or
      one of the two kinds of start addresses. */
  datatype Line =
    | Data(a: int, d: seq<Byte>)
    | Segment(w: int)
    | Linear(w: int)
    | Start3(d: seq<Byte>)
    | Start5(d: seq<Byte>)

  ghost predicate LineOk(x: Line) {
    match x
    case Data(a, d) => 0 <= a < 65536 && |d| <= 122
    case Segment(w) => 0 <= w < 65536
    case Linear(w) => 0 <= w < 65536
    case Start3(d) => |d| <= 122
    case Start5(d) => |d| <= 122
  }

  ghost function LineText(x: Line): string
    requires LineOk(x)
  {
    match x
    case Data(a, d) => Record(0, a, d)
    case Segment(w) => Record(2, 0, [w / 256, w % 256])
    case Linear(w) => Record(4, 0, [w / 256, w % 256])
    case Start3(d) => Record(3, 0, d)
    case Start5(d) => Record(5, 0, d)
  }

  ghost predicate LinesOk(xs: seq<Line>) {
    forall i :: 0 <= i < |xs| ==> LineOk(xs[i])
  }

  /** The records and the end record, one in a line. */
  ghost function FileText(xs: seq<Line>): string
    requires LinesOk(xs)
  {
    if xs == [] then EndRecord + "\n" + "" else LineText(xs[0]) + "\n" + FileText(xs[1..])
  }

  /** What the records up to some point say: the base for the next data record, the address that the buffer starts at,
      the address of the last data record, the end of the highest one, and the bytes by their place in the buffer. */
  datatype Memory = Memory(base: int, offset: int, last: int, top: int, cells: map<int, Byte>)

  ghost function CellOf(at: int, d: seq<Byte>, i: int): Byte {
    if at <= i < at + |d| then d[i - at] else 0
  }

  ghost function Cells(at: int, d: seq<Byte>): map<int, Byte> {
    map i | at <= i < at + |d| :: CellOf(at, d, i)
  }

  /** A segment counts in units of 16 bytes and a linear address in units of 64K, which moves the start of the buffer
      while the last data record was at address 0 or there was none. */
  ghost function Says(m: Memory, x: Line): Memory {
    match x
    case Data(a, d) =>
      var at := m.base + a;
      m.(last := at, top := if m.top < at + |d| then at + |d| else m.top, cells := m.cells + Cells(at - m.offset, d))
    case Segment(w) => m.(base := 16 * w)
    case Linear(w) => m.(base := 65536 * w, offset := if m.last == 0 then 65536 * w else m.offset)
    case Start3(_) => m
    case Start5(_) => m
  }

  /** The bytes are inside the buffer, in 32 bits. */
  ghost predicate Fits(m: Memory, x: Line, size: int) {
    x.Data? ==>
      m.offset <= m.base + x.a && m.base + x.a + |x.d| <= m.offset + size && m.offset + size < WORD
  }

  ghost function SaysAll(m: Memory, xs: seq<Line>): Memory
    decreases |xs|
  {
    if xs == [] then m else SaysAll(Says(m, xs[0]), xs[1..])
  }

  ghost predicate FitsAll(m: Memory, xs: seq<Line>, size: int)
    decreases |xs|
  {
    xs != [] ==> Fits(m, xs[0], size) && FitsAll(Says(m, xs[0]), xs[1..], size)
  }

  /** The variables of ihex2b hold what the records say. */
  ghost predicate Agrees(im: Image, m: Memory, out: seq<Byte>) {
    && |im.data| == MAXDATA && im.base == m.base && im.offset == m.offset && im.next == m.last && im.max == m.top
    && 0 <= m.base && 0 <= m.offset && |im.buf| == |out|
    && forall i :: 0 <= i < |out| ==> im.buf[i] == if i in m.cells then m.cells[i] else out[i]
  }

  lemma PutCells(buf: seq<Byte>, at: nat, d: seq<Byte>, i: nat)
    requires at + |d| <= |buf| && i < |buf|
    ensures |Put(buf, at, d)| == |buf| && Put(buf, at, d)[i] == if i in Cells(at, d) then Cells(at, d)[i] else buf[i]
  {
  }

  lemma DataAgrees(im: Image, m: Memory, out: seq<Byte>, a: int, d: seq<Byte>, c: Byte)
    requires Agrees(im, m, out) && LineOk(Data(a, d)) && Fits(m, Data(a, d), |out|)
    ensures var t := Apply(im, Rec(|d|, a, 0, d + im.data[|d|..], c, c));
            t.Go? && Agrees(t.im, Says(m, Data(a, d)), out)
  {
    hide Put, Cells;
    var at, r := m.base + a, Rec(|d|, a, 0, d + im.data[|d|..], c, c);
    NoWrap(at);
    NoWrap(at + |d|);
    NoWrap(at - m.offset);
    NoWrap(|out| + m.offset);
    assert r.data[..|d|] == d;
    forall i | 0 <= i < |out|
      ensures |Put(im.buf, at - m.offset, d)| == |out|
      ensures Put(im.buf, at - m.offset, d)[i] ==
              if i in Cells(at - m.offset, d) then Cells(at - m.offset, d)[i] else im.buf[i]
    {
      PutCells(im.buf, at - m.offset, d, i);
    }
    if d == [] {
      NoCells(at - m.offset);
    } else {
      PutLength(im.buf, at - m.offset, d);
    }
  }

  lemma NoCells(at: int)
    ensures Cells(at, []) == map[]
  {
  }

  lemma NoWrap(x: int)
    requires 0 <= x < WORD
    ensures U32(x) == x
  {
  }

  lemma WordOf(w: int, rest: seq<Byte>)
    requires 0 <= w < 65536
    ensures IntelHex.Word([w / 256, w % 256] + rest) == w && U32(w * 0x10000) == 65536 * w
  {
  }

  lemma LineAgrees(im: Image, m: Memory, out: seq<Byte>, x: Line, rest: string) returns (im': Image)
    requires Agrees(im, m, out) && LineOk(x) && Fits(m, x, |out|)
    ensures Agrees(im', Says(m, x), out) && ReadFile(LineText(x) + "\n" + rest, im) == ReadFile(rest, im')
  {
    hide ReadFile, Record, Checksum, Put, Cells;
    match x
    case Data(a, d) =>
      ReadOne(0, a, d, rest, im);
      DataAgrees(im, m, out, a, d, Checksum(|d|, a, 0, d));
      im' := Apply(im, Rec(|d|, a, 0, d + im.data[|d|..], Checksum(|d|, a, 0, d), Checksum(|d|, a, 0, d))).im;
    case Segment(w) =>
      var d: seq<Byte> := [w / 256, w % 256];
      ReadOne(2, 0, d, rest, im);
      WordOf(w, im.data[2..]);
      im' := im.(base := 16 * w, data := d + im.data[2..]);
    case Linear(w) =>
      var d: seq<Byte> := [w / 256, w % 256];
      ReadOne(4, 0, d, rest, im);
      WordOf(w, im.data[2..]);
      im' := im.(base := 65536 * w, offset := if im.next == 0 then 65536 * w else im.offset, data := d + im.data[2..]);
    case Start3(d) =>
      ReadOne(3, 0, d, rest, im);
      im' := im.(data := d + im.data[|d|..]);
    case Start5(d) =>
      ReadOne(5, 0, d, rest, im);
      im' := im.(data := d + im.data[|d|..]);
  }

  /** Reading any file of records whose bytes all fall into the buffer leaves there exactly what the records say, with
      later bytes over earlier ones, and returns the end of the highest data record. */
  lemma {:induction false} ReadRecords(xs: seq<Line>, im: Image, m: Memory, out: seq<Byte>)
    requires LinesOk(xs) && Agrees(im, m, out) && FitsAll(m, xs, |out|)
    ensures var r, n := ReadFile(FileText(xs), im), SaysAll(m, xs);
            && r.Done? && r.rc == Signed(n.top - n.offset) && |r.buf| == |out|
            && forall i :: 0 <= i < |out| ==> r.buf[i] == if i in n.cells then n.cells[i] else out[i]
    decreases |xs|
  {
    hide ReadFile, LineText, LineOk, Agrees, Fits;
    if xs == [] {
      EndAgrees(im, m, out);
    } else {
      var im' := LineAgrees(im, m, out, xs[0], FileText(xs[1..]));
      ReadRecords(xs[1..], im', Says(m, xs[0]), out);
    }
  }

  lemma EndAgrees(im: Image, m: Memory, out: seq<Byte>)
    requires Agrees(im, m, out)
    ensures ReadFile(EndRecord + "\n" + "", im) == Done(Signed(m.top - m.offset), im.buf)
    ensures |im.buf| == |out| && forall i :: 0 <= i < |out| ==> im.buf[i] == if i in m.cells then m.cells[i] else out[i]
  {
    hide ReadFile, Record, Checksum;
    ReadOne(1, 0, [], "", im);
  }

  /** The same from the start of ihex2b. */
  lemma ReadRecordsFrom(xs: seq<Line>, out: seq<Byte>, data: seq<Byte>)
    requires LinesOk(xs) && |data| == MAXDATA && FitsAll(Memory(0, 0, 0, 0, map[]), xs, |out|)
    ensures var r, n := ReadFile(FileText(xs), Start(out, data)), SaysAll(Memory(0, 0, 0, 0, map[]), xs);
            && r.Done? && r.rc == Signed(n.top - n.offset) && |r.buf| == |out|
            && forall i :: 0 <= i < |out| ==> r.buf[i] == if i in n.cells then n.cells[i] else out[i]
  {
    ReadRecords(xs, Start(out, data), Memory(0, 0, 0, 0, map[]), out);
  }

  /** A data record that ends behind the buffer is refused, and nothing of it is written. */
  lemma DataRefused(im: Image, a: int, d: seq<Byte>, rest: string)
    requires |im.data| == MAXDATA && 0 <= a < 65536 && |d| <= 122 && 0 <= im.base && 0 <= im.offset
    requires im.base + a + |d| < WORD && im.offset + |im.buf| < im.base + a + |d|
    ensures ReadFile(Record(0, a, d) + "\n" + rest, im) == Done(-1, im.buf)
  {
    hide ReadFile, Record, Checksum;
    ReadOne(0, a, d, rest, im);
    NoWrap(im.base + a);
    NoWrap(im.base + a + |d|);
    NoWrap(|im.buf| + im.offset);
  }

  // ---------- What the writer puts into a record ----------

  /** A data record is as long as the record size, the rest of the bytes and the rest of the segment allow. */
  lemma TakeExact(rest: int, recsize: int, a: int)
    requires 1 <= recsize && 1 <= rest && 0 <= a < 0x10000
    ensures var n := Take(rest, recsize, a);
            && 1 <= n <= recsize && n <= rest && a + n <= 0x10000
            && (n == recsize || n == rest || a + n == 0x10000)
  {
  }
}
