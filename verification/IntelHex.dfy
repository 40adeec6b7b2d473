/** Intel HEX files: b2ihex, ihex_readrec and ihex2b of libs/avrdude/fileio.c. A file is the sequence
    of its characters, none of them NUL. */
module IntelHex {
  import opened Basics

  const MAX_LINE_LEN := 256
  const MAXDATA := 256

  function U32(x: int): (r: int)
    ensures 0 <= r < WORD
  {
    x % WORD
  }

  /** Conversion of an unsigned int to int. */
  function Signed(x: int): int {
    if U32(x) > INT_MAX then U32(x) - WORD else U32(x)
  }

  // ---------- Writing ----------

  function UpperChar(d: int): char
    requires 0 <= d < 16
  {
    if d < 10 then '0' + d as char else 'A' + (d - 10) as char
  }

  /** The output of %02X for a byte, and of %04X for a 16-bit number. */
  function Hex2(b: int): (s: string)
    requires 0 <= b < 256
    ensures |s| == 2
  {
    [UpperChar(b / 16), UpperChar(b % 16)]
  }

  function Hex4(a: int): (s: string)
    requires 0 <= a < 65536
    ensures |s| == 4
  {
    Hex2(a / 256) + Hex2(a % 256)
  }

  function HexAll(d: seq<Byte>): string {
    if d == [] then "" else HexAll(d[..|d| - 1]) + Hex2(d[|d| - 1])
  }

  function Sum(d: seq<Byte>): int {
    if d == [] then 0 else Sum(d[..|d| - 1]) + d[|d| - 1]
  }

  function Checksum(n: int, a: int, t: int, d: seq<Byte>): Byte {
    (-(n + a / 256 % 256 + a % 256 + t + Sum(d))) % 256
  }

  /** A record without its newline. */
  function Record(t: int, a: int, d: seq<Byte>): string
    requires 0 <= t < 256 && 0 <= a < 65536 && |d| < 256
  {
    ":" + Hex2(|d|) + Hex4(a) + Hex2(t) + HexAll(d) + Hex2(Checksum(|d|, a, t, d))
  }

  const EndRecord := Record(1, 0, [])

  function Min(a: int, b: int): int {
    if a < b then a else b
  }

  /** Bytes in the next data record. */
  function Take(rest: int, recsize: int, a: int): int {
    Min(Min(recsize, rest), 0x10000 - a)
  }

  /** The extended linear address record number `k`. */
  function Extended(k: int): string
    requires 0 <= k
  {
    Record(4, 0, [k / 256 % 256, k % 256])
  }

  /** The file for the bytes `buf`, from address `a` of the 64K segment number `k` on. */
  function Text(buf: seq<Byte>, recsize: int, a: int, k: int): string
    requires 1 <= recsize <= 255 && 0 <= a < 0x10000 && 0 <= k
    decreases |buf|
  {
    if buf == [] then EndRecord + "\n"
    else
      var n := Take(|buf|, recsize, a);
      if a + n == 0x10000 then
        Record(0, a, buf[..n]) + "\n" + (Extended(k + 1) + "\n" + Text(buf[n..], recsize, 0, k + 1))
      else
        Record(0, a, buf[..n]) + "\n" + Text(buf[n..], recsize, a + n, k)
  }

  // ---------- strtoul with base 16 ----------

  predicate IsSpace(c: char) {
    c == ' ' || '\t' as int <= c as int <= '\r' as int
  }

  function SkipSpace(s: string, i: nat): (j: nat)
    requires i <= |s|
    ensures i <= j <= |s|
    decreases |s| - i
  {
    if i < |s| && IsSpace(s[i]) then SkipSpace(s, i + 1) else i
  }

  /** The value of the hexadecimal digits from position `i` on, after the value `v`, and where they end. */
  function Digits(s: string, i: nat, v: int): (r: (int, nat))
    requires i <= |s|
    ensures i <= r.1 <= |s|
    decreases |s| - i
  {
    if i < |s| && HexVal(s[i]) >= 0 then Digits(s, i + 1, 16 * v + HexVal(s[i])) else (v, i)
  }

  /** The result, before it is cut to a width, and the offset of the end pointer. */
  function Strtoul(s: string): (r: (int, nat))
    ensures r.1 <= |s|
  {
    var i := SkipSpace(s, 0);
    var j := if i < |s| && (s[i] == '+' || s[i] == '-') then i + 1 else i;
    var k := if j + 2 < |s| && s[j] == '0' && (s[j + 1] == 'x' || s[j + 1] == 'X') && HexVal(s[j + 2]) >= 0
             then j + 2 else j;
    var (v, e) := Digits(s, k, 0);
    if e == k then (0, 0) else (if i < |s| && s[i] == '-' then -v else v, e)
  }

  // ---------- Reading ----------

  /** The fields of struct ihexrec, and the checksum that ihex_readrec returns. */
  datatype Rec = Rec(reclen: Byte, loadofs: int, rectyp: Byte, data: seq<Byte>, cksum: Byte, rc: Byte)

  /** A number of `k` characters at `offset`. */
  function Field(rec: string, offset: nat, k: nat): Option<int> {
    if offset + k > |rec| then None
    else
      var (v, e) := Strtoul(rec[offset..offset + k]);
      if e == 0 || e != k then None else Some(v)
  }

  /** Data bytes from number `j` on. */
  function ReadData(rec: string, n: nat, j: nat, data: seq<Byte>): (r: Option<seq<Byte>>)
    requires j <= n <= |data|
    ensures r.Some? ==> |r.value| == |data| && 9 + 2 * n <= Max(|rec|, 9 + 2 * j)
    decreases n - j
  {
    if j == n then Some(data)
    else
      match Field(rec, 9 + 2 * j, 2)
      case None => None
      case Some(v) => ReadData(rec, n, j + 1, data[j := v % 256])
  }

  function Max(a: int, b: int): int {
    if a < b then b else a
  }

  /** ihex_readrec, on a record structure that holds `data` before. */
  function ReadRec(rec: string, data: seq<Byte>): Option<Rec>
    requires |data| == MAXDATA
  {
    var len, ofs, typ := Field(rec, 1, 2), Field(rec, 3, 4), Field(rec, 7, 2);
    if len.None? || ofs.None? || typ.None? then None
    else
      var n, a, t := len.value % 256, U32(ofs.value), typ.value % 256;
      var d := ReadData(rec, n, 0, data);
      if d.None? then None
      else
        var c := Field(rec, 9 + 2 * n, 2);
        if c.None? then None
        else Some(Rec(n, a, t, d.value, c.value % 256, Checksum(n, a, t, d.value[..n])))
  }

  /** The variables of ihex2b. */
  datatype Image = Image(buf: seq<Byte>, base: int, max: int, offset: int, next: int, data: seq<Byte>)

  /** How ihex2b ends; Wild is a write outside of the buffer. */
  datatype End = Done(rc: int, buf: seq<Byte>) | Wild

  datatype Turn = Go(im: Image) | Quit(end: End)

  /** The first two data bytes as one number. */
  function Word(d: seq<Byte>): int
    requires |d| >= 2
  {
    (d[0] as int) * 256 + d[1] as int
  }

  function Apply(im: Image, r: Rec): Turn
    requires |r.data| == MAXDATA
  {
    if r.rc != r.cksum then Quit(Done(-1, im.buf))
    else match r.rectyp
      case 0 =>
        var next := U32(r.loadofs + im.base);
        var end, at := U32(next + r.reclen), U32(next - im.offset);
        if end > U32(|im.buf| + im.offset) then Quit(Done(-1, im.buf))
        else if r.reclen > 0 && at + r.reclen > |im.buf| then Quit(Wild)
        else Go(im.(buf := if r.reclen == 0 then im.buf else Put(im.buf, at, r.data[..r.reclen]),
                    next := next, max := Max(im.max, end), data := r.data))
      case 1 => Quit(Done(Signed(im.max - im.offset), im.buf))
      case 2 => Go(im.(base := Word(r.data) * 16, data := r.data))
      case 3 => Go(im.(data := r.data))
      case 4 =>
        var base := U32(Word(r.data) * 0x10000);
        Go(im.(base := base, offset := if im.next == 0 then base else im.offset, data := r.data))
      case 5 => Go(im.(data := r.data))
      case _ => Quit(Done(-1, im.buf))
  }

  function Put(buf: seq<Byte>, at: nat, d: seq<Byte>): seq<Byte>
    requires at + |d| <= |buf|
  {
    buf[..at] + d + buf[at + |d|..]
  }

  /** How much fgets reads into a buffer with room for `m` characters and the terminator. */
  function Fgets(file: string, m: nat): (k: nat)
    ensures k <= m && k <= |file| && (file != "" && m > 0 ==> k > 0)
  {
    if file == "" || m == 0 then 0
    else if file[0] == '\n' then 1
    else 1 + Fgets(file[1..], m - 1)
  }

  function Chomp(line: string): string {
    if line != "" && line[|line| - 1] == '\n' then line[..|line| - 1] else line
  }

  function ReadFile(file: string, im: Image): End
    requires |im.data| == MAXDATA
    decreases |file|
  {
    if file == "" then Done(Signed(im.max - im.offset), im.buf)
    else
      var k := Fgets(file, MAX_LINE_LEN - 1);
      match ReadLine(Chomp(file[..k]), im)
      case Go(im') => ReadFile(file[k..], im')
      case Quit(end) => end
  }

  function ReadLine(line: string, im: Image): (r: Turn)
    requires |im.data| == MAXDATA
    ensures r.Go? ==> |r.im.data| == MAXDATA
  {
    if line == "" || line[0] != ':' then Go(im)
    else
      match ReadRec(line, im.data)
      case None => Quit(Done(-1, im.buf))
      case Some(r) =>
        assert |r.data| == MAXDATA;
        Apply(im, r)
  }

  // ---------- Reading one written record ----------

  lemma UpperVal(d: int)
    requires 0 <= d < 16
    ensures HexVal(UpperChar(d)) == d && !IsSpace(UpperChar(d)) && UpperChar(d) !in "+-xX\n"
  {
  }

  lemma Strtoul2(b: Byte)
    ensures Strtoul(Hex2(b)) == (b, 2)
  {
    var s := Hex2(b);
    UpperVal(b / 16);
    UpperVal(b % 16);
    assert Digits(s, 2, b) == (b, 2);
    assert Digits(s, 1, b / 16) == (b, 2);
    assert Digits(s, 0, 0) == (b, 2);
  }

  lemma Strtoul4(a: int)
    requires 0 <= a < 65536
    ensures Strtoul(Hex4(a)) == (a, 4)
  {
    var s := Hex4(a);
    var d3, d2, d1, d0 := a / 256 / 16, a / 256 % 16, a % 256 / 16, a % 256 % 16;
    UpperVal(d3);
    UpperVal(d2);
    UpperVal(d1);
    UpperVal(d0);
    assert s == [UpperChar(d3), UpperChar(d2), UpperChar(d1), UpperChar(d0)];
    assert Digits(s, 4, a) == (a, 4);
    assert Digits(s, 3, a / 16) == (a, 4);
    assert Digits(s, 2, a / 256) == (a, 4);
    assert Digits(s, 1, d3) == (a, 4);
    assert Digits(s, 0, 0) == (a, 4);
  }

  lemma {:induction false} HexAllLength(d: seq<Byte>)
    ensures |HexAll(d)| == 2 * |d|
  {
    if d != [] {
      HexAllLength(d[..|d| - 1]);
    }
  }

  lemma Joint(x: string, y: string, i: nat, j: nat)
    requires i <= j <= |x|
    ensures (x + y)[i..j] == x[i..j] && (x + y)[|x|..|x| + |y|] == y
  {
  }

  lemma HexAllLast(d: seq<Byte>)
    requires d != []
    ensures HexAll(d) == HexAll(d[..|d| - 1]) + Hex2(d[|d| - 1])
  {
  }

  lemma {:induction false} HexAllAt(d: seq<Byte>, j: int)
    requires 0 <= j < |d|
    ensures |HexAll(d)| == 2 * |d| && HexAll(d)[2 * j..2 * j + 2] == Hex2(d[j])
  {
    hide Hex2, HexAll;
    var n := |d| - 1;
    HexAllLength(d);
    HexAllLength(d[..n]);
    HexAllLast(d);
    if j < n {
      HexAllAt(d[..n], j);
      Joint(HexAll(d[..n]), Hex2(d[n]), 2 * j, 2 * j + 2);
    } else {
      Joint(HexAll(d[..n]), Hex2(d[n]), 0, 0);
    }
  }

  lemma Cut(l: string, o: string, t: string, x: string, c: string)
    requires |l| == 2 && |o| == 4 && |t| == 2 && |c| == 2
    ensures var s := ":" + l + o + t + x + c;
            && |s| == 11 + |x| && s[0] == ':' && s[1..3] == l && s[3..7] == o && s[7..9] == t
            && s[9..9 + |x|] == x && s[9 + |x|..] == c
  {
  }

  lemma Within(s: string, x: string, i: int, j: int)
    requires 9 + |x| <= |s| && s[9..9 + |x|] == x && 0 <= i <= j <= |x|
    ensures s[9 + i..9 + j] == x[i..j]
  {
    forall k | i <= k < j ensures s[9 + k] == x[k] {
      assert s[9..9 + |x|][k] == s[9 + k];
    }
  }

  /** The places of the fields in a record. */
  lemma RecordFields(t: int, a: int, d: seq<Byte>)
    requires 0 <= t < 256 && 0 <= a < 65536 && |d| < 256
    ensures var s := Record(t, a, d);
            && |s| == 11 + 2 * |d| && s[0] == ':' && s[1..3] == Hex2(|d|) && s[3..7] == Hex4(a) && s[7..9] == Hex2(t)
            && (forall j :: 0 <= j < |d| ==> s[9 + 2 * j..9 + 2 * j + 2] == Hex2(d[j]))
            && s[9 + 2 * |d|..] == Hex2(Checksum(|d|, a, t, d))
  {
    hide Hex2, Hex4, HexAll, Checksum;
    var s := Record(t, a, d);
    HexAllLength(d);
    Cut(Hex2(|d|), Hex4(a), Hex2(t), HexAll(d), Hex2(Checksum(|d|, a, t, d)));
    forall j | 0 <= j < |d| ensures s[9 + 2 * j..9 + 2 * j + 2] == Hex2(d[j]) {
      HexAllAt(d, j);
      Within(s, HexAll(d), 2 * j, 2 * j + 2);
    }
  }

  lemma {:induction false} ReadDataOf(s: string, d: seq<Byte>, j: nat, data: seq<Byte>)
    requires j <= |d| < 256 == |data| && data[..j] == d[..j] && 9 + 2 * |d| <= |s|
    requires forall i :: 0 <= i < |d| ==> s[9 + 2 * i..9 + 2 * i + 2] == Hex2(d[i])
    ensures ReadData(s, |d|, j, data) == Some(d + data[|d|..])
    decreases |d| - j
  {
    hide Strtoul, Hex2;
    if j == |d| {
      assert data == d + data[|d|..];
    } else {
      Strtoul2(d[j]);
      assert Field(s, 9 + 2 * j, 2) == Some(d[j]);
      var data' := data[j := d[j]];
      assert data'[..j + 1] == d[..j + 1] && data'[|d|..] == data[|d|..];
      ReadDataOf(s, d, j + 1, data');
    }
  }

  /** ihex_readrec reads back a record, whatever the structure held before, and accepts its checksum. */
  lemma ReadRecord(t: int, a: int, d: seq<Byte>, data: seq<Byte>)
    requires 0 <= t < 256 && 0 <= a < 65536 && |d| < 256 == |data|
    ensures var c := Checksum(|d|, a, t, d);
            ReadRec(Record(t, a, d), data) == Some(Rec(|d|, a, t, d + data[|d|..], c, c))
  {
    hide Strtoul, Hex2, Hex4, HexAll, Checksum, Record, ReadData;
    var s := Record(t, a, d);
    RecordFields(t, a, d);
    Strtoul2(|d|);
    Strtoul4(a);
    Strtoul2(t);
    Strtoul2(Checksum(|d|, a, t, d));
    ReadDataOf(s, d, 0, data);
    assert (d + data[|d|..])[..|d|] == d;
    assert s[9 + 2 * |d|..9 + 2 * |d| + 2] == s[9 + 2 * |d|..];
  }

  /** A record cut off before its end is refused. */
  lemma ReadCut(t: int, a: int, d: seq<Byte>, data: seq<Byte>, m: nat)
    requires 0 <= t < 256 && 0 <= a < 65536 && |d| < 256 == |data| && 9 <= m < |Record(t, a, d)|
    ensures ReadRec(Record(t, a, d)[..m], data) == None
  {
    hide Strtoul, Hex2, Hex4, HexAll, Checksum, Record;
    RecordFields(t, a, d);
    Strtoul2(|d|);
    var s := Record(t, a, d);
    assert s[..m][1..3] == s[1..3];
  }

  // ---------- Reading one written line ----------

  ghost predicate OneLine(s: string) {
    '\n' !in s
  }

  lemma {:induction false} HexAllLine(d: seq<Byte>)
    ensures OneLine(HexAll(d))
  {
    if d != [] {
      HexAllLine(d[..|d| - 1]);
      Hex2Line(d[|d| - 1]);
    }
  }

  lemma Hex2Line(b: Byte)
    ensures OneLine(Hex2(b))
  {
    UpperVal(b / 16);
    UpperVal(b % 16);
  }

  lemma RecordLine(t: int, a: int, d: seq<Byte>)
    requires 0 <= t < 256 && 0 <= a < 65536 && |d| < 256
    ensures OneLine(Record(t, a, d))
  {
    hide Hex2, HexAll, Checksum;
    Hex2Line(|d|);
    Hex2Line(a / 256);
    Hex2Line(a % 256);
    Hex2Line(t);
    HexAllLine(d);
    Hex2Line(Checksum(|d|, a, t, d));
  }

  lemma {:induction false} FgetsLine(s: string, rest: string, m: nat)
    requires OneLine(s)
    ensures Fgets(s + "\n" + rest, m) == Min(|s| + 1, m)
  {
    if s == "" {
    } else if m > 0 {
      assert (s + "\n" + rest)[1..] == s[1..] + "\n" + rest;
      FgetsLine(s[1..], rest, m - 1);
    }
  }

  /** The rest of the reading, after one line. */
  function After(turn: Turn, rest: string): End
    requires turn.Go? ==> |turn.im.data| == MAXDATA
  {
    if turn.Go? then ReadFile(rest, turn.im) else turn.end
  }

  /** A line of up to 255 characters is read as a whole; a newline that does not fit is skipped next. */
  lemma ReadWhole(s: string, rest: string, im: Image)
    requires |im.data| == MAXDATA && OneLine(s) && 0 < |s| < MAX_LINE_LEN
    ensures ReadFile(s + "\n" + rest, im) ==
            After(ReadLine(s, im), rest)
  {
    hide ReadLine;
    var f := s + "\n" + rest;
    FgetsLine(s, rest, MAX_LINE_LEN - 1);
    if |s| + 1 < MAX_LINE_LEN {
      assert f[..|s| + 1] == s + "\n" && Chomp(s + "\n") == s && f[|s| + 1..] == rest;
    } else {
      assert f[..|s|] == s && Chomp(s) == s && f[|s|..] == "\n" + rest;
      var turn := ReadLine(s, im);
      if turn.Go? {
        ReadNewline(rest, turn.im);
      }
    }
  }

  lemma ReadNewline(rest: string, im: Image)
    requires |im.data| == MAXDATA
    ensures ReadFile("\n" + rest, im) == ReadFile(rest, im)
  {
    var f := "\n" + rest;
    assert Fgets(f, MAX_LINE_LEN - 1) == 1 && Chomp(f[..1]) == "" && f[1..] == rest;
  }

  /** A record that is read back as a whole takes effect. */
  lemma ReadOne(t: int, a: int, d: seq<Byte>, rest: string, im: Image)
    requires |im.data| == MAXDATA && 0 <= t < 256 && 0 <= a < 65536 && |d| <= 122
    ensures var c := Checksum(|d|, a, t, d);
            ReadFile(Record(t, a, d) + "\n" + rest, im) ==
            After(Apply(im, Rec(|d|, a, t, d + im.data[|d|..], c, c)), rest)
  {
    hide Record, Checksum, Apply, ReadRec, ReadFile;
    RecordFields(t, a, d);
    RecordLine(t, a, d);
    ReadRecord(t, a, d, im.data);
    ReadWhole(Record(t, a, d), rest, im);
  }

  // ---------- Reading back a whole file ----------

  /** The variables of ihex2b when the bytes up to address `p`, in segment `k`, have been read. */
  ghost predicate Loaded(im: Image, p: int, k: int) {
    && |im.data| == MAXDATA && |im.buf| <= INT_MAX
    && im.base == k * 0x10000 && 0 <= im.max <= p && im.offset == 0
  }

  lemma Small(x: int)
    requires 0 <= x <= INT_MAX
    ensures U32(x) == x && Signed(x) == x
  {
  }

  lemma ApplyData(im: Image, p: nat, k: nat, a: int, d: seq<Byte>, r: Rec)
    requires Loaded(im, p, k) && p == k * 0x10000 + a && 0 <= a && 0 < |d| < 256 && p + |d| <= INT_MAX
    requires r.rectyp == 0 && r.loadofs == a && r.reclen == |d| && |r.data| == MAXDATA && r.data[..|d|] == d
             && r.rc == r.cksum
    ensures p + |d| > |im.buf| ==> Apply(im, r) == Quit(Done(-1, im.buf))
    ensures p + |d| <= |im.buf| ==>
              var turn := Apply(im, r);
              && turn.Go? && Loaded(turn.im, p + |d|, k) && turn.im.next == p && turn.im.max == p + |d|
              && turn.im.buf == Put(im.buf, p, d)
  {
    hide U32, Signed, Put;
    Small(p);
    Small(p + |d|);
    Small(|im.buf|);
    if p + |d| <= |im.buf| {
      PutLength(im.buf, p, d);
    }
  }

  lemma PutLength(buf: seq<Byte>, at: nat, d: seq<Byte>)
    requires at + |d| <= |buf|
    ensures |Put(buf, at, d)| == |buf|
  {
  }

  lemma PutTwice(buf: seq<Byte>, at: nat, d: seq<Byte>, e: seq<Byte>)
    requires at + |d| + |e| <= |buf|
    ensures |Put(buf, at, d)| == |buf| && Put(Put(buf, at, d), at + |d|, e) == Put(buf, at, d + e)
  {
  }

  lemma ApplyExtended(im: Image, p: nat, k: nat, r: Rec)
    requires Loaded(im, p, k) && im.next != 0 && k + 1 < 0x10000
    requires r.rectyp == 4 && |r.data| == MAXDATA && r.data[0] == (k + 1) / 256 % 256 && r.data[1] == (k + 1) % 256
    requires r.rc == r.cksum
    ensures Apply(im, r) == Go(im.(base := (k + 1) * 0x10000, data := r.data))
  {
  }

  lemma ApplyEnd(im: Image, p: nat, k: nat, r: Rec)
    requires Loaded(im, p, k) && p <= INT_MAX && r.rectyp == 1 && |r.data| == MAXDATA && r.rc == r.cksum
    ensures Apply(im, r) == Quit(Done(im.max, im.buf))
  {
  }

  /** The longest record for `len` bytes from address `a` of a segment on. */
  function Longest(len: int, recsize: int, a: int): int {
    Min(recsize, Max(Min(len, 0x10000 - a), len - (0x10000 - a)))
  }

  lemma LongestStep(len: int, recsize: int, a: int)
    requires 1 <= recsize <= 255 && 0 <= a < 0x10000 && 0 < len
    ensures var n := Take(len, recsize, a);
            && 0 < n <= len && a + n <= 0x10000
            && Longest(len, recsize, a) == Max(n, Longest(len - n, recsize, if a + n == 0x10000 then 0 else a + n))
  {
  }

  /** The bytes `rest` arrive at address `p` of the buffer, and their end is the result, unless they do not fit or `ok`
      says that a record is refused. */
  ghost predicate Outcome(r: End, ok: bool, p: nat, rest: seq<Byte>, buf: seq<Byte>, max: int) {
    && r.Done?
    && (rest == [] ==> r == Done(max, buf))
    && (rest != [] ==> if ok && p + |rest| <= |buf| then r == Done(p + |rest|, Put(buf, p, rest)) else r.rc == -1)
  }

  /** An outcome for a buffer that has been filled further. */
  lemma OutcomeBack(r: End, ok: bool, p: nat, d: seq<Byte>, rest: seq<Byte>, buf: seq<Byte>, max: int)
    requires d != [] && p + |d| <= |buf| && (rest == [] ==> ok)
    requires Outcome(r, ok, p + |d|, rest, Put(buf, p, d), p + |d|)
    ensures Outcome(r, ok, p, d + rest, buf, max)
  {
    PutLength(buf, p, d);
    if p + |d| + |rest| <= |buf| {
      PutTwice(buf, p, d, rest);
    }
    assert rest == [] ==> d + rest == d;
  }

  lemma {:induction false} ReadText(buf: seq<Byte>, recsize: int, a: int, k: int, p: nat, im: Image)
    requires 1 <= recsize <= 255 && 0 <= a < 0x10000 && 0 <= k
    requires p == k * 0x10000 + a && p + |buf| <= INT_MAX && Loaded(im, p, k)
    ensures Outcome(ReadFile(Text(buf, recsize, a, k), im), Longest(|buf|, recsize, a) <= 122, p, buf, im.buf, im.max)
    decreases |buf|
  {
    hide ReadFile, Record, Checksum, Apply, Put, Outcome, Longest;
    if buf == [] {
      var c := Checksum(0, 0, 1, []);
      ReadOne(1, 0, [], "", im);
      assert EndRecord + "\n" + "" == EndRecord + "\n";
      ApplyEnd(im, p, k, Rec(0, 0, 1, [] + im.data[0..], c, c));
      OutcomeEnd(Done(im.max, im.buf), Longest(0, recsize, a) <= 122, p, im.buf, im.max);
    } else {
      LongestStep(|buf|, recsize, a);
      if Take(|buf|, recsize, a) > 122 {
        ReadTooLong(buf, recsize, a, k, im);
        OutcomeRefused(Done(-1, im.buf), p, buf, im.buf, im.max);
      } else {
        ReadRest(buf, recsize, a, k, p, im);
      }
    }
  }

  lemma OutcomeEnd(r: End, ok: bool, p: nat, buf: seq<Byte>, max: int)
    requires r == Done(max, buf)
    ensures Outcome(r, ok, p, [], buf, max)
  {
  }

  lemma OutcomeRefused(r: End, p: nat, rest: seq<Byte>, buf: seq<Byte>, max: int)
    requires r.Done? && r.rc == -1 && rest != []
    ensures Outcome(r, false, p, rest, buf, max)
  {
  }

  lemma OutcomeFull(r: End, ok: bool, p: nat, rest: seq<Byte>, buf: seq<Byte>, max: int)
    requires r.Done? && r.rc == -1 && rest != [] && p + |rest| > |buf|
    ensures Outcome(r, ok, p, rest, buf, max)
  {
  }

  lemma LongestNone(recsize: int, a: int)
    requires 0 <= a < 0x10000 && 1 <= recsize
    ensures Longest(0, recsize, a) == 0
  {
  }

  /** A first record that fits into the line buffer, and what follows it. */
  lemma {:induction false} ReadRest(buf: seq<Byte>, recsize: int, a: int, k: int, p: nat, im: Image)
    requires 1 <= recsize <= 255 && 0 <= a < 0x10000 && 0 <= k && buf != [] && Take(|buf|, recsize, a) <= 122
    requires p == k * 0x10000 + a && p + |buf| <= INT_MAX && Loaded(im, p, k)
    ensures Outcome(ReadFile(Text(buf, recsize, a, k), im), Longest(|buf|, recsize, a) <= 122, p, buf, im.buf, im.max)
    decreases |buf|, 0
  {
    hide ReadFile, Record, Checksum, Apply, Put, Outcome, Longest;
    LongestStep(|buf|, recsize, a);
    var n := Take(|buf|, recsize, a);
    var d, c, e := buf[..n], Checksum(n, a, 0, buf[..n]), buf[n..];
    var r := Rec(n, a, 0, d + im.data[n..], c, c);
    assert r.data[..n] == d && d + e == buf;
    ApplyData(im, p, k, a, d, r);
    var turn := Apply(im, r);
    var a', k' := if a + n == 0x10000 then 0 else a + n, if a + n == 0x10000 then k + 1 else k;
    var rest := Text(e, recsize, a', k');
    ReadOne(0, a, d, if a + n == 0x10000 then Extended(k + 1) + "\n" + rest else rest, im);
    if turn.Go? {
      var im' := turn.im;
      if a + n == 0x10000 {
        ReadSegment(turn.im, p + n, k, rest);
        im' := Extend(turn.im, k + 1);
      }
      ReadText(e, recsize, a', k', p + n, im');
      LongestNone(recsize, a');
      OutcomeBack(ReadFile(rest, im'), Longest(|e|, recsize, a') <= 122, p, d, e, im.buf, im.max);
    } else {
      OutcomeFull(turn.end, Longest(|buf|, recsize, a) <= 122, p, buf, im.buf, im.max);
    }
  }

  /** The effect of the extended linear address record number `k`. */
  ghost function Extend(im: Image, k: int): Image
    requires |im.data| == MAXDATA && 0 <= k
  {
    im.(base := k * 0x10000, data := [k / 256 % 256, k % 256] + im.data[2..])
  }

  /** The extended linear address record behind a full segment. */
  lemma ReadSegment(im: Image, p: nat, k: nat, rest: string)
    requires Loaded(im, p, k) && im.next != 0 && p == (k + 1) * 0x10000 && p <= INT_MAX
    ensures ReadFile(Extended(k + 1) + "\n" + rest, im) == ReadFile(rest, Extend(im, k + 1))
  {
    hide ReadFile, Record, Checksum, Apply;
    var d := [(k + 1) / 256 % 256, (k + 1) % 256];
    var c := Checksum(2, 0, 4, d);
    ReadOne(4, 0, d, rest, im);
    ApplyExtended(im, p, k, Rec(2, 0, 4, d + im.data[2..], c, c));
  }

  /** The reader refuses a record that does not fit into its line buffer. */
  lemma ReadTooLong(buf: seq<Byte>, recsize: int, a: int, k: int, im: Image)
    requires 1 <= recsize <= 255 && 0 <= a < 0x10000 && 0 <= k && Take(|buf|, recsize, a) > 122 && |im.data| == MAXDATA
    ensures ReadFile(Text(buf, recsize, a, k), im) == Done(-1, im.buf)
  {
    hide Record, Checksum, Apply, ReadRec;
    var n := Take(|buf|, recsize, a);
    var s, text := Record(0, a, buf[..n]), Text(buf, recsize, a, k);
    var rest := text[|s| + 1..];
    assert text == s + "\n" + rest;
    var m := MAX_LINE_LEN - 1;
    RecordFields(0, a, buf[..n]);
    RecordLine(0, a, buf[..n]);
    FgetsLine(s, rest, m);
    assert text[..m] == s[..m] && Chomp(s[..m]) == s[..m];
    ReadCut(0, a, buf[..n], im.data, m);
  }

  function Start(out: seq<Byte>, data: seq<Byte>): Image {
    Image(out, 0, 0, 0, 0, data)
  }

  /** Reading a written file puts the bytes at their addresses and gives their end, if and only if the longest record
      has at most 122 bytes and the buffer is large enough; otherwise the reader reports an error. */
  lemma RoundTripAt(buf: seq<Byte>, recsize: int, start: int, out: seq<Byte>, data: seq<Byte>)
    requires 1 <= recsize <= 255 && 0 <= start < 0x10000 && start + |buf| <= INT_MAX && |out| <= INT_MAX
             && |data| == MAXDATA
    ensures var r := ReadFile(Text(buf, recsize, start, 0), Start(out, data));
            && r.Done?
            && (buf == [] ==> r == Done(0, out))
            && (buf != [] ==>
                  if Longest(|buf|, recsize, start) <= 122 && start + |buf| <= |out|
                  then r == Done(start + |buf|, Put(out, start, buf)) else r.rc == -1)
  {
    hide ReadFile, Text;
    ReadText(buf, recsize, start, 0, start, Start(out, data));
  }

  /** From address 0, reading a written file gives back the bytes and their number, if and only if no record has more
      than 122 bytes and the buffer is large enough; otherwise the reader reports an error. */
  lemma RoundTrip(buf: seq<Byte>, recsize: int, out: seq<Byte>, data: seq<Byte>)
    requires 1 <= recsize <= 255 && |buf| <= INT_MAX && |out| <= INT_MAX && |data| == MAXDATA
    ensures var r := ReadFile(Text(buf, recsize, 0, 0), Start(out, data));
            && r.Done?
            && (Min(recsize, |buf|) <= 122 && |buf| <= |out| ==> r == Done(|buf|, buf + out[|buf|..]))
            && (Min(recsize, |buf|) > 122 || |buf| > |out| ==> r.rc == -1)
  {
    hide ReadFile, Text;
    RoundTripAt(buf, recsize, 0, out, data);
    if |buf| <= |out| {
      assert Put(out, 0, buf) == buf + out[|buf|..];
    }
  }

  /** The writer takes 123 bytes as one record, and the reader refuses the file. */
  lemma LongRecordRefused(out: seq<Byte>, data: seq<Byte>)
    requires 123 <= |out| <= INT_MAX && |data| == MAXDATA
    ensures ReadFile(Text(seq(123, _ => 0), 255, 0, 0), Start(out, data)) == Done(-1, out)
  {
    hide ReadFile, Text;
    ReadTooLong(seq(123, _ => 0), 255, 0, 0, Start(out, data));
  }

  // ---------- Writes outside of the buffer ----------

  /** A data record passes the range test of ihex2b and still writes outside of the buffer: its end wraps around, or it
      lies below the address of the first extended record. */
  ghost predicate Outside(im: Image, r: Rec) {
    var next := U32(r.loadofs + im.base);
    && r.rectyp == 0 && r.rc == r.cksum && r.reclen > 0
    && |im.buf| + im.offset < WORD && U32(next + r.reclen) <= |im.buf| + im.offset
    && (next + r.reclen >= WORD || next < im.offset)
  }

  /** offsetaddr is 0 or the address of an extended linear address record. */
  ghost predicate Sized(im: Image) {
    |im.data| == MAXDATA && |im.buf| <= INT_MAX && 0 <= im.offset <= 0xffff_0000
  }

  lemma ApplyWild(im: Image, r: Rec)
    requires Sized(im) && |r.data| == MAXDATA
    ensures Apply(im, r) == Quit(Wild) <==> Outside(im, r)
  {
    var next := U32(r.loadofs + im.base);
    if r.rectyp == 0 && r.rc == r.cksum {
      Wrapped(next, r.reclen);
      Wrapped(|im.buf|, im.offset);
      Below(next, im.offset);
    }
  }

  lemma Wrapped(x: int, y: int)
    requires 0 <= x < WORD && 0 <= y < WORD
    ensures U32(x + y) == if x + y < WORD then x + y else x + y - WORD
  {
  }

  lemma Below(x: int, y: int)
    requires 0 <= x < WORD && 0 <= y < WORD
    ensures U32(x - y) == if x < y then x - y + WORD else x - y
  {
  }

  lemma WordBound(d: seq<Byte>)
    requires |d| >= 2
    ensures 0 <= Word(d) <= 0xffff && U32(Word(d) * 0x10000) == Word(d) * 0x10000 <= 0xffff_0000
  {
  }

  lemma ApplySized(im: Image, r: Rec)
    requires Sized(im) && |r.data| == MAXDATA
    ensures Apply(im, r).Go? ==> Sized(Apply(im, r).im)
  {
    hide U32, Word;
    WordBound(r.data);
  }

  lemma LineSized(line: string, im: Image)
    requires Sized(im)
    ensures ReadLine(line, im).Go? ==> Sized(ReadLine(line, im).im)
  {
    hide ReadRec, Apply, Sized;
    SizedData(im);
    if line != "" && line[0] == ':' {
      var r := ReadRec(line, im.data);
      LineStep(line, im);
      if r.Some? {
        ApplySized(im, r.value);
      }
    }
  }

  lemma SizedData(im: Image)
    requires Sized(im)
    ensures |im.data| == MAXDATA
  {
  }

  /** The next line of a file, without its newline. */
  function NextLine(file: string): string {
    Chomp(file[..Fgets(file, MAX_LINE_LEN - 1)])
  }

  function AfterLine(file: string): (rest: string)
    ensures file != "" ==> |rest| < |file|
  {
    file[Fgets(file, MAX_LINE_LEN - 1)..]
  }

  /** What is left of a file, and the variables of ihex2b, after `k` lines. */
  ghost function Reached(file: string, im: Image, k: nat): Option<(string, Image)>
    requires |im.data| == MAXDATA
  {
    if k == 0 then Some((file, im))
    else if file == "" then None
    else
      var turn := ReadLine(NextLine(file), im);
      if turn.Go? then Reached(AfterLine(file), turn.im, k - 1) else None
  }

  /** The line is a record that writes outside of the buffer. */
  ghost predicate Escapes(line: string, im: Image)
    requires |im.data| == MAXDATA
  {
    && line != "" && line[0] == ':' && ReadRec(line, im.data).Some? && Outside(im, ReadRec(line, im.data).value)
  }

  /** Line `k` is reached and writes outside of the buffer. */
  ghost predicate EscapesAt(file: string, im: Image, k: nat)
    requires |im.data| == MAXDATA
  {
    var at := Reached(file, im, k);
    at.Some? && |at.value.1.data| == MAXDATA && at.value.0 != "" && Escapes(NextLine(at.value.0), at.value.1)
  }

  lemma LineWild(line: string, im: Image)
    requires Sized(im)
    ensures ReadLine(line, im) == Quit(Wild) <==> Escapes(line, im)
  {
    hide ReadRec, Apply, Outside, Sized;
    SizedData(im);
    if line != "" && line[0] == ':' {
      var r := ReadRec(line, im.data);
      LineStep(line, im);
      if r.Some? {
        ApplyWild(im, r.value);
      }
    }
  }

  /** Reading a file writes outside of the buffer if and only if it gets to a data record that passes the range test
      while its end wraps around, or while it lies below the address of the first extended record. */
  lemma {:induction false} WildExactly(file: string, im: Image)
    requires Sized(im)
    ensures |im.data| == MAXDATA && (ReadFile(file, im) == Wild <==> exists k: nat :: EscapesAt(file, im, k))
    decreases |file|
  {
    hide ReadLine, Sized, Escapes, Fgets, Chomp;
    SizedData(im);
    if file == "" {
      FileEnd(im);
      forall k: nat ensures !EscapesAt(file, im, k) {
      }
    } else {
      var line, rest := NextLine(file), AfterLine(file);
      FileStep(file, Fgets(file, MAX_LINE_LEN - 1), im);
      LineWild(line, im);
      LineSized(line, im);
      var turn := ReadLine(line, im);
      assert EscapesAt(file, im, 0) <==> Escapes(line, im);
      if turn.Go? {
        WildExactly(rest, turn.im);
        EscapesLater(file, im);
      } else {
        forall k: nat | k > 0 ensures !EscapesAt(file, im, k) {
        }
      }
    }
  }

  lemma EscapesLater(file: string, im: Image)
    requires |im.data| == MAXDATA && file != "" && ReadLine(NextLine(file), im).Go?
    ensures var turn := ReadLine(NextLine(file), im);
            (exists k: nat :: EscapesAt(AfterLine(file), turn.im, k)) <==>
            (exists k: nat :: k > 0 && EscapesAt(file, im, k))
  {
    hide ReadLine, Escapes, NextLine, AfterLine;
    var rest, im' := AfterLine(file), ReadLine(NextLine(file), im).im;
    forall k: nat ensures Reached(file, im, k + 1) == Reached(rest, im', k) {
    }
    if k: nat :| EscapesAt(rest, im', k) {
      assert EscapesAt(file, im, k + 1);
    }
    if k: nat :| k > 0 && EscapesAt(file, im, k) {
      assert Reached(file, im, (k - 1) + 1) == Reached(rest, im', k - 1);
      assert EscapesAt(rest, im', k - 1);
    }
  }

  /** A line that is no extended address record, and whose load offset has no sign. */
  predicate PlainLine(line: string) {
    var ofs, typ := Field(line, 3, 4), Field(line, 7, 2);
    line == "" || line[0] != ':' ||
    ((ofs.Some? ==> 0 <= ofs.value <= 0xffff) && (typ.Some? ==> typ.value % 256 != 2 && typ.value % 256 != 4))
  }

  predicate PlainFile(file: string)
    decreases |file|
  {
    file == "" || (PlainLine(NextLine(file)) && PlainFile(AfterLine(file)))
  }

  lemma PlainRec(line: string, im: Image)
    requires |im.data| == MAXDATA && im.base == 0 && im.offset == 0 && |im.buf| <= INT_MAX && PlainLine(line)
    ensures var turn := ReadLine(line, im);
            turn != Quit(Wild) && (turn.Go? ==> turn.im.base == 0 && turn.im.offset == 0 && |turn.im.buf| == |im.buf|)
  {
    hide Field, ReadData;
    if line != "" && line[0] == ':' {
      var r := ReadRec(line, im.data);
      LineStep(line, im);
      if r.Some? {
        ApplyPlain(im, r.value);
      }
    }
  }

  lemma ApplyPlain(im: Image, r: Rec)
    requires im.base == 0 && im.offset == 0 && |im.buf| <= INT_MAX && |r.data| == MAXDATA
    requires 0 <= r.loadofs <= 0xffff && r.rectyp != 2 && r.rectyp != 4
    ensures var turn := Apply(im, r);
            turn != Quit(Wild) && (turn.Go? ==> turn.im.base == 0 && turn.im.offset == 0 && |turn.im.buf| == |im.buf|)
  {
    hide Put;
    if r.rectyp == 0 && r.reclen > 0 && U32(r.loadofs) + r.reclen <= |im.buf| {
      PutLength(im.buf, U32(r.loadofs), r.data[..r.reclen]);
    }
  }

  /** A file without extended address records and signs never writes outside of any buffer. */
  lemma {:induction false} PlainSafe(file: string, im: Image)
    requires |im.data| == MAXDATA && im.base == 0 && im.offset == 0 && |im.buf| <= INT_MAX && PlainFile(file)
    ensures ReadFile(file, im) != Wild
    decreases |file|
  {
    hide ReadLine, PlainLine, Fgets, Chomp;
    if file == "" {
      FileEnd(im);
    } else {
      FileStep(file, Fgets(file, MAX_LINE_LEN - 1), im);
      PlainRec(NextLine(file), im);
      var turn := ReadLine(NextLine(file), im);
      if turn.Go? {
        PlainSafe(AfterLine(file), turn.im);
      }
    }
  }

  /** The end of the second data record wraps around to 1. */
  lemma WrapEscapes(out: seq<Byte>, data: seq<Byte>)
    requires 2 <= |out| <= INT_MAX && |data| == MAXDATA
    ensures var file :=
              Record(0, 1, [0]) + "\n" + (Record(4, 0, [255, 255]) + "\n" + (Record(0, 0xffff, [0, 0]) + "\n" + ""));
            ReadFile(file, Start(out, data)) == Wild
  {
    hide Record, Checksum, ReadFile, Put;
    var last := Record(0, 0xffff, [0, 0]) + "\n" + "";
    ReadOne(0, 1, [0], Record(4, 0, [255, 255]) + "\n" + last, Start(out, data));
    var im1 := Image(Put(out, 1, [0]), 0, 2, 0, 1, [0] + data[1..]);
    assert ([0] + data[1..])[..1] == [0];
    ReadOne(4, 0, [255, 255], last, im1);
    var im2 := im1.(base := 0xffff_0000, data := [255, 255] + im1.data[2..]);
    ReadOne(0, 0xffff, [0, 0], "", im2);
    PutLength(out, 1, [0]);
  }

  /** The first extended record moves the start of the buffer to 64K, and the data record lies at 0. */
  lemma BelowEscapes(out: seq<Byte>, data: seq<Byte>)
    requires |out| <= INT_MAX && |data| == MAXDATA
    ensures var file := Record(4, 0, [0, 1]) + "\n" + (Record(2, 0, [0, 0]) + "\n" + (Record(0, 0, [0]) + "\n" + ""));
            ReadFile(file, Start(out, data)) == Wild
  {
    hide Record, Checksum, ReadFile, Put;
    var last := Record(0, 0, [0]) + "\n" + "";
    ReadOne(4, 0, [0, 1], Record(2, 0, [0, 0]) + "\n" + last, Start(out, data));
    var im1 := Image(out, 0x10000, 0, 0x10000, 0, [0, 1] + data[2..]);
    ReadOne(2, 0, [0, 0], last, im1);
    var im2 := im1.(base := 0, data := [0, 0] + im1.data[2..]);
    ReadOne(0, 0, [0], "", im2);
  }

  // ---------- The functions of the source ----------

  lemma SumSnoc(d: seq<Byte>, i: nat)
    requires i < |d|
    ensures Sum(d[..i + 1]) == Sum(d[..i]) + d[i] && HexAll(d[..i + 1]) == HexAll(d[..i]) + Hex2(d[i])
  {
    assert d[..i + 1][..i] == d[..i];
  }

  lemma ModAdd(x: int, y: int)
    ensures (x % 256 + y) % 256 == (x + y) % 256
  {
  }

  lemma ModNeg(x: int)
    ensures (-(x % 256)) % 256 == (-x) % 256
  {
  }

  /** One record: the header, the bytes and the checksum, which is kept in an unsigned char. */
  method WriteRecord(n: int, a: int, t: int, d: seq<Byte>) returns (text: string)
    requires n == |d| < 256 && 0 <= a < 65536 && 0 <= t < 256
    ensures text == Record(t, a, d) + "\n"
  {
    hide Hex2, Hex4, HexAll, Sum;
    var head := n + a / 256 % 256 + a % 256 + t;
    text := ":" + Hex2(n) + Hex4(a) + Hex2(t);
    ghost var start := text;
    var cksum := head % 256;
    EmptySums(d);
    for i := 0 to n
      invariant cksum == (head + Sum(d[..i])) % 256
      invariant text == start + HexAll(d[..i])
    {
      SumSnoc(d, i);
      ModAdd(head + Sum(d[..i]), d[i]);
      text := text + Hex2(d[i]);
      cksum := (cksum + d[i]) % 256;
    }
    assert d[..n] == d;
    ModNeg(head + Sum(d));
    cksum := (-cksum) % 256;
    text := text + Hex2(cksum) + "\n";
  }

  lemma EmptySums(d: seq<Byte>)
    ensures Sum(d[..0]) == 0 && HexAll(d[..0]) == ""
  {
  }

  /** The text for `buf` with its first record, and with the extended record behind a full segment. */
  lemma TextStep(done: string, buf: seq<Byte>, recsize: int, a: int, k: int, n: int)
    requires 1 <= recsize <= 255 && 0 <= a < 0x10000 && 0 <= k && buf != [] && n == Take(|buf|, recsize, a)
    ensures var line := Record(0, a, buf[..n]) + "\n";
            done + Text(buf, recsize, a, k) ==
            if a + n == 0x10000 then
              done + line + (Extended(k + 1) + "\n") + Text(buf[n..], recsize, 0, k + 1)
            else
              done + line + Text(buf[n..], recsize, a + n, k)
  {
    hide Record, Extended;
    if a + n == 0x10000 {
      Regroup(done, Record(0, a, buf[..n]) + "\n", Extended(k + 1) + "\n", Text(buf[n..], recsize, 0, k + 1));
    } else {
      Regroup(done, Record(0, a, buf[..n]) + "\n", "", Text(buf[n..], recsize, a + n, k));
    }
  }

  lemma Regroup(x: string, y: string, z: string, t: string)
    ensures x + (y + (z + t)) == x + y + z + t && x + (y + t) == x + y + t
  {
  }

  /** b2ihex, for a start address inside the first segment. */
  method B2ihex(inbuf: seq<Byte>, recsize: int, startaddr: int) returns (rc: int, outf: string)
    requires |inbuf| <= INT_MAX && 1 <= recsize && 0 <= startaddr < 0x10000
    ensures recsize <= 255 ==> rc == |inbuf| && outf == Text(inbuf, recsize, startaddr, 0)
    ensures recsize > 255 ==> rc == -1 && outf == ""
  {
    hide Text, Record;
    outf := "";
    if recsize > 255 {
      return -1, "";
    }
    var n64k, nextaddr, nbytes, buf, bufsize := 0, startaddr, 0, 0, |inbuf|;
    assert inbuf[0..] == inbuf;
    while bufsize != 0
      invariant 0 <= n64k && 0 <= nextaddr < 0x10000 && buf == nbytes && bufsize == |inbuf| - buf && 0 <= buf <= |inbuf|
      invariant Text(inbuf, recsize, startaddr, 0) == outf + Text(inbuf[buf..], recsize, nextaddr, n64k)
    {
      var n := recsize;
      if n > bufsize {
        n := bufsize;
      }
      if nextaddr + n > 0x10000 {
        n := 0x10000 - nextaddr;
      }
      assert inbuf[buf..][..n] == inbuf[buf..buf + n];
      assert inbuf[buf..][n..] == inbuf[buf + n..];
      TextStep(outf, inbuf[buf..], recsize, nextaddr, n64k, n);
      var line := WriteRecord(n, nextaddr, 0, inbuf[buf..buf + n]);
      outf := outf + line;
      nextaddr := nextaddr + n;
      nbytes := nbytes + n;
      if nextaddr >= 0x10000 {
        n64k := n64k + 1;
        var lo, hi := n64k % 256, n64k / 256 % 256;
        var extended := WriteRecord(2, 0, 4, [hi, lo]);
        outf := outf + extended;
        nextaddr := 0;
      }
      buf := buf + n;
      bufsize := bufsize - n;
    }
    assert inbuf[buf..] == [];
    var end := WriteRecord(0, 0, 1, []);
    TextEnd(recsize, nextaddr, n64k);
    outf := outf + end;
    return nbytes, outf;
  }

  lemma TextEnd(recsize: int, a: int, k: int)
    requires 1 <= recsize <= 255 && 0 <= a < 0x10000 && 0 <= k
    ensures Text([], recsize, a, k) == Record(1, 0, []) + "\n"
  {
  }

  /** The number of `k` characters at `offset`, through the buffer that strtoul reads. */
  method Number(rec: string, offset: nat, k: nat) returns (v: Option<int>)
    ensures v == Field(rec, offset, k)
  {
    if offset + k > |rec| {
      return None;
    }
    var buf := "";
    for i := 0 to k
      invariant buf == rec[offset..offset + i]
    {
      buf := buf + [rec[offset + i]];
    }
    var (value, e) := Strtoul(buf);
    if e == 0 || e != |buf| {
      return None;
    }
    return Some(value);
  }

  /** struct ihexrec; its fields are indeterminate before the first record. */
  class IhexRec {
    var reclen: Byte
    var loadofs: int
    var rectyp: Byte
    var cksum: Byte
    const data: array<Byte>

    ghost predicate Valid()
      reads this
    {
      data.Length == MAXDATA && 0 <= loadofs < WORD
    }

    ghost function Contents(rc: Byte): Rec
      reads this, data
    {
      Rec(reclen, loadofs, rectyp, data[..], cksum, rc)
    }

    /** The data bytes; `sum` is the checksum so far, of a sum `head`. */
    method ReadBytes(rec: string, n: Byte, sum0: Byte, ghost head: int) returns (ok: bool, sum: Byte)
      requires Valid() && sum0 == head % 256
      modifies data
      ensures if ok then ReadData(rec, n, 0, old(data[..])) == Some(data[..]) && sum == (head + Sum(data[..n])) % 256
              else ReadData(rec, n, 0, old(data[..])) == None
    {
      hide Field, Sum;
      ghost var data0 := data[..];
      sum := sum0;
      EmptySums(data[..]);
      for j := 0 to n
        invariant ReadData(rec, n, 0, data0) == ReadData(rec, n, j, data[..])
        invariant sum == (head + Sum(data[..j])) % 256
      {
        var v := Number(rec, 9 + 2 * j, 2);
        if v.None? {
          return false, sum;
        }
        ghost var before := data[..];
        data[j] := v.value % 256;
        assert data[..] == before[j := v.value % 256] && data[..][..j] == before[..j];
        SumSnoc(data[..], j);
        assert data[..][..j + 1] == data[..j + 1];
        ModAdd(head + Sum(data[..j]), data[j]);
        sum := (sum + data[j]) % 256;
      }
      return true, sum;
    }

    /** ihex_readrec. */
    method ReadRecord(rec: string) returns (rc: int)
      requires Valid()
      modifies this, data
      ensures Valid() && -1 <= rc < 256
      ensures var r := ReadRec(rec, old(data[..]));
              if rc == -1 then r == None else r == Some(Contents(rc))
    {
      hide Field, ReadData, Sum;
      ghost var data0 := data[..];
      var len := Number(rec, 1, 2);
      if len.None? {
        return -1;
      }
      reclen := len.value % 256;
      var ofs := Number(rec, 3, 4);
      if ofs.None? {
        return -1;
      }
      loadofs := U32(ofs.value);
      var typ := Number(rec, 7, 2);
      if typ.None? {
        return -1;
      }
      rectyp := typ.value % 256;
      ghost var head := reclen + loadofs / 256 % 256 + loadofs % 256 + rectyp;
      var ok, sum := ReadBytes(rec, reclen, (reclen + loadofs / 256 % 256 + loadofs % 256 + rectyp) % 256, head);
      if !ok {
        return -1;
      }
      var c := Number(rec, 9 + 2 * reclen, 2);
      if c.None? {
        return -1;
      }
      cksum := c.value % 256;
      ModNeg(head + Sum(data[..reclen]));
      assert data[..][..reclen] == data[..reclen];
      rc := (-(sum as int)) % 256;
    }
  }

  /** The bytes of a data record, up to the first one that falls outside of the buffer. */
  method StoreData(outbuf: array<Byte>, nextaddr: int, offsetaddr: int, data: array<Byte>, n: Byte) returns (ok: bool)
    requires n <= data.Length && data != outbuf && outbuf.Length <= INT_MAX
    modifies outbuf
    ensures var at := U32(nextaddr - offsetaddr);
            && ok == (n == 0 || at + n <= outbuf.Length)
            && (ok ==> outbuf[..] == if n == 0 then old(outbuf[..]) else Put(old(outbuf[..]), at, data[..n]))
  {
    hide U32, Put;
    ghost var at, buf := U32(nextaddr - offsetaddr), outbuf[..];
    if n == 0 {
      return true;
    }
    if at <= outbuf.Length {
      PutNone(buf, at);
    }
    for i := 0 to n
      invariant i == 0 ==> outbuf[..] == buf
      invariant i > 0 ==> at + i <= outbuf.Length && outbuf[..] == Put(buf, at, data[..i])
    {
      Offset(nextaddr, offsetaddr, i, outbuf.Length);
      var index := U32(nextaddr + i - offsetaddr);
      if index >= outbuf.Length {
        return false;
      }
      PutNext(buf, at, data[..], i);
      assert data[..][..i] == data[..i] && data[..][..i + 1] == data[..i + 1];
      outbuf[index] := data[i];
    }
    return true;
  }

  lemma PutNone(buf: seq<Byte>, at: nat)
    requires at <= |buf|
    ensures Put(buf, at, []) == buf
  {
  }

  lemma PutNext(buf: seq<Byte>, at: nat, d: seq<Byte>, i: nat)
    requires i < |d| && at + i < |buf|
    ensures |Put(buf, at, d[..i])| == |buf| && Put(buf, at, d[..i])[at + i := d[i]] == Put(buf, at, d[..i + 1])
  {
  }

  lemma Offset(nextaddr: int, offsetaddr: int, i: int, size: int)
    requires 0 <= i && size <= INT_MAX && (i > 0 ==> U32(nextaddr - offsetaddr) + i <= size)
    ensures U32(nextaddr + i - offsetaddr) == U32(nextaddr - offsetaddr) + i
  {
  }

  /** The variables of ihex2b besides the buffer and the record. */
  datatype Addrs = Addrs(base: int, max: int, offset: int, next: int)

  function ImageOf(buf: seq<Byte>, v: Addrs, data: seq<Byte>): Image {
    Image(buf, v.base, v.max, v.offset, v.next, data)
  }

  /** What happens after a record: the next line is read, ihex2b returns, or it writes outside of the buffer. */
  datatype Verdict = Proceed | Return(rc: int) | Escape

  function TurnOf(verdict: Verdict, im: Image): Turn {
    match verdict
    case Proceed => Go(im)
    case Return(rc) => Quit(Done(rc, im.buf))
    case Escape => Quit(Wild)
  }

  /** The switch over the record type, for a record with the right checksum. */
  method Switch(outbuf: array<Byte>, v: Addrs, ihex: IhexRec) returns (verdict: Verdict, v': Addrs)
    requires ihex.Valid() && outbuf.Length <= INT_MAX && outbuf != ihex.data
    modifies outbuf
    ensures old(Apply(ImageOf(outbuf[..], v, ihex.data[..]), ihex.Contents(ihex.cksum))) ==
            TurnOf(verdict, ImageOf(outbuf[..], v', ihex.data[..]))
  {
    hide Put;
    verdict, v' := Proceed, v;
    if ihex.rectyp == 0 {
      var next := U32(ihex.loadofs + v.base);
      if U32(next + ihex.reclen) > U32(outbuf.Length + v.offset) {
        return Return(-1), v;
      }
      var ok := StoreData(outbuf, next, v.offset, ihex.data, ihex.reclen);
      if !ok {
        return Escape, v;
      }
      assert ihex.data[..][..ihex.reclen] == ihex.data[..ihex.reclen];
      var max := v.max;
      if U32(next + ihex.reclen) > max {
        max := U32(next + ihex.reclen);
      }
      v' := v.(next := next, max := max);
    } else if ihex.rectyp == 1 {
      return Return(Signed(v.max - v.offset)), v;
    } else if ihex.rectyp == 2 {
      v' := v.(base := Word(ihex.data[..]) * 16);
    } else if ihex.rectyp == 3 {
    } else if ihex.rectyp == 4 {
      v' := v.(base := U32(Word(ihex.data[..]) * 0x10000));
      if v.next == 0 {
        v' := v'.(offset := v'.base);
      }
    } else if ihex.rectyp == 5 {
    } else {
      return Return(-1), v;
    }
  }

  lemma FileStep(file: string, k: int, im: Image)
    requires |im.data| == MAXDATA && file != "" && k == Fgets(file, MAX_LINE_LEN - 1)
    ensures ReadFile(file, im) == After(ReadLine(Chomp(file[..k]), im), file[k..])
  {
  }

  lemma LineStep(line: string, im: Image)
    requires |im.data| == MAXDATA && line != "" && line[0] == ':'
    ensures var r := ReadRec(line, im.data);
            if r.None? then ReadLine(line, im) == Quit(Done(-1, im.buf))
            else |r.value.data| == MAXDATA && ReadLine(line, im) == Apply(im, r.value)
  {
  }

  /** A record does not use what the structure held before it. */
  lemma ApplyFresh(im: Image, r: Rec)
    requires |r.data| == MAXDATA
    ensures r.rc != r.cksum ==> Apply(im, r) == Quit(Done(-1, im.buf))
    ensures Apply(im.(data := r.data), r) == Apply(im, r)
  {
  }

  /** ihex2b; `ihex` is its local record structure. The result is the value that is returned with the contents of the
      buffer, or Wild if a write leaves the buffer, from where on nothing is promised. */
  method Ihex2b(inf: string, outbuf: array<Byte>, ihex: IhexRec) returns (end: End)
    requires ihex.Valid() && outbuf.Length <= INT_MAX && outbuf != ihex.data
    modifies outbuf, ihex, ihex.data
    ensures end == old(ReadFile(inf, Start(outbuf[..], ihex.data[..])))
    ensures end.Done? ==> end.buf == outbuf[..]
  {
    hide ReadRec, Fgets, ReadFile, ReadLine, Apply;
    ghost var result := ReadFile(inf, Start(outbuf[..], ihex.data[..]));
    var v, pos := Addrs(0, 0, 0, 0), 0;
    assert inf[0..] == inf;
    while pos < |inf|
      invariant 0 <= pos <= |inf| && ihex.Valid()
      invariant result == ReadFile(inf[pos..], ImageOf(outbuf[..], v, ihex.data[..]))
    {
      ghost var im := ImageOf(outbuf[..], v, ihex.data[..]);
      var k := Fgets(inf[pos..], MAX_LINE_LEN - 1);
      var line := inf[pos..pos + k];
      FileStep(inf[pos..], k, im);
      assert inf[pos..][..k] == line && inf[pos..][k..] == inf[pos + k..];
      pos := pos + k;
      if line[|line| - 1] == '\n' {
        line := line[..|line| - 1];
      }
      if line == "" || line[0] != ':' {
        SkipLine(line, im);
        continue;
      }
      LineStep(line, im);
      var sum := ihex.ReadRecord(line);
      if sum < 0 {
        return Done(-1, outbuf[..]);
      }
      ApplyFresh(im, ihex.Contents(sum));
      if sum != ihex.cksum {
        return Done(-1, outbuf[..]);
      }
      var verdict;
      verdict, v := Switch(outbuf, v, ihex);
      if verdict.Return? {
        return Done(verdict.rc, outbuf[..]);
      } else if verdict.Escape? {
        return Wild;
      }
    }
    assert inf[pos..] == "";
    FileEnd(ImageOf(outbuf[..], v, ihex.data[..]));
    end := Done(Signed(v.max - v.offset), outbuf[..]);
  }

  lemma SkipLine(line: string, im: Image)
    requires |im.data| == MAXDATA && (line == "" || line[0] != ':')
    ensures ReadLine(line, im) == Go(im)
  {
  }

  lemma FileEnd(im: Image)
    requires |im.data| == MAXDATA
    ensures ReadFile("", im) == Done(Signed(im.max - im.offset), im.buf)
  {
  }
}
