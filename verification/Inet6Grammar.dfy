/** The texts that inet_pton6 of libs/libuv/inet.c accepts, as the grammar of section 2.2 of RFC 4291. */
module Inet6Grammar {
  import opened Basics
  import opened Inet4
  import opened Inet6
  import opened Inet6Text

  // ---------- Grammar ----------

  /** One to four hexadecimal digits, or an IPv4 address in decimal. */
  datatype Item = Group(text: string) | Octets(bytes: seq<Byte>)

  /** x:x:x:x:x:x:x:x, or the same with one run of zeros left out; either may end in d.d.d.d. */
  datatype Text6 = Full(items: seq<Item>) | Gap(left: seq<Item>, right: seq<Item>)

  ghost predicate ItemOk(x: Item) {
    match x
    case Group(g) => 1 <= |g| <= 4 && HexText(g)
    case Octets(q) => |q| == 4
  }

  /** Only the last item may be in decimal. */
  ghost predicate ItemsOk(r: seq<Item>) {
    forall k :: 0 <= k < |r| ==> ItemOk(r[k]) && (r[k].Octets? ==> k == |r| - 1)
  }

  ghost predicate GroupsOk(l: seq<Item>) {
    forall k :: 0 <= k < |l| ==> ItemOk(l[k]) && l[k].Group?
  }

  ghost function ItemText(x: Item): string
    requires ItemOk(x)
  {
    match x
    case Group(g) => g
    case Octets(q) => Print4(q)
  }

  /** The items with a colon between neighbours. */
  ghost function Joined(r: seq<Item>): string
    requires ItemsOk(r)
  {
    if r == [] then ""
    else if |r| == 1 then ItemText(r[0])
    else ItemText(r[0]) + (":" + Joined(r[1..]))
  }

  ghost function Spell(t: Text6): string
    requires TextOk(t)
  {
    match t
    case Full(r) => Joined(r)
    case Gap(l, r) => Joined(l) + "::" + Joined(r)
  }

  ghost function ItemBytes(x: Item): (b: seq<Byte>)
    requires ItemOk(x)
    ensures |b| == if x.Group? then 2 else 4
  {
    match x
    case Group(g) => Pow16Four(|g|); WordBytes(HexNum(g))
    case Octets(q) => q
  }

  ghost function Bytes(r: seq<Item>): (b: seq<Byte>)
    requires ItemsOk(r)
    ensures |b| % 2 == 0
  {
    if r == [] then [] else ItemBytes(r[0]) + Bytes(r[1..])
  }

  /** Eight words, or fewer with at least one word left out. */
  ghost predicate TextOk(t: Text6) {
    match t
    case Full(r) => ItemsOk(r) && |Bytes(r)| == 16
    case Gap(l, r) => GroupsOk(l) && ItemsOk(r) && |Bytes(l)| + |Bytes(r)| <= 14
  }

  ghost function Meaning(t: Text6): (b: seq<Byte>)
    requires TextOk(t)
    ensures |b| == 16
  {
    match t
    case Full(r) => Bytes(r)
    case Gap(l, r) => Bytes(l) + seq(16 - |Bytes(l)| - |Bytes(r)|, _ => 0) + Bytes(r)
  }

  // ---------- Reading a text of the grammar ----------

  /** The parser between two items. */
  ghost function Between(out: seq<Byte>, colon: int, tok: nat): Six {
    Six(out, colon, 0, 0, tok)
  }

  /** A group and the colon after it. */
  lemma RunGroupColon(s: string, tok: nat, out: seq<Byte>, colon: int, g: string, rest: string)
    requires SixOk(s, Between(out, colon, tok)) && ItemOk(Group(g)) && |out| + 2 <= 16 && rest != ""
    requires Ends(s, tok, g + (":" + rest))
    ensures var j := tok + |g| + 1;
            var y := Between(out + ItemBytes(Group(g)), colon, j);
            Ends(s, j, rest) && SixOk(s, y) && Run6(s, tok, Between(out, colon, tok)) == Run6(s, j, y)
  {
    hide Run6, Ends;
    EndsGive(s, tok, g, ":" + rest);
    EndsGive(s, tok + |g|, ":", rest);
    Pow16Four(|g|);
    RunGroup(s, tok, Between(out, colon, tok), g);
    RunColon(s, tok + |g|, Between(out, colon, tok).(val := HexNum(g), seen := |g|));
  }

  lemma EndsGive(s: string, p: int, a: string, b: string)
    requires Ends(s, p, a + b)
    ensures 0 <= p && p + |a| <= |s| && TextAt(s, p, a) && Ends(s, p + |a|, b)
    ensures a != [] ==> s[p] == a[0]
    ensures b != [] ==> p + |a| < |s|
  {
    EndsSplit(s, p, a, b);
  }

  lemma RunLast(s: string, tok: nat, out: seq<Byte>, colon: int, x: Item)
    requires SixOk(s, Between(out, colon, tok)) && ItemOk(x) && Ends(s, tok, ItemText(x))
             && |out| + |ItemBytes(x)| <= 16
    ensures Run6(s, tok, Between(out, colon, tok)) == Shifted(out + ItemBytes(x), colon)
  {
    hide Run6;
    match x
    case Group(g) =>
      Pow16Four(|g|);
      RunGroup(s, tok, Between(out, colon, tok), g);
      RunEnd(s, tok + |g|, Between(out, colon, tok).(val := HexNum(g), seen := |g|));
    case Octets(q) =>
      RunQuad(s, tok, Between(out, colon, tok), q);
  }

  lemma JoinedNonempty(r: seq<Item>)
    requires ItemsOk(r) && r != []
    ensures Joined(r) != ""
  {
    if r[0].Octets? {
      Print4Length(r[0].bytes);
    }
  }

  lemma RunNone(s: string, out: seq<Byte>, colon: int)
    requires SixOk(s, Between(out, colon, |s|))
    ensures Run6(s, |s|, Between(out, colon, |s|)) == Shifted(out, colon)
  {
  }

  lemma JoinedParts(r: seq<Item>)
    requires ItemsOk(r) && |r| > 1
    ensures r[0].Group? && ItemOk(r[0]) && ItemsOk(r[1..]) && Joined(r[1..]) != ""
    ensures Joined(r) == r[0].text + (":" + Joined(r[1..])) && Bytes(r) == ItemBytes(r[0]) + Bytes(r[1..])
  {
    JoinedNonempty(r[1..]);
  }

  lemma NoItems()
    ensures Joined([]) == "" && Bytes([]) == []
  {
  }

  lemma OneItem(x: Item)
    requires ItemOk(x)
    ensures ItemsOk([x]) && Joined([x]) == ItemText(x) && Bytes([x]) == ItemBytes(x)
  {
    assert Bytes([x][1..]) == [];
  }

  lemma {:induction false} RunItems(s: string, tok: nat, out: seq<Byte>, colon: int, r: seq<Item>)
    requires SixOk(s, Between(out, colon, tok)) && ItemsOk(r) && Ends(s, tok, Joined(r)) && |out| + |Bytes(r)| <= 16
    ensures Run6(s, tok, Between(out, colon, tok)) == Shifted(out + Bytes(r), colon)
    decreases |r|
  {
    hide Run6, Shifted, Joined, Bytes, ItemBytes, ItemText, HexText;
    if r == [] {
      NoItems();
      assert out + [] == out;
      RunNone(s, out, colon);
    } else if |r| == 1 {
      assert r == [r[0]];
      OneItem(r[0]);
      RunLast(s, tok, out, colon, r[0]);
    } else {
      hide Ends;
      JoinedParts(r);
      var g := r[0].text;
      RunGroupColon(s, tok, out, colon, g, Joined(r[1..]));
      RunItems(s, tok + |g| + 1, out + ItemBytes(r[0]), colon, r[1..]);
      assert out + ItemBytes(r[0]) + Bytes(r[1..]) == out + Bytes(r);
    }
  }

  /** Groups, each with a colon behind it. */
  ghost function Prefix(l: seq<Item>): string
    requires GroupsOk(l)
  {
    if l == [] then "" else l[0].text + (":" + Prefix(l[1..]))
  }

  lemma PrefixParts(l: seq<Item>)
    requires GroupsOk(l) && l != []
    ensures l[0].Group? && ItemOk(l[0]) && GroupsOk(l[1..])
    ensures Prefix(l) == l[0].text + (":" + Prefix(l[1..])) && Bytes(l) == ItemBytes(l[0]) + Bytes(l[1..])
  {
  }

  lemma {:induction false} RunGap(s: string, tok: nat, out: seq<Byte>, l: seq<Item>, r: seq<Item>)
    requires SixOk(s, Between(out, -1, tok)) && GroupsOk(l) && ItemsOk(r) && Ends(s, tok, Prefix(l) + (":" + Joined(r)))
    requires |out| + |Bytes(l)| + |Bytes(r)| <= 16
    ensures Run6(s, tok, Between(out, -1, tok)) == Shifted(out + Bytes(l) + Bytes(r), |out| + |Bytes(l)|)
    decreases |l|
  {
    hide Run6, Shifted, Joined, Ends, ItemBytes, HexText;
    if l == [] {
      assert Prefix(l) + (":" + Joined(r)) == ":" + Joined(r);
      assert out + Bytes(l) == out;
      EndsGive(s, tok, ":", Joined(r));
      RunDoubleColon(s, tok, Between(out, -1, tok));
      RunItems(s, tok + 1, out, |out|, r);
    } else {
      PrefixParts(l);
      hide Prefix, Bytes;
      var g := l[0].text;
      var rest := Prefix(l[1..]) + (":" + Joined(r));
      assert Prefix(l) + (":" + Joined(r)) == g + (":" + rest);
      RunGroupColon(s, tok, out, -1, g, rest);
      RunGap(s, tok + |g| + 1, out + ItemBytes(l[0]), l[1..], r);
      assert out + ItemBytes(l[0]) + Bytes(l[1..]) == out + Bytes(l);
    }
  }

  // ---------- What an accepted text looks like ----------

  /** The text from `tok` on is the rest of `t`, and the result is what `t` says. */
  ghost predicate Reads(s: string, tok: nat, out: seq<Byte>, colon: int, t: Text6)
    requires SixOk(s, Between(out, colon, tok))
  {
    match t
    case Full(r) =>
      && ItemsOk(r) && s[tok..] == Joined(r) && |out| + |Bytes(r)| <= 16
      && Run6(s, tok, Between(out, colon, tok)) == Shifted(out + Bytes(r), colon)
    case Gap(l, r) =>
      && GroupsOk(l) && ItemsOk(r) && s[tok..] == Prefix(l) + (":" + Joined(r))
      && colon == -1 && |out| + |Bytes(l)| + |Bytes(r)| <= 16
      && Run6(s, tok, Between(out, colon, tok)) == Shifted(out + Bytes(l) + Bytes(r), |out| + |Bytes(l)|)
  }

  lemma FourDigits(s: string, i: nat, x: Six)
    requires i < |s| && SixOk(s, x) && HexVal(s[i]) >= 0 && Run6(s, i, x).Ok?
    ensures x.seen < 4
  {
  }

  lemma OneMore(s: string, tok: nat, i: nat)
    requires tok <= i < |s| && HexText(s[tok..i]) && HexVal(s[i]) >= 0
    ensures HexText(s[tok..i + 1]) && HexNum(s[tok..i + 1]) == HexNum(s[tok..i]) * 16 + HexVal(s[i])
  {
    assert s[tok..i + 1][..i - tok] == s[tok..i];
  }

  /** The digits of a group are read up to the first other character. */
  lemma {:induction false} Token(s: string, i: nat, x: Six) returns (j: nat)
    requires i <= |s| && SixOk(s, x) && i == x.tok + x.seen && HexText(s[x.tok..i]) && x.val == HexNum(s[x.tok..i])
    requires Run6(s, i, x).Ok?
    ensures i <= j <= |s| && j <= x.tok + 4 && HexText(s[x.tok..j]) && (j < |s| ==> HexVal(s[j]) < 0)
    ensures var y := x.(val := HexNum(s[x.tok..j]), seen := j - x.tok);
            SixOk(s, y) && Run6(s, i, x) == Run6(s, j, y)
    decreases |s| - i
  {
    hide Run6, HexNum, Pow16, HexText;
    if i == |s| || HexVal(s[i]) < 0 {
      j := i;
    } else {
      FourDigits(s, i, x);
      RunDigit(s, i, x);
      OneMore(s, x.tok, i);
      j := Token(s, i + 1, x.(val := x.val * 16 + HexVal(s[i]), seen := x.seen + 1));
    }
  }

  lemma ConsItems(g: string, r: seq<Item>)
    requires ItemOk(Group(g)) && ItemsOk(r) && r != []
    ensures ItemsOk([Group(g)] + r) && Joined([Group(g)] + r) == g + (":" + Joined(r))
    ensures Bytes([Group(g)] + r) == ItemBytes(Group(g)) + Bytes(r)
  {
    assert ([Group(g)] + r)[1..] == r;
  }

  lemma ConsGroups(g: string, l: seq<Item>)
    requires ItemOk(Group(g)) && GroupsOk(l)
    ensures GroupsOk([Group(g)] + l) && Prefix([Group(g)] + l) == g + (":" + Prefix(l))
    ensures Bytes([Group(g)] + l) == ItemBytes(Group(g)) + Bytes(l)
  {
    assert ([Group(g)] + l)[1..] == l;
  }

  /** The parser has read a group and the colon behind it. */
  ghost predicate Passed(s: string, tok: nat, j: nat, out: seq<Byte>, colon: int) {
    && SixOk(s, Between(out, colon, tok)) && tok <= j < |s| - 1 && ItemOk(Group(s[tok..j])) && s[j] == ':'
    && var y := Between(out + ItemBytes(Group(s[tok..j])), colon, j + 1);
       SixOk(s, y) && Run6(s, tok, Between(out, colon, tok)) == Run6(s, j + 1, y)
  }

  lemma PassedText(s: string, tok: nat, j: nat)
    requires tok <= j < |s| && s[j] == ':'
    ensures s[tok..] == s[tok..j] + (":" + s[j + 1..])
  {
  }

  lemma FullAfter(s: string, tok: nat, j: nat, out: seq<Byte>, colon: int, r: seq<Item>)
    requires Passed(s, tok, j, out, colon) && Reads(s, j + 1, out + ItemBytes(Group(s[tok..j])), colon, Full(r))
    ensures Reads(s, tok, out, colon, Full([Group(s[tok..j])] + r))
  {
    hide Run6, Shifted, Joined, Bytes, ItemBytes, ItemOk, Pow16;
    var g := s[tok..j];
    PassedText(s, tok, j);
    assert r != [] by { NoItems(); }
    ConsItems(g, r);
    assert out + ItemBytes(Group(g)) + Bytes(r) == out + (ItemBytes(Group(g)) + Bytes(r));
  }

  lemma GapAfter(s: string, tok: nat, j: nat, out: seq<Byte>, colon: int, l: seq<Item>, r: seq<Item>)
    requires Passed(s, tok, j, out, colon) && Reads(s, j + 1, out + ItemBytes(Group(s[tok..j])), colon, Gap(l, r))
    ensures Reads(s, tok, out, colon, Gap([Group(s[tok..j])] + l, r))
  {
    hide Run6, Shifted, Joined, Bytes, ItemBytes, ItemOk, Prefix, Pow16;
    var g := s[tok..j];
    PassedText(s, tok, j);
    ConsGroups(g, l);
    assert out + ItemBytes(Group(g)) + Bytes(l) == out + (ItemBytes(Group(g)) + Bytes(l));
    assert g + (":" + (Prefix(l) + (":" + Joined(r)))) == g + (":" + Prefix(l)) + (":" + Joined(r));
  }

  /** The character behind the digits of a group is a colon, or the first dot of a decimal address. */
  lemma Separator(s: string, tok: nat, j: nat, out: seq<Byte>, colon: int)
    requires SixOk(s, Between(out, colon, tok)) && tok <= j < |s| && j <= tok + 4 && HexText(s[tok..j])
             && HexVal(s[j]) < 0
    requires var y := Between(out, colon, tok).(val := HexNum(s[tok..j]), seen := j - tok);
             SixOk(s, y) && Run6(s, j, y).Ok? && Run6(s, tok, Between(out, colon, tok)) == Run6(s, j, y)
    ensures s[j] == ':' && j > tok ==> Passed(s, tok, j, out, colon)
    ensures s[j] == ':' && j == tok ==>
              colon == -1 && Run6(s, tok, Between(out, colon, tok)) == Run6(s, tok + 1, Between(out, |out|, tok + 1))
    ensures s[j] != ':' ==> |out| + 4 <= 16 && Parse4(s[tok..]).Ok?
  {
    Pow16Four(j - tok);
  }

  /** What the parser accepts from here on is the rest of a text of the grammar: it reads a group, and the next
      character says how to go on. */
  lemma {:induction false} Accepted(s: string, tok: nat, out: seq<Byte>, colon: int) returns (t: Text6)
    requires SixOk(s, Between(out, colon, tok)) && Run6(s, tok, Between(out, colon, tok)).Ok?
    ensures Reads(s, tok, out, colon, t)
    decreases |s| - tok
  {
    hide Run6, Reads, ItemBytes, HexText, Pow16;
    var j := NextSeparator(s, tok, out, colon);
    var g := s[tok..j];
    if j == |s| {
      t := LastGroup(s, tok, out, colon);
    } else if s[j] == ':' && j > tok {
      t := Accepted(s, j + 1, out + ItemBytes(Group(g)), colon);
      if t.Full? {
        FullAfter(s, tok, j, out, colon, t.items);
        t := Full([Group(g)] + t.items);
      } else {
        GapAfter(s, tok, j, out, colon, t.left, t.right);
        t := Gap([Group(g)] + t.left, t.right);
      }
    } else if s[j] == ':' {
      t := Accepted(s, tok + 1, out, |out|);
      OneGap(s, tok + 1, out, |out|, t);
      t := GapHere(s, tok, out, t.items);
    } else {
      t := LastOctets(s, tok, out, colon);
    }
  }

  /** The end of the digits, and what stands there. */
  lemma NextSeparator(s: string, tok: nat, out: seq<Byte>, colon: int) returns (j: nat)
    requires SixOk(s, Between(out, colon, tok)) && Run6(s, tok, Between(out, colon, tok)).Ok?
    ensures tok <= j <= |s|
    ensures j == |s| ==> |s| - tok <= 4 && HexText(s[tok..])
    ensures j < |s| && s[j] == ':' && j > tok ==> Passed(s, tok, j, out, colon)
    ensures j < |s| && s[j] == ':' && j == tok ==>
              colon == -1 && Run6(s, tok, Between(out, colon, tok)) == Run6(s, tok + 1, Between(out, |out|, tok + 1))
    ensures j < |s| && s[j] != ':' ==> |out| + 4 <= 16 && Parse4(s[tok..]).Ok?
  {
    hide Run6, Passed, Parse4;
    assert s[tok..tok] == "";
    j := Token(s, tok, Between(out, colon, tok));
    assert s[tok..|s|] == s[tok..];
    if j < |s| {
      Separator(s, tok, j, out, colon);
    }
  }

  lemma OneGap(s: string, tok: nat, out: seq<Byte>, colon: int, t: Text6)
    requires SixOk(s, Between(out, colon, tok)) && colon >= 0 && Reads(s, tok, out, colon, t)
    ensures t.Full?
  {
  }

  lemma LastGroup(s: string, tok: nat, out: seq<Byte>, colon: int) returns (t: Text6)
    requires SixOk(s, Between(out, colon, tok)) && |s| - tok <= 4 && HexText(s[tok..])
    requires Run6(s, tok, Between(out, colon, tok)).Ok?
    ensures Reads(s, tok, out, colon, t)
  {
    var g := s[tok..];
    if g == "" {
      t := Full([]);
      RunItems(s, tok, out, colon, []);
    } else {
      RunGroup(s, tok, Between(out, colon, tok), g);
      t := Full([Group(g)]);
      RunItems(s, tok, out, colon, [Group(g)]);
    }
  }

  lemma LastOctets(s: string, tok: nat, out: seq<Byte>, colon: int) returns (t: Text6)
    requires SixOk(s, Between(out, colon, tok)) && |out| + 4 <= 16 && Parse4(s[tok..]).Ok?
    ensures Reads(s, tok, out, colon, t)
  {
    var q := Parse4(s[tok..]).value;
    Parse4Exact(s[tok..], q);
    t := Full([Octets(q)]);
    RunItems(s, tok, out, colon, [Octets(q)]);
  }

  lemma GapHere(s: string, tok: nat, out: seq<Byte>, r: seq<Item>) returns (t: Text6)
    requires SixOk(s, Between(out, -1, tok)) && tok < |s| && s[tok] == ':'
    requires SixOk(s, Between(out, |out|, tok + 1)) && Reads(s, tok + 1, out, |out|, Full(r))
    ensures Reads(s, tok, out, -1, t)
  {
    hide Run6, Shifted, Joined;
    t := Gap([], r);
    assert s[tok..] == ":" + s[tok + 1..];
    assert Prefix([]) + (":" + Joined(r)) == ":" + Joined(r);
    RunGap(s, tok, out, [], r);
  }

  // ---------- The whole text ----------

  lemma {:induction false} PrefixJoined(l: seq<Item>)
    requires GroupsOk(l) && l != []
    ensures Prefix(l) == Joined(l) + ":"
  {
    if |l| > 1 {
      PrefixJoined(l[1..]);
      assert l[0].text + (":" + (Joined(l[1..]) + ":")) == l[0].text + (":" + Joined(l[1..])) + ":";
    } else {
      assert Prefix(l[1..]) == "";
    }
  }

  /** inet_pton6 accepts exactly the texts of the grammar, with the bytes that they mean. */
  lemma Parse6Exact(s: string, b: seq<Byte>)
    ensures Parse6(s) == Ok(b) <==> exists t :: TextOk(t) && Spell(t) == s && Meaning(t) == b
  {
    if Parse6(s) == Ok(b) {
      var t := Found(s);
    }
    if t :| TextOk(t) && Spell(t) == s && Meaning(t) == b {
      Read(t);
    }
  }

  /** No text begins with a colon, except for that of a run of zeros. */
  lemma FirstDigit(x: Item)
    requires ItemOk(x)
    ensures ItemText(x) != "" && HexVal(ItemText(x)[0]) >= 0
  {
    if x.Octets? {
      DecLength(x.bytes[0]);
      DecIsHex(x.bytes[0], 0);
    }
  }

  lemma FirstJoined(r: seq<Item>)
    requires ItemsOk(r) && r != []
    ensures Joined(r) != "" && HexVal(Joined(r)[0]) >= 0
  {
    FirstDigit(r[0]);
  }

  lemma ShiftedFull(out: seq<Byte>)
    requires |out| <= 16 && Shifted(out, -1).Ok?
    ensures |out| == 16 && Shifted(out, -1) == Ok(out)
  {
  }

  lemma ShiftedParts(l: seq<Byte>, r: seq<Byte>)
    requires |l| + |r| <= 16
    ensures Shifted(l + r, |l|) ==
            if |l| + |r| == 16 then Err(EINVAL) else Ok(l + seq(16 - |l| - |r|, _ => 0) + r)
  {
    assert (l + r)[..|l|] == l && (l + r)[|l|..] == r;
  }

  lemma ShiftedGap(l: seq<Item>, r: seq<Item>)
    requires GroupsOk(l) && ItemsOk(r) && |Bytes(l)| + |Bytes(r)| <= 16
    ensures var b := Shifted(Bytes(l) + Bytes(r), |Bytes(l)|);
            (b.Ok? <==> TextOk(Gap(l, r))) && (b.Ok? ==> b.value == Meaning(Gap(l, r)))
  {
    hide Shifted, Bytes;
    ShiftedParts(Bytes(l), Bytes(r));
  }

  /** Every accepted text is in the grammar. */
  lemma Found(s: string) returns (t: Text6)
    requires Parse6(s).Ok?
    ensures TextOk(t) && Spell(t) == s && Parse6(s) == Ok(Meaning(t))
  {
    hide Run6, Shifted, Joined, Bytes, Prefix;
    var start := if s != "" && s[0] == ':' then 1 else 0;
    t := Accepted(s, start, [], -1);
    match t
    case Full(r) =>
      FoundFull(s, start, r);
    case Gap(l, r) =>
      FoundGap(s, start, l, r);
      assert [] + Bytes(l) == Bytes(l);
      ShiftedGap(l, r);
  }

  lemma FoundFull(s: string, start: nat, r: seq<Item>)
    requires start == (if s != "" && s[0] == ':' then 1 else 0) && (start == 1 ==> |s| > 1 && s[1] == ':')
    requires ItemsOk(r) && s[start..] == Joined(r) && |Bytes(r)| <= 16 && Shifted([] + Bytes(r), -1).Ok?
    ensures s == Joined(r) && |Bytes(r)| == 16 && Shifted([] + Bytes(r), -1) == Ok(Bytes(r))
  {
    assert [] + Bytes(r) == Bytes(r);
    ShiftedFull(Bytes(r));
    assert r != [];
    FirstJoined(r);
    assert s[start..][0] == s[start];
  }

  lemma FoundGap(s: string, start: nat, l: seq<Item>, r: seq<Item>)
    requires start == (if s != "" && s[0] == ':' then 1 else 0) && (start == 1 ==> |s| > 1 && s[1] == ':')
    requires GroupsOk(l) && ItemsOk(r) && s[start..] == Prefix(l) + (":" + Joined(r))
    ensures s == Joined(l) + "::" + Joined(r)
  {
    hide Joined, ItemText, ItemOk;
    if l == [] {
      assert s[start..] == ":" + Joined(r);
      assert s[start] == s[start..][0] == ':';
      assert s == ":" + s[1..];
      assert Joined(l) == "" by { NoItems(); }
    } else {
      PrefixJoined(l);
      FirstJoined(l);
      assert s[start] == s[start..][0] == Joined(l)[0];
      assert s == s[0..];
    }
  }

  /** Every text of the grammar is accepted. */
  lemma Read(t: Text6)
    requires TextOk(t)
    ensures Parse6(Spell(t)) == Ok(Meaning(t))
  {
    hide Run6, Shifted, Joined, Bytes, Prefix, ItemText, ItemOk;
    var s := Spell(t);
    assert s[0..] == s;
    match t
    case Full(r) =>
      NotEmpty(r);
      FirstJoined(r);
      assert [] + Bytes(r) == Bytes(r);
      RunItems(s, 0, [], -1, r);
      ShiftedWhole(Bytes(r));
    case Gap(l, r) =>
      ShiftedGap(l, r);
      assert [] + Bytes(l) == Bytes(l);
      if l == [] {
        NoItems();
        assert s == "::" + Joined(r) && s[1..] == ":" + Joined(r);
        assert Prefix(l) + (":" + Joined(r)) == ":" + Joined(r) by { NoPrefix(); }
        RunGap(s, 1, [], l, r);
      } else {
        PrefixJoined(l);
        FirstJoined(l);
        assert s[0] == Joined(l)[0];
        assert s == Prefix(l) + (":" + Joined(r));
        RunGap(s, 0, [], l, r);
      }
  }

  lemma NoPrefix()
    ensures Prefix([]) == ""
  {
  }

  lemma NotEmpty(r: seq<Item>)
    requires ItemsOk(r) && |Bytes(r)| == 16
    ensures r != []
  {
  }

  lemma ShiftedWhole(b: seq<Byte>)
    requires |b| == 16
    ensures Shifted(b, -1) == Ok(b)
  {
  }

  /** A group gives its number, the more significant byte first. */
  lemma GroupBytes(g: string)
    requires ItemOk(Group(g))
    ensures var b := ItemBytes(Group(g));
            var hi: int, lo: int := b[0], b[1];
            256 * hi + lo == HexNum(g)
  {
    Pow16Four(|g|);
  }

  /** Two addresses and their bytes. */
  lemma KnownAddresses()
    ensures Parse6("::1") == Ok([0, 0, 0, 0, 0, 0, 0, 0, 0, 0, 0, 0, 0, 0, 0, 1])
    ensures Parse6("fE80::a1:2") == Ok([0xfe, 0x80, 0, 0, 0, 0, 0, 0, 0, 0, 0, 0, 0, 0xa1, 0, 2])
  {
    hide Parse6, Joined, Bytes, ItemBytes, TextOk;
    KnownGroups();
    OneItem(Group("1"));
    OneItem(Group("2"));
    OneItem(Group("fE80"));
    NoItems();
    var r := [Group("a1"), Group("2")];
    assert r[1..] == [Group("2")];
    JoinedParts(r);
    ShortText([], [Group("1")]);
    ShortText([Group("fE80")], r);
    assert "" + "::" + "1" == "::1" && "fE80" + "::" + ("a1" + (":" + "2")) == "fE80::a1:2";
    assert Bytes(r) == [0, 0xa1, 0, 2];
    assert Parse6("::1").value == [0, 0, 0, 0, 0, 0, 0, 0, 0, 0, 0, 0, 0, 0, 0, 1];
    assert Parse6("fE80::a1:2").value == [0xfe, 0x80, 0, 0, 0, 0, 0, 0, 0, 0, 0, 0, 0, 0xa1, 0, 2];
  }

  lemma ShortText(l: seq<Item>, r: seq<Item>)
    requires GroupsOk(l) && ItemsOk(r) && |Bytes(l)| + |Bytes(r)| <= 14
    ensures var p, x, y := Parse6(Joined(l) + "::" + Joined(r)), Bytes(l), Bytes(r);
            && p.Ok? && |p.value| == 16 && (forall i :: 0 <= i < |x| ==> p.value[i] == x[i])
            && (forall i :: |x| <= i < 16 - |y| ==> p.value[i] == 0)
            && (forall i :: 16 - |y| <= i < 16 ==> p.value[i] == y[i - (16 - |y|)])
  {
    hide Parse6, Joined, Bytes, ItemsOk;
    Read(Gap(l, r));
  }

  lemma KnownGroups()
    ensures ItemBytes(Group("1")) == [0, 1] && ItemBytes(Group("2")) == [0, 2]
    ensures ItemBytes(Group("a1")) == [0, 0xa1] && ItemBytes(Group("fE80")) == [0xfe, 0x80]
  {
    assert "1"[..0] == "" && "2"[..0] == "" && "a1"[..1] == "a" && "a"[..0] == "";
    assert HexNum("1") == 1 && HexNum("2") == 2 && HexNum("a") == 10 && HexNum("a1") == 0xa1;
    assert "fE80"[..3] == "fE8" && "fE8"[..2] == "fE" && "fE"[..1] == "f" && "f"[..0] == "";
    assert HexNum("f") == 15 && HexNum("fE") == 0xfe && HexNum("fE8") == 0xfe8 && HexNum("fE80") == 0xfe80;
  }

  // ---------- With a zone ----------

  /** Twice the length of the joined items: a group and its colon are five characters for two bytes, and a dotted quad
      has up to fifteen for four. */
  lemma {:induction false} JoinedLength(r: seq<Item>)
    requires ItemsOk(r) && r != []
    ensures 2 * |Joined(r)| <= 5 * |Bytes(r)| - 2 + if r[|r| - 1].Octets? then 12 else 0
    ensures AddressChars(Joined(r))
    decreases |r|
  {
    hide Print4, ItemBytes;
    if r[0].Octets? {
      Print4Length(r[0].bytes);
      QuadChars(r[0].bytes);
    }
    if |r| > 1 {
      JoinedLength(r[1..]);
      JoinedParts(r);
    } else {
      assert r == [r[0]];
      OneItem(r[0]);
    }
  }

  /** Every text of the grammar fits into UV__INET6_ADDRSTRLEN. */
  lemma SpellLength(t: Text6)
    requires TextOk(t)
    ensures |Spell(t)| <= TMP6_SIZE - 1 && AddressChars(Spell(t))
  {
    hide Joined, Bytes, ItemOk;
    NoItems();
    match t
    case Full(r) =>
      JoinedLength(r);
    case Gap(l, r) =>
      if l != [] {
        JoinedLength(l);
      }
      if r != [] {
        JoinedLength(r);
      }
  }

  /** The text is `a`, alone or with a percent sign and anything behind it. */
  ghost predicate WithZone(s: string, a: string) {
    a <= s && (|a| < |s| ==> s[|a|] == '%')
  }

  lemma ZoneCut(s: string, a: string)
    requires WithZone(s, a) && |a| <= TMP6_SIZE - 1 && AddressChars(a)
    ensures ParseZone(s) == Parse6(a)
  {
    hide Parse6;
    assert forall k :: 0 <= k < |a| ==> s[k] == a[k];
    if |a| == |s| {
      assert s == a;
    } else {
      assert IndexOf(s, '%') == |a|;
      assert s[..|a|] == a;
    }
  }

  /** uv_inet_pton accepts exactly the texts of the grammar, alone or with any zone; its limit on the length refuses no
      text that inet_pton6 would accept. */
  lemma ParseZoneExact(s: string, b: seq<Byte>)
    ensures ParseZone(s) == Ok(b) <==> exists t :: TextOk(t) && WithZone(s, Spell(t)) && Meaning(t) == b
  {
    hide Parse6, TextOk, Spell, Meaning;
    if ParseZone(s) == Ok(b) {
      var p := IndexOf(s, '%');
      var t := Found(if p < 0 then s else s[..p]);
      assert WithZone(s, Spell(t));
    }
    if t :| TextOk(t) && WithZone(s, Spell(t)) && Meaning(t) == b {
      SpellLength(t);
      ZoneCut(s, Spell(t));
      Read(t);
    }
  }
}
