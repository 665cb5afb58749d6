/**
 The address that two ping-pong programs exchange (src/rc_pingpong.c) and the text of its
 global identifier (src/pingpong.c), between machines of either byte order.
 */
module Address {
  import opened Common

  type Byte = n: nat | n < 256

  datatype Endian = Little | Big

  // ---- Hexadecimal numbers ----

  function HexDigit(d: nat): char
    requires d < 16
  {
    "0123456789abcdef"[d]
  }

  /** The value of a digit, in lower or upper case. */
  function DigitValue(c: char): Option<nat> {
    if '0' <= c <= '9' then Some(c as nat - '0' as nat)
    else if 'a' <= c <= 'f' then Some(c as nat - 'a' as nat + 10)
    else if 'A' <= c <= 'F' then Some(c as nat - 'A' as nat + 10)
    else None
  }

  /** Digits are printed in lower case, and read in either case; nothing else is a digit. */
  lemma Digits(d: nat, c: char)
    requires d < 16
    ensures HexDigit(d) as nat == if d < 10 then '0' as nat + d else 'a' as nat + (d - 10)
    ensures DigitValue(c) == Some(d) <==> c == HexDigit(d) || (d >= 10 && c as nat == 'A' as nat + (d - 10))
    ensures DigitValue(c).Some? ==> DigitValue(c).value < 16
  {
  }

  lemma DigitRoundTrip(d: nat)
    requires d < 16
    ensures DigitValue(HexDigit(d)) == Some(d)
  {
  }

  /** `%0<width>x`: at least `width` digits, and more if the number needs them. */
  function PrintHex(v: nat, width: nat): string {
    if v == 0 && width == 0 then ""
    else PrintHex(v / 16, if width == 0 then 0 else width - 1) + [HexDigit(v % 16)]
  }

  predicate AllHex(s: string) {
    forall i :: 0 <= i < |s| ==> DigitValue(s[i]).Some?
  }

  function Value(s: string): nat
    requires AllHex(s)
  {
    if s == "" then 0 else 16 * Value(s[..|s| - 1]) + DigitValue(s[|s| - 1]).value
  }

  /** The longest run of hexadecimal digits at the front. */
  function HexRun(s: string): (n: nat)
    ensures n <= |s| && AllHex(s[..n])
  {
    if s == "" || DigitValue(s[0]).None? then 0
    else
      assert s[..HexRun(s[1..]) + 1] == [s[0]] + s[1..][..HexRun(s[1..])];
      HexRun(s[1..]) + 1
  }

  /** `%x`: the number at the front and what follows it. */
  function ScanHex(s: string): Option<(nat, string)> {
    var n := HexRun(s);
    if n == 0 then None else Some((Value(s[..n]), s[n..]))
  }

  lemma {:induction false} RunIsLongest(s: string)
    ensures HexRun(s) == |s| || DigitValue(s[HexRun(s)]).None?
  {
    if s != "" && DigitValue(s[0]).Some? { RunIsLongest(s[1..]); }
  }

  /** `%x` reads the longest run of digits at the front, and nothing where there is none. */
  lemma ScanIsLongest(s: string)
    ensures ScanHex(s).None? <==> s == "" || DigitValue(s[0]).None?
    ensures ScanHex(s).Some? ==>
              var (v, rest) := ScanHex(s).value;
              && |rest| < |s| && s[|s| - |rest|..] == rest
              && AllHex(s[..|s| - |rest|]) && v == Value(s[..|s| - |rest|])
              && (rest == "" || DigitValue(rest[0]).None?)
  {
    RunIsLongest(s);
  }

  lemma {:induction false} PrintedValue(v: nat, width: nat)
    ensures AllHex(PrintHex(v, width)) && Value(PrintHex(v, width)) == v
    decreases v, width
  {
    if v != 0 || width != 0 {
      var rest := if width == 0 then 0 else width - 1;
      PrintedValue(v / 16, rest);
      DigitRoundTrip(v % 16);
      var s := PrintHex(v / 16, rest);
      assert (s + [HexDigit(v % 16)])[..|s|] == s;
    }
  }

  function Pow16(n: nat): nat {
    if n == 0 then 1 else 16 * Pow16(n - 1)
  }

  /** A number has exactly `width` digits if and only if it is small enough, and never fewer. */
  lemma {:induction false} PrintedLength(v: nat, width: nat)
    ensures |PrintHex(v, width)| >= width
    ensures |PrintHex(v, width)| == width <==> v < Pow16(width)
    decreases v, width
  {
    if v != 0 || width != 0 {
      PrintedLength(v / 16, if width == 0 then 0 else width - 1);
    }
  }

  lemma {:induction false} RunOf(p: string, rest: string)
    requires AllHex(p) && (rest == "" || DigitValue(rest[0]).None?)
    ensures HexRun(p + rest) == |p|
  {
    if p == "" {
      assert p + rest == rest;
    } else {
      assert (p + rest)[1..] == p[1..] + rest;
      RunOf(p[1..], rest);
    }
  }

  lemma ScanPrinted(v: nat, width: nat, rest: string)
    requires width > 0 && (rest == "" || DigitValue(rest[0]).None?)
    ensures ScanHex(PrintHex(v, width) + rest) == Some((v, rest))
  {
    var p := PrintHex(v, width);
    PrintedValue(v, width);
    PrintedLength(v, width);
    RunOf(p, rest);
    assert (p + rest)[..|p|] == p && (p + rest)[|p|..] == rest;
  }

  // ---- Byte order ----

  /** A 32-bit word in the memory of a machine. */
  function Load(e: Endian, b: seq<Byte>): nat
    requires |b| == 4
  {
    match e
    case Big => ((b[0] as nat * 256 + b[1]) * 256 + b[2]) * 256 + b[3]
    case Little => ((b[3] as nat * 256 + b[2]) * 256 + b[1]) * 256 + b[0]
  }

  function Store(e: Endian, v: nat): (b: seq<Byte>)
    ensures |b| == 4
  {
    var b0, b1, b2, b3 := v % 256, v / 256 % 256, v / 65536 % 256, v / 16777216 % 256;
    if e.Big? then [b3, b2, b1, b0] else [b0, b1, b2, b3]
  }

  /** `htobe32` and `be32toh`: the same on either kind of machine, reversing the bytes or not. */
  function Swapped(e: Endian, v: nat): nat {
    if e.Big? then v else Load(Big, Store(Little, v))
  }

  lemma Divide(a: nat, b: Byte)
    ensures (a * 256 + b) / 256 == a && (a * 256 + b) % 256 == b
  {
  }

  lemma DivideTwice(v: nat)
    ensures v / 65536 == v / 256 / 256 && v / 16777216 == v / 256 / 256 / 256
  {
  }

  lemma WordBytes(a: Byte, b: Byte, c: Byte, d: Byte)
    ensures var v := ((a as nat * 256 + b) * 256 + c) * 256 + d;
            v % 256 == d && v / 256 % 256 == c && v / 65536 % 256 == b && v / 16777216 % 256 == a
  {
    var v1: nat := a;
    var v2: nat := v1 * 256 + b;
    var v3: nat := v2 * 256 + c;
    Divide(v1, b);
    Divide(v2, c);
    Divide(v3, d);
    DivideTwice(v3 * 256 + d);
  }

  lemma StoreLoad(e: Endian, b: seq<Byte>)
    requires |b| == 4
    ensures Store(e, Load(e, b)) == b
  {
    WordBytes(b[0], b[1], b[2], b[3]);
    WordBytes(b[3], b[2], b[1], b[0]);
  }

  /** What is printed is the word in the order of its bytes, on any machine. */
  lemma PrintedWord(e: Endian, b: seq<Byte>)
    requires |b| == 4
    ensures Swapped(e, Load(e, b)) == Load(Big, b)
  {
    StoreLoad(Little, b);
  }

  /** What is stored are the bytes in the order of the text, on any machine. */
  lemma StoredWord(e: Endian, b: seq<Byte>)
    requires |b| == 4
    ensures Store(e, Swapped(e, Load(Big, b))) == b
  {
    StoreLoad(Big, b);
    var v := Load(Big, b);
    StoreLoad(Big, Store(Little, v));
    var w := Load(Big, Store(Little, v));
    assert Store(Big, w) == Store(Little, v);
    assert Store(Little, w) == Reverse(Store(Big, w)) == Reverse(Store(Little, v)) == Store(Big, v);
  }

  function Reverse(b: seq<Byte>): seq<Byte>
    requires |b| == 4
  {
    [b[3], b[2], b[1], b[0]]
  }

  // ---- The text of a global identifier ----

  /** Two digits for each byte, in order. */
  function HexOfBytes(b: seq<Byte>): (s: string)
    ensures |s| == 2 * |b|
  {
    if b == [] then ""
    else HexOfBytes(b[..|b| - 1]) + [HexDigit(b[|b| - 1] / 16), HexDigit(b[|b| - 1] % 16)]
  }

  lemma {:induction false} HexOfConcat(a: seq<Byte>, b: seq<Byte>)
    ensures HexOfBytes(a + b) == HexOfBytes(a) + HexOfBytes(b)
  {
    if b == [] {
      assert a + b == a;
    } else {
      assert (a + b)[..|a + b| - 1] == a + b[..|b| - 1];
      HexOfConcat(a, b[..|b| - 1]);
    }
  }

  lemma PrintByte(u: nat, b: Byte, width: nat)
    ensures PrintHex(u * 256 + b, width + 2) == PrintHex(u, width) + [HexDigit(b / 16), HexDigit(b % 16)]
  {
    var v := u * 256 + b;
    assert v % 16 == b % 16 && v / 16 == u * 16 + b / 16;
    assert v / 16 % 16 == b / 16 && v / 16 / 16 == u;
    assert PrintHex(v, width + 2) == PrintHex(v / 16, width + 1) + [HexDigit(v % 16)];
    assert PrintHex(v / 16, width + 1) == PrintHex(v / 16 / 16, width) + [HexDigit(v / 16 % 16)];
  }

  lemma PrintWord(b: seq<Byte>)
    requires |b| == 4
    ensures PrintHex(Load(Big, b), 8) == HexOfBytes(b)
  {
    hide HexDigit;
    var v1: nat := b[0];
    var v2: nat := v1 * 256 + b[1];
    var v3: nat := v2 * 256 + b[2];
    PrintByte(0, b[0], 0);
    PrintByte(v1, b[1], 2);
    PrintByte(v2, b[2], 4);
    PrintByte(v3, b[3], 6);
    assert b[..1][..0] == [] && b[..2][..1] == b[..1] && b[..3][..2] == b[..2] && b[..4] == b;
    assert HexOfBytes(b[..1]) == PrintHex(v1, 2);
    assert HexOfBytes(b[..2]) == PrintHex(v2, 4);
    assert HexOfBytes(b[..3]) == PrintHex(v3, 6);
  }

  /** `sprintf` at a place of the buffer: the text and its NUL. */
  method PrintAt(text: string, wgid: array<char>, at: nat)
    requires at + |text| < wgid.Length
    modifies wgid
    ensures wgid[..at] == old(wgid[..at])
    ensures wgid[at..at + |text|] == text && wgid[at + |text|] == '\0'
  {
    for j := 0 to |text|
      invariant wgid[..at] == old(wgid[..at]) && wgid[at..at + j] == text[..j]
    {
      wgid[at + j] := text[j];
    }
    wgid[at + |text|] := '\0';
  }

  /** `gid_to_wire_gid`: the hexadecimal text of the 16 bytes in order, whatever the machine. */
  method GidToWireGid(e: Endian, gid: seq<Byte>, wgid: array<char>)
    requires |gid| == 16 && wgid.Length >= 33
    modifies wgid
    ensures wgid[..32] == HexOfBytes(gid) && wgid[32] == '\0'
  {
    hide HexOfBytes, PrintHex, Load, Swapped;
    assert HexOfBytes([]) == "" by { HexOfConcat([], []); }
    for i := 0 to 4
      invariant wgid[..8 * i] == HexOfBytes(gid[..4 * i])
      invariant i > 0 ==> wgid[8 * i] == '\0'
    {
      ghost var word := gid[4 * i..4 * i + 4];
      var text := PrintHex(Swapped(e, Load(e, gid[4 * i..4 * i + 4])), 8);
      PrintedWord(e, word);
      PrintWord(word);
      assert gid[..4 * (i + 1)] == gid[..4 * i] + word;
      HexOfConcat(gid[..4 * i], word);
      PrintAt(text, wgid, 8 * i);
      assert wgid[..8 * (i + 1)] == wgid[..8 * i] + wgid[8 * i..8 * i + 8];
    }
    assert gid[..16] == gid;
  }

  /** What `wire_gid_to_gid` stores for eight characters. */
  function WordOfText(e: Endian, text: string): (b: seq<Byte>)
    requires |text| == 8 && ScanHex(text).Some?
    ensures |b| == 4
  {
    Store(e, Swapped(e, ScanHex(text).value.0))
  }

  /** The word after a group of eight characters was scanned into it; it keeps its value if there is no number. */
  function ScannedInto(text: string, word: nat): nat {
    match ScanHex(text)
    case None => word
    case Some((v, _)) => v
  }

  /** The word after the first `n` groups. */
  function WordAfter(wgid: string, word: nat, n: nat): nat
    requires 8 * n <= |wgid|
  {
    if n == 0 then word else ScannedInto(wgid[8 * (n - 1)..8 * n], WordAfter(wgid, word, n - 1))
  }

  /** A group that begins with no digit leaves the word of the group before it; a group of digits sets its value. */
  lemma GroupSetsWord(wgid: string, word: nat, n: nat)
    requires 8 * (n + 1) <= |wgid|
    ensures DigitValue(wgid[8 * n]).None? ==> WordAfter(wgid, word, n + 1) == WordAfter(wgid, word, n)
    ensures var group := wgid[8 * n..8 * n + 8];
            AllHex(group) ==> WordAfter(wgid, word, n + 1) == Value(group)
  {
    var group := wgid[8 * n..8 * n + 8];
    assert group[0] == wgid[8 * n];
    ScanIsLongest(group);
    if AllHex(group) {
      RunOf(group, "");
      assert group + "" == group && group[..8] == group;
    }
  }

  lemma GroupOfAppend(before: seq<Byte>, last: seq<Byte>, k: nat, i: nat)
    requires |before| == 4 * i && |last| == 4 && k <= i
    ensures (before + last)[4 * k..4 * k + 4] == if k < i then before[4 * k..4 * k + 4] else last
  {
  }

  /** `wire_gid_to_gid`; `word` is what its local variable holds before anything is scanned into it. */
  method WireGidToGid(e: Endian, wgid: string, word: nat) returns (gid: seq<Byte>)
    requires |wgid| >= 32
    ensures |gid| == 16
    ensures forall i :: 0 <= i < 4 ==> gid[4 * i..4 * i + 4] == Store(e, Swapped(e, WordAfter(wgid, word, i + 1)))
  {
    hide ScannedInto, Store, Swapped;
    gid := [];
    var v32 := word;
    for i := 0 to 4
      invariant |gid| == 4 * i && v32 == WordAfter(wgid, word, i)
      invariant forall k :: 0 <= k < i ==> gid[4 * k..4 * k + 4] == Store(e, Swapped(e, WordAfter(wgid, word, k + 1)))
    {
      ghost var before := gid;
      v32 := ScannedInto(wgid[8 * i..8 * i + 8], v32);
      gid := gid + Store(e, Swapped(e, v32));
      forall k | 0 <= k <= i
        ensures gid[4 * k..4 * k + 4] == Store(e, Swapped(e, WordAfter(wgid, word, k + 1)))
      {
        GroupOfAppend(before, Store(e, Swapped(e, v32)), k, i);
      }
    }
  }

  // ---- The message ----

  datatype Dest = Dest(lid: nat, qpn: nat, psn: nat, gid: seq<Byte>)

  /** `sizeof` the sample message, with its final NUL. */
  const MESSAGE_SIZE := 52

  /** The text of `%04x:%06x:%06x:%s`. */
  function Printed(d: Dest, gid: string): string {
    PrintHex(d.lid, 4) + ":" + PrintHex(d.qpn, 6) + ":" + PrintHex(d.psn, 6) + ":" + gid
  }

  /** A colon at the front of the text is passed over. */
  function SkipColon(s: string): Option<string> {
    if s == "" || s[0] != ':' then None else Some(s[1..])
  }

  /** `%s`: everything up to a blank or NUL. */
  function Word(s: string): string {
    if s == "" || s[0] in "\0 \t\n\r" then "" else [s[0]] + Word(s[1..])
  }

  /** `%x:%x:%x:%s`; without a value where a field is missing or out of form. */
  function Scanned(msg: string): Option<(nat, nat, nat, string)> {
    match ScanHex(msg)
    case None => None
    case Some((lid, afterLid)) =>
      match SkipColon(afterLid)
      case None => None
      case Some(qpnText) =>
        match ScanHex(qpnText)
        case None => None
        case Some((qpn, afterQpn)) =>
          match SkipColon(afterQpn)
          case None => None
          case Some(psnText) =>
            match ScanHex(psnText)
            case None => None
            case Some((psn, afterPsn)) =>
              match SkipColon(afterPsn)
              case None => None
              case Some(gidText) => Some((lid, qpn, psn, Word(gidText)))
  }

  lemma ScanField(v: nat, width: nat, rest: string)
    requires width > 0
    ensures ScanHex(PrintHex(v, width) + ":" + rest) == Some((v, ":" + rest))
    ensures SkipColon(":" + rest) == Some(rest)
  {
    assert PrintHex(v, width) + ":" + rest == PrintHex(v, width) + (":" + rest);
    ScanPrinted(v, width, ":" + rest);
  }

  lemma {:induction false} WordOfHex(gid: string)
    requires AllHex(gid)
    ensures Word(gid + "\0") == gid
  {
    if gid == "" {
      assert gid + "\0" == "\0";
    } else {
      assert (gid + "\0")[1..] == gid[1..] + "\0";
      WordOfHex(gid[1..]);
    }
  }

  /** Whatever the numbers, a message can be read back, if there is room for it. */
  lemma ScanMessage(d: Dest, gid: string)
    requires AllHex(gid)
    ensures Scanned(Printed(d, gid) + "\0") == Some((d.lid, d.qpn, d.psn, gid))
  {
    hide ScanHex, PrintHex, Word, AllHex, SkipColon;
    var afterPsn := gid + "\0";
    var afterQpn := PrintHex(d.psn, 6) + ":" + afterPsn;
    var afterLid := PrintHex(d.qpn, 6) + ":" + afterQpn;
    assert Printed(d, gid) + "\0" == PrintHex(d.lid, 4) + ":" + afterLid;
    ScanField(d.lid, 4, afterLid);
    ScanField(d.qpn, 6, afterQpn);
    ScanField(d.psn, 6, afterPsn);
    WordOfHex(gid);
  }

  lemma Powers()
    ensures Pow16(4) == 0x1_0000 && Pow16(6) == 0x100_0000 && Pow16(8) == 0x1_0000_0000
  {
  }

  /**
   With its NUL the message is never shorter than the buffer, and it fits, filling it exactly,
   if and only if the three numbers have at most 16, 24 and 24 bits.
   */
  lemma MessageFills(d: Dest, gid: string)
    requires |gid| == 32
    ensures |Printed(d, gid)| + 1 >= MESSAGE_SIZE
    ensures |Printed(d, gid)| + 1 == MESSAGE_SIZE <==> d.lid < 0x1_0000 && d.qpn < 0x100_0000 && d.psn < 0x100_0000
  {
    hide PrintHex, Pow16;
    Powers();
    PrintedLength(d.lid, 4);
    PrintedLength(d.qpn, 6);
    PrintedLength(d.psn, 6);
  }

  /** In a message that fills the buffer every field has its place: lid, queue pair, sequence number and text. */
  lemma MessageFields(d: Dest, gid: string)
    requires |gid| == 32 && d.lid < 0x1_0000 && d.qpn < 0x100_0000 && d.psn < 0x100_0000
    ensures var msg := Printed(d, gid) + "\0";
            && |msg| == MESSAGE_SIZE
            && msg[..4] == PrintHex(d.lid, 4) && msg[5..11] == PrintHex(d.qpn, 6) && msg[12..18] == PrintHex(d.psn, 6)
            && msg[4] == msg[11] == msg[18] == ':' && msg[19..51] == gid && msg[51] == '\0'
  {
    hide PrintHex, Pow16;
    MessageFills(d, gid);
    Powers();
    PrintedLength(d.lid, 4);
    PrintedLength(d.qpn, 6);
    PrintedLength(d.psn, 6);
  }

  lemma {:induction false} HexOfBytesIsHex(b: seq<Byte>)
    ensures AllHex(HexOfBytes(b))
  {
    if b != [] {
      HexOfBytesIsHex(b[..|b| - 1]);
      DigitRoundTrip(b[|b| - 1] / 16);
      DigitRoundTrip(b[|b| - 1] % 16);
    }
  }

  /** Reading a group of eight characters gives back the bytes, whatever the machine. */
  lemma WordReadBack(e: Endian, b: seq<Byte>)
    requires |b| == 4
    ensures ScanHex(HexOfBytes(b)).Some? && WordOfText(e, HexOfBytes(b)) == b
  {
    PrintWord(b);
    ScanPrinted(Load(Big, b), 8, "");
    assert PrintHex(Load(Big, b), 8) + "" == PrintHex(Load(Big, b), 8);
    StoredWord(e, b);
  }

  lemma GroupOfText(gid: seq<Byte>, i: nat)
    requires |gid| == 16 && i < 4
    ensures HexOfBytes(gid)[8 * i..8 * i + 8] == HexOfBytes(gid[4 * i..4 * i + 4])
  {
    hide HexOfBytes;
    var before, word, after := gid[..4 * i], gid[4 * i..4 * i + 4], gid[4 * i + 4..];
    assert gid == before + word + after;
    HexOfConcat(before + word, after);
    HexOfConcat(before, word);
  }

  lemma SameWords(a: seq<Byte>, b: seq<Byte>)
    requires |a| == |b| == 16
    requires forall i :: 0 <= i < 4 ==> a[4 * i..4 * i + 4] == b[4 * i..4 * i + 4]
    ensures a == b
  {
    forall k | 0 <= k < 16 ensures a[k] == b[k] {
      var i := k / 4;
      assert a[4 * i..4 * i + 4][k - 4 * i] == b[4 * i..4 * i + 4][k - 4 * i];
    }
  }

  /** Every group of the printed identifier is read back as its four bytes, whatever the machine. */
  lemma TextReadBack(e: Endian, gid: seq<Byte>, word: nat)
    requires |gid| == 16
    ensures forall i :: 0 <= i < 4 ==>
              Store(e, Swapped(e, WordAfter(HexOfBytes(gid), word, i + 1))) == gid[4 * i..4 * i + 4]
  {
    hide ScanHex, HexOfBytes, Store, Swapped;
    forall i | 0 <= i < 4
      ensures Store(e, Swapped(e, WordAfter(HexOfBytes(gid), word, i + 1))) == gid[4 * i..4 * i + 4]
    {
      GroupOfText(gid, i);
      WordReadBack(e, gid[4 * i..4 * i + 4]);
    }
  }

  /**
   The exchange: what a machine of either byte order prints into the buffer, a machine of either byte order reads
   back as the same numbers and the same bytes.  There is no answer exactly if the printed message does not fit
   the buffer, which the source overruns then.
   */
  method Exchange(printer: Endian, reader: Endian, d: Dest, wgid: array<char>, word: nat)
    returns (msg: string, got: Option<Dest>)
    requires |d.gid| == 16 && wgid.Length >= 33
    modifies wgid
    ensures got.Some? <==> d.lid < 0x1_0000 && d.qpn < 0x100_0000 && d.psn < 0x100_0000
    ensures got.Some? ==>
              got.value == d && |msg| == MESSAGE_SIZE && msg == Printed(d, HexOfBytes(d.gid)) + "\0"
  {
    hide ScanHex, PrintHex, HexOfBytes, WordAfter, Printed, Scanned, Store, Swapped;
    GidToWireGid(printer, d.gid, wgid);
    msg := Printed(d, wgid[..32]) + "\0";
    MessageFills(d, wgid[..32]);
    if |msg| > MESSAGE_SIZE {
      return msg, None;
    }
    HexOfBytesIsHex(d.gid);
    ScanMessage(d, wgid[..32]);
    var fields := Scanned(msg).value;
    TextReadBack(reader, d.gid, word);
    var gid := WireGidToGid(reader, fields.3, word);
    SameWords(gid, d.gid);
    got := Some(Dest(fields.0, fields.1, fields.2, gid));
  }
}
