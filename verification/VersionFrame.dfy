/** The version frame at the head of a modem log file: the place holder written
    with a new file, and the amendment that later overwrites it in place. */
module VersionFrame {
  import opened Basics
  import opened DiagFraming
  import DiagStreamParsing

  /** Longest version text that is put into the reserved region. */
  const PRE_MODEM_VERSION_LEN: nat := 200

  /** The reserved region lies right behind the time stamp of the file. */
  const TIMESTAMP_SIZE: nat := 16

  const VERSION_SN: nat := 0xffffffff

  const SPACE: Byte := 0x20

  /** "(unavailable)" */
  const UNAVAILABLE: seq<Byte> := [40, 117, 110, 97, 118, 97, 105, 108, 97, 98, 108, 101, 41]

  function VersionMessage(text: seq<Byte>): seq<Byte> {
    Message(VERSION_SN, 0, 0, text)
  }

  function Clamp(version: seq<Byte>): (c: seq<Byte>)
    ensures |c| <= PRE_MODEM_VERSION_LEN && c <= version
    ensures |version| <= PRE_MODEM_VERSION_LEN ==> c == version
  {
    if |version| > PRE_MODEM_VERSION_LEN then version[..PRE_MODEM_VERSION_LEN] else version
  }

  /** A sum of 32 bits, folded once. */
  function Fold(sum: nat): nat {
    sum % 0x1_0000_0000 % 65536 + sum % 0x1_0000_0000 / 65536
  }

  /** The complement of the folded sum, in sixteen bits. */
  function CheckSum(sum: nat): (check: nat)
    ensures check < 65536
  {
    65535 - Fold(sum) % 65536
  }

  /** Twelve bytes: four flags, length, channel and type, a mark, a check sum. */
  function SmpHeader(length: nat, lcn: Byte, kind: Byte): (h: seq<Byte>)
    ensures |h| == 12
  {
    var check := CheckSum(kind * 256 + lcn + length + 0x5a5a);
    [FLAG_BYTE, FLAG_BYTE, FLAG_BYTE, FLAG_BYTE, LowByte(length), LowByte(length / 256), lcn, kind,
     0x5a, 0x5a, LowByte(check), LowByte(check / 256)]
  }

  function Spaces(n: nat): (s: seq<Byte>)
    ensures |s| == n
  {
    seq(n, _ => SPACE)
  }

  /** The unescaped layout used when log and diagnosis devices differ: one packet
      that fills the whole length, the text padded with spaces. */
  function SmpPacket(text: seq<Byte>, length: nat): (s: seq<Byte>)
    requires |text| + 20 <= length
    ensures |s| == length
  {
    SmpHeader(length - 4, 1, 0x9d) + Header(VERSION_SN, length - 12, 0, 0) + text + Spaces(length - 20 - |text|)
  }

  lemma {:induction false} SmpHeaderReadsBack(length: nat, lcn: Byte, kind: Byte)
    requires length < 0x1_0000
    ensures var h := SmpHeader(length, lcn, kind);
      h[..4] == [FLAG_BYTE, FLAG_BYTE, FLAG_BYTE, FLAG_BYTE] && Read16(h, 4) == length && h[6] == lcn && h[7] == kind
  {
    hide CheckSum;
  }

  lemma {:induction false} HeaderAndRest(h: seq<Byte>, m: seq<Byte>)
    requires |h| == 12
    ensures (h + m)[..4] == h[..4] && Read16(h + m, 4) == Read16(h, 4)
    ensures (h + m)[6] == h[6] && (h + m)[7] == h[7] && (h + m)[12..] == m
  {
  }

  lemma {:induction false} SmpPacketParts(text: seq<Byte>, length: nat)
    requires |text| + 20 <= length
    ensures SmpPacket(text, length) ==
      SmpHeader(length - 4, 1, 0x9d) + Message(VERSION_SN, 0, 0, text + Spaces(length - 20 - |text|))
  {
    var h, d := SmpHeader(length - 4, 1, 0x9d), Header(VERSION_SN, length - 12, 0, 0);
    var spaces := Spaces(length - 20 - |text|);
    assert Message(VERSION_SN, 0, 0, text + spaces) == d + (text + spaces);
    hide *;
    assert h + d + text + spaces == h + (d + (text + spaces));
  }

  /** A reader of the packet finds the length of what follows the four flags, channel and type,
      and behind its header a message of which the spaces are a part. */
  lemma {:induction false} SmpPacketReadsBack(text: seq<Byte>, length: nat)
    requires |text| + 20 <= length < 0x1_0000
    ensures var p := SmpPacket(text, length);
      && p[..4] == [FLAG_BYTE, FLAG_BYTE, FLAG_BYTE, FLAG_BYTE]
      && Read16(p, 4) == |p[4..]| && p[6] == 1 && p[7] == 0x9d
      && p[12..] == Message(VERSION_SN, 0, 0, text + Spaces(length - 20 - |text|))
  {
    SmpPacketParts(text, length);
    SmpHeaderReadsBack(length - 4, 1, 0x9d);
    HeaderAndRest(SmpHeader(length - 4, 1, 0x9d), Message(VERSION_SN, 0, 0, text + Spaces(length - 20 - |text|)));
    hide *;
  }

  /** The region written when no version is known yet. */
  function ReservedRegion(diagDevSame: bool): (s: seq<Byte>)
    ensures |s| == if diagDevSame then 2 * PRE_MODEM_VERSION_LEN + 18 else PRE_MODEM_VERSION_LEN + 20
  {
    if diagDevSame then
      PlaceholderShape();
      FrameOf(VersionMessage(UNAVAILABLE)) + Flags(2 * PRE_MODEM_VERSION_LEN + 18 - 23)
    else
      SmpPacket(UNAVAILABLE, PRE_MODEM_VERSION_LEN + 20)
  }

  /** The bytes that carry a version, for a reserved length (0: no limit). */
  function VersionInfo(diagDevSame: bool, text: seq<Byte>, reserved: nat): Option<seq<Byte>> {
    if diagDevSame then
      var f := FrameOf(VersionMessage(text));
      if reserved != 0 && |f| > reserved then None else Some(f)
    else if reserved == 0 then Some(SmpPacket(text, |text| + 20))
    else if reserved < |text| + 20 then None
    else Some(SmpPacket(text, reserved))
  }

  /** Overwriting the head of a region in place. */
  function Overwrite(region: seq<Byte>, data: seq<Byte>): (s: seq<Byte>)
    requires |data| <= |region|
    ensures |s| == |region|
  {
    data + region[|data|..]
  }

  // -------------------------------------------------------- lengths of frames

  lemma {:induction false} EscapedPlain(s: seq<Byte>)
    requires FLAG_BYTE !in s && ESCAPE_BYTE !in s
    ensures Escaped(s) == s
  {
    if s != [] {
      EscapedPlain(s[1..]);
    }
  }

  lemma {:induction false} EscapedAround(a: seq<Byte>, b: Byte, c: seq<Byte>)
    requires FLAG_BYTE !in a && ESCAPE_BYTE !in a
    requires FLAG_BYTE !in c && ESCAPE_BYTE !in c
    ensures |Escaped(a + [b] + c)| == |a| + |EscapedByte(b)| + |c|
  {
    EscapedPlain(a);
    EscapedPlain(c);
    EscapedConcat(a + [b], c);
    EscapedConcat(a, [b]);
    assert [b][1..] == [];
    assert Escaped([b]) == EscapedByte(b) + Escaped([]);
  }

  /** Of the header of a version frame only the low length byte can need escaping. */
  lemma {:induction false} EscapedVersionHeader(n: nat)
    requires n <= PRE_MODEM_VERSION_LEN
    ensures |Escaped(Header(VERSION_SN, n + HEAD_SIZE, 0, 0))| == 7 + |EscapedByte(n + HEAD_SIZE)|
  {
    var a: seq<Byte>, c: seq<Byte> := [255, 255, 255, 255], [0, 0, 0];
    assert Header(VERSION_SN, n + HEAD_SIZE, 0, 0) == a + [n + HEAD_SIZE] + c;
    EscapedAround(a, n + HEAD_SIZE, c);
  }

  lemma {:induction false} VersionFrameLength(text: seq<Byte>)
    requires |text| <= PRE_MODEM_VERSION_LEN
    ensures |FrameOf(VersionMessage(text))|
         == 9 + |EscapedByte(|text| + HEAD_SIZE)| + |Escaped(text)|
  {
    EscapedVersionHeader(|text|);
    EscapedConcat(Header(VERSION_SN, |text| + HEAD_SIZE, 0, 0), text);
  }

  lemma {:induction false} PlaceholderShape()
    ensures FrameOf(VersionMessage(UNAVAILABLE))
         == [FLAG_BYTE] + VersionMessage(UNAVAILABLE) + [FLAG_BYTE]
    ensures |FrameOf(VersionMessage(UNAVAILABLE))| == 23
    ensures FLAG_BYTE !in VersionMessage(UNAVAILABLE)
  {
    var m := VersionMessage(UNAVAILABLE);
    assert FLAG_BYTE !in UNAVAILABLE && ESCAPE_BYTE !in UNAVAILABLE;
    assert FLAG_BYTE !in m && ESCAPE_BYTE !in m;
    EscapedPlain(m);
  }

  lemma {:induction false} EscapedFlags(n: nat)
    ensures |Escaped(Flags(n))| == 2 * n
  {
    if n > 0 {
      assert Flags(n)[1..] == Flags(n - 1);
      EscapedFlags(n - 1);
    }
  }

  /** Every clamped version fits the region with at least eight bytes to spare:
      410 is the longest frame, and some version reaches it. */
  lemma {:induction false} ClampedVersionFits(version: seq<Byte>)
    ensures |FrameOf(VersionMessage(Clamp(version)))| <= 410
    ensures 410 == |ReservedRegion(true)| - 8
    ensures |FrameOf(VersionMessage(Clamp(Flags(200))))| == 410
    ensures VersionInfo(true, Clamp(version), |ReservedRegion(true)|)
         == Some(FrameOf(VersionMessage(Clamp(version))))
  {
    VersionFrameLength(Clamp(version));
    EscapedShape(Clamp(version));
    VersionFrameLength(Flags(200));
    EscapedFlags(200);
  }

  /** Without the clamp the amendment can be refused: a longer text may not fit. */
  lemma {:induction false} UnclampedVersionMayNotFit()
    ensures VersionInfo(true, Flags(205), |ReservedRegion(true)|) == None
  {
    var h := Header(VERSION_SN, 205 + HEAD_SIZE, 0, 0);
    EscapedConcat(h, Flags(205));
    EscapedFlags(205);
    EscapedShape(h);
  }

  // ------------------------------------------------------- reading the region

  lemma {:induction false} FlagsSuffix(n: nat, k: nat)
    requires k <= n
    ensures Flags(n)[k..] == Flags(n - k)
  {
  }

  /** A suffix of a flag-free text followed by flags is of the same kind. */
  lemma {:induction false} SuffixOfGap(text: seq<Byte>, n: nat, k: nat) returns (garbage: seq<Byte>, m: nat)
    requires FLAG_BYTE !in text && k <= |text| + n
    ensures FLAG_BYTE !in garbage && (text + Flags(n))[k..] == garbage + Flags(m)
  {
    if k < |text| {
      garbage, m := text[k..], n;
      assert (text + Flags(n))[k..] == text[k..] + Flags(n);
    } else {
      garbage, m := [], n - (k - |text|);
      FlagsSuffix(n, k - |text|);
      assert (text + Flags(n))[k..] == Flags(n)[k - |text|..];
      assert [] + Flags(m) == Flags(m);
    }
  }

  /** What is left of the place holder behind a shorter frame: the rest of its
      content, which holds no flag, then flags only. */
  lemma {:induction false} RestOfRegion(k: nat) returns (garbage: seq<Byte>, n: nat)
    requires 1 <= k <= |ReservedRegion(true)|
    ensures FLAG_BYTE !in garbage && ReservedRegion(true)[k..] == garbage + Flags(n)
  {
    PlaceholderShape();
    var region := ReservedRegion(true);
    var text := VersionMessage(UNAVAILABLE);
    assert region == [FLAG_BYTE] + (text + Flags(|region| - 22)) by {
      assert Flags(|region| - 22) == [FLAG_BYTE] + Flags(|region| - 23);
    }
    garbage, n := SuffixOfGap(text, |region| - 22, k - 1);
    assert region[k..] == (text + Flags(|region| - 22))[k - 1..];
  }

  /** A stream that continues a file directly behind the region: frames with
      gaps, where the first gap is made of flags alone. */
  ghost predicate Continues(gs: seq<Segment>) {
    && (forall g <- gs :: GoodSegment(g))
    && (gs != [] ==> gs[0].garbage == [])
  }

  lemma {:induction false} DecodeRegionThenStream(first: seq<Byte>, garbage: seq<Byte>, n: nat, gs: seq<Segment>)
    requires first != [] && FLAG_BYTE !in garbage && Continues(gs)
    ensures Decode(INITIAL, FrameOf(first) + (garbage + Flags(n)) + StreamOf(gs)).frames
         == [first] + Contents(gs)
  {
    var gap := garbage + Flags(n);
    DecodeGap(garbage, n);
    DecodeRest(Decode(INITIAL, gap).parser, gs);
    hide *;
    DecodeFrame(INITIAL, first);
    DecodeConcat(INITIAL, FrameOf(first), gap);
    DecodeConcat(INITIAL, FrameOf(first) + gap, StreamOf(gs));
    assert [first] + [] == [first];
  }

  lemma {:induction false} DecodeRest(p: Parser, gs: seq<Segment>)
    requires Continues(gs) && (p == INITIAL || p == Parser(Ready, []))
    ensures Decode(p, StreamOf(gs)).frames == Contents(gs)
  {
    if gs != [] {
      DecodeStream(p, gs);
    }
  }

  /** Before the amendment the file decodes to the place holder and the log. */
  lemma {:induction false} ReservedRegionDecodes(gs: seq<Segment>)
    requires Continues(gs)
    ensures Decode(INITIAL, ReservedRegion(true) + StreamOf(gs)).frames
         == [VersionMessage(UNAVAILABLE)] + Contents(gs)
  {
    PlaceholderShape();
    var n := |ReservedRegion(true)| - 23;
    assert [] + Flags(n) == Flags(n);
    DecodeRegionThenStream(VersionMessage(UNAVAILABLE), [], n, gs);
  }

  /** After it, to the version alone and the same log, whatever the version and
      however much shorter its frame is than the place holder's. */
  lemma {:induction false} AmendedRegionDecodes(version: seq<Byte>, gs: seq<Segment>)
    requires Continues(gs)
    ensures var f := FrameOf(VersionMessage(Clamp(version)));
      && |f| <= |ReservedRegion(true)|
      && Decode(INITIAL, Overwrite(ReservedRegion(true), f) + StreamOf(gs)).frames
         == [VersionMessage(Clamp(version))] + Contents(gs)
  {
    ClampedVersionFits(version);
    var f := FrameOf(VersionMessage(Clamp(version)));
    var garbage, n := RestOfRegion(|f|);
    DecodeRegionThenStream(VersionMessage(Clamp(version)), garbage, n, gs);
  }

  /** With separate devices the amended packet keeps length and headers, so a
      reader finds the log behind it at the same place. */
  lemma {:induction false} AmendedPacketKeepsHeaders(version: seq<Byte>)
    ensures var r := ReservedRegion(false);
      var v := VersionInfo(false, Clamp(version), |r|);
      && v.Some? && |v.value| == |r|
      && v.value[..20] == r[..20]
      && v.value[20..] == Clamp(version) + Spaces(200 - |Clamp(version)|)
  {
  }

  function Word(low: nat, high: nat): nat {
    low + 256 * high
  }

  /** One fold is enough for a check sum exactly when the sum is not 0x1ffff. */
  lemma {:induction false} OneFold(sum: nat)
    requires sum <= 0xffff + 0xffff + 0x5a5a
    ensures ((sum + CheckSum(sum)) % 65535 == 0) == (sum != 0x1ffff)
  {
    var high := sum / 65536;
    var folded := sum % 65536 + high;
    assert folded == sum - 65535 * high;
    if folded < 65536 {
      assert sum + CheckSum(sum) == 65535 * (high + 1);
    } else {
      assert high == 1 && folded == 65536;
    }
  }

  lemma {:induction false} WordOfLowBytes(n: nat)
    requires n < 65536
    ensures Word(LowByte(n), LowByte(n / 256)) == n
  {
  }

  lemma {:induction false} WordOfLength(n: nat)
    ensures Word(LowByte(n), LowByte(n / 256)) == n % 65536
  {
  }

  /** A multiple of 65535 that is so small. */
  lemma {:induction false} NearZero(x: int)
    requires -1 <= x <= 65520
    ensures (65535 - x) % 65535 == 0 <==> x == 0
  {
  }

  /** The sum of the words without the check sum, and the check sum of the whole length. */
  lemma {:induction false} LongCheckSum(fixed: nat, length: nat)
    requires fixed <= 0xffff + 0x5a5a && length < 0xfff0_0000
    ensures (fixed + length % 65536 + CheckSum(fixed + length)) % 65535 == 0 <==>
      length / 65536 == (if Fold(fixed + length) >= 65536 then 1 else 0)
  {
    var sum, high := fixed + length, length / 65536;
    assert sum % 0x1_0000_0000 == sum;
    var folded := Fold(sum);
    var carry := if folded >= 65536 then 1 else 0;
    assert folded == sum - 65535 * (sum / 65536);
    assert length == 65536 * high + length % 65536;
    assert folded % 65536 == folded - 65536 * carry;
    var words := fixed + length % 65536 + CheckSum(sum);
    assert words == 65535 - (high - carry) + 65535 * (sum / 65536 - high + carry);
    SameRemainder(65535 - (high - carry), sum / 65536 - high + carry);
    NearZero(high - carry);
  }

  lemma {:induction false} SameRemainder(x: int, k: int)
    ensures (x + 65535 * k) % 65535 == x % 65535
  {
  }

  /** So the four words of a packet header add up to zero, modulo 65535, in every packet of
      the channel and type in use. Of a length above sixteen bits the header keeps the low
      ones only; then they do exactly if the fold carries once more and the rest is one. */
  lemma {:induction false} SmpCheckSum(length: nat, lcn: Byte, kind: Byte)
    ensures var h := SmpHeader(length, lcn, kind);
      var words := Word(h[4], h[5]) + Word(h[6], h[7]) + Word(h[8], h[9]) + Word(h[10], h[11]);
      var sum := kind * 256 + lcn + length + 0x5a5a;
      && (length < 0xfff0_0000 ==>
            ((words % 65535 == 0) == (length / 65536 == if Fold(sum) >= 65536 then 1 else 0)))
      && (length < 65536 ==> ((words % 65535 == 0) == (sum != 0x1ffff)))
      && (length < 65536 && lcn == 1 && kind == 0x9d ==> words % 65535 == 0)
  {
    var fixed := kind * 256 + lcn + 0x5a5a;
    var sum := fixed + length;
    WordOfLength(length);
    WordOfLowBytes(CheckSum(sum));
    var h := SmpHeader(length, lcn, kind);
    assert Word(h[4], h[5]) == length % 65536 && Word(h[10], h[11]) == CheckSum(sum);
    assert Word(h[6], h[7]) == kind * 256 + lcn && Word(h[8], h[9]) == 0x5a5a;
    hide *;
    if length < 0xfff0_0000 {
      LongCheckSum(fixed, length);
    }
    if length < 65536 {
      OneFold(sum);
    }
  }

  // ------------------------------------------------------------- the handler

  /** A write to the current file at a fixed offset. */
  datatype Patch = Patch(offset: nat, data: seq<Byte>)

  function Amendment(diagDevSame: bool, version: seq<Byte>, reserved: nat, hasBuffer: bool): Option<Patch> {
    if !hasBuffer then None
    else
      match VersionInfo(diagDevSame, Clamp(version), reserved)
      case None => None
      case Some(data) => Some(Patch(TIMESTAMP_SIZE, data))
  }

  /** With a buffer free, the head of a file written without a version always
      gets its amendment, and the amendment stays inside the reserved region. */
  lemma {:induction false} AmendmentFits(diagDevSame: bool, version: seq<Byte>)
    ensures var region := ReservedRegion(diagDevSame);
      var patch := Amendment(diagDevSame, version, |region|, true);
      patch.Some? && patch.value.offset == TIMESTAMP_SIZE && |patch.value.data| <= |region|
  {
    if diagDevSame {
      ClampedVersionFits(version);
    }
  }

  class WanModemLogHandler {
    const diagDevSame: bool
    var version: Option<seq<Byte>>
    var stored: bool
    var reservedLen: nat

    // what the current file holds behind the time stamp, once there was a file
    ghost var fileHead: Option<seq<Byte>>

    /** A file that still waits for its version begins with the place holder region, whose
        length is the one remembered. */
    ghost predicate Valid()
      reads this
    {
      fileHead.Some? && !stored ==>
        fileHead.value == ReservedRegion(diagDevSame) && reservedLen == |fileHead.value|
    }

    constructor (same: bool)
      ensures Valid() && diagDevSame == same && version == None && !stored && reservedLen == 0 && fileHead == None
    {
      diagDevSame, version, stored, reservedLen := same, None, false, 0;
      fileHead := None;
    }

    method FrameNoversionAndReserve() returns (region: array<Byte>)
      ensures fresh(region) && region[..] == ReservedRegion(diagDevSame)
    {
      if diagDevSame {
        PlaceholderShape();
        var frame, n := DiagStreamParsing.Frame(VERSION_SN, 0, 0, UNAVAILABLE);
        region := new Byte[2 * PRE_MODEM_VERSION_LEN + 18](_ => FLAG_BYTE);
        forall i | 0 <= i < n {
          region[i] := frame[i];
        }
        assert region[..n] == frame[..n];
        assert region[..] == region[..n] + Flags(2 * PRE_MODEM_VERSION_LEN + 18 - 23);
      } else {
        region := SmpRegion(UNAVAILABLE, PRE_MODEM_VERSION_LEN + 20);
      }
    }

    method FrameVersionInfo(payload: seq<Byte>, reserved: nat) returns (info: Option<seq<Byte>>)
      ensures info == VersionInfo(diagDevSame, payload, reserved)
    {
      if diagDevSame {
        var frame, n := DiagStreamParsing.Frame(VERSION_SN, 0, 0, payload);
        if reserved != 0 && n > reserved {
          return None;
        }
        return Some(frame[..n]);
      }
      var length := 20 + |payload|;
      if reserved != 0 {
        if reserved < |payload| + 20 {
          return None;
        }
        length := reserved;
      }
      var packet := SmpRegion(payload, length);
      return Some(packet[..]);
    }

    /** What is written behind the time stamp of a new log file. */
    method OnNewLogFile() returns (head: seq<Byte>)
      modifies this`stored, this`reservedLen, this`fileHead
      ensures Valid() && fileHead == Some(head)
      ensures stored == version.Some?
      ensures version.Some? ==> reservedLen == old(reservedLen)
      ensures version.Some? ==> Some(head) == VersionInfo(diagDevSame, version.value, 0)
      ensures version.None? ==> head == ReservedRegion(diagDevSame) && reservedLen == |head|
    {
      if version.Some? {
        var info := FrameVersionInfo(version.value, 0);
        head := info.value;
        stored := true;
      } else {
        var region := FrameNoversionAndReserve();
        head := region[..];
        reservedLen := region.Length;
        stored := false;
      }
      fileHead := Some(head);
    }

    /** The amendment of the current file. For a file that waits for it there always is one
        if a buffer is free, and it stays inside the region. */
    method CorrectVerInfo(hasBuffer: bool) returns (patch: Option<Patch>)
      requires version.Some? && Valid()
      ensures patch == Amendment(diagDevSame, version.value, reservedLen, hasBuffer)
      ensures fileHead.Some? && !stored ==>
        && (patch.Some? <==> hasBuffer)
        && (patch.Some? ==> patch.value.offset == TIMESTAMP_SIZE && |patch.value.data| <= |fileHead.value|)
    {
      AmendmentFits(diagDevSame, version.value);
      if !hasBuffer {
        return None;
      }
      var size := |version.value|;
      if size > PRE_MODEM_VERSION_LEN {
        size := PRE_MODEM_VERSION_LEN;
      }
      assert version.value[..size] == Clamp(version.value);
      var info := FrameVersionInfo(version.value[..size], reservedLen);
      match info {
        case None => return None;
        case Some(data) => return Some(Patch(TIMESTAMP_SIZE, data));
      }
    }

    /** The answer to the version query: a file whose head holds the place holder gets its
        amendment, which stays inside the region, and counts as amended even when no buffer
        was free. Only a file that is saved was begun. */
    method ModemVerResult(text: seq<Byte>, fileSaving: bool, hasBuffer: bool) returns (patch: Option<Patch>)
      requires Valid() && (fileSaving ==> fileHead.Some?)
      modifies this`version, this`stored, this`fileHead
      ensures Valid() && version == Some(text)
      ensures stored == (old(stored) || fileSaving)
      ensures patch == if fileSaving && !old(stored) then Amendment(diagDevSame, text, reservedLen, hasBuffer) else None
      ensures patch.Some? <==> fileSaving && !old(stored) && hasBuffer
      ensures patch.Some? ==>
        && patch.value.offset == TIMESTAMP_SIZE && |patch.value.data| <= |old(fileHead).value|
        && fileHead == Some(Overwrite(old(fileHead).value, patch.value.data))
      ensures patch.None? ==> fileHead == old(fileHead)
    {
      version := Some(text);
      patch := None;
      if fileSaving && !stored {
        patch := CorrectVerInfo(hasBuffer);
        stored := true;
        if patch.Some? {
          fileHead := Some(Overwrite(fileHead.value, patch.value.data));
        }
      }
    }
  }

  method SmpRegion(text: seq<Byte>, length: nat) returns (region: array<Byte>)
    requires |text| + 20 <= length
    ensures fresh(region) && region[..] == SmpPacket(text, length)
  {
    region := new Byte[length](_ => SPACE);
    var head := SmpHeader(length - 4, 1, 0x9d) + Header(VERSION_SN, length - 12, 0, 0);
    forall i | 0 <= i < 20 {
      region[i] := head[i];
    }
    forall i | 0 <= i < |text| {
      region[20 + i] := text[i];
    }
    assert region[..20] == head;
    assert region[20..20 + |text|] == text;
    assert region[20 + |text|..] == Spaces(length - 20 - |text|);
    assert region[..] == region[..20] + region[20..20 + |text|] + region[20 + |text|..];
  }
}
