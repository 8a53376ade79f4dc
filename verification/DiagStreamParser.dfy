/** The parser object with its fixed pool, the escaping and framing methods, and
    the client loop that drains a received buffer. */
module DiagStreamParsing {
  import opened Basics
  import opened DiagFraming

  /** What one call of Unescape does: it stops after the byte that finishes a
      frame, or at the end of the input. */
  datatype ScanResult = ScanResult(parser: Parser, frames: seq<seq<Byte>>, used: nat)

  function Scan(p: Parser, s: seq<Byte>): (r: ScanResult)
    ensures r.used <= |s| && |r.frames| <= 1
    ensures s != [] ==> r.used > 0
    ensures r.frames == [] ==> r.used == |s|
    decreases s
  {
    if s == [] then ScanResult(p, [], 0)
    else
      var first := StepByte(p, s[0]);
      if first.frames != [] then ScanResult(first.parser, first.frames, 1)
      else var rest := Scan(first.parser, s[1..]); rest.(used := rest.used + 1)
  }

  /** No pending frame ever outgrows the pool while s is parsed. */
  ghost predicate FitsPool(p: Parser, s: seq<Byte>)
    decreases s
  {
    && |p.pending| <= POOL_SIZE
    && (s != [] ==> FitsPool(StepByte(p, s[0]).parser, s[1..]))
  }

  /** Calling Unescape again on the rest, until the input is used up, yields the
      same frames and parser as reading the bytes one after another. */
  lemma {:induction false} ScanThenRest(p: Parser, s: seq<Byte>)
    ensures var r := Scan(p, s); var rest := Decode(r.parser, s[r.used..]);
      Decode(p, s) == StepResult(rest.parser, r.frames + rest.frames)
    ensures FitsPool(p, s) ==> FitsPool(Scan(p, s).parser, s[Scan(p, s).used..])
    decreases s
  {
    if s != [] {
      var first := StepByte(p, s[0]);
      if first.frames == [] {
        ScanThenRest(first.parser, s[1..]);
        var r := Scan(first.parser, s[1..]);
        assert s[1..][r.used..] == s[r.used + 1..];
        assert first.frames + (r.frames + Decode(r.parser, s[r.used + 1..]).frames)
            == r.frames + Decode(r.parser, s[r.used + 1..]).frames;
      }
    }
  }

  /** An escape byte and its successor, taken together. */
  lemma {:induction false} ScanPair(p: Parser, s: seq<Byte>)
    requires (p.state.Up? || p.state.Ready?) && |s| > 1 && s[0] == ESCAPE_BYTE
    ensures var q := Parser(Up, p.pending + [Complement(s[1])]);
      && Scan(p, s) == Scan(q, s[2..]).(used := Scan(q, s[2..]).used + 2)
      && (FitsPool(p, s) ==> FitsPool(q, s[2..]))
  {
    var halted := Parser(Halt, p.pending);
    assert StepByte(p, s[0]) == StepResult(halted, []);
    assert s[1..][0] == s[1] && s[1..][1..] == s[2..];
    assert Scan(p, s) == Scan(halted, s[1..]).(used := Scan(halted, s[1..]).used + 1);
    assert FitsPool(p, s) ==> FitsPool(halted, s[1..]);
    assert FitsPool(halted, s[1..]) ==> FitsPool(StepByte(halted, s[1]).parser, s[2..]);
  }

  class DiagStreamParser {
    var state: State
    const pool: array<Byte>
    var len: nat

    ghost predicate Valid()
      reads this
    {
      pool.Length == POOL_SIZE && len <= POOL_SIZE
    }

    ghost function Abs(): Parser
      reads this, pool
      requires Valid()
    {
      Parser(state, pool[..len])
    }

    constructor ()
      ensures Valid() && Abs() == INITIAL && fresh(pool)
    {
      state := Down;
      pool := new Byte[POOL_SIZE];
      len := 0;
    }

    method Reset()
      requires Valid()
      modifies this
      ensures Valid() && Abs() == INITIAL
    {
      state := Down;
      len := 0;
    }

    method Put(b: Byte)
      requires Valid() && len < POOL_SIZE
      modifies this`len, pool
      ensures Valid() && Abs() == Parser(state, old(Abs()).pending + [b])
    {
      pool[len] := b;
      len := len + 1;
    }

    /** One turn of the parsing loop on a nonempty rest of the input: consumes one
        byte, or an escape byte with its successor. */
    method Turn(s: seq<Byte>) returns (found: bool, dstLen: nat, k: nat)
      requires Valid() && s != [] && FitsPool(Abs(), s)
      modifies this`state, this`len, pool
      ensures Valid() && 0 < k <= |s|
      ensures found ==> dstLen <= POOL_SIZE && Scan(old(Abs()), s) == ScanResult(Abs(), [pool[..dstLen]], k)
      ensures !found ==> FitsPool(Abs(), s[k..])
      ensures !found ==> var rest := Scan(Abs(), s[k..]); Scan(old(Abs()), s) == rest.(used := rest.used + k)
    {
      ghost var p := Abs();
      assert FitsPool(StepByte(p, s[0]).parser, s[1..]);
      found, dstLen, k := false, 0, 1;
      if state == Down {
        if s[0] == FLAG_BYTE {
          state := Ready;
        }
      } else if state == Halt {
        state := Up;
        Put(Complement(s[0]));
      } else if state == Up || s[0] != FLAG_BYTE {
        state := Up;
        if s[0] == FLAG_BYTE {
          state := Down;
          found, dstLen, len := true, len, 0;
        } else if s[0] != ESCAPE_BYTE {
          Put(s[0]);
        } else if |s| > 1 {
          ScanPair(p, s);
          Put(Complement(s[1]));
          k := 2;
        } else {
          state := Halt;
        }
      }
    }

    /** Parses src up to the end of the first frame. The finished frame stays in
        the first dstLen bytes of the pool. */
    method Unescape(src: seq<Byte>) returns (found: bool, dstLen: nat, used: nat)
      requires Valid() && FitsPool(Abs(), src)
      modifies this`state, this`len, pool
      ensures Valid()
      ensures var r := Scan(old(Abs()), src);
        && Abs() == r.parser
        && used == r.used
        && found == (r.frames != [])
        && dstLen <= POOL_SIZE
        && (if found then r.frames == [pool[..dstLen]] else dstLen == 0)
    {
      used := 0;
      while used < |src|
        invariant Valid() && used <= |src|
        invariant FitsPool(Abs(), src[used..])
        invariant var rest := Scan(Abs(), src[used..]);
          Scan(old(Abs()), src) == rest.(used := rest.used + used)
      {
        ghost var s := src[used..];
        var k;
        found, dstLen, k := Turn(src[used..]);
        assert s[k..] == src[used + k..];
        used := used + k;
        if found {
          return;
        }
      }
      found, dstLen := false, 0;
    }
  }

  lemma {:induction false} EscapedPrefix(src: seq<Byte>, i: nat)
    requires i < |src|
    ensures Escaped(src[..i + 1]) == Escaped(src[..i]) + EscapedByte(src[i])
    ensures |Escaped(src[..i + 1])| <= |Escaped(src)|
  {
    assert src[..i + 1] == src[..i] + [src[i]];
    assert Escaped([src[i]]) == EscapedByte(src[i]) + Escaped([]);
    EscapedConcat(src[..i], [src[i]]);
    assert src == src[..i + 1] + src[i + 1..];
    EscapedConcat(src[..i + 1], src[i + 1..]);
  }

  /** Writes the one or two bytes that stand for b. */
  method EscapeByte(b: Byte, dst: array<Byte>, at: nat) returns (n: nat)
    requires at + |EscapedByte(b)| <= dst.Length
    modifies dst
    ensures n == |EscapedByte(b)|
    ensures dst[..] == old(dst[..at]) + EscapedByte(b) + old(dst[at + n..])
  {
    if b == FLAG_BYTE || b == ESCAPE_BYTE {
      dst[at], dst[at + 1] := ESCAPE_BYTE, Complement(b);
      n := 2;
    } else {
      dst[at] := b;
      n := 1;
    }
  }

  lemma {:induction false} Spliced(before: seq<Byte>, x: seq<Byte>, at: nat, after: seq<Byte>)
    requires at + |x| <= |before| && after == before[..at] + x + before[at + |x|..]
    ensures after[..at + |x|] == before[..at] + x && after[at + |x|..] == before[at..][|x|..]
  {
  }

  /** Appends the escaped form of src to dst at the given place. */
  method Escape(src: seq<Byte>, dst: array<Byte>, at: nat) returns (n: nat)
    requires at + |Escaped(src)| <= dst.Length
    modifies dst
    ensures n == |Escaped(src)|
    ensures dst[..at + n] == old(dst[..at]) + Escaped(src)
    ensures dst[at + n..] == old(dst[at + n..])
  {
    ghost var was := dst[..];
    n := 0;
    for i := 0 to |src|
      invariant n == |Escaped(src[..i])| <= |Escaped(src)|
      invariant dst[..at + n] == was[..at] + Escaped(src[..i])
      invariant dst[at + n..] == was[at + n..]
    {
      hide Escaped;
      EscapedPrefix(src, i);
      ghost var before := dst[..];
      var k := EscapeByte(src[i], dst, at + n);
      n := n + k;
      Spliced(before, EscapedByte(src[i]), at + n - k, dst[..]);
    }
    assert src[..|src|] == src;
  }

  /** Writes a flag, the escaped serial number, the rest of the header and the
      payload, and a closing flag. */
  method FrameParts(sn: seq<Byte>, rest: seq<Byte>, pl: seq<Byte>, buf: array<Byte>)
    returns (frameLen: nat)
    requires 2 * (|sn| + |rest| + |pl|) + 2 <= buf.Length
    modifies buf
    ensures frameLen <= buf.Length
    ensures buf[..frameLen] == [FLAG_BYTE] + Escaped(sn) + Escaped(rest) + Escaped(pl) + [FLAG_BYTE]
  {
    EscapedShape(sn);
    EscapedShape(rest);
    EscapedShape(pl);
    buf[0] := FLAG_BYTE;
    var len := 1;
    assert buf[..len] == [FLAG_BYTE];
    var n := Escape(sn, buf, len);
    len := len + n;
    assert buf[..len] == [FLAG_BYTE] + Escaped(sn);
    n := Escape(rest, buf, len);
    len := len + n;
    assert buf[..len] == [FLAG_BYTE] + Escaped(sn) + Escaped(rest);
    n := Escape(pl, buf, len);
    len := len + n;
    ghost var before := buf[..len];
    assert before == [FLAG_BYTE] + Escaped(sn) + Escaped(rest) + Escaped(pl);
    buf[len] := FLAG_BYTE;
    frameLen := len + 1;
    assert buf[..frameLen] == before + [FLAG_BYTE];
  }

  lemma {:induction false} FrameInParts(head: seq<Byte>, pl: seq<Byte>)
    requires |head| == HEAD_SIZE
    ensures [FLAG_BYTE] + Escaped(head[..4]) + Escaped(head[4..]) + Escaped(pl) + [FLAG_BYTE] == FrameOf(head + pl)
  {
    hide Escaped;
    assert head == head[..4] + head[4..];
    EscapedConcat(head[..4], head[4..]);
    EscapedConcat(head, pl);
    Flagged(Escaped(head[..4]), Escaped(head[4..]), Escaped(pl));
  }

  lemma {:induction false} Flagged(a: seq<Byte>, b: seq<Byte>, c: seq<Byte>)
    ensures [FLAG_BYTE] + a + b + c + [FLAG_BYTE] == [FLAG_BYTE] + (a + b + c) + [FLAG_BYTE]
  {
  }

  /** Builds the frame of one message in a fresh buffer of the worst-case size. */
  method Frame(sn: nat, cmd: nat, subCmd: nat, pl: seq<Byte>)
    returns (buf: array<Byte>, frameLen: nat)
    ensures fresh(buf) && buf.Length == 2 * (|pl| + HEAD_SIZE) + 2
    ensures frameLen <= buf.Length
    ensures buf[..frameLen] == FrameOf(Message(sn, cmd, subCmd, pl))
  {
    buf := new Byte[2 * (|pl| + HEAD_SIZE) + 2];
    var head := Header(sn, |pl| + HEAD_SIZE, cmd, subCmd);
    FrameInParts(head, pl);
    hide Escaped, FrameOf, LowByte;
    frameLen := FrameParts(head[..4], head[4..], pl, buf);
  }

  /** Builds the frame of a command, which has no serial number. Without a payload only
      the length field tells of its size. */
  method CommandFrame(kind: Byte, subtype: Byte, pl: Option<seq<Byte>>, plLen: nat)
    returns (buf: array<Byte>, frameLen: nat)
    requires pl.Some? ==> |pl.value| == plLen
    ensures fresh(buf) && buf.Length == 2 * (plLen + HEAD_SIZE) + 2
    ensures frameLen <= buf.Length
    ensures buf[..frameLen] ==
      FrameOf(Header(0, plLen + HEAD_SIZE, kind, subtype) + (if pl.Some? then pl.value else []))
  {
    buf := new Byte[2 * (plLen + HEAD_SIZE) + 2];
    var head := Header(0, plLen + HEAD_SIZE, kind, subtype);
    var payload: seq<Byte> := if pl.Some? then pl.value else [];
    EscapedConcat(head, payload);
    assert Escaped(head) + Escaped([]) == Escaped(head);
    hide Escaped, LowByte;
    frameLen := FrameParts(head, [], payload, buf);
  }

  ghost predicate EndsDump(frame: seq<Byte>, end: seq<Byte>) {
    |frame| >= HEAD_SIZE && frame[HEAD_SIZE..] == end
  }

  ghost predicate AnyEndsDump(frames: seq<seq<Byte>>, end: seq<Byte>) {
    exists i :: 0 <= i < |frames| && EndsDump(frames[i], end)
  }

  lemma {:induction false} AnyEndsConcat(a: seq<seq<Byte>>, b: seq<seq<Byte>>, end: seq<Byte>)
    requires |b| <= 1
    ensures AnyEndsDump(a + b, end) == (AnyEndsDump(a, end) || (b != [] && EndsDump(b[0], end)))
  {
    assert forall i :: 0 <= i < |a| ==> (a + b)[i] == a[i];
    assert b != [] ==> (a + b)[|a|] == b[0];
  }

  /** Drains one received buffer and tells whether a frame in it carries the end
      mark of a dump. */
  method CheckEnding(parser: DiagStreamParser, data: seq<Byte>, end: seq<Byte>) returns (ret: bool)
    requires parser.Valid() && FitsPool(parser.Abs(), data)
    modifies parser`state, parser`len, parser.pool
    ensures parser.Valid() && parser.Abs() == Decode(old(parser.Abs()), data).parser
    ensures ret == AnyEndsDump(Decode(old(parser.Abs()), data).frames, end)
  {
    ret := false;
    var rest := data;
    ghost var all := Decode(parser.Abs(), data);
    ghost var seen: seq<seq<Byte>> := [];
    while rest != []
      invariant parser.Valid() && FitsPool(parser.Abs(), rest)
      invariant var d := Decode(parser.Abs(), rest);
        all == StepResult(d.parser, seen + d.frames)
      invariant ret == AnyEndsDump(seen, end)
      decreases |rest|
    {
      ghost var p := parser.Abs();
      ScanThenRest(p, rest);
      ghost var later := Decode(Scan(p, rest).parser, rest[Scan(p, rest).used..]).frames;
      assert seen + (Scan(p, rest).frames + later) == (seen + Scan(p, rest).frames) + later;
      var found, dstLen, used := parser.Unescape(rest);
      if found {
        var frame := parser.pool[..dstLen];
        assert Scan(p, rest).frames == [frame];
        if |frame| >= HEAD_SIZE && frame[HEAD_SIZE..] == end {
          ret := true;
        }
      }
      AnyEndsConcat(seen, Scan(p, rest).frames, end);
      seen := seen + Scan(p, rest).frames;
      rest := rest[used..];
    }
    assert seen + [] == seen;
  }
}
