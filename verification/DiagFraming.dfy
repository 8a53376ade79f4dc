/** Diagnosis frames as byte sequences: the escaping rule, the frame layout and
    the byte-at-a-time meaning of the resumable parser. */
module DiagFraming {
  import opened Basics

  const FLAG_BYTE: Byte := 0x7e
  const ESCAPE_BYTE: Byte := 0x7d

  /** Exclusive or with the complement byte 0x20: flips bit five. */
  function Complement(b: Byte): (c: Byte)
    ensures b == FLAG_BYTE ==> c == 0x5e
    ensures b == ESCAPE_BYTE ==> c == 0x5d
  {
    if b / 32 % 2 == 1 then b - 32 else b + 32
  }

  lemma {:induction false} ComplementTwice(b: Byte)
    ensures Complement(Complement(b)) == b
  {
  }

  /** Size of the parser's pool. */
  const POOL_SIZE: nat := 65536

  /** Size of the frame header. */
  const HEAD_SIZE: nat := 8

  datatype State = Down | Ready | Halt | Up

  /** The parser between two bytes: its state and the pending frame content. */
  datatype Parser = Parser(state: State, pending: seq<Byte>)

  const INITIAL: Parser := Parser(Down, [])

  /** What one input byte does: the next parser, and at most one finished frame. */
  datatype StepResult = StepResult(parser: Parser, frames: seq<seq<Byte>>)

  function Accept(pending: seq<Byte>, b: Byte): StepResult {
    if b == FLAG_BYTE then StepResult(Parser(Down, []), [pending])
    else if b == ESCAPE_BYTE then StepResult(Parser(Halt, pending), [])
    else StepResult(Parser(Up, pending + [b]), [])
  }

  function StepByte(p: Parser, b: Byte): StepResult {
    match p.state
    case Down => StepResult(if b == FLAG_BYTE then p.(state := Ready) else p, [])
    case Ready => if b == FLAG_BYTE then StepResult(p, []) else Accept(p.pending, b)
    case Halt => StepResult(Parser(Up, p.pending + [Complement(b)]), [])
    case Up => Accept(p.pending, b)
  }

  /** All frames in a byte stream, and the parser after it. */
  function Decode(p: Parser, s: seq<Byte>): StepResult
    decreases s
  {
    if s == [] then StepResult(p, [])
    else
      var first := StepByte(p, s[0]);
      var rest := Decode(first.parser, s[1..]);
      StepResult(rest.parser, first.frames + rest.frames)
  }

  function EscapedByte(b: Byte): seq<Byte> {
    if b == FLAG_BYTE || b == ESCAPE_BYTE then [ESCAPE_BYTE, Complement(b)] else [b]
  }

  function Escaped(s: seq<Byte>): seq<Byte> {
    if s == [] then [] else EscapedByte(s[0]) + Escaped(s[1..])
  }

  function FrameOf(content: seq<Byte>): seq<Byte> {
    [FLAG_BYTE] + Escaped(content) + [FLAG_BYTE]
  }

  /** The low eight bits of a number. */
  function LowByte(n: nat): Byte {
    n % 256
  }

  /** Serial number and frame length, little-endian, then type and subtype. The
      length field keeps sixteen bits only. */
  function Header(sn: nat, length: nat, cmd: nat, subCmd: nat): (h: seq<Byte>)
    ensures |h| == HEAD_SIZE
  {
    [LowByte(sn), LowByte(sn / 256), LowByte(sn / 65536), LowByte(sn / 16777216),
     LowByte(length), LowByte(length / 256), LowByte(cmd), LowByte(subCmd)]
  }

  function Message(sn: nat, cmd: nat, subCmd: nat, payload: seq<Byte>): (c: seq<Byte>)
    ensures |c| == HEAD_SIZE + |payload|
  {
    Header(sn, |payload| + HEAD_SIZE, cmd, subCmd) + payload
  }

  /** A number read from two bytes, and from four, little-endian. */
  function Read16(s: seq<Byte>, i: nat): nat
    requires i + 2 <= |s|
  {
    s[i] as nat + 0x100 * (s[i + 1] as nat)
  }

  function Read32(s: seq<Byte>, i: nat): nat
    requires i + 4 <= |s|
  {
    Read16(s, i) + 0x1_0000 * Read16(s, i + 2)
  }

  lemma {:induction false} FourBytes(n: nat)
    requires n < 0x1_0000_0000
    ensures n == n % 0x100 + 0x100 * (n / 0x100 % 0x100) + 0x1_0000 * (n / 0x1_0000 % 0x100 + 0x100 * (n / 0x100_0000 % 0x100))
  {
    var a := n / 0x100;
    var b := a / 0x100;
    assert n / 0x1_0000 == b && n / 0x100_0000 == b / 0x100;
  }

  /** A reader finds each field of a message at its place: serial number, its whole length if
      sixteen bits are enough for it, type, subtype, and the payload. */
  lemma {:induction false} MessageReadsBack(sn: nat, cmd: nat, subCmd: nat, payload: seq<Byte>)
    requires sn < 0x1_0000_0000 && cmd < 256 && subCmd < 256
    ensures var m := Message(sn, cmd, subCmd, payload);
      && Read32(m, 0) == sn && m[6] == cmd && m[7] == subCmd && m[8..] == payload
      && (Read16(m, 4) == |m| <==> |m| < 0x1_0000)
  {
    FourBytes(sn);
  }

  // ---------------------------------------------------------------- streams

  lemma {:induction false} DecodeOne(p: Parser, b: Byte)
    ensures Decode(p, [b]) == StepByte(p, b)
  {
    var first := StepByte(p, b);
    assert [b][1..] == [];
    assert Decode(first.parser, []) == StepResult(first.parser, []);
    assert first.frames + [] == first.frames;
  }

  lemma {:induction false} DecodeConcat(p: Parser, a: seq<Byte>, b: seq<Byte>)
    ensures Decode(p, a + b).parser == Decode(Decode(p, a).parser, b).parser
    ensures Decode(p, a + b).frames == Decode(p, a).frames + Decode(Decode(p, a).parser, b).frames
    decreases a
  {
    if a == [] {
      assert a + b == b;
    } else {
      assert (a + b)[1..] == a[1..] + b;
      DecodeConcat(StepByte(p, a[0]).parser, a[1..], b);
    }
  }

  function Flatten(chunks: seq<seq<Byte>>): seq<Byte> {
    if chunks == [] then [] else chunks[0] + Flatten(chunks[1..])
  }

  /** Feeding the stream chunk by chunk, keeping the parser between chunks. */
  function DecodeChunks(p: Parser, chunks: seq<seq<Byte>>): StepResult
    decreases chunks
  {
    if chunks == [] then StepResult(p, [])
    else
      var first := Decode(p, chunks[0]);
      var rest := DecodeChunks(first.parser, chunks[1..]);
      StepResult(rest.parser, first.frames + rest.frames)
  }

  lemma {:induction false} ChunksAreTheStream(p: Parser, chunks: seq<seq<Byte>>)
    ensures DecodeChunks(p, chunks) == Decode(p, Flatten(chunks))
    decreases chunks
  {
    if chunks != [] {
      DecodeConcat(p, chunks[0], Flatten(chunks[1..]));
      ChunksAreTheStream(Decode(p, chunks[0]).parser, chunks[1..]);
    }
  }

  /** However one stream is cut, even between an escape byte and its successor,
      the frames and the final parser are the same. */
  lemma {:induction false} CutsDoNotMatter(p: Parser, cut: seq<seq<Byte>>, other: seq<seq<Byte>>)
    requires Flatten(cut) == Flatten(other)
    ensures DecodeChunks(p, cut) == DecodeChunks(p, other)
  {
    ChunksAreTheStream(p, cut);
    ChunksAreTheStream(p, other);
  }

  /** Between two frames nothing is pending; inside one something is. */
  ghost predicate Consistent(p: Parser) {
    && (p.state.Down? || p.state.Ready? ==> p.pending == [])
    && (p.state.Up? ==> p.pending != [])
  }

  lemma {:induction false} FramesAreNonempty(p: Parser, s: seq<Byte>)
    requires Consistent(p)
    ensures Consistent(Decode(p, s).parser)
    ensures forall f <- Decode(p, s).frames :: f != []
    decreases s
  {
    if s != [] {
      FramesAreNonempty(StepByte(p, s[0]).parser, s[1..]);
    }
  }

  // ------------------------------------------------------------- round trips

  lemma {:induction false} EscapedShape(s: seq<Byte>)
    ensures FLAG_BYTE !in Escaped(s)
    ensures |s| <= |Escaped(s)| <= 2 * |s|
  {
    if s != [] {
      EscapedShape(s[1..]);
    }
  }

  lemma {:induction false} EscapedConcat(a: seq<Byte>, b: seq<Byte>)
    ensures Escaped(a + b) == Escaped(a) + Escaped(b)
  {
    if a == [] {
      assert a + b == b;
    } else {
      assert (a + b)[1..] == a[1..] + b;
      EscapedConcat(a[1..], b);
    }
  }

  /** A frame holds its two flags and nothing else that looks like one. */
  lemma {:induction false} FrameShape(content: seq<Byte>)
    ensures var f := FrameOf(content);
      && |f| <= 2 * |content| + 2
      && f[0] == FLAG_BYTE == f[|f| - 1]
      && forall i :: 0 < i < |f| - 1 ==> f[i] != FLAG_BYTE
  {
    EscapedShape(content);
    var f := FrameOf(content);
    forall i | 0 < i < |f| - 1 ensures f[i] != FLAG_BYTE {
      assert f[i] == Escaped(content)[i - 1];
      assert Escaped(content)[i - 1] in Escaped(content);
    }
  }

  lemma {:induction false} DecodeEscapedByte(p: Parser, b: Byte)
    requires p.state.Up? || p.state.Ready?
    ensures Decode(p, EscapedByte(b)) == StepResult(Parser(Up, p.pending + [b]), [])
  {
    if b == FLAG_BYTE || b == ESCAPE_BYTE {
      var code := Complement(b);
      ComplementTwice(b);
      assert EscapedByte(b) == [ESCAPE_BYTE] + [code];
      DecodeOne(p, ESCAPE_BYTE);
      DecodeConcat(p, [ESCAPE_BYTE], [code]);
      DecodeOne(Parser(Halt, p.pending), code);
    } else {
      DecodeOne(p, b);
    }
  }

  lemma {:induction false} DecodeEscaped(p: Parser, s: seq<Byte>)
    requires p.state.Up? || p.state.Ready?
    requires s != []
    ensures Decode(p, Escaped(s)) == StepResult(Parser(Up, p.pending + s), [])
    decreases s
  {
    var q := Parser(Up, p.pending + [s[0]]);
    DecodeEscapedByte(p, s[0]);
    DecodeConcat(p, EscapedByte(s[0]), Escaped(s[1..]));
    if s[1..] == [] {
      assert Escaped(s) == EscapedByte(s[0]) + [];
      assert s == [s[0]];
    } else {
      DecodeEscaped(q, s[1..]);
      assert q.pending + s[1..] == p.pending + s;
    }
  }

  /** Framing and parsing are inverse to each other, between frames. */
  lemma {:induction false} DecodeFrame(p: Parser, content: seq<Byte>)
    requires p.pending == [] && (p.state.Down? || p.state.Ready?)
    requires content != []
    ensures Decode(p, FrameOf(content)) == StepResult(INITIAL, [content])
  {
    var body := Escaped(content);
    var begun := Parser(Ready, []);
    assert Decode(p, [FLAG_BYTE]) == StepResult(begun, []);
    DecodeConcat(p, [FLAG_BYTE], body);
    DecodeEscaped(begun, content);
    assert begun.pending + content == content;
    DecodeConcat(p, [FLAG_BYTE] + body, [FLAG_BYTE]);
    assert Decode(Parser(Up, content), [FLAG_BYTE]) == StepResult(INITIAL, [content]);
  }

  function Flags(n: nat): (s: seq<Byte>)
    ensures |s| == n
    ensures forall i :: 0 <= i < n ==> s[i] == FLAG_BYTE
  {
    seq(n, _ => FLAG_BYTE)
  }

  /** One stretch of a stream: flag-free garbage, any number of flags, a frame. */
  datatype Segment = Segment(garbage: seq<Byte>, flags: nat, content: seq<Byte>)

  ghost predicate GoodSegment(g: Segment) {
    FLAG_BYTE !in g.garbage && g.content != []
  }

  function GapOf(g: Segment): seq<Byte> {
    g.garbage + Flags(g.flags)
  }

  function StreamOf(gs: seq<Segment>): seq<Byte> {
    if gs == [] then [] else GapOf(gs[0]) + FrameOf(gs[0].content) + StreamOf(gs[1..])
  }

  function Contents(gs: seq<Segment>): seq<seq<Byte>> {
    if gs == [] then [] else [gs[0].content] + Contents(gs[1..])
  }

  lemma {:induction false} DecodeGarbage(s: seq<Byte>)
    requires FLAG_BYTE !in s
    ensures Decode(INITIAL, s) == StepResult(INITIAL, [])
  {
    if s != [] {
      DecodeGarbage(s[1..]);
    }
  }

  lemma {:induction false} DecodeFlags(p: Parser, n: nat)
    requires p.pending == [] && (p.state.Down? || p.state.Ready?)
    ensures Decode(p, Flags(n)) == StepResult(if n == 0 then p else Parser(Ready, []), [])
    decreases n
  {
    if n > 0 {
      assert Flags(n)[1..] == Flags(n - 1);
      DecodeFlags(Parser(Ready, []), n - 1);
    }
  }

  lemma {:induction false} DecodeGap(garbage: seq<Byte>, n: nat)
    requires FLAG_BYTE !in garbage
    ensures Decode(INITIAL, garbage + Flags(n))
         == StepResult(if n == 0 then INITIAL else Parser(Ready, []), [])
  {
    DecodeConcat(INITIAL, garbage, Flags(n));
    DecodeGarbage(garbage);
    DecodeFlags(INITIAL, n);
  }

  lemma {:induction false} DecodeSegment(p: Parser, g: Segment)
    requires GoodSegment(g)
    requires p == INITIAL || (p == Parser(Ready, []) && g.garbage == [])
    ensures Decode(p, GapOf(g) + FrameOf(g.content)) == StepResult(INITIAL, [g.content])
  {
    if p == INITIAL {
      DecodeGap(g.garbage, g.flags);
    } else {
      assert GapOf(g) == Flags(g.flags);
      DecodeFlags(p, g.flags);
    }
    DecodeConcat(p, GapOf(g), FrameOf(g.content));
    DecodeFrame(Decode(p, GapOf(g)).parser, g.content);
  }

  /** A stream of frames with gaps decodes to exactly those frames, and leaves
      the parser as it was. A parser that saw a flag already does the same,
      unless garbage comes first. */
  lemma {:induction false} DecodeStream(p: Parser, gs: seq<Segment>)
    requires forall g <- gs :: GoodSegment(g)
    requires p == INITIAL || (p == Parser(Ready, []) && gs != [] && gs[0].garbage == [])
    ensures Decode(p, StreamOf(gs)) == StepResult(INITIAL, Contents(gs))
    decreases gs
  {
    if gs != [] {
      DecodeSegment(p, gs[0]);
      DecodeConcat(p, GapOf(gs[0]) + FrameOf(gs[0].content), StreamOf(gs[1..]));
      DecodeStream(INITIAL, gs[1..]);
    }
  }

  lemma {:induction false} DecodeFlagFree(p: Parser, s: seq<Byte>)
    requires FLAG_BYTE !in s
    requires p.state.Down? || p.state.Up? || p.state.Halt?
    ensures var d := Decode(p, s);
      && d.frames == []
      && (p.state.Down? ==> d.parser == p)
      && (!p.state.Down? ==> d.parser.state.Up? || d.parser.state.Halt?)
    decreases s
  {
    if s != [] {
      assert s[0] != FLAG_BYTE;
      DecodeFlagFree(StepByte(p, s[0]).parser, s[1..]);
    }
  }

  /** Escaped content never ends inside an escape sequence. */
  lemma {:induction false} DecodeEscapedFromUp(p: Parser, s: seq<Byte>)
    requires p.state.Up?
    ensures Decode(p, Escaped(s)) == StepResult(Parser(Up, p.pending + s), [])
  {
    if s == [] {
      assert p.pending + s == p.pending;
    } else {
      DecodeEscaped(p, s);
    }
  }

  /** Whatever a parser has seen, one more whole frame brings it back between
      frames: at most that one frame is lost. */
  lemma {:induction false} FrameResynchronises(p: Parser, content: seq<Byte>)
    requires Consistent(p) && content != []
    ensures var d := Decode(p, FrameOf(content));
      d.parser == INITIAL || d.parser == Parser(Ready, [])
    ensures |Decode(p, FrameOf(content)).frames| == 1
  {
    var body := Escaped(content);
    var begun := Decode(p, [FLAG_BYTE]);
    DecodeOne(p, FLAG_BYTE);
    EscapedShape(content);
    DecodeConcat(p, [FLAG_BYTE], body);
    DecodeConcat(p, [FLAG_BYTE] + body, [FLAG_BYTE]);
    match p.state {
      case Down => DecodeEscaped(begun.parser, content);
      case Ready => DecodeEscaped(begun.parser, content);
      case Halt => DecodeEscapedFromUp(begun.parser, content);
      case Up => DecodeGarbage(body);
    }
    var q := Decode(begun.parser, body).parser;
    DecodeOne(q, FLAG_BYTE);
  }
}
