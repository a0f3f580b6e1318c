/** Frames in the radar's byte stream: a header of four bytes, at most fifty bytes in all, and a
    footer of four bytes. */
module FrameParser {
  import opened Bytes

  const HEADER_SIZE := 4
  const MAX_FRAME_SIZE := 50

  datatype Kind = PeriodicFrame | AckFrame

  function Header(k: Kind): (h: seq<Byte>)
    ensures |h| == HEADER_SIZE
  {
    if k.PeriodicFrame? then [0xF4, 0xF3, 0xF2, 0xF1] else [0xFD, 0xFC, 0xFB, 0xFA]
  }

  function Footer(k: Kind): (f: seq<Byte>)
    ensures |f| == HEADER_SIZE
  {
    if k.PeriodicFrame? then [0xF8, 0xF7, 0xF6, 0xF5] else [0x04, 0x03, 0x02, 0x01]
  }

  // What became of the bytes so far.
  datatype Piece =
    | Junk(bytes: seq<Byte>)                 // between frames
    | Frame(kind: Kind, bytes: seq<Byte>)    // delivered
    | Dropped(kind: Kind, bytes: seq<Byte>)  // grew to the limit without a footer

  datatype Mode = Hunting | Reading(kind: Kind)

  // `held` is the frame being read, or, between frames, the bytes since the last one.
  datatype Parser = Parser(mode: Mode, held: seq<Byte>, periodicMatch: nat, ackMatch: nat, pieces: seq<Piece>)

  const FRESH := Parser(Hunting, [], 0, 0, [])

  function Advance(header: seq<Byte>, matched: nat, b: Byte): nat
    requires |header| == HEADER_SIZE
  {
    if matched < HEADER_SIZE && b == header[matched] then matched + 1 else if b == header[0] then 1 else 0
  }

  predicate Bounded(p: Parser) {
    match p.mode
    case Hunting => p.periodicMatch < HEADER_SIZE && p.ackMatch < HEADER_SIZE
    case Reading(_) => p.periodicMatch == 0 == p.ackMatch && HEADER_SIZE <= |p.held| <= MAX_FRAME_SIZE
  }

  function Open(p: Parser, k: Kind, idle: seq<Byte>): Parser {
    var junk := if |idle| >= HEADER_SIZE then idle[..|idle| - HEADER_SIZE] else [];
    Parser(Reading(k), Header(k), 0, 0, p.pieces + [Junk(junk)])
  }

  function IdleByte(p: Parser, b: Byte): Parser
  {
    var periodic := Advance(Header(PeriodicFrame), p.periodicMatch, b);
    var ack := Advance(Header(AckFrame), p.ackMatch, b);
    if periodic == HEADER_SIZE then Open(p, PeriodicFrame, p.held + [b])
    else if ack == HEADER_SIZE then Open(p, AckFrame, p.held + [b])
    else p.(held := p.held + [b], periodicMatch := periodic, ackMatch := ack)
  }

  predicate EndsWith(data: seq<Byte>, suffix: seq<Byte>) {
    |data| >= |suffix| && data[|data| - |suffix|..] == suffix
  }

  function Close(p: Parser, piece: Piece): Parser {
    Parser(Hunting, [], 0, 0, p.pieces + [piece])
  }

  function NextByte(p: Parser, b: Byte): Parser
  {
    if p.mode.Hunting? then IdleByte(p, b)
    else if |p.held| >= MAX_FRAME_SIZE then IdleByte(Close(p, Dropped(p.mode.kind, p.held)), b)
    else if EndsWith(p.held + [b], Footer(p.mode.kind)) then Close(p, Frame(p.mode.kind, p.held + [b]))
    else p.(held := p.held + [b])
  }

  function Feed(p: Parser, bytes: seq<Byte>): Parser
  {
    if bytes == [] then p else NextByte(Feed(p, bytes[..|bytes| - 1]), bytes[|bytes| - 1])
  }

  class Receiver {
    const frame: array<Byte>
    var frameSize: nat
    var mode: Mode
    var periodicMatch: nat
    var ackMatch: nat
    var discarded: U32
    var invalid: U32
    ghost var idle: seq<Byte>
    ghost var pieces: seq<Piece>

    ghost predicate Valid()
      reads this, frame
    {
      && frame.Length == MAX_FRAME_SIZE && frameSize <= MAX_FRAME_SIZE && Bounded(View())
      && (mode.Hunting? ==> frameSize == 0)
    }

    ghost function View(): Parser
      reads this, frame
    {
      var held := if mode.Reading? then if frameSize <= frame.Length then frame[..frameSize] else [] else idle;
      Parser(mode, held, periodicMatch, ackMatch, pieces)
    }

    constructor ()
      ensures Valid() && View() == FRESH && fresh(frame)
    {
      frame := new Byte[MAX_FRAME_SIZE](_ => 0);
      frameSize, mode, periodicMatch, ackMatch, discarded, invalid := 0, Hunting, 0, 0, 0, 0;
      idle, pieces := [], [];
    }

    method ResetFrame(ghost piece: Piece)
      requires Valid() && mode.Reading?
      modifies this`frameSize, this`mode, this`idle, this`pieces
      ensures Valid() && View() == Close(old(View()), piece)
    {
      frameSize, mode, idle, pieces := 0, Hunting, [], pieces + [piece];
    }

    method OpenFrame(kind: Kind, b: Byte)
      requires Valid() && mode.Hunting?
      modifies this, frame
      ensures Valid() && View() == Open(old(View()), kind, old(idle) + [b])
    {
      var header := Header(kind);
      for i := 0 to HEADER_SIZE
        modifies frame
        invariant forall k | 0 <= k < i :: frame[k] == header[k]
      {
        frame[i] := header[i];
      }
      assert frame[..HEADER_SIZE] == header;
      mode, frameSize, periodicMatch, ackMatch := Reading(kind), HEADER_SIZE, 0, 0;
      ghost var all := idle + [b];
      pieces := pieces + [Junk(if |all| >= HEADER_SIZE then all[..|all| - HEADER_SIZE] else [])];
    }

    method ObserveIdleByte(b: Byte)
      requires Valid() && mode.Hunting?
      modifies this, frame
      ensures Valid() && View() == IdleByte(old(View()), b)
    {
      var periodic := Advance(Header(PeriodicFrame), periodicMatch, b);
      var ack := Advance(Header(AckFrame), ackMatch, b);
      if periodic == HEADER_SIZE {
        OpenFrame(PeriodicFrame, b);
      } else if ack == HEADER_SIZE {
        OpenFrame(AckFrame, b);
      } else {
        periodicMatch, ackMatch, idle := periodic, ack, idle + [b];
        if periodicMatch == 0 && ackMatch == 0 {
          discarded := Wrap32(discarded + 1);
        }
      }
    }

    method ObserveByte(b: Byte)
      requires Valid()
      modifies this, frame
      ensures Valid() && View() == NextByte(old(View()), b)
    {
      if mode.Hunting? {
        ObserveIdleByte(b);
        return;
      }
      if frameSize >= MAX_FRAME_SIZE {
        invalid := Wrap32(invalid + 1);
        ResetFrame(Dropped(mode.kind, frame[..frameSize]));
        ObserveIdleByte(b);
        return;
      }
      ghost var held := View().held;
      frame[frameSize] := b;
      frameSize := frameSize + 1;
      assert frame[..frameSize] == held + [b];
      if EndsWith(frame[..frameSize], Footer(mode.kind)) {
        assert old(View()).(held := held + [b]) == View();
        ResetFrame(Frame(mode.kind, frame[..frameSize]));
      }
    }
  }
}
