/** What the frame parser recognises, for every byte stream. */
module FrameRecognition {
  import opened Bytes
  import opened FrameParser

  // The longest end of the bytes that is a beginning of the header.
  predicate LongestMatch(bytes: seq<Byte>, header: seq<Byte>, k: nat) {
    && k <= |bytes| && k <= |header| && bytes[|bytes| - k..] == header[..k]
    && forall m | k < m <= |header| && m <= |bytes| :: bytes[|bytes| - m..] != header[..m]
  }

  predicate OccursAt(bytes: seq<Byte>, i: nat, part: seq<Byte>) {
    i + |part| <= |bytes| && bytes[i..i + |part|] == part
  }

  predicate NoHeader(bytes: seq<Byte>) {
    forall i, k: Kind | 0 <= i <= |bytes| :: !OccursAt(bytes, i, Header(k))
  }

  // No end of any proper beginning is the footer.
  predicate FooterLast(bytes: seq<Byte>, k: Kind) {
    forall n | HEADER_SIZE < n < |bytes| :: !EndsWith(bytes[..n], Footer(k))
  }

  predicate Unfinished(bytes: seq<Byte>, k: Kind) {
    && HEADER_SIZE <= |bytes| <= MAX_FRAME_SIZE && bytes[..HEADER_SIZE] == Header(k)
    && FooterLast(bytes, k) && (|bytes| > HEADER_SIZE ==> !EndsWith(bytes, Footer(k)))
  }

  // A frame: header first, footer at the end and nowhere before, within the limit.
  predicate WellFramed(bytes: seq<Byte>, k: Kind) {
    && HEADER_SIZE < |bytes| <= MAX_FRAME_SIZE && bytes[..HEADER_SIZE] == Header(k)
    && FooterLast(bytes, k) && EndsWith(bytes, Footer(k))
  }

  predicate Sound(p: Piece) {
    match p
    case Junk(bytes) => NoHeader(bytes)
    case Frame(k, bytes) => WellFramed(bytes, k)
    case Dropped(k, bytes) => Unfinished(bytes, k) && |bytes| == MAX_FRAME_SIZE
  }

  function Joined(pieces: seq<Piece>): seq<Byte> {
    if pieces == [] then [] else Joined(pieces[..|pieces| - 1]) + pieces[|pieces| - 1].bytes
  }

  predicate Matched(p: Parser) {
    && p.periodicMatch < HEADER_SIZE && p.ackMatch < HEADER_SIZE
    && LongestMatch(p.held, Header(PeriodicFrame), p.periodicMatch)
    && LongestMatch(p.held, Header(AckFrame), p.ackMatch)
    && NoHeader(p.held)
  }

  // The bytes of the pieces and those still held are all the bytes fed, and each piece is what
  // it should be.
  ghost predicate Inv(p: Parser, input: seq<Byte>) {
    && Joined(p.pieces) + p.held == input
    && (forall piece | piece in p.pieces :: Sound(piece))
    && match p.mode
       case Hunting => Matched(p)
       case Reading(k) => Unfinished(p.held, k) && p.periodicMatch == 0 == p.ackMatch
  }

  lemma JoinedAppend(pieces: seq<Piece>, piece: Piece)
    ensures Joined(pieces + [piece]) == Joined(pieces) + piece.bytes
  {
    assert (pieces + [piece])[..|pieces|] == pieces;
  }

  // The matcher of a header with four different bytes.
  lemma AdvanceMatches(bytes: seq<Byte>, k: Kind, matched: nat, b: Byte)
    requires LongestMatch(bytes, Header(k), matched) && matched < HEADER_SIZE
    ensures LongestMatch(bytes + [b], Header(k), Advance(Header(k), matched, b))
  {
    var h, more, next := Header(k), bytes + [b], Advance(Header(k), matched, b);
    forall m | 0 < m <= HEADER_SIZE && m <= |more| && more[|more| - m..] == h[..m]
      ensures m <= next
    {
      EndCut(bytes, b, h, m);
      if m > 1 && matched > 0 {
        OneMatch(bytes, k, m - 1, matched);
      }
    }
    if next > 0 {
      EndGrow(bytes, b, h, next);
    }
  }

  // The header's bytes differ, so at most one of its beginnings ends the bytes.
  lemma OneMatch(bytes: seq<Byte>, k: Kind, a: nat, c: nat)
    requires 0 < a <= HEADER_SIZE && 0 < c <= HEADER_SIZE && a <= |bytes| && c <= |bytes|
    requires bytes[|bytes| - a..] == Header(k)[..a] && bytes[|bytes| - c..] == Header(k)[..c]
    ensures a == c
  {
    assert bytes[|bytes| - a..][a - 1] == bytes[|bytes| - c..][c - 1];
    assert Header(k)[..a][a - 1] == Header(k)[a - 1] && Header(k)[..c][c - 1] == Header(k)[c - 1];
  }

  lemma EndCut(bytes: seq<Byte>, b: Byte, h: seq<Byte>, m: nat)
    requires 0 < m <= |h| && m <= |bytes| + 1 && (bytes + [b])[|bytes| + 1 - m..] == h[..m]
    ensures b == h[m - 1] && bytes[|bytes| - (m - 1)..] == h[..m - 1]
  {
    var end := (bytes + [b])[|bytes| + 1 - m..];
    assert end[m - 1] == b;
    assert end[..m - 1] == bytes[|bytes| - (m - 1)..];
    assert h[..m][..m - 1] == h[..m - 1];
  }

  lemma EndGrow(bytes: seq<Byte>, b: Byte, h: seq<Byte>, m: nat)
    requires 0 < m <= |h| && m <= |bytes| + 1 && b == h[m - 1] && bytes[|bytes| - (m - 1)..] == h[..m - 1]
    ensures (bytes + [b])[|bytes| + 1 - m..] == h[..m]
  {
  }

  // Bytes without a header stay so unless their end is one.
  lemma NoHeaderGrows(bytes: seq<Byte>, b: Byte)
    requires NoHeader(bytes)
    requires !EndsWith(bytes + [b], Header(PeriodicFrame)) && !EndsWith(bytes + [b], Header(AckFrame))
    ensures NoHeader(bytes + [b])
  {
    var more := bytes + [b];
    hide Header;
    forall i, k: Kind | 0 <= i <= |more| ensures !OccursAt(more, i, Header(k)) {
      if i + HEADER_SIZE < |more| {
        assert more[i..i + HEADER_SIZE] == bytes[i..i + HEADER_SIZE];
        assert !OccursAt(bytes, i, Header(k));
      } else if i + HEADER_SIZE == |more| {
        assert more[i..i + HEADER_SIZE] == more[|more| - HEADER_SIZE..];
        assert k == PeriodicFrame || k == AckFrame;
      }
    }
  }

  lemma NoHeaderPrefix(bytes: seq<Byte>, n: nat)
    requires NoHeader(bytes) && n <= |bytes|
    ensures NoHeader(bytes[..n])
  {
    forall i, k: Kind | 0 <= i <= n ensures !OccursAt(bytes[..n], i, Header(k)) {
      if OccursAt(bytes[..n], i, Header(k)) {
        assert bytes[..n][i..i + HEADER_SIZE] == bytes[i..i + HEADER_SIZE];
        assert OccursAt(bytes, i, Header(k));
      }
    }
  }

  lemma MatchersAfter(p: Parser, b: Byte)
    requires p.mode.Hunting? && Matched(p)
    ensures LongestMatch(p.held + [b], Header(PeriodicFrame), Advance(Header(PeriodicFrame), p.periodicMatch, b))
    ensures LongestMatch(p.held + [b], Header(AckFrame), Advance(Header(AckFrame), p.ackMatch, b))
  {
    AdvanceMatches(p.held, PeriodicFrame, p.periodicMatch, b);
    AdvanceMatches(p.held, AckFrame, p.ackMatch, b);
  }

  // The last byte of a header: what came before it is junk.
  lemma OpenKeeps(p: Parser, input: seq<Byte>, b: Byte, k: Kind)
    requires Inv(p, input) && p.mode.Hunting? && LongestMatch(p.held + [b], Header(k), HEADER_SIZE)
    ensures Inv(Open(p, k, p.held + [b]), input + [b])
  {
    hide Joined, NoHeader, Header;
    var more := p.held + [b];
    var junk := more[..|more| - HEADER_SIZE];
    NoHeaderPrefix(p.held, |more| - HEADER_SIZE);
    WholeHeader(k);
    assert more == junk + Header(k);
    assert junk == p.held[..|more| - HEADER_SIZE];
    hide LongestMatch;
    CutOff(p.pieces, p.held, b, Junk(junk), Header(k));
  }

  lemma CutOff(pieces: seq<Piece>, held: seq<Byte>, b: Byte, piece: Piece, rest: seq<Byte>)
    requires held + [b] == piece.bytes + rest
    ensures Joined(pieces + [piece]) + rest == Joined(pieces) + held + [b]
  {
    JoinedAppend(pieces, piece);
    hide Joined;
    assert Joined(pieces) + piece.bytes + rest == Joined(pieces) + (held + [b]);
  }

  lemma WholeHeader(k: Kind)
    ensures Header(k)[..HEADER_SIZE] == Header(k)
  {
  }

  lemma NotWhole(bytes: seq<Byte>, k: Kind, m: nat)
    requires LongestMatch(bytes, Header(k), m) && m < HEADER_SIZE
    ensures !EndsWith(bytes, Header(k))
  {
    WholeHeader(k);
  }

  lemma HuntKeeps(p: Parser, b: Byte)
    requires p.mode.Hunting? && Matched(p) && IdleByte(p, b).mode.Hunting?
    ensures Matched(IdleByte(p, b))
  {
    MatchersAfter(p, b);
    var q := IdleByte(p, b);
    hide NoHeader, LongestMatch, Header;
    NotWhole(q.held, PeriodicFrame, q.periodicMatch);
    NotWhole(q.held, AckFrame, q.ackMatch);
    hide EndsWith;
    NoHeaderGrows(p.held, b);
  }

  lemma IdleKeeps(p: Parser, input: seq<Byte>, b: Byte)
    requires Inv(p, input) && p.mode.Hunting?
    ensures Inv(IdleByte(p, b), input + [b])
  {
    hide NoHeader, Joined, Header, LongestMatch;
    var q, more := IdleByte(p, b), p.held + [b];
    if q.mode.Reading? {
      MatchersAfter(p, b);
      hide Inv, Matched;
      OpenKeeps(p, input, b, q.mode.kind);
    } else {
      HuntKeeps(p, b);
      hide Matched, IdleByte;
      assert Joined(p.pieces) + more == input + [b];
    }
  }

  lemma UnfinishedGrows(bytes: seq<Byte>, k: Kind, b: Byte)
    requires Unfinished(bytes, k)
    ensures FooterLast(bytes + [b], k) && (bytes + [b])[..HEADER_SIZE] == Header(k)
  {
    var more := bytes + [b];
    forall n | HEADER_SIZE < n < |more| ensures !EndsWith(more[..n], Footer(k)) {
      assert more[..n] == bytes[..n];
      if n == |bytes| { assert bytes[..n] == bytes; }
    }
    assert more[..HEADER_SIZE] == bytes[..HEADER_SIZE];
  }

  lemma NextKeeps(p: Parser, input: seq<Byte>, b: Byte)
    requires Inv(p, input)
    ensures Inv(NextByte(p, b), input + [b])
  {
    if p.mode.Hunting? {
      IdleKeeps(p, input, b);
    } else {
      var k, more := p.mode.kind, p.held + [b];
      hide EndsWith, FooterLast, Joined, Header;
      assert Joined(p.pieces) + more == input + [b];
      if |p.held| >= MAX_FRAME_SIZE {
        var piece := Dropped(k, p.held);
        JoinedAppend(p.pieces, piece);
        ClosedKeeps(p, input, piece);
        IdleKeeps(Close(p, piece), input, b);
      } else {
        UnfinishedGrows(p.held, k, b);
        if EndsWith(more, Footer(k)) {
          JoinedAppend(p.pieces, Frame(k, more));
          ClosedKeeps(p.(held := more), input + [b], Frame(k, more));
        }
      }
    }
  }

  lemma ClosedKeeps(p: Parser, input: seq<Byte>, piece: Piece)
    requires Joined(p.pieces) + p.held == input && piece.bytes == p.held && Sound(piece)
    requires forall x | x in p.pieces :: Sound(x)
    ensures Inv(Close(p, piece), input)
  {
    JoinedAppend(p.pieces, piece);
  }

  lemma FeedSplit(p: Parser, a: seq<Byte>, b: seq<Byte>)
    ensures Feed(p, a + b) == Feed(Feed(p, a), b)
    decreases |b|
  {
    if b == [] {
      assert a + b == a;
    } else {
      var n := |b| - 1;
      assert (a + b)[..|a + b| - 1] == a + b[..n];
      FeedSplit(p, a, b[..n]);
    }
  }

  // Main result: for every byte stream, the bytes are cut into junk without a header, whole
  // frames, over-long starts of frames, and what is still held; each byte falls in one of them.
  lemma {:induction false} EveryByteAccounted(input: seq<Byte>)
    ensures Inv(Feed(FRESH, input), input)
  {
    hide Inv, NextByte;
    if input == [] {
      FreshInv();
    } else {
      var n := |input| - 1;
      EveryByteAccounted(input[..n]);
      NextKeeps(Feed(FRESH, input[..n]), input[..n], input[n]);
      assert input[..n] + [input[n]] == input;
    }
  }

  lemma FreshInv()
    ensures Inv(FRESH, [])
  {
  }

  lemma FullMatch(bytes: seq<Byte>, k: Kind)
    requires NoHeader(bytes)
    ensures !LongestMatch(bytes, Header(k), HEADER_SIZE)
  {
    WholeHeader(k);
    hide Header;
    assert |bytes| >= HEADER_SIZE ==> !OccursAt(bytes, |bytes| - HEADER_SIZE, Header(k));
  }

  lemma StaysHunting(p: Parser, b: Byte)
    requires p.mode.Hunting? && Matched(p) && NoHeader(p.held + [b])
    ensures var q := IdleByte(p, b); q.mode.Hunting? && Matched(q) && q.held == p.held + [b] && q.pieces == p.pieces
  {
    MatchersAfter(p, b);
    FullMatch(p.held + [b], PeriodicFrame);
    FullMatch(p.held + [b], AckFrame);
    hide NoHeader, Header, LongestMatch;
  }

  // Junk without a header leaves the parser between frames.
  lemma {:induction false} FeedJunk(p: Parser, junk: seq<Byte>)
    requires p.mode.Hunting? && Matched(p) && NoHeader(p.held + junk)
    ensures var q := Feed(p, junk); q.mode.Hunting? && Matched(q) && q.held == p.held + junk && q.pieces == p.pieces
    decreases |junk|
  {
    hide NoHeader, Matched, IdleByte;
    if junk == [] {
      assert p.held + junk == p.held;
    } else {
      var n := |junk| - 1;
      var all := p.held + junk;
      assert all[..|all| - 1] == p.held + junk[..n];
      NoHeaderPrefix(all, |all| - 1);
      FeedJunk(p, junk[..n]);
      var q := Feed(p, junk[..n]);
      assert q.held + [junk[n]] == all;
      StaysHunting(q, junk[n]);
    }
  }

  // A header starts a frame only with its last byte.
  lemma NoHeaderBefore(junk: seq<Byte>, k: Kind)
    requires NoHeader(junk)
    ensures NoHeader(junk + Header(k)[..HEADER_SIZE - 1])
  {
    var all := junk + Header(k)[..HEADER_SIZE - 1];
    forall i, k': Kind | 0 <= i <= |all| ensures !OccursAt(all, i, Header(k')) {
      if i + HEADER_SIZE <= |junk| {
        assert all[i..i + HEADER_SIZE] == junk[i..i + HEADER_SIZE];
        assert !OccursAt(junk, i, Header(k'));
      } else if i + HEADER_SIZE <= |all| {
        assert all[i..i + HEADER_SIZE][|junk| - i] == all[|junk|] == Header(k)[0];
      }
    }
  }

  lemma LastHeaderByte(p: Parser, k: Kind, b: Byte, junk: seq<Byte>)
    requires p.mode.Hunting? && Matched(p) && p.held + [b] == junk + Header(k)
    ensures IdleByte(p, b) == Open(p, k, p.held + [b])
  {
    var all := p.held + [b];
    MatchersAfter(p, b);
    WholeHeader(k);
    WholeHeader(PeriodicFrame);
    assert all[|all| - HEADER_SIZE..] == Header(k);
    assert k.AckFrame? ==> Header(PeriodicFrame)[0] != Header(k)[0];
    hide Header, Matched;
  }

  lemma FeedHeader(p: Parser, k: Kind)
    requires p.mode.Hunting? && Matched(p)
    ensures Feed(p, Header(k)) == Parser(Reading(k), Header(k), 0, 0, p.pieces + [Junk(p.held)])
  {
    var h := Header(k);
    hide Header, IdleByte, Matched;
    assert NoHeader(p.held) by { HeldHasNone(p); }
    hide NoHeader;
    NoHeaderBefore(p.held, k);
    FeedJunk(p, h[..3]);
    var q := Feed(p, h[..3]);
    var all := q.held + [h[3]];
    assert all == p.held + h;
    LastHeaderByte(q, k, h[3], p.held);
    assert all[..|all| - HEADER_SIZE] == p.held;
    assert h[..|h| - 1] == h[..3];
  }

  lemma HeldHasNone(p: Parser)
    requires Matched(p)
    ensures NoHeader(p.held)
  {
  }

  // Reading a frame, up to but not including its last byte.
  lemma {:induction false} FeedBody(p: Parser, k: Kind, frame: seq<Byte>, n: nat)
    requires WellFramed(frame, k) && p == Parser(Reading(k), Header(k), 0, 0, p.pieces) && HEADER_SIZE <= n < |frame|
    ensures Feed(p, frame[HEADER_SIZE..n]) == p.(held := frame[..n])
  {
    if n == HEADER_SIZE {
      assert frame[HEADER_SIZE..n] == [];
    } else {
      FeedBody(p, k, frame, n - 1);
      hide NextByte, Header;
      assert frame[HEADER_SIZE..n][..n - 1 - HEADER_SIZE] == frame[HEADER_SIZE..n - 1];
      ReadOn(p.(held := frame[..n - 1]), k, frame, n - 1);
    }
  }

  lemma ReadOn(p: Parser, k: Kind, frame: seq<Byte>, n: nat)
    requires WellFramed(frame, k) && p.mode == Reading(k) && HEADER_SIZE <= n < |frame| - 1 && p.held == frame[..n]
    ensures NextByte(p, frame[n]) == p.(held := frame[..n + 1])
  {
    hide EndsWith;
    assert frame[..n] + [frame[n]] == frame[..n + 1];
  }

  lemma FeedFrame(p: Parser, k: Kind, frame: seq<Byte>)
    requires p.mode.Hunting? && Matched(p) && WellFramed(frame, k)
    ensures Feed(p, frame) == Parser(Hunting, [], 0, 0, p.pieces + [Junk(p.held), Frame(k, frame)])
  {
    var n := |frame| - 1;
    FeedHeader(p, k);
    var q := Feed(p, Header(k));
    FeedBody(q, k, frame, n);
    FeedSplit(p, Header(k), frame[HEADER_SIZE..n]);
    assert Header(k) + frame[HEADER_SIZE..n] == frame[..n];
    assert frame[..n] + [frame[n]] == frame;
    assert p.pieces + [Junk(p.held)] + [Frame(k, frame)] == p.pieces + [Junk(p.held), Frame(k, frame)];
  }

  datatype Burst = Burst(junk: seq<Byte>, kind: Kind, frame: seq<Byte>)

  predicate Separated(bursts: seq<Burst>) {
    forall x | x in bursts :: NoHeader(x.junk) && WellFramed(x.frame, x.kind)
  }

  function Stream(bursts: seq<Burst>): seq<Byte> {
    if bursts == [] then [] else bursts[0].junk + bursts[0].frame + Stream(bursts[1..])
  }

  function PiecesOf(bursts: seq<Burst>): seq<Piece> {
    if bursts == [] then []
    else [Junk(bursts[0].junk), Frame(bursts[0].kind, bursts[0].frame)] + PiecesOf(bursts[1..])
  }

  // Main result: frames separated by junk are delivered one for one, each with exactly its bytes.
  lemma {:induction false} FramesDelivered(pieces: seq<Piece>, bursts: seq<Burst>)
    requires Separated(bursts)
    ensures Feed(FRESH.(pieces := pieces), Stream(bursts)) == FRESH.(pieces := pieces + PiecesOf(bursts))
    decreases |bursts|
  {
    hide WellFramed, NoHeader, Matched, NextByte;
    var p := FRESH.(pieces := pieces);
    if bursts == [] {
      assert pieces + PiecesOf(bursts) == pieces;
    } else {
      var x := bursts[0];
      assert p.held + x.junk == x.junk;
      FreshMatched(p);
      BurstDelivered(p, x);
      var next := pieces + [Junk(x.junk), Frame(x.kind, x.frame)];
      FramesDelivered(next, bursts[1..]);
      FeedSplit(p, x.junk + x.frame, Stream(bursts[1..]));
      MorePieces(pieces, bursts);
    }
  }

  lemma MorePieces(pieces: seq<Piece>, bursts: seq<Burst>)
    requires bursts != []
    ensures pieces + PiecesOf(bursts)
         == pieces + [Junk(bursts[0].junk), Frame(bursts[0].kind, bursts[0].frame)] + PiecesOf(bursts[1..])
  {
  }

  lemma FreshMatched(p: Parser)
    requires p == FRESH.(pieces := p.pieces)
    ensures Matched(p)
  {
  }

  // From any state between frames, where the junk may complete what is held.
  lemma BurstDelivered(p: Parser, x: Burst)
    requires p.mode.Hunting? && Matched(p)
    requires NoHeader(p.held + x.junk) && WellFramed(x.frame, x.kind)
    ensures Feed(p, x.junk + x.frame)
         == FRESH.(pieces := p.pieces + [Junk(p.held + x.junk), Frame(x.kind, x.frame)])
  {
    FeedJunk(p, x.junk);
    FeedFrame(Feed(p, x.junk), x.kind, x.frame);
    FeedSplit(p, x.junk, x.frame);
  }
}
