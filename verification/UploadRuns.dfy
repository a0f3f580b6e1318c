/** Any sequence of calls on an upload session: what a completed upload delivered, and how the
    sink was used. */
module UploadRuns {
  import opened Wrappers
  import opened Bytes
  import opened FirmwareTrust
  import opened PackageHeader
  import opened UploadSession

  datatype Call =
    | StartCall(header: seq<Byte>, id: U32, now: U32, trust: TrustState, rootId: KeyId, rootKey: PublicKey, v: Verifier)
    | ConsumeCall(id: U32, index: nat, data: seq<Byte>, final: bool, now: U32)
    | FinishCall(id: U32, index: nat, now: U32)
    | ExpireCall(now: U32)
    | CancelCall(id: U32)

  // The session and its sink, with the history of the current upload: the authorised header,
  // the bytes accepted since, and how many sink calls came before.
  datatype Upload = Upload(s: Session, k: Sink, header: seq<Byte>, accepted: seq<Byte>, base: nat)

  function Step(u: Upload, c: Call): (Upload, UploadResult)
    requires WellFormed(u.s)
  {
    match c
    case StartCall(header, id, now, trust, rootId, rootKey, v) =>
      var (s, r) := Start(u.s, header, id, now, trust, rootId, rootKey, v);
      (if r == OK then Upload(s, u.k, header, [], |u.k.calls|) else u.(s := s), r)
    case ConsumeCall(id, index, data, final, now) =>
      var (s, k, r) := Consume(u.s, u.k, id, index, data, final, now);
      (u.(s := s, k := k, accepted := if r == OK || r == COMPLETE then u.accepted + data else u.accepted), r)
    case FinishCall(id, index, now) =>
      var (s, k, r) := Conclude(u.s, u.k, id, index, now);
      (u.(s := s, k := k), r)
    case ExpireCall(now) =>
      var (s, k, expired) := Expire(u.s, u.k, now);
      (u.(s := s, k := k), if expired then EXPIRED else OK)
    case CancelCall(id) =>
      var (s, k, cancelled) := Cancel(u.s, u.k, id);
      (u.(s := s, k := k), if cancelled then NOT_ACTIVE else OK)
  }

  // Whether the image is open after the calls; None if a call came out of order.  An image is
  // opened by a successful begin and closed by a successful finish or an abort.
  function Follow(calls: seq<SinkCall>): Option<bool> {
    if calls == [] then Some(false)
    else
      match Follow(calls[..|calls| - 1])
      case None => None
      case Some(open) =>
        match calls[|calls| - 1]
        case Begin(_, ok) => if open then None else Some(ok)
        case Write(_, _) => if open then Some(true) else None
        case Finish(_, _, ok) => if open then Some(!ok) else None
        case Abort => if open then Some(false) else None
  }

  // The bytes of a series of successful writes.
  function Written(calls: seq<SinkCall>): Option<seq<Byte>> {
    if calls == [] then Some([])
    else
      match (Written(calls[..|calls| - 1]), calls[|calls| - 1])
      case (Some(bytes), Write(data, true)) => Some(bytes + data)
      case _ => None
  }

  // The sink calls of an upload whose image is open.
  predicate Opened(calls: seq<SinkCall>, imageSize: nat, image: seq<Byte>) {
    calls != [] && calls[0] == Begin(imageSize, true) && Written(calls[1..]) == Some(image)
  }

  predicate Inv(u: Upload) {
    && WellFormed(u.s) && u.base <= |u.k.calls|
    && Follow(u.k.calls) == Some(u.s.sinkStarted)
    && (u.s.sinkStarted ==> u.s.active)
    && (u.s.active ==>
        && u.header == HeaderBytes(u.s) && u.s.decision.Accepted?
        && |u.accepted| == u.s.receivedSize
        && (if u.s.sinkStarted then
              && u.s.receivedSize >= HEADER_SIZE && u.accepted[..HEADER_SIZE] == u.header
              && Opened(u.k.calls[u.base..], u.s.package.imageSize, u.accepted[HEADER_SIZE..])
            else
              && u.s.receivedSize < HEADER_SIZE && u.accepted == u.header[..u.s.receivedSize]
              && u.base == |u.k.calls|))
  }

  // What a completed upload did: exactly the authorised header, then exactly the image; the sink
  // saw one begin, writes of the image's bytes, and one finish.
  predicate Delivered(u: Upload) {
    && |u.accepted| == HEADER_SIZE + u.s.package.imageSize && u.accepted[..HEADER_SIZE] == u.header
    && |u.k.calls| > u.base
    && var calls := u.k.calls[u.base..];
       && calls[|calls| - 1] == Finish(u.s.package, u.s.decision, true) && u.s.decision.Accepted?
       && Opened(calls[..|calls| - 1], u.s.package.imageSize, u.accepted[HEADER_SIZE..])
  }

  lemma FollowLog(k: Sink, call: SinkCall)
    ensures Log(k, call).calls[..|k.calls|] == k.calls && Log(k, call).calls[|k.calls|] == call
  {
  }

  lemma FailKeeps(u: Upload, r: UploadResult)
    requires WellFormed(u.s) && u.base <= |u.k.calls| && Follow(u.k.calls) == Some(u.s.sinkStarted)
    ensures var (s, k, _) := Failed(u.s, u.k, r); Inv(u.(s := s, k := k)) && !s.active
  {
    FollowLog(u.k, Abort);
  }

  lemma StartKeeps(u: Upload, c: Call)
    requires Inv(u) && c.StartCall?
    ensures Inv(Step(u, c).0) && Step(u, c).1 != COMPLETE
  {
    hide Evaluate, ParseHeader;
    if ParseHeader(c.header).Parsed? {
      ParsedParts(c.header);
    }
  }

  lemma ConcludeKeeps(u: Upload, id: U32, index: nat, now: U32)
    requires Inv(u)
    ensures var (s, k, r) := Conclude(u.s, u.k, id, index, now);
            var u' := u.(s := s, k := k);
            Inv(u') && (r == COMPLETE ==> Delivered(u') && !s.active)
            && r != OK && (u.s.active && id == u.s.sessionId ==> !s.active)
  {
    if u.s.active && id == u.s.sessionId {
      if TimedOut(u.s, now) || index != u.s.receivedSize || u.s.receivedSize != ExpectedSize(u.s) || !u.s.sinkStarted {
        FailKeeps(u, EXPIRED);
      } else {
        var call := Finish(u.s.package, u.s.decision, Answer(u.k));
        var k := Log(u.k, call);
        FollowLog(u.k, call);
        if Answer(u.k) {
          assert k.calls[u.base..][..|u.k.calls| - u.base] == u.k.calls[u.base..];
        } else {
          FailKeeps(u.(k := k), SINK_FINISH_FAILED);
        }
      }
    }
  }

  lemma TakeHeaderKeeps(u: Upload, part: seq<Byte>)
    requires Inv(u) && u.s.active && (part != [] ==> u.s.receivedSize + |part| <= HEADER_SIZE)
    ensures var (s, k, r) := TakeHeader(u.s, u.k, part);
            if r == OK then
              Inv(u.(s := s, k := k, accepted := u.accepted + part)) &&
              s == u.s.(receivedSize := s.receivedSize, sinkStarted := s.sinkStarted)
            else Inv(u.(s := s, k := k)) && !s.active && r != COMPLETE
  {
    assert u.accepted + [] == u.accepted;
    if part != [] {
      if !HasAt(HeaderBytes(u.s), u.s.receivedSize, part) {
        FailKeeps(u, HEADER_MISMATCH);
      } else {
        var s1 := u.s.(receivedSize := u.s.receivedSize + |part|);
        assert u.header[..s1.receivedSize] == u.header[..u.s.receivedSize] + part;
        if s1.receivedSize == HEADER_SIZE {
          var call := Begin(u.s.package.imageSize, Answer(u.k));
          var k := Log(u.k, call);
          FollowLog(u.k, call);
          if Answer(u.k) {
            assert k.calls[u.base..] == [call] && [call][1..] == [];
            assert (u.accepted + part)[HEADER_SIZE..] == [] && (u.accepted + part)[..HEADER_SIZE] == u.header;
          } else {
            FailKeeps(u.(s := s1, k := k), SINK_BEGIN_FAILED);
          }
        }
      }
    }
  }

  lemma WriteOpens(u: Upload, image: seq<Byte>)
    requires u.base <= |u.k.calls| && |u.accepted| >= HEADER_SIZE
    requires Opened(u.k.calls[u.base..], u.s.package.imageSize, u.accepted[HEADER_SIZE..])
    ensures Opened(Log(u.k, Write(image, true)).calls[u.base..], u.s.package.imageSize, (u.accepted + image)[HEADER_SIZE..])
    ensures (u.accepted + image)[..HEADER_SIZE] == u.accepted[..HEADER_SIZE]
  {
    hide Written, Log;
    var calls := u.k.calls[u.base..];
    LogTail(u.k, Write(image, true), u.base);
    TailAppend(u.accepted, image, HEADER_SIZE);
    WrittenMore(calls[1..], image);
    assert (calls + [Write(image, true)])[1..] == calls[1..] + [Write(image, true)];
  }

  lemma LogTail(k: Sink, call: SinkCall, base: nat)
    requires base <= |k.calls|
    ensures base <= |Log(k, call).calls| && Log(k, call).calls[base..] == k.calls[base..] + [call]
  {
  }

  lemma TailAppend(a: seq<Byte>, b: seq<Byte>, n: nat)
    requires n <= |a|
    ensures (a + b)[n..] == a[n..] + b && (a + b)[..n] == a[..n]
  {
  }

  lemma WrittenMore(calls: seq<SinkCall>, image: seq<Byte>)
    requires Written(calls).Some?
    ensures Written(calls + [Write(image, true)]) == Some(Written(calls).value + image)
  {
    assert (calls + [Write(image, true)])[..|calls|] == calls;
  }

  lemma TakeImageKeeps(u: Upload, image: seq<Byte>)
    requires Inv(u) && u.s.active && |image| <= ExpectedSize(u.s) - u.s.receivedSize
    ensures var (s, k, r) := TakeImage(u.s, u.k, image);
            if r == OK then
              Inv(u.(s := s, k := k, accepted := u.accepted + image)) && s == u.s.(receivedSize := s.receivedSize)
            else Inv(u.(s := s, k := k)) && !s.active && r != COMPLETE
  {
    assert u.accepted + [] == u.accepted;
    if image != [] {
      if !u.s.sinkStarted {
        FailKeeps(u, SINK_WRITE_FAILED);
      } else {
        var call := Write(image, Answer(u.k));
        var k := Log(u.k, call);
        FollowLog(u.k, call);
        if Answer(u.k) {
          WriteOpens(u, image);
        } else {
          FailKeeps(u.(k := k), SINK_WRITE_FAILED);
        }
      }
    }
  }

  lemma InvParts(u: Upload)
    requires Inv(u)
    ensures WellFormed(u.s) && u.base <= |u.k.calls| && Follow(u.k.calls) == Some(u.s.sinkStarted)
  {
  }

  lemma ConsumeKeeps(u: Upload, id: U32, index: nat, data: seq<Byte>, final: bool, now: U32)
    requires Inv(u)
    ensures WellFormed(u.s)
    ensures var (s, k, r) := Consume(u.s, u.k, id, index, data, final, now);
            var u' := u.(s := s, k := k, accepted := if r == OK || r == COMPLETE then u.accepted + data else u.accepted);
            Inv(u') && (r == COMPLETE ==> Delivered(u') && !s.active)
  {
    hide TakeHeader, TakeImage, Conclude, Inv, Delivered, Follow;
    InvParts(u);
    if u.s.active && id == u.s.sessionId {
      if TimedOut(u.s, now) || index != u.s.receivedSize || data == [] || |data| > ExpectedSize(u.s) - u.s.receivedSize {
        FailKeeps(u, EXPIRED);
      } else {
        var part := HeaderPart(u.s, data);
        var image := data[|part|..];
        TakeHeaderKeeps(u, part);
        var (s1, k1, r1) := TakeHeader(u.s, u.k, part);
        if r1 == OK {
          var u1 := u.(s := s1, k := k1, accepted := u.accepted + part);
          ReceivedAfterHeader(u, part);
          TakeImageKeeps(u1, image);
          var (s2, k2, r2) := TakeImage(s1, k1, image);
          if r2 == OK {
            assert u.accepted + part + image == u.accepted + data;
            var u2 := u.(s := s2, k := k2, accepted := u.accepted + data);
            Touch(u2, now);
            ConcludeKeeps(u2.(s := s2.(lastActivityMs := now)), id, s2.receivedSize, now);
            var (s3, k3, _) := Conclude(s2.(lastActivityMs := now), k2, id, s2.receivedSize, now);
            if final {
              Forget(u.(s := s3, k := k3, accepted := u.accepted + data), u.accepted);
            }
          } else {
            Forget(u1.(s := s2, k := k2), u.accepted);
          }
        }
      }
    }
  }

  lemma Forget(u: Upload, accepted: seq<Byte>)
    requires Inv(u) && !u.s.active
    ensures Inv(u.(accepted := accepted))
  {
  }

  lemma Touch(u: Upload, now: U32)
    requires Inv(u)
    ensures Inv(u.(s := u.s.(lastActivityMs := now)))
  {
  }

  lemma ReceivedAfterHeader(u: Upload, part: seq<Byte>)
    requires u.s.active && WellFormed(u.s)
    ensures var (s, k, r) := TakeHeader(u.s, u.k, part); r == OK ==> s.receivedSize == u.s.receivedSize + |part|
  {
  }

  lemma StepKeeps(u: Upload, c: Call)
    requires Inv(u)
    ensures WellFormed(u.s)
    ensures var (u', r) := Step(u, c); Inv(u') && (r == COMPLETE ==> Delivered(u') && !u'.s.active)
  {
    InvParts(u);
    hide Consume, Conclude, Start, Inv, Delivered, Follow;
    match c
    case StartCall(_, _, _, _, _, _, _) => StartKeeps(u, c);
    case ConsumeCall(id, index, data, final, now) => ConsumeKeeps(u, id, index, data, final, now);
    case FinishCall(id, index, now) => ConcludeKeeps(u, id, index, now);
    case ExpireCall(_) => FailKeeps(u, EXPIRED);
    case CancelCall(_) => FailKeeps(u, NOT_ACTIVE);
  }

  function Run(u: Upload, calls: seq<Call>): (r: (Upload, seq<UploadResult>))
    requires Inv(u)
    ensures Inv(r.0) && |r.1| == |calls|
    decreases |calls|
  {
    if calls == [] then (u, [])
    else
      var (u1, rs) := Run(u, calls[..|calls| - 1]);
      StepKeeps(u1, calls[|calls| - 1]);
      var (u2, r) := Step(u1, calls[|calls| - 1]);
      (u2, rs + [r])
  }

  const FRESH := Upload(Session(NO_PACKAGE, Refused(TRUST_UNAVAILABLE), 0, 0, 0, false, false), Sink([], []), [], [], 0)

  // Over every run of calls from a fresh session, whatever the sink answers: every opened image is
  // closed by exactly one finish or abort once the session is over, and a run that ends in
  // COMPLETE delivered exactly the authorised header and image, however it was split.
  lemma CompleteDelivers(answers: seq<bool>, calls: seq<Call>)
    requires calls != []
    ensures Inv(FRESH.(k := Sink([], answers)))
    ensures var (u, rs) := Run(FRESH.(k := Sink([], answers)), calls);
            && Follow(u.k.calls) == Some(u.s.sinkStarted)
            && (!u.s.active ==> Follow(u.k.calls) == Some(false))
            && (rs[|rs| - 1] == COMPLETE ==> Delivered(u) && !u.s.active)
  {
    var u0 := FRESH.(k := Sink([], answers));
    var (u1, rs) := Run(u0, calls[..|calls| - 1]);
    InvParts(u1);
    StepKeeps(u1, calls[|calls| - 1]);
    InvParts(Step(u1, calls[|calls| - 1]).0);
    hide Step, Inv, Delivered, Follow;
  }

  // ---------------------------------------------------------------- and such uploads do complete

  // A chunk of the upload and when it arrives.
  datatype Chunk = Chunk(data: seq<Byte>, now: U32)

  function Join(chunks: seq<Chunk>): seq<Byte> {
    if chunks == [] then [] else chunks[0].data + Join(chunks[1..])
  }

  // Send the chunks one after the other, each at the offset reached, and then finish.
  function Feed(s: Session, k: Sink, chunks: seq<Chunk>, end: U32): (Session, Sink, UploadResult)
    requires WellFormed(s)
    decreases |chunks|
  {
    if chunks == [] then Conclude(s, k, s.sessionId, s.receivedSize, end)
    else
      var (s1, k1, r) := Consume(s, k, s.sessionId, s.receivedSize, chunks[0].data, false, chunks[0].now);
      if r != OK || !WellFormed(s1) then (s1, k1, r) else Feed(s1, k1, chunks[1..], end)
  }

  // No call comes later than the timeout after the one before it.
  predicate InTime(last: U32, chunks: seq<Chunk>, end: U32)
    decreases |chunks|
  {
    if chunks == [] then Wrap32(end - last) <= TIMEOUT_MS
    else Wrap32(chunks[0].now - last) <= TIMEOUT_MS && InTime(chunks[0].now, chunks[1..], end)
  }

  // What is still missing.
  predicate Pending(s: Session, image: seq<Byte>, rest: seq<Byte>) {
    && s.active && WellFormed(s) && |image| == s.package.imageSize
    && s.receivedSize + |rest| == ExpectedSize(s)
    && (s.sinkStarted <==> s.receivedSize >= HEADER_SIZE)
    && rest == (HeaderBytes(s) + image)[s.receivedSize..]
  }

  lemma ChunkInPlace(s: Session, image: seq<Byte>, chunk: seq<Byte>, rest: seq<Byte>)
    requires Pending(s, image, chunk + rest)
    ensures var part := HeaderPart(s, chunk);
            && (part == [] || HasAt(HeaderBytes(s), s.receivedSize, part))
            && rest == (HeaderBytes(s) + image)[s.receivedSize + |chunk|..]
            && |part| <= |chunk| <= ExpectedSize(s) - s.receivedSize
  {
    var all := HeaderBytes(s) + image;
    var part := HeaderPart(s, chunk);
    assert (chunk + rest)[..|chunk|] == chunk && (chunk + rest)[|chunk|..] == rest;
    if part != [] {
      HeaderSlice(HeaderBytes(s), image, s.receivedSize, s.receivedSize + |part|);
      assert part == all[s.receivedSize..s.receivedSize + |part|];
    }
  }

  lemma ChunkAccepted(s: Session, k: Sink, image: seq<Byte>, chunk: seq<Byte>, rest: seq<Byte>, now: U32)
    requires Pending(s, image, chunk + rest) && k.answers == [] && chunk != [] && !TimedOut(s, now)
    ensures var (s1, k1, r) := Consume(s, k, s.sessionId, s.receivedSize, chunk, false, now);
            r == OK && k1.answers == [] && Pending(s1, image, rest) && s1.lastActivityMs == now &&
            s1.sessionId == s.sessionId
  {
    ChunkInPlace(s, image, chunk, rest);
    hide HasAt, HeaderBytes;
    var (s1, k1, r1) := TakeHeader(s, k, HeaderPart(s, chunk));
    assert r1 == OK && k1.answers == [] && s1.package == s.package;
  }

  // An upload of the header and the image, however it is cut into chunks, completes exactly when no
  // call is late; otherwise it expires.
  lemma {:induction false} FeedCompletes(s: Session, k: Sink, image: seq<Byte>, chunks: seq<Chunk>, end: U32)
    requires Pending(s, image, Join(chunks)) && k.answers == []
    requires forall i | 0 <= i < |chunks| :: chunks[i].data != []
    ensures Feed(s, k, chunks, end).2 == if InTime(s.lastActivityMs, chunks, end) then COMPLETE else EXPIRED
    decreases |chunks|
  {
    if chunks != [] {
      var c := chunks[0];
      if TimedOut(s, c.now) {
        LateChunk(s, k, image, c.data, Join(chunks[1..]), c.now);
        hide Consume, Pending;
      } else {
        ChunkAccepted(s, k, image, c.data, Join(chunks[1..]), c.now);
        hide Consume, Pending;
        var (s1, k1, _) := Consume(s, k, s.sessionId, s.receivedSize, c.data, false, c.now);
        FeedCompletes(s1, k1, image, chunks[1..], end);
      }
    }
  }

  lemma LateChunk(s: Session, k: Sink, image: seq<Byte>, chunk: seq<Byte>, rest: seq<Byte>, now: U32)
    requires Pending(s, image, chunk + rest) && TimedOut(s, now)
    ensures Consume(s, k, s.sessionId, s.receivedSize, chunk, false, now).2 == EXPIRED
  {
    hide TakeHeader;
  }
}
