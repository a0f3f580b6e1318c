/** The chunked upload of a signed package: what arrives is compared with the authorised header
    and the image is streamed into a sink. */
module UploadSession {
  import opened Wrappers
  import opened Bytes
  import opened FirmwareTrust
  import opened PackageHeader
  import FirmwareKeyring

  const TIMEOUT_MS := 120000

  datatype UploadResult =
    | OK | COMPLETE | BUSY | NOT_ACTIVE | SESSION_MISMATCH | EXPIRED | OFFSET_MISMATCH | HEADER_MISMATCH
    | SIZE_MISMATCH | TRUST_REJECTED | SINK_BEGIN_FAILED | SINK_WRITE_FAILED | SINK_FINISH_FAILED

  // The calls a sink saw, with its answers.
  datatype SinkCall =
    | Begin(imageSize: nat, ok: bool)
    | Write(data: seq<Byte>, ok: bool)
    | Finish(package: Package, decision: Decision, ok: bool)
    | Abort

  // The sink's answers to come; it agrees once they run out.
  datatype Sink = Sink(calls: seq<SinkCall>, answers: seq<bool>)

  function Answer(k: Sink): bool {
    k.answers == [] || k.answers[0]
  }

  function Log(k: Sink, call: SinkCall): Sink {
    Sink(k.calls + [call], if call.Abort? || k.answers == [] then k.answers else k.answers[1..])
  }

  const NO_PACKAGE := Package(RELEASE, 0, 0, 0, NO_ID, NO_ID, RELEASE, NO_ID, Zeros(65), [], [])

  datatype Session = Session(
    package: Package, decision: Decision, sessionId: U32, lastActivityMs: U32, receivedSize: nat,
    active: bool, sinkStarted: bool)

  function HeaderBytes(s: Session): seq<Byte> {
    s.package.signedBytes + s.package.signature
  }

  function ExpectedSize(s: Session): nat {
    HEADER_SIZE + s.package.imageSize
  }

  // A session that `Start` can produce.
  predicate WellFormed(s: Session) {
    s.active ==>
      |s.package.signedBytes| == SIGNED_SIZE && |s.package.signature| == SIGNATURE_SIZE && s.receivedSize <= ExpectedSize(s)
  }

  predicate TimedOut(s: Session, now: U32) {
    Wrap32(now - s.lastActivityMs) > TIMEOUT_MS
  }

  function Fail(s: Session, k: Sink): (Session, Sink) {
    (s.(active := false, sinkStarted := false), if s.sinkStarted then Log(k, Abort) else k)
  }

  function Start(s: Session, header: seq<Byte>, id: U32, now: U32, trust: TrustState, rootId: KeyId,
                 rootKey: PublicKey, v: Verifier): (Session, UploadResult) {
    if s.active then (s, BUSY)
    else if id == 0 then (s, SESSION_MISMATCH)
    else
      var parsed := ParseHeader(header);
      if !parsed.Parsed? then (s, HEADER_MISMATCH)
      else
        var decision := Evaluate(parsed.package, trust, rootId, rootKey, v);
        if decision.Refused? then (s.(decision := decision), TRUST_REJECTED)
        else (Session(parsed.package, decision, id, now, 0, true, false), OK)
  }

  function Conclude(s: Session, k: Sink, id: U32, index: nat, now: U32): (Session, Sink, UploadResult) {
    if !s.active then (s, k, NOT_ACTIVE)
    else if id != s.sessionId then (s, k, SESSION_MISMATCH)
    else if TimedOut(s, now) then Failed(s, k, EXPIRED)
    else if index != s.receivedSize then Failed(s, k, OFFSET_MISMATCH)
    else if s.receivedSize != ExpectedSize(s) || !s.sinkStarted then Failed(s, k, SIZE_MISMATCH)
    else
      var k1 := Log(k, Finish(s.package, s.decision, Answer(k)));
      if !Answer(k) then Failed(s, k1, SINK_FINISH_FAILED)
      else (s.(active := false, sinkStarted := false), k1, COMPLETE)
  }

  function Failed(s: Session, k: Sink, r: UploadResult): (Session, Sink, UploadResult) {
    var (s1, k1) := Fail(s, k);
    (s1, k1, r)
  }

  // The part of a chunk that is still header.
  function HeaderPart(s: Session, data: seq<Byte>): seq<Byte> {
    if s.receivedSize >= HEADER_SIZE then []
    else if |data| <= HEADER_SIZE - s.receivedSize then data
    else data[..HEADER_SIZE - s.receivedSize]
  }

  // The header part of a chunk is compared, and at its end the sink is opened.
  function TakeHeader(s: Session, k: Sink, part: seq<Byte>): (Session, Sink, UploadResult)
    requires s.active && WellFormed(s)
  {
    if part == [] then (s, k, OK)
    else if !HasAt(HeaderBytes(s), s.receivedSize, part) then Failed(s, k, HEADER_MISMATCH)
    else
      var s1 := s.(receivedSize := s.receivedSize + |part|);
      if s1.receivedSize != HEADER_SIZE then (s1, k, OK)
      else
        var k1 := Log(k, Begin(s.package.imageSize, Answer(k)));
        if Answer(k) then (s1.(sinkStarted := true), k1, OK) else Failed(s1, k1, SINK_BEGIN_FAILED)
  }

  function TakeImage(s: Session, k: Sink, image: seq<Byte>): (Session, Sink, UploadResult) {
    if image == [] then (s, k, OK)
    else if !s.sinkStarted then Failed(s, k, SINK_WRITE_FAILED)
    else
      var k1 := Log(k, Write(image, Answer(k)));
      if Answer(k) then (s.(receivedSize := s.receivedSize + |image|), k1, OK) else Failed(s, k1, SINK_WRITE_FAILED)
  }

  function Consume(s: Session, k: Sink, id: U32, index: nat, data: seq<Byte>, final: bool, now: U32)
    : (Session, Sink, UploadResult)
    requires WellFormed(s)
  {
    if !s.active then (s, k, NOT_ACTIVE)
    else if id != s.sessionId then (s, k, SESSION_MISMATCH)
    else if TimedOut(s, now) then Failed(s, k, EXPIRED)
    else if index != s.receivedSize || data == [] then Failed(s, k, OFFSET_MISMATCH)
    else if |data| > ExpectedSize(s) - s.receivedSize then Failed(s, k, SIZE_MISMATCH)
    else
      var part := HeaderPart(s, data);
      var (s1, k1, r1) := TakeHeader(s, k, part);
      if r1 != OK then (s1, k1, r1)
      else
        var (s2, k2, r2) := TakeImage(s1, k1, data[|part|..]);
        if r2 != OK then (s2, k2, r2)
        else
          var s3 := s2.(lastActivityMs := now);
          if final then Conclude(s3, k2, id, s3.receivedSize, now) else (s3, k2, OK)
  }

  function Expire(s: Session, k: Sink, now: U32): (Session, Sink, bool) {
    if !s.active || !TimedOut(s, now) then (s, k, false)
    else var (s1, k1) := Fail(s, k); (s1, k1, true)
  }

  function Cancel(s: Session, k: Sink, id: U32): (Session, Sink, bool) {
    if !s.active || id != s.sessionId then (s, k, false)
    else var (s1, k1) := Fail(s, k); (s1, k1, true)
  }

  // ---------------------------------------------------------------- the session object

  class SinkObject {
    var calls: seq<SinkCall>
    var answers: seq<bool>

    function View(): Sink
      reads this
    {
      Sink(calls, answers)
    }

    method TakeAnswer(ghost call: SinkCall) returns (ok: bool)
      requires !call.Abort?
      modifies this`answers
      ensures ok == Answer(old(View())) && View() == Log(old(View()), call).(calls := old(calls))
    {
      ok := true;
      if answers != [] {
        ok := answers[0];
        answers := answers[1..];
      }
    }

    method BeginImage(imageSize: nat) returns (ok: bool)
      modifies this
      ensures ok == Answer(old(View())) && View() == Log(old(View()), Begin(imageSize, ok))
    {
      ok := TakeAnswer(Begin(imageSize, true));
      calls := calls + [Begin(imageSize, ok)];
    }

    method WriteImage(data: seq<Byte>) returns (ok: bool)
      modifies this
      ensures ok == Answer(old(View())) && View() == Log(old(View()), Write(data, ok))
    {
      ok := TakeAnswer(Write(data, true));
      calls := calls + [Write(data, ok)];
    }

    method FinishImage(package: Package, decision: Decision) returns (ok: bool)
      modifies this
      ensures ok == Answer(old(View())) && View() == Log(old(View()), Finish(package, decision, ok))
    {
      ok := TakeAnswer(Finish(package, decision, true));
      calls := calls + [Finish(package, decision, ok)];
    }

    method AbortImage()
      modifies this
      ensures View() == Log(old(View()), Abort)
    {
      calls := calls + [Abort];
    }
  }

  class UploadObject {
    var package: Package
    var decision: Decision
    var sessionId: U32
    var lastActivityMs: U32
    var receivedSize: nat
    var active: bool
    var sinkStarted: bool

    function View(): Session
      reads this
    {
      Session(package, decision, sessionId, lastActivityMs, receivedSize, active, sinkStarted)
    }

    constructor ()
      ensures !active && WellFormed(View())
    {
      package, decision, sessionId, lastActivityMs := NO_PACKAGE, Refused(TRUST_UNAVAILABLE), 0, 0;
      receivedSize, active, sinkStarted := 0, false, false;
    }

    method Begin(header: seq<Byte>, id: U32, now: U32, trust: FirmwareKeyring.Keyring, rootId: KeyId,
                 rootKey: PublicKey, v: Verifier) returns (r: UploadResult)
      requires trust.Valid() && WellFormed(View())
      modifies this
      ensures WellFormed(View())
      ensures (View(), r) == Start(old(View()), header, id, now, old(trust.View()), rootId, rootKey, v)
    {
      hide Evaluate;
      if active { return BUSY; }
      if id == 0 { return SESSION_MISMATCH; }
      var parsed := ParseHeader(header);
      if !parsed.Parsed? { return HEADER_MISMATCH; }
      ParsedParts(header);
      hide ParseHeader;
      var judged := trust.Evaluate(parsed.package, rootId, rootKey, v);
      decision := judged;
      if judged.Refused? { return TRUST_REJECTED; }
      package := parsed.package;
      sessionId := id;
      lastActivityMs := now;
      receivedSize := 0;
      active := true;
      sinkStarted := false;
      r := OK;
    }

    method FailWith(result: UploadResult, sink: SinkObject) returns (r: UploadResult)
      modifies this`active, this`sinkStarted, sink
      ensures (View(), sink.View(), r) == Failed(old(View()), old(sink.View()), result)
    {
      if sinkStarted {
        sink.AbortImage();
      }
      active := false;
      sinkStarted := false;
      r := result;
    }

    method Take(id: U32, index: nat, data: seq<Byte>, final: bool, now: U32, sink: SinkObject)
      returns (r: UploadResult)
      requires WellFormed(View())
      modifies this, sink
      ensures WellFormed(View())
      ensures (View(), sink.View(), r) == Consume(old(View()), old(sink.View()), id, index, data, final, now)
    {
      if !active { return NOT_ACTIVE; }
      if id != sessionId { return SESSION_MISMATCH; }
      if Wrap32(now - lastActivityMs) > TIMEOUT_MS {
        r := FailWith(EXPIRED, sink);
        return;
      }
      if index != receivedSize || |data| == 0 {
        r := FailWith(OFFSET_MISMATCH, sink);
        return;
      }
      var expectedSize := HEADER_SIZE + package.imageSize;
      if |data| > expectedSize - receivedSize {
        r := FailWith(SIZE_MISMATCH, sink);
        return;
      }
      hide HeaderBytes;
      var consumed := 0;
      if receivedSize < HEADER_SIZE {
        var headerRemaining := HEADER_SIZE - receivedSize;
        consumed := if headerRemaining < |data| then headerRemaining else |data|;
        assert data[..consumed] == HeaderPart(View(), data);
        r := CompareHeader(data[..consumed], sink);
        if r != OK { return; }
      }
      if consumed < |data| {
        r := StreamImage(data[consumed..], sink);
        if r != OK { return; }
      }
      lastActivityMs := now;
      if !final { return OK; }
      r := Done(id, receivedSize, now, sink);
    }

    method CompareHeader(part: seq<Byte>, sink: SinkObject) returns (r: UploadResult)
      requires WellFormed(View()) && active && part != [] && receivedSize + |part| <= HEADER_SIZE
      modifies this, sink
      ensures (View(), sink.View(), r) == TakeHeader(old(View()), old(sink.View()), part)
    {
      var same := MatchesHeader(part);
      if !same {
        r := FailWith(HEADER_MISMATCH, sink);
        return;
      }
      receivedSize := receivedSize + |part|;
      if receivedSize == HEADER_SIZE {
        var begun := sink.BeginImage(package.imageSize);
        if !begun {
          r := FailWith(SINK_BEGIN_FAILED, sink);
          return;
        }
        sinkStarted := true;
      }
      r := OK;
    }

    method StreamImage(image: seq<Byte>, sink: SinkObject) returns (r: UploadResult)
      requires image != []
      modifies this, sink
      ensures (View(), sink.View(), r) == TakeImage(old(View()), old(sink.View()), image)
    {
      var written := false;
      if sinkStarted {
        written := sink.WriteImage(image);
      }
      if !written {
        r := FailWith(SINK_WRITE_FAILED, sink);
        return;
      }
      receivedSize := receivedSize + |image|;
      r := OK;
    }

    // A chunk may cross from the signed bytes into the signature.
    method MatchesHeader(part: seq<Byte>) returns (same: bool)
      requires WellFormed(View()) && active && receivedSize < HEADER_SIZE && receivedSize + |part| <= HEADER_SIZE
      ensures same == HasAt(HeaderBytes(View()), receivedSize, part)
    {
      var inSigned := receivedSize < SIGNED_SIZE;
      var expected := if inSigned then package.signedBytes else package.signature;
      var offset := if inSigned then receivedSize else receivedSize - SIGNED_SIZE;
      var firstPart := if inSigned && SIGNED_SIZE - receivedSize < |part| then SIGNED_SIZE - receivedSize else |part|;
      ghost var all := HeaderBytes(View())[receivedSize..receivedSize + |part|];
      HeaderSlice(package.signedBytes, package.signature, receivedSize, receivedSize + firstPart);
      SliceCut(HeaderBytes(View()), receivedSize, receivedSize + |part|, firstPart);
      assert all[..firstPart] == expected[offset..offset + firstPart];
      assert part == part[..firstPart] + part[firstPart..] && all == all[..firstPart] + all[firstPart..];
      if part[..firstPart] != expected[offset..offset + firstPart] { return false; }
      if firstPart < |part| {
        HeaderSlice(package.signedBytes, package.signature, SIGNED_SIZE, receivedSize + |part|);
        assert all[firstPart..] == package.signature[..|part| - firstPart];
        if part[firstPart..] != package.signature[..|part| - firstPart] { return false; }
      }
      same := true;
    }

    method Done(id: U32, index: nat, now: U32, sink: SinkObject) returns (r: UploadResult)
      requires WellFormed(View())
      modifies this, sink
      ensures WellFormed(View())
      ensures (View(), sink.View(), r) == Conclude(old(View()), old(sink.View()), id, index, now)
    {
      if !active { return NOT_ACTIVE; }
      if id != sessionId { return SESSION_MISMATCH; }
      if Wrap32(now - lastActivityMs) > TIMEOUT_MS {
        r := FailWith(EXPIRED, sink);
        return;
      }
      if index != receivedSize {
        r := FailWith(OFFSET_MISMATCH, sink);
        return;
      }
      var expectedSize := HEADER_SIZE + package.imageSize;
      if receivedSize != expectedSize || !sinkStarted {
        r := FailWith(SIZE_MISMATCH, sink);
        return;
      }
      var finished := sink.FinishImage(package, decision);
      if !finished {
        r := FailWith(SINK_FINISH_FAILED, sink);
        return;
      }
      active := false;
      sinkStarted := false;
      r := COMPLETE;
    }

    method ExpireAt(now: U32, sink: SinkObject) returns (expired: bool)
      requires WellFormed(View())
      modifies this, sink
      ensures WellFormed(View())
      ensures (View(), sink.View(), expired) == Expire(old(View()), old(sink.View()), now)
    {
      if !active || Wrap32(now - lastActivityMs) <= TIMEOUT_MS { return false; }
      var _ := FailWith(EXPIRED, sink);
      expired := true;
    }

    method CancelSession(id: U32, sink: SinkObject) returns (cancelled: bool)
      requires WellFormed(View())
      modifies this, sink
      ensures WellFormed(View())
      ensures (View(), sink.View(), cancelled) == Cancel(old(View()), old(sink.View()), id)
    {
      if !active || id != sessionId { return false; }
      var _ := FailWith(NOT_ACTIVE, sink);
      cancelled := true;
    }
  }

  lemma HeaderSlice(a: seq<Byte>, b: seq<Byte>, i: nat, j: nat)
    requires i <= j <= |a| + |b|
    ensures j <= |a| ==> (a + b)[i..j] == a[i..j]
    ensures i >= |a| ==> (a + b)[i..j] == b[i - |a|..j - |a|]
  {
  }
}
