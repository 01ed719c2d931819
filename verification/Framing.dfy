/** The two framing machines of `ClientBuffer` on flat buffers: length-prefixed frames over a
    byte stream that is cut anywhere. */
module Framing {
  import opened Common
  import opened Buffers
  import opened SocketReads

  // ---- the wire format -------------------------------------------------------------------------

  /** `to_bytes(static_cast<uint16_t>(n))` on a little-endian machine. */
  function Header(n: nat): (h: Bytes)
    ensures |h| == 2
  {
    [n % 0x10000 % 0x100, n % 0x10000 / 0x100]
  }

  /** `from_bytes` into a zeroed uint16_t: a single byte sets the low half only. */
  function HeaderValue(h: Bytes): nat
    requires 1 <= |h| <= 2
  {
    var low: int, high: int := h[0], if |h| == 2 then h[1] else 0;
    low + 0x100 * high
  }

  lemma HeaderRoundTrip(n: nat)
    ensures HeaderValue(Header(n)) == n % 0x10000
  {
  }

  function Frame(payload: Bytes): Bytes {
    Header(|payload|) + payload
  }

  function Encode(frames: seq<Bytes>): Bytes {
    if frames == [] then [] else Frame(frames[0]) + Encode(frames[1..])
  }

  lemma {:induction false} EncodeAppend(a: seq<Bytes>, b: seq<Bytes>)
    ensures Encode(a + b) == Encode(a) + Encode(b)
  {
    if a == [] {
      assert a + b == b;
    } else {
      assert (a + b)[1..] == a[1..] + b;
      EncodeAppend(a[1..], b);
    }
  }

  lemma EncodeSnoc(a: seq<Bytes>, f: Bytes)
    ensures Encode(a + [f]) == Encode(a) + Frame(f)
  {
    EncodeAppend(a, [f]);
    assert Encode([f]) == Frame(f) + Encode([]);
    assert Frame(f) + [] == Frame(f);
  }

  /** A length that survives the 16-bit header and is not taken for "nothing yet". */
  predicate Framable(payload: Bytes) {
    1 <= |payload| <= 0xffff
  }

  predicate AllFramable(frames: seq<Bytes>) {
    forall i :: 0 <= i < |frames| ==> Framable(frames[i])
  }

  // ---- the receiving half ------------------------------------------------------------------------

  datatype Post = PacketReceive | PacketSend | Close

  datatype Rx = Rx(buffer: View, closed: bool, posts: seq<Post>)

  const IDLE_RX := Rx(View([], 0, Empty), false, [])

  /** First part of `recv()`: the header, when a new packet may begin. */
  function ReadHeader(rx: Rx, script: seq<Answer>, v: Vector): (Rx, seq<Answer>) {
    if rx.closed || rx.buffer.stage != Empty || !Plausible(2, script) then (rx, script)
    else
      var o := Drain(2, script);
      var h := Handed(o, v);
      (rx.(closed := o.closed,
           buffer := if h == [] then rx.buffer else rx.buffer.(max := HeaderValue(h), stage := Receiving)),
       o.rest)
  }

  /** Second part: as much of the payload as there is. */
  function ReadPayload(rx: Rx, script: seq<Answer>, v: Vector): Rx {
    if rx.closed || rx.buffer.stage != Receiving || |rx.buffer.bytes| > rx.buffer.max
       || !Plausible(rx.buffer.max - |rx.buffer.bytes|, script) then rx
    else
      var o := Drain(rx.buffer.max - |rx.buffer.bytes|, script);
      var got := Handed(o, v);
      if got == [] then rx.(closed := o.closed) else Appended(rx.(closed := o.closed), got)
  }

  /** The buffer with what arrived; a frame that becomes complete is announced. */
  function Appended(rx: Rx, got: Bytes): Rx {
    var bytes := rx.buffer.bytes + got;
    if |bytes| == rx.buffer.max
    then rx.(buffer := rx.buffer.(bytes := bytes, stage := Full), posts := rx.posts + [PacketReceive])
    else rx.(buffer := rx.buffer.(bytes := bytes))
  }

  /** `ClientBuffer::recv()`. */
  function Recv(rx: Rx, script: seq<Answer>, v: Vector): Rx {
    var (rx', rest) := ReadHeader(rx, script, v);
    var rx'' := ReadPayload(rx', rest, v);
    if rx''.closed then rx''.(posts := rx''.posts + [Close]) else rx''
  }

  /** `SimpleClient::recvData()`: hands over whatever is there. */
  function Take(rx: Rx): (Rx, Bytes) {
    (rx.(buffer := rx.buffer.(bytes := [], stage := Empty)), rx.buffer.bytes)
  }

  /** The stages mean what they say; in particular `remainingSize` never goes below zero. */
  predicate RxInv(rx: Rx) {
    match rx.buffer.stage
    case Empty => rx.buffer.bytes == []
    case Receiving =>
      |rx.buffer.bytes| <= rx.buffer.max && (rx.buffer.bytes != [] ==> |rx.buffer.bytes| < rx.buffer.max)
    case Full => rx.buffer.bytes != [] && |rx.buffer.bytes| == rx.buffer.max
    case Sending => false
  }

  lemma RecvKeepsInv(rx: Rx, script: seq<Answer>, v: Vector)
    requires RxInv(rx)
    ensures RxInv(Recv(rx, script, v))
    ensures Recv(rx, script, v).buffer.max <= 0xffff || Recv(rx, script, v).buffer.max == rx.buffer.max
  {
    var (rx', rest) := ReadHeader(rx, script, v);
    HeaderReadKeepsInv(rx, script, v);
    PayloadReadKeepsInv(rx', rest, v);
  }

  lemma HeaderReadKeepsInv(rx: Rx, script: seq<Answer>, v: Vector)
    requires RxInv(rx)
    ensures var rx' := ReadHeader(rx, script, v).0;
      RxInv(rx') && (rx'.buffer.max <= 0xffff || rx'.buffer.max == rx.buffer.max)
  {
  }

  lemma PayloadReadKeepsInv(rx: Rx, script: seq<Answer>, v: Vector)
    requires RxInv(rx)
    ensures RxInv(ReadPayload(rx, script, v)) && ReadPayload(rx, script, v).buffer.max == rx.buffer.max
  {
  }

  /** A frame of declared length 0 is never completed, whatever arrives. */
  lemma EmptyFrameIsStuck(rx: Rx, script: seq<Answer>, v: Vector)
    requires RxInv(rx) && !rx.closed && rx.buffer.stage == Receiving && rx.buffer.max == 0
    ensures Recv(rx, script, v) == rx
  {
  }

  /** Once closed, nothing more is read and no partial frame is ever completed. */
  lemma ClosedStaysClosed(rx: Rx, script: seq<Answer>, v: Vector)
    requires rx.closed
    ensures Recv(rx, script, v) == rx.(posts := rx.posts + [Close])
  {
  }

  // ---- reading and taking, over whole runs ---------------------------------------------------------

  /** A call of `recv()`, a call of `recvData`, or a failed `send` of the other half, which shares the
      flag `close`. */
  datatype RxEvent = Call(script: seq<Answer>) | TakeAll | SendFailed

  /** Bytes that left the socket through the header read and through the payload read. */
  function HeaderBytes(rx: Rx, script: seq<Answer>): Bytes {
    if rx.closed || rx.buffer.stage != Empty || !Plausible(2, script) then [] else Drain(2, script).received
  }

  function PayloadBytes(rx: Rx, script: seq<Answer>): Bytes {
    if rx.closed || rx.buffer.stage != Receiving || |rx.buffer.bytes| > rx.buffer.max
       || !Plausible(rx.buffer.max - |rx.buffer.bytes|, script) then []
    else Drain(rx.buffer.max - |rx.buffer.bytes|, script).received
  }

  /** Bytes that left the socket in one `recv()`. */
  function CallBytes(rx: Rx, script: seq<Answer>, v: Vector): Bytes {
    var (rx', rest) := ReadHeader(rx, script, v);
    HeaderBytes(rx, script) + PayloadBytes(rx', rest)
  }

  predicate ReadsHeader(rx: Rx) {
    !rx.closed && rx.buffer.stage == Empty
  }

  predicate ReadsPayload(rx: Rx) {
    !rx.closed && rx.buffer.stage == Receiving && |rx.buffer.bytes| <= rx.buffer.max
  }

  function Missing(rx: Rx): nat
    requires ReadsPayload(rx)
  {
    rx.buffer.max - |rx.buffer.bytes|
  }

  /** No `::recv` of the call returns more than it was asked for. */
  predicate PossibleCall(rx: Rx, script: seq<Answer>, v: Vector) {
    && (ReadsHeader(rx) ==> Plausible(2, script))
    && var (rx', rest) := ReadHeader(rx, script, v);
       ReadsPayload(rx') ==> Plausible(Missing(rx'), rest)
  }

  /** The header comes whole and undamaged, or not at all. */
  predicate FaithfulHeader(rx: Rx, script: seq<Answer>, v: Vector) {
    ReadsHeader(rx) && Plausible(2, script) && !Drain(2, script).closed ==>
      Drain(2, script).received == [] || (|Drain(2, script).received| == 2 && Undamaged(2, script, v))
  }

  /** The part of the payload that has come is undamaged. */
  predicate FaithfulPayload(rx: Rx, script: seq<Answer>, v: Vector) {
    ReadsPayload(rx) && Plausible(Missing(rx), script) && !Drain(Missing(rx), script).closed ==>
      Undamaged(Missing(rx), script, v)
  }

  predicate FaithfulCall(rx: Rx, script: seq<Answer>, v: Vector) {
    FaithfulHeader(rx, script, v) && FaithfulPayload(ReadHeader(rx, script, v).0, ReadHeader(rx, script, v).1, v)
  }

  /** A receiver, with the bytes it has taken from the socket and the frames it has handed over. */
  datatype Receiver = Receiver(rx: Rx, consumed: Bytes, handed: seq<Bytes>)

  function RxStep(s: Receiver, e: RxEvent, v: Vector): Receiver {
    match e
    case Call(script) => s.(rx := Recv(s.rx, script, v), consumed := s.consumed + CallBytes(s.rx, script, v))
    case TakeAll =>
      if s.rx.buffer.stage == Full then Receiver(Take(s.rx).0, s.consumed, s.handed + [Take(s.rx).1])
      else s.(rx := Take(s.rx).0)
    case SendFailed => s.(rx := s.rx.(closed := true))
  }

  predicate RxPossible(s: Receiver, e: RxEvent, v: Vector) {
    e.Call? ==> PossibleCall(s.rx, e.script, v)
  }

  /** Reads are faithful, and nobody takes from a half-received frame. */
  predicate Orderly(s: Receiver, e: RxEvent, v: Vector) {
    match e
    case Call(script) => FaithfulCall(s.rx, script, v)
    case TakeAll => s.rx.buffer.stage != Receiving
    case SendFailed => true
  }

  ghost predicate RxRun(s: Receiver, es: seq<RxEvent>, t: Receiver, v: Vector)
    decreases |es|
  {
    if es == [] then s == t
    else RxPossible(s, es[0], v) && Orderly(s, es[0], v) && RxRun(RxStep(s, es[0], v), es[1..], t, v)
  }

  const LISTENING := Receiver(IDLE_RX, [], [])

  /** The part of the stream that belongs to the frame in the buffer. */
  function Partial(v: View): Bytes {
    if v.stage == Empty then [] else Header(v.max) + v.bytes
  }

  function Receives(posts: seq<Post>): nat {
    if posts == [] then 0 else Receives(posts[..|posts| - 1]) + if posts[|posts| - 1] == PacketReceive then 1 else 0
  }

  /** The stream read so far is the frames handed over and the one in the buffer; after a close,
      the bytes of the last read are lost.  Each complete frame was announced once. */
  ghost predicate Aligned(s: Receiver) {
    && RxInv(s.rx) && s.rx.buffer.max <= 0xffff
    && (if s.rx.closed then Encode(s.handed) + Partial(s.rx.buffer) <= s.consumed
        else s.consumed == Encode(s.handed) + Partial(s.rx.buffer))
    && Receives(s.rx.posts) == |s.handed| + (if s.rx.buffer.stage == Full then 1 else 0)
  }

  /** Stream position of a receiver state, without its announcements. */
  ghost predicate Located(rx: Rx, consumed: Bytes, handed: seq<Bytes>) {
    && RxInv(rx) && rx.buffer.max <= 0xffff
    && (if rx.closed then Encode(handed) + Partial(rx.buffer) <= consumed
        else consumed == Encode(handed) + Partial(rx.buffer))
  }

  lemma HeaderReadMoves(rx: Rx, script: seq<Answer>, consumed: Bytes, handed: seq<Bytes>, v: Vector)
    requires Located(rx, consumed, handed) && ReadsHeader(rx) && Plausible(2, script) && !Drain(2, script).closed
    ensures |Handed(Drain(2, script), v)| <= 2
    ensures Located(ReadHeader(rx, script, v).0, consumed + Drain(2, script).received, handed) <==>
            Drain(2, script).received == HeaderTaken(Handed(Drain(2, script), v))
  {
    HeaderReadGives(rx, script, v);
    var o, rx' := Drain(2, script), ReadHeader(rx, script, v).0;
    var taken := HeaderTaken(Handed(o, v));
    assert Partial(rx.buffer) + taken == taken by {
      assert rx.buffer.stage == Empty;
    }
    LocatedMoves(rx, rx', consumed, o.received, taken, handed);
  }

  /** The header that a receiver makes of what `recv(2)` returns. */
  function HeaderTaken(h: Bytes): Bytes
    requires |h| <= 2
  {
    if h == [] then [] else Header(HeaderValue(h))
  }

  /** An open read of the header keeps the place in the stream exactly when the header comes whole and
      undamaged, or not at all. */
  lemma HeaderReadKeepsLocationIff(rx: Rx, script: seq<Answer>, consumed: Bytes, handed: seq<Bytes>, v: Vector)
    requires Located(rx, consumed, handed) && ReadsHeader(rx) && Plausible(2, script) && !Drain(2, script).closed
    ensures Located(ReadHeader(rx, script, v).0, consumed + HeaderBytes(rx, script), handed) <==>
      FaithfulHeader(rx, script, v)
  {
    assert HeaderBytes(rx, script) == Drain(2, script).received;
    HeaderReadMoves(rx, script, consumed, handed, v);
    HandedIsReceivedIff(2, script, v);
    var h := Handed(Drain(2, script), v);
    if h != [] {
      HeaderOf(h);
    }
  }

  lemma OpenIsLocatedIff(rx: Rx, consumed: Bytes, handed: seq<Bytes>)
    requires RxInv(rx) && rx.buffer.max <= 0xffff && !rx.closed
    ensures Located(rx, consumed, handed) <==> consumed == Encode(handed) + Partial(rx.buffer)
  {
  }

  lemma HeaderReadGives(rx: Rx, script: seq<Answer>, v: Vector)
    requires RxInv(rx) && rx.buffer.max <= 0xffff && ReadsHeader(rx) && Plausible(2, script) && !Drain(2, script).closed
    ensures var rx', h := ReadHeader(rx, script, v).0, Handed(Drain(2, script), v);
      && RxInv(rx') && rx'.buffer.max <= 0xffff && !rx'.closed && |h| <= 2
      && Partial(rx'.buffer) == HeaderTaken(h)
  {
    var rx', h := ReadHeader(rx, script, v).0, Handed(Drain(2, script), v);
    HandedIsReceivedIff(2, script, v);
    assert h != [] ==> Partial(rx'.buffer) == Header(HeaderValue(h)) + [];
  }

  lemma PayloadReadGives(rx: Rx, script: seq<Answer>, v: Vector)
    requires RxInv(rx) && rx.buffer.max <= 0xffff && ReadsPayload(rx) && Plausible(Missing(rx), script)
    requires !Drain(Missing(rx), script).closed
    ensures var rx' := ReadPayload(rx, script, v);
      && RxInv(rx') && rx'.buffer.max <= 0xffff && !rx'.closed
      && Partial(rx'.buffer) == Partial(rx.buffer) + Handed(Drain(Missing(rx), script), v)
  {
    var got := Handed(Drain(Missing(rx), script), v);
    HandedIsReceivedIff(Missing(rx), script, v);
    assert Header(rx.buffer.max) + (rx.buffer.bytes + got) == (Header(rx.buffer.max) + rx.buffer.bytes) + got;
  }

  /** In the terms of the socket: as written, the header must come at once, or end with a zero. */
  lemma HeaderReadKeepsLocationWhen(rx: Rx, script: seq<Answer>, consumed: Bytes, handed: seq<Bytes>)
    requires Located(rx, consumed, handed) && ReadsHeader(rx) && Plausible(2, script) && !Drain(2, script).closed
    ensures var received := Drain(2, script).received;
      Located(ReadHeader(rx, script, Shrinking).0, consumed + HeaderBytes(rx, script), handed) <==>
        received == [] || (|received| == 2 && (FilledAtOnce(2, script) || received[1] == 0))
  {
    HeaderReadKeepsLocationIff(rx, script, consumed, handed, Shrinking);
    if |Drain(2, script).received| == 2 {
      TwoBytesSurviveIff(script);
    }
  }

  lemma SameTail(c: Bytes, x: Bytes, y: Bytes)
    ensures c + x == c + y <==> x == y
  {
    assert (c + x)[|c|..] == x && (c + y)[|c|..] == y;
  }

  lemma SameExtension(c: Bytes, e: Bytes, p: Bytes, x: Bytes, g: Bytes)
    requires c == e + p
    ensures c + x == e + (p + g) <==> x == g
  {
    assert (e + p) + g == e + (p + g);
    SameTail(c, x, g);
  }

  lemma LocatedMoves(rx: Rx, rx': Rx, consumed: Bytes, x: Bytes, got: Bytes, handed: seq<Bytes>)
    requires Located(rx, consumed, handed) && !rx.closed
    requires RxInv(rx') && rx'.buffer.max <= 0xffff && !rx'.closed && Partial(rx'.buffer) == Partial(rx.buffer) + got
    ensures Located(rx', consumed + x, handed) <==> x == got
  {
    OpenIsLocatedIff(rx', consumed + x, handed);
    SameExtension(consumed, Encode(handed), Partial(rx.buffer), x, got);
  }

  lemma HeaderReadKeepsLocation(rx: Rx, script: seq<Answer>, consumed: Bytes, handed: seq<Bytes>, v: Vector)
    requires Located(rx, consumed, handed) && FaithfulHeader(rx, script, v) && PossibleCall(rx, script, v)
    ensures Located(ReadHeader(rx, script, v).0, consumed + HeaderBytes(rx, script), handed)
  {
    if !ReadsHeader(rx) {
      assert consumed + [] == consumed;
    } else if !Drain(2, script).closed {
      HeaderReadKeepsLocationIff(rx, script, consumed, handed, v);
    }
  }

  lemma PayloadReadMoves(rx: Rx, script: seq<Answer>, consumed: Bytes, handed: seq<Bytes>, v: Vector)
    requires Located(rx, consumed, handed) && ReadsPayload(rx) && Plausible(Missing(rx), script)
    requires !Drain(Missing(rx), script).closed
    ensures Located(ReadPayload(rx, script, v), consumed + Drain(Missing(rx), script).received, handed) <==>
            Handed(Drain(Missing(rx), script), v) == Drain(Missing(rx), script).received
  {
    PayloadReadGives(rx, script, v);
    var o, rx' := Drain(Missing(rx), script), ReadPayload(rx, script, v);
    LocatedMoves(rx, rx', consumed, o.received, Handed(o, v), handed);
  }

  /** An open read of the payload keeps the place in the stream exactly when it is undamaged. */
  lemma PayloadReadKeepsLocationIff(rx: Rx, script: seq<Answer>, consumed: Bytes, handed: seq<Bytes>, v: Vector)
    requires Located(rx, consumed, handed) && ReadsPayload(rx) && Plausible(Missing(rx), script)
    requires !Drain(Missing(rx), script).closed
    ensures Located(ReadPayload(rx, script, v), consumed + PayloadBytes(rx, script), handed) <==>
            Undamaged(Missing(rx), script, v)
  {
    assert PayloadBytes(rx, script) == Drain(Missing(rx), script).received;
    PayloadReadMoves(rx, script, consumed, handed, v);
    HandedIsReceivedIff(Missing(rx), script, v);
  }

  lemma PayloadReadKeepsLocation(rx: Rx, script: seq<Answer>, consumed: Bytes, handed: seq<Bytes>, v: Vector)
    requires Located(rx, consumed, handed) && FaithfulPayload(rx, script, v)
    requires ReadsPayload(rx) ==> Plausible(Missing(rx), script)
    ensures Located(ReadPayload(rx, script, v), consumed + PayloadBytes(rx, script), handed)
  {
    if !ReadsPayload(rx) {
      assert consumed + [] == consumed;
    } else if !Drain(Missing(rx), script).closed {
      PayloadReadKeepsLocationIff(rx, script, consumed, handed, v);
    } else {
      assert ReadPayload(rx, script, v).buffer == rx.buffer;
    }
  }

  lemma {:induction false} ReceivesSnoc(posts: seq<Post>, p: Post)
    ensures Receives(posts + [p]) == Receives(posts) + if p == PacketReceive then 1 else 0
  {
    assert (posts + [p])[..|posts|] == posts;
  }

  lemma ReadsAnnounce(rx: Rx, script: seq<Answer>, v: Vector)
    requires RxInv(rx)
    ensures var (rx', rest) := ReadHeader(rx, script, v);
      && rx'.posts == rx.posts && (rx'.buffer.stage == Full <==> rx.buffer.stage == Full)
    ensures var t := ReadPayload(rx, script, v);
      t.posts == rx.posts + if rx.buffer.stage != Full && t.buffer.stage == Full then [PacketReceive] else []
  {
  }

  /** The announcements of one call: one for a frame that becomes complete, none otherwise. */
  lemma CallAnnounces(rx: Rx, script: seq<Answer>, v: Vector)
    requires RxInv(rx)
    ensures Receives(Recv(rx, script, v).posts) ==
            Receives(rx.posts) + if rx.buffer.stage != Full && Recv(rx, script, v).buffer.stage == Full then 1 else 0
  {
    var (rx', rest) := ReadHeader(rx, script, v);
    ReadsAnnounce(rx, script, v);
    assert RxInv(rx');
    ReadsAnnounce(rx', rest, v);
    assert rx.posts + [] == rx.posts;
    ReceivesSnoc(rx.posts, PacketReceive);
    ReceivesSnoc(ReadPayload(rx', rest, v).posts, Close);
  }

  function Closes(posts: seq<Post>): nat {
    if posts == [] then 0 else Closes(posts[..|posts| - 1]) + if posts[|posts| - 1] == Close then 1 else 0
  }

  lemma ClosesSnoc(posts: seq<Post>, p: Post)
    ensures Closes(posts + [p]) == Closes(posts) + if p == Close then 1 else 0
  {
    assert (posts + [p])[..|posts|] == posts;
  }

  /** A call that finds the connection closed, or closes it, tells the session so, once. */
  lemma CallTellsClosure(rx: Rx, script: seq<Answer>, v: Vector)
    requires RxInv(rx)
    ensures Closes(Recv(rx, script, v).posts) == Closes(rx.posts) + if Recv(rx, script, v).closed then 1 else 0
  {
    var (rx', rest) := ReadHeader(rx, script, v);
    ReadsAnnounce(rx, script, v);
    HeaderReadKeepsInv(rx, script, v);
    ReadsAnnounce(rx', rest, v);
    assert rx.posts + [] == rx.posts;
    ClosesSnoc(rx.posts, PacketReceive);
    ClosesSnoc(ReadPayload(rx', rest, v).posts, Close);
  }

  /** The peer hangs up on an idle connection: the session is told in the same call. */
  lemma HangingUpIsTold(v: Vector)
    ensures Recv(IDLE_RX, [Eof], v) == Rx(IDLE_RX.buffer, true, [Close])
  {
    assert Drain(2, [Eof]) == Outcome([], 2, true, []);
  }

  /** The flag `close` is shared: after a failed send nothing more is read, whatever is called. */
  lemma {:induction false} NothingIsReadAfterFailure(s: Receiver, es: seq<RxEvent>, t: Receiver, v: Vector)
    requires RxRun(RxStep(s, SendFailed, v), es, t, v)
    ensures t.rx.closed && t.consumed == s.consumed
  {
    ClosedReadsNothing(RxStep(s, SendFailed, v), es, t, v);
  }

  lemma {:induction false} ClosedReadsNothing(s: Receiver, es: seq<RxEvent>, t: Receiver, v: Vector)
    requires s.rx.closed && RxRun(s, es, t, v)
    ensures t.rx.closed && t.consumed == s.consumed
    decreases |es|
  {
    if es != [] {
      assert s.consumed + [] == s.consumed;
      ClosedReadsNothing(RxStep(s, es[0], v), es[1..], t, v);
    }
  }

  lemma RecvIsTwoReads(rx: Rx, script: seq<Answer>, v: Vector)
    ensures var (rx', rest) := ReadHeader(rx, script, v);
      && Recv(rx, script, v).buffer == ReadPayload(rx', rest, v).buffer
      && Recv(rx, script, v).closed == ReadPayload(rx', rest, v).closed
      && CallBytes(rx, script, v) == HeaderBytes(rx, script) + PayloadBytes(rx', rest)
  {
  }

  lemma CallKeepsLocation(rx: Rx, script: seq<Answer>, consumed: Bytes, handed: seq<Bytes>, v: Vector)
    requires Located(rx, consumed, handed) && PossibleCall(rx, script, v) && FaithfulCall(rx, script, v)
    ensures Located(Recv(rx, script, v), consumed + CallBytes(rx, script, v), handed)
  {
    HeaderReadKeepsLocation(rx, script, consumed, handed, v);
    var (rx', rest) := ReadHeader(rx, script, v);
    PayloadReadKeepsLocation(rx', rest, consumed + HeaderBytes(rx, script), handed, v);
    PlaceAfterCall(rx, script, consumed, handed, v);
  }

  /** The place after a call is the place after its two reads. */
  lemma PlaceAfterCall(rx: Rx, script: seq<Answer>, consumed: Bytes, handed: seq<Bytes>, v: Vector)
    ensures var (rx', rest) := ReadHeader(rx, script, v);
      Located(Recv(rx, script, v), consumed + CallBytes(rx, script, v), handed) <==>
      Located(ReadPayload(rx', rest, v), consumed + HeaderBytes(rx, script) + PayloadBytes(rx', rest), handed)
  {
    var (rx', rest) := ReadHeader(rx, script, v);
    var head, tail := HeaderBytes(rx, script), PayloadBytes(rx', rest);
    assert consumed + (head + tail) == (consumed + head) + tail;
    RecvIsTwoReads(rx, script, v);
    SamePlace(ReadPayload(rx', rest, v), Recv(rx, script, v), (consumed + head) + tail, handed);
  }

  lemma SameHead(e: Bytes, x: Bytes, y: Bytes, head: Bytes, z: Bytes)
    requires |head| == 2 && |y| == |z|
    ensures e + (x + y) == e + (head + z) <==> x == head && y == z
  {
    SameTail(e, x + y, head + z);
    if x + y == head + z {
      assert |x| == 2;
      assert x == (x + y)[..2] && y == (x + y)[2..];
      assert head == (head + z)[..2] && z == (head + z)[2..];
    }
  }

  /** What a call that gets some of a header leaves in the buffer. */
  lemma CallGives(rx: Rx, script: seq<Answer>, v: Vector) returns (got: Bytes)
    requires RxInv(rx) && rx.buffer.max <= 0xffff && ReadsHeader(rx) && PossibleCall(rx, script, v)
    requires !Recv(rx, script, v).closed && Drain(2, script).received != []
    ensures !Drain(2, script).closed && 1 <= |Handed(Drain(2, script), v)| <= 2
    ensures var (rx', rest), h := ReadHeader(rx, script, v), Handed(Drain(2, script), v);
      && Partial(Recv(rx, script, v).buffer) == Header(HeaderValue(h)) + got
      && |got| == |PayloadBytes(rx', rest)|
  {
    var (rx', rest) := ReadHeader(rx, script, v);
    assert !Drain(2, script).closed;
    HandedIsReceivedIff(2, script, v);
    HeaderReadGives(rx, script, v);
    assert ReadsPayload(rx') && !Drain(Missing(rx'), rest).closed;
    PayloadReadGives(rx', rest, v);
    HandedIsReceivedIff(Missing(rx'), rest, v);
    got := Handed(Drain(Missing(rx'), rest), v);
    RecvIsTwoReads(rx, script, v);
  }

  /** A header taken wrongly is not made good by the payload. */
  lemma WrongHeaderStaysWrong(rx: Rx, script: seq<Answer>, consumed: Bytes, handed: seq<Bytes>, v: Vector)
    requires Located(rx, consumed, handed) && ReadsHeader(rx) && PossibleCall(rx, script, v)
    requires !Recv(rx, script, v).closed && !FaithfulHeader(rx, script, v)
    ensures !Located(Recv(rx, script, v), consumed + CallBytes(rx, script, v), handed)
  {
    var (rx', rest) := ReadHeader(rx, script, v);
    var got := CallGives(rx, script, v);
    var h := Handed(Drain(2, script), v);
    HandedIsReceivedIff(2, script, v);
    HeaderOf(h);
    assert consumed == Encode(handed) by {
      OpenIsLocatedIff(rx, consumed, handed);
      assert Encode(handed) + [] == Encode(handed);
    }
    SameHead(consumed, HeaderBytes(rx, script), PayloadBytes(rx', rest), Header(HeaderValue(h)), got);
    OpenMustMatch(Recv(rx, script, v), consumed + CallBytes(rx, script, v), handed);
  }

  lemma HeaderOf(h: Bytes)
    requires 1 <= |h| <= 2
    ensures |h| == 2 ==> Header(HeaderValue(h)) == h
  {
    assert |h| == 2 ==> h == [h[0], h[1]];
  }

  lemma OpenMustMatch(rx: Rx, consumed: Bytes, handed: seq<Bytes>)
    requires !rx.closed && consumed != Encode(handed) + Partial(rx.buffer)
    ensures !Located(rx, consumed, handed)
  {
  }

  /** A call that leaves the connection open keeps the place in the stream exactly when both its reads
      are faithful. */
  lemma CallKeepsLocationIff(rx: Rx, script: seq<Answer>, consumed: Bytes, handed: seq<Bytes>, v: Vector)
    requires Located(rx, consumed, handed) && PossibleCall(rx, script, v) && !Recv(rx, script, v).closed
    ensures Located(Recv(rx, script, v), consumed + CallBytes(rx, script, v), handed) <==> FaithfulCall(rx, script, v)
  {
    if FaithfulCall(rx, script, v) {
      CallKeepsLocation(rx, script, consumed, handed, v);
    } else if !FaithfulHeader(rx, script, v) {
      WrongHeaderStaysWrong(rx, script, consumed, handed, v);
    } else {
      HeaderReadKeepsLocation(rx, script, consumed, handed, v);
      var (rx', rest) := ReadHeader(rx, script, v);
      WrongPayloadAlone(rx', rest, consumed + HeaderBytes(rx, script), handed, v);
      PlaceAfterCall(rx, script, consumed, handed, v);
    }
  }

  lemma WrongPayloadAlone(rx: Rx, script: seq<Answer>, consumed: Bytes, handed: seq<Bytes>, v: Vector)
    requires Located(rx, consumed, handed) && !FaithfulPayload(rx, script, v)
    ensures !Located(ReadPayload(rx, script, v), consumed + PayloadBytes(rx, script), handed)
  {
    PayloadReadKeepsLocationIff(rx, script, consumed, handed, v);
  }

  lemma SamePlace(rx: Rx, rx': Rx, consumed: Bytes, handed: seq<Bytes>)
    requires rx'.buffer == rx.buffer && rx'.closed == rx.closed
    ensures Located(rx, consumed, handed) <==> Located(rx', consumed, handed)
  {
  }

  lemma CallKeepsAligned(s: Receiver, script: seq<Answer>, v: Vector)
    requires Aligned(s) && PossibleCall(s.rx, script, v) && FaithfulCall(s.rx, script, v)
    ensures Aligned(RxStep(s, Call(script), v))
  {
    CallKeepsLocation(s.rx, script, s.consumed, s.handed, v);
    CallAnnounces(s.rx, script, v);
    FullStaysFull(s.rx, script, v);
  }

  lemma FullStaysFull(rx: Rx, script: seq<Answer>, v: Vector)
    ensures rx.buffer.stage == Full ==> Recv(rx, script, v).buffer == rx.buffer
  {
  }

  lemma TakeKeepsAligned(s: Receiver, v: Vector)
    requires Aligned(s) && s.rx.buffer.stage != Receiving
    ensures Aligned(RxStep(s, TakeAll, v))
  {
    if s.rx.buffer.stage == Full {
      var f := s.rx.buffer.bytes;
      EncodeSnoc(s.handed, f);
      assert Partial(s.rx.buffer) == Frame(f);
      assert Encode(s.handed + [f]) + [] == Encode(s.handed + [f]);
    }
  }

  lemma RxStepKeepsAligned(s: Receiver, e: RxEvent, v: Vector)
    requires Aligned(s) && RxPossible(s, e, v) && Orderly(s, e, v)
    ensures Aligned(RxStep(s, e, v))
  {
    match e {
      case Call(script) => CallKeepsAligned(s, script, v);
      case TakeAll => TakeKeepsAligned(s, v);
      case SendFailed => assert Aligned(s.(rx := s.rx.(closed := true)));
    }
  }

  lemma {:induction false} RxRunKeepsAligned(s: Receiver, es: seq<RxEvent>, t: Receiver, v: Vector)
    requires Aligned(s) && RxRun(s, es, t, v)
    ensures Aligned(t)
    decreases |es|
  {
    if es != [] {
      RxStepKeepsAligned(s, es[0], v);
      RxRunKeepsAligned(RxStep(s, es[0], v), es[1..], t, v);
    }
  }

  // ---- exactly when the receiver keeps in step ------------------------------------------------------

  /** The environment is possible and the connection never closes. */
  predicate OpenThroughout(s: Receiver, es: seq<RxEvent>, v: Vector)
    decreases |es|
  {
    !s.rx.closed && (es != [] ==> RxPossible(s, es[0], v) && OpenThroughout(RxStep(s, es[0], v), es[1..], v))
  }

  predicate OrderlyThroughout(s: Receiver, es: seq<RxEvent>, v: Vector)
    decreases |es|
  {
    es != [] ==> Orderly(s, es[0], v) && OrderlyThroughout(RxStep(s, es[0], v), es[1..], v)
  }

  ghost predicate AlignedThroughout(s: Receiver, es: seq<RxEvent>, v: Vector)
    decreases |es|
  {
    Aligned(s) && (es != [] ==> AlignedThroughout(RxStep(s, es[0], v), es[1..], v))
  }

  lemma RxStepKeepsAlignedIff(s: Receiver, e: RxEvent, v: Vector)
    requires Aligned(s) && RxPossible(s, e, v) && !RxStep(s, e, v).rx.closed
    ensures Aligned(RxStep(s, e, v)) <==> Orderly(s, e, v)
  {
    match e {
      case Call(script) =>
        CallKeepsLocationIff(s.rx, script, s.consumed, s.handed, v);
        CallAnnounces(s.rx, script, v);
        FullStaysFull(s.rx, script, v);
      case TakeAll => TakeKeepsStepIff(s, v);
      case SendFailed =>
    }
  }

  /** As long as the connection stays open, the receiver is in step with the stream in all its states
      exactly when every header comes whole and undamaged, every payload undamaged, and nobody takes a
      frame that is half received. */
  lemma {:induction false} InStepIffOrderly(s: Receiver, es: seq<RxEvent>, v: Vector)
    requires Aligned(s) && OpenThroughout(s, es, v)
    ensures AlignedThroughout(s, es, v) <==> OrderlyThroughout(s, es, v)
    decreases |es|
  {
    if es != [] {
      RxStepKeepsAlignedIff(s, es[0], v);
      if Orderly(s, es[0], v) {
        InStepIffOrderly(RxStep(s, es[0], v), es[1..], v);
      }
    }
  }

  /** With the vector left at its length, every fragmentation is faithful but one: a call that gets a
      single byte of a header. */
  lemma IntendedCallIsFaithfulIff(rx: Rx, script: seq<Answer>)
    requires PossibleCall(rx, script, Whole)
    ensures FaithfulCall(rx, script, Whole) <==>
      !(ReadsHeader(rx) && !Drain(2, script).closed && |Drain(2, script).received| == 1)
  {
  }

  /** A run in which no call gets a single byte of a header, and nobody takes a half-received frame. */
  ghost predicate WholeHeadersRun(s: Receiver, es: seq<RxEvent>, t: Receiver)
    decreases |es|
  {
    if es == [] then s == t
    else
      && RxPossible(s, es[0], Whole)
      && (es[0].Call? && ReadsHeader(s.rx) && !Drain(2, es[0].script).closed ==> |Drain(2, es[0].script).received| != 1)
      && (es[0].TakeAll? ==> s.rx.buffer.stage != Receiving)
      && WholeHeadersRun(RxStep(s, es[0], Whole), es[1..], t)
  }

  /** So with the intended vector, FramesArriveInOrder is about exactly these runs. */
  lemma {:induction false} IntendedRunIsOrderlyIff(s: Receiver, es: seq<RxEvent>, t: Receiver)
    ensures RxRun(s, es, t, Whole) <==> WholeHeadersRun(s, es, t)
    decreases |es|
  {
    if es != [] && RxPossible(s, es[0], Whole) {
      if es[0].Call? {
        IntendedCallIsFaithfulIff(s.rx, es[0].script);
      }
      IntendedRunIsOrderlyIff(RxStep(s, es[0], Whole), es[1..], t);
    }
  }

  // ---- frames form a prefix code ---------------------------------------------------------------------

  /** What a receiver has is a beginning of what was sent, frame by frame. */
  predicate BeginningOf(handed: seq<Bytes>, v: View, sent: seq<Bytes>) {
    && handed <= sent
    && (v.stage != Empty ==>
          |handed| < |sent| && v.max == |sent[|handed|]| && v.bytes <= sent[|handed|])
    && (v.stage == Full ==> v.bytes == sent[|handed|])
  }

  /** Two streams that start with a header and agree as far as the first goes have equal headers. */
  lemma SameHeader(a: nat, x: Bytes, b: nat, y: Bytes)
    requires a <= 0xffff && b <= 0xffff && Header(a) + x <= Header(b) + y
    ensures a == b && x <= y
  {
    var p, q := Header(a) + x, Header(b) + y;
    assert p[0] == q[0] && p[1] == q[1];
    assert a == HeaderValue(Header(a)) && b == HeaderValue(Header(b));
    assert p[2..] == x && q[2..] == y;
    assert p == q[..|p|];
    assert x == y[..|x|];
  }

  /** A stream that begins a non-empty encoding with a whole header begins its first frame. */
  lemma FirstFrame(n: nat, x: Bytes, sent: seq<Bytes>)
    requires AllFramable(sent) && n <= 0xffff && Header(n) + x <= Encode(sent)
    ensures sent != [] && n == |sent[0]| && x <= sent[0] + Encode(sent[1..])
  {
    assert |Header(n) + x| >= 2;
    assert sent != [];
    assert Framable(sent[0]);
    assert Encode(sent) == Header(|sent[0]|) + (sent[0] + Encode(sent[1..]));
    SameHeader(n, x, |sent[0]|, sent[0] + Encode(sent[1..]));
  }

  lemma {:induction false} StreamsDecodeUniquely(handed: seq<Bytes>, v: View, sent: seq<Bytes>)
    requires AllFramable(sent)
    requires forall i :: 0 <= i < |handed| ==> |handed[i]| <= 0xffff
    requires v.stage != Empty ==> v.max <= 0xffff && |v.bytes| <= v.max
    requires v.stage == Full ==> |v.bytes| == v.max
    requires Encode(handed) + Partial(v) <= Encode(sent)
    ensures BeginningOf(handed, v, sent)
    decreases |handed|
  {
    if handed != [] {
      var rest := Encode(handed[1..]) + Partial(v);
      FirstOfStream(handed, Partial(v));
      FirstFrame(|handed[0]|, handed[0] + rest, sent);
      SamePrefix(handed[0], rest, sent[0], Encode(sent[1..]));
      StreamsDecodeUniquely(handed[1..], v, sent[1..]);
      BeginningCons(handed, v, sent);
    } else if v.stage != Empty {
      assert Encode(handed) + Partial(v) == Header(v.max) + v.bytes;
      FirstFrame(v.max, v.bytes, sent);
      assert v.bytes == (sent[0] + Encode(sent[1..]))[..|v.bytes|] == sent[0][..|v.bytes|];
    }
  }

  lemma FirstOfStream(handed: seq<Bytes>, partial: Bytes)
    requires handed != []
    ensures Encode(handed) + partial == Header(|handed[0]|) + (handed[0] + (Encode(handed[1..]) + partial))
  {
  }

  lemma BeginningCons(handed: seq<Bytes>, v: View, sent: seq<Bytes>)
    requires handed != [] && sent != [] && handed[0] == sent[0] && BeginningOf(handed[1..], v, sent[1..])
    ensures BeginningOf(handed, v, sent)
  {
    assert handed == [handed[0]] + handed[1..] && sent == [sent[0]] + sent[1..];
    assert handed[1..] == sent[1..][..|handed| - 1];
    assert handed == sent[..|handed|];
  }

  lemma SamePrefix(a: Bytes, x: Bytes, b: Bytes, y: Bytes)
    requires |a| == |b| && a + x <= b + y
    ensures a == b && x <= y
  {
    assert a == (a + x)[..|a|] && b == (b + y)[..|a|];
    assert (a + x) == (b + y)[..|a + x|];
    assert x == (a + x)[|a|..] && y == (b + y)[|a|..];
  }

  /** Framing under any fragmentation: however the stream is cut, as long as reads are faithful,
      the frames handed over are the first ones sent, the frame in the buffer is a beginning of the
      next one, and each complete frame has been announced exactly once. */
  lemma FramesArriveInOrder(es: seq<RxEvent>, t: Receiver, sent: seq<Bytes>, v: Vector)
    requires RxRun(LISTENING, es, t, v) && AllFramable(sent) && t.consumed <= Encode(sent)
    ensures BeginningOf(t.handed, t.rx.buffer, sent)
    ensures Receives(t.rx.posts) == |t.handed| + (if t.rx.buffer.stage == Full then 1 else 0)
    ensures t.consumed == Encode(sent) && !t.rx.closed && t.rx.buffer.stage == Empty ==> t.handed == sent
  {
    assert Aligned(LISTENING);
    RxRunKeepsAligned(LISTENING, es, t, v);
    HandedAreShort(LISTENING, es, t, v);
    var stream := Encode(t.handed) + Partial(t.rx.buffer);
    assert stream <= t.consumed <= Encode(sent);
    StreamsDecodeUniquely(t.handed, t.rx.buffer, sent);
    if |t.handed| < |sent| {
      EncodeGrows(t.handed, sent);
    }
  }

  lemma EncodeGrows(a: seq<Bytes>, b: seq<Bytes>)
    requires a <= b && |a| < |b|
    ensures |Encode(a)| < |Encode(b)|
  {
    var k := |a|;
    assert b == a + b[k..];
    EncodeAppend(a, b[k..]);
    assert |Encode(b[k..])| >= |Frame(b[k])|;
  }

  lemma {:induction false} HandedAreShort(s: Receiver, es: seq<RxEvent>, t: Receiver, v: Vector)
    requires Aligned(s) && RxRun(s, es, t, v)
    requires forall i :: 0 <= i < |s.handed| ==> |s.handed[i]| <= 0xffff
    ensures forall i :: 0 <= i < |t.handed| ==> |t.handed[i]| <= 0xffff
    decreases |es|
  {
    if es != [] {
      RxStepKeepsAligned(s, es[0], v);
      HandedAreShort(RxStep(s, es[0], v), es[1..], t, v);
    }
  }

  // ---- where the receiver departs from its intent ------------------------------------------------------

  /** Taking from the buffer keeps the receiver in step with the stream exactly when no frame is
      half received. */
  lemma TakeKeepsStepIff(s: Receiver, v: Vector)
    requires Aligned(s) && !s.rx.closed
    ensures Aligned(RxStep(s, TakeAll, v)) <==> s.rx.buffer.stage != Receiving
  {
    if s.rx.buffer.stage != Receiving {
      TakeKeepsAligned(s, v);
    } else {
      assert |s.consumed| > |Encode(s.handed)|;
      assert Encode(s.handed) + [] == Encode(s.handed);
    }
  }

  /** A frame of two bytes of which one has come: the receiver is in step, and would not be after
      `recvData`. */
  lemma TakingEarlyIsPossible() returns (t: Receiver)
    ensures RxRun(LISTENING, [Call([Got([2, 0]), Got([1]), Again])], t, Shrinking)
    ensures Aligned(t) && !Aligned(RxStep(t, TakeAll, Shrinking))
  {
    HalfAFrame();
    var e := Call([Got([2, 0]), Got([1]), Again]);
    t := RxStep(LISTENING, e, Shrinking);
    assert [e][1..] == [];
    assert Aligned(LISTENING);
    RxStepKeepsAligned(LISTENING, e, Shrinking);
    TakeKeepsStepIff(t, Shrinking);
  }

  lemma HalfAFrame()
    ensures var script := [Got([2, 0]), Got([1]), Again];
      && PossibleCall(IDLE_RX, script, Shrinking) && FaithfulCall(IDLE_RX, script, Shrinking)
      && Recv(IDLE_RX, script, Shrinking) == IDLE_RX.(buffer := View([1], 2, Receiving))
  {
    var script := [Got([2, 0]), Got([1]), Again];
    var rest := script[1..];
    assert rest == [Got([1]), Again] && rest[1..] == [Again];
    assert Drain(2, script) == Outcome([2, 0], 2, false, rest);
    assert Returned(Drain(2, script)) == [2, 0];
    var rx := IDLE_RX.(buffer := View([], 2, Receiving));
    assert ReadHeader(IDLE_RX, script, Shrinking) == (rx, rest);
    assert Drain(1, rest[1..]) == Outcome([], 1, false, []);
    assert Drain(2, rest) == Outcome([1] + [], 1, false, []);
    assert Returned(Drain(2, rest)) == [1] && [] + [1] == [1];
  }

  /** An empty frame arrives whole, and the receiver waits for its payload. */
  lemma EmptyFrameArrives(v: Vector)
    ensures var rx := Recv(IDLE_RX, [Got(Frame([]))], v);
      RxInv(rx) && !rx.closed && rx.buffer.stage == Receiving && rx.buffer.max == 0
  {
    WholeHeader([], v);
    assert Frame([]) == Header(0);
  }

  /** One frame, read as it was asked for: header, then everything the header announces. */
  function WholeReads(stream: Bytes): seq<Answer>
    requires |stream| >= 2
  {
    var n := HeaderValue(stream[..2]);
    [Got(stream[..2])] + if 1 <= n <= |stream| - 2 then [Got(stream[2..2 + n])] else []
  }

  lemma WholeHeader(payload: Bytes, v: Vector)
    ensures var script := WholeReads(Frame(payload));
      && var n := |payload| % 0x10000;
      && script == [Got(Header(|payload|))] + (if n > 0 then [Got(payload[..n])] else [])
      && ReadHeader(IDLE_RX, script, v) ==
         (IDLE_RX.(buffer := View([], n, Receiving)), if n > 0 then [Got(payload[..n])] else [])
  {
    var stream := Frame(payload);
    assert stream[..2] == Header(|payload|);
    HeaderRoundTrip(|payload|);
    var n := HeaderValue(stream[..2]);
    assert n <= |payload|;
    assert stream[2..2 + n] == payload[..n];
    var script := WholeReads(stream);
    assert script[0] == Got(Header(|payload|)) && Plausible(0, script[1..]) && Plausible(2, script);
    assert Drain(2, script) == Outcome(Header(|payload|), 2, false, script[1..]);
    assert Returned(Drain(2, script)) == Header(|payload|) + [] == Header(|payload|);
  }

  lemma WholePayload(got: Bytes, v: Vector)
    requires got != []
    ensures ReadPayload(IDLE_RX.(buffer := View([], |got|, Receiving)), [Got(got)], v) ==
            IDLE_RX.(buffer := View(got, |got|, Full), posts := [PacketReceive])
  {
    var script := [Got(got)];
    assert script[1..] == [] && Plausible(0, script[1..]) && Plausible(|got|, script);
    assert Drain(|got|, script) == Outcome(got, |got|, false, []);
    assert Returned(Drain(|got|, script)) == got + [] == got;
    assert [] + got == got;
  }

  /** Even with whole reads, a payload comes out as it was sent exactly when its length is between 1
      and 65535: the header counts modulo 65536 and an empty frame is never completed. */
  lemma FrameSurvivesIff(payload: Bytes, v: Vector)
    ensures var rx := Recv(IDLE_RX, WholeReads(Frame(payload)), v);
      rx.buffer.stage == Full && rx.buffer.bytes == payload <==> Framable(payload)
  {
    WholeFrame(payload, v);
    PrefixIsAllIff(payload, |payload| % 0x10000);
  }

  lemma PrefixIsAllIff(x: Bytes, n: nat)
    requires n <= |x|
    ensures x[..n] == x <==> n == |x|
  {
  }

  lemma WholeFrame(payload: Bytes, v: Vector)
    ensures var n := |payload| % 0x10000;
      Recv(IDLE_RX, WholeReads(Frame(payload)), v).buffer == View(payload[..n], n, if n > 0 then Full else Receiving)
  {
    var script, n := WholeReads(Frame(payload)), |payload| % 0x10000;
    WholeHeader(payload, v);
    RecvIsTwoReads(IDLE_RX, script, v);
    if n > 0 {
      WholePayload(payload[..n], v);
    }
  }

  /** A payload that arrives in two reads of one call is handed over with zeros in it. */
  lemma FragmentedPayloadIsDamaged()
    ensures var script := [Got([3, 0]), Got([1, 2]), Got([3])];
      && CallBytes(IDLE_RX, script, Shrinking) == Frame([1, 2, 3])
      && Recv(IDLE_RX, script, Shrinking).buffer == View([1, 0, 0], 3, Full)
  {
    var script := [Got([3, 0]), Got([1, 2]), Got([3])];
    HeaderOfThree(script, [Got([1, 2]), Got([3])]);
    PayloadOfThree();
    RecvIsTwoReads(IDLE_RX, script, Shrinking);
    assert Frame([1, 2, 3]) == [3, 0] + [1, 2, 3];
  }

  lemma PayloadOfThree()
    ensures var rx, rest := IDLE_RX.(buffer := View([], 3, Receiving)), [Got([1, 2]), Got([3])];
      PayloadBytes(rx, rest) == [1, 2, 3] && ReadPayload(rx, rest, Shrinking).buffer == View([1, 0, 0], 3, Full)
  {
    SplitReadCorrupts();
    assert [] + [1, 0, 0] == [1, 0, 0];
  }

  lemma HeaderOfThree(script: seq<Answer>, rest: seq<Answer>)
    requires script == [Got([3, 0])] + rest
    ensures Plausible(2, script) && HeaderBytes(IDLE_RX, script) == [3, 0]
    ensures ReadHeader(IDLE_RX, script, Shrinking) == (IDLE_RX.(buffer := View([], 3, Receiving)), rest)
  {
    assert script[1..] == rest && Plausible(0, rest);
    assert Drain(2, script) == Outcome([3, 0], 2, false, rest);
    assert Returned(Drain(2, script)) == [3, 0];
  }

  /** A header of which one byte has arrived is taken for the whole header. */
  lemma HalfHeaderIsTakenAsWhole(low: Byte, v: Vector)
    ensures Recv(IDLE_RX, [Got([low]), Again], v).buffer == View([], low, Receiving)
  {
    var script := [Got([low]), Again];
    assert script[1..] == [Again];
    assert Drain(1, script[1..]) == Outcome([], 1, false, []);
    assert Drain(2, script) == Outcome([low] + [], 1, false, []);
    assert Returned(Drain(2, script)) == [low];
    assert ReadHeader(IDLE_RX, script, v) == (IDLE_RX.(buffer := View([], low, Receiving)), []);
  }

  // ---- the sending half ----------------------------------------------------------------------------

  /** `wire` is what the socket has accepted. */
  datatype Tx = Tx(buffer: View, wire: Bytes, closed: bool, posts: seq<Post>)

  const IDLE_TX := Tx(View([], 0, Empty), [], false, [])

  /** First part of `send()`: the header goes in front of a full buffer. */
  function Prefixed(tx: Tx): Tx {
    if tx.closed || tx.buffer.stage != Full then tx
    else
      var bytes := Header(|tx.buffer.bytes|) + tx.buffer.bytes;
      tx.(buffer := View(bytes, |bytes|, Sending))
  }

  /** Second part, when the socket accepts `n` more bytes and then, if `broken`, fails. */
  function Transmitted(tx: Tx, n: nat, broken: bool): Tx
    requires n <= |tx.buffer.bytes|
  {
    if tx.closed || tx.buffer.stage != Sending then tx
    else
      var bytes := tx.buffer.bytes[n..];
      Tx(tx.buffer.(bytes := bytes, stage := if bytes == [] then Empty else Sending),
         tx.wire + tx.buffer.bytes[..n],
         broken && bytes != [],
         if bytes == [] then tx.posts + [PacketSend] else tx.posts)
  }

  lemma TransmittedNothing(tx: Tx)
    requires !tx.closed && tx.buffer.stage == Sending && tx.buffer.bytes != []
    ensures Transmitted(tx, 0, false) == tx
  {
    assert tx.wire + [] == tx.wire && tx.buffer.bytes[0..] == tx.buffer.bytes;
  }

  /** Bytes that go out in two portions go out as one. */
  lemma TransmittedTwice(tx: Tx, n: nat, k: nat, broken: bool)
    requires !tx.closed && tx.buffer.stage == Sending && n < |tx.buffer.bytes| && k <= |tx.buffer.bytes| - n
    ensures Transmitted(Transmitted(tx, n, false), k, broken) == Transmitted(tx, n + k, broken)
  {
    assert tx.buffer.bytes[n..][k..] == tx.buffer.bytes[n + k..];
    assert tx.wire + tx.buffer.bytes[..n] + tx.buffer.bytes[n..][..k] == tx.wire + tx.buffer.bytes[..n + k];
  }

  /** `ClientBuffer::send()`. */
  function Send(tx: Tx, n: nat, broken: bool): Tx
    requires n <= |Prefixed(tx).buffer.bytes|
  {
    Transmitted(Prefixed(tx), n, broken)
  }

  /** `SimpleClient::sendData` before it calls `send()`. */
  function Accept(tx: Tx, payload: Bytes): Tx {
    tx.(buffer := tx.buffer.(bytes := tx.buffer.bytes + payload, stage := Full))
  }

  /** Bytes still to be sent, with the header that is not there yet. */
  function Outstanding(v: View): Bytes {
    if v.stage == Full then Header(|v.bytes|) + v.bytes else v.bytes
  }

  function Sent(posts: seq<Post>): nat {
    if posts == [] then 0 else Sent(posts[..|posts| - 1]) + if posts[|posts| - 1] == PacketSend then 1 else 0
  }

  /** What is on the wire and what is outstanding are the accepted frames. */
  predicate InFrames(tx: Tx, accepted: seq<Bytes>) {
    tx.wire + Outstanding(tx.buffer) == Encode(accepted)
  }

  /** Conservation, with the meaning of the stages and one announcement for each complete frame. */
  predicate Conserved(tx: Tx, accepted: seq<Bytes>) {
    && InFrames(tx, accepted)
    && tx.buffer.stage != Receiving
    && (tx.buffer.stage == Empty ==> tx.buffer.bytes == [])
    && (tx.buffer.stage == Sending ==> tx.buffer.bytes != [])
    && Sent(tx.posts) + (if tx.buffer.stage == Empty then 0 else 1) == |accepted|
  }

  /** However little the socket takes, nothing is lost, reordered or repeated; in stage Sending
      there is always something to pop; and each frame that is complete is announced once. */
  lemma SendConserves(tx: Tx, accepted: seq<Bytes>, n: nat, broken: bool)
    requires Conserved(tx, accepted) && n <= |Prefixed(tx).buffer.bytes|
    ensures Conserved(Send(tx, n, broken), accepted)
  {
    var p := Prefixed(tx);
    assert Conserved(p, accepted);
    if !p.closed && p.buffer.stage == Sending {
      assert p.buffer.bytes == p.buffer.bytes[..n] + p.buffer.bytes[n..];
      assert p.wire + p.buffer.bytes == (p.wire + p.buffer.bytes[..n]) + p.buffer.bytes[n..];
      assert (p.posts + [PacketSend])[..|p.posts|] == p.posts;
    }
  }

  /** Accepting a payload keeps the stream a sequence of frames, whatever the payload. */
  ghost predicate AcceptsEverything(tx: Tx, accepted: seq<Bytes>) {
    forall payload {:trigger Accept(tx, payload)} :: Framable(payload) ==>
      InFrames(Accept(tx, payload), accepted + [payload])
  }

  lemma AcceptWhenIdle(tx: Tx, accepted: seq<Bytes>, payload: Bytes)
    requires Conserved(tx, accepted) && tx.buffer.stage == Empty
    ensures Conserved(Accept(tx, payload), accepted + [payload])
  {
    EncodeSnoc(accepted, payload);
    assert [] + payload == payload;
    assert tx.wire + [] == tx.wire;
  }

  /** A frame on its way: the byte that should begin the next header belongs to the frame, or to the
      header of both payloads together. */
  lemma BusyWhileSending(tx: Tx, accepted: seq<Bytes>)
    requires Conserved(tx, accepted) && tx.buffer.stage == Sending
    ensures tx.wire + Outstanding(Accept(tx, [7]).buffer) != Encode(accepted) + Frame([7])
         || tx.wire + Outstanding(Accept(tx, [7, 7]).buffer) != Encode(accepted) + Frame([7, 7])
  {
    NotBoth(tx.wire, tx.buffer.bytes, Encode(accepted));
  }

  lemma NotBoth(w: Bytes, r: Bytes, e: Bytes)
    requires w + r == e && |r| >= 1
    ensures w + (Header(|r + [7]|) + (r + [7])) != e + Frame([7])
         || w + (Header(|r + [7, 7]|) + (r + [7, 7])) != e + Frame([7, 7])
  {
    var k := |w| + |r|;
    assert (e + Frame([7]))[k] == 1 && (e + Frame([7, 7]))[k] == 2;
    ByteBehindFrame(w, Header(|r + [7]|), r, [7]);
    ByteBehindFrame(w, Header(|r + [7, 7]|), r, [7, 7]);
  }

  lemma ByteBehindFrame(w: Bytes, h: Bytes, r: Bytes, x: Bytes)
    requires |h| == 2 && |r| >= 1 && |x| >= 1
    ensures (w + (h + (r + x)))[|w| + |r|] == if |r| >= 2 then r[|r| - 2] else h[1]
  {
  }

  /** With a frame in the buffer, a payload of one byte or of two is not framed. */
  lemma BusyBufferSwallows(tx: Tx, accepted: seq<Bytes>)
    requires Conserved(tx, accepted) && tx.buffer.stage != Empty
    ensures !(InFrames(Accept(tx, [7]), accepted + [[7]]) && InFrames(Accept(tx, [7, 7]), accepted + [[7, 7]]))
  {
    EncodeSnoc(accepted, [7]);
    EncodeSnoc(accepted, [7, 7]);
    if tx.buffer.stage == Sending {
      BusyWhileSending(tx, accepted);
    } else {
      assert |tx.wire + Outstanding(Accept(tx, [7]).buffer)| != |Encode(accepted) + Frame([7])|;
    }
  }

  lemma BeginsWith(payload: Bytes, rest: Bytes)
    requires |payload| < 256
    ensures (Frame(payload) + rest)[0] == |payload|
  {
  }

  /** The stream begins with the length of the first frame. */
  lemma WrongFirstByte(tx: Tx, accepted: seq<Bytes>)
    requires tx.wire == [] && tx.buffer.stage == Full && accepted != []
    requires |tx.buffer.bytes| < 256 && |accepted[0]| < 256 && |tx.buffer.bytes| != |accepted[0]|
    ensures !InFrames(tx, accepted)
  {
    BeginsWith(accepted[0], Encode(accepted[1..]));
    BeginsWith(tx.buffer.bytes, []);
    assert Frame(tx.buffer.bytes) + [] == Frame(tx.buffer.bytes) == tx.wire + Outstanding(tx.buffer);
  }

  lemma HalfSent() returns (t: Sender)
    ensures TxRun(SILENT, [Submit([1]), Push(0, false)], t)
    ensures t.tx.buffer == View([1, 0, 1], 3, Sending) && t.tx.wire == [] && t.accepted == [[1]]
  {
    var s := TxStep(SILENT, Submit([1]));
    assert s == Sender(Accept(IDLE_TX, [1]), [[1]]);
    assert s.tx.buffer == View([1], 0, Full);
    t := TxStep(s, Push(0, false));
    assert [Submit([1]), Push(0, false)][1..] == [Push(0, false)] && [Push(0, false)][1..] == [];
  }

  /** A second frame accepted while the first waits for the socket is lost in it. */
  lemma SecondFrameIsSwallowed() returns (t: Sender)
    ensures TxRun(SILENT, [Submit([1]), Push(0, false)], t) && t.tx.buffer.stage == Sending
    ensures !InFrames(Accept(t.tx, [7]), t.accepted + [[7]])
  {
    t := HalfSent();
    WrongFirstByte(Accept(t.tx, [7]), t.accepted + [[7]]);
  }

  /** `sendData` keeps the frames apart for every payload exactly when no frame is in the buffer:
      a frame that is still being sent is swallowed by the next one's header. */
  lemma AcceptsEverythingIff(tx: Tx, accepted: seq<Bytes>)
    requires Conserved(tx, accepted)
    ensures AcceptsEverything(tx, accepted) <==> tx.buffer.stage == Empty
  {
    if tx.buffer.stage == Empty {
      forall payload {:trigger Accept(tx, payload)} | Framable(payload)
        ensures InFrames(Accept(tx, payload), accepted + [payload])
      {
        AcceptWhenIdle(tx, accepted, payload);
      }
    } else {
      assert Framable([7]) && Framable([7, 7]);
      BusyBufferSwallows(tx, accepted);
    }
  }

  // ---- sending, over whole runs --------------------------------------------------------------------

  /** A call of `sendData` on an idle buffer, the socket taking bytes, or the peer closing: a failed
      `recv` of the other half, which shares the flag `close`. */
  datatype TxEvent = Submit(payload: Bytes) | Push(n: nat, broken: bool) | RecvFailed

  datatype Sender = Sender(tx: Tx, accepted: seq<Bytes>)

  const SILENT := Sender(IDLE_TX, [])

  predicate TxPossible(s: Sender, e: TxEvent) {
    match e
    case Submit(_) => s.tx.buffer.stage == Empty
    case Push(n, _) => n <= |Prefixed(s.tx).buffer.bytes|
    case RecvFailed => true
  }

  function TxStep(s: Sender, e: TxEvent): Sender
    requires TxPossible(s, e)
  {
    match e
    case Submit(payload) => Sender(Accept(s.tx, payload), s.accepted + [payload])
    case Push(n, broken) => s.(tx := Send(s.tx, n, broken))
    case RecvFailed => s.(tx := s.tx.(closed := true))
  }

  predicate TxRun(s: Sender, es: seq<TxEvent>, t: Sender)
    decreases |es|
  {
    if es == [] then s == t else TxPossible(s, es[0]) && TxRun(TxStep(s, es[0]), es[1..], t)
  }

  /** Over every run of submissions and partial writes the wire carries a beginning of the frames
      accepted, all of them when the buffer is empty again. */
  lemma {:induction false} WireCarriesFrames(s: Sender, es: seq<TxEvent>, t: Sender)
    requires Conserved(s.tx, s.accepted) && TxRun(s, es, t)
    ensures Conserved(t.tx, t.accepted)
    ensures t.tx.wire <= Encode(t.accepted)
    ensures t.tx.buffer.stage == Empty ==> t.tx.wire == Encode(t.accepted)
    decreases |es|
  {
    if es != [] {
      match es[0] {
        case Submit(payload) => AcceptWhenIdle(s.tx, s.accepted, payload);
        case Push(n, broken) => SendConserves(s.tx, s.accepted, n, broken);
        case RecvFailed => assert Conserved(s.tx.(closed := true), s.accepted);
      }
      WireCarriesFrames(TxStep(s, es[0]), es[1..], t);
    } else {
      assert t.tx.wire + [] == t.tx.wire;
    }
  }

  /** And after a failed receive nothing more goes to the wire. */
  lemma NothingIsSentAfterFailure(s: Sender, es: seq<TxEvent>, t: Sender)
    requires TxRun(TxStep(s, RecvFailed), es, t)
    ensures t.tx.closed && t.tx.wire == s.tx.wire
  {
    ClosedSendsNothing(TxStep(s, RecvFailed), es, t);
  }

  lemma {:induction false} ClosedSendsNothing(s: Sender, es: seq<TxEvent>, t: Sender)
    requires s.tx.closed && TxRun(s, es, t)
    ensures t.tx.closed && t.tx.wire == s.tx.wire
    decreases |es|
  {
    if es != [] {
      ClosedSendsNothing(TxStep(s, es[0]), es[1..], t);
    }
  }
}
