/** The handshake as a distributed system: the server's session, the Java client's main, reader and
    writer threads with the flags they share, and the frames in flight.  Every access to a flag or a
    queue that threads share is a step of its own; opening or locking a frame, with the cipher state
    that it reads, is one step. */
module HandshakeSystem {
  import opened Common
  import opened Packets
  import opened Crypto
  import opened Protocol

  // ---- keys and frames ---------------------------------------------------------------------------

  /** What is needed to open a frame. */
  datatype Lock = Clear | ForServer | ForClient(key: Bytes) | UnderSession(key: Bytes)

  datatype Frame = Frame(lock: Lock, content: Content)

  function LockOf(o: Out, own: Bytes): Lock {
    match o.algorithm
    case NoCipher => Clear
    case ServerRSA => ForServer
    case OuterRSA => ForClient(if o.key.Some? then o.key.value else [])
    case AES => UnderSession(own)
  }

  /** The lock that the server opens when it handles a packet in its present stage. */
  function ServerOpens(s: Server): Lock {
    LockOf(Out(Readied(s).algorithm, s.outer, Content(UNDEFINED, [])), s.own)
  }

  // ---- the client ----------------------------------------------------------------------------------

  /** `CipherModule.state`; null until the first packet. */
  datatype CipherState = NoState | ServerPublic | ClientPrivateServerPublic | Session

  /** The next statement of the main thread. */
  datatype MainPc =
    | MTake                             // childMessages.take()
    | MEncryptionOn                     // layerManager.setEncryptionOn(true)
    | MServerPublic                     // setState(SERVER_PUBLIC)
    | MPutKey                           // put PUBLIC_KEY
    | MFlag1 | MWait1                   // sending = true; wait, then setState(CLIENT_PRIVATE_SERVER_PUBLIC)
    | MSessionKey(key: Bytes)           // setSessionKey
    | MPutEcho(key: Bytes)              // put SYMMETRIC_KEY
    | MFlag2 | MWait2                   // sending = true; wait, then setState(SESSION)
    | MInit                             // initializeSessionCiphers
    | MPut(c: Content)                  // put any other answer
    | MDone                             // receiveNext = true
    | MStopped

  datatype ReaderPc =
    | RCheck                            // while (!receiveNext) wait
    | RChecked                          // isEncryptionOn is read
    | RReading(encrypted: bool)         // blocked in receive
    | RPut(c: Content)                  // childMessages.put
    | RClear                            // receiveNext = false
    | RFailed

  datatype WriterPc =
    | WTake                             // sendInstructions.take()
    | WSend(c: Content)                 // send, under sendingLock
    | WClear                            // sending = false, still under sendingLock
    | WFailed

  datatype Client = Client(
    publicKey: Bytes, main: MainPc, reader: ReaderPc, writer: WriterPc,
    encryptionOn: bool, cipher: CipherState, sessionKey: Option<Bytes>, sessionCiphers: Option<Bytes>,
    sending: bool, receiveNext: bool, childMessages: seq<Content>, sendInstructions: seq<Content>)

  /** What the client opens; nothing when the cipher state has no decryption. */
  function ClientOpens(c: Client, encrypted: bool): Option<Lock> {
    if !encrypted then Some(Clear)
    else
      match c.cipher
      case ClientPrivateServerPublic => Some(ForClient(c.publicKey))
      case Session => if c.sessionCiphers.Some? then Some(UnderSession(c.sessionCiphers.value)) else None
      case _ => None
  }

  /** What the client locks with; nothing when the cipher state is not set up. */
  function ClientLocks(c: Client): Option<Lock> {
    if !c.encryptionOn then Some(Clear)
    else
      match c.cipher
      case NoState => None
      case ServerPublic => Some(ForServer)
      case ClientPrivateServerPublic => Some(ForServer)
      case Session => if c.sessionCiphers.Some? then Some(UnderSession(c.sessionCiphers.value)) else None
  }

  /** The switch of the main loop. */
  function Dispatch(p: Content): MainPc {
    match p.kind
    case OPEN_ENCR => MEncryptionOn
    case SYMMETRIC_KEY => MSessionKey(p.payload)
    case ALIVE => MPut(Content(ACK_OK, []))
    case CLOSE => MStopped
    case TEST_KEY => MPut(p)
    case SET_NAME => MPut(p)
    case ADD_FOLLOWER => MPut(p)
    case NEW_FOLLOWED => MPut(p)      // falls through to REMOVE_FOLLOWED
    case REMOVE_FOLLOWED => MPut(p)
    case REMOVE_FOLLOWER => MPut(p)
    case MY_LOCATION => MPut(p)
    case _ => MDone
  }

  // ---- the system ------------------------------------------------------------------------------------

  /** `read` frames of the server's outbox have reached the client; the others are in flight. */
  datatype Sys = Sys(server: Server, client: Client, toServer: seq<Frame>, read: nat, alive: bool)

  datatype Event =
    | ServerReceives(ahead: bool, newId: int, nameOk: bool) // ahead: a frame is readable behind a test key
    | ServerUpdates(news: seq<Content>)
    | ServerPacketSent
    | ServerErased
    | Main | Reader | Writer

  predicate Possible(s: Sys, e: Event) {
    var c := s.client;
    match e
    case ServerReceives(ahead, _, _) => s.alive && s.toServer != [] && (ahead ==> |s.toServer| >= 2)
    case ServerUpdates(news) => s.alive && forall i :: 0 <= i < |news| ==> IsNews(news[i])
    case ServerPacketSent => s.alive
    case ServerErased => s.alive
    case Main =>
      (match c.main
       case MTake => c.childMessages != []
       case MWait1 => !c.sending && !c.writer.WClear?
       case MWait2 => !c.sending && !c.writer.WClear?
       case MStopped => false
       case _ => true)
    case Reader =>
      (match c.reader
       case RCheck => c.receiveNext
       case RReading(_) => s.read < |s.server.outbox|
       case RFailed => false
       case _ => true)
    case Writer =>
      (match c.writer
       case WTake => c.sendInstructions != []
       case WFailed => false
       case _ => true)
  }

  function MainStep(c: Client): Client {
    match c.main
    case MTake =>
      if c.childMessages == [] then c
      else c.(childMessages := c.childMessages[1..], main := Dispatch(c.childMessages[0]))
    case MEncryptionOn => c.(encryptionOn := true, main := MServerPublic)
    case MServerPublic => c.(cipher := ServerPublic, main := MPutKey)
    case MPutKey => c.(sendInstructions := c.sendInstructions + [Content(PUBLIC_KEY, c.publicKey)], main := MFlag1)
    case MFlag1 => c.(sending := true, main := MWait1)
    case MWait1 => c.(cipher := ClientPrivateServerPublic, main := MDone)
    case MSessionKey(k) => c.(sessionKey := Some(k), main := MPutEcho(k))
    case MPutEcho(k) => c.(sendInstructions := c.sendInstructions + [Content(SYMMETRIC_KEY, k)], main := MFlag2)
    case MFlag2 => c.(sending := true, main := MWait2)
    case MWait2 => c.(cipher := Session, main := MInit)
    case MInit => c.(sessionCiphers := c.sessionKey, main := MDone)
    case MPut(p) => c.(sendInstructions := c.sendInstructions + [p], main := MDone)
    case MDone => c.(receiveNext := true, main := MTake)
    case MStopped => c
  }

  /** The packets that `SimpleMessenger.receive` knows. */
  predicate KnownInClear(k: PacketType) {
    k in {OPEN, CLOSE, ACK_ERR, ACK_OK, ALIVE, OPEN_ENCR}
  }

  function ReaderStep(s: Sys): Sys {
    var c := s.client;
    match c.reader
    case RCheck => s.(client := c.(reader := RChecked))
    case RChecked => s.(client := c.(reader := RReading(c.encryptionOn)))
    case RReading(encrypted) =>
      if s.read >= |s.server.outbox| then s
      else
        var o := s.server.outbox[s.read];
        var opens := ClientOpens(c, encrypted) == Some(LockOf(o, s.server.own));
        var ok := opens && (encrypted || KnownInClear(o.content.kind));
        s.(read := s.read + 1, client := c.(reader := if ok then RPut(o.content) else RFailed))
    case RPut(p) => s.(client := c.(childMessages := c.childMessages + [p], reader := RClear))
    case RClear => s.(client := c.(receiveNext := false, reader := RCheck))
    case RFailed => s
  }

  function WriterStep(s: Sys): Sys {
    var c := s.client;
    match c.writer
    case WTake =>
      if c.sendInstructions == [] then s
      else s.(client := c.(writer := WSend(c.sendInstructions[0]), sendInstructions := c.sendInstructions[1..]))
    case WSend(p) =>
      (match ClientLocks(c)
       case None => s.(client := c.(writer := WFailed))
       case Some(lock) => s.(client := c.(writer := WClear), toServer := s.toServer + [Frame(lock, p)]))
    case WClear => s.(client := c.(sending := false, writer := WTake))
    case WFailed => s
  }

  function OpenFrame(f: Frame, lock: Lock): Incoming {
    if f.lock == lock then Some(f.content) else None
  }

  /** The server takes the first frame, and a second one when it falls through and one is there. */
  function ServerStep(s: Sys, ahead: bool, newId: int, nameOk: bool, loads: Bytes -> bool): Sys
    requires s.toServer != [] && (ahead ==> |s.toServer| >= 2)
  {
    var two := ahead && s.server.stage == TestKey;
    var first := OpenFrame(s.toServer[0], ServerOpens(s.server));
    var second := if two then OpenFrame(s.toServer[1], UnderSession(s.server.own)) else None;
    s.(server := ReceiveData(s.server, first, second, loads, newId, nameOk),
       toServer := s.toServer[if two then 2 else 1..])
  }

  function Step(s: Sys, e: Event, loads: Bytes -> bool): Sys
    requires Possible(s, e)
  {
    match e
    case ServerReceives(ahead, newId, nameOk) => ServerStep(s, ahead, newId, nameOk, loads)
    case ServerUpdates(news) => s.(server := UpdateStep(s.server, news))
    case ServerPacketSent => s.(server := SendRemainingData(s.server))
    case ServerErased => s.(alive := false)
    case Main => s.(client := MainStep(s.client))
    case Reader => ReaderStep(s)
    case Writer => WriterStep(s)
  }

  function Connected(own: Bytes, publicKey: Bytes): Sys {
    Sys(Created(own),
        Client(publicKey, MTake, RCheck, WTake, false, NoState, None, None, false, true, [], []),
        [], 0, true)
  }

  predicate Run(s: Sys, es: seq<Event>, loads: Bytes -> bool, t: Sys)
    decreases |es|
  {
    if es == [] then s == t else Possible(s, es[0]) && Run(Step(s, es[0], loads), es[1..], loads, t)
  }

  // ---- the invariant -----------------------------------------------------------------------------------

  /** Messages that the client has read and not finished with. */
  function Busy(c: Client): nat {
    |c.childMessages| + (if c.main == MTake then 0 else 1) + (if c.reader.RPut? then 1 else 0)
  }

  /** Messages that the main thread has taken. */
  function Taken(s: Sys): int {
    s.read - |s.client.childMessages| - (if s.client.reader.RPut? then 1 else 0)
  }

  /** The reader and the main thread take turns: the reader is ready to read only when the main
      thread is done with everything read before. */
  predicate Turns(s: Sys) {
    var c := s.client;
    && Busy(c) <= 1 && 0 <= Taken(s) && s.read <= |s.server.outbox|
    && (c.reader.RReading? ==> Busy(c) == 0 && c.reader.encrypted == c.encryptionOn)
    && (c.reader.RCheck? && c.receiveNext ==> Busy(c) == 0)
    && (c.reader.RChecked? ==> Busy(c) == 0)
    && !c.reader.RFailed? && !c.writer.WFailed? && !c.main.MStopped?
    && (c.reader.RPut? ==> s.read > 0 && c.reader.c == s.server.outbox[s.read - 1].content)
    && (c.childMessages != [] ==> s.read > 0 && c.childMessages[0] == s.server.outbox[s.read - 1].content)
  }

  /** The packets that the server sends in the session after the test. */
  predicate InProtocol(k: PacketType) {
    k in {OPEN_PROT, ACK_OK, ACK_ERR, NEW_FOLLOWED, LOCATION}
  }

  /** What the server sends, stage by stage. */
  predicate Outbox(s: Server, publicKey: Bytes) {
    var r := Rank(s.stage);
    && r <= 3 && (if r < 3 then |s.outbox| == r + 1 && s.remaining == [] else |s.outbox| >= 4)
    && s.outbox[0] == Out(NoCipher, None, Content(OPEN_ENCR, []))
    && (r >= 1 ==>
          s.outer == Some(publicKey) && s.outbox[1] == Out(OuterRSA, Some(publicKey), Content(SYMMETRIC_KEY, s.own)))
    && (r >= 2 ==> s.algorithm == AES && s.outbox[2] == Out(AES, Some(publicKey), Content(TEST_KEY, s.own)))
    && (forall k :: 3 <= k < |s.outbox| ==>
          s.outbox[k].algorithm == AES && InProtocol(s.outbox[k].content.kind))
    && (forall k :: 0 <= k < |s.remaining| ==> IsNews(s.remaining[k]))
  }

  predicate WriterIdle(c: Client) {
    c.writer == WTake && c.sendInstructions == []
  }

  /** Nothing is on its way to the server, which waits in stage `at`. */
  predicate Waiting(s: Sys, at: Stage) {
    s.toServer == [] && s.server.stage == at
  }

  /** `p` is on its way, or the server has answered it. */
  predicate Sent(s: Sys, p: Content, at: Stage) {
    || (s.toServer == [Frame(ForServer, p)] && s.server.stage == at)
    || (s.toServer == [] && Rank(s.server.stage) == Rank(at) + 1)
  }

  /** `p` waits for the writer, is with the writer, or was sent. */
  predicate Exchange(s: Sys, p: Content, at: Stage) {
    || (s.client.writer == WTake && s.client.sendInstructions == [p] && Waiting(s, at))
    || (s.client.writer == WSend(p) && s.client.sendInstructions == [] && Waiting(s, at))
    || (s.client.writer in {WTake, WClear} && s.client.sendInstructions == [] && Sent(s, p, at))
  }

  predicate BeforeOpening(s: Sys) {
    var c := s.client;
    c.main == MTake && !c.encryptionOn && WriterIdle(c) && Waiting(s, SetPublicKey)
  }

  /** While OPEN_ENCR is handled, and until the next message is taken. */
  predicate Opening(s: Sys) {
    var c := s.client;
    var p := Content(PUBLIC_KEY, c.publicKey);
    match c.main
    case MEncryptionOn => WriterIdle(c) && Waiting(s, SetPublicKey)
    case MServerPublic => c.encryptionOn && WriterIdle(c) && Waiting(s, SetPublicKey)
    case MPutKey => c.encryptionOn && c.cipher == ServerPublic && WriterIdle(c) && Waiting(s, SetPublicKey)
    case MFlag1 => c.encryptionOn && c.cipher == ServerPublic && Exchange(s, p, SetPublicKey)
    case MWait1 =>
      && c.encryptionOn && c.cipher == ServerPublic && Exchange(s, p, SetPublicKey)
      && (!c.sending ==> WriterIdle(c) && Sent(s, p, SetPublicKey))
    case MDone => c.encryptionOn && c.cipher == ClientPrivateServerPublic && WriterIdle(c) && Sent(s, p, SetPublicKey)
    case MTake => c.encryptionOn && c.cipher == ClientPrivateServerPublic && WriterIdle(c) && Sent(s, p, SetPublicKey)
    case _ => false
  }

  /** While SYMMETRIC_KEY is handled, and until the next message is taken. */
  predicate Keying(s: Sys) {
    var c, own := s.client, s.server.own;
    var p := Content(SYMMETRIC_KEY, own);
    && c.encryptionOn
    && match c.main
       case MSessionKey(k) =>
         && k == own && c.cipher == ClientPrivateServerPublic
         && WriterIdle(c) && Waiting(s, SetSymmetricKey)
       case MPutEcho(k) =>
         && k == own && c.sessionKey == Some(own) && c.cipher == ClientPrivateServerPublic
         && WriterIdle(c) && Waiting(s, SetSymmetricKey)
       case MFlag2 =>
         && c.sessionKey == Some(own) && c.cipher == ClientPrivateServerPublic
         && Exchange(s, p, SetSymmetricKey)
       case MWait2 =>
         && c.sessionKey == Some(own) && c.cipher == ClientPrivateServerPublic && Exchange(s, p, SetSymmetricKey)
         && (!c.sending ==> WriterIdle(c) && Sent(s, p, SetSymmetricKey))
       case MInit => c.sessionKey == Some(own) && c.cipher == Session && WriterIdle(c) && Sent(s, p, SetSymmetricKey)
       case MDone =>
         && c.sessionCiphers == Some(own) && c.cipher == Session
         && WriterIdle(c) && Sent(s, p, SetSymmetricKey)
       case MTake =>
         && c.sessionCiphers == Some(own) && c.cipher == Session
         && WriterIdle(c) && Sent(s, p, SetSymmetricKey)
       case _ => false
  }

  /** Answers of the client that the server has not received. */
  function OnTheirWay(s: Sys): nat {
    |s.toServer| + |s.client.sendInstructions|
    + (if s.client.writer.WSend? then 1 else 0) + (if s.client.main.MPut? then 1 else 0)
  }

  predicate IsTest(c: Content) {
    c.kind == TEST_KEY
  }

  /** From TEST_KEY on everything is under the session key; until the server has received the echo,
      that echo is all there is. */
  predicate InSession(s: Sys) {
    var c, own := s.client, s.server.own;
    && c.encryptionOn && c.cipher == Session && c.sessionCiphers == Some(own) && Rank(s.server.stage) >= 2
    && (c.main.MPut? || c.main == MDone || c.main == MTake)
    && (forall i :: 0 <= i < |s.toServer| ==> s.toServer[i].lock == UnderSession(own))
    && (s.server.stage == TestKey ==>
          && OnTheirWay(s) <= 1
          && (s.toServer != [] ==> IsTest(s.toServer[0].content))
          && (c.sendInstructions != [] ==> IsTest(c.sendInstructions[0]))
          && (c.writer.WSend? ==> IsTest(c.writer.c))
          && (c.main.MPut? ==> IsTest(c.main.c)))
  }

  /** What the number of messages taken says about the rest. */
  predicate Phase(s: Sys) {
    if Taken(s) == 0 then BeforeOpening(s)
    else if Taken(s) == 1 then Opening(s)
    else if Taken(s) == 2 then Keying(s)
    else InSession(s)
  }

  predicate Inv(s: Sys) {
    && Turns(s) && Outbox(s.server, s.client.publicKey) && Phase(s)
    && (s.server.stage == StableCommunication ==> s.server.erase >= 1)
  }

  // ---- the client's threads keep it ------------------------------------------------------------------

  lemma MainKeepsTurns(s: Sys)
    requires Inv(s) && Possible(s, Main)
    ensures Turns(s.(client := MainStep(s.client)))
  {
    var t := s.(client := MainStep(s.client));
    if s.client.main == MTake {
      var k := s.read - 1;
      assert Taken(s) == k;
      assert s.client.childMessages[0] == s.server.outbox[k].content;
      assert k >= 3 ==> InProtocol(s.server.outbox[k].content.kind);
    }
  }

  /** The main thread takes a message: the next phase begins. */
  lemma MainTakes(s: Sys)
    requires Inv(s) && Possible(s, Main) && s.client.main == MTake
    ensures Phase(s.(client := MainStep(s.client)))
  {
    var t := s.(client := MainStep(s.client));
    var k := s.read - 1;
    assert Taken(s) == k && Taken(t) == k + 1;
    assert s.client.childMessages[0] == s.server.outbox[k].content;
    if k >= 3 {
      assert InProtocol(s.server.outbox[k].content.kind);
    }
  }

  lemma MainGoesOn(s: Sys)
    requires Inv(s) && Possible(s, Main) && s.client.main != MTake
    ensures Phase(s.(client := MainStep(s.client)))
  {
    var t := s.(client := MainStep(s.client));
    MainTakesNothing(s);
    if Taken(s) == 1 {
      MainKeepsOpening(s);
    } else if Taken(s) == 2 {
      MainKeepsKeying(s);
    } else {
      MainKeepsSession(s);
    }
  }

  lemma MainTakesNothing(s: Sys)
    requires Possible(s, Main) && s.client.main != MTake
    ensures Taken(s.(client := MainStep(s.client))) == Taken(s)
  {
  }

  lemma MainKeepsOpening(s: Sys)
    requires Opening(s) && Possible(s, Main) && s.client.main != MTake
    ensures Opening(s.(client := MainStep(s.client)))
  {
  }

  lemma MainKeepsKeying(s: Sys)
    requires Keying(s) && Possible(s, Main) && s.client.main != MTake
    ensures Keying(s.(client := MainStep(s.client)))
  {
  }

  lemma MainKeepsSession(s: Sys)
    requires InSession(s) && Possible(s, Main) && s.client.main != MTake
    ensures InSession(s.(client := MainStep(s.client)))
  {
  }

  /** A step of the client that keeps turns and phase leaves the server's part as it was. */
  lemma ClientStepKeepsInv(s: Sys, t: Sys)
    requires Outbox(s.server, s.client.publicKey) && (s.server.stage == StableCommunication ==> s.server.erase >= 1)
    requires Turns(t) && Phase(t) && t.server == s.server && t.client.publicKey == s.client.publicKey
    ensures Inv(t)
  {
  }

  lemma MainKeepsInv(s: Sys, loads: Bytes -> bool)
    requires Inv(s) && Possible(s, Main)
    ensures Inv(Step(s, Main, loads))
  {
    MainKeepsTurns(s);
    if s.client.main == MTake {
      MainTakes(s);
    } else {
      MainGoesOn(s);
    }
    MainKeepsKey(s.client);
    ClientStepKeepsInv(s, s.(client := MainStep(s.client)));
  }

  /** Whenever the reader is about to receive, what is next in flight is locked as it will open it. */
  lemma ReaderOpensNext(s: Sys)
    requires Inv(s) && s.client.reader.RReading?
    ensures forall k :: s.read <= k < |s.server.outbox| ==>
      && ClientOpens(s.client, s.client.reader.encrypted) == Some(LockOf(s.server.outbox[k], s.server.own))
      && (s.client.reader.encrypted || KnownInClear(s.server.outbox[k].content.kind))
  {
    assert Taken(s) == s.read;
  }

  lemma ReaderKeepsTurns(s: Sys)
    requires Inv(s) && Possible(s, Reader)
    ensures Turns(ReaderStep(s))
  {
    if s.client.reader.RReading? {
      ReadingKeepsTurns(s);
    } else {
      OtherStepsKeepTurns(s);
    }
  }

  lemma OtherStepsKeepTurns(s: Sys)
    requires Turns(s) && Possible(s, Reader) && !s.client.reader.RReading?
    ensures Turns(ReaderStep(s))
  {
  }

  /** What is read can be opened. */
  lemma ReadingIsOpened(s: Sys)
    requires Inv(s) && Possible(s, Reader) && s.client.reader.RReading?
    ensures ReaderStep(s) ==
            s.(read := s.read + 1, client := s.client.(reader := RPut(s.server.outbox[s.read].content)))
  {
    ReaderOpensNext(s);
  }

  lemma ReadingKeepsTurns(s: Sys)
    requires Inv(s) && Possible(s, Reader) && s.client.reader.RReading?
    ensures Turns(ReaderStep(s))
  {
    ReadingIsOpened(s);
  }

  /** The phases are about the main thread, the writer, the ciphers and the server. */
  lemma PhaseIgnoresReader(s: Sys, t: Sys)
    requires Phase(s) && Taken(t) == Taken(s)
    requires t == s.(read := t.read, client := s.client.(reader := t.client.reader, receiveNext := t.client.receiveNext,
                                                         childMessages := t.client.childMessages))
    ensures Phase(t)
  {
  }

  lemma ReaderKeepsPhase(s: Sys)
    requires Inv(s) && Possible(s, Reader)
    ensures Phase(ReaderStep(s))
  {
    ReaderTakesNothing(s);
    PhaseIgnoresReader(s, ReaderStep(s));
  }

  lemma ReaderTakesNothing(s: Sys)
    requires Inv(s) && Possible(s, Reader)
    ensures Taken(ReaderStep(s)) == Taken(s) && OnlyReaderMoved(s, ReaderStep(s))
  {
    if s.client.reader.RReading? {
      ReadingIsOpened(s);
    } else {
      OtherStepsTakeNothing(s);
    }
  }

  predicate OnlyReaderMoved(s: Sys, t: Sys) {
    t == s.(read := t.read, client := s.client.(reader := t.client.reader, receiveNext := t.client.receiveNext,
                                                childMessages := t.client.childMessages))
  }

  lemma OtherStepsTakeNothing(s: Sys)
    requires !s.client.reader.RReading?
    ensures Taken(ReaderStep(s)) == Taken(s) && OnlyReaderMoved(s, ReaderStep(s))
  {
  }

  lemma ReaderKeepsInv(s: Sys, loads: Bytes -> bool)
    requires Inv(s) && Possible(s, Reader)
    ensures Inv(Step(s, Reader, loads))
  {
    ReaderKeepsTurns(s);
    ReaderKeepsPhase(s);
    ReaderTakesNothing(s);
    ClientStepKeepsInv(s, ReaderStep(s));
  }

  lemma WriterKeepsOpening(s: Sys)
    requires Opening(s) && Possible(s, Writer)
    ensures Opening(WriterStep(s)) && !WriterStep(s).client.writer.WFailed?
  {
  }

  lemma WriterKeepsKeying(s: Sys)
    requires Keying(s) && Possible(s, Writer)
    ensures Keying(WriterStep(s)) && !WriterStep(s).client.writer.WFailed?
  {
  }

  lemma WriterKeepsSession(s: Sys)
    requires InSession(s) && Possible(s, Writer)
    ensures InSession(WriterStep(s)) && !WriterStep(s).client.writer.WFailed?
  {
    var c, t := s.client, WriterStep(s);
    match c.writer {
      case WTake => assert |t.client.sendInstructions| == |c.sendInstructions| - 1;
      case WSend(p) => assert t.toServer == s.toServer + [Frame(UnderSession(s.server.own), p)];
      case WClear =>
      case WFailed =>
    }
  }

  lemma WriterKeepsPhase(s: Sys)
    requires Phase(s) && Possible(s, Writer) && 0 <= Taken(s)
    ensures Phase(WriterStep(s)) && !WriterStep(s).client.writer.WFailed?
  {
    WriterLeavesTheRest(s);
    assert Taken(WriterStep(s)) == Taken(s);
    if Taken(s) == 1 {
      WriterKeepsOpening(s);
    } else if Taken(s) == 2 {
      WriterKeepsKeying(s);
    } else if Taken(s) >= 3 {
      WriterKeepsSession(s);
    }
  }

  lemma WriterKeepsTurns(s: Sys)
    requires Turns(s) && !WriterStep(s).client.writer.WFailed?
    ensures Turns(WriterStep(s))
  {
    WriterLeavesTheRest(s);
  }

  lemma WriterKeepsInv(s: Sys, loads: Bytes -> bool)
    requires Inv(s) && Possible(s, Writer)
    ensures Inv(Step(s, Writer, loads))
  {
    WriterKeepsPhase(s);
    WriterKeepsTurns(s);
    WriterLeavesTheRest(s);
  }

  lemma WriterLeavesTheRest(s: Sys)
    ensures var t := WriterStep(s);
      && t.server == s.server && t.read == s.read && t.alive == s.alive
      && t.client == s.client.(writer := t.client.writer, sending := t.client.sending,
                               sendInstructions := t.client.sendInstructions)
  {
  }

  // ---- the server keeps it -------------------------------------------------------------------------------

  /** Every frame in flight to the server is locked as the server will open it. */
  lemma ServerOpensNext(s: Sys)
    requires Inv(s)
    ensures forall k :: 0 <= k < |s.toServer| ==> s.toServer[k].lock == ServerOpens(s.server)
    ensures Rank(s.server.stage) < 3 ==> |s.toServer| <= 1
  {
    assert s.server.stage == StableCommunication ==> s.server.algorithm == AES;
  }

  lemma ServerAcceptsKey(s: Sys, newId: int, nameOk: bool, loads: Bytes -> bool)
    requires Inv(s) && s.toServer != [] && Taken(s) == 1 && loads(s.client.publicKey)
    ensures Inv(ServerStep(s, false, newId, nameOk, loads))
  {
    var t := ServerStep(s, false, newId, nameOk, loads);
    assert s.toServer == [Frame(ForServer, Content(PUBLIC_KEY, s.client.publicKey))];
    assert t.server == SetPublicKeyStep(s.server, Some(Content(PUBLIC_KEY, s.client.publicKey)), loads);
    assert t.toServer == [];
  }

  lemma ServerAcceptsEcho(s: Sys, newId: int, nameOk: bool, loads: Bytes -> bool)
    requires Inv(s) && s.toServer != [] && Taken(s) == 2
    ensures Inv(ServerStep(s, false, newId, nameOk, loads))
  {
    var t := ServerStep(s, false, newId, nameOk, loads);
    assert s.toServer == [Frame(ForServer, Content(SYMMETRIC_KEY, s.server.own))];
    assert t.server == SetSymmetricKeyStep(s.server, Some(Content(SYMMETRIC_KEY, s.server.own)));
    assert t.toServer == [];
  }

  lemma ServerAcceptsTest(s: Sys, newId: int, nameOk: bool, loads: Bytes -> bool)
    requires Inv(s) && s.toServer != [] && Taken(s) >= 3 && s.server.stage == TestKey
    ensures Inv(ServerStep(s, false, newId, nameOk, loads))
  {
    var t := ServerStep(s, false, newId, nameOk, loads);
    var first := Some(s.toServer[0].content);
    assert |s.toServer| == 1 && t.toServer == [];
    assert t.server == StableStep(TestKeyStep(s.server, first, newId), None, nameOk);
  }

  /** In StableCommunication a packet makes the server send at most one packet, and change no key. */
  lemma ServingOnlyAdds(s: Server, input: Incoming, nameOk: bool)
    requires s.stage == StableCommunication && s.algorithm == AES
    ensures OnlyAdds(s, StableStep(s, input, nameOk))
  {
  }

  lemma ServerServes(s: Sys, ahead: bool, newId: int, nameOk: bool, loads: Bytes -> bool)
    requires Inv(s) && s.toServer != [] && (ahead ==> |s.toServer| >= 2) && s.server.stage == StableCommunication
    requires Taken(s) >= 3
    ensures Inv(ServerStep(s, ahead, newId, nameOk, loads))
  {
    var t := ServerStep(s, ahead, newId, nameOk, loads);
    ServingOnlyAdds(s.server, OpenFrame(s.toServer[0], ServerOpens(s.server)), nameOk);
    SessionGoesOn(s, t.server, 1);
  }

  /** `u` is `s` with more sent in the session, and with other news waiting. */
  predicate OnlyAdds(s: Server, u: Server) {
    && u.stage == s.stage && u.algorithm == s.algorithm && u.outer == s.outer && u.own == s.own && u.erase >= s.erase
    && |u.outbox| >= |s.outbox| && (forall k :: 0 <= k < |s.outbox| ==> u.outbox[k] == s.outbox[k])
    && (forall k :: |s.outbox| <= k < |u.outbox| ==>
          u.outbox[k].algorithm == AES && InProtocol(u.outbox[k].content.kind))
    && ((forall k :: 0 <= k < |s.remaining| ==> IsNews(s.remaining[k])) ==>
          forall k :: 0 <= k < |u.remaining| ==> IsNews(u.remaining[k]))
  }

  /** The session goes on when the server takes n frames and sends more. */
  lemma SessionGoesOn(s: Sys, u: Server, n: nat)
    requires Inv(s) && s.server.stage == StableCommunication && Taken(s) >= 3 && n <= |s.toServer|
    requires OnlyAdds(s.server, u)
    ensures Inv(s.(server := u, toServer := s.toServer[n..]))
  {
    var t := s.(server := u, toServer := s.toServer[n..]);
    OutboxGrows(s.server, u, s.client.publicKey);
    TurnsGoOn(s, u, n);
    assert InSession(t);
  }

  lemma OutboxGrows(s: Server, u: Server, publicKey: Bytes)
    requires Outbox(s, publicKey) && s.stage == StableCommunication && OnlyAdds(s, u)
    ensures Outbox(u, publicKey)
  {
  }

  lemma TurnsGoOn(s: Sys, u: Server, n: nat)
    requires Turns(s) && n <= |s.toServer| && OnlyAdds(s.server, u)
    ensures Turns(s.(server := u, toServer := s.toServer[n..]))
  {
  }

  /** In StableCommunication the client has taken TEST_KEY. */
  lemma StableIsInSession(s: Sys)
    requires Inv(s)
    ensures s.server.stage == StableCommunication ==> Taken(s) >= 3
    ensures s.toServer != [] ==> Taken(s) >= 1
    ensures s.toServer != [] && Taken(s) >= 3 ==> s.server.stage == TestKey || s.server.stage == StableCommunication
  {
  }

  lemma ServerReceivesKeepsInv(s: Sys, e: Event, loads: Bytes -> bool)
    requires Inv(s) && Possible(s, e) && e.ServerReceives? && loads(s.client.publicKey)
    ensures Inv(Step(s, e, loads))
  {
    StableIsInSession(s);
    ServerOpensNext(s);
    if s.server.stage == StableCommunication {
      ServerServes(s, e.ahead, e.newId, e.nameOk, loads);
    } else if Taken(s) == 1 {
      ServerAcceptsKey(s, e.newId, e.nameOk, loads);
    } else if Taken(s) == 2 {
      ServerAcceptsEcho(s, e.newId, e.nameOk, loads);
    } else {
      ServerAcceptsTest(s, e.newId, e.nameOk, loads);
    }
  }

  /** Releasing news before StableCommunication does nothing, and afterwards only adds AES frames. */
  lemma NewsKeepInv(s: Sys, news: seq<Content>)
    requires Inv(s) && forall i :: 0 <= i < |news| ==> IsNews(news[i])
    ensures Inv(s.(server := UpdateStep(s.server, news)))
    ensures Inv(s.(server := SendRemainingData(s.server)))
  {
    StableIsInSession(s);
    var u, v := UpdateStep(s.server, news), SendRemainingData(s.server);
    if s.server.stage == StableCommunication {
      UpdateOnlyAdds(s.server, news);
      UpdateOnlyAdds(s.server, []);
      assert s.server.remaining + [] == s.server.remaining && s.toServer[0..] == s.toServer;
      SessionGoesOn(s, u, 0);
      SessionGoesOn(s, v, 0);
    } else {
      assert u == s.server && v == s.server;
    }
  }

  /** Releasing adds at most one packet to the outbox, which is news if the queue is. */
  lemma UpdateOnlyAdds(s: Server, news: seq<Content>)
    requires s.stage == StableCommunication && s.algorithm == AES
    requires forall i :: 0 <= i < |news| ==> IsNews(news[i])
    requires forall i :: 0 <= i < |s.remaining| ==> IsNews(s.remaining[i])
    ensures OnlyAdds(s, UpdateStep(s, news))
  {
    var queue := s.remaining + news;
    assert forall k :: 0 <= k < |queue| ==> IsNews(queue[k]);
  }

  lemma ErasureKeepsTurns(s: Sys)
    requires Turns(s)
    ensures Turns(s.(alive := false))
  {
  }

  lemma ErasureKeepsPhase(s: Sys)
    requires Phase(s)
    ensures Phase(s.(alive := false))
  {
  }

  lemma ErasureKeepsInv(s: Sys)
    requires Inv(s)
    ensures Inv(s.(alive := false))
  {
    ErasureKeepsTurns(s);
    ErasureKeepsPhase(s);
  }

  lemma KeysStay(s: Sys, e: Event, loads: Bytes -> bool)
    requires Possible(s, e)
    ensures Step(s, e, loads).client.publicKey == s.client.publicKey && Step(s, e, loads).server.own == s.server.own
  {
    match e {
      case Main => MainKeepsKey(s.client);
      case _ =>
    }
  }

  lemma MainKeepsKey(c: Client)
    ensures MainStep(c).publicKey == c.publicKey
  {
  }

  lemma StepKeepsInv(s: Sys, e: Event, loads: Bytes -> bool)
    requires Inv(s) && Possible(s, e) && loads(s.client.publicKey)
    ensures Inv(Step(s, e, loads))
  {
    match e {
      case ServerReceives(_, _, _) => ServerReceivesKeepsInv(s, e, loads);
      case ServerUpdates(news) => NewsKeepInv(s, news);
      case ServerPacketSent => NewsKeepInv(s, []);
      case ServerErased => ErasureKeepsInv(s);
      case Main => MainKeepsInv(s, loads);
      case Reader => ReaderKeepsInv(s, loads);
      case Writer => WriterKeepsInv(s, loads);
    }
  }

  lemma {:induction false} RunKeepsInv(s: Sys, es: seq<Event>, loads: Bytes -> bool, t: Sys)
    requires Inv(s) && Run(s, es, loads, t) && loads(s.client.publicKey)
    ensures Inv(t) && t.client.publicKey == s.client.publicKey && t.server.own == s.server.own
    decreases |es|
  {
    if es != [] {
      StepKeepsInv(s, es[0], loads);
      KeysStay(s, es[0], loads);
      RunKeepsInv(Step(s, es[0], loads), es[1..], loads, t);
    }
  }

  // ---- main results ---------------------------------------------------------------------------------------

  /** Cipher agreement, in every state that the two ends can reach together, whatever the order of
      their steps: all frames in flight to the server are locked as it opens the next packet; when
      the client's reader receives, so are all frames in flight to it; and neither end has ever met
      a frame, or sent one, that its cipher state could not handle. */
  lemma CipherAgreement(own: Bytes, publicKey: Bytes, es: seq<Event>, loads: Bytes -> bool, t: Sys)
    requires loads(publicKey) && Run(Connected(own, publicKey), es, loads, t)
    ensures forall k :: 0 <= k < |t.toServer| ==> t.toServer[k].lock == ServerOpens(t.server)
    ensures t.client.reader.RReading? ==> forall k :: t.read <= k < |t.server.outbox| ==>
      ClientOpens(t.client, t.client.reader.encrypted) == Some(LockOf(t.server.outbox[k], own))
    ensures !t.client.reader.RFailed? && !t.client.writer.WFailed? && !t.client.main.MStopped?
  {
    RunKeepsInv(Connected(own, publicKey), es, loads, t);
    ServerOpensNext(t);
    if t.client.reader.RReading? {
      ReaderOpensNext(t);
    }
  }

  /** Key agreement: a server in StableCommunication holds the client's public key, and the client's
      session ciphers hold the server's symmetric key. */
  lemma KeyAgreement(own: Bytes, publicKey: Bytes, es: seq<Event>, loads: Bytes -> bool, t: Sys)
    requires loads(publicKey) && Run(Connected(own, publicKey), es, loads, t)
    ensures t.server.stage == StableCommunication ==>
      && t.server.outer == Some(publicKey) && t.server.algorithm == AES
      && t.client.cipher == Session && t.client.sessionCiphers == Some(own) && t.client.encryptionOn
  {
    RunKeepsInv(Connected(own, publicKey), es, loads, t);
    StableIsInSession(t);
  }

  /** The reader and the main thread never work on different messages at once: while the reader
      receives, the main thread has finished everything received before. */
  lemma ClientThreadsTakeTurns(own: Bytes, publicKey: Bytes, es: seq<Event>, loads: Bytes -> bool, t: Sys)
    requires loads(publicKey) && Run(Connected(own, publicKey), es, loads, t)
    ensures t.client.reader.RReading? ==> t.client.main == MTake && t.client.childMessages == []
    ensures |t.client.childMessages| <= 1
  {
    RunKeepsInv(Connected(own, publicKey), es, loads, t);
  }

  /** What the missing break comes to: whenever this client completes the handshake, the server has
      at once asked for the session to be erased, because nothing is readable behind the test key. */
  lemma EveryHandshakeEndsInErasure(own: Bytes, publicKey: Bytes, es: seq<Event>, loads: Bytes -> bool, t: Sys)
    requires loads(publicKey) && Run(Connected(own, publicKey), es, loads, t)
    ensures t.server.stage == StableCommunication ==> t.server.erase >= 1
  {
    RunKeepsInv(Connected(own, publicKey), es, loads, t);
  }

  // ---- where the client can stop for good ---------------------------------------------------------------

  /** The main thread waits for a flag that nobody will clear. */
  predicate WaitsForever(c: Client) {
    && (c.main == MWait1 || c.main == MWait2) && c.sending && WriterIdle(c)
    && (c.reader == RClear || (c.reader == RCheck && !c.receiveNext))
  }

  /** The reader waits for a flag that nobody will set. */
  predicate DeafForever(c: Client) {
    && c.main == MTake && c.childMessages == []
    && (c.reader == RClear || (c.reader == RCheck && !c.receiveNext))
  }

  lemma BlockedStaysBlocked(s: Sys, e: Event, loads: Bytes -> bool)
    requires Possible(s, e)
    ensures WaitsForever(s.client) ==> WaitsForever(Step(s, e, loads).client)
    ensures DeafForever(s.client) ==> DeafForever(Step(s, e, loads).client)
  {
  }

  /** Setting `sending` after the instruction was put blocks the main thread exactly when the writer
      has already been through with it. */
  lemma FlagBlocksIff(s: Sys)
    requires Inv(s) && (s.client.main == MFlag1 || s.client.main == MFlag2)
    ensures WaitsForever(MainStep(s.client)) <==> WriterIdle(s.client)
  {
    assert Busy(s.client) == 1;
  }

  /** Setting `receiveNext` deafens the client exactly when the reader has not yet cleared it. */
  lemma DoneDeafensIff(s: Sys)
    requires Inv(s) && s.client.main == MDone
    ensures DeafForever(MainStep(s.client)) <==> s.client.reader == RClear
  {
    assert Busy(s.client) == 1;
  }

  // ---- the handshake can be completed ---------------------------------------------------------------------

  ghost predicate Reaches(s: Sys, t: Sys, loads: Bytes -> bool) {
    exists es :: Run(s, es, loads, t)
  }

  lemma {:induction false} RunGoesOn(s: Sys, es: seq<Event>, t: Sys, e: Event, loads: Bytes -> bool)
    requires Run(s, es, loads, t) && Possible(t, e)
    ensures Run(s, es + [e], loads, Step(t, e, loads))
    decreases |es|
  {
    if es == [] {
      assert ([] + [e])[1..] == [];
    } else {
      assert (es + [e])[1..] == es[1..] + [e];
      RunGoesOn(Step(s, es[0], loads), es[1..], t, e, loads);
    }
  }

  lemma Goes(s: Sys, t: Sys, e: Event, loads: Bytes -> bool)
    requires Reaches(s, t, loads) && Possible(t, e)
    ensures Reaches(s, Step(t, e, loads), loads)
  {
    var es :| Run(s, es, loads, t);
    RunGoesOn(s, es, t, e, loads);
  }

  /** The reader reads the next frame, puts it, clears the flag; the main thread takes it. */
  lemma Reads(s: Sys, t: Sys, loads: Bytes -> bool) returns (u: Sys)
    requires Reaches(s, t, loads)
    requires var c := t.client; c.main == MTake && c.reader == RCheck && c.receiveNext && c.childMessages == []
    requires t.read < |t.server.outbox|
    requires var o := t.server.outbox[t.read];
      && ClientOpens(t.client, t.client.encryptionOn) == Some(LockOf(o, t.server.own))
      && (t.client.encryptionOn || KnownInClear(o.content.kind))
    ensures Reaches(s, u, loads)
    ensures u == t.(read := t.read + 1,
                    client := t.client.(receiveNext := false, main := Dispatch(t.server.outbox[t.read].content)))
  {
    u := Puts(s, t, loads);
    Goes(s, u, Reader, loads);
    u := Step(u, Reader, loads);
    Goes(s, u, Main, loads);
    u := Step(u, Main, loads);
  }

  /** The reader reads the next frame and puts it, and has not yet cleared the flag. */
  lemma Puts(s: Sys, t: Sys, loads: Bytes -> bool) returns (u: Sys)
    requires Reaches(s, t, loads)
    requires var c := t.client; c.reader == RCheck && c.receiveNext && c.childMessages == []
    requires t.read < |t.server.outbox|
    requires var o := t.server.outbox[t.read];
      && ClientOpens(t.client, t.client.encryptionOn) == Some(LockOf(o, t.server.own))
      && (t.client.encryptionOn || KnownInClear(o.content.kind))
    ensures Reaches(s, u, loads)
    ensures u == t.(read := t.read + 1,
                    client := t.client.(reader := RClear, childMessages := [t.server.outbox[t.read].content]))
  {
    u := t;
    for i := 0 to 4
      invariant Reaches(s, u, loads)
      invariant i == 0 ==> u == t
      invariant i == 1 ==> u == t.(client := t.client.(reader := RChecked))
      invariant i == 2 ==> u == t.(client := t.client.(reader := RReading(t.client.encryptionOn)))
      invariant i == 3 ==>
        u == t.(read := t.read + 1, client := t.client.(reader := RPut(t.server.outbox[t.read].content)))
      invariant i == 4 ==> u == t.(read := t.read + 1,
        client := t.client.(reader := RClear, childMessages := [t.server.outbox[t.read].content]))
    {
      Goes(s, u, Reader, loads);
      u := Step(u, Reader, loads);
    }
  }

  /** The writer takes the only instruction, sends it and clears the flag. */
  lemma Writes(s: Sys, t: Sys, p: Content, loads: Bytes -> bool) returns (u: Sys)
    requires Reaches(s, t, loads)
    requires t.client.writer == WTake && t.client.sendInstructions == [p] && ClientLocks(t.client).Some?
    ensures Reaches(s, u, loads)
    ensures u == t.(client := t.client.(sending := false, sendInstructions := []),
                    toServer := t.toServer + [Frame(ClientLocks(t.client).value, p)])
  {
    u := t;
    for i := 0 to 3
      invariant Reaches(s, u, loads)
      invariant i == 0 ==> u == t
      invariant i == 1 ==> u == t.(client := t.client.(writer := WSend(p), sendInstructions := []))
      invariant i == 2 ==> u == t.(client := t.client.(writer := WClear, sendInstructions := []),
                                   toServer := t.toServer + [Frame(ClientLocks(t.client).value, p)])
      invariant i == 3 ==> u == t.(client := t.client.(sending := false, sendInstructions := []),
                                   toServer := t.toServer + [Frame(ClientLocks(t.client).value, p)])
    {
      Goes(s, u, Writer, loads);
      u := Step(u, Writer, loads);
    }
  }

  /** The main thread has nothing to do: it takes the next message, waits for the writer, or stopped. */
  predicate Resting(c: Client) {
    c.main == MTake || c.main == MStopped || ((c.main == MWait1 || c.main == MWait2) && c.sending)
  }

  function Left(m: MainPc): nat {
    match m
    case MEncryptionOn => 11
    case MServerPublic => 10
    case MPutKey => 9
    case MFlag1 => 8
    case MWait1 => 7
    case MSessionKey(_) => 6
    case MPutEcho(_) => 5
    case MFlag2 => 4
    case MWait2 => 3
    case MInit => 2
    case MPut(_) => 2
    case MDone => 1
    case MTake => 0
    case MStopped => 0
  }

  function Rested(c: Client): Client
    decreases Left(c.main)
  {
    if Resting(c) then c else Rested(MainStep(c))
  }

  lemma MainProgresses(t: Sys, loads: Bytes -> bool)
    requires t.client.writer == WTake && !Resting(t.client)
    ensures Possible(t, Main) && Step(t, Main, loads) == t.(client := MainStep(t.client))
    ensures MainStep(t.client).writer == WTake && Left(MainStep(t.client).main) < Left(t.client.main)
  {
  }

  lemma {:induction false} MainRuns(s: Sys, t: Sys, loads: Bytes -> bool) returns (u: Sys)
    requires Reaches(s, t, loads) && t.client.writer == WTake
    ensures Reaches(s, u, loads) && u == t.(client := Rested(t.client))
    decreases Left(t.client.main)
  {
    if Resting(t.client) {
      u := t;
    } else {
      MainProgresses(t, loads);
      Goes(s, t, Main, loads);
      var c := MainStep(t.client);
      u := MainRuns(s, t.(client := c), loads);
      assert Rested(t.client) == Rested(c);
    }
  }

  /** The client at rest, ready to read. */
  function Ready(publicKey: Bytes, cipher: CipherState, key: Option<Bytes>): Client {
    Client(publicKey, MTake, RCheck, WTake, cipher != NoState, cipher, key, if cipher == Session then key else None,
           false, true, [], [])
  }

  lemma OpeningRests(c: Client)
    requires c.main == MEncryptionOn && c.sendInstructions == []
    ensures Rested(c) == c.(encryptionOn := true, cipher := ServerPublic,
      sendInstructions := [Content(PUBLIC_KEY, c.publicKey)], sending := true, main := MWait1)
  {
    var c1 := MainStep(c);
    var c2 := MainStep(c1);
    var c3 := MainStep(c2);
    var c4 := MainStep(c3);
    assert Rested(c4) == c4;
    assert Rested(c3) == c4;
    assert Rested(c2) == c4;
    assert Rested(c1) == c4;
  }

  lemma OpeningEnds(c: Client)
    requires c.main == MWait1 && !c.sending
    ensures Rested(c) == c.(cipher := ClientPrivateServerPublic, receiveNext := true, main := MTake)
  {
    var c1 := MainStep(c);
    assert Rested(c1) == Rested(MainStep(c1));
  }

  lemma KeyingRests(c: Client, key: Bytes)
    requires c.main == MSessionKey(key) && c.sendInstructions == []
    ensures Rested(c) == c.(sessionKey := Some(key), sendInstructions := [Content(SYMMETRIC_KEY, key)],
                            sending := true, main := MWait2)
  {
    RestsLater(c);
    RestsLater(MainStep(c));
    RestsLater(MainStep(MainStep(c)));
  }

  lemma RestsLater(c: Client)
    requires !Resting(c)
    ensures Rested(c) == Rested(MainStep(c))
  {
  }

  lemma KeyingEnds(c: Client)
    requires c.main == MWait2 && !c.sending
    ensures Rested(c) == c.(cipher := Session, sessionCiphers := c.sessionKey, receiveNext := true, main := MTake)
  {
    var c1 := MainStep(c);
    var c2 := MainStep(c1);
    assert Rested(c2) == Rested(MainStep(c2));
    assert Rested(c1) == Rested(c2);
  }

  lemma AnswerRests(c: Client, p: Content)
    requires c.main == MPut(p) && c.sendInstructions == []
    ensures Rested(c) == c.(sendInstructions := [p], receiveNext := true, main := MTake)
  {
    var c1 := MainStep(c);
    assert Rested(c1) == Rested(MainStep(c1));
  }

  /** In the clear the client knows exactly the types that have to do with no cipher yet: the numbers up to
      that of OPEN_ENCR. */
  lemma ClearTypesAreLow(k: PacketType)
    requires k != UNDEFINED
    ensures KnownInClear(k) <==> ToUInt8(k) <= ToUInt8(OPEN_ENCR)
  {
  }

  /** What the client answers to each packet before it rests: the public key, the packet itself, ACK_OK, or
      nothing; and it stops on CLOSE only. */
  lemma WhatTheClientAnswers(c: Client, p: Content)
    requires c.main == Dispatch(p) && c.sendInstructions == [] && !c.sending
    ensures Rested(c).sendInstructions ==
      if p.kind == OPEN_ENCR then [Content(PUBLIC_KEY, c.publicKey)]
      else if p.kind == ALIVE then [Content(ACK_OK, [])]
      else if p.kind in {SYMMETRIC_KEY, TEST_KEY, SET_NAME, ADD_FOLLOWER, NEW_FOLLOWED, REMOVE_FOLLOWED,
                         REMOVE_FOLLOWER, MY_LOCATION}
      then [p] else []
    ensures Rested(c).main == MStopped <==> p.kind == CLOSE
  {
    match c.main {
      case MEncryptionOn => OpeningRests(c);
      case MSessionKey(key) => KeyingRests(c, key);
      case MPut(a) => AnswerRests(c, a);
      case MDone => RestsLater(c);
      case _ =>
    }
  }

  lemma ServerTakes(s: Sys, t: Sys, f: Frame, loads: Bytes -> bool) returns (u: Sys)
    requires Reaches(s, t, loads) && t.alive && t.toServer == [f]
    ensures Reaches(s, u, loads)
    ensures var first := OpenFrame(f, ServerOpens(t.server));
      u == t.(server := ReceiveData(t.server, first, None, loads, 1, true), toServer := [])
  {
    Goes(s, t, ServerReceives(false, 1, true), loads);
    u := Step(t, ServerReceives(false, 1, true), loads);
  }

  /** OPEN_ENCR is answered, and the server accepts the public key. */
  lemma OpeningCompletes(own: Bytes, publicKey: Bytes, loads: Bytes -> bool) returns (t: Sys)
    requires loads(publicKey)
    ensures Reaches(Connected(own, publicKey), t, loads)
    ensures t == Sys(SetPublicKeyStep(Created(own), Some(Content(PUBLIC_KEY, publicKey)), loads),
                     Ready(publicKey, ClientPrivateServerPublic, None), [], 1, true)
  {
    var s := Connected(own, publicKey);
    assert Run(s, [], loads, s);
    t := Reads(s, s, loads);
    OpeningRests(t.client);
    t := MainRuns(s, t, loads);
    t := Writes(s, t, Content(PUBLIC_KEY, publicKey), loads);
    OpeningEnds(t.client);
    t := MainRuns(s, t, loads);
    t := ServerTakes(s, t, Frame(ForServer, Content(PUBLIC_KEY, publicKey)), loads);
  }

  /** SYMMETRIC_KEY is echoed, and the server accepts the echo. */
  lemma KeyingCompletes(s: Sys, t: Sys, publicKey: Bytes, loads: Bytes -> bool) returns (u: Sys)
    requires Reaches(s, t, loads) && t.alive && t.toServer == [] && t.read == 1
    requires t.client == Ready(publicKey, ClientPrivateServerPublic, None) && t.server.stage == SetSymmetricKey
    requires |t.server.outbox| == 2
    requires t.server.outbox[1] == Out(OuterRSA, Some(publicKey), Content(SYMMETRIC_KEY, t.server.own))
    ensures Reaches(s, u, loads)
    ensures u == Sys(SetSymmetricKeyStep(t.server, Some(Content(SYMMETRIC_KEY, t.server.own))),
                     Ready(publicKey, Session, Some(t.server.own)), [], 2, true)
  {
    u := Reads(s, t, loads);
    KeyingRests(u.client, t.server.own);
    u := MainRuns(s, u, loads);
    u := Writes(s, u, Content(SYMMETRIC_KEY, t.server.own), loads);
    KeyingEnds(u.client);
    u := MainRuns(s, u, loads);
    u := ServerTakes(s, u, Frame(ForServer, Content(SYMMETRIC_KEY, t.server.own)), loads);
  }

  /** The handshake can be completed: some order of steps takes both ends to the session. */
  lemma HandshakeCanComplete(own: Bytes, publicKey: Bytes, loads: Bytes -> bool) returns (t: Sys)
    requires loads(publicKey)
    ensures Reaches(Connected(own, publicKey), t, loads)
    ensures t.server.stage == StableCommunication && t.server.id == 1
    ensures t.client == Ready(publicKey, Session, Some(own)) && t.read == 3
  {
    var s := Connected(own, publicKey);
    t := OpeningCompletes(own, publicKey, loads);
    t := KeyingCompletes(s, t, publicKey, loads);
    var test := Content(TEST_KEY, own);
    t := Reads(s, t, loads);
    AnswerRests(t.client, test);
    t := MainRuns(s, t, loads);
    t := Writes(s, t, test, loads);
    t := ServerTakes(s, t, Frame(UnderSession(own), test), loads);
  }

  // ---- and it can stop for good ---------------------------------------------------------------------------

  /** The writer is through with the public key before the main thread sets `sending`: the main thread
      waits for ever. */
  lemma MainCanBlock(own: Bytes, publicKey: Bytes, loads: Bytes -> bool) returns (t: Sys)
    ensures Reaches(Connected(own, publicKey), t, loads) && WaitsForever(t.client)
  {
    var s := Connected(own, publicKey);
    assert Run(s, [], loads, s);
    t := Reads(s, s, loads);
    t := KeyIsPut(s, t, loads);
    t := Writes(s, t, Content(PUBLIC_KEY, publicKey), loads);
    Goes(s, t, Main, loads);
    t := Step(t, Main, loads);
  }

  lemma KeyIsPut(s: Sys, t: Sys, loads: Bytes -> bool) returns (u: Sys)
    requires Reaches(s, t, loads) && t.client.main == MEncryptionOn && t.client.sendInstructions == []
    ensures Reaches(s, u, loads)
    ensures u == t.(client := t.client.(encryptionOn := true, cipher := ServerPublic,
                    sendInstructions := [Content(PUBLIC_KEY, t.client.publicKey)], main := MFlag1))
  {
    u := t;
    for i := 0 to 3
      invariant Reaches(s, u, loads)
      invariant i == 0 ==> u == t
      invariant i == 1 ==> u == t.(client := t.client.(encryptionOn := true, main := MServerPublic))
      invariant i == 2 ==> u == t.(client := t.client.(encryptionOn := true, cipher := ServerPublic, main := MPutKey))
      invariant i == 3 ==> u == t.(client := t.client.(encryptionOn := true, cipher := ServerPublic,
        sendInstructions := [Content(PUBLIC_KEY, t.client.publicKey)], main := MFlag1))
    {
      Goes(s, u, Main, loads);
      u := Step(u, Main, loads);
    }
  }

  /** The main thread is through with OPEN_ENCR before the reader clears `receiveNext`: the reader waits
      for ever. */
  lemma ReaderCanGoDeaf(own: Bytes, publicKey: Bytes, loads: Bytes -> bool) returns (t: Sys)
    ensures Reaches(Connected(own, publicKey), t, loads) && DeafForever(t.client)
  {
    var s := Connected(own, publicKey);
    assert Run(s, [], loads, s);
    t := Puts(s, s, loads);
    Goes(s, t, Main, loads);
    t := Step(t, Main, loads);
    OpeningRests(t.client);
    t := MainRuns(s, t, loads);
    t := Writes(s, t, Content(PUBLIC_KEY, publicKey), loads);
    OpeningEnds(t.client);
    t := MainRuns(s, t, loads);
  }
}
