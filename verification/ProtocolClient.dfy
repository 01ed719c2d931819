/** The server's end of the handshake: the stages of `ProtocolClient`, step by step, against a
    peer that may send anything. */
module Protocol {
  import opened Common
  import opened Packets
  import opened Crypto

  datatype Stage = SetPublicKey | SetSymmetricKey | TestKey | StableCommunication | Exit

  function Rank(s: Stage): nat {
    match s
    case SetPublicKey => 0
    case SetSymmetricKey => 1
    case TestKey => 2
    case StableCommunication => 3
    case Exit => 4
  }

  /** What `recvPacket` gives: a packet, or an exception when there is nothing to read, the bytes do
      not decrypt, or they do not parse. */
  type Incoming = Option<Content>

  /** A packet on its way out, with the algorithm and the peer's key in use when it was sent. */
  datatype Out = Out(algorithm: Algorithm, key: Option<Bytes>, content: Content)

  /** `own` is the server's symmetric key; `erase` counts the EraseClient messages posted; `acted`
      are the commands passed to the data manager, with the id they were passed for. */
  datatype Server = Server(
    stage: Stage, algorithm: Algorithm, outer: Option<Bytes>, own: Bytes, id: int,
    remaining: seq<Content>, outbox: seq<Out>, erase: nat, acted: seq<(int, Content)>)
  {
    function Use(a: Algorithm): Server {
      this.(algorithm := a)
    }

    function SendPacket(c: Content): Server {
      this.(outbox := outbox + [Out(algorithm, outer, c)])
    }

    function CloseConnection(): Server {
      this.(erase := erase + 1)
    }
  }

  /** The constructor greets the peer in the clear. */
  function Created(own: Bytes): Server {
    Server(SetPublicKey, NoCipher, None, own, 0, [], [], 0, []).SendPacket(Content(OPEN_ENCR, []))
  }

  /** The algorithm chosen before the packet of a stage is received, and thus decrypted. */
  function Readied(s: Server): Server {
    match s.stage
    case SetPublicKey => s.Use(ServerRSA)
    case SetSymmetricKey => s.Use(ServerRSA)
    case TestKey => s.Use(AES)
    case _ => s
  }

  /** `loads` tells which bytes load and validate as a public key. */
  function SetPublicKeyStep(s: Server, input: Incoming, loads: Bytes -> bool): Server {
    var s1 := s.Use(ServerRSA);
    if input.Some? && input.value.kind == PUBLIC_KEY && loads(input.value.payload) then
      var s2 := s1.(outer := Some(input.value.payload)).Use(OuterRSA);
      s2.SendPacket(Content(SYMMETRIC_KEY, s.own)).(stage := SetSymmetricKey)
    else s1.CloseConnection()
  }

  function SetSymmetricKeyStep(s: Server, input: Incoming): Server {
    var s1 := s.Use(ServerRSA);
    if input == Some(Content(SYMMETRIC_KEY, s.own)) then
      s1.Use(AES).SendPacket(Content(TEST_KEY, s.own)).(stage := TestKey)
    else s1.CloseConnection()
  }

  /** `newId` is the answer of `registerClient`. */
  function TestKeyStep(s: Server, input: Incoming, newId: int): Server {
    var s1 := s.Use(AES);
    if input.Some? && input.value.kind == TEST_KEY then
      s1.SendPacket(Content(OPEN_PROT, [])).(stage := StableCommunication, id := newId)
    else s1.CloseConnection()
  }

  /** The commands that reach the data manager; a location must have 16 bytes. */
  predicate IsCommand(c: Content) {
    c.kind in {SET_NAME, ADD_FOLLOWER, REMOVE_FOLLOWER, REMOVE_FOLLOWED} || (c.kind == MY_LOCATION && |c.payload| == 16)
  }

  /** `nameOk` is the answer of `setName`. */
  function StableStep(s: Server, input: Incoming, nameOk: bool): Server {
    if input.None? || input.value.kind == CLOSE || (input.value.kind == MY_LOCATION && |input.value.payload| != 16)
    then s.CloseConnection()
    else if IsCommand(input.value) then
      var s1 := s.(acted := s.acted + [(s.id, input.value)]);
      if input.value.kind == SET_NAME then s1.SendPacket(Content(if nameOk then ACK_OK else ACK_ERR, [])) else s1
    else s
  }

  /** `receiveData`: the case of `testKey` has no break, so a second packet is asked for at once.
      `second` is what that read gives. */
  function ReceiveData(s: Server, first: Incoming, second: Incoming, loads: Bytes -> bool, newId: int,
                       nameOk: bool): Server {
    match s.stage
    case SetPublicKey => SetPublicKeyStep(s, first, loads)
    case SetSymmetricKey => SetSymmetricKeyStep(s, first)
    case TestKey => StableStep(TestKeyStep(s, first, newId), second, nameOk)
    case StableCommunication => StableStep(s, first, nameOk)
    case Exit => s
  }

  function SendRemainingData(s: Server): Server {
    if s.remaining == [] then s else s.SendPacket(s.remaining[0]).(remaining := s.remaining[1..])
  }

  /** `update` with the packets made of the new names and positions. */
  function UpdateStep(s: Server, news: seq<Content>): Server {
    SendRemainingData(if s.stage == StableCommunication then s.(remaining := s.remaining + news) else s)
  }

  // ---- the class ---------------------------------------------------------------------------------

  class ProtocolClient {
    var stage: Stage
    var algorithm: Algorithm
    var outer: Option<Bytes>
    var id: int
    var remainingPackets: seq<Content>
    var outbox: seq<Out>
    var erase: nat
    var acted: seq<(int, Content)>
    const own: Bytes
    const loads: Bytes -> bool

    function View(): Server
      reads this
    {
      Server(stage, algorithm, outer, own, id, remainingPackets, outbox, erase, acted)
    }

    constructor (own: Bytes, loads: Bytes -> bool)
      ensures View() == Created(own) && this.loads == loads
    {
      this.own, this.loads := own, loads;
      stage, algorithm, outer, id := SetPublicKey, NoCipher, None, 0;
      remainingPackets, outbox, erase, acted := [], [], 0, [];
      new;
      SendPacket(Content(OPEN_ENCR, []));
    }

    method SendPacket(c: Content)
      modifies this`outbox
      ensures View() == old(View()).SendPacket(c)
    {
      outbox := outbox + [Out(algorithm, outer, c)];
    }

    method CloseConnection()
      modifies this`erase
      ensures View() == old(View()).CloseConnection()
    {
      erase := erase + 1;
    }

    method DoSetPublicKey(input: Incoming)
      modifies this
      ensures View() == SetPublicKeyStep(old(View()), input, loads)
    {
      algorithm := ServerRSA;
      if input.None? {
        CloseConnection();
        return;
      }
      var packet := input.value;
      if packet.kind == PUBLIC_KEY && loads(packet.payload) {
        outer := Some(packet.payload);
        algorithm := OuterRSA;
        SendPacket(Content(SYMMETRIC_KEY, own));
        stage := SetSymmetricKey;
      } else {
        CloseConnection();
      }
    }

    method DoSetSymmetricKey(input: Incoming)
      modifies this
      ensures View() == SetSymmetricKeyStep(old(View()), input)
    {
      algorithm := ServerRSA;
      if input.Some? && input.value.kind == SYMMETRIC_KEY {
        if own != input.value.payload {
          CloseConnection();
        } else {
          algorithm := AES;
          SendPacket(Content(TEST_KEY, own));
          stage := TestKey;
        }
      } else {
        CloseConnection();
      }
    }

    method DoTestKey(input: Incoming, newId: int)
      modifies this
      ensures View() == TestKeyStep(old(View()), input, newId)
    {
      algorithm := AES;
      if input.Some? && input.value.kind == TEST_KEY {
        SendPacket(Content(OPEN_PROT, []));
        stage := StableCommunication;
        id := newId;
      } else {
        CloseConnection();
      }
    }

    method DoStableCommunication(input: Incoming, nameOk: bool)
      modifies this
      ensures View() == StableStep(old(View()), input, nameOk)
    {
      if input.None? {
        CloseConnection();
        return;
      }
      var packet := input.value;
      match packet.kind {
        case CLOSE => CloseConnection();
        case SET_NAME =>
          acted := acted + [(id, packet)];
          SendPacket(Content(if nameOk then ACK_OK else ACK_ERR, []));
        case ADD_FOLLOWER => acted := acted + [(id, packet)];
        case REMOVE_FOLLOWER => acted := acted + [(id, packet)];
        case REMOVE_FOLLOWED => acted := acted + [(id, packet)];
        case MY_LOCATION =>
          if |packet.payload| != 16 {
            CloseConnection();
          } else {
            acted := acted + [(id, packet)];
          }
        case _ =>
      }
    }

    method Receive(first: Incoming, second: Incoming, newId: int, nameOk: bool)
      modifies this
      ensures View() == ReceiveData(old(View()), first, second, loads, newId, nameOk)
    {
      match stage {
        case SetPublicKey => DoSetPublicKey(first);
        case SetSymmetricKey => DoSetSymmetricKey(first);
        case TestKey =>
          DoTestKey(first, newId);
          DoStableCommunication(second, nameOk);
        case StableCommunication => DoStableCommunication(first, nameOk);
        case Exit =>
      }
    }

    method SendRemaining()
      modifies this
      ensures View() == SendRemainingData(old(View()))
    {
      if remainingPackets != [] {
        SendPacket(remainingPackets[0]);
        remainingPackets := remainingPackets[1..];
      }
    }

    method Update(news: seq<Content>)
      modifies this
      ensures View() == UpdateStep(old(View()), news)
    {
      if stage == StableCommunication {
        remainingPackets := remainingPackets + news;
      }
      SendRemaining();
    }
  }

  // ---- any sequence of messages, from any peer -------------------------------------------------------

  datatype Event =
    | Receive(first: Incoming, second: Incoming, newId: int, nameOk: bool)
    | Updated(news: seq<Content>)
    | PacketSent

  function Step(s: Server, e: Event, loads: Bytes -> bool): Server {
    match e
    case Receive(first, second, newId, nameOk) => ReceiveData(s, first, second, loads, newId, nameOk)
    case Updated(news) => UpdateStep(s, news)
    case PacketSent => SendRemainingData(s)
  }

  function After(own: Bytes, es: seq<Event>, loads: Bytes -> bool): Server
    decreases |es|
  {
    if es == [] then Created(own) else Step(After(own, es[..|es| - 1], loads), es[|es| - 1], loads)
  }

  /** The stage never goes back, moves one at a time, and the server's own key never changes. */
  lemma StageNeverGoesBack(s: Server, e: Event, loads: Bytes -> bool)
    ensures Rank(s.stage) <= Rank(Step(s, e, loads).stage) <= Rank(s.stage) + 1
    ensures Step(s, e, loads).own == s.own
    ensures Rank(s.stage) >= 1 ==> Step(s, e, loads).outer == s.outer
  {
  }

  /** Event i is the receipt of a packet, as the first read of the message. */
  predicate ReceivesAt(es: seq<Event>, i: nat, c: Content) {
    i < |es| && es[i].Receive? && es[i].first == Some(c)
  }

  lemma {:induction false} PublicKeyWasAccepted(own: Bytes, es: seq<Event>, loads: Bytes -> bool)
    returns (i: nat, key: Bytes)
    requires Rank(After(own, es, loads).stage) >= 1
    ensures ReceivesAt(es, i, Content(PUBLIC_KEY, key)) && loads(key)
    ensures After(own, es, loads).outer == Some(key) && After(own, es, loads).own == own
    ensures After(own, es[..i], loads).stage == SetPublicKey
    decreases |es|
  {
    var n := |es| - 1;
    var s := After(own, es[..n], loads);
    OwnKeyStays(own, es, loads);
    StageNeverGoesBack(s, es[n], loads);
    if Rank(s.stage) >= 1 {
      i, key := PublicKeyWasAccepted(own, es[..n], loads);
      assert es[..n][..i] == es[..i];
    } else {
      i, key := n, es[n].first.value.payload;
    }
  }

  lemma {:induction false} OwnKeyStays(own: Bytes, es: seq<Event>, loads: Bytes -> bool)
    ensures After(own, es, loads).own == own
    decreases |es|
  {
    if es != [] {
      OwnKeyStays(own, es[..|es| - 1], loads);
      StageNeverGoesBack(After(own, es[..|es| - 1], loads), es[|es| - 1], loads);
    }
  }

  lemma {:induction false} SymmetricKeyWasEchoed(own: Bytes, es: seq<Event>, loads: Bytes -> bool)
    returns (i: nat, j: nat, key: Bytes)
    requires Rank(After(own, es, loads).stage) >= 2
    ensures i < j && ReceivesAt(es, i, Content(PUBLIC_KEY, key)) && loads(key)
    ensures ReceivesAt(es, j, Content(SYMMETRIC_KEY, own))
    ensures After(own, es, loads).outer == Some(key)
    ensures After(own, es[..i], loads).stage == SetPublicKey && After(own, es[..j], loads).stage == SetSymmetricKey
    decreases |es|
  {
    var n := |es| - 1;
    var s := After(own, es[..n], loads);
    OwnKeyStays(own, es[..n], loads);
    StageNeverGoesBack(s, es[n], loads);
    if Rank(s.stage) >= 2 {
      i, j, key := SymmetricKeyWasEchoed(own, es[..n], loads);
      assert es[..n][..i] == es[..i] && es[..n][..j] == es[..j];
    } else {
      i, key := PublicKeyWasAccepted(own, es[..n], loads);
      j := n;
      assert es[..n][..i] == es[..i];
    }
  }

  /** PUBLIC_KEY with `key` was the i-th event, the echo of the server's own symmetric key the j-th and
      TEST_KEY the k-th, in this order and each in its stage. */
  predicate InOrder(own: Bytes, es: seq<Event>, loads: Bytes -> bool, i: nat, j: nat, k: nat, key: Bytes, test: Bytes) {
    && i < j < k && ReceivesAt(es, i, Content(PUBLIC_KEY, key)) && loads(key)
    && ReceivesAt(es, j, Content(SYMMETRIC_KEY, own)) && ReceivesAt(es, k, Content(TEST_KEY, test))
    && After(own, es[..i], loads).stage == SetPublicKey
    && After(own, es[..j], loads).stage == SetSymmetricKey
    && After(own, es[..k], loads).stage == TestKey
  }

  /** Handshake order: in StableCommunication a valid public key, then the echo of the server's own
      symmetric key, then a test key were received, in this order and each in its stage; and the
      key in use is that public key. */
  lemma {:induction false} HandshakeOrder(own: Bytes, es: seq<Event>, loads: Bytes -> bool)
    returns (i: nat, j: nat, k: nat, key: Bytes, test: Bytes)
    requires After(own, es, loads).stage == StableCommunication
    ensures InOrder(own, es, loads, i, j, k, key, test)
    ensures After(own, es, loads).outer == Some(key)
    decreases |es|
  {
    var n := |es| - 1;
    var s := After(own, es[..n], loads);
    StageNeverGoesBack(s, es[n], loads);
    if s.stage == StableCommunication {
      i, j, k, key, test := HandshakeOrder(own, es[..n], loads);
      assert es[..n][..i] == es[..i] && es[..n][..j] == es[..j] && es[..n][..k] == es[..k];
    } else {
      i, j, key := SymmetricKeyWasEchoed(own, es[..n], loads);
      k, test := n, es[n].first.value.payload;
      assert es[..n][..i] == es[..i] && es[..n][..j] == es[..j];
    }
  }

  /** Before the test, a message either takes the session one stage on, answered by exactly one packet
      under the cipher of the next stage, or leaves stage and peer alone, unanswered, and asks once for
      erasure. */
  lemma AdvanceOrErase(s: Server, first: Incoming, second: Incoming, loads: Bytes -> bool, newId: int, nameOk: bool)
    requires s.stage == SetPublicKey || s.stage == SetSymmetricKey
    ensures var t := ReceiveData(s, first, second, loads, newId, nameOk);
      var next := if s.stage == SetPublicKey then OuterRSA else AES;
      && t.id == s.id && t.acted == s.acted && t.remaining == s.remaining
      && if Rank(t.stage) == Rank(s.stage) + 1
         then |t.outbox| == |s.outbox| + 1 && t.outbox[..|s.outbox|] == s.outbox && t.erase == s.erase
              && t.algorithm == next && t.outbox[|s.outbox|].algorithm == next
              && t.outbox[|s.outbox|].content.payload == s.own
         else t.stage == s.stage && t.outbox == s.outbox && t.outer == s.outer && t.erase == s.erase + 1
  {
  }

  /** What a server is left with when a packet of a stage does not come through at all is what it had
      readied for it, with one request for erasure. */
  lemma FailureLeavesReadied(s: Server, second: Incoming, loads: Bytes -> bool, newId: int, nameOk: bool)
    requires s.stage != Exit
    ensures var t := ReceiveData(s, None, second, loads, newId, nameOk);
      s.stage != TestKey ==> t == Readied(s).CloseConnection()
    ensures TestKeyStep(s, None, newId) == s.Use(AES).CloseConnection()
  {
  }

  /** At the test, any TEST_KEY opens the protocol: one OPEN_PROT goes out in the session, which has the id
      that registration gave; anything else changes neither stage nor id, is not answered, and asks once
      for erasure. */
  lemma TestOpensOrErases(s: Server, input: Incoming, newId: int)
    requires s.stage == TestKey
    ensures var t := TestKeyStep(s, input, newId);
      && t.outer == s.outer && t.own == s.own && t.remaining == s.remaining && t.acted == s.acted
      && if input.Some? && input.value.kind == TEST_KEY
         then t.stage == StableCommunication && t.id == newId && t.erase == s.erase
              && t.outbox == s.outbox + [Out(AES, s.outer, Content(OPEN_PROT, []))]
         else t.stage == s.stage && t.id == s.id && t.outbox == s.outbox && t.erase == s.erase + 1
  {
  }

  /** In StableCommunication a SET_NAME is answered by one packet, ACK_OK exactly when the name was granted
      and ACK_ERR otherwise; and nothing else is answered. */
  lemma OnlyNamesAreAnswered(s: Server, input: Incoming, nameOk: bool)
    requires s.stage == StableCommunication
    ensures var t := StableStep(s, input, nameOk);
      if input.Some? && input.value.kind == SET_NAME
      then |t.outbox| == |s.outbox| + 1 && t.outbox[..|s.outbox|] == s.outbox
           && (t.outbox[|s.outbox|].content.kind == ACK_OK <==> nameOk)
           && (t.outbox[|s.outbox|].content.kind == ACK_ERR <==> !nameOk)
           && t.outbox[|s.outbox|].algorithm == s.algorithm && t.outbox[|s.outbox|].key == s.outer
           && t.outbox[|s.outbox|].content.payload == []
      else t.outbox == s.outbox
  {
  }

  /** Which packets reach the data manager, with the session's id, and which ask for erasure; nothing else
      of the session changes. */
  lemma CommandsAreActedOn(s: Server, input: Incoming, nameOk: bool)
    requires s.stage == StableCommunication
    ensures var t := StableStep(s, input, nameOk);
      && t == s.(acted := t.acted, erase := t.erase, outbox := t.outbox)
      && (t.acted != s.acted <==>
            input.Some? &&
              (|| input.value.kind == SET_NAME || input.value.kind == ADD_FOLLOWER
               || input.value.kind == REMOVE_FOLLOWER || input.value.kind == REMOVE_FOLLOWED
               || (input.value.kind == MY_LOCATION && |input.value.payload| == 16)))
      && (t.acted != s.acted ==> t.acted == s.acted + [(s.id, input.value)])
      && (t.erase != s.erase <==>
            || input.None? || input.value.kind == CLOSE
            || (input.value.kind == MY_LOCATION && |input.value.payload| != 16))
      && (t.erase != s.erase ==> t.erase == s.erase + 1)
  {
    if input.Some? {
      assert s.acted + [(s.id, input.value)] != s.acted;
    }
  }

  /** The answer of the registration at the accepted test, 0 before. */
  function Granted(own: Bytes, es: seq<Event>, loads: Bytes -> bool): int
    decreases |es|
  {
    if es == [] then 0
    else
      var n := |es| - 1;
      var before, after := After(own, es[..n], loads).stage, After(own, es, loads).stage;
      if before == TestKey && after == StableCommunication && es[n].Receive?
      then es[n].newId else Granted(own, es[..n], loads)
  }

  /** A session's id is the one its registration gave it, and 0 before; so the id is positive, and the
      destructor unregisters, exactly in StableCommunication after a registration that gave a positive
      id. */
  lemma {:induction false} IdIffStable(own: Bytes, es: seq<Event>, loads: Bytes -> bool)
    ensures After(own, es, loads).id == Granted(own, es, loads)
    ensures After(own, es, loads).stage != StableCommunication ==> Granted(own, es, loads) == 0
    ensures After(own, es, loads).id > 0 <==>
      After(own, es, loads).stage == StableCommunication && Granted(own, es, loads) > 0
    ensures After(own, es, loads).stage != Exit
    decreases |es|
  {
    if es != [] {
      IdIffStable(own, es[..|es| - 1], loads);
    }
  }

  /** Nothing is readable behind a test key. */
  predicate NothingBehind(es: seq<Event>) {
    forall i :: 0 <= i < |es| && es[i].Receive? ==> es[i].second == None
  }

  /** When nothing is readable behind a test key, commands reach the data manager in
      StableCommunication only, with the id that registration gave. */
  lemma {:induction false} CommandsComeFromClients(own: Bytes, es: seq<Event>, loads: Bytes -> bool)
    requires NothingBehind(es)
    ensures forall a :: a in After(own, es, loads).acted ==>
      After(own, es, loads).stage == StableCommunication && a.0 == Granted(own, es, loads)
    decreases |es|
  {
    if es != [] {
      IdIffStable(own, es, loads);
      IdIffStable(own, es[..|es| - 1], loads);
      CommandsComeFromClients(own, es[..|es| - 1], loads);
    }
  }

  /** A message in stage TestKey runs a command for nobody, id 0, exactly when a command is readable
      behind it and the test fails (or registration answers 0): the missing break. */
  lemma FallThroughActsForNobodyIff(s: Server, first: Incoming, second: Incoming, loads: Bytes -> bool, newId: int,
                                    nameOk: bool)
    requires s.stage == TestKey && s.id == 0
    ensures var t := ReceiveData(s, first, second, loads, newId, nameOk);
      t.acted != s.acted && t.acted[|t.acted| - 1].0 == 0 <==>
        && second.Some? && IsCommand(second.value)
        && (newId == 0 || !(first.Some? && first.value.kind == TEST_KEY))
  {
    var t := ReceiveData(s, first, second, loads, newId, nameOk);
    assert t.acted == s.acted || (|t.acted| == |s.acted| + 1 && t.acted[|s.acted|].0 == t.id);
  }

  /** Any peer with a valid key can bring that about. */
  lemma CommandForNobody(own: Bytes, key: Bytes, loads: Bytes -> bool, command: Content) returns (es: seq<Event>)
    requires loads(key) && IsCommand(command)
    ensures After(own, es, loads).acted == [(0, command)]
  {
    es := [Receive(Some(Content(PUBLIC_KEY, key)), None, 1, true),
           Receive(Some(Content(SYMMETRIC_KEY, own)), None, 1, true),
           Receive(None, Some(command), 1, true)];
    var s1 := SetPublicKeyStep(Created(own), es[0].first, loads);
    assert es[..2][..1][..0] == [] && es[..2][..1] == [es[0]] && es[..2] == [es[0], es[1]];
    assert After(own, [es[0]], loads) == s1 by {
      assert [es[0]][..0] == [];
    }
    var s2 := SetSymmetricKeyStep(s1, es[1].first);
    assert After(own, es[..2], loads) == s2;
  }

  /** A successful test is followed by a request to erase the session exactly when the read behind
      it fails, brings CLOSE, or brings a location of the wrong size. */
  lemma FallThroughErasesIff(s: Server, test: Bytes, second: Incoming, loads: Bytes -> bool, newId: int, nameOk: bool)
    requires s.stage == TestKey
    ensures var t := ReceiveData(s, Some(Content(TEST_KEY, test)), second, loads, newId, nameOk);
      && t.stage == StableCommunication && t.id == newId
      && (t.erase > s.erase <==>
            || second.None?
            || second.value.kind == CLOSE
            || (second.value.kind == MY_LOCATION && |second.value.payload| != 16))
  {
  }

  // ---- the queue of news ---------------------------------------------------------------------------

  function NewsOf(s: Server, e: Event): seq<Content> {
    if e.Updated? && s.stage == StableCommunication then e.news else []
  }

  /** The packet that leaves through `sendRemainingData`, if one does. */
  function ReleasedBy(s: Server, e: Event, loads: Bytes -> bool): seq<Content> {
    var t := Step(s, e, loads);
    if !e.Receive? && |t.outbox| > |s.outbox| then [t.outbox[|s.outbox|].content] else []
  }

  function News(own: Bytes, es: seq<Event>, loads: Bytes -> bool): seq<Content>
    decreases |es|
  {
    if es == [] then []
    else
      var n := |es| - 1;
      News(own, es[..n], loads) + NewsOf(After(own, es[..n], loads), es[n])
  }

  function Released(own: Bytes, es: seq<Event>, loads: Bytes -> bool): seq<Content>
    decreases |es|
  {
    if es == [] then []
    else
      var n := |es| - 1;
      Released(own, es[..n], loads) + ReleasedBy(After(own, es[..n], loads), es[n], loads)
  }

  lemma StepReleases(s: Server, e: Event, loads: Bytes -> bool)
    ensures s.remaining + NewsOf(s, e) == ReleasedBy(s, e, loads) + Step(s, e, loads).remaining
  {
    var queue := s.remaining + NewsOf(s, e);
    if e.Receive? {
      assert queue == s.remaining && Step(s, e, loads).remaining == s.remaining;
    } else {
      assert NewsOf(s, e) == [] ==> queue == s.remaining;
      if queue != [] {
        assert queue == [queue[0]] + queue[1..];
      }
    }
  }

  /** No news is lost, repeated or reordered on its way to the peer. */
  lemma {:induction false} NewsAreReleasedInOrder(own: Bytes, es: seq<Event>, loads: Bytes -> bool)
    ensures News(own, es, loads) == Released(own, es, loads) + After(own, es, loads).remaining
    decreases |es|
  {
    if es != [] {
      var n := |es| - 1;
      NewsAreReleasedInOrder(own, es[..n], loads);
      var s := After(own, es[..n], loads);
      StepReleases(s, es[n], loads);
      Requeue(News(own, es[..n], loads), Released(own, es[..n], loads), s.remaining,
              NewsOf(s, es[n]), ReleasedBy(s, es[n], loads), Step(s, es[n], loads).remaining);
    }
  }

  lemma Requeue(all: seq<Content>, out: seq<Content>, queue: seq<Content>,
                more: seq<Content>, first: seq<Content>, rest: seq<Content>)
    requires all == out + queue && queue + more == first + rest
    ensures all + more == (out + first) + rest
  {
    assert (out + queue) + more == out + (queue + more);
    assert out + (first + rest) == (out + first) + rest;
  }
}
