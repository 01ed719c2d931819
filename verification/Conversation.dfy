/** The handshake system as a conversation: the packets of the client on their way to the server, and
    those of the server on their way to the client's main thread.  In every run each is handled once,
    in order, and opened; and the server is the one of module Protocol, fed with what the client put. */
module Conversation {
  import opened Common
  import opened Packets
  import opened Protocol
  import opened HandshakeSystem
  import opened Ciphers

  /** What the client has put and the server has not taken yet, the oldest first. */
  function ToCome(s: HandshakeSystem.Sys): seq<Content> {
    Contents(s.toServer) + (if s.client.writer.WSend? then [s.client.writer.c] else []) + s.client.sendInstructions
  }

  /** What an event of the main thread puts. */
  function Put(s: HandshakeSystem.Sys, e: HandshakeSystem.Event): seq<Content> {
    if !e.Main? then []
    else
      match s.client.main
      case MPutKey => [Content(PUBLIC_KEY, s.client.publicKey)]
      case MPutEcho(key) => [Content(SYMMETRIC_KEY, key)]
      case MPut(c) => [c]
      case _ => []
  }

  /** What an event makes the server take: one packet, or two at the test. */
  function Received(s: HandshakeSystem.Sys, e: HandshakeSystem.Event): seq<Content>
    requires HandshakeSystem.Possible(s, e)
  {
    if !e.ServerReceives? then []
    else Contents(s.toServer[..if e.ahead && s.server.stage == TestKey then 2 else 1])
  }

  lemma ContentsAppend(a: seq<Frame>, b: seq<Frame>)
    ensures Contents(a + b) == Contents(a) + Contents(b)
  {
  }

  lemma WriterKeepsOrder(s: HandshakeSystem.Sys)
    requires HandshakeSystem.Possible(s, Writer) && !WriterStep(s).client.writer.WFailed?
    ensures ToCome(WriterStep(s)) == ToCome(s)
  {
    if s.client.writer.WSend? {
      ContentsAppend(s.toServer, [Frame(ClientLocks(s.client).value, s.client.writer.c)]);
    }
  }

  lemma MainKeepsOrder(s: HandshakeSystem.Sys)
    ensures ToCome(s.(client := MainStep(s.client))) == ToCome(s) + Put(s, Main)
  {
    assert MainStep(s.client).sendInstructions == s.client.sendInstructions + Put(s, Main);
  }

  lemma ReaderKeepsOrder(s: HandshakeSystem.Sys)
    ensures ToCome(ReaderStep(s)) == ToCome(s)
  {
  }

  lemma ServerKeepsOrder(s: HandshakeSystem.Sys, n: nat)
    requires n <= |s.toServer|
    ensures Contents(s.toServer[..n]) + ToCome(s.(toServer := s.toServer[n..])) == ToCome(s)
  {
    assert s.toServer == s.toServer[..n] + s.toServer[n..];
    ContentsAppend(s.toServer[..n], s.toServer[n..]);
  }

  /** What is to come depends on the client and the frames in flight to the server alone. */
  lemma SameToCome(s: HandshakeSystem.Sys, t: HandshakeSystem.Sys)
    requires t.client == s.client && t.toServer == s.toServer
    ensures ToCome(t) == ToCome(s)
  {
  }

  lemma StepKeepsOrder(s: HandshakeSystem.Sys, e: HandshakeSystem.Event, loads: Bytes -> bool)
    requires HandshakeSystem.Possible(s, e) && !HandshakeSystem.Step(s, e, loads).client.writer.WFailed?
    ensures Received(s, e) + ToCome(HandshakeSystem.Step(s, e, loads)) == ToCome(s) + Put(s, e)
  {
    if e.ServerReceives? {
      TakingKeepsOrder(s, e, loads);
    } else {
      OthersKeepOrder(s, e, loads);
      assert [] + ToCome(HandshakeSystem.Step(s, e, loads)) == ToCome(HandshakeSystem.Step(s, e, loads));
    }
  }

  lemma TakingKeepsOrder(s: HandshakeSystem.Sys, e: HandshakeSystem.Event, loads: Bytes -> bool)
    requires HandshakeSystem.Possible(s, e) && e.ServerReceives?
    ensures Received(s, e) + ToCome(HandshakeSystem.Step(s, e, loads)) == ToCome(s) + Put(s, e)
  {
    var n := if e.ahead && s.server.stage == TestKey then 2 else 1;
    ServerKeepsOrder(s, n);
    SameToCome(s.(toServer := s.toServer[n..]), HandshakeSystem.Step(s, e, loads));
    assert ToCome(s) + [] == ToCome(s);
  }

  lemma OthersKeepOrder(s: HandshakeSystem.Sys, e: HandshakeSystem.Event, loads: Bytes -> bool)
    requires HandshakeSystem.Possible(s, e) && !e.ServerReceives?
    requires !HandshakeSystem.Step(s, e, loads).client.writer.WFailed?
    ensures ToCome(HandshakeSystem.Step(s, e, loads)) == ToCome(s) + Put(s, e)
  {
    assert ToCome(s) + [] == ToCome(s);
    if e.Writer? {
      WriterKeepsOrder(s);
    } else if e.Main? {
      MainKeepsOrder(s);
    } else if e.Reader? {
      ReaderKeepsOrder(s);
    } else {
      SameToCome(s, HandshakeSystem.Step(s, e, loads));
    }
  }

  // ---- whole runs --------------------------------------------------------------------------------------

  function AllPut(s: HandshakeSystem.Sys, es: seq<HandshakeSystem.Event>, loads: Bytes -> bool): seq<Content>
    decreases |es|
  {
    if es == [] || !HandshakeSystem.Possible(s, es[0]) then []
    else Put(s, es[0]) + AllPut(HandshakeSystem.Step(s, es[0], loads), es[1..], loads)
  }

  function AllReceived(s: HandshakeSystem.Sys, es: seq<HandshakeSystem.Event>, loads: Bytes -> bool): seq<Content>
    decreases |es|
  {
    if es == [] || !HandshakeSystem.Possible(s, es[0]) then []
    else Received(s, es[0]) + AllReceived(HandshakeSystem.Step(s, es[0], loads), es[1..], loads)
  }

  /** Conservation: what the server has taken, followed by what is still to come, is what the client's
      main thread put, in order, whatever the interleaving. */
  lemma {:induction false} NothingIsLostOrReordered(s: HandshakeSystem.Sys, es: seq<HandshakeSystem.Event>,
                                                    loads: Bytes -> bool, t: HandshakeSystem.Sys)
    requires HandshakeSystem.Inv(s) && loads(s.client.publicKey) && HandshakeSystem.Run(s, es, loads, t)
    ensures AllReceived(s, es, loads) + ToCome(t) == ToCome(s) + AllPut(s, es, loads)
    decreases |es|
  {
    if es == [] {
      assert [] + ToCome(t) == ToCome(s) + [];
    } else {
      var s' := HandshakeSystem.Step(s, es[0], loads);
      StepKeepsWriter(s, es[0], loads);
      StepKeepsOrder(s, es[0], loads);
      NothingIsLostOrReordered(s', es[1..], loads, t);
      Regroup(Received(s, es[0]), AllReceived(s', es[1..], loads), ToCome(t),
              ToCome(s'), AllPut(s', es[1..], loads), ToCome(s), Put(s, es[0]));
    }
  }

  lemma Regroup(r: seq<Content>, rs: seq<Content>, last: seq<Content>, mid: seq<Content>, ps: seq<Content>,
                first: seq<Content>, p: seq<Content>)
    requires rs + last == mid + ps && r + mid == first + p
    ensures (r + rs) + last == first + (p + ps)
  {
    assert (r + rs) + last == r + (rs + last) == (r + mid) + ps;
  }

  lemma StepKeepsWriter(s: HandshakeSystem.Sys, e: HandshakeSystem.Event, loads: Bytes -> bool)
    requires HandshakeSystem.Inv(s) && loads(s.client.publicKey) && HandshakeSystem.Possible(s, e)
    ensures var t := HandshakeSystem.Step(s, e, loads);
      HandshakeSystem.Inv(t) && t.client.publicKey == s.client.publicKey && !t.client.writer.WFailed?
  {
    StepKeepsInv(s, e, loads);
    KeysStay(s, e, loads);
    NoWriterFailed(HandshakeSystem.Step(s, e, loads));
  }

  lemma NoWriterFailed(s: HandshakeSystem.Sys)
    requires HandshakeSystem.Inv(s)
    ensures !s.client.writer.WFailed?
  {
  }

  // ---- each packet is opened ------------------------------------------------------------------------------

  /** The server handles each packet that it takes as the client put it: no decryption fails, and nothing
      is readable behind it until the protocol is open. */
  lemma ServerHandlesReceived(s: HandshakeSystem.Sys, e: HandshakeSystem.Event, loads: Bytes -> bool)
    requires HandshakeSystem.Inv(s) && HandshakeSystem.Possible(s, e) && e.ServerReceives?
    ensures |Received(s, e)| == 1
    ensures HandshakeSystem.Step(s, e, loads).server ==
            ReceiveData(s.server, Some(Received(s, e)[0]), None, loads, e.newId, e.nameOk)
  {
    ServerOpensNext(s);
  }

  /** The main thread takes the packets of the server one by one, in the order in which they were sent. */
  lemma MainTakesInOrder(s: HandshakeSystem.Sys)
    requires HandshakeSystem.Inv(s) && HandshakeSystem.Possible(s, Main) && s.client.main == MTake
    ensures var t := s.(client := MainStep(s.client));
      && Taken(t) == Taken(s) + 1 && 0 <= Taken(s) < |s.server.outbox|
      && t.client.main == Dispatch(s.server.outbox[Taken(s)].content)
  {
  }

  // ---- the server alone ------------------------------------------------------------------------------------

  /** What an event of the system is for the server. */
  function ServerEvent(s: HandshakeSystem.Sys, e: HandshakeSystem.Event): seq<Protocol.Event>
    requires HandshakeSystem.Possible(s, e)
  {
    match e
    case ServerReceives(_, newId, nameOk) =>
      if Received(s, e) == [] then [] else [Receive(Some(Received(s, e)[0]), None, newId, nameOk)]
    case ServerUpdates(news) => [Updated(news)]
    case ServerPacketSent => [PacketSent]
    case _ => []
  }

  function ServerEvents(s: HandshakeSystem.Sys, es: seq<HandshakeSystem.Event>, loads: Bytes -> bool)
    : seq<Protocol.Event>
    decreases |es|
  {
    if es == [] || !HandshakeSystem.Possible(s, es[0]) then []
    else ServerEvent(s, es[0]) + ServerEvents(HandshakeSystem.Step(s, es[0], loads), es[1..], loads)
  }

  function Fold(s: Server, ps: seq<Protocol.Event>, loads: Bytes -> bool): Server
    decreases |ps|
  {
    if ps == [] then s else Fold(Protocol.Step(s, ps[0], loads), ps[1..], loads)
  }

  lemma {:induction false} FoldAppend(s: Server, a: seq<Protocol.Event>, b: seq<Protocol.Event>, loads: Bytes -> bool)
    ensures Fold(s, a + b, loads) == Fold(Fold(s, a, loads), b, loads)
    decreases |a|
  {
    if a == [] {
      assert a + b == b;
    } else {
      assert (a + b)[1..] == a[1..] + b;
      FoldAppend(Protocol.Step(s, a[0], loads), a[1..], b, loads);
    }
  }

  lemma {:induction false} FoldIsAfter(own: Bytes, ps: seq<Protocol.Event>, loads: Bytes -> bool)
    ensures Fold(Created(own), ps, loads) == After(own, ps, loads)
    decreases |ps|
  {
    if ps != [] {
      var n := |ps| - 1;
      FoldIsAfter(own, ps[..n], loads);
      assert ps == ps[..n] + [ps[n]];
      FoldAppend(Created(own), ps[..n], [ps[n]], loads);
    }
  }

  lemma StepIsServerEvent(s: HandshakeSystem.Sys, e: HandshakeSystem.Event, loads: Bytes -> bool)
    requires HandshakeSystem.Inv(s) && HandshakeSystem.Possible(s, e)
    ensures HandshakeSystem.Step(s, e, loads).server == Fold(s.server, ServerEvent(s, e), loads)
  {
    if e.ServerReceives? {
      ServerHandlesReceived(s, e, loads);
    }
  }

  lemma {:induction false} ServerFollowsProtocol(s: HandshakeSystem.Sys, es: seq<HandshakeSystem.Event>,
                                                 loads: Bytes -> bool, t: HandshakeSystem.Sys)
    requires HandshakeSystem.Inv(s) && loads(s.client.publicKey) && HandshakeSystem.Run(s, es, loads, t)
    ensures t.server == Fold(s.server, ServerEvents(s, es, loads), loads)
    decreases |es|
  {
    if es != [] {
      var s' := HandshakeSystem.Step(s, es[0], loads);
      StepKeepsWriter(s, es[0], loads);
      StepIsServerEvent(s, es[0], loads);
      ServerFollowsProtocol(s', es[1..], loads, t);
      FoldAppend(s.server, ServerEvent(s, es[0]), ServerEvents(s', es[1..], loads), loads);
    }
  }

  /** Over every run of the system, the server is where Protocol takes it with the packets that came, each as
      the client put it and none readable behind it; so all that holds of a server with any peer holds here. */
  lemma ServerRunsProtocol(own: Bytes, publicKey: Bytes, es: seq<HandshakeSystem.Event>, loads: Bytes -> bool,
                           t: HandshakeSystem.Sys)
    requires loads(publicKey) && HandshakeSystem.Run(Connected(own, publicKey), es, loads, t)
    ensures t.server == After(own, ServerEvents(Connected(own, publicKey), es, loads), loads)
    ensures AllReceived(Connected(own, publicKey), es, loads) + ToCome(t) ==
            AllPut(Connected(own, publicKey), es, loads)
  {
    var s := Connected(own, publicKey);
    RunKeepsInv(s, [], loads, s);
    ServerFollowsProtocol(s, es, loads, t);
    FoldIsAfter(own, ServerEvents(s, es, loads), loads);
    NothingIsLostOrReordered(s, es, loads, t);
    assert ToCome(s) + AllPut(s, es, loads) == AllPut(s, es, loads);
  }

  /** A session that was erased handles nothing more, whatever the client goes on to do. */
  lemma {:induction false} ErasedServerRests(s: HandshakeSystem.Sys, es: seq<HandshakeSystem.Event>,
                                             loads: Bytes -> bool, t: HandshakeSystem.Sys)
    requires HandshakeSystem.Possible(s, ServerErased)
    requires HandshakeSystem.Run(HandshakeSystem.Step(s, ServerErased, loads), es, loads, t)
    ensures t.server == s.server && s.toServer <= t.toServer
  {
    DeadServerRests(HandshakeSystem.Step(s, ServerErased, loads), es, loads, t);
  }

  lemma {:induction false} DeadServerRests(s: HandshakeSystem.Sys, es: seq<HandshakeSystem.Event>,
                                           loads: Bytes -> bool, t: HandshakeSystem.Sys)
    requires !s.alive && HandshakeSystem.Run(s, es, loads, t)
    ensures t.server == s.server && s.toServer <= t.toServer
    decreases |es|
  {
    if es != [] {
      DeadServerRests(HandshakeSystem.Step(s, es[0], loads), es[1..], loads, t);
    }
  }
}
