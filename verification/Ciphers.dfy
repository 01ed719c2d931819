/** The locks of the handshake are ciphers: a frame opens under an equal lock.  The one exception is a
    text for the client's key that takes more than one block, which the client does not read. */
module Ciphers {
  import opened Common
  import opened Packets
  import opened Crypto
  import opened Protocol
  import opened HandshakeSystem
  import opened EncryptedMessengers
  import opened Buffers
  import opened SocketReads
  import opened Framing
  import opened EndToEnd

  /** What the keys stand for: the server's RSA pair, the pair behind a client's public key, and the
      symmetric cipher of a session key. */
  datatype Keys = Keys(server: Rsa, client: Bytes -> Rsa, session: Bytes -> Aes)

  ghost predicate SoundKeys(k: Keys) {
    && Sound(k.server) && k.server.cipherLen == SLOT
    && (forall key :: Sound(k.client(key)))
    && (forall key :: SoundAes(k.session(key)))
  }

  /** What the server sends under a lock. */
  function ServerSends(k: Keys, lock: Lock, text: Bytes, coins: int -> int): Option<Bytes> {
    match lock
    case Clear => Some(text)
    case ForServer => if Ends(k.server, text) then Some(EncryptRsa(k.server, text, coins)) else None
    case ForClient(key) => if Ends(k.client(key), text) then Some(EncryptRsa(k.client(key), text, coins)) else None
    case UnderSession(key) => Some(k.session(key).enc(text))
  }

  /** What the client sends under a lock: its own cutting, and never under its own key. */
  function ClientSends(k: Keys, lock: Lock, text: Bytes, coins: int -> int): Option<Bytes> {
    match lock
    case Clear => Some(text)
    case ForServer => Some(ClientCipher(k.server, text, coins))
    case ForClient(_) => None
    case UnderSession(key) => Some(k.session(key).enc(text))
  }

  /** What the server makes of a frame that it opens with a lock. */
  function ServerOpensWith(k: Keys, lock: Lock): Bytes -> Option<Bytes> {
    match lock
    case Clear => (bytes => Some(bytes))
    case ForServer => (bytes => if k.server.cipherLen >= 1 then DecryptRsa(k.server, bytes) else None)
    case ForClient(_) => (bytes => if bytes == [] then Some([]) else None)
    case UnderSession(key) => k.session(key).dec
  }

  /** What the client makes of a frame that it opens with a lock: under its own key, one block. */
  function ClientOpensWith(k: Keys, lock: Lock): Bytes -> Option<Bytes> {
    match lock
    case Clear => (bytes => Some(bytes))
    case ForServer => (_ => None)
    case ForClient(key) => k.client(key).dec
    case UnderSession(key) => k.session(key).dec
  }

  /** The server opens whatever the client has sent under the same lock. */
  lemma ServerOpensEqualLock(k: Keys, lock: Lock, text: Bytes, coins: int -> int)
    requires SoundKeys(k) && !lock.ForClient?
    ensures ClientSends(k, lock, text, coins).Some?
    ensures ServerOpensWith(k, lock)(ClientSends(k, lock, text, coins).value) == Some(text)
  {
    if lock.ForServer? {
      ServerReadsClient(k.server, text, coins);
    }
  }

  /** The client opens what the server has sent under the same lock exactly when it is in the clear, in
      the session, or one block for the client's key. */
  lemma ClientOpensEqualLockIff(k: Keys, lock: Lock, text: Bytes, coins: int -> int)
    requires SoundKeys(k) && text != []
    ensures ServerSends(k, lock, text, coins).Some?
    ensures ClientOpensWith(k, lock)(ServerSends(k, lock, text, coins).value) == Some(text) <==>
      !lock.ForServer? && (lock.ForClient? ==> |text| <= k.client(lock.key).maxPlain)
  {
    assert SoundAes(k.session([]));
    match lock {
      case Clear =>
      case ForServer =>
      case ForClient(key) => OneBlockOpensIff(k.client(key), text, coins);
      case UnderSession(key) => assert SoundAes(k.session(key));
    }
  }

  lemma OneBlockOpensIff(c: Rsa, text: Bytes, coins: int -> int)
    requires Sound(c) && text != []
    ensures c.dec(EncryptRsa(c, text, coins)) == Some(text) <==> |text| <= c.maxPlain
  {
    if |text| <= c.maxPlain {
      OneBlockText(c, text, coins);
      OneBlock(c, coins(0), text);
    }
  }

  // ---- the module behind the locks ----------------------------------------------------------------------------

  /** The cipher module of a session: its algorithm, the keys it holds, the peer's key if it is set. */
  function ModuleOf(k: Keys, algorithm: Algorithm, outer: Option<Bytes>, own: Bytes): Module {
    Module(algorithm, k.server, if outer.Some? then Some(k.client(outer.value)) else None, k.session(own))
  }

  /** What a module makes of a text is what is sent under the lock of its algorithm and keys. */
  lemma ModuleSendsLock(k: Keys, o: Out, own: Bytes, text: Bytes, coins: int -> int)
    requires SoundKeys(k) && text != [] && (o.algorithm == OuterRSA ==> o.key.Some?)
    ensures var m := ModuleOf(k, o.algorithm, o.key, own);
      Ends(m.server, text) && (m.outer.Some? ==> Ends(m.outer.value, text)) &&
      Encrypt(m, text, coins) == ServerSends(k, LockOf(o, own), text, coins)
  {
    if o.key.Some? {
      assert Sound(k.client(o.key.value));
    }
  }

  /** What a module makes of a frame is what the lock of its algorithm and keys opens. */
  lemma ModuleOpensLock(k: Keys, o: Out, own: Bytes, bytes: Bytes)
    requires SoundKeys(k)
    ensures Decrypt(ModuleOf(k, o.algorithm, o.key, own), bytes) == ServerOpensWith(k, LockOf(o, own))(bytes)
  {
  }

  // ---- the handshake ----------------------------------------------------------------------------------------

  /** In every state that the two ends can reach together, each frame in flight to the server decrypts
      to its packet under what the server uses next. */
  lemma FramesToServerDecrypt(own: Bytes, publicKey: Bytes, es: seq<HandshakeSystem.Event>, loads: Bytes -> bool,
                              t: HandshakeSystem.Sys, k: Keys, i: nat, coins: int -> int)
    requires loads(publicKey) && HandshakeSystem.Run(Connected(own, publicKey), es, loads, t)
    requires SoundKeys(k) && i < |t.toServer|
    ensures var f := t.toServer[i];
      && ClientSends(k, f.lock, Serialise(f.content), coins).Some?
      && Unwrap(ServerOpensWith(k, ServerOpens(t.server)), ClientSends(k, f.lock, Serialise(f.content), coins).value)
         == Some(f.content)
  {
    RunKeepsInv(Connected(own, publicKey), es, loads, t);
    ServerOpensNext(t);
    var f := t.toServer[i];
    NeverForClient(t, i);
    ServerOpensEqualLock(k, f.lock, Serialise(f.content), coins);
    PacketRoundTrip(f.content, []);
  }

  /** So the server's module, readied for the next packet, decrypts each of them. */
  lemma ModuleDecryptsFrames(own: Bytes, publicKey: Bytes, es: seq<HandshakeSystem.Event>, loads: Bytes -> bool,
                             t: HandshakeSystem.Sys, k: Keys, i: nat, coins: int -> int)
    requires loads(publicKey) && HandshakeSystem.Run(Connected(own, publicKey), es, loads, t)
    requires SoundKeys(k) && i < |t.toServer|
    ensures var f, m := t.toServer[i], ModuleOf(k, Readied(t.server).algorithm, t.server.outer, own);
      && ClientSends(k, f.lock, Serialise(f.content), coins).Some?
      && Decrypt(m, ClientSends(k, f.lock, Serialise(f.content), coins).value) == Some(Serialise(f.content))
  {
    RunKeepsInv(Connected(own, publicKey), es, loads, t);
    ServerOpensNext(t);
    var f := t.toServer[i];
    NeverForClient(t, i);
    ServerOpensEqualLock(k, f.lock, Serialise(f.content), coins);
    var o := Out(Readied(t.server).algorithm, t.server.outer, Content(UNDEFINED, []));
    ModuleOpensLock(k, o, own, ClientSends(k, f.lock, Serialise(f.content), coins).value);
  }

  lemma NeverForClient(t: HandshakeSystem.Sys, i: nat)
    requires HandshakeSystem.Inv(t) && i < |t.toServer|
    ensures !t.toServer[i].lock.ForClient?
  {
    ServerOpensNext(t);
    StableIsInSession(t);
  }

  /** And when the client's reader receives, each frame in flight to it decrypts to its packet under what
      the client uses, provided that the server's symmetric key fits one block of the client's key. */
  lemma FramesToClientDecrypt(own: Bytes, publicKey: Bytes, es: seq<HandshakeSystem.Event>, loads: Bytes -> bool,
                              t: HandshakeSystem.Sys, k: Keys, i: nat, coins: int -> int)
    requires loads(publicKey) && HandshakeSystem.Run(Connected(own, publicKey), es, loads, t)
    requires SoundKeys(k) && |own| + 1 <= k.client(publicKey).maxPlain
    requires t.client.reader.RReading? && t.read <= i < |t.server.outbox|
    ensures var o, lock := t.server.outbox[i], ClientOpens(t.client, t.client.reader.encrypted);
      && ServerSends(k, LockOf(o, own), Serialise(o.content), coins).Some? && lock.Some?
      && Unwrap(ClientOpensWith(k, lock.value), ServerSends(k, LockOf(o, own), Serialise(o.content), coins).value)
         == Some(o.content)
  {
    RunKeepsInv(Connected(own, publicKey), es, loads, t);
    ReaderOpensNext(t);
    var o := t.server.outbox[i];
    OutboxFits(t, i);
    ClientOpensEqualLockIff(k, LockOf(o, own), Serialise(o.content), coins);
    PacketRoundTrip(o.content, []);
  }

  /** So what the server's module made of each packet, with the algorithm and key in use when it was sent,
      is decrypted by the client. */
  lemma ClientDecryptsModule(own: Bytes, publicKey: Bytes, es: seq<HandshakeSystem.Event>, loads: Bytes -> bool,
                             t: HandshakeSystem.Sys, k: Keys, i: nat, coins: int -> int)
    requires loads(publicKey) && HandshakeSystem.Run(Connected(own, publicKey), es, loads, t)
    requires SoundKeys(k) && |own| + 1 <= k.client(publicKey).maxPlain
    requires t.client.reader.RReading? && t.read <= i < |t.server.outbox|
    ensures var o, lock := t.server.outbox[i], ClientOpens(t.client, t.client.reader.encrypted);
      var m, text := ModuleOf(k, o.algorithm, o.key, own), Serialise(o.content);
      && Ends(m.server, text) && (m.outer.Some? ==> Ends(m.outer.value, text))
      && lock.Some? && Encrypt(m, text, coins).Some?
      && ClientOpensWith(k, lock.value)(Encrypt(m, text, coins).value) == Some(text)
  {
    RunKeepsInv(Connected(own, publicKey), es, loads, t);
    ReaderOpensNext(t);
    var o := t.server.outbox[i];
    OutboxFits(t, i);
    ModuleSendsLock(k, o, own, Serialise(o.content), coins);
    ClientOpensEqualLockIff(k, LockOf(o, own), Serialise(o.content), coins);
  }

  /** All that the server ever sends under the client's key is its symmetric key. */
  lemma OutboxFits(t: HandshakeSystem.Sys, i: nat)
    requires HandshakeSystem.Inv(t) && i < |t.server.outbox|
    ensures var o := t.server.outbox[i];
      && !LockOf(o, t.server.own).ForServer?
      && (LockOf(o, t.server.own).ForClient? ==>
            LockOf(o, t.server.own).key == t.client.publicKey && o.content == Content(SYMMETRIC_KEY, t.server.own))
      && (o.algorithm == OuterRSA ==> o.key.Some?)
  {
  }

  // ---- the wire across a change of cipher --------------------------------------------------------------------

  /** The frames of packets that the client locks one by one. */
  ghost predicate Locked(k: Keys, packets: seq<HandshakeSystem.Frame>, coins: int -> int -> int, frames: seq<Bytes>) {
    && |frames| == |packets|
    && forall i :: 0 <= i < |packets| ==>
         ClientSends(k, packets[i].lock, Serialise(packets[i].content), coins(i)) == Some(frames[i])
  }

  function Contents(packets: seq<HandshakeSystem.Frame>): (cs: seq<Content>)
    ensures |cs| == |packets| && forall i :: 0 <= i < |packets| ==> cs[i] == packets[i].content
  {
    seq(|packets|, i requires 0 <= i < |packets| => packets[i].content)
  }

  function Openers(k: Keys, packets: seq<HandshakeSystem.Frame>): (ds: seq<Bytes -> Option<Bytes>>)
    ensures |ds| == |packets| && forall i :: 0 <= i < |packets| ==> ds[i] == ServerOpensWith(k, packets[i].lock)
  {
    seq(|packets|, i requires 0 <= i < |packets| => ServerOpensWith(k, packets[i].lock))
  }

  /** A connection that changes its cipher: as long as the server opens each frame with the lock it was
      sent under, every packet arrives, in order, through any partial writes and faithful reads. */
  lemma LockedPacketsArrive(k: Keys, packets: seq<HandshakeSystem.Frame>, coins: int -> int -> int,
                            sends: seq<TxEvent>, snd: Sender, calls: seq<RxEvent>, rcv: Receiver, v: Vector)
    requires SoundKeys(k) && TxRun(SILENT, sends, snd) && Locked(k, packets, coins, snd.accepted)
    requires AllFramable(snd.accepted)
    requires RxRun(LISTENING, calls, rcv, v) && rcv.consumed <= snd.tx.wire
    ensures |rcv.handed| <= |packets|
    ensures forall i :: 0 <= i < |rcv.handed| ==>
      Unwrap(ServerOpensWith(k, packets[i].lock), rcv.handed[i]) == Some(packets[i].content)
    ensures AllRead(snd, rcv) ==> |rcv.handed| == |packets|
  {
    forall i | 0 <= i < |packets|
      ensures Openers(k, packets)[i](snd.accepted[i]) == Some(Serialise(Contents(packets)[i]))
    {
      ServerOpensEqualLock(k, packets[i].lock, Serialise(packets[i].content), coins(i));
    }
    PacketsArrive(Openers(k, packets), Contents(packets), sends, snd, calls, rcv, v);
  }
}
