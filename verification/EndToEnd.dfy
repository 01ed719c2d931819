/** A packet's whole way: type byte, encryption, frame, any partial writes, any faithful reads,
    deframing, decryption, parsing. */
module EndToEnd {
  import opened Common
  import opened Buffers
  import opened Packets
  import opened Framing
  import opened SocketReads
  import Crypto
  import EncryptedMessengers

  /** What the receiving side makes of one frame: `recvData`, decryption, `parse`. */
  function Unwrap(dec: Bytes -> Option<Bytes>, frame: Bytes): Option<Content> {
    match dec(frame)
    case None => None
    case Some(bytes) => Parse(bytes)
  }

  /** The i-th frame is an encryption of the i-th packet that the i-th decryption opens, and its length
      survives the header.  The decryption may change from frame to frame. */
  predicate Wraps(decs: seq<Bytes -> Option<Bytes>>, frames: seq<Bytes>, packets: seq<Content>) {
    && |frames| == |packets| == |decs| && AllFramable(frames)
    && forall i :: 0 <= i < |frames| ==> decs[i](frames[i]) == Some(Serialise(packets[i]))
  }

  /** Both buffers are empty, and the wire has been read. */
  predicate AllRead(snd: Sender, rcv: Receiver) {
    && rcv.consumed == snd.tx.wire && snd.tx.buffer.stage == Empty
    && rcv.rx.buffer.stage == Empty && !rcv.rx.closed
  }

  /** Everything the receiver has handed over is, in order, what the sender was given, with type and
      payload; and it is all of it once both buffers are empty and the wire has been read. */
  lemma PacketsArrive(decs: seq<Bytes -> Option<Bytes>>, packets: seq<Content>,
                      sends: seq<TxEvent>, snd: Sender, calls: seq<RxEvent>, rcv: Receiver, v: Vector)
    requires TxRun(SILENT, sends, snd) && Wraps(decs, snd.accepted, packets)
    requires RxRun(LISTENING, calls, rcv, v) && rcv.consumed <= snd.tx.wire
    ensures |rcv.handed| <= |packets|
    ensures forall i :: 0 <= i < |rcv.handed| ==> Unwrap(decs[i], rcv.handed[i]) == Some(packets[i])
    ensures AllRead(snd, rcv) ==> |rcv.handed| == |packets|
  {
    assert Conserved(IDLE_TX, []);
    WireCarriesFrames(SILENT, sends, snd);
    assert rcv.consumed <= Encode(snd.accepted);
    FramesArriveInOrder(calls, rcv, snd.accepted, v);
    forall i | 0 <= i < |rcv.handed| ensures Unwrap(decs[i], rcv.handed[i]) == Some(packets[i]) {
      assert rcv.handed[i] == snd.accepted[i];
      PacketRoundTrip(packets[i], []);
    }
  }

  /** The same decryption for every frame. */
  function Always(dec: Bytes -> Option<Bytes>, n: nat): seq<Bytes -> Option<Bytes>> {
    seq(n, _ => dec)
  }

  /** The two ends hold the same module, under an algorithm it can read itself. */
  lemma ModuleWraps(m: Crypto.Module, packets: seq<Content>, coins: int -> int -> int, frames: seq<Bytes>)
    requires Crypto.SoundModule(m) && m.algorithm != Crypto.OuterRSA && |frames| == |packets|
    requires forall i :: 0 <= i < |packets| ==>
      Crypto.Encrypt(m, Serialise(packets[i]), coins(i)) == Some(frames[i]) && |frames[i]| <= 0xffff
    ensures var dec := (bytes => if m.server.cipherLen >= 1 then Crypto.Decrypt(m, bytes) else None);
      Wraps(Always(dec, |packets|), frames, packets)
  {
    forall i | 0 <= i < |packets|
      ensures Crypto.Decrypt(m, frames[i]) == Some(Serialise(packets[i])) && Framable(frames[i])
    {
      Crypto.ModuleRoundTripIff(m, Serialise(packets[i]), coins(i));
    }
  }

  /** The client writes with its own 53-byte cutting, the server reads with its private key. */
  lemma ClientWraps(server: Crypto.Rsa, packets: seq<Content>, coins: int -> int -> int, frames: seq<Bytes>)
    requires Crypto.Sound(server) && server.cipherLen == EncryptedMessengers.SLOT && |frames| == |packets|
    requires forall i :: 0 <= i < |packets| ==>
      && |Serialise(packets[i])| <= 8 * EncryptedMessengers.PIECE
      && frames[i] == EncryptedMessengers.ClientCipher(server, Serialise(packets[i]), coins(i))
    ensures var dec := (bytes => if server.cipherLen >= 1 then Crypto.DecryptRsa(server, bytes) else None);
      Wraps(Always(dec, |packets|), frames, packets)
  {
    forall i | 0 <= i < |packets|
      ensures Crypto.DecryptRsa(server, frames[i]) == Some(Serialise(packets[i])) && Framable(frames[i])
    {
      EncryptedMessengers.ServerReadsClient(server, Serialise(packets[i]), coins(i));
      assert Crypto.DecryptRsa(server, []) == Some([]);
    }
  }
}
