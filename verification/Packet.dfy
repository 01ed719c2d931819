/** `PacketType`, `Packet` and the two halves of `Client::sendPacket` / `recvPacket`. */
module Packets {
  import opened Common
  import opened Buffers

  datatype PacketType =
    | OPEN | CLOSE | ACK_OK | ACK_ERR | ALIVE
    | OPEN_ENCR | PUBLIC_KEY | SYMMETRIC_KEY | TEST_KEY
    | OPEN_PROT | SET_NAME | ADD_FOLLOWER | NEW_FOLLOWED | REMOVE_FOLLOWER | REMOVE_FOLLOWED
    | MY_LOCATION | LOCATION
    | UNDEFINED

  function ToUInt8(t: PacketType): Byte {
    match t
    case OPEN => 0
    case CLOSE => 1
    case ACK_OK => 2
    case ACK_ERR => 3
    case ALIVE => 4
    case OPEN_ENCR => 8
    case PUBLIC_KEY => 9
    case SYMMETRIC_KEY => 10
    case TEST_KEY => 11
    case OPEN_PROT => 16
    case SET_NAME => 17
    case ADD_FOLLOWER => 18
    case NEW_FOLLOWED => 19
    case REMOVE_FOLLOWER => 20
    case REMOVE_FOLLOWED => 21
    case MY_LOCATION => 22
    case LOCATION => 23
    case UNDEFINED => 100
  }

  function ToPacketType(header: Byte): PacketType {
    match header
    case 0 => OPEN
    case 1 => CLOSE
    case 2 => ACK_OK
    case 3 => ACK_ERR
    case 4 => ALIVE
    case 8 => OPEN_ENCR
    case 9 => PUBLIC_KEY
    case 10 => SYMMETRIC_KEY
    case 11 => TEST_KEY
    case 16 => OPEN_PROT
    case 17 => SET_NAME
    case 18 => ADD_FOLLOWER
    case 19 => NEW_FOLLOWED
    case 20 => REMOVE_FOLLOWER
    case 21 => REMOVE_FOLLOWED
    case 22 => MY_LOCATION
    case 23 => LOCATION
    case _ => UNDEFINED
  }

  /** The client's own table of the same numbers. */
  const CLIENT_TABLE: map<Byte, PacketType> := map[
    0 := OPEN, 1 := CLOSE,
    8 := OPEN_ENCR, 9 := PUBLIC_KEY, 10 := SYMMETRIC_KEY, 11 := TEST_KEY,
    16 := OPEN_PROT, 17 := SET_NAME, 18 := ADD_FOLLOWER, 19 := NEW_FOLLOWED, 20 := REMOVE_FOLLOWER,
    21 := REMOVE_FOLLOWED, 22 := MY_LOCATION, 23 := LOCATION,
    2 := ACK_OK, 3 := ACK_ERR, 4 := ALIVE]

  /** Both ends give a byte the same meaning, and know the same bytes; and a type that the server sends
      is the one that the client reads. */
  lemma TablesAgree(header: Byte, t: PacketType)
    ensures header in CLIENT_TABLE <==> ToPacketType(header) != UNDEFINED
    ensures header in CLIENT_TABLE ==> CLIENT_TABLE[header] == ToPacketType(header)
    ensures t != UNDEFINED ==> ToUInt8(t) in CLIENT_TABLE && CLIENT_TABLE[ToUInt8(t)] == t
  {
  }

  datatype Content = Content(kind: PacketType, payload: Bytes)

  /** The packets that `update` queues. */
  predicate IsNews(c: Content) {
    c.kind == NEW_FOLLOWED || c.kind == LOCATION
  }

  /** The bytes of a packet before encryption. */
  function Serialise(c: Content): Bytes {
    [ToUInt8(c.kind)] + c.payload
  }

  /** Nothing stands for the exception of an empty buffer. */
  function Parse(bytes: Bytes): Option<Content> {
    if bytes == [] then None else Some(Content(ToPacketType(bytes[0]), bytes[1..]))
  }

  lemma TypeRoundTrip(t: PacketType)
    ensures ToPacketType(ToUInt8(t)) == t
  {
  }

  /** Parsing undoes serialising, and serialising undoes parsing exactly when the first byte is the
      number of a type. */
  lemma PacketRoundTrip(c: Content, bytes: Bytes)
    ensures Parse(Serialise(c)) == Some(c)
    ensures bytes != [] ==>
      (Serialise(Parse(bytes).value) == bytes <==> ToPacketType(bytes[0]) != UNDEFINED || bytes[0] == 100)
  {
    TypeRoundTrip(c.kind);
    if bytes != [] {
      assert bytes == [bytes[0]] + bytes[1..];
      var back := Serialise(Parse(bytes).value);
      assert back[1..] == bytes[1..];
      assert back == bytes <==> back[0] == bytes[0];
    }
  }

  /** The client, which looks the first byte up in its own table and takes the others for the argument,
      finds type and payload. */
  lemma ClientFindsPacket(c: Content)
    requires c.kind != UNDEFINED
    ensures var bytes := Serialise(c);
      |bytes| > 0 && bytes[0] in CLIENT_TABLE && CLIENT_TABLE[bytes[0]] == c.kind && bytes[1..] == c.payload
  {
    TablesAgree(ToUInt8(c.kind), c.kind);
    assert Serialise(c)[1..] == c.payload;
  }

  class Packet {
    var kind: PacketType
    const buffer: Buffer

    ghost predicate Valid()
      reads this, buffer
    {
      buffer.Valid()
    }

    function Value(): Content
      reads this, buffer
    {
      Content(kind, buffer.Flat())
    }

    constructor (kind: PacketType)
      ensures Valid() && fresh(buffer) && Value() == Content(kind, [])
    {
      this.kind := kind;
      buffer := new Buffer();
    }

    /** The copy that `sendPacket` works on. */
    method Copy() returns (p: Packet)
      requires Valid()
      ensures fresh(p) && fresh(p.buffer) && p.Valid() && p.Value() == Value()
    {
      p := new Packet(kind);
      for i := 0 to |buffer.chunks|
        invariant fresh(p) && fresh(p.buffer) && p.Valid() && p.kind == kind
        invariant unchanged(buffer)
        invariant p.buffer.Flat() == Flatten(buffer.chunks[..i])
      {
        var chunk := buffer.chunks[i];
        assert buffer.chunks[..i + 1] == buffer.chunks[..i] + [chunk];
        FlattenAppend(buffer.chunks[..i], [chunk]);
        assert Flatten([chunk]) == chunk + Flatten([]) == chunk;
        p.buffer.PushBack(chunk);
      }
      assert buffer.chunks[..|buffer.chunks|] == buffer.chunks;
    }

    method AddTypeToBuffer()
      requires Valid()
      modifies buffer
      ensures Valid() && Value() == Content(kind, Serialise(old(Value())))
    {
      buffer.PushFront([ToUInt8(kind)]);
    }

    /** False stands for the exception of an empty buffer, which leaves the packet as it was. */
    method ParseBuffer() returns (ok: bool)
      requires Valid()
      modifies this, buffer
      ensures Valid()
      ensures ok <==> Parse(old(buffer.Flat())).Some?
      ensures if ok then Value() == Parse(old(buffer.Flat())).value else Value() == old(Value())
    {
      var header := buffer.Pop(1);
      if header.None? {
        return false;
      }
      kind := ToPacketType(header.value[0]);
      ok := true;
    }
  }

  /** `sendPacket` up to `sendData`: the bytes that go out; the packet given stays as it is. */
  method BytesToSend(packet: Packet) returns (bytes: Bytes)
    requires packet.Valid()
    ensures bytes == Serialise(packet.Value())
  {
    var copy := packet.Copy();
    copy.AddTypeToBuffer();
    bytes := copy.buffer.PopAll();
  }

  /** `recvPacket` after `recvData`. */
  method PacketFrom(bytes: Bytes) returns (packet: Packet, ok: bool)
    ensures fresh(packet) && packet.Valid()
    ensures ok <==> bytes != []
    ensures ok ==> Parse(bytes) == Some(packet.Value())
  {
    packet := new Packet(UNDEFINED);
    packet.buffer.PushBack(bytes);
    assert [] + bytes == bytes;
    ok := packet.ParseBuffer();
  }
}
