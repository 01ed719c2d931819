/** The Java client's `EncryptedMessenger` before the session key: arrays of 1024 bytes filled and
    emptied in place. */
module EncryptedMessengers {
  import opened Common
  import opened Crypto
  import Buffers

  const ROOM := 1024
  const SLOT := 128
  const PIECE := 53

  /** The ciphertext of a text cut into pieces of 53 bytes. */
  function ClientCipher(c: Rsa, text: Bytes, coins: int -> int): Bytes {
    Cut(c, text, PIECE, coins, 0)
  }

  /** One round of the loop: the next piece goes into the next slot, after the blocks `sofar`. */
  method FillSlot(c: Rsa, coin: int, piece: Bytes, message: array<Byte>, counter: nat, ghost sofar: Bytes)
    requires Sound(c) && c.cipherLen == SLOT && |piece| <= c.maxPlain
    requires message.Length == ROOM && counter < 8 && message[..counter * SLOT] == sofar
    modifies message
    ensures message[..(counter + 1) * SLOT] == sofar + c.enc(coin, piece)
  {
    var temp := c.enc(coin, piece);
    OneBlock(c, coin, piece);
    Buffers.Buffer.CopyInto(message, counter * SLOT, temp, |temp|);
    var from, to := counter * SLOT, counter * SLOT + SLOT;
    assert message[..to] == message[..from] + message[from..to];
  }

  /** The piece that goes into slot `counter`. */
  function PieceAt(text: Bytes, counter: nat): Bytes
    requires counter * PIECE <= |text|
  {
    text[counter * PIECE..Min(|text|, (counter + 1) * PIECE)]
  }

  /** `sofar` fills the first `counter` slots, and the rest of the text completes the ciphertext. */
  ghost predicate Filling(c: Rsa, text: Bytes, coins: int -> int, counter: nat, sofar: Bytes) {
    sofar + Cut(c, text[Min(|text|, counter * PIECE)..], PIECE, coins, counter) == ClientCipher(c, text, coins)
  }

  lemma FillingStarts(c: Rsa, text: Bytes, coins: int -> int)
    ensures Filling(c, text, coins, 0, [])
  {
    assert text[0..] == text;
    assert [] + ClientCipher(c, text, coins) == ClientCipher(c, text, coins);
  }

  lemma FillingGoesOn(c: Rsa, text: Bytes, coins: int -> int, counter: nat, sofar: Bytes)
    requires Filling(c, text, coins, counter, sofar) && counter * PIECE < |text|
    ensures Filling(c, text, coins, counter + 1, sofar + c.enc(coins(counter), PieceAt(text, counter)))
  {
    var from, to := counter * PIECE, Min(|text|, (counter + 1) * PIECE);
    CutStep(c, text[from..], PIECE, coins, counter);
    assert text[from..][..to - from] == text[from..to] && text[from..][to - from..] == text[to..];
    var block, later := c.enc(coins(counter), text[from..to]), Cut(c, text[to..], PIECE, coins, counter + 1);
    assert sofar + (block + later) == (sofar + block) + later;
  }

  lemma FillingEnds(c: Rsa, text: Bytes, coins: int -> int, counter: nat, sofar: Bytes)
    requires Filling(c, text, coins, counter, sofar) && counter * PIECE >= |text|
    ensures sofar == ClientCipher(c, text, coins)
  {
    CutStep(c, text[|text|..], PIECE, coins, counter);
    assert sofar + [] == sofar;
  }

  /** The message holds the blocks of the first `counter` pieces. */
  ghost predicate Packed(c: Rsa, text: Bytes, coins: int -> int, counter: nat, message: array<Byte>)
    reads message
  {
    message.Length == ROOM && counter <= 8 && Filling(c, text, coins, counter, message[..counter * SLOT])
  }

  lemma PackedEnds(c: Rsa, text: Bytes, coins: int -> int, counter: nat, message: array<Byte>)
    requires Packed(c, text, coins, counter, message) && counter * PIECE >= |text|
    ensures message[..counter * SLOT] == ClientCipher(c, text, coins)
  {
    FillingEnds(c, text, coins, counter, message[..counter * SLOT]);
  }

  /** One round of the loop of `send`. */
  method FillNext(c: Rsa, coins: int -> int, text: Bytes, message: array<Byte>, counter: nat)
    requires Sound(c) && c.cipherLen == SLOT && counter < 8 && counter * PIECE < |text|
    requires Packed(c, text, coins, counter, message)
    modifies message
    ensures Packed(c, text, coins, counter + 1, message)
  {
    var bytesLeft := |text| - counter * PIECE;
    var numberToEncrypt := if bytesLeft > PIECE then PIECE else bytesLeft;
    var piece := text[counter * PIECE..counter * PIECE + numberToEncrypt];
    assert piece == PieceAt(text, counter);
    ghost var sofar := message[..counter * SLOT];
    FillingGoesOn(c, text, coins, counter, sofar);
    FillSlot(c, coins(counter), piece, message, counter, sofar);
  }

  /** After `counter` pieces of n bytes `bytesLeft` are left; the last piece was not empty. */
  predicate Left(n: nat, counter: nat, bytesLeft: nat) {
    && (if bytesLeft > 0 then counter * PIECE == n - bytesLeft else n <= counter * PIECE)
    && (counter > 0 ==> n > (counter - 1) * PIECE)
  }

  lemma LeftGoesOn(n: nat, counter: nat, bytesLeft: nat)
    requires Left(n, counter, bytesLeft) && bytesLeft > 0
    ensures Left(n, counter + 1, bytesLeft - if bytesLeft > PIECE then PIECE else bytesLeft)
    ensures counter * PIECE < n && (counter >= 8 ==> n > 8 * PIECE)
  {
  }

  /** `send(buffer, n)` up to the socket.  `ok` is false when a ninth slot would lie outside the
      array, which throws. */
  method SendChunks(c: Rsa, coins: int -> int, buffer: array<Byte>, n: nat)
    returns (message: array<Byte>, bytesToSend: nat, ok: bool)
    requires Sound(c) && c.cipherLen == SLOT && n <= buffer.Length
    ensures fresh(message) && message.Length == ROOM
    ensures ok <==> n <= 8 * PIECE
    ensures ok ==> bytesToSend <= ROOM && message[..bytesToSend] == ClientCipher(c, buffer[..n], coins)
  {
    message := new Byte[ROOM];
    bytesToSend, ok := 0, true;
    var bytesLeft, counter := n, 0;
    var text := buffer[..n];
    assert Packed(c, text, coins, 0, message) by {
      FillingStarts(c, text, coins);
      assert message[..0] == [];
    }
    while bytesLeft > 0
      invariant 0 <= counter <= 8 && 0 <= bytesLeft && Left(n, counter, bytesLeft)
      invariant bytesToSend == counter * SLOT && Packed(c, text, coins, counter, message)
      decreases bytesLeft
    {
      LeftGoesOn(n, counter, bytesLeft);
      if counter == 8 {
        return message, bytesToSend, false;
      }
      FillNext(c, coins, text, message, counter);
      bytesLeft := bytesLeft - if bytesLeft > PIECE then PIECE else bytesLeft;
      counter := counter + 1;
      bytesToSend := counter * SLOT;
    }
    PackedEnds(c, text, coins, counter, message);
  }

  /** The server reads exactly what the client was given, for every text that `send` accepts. */
  lemma ServerReadsClient(c: Rsa, text: Bytes, coins: int -> int)
    requires Sound(c) && c.cipherLen == SLOT
    ensures DecryptRsa(c, ClientCipher(c, text, coins)) == Some(text)
    ensures |text| <= 8 * PIECE <==> |ClientCipher(c, text, coins)| <= ROOM
  {
    var ps := Pieces(text, PIECE);
    PiecesRoundUp(text, PIECE);
    DecryptUndoesAnyCutting(c, ps, coins, 0);
  }

  /** What `receive` makes of a ciphertext: one block is decrypted; anything else throws, and the
      zeros of the scratch array are returned in its place. */
  function ClientReads(c: Rsa, cipher: Bytes): Bytes {
    match c.dec(cipher)
    case Some(text) => text
    case None => Zeros(|cipher|)
  }

  /** `receive` after the socket: `buffer` holds i bytes and is rewritten in place. */
  method ReceiveInPlace(c: Rsa, buffer: array<Byte>, i: nat) returns (j: nat)
    requires Sound(c) && c.maxPlain <= ROOM && buffer.Length == ROOM && i <= ROOM
    modifies buffer
    ensures j <= ROOM && buffer[..j] == ClientReads(c, old(buffer[..i]))
    ensures buffer[j..] == old(buffer[j..])
  {
    var message := new Byte[ROOM](_ => 0);
    var temp := c.dec(buffer[..i]);
    j := i;
    if temp.Some? {
      Buffers.Buffer.CopyInto(message, 0, temp.value, |temp.value|);
      j := |temp.value|;
    } else {
      assert message[..j] == Zeros(j);
    }
    Buffers.Buffer.CopyInto(buffer, 0, message[..], j);
    assert buffer[0..j] == buffer[..j];
    assert message[..][..j] == message[..j];
    assert temp.Some? ==> message[0..j] == message[..j];
  }

  /** A text that fits one block is one block. */
  lemma OneBlockText(c: Rsa, text: Bytes, coins: int -> int)
    requires Sound(c) && text != [] && |text| <= c.maxPlain
    ensures EncryptRsa(c, text, coins) == c.enc(coins(0), text)
  {
    CutStep(c, text, c.maxPlain, coins, 0);
    assert text[..|text|] == text && text[|text|..] == [];
    CutStep(c, [], c.maxPlain, coins, 1);
    assert c.enc(coins(0), text) + [] == c.enc(coins(0), text);
  }

  lemma BlocksOutweighText(size: nat, m: nat, n: nat)
    requires RoundedUp(size, m, n) && size > m
    ensures n * (m + 11) > m + 11 && n * (m + 11) > size
  {
    assert n <= 1 ==> n * m <= m;
    assert n >= 2;
    assert n * (m + 11) == n * m + n * 11;
    assert n * (m + 11) == (m + 11) + (n - 1) * (m + 11);
  }

  /** A longer text takes at least two blocks, and more bytes than it has. */
  lemma ManyBlocks(c: Rsa, text: Bytes, coins: int -> int)
    requires Sound(c) && |text| > c.maxPlain
    ensures |EncryptRsa(c, text, coins)| > c.cipherLen && |EncryptRsa(c, text, coins)| > |text|
  {
    var ps := Pieces(text, c.maxPlain);
    DecryptUndoesAnyCutting(c, ps, coins, 0);
    PiecesRoundUp(text, c.maxPlain);
    BlocksOutweighText(|text|, c.maxPlain, |ps|);
  }

  /** A text of one byte more than a 512-bit key takes is not read.  The only text that the handshake
      sends under the client's key is the type byte with a symmetric key of 16 bytes, which fits. */
  lemma LongTextIsNotRead(c: Rsa, coins: int -> int)
    requires Sound(c) && c.maxPlain == 53
    ensures ClientReads(c, EncryptRsa(c, Zeros(54), coins)) != Zeros(54)
    ensures forall text: Bytes :: |text| == 17 ==> ClientReads(c, EncryptRsa(c, text, coins)) == text
  {
    ClientReadsServerIff(c, Zeros(54), coins);
    forall text: Bytes | |text| == 17 ensures ClientReads(c, EncryptRsa(c, text, coins)) == text {
      ClientReadsServerIff(c, text, coins);
    }
  }

  /** The client reads what the server sends under the client's key exactly when it fits one block. */
  lemma ClientReadsServerIff(c: Rsa, text: Bytes, coins: int -> int)
    requires Sound(c) && text != []
    ensures ClientReads(c, EncryptRsa(c, text, coins)) == text <==> |text| <= c.maxPlain
    ensures |text| > c.maxPlain ==> var cipher := EncryptRsa(c, text, coins);
      |ClientReads(c, cipher)| == |cipher| && forall i :: 0 <= i < |cipher| ==> ClientReads(c, cipher)[i] == 0
  {
    if |text| <= c.maxPlain {
      OneBlockText(c, text, coins);
      OneBlock(c, coins(0), text);
    } else {
      ManyBlocks(c, text, coins);
      assert c.dec(EncryptRsa(c, text, coins)) == None;
    }
  }
}
