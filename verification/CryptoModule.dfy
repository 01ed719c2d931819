/** `CryptoModule` and the block chunking on both ends.  The ciphers themselves are parameters:
    functions of which only inverses and lengths are known. */
module Crypto {
  import opened Common

  /** RSA with PKCS #1 v1.5 padding is randomised, so encryption takes a coin.  A decryption that
      throws is `None`. */
  datatype Rsa = Rsa(enc: (int, Bytes) -> Bytes, dec: Bytes -> Option<Bytes>, maxPlain: nat, cipherLen: nat)

  /** Section 7.2 of RFC 8017: a key of k octets takes up to k - 11 and gives k. */
  ghost predicate Sound(c: Rsa) {
    && c.maxPlain >= 1 && c.cipherLen == c.maxPlain + 11
    && (forall coin, t | |t| <= c.maxPlain :: |c.enc(coin, t)| == c.cipherLen && c.dec(c.enc(coin, t)) == Some(t))
    && (forall b | c.dec(b).Some? :: |b| == c.cipherLen && |c.dec(b).value| <= c.maxPlain)
  }

  // ---- chunking ----------------------------------------------------------------------------------

  /** n is |text| / m rounded up. */
  predicate RoundedUp(size: nat, m: nat, n: nat) {
    size <= n * m && (n > 0 ==> size > (n - 1) * m)
  }

  /** `text` cut into pieces of m bytes, the last one shorter. */
  function Pieces(text: Bytes, m: nat): (ps: seq<Bytes>)
    requires m >= 1
    ensures Flatten(ps) == text
    ensures forall i :: 0 <= i < |ps| ==> 1 <= |ps[i]| <= m
    decreases |text|
  {
    if text == [] then []
    else
      var k := Min(m, |text|);
      assert text == text[..k] + text[k..];
      [text[..k]] + Pieces(text[k..], m)
  }

  lemma {:induction false} PiecesRoundUp(text: Bytes, m: nat)
    requires m >= 1
    ensures RoundedUp(|text|, m, |Pieces(text, m)|)
    decreases |text|
  {
    if text != [] {
      var k := Min(m, |text|);
      var n := |Pieces(text[k..], m)|;
      PiecesRoundUp(text[k..], m);
      assert (n + 1) * m == n * m + m;
      assert n > 0 ==> n * m == (n - 1) * m + m;
    }
  }

  /** The blocks of the given pieces, the i-th one made with the i-th coin from `first` on. */
  function Blocks(c: Rsa, pieces: seq<Bytes>, coins: int -> int, first: int): seq<Bytes> {
    if pieces == [] then [] else [c.enc(coins(first), pieces[0])] + Blocks(c, pieces[1..], coins, first + 1)
  }

  /** A text encrypted in pieces of m bytes, with the coins from `first` on. */
  function Cut(c: Rsa, text: Bytes, m: nat, coins: int -> int, first: int): Bytes
    requires m >= 1
  {
    Flatten(Blocks(c, Pieces(text, m), coins, first))
  }

  lemma CutStep(c: Rsa, text: Bytes, m: nat, coins: int -> int, first: int)
    requires m >= 1
    ensures text == [] ==> Cut(c, text, m, coins, first) == []
    ensures text != [] ==>
      var k := Min(m, |text|);
      Cut(c, text, m, coins, first) == c.enc(coins(first), text[..k]) + Cut(c, text[k..], m, coins, first + 1)
  {
    if text != [] {
      var k := Min(m, |text|);
      var rest := Pieces(text[k..], m);
      var ps := Pieces(text, m);
      assert ps[0] == text[..k] && ps[1..] == rest;
      assert Blocks(c, ps, coins, first)[1..] == Blocks(c, rest, coins, first + 1);
    }
  }

  /** The loop of `encryptRSA` that steps from i by m through `size` bytes is over after n rounds. */
  predicate Over(size: nat, m: nat, i: nat, n: nat)
    decreases n
  {
    i >= size || (n > 0 && Over(size, m, i + m, n - 1))
  }

  lemma {:induction false} OverEventually(size: nat, m: nat, i: nat)
    requires m >= 1
    ensures Over(size, m, i, if i >= size then 0 else size - i)
    decreases size - i
  {
    if i < size {
      OverEventually(size, m, i + m);
      OverLater(size, m, i + m, if i + m >= size then 0 else size - (i + m), size - i - 1);
    }
  }

  lemma {:induction false} OverLater(size: nat, m: nat, i: nat, n: nat, k: nat)
    requires Over(size, m, i, n) && n <= k
    ensures Over(size, m, i, k)
    decreases n
  {
    if i < size {
      OverLater(size, m, i + m, n - 1, k - 1);
    }
  }

  lemma {:induction false} NeverOver(size: nat, i: nat, n: nat)
    requires i < size
    ensures !Over(size, 0, i, n)
    decreases n
  {
    if n > 0 {
      NeverOver(size, i, n - 1);
    }
  }

  /** `encryptRSA` ends exactly when the text is empty or the key takes at least one byte; a key of at
      most 11 octets takes none. */
  lemma EncryptRsaEndsIff(c: Rsa, text: Bytes)
    ensures LoopEnds(|text|, c.maxPlain) <==> Ends(c, text)
  {
    if Ends(c, text) {
      var n := if text == [] then 0 else |text|;
      if text != [] {
        OverEventually(|text|, c.maxPlain, 0);
      }
      assert Over(|text|, c.maxPlain, 0, n);
    } else {
      forall n: nat ensures !Over(|text|, c.maxPlain, 0, n) {
        NeverOver(|text|, 0, n);
      }
    }
  }

  ghost predicate LoopEnds(size: nat, m: nat) {
    exists n: nat :: Over(size, m, 0, n)
  }

  predicate Ends(c: Rsa, text: Bytes) {
    text == [] || c.maxPlain >= 1
  }

  /** What `encryptRSA` computes. */
  function EncryptRsa(c: Rsa, text: Bytes, coins: int -> int): Bytes
    requires Ends(c, text)
  {
    if text == [] then [] else Cut(c, text, c.maxPlain, coins, 0)
  }

  /** What `decryptRSA` computes; `None` when a block is short or does not decrypt. */
  function DecryptRsa(c: Rsa, cipher: Bytes): Option<Bytes>
    requires c.cipherLen >= 1
    decreases |cipher|
  {
    if cipher == [] then Some([])
    else
      var k := Min(c.cipherLen, |cipher|);
      match c.dec(cipher[..k])
      case None => None
      case Some(head) =>
        match DecryptRsa(c, cipher[k..])
        case None => None
        case Some(tail) => Some(head + tail)
  }

  lemma OneBlock(c: Rsa, coin: int, t: Bytes)
    requires Sound(c) && |t| <= c.maxPlain
    ensures |c.enc(coin, t)| == c.cipherLen && c.dec(c.enc(coin, t)) == Some(t)
  {
  }

  /** `decryptRSA` undoes every encoder that cuts the text into pieces of at most maxPlain bytes,
      wherever it cuts and whichever coins it uses. */
  lemma {:induction false} DecryptUndoesAnyCutting(c: Rsa, pieces: seq<Bytes>, coins: int -> int, first: int)
    requires Sound(c)
    requires forall i :: 0 <= i < |pieces| ==> |pieces[i]| <= c.maxPlain
    ensures |Flatten(Blocks(c, pieces, coins, first))| == |pieces| * c.cipherLen
    ensures DecryptRsa(c, Flatten(Blocks(c, pieces, coins, first))) == Some(Flatten(pieces))
    decreases |pieces|
  {
    if pieces != [] {
      var head, tail := c.enc(coins(first), pieces[0]), Flatten(Blocks(c, pieces[1..], coins, first + 1));
      DecryptUndoesAnyCutting(c, pieces[1..], coins, first + 1);
      var whole := Flatten(Blocks(c, pieces, coins, first));
      assert Blocks(c, pieces, coins, first)[1..] == Blocks(c, pieces[1..], coins, first + 1);
      assert whole == head + tail;
      OneBlock(c, coins(first), pieces[0]);
      assert whole[..c.cipherLen] == head && whole[c.cipherLen..] == tail;
      assert |pieces| * c.cipherLen == c.cipherLen + (|pieces| - 1) * c.cipherLen;
    }
  }

  /** The server decrypts what the server encrypts, and the length is that of whole blocks. */
  lemma RsaRoundTrip(c: Rsa, text: Bytes, coins: int -> int)
    requires Sound(c)
    ensures DecryptRsa(c, EncryptRsa(c, text, coins)) == Some(text)
    ensures exists n: nat :: RoundedUp(|text|, c.maxPlain, n) && |EncryptRsa(c, text, coins)| == n * c.cipherLen
  {
    var ps := Pieces(text, c.maxPlain);
    CutStep(c, text, c.maxPlain, coins, 0);
    DecryptUndoesAnyCutting(c, ps, coins, 0);
    PiecesRoundUp(text, c.maxPlain);
  }

  /** Only a whole number of blocks decrypts. */
  lemma {:induction false} OnlyWholeBlocksDecrypt(c: Rsa, cipher: Bytes) returns (n: nat)
    requires Sound(c) && DecryptRsa(c, cipher).Some?
    ensures |cipher| == n * c.cipherLen
    decreases |cipher|
  {
    if cipher == [] {
      n := 0;
    } else {
      var k := Min(c.cipherLen, |cipher|);
      assert c.dec(cipher[..k]).Some?;
      n := OnlyWholeBlocksDecrypt(c, cipher[k..]);
      assert (n + 1) * c.cipherLen == n * c.cipherLen + c.cipherLen;
      n := n + 1;
    }
  }

  // ---- the loops as written ------------------------------------------------------------------------

  /** `sofar` is the encryption of the first i bytes, in `block` blocks: the rest completes it. */
  ghost predicate Encrypting(c: Rsa, text: Bytes, coins: int -> int, i: nat, block: int, sofar: Bytes)
    requires c.maxPlain >= 1
  {
    sofar + Cut(c, text[Min(i, |text|)..], c.maxPlain, coins, block) == EncryptRsa(c, text, coins)
  }

  lemma EncryptingStarts(c: Rsa, text: Bytes, coins: int -> int)
    requires c.maxPlain >= 1
    ensures Encrypting(c, text, coins, 0, 0, [])
  {
    assert text[0..] == text;
    CutStep(c, text, c.maxPlain, coins, 0);
    assert [] + EncryptRsa(c, text, coins) == EncryptRsa(c, text, coins);
  }

  lemma EncryptingGoesOn(c: Rsa, text: Bytes, coins: int -> int, i: nat, block: int, sofar: Bytes)
    requires c.maxPlain >= 1 && i < |text| && Encrypting(c, text, coins, i, block, sofar)
    ensures Encrypting(c, text, coins, i + c.maxPlain, block + 1,
                       sofar + c.enc(coins(block), text[i..Min(|text|, i + c.maxPlain)]))
  {
    var to := Min(|text|, i + c.maxPlain);
    CutStep(c, text[i..], c.maxPlain, coins, block);
    SliceOfRest(text, i, to);
    Associates(sofar, c.enc(coins(block), text[i..to]), Cut(c, text[to..], c.maxPlain, coins, block + 1));
  }

  lemma SliceOfRest(text: Bytes, from: nat, to: nat)
    requires from <= to <= |text|
    ensures text[from..][..to - from] == text[from..to] && text[from..][to - from..] == text[to..]
  {
  }

  lemma Associates(a: Bytes, b: Bytes, c: Bytes)
    ensures a + (b + c) == (a + b) + c
  {
  }

  lemma EncryptingEnds(c: Rsa, text: Bytes, coins: int -> int, i: nat, block: int, sofar: Bytes)
    requires c.maxPlain >= 1 && i >= |text| && Encrypting(c, text, coins, i, block, sofar)
    ensures sofar == EncryptRsa(c, text, coins)
  {
    CutStep(c, text[|text|..], c.maxPlain, coins, block);
    assert sofar + [] == sofar;
  }

  /** `encryptRSA`; the i-th block uses the i-th coin. */
  method EncryptRsaLoop(c: Rsa, text: Bytes, coins: int -> int) returns (encryptBytes: Bytes)
    requires Ends(c, text)
    ensures encryptBytes == EncryptRsa(c, text, coins)
  {
    encryptBytes := [];
    if text == [] {
      return;
    }
    var i, block := 0, 0;
    EncryptingStarts(c, text, coins);
    while i < |text|
      invariant 0 <= i && Encrypting(c, text, coins, i, block, encryptBytes)
    {
      var to := Min(|text|, i + c.maxPlain);
      var newBytes := c.enc(coins(block), text[i..to]);
      EncryptingGoesOn(c, text, coins, i, block, encryptBytes);
      encryptBytes := encryptBytes + newBytes;
      i := i + c.maxPlain;
      block := block + 1;
    }
    EncryptingEnds(c, text, coins, i, block, encryptBytes);
  }

  /** `sofar` is the text of the first i bytes: the rest completes it, or throws. */
  ghost predicate Decrypting(c: Rsa, cipher: Bytes, i: nat, sofar: Bytes)
    requires c.cipherLen >= 1
  {
    DecryptRsa(c, cipher) == Prepend(sofar, DecryptRsa(c, cipher[Min(i, |cipher|)..]))
  }

  function Prepend(text: Bytes, rest: Option<Bytes>): Option<Bytes> {
    if rest.None? then None else Some(text + rest.value)
  }

  lemma DecryptStep(c: Rsa, cipher: Bytes, from: nat)
    requires c.cipherLen >= 1 && from < |cipher|
    ensures var to := Min(|cipher|, from + c.cipherLen);
      var newBytes := c.dec(cipher[from..to]);
      DecryptRsa(c, cipher[from..]) ==
      if newBytes.None? then None else Prepend(newBytes.value, DecryptRsa(c, cipher[to..]))
  {
    var left, to := cipher[from..], Min(|cipher|, from + c.cipherLen);
    SliceOfRest(cipher, from, to);
    assert Min(c.cipherLen, |left|) == to - from;
  }

  lemma DecryptingGoesOn(c: Rsa, cipher: Bytes, i: nat, sofar: Bytes)
    requires c.cipherLen >= 1 && i < |cipher| && Decrypting(c, cipher, i, sofar)
    ensures var newBytes := c.dec(cipher[i..Min(|cipher|, i + c.cipherLen)]);
      if newBytes.None? then DecryptRsa(c, cipher) == None
      else Decrypting(c, cipher, i + c.cipherLen, sofar + newBytes.value)
  {
    DecryptStep(c, cipher, i);
    var to := Min(|cipher|, i + c.cipherLen);
    var newBytes := c.dec(cipher[i..to]);
    if newBytes.Some? {
      PrependTwice(sofar, newBytes.value, DecryptRsa(c, cipher[to..]));
    }
  }

  lemma PrependTwice(a: Bytes, b: Bytes, rest: Option<Bytes>)
    ensures Prepend(a, Prepend(b, rest)) == Prepend(a + b, rest)
  {
    if rest.Some? {
      Associates(a, b, rest.value);
    }
  }

  /** `decryptRSA`; `None` when a block throws. */
  method DecryptRsaLoop(c: Rsa, cipher: Bytes) returns (r: Option<Bytes>)
    requires c.cipherLen >= 1
    ensures r == DecryptRsa(c, cipher)
  {
    var decryptBytes: Bytes := [];
    var i := 0;
    assert Decrypting(c, cipher, 0, []) by {
      assert cipher[0..] == cipher;
      assert DecryptRsa(c, cipher).Some? ==> [] + DecryptRsa(c, cipher).value == DecryptRsa(c, cipher).value;
    }
    while i < |cipher|
      invariant 0 <= i && Decrypting(c, cipher, i, decryptBytes)
    {
      var newBytes := c.dec(cipher[i..Min(|cipher|, i + c.cipherLen)]);
      DecryptingGoesOn(c, cipher, i, decryptBytes);
      if newBytes.None? {
        return None;
      }
      decryptBytes := decryptBytes + newBytes.value;
      i := i + c.cipherLen;
    }
    assert cipher[|cipher|..] == [] && decryptBytes + [] == decryptBytes;
    r := Some(decryptBytes);
  }

  // ---- the module ------------------------------------------------------------------------------------

  datatype Algorithm = NoCipher | ServerRSA | OuterRSA | AES

  /** AES in ECB mode with padding; `None` is the exception for a malformed ciphertext. */
  datatype Aes = Aes(enc: Bytes -> Bytes, dec: Bytes -> Option<Bytes>)

  ghost predicate SoundAes(a: Aes) {
    (forall t :: a.enc(t) != [] && a.dec(a.enc(t)) == Some(t)) && a.dec([]) == None
  }

  /** `outer` is the peer's public key once it is set: it can encrypt but not decrypt. */
  datatype Module = Module(algorithm: Algorithm, server: Rsa, outer: Option<Rsa>, aes: Aes)

  ghost predicate SoundModule(m: Module) {
    Sound(m.server) && (m.outer.Some? ==> Sound(m.outer.value)) && SoundAes(m.aes)
  }

  /** `None` stands for the exception of a key that was never set. */
  function Encrypt(m: Module, text: Bytes, coins: int -> int): Option<Bytes>
    requires Ends(m.server, text) && (m.outer.Some? ==> Ends(m.outer.value, text))
  {
    match m.algorithm
    case NoCipher => Some(text)
    case ServerRSA => Some(EncryptRsa(m.server, text, coins))
    case OuterRSA =>
      if text == [] then Some([]) else if m.outer.None? then None else Some(EncryptRsa(m.outer.value, text, coins))
    case AES => Some(m.aes.enc(text))
  }

  /** The peer's private key is never here, so only the empty ciphertext passes under OuterRSA. */
  function Decrypt(m: Module, cipher: Bytes): Option<Bytes>
    requires m.server.cipherLen >= 1
  {
    match m.algorithm
    case NoCipher => Some(cipher)
    case ServerRSA => DecryptRsa(m.server, cipher)
    case OuterRSA => if cipher == [] then Some([]) else None
    case AES => m.aes.dec(cipher)
  }

  /** A module reads what it writes exactly when it does not write for its peer. */
  lemma ModuleRoundTripIff(m: Module, text: Bytes, coins: int -> int)
    requires SoundModule(m) && text != [] && Encrypt(m, text, coins).Some?
    ensures Encrypt(m, text, coins).value != []
    ensures Decrypt(m, Encrypt(m, text, coins).value) == Some(text) <==> m.algorithm != OuterRSA
  {
    RsaRoundTrip(m.server, text, coins);
    if m.outer.Some? {
      RsaRoundTrip(m.outer.value, text, coins);
    }
  }

  /** What the owner of the private key reads of a module's text under OuterRSA. */
  lemma PeerReadsOuter(m: Module, text: Bytes, coins: int -> int)
    requires SoundModule(m) && m.algorithm == OuterRSA && m.outer.Some?
    ensures Encrypt(m, text, coins).Some?
    ensures DecryptRsa(m.outer.value, Encrypt(m, text, coins).value) == Some(text)
  {
    RsaRoundTrip(m.outer.value, text, coins);
    if text == [] {
      assert DecryptRsa(m.outer.value, []) == Some([]);
    }
  }

  class CryptoModule {
    var algorithm: Algorithm
    var outer: Option<Rsa>
    const server: Rsa
    const aes: Aes

    function View(): Module
      reads this
    {
      Module(algorithm, server, outer, aes)
    }

    constructor (server: Rsa, aes: Aes)
      ensures View() == Module(NoCipher, server, None, aes)
    {
      this.server, this.aes := server, aes;
      algorithm, outer := NoCipher, None;
    }

    /** `key` is `None` when the bytes do not load or validate, which throws. */
    method SetOuterRSAKey(key: Option<Rsa>) returns (ok: bool)
      modifies this
      ensures ok <==> key.Some?
      ensures View() == old(View()).(outer := if key.Some? then key else old(outer))
    {
      ok := key.Some?;
      if ok {
        outer := key;
      }
    }

    method Use(a: Algorithm)
      modifies this
      ensures View() == old(View()).(algorithm := a)
    {
      algorithm := a;
    }

    method EncryptBytes(text: Bytes, coins: int -> int) returns (r: Option<Bytes>)
      requires Ends(server, text) && (outer.Some? ==> Ends(outer.value, text))
      ensures r == Encrypt(View(), text, coins)
    {
      match algorithm {
        case NoCipher => r := Some(text);
        case ServerRSA =>
          var bytes := EncryptRsaLoop(server, text, coins);
          r := Some(bytes);
        case OuterRSA =>
          if text == [] {
            r := Some([]);
          } else if outer.None? {
            r := None;
          } else {
            var bytes := EncryptRsaLoop(outer.value, text, coins);
            r := Some(bytes);
          }
        case AES => r := Some(aes.enc(text));
      }
    }

    method DecryptBytes(cipher: Bytes) returns (r: Option<Bytes>)
      requires server.cipherLen >= 1
      ensures r == Decrypt(View(), cipher)
    {
      match algorithm {
        case NoCipher => r := Some(cipher);
        case ServerRSA => r := DecryptRsaLoop(server, cipher);
        case OuterRSA => r := if cipher == [] then Some([]) else None;
        case AES => r := aes.dec(cipher);
      }
    }
  }
}
