/** Packet encryption. `CryptoHandler` encrypts with session keys derived by a
    key exchange; `EncryptionHandler` with a key hashed from a shared password
    and tells encrypted packets apart by a non-zero nonce. The authenticated
    cipher (XSalsa20-Poly1305 `crypto_secretbox`), the key exchange, SHA-256
    and the random nonce come from libsodium and are parameters here. */
module Encryption {
  import opened Common
  import opened Packet
  import Handshake

  /** `crypto_secretbox_MACBYTES`: the authentication tag a ciphertext adds. */
  const MacBytes: nat := 16

  /** `crypto_secretbox_easy(message, nonce, key)` and
      `crypto_secretbox_open_easy(ciphertext, nonce, key)`; `None` stands for a
      non-zero return code. */
  datatype SecretBox = SecretBox(
    seal: (seq<Byte>, seq<Byte>, seq<Byte>) -> Option<seq<Byte>>,
    open: (seq<Byte>, seq<Byte>, seq<Byte>) -> Option<seq<Byte>>)

  /** What libsodium documents of the cipher: a ciphertext is the message
      plus the tag and opens with the same nonce and key to the message, and a
      successful open strips the tag. */
  ghost predicate Correct(box: SecretBox)
  {
    (forall m, n, k :: box.seal(m, n, k).Some? ==>
       |box.seal(m, n, k).value| == |m| + MacBytes
       && box.open(box.seal(m, n, k).value, n, k) == Some(m))
    && (forall c, n, k :: box.open(c, n, k).Some? ==> |box.open(c, n, k).value| + MacBytes == |c|)
  }

  /** The result of an encrypt or decrypt call: its return value and the
      packet's header and body afterwards. */
  datatype Outcome = Outcome(ok: bool, header: PacketHeader, body: seq<Byte>)

  /** `CryptoHandler::Encrypt`: an empty packet (`size == 0`) passes through;
      otherwise the fresh `nonce` is stored first, then the body is sealed. A
      failed seal leaves the body but keeps the new nonce. */
  function SealPacket(box: SecretBox, key: seq<Byte>, h: PacketHeader, body: seq<Byte>, nonce: seq<Byte>): (o: Outcome)
    ensures h.size == 0 ==> o == Outcome(true, h, body)
    ensures h.size != 0 ==> o.header.id == h.id && o.header.nonce == nonce
    ensures h.size != 0 ==> (o.ok <==> box.seal(body, nonce, key).Some?)
    ensures h.size != 0 && o.ok ==> Some(o.body) == box.seal(body, nonce, key) && o.header.size == ToUint32(|o.body|)
    ensures !o.ok ==> o.body == body && o.header.size == h.size
  {
    if h.size == 0 then Outcome(true, h, body)
    else
      match box.seal(body, nonce, key)
      case None => Outcome(false, h.(nonce := nonce), body)
      case Some(c) => Outcome(true, h.(nonce := nonce, size := ToUint32(|c|)), c)
  }

  /** `CryptoHandler::Decrypt`: an empty packet passes through; a body that
      fails to open leaves the packet untouched; otherwise the body becomes
      the plaintext and the nonce is zeroed. */
  function OpenPacket(box: SecretBox, key: seq<Byte>, h: PacketHeader, body: seq<Byte>): (o: Outcome)
    ensures h.size == 0 ==> o == Outcome(true, h, body)
    ensures h.size != 0 ==> (o.ok <==> box.open(body, h.nonce, key).Some?)
    ensures !o.ok ==> o == Outcome(false, h, body)
    ensures h.size != 0 && o.ok ==>
      Some(o.body) == box.open(body, h.nonce, key)
      && o.header == PacketHeader(h.id, ToUint32(|o.body|), Zeros(NonceBytes))
  {
    if h.size == 0 then Outcome(true, h, body)
    else
      match box.open(body, h.nonce, key)
      case None => Outcome(false, h, body)
      case Some(p) => Outcome(true, h.(nonce := Zeros(NonceBytes), size := ToUint32(|p|)), p)
  }

  /** A header as `Packet` keeps it for `body`. */
  ghost predicate Framed(h: PacketHeader, body: seq<Byte>)
  {
    |h.nonce| == NonceBytes && h.size == ToUint32(|body|)
  }

  /** Sealing keeps the framing, and a successful seal makes the body the
      message plus the tag. */
  lemma SealPacketFramed(box: SecretBox, key: seq<Byte>, h: PacketHeader, body: seq<Byte>, nonce: seq<Byte>)
    requires Correct(box) && Framed(h, body) && |nonce| == NonceBytes
    ensures var o := SealPacket(box, key, h, body, nonce);
      Framed(o.header, o.body) && o.header.id == h.id
      && (o.ok && h.size != 0 ==> |o.body| == |body| + MacBytes && o.header.nonce == nonce)
      && (!o.ok ==> o.body == body)
  {
  }

  /** Decrypting what was encrypted with the same key gives back the body, its
      size, and a zero nonce (an empty packet is left as it was). The body must
      leave room for the tag in the 32-bit size field: a ciphertext of exactly
      2^32 bytes would get size 0 and pass through decryption unopened. */
  lemma SealOpenRoundTrip(box: SecretBox, key: seq<Byte>, h: PacketHeader, body: seq<Byte>, nonce: seq<Byte>)
    requires Correct(box) && Framed(h, body) && |nonce| == NonceBytes
    requires |body| + MacBytes < Two32
    requires SealPacket(box, key, h, body, nonce).ok
    ensures var e := SealPacket(box, key, h, body, nonce);
      var d := OpenPacket(box, key, e.header, e.body);
      d.ok && d.body == body
      && d.header == (if h.size == 0 then h else h.(nonce := Zeros(NonceBytes)))
  {
    if h.size != 0 {
      var c := box.seal(body, nonce, key).value;
      assert box.open(c, nonce, key) == Some(body);
      assert |c| == |body| + MacBytes;
    }
  }

  class CryptoHandler {
    const decryptKey: seq<Byte>
    const encryptKey: seq<Byte>

    /** `CryptoHandler()`: both keys zero-initialised. */
    constructor ()
      ensures decryptKey == Zeros(Handshake.KeyBytes) && encryptKey == Zeros(Handshake.KeyBytes)
    {
      decryptKey := Zeros(Handshake.KeyBytes);
      encryptKey := Zeros(Handshake.KeyBytes);
    }

    /** Holds the session keys (receive, transmit) a key exchange produced. */
    constructor FromSessionKeys(rx: seq<Byte>, tx: seq<Byte>)
      ensures decryptKey == rx && encryptKey == tx
    {
      decryptKey := rx;
      encryptKey := tx;
    }

    /** `Encrypt(packet)` with `nonce` the bytes `randombytes_buf` produced. */
    method Encrypt(box: SecretBox, packet: Packet, nonce: seq<Byte>) returns (ok: bool)
      requires packet.Valid() && |nonce| == NonceBytes && Correct(box)
      modifies packet
      ensures packet.Valid()
      ensures Outcome(ok, packet.header, packet.body)
           == SealPacket(box, encryptKey, old(packet.header), old(packet.body), nonce)
    {
      if packet.header.size == 0 {
        return true;
      }
      packet.header := packet.header.(nonce := nonce);
      var sealed := box.seal(packet.body, nonce, encryptKey);
      if sealed.None? {
        return false;
      }
      packet.Replace(sealed.value, |sealed.value|);
      assert sealed.value[..|sealed.value|] == sealed.value;
      return true;
    }

    /** `Decrypt(packet)`. A non-empty body shorter than the tag makes the
        source size a stack buffer with a wrapped-around length, so callers
        must not pass one. */
    method Decrypt(box: SecretBox, packet: Packet) returns (ok: bool)
      requires packet.Valid() && Correct(box)
      requires packet.header.size == 0 || |packet.body| >= MacBytes
      modifies packet
      ensures packet.Valid()
      ensures Outcome(ok, packet.header, packet.body)
           == OpenPacket(box, decryptKey, old(packet.header), old(packet.body))
    {
      if packet.header.size == 0 {
        return true;
      }
      var plain := box.open(packet.body, packet.header.nonce, decryptKey);
      if plain.None? {
        return false;
      }
      packet.Replace(plain.value, |plain.value|);
      assert plain.value[..|plain.value|] == plain.value;
      packet.header := packet.header.(nonce := Zeros(NonceBytes));
      return true;
    }
  }

  /** The two session-key derivations of `crypto_kx`: from one's own key pair
      and the peer's public key, the (receive, transmit) keys, or `None` when
      the peer's key is rejected. */
  datatype KeyExchange = KeyExchange(
    server: (seq<Byte>, seq<Byte>, seq<Byte>) -> Option<(seq<Byte>, seq<Byte>)>,
    client: (seq<Byte>, seq<Byte>, seq<Byte>) -> Option<(seq<Byte>, seq<Byte>)>)

  /** The (receive, transmit) keys the derivation for the given role yields. */
  function SessionKeys(kx: KeyExchange, ownPublic: seq<Byte>, ownPrivate: seq<Byte>,
                       target: seq<Byte>, isServer: bool): Option<(seq<Byte>, seq<Byte>)>
  {
    if isServer then kx.server(ownPublic, ownPrivate, target) else kx.client(ownPublic, ownPrivate, target)
  }

  /** `CryptoHandler(ownKeys, targetPublicKey, isServer)`: the derivation is
      chosen by role; a rejected peer key (the source throws) gives `null`. */
  method NewCryptoHandler(kx: KeyExchange, ownPublic: seq<Byte>, ownPrivate: seq<Byte>,
                          target: seq<Byte>, isServer: bool)
    returns (handler: CryptoHandler?)
    ensures handler == null <==> SessionKeys(kx, ownPublic, ownPrivate, target, isServer).None?
    ensures handler != null ==>
      (fresh(handler)
       && handler.decryptKey == SessionKeys(kx, ownPublic, ownPrivate, target, isServer).value.0
       && handler.encryptKey == SessionKeys(kx, ownPublic, ownPrivate, target, isServer).value.1)
  {
    var keys := SessionKeys(kx, ownPublic, ownPrivate, target, isServer);
    if keys.None? {
      return null;
    }
    handler := new CryptoHandler.FromSessionKeys(keys.value.0, keys.value.1);
  }

  // ---- Password-keyed encryption ----

  /** The three `uint64_t` words of the nonce, OR-ed. */
  function WordsOr(nonce: seq<Byte>): bv64
    requires |nonce| == NonceBytes
  {
    Handshake.LoadLE(nonce[0..8]) | Handshake.LoadLE(nonce[8..16]) | Handshake.LoadLE(nonce[16..24])
  }

  /** `IsEncrypted(packet)`: the OR of the nonce's three words is non-zero.
      Read as a whole, a packet counts as encrypted exactly when some nonce
      byte is non-zero. */
  function IsEncrypted(nonce: seq<Byte>): (encrypted: bool)
    requires |nonce| == NonceBytes
    ensures encrypted <==> exists i :: 0 <= i < NonceBytes && nonce[i] != 0
  {
    WordsOrZero(nonce);
    WordsOr(nonce) != 0
  }

  /** A loaded word is zero exactly when its eight bytes are. */
  lemma Load8Zero(b0: Byte, b1: Byte, b2: Byte, b3: Byte, b4: Byte, b5: Byte, b6: Byte, b7: Byte)
    ensures Handshake.Load8(b0, b1, b2, b3, b4, b5, b6, b7) == 0
        <==> b0 == 0 && b1 == 0 && b2 == 0 && b3 == 0 && b4 == 0 && b5 == 0 && b6 == 0 && b7 == 0
  {
  }

  lemma LoadLEZero(b: seq<Byte>)
    requires |b| == 8
    ensures Handshake.LoadLE(b) == 0 <==> forall i :: 0 <= i < 8 ==> b[i] == 0
  {
    Load8Zero(b[0], b[1], b[2], b[3], b[4], b[5], b[6], b[7]);
  }

  /** A nonce is all zero exactly when each of its three 8-byte words is. */
  lemma NonceWordsZero(nonce: seq<Byte>)
    requires |nonce| == NonceBytes
    ensures (forall i :: 0 <= i < NonceBytes ==> nonce[i] == 0) <==>
      ((forall i :: 0 <= i < 8 ==> nonce[0..8][i] == 0)
       && (forall i :: 0 <= i < 8 ==> nonce[8..16][i] == 0)
       && (forall i :: 0 <= i < 8 ==> nonce[16..24][i] == 0))
  {
    if forall i :: 0 <= i < 8 ==> nonce[0..8][i] == 0 && nonce[8..16][i] == 0 && nonce[16..24][i] == 0 {
      forall i | 0 <= i < NonceBytes
        ensures nonce[i] == 0
      {
        if i < 8 { assert nonce[0..8][i] == nonce[i]; }
        else if i < 16 { assert nonce[8..16][i - 8] == nonce[i]; }
        else { assert nonce[16..24][i - 16] == nonce[i]; }
      }
    }
  }

  /** The OR of the three words is zero exactly when every nonce byte is. */
  lemma WordsOrZero(nonce: seq<Byte>)
    requires |nonce| == NonceBytes
    ensures WordsOr(nonce) == 0 <==> forall i :: 0 <= i < NonceBytes ==> nonce[i] == 0
  {
    assert WordsOr(nonce) == 0 <==>
      (Handshake.LoadLE(nonce[0..8]) == 0 && Handshake.LoadLE(nonce[8..16]) == 0
       && Handshake.LoadLE(nonce[16..24]) == 0);
    NonceWordsZero(nonce);
    LoadLEZero(nonce[0..8]);
    LoadLEZero(nonce[8..16]);
    LoadLEZero(nonce[16..24]);
  }

  /** `EncryptionHandler::Encrypt`: an already-encrypted packet is left alone. */
  function SymSealPacket(box: SecretBox, key: seq<Byte>, h: PacketHeader, body: seq<Byte>, nonce: seq<Byte>): (o: Outcome)
    requires |h.nonce| == NonceBytes
    ensures (exists i :: 0 <= i < NonceBytes && h.nonce[i] != 0) ==> o == Outcome(true, h, body)
    ensures (forall i :: 0 <= i < NonceBytes ==> h.nonce[i] == 0) ==> o == SealPacket(box, key, h, body, nonce)
  {
    if h.size == 0 || IsEncrypted(h.nonce) then Outcome(true, h, body)
    else SealPacket(box, key, h, body, nonce)
  }

  /** `EncryptionHandler::Decrypt`: a packet that is not encrypted is left alone. */
  function SymOpenPacket(box: SecretBox, key: seq<Byte>, h: PacketHeader, body: seq<Byte>): (o: Outcome)
    requires |h.nonce| == NonceBytes
    ensures (forall i :: 0 <= i < NonceBytes ==> h.nonce[i] == 0) ==> o == Outcome(true, h, body)
    ensures (exists i :: 0 <= i < NonceBytes && h.nonce[i] != 0) ==> o == OpenPacket(box, key, h, body)
  {
    if h.size == 0 || !IsEncrypted(h.nonce) then Outcome(true, h, body)
    else OpenPacket(box, key, h, body)
  }

  /** A plaintext packet (zero nonce) encrypted under a non-zero nonce and
      decrypted with the same key comes back exactly as it was. An all-zero
      fresh nonce would make the encrypted packet look plain, so the receiver
      would not decrypt it. */
  lemma SymRoundTrip(box: SecretBox, key: seq<Byte>, h: PacketHeader, body: seq<Byte>, nonce: seq<Byte>)
    requires Correct(box) && Framed(h, body) && |nonce| == NonceBytes
    requires |body| + MacBytes < Two32
    requires h.nonce == Zeros(NonceBytes)
    requires exists i :: 0 <= i < NonceBytes && nonce[i] != 0
    requires SymSealPacket(box, key, h, body, nonce).ok
    ensures var e := SymSealPacket(box, key, h, body, nonce);
      |e.header.nonce| == NonceBytes
      && SymOpenPacket(box, key, e.header, e.body) == Outcome(true, h, body)
  {
    SealOpenRoundTrip(box, key, h, body, nonce);
  }

  /** Encrypting twice is encrypting once: after a successful encryption the
      packet counts as encrypted, so the second call changes nothing. */
  lemma SymSealIdempotent(box: SecretBox, key: seq<Byte>, h: PacketHeader, body: seq<Byte>,
                          nonce: seq<Byte>, nonce2: seq<Byte>)
    requires |h.nonce| == NonceBytes && |nonce| == NonceBytes
    requires exists i :: 0 <= i < NonceBytes && nonce[i] != 0
    requires SymSealPacket(box, key, h, body, nonce).ok
    ensures var e := SymSealPacket(box, key, h, body, nonce);
      |e.header.nonce| == NonceBytes
      && SymSealPacket(box, key, e.header, e.body, nonce2) == e
  {
  }

  /** Decrypting twice is decrypting once: a successful decryption zeroes the
      nonce, so the second call changes nothing. */
  lemma SymOpenIdempotent(box: SecretBox, key: seq<Byte>, h: PacketHeader, body: seq<Byte>)
    requires |h.nonce| == NonceBytes
    requires SymOpenPacket(box, key, h, body).ok
    ensures var d := SymOpenPacket(box, key, h, body);
      |d.header.nonce| == NonceBytes
      && SymOpenPacket(box, key, d.header, d.body) == d
  {
  }

  class EncryptionHandler {
    /** The SHA-256 digest of the password. */
    const key: seq<Byte>

    constructor FromKey(key: seq<Byte>)
      ensures this.key == key
    {
      this.key := key;
    }

    /** `IsEncrypted(packet)`. */
    method IsPacketEncrypted(packet: Packet) returns (encrypted: bool)
      requires packet.Valid()
      ensures encrypted <==> exists i :: 0 <= i < NonceBytes && packet.header.nonce[i] != 0
    {
      encrypted := IsEncrypted(packet.header.nonce);
    }

    /** `Encrypt(packet)` with `nonce` the bytes `randombytes_buf` produced. */
    method Encrypt(box: SecretBox, packet: Packet, nonce: seq<Byte>) returns (ok: bool)
      requires packet.Valid() && |nonce| == NonceBytes && Correct(box)
      modifies packet
      ensures packet.Valid()
      ensures Outcome(ok, packet.header, packet.body)
           == SymSealPacket(box, key, old(packet.header), old(packet.body), nonce)
    {
      if packet.header.size == 0 || IsEncrypted(packet.header.nonce) {
        return true;
      }
      packet.header := packet.header.(nonce := nonce);
      var sealed := box.seal(packet.body, nonce, key);
      if sealed.None? {
        return false;
      }
      packet.Replace(sealed.value, |sealed.value|);
      assert sealed.value[..|sealed.value|] == sealed.value;
      return true;
    }

    /** `Decrypt(packet)`; as for `CryptoHandler::Decrypt`, an encrypted body
        shorter than the tag is excluded. */
    method Decrypt(box: SecretBox, packet: Packet) returns (ok: bool)
      requires packet.Valid() && Correct(box)
      requires packet.header.size == 0 || !IsEncrypted(packet.header.nonce) || |packet.body| >= MacBytes
      modifies packet
      ensures packet.Valid()
      ensures Outcome(ok, packet.header, packet.body)
           == SymOpenPacket(box, key, old(packet.header), old(packet.body))
    {
      if packet.header.size == 0 || !IsEncrypted(packet.header.nonce) {
        return true;
      }
      var plain := box.open(packet.body, packet.header.nonce, key);
      if plain.None? {
        return false;
      }
      packet.Replace(plain.value, |plain.value|);
      assert plain.value[..|plain.value|] == plain.value;
      packet.header := packet.header.(nonce := Zeros(NonceBytes));
      return true;
    }
  }

  /** `EncryptionHandler(password)`: the key is `crypto_hash_sha256` of the
      password's bytes; a failing hash (the source throws) gives `null`. */
  method NewEncryptionHandler(sha256: seq<Byte> -> Option<seq<Byte>>, password: seq<Byte>)
    returns (handler: EncryptionHandler?)
    ensures handler == null <==> sha256(password).None?
    ensures handler != null ==> fresh(handler) && handler.key == sha256(password).value
  {
    var digest := sha256(password);
    if digest.None? {
      return null;
    }
    handler := new EncryptionHandler.FromKey(digest.value);
  }
}
