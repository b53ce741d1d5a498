/** The connection handshake: the server sends its public key together with a
    random 32-byte challenge scrambled by a reversible byte mix; the client
    unscrambles the challenge and answers with its own public key; the server
    accepts the client only when the answer equals the challenge it drew.
    A handshake buffer is 64 bytes: public key in [0, 32), challenge in [32, 64). */
module Handshake {
  import opened Common

  /** `CryptoKeySize`. */
  const KeyBytes: nat := 32
  /** `ChallengeSize`. */
  const ChallengeBytes: nat := 32
  /** `sizeof(Handshake)`: the public key followed by the challenge. */
  const HandshakeBytes: nat := 64

  // ---- The byte mix on one 64-bit block ----

  /** The block a little-endian `uint64_t` load makes of eight bytes. */
  function Load8(b0: Byte, b1: Byte, b2: Byte, b3: Byte, b4: Byte, b5: Byte, b6: Byte, b7: Byte): bv64
  {
    (b0 as bv64) | ((b1 as bv64) << 8) | ((b2 as bv64) << 16) | ((b3 as bv64) << 24)
    | ((b4 as bv64) << 32) | ((b5 as bv64) << 40) | ((b6 as bv64) << 48) | ((b7 as bv64) << 56)
  }

  /** `Load8` of a block given as a sequence. */
  function LoadLE(b: seq<Byte>): bv64
    requires |b| == 8
  {
    Load8(b[0], b[1], b[2], b[3], b[4], b[5], b[6], b[7])
  }

  /** The eight bytes a little-endian `uint64_t` store writes. */
  function StoreLE(w: bv64): (b: seq<Byte>)
    ensures |b| == 8
  {
    [(w & 0xFF) as bv8, ((w >> 8) & 0xFF) as bv8, ((w >> 16) & 0xFF) as bv8,
     ((w >> 24) & 0xFF) as bv8, ((w >> 32) & 0xFF) as bv8, ((w >> 40) & 0xFF) as bv8,
     ((w >> 48) & 0xFF) as bv8, ((w >> 56) & 0xFF) as bv8]
  }

  /** One block of the mix as the source computes it: each byte lane is
      masked out and shifted to its mirror position. */
  function ByteSwap64(block: bv64): (r: bv64)
    ensures var b := StoreLE(block); StoreLE(r) == [b[7], b[6], b[5], b[4], b[3], b[2], b[1], b[0]]
  {
    var mask: bv64 := 0xFF;
    ((block & mask) << 56)
    | ((block & (mask << 8)) << 40)
    | ((block & (mask << 16)) << 24)
    | ((block & (mask << 24)) << 8)
    | ((block & (mask << 32)) >> 8)
    | ((block & (mask << 40)) >> 24)
    | ((block & (mask << 48)) >> 40)
    | ((block & (mask << 56)) >> 56)
  }

  /** Storing a loaded block gives back the same bytes. */
  lemma StoreLoad(b0: Byte, b1: Byte, b2: Byte, b3: Byte, b4: Byte, b5: Byte, b6: Byte, b7: Byte)
    ensures StoreLE(Load8(b0, b1, b2, b3, b4, b5, b6, b7)) == [b0, b1, b2, b3, b4, b5, b6, b7]
  {
  }

  /** The mix of a loaded block is the load of the same bytes in reverse. */
  lemma ByteSwapLoad(b0: Byte, b1: Byte, b2: Byte, b3: Byte, b4: Byte, b5: Byte, b6: Byte, b7: Byte)
    ensures ByteSwap64(Load8(b0, b1, b2, b3, b4, b5, b6, b7)) == Load8(b7, b6, b5, b4, b3, b2, b1, b0)
  {
  }

  /** The mix of one block reverses the order of its eight bytes in memory. */
  lemma ByteSwapReversesBlock(b: seq<Byte>)
    requires |b| == 8
    ensures forall k :: 0 <= k < 8 ==> StoreLE(ByteSwap64(LoadLE(b)))[k] == b[7 - k]
  {
    ByteSwapLoad(b[0], b[1], b[2], b[3], b[4], b[5], b[6], b[7]);
    StoreLoad(b[7], b[6], b[5], b[4], b[3], b[2], b[1], b[0]);
  }

  // ---- The mix on a whole challenge ----

  /** Where the byte at position `i` of a challenge comes from after the mix. */
  function ScrambleIndex(i: nat): (j: nat)
    ensures j / 8 == i / 8 && j % 8 == 7 - i % 8
  {
    i - i % 8 + (7 - i % 8)
  }

  /** The challenge after the mix: every 8-byte block reversed in place. */
  function Scrambled(s: seq<Byte>): (r: seq<Byte>)
    requires |s| % 8 == 0
    ensures |r| == |s|
  {
    seq(|s|, i requires 0 <= i < |s| => s[ScrambleIndex(i)])
  }

  /** The mix is its own inverse, which is what lets the client undo it by
      applying it again. */
  lemma ScrambleInvolution(s: seq<Byte>)
    requires |s| % 8 == 0
    ensures Scrambled(Scrambled(s)) == s
  {
    forall i | 0 <= i < |s|
      ensures Scrambled(Scrambled(s))[i] == s[i]
    {
      assert ScrambleIndex(ScrambleIndex(i)) == i;
    }
  }

  /** Copies `src` into `dst` from position `at` (`std::memcpy`). */
  method CopyInto(dst: array<Byte>, at: nat, src: seq<Byte>)
    requires at + |src| <= dst.Length
    modifies dst
    ensures dst[at..at + |src|] == src
    ensures forall j :: 0 <= j < dst.Length && !(at <= j < at + |src|) ==> dst[j] == old(dst[j])
  {
    var i := 0;
    while i < |src|
      invariant 0 <= i <= |src|
      invariant forall j :: at <= j < at + i ==> dst[j] == src[j - at]
      invariant forall j :: 0 <= j < dst.Length && !(at <= j < at + i) ==> dst[j] == old(dst[j])
    {
      dst[at + i] := src[i];
      i := i + 1;
    }
  }

  /** One pass of the loop in `Scramble`: the 8-byte block at `at` is loaded
      as a `uint64_t`, mixed and stored back. */
  method ScrambleBlock(data: array<Byte>, at: nat)
    requires at + 8 <= data.Length
    modifies data
    ensures forall j :: at <= j < at + 8 ==> data[j] == old(data[2 * at + 7 - j])
    ensures forall j :: 0 <= j < data.Length && !(at <= j < at + 8) ==> data[j] == old(data[j])
  {
    var block := data[at..at + 8];
    var scrambled := ByteSwap64(LoadLE(block));
    ByteSwapReversesBlock(block);
    CopyInto(data, at, StoreLE(scrambled));
    forall j | at <= j < at + 8
      ensures data[j] == old(data[2 * at + 7 - j])
    {
      assert data[at..at + 8][j - at] == data[j];
    }
  }

  /** Inside a block starting at a multiple of 8, the mix mirrors offsets. */
  lemma ScrambleIndexInBlock(i: nat, k: nat)
    requires i % 8 == 0 && k < 8
    ensures ScrambleIndex(i + k) == i + 7 - k
  {
    assert (i + k) % 8 == k;
  }

  /** `Scramble(data)`: mixes the 32-byte challenge held in `data` from
      position `at`, one 8-byte block at a time, in place. */
  method Scramble(data: array<Byte>, at: nat)
    requires at + ChallengeBytes <= data.Length
    modifies data
    ensures data[at..at + ChallengeBytes] == Scrambled(old(data[at..at + ChallengeBytes]))
    ensures forall j :: 0 <= j < data.Length && !(at <= j < at + ChallengeBytes) ==> data[j] == old(data[j])
  {
    ghost var before := data[at..at + ChallengeBytes];
    var i := 0;
    while i < ChallengeBytes
      invariant 0 <= i <= ChallengeBytes && i % 8 == 0
      invariant forall j :: at <= j < at + i ==> data[j] == before[ScrambleIndex(j - at)]
      invariant forall j :: 0 <= j < data.Length && !(at <= j < at + i) ==> data[j] == old(data[j])
    {
      ScrambleBlock(data, at + i);
      forall j | at + i <= j < at + i + 8
        ensures data[j] == before[ScrambleIndex(j - at)]
      {
        ScrambleIndexInBlock(i, j - at - i);
      }
      i := i + 8;
    }
    assert data[at..at + ChallengeBytes] == Scrambled(before);
  }

  class HandshakeHandler {
    /** The handshake packet to be sent. */
    const handshakeOut: array<Byte>
    /** The handshake packet received. */
    const handshakeIn: array<Byte>
    /** The challenge the server expects back. */
    const handshakeCheck: array<Byte>

    ghost predicate Valid()
      reads this
    {
      handshakeOut.Length == HandshakeBytes && handshakeIn.Length == HandshakeBytes
      && handshakeCheck.Length == ChallengeBytes
      && handshakeOut != handshakeIn
    }

    /** The buffers start with indeterminate contents. */
    constructor ()
      ensures Valid()
      ensures fresh(handshakeOut) && fresh(handshakeIn) && fresh(handshakeCheck)
    {
      handshakeOut := new Byte[HandshakeBytes];
      handshakeIn := new Byte[HandshakeBytes];
      handshakeCheck := new Byte[ChallengeBytes];
    }

    /** Server side: draws the challenge (`random`, the bytes `randombytes`
        yields), keeps it in `handshakeCheck` and writes the outgoing packet:
        the server's public key and the scrambled challenge. */
    method PrepareHandshakeForClient(serverPublicKey: seq<Byte>, random: seq<Byte>)
      requires Valid()
      requires |serverPublicKey| == KeyBytes && |random| == ChallengeBytes
      modifies handshakeOut, handshakeCheck
      ensures handshakeCheck[..] == random
      ensures handshakeOut[..KeyBytes] == serverPublicKey
      ensures handshakeOut[KeyBytes..] == Scrambled(random)
    {
      CopyInto(handshakeCheck, 0, random);
      assert handshakeCheck[..] == handshakeCheck[0..ChallengeBytes];
      CopyInto(handshakeOut, KeyBytes, handshakeCheck[..]);
      Scramble(handshakeOut, KeyBytes);
      CopyInto(handshakeOut, 0, serverPublicKey);
      assert handshakeOut[..KeyBytes] == handshakeOut[0..KeyBytes];
      assert handshakeOut[KeyBytes..] == handshakeOut[KeyBytes..KeyBytes + ChallengeBytes];
    }

    /** Server side: the client passes when the challenge in its packet equals
        `handshakeCheck` byte for byte; only then is its public key copied out. */
    method IsClientHandshakeValid(clientPublicKey: array<Byte>) returns (valid: bool)
      requires Valid()
      requires clientPublicKey.Length == KeyBytes
      requires clientPublicKey != handshakeIn && clientPublicKey != handshakeCheck
      modifies clientPublicKey
      ensures valid <==> handshakeIn[KeyBytes..] == handshakeCheck[..]
      ensures valid ==> clientPublicKey[..] == handshakeIn[..KeyBytes]
      ensures !valid ==> clientPublicKey[..] == old(clientPublicKey[..])
    {
      var i := 0;
      while i < ChallengeBytes
        invariant 0 <= i <= ChallengeBytes
        invariant forall j :: 0 <= j < i ==> handshakeIn[KeyBytes + j] == handshakeCheck[j]
      {
        if handshakeIn[KeyBytes + i] != handshakeCheck[i] {
          assert handshakeIn[KeyBytes..][i] != handshakeCheck[..][i];
          return false;
        }
        i := i + 1;
      }
      assert handshakeIn[KeyBytes..] == handshakeCheck[..];
      CopyInto(clientPublicKey, 0, handshakeIn[..KeyBytes]);
      assert clientPublicKey[..] == clientPublicKey[0..KeyBytes];
      return true;
    }

    /** Client side: answers the received packet by unscrambling its challenge,
        hands back the server's public key and puts its own in its place. */
    method ResolveServerHandshake(serverPublicKey: array<Byte>, clientPublicKey: seq<Byte>)
      requires Valid()
      requires serverPublicKey.Length == KeyBytes && |clientPublicKey| == KeyBytes
      requires serverPublicKey != handshakeOut && serverPublicKey != handshakeIn
      modifies handshakeOut, serverPublicKey
      ensures serverPublicKey[..] == old(handshakeIn[..KeyBytes])
      ensures handshakeOut[..KeyBytes] == clientPublicKey
      ensures handshakeOut[KeyBytes..] == Scrambled(old(handshakeIn[KeyBytes..]))
    {
      CopyInto(handshakeOut, 0, handshakeIn[..]);
      assert handshakeOut[..] == handshakeIn[..];
      Scramble(handshakeOut, KeyBytes);
      assert handshakeOut[KeyBytes..] == handshakeOut[KeyBytes..KeyBytes + ChallengeBytes];
      CopyInto(serverPublicKey, 0, handshakeOut[..KeyBytes]);
      assert serverPublicKey[..] == serverPublicKey[0..KeyBytes];
      CopyInto(handshakeOut, 0, clientPublicKey);
      assert handshakeOut[..KeyBytes] == handshakeOut[0..KeyBytes];
    }
  }

  /** An honest exchange: the server's packet reaches the client, the client's
      answer reaches the server. The server always accepts, and each side ends
      up holding the other side's public key. */
  method HonestExchange(server: HandshakeHandler, client: HandshakeHandler,
                        serverKey: seq<Byte>, clientKey: seq<Byte>, random: seq<Byte>,
                        serverKeyAtClient: array<Byte>, clientKeyAtServer: array<Byte>)
    returns (accepted: bool)
    requires server.Valid() && client.Valid()
    requires |serverKey| == KeyBytes && |clientKey| == KeyBytes && |random| == ChallengeBytes
    requires serverKeyAtClient.Length == KeyBytes && clientKeyAtServer.Length == KeyBytes
    requires {server.handshakeOut, server.handshakeIn, server.handshakeCheck}
          !! {client.handshakeOut, client.handshakeIn, client.handshakeCheck}
    requires server.handshakeCheck != server.handshakeOut && server.handshakeCheck != server.handshakeIn
    requires serverKeyAtClient !in {server.handshakeOut, server.handshakeIn, server.handshakeCheck,
                                    client.handshakeOut, client.handshakeIn, clientKeyAtServer}
    requires clientKeyAtServer !in {server.handshakeOut, server.handshakeIn, server.handshakeCheck,
                                    client.handshakeOut, client.handshakeIn}
    modifies server.handshakeOut, server.handshakeIn, server.handshakeCheck
    modifies client.handshakeOut, client.handshakeIn, serverKeyAtClient, clientKeyAtServer
    ensures accepted
    ensures serverKeyAtClient[..] == serverKey && clientKeyAtServer[..] == clientKey
  {
    server.PrepareHandshakeForClient(serverKey, random);
    CopyInto(client.handshakeIn, 0, server.handshakeOut[..]);
    assert client.handshakeIn[..] == server.handshakeOut[..];
    client.ResolveServerHandshake(serverKeyAtClient, clientKey);
    assert serverKeyAtClient[..] == serverKey;
    ScrambleInvolution(random);
    CopyInto(server.handshakeIn, 0, client.handshakeOut[..]);
    assert server.handshakeIn[..] == client.handshakeOut[..];
    assert server.handshakeIn[KeyBytes..] == random;
    accepted := server.IsClientHandshakeValid(clientKeyAtServer);
  }

  /** The library-wide `sodium_init` latch. */
  class SodiumLatch {
    var initialized: bool

    constructor ()
      ensures !initialized
    {
      initialized := false;
    }

    /** `InitSodium()`: `sodiumInit` is what `sodium_init()` would return
        (negative on failure). Already initialised: nothing happens. A failure
        (the source throws) reports `false` and leaves the latch down, so a
        later call tries again. */
    method Init(sodiumInit: int) returns (ok: bool)
      modifies this
      ensures old(initialized) ==> ok && initialized
      ensures !old(initialized) ==> ok == (sodiumInit >= 0) && initialized == ok
    {
      if initialized {
        return true;
      }
      if sodiumInit < 0 {
        return false;
      }
      initialized := true;
      return true;
    }
  }
}
