/** Packet framing: a fixed header (`id`, `size`, `nonce`) followed by a byte
    body that push and pop treat as a stack. A pushed value is represented by
    its object bytes (`sizeof(T)` of them, the bytes `memcpy` copies). */
module Packet {
  import opened Common

  /** `crypto_secretbox_NONCEBYTES`: the nonce length of XSalsa20-Poly1305. */
  const NonceBytes: nat := 24

  /** `id` is the underlying value of the application's packet-type enum and
      `size` is the `uint32_t` length field. */
  datatype PacketHeader = PacketHeader(id: int, size: int, nonce: seq<Byte>)

  /** The header of a packet built by `Packet(id)`: empty, all-zero nonce. */
  function FreshHeader(id: int): (h: PacketHeader)
    ensures h.id == id && h.size == 0
    ensures |h.nonce| == NonceBytes && forall i :: 0 <= i < NonceBytes ==> h.nonce[i] == 0
  {
    PacketHeader(id, 0, Zeros(NonceBytes))
  }

  class Packet {
    var header: PacketHeader
    var body: seq<Byte>

    /** Every mutation leaves `header.size` equal to the body length as a
        `uint32_t` can hold it, and the nonce has its fixed length. */
    ghost predicate Valid()
      reads this
    {
      |header.nonce| == NonceBytes && header.size == ToUint32(|body|)
    }

    /** `Packet()`: the header is value-initialised, so the id is 0. */
    constructor Default()
      ensures Valid() && header == FreshHeader(0) && body == []
    {
      header := FreshHeader(0);
      body := [];
    }

    /** `Packet(id)`. */
    constructor (id: int)
      ensures Valid() && header == FreshHeader(id) && body == []
    {
      header := FreshHeader(id);
      body := [];
    }

    /** `Packet(id, data)`: `Packet(id)` followed by one push of `data`. */
    constructor WithData(id: int, data: seq<Byte>)
      ensures Valid()
      ensures header == FreshHeader(id).(size := ToUint32(|data|)) && body == data
    {
      header := FreshHeader(id);
      body := [];
      new;
      Push(data);
    }

    /** The implicit copy constructor. */
    constructor Copy(other: Packet)
      requires other.Valid()
      ensures Valid() && header == other.header && body == other.body
    {
      header := other.header;
      body := other.body;
    }

    /** `clear()`: empties the body and zeroes `size`; `id` and `nonce` stay. */
    method Clear()
      requires Valid()
      modifies this
      ensures Valid()
      ensures body == [] && header == old(header).(size := 0)
    {
      header := header.(size := 0);
      body := [];
    }

    /** `replace(data, size)`: the body becomes the first `size` bytes of the
        caller's buffer and `size` is stored (truncated) into the header. */
    method Replace(data: seq<Byte>, size: nat)
      requires Valid()
      requires size <= |data|
      modifies this
      ensures Valid()
      ensures body == data[..size] && header == old(header).(size := ToUint32(size))
    {
      header := header.(size := ToUint32(size));
      body := data[..size];
    }

    /** `packet << data`: appends the value's bytes at the tail. */
    method Push(value: seq<Byte>)
      requires Valid()
      modifies this
      ensures Valid()
      ensures body == old(body) + value
      ensures header == old(header).(size := ToUint32(|old(body)| + |value|))
    {
      var i := |body|;
      body := body + value;
      assert body[..i] == old(body);
      header := header.(size := ToUint32(|body|));
    }

    /** `packet >> data`: removes the trailing `width` bytes and returns them.
        With fewer than `width` bytes the source's start index underflows, so
        callers must not do that. */
    method Pop(width: nat) returns (value: seq<Byte>)
      requires Valid()
      requires width <= |body|
      modifies this
      ensures Valid()
      ensures value == old(body)[|old(body)| - width..]
      ensures body == old(body)[..|old(body)| - width]
      ensures old(body) == body + value
      ensures header == old(header).(size := ToUint32(|old(body)| - width))
    {
      var i := |body| - width;
      value := body[i..];
      body := body[..i];
      header := header.(size := ToUint32(|body|));
    }
  }

  /** A pushed value popped right away with the same width comes back
      unchanged, and the packet is as it was before the push. */
  method PushThenPop(p: Packet, value: seq<Byte>) returns (popped: seq<Byte>)
    requires p.Valid()
    modifies p
    ensures p.Valid()
    ensures popped == value
    ensures p.body == old(p.body) && p.header == old(p.header)
  {
    p.Push(value);
    popped := p.Pop(|value|);
    assert p.body + popped == old(p.body) + value;
  }

  /** A packet annotated with the connection that received it (a handle,
      absent on a client). The wrapped packet is a copy. */
  class OwnedPacket {
    const packet: Packet
    const remote: Option<nat>

    constructor (p: Packet, remote: Option<nat>)
      requires p.Valid()
      ensures fresh(packet) && packet.Valid()
      ensures packet.header == p.header && packet.body == p.body
      ensures this.remote == remote
    {
      packet := new Packet.Copy(p);
      this.remote := remote;
    }
  }

  // ---- Stack discipline over whole sequences of pushes and pops ----

  /** The body after pushing `values` in order onto `body`. */
  function PushAll(body: seq<Byte>, values: seq<seq<Byte>>): seq<Byte>
  {
    if values == [] then body
    else PushAll(body, values[..|values| - 1]) + values[|values| - 1]
  }

  /** The widths of `values` in the order a caller must pop them. */
  function PopOrderWidths(values: seq<seq<Byte>>): seq<nat>
  {
    if values == [] then []
    else [|values[|values| - 1]|] + PopOrderWidths(values[..|values| - 1])
  }

  /** `values` last first. */
  function LastFirst<T>(values: seq<T>): seq<T>
  {
    if values == [] then []
    else [values[|values| - 1]] + LastFirst(values[..|values| - 1])
  }

  /** Pops the given widths in turn; `None` when a pop would underflow.
      Returns the remaining body and the popped values in pop order. */
  function PopAll(body: seq<Byte>, widths: seq<nat>): Option<(seq<Byte>, seq<seq<Byte>>)>
    decreases |widths|
  {
    if widths == [] then Some((body, []))
    else if widths[0] > |body| then None
    else
      var cut := |body| - widths[0];
      match PopAll(body[..cut], widths[1..])
      case None => None
      case Some(r) => Some((r.0, [body[cut..]] + r.1))
  }

  /** Round trip of the stack discipline: pushing any values and then popping
      them in reverse order yields each value back and restores the body. */
  lemma {:induction false} PushAllPopAll(body: seq<Byte>, values: seq<seq<Byte>>)
    ensures PopAll(PushAll(body, values), PopOrderWidths(values)) == Some((body, LastFirst(values)))
  {
    if values != [] {
      var front := values[..|values| - 1];
      var v := values[|values| - 1];
      var pushed := PushAll(body, front);
      PushAllPopAll(body, front);
      var whole := pushed + v;
      assert whole[..|whole| - |v|] == pushed;
      assert whole[|whole| - |v|..] == v;
    }
  }
}
