/** Value types shared by the framework's components: raw bytes, fixed-width
    integers, optional values, and the 2D geometry raylib passes around. */
module Common {

  /** One octet of a packet body, a handshake blob or a save file. */
  type Byte = bv8

  /** A byte as the number it holds (a colour channel, a byte of a save
      file); arithmetic on these stays in integers. */
  type Octet = x: int | 0 <= x < 0x100

  /** The range of a C++ `int` on the platforms the framework targets. */
  type Int32 = x: int | -0x8000_0000 <= x < 0x8000_0000

  /** The range of a `uint16_t`. */
  type Uint16 = x: int | 0 <= x < 0x1_0000

  const Two32: int := 0x1_0000_0000
  const Two16: int := 0x1_0000
  const Two8: int := 0x100

  /** The value a `uint32_t` holds after an integer is stored into it. */
  function ToUint32(n: int): (r: int)
    ensures 0 <= r < Two32
    ensures 0 <= n < Two32 ==> r == n
  {
    n % Two32
  }

  /** The value a `uint16_t` holds after an integer is stored into it. */
  function ToUint16(n: int): (r: Uint16)
    ensures 0 <= n < Two16 ==> r == n
  {
    n % Two16
  }

  /** The value a `uint8_t` holds after an integer is stored into it. */
  function ToUint8(n: int): (r: int)
    ensures 0 <= r < Two8
    ensures 0 <= n < Two8 ==> r == n
  {
    n % Two8
  }

  /** `n` zero bytes, as left by value-initialisation or `std::fill(..., 0)`. */
  function Zeros(n: nat): (r: seq<Byte>)
    ensures |r| == n
    ensures forall i :: 0 <= i < n ==> r[i] == 0
  {
    seq(n, _ => 0)
  }

  /** A nullable pointer or an absent map entry. */
  datatype Option<T> = None | Some(value: T)

  datatype Vec2 = Vec2(x: real, y: real)

  datatype Rect = Rect(x: real, y: real, width: real, height: real)

  /** raylib's `Color`: four 8-bit channels. */
  datatype Color = Color(r: Octet, g: Octet, b: Octet, a: Octet)
}
