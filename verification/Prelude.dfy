/** Machine integers, byte strings, device ids, addresses and the two failure-carrying datatypes. */
module Prelude {

  type byte = b: int | 0 <= b < 256
  type Bytes = seq<byte>

  const U16_LIMIT := 0x1_0000
  const U32_LIMIT := 0x1_0000_0000
  const U64_LIMIT := 0x1_0000_0000_0000_0000
  const U128_LIMIT := U64_LIMIT * U64_LIMIT

  type u16 = n: int | 0 <= n < U16_LIMIT
  type u32 = n: int | 0 <= n < U32_LIMIT
  type u64 = n: int | 0 <= n < U64_LIMIT

  type DeviceId = string

  datatype Ipv4 = Ipv4(a: byte, b: byte, c: byte, d: byte)

  datatype Option<+T> = None | Some(value: T)

  datatype Result<+T, +E> = Ok(value: T) | Err(error: E)

  function Min(a: int, b: int): int { if a <= b then a else b }

  function Max(a: int, b: int): int { if a <= b then b else a }
}

/** The messages exchanged with a relay. */
module RelayProtocol {
  import opened Prelude

  datatype RelayMessage =
    | RegisterMessage(deviceId: DeviceId)
    | FrameMessage(source: DeviceId, destination: DeviceId, payload: Bytes)
    | ErrorMessage
}

/** Fixed-width big-endian integers, as `to_be_bytes` and `from_be_bytes` write and read them. */
module BigEndian {
  import opened Prelude

  function Pow256(width: nat): (p: nat)
    ensures p > 0
  {
    if width == 0 then 1 else 256 * Pow256(width - 1)
  }

  function Encode(n: nat, width: nat): (s: Bytes)
    ensures |s| == width
  {
    if width == 0 then [] else Encode(n / 256, width - 1) + [n % 256]
  }

  function Decode(s: Bytes): (n: nat)
  {
    if s == [] then 0 else 256 * Decode(s[..|s| - 1]) + s[|s| - 1]
  }

  lemma {:induction false} DecodeEncode(n: nat, width: nat)
    requires n < Pow256(width)
    ensures Decode(Encode(n, width)) == n
  {
    if width > 0 {
      DecodeEncode(n / 256, width - 1);
      assert Encode(n, width)[..width - 1] == Encode(n / 256, width - 1);
    }
  }

  lemma {:induction false} EncodeDecode(s: Bytes)
    ensures Decode(s) < Pow256(|s|)
    ensures Encode(Decode(s), |s|) == s
  {
    if s != [] {
      EncodeDecode(s[..|s| - 1]);
      assert s == s[..|s| - 1] + [s[|s| - 1]];
    }
  }

  /** The most significant byte of a word comes first and the least significant last. */
  lemma WordEnds(n: nat)
    ensures Encode(n, 8)[0] == (n / 0x100_0000_0000_0000) % 256 && Encode(n, 8)[7] == n % 256
  {
    var n1, n2, n3, n4 := n / 0x100, n / 0x1_0000, n / 0x100_0000, n / 0x1_0000_0000;
    var n5, n6, n7 := n / 0x100_0000_0000, n / 0x1_0000_0000_0000, n / 0x100_0000_0000_0000;
    assert n2 == n1 / 256 && n3 == n2 / 256 && n4 == n3 / 256;
    assert n5 == n4 / 256 && n6 == n5 / 256 && n7 == n6 / 256;
    assert Encode(n7, 1) == [n7 % 256] by { assert Encode(n7 / 256, 0) == []; }
    assert Encode(n6, 2)[0] == n7 % 256 && Encode(n5, 3)[0] == n7 % 256;
    assert Encode(n4, 4)[0] == n7 % 256 && Encode(n3, 5)[0] == n7 % 256;
    assert Encode(n2, 6)[0] == n7 % 256 && Encode(n1, 7)[0] == n7 % 256;
  }

  lemma WordSize()
    ensures Pow256(8) == U64_LIMIT
  {
    assert Pow256(4) == U32_LIMIT by {
      assert Pow256(2) == 256 * Pow256(1);
    }
    assert Pow256(6) == 256 * Pow256(5);
  }
}
