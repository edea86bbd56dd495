/** Bytes, 32-bit integers in the host byte order of BitConverter, and the
    tail copy that extracts the session key and IV from RSA output. */
module Bytes {
  import opened Outcomes

  newtype byte = x: int | 0 <= x < 0x100

  /** The range of a C# `int`. */
  newtype int32 = x: int | -0x8000_0000 <= x < 0x8000_0000

  /** A .NET byte[] never has more than int.MaxValue elements. */
  type ByteArray = s: seq<byte> | |s| <= 0x7FFF_FFFF

  /** Lengths of the AES-256 buffers the worker allocates: aes.IV.Length and aes.Key.Length. */
  const IvLength: nat := 16
  const KeyLength: nat := 32

  /** BitConverter.ToInt32(b, 0) on a little-endian host: b[0] is the least
      significant byte and bit 7 of b[3] is the sign. */
  function ToInt32(b: seq<byte>): (n: int32)
    requires |b| == 4
    ensures n < 0 <==> b[3] >= 0x80
  {
    var u := b[0] as int + 0x100 * b[1] as int + 0x1_0000 * b[2] as int + 0x100_0000 * b[3] as int;
    if u < 0x8000_0000 then u as int32 else (u - 0x1_0000_0000) as int32
  }

  /** BitConverter.GetBytes(int) on a little-endian host. */
  function GetBytes(n: int32): (b: seq<byte>)
    ensures |b| == 4
  {
    var u := if n < 0 then n as int + 0x1_0000_0000 else n as int;
    [(u % 0x100) as byte, (u / 0x100 % 0x100) as byte, (u / 0x1_0000 % 0x100) as byte, (u / 0x100_0000) as byte]
  }

  /** Decoding what GetBytes produced gives back the integer. */
  lemma ToInt32OfGetBytes(n: int32)
    ensures ToInt32(GetBytes(n)) == n
  {
    var u := if n < 0 then n as int + 0x1_0000_0000 else n as int;
    var b := GetBytes(n);
    assert u == u % 0x100 + 0x100 * (u / 0x100 % 0x100) + 0x1_0000 * (u / 0x1_0000 % 0x100) + 0x100_0000 * (u / 0x100_0000);
  }

  /** Every 4-byte prefix is the encoding of exactly one int: GetBytes inverts ToInt32. */
  lemma GetBytesOfToInt32(b: seq<byte>)
    requires |b| == 4
    ensures GetBytes(ToInt32(b)) == b
  {
    var u := b[0] as int + 0x100 * b[1] as int + 0x1_0000 * b[2] as int + 0x100_0000 * b[3] as int;
    assert u / 0x100 == b[1] as int + 0x100 * b[2] as int + 0x1_0000 * b[3] as int;
    assert u / 0x1_0000 == b[2] as int + 0x100 * b[3] as int;
    assert u / 0x100_0000 == b[3] as int;
  }

  /** Buffer.BlockCopy(src, src.Length - n, dst, 0, n) into a buffer of length n:
      the last n bytes of src, or an exception when src is shorter than n
      (the source offset is then negative). Nothing is zero-padded. */
  function Tail(src: seq<byte>, n: nat): (r: Result<seq<byte>>)
    ensures r.Ok? <==> n <= |src|
    ensures r.Ok? ==> |r.value| == n && src == src[..|src| - n] + r.value
    ensures r.Err? ==> r.fault == KeyMaterialTooShort
  {
    if |src| < n then Err(KeyMaterialTooShort) else Ok(src[|src| - n..])
  }

  /** Whatever precedes the last n bytes of the decrypted output is dropped:
      the extracted buffer is exactly the bytes that were placed at the end. */
  lemma TailOfSuffix(prefix: seq<byte>, material: seq<byte>)
    ensures Tail(prefix + material, |material|) == Ok(material)
  {
    assert (prefix + material)[|prefix|..] == material;
  }
}
