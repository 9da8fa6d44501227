/**
 * The text encoders of helper.c: the printable-character test, one hex digit,
 * a byte in hex and a 32-bit word in binary.
 */
module Helper {
  import opened Wrappers

  /** uint8_t */
  newtype u8 = x: int | 0 <= x < 0x100
  /** uint32_t */
  newtype u32 = x: int | 0 <= x < 0x1_0000_0000

  /** The character whose code is the byte b. */
  function ToChar(b: u8): (c: char)
    ensures c as int == b as int
  {
    (b as int) as char
  }

  /** is_printable: the byte is a space or a graphic ASCII character. */
  function IsPrintable(b: u8): (r: bool)
    ensures r <==> ' ' <= ToChar(b) <= '~'
  {
    (b >= 0x20) && (b <= 0x7E)
  }

  /** The sixteen digits nibble2hex produces, in order of value. */
  const HexDigits: string := "0123456789ABCDEF"

  /** nibble2hex, for the nibble (0..15) its documentation asks for. */
  function NibbleToHex(n: u8): (r: char)
    requires n < 16
    ensures r == HexDigits[n]
  {
    if n < 10 then ('0' as int + n as int) as char else ('A' as int + n as int - 10) as char
  }

  /** Reads one upper-case hex digit back; None for any other character. */
  function HexValue(c: char): (r: Option<u8>)
    ensures r.Some? ==> r.value < 16
  {
    if '0' <= c <= '9' then Some((c as int - '0' as int) as u8)
    else if 'A' <= c <= 'F' then Some((c as int - 'A' as int + 10) as u8)
    else None
  }

  /** nibble2hex is a bijection from 0..15 onto HexDigits, and HexValue is its inverse. */
  lemma NibbleRoundTrip(n: u8, c: char)
    requires n < 16
    ensures HexValue(NibbleToHex(n)) == Some(n)
    ensures HexValue(c) == Some(n) <==> NibbleToHex(n) == c
  {
  }

  /** The two digits byte2hex writes for b: high nibble (b >> 4), then low nibble (b & 0x0F). */
  function HexPair(b: u8): (r: string)
    ensures |r| == 2 && r[0] in HexDigits && r[1] in HexDigits
  {
    [NibbleToHex(b / 16), NibbleToHex(b % 16)]
  }

  /** Reads two hex digits back as a base-16 number. */
  function ParseHexPair(s: string): (r: Option<u8>)
    requires |s| == 2
  {
    match (HexValue(s[0]), HexValue(s[1]))
    case (Some(hi), Some(lo)) => Some(hi * 16 + lo)
    case _ => None
  }

  /** Reading the digits of byte2hex back gives the byte. */
  lemma HexPairRoundTrip(b: u8)
    ensures ParseHexPair(HexPair(b)) == Some(b)
  {
  }

  /**
   * byte2hex: writes "0x", then the two digits at index 2*prefix, then a terminator;
   * without the prefix the digits overwrite the "0x".
   */
  method ByteToHex(b: u8, buffer: array<char>, prefix: bool)
    requires buffer.Length >= if prefix then 5 else 3
    modifies buffer
    ensures prefix ==> buffer[..5] == "0x" + HexPair(b) + ['\0']
    ensures !prefix ==> buffer[..3] == HexPair(b) + ['\0']
    ensures var used := if prefix then 5 else 3;
      buffer[used..] == old(buffer[used..])
  {
    var p := if prefix then 1 else 0;
    buffer[0] := '0';
    buffer[1] := 'x';
    buffer[p * 2] := NibbleToHex(b / 16);
    buffer[p * 2 + 1] := NibbleToHex(b % 16);
    buffer[2 + p * 2] := '\0';
  }

  /** value >> k, one halving per step as the loop of word2binary shifts. */
  function Shr(v: nat, k: nat): nat
  {
    if k == 0 then v else Shr(v, k - 1) / 2
  }

  function BitChar(v: nat): char
  {
    if v % 2 == 1 then '1' else '0'
  }

  /** The lowest n bits of v as '0'/'1' characters, most significant first. */
  function Binary(v: nat, n: nat): (r: string)
    ensures |r| == n
  {
    if n == 0 then [] else [BitChar(Shr(v, n - 1))] + Binary(v, n - 1)
  }

  function Pow2(n: nat): (r: nat)
    ensures r >= 1
  {
    if n == 0 then 1 else 2 * Pow2(n - 1)
  }

  /** Reads a string of '0'/'1' characters as a base-2 number, most significant first. */
  function BinaryValue(s: string): nat
  {
    if s == [] then 0 else (if s[0] == '1' then Pow2(|s| - 1) else 0) + BinaryValue(s[1..])
  }

  /** Character i of Binary(v, n) is the lowest bit of v shifted right by n-1-i. */
  lemma {:induction false} BinaryAt(v: nat, n: nat, i: nat)
    requires i < n
    ensures Binary(v, n)[i] == BitChar(Shr(v, n - 1 - i))
    ensures Binary(v, n)[i] == '1' <==> Shr(v, n - 1 - i) % 2 == 1
  {
    if i > 0 {
      BinaryAt(v, n - 1, i - 1);
    }
  }

  /** Shifting right past every set bit leaves nothing. */
  lemma {:induction false} ShrBound(v: nat, k: nat, m: nat)
    requires v < Pow2(k + m)
    ensures Shr(v, k) < Pow2(m)
  {
    if k > 0 {
      ShrBound(v, k - 1, m + 1);
    }
  }

  /** Splitting x into its halves and its lowest bit, scaled by p. */
  lemma ScaledHalves(p: nat, x: nat)
    ensures p * x == (2 * p) * (x / 2) + (if x % 2 == 1 then p else 0)
  {
  }

  /** The bits read back, plus what is left above them, give v again. */
  lemma {:induction false} BinaryValueSplit(v: nat, n: nat)
    ensures BinaryValue(Binary(v, n)) + Pow2(n) * Shr(v, n) == v
  {
    if n > 0 {
      BinaryValueSplit(v, n - 1);
      var x := Shr(v, n - 1);
      var p := Pow2(n - 1);
      var s := Binary(v, n);
      assert s[0] == BitChar(x) && s[1..] == Binary(v, n - 1);
      assert BinaryValue(s) == (if x % 2 == 1 then p else 0) + BinaryValue(Binary(v, n - 1));
      ScaledHalves(p, x);
      assert Pow2(n) * Shr(v, n) == (2 * p) * (x / 2);
    }
  }

  /** Powers of two multiply by adding exponents. */
  lemma {:induction false} Pow2Add(a: nat, b: nat)
    ensures Pow2(a + b) == Pow2(a) * Pow2(b)
  {
    if a > 0 {
      Pow2Add(a - 1, b);
    }
  }

  lemma Pow2Of32()
    ensures Pow2(32) == 0x1_0000_0000
  {
    assert Pow2(2) == 4;
    Pow2Add(2, 2);
    Pow2Add(4, 4);
    Pow2Add(8, 8);
    Pow2Add(16, 16);
  }

  /** Reading the 32 characters of word2binary back gives the word. */
  lemma BinaryRoundTrip(v: u32)
    ensures BinaryValue(Binary(v as nat, 32)) == v as nat
  {
    BinaryValueSplit(v as nat, 32);
    Pow2Of32();
    ShrBound(v as nat, 32, 0);
  }

  /**
   * word2binary: for i = 31 down to 0 writes the lowest bit of value at buffer[i] and shifts
   * value right; then terminates the string at buffer[32].
   */
  method WordToBinary(value: u32, buffer: array<char>)
    requires buffer.Length >= 33
    modifies buffer
    ensures buffer[..32] == Binary(value as nat, 32)
    ensures buffer[32] == '\0'
    ensures buffer[33..] == old(buffer[33..])
  {
    var v := value;
    var i := 31;
    while i >= 0
      invariant -1 <= i <= 31
      invariant v as nat == Shr(value as nat, 31 - i)
      invariant forall k :: i < k < 32 ==> buffer[k] == BitChar(Shr(value as nat, 31 - k))
      invariant forall k :: 33 <= k < buffer.Length ==> buffer[k] == old(buffer[k])
    {
      var bit := v % 2;
      buffer[i] := ('0' as int + bit as int) as char;
      v := v / 2;
      i := i - 1;
    }
    buffer[32] := '\0';
    forall k | 0 <= k < 32
      ensures buffer[k] == Binary(value as nat, 32)[k]
    {
      BinaryAt(value as nat, 32, k);
    }
  }
}
