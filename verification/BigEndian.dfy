/** How the CPU feature word, an unsigned 64-bit number, reaches Java: as nine bytes from which a
    `BigInteger` is made. */
module BigEndian {

  function Power(n: nat): (p: nat)
    ensures p > 0
  {
    if n == 0 then 1 else 256 * Power(n - 1)
  }

  /** The value of bytes, most significant first, without a sign. */
  function Unsigned(bytes: seq<int>): nat {
    if bytes == [] then 0 else Unsigned(bytes[..|bytes| - 1]) * 256 + bytes[|bytes| - 1] % 256
  }

  /** `new BigInteger(bytes)`: two's complement, most significant byte first. */
  function BigInteger(bytes: seq<int>): int
    requires bytes != []
  {
    if bytes[0] % 256 >= 128 then Unsigned(bytes) - Power(|bytes|) else Unsigned(bytes)
  }

  /** A number cut to a signed byte. */
  function Byte(n: nat): (b: int)
    ensures -128 <= b < 128 && b % 256 == n % 256
  {
    if n % 256 < 128 then n % 256 else n % 256 - 256
  }

  /** `n >> 8 * k`. */
  function Shifted(n: nat, k: nat): nat {
    if k == 0 then n else Shifted(n, k - 1) / 256
  }

  lemma {:induction false} ShiftFirst(n: nat, k: nat)
    requires k > 0
    ensures Shifted(n, k) == Shifted(n / 256, k - 1)
  {
    if k > 1 {
      ShiftFirst(n, k - 1);
    }
  }

  lemma {:induction false} ShiftedOut(n: nat, k: nat)
    requires n < Power(k)
    ensures Shifted(n, k) == 0
  {
    if k > 0 {
      ShiftFirst(n, k);
      ShiftedOut(n / 256, k - 1);
    }
  }

  /** The leading zero byte keeps the number from being read as negative. */
  method Encode(result: nat) returns (bytes: array<int>)
    requires result < Power(8)
    ensures fresh(bytes) && bytes.Length == 9 && BigInteger(bytes[..]) == result
    ensures forall i :: 0 <= i < 9 ==> -128 <= bytes[i] < 128
  {
    bytes := new int[9];
    bytes[0] := 0;
    assert bytes[..1] == [0];
    var i: nat := 1;
    ShiftedOut(result, 8);
    while i < 9
      invariant 1 <= i <= 9 && bytes[0] == 0
      invariant Unsigned(bytes[..i]) == Shifted(result, 9 - i)
      invariant forall j :: 0 <= j < i ==> -128 <= bytes[j] < 128
    {
      bytes[i] := Byte(Shifted(result, 8 - i));
      assert bytes[..i + 1][..i] == bytes[..i];
      i := i + 1;
    }
    assert bytes[..] == bytes[..9];
  }
}
