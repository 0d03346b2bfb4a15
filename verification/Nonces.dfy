/** `NonceFromCounter` of aead.cpp: the counter of a message as its AEAD nonce. */
module Nonces {
  import opened Bytes
  import opened Symbolic

  /** `v` shifted right by `n` bytes. */
  function Shifted(v: nat, n: nat): nat {
    if n == 0 then v else Shifted(v, n - 1) / 256
  }

  /** Shifting by bytes is dividing by powers of 256. */
  lemma ShiftedDivides(v: nat)
    ensures Shifted(v, 1) == v / 0x100
    ensures Shifted(v, 2) == v / 0x1_0000
    ensures Shifted(v, 3) == v / 0x100_0000
    ensures Shifted(v, 4) == v / TWO32
  {
    assert Shifted(v, 1) == v / 0x100;
    assert Shifted(v, 2) == v / 0x100 / 0x100 == v / 0x1_0000;
    assert Shifted(v, 3) == v / 0x1_0000 / 0x100 == v / 0x100_0000;
    assert Shifted(v, 4) == v / 0x100_0000 / 0x100 == v / TWO32;
  }

  lemma {:induction false} ShiftedSum(v: nat, m: nat, n: nat)
    ensures Shifted(v, m + n) == Shifted(Shifted(v, m), n)
  {
    if n > 0 {
      ShiftedSum(v, m, n - 1);
    }
  }

  lemma LowByte(q: nat, x: nat)
    ensures (q * 0x100 + x) % 256 == x % 256
  {
  }

  lemma QuotientParts(q: nat, low: nat)
    ensures (q * TWO32 + low) / 0x100 == q * 0x1_0000 * 0x100 + low / 0x100
    ensures (q * TWO32 + low) / 0x1_0000 == q * 0x100 * 0x100 + low / 0x1_0000
    ensures (q * TWO32 + low) / 0x100_0000 == q * 0x100 + low / 0x100_0000
  {
  }

  /** The low half of a value has the same low bytes. */
  lemma LowBytes(v: nat)
    ensures U32Bytes(v % TWO32) == U32Bytes(v)
  {
    var q, low := v / TWO32, v % TWO32;
    QuotientParts(q, low);
    LowByte(q * 0x100_0000, low);
    LowByte(q * 0x1_0000, low / 0x100);
    LowByte(q * 0x100, low / 0x1_0000);
    LowByte(q, low / 0x100_0000);
  }

  /** The eight big-endian bytes of a value are its shifts, cut to a byte. */
  lemma U64ByteAt(v: nat, n: nat)
    requires n < 8
    ensures U64Bytes(v)[7 - n] == Shifted(v, n) % 256
  {
    LowBytes(v);
    ShiftedDivides(v);
    ShiftedDivides(v / TWO32);
    if n >= 4 {
      ShiftedSum(v, 4, n - 4);
    }
  }

  /** Fills the nonce from its last byte backwards while shifting the counter. */
  method NonceFromCounter(counter: nat) returns (nonce: seq<byte>)
    ensures nonce == Nonce(counter)
  {
    var buffer := new byte[NonceSize](_ => 0);
    var rest := counter;
    for i := 0 to 8
      invariant rest == Shifted(counter, i)
      invariant forall j :: 0 <= j < i ==> buffer[NonceSize - 1 - j] == Shifted(counter, j) % 256
      invariant forall j :: 0 <= j < NonceSize - i ==> buffer[j] == 0
    {
      buffer[buffer.Length - 1 - i] := rest % 256;
      rest := rest / 256;
    }
    nonce := buffer[..];
    forall k | 0 <= k < NonceSize ensures nonce[k] == Nonce(counter)[k] {
      if k >= 4 {
        U64ByteAt(counter, 11 - k);
        assert nonce[k] == buffer[NonceSize - 1 - (11 - k)];
      }
    }
  }
}
