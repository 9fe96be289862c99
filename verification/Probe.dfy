/** The Internet checksum of the echo request: `checksum` and `echo` of
    src/probe.rs (section 1 of RFC 1071). */
module Probe {
  type Byte = b: int | 0 <= b < 256
  type Word = w: int | 0 <= w < 0x1_0000

  /** `u16::from_be_bytes`. */
  function Be(hi: Byte, lo: Byte): Word {
    hi * 256 + lo
  }

  /** The sum of the big-endian words; an odd last byte is the high one. */
  function Sum(data: seq<Byte>): nat {
    if |data| == 0 then 0
    else if |data| == 1 then Be(data[0], 0)
    else Be(data[0], data[1]) + Sum(data[2..])
  }

  /** One's complement arithmetic on 16 bits: what `sum` comes to with every
      carry added back, the one nonzero value up to 0xffff it is congruent to. */
  function Folded(sum: nat): Word {
    if sum == 0 then 0 else 1 + (sum - 1) % 0xffff
  }

  function Checksum(data: seq<Byte>): Word {
    0xffff - Folded(Sum(data))
  }

  lemma FoldedIsCongruent(sum: nat)
    ensures Folded(sum) % 0xffff == sum % 0xffff
    ensures sum > 0 ==> Folded(sum) > 0
    ensures sum <= 0xffff ==> Folded(sum) == sum
  {
  }

  /** Words are summed two bytes each, the first the high one; a last byte alone is
      a high one too. */
  lemma {:induction false} SumMeans(a: seq<Byte>, b: seq<Byte>, x: Byte, y: Byte)
    requires |a| % 2 == 0
    ensures Sum(a + b) == Sum(a) + Sum(b)
    ensures Sum([]) == 0 && Sum([x]) == x * 256 && Sum([x, y]) == x * 256 + y
    decreases |a|
  {
    assert [x, y][2..] == [];
    if a == [] {
      assert a + b == b;
    } else {
      SumMeans(a[2..], b, x, y);
      assert (a + b)[2..] == a[2..] + b;
    }
  }

  /** With its checksum the sum is a multiple of 0xffff; the checksum is 0xffff of
      nothing but zeros, and never else. */
  lemma ChecksumMeans(data: seq<Byte>)
    ensures (Sum(data) + Checksum(data)) % 0xffff == 0 && (Checksum(data) == 0xffff <==> Sum(data) == 0)
  {
    var s := Sum(data);
    FoldedIsCongruent(s);
    if s > 0 {
      var q := (s - 1) / 0xffff;
      assert s - Folded(s) == 0xffff * q;
      ModShift(0, q + 1);
      assert s + Checksum(data) == 0xffff * (q + 1);
    }
  }

  /** Adding the carries back does not change what the sum comes to. */
  lemma FoldStep(sum: nat)
    ensures Folded(sum % 0x1_0000 + sum / 0x1_0000) == Folded(sum)
  {
    var r := sum % 0x1_0000 + sum / 0x1_0000;
    assert sum == r + 0xffff * (sum / 0x1_0000);
    if r > 0 {
      ModShift(r - 1, sum / 0x1_0000);
    }
  }

  lemma ModShift(x: nat, k: nat)
    ensures (x + 0xffff * k) % 0xffff == x % 0xffff
  {
  }

  /** `checksum`, its folding loop in place. The sum of up to 65537 words fits
      32 bits; the probes sum eight. */
  method ChecksumOf(data: seq<Byte>) returns (c: Word)
    requires |data| <= 2 * 65537
    ensures c == Checksum(data)
  {
    var sum: nat := 0;
    var i := 0;
    while i < |data|
      invariant i % 2 == 0 && i <= |data| + 1
      invariant sum + Sum(if i <= |data| then data[i..] else []) == Sum(data)
      invariant sum <= i / 2 * 0xffff
    {
      var lo: Byte := if i + 1 < |data| then data[i + 1] else 0;
      assert |data| - i >= 2 ==> data[i..][2..] == data[i + 2..];
      assert i + 2 > |data| ==> |data[i..]| == 1;
      sum := sum + Be(data[i], lo);
      i := i + 2;
    }
    assert sum < 0x1_0000_0000;
    while sum > 0xffff
      invariant Folded(sum) == Folded(Sum(data))
    {
      FoldStep(sum);
      sum := sum % 0x1_0000 + sum / 0x1_0000;
    }
    FoldedIsCongruent(sum);
    c := 0xffff - sum;
  }

  /** `c` in the two bytes at `at`, big end first. */
  function Stored(data: seq<Byte>, at: nat, c: Word): (r: seq<Byte>)
    requires at + 2 <= |data|
    ensures |r| == |data|
  {
    var hi: Byte, lo: Byte := c / 256, c % 256;
    data[..at] + [hi, lo] + data[at + 2..]
  }

  lemma {:induction false} SumApart(data: seq<Byte>, at: nat, c: Word)
    requires at % 2 == 0 && at + 2 <= |data| && data[at] == 0 && data[at + 1] == 0
    ensures Sum(Stored(data, at, c)) == Sum(data) + c
    decreases at
  {
    if at == 0 {
      assert Stored(data, at, c)[2..] == data[2..];
    } else {
      assert Stored(data, at, c)[2..] == Stored(data[2..], at - 2, c);
      SumApart(data[2..], at - 2, c);
    }
  }

  /** Storing the checksum of a buffer in its own zeroed, aligned field makes the
      checksum of the whole zero, whatever else the buffer holds. */
  lemma StoredChecksumVerifies(data: seq<Byte>, at: nat)
    requires at % 2 == 0 && at + 2 <= |data| && data[at] == 0 && data[at + 1] == 0
    ensures Checksum(Stored(data, at, Checksum(data))) == 0
  {
    var c, s := Checksum(data), Sum(data);
    SumApart(data, at, c);
    FoldedIsCongruent(s);
    FoldedIsCongruent(s + c);
    assert s % 0xffff == Folded(s) % 0xffff;
    assert s + c == (s - Folded(s)) + 0xffff && (s + c) % 0xffff == 0 && s + c > 0;
  }

  /** "mac-gate" */
  const PAYLOAD: seq<Byte> := [109, 97, 99, 45, 103, 97, 116, 101]

  /** `echo`: an echo request that verifies, for every id and sequence. */
  method Echo(id: Word, number: Word) returns (p: array<Byte>)
    ensures fresh(p) && p.Length == 16
    ensures Checksum(p[..]) == 0
    ensures p[0] == 8 && p[1] == 0 && p[4] == id / 256 && p[5] == id % 256 && p[6] == number / 256 && p[7] == number % 256
    ensures p[8..] == [109, 97, 99, 45, 103, 97, 116, 101]
  {
    p := new Byte[16](_ => 0);
    p[0] := 8;
    p[4], p[5] := id / 256, id % 256;
    p[6], p[7] := number / 256, number % 256;
    forall k | 8 <= k < 16 {
      p[k] := PAYLOAD[k - 8];
    }
    ghost var bare := p[..];
    var sum := ChecksumOf(p[..]);
    StoredChecksumVerifies(bare, 2);
    p[2], p[3] := sum / 256, sum % 256;
    assert p[..] == Stored(bare, 2, sum);
  }
}
