/** The fill map of one CRYPTO receive level: one bit for every byte of the
    reassembly buffer, packed least significant bit first into an array of bytes.
    The ghost field `bits` is the map read as a plain sequence of flags; every
    operation states what it does to that sequence. */
module FillMap {

  type Byte = bv8

  // ---- the flags, as a sequence ----

  function NoFlags(n: nat): seq<bool> {
    seq(n, _ => false)
  }

  function Filled(bits: seq<bool>, off: nat, len: nat): seq<bool> {
    seq(|bits|, k requires 0 <= k < |bits| => off <= k < off + len || bits[k])
  }

  /** `n` entries removed in front, as many clear ones added behind. */
  function Dropped(bits: seq<bool>, n: nat): seq<bool> {
    seq(|bits|, k requires 0 <= k < |bits| => k + n < |bits| && bits[k + n])
  }

  lemma DroppedTwice(bits: seq<bool>, m: nat, n: nat)
    ensures Dropped(Dropped(bits, m), n) == Dropped(bits, m + n)
    ensures Dropped(bits, 0) == bits
  {
  }

  // ---- the packed form ----

  /** Bit `j` of a byte. */
  predicate BitOf(b: Byte, j: nat)
    requires j < 8
  {
    (b >> (j as bv8)) & 1 == 1
  }

  predicate Bit(bytes: seq<Byte>, k: nat)
    requires k < 8 * |bytes|
  {
    BitOf(bytes[k / 8], k % 8)
  }

  class FillMap {
    const bytes: array<Byte>
    ghost var bits: seq<bool>

    ghost predicate Valid()
      reads this, bytes
    {
      Reads(bits, bytes[..])
    }

    constructor (size: nat)
      ensures Valid() && fresh(bytes) && bytes.Length == size
      ensures bits == NoFlags(8 * size)
    {
      bytes := new Byte[size](_ => 0);
      bits := NoFlags(8 * size);
      new;
      assert Valid() by {
        forall k | 0 <= k < |bits|
          ensures Bit(bytes[..], k) == bits[k]
        {
          ZeroByte(k % 8);
        }
      }
    }

    /** Reads one flag. */
    method Test(k: nat) returns (b: bool)
      requires Valid() && k < |bits|
      ensures b == bits[k]
    {
      b := (bytes[k / 8] >> ((k % 8) as bv8)) & 1 == 1;
      assert b == Bit(bytes[..], k);
    }

    /** Marks off .. off + len, one bit at a time. */
    method Set(off: nat, len: nat)
      requires Valid() && off + len <= |bits|
      modifies this, bytes
      ensures Valid() && bits == Filled(old(bits), off, len)
    {
      var i := off;
      while i < off + len
        invariant off <= i <= off + len && Valid()
        invariant bits == Filled(old(bits), off, i - off)
      {
        SetOne(i);
        i := i + 1;
      }
    }

    method SetOne(i: nat)
      requires Valid() && i < |bits|
      modifies this, bytes
      ensures Valid() && bits == old(bits)[i := true]
    {
      ghost var was := bytes[..];
      bytes[i / 8] := bytes[i / 8] | (1 << ((i % 8) as bv8));
      bits := bits[i := true];
      forall k | 0 <= k < |bits|
        ensures Bit(bytes[..], k) == bits[k]
      {
        assert Bit(was, k) == old(bits)[k];
        if k / 8 == i / 8 {
          SetOneBit(was[i / 8], i % 8, k % 8);
        }
      }
    }

    /** Clears the whole map. */
    method Clear()
      requires Valid()
      modifies this, bytes
      ensures Valid() && bits == NoFlags(|old(bits)|)
    {
      forall i | 0 <= i < bytes.Length {
        bytes[i] := 0;
      }
      bits := NoFlags(|bits|);
      assert Valid() by {
        forall k | 0 <= k < |bits|
          ensures Bit(bytes[..], k) == bits[k]
        {
          ZeroByte(k % 8);
        }
      }
    }

    /** Drops the first `n` flags: whole bytes move first, the remainder is a bit
        shift with carry from the next byte. */
    method Drop(n: nat)
      requires Valid() && n < |bits|
      modifies this, bytes
      ensures Valid() && bits == Dropped(old(bits), n)
    {
      var shiftB, shiftR := n / 8, n % 8;
      ghost var m := 8 * shiftB;
      assert m + shiftR == n;
      DroppedTwice(bits, m, shiftR);
      if shiftB > 0 {
        MoveBytes(shiftB);
      }
      assert bits == Dropped(old(bits), m);
      if shiftR > 0 {
        ShiftBits(shiftR);
      }
    }

    method MoveBytes(b: nat)
      requires Valid() && b < bytes.Length
      modifies this, bytes
      ensures Valid() && bits == Dropped(old(bits), 8 * b)
    {
      ghost var was := bytes[..];
      forall i | 0 <= i < bytes.Length {
        bytes[i] := if i < bytes.Length - b then bytes[i + b] else 0;
      }
      MovedFlags(was, bytes[..], bits, b);
      bits := Dropped(bits, 8 * b);
    }

    method ShiftBits(r: nat)
      requires Valid() && 1 <= r < 8 && bytes.Length > 0
      modifies this, bytes
      ensures Valid() && bits == Dropped(old(bits), r)
    {
      ghost var was := bytes[..];
      ShiftBytes(bytes, r);
      ShiftedFlags(was, bytes[..], bits, r);
      bits := Dropped(bits, r);
    }
  }

  method ShiftBytes(bytes: array<Byte>, r: nat)
    requires 1 <= r < 8 && bytes.Length > 0
    modifies bytes
    ensures forall i :: 0 <= i < bytes.Length ==>
              bytes[..][i] == Carry(old(bytes[..])[i], ByteAt(old(bytes[..]), i + 1), r)
  {
    ghost var was := bytes[..];
    var size, i := bytes.Length, 0;
    while i + 1 < size
      invariant 0 <= i < size
      invariant forall q :: 0 <= q < i ==> bytes[q] == Carry(was[q], was[q + 1], r)
      invariant forall q :: i <= q < size ==> bytes[q] == was[q]
    {
      bytes[i] := (bytes[i] >> (r as bv8)) | (bytes[i + 1] << (8 - (r as bv8)));
      i := i + 1;
    }
    bytes[size - 1] := bytes[size - 1] >> (r as bv8);
    CarryNothing(was[size - 1], r);
  }

  // ---- shifting with carry ----

  /** Byte `i`, or zero behind the end. */
  function ByteAt(bytes: seq<Byte>, i: nat): Byte {
    if i < |bytes| then bytes[i] else 0
  }

  /** The low byte of the pair (lo, hi) after a right shift by `r`. */
  function Carry(lo: Byte, hi: Byte, r: nat): Byte
    requires 1 <= r < 8
  {
    (lo >> (r as bv8)) | (hi << (8 - (r as bv8)))
  }

  lemma CarryNothing(a: Byte, r: nat)
    requires 1 <= r < 8
    ensures Carry(a, 0, r) == a >> (r as bv8)
  {
  }

  /** `bits` reads `bytes`. */
  ghost predicate Reads(bits: seq<bool>, bytes: seq<Byte>) {
    && |bits| == 8 * |bytes|
    && forall k {:trigger Bit(bytes, k)} :: 0 <= k < |bits| ==> Bit(bytes, k) == bits[k]
  }

  lemma MovedFlags(was: seq<Byte>, now: seq<Byte>, bits: seq<bool>, b: nat)
    requires Reads(bits, was) && |now| == |was|
    requires forall i :: 0 <= i < |was| ==> now[i] == ByteAt(was, i + b)
    ensures Reads(Dropped(bits, 8 * b), now)
  {
    forall k | 0 <= k < |bits|
      ensures Bit(now, k) == Dropped(bits, 8 * b)[k]
    {
      if k + 8 * b < |bits| {
        assert (k + 8 * b) / 8 == k / 8 + b && (k + 8 * b) % 8 == k % 8;
        assert Bit(was, k + 8 * b) == bits[k + 8 * b];
      } else {
        ZeroByte(k % 8);
      }
    }
  }

  lemma ShiftedFlags(was: seq<Byte>, now: seq<Byte>, bits: seq<bool>, r: nat)
    requires Reads(bits, was) && |now| == |was| && 1 <= r < 8
    requires forall i :: 0 <= i < |was| ==> now[i] == Carry(was[i], ByteAt(was, i + 1), r)
    ensures Reads(Dropped(bits, r), now)
  {
    forall k | 0 <= k < |bits|
      ensures Bit(now, k) == Dropped(bits, r)[k]
    {
      ShiftedBit(was, now, r, k);
      if k + r < |bits| {
        assert Bit(was, k + r) == bits[k + r];
      }
    }
  }

  lemma ShiftedBit(was: seq<Byte>, now: seq<Byte>, r: nat, k: nat)
    requires |was| == |now| && k < 8 * |was| && 1 <= r < 8
    requires now[k / 8] == Carry(was[k / 8], ByteAt(was, k / 8 + 1), r)
    ensures Bit(now, k) == (k + r < 8 * |was| && Bit(was, k + r))
  {
    var i, j := k / 8, k % 8;
    CarriedBit(was[i], ByteAt(was, i + 1), r, j);
    if j + r < 8 {
      assert (k + r) / 8 == i && (k + r) % 8 == j + r;
    } else {
      assert (k + r) / 8 == i + 1 && (k + r) % 8 == j + r - 8;
      ZeroByte(j + r - 8);
    }
  }

  // ---- one byte ----

  lemma ZeroByte(j: nat)
    requires j < 8
    ensures !BitOf(0, j)
  {
  }

  lemma SetOneBit(a: Byte, i: nat, j: nat)
    requires i < 8 && j < 8
    ensures BitOf(a | (1 << (i as bv8)), j) == (BitOf(a, j) || i == j)
  {
    var bi, bj := i as bv8, j as bv8;
    assert ((a | (1 << bi)) >> bj) & 1 == (if bi == bj then 1 else (a >> bj) & 1);
  }

  /** A right shift with carry: bit `j` of the new byte is bit `j + r` of the pair. */
  lemma CarriedBit(a: Byte, b: Byte, r: nat, j: nat)
    requires 1 <= r < 8 && j < 8
    ensures BitOf(Carry(a, b, r), j) == if j + r < 8 then BitOf(a, j + r) else BitOf(b, j + r - 8)
  {
    SmallSum(r, j);
    Below8(r);
    Below8(j);
    Below8(r + j);
    CarriedBitBv(a, b, r as bv8, j as bv8);
  }

  lemma CarriedBitBv(a: Byte, b: Byte, r: bv8, j: bv8)
    requires 1 <= r < 8 && j < 8
    ensures ((((a >> r) | (b << (8 - r))) >> j) & 1)
            == if j + r < 8 then (a >> (j + r)) & 1 else (b >> (j + r - 8)) & 1
  {
  }

  lemma {:induction false} SmallSum(r: nat, j: nat)
    requires r < 8 && j < 8
    ensures ((r + j) as bv8) == (r as bv8) + (j as bv8)
  {
    if j > 0 {
      SmallSum(r, j - 1);
      SmallSuccessor(r + j - 1);
      SmallSuccessor(j - 1);
    }
  }

  lemma SmallSuccessor(r: nat)
    requires r < 15
    ensures ((r + 1) as bv8) == (r as bv8) + 1
  {
  }

  lemma Below8(r: nat)
    requires r < 16
    ensures (r as bv8) < 8 <==> r < 8
    ensures r >= 8 ==> ((r - 8) as bv8) == (r as bv8) - 8
    ensures r > 0 ==> (r as bv8) > 0
  {
  }
}
