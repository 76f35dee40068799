/** Header protection: XOR of the first byte and the packet number with a mask that is a
    function of a sample of the ciphertext. */
module HeaderProtection {

  const SAMPLE_LEN: nat := 16

  type Bytes = seq<bv8>

  type Mask = m: Bytes | |m| == 16 witness seq(16, _ => 0)

  /** Keys of one direction; the block cipher is any function from samples to masks. */
  datatype Keys = Keys(initialized: bool, mask: Bytes -> Mask)

  /** Whether there is a sample to take, 4 bytes past the start of the packet number. */
  predicate CanSample(k: Keys, len: nat, pnOffset: nat) {
    k.initialized && pnOffset + 4 + SAMPLE_LEN <= len
  }

  function MaskOf(k: Keys, pkt: Bytes, pnOffset: nat): Mask
    requires pnOffset + 4 + SAMPLE_LEN <= |pkt|
  {
    k.mask(pkt[pnOffset + 4..pnOffset + 4 + SAMPLE_LEN])
  }

  predicate IsLong(first: bv8) {
    first & 0x80 != 0
  }

  /** The bits of the first byte that are covered: 4 in a long header, 5 in a short one. */
  function FirstBits(first: bv8): bv8 {
    if IsLong(first) then 0x0f else 0x1f
  }

  function PnLen(first: bv8): (n: nat)
    ensures 1 <= n <= 4
  {
    var low := first & 3;
    if low == 0 then 1 else if low == 1 then 2 else if low == 2 then 3 else 4
  }

  function Xor(x: bv8, y: bv8): bv8 {
    x ^ y
  }

  function CoverFirst(x: bv8, m: bv8, bits: bv8): bv8 {
    x ^ (m & bits)
  }

  /** The packet with the mask laid over its first byte and `n` bytes at `off`. */
  function Masked(pkt: Bytes, m: Mask, bits: bv8, off: nat, n: nat): Bytes
    requires n <= 4
  {
    seq(|pkt|, i requires 0 <= i < |pkt| =>
      if i == 0 then CoverFirst(pkt[0], m[0], bits)
      else if off <= i < off + n then Xor(pkt[i], m[1 + i - off])
      else pkt[i])
  }

  function Apply(k: Keys, pkt: Bytes, pnOffset: nat, pnLen: nat): Bytes
    requires pnLen <= 4
  {
    if CanSample(k, |pkt|, pnOffset)
    then Masked(pkt, MaskOf(k, pkt, pnOffset), FirstBits(pkt[0]), pnOffset, pnLen) else pkt
  }

  function Remove(k: Keys, pkt: Bytes, pnOffset: nat, bits: bv8): (Bytes, nat) {
    if CanSample(k, |pkt|, pnOffset) then
      var m := MaskOf(k, pkt, pnOffset);
      var n := PnLen(CoverFirst(pkt[0], m[0], bits));
      (Masked(pkt, m, bits, pnOffset, n), n)
    else (pkt, 0)
  }

  function RemoveLong(k: Keys, pkt: Bytes, pnOffset: nat): (Bytes, nat) {
    Remove(k, pkt, pnOffset, 0x0f)
  }

  function RemoveShort(k: Keys, pkt: Bytes, pnOffset: nat): (Bytes, nat) {
    Remove(k, pkt, pnOffset, 0x1f)
  }

  lemma CoverTwice(x: bv8, m: bv8, bits: bv8)
    ensures CoverFirst(CoverFirst(x, m, bits), m, bits) == x
  {
  }

  lemma FormBitStays(x: bv8, m: bv8, bits: bv8)
    requires bits == 0x0f || bits == 0x1f
    ensures IsLong(CoverFirst(x, m, bits)) == IsLong(x)
  {
  }

  /** The mask leaves the sample alone, so it can be computed again. */
  lemma SampleStays(k: Keys, pkt: Bytes, m: Mask, bits: bv8, off: nat, n: nat)
    requires n <= 4 && 1 <= off && off + 4 + SAMPLE_LEN <= |pkt|
    ensures MaskOf(k, Masked(pkt, m, bits, off, n), off) == MaskOf(k, pkt, off)
  {
    var pkt' := Masked(pkt, m, bits, off, n);
    assert pkt'[off + 4..off + 4 + SAMPLE_LEN] == pkt[off + 4..off + 4 + SAMPLE_LEN];
  }

  lemma MaskedTwice(pkt: Bytes, m: Mask, bits: bv8, off: nat, n: nat)
    requires n <= 4
    ensures Masked(Masked(pkt, m, bits, off, n), m, bits, off, n) == pkt
  {
  }

  lemma MaskedFirst(pkt: Bytes, m: Mask, bits: bv8, off: nat, n: nat)
    requires n <= 4 && pkt != []
    ensures var pkt' := Masked(pkt, m, bits, off, n); |pkt'| == |pkt| && pkt'[0] == CoverFirst(pkt[0], m[0], bits)
  {
  }

  /** Which of the two removals a receiver uses. */
  function RemoveByForm(k: Keys, pkt: Bytes, pnOffset: nat): (Bytes, nat)
    requires pkt != []
  {
    if IsLong(pkt[0]) then RemoveLong(k, pkt, pnOffset) else RemoveShort(k, pkt, pnOffset)
  }

  /** Removing what was applied gives back every byte, for every mask function and every
      packet whose first byte says how long its packet number is; the length comes back
      exactly when there was something to sample. */
  lemma RemoveUndoesApply(k: Keys, pkt: Bytes, pnOffset: nat)
    requires 1 <= pnOffset && pkt != []
    ensures var n := PnLen(pkt[0]);
            var wire := Apply(k, pkt, pnOffset, n);
            && |wire| == |pkt| && IsLong(wire[0]) == IsLong(pkt[0])
            && RemoveByForm(k, wire, pnOffset) == (pkt, if CanSample(k, |pkt|, pnOffset) then n else 0)
  {
    hide Masked;
    hide MaskOf;
    hide PnLen;
    hide IsLong;
    hide CoverFirst;
    if CanSample(k, |pkt|, pnOffset) {
      var n := PnLen(pkt[0]);
      var m := MaskOf(k, pkt, pnOffset);
      var bits := FirstBits(pkt[0]);
      MaskedFirst(pkt, m, bits, pnOffset, n);
      FormBitStays(pkt[0], m[0], bits);
      SampleStays(k, pkt, m, bits, pnOffset, n);
      CoverTwice(pkt[0], m[0], bits);
      MaskedTwice(pkt, m, bits, pnOffset, n);
    }
  }

  /** The low two bits of the first byte are the length of the packet number, less one. */
  lemma PnLenIs(first: bv8)
    ensures PnLen(first) == 1 <==> first & 3 == 0
    ensures PnLen(first) == 2 <==> first & 3 == 1
    ensures PnLen(first) == 3 <==> first & 3 == 2
    ensures PnLen(first) == 4 <==> first & 3 == 3
  {
    LowBits(first);
  }

  lemma LowBits(first: bv8)
    ensures first & 3 == 0 || first & 3 == 1 || first & 3 == 2 || first & 3 == 3
  {
  }

  /** For a sender who covers `n` bytes of packet number and says so in the first byte: the
      receiver gets back every byte, and `n`. */
  lemma RoundTrip(k: Keys, pkt: Bytes, pnOffset: nat, n: nat)
    requires 1 <= pnOffset && 1 <= n <= 4 && pkt != [] && CanSample(k, |pkt|, pnOffset)
    requires pkt[0] & 3 == if n == 1 then 0 else if n == 2 then 1 else if n == 3 then 2 else 3
    ensures RemoveByForm(k, Apply(k, pkt, pnOffset, n), pnOffset) == (pkt, n)
  {
    hide RemoveByForm;
    hide Apply;
    hide PnLen;
    PnLenIs(pkt[0]);
    RemoveUndoesApply(k, pkt, pnOffset);
  }

  // ---- the samples of RFC 9001 ----

  function Only(sample: Bytes, mask: Mask): Keys {
    Keys(true, s => if s == sample then mask else seq(16, _ => 0))
  }

  /** Section A.2: a long header with a packet number of four bytes. */
  lemma LongSample()
    ensures var sample: Bytes := [0xd1, 0xb1, 0xc9, 0x8d, 0xd7, 0x68, 0x9f, 0xb8, 0xec, 0x11, 0xd2, 0x42, 0xb1, 0x23, 0xdc, 0x9b];
            var mask: Bytes := [0x43, 0x7b, 0x9a, 0xec, 0x36, 0, 0, 0, 0, 0, 0, 0, 0, 0, 0, 0];
            var head: Bytes := [0xc3, 0, 0, 0, 1, 8, 0x83, 0x94, 0xc8, 0xf0, 0x3e, 0x51, 0x57, 8, 0, 0, 0x44, 0x9e];
            var head': Bytes := [0xc0, 0, 0, 0, 1, 8, 0x83, 0x94, 0xc8, 0xf0, 0x3e, 0x51, 0x57, 8, 0, 0, 0x44, 0x9e];
            var pn: Bytes, pn': Bytes := [0, 0, 0, 2], [0x7b, 0x9a, 0xec, 0x34];
            Apply(Only(sample, mask), head + pn + sample, 18, 4) == head' + pn' + sample
  {
    var sample: Bytes := [0xd1, 0xb1, 0xc9, 0x8d, 0xd7, 0x68, 0x9f, 0xb8, 0xec, 0x11, 0xd2, 0x42, 0xb1, 0x23, 0xdc, 0x9b];
    var mask: Bytes := [0x43, 0x7b, 0x9a, 0xec, 0x36, 0, 0, 0, 0, 0, 0, 0, 0, 0, 0, 0];
    var head: Bytes := [0xc3, 0, 0, 0, 1, 8, 0x83, 0x94, 0xc8, 0xf0, 0x3e, 0x51, 0x57, 8, 0, 0, 0x44, 0x9e];
    var pn: Bytes := [0, 0, 0, 2];
    var pkt := head + pn + sample;
    assert pkt[22..38] == sample;
    assert MaskOf(Only(sample, mask), pkt, 18) == mask;
    assert FirstBits(0xc3) == 0x0f;
    CoveredParts(head, pn, sample, mask, 0x0f);
  }

  /** Section A.5: a short header with a packet number of three bytes. */
  lemma ShortSample()
    ensures var sample: Bytes := [0x5e, 0x5c, 0xd5, 0x5c, 0x41, 0xf6, 0x90, 0x80, 0x57, 0x5d, 0x79, 0x99, 0xc2, 0x5a, 0x5b, 0xfb];
            var mask: Bytes := [0xae, 0xfe, 0xfe, 0x7d, 0x03, 0, 0, 0, 0, 0, 0, 0, 0, 0, 0, 0];
            var pn: Bytes, pn': Bytes := [0, 0xbf, 0xf4], [0xfe, 0x41, 0x89];
            Apply(Only(sample, mask), [0x42] + pn + ([0x65] + sample), 1, 3) == [0x4c] + pn' + ([0x65] + sample)
  {
    var sample: Bytes := [0x5e, 0x5c, 0xd5, 0x5c, 0x41, 0xf6, 0x90, 0x80, 0x57, 0x5d, 0x79, 0x99, 0xc2, 0x5a, 0x5b, 0xfb];
    var mask: Bytes := [0xae, 0xfe, 0xfe, 0x7d, 0x03, 0, 0, 0, 0, 0, 0, 0, 0, 0, 0, 0];
    var pn: Bytes := [0, 0xbf, 0xf4];
    var pkt := [0x42] + pn + ([0x65] + sample);
    assert pkt[5..21] == sample;
    assert MaskOf(Only(sample, mask), pkt, 1) == mask;
    assert FirstBits(0x42) == 0x1f;
    CoveredParts([0x42], pn, [0x65] + sample, mask, 0x1f);
  }

  /** The mask over a packet in three parts. */
  lemma CoveredParts(head: Bytes, pn: Bytes, rest: Bytes, m: Mask, bits: bv8)
    requires head != [] && |pn| <= 4
    ensures Masked(head + pn + rest, m, bits, |head|, |pn|) ==
              head[0 := CoverFirst(head[0], m[0], bits)] + seq(|pn|, i requires 0 <= i < |pn| => Xor(pn[i], m[1 + i])) + rest
  {
  }

  /** And the other way round: protecting an unprotected packet again gives the bytes that
      were on the wire. */
  lemma ApplyUndoesRemove(k: Keys, wire: Bytes, pnOffset: nat)
    requires 1 <= pnOffset && wire != []
    ensures var (pkt, n) := RemoveByForm(k, wire, pnOffset);
            n <= 4 && Apply(k, pkt, pnOffset, n) == wire
  {
    hide Masked;
    hide MaskOf;
    hide PnLen;
    hide IsLong;
    hide CoverFirst;
    if CanSample(k, |wire|, pnOffset) {
      var m := MaskOf(k, wire, pnOffset);
      var bits := FirstBits(wire[0]);
      var n := PnLen(CoverFirst(wire[0], m[0], bits));
      MaskedFirst(wire, m, bits, pnOffset, n);
      FormBitStays(wire[0], m[0], bits);
      SampleStays(k, wire, m, bits, pnOffset, n);
      MaskedTwice(wire, m, bits, pnOffset, n);
    }
  }

  /** Nothing but the packet number and the low bits of the first byte is touched: neither
      the header form, the fixed bit, the connection ids nor the payload. */
  lemma ApplyTouchesOnly(k: Keys, pkt: Bytes, pnOffset: nat, pnLen: nat, i: nat)
    requires pnLen <= 4 && i < |pkt|
    requires 0 < i && !(pnOffset <= i < pnOffset + pnLen)
    ensures var wire := Apply(k, pkt, pnOffset, pnLen);
            |wire| == |pkt| && wire[i] == pkt[i] && wire[0] & 0xe0 == pkt[0] & 0xe0
  {
  }

  // ---- in place ----

  /** The mask over the packet number alone. */
  function WithPn(pkt: Bytes, m: Mask, off: nat, n: nat): Bytes
    requires n <= 4
  {
    seq(|pkt|, i requires 0 <= i < |pkt| => if off <= i < off + n then Xor(pkt[i], m[1 + i - off]) else pkt[i])
  }

  /** First byte, then packet number: together the whole mask, on the packet at the front of
      the buffer. */
  lemma TwoSteps(buf: Bytes, len: nat, m: Mask, bits: bv8, off: nat, n: nat)
    requires 1 <= off && n <= 4 && off + n <= len <= |buf|
    ensures var all := WithPn(buf[0 := CoverFirst(buf[0], m[0], bits)], m, off, n);
            |all| == |buf| && all[..len] == Masked(buf[..len], m, bits, off, n) && all[len..] == buf[len..]
  {
    hide CoverFirst;
    hide Xor;
    var all := WithPn(buf[0 := CoverFirst(buf[0], m[0], bits)], m, off, n);
    var masked := Masked(buf[..len], m, bits, off, n);
    forall i | 0 <= i < len
      ensures all[..len][i] == masked[i]
    {
      assert buf[..len][i] == buf[i];
    }
    assert all[len..] == buf[len..];
  }

  method XorFirst(pkt: array<bv8>, m: Mask, bits: bv8)
    requires pkt.Length > 0
    modifies pkt
    ensures pkt[..] == old(pkt[..])[0 := CoverFirst(old(pkt[0]), m[0], bits)]
  {
    pkt[0] := pkt[0] ^ (m[0] & bits);
  }

  /** The loop all three operations share: the mask over the packet number. */
  method XorPn(pkt: array<bv8>, pnOffset: nat, n: nat, m: Mask)
    requires 1 <= pnOffset && n <= 4 && pnOffset + n <= pkt.Length
    modifies pkt
    ensures pkt[..] == WithPn(old(pkt[..]), m, pnOffset, n)
  {
    var i := 0;
    while i < n
      invariant i <= n
      invariant forall j :: 0 <= j < pkt.Length ==>
                  pkt[j] == if pnOffset <= j < pnOffset + i then old(pkt[j]) ^ m[1 + j - pnOffset] else old(pkt[j])
    {
      pkt[pnOffset + i] := pkt[pnOffset + i] ^ m[1 + i];
      i := i + 1;
    }
  }

  lemma SameSample(k: Keys, buf: Bytes, len: nat, off: nat)
    requires off + 4 + SAMPLE_LEN <= len <= |buf|
    ensures k.mask(buf[off + 4..off + 4 + SAMPLE_LEN]) == MaskOf(k, buf[..len], off)
  {
    assert buf[..len][off + 4..off + 4 + SAMPLE_LEN] == buf[off + 4..off + 4 + SAMPLE_LEN];
  }

  method HpApply(k: Keys, pkt: array<bv8>, pktLen: nat, pnOffset: nat, pnLen: nat)
    requires 1 <= pnOffset && pnLen <= 4 && pktLen <= pkt.Length
    modifies pkt
    ensures pkt[..pktLen] == Apply(k, old(pkt[..pktLen]), pnOffset, pnLen)
    ensures pkt[pktLen..] == old(pkt[pktLen..])
  {
    hide CoverFirst;
    hide WithPn;
    hide Masked;
    hide MaskOf;
    if !CanSample(k, pktLen, pnOffset) {
      return;
    }
    ghost var buf := pkt[..];
    SameSample(k, buf, pktLen, pnOffset);
    var m := k.mask(pkt[pnOffset + 4..pnOffset + 4 + SAMPLE_LEN]);
    var bits := FirstBits(pkt[0]);
    TwoSteps(buf, pktLen, m, bits, pnOffset, pnLen);
    XorFirst(pkt, m, bits);
    XorPn(pkt, pnOffset, pnLen, m);
  }

  method HpRemove(k: Keys, pkt: array<bv8>, pktLen: nat, pnOffset: nat, bits: bv8) returns (pnLen: nat)
    requires 1 <= pnOffset && pktLen <= pkt.Length
    modifies pkt
    ensures (pkt[..pktLen], pnLen) == Remove(k, old(pkt[..pktLen]), pnOffset, bits)
    ensures pkt[pktLen..] == old(pkt[pktLen..])
  {
    hide PnLen;
    hide CoverFirst;
    hide WithPn;
    hide Masked;
    hide MaskOf;
    if !CanSample(k, pktLen, pnOffset) {
      return 0;
    }
    ghost var buf := pkt[..];
    SameSample(k, buf, pktLen, pnOffset);
    var m := k.mask(pkt[pnOffset + 4..pnOffset + 4 + SAMPLE_LEN]);
    XorFirst(pkt, m, bits);
    pnLen := PnLen(pkt[0]);
    TwoSteps(buf, pktLen, m, bits, pnOffset, pnLen);
    XorPn(pkt, pnOffset, pnLen, m);
  }
}
