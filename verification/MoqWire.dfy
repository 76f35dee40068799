/** The moq-lite wire codec: QUIC variable-length integers (section 16 of RFC 9000),
    zigzag, length-prefixed strings, message frames, and the messages built from
    them. Readers are functions of the bytes still ahead; every one of them is
    decided by the bytes it consumes and by nothing behind them. */
module MoqWire {
  import opened Octets
  import opened Options

  type Bytes = seq<Octet>

  // ------------------------------------------------------------------
  // (i): variable-length integers
  // ------------------------------------------------------------------

  /** MOQ_VARINT_MAX */
  const VARINT_MAX: nat := 0x3FFF_FFFF_FFFF_FFFF

  function VarintSize(v: nat): nat {
    if v <= 63 then 1 else if v <= 16383 then 2 else if v <= 1073741823 then 4 else 8
  }

  /** The low `n` bytes of `v`, most significant first. */
  function BigEndian(v: nat, n: nat): Bytes
    decreases n
  {
    if n == 0 then [] else BigEndian(v / 256, n - 1) + [v % 256]
  }

  /** The number a byte string spells, continuing from `acc`. */
  function Fold(acc: nat, s: Bytes): nat
    decreases |s|
  {
    if s == [] then acc else Fold(acc, s[..|s| - 1]) * 256 + s[|s| - 1]
  }

  /** What is left of `v` above its low `n` bytes: v >> (8 * n). */
  function HighPart(v: nat, n: nat): nat
    decreases n
  {
    if n == 0 then v else HighPart(v / 256, n - 1)
  }

  /** The size tag in the top two bits of the first byte. */
  function Tag(n: nat): nat {
    if n == 1 then 0x00 else if n == 2 then 0x40 else if n == 4 then 0x80 else 0xc0
  }

  function VarintBytes(v: nat): (s: Bytes)
    requires v <= VARINT_MAX
    ensures |s| == VarintSize(v)
  {
    var n := VarintSize(v);
    VarintFits(v);
    BigEndianLength(v, n - 1);
    [Tag(n) + HighPart(v, n - 1)] + BigEndian(v, n - 1)
  }

  /** Number of bytes announced by a first byte. */
  function Width(first: Octet): nat {
    if first < 64 then 1 else if first < 128 then 2 else if first < 192 then 4 else 8
  }

  /** A read value and the number of bytes it took. */
  datatype Read<T> = Read(value: T, size: nat)

  /** moq_varint_read: None when the bytes are not all there yet. */
  function ReadVarint(s: Bytes): (r: Option<Read<nat>>)
    ensures r.Some? ==> 1 <= r.value.size <= |s| && r.value.size <= 8
  {
    if s == [] || |s| < Width(s[0]) then None
    else Some(Read(Fold(s[0] % 64, s[1..Width(s[0])]), Width(s[0])))
  }

  lemma {:induction false} BigEndianLength(v: nat, n: nat)
    ensures |BigEndian(v, n)| == n
  {
    if n > 0 {
      BigEndianLength(v / 256, n - 1);
    }
  }

  lemma VarintFits(v: nat)
    requires v <= VARINT_MAX
    ensures HighPart(v, VarintSize(v) - 1) < 64
  {
    if v > 16383 {
      var v3 := v / 256 / 256 / 256;
      assert HighPart(v, 3) == v3;
      if v > 1073741823 {
        assert HighPart(v, 7) == HighPart(v3, 4) == v3 / 256 / 256 / 256 / 256;
      }
    } else if v > 63 {
      assert HighPart(v, 1) == v / 256;
    }
  }

  /** Spelling a number out and reading it back on top of its high part. */
  lemma {:induction false} FoldBigEndian(v: nat, n: nat)
    ensures Fold(HighPart(v, n), BigEndian(v, n)) == v
    decreases n
  {
    if n > 0 {
      FoldBigEndian(v / 256, n - 1);
      BigEndianLength(v / 256, n - 1);
      assert BigEndian(v, n)[..n - 1] == BigEndian(v / 256, n - 1);
    }
  }

  /** Every value that is written is read back, whatever follows. */
  lemma VarintRoundTrip(v: nat, rest: Bytes)
    requires v <= VARINT_MAX
    ensures ReadVarint(VarintBytes(v) + rest) == Some(Read(v, VarintSize(v)))
  {
    var n := VarintSize(v);
    var s := VarintBytes(v) + rest;
    VarintFits(v);
    BigEndianLength(v, n - 1);
    FoldBigEndian(v, n - 1);
    assert Width(s[0]) == n && s[0] % 64 == HighPart(v, n - 1);
    assert s[1..n] == BigEndian(v, n - 1);
  }

  /** Prefix freeness: more bytes behind a readable integer change nothing. */
  lemma VarintPrefix(s: Bytes, more: Bytes)
    requires ReadVarint(s).Some?
    ensures ReadVarint(s + more) == ReadVarint(s)
  {
    assert (s + more)[1..Width(s[0])] == s[1..Width(s[0])];
  }

  /** No shorter encoding reads as the same integer. */
  lemma VarintIsShortest(v: nat, s: Bytes)
    requires v <= VARINT_MAX && ReadVarint(s).Some? && ReadVarint(s).value.value == v
    ensures |VarintBytes(v)| <= ReadVarint(s).value.size
  {
    hide VarintBytes;
    var n := Width(s[0]);
    if n == 2 || n == 4 {
      var h: nat, a: nat, b: nat := s[0] % 64, s[1], if n == 4 then s[2] else 0;
      Digit(h, [], h, s[1]);
      assert [] + [s[1]] == [s[1]] == s[1..2];
      if n == 4 {
        Digit(h, [s[1]], h * 256 + a, s[2]);
        Digit(h, [s[1], s[2]], h * 65536 + a * 256 + b, s[3]);
        assert [s[1]] + [s[2]] == [s[1], s[2]] && s[1..4] == [s[1], s[2]] + [s[3]];
      }
    }
    hide Fold;
  }

  /** The samples of section A.1 of RFC 9000; by the round trip the writer agrees on those of
      least size. */
  lemma VarintSamples()
    ensures ReadVarint([0x25]) == Some(Read(37, 1)) && ReadVarint([0x40, 0x25]) == Some(Read(37, 2))
    ensures ReadVarint([0x7b, 0xbd]) == Some(Read(15293, 2))
    ensures ReadVarint([0x9d, 0x7f, 0x3e, 0x7d]) == Some(Read(494878333, 4))
  {
    Digit(0, [], 0, 0x25);
    Digit(0x3b, [], 0x3b, 0xbd);
    Digit(0x1d, [], 0x1d, 0x7f);
    Digit(0x1d, [0x7f], 0x1d7f, 0x3e);
    Digit(0x1d, [0x7f, 0x3e], 0x1d7f3e, 0x7d);
    hide Fold;
    assert [0x40, 0x25][1..2] == [] + [0x25] && [0x7b, 0xbd][1..2] == [] + [0xbd];
    assert [] + [0x7f] == [0x7f] && [0x7f] + [0x3e] == [0x7f, 0x3e];
    assert [0x9d, 0x7f, 0x3e, 0x7d][1..4] == [0x7f, 0x3e] + [0x7d];
    Digit(37, [], 37, 0);
  }

  lemma LongVarintSample()
    ensures ReadVarint([0xc2, 0x19, 0x7c, 0x5e, 0xff, 0x14, 0xe8, 0x8c]) == Some(Read(151288809941952652, 8))
  {
    hide Fold;
    var tail: Bytes := [0x19, 0x7c, 0x5e, 0xff, 0x14, 0xe8, 0x8c];
    assert tail[..0] == [] && tail[..0] + [0x19] == tail[..1] && tail[..1] + [0x7c] == tail[..2];
    assert tail[..2] + [0x5e] == tail[..3] && tail[..3] + [0xff] == tail[..4] && tail[..4] + [0x14] == tail[..5];
    assert tail[..5] + [0xe8] == tail[..6];
    Digit(2, tail[..0], 2, 0x19);
    Digit(2, tail[..1], 0x219, 0x7c);
    Digit(2, tail[..2], 0x2197c, 0x5e);
    Digit(2, tail[..3], 0x2197c5e, 0xff);
    Digit(2, tail[..4], 0x2197c5eff, 0x14);
    Digit(2, tail[..5], 0x2197c5eff14, 0xe8);
    Digit(2, tail[..6], 0x2197c5eff14e8, 0x8c);
    assert tail[..6] + [0x8c] == tail;
    assert [0xc2, 0x19, 0x7c, 0x5e, 0xff, 0x14, 0xe8, 0x8c][1..8] == tail;
  }

  lemma Digit(acc: nat, s: Bytes, v: nat, b: Octet)
    requires s == [] ==> v == acc
    requires s != [] ==> Fold(acc, s) == v
    ensures Fold(acc, s + [b]) == v * 256 + b && Fold(acc, []) == acc
  {
    assert (s + [b])[..|s|] == s;
  }

  // ------------------------------------------------------------------
  // zigzag, on 64-bit two's complement
  // ------------------------------------------------------------------

  const ZIGZAG_MIN: int := -0x2000_0000_0000_0000
  const ZIGZAG_MAX: int := 0x1FFF_FFFF_FFFF_FFFF
  const TWO64: nat := 0x1_0000_0000_0000_0000

  /** Exclusive-or with the sign mask: unchanged under 0, complemented under all ones. */
  function XorMask(x: nat, ones: bool): nat
    requires x < TWO64
  {
    if ones then TWO64 - 1 - x else x
  }

  /** moq_zigzag_encode: doubled as unsigned, then flipped when negative. */
  function ZigzagEncode(v: int): Option<nat> {
    if v < ZIGZAG_MIN || v > ZIGZAG_MAX then None
    else Some(XorMask((2 * v) % TWO64, v < 0))
  }

  /** moq_zigzag_decode: halved, then flipped when odd. */
  function ZigzagDecode(u: nat): int
    requires u < TWO64
  {
    if u % 2 == 0 then u / 2 else -(u / 2) - 1
  }

  /** The pair is inverse exactly on the accepted range, and what is encoded always
      fits a variable-length integer. */
  lemma ZigzagRoundTrip(v: int)
    ensures ZigzagEncode(v).Some? <==> ZIGZAG_MIN <= v <= ZIGZAG_MAX
    ensures ZigzagEncode(v).Some? ==> ZigzagEncode(v).value <= VARINT_MAX && ZigzagDecode(ZigzagEncode(v).value) == v
  {
  }

  // ------------------------------------------------------------------
  // (s): length-prefixed strings
  // ------------------------------------------------------------------

  function StrBytes(s: Bytes): Bytes
    requires |s| <= VARINT_MAX
  {
    VarintBytes(|s|) + s
  }

  /** moq_str_read inside one message body: both "not enough" and "longer than what is
      left" are failures here. */
  function ReadStr(s: Bytes): (r: Option<Read<Bytes>>)
    ensures r.Some? ==> 1 <= r.value.size <= |s|
  {
    match ReadVarint(s)
    case None => None
    case Some(n) =>
      if n.value > |s| - n.size then None
      else Some(Read(s[n.size..n.size + n.value], n.size + n.value))
  }

  lemma StrRoundTrip(str: Bytes, rest: Bytes)
    requires |str| <= VARINT_MAX
    ensures ReadStr(StrBytes(str) + rest) == Some(Read(str, |StrBytes(str)|))
  {
    VarintRoundTrip(|str|, str + rest);
    assert StrBytes(str) + rest == VarintBytes(|str|) + (str + rest);
    var n := VarintSize(|str|);
    assert (StrBytes(str) + rest)[n..n + |str|] == str;
  }

  // ------------------------------------------------------------------
  // Message frames
  // ------------------------------------------------------------------

  /** MOQ_MAX_MESSAGE_SIZE */
  const MAX_MESSAGE: nat := 67108864

  lemma StrPrefix(s: Bytes, more: Bytes)
    requires ReadStr(s).Some?
    ensures ReadStr(s + more) == ReadStr(s)
  {
    hide ReadVarint;
    VarintPrefix(s, more);
    var n := ReadVarint(s).value;
    assert (s + more)[n.size..n.size + n.value] == s[n.size..n.size + n.value];
  }

  /** moq_msg_build without a type. */
  function MsgBytes(body: Bytes): Bytes
    requires |body| <= VARINT_MAX
  {
    VarintBytes(|body|) + body
  }

  /** `start` and `end` delimit the body. */
  datatype MsgRead = Message(start: nat, end: nat) | NeedMore | TooLarge

  /** moq_msg_read */
  function ReadMsg(s: Bytes): (r: MsgRead)
    ensures r.Message? ==> 1 <= r.start <= r.end <= |s| && r.end - r.start <= MAX_MESSAGE
  {
    match ReadVarint(s)
    case None => NeedMore
    case Some(n) =>
      if n.value > MAX_MESSAGE then TooLarge
      else if n.value > |s| - n.size then NeedMore
      else Message(n.size, n.size + n.value)
  }

  lemma MsgRoundTrip(body: Bytes, rest: Bytes)
    requires |body| <= MAX_MESSAGE
    ensures ReadMsg(MsgBytes(body) + rest) == Message(VarintSize(|body|), |MsgBytes(body)|)
    ensures (MsgBytes(body) + rest)[VarintSize(|body|)..|MsgBytes(body)|] == body
    ensures (MsgBytes(body) + rest)[|MsgBytes(body)|..] == rest
  {
    VarintRoundTrip(|body|, body + rest);
    assert MsgBytes(body) + rest == VarintBytes(|body|) + (body + rest);
  }

  /** A message that is complete, or already too large, stays what it is. */
  lemma MsgPrefix(s: Bytes, more: Bytes)
    requires !ReadMsg(s).NeedMore?
    ensures ReadMsg(s + more) == ReadMsg(s)
    ensures ReadMsg(s).Message? ==> (s + more)[ReadMsg(s).start..ReadMsg(s).end] == s[ReadMsg(s).start..ReadMsg(s).end]
    ensures ReadMsg(s).Message? ==> (s + more)[ReadMsg(s).end..] == s[ReadMsg(s).end..] + more
  {
    VarintPrefix(s, more);
  }

  /** An incomplete message is short. */
  lemma NeedMoreIsShort(s: Bytes)
    requires ReadMsg(s).NeedMore?
    ensures |s| < 8 + MAX_MESSAGE
  {
  }

  // ------------------------------------------------------------------
  // Messages
  // ------------------------------------------------------------------

  /** moq_wire_group_header */
  function GroupHeaderBytes(subId: nat, group: nat, frameStart: nat): Bytes
    requires subId <= VARINT_MAX && group <= VARINT_MAX && frameStart <= VARINT_MAX
  {
    MsgBytes(VarintBytes(subId) + VarintBytes(group) + VarintBytes(frameStart))
  }

  /** moq_wire_frame: nothing is written for a delta out of range. */
  function FrameBytes(delta: int, payload: Bytes): Option<Bytes>
    requires |payload| <= VARINT_MAX
  {
    ZigzagRoundTrip(delta);
    match ZigzagEncode(delta)
    case None => None
    case Some(zz) => Some(VarintBytes(zz) + MsgBytes(payload))
  }

  /** moq_wire_announce_ok */
  function AnnounceOkBytes(origin: nat, active: nat): Bytes
    requires origin <= VARINT_MAX && active <= VARINT_MAX
  {
    MsgBytes(VarintBytes(origin) + VarintBytes(active))
  }

  /** moq_wire_announce_start: no hops */
  function AnnounceStartBytes(suffix: Bytes, warm: nat, cold: nat): Bytes
    requires |suffix| <= MAX_MESSAGE && warm <= VARINT_MAX && cold <= VARINT_MAX
  {
    VarintBytes(0) + MsgBytes(StrBytes(suffix) + VarintBytes(0) + VarintBytes(warm) + VarintBytes(cold))
  }

  /** moq_wire_subscribe_start */
  function SubscribeStartBytes(group: nat): Bytes
    requires group <= VARINT_MAX
  {
    VarintBytes(0) + MsgBytes(VarintBytes(group))
  }

  /** Each kind of message once, byte by byte. */
  lemma WireSamples()
    ensures ZigzagEncode(0) == Some(0) && ZigzagEncode(-1) == Some(1) && ZigzagEncode(1) == Some(2) && ZigzagEncode(-2) == Some(3)
    ensures StrBytes([97, 98]) == [2, 97, 98] && MsgBytes([7, 8]) == [2, 7, 8]
    ensures GroupHeaderBytes(5, 6, 0) == [3, 5, 6, 0]
    ensures FrameBytes(-1, [9, 9]) == Some([1, 2, 9, 9])
    ensures AnnounceOkBytes(0, 2) == [2, 0, 2] && AnnounceStartBytes([97], 12, 30) == [0, 5, 1, 97, 0, 12, 30]
    ensures SubscribeStartBytes(4) == [0, 1, 4]
  {
    hide VarintBytes;
    forall v: nat | v < 64
      ensures VarintBytes(v) == [v]
    {
      OneByteForm(v);
    }
    assert [5] + [6] + [0] == [5, 6, 0] && [0] + [2] == [0, 2];
    assert MsgBytes([5, 6, 0]) == [3] + [5, 6, 0] && MsgBytes([0, 2]) == [2] + [0, 2];
    assert StrBytes([97]) == [1] + [97] && [1] + [97] == [1, 97];
    var body := StrBytes([97]) + [0] + [12] + [30];
    assert body == [1, 97, 0, 12, 30];
    assert MsgBytes(body) == [5] + body;
    FrameSample();
  }

  lemma FrameSample()
    ensures FrameBytes(-1, [9, 9]) == Some([1, 2, 9, 9])
  {
    assert ZigzagEncode(-1) == Some(1);
    assert VarintBytes(1) == [1] && VarintBytes(2) == [2];
    assert MsgBytes([9, 9]) == [2] + [9, 9];
    assert FrameBytes(-1, [9, 9]) == Some([1] + ([2] + [9, 9]));
    assert [1] + ([2] + [9, 9]) == [1, 2, 9, 9];
  }

  lemma OneByteForm(v: nat)
    requires v < 64
    ensures VarintBytes(v) == [v]
  {
  }

  // ------------------------------------------------------------------
  // The growing buffer and the routines working on it
  // ------------------------------------------------------------------

  lemma DropAppend(s: Bytes, more: Bytes, n: nat)
    requires n <= |s|
    ensures (s + more)[n..] == s[n..] + more
  {
  }

  lemma SliceOfDrop(s: Bytes, n: nat, i: nat, j: nat)
    requires n <= |s| && i <= j <= |s| - n
    ensures s[n..][i..j] == s[n + i..n + j]
  {
  }

  lemma Assoc(a: Bytes, b: Bytes, c: Bytes)
    ensures (a + b) + c == a + (b + c)
  {
  }

  class MoqBuf {
    var bytes: Bytes

    constructor ()
      ensures bytes == []
    {
      bytes := [];
    }

    method Append(p: Bytes)
      modifies this
      ensures bytes == old(bytes) + p
    {
      bytes := bytes + p;
    }

    /** buf_consume */
    method Consume(n: nat)
      modifies this
      ensures bytes == if n >= |old(bytes)| then [] else old(bytes)[n..]
    {
      bytes := if n >= |bytes| then [] else bytes[n..];
    }

    /** moq_varint_write: all of the integer or, above the limit, nothing. */
    method WriteVarint(v: nat) returns (ok: bool)
      modifies this
      ensures ok <==> v <= VARINT_MAX
      ensures bytes == if ok then old(bytes) + VarintBytes(v) else old(bytes)
    {
      if v > VARINT_MAX {
        return false;
      }
      var n := VarintSize(v);
      var tmp: Bytes := [];
      var rest := v;
      while |tmp| < n - 1
        invariant |tmp| <= n - 1 && bytes == old(bytes)
        invariant rest == HighPart(v, |tmp|)
        invariant tmp == BigEndian(v, |tmp|)
      {
        HighPartStep(v, |tmp|);
        tmp := [rest % 256] + tmp;
        rest := rest / 256;
      }
      VarintFits(v);
      assert [Tag(n) + rest] + tmp == VarintBytes(v);
      Append([Tag(n) + rest] + tmp);
      ok := true;
    }

    /** moq_wire_frame */
    method WriteFrame(delta: int, payload: Bytes) returns (ok: bool)
      requires |payload| <= VARINT_MAX
      modifies this
      ensures ok <==> FrameBytes(delta, payload).Some?
      ensures bytes == if ok then old(bytes) + FrameBytes(delta, payload).value else old(bytes)
    {
      ZigzagRoundTrip(delta);
      match ZigzagEncode(delta)
      case None => return false;
      case Some(zz) =>
        ok := WriteVarint(zz);
        ok := WriteMsg(payload);
        Assoc(old(bytes), VarintBytes(zz), MsgBytes(payload));
    }

    /** moq_msg_build without a type */
    method WriteMsg(body: Bytes) returns (ok: bool)
      modifies this
      ensures ok <==> |body| <= VARINT_MAX
      ensures bytes == if ok then old(bytes) + MsgBytes(body) else old(bytes)
    {
      ok := WriteVarint(|body|);
      if ok {
        Append(body);
        Assoc(old(bytes), VarintBytes(|body|), body);
      }
    }

    /** moq_wire_group_header */
    method WriteGroupHeader(subId: nat, group: nat, frameStart: nat) returns (ok: bool)
      modifies this
      ensures ok <==> subId <= VARINT_MAX && group <= VARINT_MAX && frameStart <= VARINT_MAX
      ensures bytes == if ok then old(bytes) + GroupHeaderBytes(subId, group, frameStart) else old(bytes)
    {
      hide VarintBytes;
      hide MsgBytes;
      var body := new MoqBuf();
      ok := body.WriteVarint(subId);
      if !ok { return; }
      ok := body.WriteVarint(group);
      if !ok { return; }
      ok := body.WriteVarint(frameStart);
      if !ok { return; }
      ghost var a, b, c := VarintBytes(subId), VarintBytes(group), VarintBytes(frameStart);
      assert body.bytes == a + b + c;
      ok := WriteMsg(body.bytes);
    }
  }

  lemma {:induction false} HighPartStep(v: nat, n: nat)
    ensures HighPart(v, n + 1) == HighPart(v, n) / 256
    ensures BigEndian(v, n + 1) == [HighPart(v, n) % 256] + BigEndian(v, n)
    decreases n
  {
    if n > 0 {
      HighPartStep(v / 256, n - 1);
      assert BigEndian(v, n + 1) == BigEndian(v / 256, n) + [v % 256];
    }
  }

  /** moq_varint_read: the byte loop, on the bytes from `off` to `end`. */
  method VarintRead(p: Bytes, end: nat, off: nat) returns (r: Option<nat>, off': nat)
    requires off <= end <= |p|
    ensures r.Some? <==> ReadVarint(p[off..end]).Some?
    ensures r.Some? ==> r.value == ReadVarint(p[off..end]).value.value && off' == off + ReadVarint(p[off..end]).value.size <= end
    ensures r.None? ==> off' == off
  {
    off' := off;
    if off >= end {
      return None, off;
    }
    var first := p[off];
    var n := Width(first);
    if end - off < n {
      return None, off;
    }
    ghost var s := p[off..end];
    var v: nat, i := first % 64, 1;
    while i < n
      invariant 1 <= i <= n
      invariant v == Fold(first % 64, s[1..i])
    {
      ghost var t := s[1..i + 1];
      assert s[i] == p[off + i] && t[i - 1] == s[i];
      assert |t| == i && t[..i - 1] == s[1..i] && t[i - 1] == p[off + i];
      v := v * 256 + p[off + i];
      i := i + 1;
    }
    return Some(v), off + n;
  }
}
