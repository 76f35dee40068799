/** QPACK literals (section 4.5.6 of RFC 9204) on the prefix integers of section 5.1 of
    RFC 7541: the client's printer and the decoder. */
module QpackSpec {
  import opened Octets
  import opened Options

  /** Header blocks are shorter than what an int can count. */
  const INT_LIMIT: nat := 0x8000_0000

  type Bytes = seq<Octet>

  // ---- prefix integers ----

  /** 2 to the power of the prefix lengths in use. */
  function Pow2(prefix: nat): (p: nat)
    ensures 8 <= p <= 256
  {
    if prefix <= 3 then 8 else if prefix == 4 then 16 else if prefix <= 6 then 64 else if prefix == 7 then 128 else 256
  }

  /** What a continuation byte of that weight adds. */
  function Part(b: Octet, weight: nat): nat {
    b % 128 * weight
  }

  /** The continuation bytes: at most nine, seven bits each, least significant first. */
  function VdTail(b: Bytes, k: nat, val: nat, weight: nat): (r: Option<(nat, nat)>)
    ensures r.Some? ==> k < r.value.1 <= |b| && r.value.1 <= 10 && r.value.0 >= val
    decreases 10 - k
  {
    if k < |b| && k < 10 then
      var v := val + Part(b[k], weight);
      if b[k] < 128 then Some((v, k + 1)) else VdTail(b, k + 1, v, weight * 128)
    else None
  }

  /** An integer with a prefix of so many bits: its value and its length. */
  function Vd(b: Bytes, prefix: nat): (r: Option<(nat, nat)>)
    requires prefix in {3, 4, 6, 7, 8}
    ensures r.Some? ==> 1 <= r.value.1 <= |b|
  {
    if b == [] then None
    else
      var mask := Pow2(prefix) - 1;
      var val := b[0] % Pow2(prefix);
      if val < mask then Some((val, 1)) else VdTail(b, 1, val, 1)
  }

  function Cont(r: nat): (bs: Bytes)
    ensures |bs| >= 1
  {
    if r >= 128 then [r % 128 + 128] + Cont(r / 128) else [r]
  }

  function Pow128(n: nat): (p: nat)
    ensures p >= 1
  {
    if n == 0 then 1 else 128 * Pow128(n - 1)
  }

  lemma {:induction false} ContLength(r: nat, n: nat)
    requires n >= 1
    ensures |Cont(r)| <= n <==> r < Pow128(n)
    decreases n
  {
    if n == 1 {
      assert Pow128(1) == 128;
    } else if r >= 128 {
      ContLength(r / 128, n - 1);
      assert r / 128 < Pow128(n - 1) <==> r < 128 * Pow128(n - 1);
    }
  }

  lemma Weigh(r: nat, weight: nat)
    ensures Part(r % 128, weight) + r / 128 * (weight * 128) == r * weight
    ensures Part(r % 128 + 128, weight) == Part(r % 128, weight)
    ensures r < 128 ==> Part(r, weight) == r * weight
  {
  }

  lemma {:induction false} ContReadsBack(p: Bytes, r: nat, rest: Bytes, val: nat, weight: nat)
    ensures var b := p + Cont(r) + rest;
            VdTail(b, |p|, val, weight) ==
              if |p| + |Cont(r)| <= 10 then Some((val + r * weight, |p| + |Cont(r)|)) else None
    decreases r
  {
    hide Part;
    var b := p + Cont(r) + rest;
    assert b[|p|] == Cont(r)[0];
    Weigh(r, weight);
    if r >= 128 {
      var c := [r % 128 + 128];
      ContReadsBack(p + c, r / 128, rest, val + Part(r % 128, weight), weight * 128);
      assert b == p + c + Cont(r / 128) + rest;
    }
  }

  lemma MulLe(a: nat, b: nat, w: nat)
    requires a <= b
    ensures a * w <= b * w
  {
    assert b * w == a * w + (b - a) * w;
    assert (b - a) * w >= 0;
  }

  lemma PartBounds(b: Octet, weight: nat)
    ensures Part(b, weight) <= 127 * weight
    ensures 0 < b < 128 && weight > 0 ==> Part(b, weight) > 0
  {
    MulLe(b % 128, 127, weight);
    if 0 < b < 128 {
      MulLe(1, b % 128, weight);
    }
  }

  /** A value read stays below 256 + 128^9, so 64 bits do not overflow. */
  lemma {:induction false} VdTailFits(b: Bytes, k: nat, val: nat, weight: nat, nine: nat)
    requires 1 <= k <= 10 && weight == Pow128(k - 1) && val < 256 + weight && nine == 9
    ensures var r := VdTail(b, k, val, weight); r.Some? ==> r.value.0 < 256 + Pow128(nine)
    decreases 10 - k
  {
    hide Pow128;
    hide Part;
    if k < |b| && k < 10 {
      var v, w := val + Part(b[k], weight), Pow128(k);
      PartFits(b[k], val, weight, k);
      Pow128Grows(k, nine);
      VdTailFits(b, k + 1, v, w, nine);
    }
  }

  lemma PartFits(b: Octet, val: nat, weight: nat, k: nat)
    requires k >= 1 && weight == Pow128(k - 1) && val < 256 + weight
    ensures val + Part(b, weight) < 256 + Pow128(k) && Pow128(k) == weight * 128
  {
    hide Part;
    PartBounds(b, weight);
  }

  lemma {:induction false} Pow128Grows(m: nat, n: nat)
    requires m <= n
    ensures Pow128(m) <= Pow128(n)
  {
    if m < n {
      Pow128Grows(m, n - 1);
    }
  }

  // ---- the printer ----

  function NameLength(n: nat): Bytes {
    if n < 7 then [0x20 + n] else [0x27] + Cont(n - 7)
  }

  function ValueLength(n: nat): Bytes {
    if n < 128 then [n] else [n % 128 + 128] + Cont(n / 128)
  }

  function Literal(name: Bytes, value: Bytes): Bytes {
    NameLength(|name|) + name + (ValueLength(|value|) + value)
  }

  datatype Pair = Pair(name: Bytes, value: Bytes)

  function Literals(fs: seq<Pair>): Bytes
    decreases |fs|
  {
    if fs == [] then [] else Literal(fs[0].name, fs[0].value) + Literals(fs[1..])
  }

  /** The encoded section prefix and the field lines. */
  function Encode(fs: seq<Pair>): Bytes {
    [0, 0] + Literals(fs)
  }

  // ---- the decoder ----

  /** Bytes as they are, or still Huffman-coded. */
  datatype Text = Plain(bytes: Bytes) | Coded(code: Bytes)

  datatype Field =
    | Indexed(inTable: bool, index: nat)
    | NameReference(nameIndex: nat, value: Text)
    | LiteralName(name: Text, literal: Text)

  function AsText(coded: bool, bytes: Bytes): Text {
    if coded then Coded(bytes) else Plain(bytes)
  }

  /** A string with a 7-bit prefix length and a Huffman bit. */
  function ParseValue(data: Bytes): (r: Option<(Text, nat)>)
    ensures r.Some? ==> 1 <= r.value.1 <= |data|
  {
    if data == [] then None
    else
      match Vd(data, 7)
      case None => None
      case Some((vlen, v)) =>
        if v + vlen > |data| then None
        else Some((AsText(data[0] >= 128, data[v..v + vlen]), v + vlen))
  }

  function ParseOne(data: Bytes): (r: Option<(Field, nat)>)
    ensures r.Some? ==> 1 <= r.value.1 <= |data|
  {
    if data == [] then None
    else
      var b := data[0];
      if b >= 0x80 then
        match Vd(data, 6)
        case None => None
        case Some((idx, v)) => Some((Indexed(b / 0x40 % 2 == 1, idx), v))
      else if b >= 0x40 then
        match Vd(data, 4)
        case None => None
        case Some((idx, v)) =>
          if b / 0x10 % 2 == 0 || v >= |data| then None
          else
            match ParseValue(data[v..])
            case None => None
            case Some((value, n)) => Some((NameReference(idx, value), v + n))
      else if b >= 0x20 then
        match Vd(data, 3)
        case None => None
        case Some((nlen, v)) =>
          if v + nlen >= |data| then None
          else
            match ParseValue(data[v + nlen..])
            case None => None
            case Some((value, n)) =>
              Some((LiteralName(AsText(b / 8 % 2 == 1, data[v..v + nlen]), value), v + nlen + n))
      else None
  }

  function DecodeFields(data: Bytes, max: nat): seq<Field> {
    if data == [] || max == 0 then []
    else
      match ParseOne(data)
      case None => []
      case Some((f, c)) => [f] + DecodeFields(data[c..], max - 1)
  }

  function Decode(data: Bytes, max: nat): Option<seq<Field>> {
    if |data| < 2 then None
    else
      match Vd(data, 8)
      case None => None
      case Some((_, r)) =>
        match Vd(data[r..], 7)
        case None => None
        case Some((_, q)) => Some(DecodeFields(data[r + q..], max))
  }

  // ------------------------------------------------------------------
  // Round trip
  // ------------------------------------------------------------------

  /** A name length that nine continuation bytes can carry, that is below 7 + 128^9. */
  predicate NameFits(n: nat) {
    n >= 7 ==> |Cont(n - 7)| <= 9
  }

  lemma NameLengthReads(n: nat, rest: Bytes)
    requires NameFits(n)
    ensures Vd(NameLength(n) + rest, 3) == Some((n, |NameLength(n)|))
    ensures 0x20 <= NameLength(n)[0] <= 0x27
  {
    hide Cont;
    hide VdTail;
    var b := NameLength(n) + rest;
    if n >= 7 {
      assert b == [0x27] + Cont(n - 7) + rest;
      ContReadsBack([0x27], n - 7, rest, 7, 1);
      VdTailStart(b, 7);
    }
  }

  lemma VdTailStart(b: Bytes, val: nat)
    requires b != [] && b[0] % 8 == 7 && val == 7
    ensures Vd(b, 3) == VdTail(b, 1, val, 1)
  {
  }

  lemma ShortValueReads(value: Bytes, rest: Bytes)
    requires |value| <= 126
    ensures ParseValue(ValueLength(|value|) + value + rest) == Some((Plain(value), 1 + |value|))
  {
  }

  /** The part after the name decides: its value is what comes out. */
  lemma LiteralParses(name: Bytes, tail: Bytes)
    requires NameFits(|name|) && tail != []
    ensures var v := |NameLength(|name|)| + |name|;
            var r := ParseValue(tail);
            ParseOne(NameLength(|name|) + name + tail) ==
              if r.Some? then Some((LiteralName(Plain(name), r.value.0), v + r.value.1)) else None
  {
    var l := NameLength(|name|);
    var data := l + name + tail;
    assert data == l + (name + tail);
    NameLengthReads(|name|, name + tail);
    hide NameLength;
    hide Vd;
    hide ParseValue;
    assert data[|l|..|l| + |name|] == name;
    assert data[|l| + |name|..] == tail;
    assert data[0] == l[0];
    assert data[0] / 8 % 2 == 0;
  }

  lemma LiteralSplits(f: Pair, rest: Bytes)
    ensures Literal(f.name, f.value) + rest ==
              NameLength(|f.name|) + f.name + (ValueLength(|f.value|) + f.value + rest)
    ensures ValueLength(|f.value|) + f.value + rest != []
    ensures |Literal(f.name, f.value)| == |NameLength(|f.name|)| + |f.name| + |ValueLength(|f.value|)| + |f.value|
  {
  }

  lemma ShortLength(n: nat)
    requires n <= 126
    ensures |ValueLength(n)| == 1
  {
  }

  /** One printed field, whatever follows it. */
  lemma FieldReadsBack(f: Pair, rest: Bytes)
    requires NameFits(|f.name|) && |f.value| <= 126
    ensures ParseOne(Literal(f.name, f.value) + rest) ==
              Some((LiteralName(Plain(f.name), Plain(f.value)), |Literal(f.name, f.value)|))
  {
    hide *;
    ShortLength(|f.value|);
    LiteralSplits(f, rest);
    ShortValueReads(f.value, rest);
    LiteralParses(f.name, ValueLength(|f.value|) + f.value + rest);
  }

  // ------------------------------------------------------------------
  // All field lines the decoder takes (section 4.5 of RFC 9204)
  // ------------------------------------------------------------------

  function Top(prefix: nat): nat
    requires prefix in {3, 4, 6, 7, 8}
  {
    if prefix == 3 then 7 else if prefix == 4 then 15 else if prefix == 6 then 63 else if prefix == 7 then 127 else 255
  }

  /** An integer with a prefix of so many bits, behind flag bits in the same byte. */
  function PrefixInt(prefix: nat, flags: nat, n: nat): Bytes
    requires prefix in {3, 4, 6, 7, 8} && flags % (Top(prefix) + 1) == 0 && flags + Top(prefix) < 256
  {
    if n < Top(prefix) then [flags + n] else [flags + Top(prefix)] + Cont(n - Top(prefix))
  }

  predicate Fits(prefix: nat, n: nat)
    requires prefix in {3, 4, 6, 7, 8}
  {
    n >= Top(prefix) ==> |Cont(n - Top(prefix))| <= 9
  }

  lemma PrefixIntReads(prefix: nat, flags: nat, n: nat, rest: Bytes)
    requires prefix in {3, 4, 6, 7, 8} && flags % (Top(prefix) + 1) == 0 && flags + Top(prefix) < 256 && Fits(prefix, n)
    ensures var p := PrefixInt(prefix, flags, n);
            Vd(p + rest, prefix) == Some((n, |p|)) && 1 <= |p| && flags <= p[0] <= flags + Top(prefix)
  {
    hide Cont;
    hide VdTail;
    var top := Top(prefix);
    var p := PrefixInt(prefix, flags, n);
    LowPart(prefix, flags, p[0]);
    if n >= top {
      assert p + rest == [flags + top] + Cont(n - top) + rest;
      ContReadsBack([flags + top], n - top, rest, top, 1);
    }
  }

  lemma LowPart(prefix: nat, flags: nat, b: Octet)
    requires prefix in {3, 4, 6, 7, 8} && flags % (Top(prefix) + 1) == 0 && flags <= b <= flags + Top(prefix)
    ensures b % Pow2(prefix) == b - flags && Pow2(prefix) == Top(prefix) + 1
  {
  }

  /** A string behind its length and the Huffman bit. */
  function StringBytes(t: Text): Bytes {
    match t
    case Plain(s) => PrefixInt(7, 0, |s|) + s
    case Coded(s) => PrefixInt(7, 128, |s|) + s
  }

  function Content(t: Text): Bytes {
    match t case Plain(s) => s case Coded(s) => s
  }

  lemma StringReads(t: Text, rest: Bytes)
    requires Fits(7, |Content(t)|)
    ensures ParseValue(StringBytes(t) + rest) == Some((t, |StringBytes(t)|)) && StringBytes(t) != []
  {
    hide Vd;
    hide PrefixInt;
    var s, flags := Content(t), if t.Coded? then 128 else 0;
    var p := PrefixInt(7, flags, |s|);
    PrefixIntReads(7, flags, |s|, s + rest);
    assert StringBytes(t) + rest == p + (s + rest);
    assert (p + (s + rest))[|p|..|p| + |s|] == s;
  }

  /** A field line: an index into the static table (T = 1) or the dynamic one, a reference to
      a static name, or a literal name; `never` is the N bit. */
  datatype Line =
    | IndexLine(isStatic: bool, index: nat)
    | NameLine(never: bool, nameIndex: nat, value: Text)
    | TextLine(never: bool, name: Text, text: Text)

  predicate LineFits(l: Line) {
    match l
    case IndexLine(_, index) => Fits(6, index)
    case NameLine(_, index, value) => Fits(4, index) && Fits(7, |Content(value)|)
    case TextLine(_, name, value) => Fits(3, |Content(name)|) && Fits(7, |Content(value)|)
  }

  function LineBytes(l: Line): Bytes {
    match l
    case IndexLine(isStatic, index) => PrefixInt(6, if isStatic then 0xc0 else 0x80, index)
    case NameLine(never, index, value) => PrefixInt(4, if never then 0x70 else 0x50, index) + StringBytes(value)
    case TextLine(never, name, value) =>
      PrefixInt(3, (if never then 0x30 else 0x20) + (if name.Coded? then 8 else 0), |Content(name)|)
      + Content(name) + StringBytes(value)
  }

  function FieldOf(l: Line): Field {
    match l
    case IndexLine(isStatic, index) => Indexed(isStatic, index)
    case NameLine(_, index, value) => NameReference(index, value)
    case TextLine(_, name, value) => LiteralName(name, value)
  }

  lemma IndexLineReads(l: Line, rest: Bytes)
    requires l.IndexLine? && LineFits(l)
    ensures ParseOne(LineBytes(l) + rest) == Some((FieldOf(l), |LineBytes(l)|)) && LineBytes(l) != []
  {
    hide Vd;
    hide PrefixInt;
    var flags := if l.isStatic then 0xc0 else 0x80;
    PrefixIntReads(6, flags, l.index, rest);
    assert (LineBytes(l) + rest)[0] == LineBytes(l)[0];
  }

  lemma NameLineReads(l: Line, rest: Bytes)
    requires l.NameLine? && LineFits(l)
    ensures ParseOne(LineBytes(l) + rest) == Some((FieldOf(l), |LineBytes(l)|)) && LineBytes(l) != []
  {
    hide Vd;
    hide PrefixInt;
    hide ParseValue;
    hide StringBytes;
    var flags := if l.never then 0x70 else 0x50;
    var p, tail := PrefixInt(4, flags, l.nameIndex), StringBytes(l.value) + rest;
    PrefixIntReads(4, flags, l.nameIndex, tail);
    StringReads(l.value, rest);
    assert LineBytes(l) + rest == p + tail;
    assert (p + tail)[|p|..] == tail && (p + tail)[0] == p[0];
  }

  lemma TextLineReads(l: Line, rest: Bytes)
    requires l.TextLine? && LineFits(l)
    ensures ParseOne(LineBytes(l) + rest) == Some((FieldOf(l), |LineBytes(l)|)) && LineBytes(l) != []
  {
    hide Vd;
    hide PrefixInt;
    hide ParseValue;
    hide StringBytes;
    var flags := (if l.never then 0x30 else 0x20) + (if l.name.Coded? then 8 else 0);
    var name := Content(l.name);
    var p, tail := PrefixInt(3, flags, |name|), StringBytes(l.text) + rest;
    PrefixIntReads(3, flags, |name|, name + tail);
    StringReads(l.text, rest);
    var data := p + (name + tail);
    assert LineBytes(l) + rest == data;
    assert data[0] == p[0] && data[|p|..|p| + |name|] == name && data[|p| + |name|..] == tail;
    assert p[0] / 8 % 2 == 1 <==> l.name.Coded?;
  }

  function AllLines(lines: seq<Line>): Bytes {
    if lines == [] then [] else LineBytes(lines[0]) + AllLines(lines[1..])
  }

  function FieldsOf(lines: seq<Line>): seq<Field> {
    seq(|lines|, i requires 0 <= i < |lines| => FieldOf(lines[i]))
  }

  /** The lines there is room for. */
  function UpTo(lines: seq<Line>, max: nat): seq<Line> {
    if |lines| <= max then lines else lines[..max]
  }

  lemma OneMoreField(front: Bytes, tail: Bytes, f: Field, max: nat)
    requires front != [] && max > 0 && ParseOne(front + tail) == Some((f, |front|))
    ensures DecodeFields(front + tail, max) == [f] + DecodeFields(tail, max - 1)
  {
    hide ParseOne;
    assert (front + tail)[|front|..] == tail;
  }

  lemma OneMoreLine(lines: seq<Line>, max: nat)
    requires lines != [] && max > 0
    ensures FieldsOf(UpTo(lines, max)) == [FieldOf(lines[0])] + FieldsOf(UpTo(lines[1..], max - 1))
  {
    hide FieldOf;
    assert UpTo(lines, max) == [lines[0]] + UpTo(lines[1..], max - 1);
  }

  /** Lines are decoded up to the `max`-th, or the first that is broken. */
  lemma {:induction false} LinesRead(lines: seq<Line>, rest: Bytes, max: nat)
    requires (forall i :: 0 <= i < |lines| ==> LineFits(lines[i])) && ParseOne(rest) == None
    ensures DecodeFields(AllLines(lines) + rest, max) == FieldsOf(UpTo(lines, max))
    decreases |lines|
  {
    hide ParseOne;
    hide LineBytes;
    hide LineFits;
    if lines == [] {
      assert [] + rest == rest;
    } else if max > 0 {
      hide DecodeFields;
      hide FieldsOf;
      hide UpTo;
      var front, tail := LineBytes(lines[0]), AllLines(lines[1..]) + rest;
      LinesRead(lines[1..], rest, max - 1);
      LineReads(lines[0], tail);
      OneMoreField(front, tail, FieldOf(lines[0]), max);
      OneMoreLine(lines, max);
      assert AllLines(lines) + rest == front + tail;
    }
  }

  lemma LineReads(l: Line, rest: Bytes)
    requires LineFits(l)
    ensures ParseOne(LineBytes(l) + rest) == Some((FieldOf(l), |LineBytes(l)|)) && LineBytes(l) != []
  {
    hide *;
    match l
    case IndexLine(_, _) => IndexLineReads(l, rest);
    case NameLine(_, _, _) => NameLineReads(l, rest);
    case TextLine(_, _, _) => TextLineReads(l, rest);
  }

  /** A header section with any prefix and any of these lines decodes to their fields, with
      table bit, indices, names, values and Huffman bits as they were sent, up to the room
      there is; what is broken behind them takes nothing away. */
  lemma SectionReads(count: nat, sign: bool, base: nat, lines: seq<Line>, rest: Bytes, max: nat)
    requires Fits(8, count) && Fits(7, base)
    requires (forall i :: 0 <= i < |lines| ==> LineFits(lines[i])) && ParseOne(rest) == None
    ensures Decode(PrefixInt(8, 0, count) + PrefixInt(7, if sign then 128 else 0, base) + (AllLines(lines) + rest), max)
            == Some(FieldsOf(UpTo(lines, max)))
  {
    hide Vd;
    hide PrefixInt;
    hide DecodeFields;
    hide AllLines;
    hide FieldsOf;
    hide Decode;
    hide ParseOne;
    hide UpTo;
    hide LineFits;
    hide Fits;
    var p, q, all := PrefixInt(8, 0, count), PrefixInt(7, if sign then 128 else 0, base), AllLines(lines) + rest;
    PrefixIntReads(8, 0, count, q + all);
    PrefixIntReads(7, if sign then 128 else 0, base, all);
    LinesRead(lines, rest, max);
    PrefixIsPassed(p, q, all, count, base, max);
  }

  lemma PrefixIsPassed(p: Bytes, q: Bytes, all: Bytes, count: nat, base: nat, max: nat)
    requires 1 <= |p| && 1 <= |q|
    requires Vd(p + (q + all), 8) == Some((count, |p|)) && Vd(q + all, 7) == Some((base, |q|))
    ensures Decode(p + q + all, max) == Some(DecodeFields(all, max))
  {
    hide Vd;
    hide DecodeFields;
    var data := p + q + all;
    assert data == p + (q + all) && data[|p|..] == q + all && data[|p| + |q|..] == all;
  }

  /** Nothing, a line counted from behind the base (00), and a section too short for its two
      prefix integers. */
  lemma OthersAreRefused(data: Bytes)
    ensures data == [] || data[0] < 0x20 ==> ParseOne(data) == None
    ensures |data| < 2 ==> forall max :: Decode(data, max) == None
  {
  }

  // ---- lines cut short ----

  lemma {:induction false} VdTailPrefix(b: Bytes, more: Bytes, k: nat, val: nat, weight: nat)
    requires VdTail(b, k, val, weight).Some?
    ensures VdTail(b + more, k, val, weight) == VdTail(b, k, val, weight)
    decreases 10 - k
  {
    hide Part;
    assert (b + more)[k] == b[k];
    if b[k] >= 128 {
      VdTailPrefix(b, more, k + 1, val + Part(b[k], weight), weight * 128);
    }
  }

  lemma VdPrefix(b: Bytes, more: Bytes, prefix: nat)
    requires prefix in {3, 4, 6, 7, 8} && Vd(b, prefix).Some?
    ensures Vd(b + more, prefix) == Vd(b, prefix)
  {
    hide VdTail;
    assert (b + more)[0] == b[0];
    if b[0] % Pow2(prefix) >= Pow2(prefix) - 1 {
      VdTailPrefix(b, more, 1, b[0] % Pow2(prefix), 1);
    }
  }

  lemma ValuePrefix(b: Bytes, more: Bytes)
    requires ParseValue(b).Some?
    ensures ParseValue(b + more) == ParseValue(b)
  {
    hide Vd;
    VdPrefix(b, more, 7);
    var (n, v) := Vd(b, 7).value;
    assert (b + more)[0] == b[0] && (b + more)[v..v + n] == b[v..v + n];
  }

  /** A line that was read is read the same with more behind it. */
  lemma ParseOnePrefix(b: Bytes, more: Bytes)
    requires ParseOne(b).Some?
    ensures ParseOne(b + more) == ParseOne(b)
  {
    hide Vd;
    hide ParseValue;
    var all := b + more;
    assert all[0] == b[0];
    if b[0] >= 0x80 {
      VdPrefix(b, more, 6);
    } else if b[0] >= 0x40 {
      VdPrefix(b, more, 4);
      var v := Vd(b, 4).value.1;
      assert all[v..] == b[v..] + more;
      ValuePrefix(b[v..], more);
    } else {
      VdPrefix(b, more, 3);
      var (n, v) := Vd(b, 3).value;
      assert all[v..v + n] == b[v..v + n] && all[v + n..] == b[v + n..] + more;
      ValuePrefix(b[v + n..], more);
    }
  }

  /** So no line cut short anywhere is read at all. */
  lemma CutLineIsRefused(l: Line, k: nat)
    requires LineFits(l) && k < |LineBytes(l)|
    ensures ParseOne(LineBytes(l)[..k]) == None
  {
    hide ParseOne;
    hide LineBytes;
    var b := LineBytes(l);
    LineReads(l, []);
    assert b + [] == b && b[..k] + b[k..] == b;
    if ParseOne(b[..k]).Some? {
      ParseOnePrefix(b[..k], b[k..]);
    }
  }

  /** A reference to a name of the dynamic table (T = 0) is not taken. */
  lemma DynamicNameIsRefused(never: bool, index: nat, rest: Bytes)
    requires Fits(4, index)
    ensures ParseOne(PrefixInt(4, if never then 0x60 else 0x40, index) + rest) == None
  {
    hide Vd;
    hide PrefixInt;
    var flags := if never then 0x60 else 0x40;
    var p := PrefixInt(4, flags, index);
    PrefixIntReads(4, flags, index, rest);
    assert (p + rest)[0] == p[0];
    assert p[0] / 0x10 % 2 == 0;
  }

  /** C strings hold no NUL. */
  predicate NoNul(s: Bytes) {
    forall i :: 0 <= i < |s| ==> s[i] != 0
  }

  /** Read over bytes that are not zero, a continuation adds something. */
  lemma {:induction false} TailAdds(b: Bytes, k: nat, val: nat, weight: nat)
    requires weight >= 1 && 1 <= k <= 10 <= |b| && forall i :: k <= i < 10 ==> b[i] != 0
    ensures var r := VdTail(b, k, val, weight); r.Some? ==> r.value.0 > val
    decreases 10 - k
  {
    hide Part;
    if k < 10 {
      var v := val + Part(b[k], weight);
      PartBounds(b[k], weight);
      if b[k] >= 128 {
        TailAdds(b, k + 1, v, weight * 128);
      }
    }
  }

  /** A Huffman decoder; the shortest code has five bits. */
  type Huffman = Bytes -> Bytes

  ghost predicate FiveBits(h: Huffman) {
    forall c :: 5 * |h(c)| <= 8 * |c|
  }

  function Read(h: Huffman, t: Text): Bytes {
    match t
    case Plain(bytes) => bytes
    case Coded(code) => h(code)
  }

  /** What a caller makes of a field: a name and a value, or a reference to the table. */
  datatype Header = Header(name: Bytes, value: Bytes) | FromTable(field: Field)

  function ReadField(h: Huffman, f: Field): Header {
    match f
    case LiteralName(name, value) => Header(Read(h, name), Read(h, value))
    case _ => FromTable(f)
  }

  function ReadFields(h: Huffman, fields: seq<Field>): seq<Header> {
    seq(|fields|, i requires 0 <= i < |fields| => ReadField(h, fields[i]))
  }

  /** From 128 bytes on the printer sets the Huffman bit, and what is then taken for coded
      bytes is too short to give the value. */
  lemma CodedIsShort(value: Bytes, rest: Bytes)
    requires |value| >= 128
    ensures var r := ParseValue(ValueLength(|value|) + value + rest);
            r.Some? ==> r.value.0.Coded? && 8 * |r.value.0.code| < 5 * |value|
  {
    hide Cont;
    hide VdTail;
    var n := |value|;
    var b := ValueLength(n) + value + rest;
    assert b == [n % 128 + 128] + Cont(n / 128) + (value + rest);
    ContReadsBack([n % 128 + 128], n / 128, value + rest, 127, 1);
    assert n == n / 128 * 128 + n % 128;
  }

  /** A longer value never comes back as it was, whatever the Huffman table: 127 is taken for
      the start of a longer length. */
  lemma LongValueIsMisread(h: Huffman, value: Bytes, rest: Bytes)
    requires |value| >= 127 && NoNul(value) && FiveBits(h)
    ensures var r := ParseValue(ValueLength(|value|) + value + rest); r.Some? ==> Read(h, r.value.0) != value
  {
    hide VdTail;
    var b := ValueLength(|value|) + value + rest;
    if |value| == 127 {
      assert b[0] == 127;
      forall i | 1 <= i < 10
        ensures b[i] != 0
      {
        assert b[i] == value[i - 1];
      }
      TailAdds(b, 1, 127, 1);
      assert Vd(b, 7) == VdTail(b, 1, 127, 1);
    } else {
      CodedIsShort(value, rest);
      hide ValueLength;
      hide ParseValue;
      var r := ParseValue(b);
      assert r.Some? ==> 5 * |h(r.value.0.code)| <= 8 * |r.value.0.code|;
    }
  }

  /** The list as the caller should see it. */
  function Headers(fs: seq<Pair>): seq<Header> {
    seq(|fs|, i requires 0 <= i < |fs| => Header(fs[i].name, fs[i].value))
  }

  predicate ShortValues(fs: seq<Pair>) {
    forall i :: 0 <= i < |fs| ==> |fs[i].value| <= 126
  }

  predicate Printable(fs: seq<Pair>) {
    forall i :: 0 <= i < |fs| ==> NoNul(fs[i].name) && NoNul(fs[i].value) && NameFits(|fs[i].name|)
  }

  lemma {:induction false} FieldsReadBackIff(h: Huffman, fs: seq<Pair>, max: nat)
    requires Printable(fs) && |fs| <= max && FiveBits(h)
    ensures ReadFields(h, DecodeFields(Literals(fs), max)) == Headers(fs) <==> ShortValues(fs)
    decreases |fs|
  {
    hide ParseOne;
    hide Literal;
    hide FiveBits;
    hide Headers;
    hide ReadFields;
    if fs == [] {
      NothingRead(h);
    } else {
      var f, more := fs[0], fs[1..];
      var one := Literal(f.name, f.value);
      var data := Literals(fs);
      LiteralSplits(f, []);
      assert data == one + Literals(more);
      HeadersStep(fs);
      var fields := DecodeFields(data, max);
      if |f.value| <= 126 {
        FieldReadsBack(f, Literals(more));
        assert data[|one|..] == Literals(more);
        FieldsReadBackIff(h, more, max - 1);
        ShortValuesStep(fs);
        var tail := DecodeFields(Literals(more), max - 1);
        assert fields == [LiteralName(Plain(f.name), Plain(f.value))] + tail;
        assert fields[1..] == tail;
        ReadStep(h, fields);
        SameHead(Header(f.name, f.value), ReadFields(h, tail), Headers(more));
      } else {
        FieldIsMisread(h, f, Literals(more));
        NothingRead(h);
        if fields != [] {
          ReadStep(h, fields);
          assert ReadFields(h, fields)[0] != Headers(fs)[0];
        }
      }
    }
  }

  lemma SameHead<T>(x: T, a: seq<T>, b: seq<T>)
    ensures [x] + a == [x] + b <==> a == b
  {
    assert ([x] + a)[1..] == a && ([x] + b)[1..] == b;
  }

  lemma NothingRead(h: Huffman)
    ensures ReadFields(h, []) == [] && Headers([]) == []
  {
  }

  lemma HeadersStep(fs: seq<Pair>)
    requires fs != []
    ensures Headers(fs) == [Header(fs[0].name, fs[0].value)] + Headers(fs[1..])
  {
  }

  lemma ReadStep(h: Huffman, fields: seq<Field>)
    requires fields != []
    ensures ReadFields(h, fields) == [ReadField(h, fields[0])] + ReadFields(h, fields[1..])
  {
  }

  lemma ShortValuesStep(fs: seq<Pair>)
    requires fs != [] && |fs[0].value| <= 126
    ensures ShortValues(fs) <==> ShortValues(fs[1..])
  {
  }

  lemma FieldIsMisread(h: Huffman, f: Pair, rest: Bytes)
    requires NameFits(|f.name|) && |f.value| >= 127 && NoNul(f.value) && FiveBits(h)
    ensures var r := ParseOne(Literal(f.name, f.value) + rest);
            r.Some? ==> ReadField(h, r.value.0) != Header(f.name, f.value)
  {
    hide ParseOne;
    hide ParseValue;
    hide NameLength;
    hide ValueLength;
    hide Literal;
    hide NoNul;
    hide FiveBits;
    LiteralSplits(f, rest);
    LongValueIsMisread(h, f.value, rest);
    LiteralParses(f.name, ValueLength(|f.value|) + f.value + rest);
  }

  lemma DecodeSkipsPrefix(body: Bytes, max: nat)
    ensures Decode([0, 0] + body, max) == Some(DecodeFields(body, max))
  {
    hide DecodeFields;
    hide VdTail;
    var data := [0, 0] + body;
    assert data[1..][0] == 0;
    assert data[2..] == body;
  }

  /** The decoder gives back the printed list exactly when every value is at most 126 bytes
      long. */
  lemma RoundTripIff(h: Huffman, fs: seq<Pair>, max: nat)
    requires Printable(fs) && |fs| <= max && |Encode(fs)| < INT_LIMIT && FiveBits(h)
    ensures var r := Decode(Encode(fs), max);
            (r.Some? && ReadFields(h, r.value) == Headers(fs)) <==> ShortValues(fs)
  {
    hide Decode;
    hide DecodeFields;
    hide Literals;
    hide Headers;
    hide ReadFields;
    hide ShortValues;
    hide FiveBits;
    DecodeSkipsPrefix(Literals(fs), max);
    FieldsReadBackIff(h, fs, max);
  }
}

module QpackRecord {
  import opened Octets
  import opened Options
  import opened QpackSpec

  method VarintDecode(b: Bytes, prefix: nat) returns (r: Option<(nat, nat)>)
    requires prefix in {3, 4, 6, 7, 8}
    ensures r == Vd(b, prefix)
  {
    if |b| < 1 {
      return None;
    }
    var val: nat := b[0] % Pow2(prefix);
    if val < Pow2(prefix) - 1 {
      return Some((val, 1));
    }
    r := Continue(b, val);
  }

  /** The continuation loop. */
  method Continue(b: Bytes, start: nat) returns (r: Option<(nat, nat)>)
    ensures r == VdTail(b, 1, start, 1)
  {
    hide Part;
    var val: nat, pos: nat, weight: nat := start, 1, 1;
    while pos < |b| && pos < 10
      invariant 1 <= pos && VdTail(b, pos, val, weight) == VdTail(b, 1, start, 1)
      decreases 10 - pos
    {
      var c := b[pos];
      pos := pos + 1;
      val := val + Part(c, weight);
      if c < 128 {
        return Some((val, pos));
      }
      weight := weight * 128;
    }
    return None;
  }

  lemma DecodeStep(data: Bytes, pos: nat, max: nat)
    requires pos <= |data|
    ensures DecodeFields(data[pos..], max) ==
              if pos == |data| || max == 0 || ParseOne(data[pos..]).None? then []
              else var (f, c) := ParseOne(data[pos..]).value; [f] + DecodeFields(data[pos + c..], max - 1)
  {
  }

  /** The loop of qpack_decode. */
  method DecodeLoop(data: Bytes, start: nat, maxFields: nat) returns (fields: seq<Field>)
    requires start <= |data|
    ensures fields == DecodeFields(data[start..], maxFields)
  {
    hide ParseOne;
    hide DecodeFields;
    var pos := start;
    fields := [];
    ghost var all := DecodeFields(data[start..], maxFields);
    DecodeStep(data, pos, maxFields);
    while pos < |data| && |fields| < maxFields
      invariant pos <= |data| && |fields| <= maxFields
      invariant all == fields + DecodeFields(data[pos..], maxFields - |fields|)
      decreases |data| - pos
    {
      DecodeStep(data, pos, maxFields - |fields|);
      var c := ParseOne(data[pos..]);
      if c.None? {
        return;
      }
      assert fields + ([c.value.0] + DecodeFields(data[pos + c.value.1..], maxFields - |fields| - 1))
          == fields + [c.value.0] + DecodeFields(data[pos + c.value.1..], maxFields - |fields| - 1);
      pos := pos + c.value.1;
      fields := fields + [c.value.0];
    }
    DecodeStep(data, pos, maxFields - |fields|);
  }

  method DecodeBlock(data: Bytes, maxFields: nat) returns (r: Option<seq<Field>>)
    requires |data| < INT_LIMIT
    ensures r == Decode(data, maxFields)
  {
    hide Vd;
    hide DecodeFields;
    if |data| < 2 {
      return None;
    }
    var first := VarintDecode(data, 8);
    if first.None? {
      return None;
    }
    var second := VarintDecode(data[first.value.1..], 7);
    if second.None? {
      return None;
    }
    var fields := DecodeLoop(data, first.value.1 + second.value.1, maxFields);
    return Some(fields);
  }

  method PutByte(buf: array<Octet>, pos: nat, b: Octet) returns (end: nat)
    requires pos < buf.Length
    modifies buf
    ensures end == pos + 1 && buf[..end] == old(buf[..pos]) + [b] && buf[end..] == old(buf[end..])
  {
    buf[pos] := b;
    end := pos + 1;
  }

  method PutBytes(buf: array<Octet>, pos: nat, bytes: Bytes) returns (end: nat)
    requires pos + |bytes| <= buf.Length
    modifies buf
    ensures end == pos + |bytes| && buf[..end] == old(buf[..pos]) + bytes && buf[end..] == old(buf[end..])
  {
    forall i | 0 <= i < |bytes| {
      buf[pos + i] := bytes[i];
    }
    end := pos + |bytes|;
  }

  /** The bytes of `r`, seven bits at a time. */
  method PutCont(buf: array<Octet>, pos: nat, rest: nat) returns (end: nat)
    requires pos + |Cont(rest)| <= buf.Length
    modifies buf
    ensures end == pos + |Cont(rest)| && buf[..end] == old(buf[..pos]) + Cont(rest) && buf[end..] == old(buf[end..])
  {
    ghost var total := pos + |Cont(rest)|;
    var r := rest;
    end := pos;
    while r >= 128
      invariant pos <= end && end + |Cont(r)| == total
      invariant buf[..end] + Cont(r) == old(buf[..pos]) + Cont(rest)
      invariant buf[total..] == old(buf[total..])
      decreases r
    {
      ghost var before := buf[..end];
      end := PutByte(buf, end, r % 128 + 128);
      assert before + ([r % 128 + 128] + Cont(r / 128)) == before + [r % 128 + 128] + Cont(r / 128);
      r := r / 128;
    }
    end := PutByte(buf, end, r);
  }

  method PutNameLength(buf: array<Octet>, pos: nat, n: nat) returns (end: nat)
    requires pos + |NameLength(n)| <= buf.Length
    modifies buf
    ensures end == pos + |NameLength(n)| && buf[..end] == old(buf[..pos]) + NameLength(n)
  {
    hide Cont;
    if n < 7 {
      end := PutByte(buf, pos, 0x20 + n);
    } else {
      end := PutByte(buf, pos, 0x27);
      end := PutCont(buf, end, n - 7);
    }
  }

  method PutValueLength(buf: array<Octet>, pos: nat, n: nat) returns (end: nat)
    requires pos + |ValueLength(n)| <= buf.Length
    modifies buf
    ensures end == pos + |ValueLength(n)| && buf[..end] == old(buf[..pos]) + ValueLength(n)
  {
    hide Cont;
    if n < 128 {
      end := PutByte(buf, pos, n);
    } else {
      end := PutByte(buf, pos, n % 128 + 128);
      end := PutCont(buf, end, n / 128);
    }
  }

  /** qpack_write_literal_i: `Literal` behind what the buffer held. */
  method WriteLiteral(buf: array<Octet>, pos: nat, name: Bytes, val: Bytes) returns (end: nat)
    requires pos + |Literal(name, val)| <= buf.Length
    modifies buf
    ensures end == pos + |Literal(name, val)| && buf[..end] == old(buf[..pos]) + Literal(name, val)
  {
    hide NameLength;
    hide ValueLength;
    end := PutNameLength(buf, pos, |name|);
    end := PutBytes(buf, end, name);
    end := PutValueLength(buf, end, |val|);
    end := PutBytes(buf, end, val);
    ghost var front := old(buf[..pos]);
    assert front + NameLength(|name|) + name + ValueLength(|val|) + val
        == front + (NameLength(|name|) + name + (ValueLength(|val|) + val));
  }
}
