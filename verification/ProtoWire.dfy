/** The hand-written reader of the protobuf wire format (Protocol Buffers "Encoding"
    guide, sections "Base 128 Varints" and "Message Structure"): varints, the
    structural scan, and the harvest of text leaves. */
module ProtoWire {
  import opened Sequences
  import opened Words

  type Byte = b: int | 0 <= b < 256
  type Bytes = seq<Byte>

  const MAX_VARINT: nat := 10
  const MIN_LEAF: nat := 3
  const MAX_DEPTH: nat := 24

  // --- varints ---

  function Pow128(n: nat): nat {
    if n == 0 then 1 else 128 * Pow128(n - 1)
  }

  /** The groups of seven bits, least significant first. */
  function Groups(t: Bytes): nat {
    if t == [] then 0 else t[0] % 128 + 128 * Groups(t[1..])
  }

  /** One varint: every byte but the last has its top bit set, and there are at most ten. */
  predicate IsVarint(t: Bytes) {
    && 1 <= |t| <= MAX_VARINT && t[|t| - 1] < 128
    && (forall i :: 0 <= i < |t| - 1 ==> t[i] >= 128)
  }

  /** Its value, cut to 64 bits. */
  function Value(t: Bytes): nat {
    Groups(t) % TWO64
  }

  function VarintEnd(buf: Bytes, i: nat): nat
    decreases |buf| - i
  {
    if i >= |buf| || i >= MAX_VARINT then 0
    else if buf[i] < 128 then i + 1
    else VarintEnd(buf, i + 1)
  }

  /** Value and length of the varint at the head, (0, 0) if there is none. */
  function Varint(buf: Bytes): (r: (nat, nat))
    ensures r.1 <= |buf|
  {
    var n := VarintEnd(buf, 0);
    VarintEndBound(buf, 0);
    if n == 0 then (0, 0) else (Value(buf[..n]), n)
  }

  lemma {:induction false} VarintEndBound(buf: Bytes, i: nat)
    ensures VarintEnd(buf, i) <= |buf| && VarintEnd(buf, i) <= MAX_VARINT
    ensures VarintEnd(buf, i) != 0 ==> i < VarintEnd(buf, i)
    decreases |buf| - i
  {
    if i < |buf| && i < MAX_VARINT && buf[i] >= 128 {
      VarintEndBound(buf, i + 1);
    }
  }

  lemma {:induction false} TopBits(buf: Bytes, n: nat)
    requires n <= |buf| && IsVarint(buf[..n])
    ensures 0 < n <= MAX_VARINT && buf[n - 1] < 128 && forall j :: 0 <= j < n - 1 ==> buf[j] >= 128
  {
    assert forall j :: 0 <= j < n ==> buf[..n][j] == buf[j];
  }

  /** The length found is the length of the one varint the buffer starts with. */
  lemma {:induction false} VarintEndIs(buf: Bytes, i: nat)
    requires i <= |buf| && forall j :: 0 <= j < i ==> buf[j] >= 128
    ensures VarintEnd(buf, i) != 0 ==> VarintEnd(buf, i) <= |buf| && IsVarint(buf[..VarintEnd(buf, i)])
    ensures forall n: nat :: n <= |buf| && IsVarint(buf[..n]) ==> VarintEnd(buf, i) == n
    decreases |buf| - i
  {
    forall n: nat | n <= |buf| && IsVarint(buf[..n]) ensures n > i && (n > i + 1 ==> buf[i] >= 128) && (n == i + 1 ==> buf[i] < 128) {
      TopBits(buf, n);
    }
    if i < |buf| && i < MAX_VARINT {
      if buf[i] >= 128 {
        VarintEndIs(buf, i + 1);
      }
    }
  }

  lemma {:induction false} GroupsAppend(t: Bytes, b: Byte)
    ensures Groups(t + [b]) == Groups(t) + (b % 128) * Pow128(|t|)
  {
    if t == [] {
      assert t + [b] == [b] && [b][1..] == [];
    } else {
      GroupsAppend(t[1..], b);
      assert (t + [b])[1..] == t[1..] + [b];
      Distribute(Groups(t[1..]), b % 128, Pow128(|t| - 1));
    }
  }

  lemma {:induction false} Distribute(a: int, b: int, c: int)
    ensures 128 * (a + b * c) == 128 * a + b * (128 * c)
  {
  }

  /** Bitwise or. */
  function Or(a: nat, b: nat): nat {
    if a == 0 then b
    else if b == 0 then a
    else 2 * Or(a / 2, b / 2) + if a % 2 == 1 || b % 2 == 1 then 1 else 0
  }

  /** A left shift of a 64-bit word. */
  function ShiftLeft(x: nat, n: nat): nat {
    x * Pow2(n) % TWO64
  }

  /** Bits that do not overlap: "or" adds. */
  lemma {:induction false} OrIsPlus(a: nat, b: nat, n: nat)
    requires a < Pow2(n)
    ensures Or(a, b * Pow2(n)) == a + b * Pow2(n)
    decreases n
  {
    if n > 0 && a > 0 && b > 0 {
      var half := b * Pow2(n - 1);
      assert b * Pow2(n) == 2 * half;
      OrIsPlus(a / 2, b, n - 1);
    }
  }

  lemma {:induction false} SevenBits(n: nat)
    ensures Pow128(n) == Pow2(7 * n)
  {
    if n > 0 {
      SevenBits(n - 1);
      assert Pow2(7) == 128 by { assert Pow2(4) == 16; }
      Pow2Adds(7, 7 * (n - 1));
    }
  }

  lemma {:induction false} GroupsFit(t: Bytes)
    ensures Groups(t) < Pow128(|t|)
  {
    if t != [] {
      GroupsFit(t[1..]);
    }
  }

  lemma {:induction false} Decompose(x: nat, w: nat, k: nat)
    requires w > 0 && k > 0
    ensures x * w == (x / k) * (w * k) + (x % k) * w
    ensures w * k > 0 && (x % k) * w + w <= w * k
  {
    var q, r := x / k, x % k;
    assert x == q * k + r;
    assert (q * k + r) * w == q * (w * k) + r * w;
    assert (r + 1) * w <= k * w;
  }

  /** Cutting a multiple of w to w * k. */
  lemma {:induction false} CutMultiple(x: nat, w: nat, k: nat)
    requires w > 0 && k > 0
    ensures w * k > 0 && x * w % (w * k) == (x % k) * w
  {
    Decompose(x, w, k);
    Remainder(x * w, w * k, x / k, (x % k) * w);
  }

  /** One more byte or-ed in at its place is one more group of the value; what a tenth
      byte carries past bit 63 is lost. */
  lemma {:induction false} GroupOred(t: Bytes, b: Byte)
    requires |t| < MAX_VARINT
    ensures Or(Value(t), ShiftLeft(b % 128, 7 * |t|)) == Value(t + [b])
  {
    var x, w, k := b % 128, Pow2(7 * |t|), Pow2(64 - 7 * |t|);
    GroupsAppend(t, b);
    GroupsFit(t);
    SevenBits(|t|);
    WordSize(64);
    Pow2Adds(7 * |t|, 64 - 7 * |t|);
    CutMultiple(x, w, k);
    assert ShiftLeft(x, 7 * |t|) == (x % k) * w;
    OrIsPlus(Groups(t), x % k, 7 * |t|);
    SumFits(Groups(t), x, w, k);
  }

  lemma {:induction false} SumFits(a: nat, x: nat, w: nat, k: nat)
    requires w > 0 && k > 0 && a < w
    ensures w * k > 0 && a % (w * k) == a && (a + x * w) % (w * k) == a + (x % k) * w
  {
    Decompose(x, w, k);
    Remainder(a, w * k, 0, a);
    Remainder(a + x * w, w * k, x / k, a + (x % k) * w);
  }

  /** readVarint */
  method ReadVarint(buf: Bytes) returns (v: nat, n: nat)
    ensures (v, n) == Varint(buf)
  {
    v := 0;
    var shift: nat := 0;
    var i: nat := 0;
    VarintEndBound(buf, 0);
    assert buf[..0] == [];
    while i < |buf|
      invariant 0 <= i <= |buf| && i <= MAX_VARINT
      invariant v == Value(buf[..i]) && shift == 7 * i
      invariant VarintEnd(buf, 0) == VarintEnd(buf, i)
    {
      var b := buf[i];
      if i >= MAX_VARINT {
        return 0, 0;
      }
      GroupOred(buf[..i], b);
      TakeOneMore(buf, i);
      v := Or(v, ShiftLeft(b % 128, shift));
      if b < 128 {
        return v, i + 1;
      }
      shift := shift + 7;
      i := i + 1;
    }
    return 0, 0;
  }

  /** The base-128 encoding of a number. */
  function EncodeVarint(v: nat): Bytes {
    if v < 128 then [v] else [v % 128 + 128] + EncodeVarint(v / 128)
  }

  lemma {:induction false} EncodingIs(v: nat, room: nat)
    requires v < Pow128(room) && room >= 1
    ensures Groups(EncodeVarint(v)) == v && 1 <= |EncodeVarint(v)| <= room
    ensures forall i :: 0 <= i < |EncodeVarint(v)| - 1 ==> EncodeVarint(v)[i] >= 128
    ensures EncodeVarint(v)[|EncodeVarint(v)| - 1] < 128
    decreases v
  {
    if v < 128 {
      assert EncodeVarint(v)[1..] == [];
    } else {
      EncodingIs(v / 128, room - 1);
      ConsBytes(v % 128 + 128, EncodeVarint(v / 128));
    }
  }

  lemma {:induction false} ConsBytes(b: Byte, t: Bytes)
    requires t != []
    ensures Groups([b] + t) == b % 128 + 128 * Groups(t)
    ensures ([b] + t)[|[b] + t| - 1] == t[|t| - 1]
    ensures forall i :: 0 < i < |[b] + t| ==> ([b] + t)[i] == t[i - 1]
  {
    assert ([b] + t)[1..] == t;
  }

  lemma {:induction false} TenGroups()
    ensures TWO64 <= Pow128(10)
  {
    assert Pow128(4) == 268435456;
    assert Pow128(7) == 268435456 * 2097152;
    assert Pow128(10) == 268435456 * 2097152 * 2097152;
  }

  /** Reading undoes encoding, for every 64-bit value and whatever follows it. */
  lemma {:induction false} VarintRoundTrip(v: nat, rest: Bytes)
    requires v < TWO64
    ensures Varint(EncodeVarint(v) + rest) == (v, |EncodeVarint(v)|)
  {
    var t := EncodeVarint(v);
    TenGroups();
    EncodingIs(v, 10);
    assert IsVarint(t) && Value(t) == v;
    hide EncodeVarint, Varint, IsVarint, Value;
    ReadsVarint(t, rest);
  }

  /** A varint is read to its end, whatever follows. */
  lemma {:induction false} ReadsVarint(t: Bytes, rest: Bytes)
    requires IsVarint(t)
    ensures Varint(t + rest) == (Value(t), |t|)
  {
    assert (t + rest)[..|t|] == t;
    VarintEndIs(t + rest, 0);
  }

  /** Reading finds nothing exactly when no varint starts the buffer. */
  lemma {:induction false} VarintFound(buf: Bytes)
    ensures Varint(buf).1 != 0 ==> IsVarint(buf[..Varint(buf).1]) && Varint(buf).0 == Value(buf[..Varint(buf).1])
    ensures Varint(buf).1 == 0 <==> forall n: nat :: n <= |buf| ==> !IsVarint(buf[..n])
  {
    VarintEndIs(buf, 0);
    VarintEndBound(buf, 0);
  }

  // --- fields ---

  const VARINT: nat := 0
  const FIXED64: nat := 1
  const BYTES: nat := 2
  const FIXED32: nat := 5

  /** What follows a tag of this wire type. Groups and unknown types have no body. */
  ghost predicate IsBody(wire: nat, body: Bytes) {
    match wire
    case 0 => IsVarint(body)
    case 1 => |body| == 8
    case 2 => exists n: nat :: n <= |body| && IsVarint(body[..n]) && Value(body[..n]) == |body| - n
    case 5 => |body| == 4
    case _ => false
  }

  /** One field: a tag with a field number other than 0, and its body. */
  ghost predicate IsField(f: Bytes) {
    exists n: nat :: n <= |f| && IsVarint(f[..n]) && Value(f[..n]) / 8 != 0 && IsBody(Value(f[..n]) % 8, f[n..])
  }

  /** The head of a buffer as a field: number, wire type, and where its data lies. */
  datatype Field = Malformed | Field(number: nat, wire: nat, start: nat, end: nat)

  function ReadField(buf: Bytes): (f: Field)
    ensures f.Field? ==> 0 < f.start <= f.end <= |buf| && f.number > 0
  {
    var (tag, n) := Varint(buf);
    if n == 0 || tag / 8 == 0 then Malformed
    else
      var rest := buf[n..];
      match tag % 8
      case 0 =>
        var (_, m) := Varint(rest);
        if m == 0 then Malformed else Field(tag / 8, VARINT, n, n + m)
      case 1 => if 8 > |rest| then Malformed else Field(tag / 8, FIXED64, n, n + 8)
      case 2 =>
        var (len, m) := Varint(rest);
        if m == 0 || len > |rest| - m then Malformed else Field(tag / 8, BYTES, n + m, n + m + len)
      case 5 => if 4 > |rest| then Malformed else Field(tag / 8, FIXED32, n, n + 4)
      case _ => Malformed
  }

  lemma {:induction false} VarintPrefix(buf: Bytes, n: nat)
    requires n <= |buf| && IsVarint(buf[..n])
    ensures Varint(buf) == (Value(buf[..n]), n)
  {
    assert buf == buf[..n] + buf[n..];
    ReadsVarint(buf[..n], buf[n..]);
  }

  /** A field that is read is a well-formed one. */
  lemma {:induction false} ReadIsField(buf: Bytes)
    requires ReadField(buf).Field?
    ensures IsField(buf[..ReadField(buf).end])
  {
    var end := ReadField(buf).end;
    var (tag, n) := Varint(buf);
    var f, rest := buf[..end], buf[n..];
    VarintFound(buf);
    VarintFound(rest);
    TakeAndDrop(buf, n, end);
    if tag % 8 == 2 {
      var m := Varint(rest).1;
      TakeAndDrop(rest, m, end - n);
      SizedBody(f[n..], m);
    }
  }

  lemma {:induction false} TakeAndDrop(buf: Bytes, n: nat, end: nat)
    requires n <= end <= |buf|
    ensures buf[..end][..n] == buf[..n] && buf[..end][n..] == buf[n..][..end - n]
  {
  }

  lemma {:induction false} SizedBody(body: Bytes, m: nat)
    requires m <= |body| && IsVarint(body[..m]) && Value(body[..m]) == |body| - m
    ensures IsBody(BYTES, body)
  {
  }

  lemma {:induction false} SizedIsRead(body: Bytes, rest: Bytes)
    requires IsBody(BYTES, body)
    ensures var (len, m) := Varint(body + rest); m != 0 && m + len == |body|
  {
    var m: nat :| m <= |body| && IsVarint(body[..m]) && Value(body[..m]) == |body| - m;
    assert (body + rest)[..m] == body[..m];
    VarintPrefix(body + rest, m);
  }

  /** A well-formed field is read, to its end, whatever follows. */
  lemma {:induction false} FieldIsRead(f: Bytes, rest: Bytes)
    requires IsField(f)
    ensures ReadField(f + rest).Field? && ReadField(f + rest).end == |f|
  {
    var n: nat :| n <= |f| && IsVarint(f[..n]) && Value(f[..n]) / 8 != 0 && IsBody(Value(f[..n]) % 8, f[n..]);
    TagIsRead(f, rest, n);
    if Value(f[..n]) % 8 == 0 {
      ReadsVarint(f[n..], rest);
    } else if Value(f[..n]) % 8 == 2 {
      SizedIsRead(f[n..], rest);
    }
  }

  lemma {:induction false} TagIsRead(f: Bytes, rest: Bytes, n: nat)
    requires n <= |f| && IsVarint(f[..n])
    ensures Varint(f + rest) == (Value(f[..n]), n) && (f + rest)[n..] == f[n..] + rest
  {
    assert (f + rest)[..n] == f[..n];
    VarintPrefix(f + rest, n);
  }

  /** Reading a field does not look past it. */
  lemma {:induction false} ReadStays(a: Bytes, b: Bytes)
    requires ReadField(a).Field?
    ensures ReadField(a + b) == ReadField(a)
  {
    var n := Varint(a).1;
    VarintFound(a);
    VarintStays(a, b);
    assert (a + b)[n..] == a[n..] + b;
    if Varint(a[n..]).1 != 0 {
      VarintStays(a[n..], b);
    }
  }

  lemma {:induction false} VarintStays(a: Bytes, b: Bytes)
    requires Varint(a).1 != 0
    ensures Varint(a + b) == Varint(a)
  {
    var n := Varint(a).1;
    VarintFound(a);
    assert (a + b)[..n] == a[..n];
    VarintPrefix(a + b, n);
  }

  // --- the structural scan ---

  function WellFormed(buf: Bytes): bool
    decreases |buf|
  {
    if buf == [] then true
    else
      match ReadField(buf)
      case Malformed => false
      case Field(_, _, _, end) => WellFormed(buf[end..])
  }

  predicate IsMessage(buf: Bytes) {
    buf != [] && WellFormed(buf)
  }

  function Concat(fields: seq<Bytes>): Bytes {
    if fields == [] then [] else fields[0] + Concat(fields[1..])
  }

  ghost predicate AllFields(fields: seq<Bytes>) {
    forall i :: 0 <= i < |fields| ==> IsField(fields[i])
  }

  lemma {:induction false} FieldsAreWellFormed(fields: seq<Bytes>)
    requires AllFields(fields)
    ensures WellFormed(Concat(fields))
  {
    if fields != [] {
      var rest := Concat(fields[1..]);
      assert forall i :: 0 <= i < |fields[1..]| ==> fields[1..][i] == fields[i + 1];
      FieldsAreWellFormed(fields[1..]);
      FieldIsRead(fields[0], rest);
      assert (fields[0] + rest)[|fields[0]|..] == rest;
    }
  }

  lemma {:induction false} SplitFields(buf: Bytes) returns (fields: seq<Bytes>)
    requires WellFormed(buf)
    ensures AllFields(fields) && Concat(fields) == buf
    decreases |buf|
  {
    if buf == [] {
      fields := [];
    } else {
      var end := ReadField(buf).end;
      ReadIsField(buf);
      var rest := SplitFields(buf[end..]);
      fields := [buf[..end]] + rest;
      assert fields[1..] == rest;
    }
  }

  /** The scan accepts exactly the non-empty sequences of well-formed fields. */
  lemma {:induction false} MessagesAreFieldSequences(buf: Bytes)
    ensures IsMessage(buf) <==>
            exists fields: seq<Bytes> {:trigger AllFields(fields)} :: fields != [] && AllFields(fields) && Concat(fields) == buf
  {
    if IsMessage(buf) {
      var fields := SplitFields(buf);
      assert fields != [];
    }
    if fields: seq<Bytes> :| fields != [] && AllFields(fields) && Concat(fields) == buf {
      FieldsAreWellFormed(fields);
      FieldNotEmpty(fields[0]);
      assert buf == fields[0] + Concat(fields[1..]);
    }
  }

  lemma {:induction false} FieldNotEmpty(f: Bytes)
    requires IsField(f)
    ensures f != []
  {
  }

  /** The rest of the buffer from i scans. */
  ghost predicate ScansFrom(buf: Bytes, i: nat)
    requires i <= |buf|
  {
    WellFormed(buf[i..])
  }

  lemma {:induction false} ScanEnds(buf: Bytes)
    ensures ScansFrom(buf, |buf|)
  {
    NothingLeft(buf, |buf|);
  }

  lemma {:induction false} FieldStep(buf: Bytes, i: nat)
    requires i < |buf|
    ensures match ReadField(buf[i..])
            case Malformed => !ScansFrom(buf, i)
            case Field(_, _, _, end) => ScansFrom(buf, i) <==> ScansFrom(buf, i + end)
  {
    if ReadField(buf[i..]).Field? {
      RestOfRest(buf, i, ReadField(buf[i..]).end);
    }
  }

  lemma {:induction false} RestOfRest(buf: Bytes, i: nat, n: nat)
    requires i + n <= |buf|
    ensures buf[i..][n..] == buf[i + n..]
  {
  }

  lemma {:induction false} NothingLeft(buf: Bytes, i: nat)
    requires i == |buf|
    ensures buf[i..] == []
  {
  }

  /** The switch both loops share: one field off the head of the buffer. */
  method ParseField(buf: Bytes) returns (f: Field)
    ensures f == ReadField(buf)
  {
    var tag, i := ReadVarint(buf);
    if i == 0 || tag / 8 == 0 {
      return Malformed;
    }
    match tag % 8 {
      case 0 =>
        var _, m := ReadVarint(buf[i..]);
        return if m == 0 then Malformed else Field(tag / 8, VARINT, i, i + m);
      case 1 =>
        return if i + 8 > |buf| then Malformed else Field(tag / 8, FIXED64, i, i + 8);
      case 5 =>
        return if i + 4 > |buf| then Malformed else Field(tag / 8, FIXED32, i, i + 4);
      case 2 =>
        var length, m := ReadVarint(buf[i..]);
        return if m == 0 || length > |buf| - i - m then Malformed else Field(tag / 8, BYTES, i + m, i + m + length);
      case _ =>
        return Malformed;
    }
  }

  /** scanMessage */
  method ScanMessage(buf: Bytes) returns (ok: bool)
    ensures ok <==> IsMessage(buf)
  {
    var i: nat, fields: nat := 0, 0;
    assert IsMessage(buf) <==> buf != [] && ScansFrom(buf, 0) by {
      assert buf[0..] == buf;
    }
    hide *;
    while i < |buf|
      invariant i <= |buf|
      invariant IsMessage(buf) <==> buf != [] && ScansFrom(buf, i)
      invariant fields > 0 <==> i > 0
    {
      var f := ParseField(buf[i..]);
      FieldStep(buf, i);
      if f.Malformed? {
        return false;
      }
      i := i + f.end;
      fields := fields + 1;
    }
    ScanEnds(buf);
    ok := i == |buf| && fields > 0;
  }

  // --- text ---

  predicate Between(b: Byte, lo: int, hi: int) {
    lo <= b <= hi
  }

  /** Length of the UTF-8 encoded rune at the head, 0 if there is no valid one. */
  function RuneLen(buf: Bytes): (n: nat)
    ensures n <= |buf| && n <= 4
  {
    if buf == [] then 0
    else if buf[0] < 0x80 then 1
    else if Between(buf[0], 0xC2, 0xDF) then
      if |buf| >= 2 && Between(buf[1], 0x80, 0xBF) then 2 else 0
    else if Between(buf[0], 0xE0, 0xEF) then
      if |buf| >= 3 && Between(buf[1], if buf[0] == 0xE0 then 0xA0 else 0x80, if buf[0] == 0xED then 0x9F else 0xBF) &&
         Between(buf[2], 0x80, 0xBF) then 3 else 0
    else if Between(buf[0], 0xF0, 0xF4) then
      if |buf| >= 4 && Between(buf[1], if buf[0] == 0xF0 then 0x90 else 0x80, if buf[0] == 0xF4 then 0x8F else 0xBF) &&
         Between(buf[2], 0x80, 0xBF) && Between(buf[3], 0x80, 0xBF) then 4 else 0
    else 0
  }

  /** A rune is printable unless it is a control byte other than newline, tab and return. */
  predicate Printable(first: Byte) {
    first == 0x0A || first == 0x09 || first == 0x0D || first >= 0x20
  }

  datatype Runes = Invalid | Runes(total: nat, printable: nat)

  function CountRunes(buf: Bytes): Runes
    decreases |buf|
  {
    if buf == [] then Runes(0, 0)
    else if RuneLen(buf) == 0 then Invalid
    else
      match CountRunes(buf[RuneLen(buf)..])
      case Invalid => Invalid
      case Runes(total, printable) => Runes(total + 1, printable + if Printable(buf[0]) then 1 else 0)
  }

  /** asString: long enough, valid, and nine runes in ten printable. */
  predicate IsText(buf: Bytes) {
    |buf| >= MIN_LEAF &&
    match CountRunes(buf)
    case Invalid => false
    case Runes(total, printable) => total != 0 && printable * 10 >= total * 9
  }

  lemma {:induction false} RunesConcat(a: Bytes, b: Bytes)
    requires CountRunes(a).Runes?
    ensures CountRunes(a + b) ==
            match CountRunes(b)
            case Invalid => Invalid
            case Runes(total, printable) => Runes(CountRunes(a).total + total, CountRunes(a).printable + printable)
    decreases |a|
  {
    if a == [] {
      assert a + b == b;
    } else {
      var n := RuneLen(a);
      RunesConcat(a[n..], b);
      RuneStays(a, b);
    }
  }

  lemma {:induction false} RuneStays(a: Bytes, b: Bytes)
    requires RuneLen(a) != 0
    ensures RuneLen(a + b) == RuneLen(a) && (a + b)[RuneLen(a)..] == a[RuneLen(a)..] + b && (a + b)[0] == a[0]
  {
  }

  /** Text followed by text is text. */
  lemma {:induction false} TextConcat(a: Bytes, b: Bytes)
    requires IsText(a) && IsText(b)
    ensures IsText(a + b)
  {
    RunesConcat(a, b);
  }

  /** The count of a whole whose first part has been counted. */
  function Counted(total: nat, printable: nat, rest: Runes): Runes {
    match rest
    case Invalid => Invalid
    case Runes(t, p) => Runes(total + t, printable + p)
  }

  lemma {:induction false} CountOne(sub: Bytes, i: nat, total: nat, printable: nat)
    requires i < |sub|
    ensures var n := RuneLen(sub[i..]);
            && i + n <= |sub|
            && Counted(total, printable, CountRunes(sub[i..])) ==
               if n == 0 then Invalid
               else Counted(total + 1, printable + if Printable(sub[i]) then 1 else 0, CountRunes(sub[i + n..]))
  {
    var n := RuneLen(sub[i..]);
    RestOfRest(sub, i, n);
    hide RuneLen;
    assert sub[i..][0] == sub[i];
  }

  /** The two checks and the count, rune by rune. */
  method AsString(sub: Bytes) returns (ok: bool)
    ensures ok <==> IsText(sub)
  {
    if |sub| < MIN_LEAF {
      return false;
    }
    var printable, total: nat, i: nat := 0, 0, 0;
    assert sub[0..] == sub;
    hide RuneLen, CountRunes;
    while i < |sub|
      invariant i <= |sub|
      invariant CountRunes(sub) == Counted(total, printable, CountRunes(sub[i..]))
    {
      var n := RuneLen(sub[i..]);
      CountOne(sub, i, total, printable);
      if n == 0 {
        return false;
      }
      if Printable(sub[i]) {
        printable := printable + 1;
      }
      total := total + 1;
      i := i + n;
    }
    NothingLeft(sub, i);
    NothingCounted();
    return total != 0 && printable * 10 >= total * 9;
  }

  lemma {:induction false} NothingCounted()
    ensures CountRunes([]) == Runes(0, 0)
  {
  }

  // --- leaves ---

  datatype Leaf = Leaf(path: seq<nat>, value: Bytes)

  /** What walking a message body harvests, up to its first malformed field. */
  function Leaves(buf: Bytes, path: seq<nat>, depth: nat): seq<Leaf>
    decreases |buf|, 0
  {
    if depth > MAX_DEPTH || buf == [] then []
    else
      match ReadField(buf)
      case Malformed => []
      case Field(number, wire, start, end) =>
        FieldLeaves(number, wire, buf[start..end], path, depth) + Leaves(buf[end..], path, depth)
  }

  /** A length-delimited field is a message to go into, or a text leaf, or nothing. */
  function FieldLeaves(number: nat, wire: nat, data: Bytes, path: seq<nat>, depth: nat): seq<Leaf>
    decreases |data|, 1
  {
    if wire != BYTES then []
    else if IsMessage(data) then Leaves(data, path + [number], depth + 1)
    else if IsText(data) then [Leaf(path + [number], data)]
    else []
  }

  /** The same with the leaves added to those already there. */
  ghost function Onto(found: seq<Leaf>, buf: Bytes, path: seq<nat>, depth: nat): seq<Leaf>
    decreases |buf|
  {
    if depth > MAX_DEPTH || buf == [] then found
    else
      match ReadField(buf)
      case Malformed => found
      case Field(number, wire, start, end) =>
        Onto(found + FieldLeaves(number, wire, buf[start..end], path, depth), buf[end..], path, depth)
  }

  lemma {:induction false} OntoAdds(found: seq<Leaf>, buf: Bytes, path: seq<nat>, depth: nat)
    ensures Onto(found, buf, path, depth) == found + Leaves(buf, path, depth)
    decreases |buf|
  {
    Regroup(found, [], []);
    if depth <= MAX_DEPTH && buf != [] && ReadField(buf).Field? {
      var f := ReadField(buf);
      var own := FieldLeaves(f.number, f.wire, buf[f.start..f.end], path, depth);
      OntoAdds(found + own, buf[f.end..], path, depth);
      Regroup(found, own, Leaves(buf[f.end..], path, depth));
    }
  }

  lemma {:induction false} OntoStep(found: seq<Leaf>, buf: Bytes, path: seq<nat>, depth: nat, f: Field, longer: seq<Leaf>)
    requires buf != [] && depth <= MAX_DEPTH && f == ReadField(buf)
    requires f.Field? ==> longer == found + FieldLeaves(f.number, f.wire, buf[f.start..f.end], path, depth)
    ensures Onto(found, buf, path, depth) == if f.Malformed? then found else Onto(longer, buf[f.end..], path, depth)
  {
  }

  lemma {:induction false} SliceOfRest(buf: Bytes, i: nat, m: nat, n: nat)
    requires m <= n && i + n <= |buf|
    ensures buf[i..][m..n] == buf[i + m..i + n]
  {
  }

  /** The slice of leaves a walk appends to. */
  class Harvest {
    var leaves: seq<Leaf>

    constructor ()
      ensures leaves == []
    {
      leaves := [];
    }
  }

  method Walk(buf: Bytes, path: seq<nat>, depth: nat, out: Harvest)
    modifies out
    ensures out.leaves == old(out.leaves) + Leaves(buf, path, depth)
    decreases |buf|, 2
  {
    OntoAdds(out.leaves, buf, path, depth);
    if depth > MAX_DEPTH {
      return;
    }
    ghost var all := Onto(out.leaves, buf, path, depth);
    assert buf[0..] == buf;
    var i: nat := 0;
    while i < |buf|
      invariant i <= |buf|
      invariant Onto(out.leaves, buf[i..], path, depth) == all
    {
      var next := WalkNext(buf, i, path, depth, out);
      if next == i {
        return;
      }
      i := next;
    }
  }

  /** One field of the body at i: where the next one starts, or i again if this one is
      malformed. */
  method WalkNext(buf: Bytes, i: nat, path: seq<nat>, depth: nat, out: Harvest) returns (next: nat)
    requires i < |buf| && depth <= MAX_DEPTH
    modifies out
    ensures i <= next <= |buf|
    ensures if next == i then out.leaves == old(out.leaves) == Onto(old(out.leaves), buf[i..], path, depth)
            else Onto(out.leaves, buf[next..], path, depth) == Onto(old(out.leaves), buf[i..], path, depth)
    decreases |buf|, 1
  {
    hide FieldLeaves, Leaves, Onto, ReadField;
    ghost var found, rest := out.leaves, buf[i..];
    var f := ParseField(buf[i..]);
    if f.Malformed? {
      OntoStep(found, rest, path, depth, f, []);
      return i;
    }
    SliceOfRest(buf, i, f.start, f.end);
    RestOfRest(buf, i, f.end);
    WalkField(f.number, f.wire, buf[i + f.start..i + f.end], path, depth, out);
    OntoStep(found, rest, path, depth, f, out.leaves);
    return i + f.end;
  }

  method WalkField(number: nat, wire: nat, data: Bytes, path: seq<nat>, depth: nat, out: Harvest)
    modifies out
    ensures out.leaves == old(out.leaves) + FieldLeaves(number, wire, data, path, depth)
    decreases |data|, 3
  {
    if wire != BYTES {
      return;
    }
    var child := path + [number];
    var message := |data| != 0;
    if message {
      message := ScanMessage(data);
    }
    if message {
      Walk(data, child, depth + 1, out);
    } else {
      var text := AsString(data);
      if text {
        out.leaves := out.leaves + [Leaf(child, data)];
      }
    }
  }

  method DecodeStrings(buf: Bytes) returns (leaves: seq<Leaf>)
    ensures leaves == Leaves(buf, [], 0)
    ensures exists at :: Lists(buf, [], 0, leaves, at)
  {
    var out := new Harvest();
    Walk(buf, [], 0, out);
    leaves := out.leaves;
    ghost var at := LeavesOccur(buf, [], 0);
  }

  // --- what occurs in a buffer, by its well-formed fields ---

  /** The k-th field of the buffer; there are fields up to the first malformed one. */
  ghost predicate FieldAt(buf: Bytes, k: nat, f: Bytes)
    decreases k
  {
    exists g, rest: Bytes {:trigger IsField(g), g + rest} ::
      IsField(g) && buf == g + rest && if k == 0 then f == g else FieldAt(rest, k - 1, f)
  }

  /** A length-delimited field of this number with this data. */
  ghost predicate IsSized(f: Bytes, number: nat, data: Bytes) {
    exists t, l: Bytes {:trigger IsVarint(t), IsVarint(l)} ::
      && IsVarint(t) && IsVarint(l) && f == t + l + data
      && number > 0 && Value(t) == 8 * number + BYTES && Value(l) == |data|
  }

  /** A non-empty sequence of well-formed fields. */
  ghost predicate IsFieldSequence(buf: Bytes) {
    exists fields: seq<Bytes> {:trigger AllFields(fields)} :: fields != [] && AllFields(fields) && Concat(fields) == buf
  }

  /** The data at an address: the at[0]-th field's, or what is at the rest of the address
      in it, if it is itself a sequence of fields. The path lists the fields' numbers. */
  ghost predicate Leads(buf: Bytes, path: seq<nat>, at: seq<nat>, leaf: Leaf)
    decreases |at|
  {
    at != [] &&
    exists f: Bytes, number: nat, data: Bytes {:trigger FieldAt(buf, at[0], f), IsSized(f, number, data)} ::
      && FieldAt(buf, at[0], f) && IsSized(f, number, data)
      && if |at| == 1 then leaf == Leaf(path + [number], data)
         else IsFieldSequence(data) && Leads(data, path + [number], at[1..], leaf)
  }

  /** A leaf is there: text that is no sequence of fields, within the depth allowed. */
  ghost predicate Occurs(buf: Bytes, path: seq<nat>, depth: nat, at: seq<nat>, leaf: Leaf) {
    depth + |at| <= 25 && Leads(buf, path, at, leaf) && !IsFieldSequence(leaf.value) && IsText(leaf.value)
  }

  /** In the order in which a reader comes across them. */
  predicate Sooner(a: seq<nat>, b: seq<nat>) {
    b != [] && (a == [] || a[0] < b[0] || (a[0] == b[0] && Sooner(a[1..], b[1..])))
  }

  ghost predicate Listed(leaves: seq<Leaf>, at: seq<seq<nat>>, a: seq<nat>, leaf: Leaf) {
    exists i :: 0 <= i < |at| == |leaves| && at[i] == a && leaves[i] == leaf
  }

  ghost predicate InSequence(at: seq<seq<nat>>) {
    forall i, j :: 0 <= i < j < |at| ==> Sooner(at[i], at[j])
  }

  /** These leaves, at these addresses, are all there are, in order and each once. */
  ghost predicate Lists(buf: Bytes, path: seq<nat>, depth: nat, leaves: seq<Leaf>, at: seq<seq<nat>>) {
    && |at| == |leaves| && InSequence(at)
    && (forall i :: 0 <= i < |at| ==> Occurs(buf, path, depth, at[i], leaves[i]))
    && (forall a, leaf {:trigger Occurs(buf, path, depth, a, leaf)} :: Occurs(buf, path, depth, a, leaf) ==>
          Listed(leaves, at, a, leaf))
  }

  lemma {:induction false} NoFieldAt(buf: Bytes, k: nat, f: Bytes)
    requires ReadField(buf).Malformed?
    ensures !FieldAt(buf, k, f)
  {
    if FieldAt(buf, k, f) {
      var g, rest: Bytes :| IsField(g) && buf == g + rest;
      FieldIsRead(g, rest);
      assert false;
    }
  }

  lemma {:induction false} HeadField(buf: Bytes, k: nat, f: Bytes)
    requires ReadField(buf).Field?
    ensures var end := ReadField(buf).end; FieldAt(buf, k, f) <==> if k == 0 then f == buf[..end] else FieldAt(buf[end..], k - 1, f)
  {
    var end := ReadField(buf).end;
    ReadIsField(buf);
    hide ReadField, IsField;
    assert buf == buf[..end] + buf[end..];
    if FieldAt(buf, k, f) {
      var g, rest: Bytes :| IsField(g) && buf == g + rest && if k == 0 then f == g else FieldAt(rest, k - 1, f);
      FieldIsRead(g, rest);
      assert g == buf[..end] && rest == buf[end..];
    }
  }

  /** Of the field at the head: whether it is length-delimited, its number and its data. */
  lemma {:induction false} HeadSized(buf: Bytes, number: nat, data: Bytes)
    requires ReadField(buf).Field?
    ensures var f := ReadField(buf);
            IsSized(buf[..f.end], number, data) <==> f.wire == BYTES && number == f.number && data == buf[f.start..f.end]
  {
    var f := ReadField(buf);
    if IsSized(buf[..f.end], number, data) {
      var t, l: Bytes :| IsVarint(t) && IsVarint(l) && buf[..f.end] == t + l + data
                         && number > 0 && Value(t) == 8 * number + BYTES && Value(l) == |data|;
      SizedHead(buf, number, data, t, l);
    }
    if f.wire == BYTES && number == f.number && data == buf[f.start..f.end] {
      HeadParts(buf);
    }
  }

  lemma {:induction false} SizedHead(buf: Bytes, number: nat, data: Bytes, t: Bytes, l: Bytes)
    requires ReadField(buf).Field? && buf[..ReadField(buf).end] == t + l + data
    requires IsVarint(t) && IsVarint(l) && number > 0 && Value(t) == 8 * number + BYTES && Value(l) == |data|
    ensures var f := ReadField(buf); f.wire == BYTES && number == f.number && data == buf[f.start..f.end]
  {
    var rest := buf[ReadField(buf).end..];
    assert buf == t + (l + (data + rest)) by { assert buf == buf[..ReadField(buf).end] + rest; }
    ReadsVarint(t, l + (data + rest));
    ReadsVarint(l, data + rest);
    assert buf[|t|..] == l + (data + rest);
    hide Varint, IsVarint, Value;
    assert Value(t) / 8 == number && Value(t) % 8 == BYTES;
    assert buf[|t| + |l|..|t| + |l| + |data|] == data;
  }

  lemma {:induction false} HeadParts(buf: Bytes)
    requires ReadField(buf).Field? && ReadField(buf).wire == BYTES
    ensures var f := ReadField(buf); IsSized(buf[..f.end], f.number, buf[f.start..f.end])
  {
    var f := ReadField(buf);
    var n := Varint(buf).1;
    VarintFound(buf);
    VarintFound(buf[n..]);
    var t, l, data := buf[..n], buf[n..][..f.start - n], buf[f.start..f.end];
    assert IsVarint(t) && IsVarint(l) && Value(t) == 8 * f.number + BYTES && Value(l) == |data| && f.number > 0;
    hide *;
    assert buf[..f.end] == t + l + data;
    SizedIs(buf[..f.end], f.number, data, t, l);
  }

  lemma {:induction false} SizedIs(f: Bytes, number: nat, data: Bytes, t: Bytes, l: Bytes)
    requires IsVarint(t) && IsVarint(l) && f == t + l + data
    requires number > 0 && Value(t) == 8 * number + BYTES && Value(l) == |data|
    ensures IsSized(f, number, data)
  {
    hide IsVarint, Value;
  }

  /** What is at an address, told from the head of the buffer. */
  ghost predicate InHead(number: nat, wire: nat, data: Bytes, path: seq<nat>, depth: nat, at: seq<nat>, leaf: Leaf) {
    && wire == BYTES && at != []
    && if |at| == 1 then leaf == Leaf(path + [number], data) && !IsMessage(data) && IsText(data)
       else IsMessage(data) && Occurs(data, path + [number], depth + 1, at[1..], leaf)
  }

  lemma {:induction false} OccursFrom(buf: Bytes, path: seq<nat>, depth: nat, at: seq<nat>, leaf: Leaf)
    requires depth <= MAX_DEPTH && ReadField(buf).Field? && at != []
    ensures var f := ReadField(buf);
            Occurs(buf, path, depth, at, leaf) <==>
            if at[0] == 0 then InHead(f.number, f.wire, buf[f.start..f.end], path, depth, at, leaf)
            else Occurs(buf[f.end..], path, depth, [at[0] - 1] + at[1..], leaf)
  {
    var f := ReadField(buf);
    var data := buf[f.start..f.end];
    MessagesAreFieldSequences(leaf.value);
    MessagesAreFieldSequences(data);
    if at[0] == 0 {
      LeadsInHead(buf, path, at, leaf);
    } else {
      LeadsPastHead(buf, path, at, leaf);
    }
  }

  lemma {:induction false} LeadsInHead(buf: Bytes, path: seq<nat>, at: seq<nat>, leaf: Leaf)
    requires ReadField(buf).Field? && at != [] && at[0] == 0
    ensures var f := ReadField(buf);
            var data := buf[f.start..f.end];
            Leads(buf, path, at, leaf) <==>
            f.wire == BYTES && if |at| == 1 then leaf == Leaf(path + [f.number], data)
                               else IsFieldSequence(data) && Leads(data, path + [f.number], at[1..], leaf)
  {
    var f := ReadField(buf);
    var head, data := buf[..f.end], buf[f.start..f.end];
    hide ReadField, IsSized, FieldAt, IsFieldSequence;
    HeadField(buf, 0, head);
    if Leads(buf, path, at, leaf) {
      var g: Bytes, number: nat, sub: Bytes :| FieldAt(buf, at[0], g) && IsSized(g, number, sub)
        && if |at| == 1 then leaf == Leaf(path + [number], sub) else IsFieldSequence(sub) && Leads(sub, path + [number], at[1..], leaf);
      HeadField(buf, 0, g);
      HeadSized(buf, number, sub);
    }
    HeadSized(buf, f.number, data);
  }

  lemma {:induction false} LeadsPastHead(buf: Bytes, path: seq<nat>, at: seq<nat>, leaf: Leaf)
    requires ReadField(buf).Field? && at != [] && at[0] > 0
    ensures Leads(buf, path, at, leaf) <==> Leads(buf[ReadField(buf).end..], path, [at[0] - 1] + at[1..], leaf)
  {
    var rest, past := buf[ReadField(buf).end..], [at[0] - 1] + at[1..];
    assert past[1..] == at[1..];
    forall g ensures FieldAt(buf, at[0], g) <==> FieldAt(rest, past[0], g) {
      HeadField(buf, at[0], g);
    }
    hide ReadField, IsSized, FieldAt, IsFieldSequence;
  }

  /** The same of the field at the head alone. */
  ghost predicate HeadLists(number: nat, wire: nat, data: Bytes, path: seq<nat>, depth: nat, leaves: seq<Leaf>, at: seq<seq<nat>>) {
    && |at| == |leaves| && InSequence(at)
    && (forall i :: 0 <= i < |at| ==> at[i] != [] && at[i][0] == 0 && InHead(number, wire, data, path, depth, at[i], leaves[i]))
    && (forall a, leaf {:trigger InHead(number, wire, data, path, depth, a, leaf)} ::
          InHead(number, wire, data, path, depth, a, leaf) && a[0] == 0 ==> Listed(leaves, at, a, leaf))
  }

  function Under(at: seq<seq<nat>>): (r: seq<seq<nat>>)
    ensures |r| == |at| && forall i :: 0 <= i < |r| ==> r[i] == [0] + at[i]
  {
    seq(|at|, i requires 0 <= i < |at| => [0] + at[i])
  }

  function Past(at: seq<seq<nat>>): (r: seq<seq<nat>>)
    requires forall i :: 0 <= i < |at| ==> at[i] != []
    ensures |r| == |at| && forall i :: 0 <= i < |r| ==> r[i] == [at[i][0] + 1] + at[i][1..]
  {
    seq(|at|, i requires 0 <= i < |at| => [at[i][0] + 1] + at[i][1..])
  }

  lemma {:induction false} UnderInSequence(at: seq<seq<nat>>)
    requires InSequence(at)
    ensures InSequence(Under(at))
  {
    var own := Under(at);
    forall i, j | 0 <= i < j < |own| ensures Sooner(own[i], own[j]) {
      assert own[i][1..] == at[i] && own[j][1..] == at[j];
    }
  }

  lemma {:induction false} NestedLists(number: nat, data: Bytes, path: seq<nat>, depth: nat, leaves: seq<Leaf>, at: seq<seq<nat>>)
    requires IsMessage(data) && Lists(data, path + [number], depth + 1, leaves, at)
    ensures HeadLists(number, BYTES, data, path, depth, leaves, Under(at))
  {
    var own := Under(at);
    UnderInSequence(at);
    hide IsMessage, InSequence, InHead, Occurs, Listed;
    forall i | 0 <= i < |own| ensures InHead(number, BYTES, data, path, depth, own[i], leaves[i]) {
      assert Occurs(data, path + [number], depth + 1, at[i], leaves[i]) && own[i][1..] == at[i];
      NestedOne(number, data, path, depth, own[i], leaves[i]);
    }
    forall a, leaf | InHead(number, BYTES, data, path, depth, a, leaf) && a[0] == 0 ensures Listed(leaves, own, a, leaf) {
      NestedOne(number, data, path, depth, a, leaf);
      UnderListed(leaves, at, a, leaf);
    }
  }

  lemma {:induction false} NestedOne(number: nat, data: Bytes, path: seq<nat>, depth: nat, a: seq<nat>, leaf: Leaf)
    requires IsMessage(data) && a != []
    ensures InHead(number, BYTES, data, path, depth, a, leaf) <==> Occurs(data, path + [number], depth + 1, a[1..], leaf)
  {
    if |a| == 1 {
      assert a[1..] == [];
    }
  }

  lemma {:induction false} UnderListed(leaves: seq<Leaf>, at: seq<seq<nat>>, a: seq<nat>, leaf: Leaf)
    requires a != [] && a[0] == 0 && Listed(leaves, at, a[1..], leaf)
    ensures Listed(leaves, Under(at), a, leaf)
  {
    var i :| 0 <= i < |at| && at[i] == a[1..] && leaves[i] == leaf;
    assert Under(at)[i] == a;
  }

  lemma {:induction false} TextLists(number: nat, data: Bytes, path: seq<nat>, depth: nat)
    requires !IsMessage(data) && IsText(data)
    ensures HeadLists(number, BYTES, data, path, depth, [Leaf(path + [number], data)], [[0]])
  {
    hide IsMessage, IsText, Occurs;
    assert InHead(number, BYTES, data, path, depth, [0], Leaf(path + [number], data));
    forall a, leaf | InHead(number, BYTES, data, path, depth, a, leaf) && a[0] == 0
      ensures [[0]][0] == a && [Leaf(path + [number], data)][0] == leaf
    {
      assert a == [0];
    }
  }

  lemma {:induction false} NothingLists(number: nat, wire: nat, data: Bytes, path: seq<nat>, depth: nat)
    requires wire != BYTES || (!IsMessage(data) && !IsText(data))
    ensures HeadLists(number, wire, data, path, depth, [], [])
  {
    hide IsMessage, IsText, Occurs;
  }

  lemma {:induction false} PastSooner(a: seq<nat>, b: seq<nat>)
    requires a != [] && b != []
    ensures Sooner([a[0] + 1] + a[1..], [b[0] + 1] + b[1..]) <==> Sooner(a, b)
  {
  }

  lemma {:induction false} JoinInSequence(at: seq<seq<nat>>, at': seq<seq<nat>>)
    requires InSequence(at) && InSequence(at') && forall i :: 0 <= i < |at| ==> at[i] != [] && at[i][0] == 0
    requires forall i :: 0 <= i < |at'| ==> at'[i] != []
    ensures InSequence(at + Past(at'))
  {
    var all := at + Past(at');
    forall i, j | 0 <= i < j < |all| ensures Sooner(all[i], all[j]) {
      if i >= |at| {
        PastSooner(at'[i - |at|], at'[j - |at|]);
      }
    }
  }

  /** The leaves of the head's field and then those of the rest. */
  lemma {:induction false} ListsJoin(buf: Bytes, path: seq<nat>, depth: nat,
          own: seq<Leaf>, at: seq<seq<nat>>, rest: seq<Leaf>, at': seq<seq<nat>>)
    requires depth <= MAX_DEPTH && ReadField(buf).Field?
    requires var f := ReadField(buf);
             && HeadLists(f.number, f.wire, buf[f.start..f.end], path, depth, own, at)
             && Lists(buf[f.end..], path, depth, rest, at')
    requires forall i :: 0 <= i < |at'| ==> at'[i] != []
    ensures Lists(buf, path, depth, own + rest, at + Past(at'))
  {
    JoinInSequence(at, at');
    var all, leaves := at + Past(at'), own + rest;
    forall i | 0 <= i < |all| ensures Occurs(buf, path, depth, all[i], leaves[i]) {
      JoinOccurs(buf, path, depth, own, at, rest, at', i);
    }
    forall a, leaf | Occurs(buf, path, depth, a, leaf) ensures Listed(leaves, all, a, leaf) {
      JoinComplete(buf, path, depth, own, at, rest, at', a, leaf);
    }
    hide ReadField, InHead, Occurs, InSequence, Listed, HeadLists;
  }

  lemma {:induction false} JoinOccurs(buf: Bytes, path: seq<nat>, depth: nat,
          own: seq<Leaf>, at: seq<seq<nat>>, rest: seq<Leaf>, at': seq<seq<nat>>, i: nat)
    requires depth <= MAX_DEPTH && ReadField(buf).Field? && i < |at| + |at'|
    requires var f := ReadField(buf);
             && HeadLists(f.number, f.wire, buf[f.start..f.end], path, depth, own, at)
             && Lists(buf[f.end..], path, depth, rest, at')
    requires forall i :: 0 <= i < |at'| ==> at'[i] != []
    ensures Occurs(buf, path, depth, (at + Past(at'))[i], (own + rest)[i])
  {
    hide ReadField, InHead, Occurs, InSequence, Listed;
    if i < |at| {
      OccursFrom(buf, path, depth, at[i], own[i]);
    } else {
      PastOccurs(buf, path, depth, at'[i - |at|], rest[i - |at|]);
    }
  }

  lemma {:induction false} JoinComplete(buf: Bytes, path: seq<nat>, depth: nat,
          own: seq<Leaf>, at: seq<seq<nat>>, rest: seq<Leaf>, at': seq<seq<nat>>, a: seq<nat>, leaf: Leaf)
    requires depth <= MAX_DEPTH && ReadField(buf).Field? && Occurs(buf, path, depth, a, leaf)
    requires var f := ReadField(buf);
             && HeadLists(f.number, f.wire, buf[f.start..f.end], path, depth, own, at)
             && Lists(buf[f.end..], path, depth, rest, at')
    requires forall i :: 0 <= i < |at'| ==> at'[i] != []
    ensures Listed(own + rest, at + Past(at'), a, leaf)
  {
    hide ReadField, InHead, Occurs, InSequence, Listed;
    AddressNotEmpty(buf, path, depth, a, leaf);
    OccursFrom(buf, path, depth, a, leaf);
    JoinListed(own, at, rest, at', a, leaf);
  }

  lemma {:induction false} PastOccurs(buf: Bytes, path: seq<nat>, depth: nat, a: seq<nat>, leaf: Leaf)
    requires depth <= MAX_DEPTH && ReadField(buf).Field? && a != []
    requires Occurs(buf[ReadField(buf).end..], path, depth, a, leaf)
    ensures Occurs(buf, path, depth, [a[0] + 1] + a[1..], leaf)
  {
    var past := [a[0] + 1] + a[1..];
    assert [past[0] - 1] + past[1..] == a;
    OccursFrom(buf, path, depth, past, leaf);
  }

  lemma {:induction false} JoinListed(own: seq<Leaf>, at: seq<seq<nat>>, rest: seq<Leaf>, at': seq<seq<nat>>, a: seq<nat>, leaf: Leaf)
    requires |own| == |at| && |rest| == |at'| && a != [] && forall i :: 0 <= i < |at'| ==> at'[i] != []
    requires if a[0] == 0 then Listed(own, at, a, leaf) else Listed(rest, at', [a[0] - 1] + a[1..], leaf)
    ensures Listed(own + rest, at + Past(at'), a, leaf)
  {
    var all, leaves := at + Past(at'), own + rest;
    if a[0] == 0 {
      var i :| 0 <= i < |at| && at[i] == a && own[i] == leaf;
      assert all[i] == a && leaves[i] == leaf;
    } else {
      var i :| 0 <= i < |at'| && at'[i] == [a[0] - 1] + a[1..] && rest[i] == leaf;
      assert all[|at| + i] == a && leaves[|at| + i] == leaf;
    }
  }

  lemma {:induction false} AddressNotEmpty(buf: Bytes, path: seq<nat>, depth: nat, at: seq<nat>, leaf: Leaf)
    requires Occurs(buf, path, depth, at, leaf)
    ensures at != [] && depth <= MAX_DEPTH && ReadField(buf).Field?
  {
    if ReadField(buf).Malformed? {
      forall f ensures !FieldAt(buf, at[0], f) {
        NoFieldAt(buf, at[0], f);
      }
    }
  }

  /** The leaves found are those that occur: all of them, in order, each once. */
  lemma {:induction false} LeavesOccur(buf: Bytes, path: seq<nat>, depth: nat) returns (at: seq<seq<nat>>)
    ensures Lists(buf, path, depth, Leaves(buf, path, depth), at)
    decreases |buf|
  {
    if depth > MAX_DEPTH || buf == [] || ReadField(buf).Malformed? {
      at := [];
      forall a, leaf ensures !Occurs(buf, path, depth, a, leaf) {
        if Occurs(buf, path, depth, a, leaf) {
          AddressNotEmpty(buf, path, depth, a, leaf);
        }
      }
    } else {
      var f := ReadField(buf);
      var data := buf[f.start..f.end];
      var rest := LeavesOccur(buf[f.end..], path, depth);
      var own;
      if f.wire != BYTES {
        own := [];
        NothingLists(f.number, f.wire, data, path, depth);
      } else if IsMessage(data) {
        var nested := LeavesOccur(data, path + [f.number], depth + 1);
        own := Under(nested);
        NestedLists(f.number, data, path, depth, Leaves(data, path + [f.number], depth + 1), nested);
      } else if IsText(data) {
        own := [[0]];
        TextLists(f.number, data, path, depth);
      } else {
        own := [];
        NothingLists(f.number, f.wire, data, path, depth);
      }
      AddressesNotEmpty(buf[f.end..], path, depth, rest);
      ListsJoin(buf, path, depth, FieldLeaves(f.number, f.wire, data, path, depth), own, Leaves(buf[f.end..], path, depth), rest);
      at := own + Past(rest);
    }
  }

  lemma {:induction false} AddressesNotEmpty(buf: Bytes, path: seq<nat>, depth: nat, at: seq<seq<nat>>)
    requires Lists(buf, path, depth, Leaves(buf, path, depth), at)
    ensures forall i :: 0 <= i < |at| ==> at[i] != []
  {
    forall i | 0 <= i < |at| ensures at[i] != [] {
      AddressNotEmpty(buf, path, depth, at[i], Leaves(buf, path, depth)[i]);
    }
  }

  // --- what the leaves are ---

  lemma {:induction false} FieldStays(a: Bytes, b: Bytes)
    requires ReadField(a).Field?
    ensures ReadField(a + b) == ReadField(a)
    ensures var f := ReadField(a); (a + b)[f.start..f.end] == a[f.start..f.end] && (a + b)[f.end..] == a[f.end..] + b
  {
    ReadStays(a, b);
  }

  lemma {:induction false} LeavesHead(buf: Bytes, path: seq<nat>, depth: nat)
    requires buf != [] && depth <= MAX_DEPTH && ReadField(buf).Field?
    ensures var f := ReadField(buf);
            Leaves(buf, path, depth) == FieldLeaves(f.number, f.wire, buf[f.start..f.end], path, depth) + Leaves(buf[f.end..], path, depth)
  {
  }

  /** What follows a scanned message does not change its leaves: they come first, and
      then those of what follows. */
  lemma {:induction false} LeavesConcat(a: Bytes, b: Bytes, path: seq<nat>, depth: nat)
    requires WellFormed(a)
    ensures Leaves(a + b, path, depth) == Leaves(a, path, depth) + Leaves(b, path, depth)
    decreases |a|
  {
    if depth <= MAX_DEPTH {
      if a == [] {
        assert a + b == b;
        JoinNone([], Leaves(b, path, depth));
      } else {
        LeavesConcatStep(a, b, path, depth);
      }
    }
  }

  lemma {:induction false} LeavesConcatStep(a: Bytes, b: Bytes, path: seq<nat>, depth: nat)
    requires WellFormed(a) && a != [] && depth <= MAX_DEPTH
    ensures Leaves(a + b, path, depth) == Leaves(a, path, depth) + Leaves(b, path, depth)
    decreases |a|, 0
  {
    hide Leaves, FieldLeaves, ReadField;
    var f := ReadField(a);
    assert f.Field? && WellFormed(a[f.end..]);
    var own := FieldLeaves(f.number, f.wire, a[f.start..f.end], path, depth);
    FieldStays(a, b);
    LeavesConcat(a[f.end..], b, path, depth);
    LeavesHead(a, path, depth);
    LeavesHead(a + b, path, depth);
    Regroup(own, Leaves(a[f.end..], path, depth), Leaves(b, path, depth));
  }

  /** DecodeStrings of an accepted buffer and anything after it. */
  lemma {:induction false} DecodeDistributes(a: Bytes, b: Bytes)
    requires IsMessage(a)
    ensures Leaves(a + b, [], 0) == Leaves(a, [], 0) + Leaves(b, [], 0)
  {
    LeavesConcat(a, b, [], 0);
  }

  function Values(leaves: seq<Leaf>): (r: seq<Bytes>)
    ensures |r| == |leaves| && forall i :: 0 <= i < |r| ==> r[i] == leaves[i].value
  {
    seq(|leaves|, i requires 0 <= i < |leaves| => leaves[i].value)
  }

  ghost predicate CutOut(value: Bytes, buf: Bytes, i: nat, j: nat) {
    i <= j <= |buf| && buf[i..j] == value
  }

  /** The values are slices of the buffer, one after another, none overlapping. */
  ghost predicate InOrderSlices(values: seq<Bytes>, buf: Bytes)
    decreases |values|
  {
    values == [] || exists i: nat, j: nat :: CutOut(values[0], buf, i, j) && InOrderSlices(values[1..], buf[j..])
  }

  lemma {:induction false} SlicesWithin(values: seq<Bytes>, a: Bytes, buf: Bytes, b: Bytes)
    requires InOrderSlices(values, buf)
    ensures InOrderSlices(values, a + buf + b)
    decreases |values|
  {
    if values != [] {
      var i: nat, j: nat :| CutOut(values[0], buf, i, j) && InOrderSlices(values[1..], buf[j..]);
      SlicesWithin(values[1..], [], buf[j..], b);
      var all := a + buf + b;
      assert all[|a| + i..|a| + j] == buf[i..j];
      assert all[|a| + j..] == [] + buf[j..] + b;
      assert CutOut(values[0], all, |a| + i, |a| + j);
    }
  }

  lemma {:induction false} SlicesConcat(v: seq<Bytes>, a: Bytes, w: seq<Bytes>, b: Bytes)
    requires InOrderSlices(v, a) && InOrderSlices(w, b)
    ensures InOrderSlices(v + w, a + b)
    decreases |v|
  {
    if v == [] {
      assert v + w == w && a + b + [] == a + b;
      SlicesWithin(w, a, b, []);
    } else {
      var i: nat, j: nat :| CutOut(v[0], a, i, j) && InOrderSlices(v[1..], a[j..]);
      SlicesConcat(v[1..], a[j..], w, b);
      assert (v + w)[1..] == v[1..] + w && (a + b)[j..] == a[j..] + b && (a + b)[i..j] == a[i..j];
      assert CutOut((v + w)[0], a + b, i, j);
    }
  }

  function TotalLength(values: seq<Bytes>): nat {
    if values == [] then 0 else |values[0]| + TotalLength(values[1..])
  }

  lemma {:induction false} SlicesFit(values: seq<Bytes>, buf: Bytes)
    requires InOrderSlices(values, buf)
    ensures TotalLength(values) <= |buf|
    decreases |values|
  {
    if values != [] {
      var i: nat, j: nat :| CutOut(values[0], buf, i, j) && InOrderSlices(values[1..], buf[j..]);
      SlicesFit(values[1..], buf[j..]);
    }
  }

  lemma {:induction false} ValuesConcat(a: seq<Leaf>, b: seq<Leaf>)
    ensures Values(a + b) == Values(a) + Values(b)
  {
  }

  lemma {:induction false} OneSlice(leaf: Leaf)
    ensures InOrderSlices(Values([leaf]), leaf.value)
  {
    var values := Values([leaf]);
    assert values[0] == leaf.value && values[1..] == [];
    assert InOrderSlices(values[1..], leaf.value[|leaf.value|..]);
    assert CutOut(leaf.value, leaf.value, 0, |leaf.value|);
  }

  lemma {:induction false} ThreeParts(buf: Bytes, m: nat, n: nat)
    requires m <= n <= |buf|
    ensures buf[..m] + buf[m..n] + [] + buf[n..] == buf
  {
  }

  /** The leaves are disjoint slices of the input, in order. */
  lemma {:induction false} LeavesAreSlices(buf: Bytes, path: seq<nat>, depth: nat)
    ensures InOrderSlices(Values(Leaves(buf, path, depth)), buf)
    decreases |buf|, 2
  {
    if depth <= MAX_DEPTH && buf != [] && ReadField(buf).Field? {
      HeadThenRest(buf, path, depth);
    }
  }

  lemma {:induction false} HeadThenRest(buf: Bytes, path: seq<nat>, depth: nat)
    requires depth <= MAX_DEPTH && buf != [] && ReadField(buf).Field?
    ensures InOrderSlices(Values(Leaves(buf, path, depth)), buf)
    decreases |buf|, 1
  {
    hide FieldLeaves, Leaves, InOrderSlices, ReadField;
    var f := ReadField(buf);
    var own, rest := FieldLeaves(f.number, f.wire, buf[f.start..f.end], path, depth), Leaves(buf[f.end..], path, depth);
    LeavesHead(buf, path, depth);
    FieldLeavesAreSlices(f.number, f.wire, buf[f.start..f.end], path, depth);
    LeavesAreSlices(buf[f.end..], path, depth);
    SlicesWithin(Values(own), buf[..f.start], buf[f.start..f.end], []);
    SlicesConcat(Values(own), buf[..f.start] + buf[f.start..f.end] + [], Values(rest), buf[f.end..]);
    ValuesConcat(own, rest);
    ThreeParts(buf, f.start, f.end);
  }

  lemma {:induction false} FieldLeavesAreSlices(number: nat, wire: nat, data: Bytes, path: seq<nat>, depth: nat)
    ensures InOrderSlices(Values(FieldLeaves(number, wire, data, path, depth)), data)
    decreases |data|, 3
  {
    hide Leaves, IsText;
    LeavesAreSlices(data, path + [number], depth + 1);
    OneSlice(Leaf(path + [number], data));
  }

  /** So they cannot be longer, together, than the buffer. */
  lemma {:induction false} LeavesFit(buf: Bytes)
    ensures TotalLength(Values(Leaves(buf, [], 0))) <= |buf|
  {
    LeavesAreSlices(buf, [], 0);
    SlicesFit(Values(Leaves(buf, [], 0)), buf);
  }

  /** Every leaf is text, and its path has at most 25 field numbers, none of them 0. */
  ghost predicate GoodLeaf(leaf: Leaf, path: seq<nat>) {
    && IsText(leaf.value)
    && path < leaf.path && |leaf.path| <= MAX_DEPTH + 1
    && (forall i :: |path| <= i < |leaf.path| ==> leaf.path[i] > 0)
  }

  lemma {:induction false} LeavesAreGood(buf: Bytes, path: seq<nat>, depth: nat)
    requires |path| == depth
    ensures forall leaf :: leaf in Leaves(buf, path, depth) ==> GoodLeaf(leaf, path)
    decreases |buf|, 0
  {
    hide FieldLeaves, GoodLeaf;
    if depth <= MAX_DEPTH && buf != [] && ReadField(buf).Field? {
      var f := ReadField(buf);
      FieldLeavesAreGood(f.number, f.wire, buf[f.start..f.end], path, depth);
      LeavesAreGood(buf[f.end..], path, depth);
    }
  }

  lemma {:induction false} FieldLeavesAreGood(number: nat, wire: nat, data: Bytes, path: seq<nat>, depth: nat)
    requires |path| == depth <= MAX_DEPTH && number > 0
    ensures forall leaf :: leaf in FieldLeaves(number, wire, data, path, depth) ==> GoodLeaf(leaf, path)
    decreases |data|, 1
  {
    hide Leaves;
    LeavesAreGood(data, path + [number], depth + 1);
    forall leaf | leaf in Leaves(data, path + [number], depth + 1) ensures GoodLeaf(leaf, path) {
      assert GoodLeaf(leaf, path + [number]);
      assert leaf.path[|path|] == (path + [number])[|path|];
    }
  }
}
