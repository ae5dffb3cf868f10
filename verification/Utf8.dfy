/** What counts as text, by the definition of UTF-8 (section 3 of RFC 3629) instead of the
    table of byte ranges a decoder uses. */
module Utf8 {
  import opened ProtoWire

  /** A Unicode scalar value: a code point that is no surrogate. */
  type Scalar = c: int | 0 <= c < 0xD800 || 0xE000 <= c < 0x11_0000

  function Encoded(c: Scalar): (r: Bytes)
    ensures r != []
  {
    if c < 0x80 then [c]
    else if c < 0x800 then [0xC0 + c / 64, Tail(c)]
    else if c < 0x1_0000 then [0xE0 + c / 4096, Tail(c / 64), Tail(c)]
    else [0xF0 + c / 26_2144, Tail(c / 4096), Tail(c / 64), Tail(c)]
  }

  /** A continuation byte: the low six bits. */
  function Tail(c: nat): Byte {
    0x80 + c % 64
  }

  function EncodedAll(cs: seq<Scalar>): Bytes {
    if cs == [] then [] else Encoded(cs[0]) + EncodedAll(cs[1..])
  }

  /** Newline, tab, return, and all but the control characters. */
  predicate Shows(c: Scalar) {
    c == 0x0A || c == 0x09 || c == 0x0D || c >= 0x20
  }

  function Shown(cs: seq<Scalar>): nat {
    if cs == [] then 0 else (if Shows(cs[0]) then 1 else 0) + Shown(cs[1..])
  }

  /** An encoded scalar is one rune, whatever follows. */
  lemma {:induction false} RuneOfEncoded(c: Scalar, rest: Bytes)
    ensures RuneLen(Encoded(c) + rest) == |Encoded(c)| && Printable((Encoded(c) + rest)[0]) == Shows(c)
  {
    var e := Encoded(c);
    RuneOfAlone(c);
    if |e| < |e + rest| {
      hide Encoded;
      RuneStays(e, rest);
    } else {
      assert e + rest == e;
    }
  }

  lemma {:induction false} RuneOfAlone(c: Scalar)
    ensures RuneLen(Encoded(c)) == |Encoded(c)| && Printable(Encoded(c)[0]) == Shows(c)
  {
    if c < 0x80 {
    } else if c < 0x800 {
      assert 2 <= c / 64 < 32;
    } else if c < 0x1_0000 {
      ThreeBytes(c);
    } else {
      FourBytes(c);
    }
  }

  lemma {:induction false} ThreeBytes(c: Scalar)
    requires 0x800 <= c < 0x1_0000
    ensures RuneLen(Encoded(c)) == 3
  {
    var first, second := 0xE0 + c / 4096, Tail(c / 64);
    assert Encoded(c) == [first, second, Tail(c)] && 0xE0 <= first <= 0xEF;
    assert c / 64 == (c / 4096) * 64 + c / 64 % 64 by { Halved(c); }
    assert first == 0xE0 ==> second >= 0xA0;
    assert first == 0xED ==> second <= 0x9F;
  }

  lemma {:induction false} FourBytes(c: Scalar)
    requires 0x1_0000 <= c
    ensures RuneLen(Encoded(c)) == 4
  {
    var first, second := 0xF0 + c / 26_2144, Tail(c / 4096);
    assert Encoded(c) == [first, second, Tail(c / 64), Tail(c)] && 0xF0 <= first <= 0xF4;
    assert c / 4096 == (c / 26_2144) * 64 + c / 4096 % 64;
    assert first == 0xF0 ==> second >= 0x90;
    assert first == 0xF4 ==> second <= 0x8F;
  }

  lemma {:induction false} Low(hi: nat, lo: nat)
    requires lo < 64
    ensures (hi * 64 + lo) / 64 == hi && (hi * 64 + lo) % 64 == lo
  {
  }

  /** A rune is an encoded scalar. */
  lemma {:induction false} ScalarOfRune(buf: Bytes) returns (c: Scalar)
    requires RuneLen(buf) != 0
    ensures Encoded(c) == buf[..RuneLen(buf)]
  {
    var n := RuneLen(buf);
    if n == 1 {
      c := buf[0];
    } else {
      var first: int := if n == 2 then buf[0] - 0xC0 else if n == 3 then buf[0] - 0xE0 else buf[0] - 0xF0;
      var second: int := first * 64 + (buf[1] - 0x80);
      Low(first, buf[1] - 0x80);
      if n == 2 {
        c := second;
        assert Encoded(c)[0] == buf[0] && Encoded(c)[1] == buf[1];
      } else {
        var third: int := second * 64 + (buf[2] - 0x80);
        Low(second, buf[2] - 0x80);
        Halved(third);
        if n == 3 {
          c := third;
        } else {
          c := third * 64 + (buf[3] - 0x80);
          Low(third, buf[3] - 0x80);
          Halved(c);
        }
      }
    }
  }

  lemma {:induction false} Halved(c: nat)
    ensures c / 4096 == c / 64 / 64
    ensures c / 26_2144 == c / 64 / 4096
  {
  }

  lemma {:induction false} CountEncoded(cs: seq<Scalar>)
    ensures CountRunes(EncodedAll(cs)) == Runes(|cs|, Shown(cs))
  {
    if cs != [] {
      var rest := EncodedAll(cs[1..]);
      CountEncoded(cs[1..]);
      RuneOfEncoded(cs[0], rest);
      assert (Encoded(cs[0]) + rest)[|Encoded(cs[0])|..] == rest;
      hide Encoded, RuneLen, Printable;
    }
  }

  lemma {:induction false} RestCounts(buf: Bytes)
    requires buf != [] && CountRunes(buf).Runes?
    ensures RuneLen(buf) != 0 && CountRunes(buf[RuneLen(buf)..]).Runes?
  {
    hide RuneLen;
  }

  lemma {:induction false} NoneEncoded()
    ensures EncodedAll([]) == []
  {
  }

  lemma {:induction false} FirstEncoded(c: Scalar, rest: seq<Scalar>)
    ensures EncodedAll([c] + rest) == Encoded(c) + EncodedAll(rest)
  {
    hide Encoded;
    assert ([c] + rest)[1..] == rest;
  }

  lemma {:induction false} DecodedRunes(buf: Bytes) returns (cs: seq<Scalar>)
    requires CountRunes(buf).Runes?
    ensures EncodedAll(cs) == buf
    decreases |buf|
  {
    hide *;
    if buf == [] {
      cs := [];
      NoneEncoded();
    } else {
      RestCounts(buf);
      var n := RuneLen(buf);
      var c := ScalarOfRune(buf);
      var rest := DecodedRunes(buf[n..]);
      cs := [c] + rest;
      FirstEncoded(c, rest);
      assert buf == buf[..n] + buf[n..];
    }
  }

  /** asString accepts exactly the encodings of scalars of three bytes or more in all, at
      least nine in ten of which show. */
  lemma {:induction false} TextIsEncoded(buf: Bytes)
    ensures IsText(buf) <==> exists cs :: EncodedAll(cs) == buf && |buf| >= 3 && 10 * Shown(cs) >= 9 * |cs|
  {
    if IsText(buf) {
      var cs := DecodedRunes(buf);
      CountEncoded(cs);
    }
    if cs :| EncodedAll(cs) == buf && |buf| >= 3 && 10 * Shown(cs) >= 9 * |cs| {
      CountEncoded(cs);
    }
  }

  /** The four characters "(a(a": text, and two varint fields. */
  const AMBIGUOUS: Bytes := [0x28, 0x61, 0x28, 0x61]

  lemma {:induction false} AmbiguousIsText()
    ensures IsText(AMBIGUOUS)
  {
    var none: seq<Scalar> := [];
    Chars(0x61, none);
    Chars(0x28, [0x61] + none);
    Chars(0x61, [0x28] + ([0x61] + none));
    Chars(0x28, [0x61] + ([0x28] + ([0x61] + none)));
    assert EncodedAll(none) == [] && Shown(none) == 0;
    var cs := [0x28] + ([0x61] + ([0x28] + ([0x61] + none)));
    hide EncodedAll, Shown, IsText;
    assert EncodedAll(cs) == AMBIGUOUS;
    TextIsEncoded(AMBIGUOUS);
  }

  lemma {:induction false} AmbiguousIsMessage()
    ensures IsMessage(AMBIGUOUS) && Leaves(AMBIGUOUS, [1], 1) == []
  {
    var none: Bytes := [];
    assert WellFormed(none) && Leaves(none, [1], 1) == [];
    assert AMBIGUOUS == [0x28, 0x61] + ([0x28, 0x61] + none);
    hide WellFormed, Leaves;
    VarintField(0x28, 0x61, none, [1], 1);
    VarintField(0x28, 0x61, [0x28, 0x61] + none, [1], 1);
  }

  /** Text whose bytes happen to be a sequence of fields is gone into and never a leaf
      itself. */
  lemma {:induction false} TextTakenForMessage()
    ensures IsText(AMBIGUOUS) && Leaves([0x0A, 4] + AMBIGUOUS, [], 0) == []
  {
    AmbiguousIsText();
    AmbiguousIsMessage();
    hide IsText, IsMessage, Leaves;
    SizedField(1, AMBIGUOUS);
  }

  lemma {:induction false} Chars(c: Scalar, rest: seq<Scalar>)
    requires 0x20 <= c < 0x80
    ensures EncodedAll([c] + rest) == [c] + EncodedAll(rest) && Shown([c] + rest) == 1 + Shown(rest)
  {
    assert ([c] + rest)[1..] == rest;
  }

  lemma {:induction false} OneByte(b: Byte, rest: Bytes)
    requires b < 128
    ensures Varint([b] + rest) == (b, 1) && ([b] + rest)[1..] == rest
  {
    assert [b][1..] == [] && Groups([b]) == b;
    ReadsVarint([b], rest);
  }

  lemma {:induction false} VarintField(tag: Byte, b: Byte, rest: Bytes, path: seq<nat>, depth: nat)
    requires 8 <= tag < 128 && tag % 8 == 0 && b < 128 && depth <= MAX_DEPTH
    ensures var buf := [tag, b] + rest;
            WellFormed(buf) == WellFormed(rest) && Leaves(buf, path, depth) == Leaves(rest, path, depth)
  {
    var buf := [tag, b] + rest;
    assert buf == [tag] + ([b] + rest);
    OneByte(tag, [b] + rest);
    OneByte(b, rest);
    assert ReadField(buf) == Field(tag / 8, VARINT, 1, 2) && buf[2..] == rest;
    LeavesHead(buf, path, depth);
    hide ReadField;
    assert FieldLeaves(tag / 8, VARINT, buf[1..2], path, depth) == [];
  }

  lemma {:induction false} NoLeaves(number: nat, data: Bytes)
    requires IsMessage(data) && Leaves(data, [number], 1) == []
    ensures FieldLeaves(number, BYTES, data, [], 0) == [] && Leaves([], [], 0) == []
  {
    assert [] + [number] == [number];
  }

  lemma {:induction false} SizedIsField(number: nat, data: Bytes)
    requires 1 <= number < 16 && |data| < 128
    ensures ReadField([8 * number + BYTES, |data|] + data) == Field(number, BYTES, 2, |data| + 2)
  {
    var buf: Bytes := [8 * number + BYTES, |data|] + data;
    assert buf == [8 * number + BYTES] + ([|data|] + data);
    OneByte(8 * number + BYTES, [|data|] + data);
    OneByte(|data|, data);
    hide Varint;
  }

  lemma {:induction false} SizedField(number: nat, data: Bytes)
    requires 1 <= number < 16 && |data| < 128 && IsMessage(data) && Leaves(data, [number], 1) == []
    ensures Leaves([8 * number + BYTES, |data|] + data, [], 0) == []
  {
    var buf: Bytes := [8 * number + BYTES, |data|] + data;
    assert buf[2..|buf|] == data && buf[|buf|..] == [] && |buf| == |data| + 2;
    NoLeaves(number, data);
    SizedIsField(number, data);
    hide *;
    LeavesHead(buf, [], 0);
  }
}
