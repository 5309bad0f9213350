/**
 * The base64 encoding of section 4 of RFC 4648 (the alphabet A-Z a-z 0-9 + /
 * with `=` padding), as used by `base64.b64encode` and `base64.b64decode`.
 * Three bytes become four characters; a final group of one or two bytes is
 * padded with `==` or `=`.
 */
module Base64 {
  import opened Errors

  type byte = b: int | 0 <= b < 256
  type sextet = v: int | 0 <= v < 64

  const Pad: char := '='

  /** The character of the alphabet (Table 1 of RFC 4648) for a 6-bit value. */
  function Symbol(v: sextet): char
  {
    if v < 26 then ('A' as int + v) as char
    else if v < 52 then ('a' as int + (v - 26)) as char
    else if v < 62 then ('0' as int + (v - 52)) as char
    else if v == 62 then '+'
    else '/'
  }

  /** The 6-bit value of an alphabet character; None for any other character. */
  function Value(c: char): (r: Option<sextet>)
    ensures r.Some? ==> Symbol(r.value) == c
  {
    if 'A' <= c <= 'Z' then Some(c as int - 'A' as int)
    else if 'a' <= c <= 'z' then Some(c as int - 'a' as int + 26)
    else if '0' <= c <= '9' then Some(c as int - '0' as int + 52)
    else if c == '+' then Some(62)
    else if c == '/' then Some(63)
    else None
  }

  predicate IsSymbol(c: char) {
    Value(c).Some?
  }

  lemma ValueOfSymbol(v: sextet)
    ensures Value(Symbol(v)) == Some(v)
  {
  }

  /** Characters that may appear in an encoding: the alphabet and the pad. */
  predicate IsWireChar(c: char) {
    IsSymbol(c) || c == Pad
  }

  /** Four characters for three bytes: 24 bits read as four 6-bit groups. */
  function EncodeTriple(x: byte, y: byte, z: byte): string
  {
    [Symbol(x / 4), Symbol((x % 4) * 16 + y / 16), Symbol((y % 16) * 4 + z / 64), Symbol(z % 64)]
  }

  /**
   * `base64.b64encode(data).decode("utf-8")`: the encoding of `data`, four
   * characters for every started group of three bytes.
   */
  function Encode(data: seq<byte>): (s: string)
    ensures |s| == 4 * ((|data| + 2) / 3)
    ensures forall i :: 0 <= i < |s| ==> IsWireChar(s[i])
    decreases |data|
  {
    if |data| == 0 then ""
    else if |data| == 1 then
      [Symbol(data[0] / 4), Symbol((data[0] % 4) * 16), Pad, Pad]
    else if |data| == 2 then
      [Symbol(data[0] / 4), Symbol((data[0] % 4) * 16 + data[1] / 16), Symbol((data[1] % 16) * 4), Pad]
    else
      EncodeTriple(data[0], data[1], data[2]) + Encode(data[3..])
  }

  /**
   * The bytes of one group of four characters; `last` says whether it is the
   * final group, the only one that may carry padding. Bits left over beside
   * the padding are ignored, as `base64.b64decode` ignores them.
   */
  function DecodeGroup(a: char, b: char, c: char, d: char, last: bool): (r: Option<seq<byte>>)
    ensures r.Some? ==> 1 <= |r.value| <= 3
    ensures r.Some? && |r.value| < 3 ==> last
  {
    match (Value(a), Value(b), Value(c), Value(d))
    case (Some(va), Some(vb), Some(vc), Some(vd)) =>
      Some([First(va, vb), Second(vb, vc), Third(vc, vd)])
    case (Some(va), Some(vb), Some(vc), None) =>
      if last && d == Pad then Some([First(va, vb), Second(vb, vc)]) else None
    case (Some(va), Some(vb), None, None) =>
      if last && c == Pad && d == Pad then Some([First(va, vb)]) else None
    case _ => None
  }

  /** The three bytes spelled by four 6-bit values, each built from two of them. */
  function First(a: sextet, b: sextet): byte { (a as int) * 4 + (b as int) / 16 }
  function Second(b: sextet, c: sextet): byte { ((b as int) % 16) * 16 + (c as int) / 4 }
  function Third(c: sextet, d: sextet): byte { ((c as int) % 4) * 64 + d as int }

  /**
   * `base64.b64decode(s)`: the bytes `s` encodes, or `BinasciiError` when `s`
   * is not a sequence of complete four-character groups with padding only at
   * the end. A decoded text is exactly as long as the encoding of its bytes.
   */
  function Decode(s: string): (r: Result<seq<byte>>)
    ensures r.Ok? ==> |s| == 4 * ((|r.value| + 2) / 3)
    ensures r.Err? ==> r.fault == BinasciiError
    decreases |s|
  {
    if |s| == 0 then Ok([])
    else if |s| < 4 then Err(BinasciiError)
    else
      match DecodeGroup(s[0], s[1], s[2], s[3], |s| == 4)
      case None => Err(BinasciiError)
      case Some(group) =>
        if |s| == 4 then Ok(group)
        else
          match Decode(s[4..])
          case Err(f) => Err(f)
          case Ok(rest) =>
            assert (|group + rest| + 2) / 3 == (|rest| + 2) / 3 + 1;
            Ok(group + rest)
  }

  /** The padded group for one trailing byte decodes back to that byte. */
  lemma DecodeOne(x: byte)
    ensures Decode(Encode([x])) == Ok([x])
  {
    ValueOfSymbol(x / 4);
    ValueOfSymbol((x % 4) * 16);
    assert First(x / 4, (x % 4) * 16) == x;
    var e := Encode([x]);
    assert Value(Pad) == None;
    assert DecodeGroup(e[0], e[1], e[2], e[3], true) == Some([x]);
  }

  /** The padded group for two trailing bytes decodes back to those bytes. */
  lemma DecodeTwo(x: byte, y: byte)
    ensures Decode(Encode([x, y])) == Ok([x, y])
  {
    ValueOfSymbol(x / 4);
    ValueOfSymbol((x % 4) * 16 + y / 16);
    ValueOfSymbol((y % 16) * 4);
    assert First(x / 4, (x % 4) * 16 + y / 16) == x;
    assert Second((x % 4) * 16 + y / 16, (y % 16) * 4) == y;
    var e := Encode([x, y]);
    assert Value(Pad) == None;
    assert DecodeGroup(e[0], e[1], e[2], e[3], true) == Some([x, y]);
  }

  /** A full group decodes back to its three bytes, wherever it stands. */
  lemma DecodeThree(x: byte, y: byte, z: byte, last: bool)
    ensures var e := EncodeTriple(x, y, z); DecodeGroup(e[0], e[1], e[2], e[3], last) == Some([x, y, z])
  {
    ValueOfSymbol(x / 4);
    ValueOfSymbol((x % 4) * 16 + y / 16);
    ValueOfSymbol((y % 16) * 4 + z / 64);
    ValueOfSymbol(z % 64);
    assert First(x / 4, (x % 4) * 16 + y / 16) == x;
    assert Second((x % 4) * 16 + y / 16, (y % 16) * 4 + z / 64) == y;
    assert Third((y % 16) * 4 + z / 64, z % 64) == z;
  }

  /** Decoding works group by group from the front. */
  lemma DecodeCons(head: string, tail: string, group: seq<byte>, rest: seq<byte>)
    requires |head| == 4
    requires DecodeGroup(head[0], head[1], head[2], head[3], tail == "") == Some(group)
    requires Decode(tail) == Ok(rest)
    ensures Decode(head + tail) == Ok(group + rest)
  {
    var s := head + tail;
    assert s[0] == head[0] && s[1] == head[1] && s[2] == head[2] && s[3] == head[3];
    assert s[4..] == tail;
    if tail == "" {
      assert rest == [] && group + rest == group;
    }
  }

  /** One full group in front of a tail that already round-trips. */
  lemma DecodeEncodeStep(data: seq<byte>)
    requires |data| >= 3
    requires Decode(Encode(data[3..])) == Ok(data[3..])
    ensures Decode(Encode(data)) == Ok(data)
  {
    var x, y, z := data[0], data[1], data[2];
    var head, tail := EncodeTriple(x, y, z), Encode(data[3..]);
    assert Encode(data) == head + tail;
    DecodeThree(x, y, z, tail == "");
    DecodeCons(head, tail, [x, y, z], data[3..]);
    SplitThree(data);
  }

  lemma SplitThree(data: seq<byte>)
    requires |data| >= 3
    ensures [data[0], data[1], data[2]] + data[3..] == data
  {
  }

  /** Round trip: decoding an encoding gives back the original bytes. */
  lemma {:induction false} DecodeEncode(data: seq<byte>)
    ensures Decode(Encode(data)) == Ok(data)
    decreases |data|
  {
    if |data| == 0 {
    } else if |data| == 1 {
      assert data == [data[0]];
      DecodeOne(data[0]);
    } else if |data| == 2 {
      assert data == [data[0], data[1]];
      DecodeTwo(data[0], data[1]);
    } else {
      DecodeEncode(data[3..]);
      DecodeEncodeStep(data);
    }
  }

  /**
   * A text whose padded final group carries no bits beyond the bytes it
   * spells, as an encoder writes it. The decoder also accepts texts with
   * such stray bits (both "QQ==" and "QR==" decode to the byte 65).
   */
  predicate NoStrayBits(s: string)
  {
    |s| >= 4 && s[|s| - 1] == Pad ==>
      if s[|s| - 2] == Pad then Value(s[|s| - 3]).Some? && Value(s[|s| - 3]).value % 16 == 0
      else Value(s[|s| - 2]).Some? && Value(s[|s| - 2]).value % 4 == 0
  }

  /** Re-encoding the three bytes of a full group spells the group again. */
  lemma EncodeThree(va: sextet, vb: sextet, vc: sextet, vd: sextet)
    ensures EncodeTriple(First(va, vb), Second(vb, vc), Third(vc, vd)) == [Symbol(va), Symbol(vb), Symbol(vc), Symbol(vd)]
  {
    var x, y, z := First(va, vb), Second(vb, vc), Third(vc, vd);
    assert x / 4 == va;
    assert (x % 4) * 16 + y / 16 == vb;
    assert (y % 16) * 4 + z / 64 == vc;
    assert z % 64 == vd;
  }

  /** The converse round trip, one final group at a time. */
  lemma EncodeLastGroup(s: string)
    requires |s| == 4 && Decode(s).Ok? && NoStrayBits(s)
    ensures Encode(Decode(s).value) == s
  {
    var g := Decode(s).value;
    var va, vb := Value(s[0]).value, Value(s[1]).value;
    if Value(s[2]).None? {
      assert s[2] == Pad && s[3] == Pad && vb % 16 == 0;
      assert g == [First(va, vb)];
      assert First(va, vb) / 4 == va && (First(va, vb) % 4) * 16 == vb;
      assert Encode(g) == [Symbol(va), Symbol(vb), Pad, Pad];
      assert s == [s[0], s[1], s[2], s[3]];
    } else if Value(s[3]).None? {
      var vc := Value(s[2]).value;
      assert s[3] == Pad && vc % 4 == 0;
      var x, y := First(va, vb), Second(vb, vc);
      assert g == [x, y];
      assert x / 4 == va && (x % 4) * 16 + y / 16 == vb && (y % 16) * 4 == vc;
      assert Encode(g) == [Symbol(va), Symbol(vb), Symbol(vc), Pad];
      assert s == [s[0], s[1], s[2], s[3]];
    } else {
      var vc, vd := Value(s[2]).value, Value(s[3]).value;
      assert g == [First(va, vb), Second(vb, vc), Third(vc, vd)];
      EncodeThree(va, vb, vc, vd);
      assert Encode(g) == EncodeTriple(g[0], g[1], g[2]) + Encode(g[3..]);
      assert g[3..] == [];
      assert s == [s[0], s[1], s[2], s[3]];
    }
  }

  /** A text longer than one group decodes as a full first group followed by the rest. */
  lemma DecodeFront(s: string)
    requires |s| > 4 && Decode(s).Ok?
    ensures Value(s[0]).Some? && Value(s[1]).Some? && Value(s[2]).Some? && Value(s[3]).Some?
    ensures Decode(s[4..]).Ok?
    ensures Decode(s).value ==
      [First(Value(s[0]).value, Value(s[1]).value), Second(Value(s[1]).value, Value(s[2]).value),
       Third(Value(s[2]).value, Value(s[3]).value)] + Decode(s[4..]).value
  {
  }

  /** Encoding works group by group from the front. */
  lemma EncodeCons(x: byte, y: byte, z: byte, rest: seq<byte>)
    ensures Encode([x, y, z] + rest) == EncodeTriple(x, y, z) + Encode(rest)
  {
    var b := [x, y, z] + rest;
    assert b[0] == x && b[1] == y && b[2] == z && b[3..] == rest;
  }

  /** Dropping a leading group keeps a text free of stray bits. */
  lemma NoStrayBitsTail(s: string)
    requires |s| > 4 && Decode(s).Ok? && NoStrayBits(s)
    ensures NoStrayBits(s[4..])
  {
    var tail := s[4..];
    assert |tail| >= 4;
    assert tail[|tail| - 1] == s[|s| - 1] && tail[|tail| - 2] == s[|s| - 2] && tail[|tail| - 3] == s[|s| - 3];
  }

  /**
   * Converse round trip: a text that decodes and has no stray bits is the
   * encoding of what it decodes to, so on such texts Encode and Decode are
   * mutual inverses.
   */
  lemma {:induction false} EncodeDecode(s: string)
    requires Decode(s).Ok? && NoStrayBits(s)
    ensures Encode(Decode(s).value) == s
    decreases |s|
  {
    if |s| == 4 {
      EncodeLastGroup(s);
    } else if |s| > 4 {
      DecodeFront(s);
      NoStrayBitsTail(s);
      EncodeDecode(s[4..]);
      var va, vb, vc, vd := Value(s[0]).value, Value(s[1]).value, Value(s[2]).value, Value(s[3]).value;
      EncodeCons(First(va, vb), Second(vb, vc), Third(vc, vd), Decode(s[4..]).value);
      EncodeThree(va, vb, vc, vd);
      SplitGroup(s);
    }
  }

  /** A text starting with four alphabet characters is their symbols followed by the rest. */
  lemma SplitGroup(s: string)
    requires |s| >= 4
    requires Value(s[0]).Some? && Value(s[1]).Some? && Value(s[2]).Some? && Value(s[3]).Some?
    ensures s == [Symbol(Value(s[0]).value), Symbol(Value(s[1]).value),
                  Symbol(Value(s[2]).value), Symbol(Value(s[3]).value)] + s[4..]
  {
  }
}
