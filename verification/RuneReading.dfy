/** UTF-8 from the side of the encoder: section 3 of RFC 3629, over Unicode scalar values. */
module RuneReading {
  import opened Utf8Range

  predicate Scalar(c: int) { 0 <= c < 0xD800 || 0xE000 <= c < 0x11_0000 }

  /** The bytes of one scalar value: six bits to each byte behind the first. */
  function Encoded(c: int): (s: Bytes)
    requires Scalar(c)
    ensures 1 <= |s| <= 4
  {
    var d, e, f := c / 64, c / 64 / 64, c / 64 / 64 / 64;
    if c < 0x80 then [c]
    else if c < 0x800 then [0xC0 + d, 0x80 + c % 64]
    else if c < 0x1_0000 then [0xE0 + e, 0x80 + d % 64, 0x80 + c % 64]
    else [0xF0 + f, 0x80 + e % 64, 0x80 + d % 64, 0x80 + c % 64]
  }

  predicate Scalars(text: seq<int>) { forall i :: 0 <= i < |text| ==> Scalar(text[i]) }

  /** The bytes of a text. */
  function Encode(text: seq<int>): Bytes
    requires Scalars(text)
  {
    if text == [] then [] else Encoded(text[0]) + Encode(text[1..])
  }

  /** `high` followed by six more bits. */
  function Sextet(high: int, low: int): (c: int)
    requires 0 <= low < 64
    ensures c / 64 == high && c % 64 == low
  {
    high * 64 + low
  }

  /** The scalar value a rune is read as. */
  function Decoded(s: Bytes): int
    requires RuneLength(s) > 0
  {
    match RuneLength(s)
    case 1 => s[0]
    case 2 => Sextet(Less(s[0], 0xC0), Less(s[1], 0x80))
    case 3 => Sextet(Sextet(Less(s[0], 0xE0), Less(s[1], 0x80)), Less(s[2], 0x80))
    case _ => Sextet(Sextet(Sextet(Less(s[0], 0xF0), Less(s[1], 0x80)), Less(s[2], 0x80)), Less(s[3], 0x80))
  }

  function Less(a: int, b: int): int { a - b }

  lemma RuneIsEncoded(s: Bytes)
    requires RuneLength(s) > 0
    ensures Scalar(Decoded(s)) && Encoded(Decoded(s)) == s[..RuneLength(s)]
  {
  }

  lemma EncodedIsRune(c: int, rest: Bytes)
    requires Scalar(c)
    ensures RuneLength(Encoded(c) + rest) == |Encoded(c)|
  {
    var first := Encoded(c);
    var s := first + rest;
    assert forall i :: 0 <= i < |first| ==> s[i] == first[i];
    if c >= 0x1_0000 {
      FourBytes(c);
    } else if c >= 0x800 {
      ThreeBytes(c);
    }
  }

  lemma ThreeBytes(c: int)
    requires Scalar(c) && 0x800 <= c < 0x1_0000
    ensures var s := Encoded(c); ThreeByteHead(s[0], s[1]) && Continuation(s[2]) && 0xE0 <= s[0] <= 0xEF
  {}

  lemma FourBytes(c: int)
    requires Scalar(c) && 0x1_0000 <= c
    ensures var s := Encoded(c);
            FourByteHead(s[0], s[1]) && Continuation(s[2]) && Continuation(s[3]) && 0xF0 <= s[0] <= 0xF4
  {}

  lemma {:induction false} EncodedIsValid(text: seq<int>)
    requires Scalars(text)
    ensures Valid(Encode(text))
  {
    hide RuneLength, Encoded;
    if text != [] {
      var first, rest := Encoded(text[0]), Encode(text[1..]);
      EncodedIsRune(text[0], rest);
      EncodedIsValid(text[1..]);
      assert (first + rest)[|first|..] == rest;
    }
  }

  lemma {:induction false} ValidIsEncoded(s: Bytes) returns (text: seq<int>)
    requires Valid(s)
    ensures Scalars(text) && Encode(text) == s
    decreases |s|
  {
    hide RuneLength, Encoded, Decoded;
    if s == [] {
      text := [];
    } else {
      var n := RuneLength(s);
      var rest := ValidIsEncoded(s[n..]);
      RuneIsEncoded(s);
      text := [Decoded(s)] + rest;
      assert text[1..] == rest && s == s[..n] + s[n..];
    }
  }

  /** Bytes are valid UTF-8 if and only if they encode some sequence of scalar values. */
  lemma ValidExactly(s: Bytes)
    ensures Valid(s) <==> exists text: seq<int> :: Scalars(text) && Encode(text) == s
  {
    hide Valid, Encode, Scalars;
    if Valid(s) {
      var text := ValidIsEncoded(s);
    }
    if text: seq<int> :| Scalars(text) && Encode(text) == s {
      EncodedIsValid(text);
    }
  }
}
