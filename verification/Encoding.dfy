/** The grammar of valid text in Clip is the encoding of characters: section 3 of
    RFC 3629 by arithmetic, against section 4. */
module Encoding {
  import opened Clip

  /** A character number of Unicode that is not a surrogate. */
  predicate Scalar(c: int) {
    0 <= c < 0xD800 || 0xE000 <= c <= 0x10_FFFF
  }

  function Octet(mark: int, bits: int): Byte
    requires 0 <= mark + bits < 256
  {
    mark + bits
  }

  /** Section 3 of RFC 3629: the octets of a character number. */
  function Encode(c: int): seq<Byte>
    requires Scalar(c)
  {
    if c < 0x80 then [Octet(0, c)]
    else if c < 0x800 then [Octet(0xC0, c / 64), Octet(0x80, c % 64)]
    else if c < 0x1_0000 then [Octet(0xE0, c / 64 / 64), Octet(0x80, c / 64 % 64), Octet(0x80, c % 64)]
    else
      [Octet(0xF0, c / 64 / 64 / 64), Octet(0x80, c / 64 / 64 % 64), Octet(0x80, c / 64 % 64), Octet(0x80, c % 64)]
  }

  lemma TwoOctets(h: int, l: int)
    requires 2 <= h < 32 && 0 <= l < 64
    ensures IsRune([Octet(0xC0, h), Octet(0x80, l)])
  {}

  lemma ThreeOctets(h: int, m: int, l: int)
    requires 0 <= h < 16 && 0 <= m < 64 && 0 <= l < 64 && (h == 0 ==> m >= 32) && (h == 13 ==> m < 32)
    ensures IsRune([Octet(0xE0, h), Octet(0x80, m), Octet(0x80, l)])
  {}

  lemma FourOctets(h: int, k: int, m: int, l: int)
    requires 0 <= h <= 4 && 0 <= k < 64 && 0 <= m < 64 && 0 <= l < 64 && (h == 0 ==> k >= 16) && (h == 4 ==> k < 16)
    ensures IsRune([Octet(0xF0, h), Octet(0x80, k), Octet(0x80, m), Octet(0x80, l)])
  {}

  lemma EncodedIsRune(c: int)
    requires Scalar(c)
    ensures IsRune(Encode(c))
  {
    if 0x80 <= c < 0x800 {
      TwoOctets(c / 64, c % 64);
    } else if 0x800 <= c < 0x1_0000 {
      ThreeOctets(c / 64 / 64, c / 64 % 64, c % 64);
    } else if 0x1_0000 <= c {
      FourOctets(c / 64 / 64 / 64, c / 64 / 64 % 64, c / 64 % 64, c % 64);
    }
  }

  /** The bits of a byte beyond its mark. */
  function Bits(b: Byte, mark: int): int { b - mark }

  /** One more digit. */
  function Then(a: int, l: int): (c: int)
    requires 0 <= l < 64
    ensures c / 64 == a && c % 64 == l
  {
    a * 64 + l
  }

  lemma FromTwo(h: int, l: int)
    requires 2 <= h < 32 && 0 <= l < 64
    ensures Scalar(Then(h, l)) && Encode(Then(h, l)) == [Octet(0xC0, h), Octet(0x80, l)]
  {}

  lemma FromThree(h: int, m: int, l: int)
    requires 0 <= h < 16 && 0 <= m < 64 && 0 <= l < 64 && (h == 0 ==> m >= 32) && (h == 13 ==> m < 32)
    ensures var c := Then(Then(h, m), l);
            Scalar(c) && Encode(c) == [Octet(0xE0, h), Octet(0x80, m), Octet(0x80, l)]
  {}

  lemma FromFour(h: int, k: int, m: int, l: int)
    requires 0 <= h <= 4 && 0 <= k < 64 && 0 <= m < 64 && 0 <= l < 64 && (h == 0 ==> k >= 16) && (h == 4 ==> k < 16)
    ensures var c := Then(Then(Then(h, k), m), l);
            Scalar(c) && Encode(c) == [Octet(0xF0, h), Octet(0x80, k), Octet(0x80, m), Octet(0x80, l)]
  {}

  lemma RuneIsEncoded(r: seq<Byte>) returns (c: int)
    requires IsRune(r)
    ensures Scalar(c) && Encode(c) == r
  {
    if |r| == 1 {
      c := r[0];
    } else if |r| == 2 {
      var h, l := Bits(r[0], 0xC0), Bits(r[1], 0x80);
      FromTwo(h, l);
      c := Then(h, l);
    } else if |r| == 3 {
      var h, m, l := Bits(r[0], 0xE0), Bits(r[1], 0x80), Bits(r[2], 0x80);
      FromThree(h, m, l);
      c := Then(Then(h, m), l);
    } else {
      var h, k, m, l := Bits(r[0], 0xF0), Bits(r[1], 0x80), Bits(r[2], 0x80), Bits(r[3], 0x80);
      FromFour(h, k, m, l);
      c := Then(Then(Then(h, k), m), l);
    }
  }

  predicate Scalars(cs: seq<int>) { forall i :: 0 <= i < |cs| ==> Scalar(cs[i]) }

  function EncodeAll(cs: seq<int>): seq<Byte>
    requires Scalars(cs)
  {
    if cs == [] then [] else Encode(cs[0]) + EncodeAll(cs[1..])
  }

  lemma {:induction false} EncodedIsValid(cs: seq<int>)
    requires Scalars(cs)
    ensures Valid(EncodeAll(cs))
  {
    if cs != [] {
      EncodedIsValid(cs[1..]);
      EncodedIsRune(cs[0]);
      var r, s := Encode(cs[0]), EncodeAll(cs);
      assert s[..|r|] == r && s[|r|..] == EncodeAll(cs[1..]);
    }
  }

  lemma {:induction false} ValidIsEncoded(s: seq<Byte>) returns (cs: seq<int>)
    requires Valid(s)
    ensures Scalars(cs) && EncodeAll(cs) == s
    decreases |s|
  {
    cs := [];
    if s != [] {
      var n := SizeOf(s[0]);
      var c := RuneIsEncoded(s[..n]);
      var more := ValidIsEncoded(s[n..]);
      cs := [c] + more;
      assert cs[1..] == more && s == s[..n] + s[n..];
    }
  }

  /** Valid text is the encoding of some characters: the grammar of section 4 and the
      arithmetic of section 3 agree. */
  lemma ValidIff(s: seq<Byte>)
    ensures Valid(s) <==> exists cs :: Scalars(cs) && EncodeAll(cs) == s
  {
    if Valid(s) { var cs := ValidIsEncoded(s); }
    forall cs | Scalars(cs) && EncodeAll(cs) == s ensures Valid(s) { EncodedIsValid(cs); }
  }
}
