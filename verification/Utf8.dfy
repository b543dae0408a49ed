/** Well-formed UTF-8 is exactly what encoding Unicode characters yields. */
module Utf8 {
  import opened Secrets
  import opened Text

  /** The code points that are characters: all but the surrogates. */
  predicate Scalar(c: nat) {
    c < 0xD800 || 0xE000 <= c < 0x11_0000
  }

  function Byte(n: nat): char
    requires n < 256
  {
    n as char
  }

  /** One character in one to four bytes, six bits to every byte but the first. */
  function Encoded(c: nat): string
    requires Scalar(c)
  {
    if c < 0x80 then [Byte(c)]
    else if c < 0x800 then [Byte(0xC0 + c / 64), Byte(0x80 + c % 64)]
    else if c < 0x1_0000 then [Byte(0xE0 + c / 4096), Byte(0x80 + c / 64 % 64), Byte(0x80 + c % 64)]
    else [Byte(0xF0 + c / 262144), Byte(0x80 + c / 4096 % 64), Byte(0x80 + c / 64 % 64), Byte(0x80 + c % 64)]
  }

  function AllEncoded(cs: seq<nat>): string
    requires forall c :: c in cs ==> Scalar(c)
  {
    if cs == [] then "" else
      assert cs[0] in cs && forall c :: c in cs[1..] ==> c in cs;
      Encoded(cs[0]) + AllEncoded(cs[1..])
  }

  lemma EncodedIsRune(c: nat, rest: string)
    requires Scalar(c)
    ensures RuneLength(Encoded(c) + rest) == |Encoded(c)| > 0
  {
    EncodedAlone(c);
    hide RuneLength, Encoded;
    RuneInPrefix(Encoded(c), rest);
  }

  lemma EncodedAlone(c: nat)
    requires Scalar(c)
    ensures RuneLength(Encoded(c)) == |Encoded(c)| > 0
  {
    hide RuneLength;
    if c < 0x800 {
      EncodedShort(c);
    } else if c < 0x1_0000 {
      EncodedInThree(c, c / 4096, c / 64 % 64, c % 64);
    } else {
      EncodedInFour(c, c / 262144, c / 4096 % 64, c / 64 % 64, c % 64);
    }
  }

  lemma EncodedShort(c: nat)
    requires c < 0x800
    ensures RuneLength(Encoded(c)) == |Encoded(c)| > 0
  {
  }

  lemma EncodedInThree(c: nat, x: nat, y: nat, z: nat)
    requires Scalar(c) && 0x800 <= c < 0x1_0000 && x == c / 4096 && y == c / 64 % 64 && z == c % 64
    ensures RuneLength([Byte(0xE0 + x), Byte(0x80 + y), Byte(0x80 + z)]) == 3
  {
    assert c == x * 4096 + y * 64 + z;
  }

  lemma EncodedInFour(c: nat, u: nat, x: nat, y: nat, z: nat)
    requires 0x1_0000 <= c < 0x11_0000 && u == c / 262144 && x == c / 4096 % 64 && y == c / 64 % 64 && z == c % 64
    ensures RuneLength([Byte(0xF0 + u), Byte(0x80 + x), Byte(0x80 + y), Byte(0x80 + z)]) == 4
  {
    assert c / 4096 == u * 64 + x;
  }

  function Low(b: char): nat
    requires Continuation(b)
  {
    b as nat - 0x80
  }

  /** The character a well-formed sequence stands for. */
  function Decoded(s: string): (c: nat)
    requires RuneLength(s) > 0
    ensures Scalar(c)
  {
    var n := RuneLength(s);
    if n == 1 then s[0] as nat
    else if n == 2 then (s[0] as nat - 0xC0) * 64 + Low(s[1])
    else if n == 3 then (s[0] as nat - 0xE0) * 4096 + Low(s[1]) * 64 + Low(s[2])
    else (s[0] as nat - 0xF0) * 262144 + Low(s[1]) * 4096 + Low(s[2]) * 64 + Low(s[3])
  }

  lemma ShortRune(s: string)
    requires 1 <= RuneLength(s) <= 2
    ensures Encoded(Decoded(s)) == s[..RuneLength(s)]
  {
    hide Scalar;
  }

  lemma LongRune(s: string)
    requires RuneLength(s) == 3
    ensures Encoded(Decoded(s)) == s[..3]
  {
    hide Scalar;
    var a, b, c := s[0] as nat - 0xE0, Low(s[1]), Low(s[2]);
    ThreeDigits(a, b, c);
    assert Decoded(s) == a * 4096 + b * 64 + c;
    hide RuneLength;
    assert s[..3] == [s[0], s[1], s[2]];
  }

  lemma ThreeDigits(a: nat, b: nat, c: nat)
    requires b < 64 && c < 64
    ensures var n := a * 4096 + b * 64 + c;
      n % 64 == c && n / 64 == a * 64 + b && n / 64 % 64 == b && n / 4096 == a
  {
    assert (a * 4096 + b * 64 + c) / 64 == a * 64 + b;
  }

  lemma LongestRune(s: string)
    requires RuneLength(s) == 4
    ensures Encoded(Decoded(s)) == s[..4]
  {
    hide Scalar;
    var a, b, c, d := s[0] as nat - 0xF0, Low(s[1]), Low(s[2]), Low(s[3]);
    FourDigits(a, b, c, d);
    assert Decoded(s) == a * 262144 + b * 4096 + c * 64 + d;
    hide RuneLength;
    assert s[..4] == [s[0], s[1], s[2], s[3]];
  }

  lemma FourDigits(a: nat, b: nat, c: nat, d: nat)
    requires b < 64 && c < 64 && d < 64
    ensures var n := a * 262144 + b * 4096 + c * 64 + d;
      n % 64 == d && n / 64 % 64 == c && n / 4096 % 64 == b && n / 262144 == a
  {
    ThreeDigits(a, b, c);
    var n := a * 262144 + b * 4096 + c * 64 + d;
    assert n / 64 == a * 4096 + b * 64 + c;
    assert n / 4096 == n / 64 / 64 && n / 262144 == n / 64 / 4096;
  }

  /** Decoding and encoding again gives the same bytes. */
  lemma RuneIsEncoded(s: string)
    requires RuneLength(s) > 0
    ensures Encoded(Decoded(s)) == s[..RuneLength(s)]
  {
    hide Encoded, Decoded;
    if RuneLength(s) <= 2 {
      ShortRune(s);
    } else if RuneLength(s) == 3 {
      LongRune(s);
    } else {
      LongestRune(s);
    }
  }

  lemma {:induction false} EncodedIsValid(cs: seq<nat>)
    requires forall c :: c in cs ==> Scalar(c)
    ensures ValidUtf8(AllEncoded(cs))
  {
    hide RuneLength, Encoded;
    if cs != [] {
      assert cs[0] in cs && forall c :: c in cs[1..] ==> c in cs;
      var first, rest := Encoded(cs[0]), AllEncoded(cs[1..]);
      EncodedIsRune(cs[0], rest);
      EncodedIsValid(cs[1..]);
      assert (first + rest)[|first|..] == rest;
    }
  }

  lemma {:induction false} ValidIsEncoded(s: string) returns (cs: seq<nat>)
    requires ValidUtf8(s)
    ensures (forall c :: c in cs ==> Scalar(c)) && AllEncoded(cs) == s
    decreases |s|
  {
    hide RuneLength, Encoded, Decoded;
    if s == "" {
      cs := [];
    } else {
      var n := RuneLength(s);
      RuneIsEncoded(s);
      var rest := ValidIsEncoded(s[n..]);
      cs := [Decoded(s)] + rest;
      assert cs[1..] == rest && s == s[..n] + s[n..];
    }
  }

  ghost predicate Spells(s: string, cs: seq<nat>) {
    (forall c :: c in cs ==> Scalar(c)) && s == AllEncoded(cs)
  }

  /** The scan accepts exactly the encodings of characters. */
  lemma ValidExactly(s: string)
    ensures ValidUtf8(s) <==> exists cs :: Spells(s, cs)
  {
    hide ValidUtf8, AllEncoded;
    if ValidUtf8(s) {
      var cs := ValidIsEncoded(s);
      assert Spells(s, cs);
    }
    forall cs | Spells(s, cs) ensures ValidUtf8(s) {
      EncodedIsValid(cs);
    }
  }

  /** Unicode's White_Space. */
  predicate WhiteSpace(c: nat) {
    9 <= c <= 13 || 0x2000 <= c <= 0x200A || c in {0x20, 0x85, 0xA0, 0x1680, 0x2028, 0x2029, 0x202F, 0x205F, 0x3000}
  }

  /** At the start of a text, exactly white space is trimmed, one character at a time. */
  lemma LeadingExactly(c: nat, rest: string)
    requires Scalar(c)
    ensures LeadingSpace(Encoded(c) + rest) == if WhiteSpace(c) then |Encoded(c)| else 0
  {
    var s, e := Encoded(c) + rest, Encoded(c);
    assert forall i :: 0 <= i < |e| ==> s[i] == e[i];
  }

  /** At its end likewise. */
  lemma TrailingExactly(front: string, c: nat)
    requires Scalar(c)
    ensures TrailingSpace(front + Encoded(c)) == if WhiteSpace(c) then |Encoded(c)| else 0
  {
    var s, e := front + Encoded(c), Encoded(c);
    assert forall i :: 0 <= i < |e| ==> s[|front| + i] == e[i];
  }
}
