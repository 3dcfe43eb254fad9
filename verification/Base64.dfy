/** Unpadded base64 (section 4 of RFC 4648; padding is described in its section 3.2) and the trimming
    that DecodeBatch applies before decoding (internal/frame/crypto.go). */
module Base64 {
  import opened Bytes

  type sextet = v: int | 0 <= v < 64

  function Char(v: sextet): (c: byte) {
    if v < 26 then v + 65
    else if v < 52 then v + 71
    else if v < 62 then v - 4
    else if v == 62 then 43 else 47
  }

  function Digit(c: byte): (r: Option<sextet>) {
    if 65 <= c <= 90 then Some(c - 65)
    else if 97 <= c <= 122 then Some(c - 71)
    else if 48 <= c <= 57 then Some(c + 4)
    else if c == 43 then Some(62)
    else if c == 47 then Some(63)
    else None
  }

  lemma DigitOfChar(v: sextet)
    ensures Digit(Char(v)) == Some(v)
  {
  }

  const UPPER: string := "ABCDEFGHIJKLMNOPQRSTUVWXYZ"
  const LOWER: string := "abcdefghijklmnopqrstuvwxyz"
  const OTHERS: string := "0123456789+/"
  const ALPHABET: string := UPPER + LOWER + OTHERS

  /** The characters are those of table 1 of RFC 4648, in its order. */
  lemma Alphabet(v: sextet)
    ensures |ALPHABET| == 64 && Char(v) == ALPHABET[v] as int
  {
    assert |UPPER| == |LOWER| == 26 && |OTHERS| == 12;
    if v < 26 { Upper(v); } else if v < 52 { Lower(v - 26); } else { Others(v - 52); }
  }

  lemma Upper(i: nat)
    requires i < 26
    ensures UPPER[i] as int == 65 + i
  {
  }

  lemma Lower(i: nat)
    requires i < 26
    ensures LOWER[i] as int == 97 + i
  {
  }

  lemma Others(i: nat)
    requires i < 12
    ensures OTHERS[i] as int == if i < 10 then 48 + i else if i == 10 then 43 else 47
  {
  }

  function Encode(b: bytes): (s: bytes) {
    if |b| == 0 then []
    else if |b| == 1 then [Char(b[0] / 4), Char(b[0] % 4 * 16)]
    else if |b| == 2 then [Char(b[0] / 4), Char(b[0] % 4 * 16 + b[1] / 16), Char(b[1] % 16 * 4)]
    else
      [Char(b[0] / 4), Char(b[0] % 4 * 16 + b[1] / 16), Char(b[1] % 16 * 4 + b[2] / 64), Char(b[2] % 64)]
        + Encode(b[3..])
  }

  /** The number of characters: ceil(8n / 6). */
  function EncodedLen(n: nat): nat {
    n / 3 * 4 + (n % 3 * 8 + 5) / 6
  }

  function DecodeDigits(s: bytes): (r: Option<bytes>) {
    if |s| == 0 then Some([])
    else if |s| == 1 || Digit(s[0]).None? || Digit(s[1]).None? then None
    else
      var w, x := Digit(s[0]).value, Digit(s[1]).value;
      var a: byte := w * 4 + x / 16;
      if |s| == 2 then Some([a])
      else if Digit(s[2]).None? then None
      else
        var y := Digit(s[2]).value;
        var b: byte := x % 16 * 16 + y / 4;
        if |s| == 3 then Some([a, b])
        else if Digit(s[3]).None? then None
        else
          var c: byte := y % 4 * 64 + Digit(s[3]).value;
          match DecodeDigits(s[4..])
          case None => None
          case Some(rest) => Some([a, b, c] + rest)
  }

  predicate IsNewline(c: byte) {
    c == 10 || c == 13
  }

  /** Go's decoder skips carriage returns and line feeds wherever they are. */
  function DropNewlines(s: bytes): bytes {
    if s == [] then [] else (if IsNewline(s[0]) then [] else [s[0]]) + DropNewlines(s[1..])
  }

  function Decode(s: bytes): Option<bytes> {
    DecodeDigits(DropNewlines(s))
  }

  lemma {:induction false} EncodeLength(b: bytes)
    ensures |Encode(b)| == EncodedLen(|b|)
  {
    if |b| >= 3 {
      EncodeLength(b[3..]);
    }
  }

  lemma {:induction false} EncodeAlphabet(b: bytes)
    ensures forall i :: 0 <= i < |Encode(b)| ==> Digit(Encode(b)[i]).Some?
  {
    if |b| >= 3 {
      EncodeAlphabet(b[3..]);
    }
  }

  lemma Recombine(a: byte, b: byte, c: byte)
    ensures a / 4 * 4 + (a % 4 * 16 + b / 16) / 16 == a
    ensures (a % 4 * 16 + b / 16) % 16 * 16 + (b % 16 * 4 + c / 64) / 4 == b
    ensures (b % 16 * 4 + c / 64) % 4 * 64 + c % 64 == c
  {
  }

  /** Three bytes, as one number with the first byte highest, are written as its four base-64 digits, the
      highest first. */
  lemma EncodesBits(a: byte, b: byte, c: byte, rest: bytes)
    ensures var n := a * 65536 + b * 256 + c;
            Encode([a, b, c] + rest)
              == [Char(n / 262144), Char(n / 4096 % 64), Char(n / 64 % 64), Char(n % 64)] + Encode(rest)
  {
    hide Char;
    assert ([a, b, c] + rest)[3..] == rest;
    FourDigits(a / 4, a % 4 * 16 + b / 16, b % 16 * 4 + c / 64, c % 64);
  }

  /** One or two bytes at the end are filled up with zero bits. */
  lemma EncodesTail(a: byte, b: byte)
    ensures var n := (a * 256 + b) * 4; Encode([a, b]) == [Char(n / 4096), Char(n / 64 % 64), Char(n % 64)]
    ensures var n := a * 16; Encode([a]) == [Char(n / 64), Char(n % 64)]
  {
    hide Char;
    FourDigits(0, a / 4, a % 4 * 16 + b / 16, b % 16 * 4);
    FourDigits(0, 0, a / 4, a % 4 * 16);
  }

  lemma FourDigits(d: sextet, e: sextet, f: sextet, g: sextet)
    ensures var n := d * 262144 + e * 4096 + f * 64 + g;
            n / 262144 == d && n / 4096 == d * 64 + e && n / 4096 % 64 == e && n / 64 == d * 4096 + e * 64 + f
              && n / 64 % 64 == f && n % 64 == g
  {
  }

  lemma DecodeQuad(a: byte, b: byte, c: byte, rest: bytes)
    requires DecodeDigits(Encode(rest)) == Some(rest)
    ensures DecodeDigits(Encode([a, b, c] + rest)) == Some([a, b, c] + rest)
  {
    var s := Encode([a, b, c] + rest);
    assert ([a, b, c] + rest)[3..] == rest;
    assert s[4..] == Encode(rest);
    DigitOfChar(a / 4);
    DigitOfChar(a % 4 * 16 + b / 16);
    DigitOfChar(b % 16 * 4 + c / 64);
    DigitOfChar(c % 64);
    Recombine(a, b, c);
  }

  lemma {:induction false} DecodeDigitsOfEncode(b: bytes)
    ensures DecodeDigits(Encode(b)) == Some(b)
  {
    if |b| >= 3 {
      DecodeDigitsOfEncode(b[3..]);
      DecodeQuad(b[0], b[1], b[2], b[3..]);
      assert b == [b[0], b[1], b[2]] + b[3..];
    } else if |b| == 2 {
      Recombine(b[0], b[1], 0);
      DigitOfChar(b[0] / 4);
      DigitOfChar(b[0] % 4 * 16 + b[1] / 16);
      DigitOfChar(b[1] % 16 * 4);
      assert b == [b[0], b[1]];
    } else if |b| == 1 {
      Recombine(b[0], 0, 0);
      DigitOfChar(b[0] / 4);
      DigitOfChar(b[0] % 4 * 16);
      assert b == [b[0]];
    }
  }

  lemma {:induction false} NoNewlines(s: bytes)
    requires forall i :: 0 <= i < |s| ==> !IsNewline(s[i])
    ensures DropNewlines(s) == s
  {
    if s != [] {
      NoNewlines(s[1..]);
    }
  }

  lemma DecodeOfEncode(b: bytes)
    ensures Decode(Encode(b)) == Some(b)
  {
    EncodeAlphabet(b);
    NoNewlines(Encode(b));
    DecodeDigitsOfEncode(b);
  }

  predicate AllDigits(s: bytes) {
    forall i :: 0 <= i < |s| ==> Digit(s[i]).Some?
  }

  /** Text without line breaks decodes if and only if it has digits only and no lone digit at its end. */
  lemma {:induction false} DecodeDigitsIff(s: bytes)
    ensures DecodeDigits(s).Some? <==> |s| % 4 != 1 && AllDigits(s)
    decreases |s|
  {
    hide Digit;
    if |s| >= 4 {
      var rest := s[4..];
      DecodeDigitsIff(rest);
      assert AllDigits(s) <==> AllDigits(s[..4]) && AllDigits(rest) by {
        assert forall i :: 0 <= i < |rest| ==> rest[i] == s[i + 4];
        assert AllDigits(s[..4]) && AllDigits(rest) ==>
            forall i :: 4 <= i < |s| ==> s[i] == rest[i - 4] && Digit(rest[i - 4]).Some?;
      }
      assert AllDigits(s[..4]) <==>
             Digit(s[0]).Some? && Digit(s[1]).Some? && Digit(s[2]).Some? && Digit(s[3]).Some?;
    }
  }

  /** The bytes encode to the same text but for its last digit, whose low bits may be lost. */
  lemma {:induction false} EncodeOfDecode(s: bytes)
    requires DecodeDigits(s).Some?
    ensures var e, sure := Encode(DecodeDigits(s).value), if |s| % 4 == 0 then |s| else |s| - 1;
            |e| == |s| && e[..sure] == s[..sure]
    decreases |s|
  {
    hide Encode, DecodeDigits;
    if |s| >= 4 {
      QuadSure(s);
      EncodeOfDecode(s[4..]);
      assert s == s[..4] + s[4..];
    } else if s != [] {
      TailSure(s);
    } else {
      NothingDecodes();
    }
  }

  lemma NothingDecodes()
    ensures DecodeDigits([]) == Some([]) && Encode([]) == []
  {
  }

  lemma CharOfDigit(c: byte)
    requires Digit(c).Some?
    ensures Char(Digit(c).value) == c
  {
  }

  lemma DecodeTurn(s: bytes)
    requires |s| >= 4 && DecodeDigits(s).Some?
    ensures Digit(s[0]).Some? && Digit(s[1]).Some? && Digit(s[2]).Some? && Digit(s[3]).Some?
    ensures DecodeDigits(s[4..]).Some?
    ensures var w, x, y, z := Digit(s[0]).value, Digit(s[1]).value, Digit(s[2]).value, Digit(s[3]).value;
            DecodeDigits(s).value
              == [w * 4 + x / 16, x % 16 * 16 + y / 4, y % 4 * 64 + z] + DecodeDigits(s[4..]).value
  {
    hide Digit;
  }

  lemma QuadSure(s: bytes)
    requires |s| >= 4 && DecodeDigits(s).Some?
    ensures DecodeDigits(s[4..]).Some?
            && Encode(DecodeDigits(s).value) == s[..4] + Encode(DecodeDigits(s[4..]).value)
  {
    hide Digit, Char, Encode, DecodeDigits;
    DecodeTurn(s);
    CharOfDigit(s[0]);
    CharOfDigit(s[1]);
    CharOfDigit(s[2]);
    CharOfDigit(s[3]);
    var rest := DecodeDigits(s[4..]).value;
    QuadBack(Digit(s[0]).value, Digit(s[1]).value, Digit(s[2]).value, Digit(s[3]).value, rest);
    assert s[..4] == [s[0], s[1], s[2], s[3]];
  }

  lemma QuadBack(w: sextet, x: sextet, y: sextet, z: sextet, rest: bytes)
    ensures Encode([w * 4 + x / 16, x % 16 * 16 + y / 4, y % 4 * 64 + z] + rest)
         == [Char(w), Char(x), Char(y), Char(z)] + Encode(rest)
  {
    hide Char;
    Resplit(w, x, y, z);
    var group: bytes := [w * 4 + x / 16, x % 16 * 16 + y / 4, y % 4 * 64 + z];
    assert (group + rest)[3..] == rest;
  }

  lemma Resplit(w: sextet, x: sextet, y: sextet, z: sextet)
    ensures var a, b, c := w * 4 + x / 16, x % 16 * 16 + y / 4, y % 4 * 64 + z;
            a / 4 == w && a % 4 * 16 + b / 16 == x && b % 16 * 4 + c / 64 == y && c % 64 == z
  {
  }

  lemma TailSure(s: bytes)
    requires 0 < |s| < 4 && DecodeDigits(s).Some?
    ensures var e := Encode(DecodeDigits(s).value); |e| == |s| && e[..|s| - 1] == s[..|s| - 1]
  {
    CharOfDigit(s[0]);
    CharOfDigit(s[1]);
    if |s| == 3 {
      Resplit(Digit(s[0]).value, Digit(s[1]).value, Digit(s[2]).value, 0);
    }
  }

  // ----- trimming -----

  const PAD: byte := 61

  // White-space characters of one, two and three bytes in UTF-8.

  predicate Space1(a: byte) {
    9 <= a <= 13 || a == 32
  }

  predicate Space2(a: byte, b: byte) {
    a == 0xC2 && (b == 0x85 || b == 0xA0)
  }

  predicate Space3(a: byte, b: byte, c: byte) {
    || (a == 0xE1 && b == 0x9A && c == 0x80)
    || (a == 0xE2 && b == 0x80 && (0x80 <= c <= 0x8A || c == 0xA8 || c == 0xA9 || c == 0xAF))
    || (a == 0xE2 && b == 0x81 && c == 0x9F)
    || (a == 0xE3 && b == 0x80 && c == 0x80)
  }

  predicate IsSpace(c: bytes) {
    (|c| == 1 && Space1(c[0])) || (|c| == 2 && Space2(c[0], c[1])) || (|c| == 3 && Space3(c[0], c[1], c[2]))
  }

  /** The length of the white-space character that s starts with, or 0. */
  function FrontSpace(s: bytes): (k: nat)
    ensures k <= |s|
  {
    if |s| >= 1 && Space1(s[0]) then 1
    else if |s| >= 2 && Space2(s[0], s[1]) then 2
    else if |s| >= 3 && Space3(s[0], s[1], s[2]) then 3
    else 0
  }

  /** The length of the one that s ends with, or 0. */
  function EndSpace(s: bytes): (k: nat)
    ensures k <= |s|
  {
    var n := |s|;
    if n >= 1 && Space1(s[n - 1]) then 1
    else if n >= 2 && Space2(s[n - 2], s[n - 1]) then 2
    else if n >= 3 && Space3(s[n - 3], s[n - 2], s[n - 1]) then 3
    else 0
  }

  function TrimLeft(s: bytes): bytes {
    if FrontSpace(s) > 0 then TrimLeft(s[FrontSpace(s)..]) else s
  }

  function TrimRight(s: bytes): bytes {
    if EndSpace(s) > 0 then TrimRight(s[..|s| - EndSpace(s)]) else s
  }

  function TrimPadding(s: bytes): bytes {
    if s != [] && s[|s| - 1] == PAD then TrimPadding(s[..|s| - 1]) else s
  }

  /** bytes.TrimRight(bytes.TrimSpace(body), "="). */
  function Trim(body: bytes): bytes {
    TrimPadding(TrimRight(TrimLeft(body)))
  }

  predicate AllSpaces(cs: seq<bytes>) {
    forall i :: 0 <= i < |cs| ==> IsSpace(cs[i])
  }

  /** Nothing but white space. */
  ghost predicate Blank(s: bytes) {
    exists cs: seq<bytes> :: AllSpaces(cs) && s == Concat(cs)
  }

  lemma NothingIsBlank()
    ensures Blank([])
  {
    assert AllSpaces([]) && Concat([]) == [];
  }

  predicate Padding(s: bytes) {
    forall i :: 0 <= i < |s| ==> s[i] == PAD
  }

  /** Neither an ASCII space nor part of any other. */
  predicate Solid(c: byte) {
    c < 0x80 && !Space1(c)
  }

  lemma SpaceAround(c: bytes, s: bytes)
    requires IsSpace(c)
    ensures FrontSpace(c + s) == |c| && EndSpace(s + c) == |c|
    ensures (c + s)[|c|..] == s && (s + c)[..|s|] == s
  {
  }

  lemma SolidEnds(s: bytes)
    requires s != []
    ensures Solid(s[0]) ==> FrontSpace(s) == 0
    ensures Solid(s[|s| - 1]) ==> EndSpace(s) == 0
  {
  }

  lemma {:induction false} TrimLeftBlank(cs: seq<bytes>, s: bytes)
    requires AllSpaces(cs) && (s != [] ==> Solid(s[0]))
    ensures TrimLeft(Concat(cs) + s) == s
  {
    if cs == [] {
      assert Concat(cs) + s == s;
      if s != [] { SolidEnds(s); }
    } else {
      var rest := Concat(cs[1..]) + s;
      assert Concat(cs) + s == cs[0] + rest;
      SpaceAround(cs[0], rest);
      TrimLeftBlank(cs[1..], s);
    }
  }

  lemma {:induction false} TrimRightBlank(s: bytes, cs: seq<bytes>)
    requires AllSpaces(cs) && (s != [] ==> Solid(s[|s| - 1]))
    ensures TrimRight(s + Concat(cs)) == s
  {
    if cs == [] {
      assert s + Concat(cs) == s;
      if s != [] { SolidEnds(s); }
    } else {
      var last := |cs| - 1;
      var rest := s + Concat(cs[..last]);
      ConcatAppend(cs[..last], cs[last..]);
      assert cs == cs[..last] + cs[last..];
      assert Concat(cs[last..]) == cs[last] + Concat([]);
      assert s + Concat(cs) == rest + cs[last];
      SpaceAround(cs[last], rest);
      TrimRightBlank(s, cs[..last]);
    }
  }

  lemma {:induction false} TrimPaddingOnly(s: bytes, pad: bytes)
    requires Padding(pad) && (s == [] || s[|s| - 1] != PAD)
    ensures TrimPadding(s + pad) == s
  {
    if pad == [] {
      assert s + pad == s;
    } else {
      TrimPaddingOnly(s, pad[..|pad| - 1]);
      assert (s + pad)[..|s + pad| - 1] == s + pad[..|pad| - 1];
    }
  }

  /** Padded or unpadded, with or without surrounding white space, an encoding decodes to its bytes. */
  lemma DecodeTolerant(before: bytes, b: bytes, pad: bytes, after: bytes)
    requires Blank(before) && Padding(pad) && Blank(after) && b != []
    ensures Decode(Trim(before + Encode(b) + pad + after)) == Some(b)
  {
    var e := Encode(b);
    EncodeAlphabet(b);
    EncodeLength(b);
    assert e != [];
    var core := e + pad;
    assert before + e + pad + after == before + (core + after);
    var front: seq<bytes> :| AllSpaces(front) && before == Concat(front);
    var back: seq<bytes> :| AllSpaces(back) && after == Concat(back);
    TrimLeftBlank(front, core + after);
    TrimRightBlank(core, back);
    TrimPaddingOnly(e, pad);
    DecodeOfEncode(b);
  }
}
