/**
 * `Buffer.prototype.toString('base64')`: the base 64 encoding of section 4 of RFC 4648, with the
 * standard alphabet and `=` padding, as the route applies it to an uploaded image's bytes.
 */
module Base64 {

  newtype byte = x: int | 0 <= x < 256

  /** The characters of the base 64 alphabet (Table 1 of RFC 4648), `=` padding aside. */
  predicate IsDigitChar(c: char) {
    ('A' <= c <= 'Z') || ('a' <= c <= 'z') || ('0' <= c <= '9') || c == '+' || c == '/'
  }

  predicate IsBase64Char(c: char) {
    IsDigitChar(c) || c == '='
  }

  /** The alphabet character of a six-bit value: 0-25 are `A`-`Z`, 26-51 `a`-`z`, 52-61 `0`-`9`,
      62 is `+` and 63 is `/`. */
  function Digit(x: int): (c: char)
    requires 0 <= x < 64
    ensures IsDigitChar(c)
  {
    if x < 26 then ('A' as int + x) as char
    else if x < 52 then ('a' as int + x - 26) as char
    else if x < 62 then ('0' as int + x - 52) as char
    else if x == 62 then '+'
    else '/'
  }

  /** The six-bit value an alphabet character stands for; 0 for any other character. */
  function Value(c: char): (v: int)
    ensures 0 <= v < 64
  {
    if 'A' <= c <= 'Z' then c as int - 'A' as int
    else if 'a' <= c <= 'z' then c as int - 'a' as int + 26
    else if '0' <= c <= '9' then c as int - '0' as int + 52
    else if c == '+' then 62
    else if c == '/' then 63
    else 0
  }

  lemma ValueOfDigit(x: int)
    requires 0 <= x < 64
    ensures Value(Digit(x)) == x
  {
  }

  /** The four six-bit values of a group: the top six bits of the first byte, its low two bits
      with the top four of the second, the second's low four with the top two of the third, and
      the third's low six. */
  function First6(b0: int): (x: int)
    requires 0 <= b0 < 256
    ensures 0 <= x < 64
  {
    b0 / 4
  }

  function Second6(b0: int, b1: int): (x: int)
    requires 0 <= b0 < 256 && 0 <= b1 < 256
    ensures 0 <= x < 64
  {
    (b0 % 4) * 16 + b1 / 16
  }

  function Third6(b1: int, b2: int): (x: int)
    requires 0 <= b1 < 256 && 0 <= b2 < 256
    ensures 0 <= x < 64
  {
    (b1 % 16) * 4 + b2 / 64
  }

  function Fourth6(b2: int): (x: int)
    requires 0 <= b2 < 256
    ensures 0 <= x < 64
  {
    b2 % 64
  }

  /** One group of one to three bytes as four characters, `=` standing for each missing byte. */
  function Group(g: seq<byte>): (r: string)
    requires 1 <= |g| <= 3
    ensures |r| == 4 && forall i :: 0 <= i < 4 ==> IsBase64Char(r[i])
  {
    var b0 := g[0] as int;
    var b1 := if |g| > 1 then g[1] as int else 0;
    var b2 := if |g| > 2 then g[2] as int else 0;
    [ Digit(First6(b0)),
      Digit(Second6(b0, b1)),
      if |g| > 1 then Digit(Third6(b1, b2)) else '=',
      if |g| > 2 then Digit(Fourth6(b2)) else '=' ]
  }

  /** Four characters back to the one to three bytes they encode, the padding telling how many. */
  function DecodeGroup(s: string): seq<byte>
    requires |s| == 4
  {
    var v0, v1, v2, v3 := Value(s[0]), Value(s[1]), Value(s[2]), Value(s[3]);
    var b0 := (v0 * 4 + v1 / 16) as byte;
    var b1 := ((v1 % 16) * 16 + v2 / 4) as byte;
    var b2 := ((v2 % 4) * 64 + v3) as byte;
    if s[2] == '=' then [b0] else if s[3] == '=' then [b0, b1] else [b0, b1, b2]
  }

  /** Decoding a group's four characters gives back its bytes. */
  lemma GroupRoundTrip(g: seq<byte>)
    requires 1 <= |g| <= 3
    ensures DecodeGroup(Group(g)) == g
  {
    var b0 := g[0] as int;
    var b1 := if |g| > 1 then g[1] as int else 0;
    var b2 := if |g| > 2 then g[2] as int else 0;
    var r := Group(g);
    ValueOfDigit(First6(b0));
    ValueOfDigit(Second6(b0, b1));
    assert Second6(b0, b1) / 16 == b0 % 4 && Second6(b0, b1) % 16 == b1 / 16;
    if |g| > 1 {
      ValueOfDigit(Third6(b1, b2));
      assert Third6(b1, b2) / 4 == b1 % 16 && Third6(b1, b2) % 4 == b2 / 64;
    }
    if |g| > 2 {
      ValueOfDigit(Fourth6(b2));
    }
  }

  /** The number of groups of at most three bytes that `n` bytes form. */
  function GroupCount(n: nat): nat {
    if n == 0 then 0 else 1 + GroupCount(if n <= 3 then 0 else n - 3)
  }

  /** There are `n / 3` groups, rounded up. */
  lemma {:induction false} GroupCountRoundsUp(n: nat)
    ensures GroupCount(n) == (n + 2) / 3
  {
    if n > 3 {
      GroupCountRoundsUp(n - 3);
    }
  }

  /** Every three bytes become four characters; a last group of one or two bytes is padded. */
  function Encode(b: seq<byte>): (r: string)
    ensures |r| == 4 * GroupCount(|b|)
    ensures forall i :: 0 <= i < |r| ==> IsBase64Char(r[i])
    decreases |b|
  {
    if |b| == 0 then ""
    else if |b| <= 3 then Group(b)
    else
      var g := Group(b[..3]);
      var rest := Encode(b[3..]);
      assert forall i :: 4 <= i < |g + rest| ==> (g + rest)[i] == rest[i - 4];
      g + rest
  }

  /** The standard decoding, group by group. */
  function Decode(s: string): seq<byte>
    decreases |s|
  {
    if |s| < 4 then [] else DecodeGroup(s[..4]) + Decode(s[4..])
  }

  /** The encoding carries exactly the bytes: decoding it gives them back. */
  lemma {:induction false} DecodeEncode(b: seq<byte>)
    ensures Decode(Encode(b)) == b
    decreases |b|
  {
    if 0 < |b| <= 3 {
      GroupRoundTrip(b);
      assert Group(b)[..4] == Group(b);
    } else if |b| > 3 {
      var g := Group(b[..3]);
      var rest := Encode(b[3..]);
      assert Encode(b) == g + rest;
      assert (g + rest)[..4] == g && (g + rest)[4..] == rest;
      GroupRoundTrip(b[..3]);
      DecodeEncode(b[3..]);
      assert b[..3] + b[3..] == b;
    }
  }

  /** The test vectors of section 10 of RFC 4648 for "f", "fo" and "foo". */
  lemma TestVectors()
    ensures Encode([102]) == "Zg=="
    ensures Encode([102, 111]) == "Zm8="
    ensures Encode([102, 111, 111]) == "Zm9v"
  {
  }

  /** The length of the encoding: four characters for every started group of three bytes. */
  lemma EncodeLength(b: seq<byte>)
    ensures |Encode(b)| == 4 * ((|b| + 2) / 3)
  {
    GroupCountRoundsUp(|b|);
  }

  /** The encoding of an empty buffer is the empty (falsy) string, and only that one. */
  lemma EncodeEmptyIff(b: seq<byte>)
    ensures Encode(b) == "" <==> b == []
  {
  }
}
