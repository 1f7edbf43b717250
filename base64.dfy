/**
 * The base64 encoding of section 4 of RFC 4648 (alphabet A-Z, a-z, 0-9,
 * '+', '/', padding with '='), which the document listing applies to every
 * stored file, together with a decoder that is its exact inverse.
 *
 * Encoding goes in two steps: bytes are regrouped into 6-bit values
 * (`Sextets`), which are then spelled with the alphabet and padded. The
 * decoder undoes the spelling (`Values`) and the regrouping (`Regroup`).
 */
module Base64 {
  import opened Js

  newtype byte = x: int | 0 <= x < 256

  /** The characters of the base64 alphabet (padding excluded). */
  predicate IsAlphabetChar(c: char) {
    ('A' <= c <= 'Z') || ('a' <= c <= 'z') || ('0' <= c <= '9') || c == '+' || c == '/'
  }

  /** The alphabet character for a 6-bit value (table 1 of RFC 4648). */
  function EncodeChar(v: int): (c: char)
    requires 0 <= v < 64
    ensures IsAlphabetChar(c)
  {
    if v < 26 then ('A' as int + v) as char
    else if v < 52 then ('a' as int + (v - 26)) as char
    else if v < 62 then ('0' as int + (v - 52)) as char
    else if v == 62 then '+'
    else '/'
  }

  /** The 6-bit value of an alphabet character. */
  function DecodeChar(c: char): (v: int)
    requires IsAlphabetChar(c)
    ensures 0 <= v < 64
  {
    if 'A' <= c <= 'Z' then c as int - 'A' as int
    else if 'a' <= c <= 'z' then c as int - 'a' as int + 26
    else if '0' <= c <= '9' then c as int - '0' as int + 52
    else if c == '+' then 62
    else 63
  }

  lemma DecodeEncodeChar(v: int)
    requires 0 <= v < 64
    ensures DecodeChar(EncodeChar(v)) == v
  {
  }

  lemma EncodeDecodeChar(c: char)
    requires IsAlphabetChar(c)
    ensures EncodeChar(DecodeChar(c)) == c
  {
  }

  predicate AreSextets(v: seq<int>) {
    forall i :: 0 <= i < |v| ==> 0 <= v[i] < 64
  }

  predicate AllAlphabet(s: string) {
    forall i :: 0 <= i < |s| ==> IsAlphabetChar(s[i])
  }

  /** Three bytes as four 6-bit values: 24 bits cut into groups of six. */
  function SplitTriple(b0: byte, b1: byte, b2: byte): (v: seq<int>)
    ensures |v| == 4 && AreSextets(v)
  {
    [b0 as int / 4, (b0 as int % 4) * 16 + b1 as int / 16,
     (b1 as int % 16) * 4 + b2 as int / 64, b2 as int % 64]
  }

  /** Four 6-bit values as three bytes. */
  function JoinQuad(c0: int, c1: int, c2: int, c3: int): (b: seq<byte>)
    requires 0 <= c0 < 64 && 0 <= c1 < 64 && 0 <= c2 < 64 && 0 <= c3 < 64
    ensures |b| == 3
  {
    [(c0 * 4 + c1 / 16) as byte, ((c1 % 16) * 16 + c2 / 4) as byte, ((c2 % 4) * 64 + c3) as byte]
  }

  /**
   * The 6-bit groups of a byte string: each full triple gives four groups;
   * a final pair gives three and a final single byte two, the missing low
   * bits filled with zeros (as if the input went on with zero bytes).
   */
  function Sextets(b: seq<byte>): (v: seq<int>)
    ensures AreSextets(v)
    ensures |v| == 4 * (|b| / 3) + (if |b| % 3 == 0 then 0 else |b| % 3 + 1)
    decreases |b|
  {
    if |b| == 0 then []
    else if |b| == 1 then SplitTriple(b[0], 0, 0)[..2]
    else if |b| == 2 then SplitTriple(b[0], b[1], 0)[..3]
    else SplitTriple(b[0], b[1], b[2]) + Sextets(b[3..])
  }

  /** The alphabet spelling of a sequence of 6-bit values. */
  function Spell(v: seq<int>): (s: string)
    requires AreSextets(v)
    ensures |s| == |v| && AllAlphabet(s)
  {
    seq(|v|, i requires 0 <= i < |v| => EncodeChar(v[i]))
  }

  /** The padding that completes the last group of four characters. */
  function Padding(n: nat): (p: string)
    ensures |p| <= 2
  {
    if n % 3 == 1 then "==" else if n % 3 == 2 then "=" else ""
  }

  /** `buffer.toString("base64")` */
  function Encode(b: seq<byte>): (s: string)
  {
    Spell(Sextets(b)) + Padding(|b|)
  }

  /** Every encoding is a whole number of four-character groups. */
  lemma EncodeLength(b: seq<byte>)
    ensures |Encode(b)| == 4 * ((|b| + 2) / 3)
  {
  }

  /** The values of a text made of alphabet characters. */
  function Values(s: string): (v: seq<int>)
    requires AllAlphabet(s)
    ensures |v| == |s| && AreSextets(v)
  {
    seq(|s|, i requires 0 <= i < |s| => DecodeChar(s[i]))
  }

  /**
   * 6-bit values back to bytes: four values to three bytes; a final three
   * to two bytes and a final two to one byte, provided the bits that the
   * encoder fills with zeros are zero. Any other shape is rejected.
   */
  function Regroup(v: seq<int>): (r: Option<seq<byte>>)
    requires AreSextets(v)
    decreases |v|
  {
    if |v| == 0 then Some([])
    else if |v| == 1 then None
    else if |v| == 2 then (if v[1] % 16 == 0 then Some(JoinQuad(v[0], v[1], 0, 0)[..1]) else None)
    else if |v| == 3 then (if v[2] % 4 == 0 then Some(JoinQuad(v[0], v[1], v[2], 0)[..2]) else None)
    else
      match Regroup(v[4..])
      case Some(rest) => Some(JoinQuad(v[0], v[1], v[2], v[3]) + rest)
      case None => None
  }

  /** How many '=' end the text (at most two are looked at). */
  function PadCount(s: string): (n: nat)
    ensures n <= 2 && n <= |s|
  {
    if |s| >= 2 && s[|s| - 1] == '=' && s[|s| - 2] == '=' then 2
    else if |s| >= 1 && s[|s| - 1] == '=' then 1
    else 0
  }

  /**
   * The decoder: a text whose length is a multiple of four, alphabet
   * characters followed by at most two '=', and zero bits where the
   * encoder pads. Anything else is rejected.
   */
  function Decode(s: string): (r: Option<seq<byte>>)
  {
    var body := s[..|s| - PadCount(s)];
    if |s| % 4 != 0 || !AllAlphabet(body) then None
    else
      match Regroup(Values(body))
      case Some(b) => if Padding(|b|) == s[|body|..] then Some(b) else None
      case None => None
  }

  // ---------------------------------------------------------------------
  // Arithmetic of the regrouping

  lemma DivMod4(a: int, r: int)
    requires 0 <= r < 4
    ensures (a * 4 + r) / 4 == a && (a * 4 + r) % 4 == r
  {
  }

  lemma DivMod16(a: int, r: int)
    requires 0 <= r < 16
    ensures (a * 16 + r) / 16 == a && (a * 16 + r) % 16 == r
  {
  }

  lemma DivMod64(a: int, r: int)
    requires 0 <= r < 64
    ensures (a * 64 + r) / 64 == a && (a * 64 + r) % 64 == r
  {
  }

  /** Splitting three bytes into 6-bit values and joining them gives the bytes back. */
  lemma JoinSplit(b0: byte, b1: byte, b2: byte)
    ensures var v := SplitTriple(b0, b1, b2); JoinQuad(v[0], v[1], v[2], v[3]) == [b0, b1, b2]
  {
    var x0, x1, x2 := b0 as int, b1 as int, b2 as int;
    DivMod16(x0 % 4, x1 / 16);
    DivMod4(x1 % 16, x2 / 64);
    assert (x0 / 4) * 4 + ((x0 % 4) * 16 + x1 / 16) / 16 == x0;
    assert (((x0 % 4) * 16 + x1 / 16) % 16) * 16 + ((x1 % 16) * 4 + x2 / 64) / 4 == x1;
    assert (((x1 % 16) * 4 + x2 / 64) % 4) * 64 + x2 % 64 == x2;
  }

  /** Joining four 6-bit values into bytes and splitting them gives the values back. */
  lemma SplitJoin(c0: int, c1: int, c2: int, c3: int)
    requires 0 <= c0 < 64 && 0 <= c1 < 64 && 0 <= c2 < 64 && 0 <= c3 < 64
    ensures var b := JoinQuad(c0, c1, c2, c3); SplitTriple(b[0], b[1], b[2]) == [c0, c1, c2, c3]
  {
    DivMod4(c0, c1 / 16);
    DivMod16(c1 % 16, c2 / 4);
    DivMod64(c2 % 4, c3);
    assert (c0 * 4 + c1 / 16) / 4 == c0;
    assert ((c0 * 4 + c1 / 16) % 4) * 16 + ((c1 % 16) * 16 + c2 / 4) / 16 == c1;
    assert (((c1 % 16) * 16 + c2 / 4) % 16) * 4 + ((c2 % 4) * 64 + c3) / 64 == c2;
    assert ((c2 % 4) * 64 + c3) % 64 == c3;
  }

  // ---------------------------------------------------------------------
  // Round trips

  lemma ValuesOfSpell(v: seq<int>)
    requires AreSextets(v)
    ensures Values(Spell(v)) == v
  {
    forall i | 0 <= i < |v| ensures Values(Spell(v))[i] == v[i] {
      DecodeEncodeChar(v[i]);
    }
  }

  lemma SpellOfValues(s: string)
    requires AllAlphabet(s)
    ensures Spell(Values(s)) == s
  {
    forall i | 0 <= i < |s| ensures Spell(Values(s))[i] == s[i] {
      EncodeDecodeChar(s[i]);
    }
  }

  lemma RegroupSingle(b0: byte)
    ensures Regroup(SplitTriple(b0, 0, 0)[..2]) == Some([b0])
  {
    var w := SplitTriple(b0, 0, 0);
    JoinSplit(b0, 0, 0);
    assert w[1] % 16 == 0 && w[2] == 0 && w[3] == 0;
    assert JoinQuad(w[0], w[1], 0, 0)[..1] == [b0];
  }

  lemma RegroupPair(b0: byte, b1: byte)
    ensures Regroup(SplitTriple(b0, b1, 0)[..3]) == Some([b0, b1])
  {
    var w := SplitTriple(b0, b1, 0);
    JoinSplit(b0, b1, 0);
    assert w[2] % 4 == 0 && w[3] == 0;
    assert JoinQuad(w[0], w[1], w[2], 0)[..2] == [b0, b1];
  }

  lemma RegroupStep(b0: byte, b1: byte, b2: byte, v: seq<int>, rest: seq<byte>)
    requires AreSextets(v) && Regroup(v) == Some(rest)
    ensures Regroup(SplitTriple(b0, b1, b2) + v) == Some([b0, b1, b2] + rest)
  {
    var w := SplitTriple(b0, b1, b2);
    JoinSplit(b0, b1, b2);
    assert (w + v)[4..] == v;
    assert (w + v)[..4] == w;
  }

  /** Regrouping the 6-bit groups of a byte string gives back the bytes. */
  lemma {:induction false} RegroupSextets(b: seq<byte>)
    ensures Regroup(Sextets(b)) == Some(b)
    decreases |b|
  {
    if |b| == 1 {
      RegroupSingle(b[0]);
      assert b == [b[0]];
    } else if |b| == 2 {
      RegroupPair(b[0], b[1]);
      assert b == [b[0], b[1]];
    } else if |b| >= 3 {
      RegroupSextets(b[3..]);
      RegroupStep(b[0], b[1], b[2], Sextets(b[3..]), b[3..]);
      assert b == [b[0], b[1], b[2]] + b[3..];
    }
  }

  /** Whatever Regroup accepts is the 6-bit grouping of what it returns. */
  lemma {:induction false} SextetsOfRegroup(v: seq<int>)
    requires AreSextets(v) && Regroup(v).Some?
    ensures Sextets(Regroup(v).value) == v
    decreases |v|
  {
    var b := Regroup(v).value;
    if |v| == 2 {
      SplitJoin(v[0], v[1], 0, 0);
    } else if |v| == 3 {
      SplitJoin(v[0], v[1], v[2], 0);
    } else if |v| >= 4 {
      var head := JoinQuad(v[0], v[1], v[2], v[3]);
      SplitJoin(v[0], v[1], v[2], v[3]);
      SextetsOfRegroup(v[4..]);
      assert b == head + Regroup(v[4..]).value;
      assert b[3..] == Regroup(v[4..]).value;
      assert Sextets(b) == SplitTriple(b[0], b[1], b[2]) + Sextets(b[3..]);
      assert v == v[..4] + v[4..];
    }
  }

  /** On an encoding, the decoder strips exactly the padding the encoder added. */
  lemma PadCountOfEncode(b: seq<byte>)
    ensures PadCount(Encode(b)) == |Padding(|b|)|
  {
    var s := Encode(b);
    var v := Sextets(b);
    if |Padding(|b|)| < 2 && |v| >= 1 {
      assert s[|v| - 1] == Spell(v)[|v| - 1];
    }
    if |Padding(|b|)| == 0 && |v| >= 2 {
      assert s[|v| - 2] == Spell(v)[|v| - 2];
    }
  }

  /** The decoder's acceptance condition, spelled out. */
  lemma DecodeAccepts(s: string, b: seq<byte>)
    requires |s| % 4 == 0 && AllAlphabet(s[..|s| - PadCount(s)])
    requires Regroup(Values(s[..|s| - PadCount(s)])) == Some(b)
    requires Padding(|b|) == s[|s| - PadCount(s)..]
    ensures Decode(s) == Some(b)
  {
  }

  /** Decoding an encoding gives back the bytes: the encoding loses nothing. */
  lemma DecodeEncode(b: seq<byte>)
    ensures Decode(Encode(b)) == Some(b)
  {
    var s := Encode(b);
    var v := Sextets(b);
    PadCountOfEncode(b);
    EncodeLength(b);
    DivMod4((|b| + 2) / 3, 0);
    assert |s| % 4 == 0;
    var body := s[..|s| - PadCount(s)];
    assert body == Spell(v);
    ValuesOfSpell(v);
    RegroupSextets(b);
    assert Regroup(Values(body)) == Some(b);
    assert s[|body|..] == Padding(|b|);
    DecodeAccepts(s, b);
  }

  /** Every text the decoder accepts is the encoding of what it decodes to. */
  lemma EncodeDecode(s: string)
    requires Decode(s).Some?
    ensures Encode(Decode(s).value) == s
  {
    var body := s[..|s| - PadCount(s)];
    var b := Decode(s).value;
    SpellOfValues(body);
    SextetsOfRegroup(Values(body));
    assert s == body + s[|body|..];
  }

  /** Two byte strings with the same encoding are equal. */
  lemma EncodeInjective(a: seq<byte>, b: seq<byte>)
    requires Encode(a) == Encode(b)
    ensures a == b
  {
    DecodeEncode(a);
    DecodeEncode(b);
  }
}
