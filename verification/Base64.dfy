/** Unpadded base64 with the standard alphabet, decoded strictly (sections 3.2, 3.5 and 4 of RFC 4648). */
module Base64 {
  import opened Collections

  type Byte = b: nat | b < 256

  function Symbol(v: nat): (c: char)
    requires v < 64
    ensures SymbolValue(c) == Some(v)
  {
    if v < 26 then 'A' + (v as char)
    else if v < 52 then 'a' + ((v - 26) as char)
    else if v < 62 then '0' + ((v - 52) as char)
    else if v == 62 then '+' else '/'
  }

  function SymbolValue(c: char): (v: Option<nat>)
    ensures v.Some? ==> v.value < 64
  {
    if 'A' <= c <= 'Z' then Some((c - 'A') as nat)
    else if 'a' <= c <= 'z' then Some((c - 'a') as nat + 26)
    else if '0' <= c <= '9' then Some((c - '0') as nat + 52)
    else if c == '+' then Some(62)
    else if c == '/' then Some(63)
    else None
  }

  lemma SymbolOfValue(c: char)
    requires SymbolValue(c).Some?
    ensures Symbol(SymbolValue(c).value) == c
  {
  }

  // Three bytes of eight bits and four values of six, in terms of each other.

  function FirstValue(x: Byte): (v: nat)
    ensures v < 64
  {
    x / 4
  }

  function SecondValue(x: Byte, y: Byte): (v: nat)
    ensures v < 64
  {
    x % 4 * 16 + y / 16
  }

  function ThirdValue(y: Byte, z: Byte): (v: nat)
    ensures v < 64
  {
    y % 16 * 4 + z / 64
  }

  function FourthValue(z: Byte): (v: nat)
    ensures v < 64
  {
    z % 64
  }

  function FirstByte(a: nat, b: nat): Byte
    requires a < 64 && b < 64
  {
    a * 4 + b / 16
  }

  function SecondByte(b: nat, c: nat): Byte
    requires b < 64 && c < 64
  {
    b % 16 * 16 + c / 4
  }

  function ThirdByte(c: nat, d: nat): Byte
    requires c < 64 && d < 64
  {
    c % 4 * 64 + d
  }

  function Encode(bytes: seq<Byte>): (s: string)
    ensures forall i :: 0 <= i < |s| ==> SymbolValue(s[i]).Some?
  {
    if |bytes| == 0 then ""
    else if |bytes| == 1 then [Symbol(FirstValue(bytes[0])), Symbol(SecondValue(bytes[0], 0))]
    else if |bytes| == 2 then
      [Symbol(FirstValue(bytes[0])), Symbol(SecondValue(bytes[0], bytes[1])), Symbol(ThirdValue(bytes[1], 0))]
    else
      [Symbol(FirstValue(bytes[0])), Symbol(SecondValue(bytes[0], bytes[1])),
       Symbol(ThirdValue(bytes[1], bytes[2])), Symbol(FourthValue(bytes[2]))] + Encode(bytes[3..])
  }

  /** The decoder ignores line breaks. */
  function WithoutBreaks(s: string): string {
    if s == "" then ""
    else if s[0] == '\n' || s[0] == '\r' then WithoutBreaks(s[1..])
    else [s[0]] + WithoutBreaks(s[1..])
  }

  /** Groups of four symbols, a last one of two or three whose unused bits must be zero. */
  function DecodeGroups(s: string): Option<seq<Byte>> {
    if s == "" then Some([])
    else if |s| == 1 || SymbolValue(s[0]).None? || SymbolValue(s[1]).None? then None
    else
      var a, b := SymbolValue(s[0]).value, SymbolValue(s[1]).value;
      if |s| == 2 then if b % 16 == 0 then Some([FirstByte(a, b)]) else None
      else if SymbolValue(s[2]).None? then None
      else
        var c := SymbolValue(s[2]).value;
        if |s| == 3 then if c % 4 == 0 then Some([FirstByte(a, b), SecondByte(b, c)]) else None
        else if SymbolValue(s[3]).None? || DecodeGroups(s[4..]).None? then None
        else Some([FirstByte(a, b), SecondByte(b, c),
            ThirdByte(c, SymbolValue(s[3]).value)] + DecodeGroups(s[4..]).value)
  }

  function Decode(s: string): Option<seq<Byte>> {
    DecodeGroups(WithoutBreaks(s))
  }

  lemma BitsOfBytes(x: Byte, y: Byte, z: Byte)
    ensures FirstByte(FirstValue(x), SecondValue(x, y)) == x
    ensures SecondByte(SecondValue(x, y), ThirdValue(y, z)) == y
    ensures ThirdByte(ThirdValue(y, z), FourthValue(z)) == z
    ensures SecondValue(x, 0) % 16 == 0 && ThirdValue(y, 0) % 4 == 0
  {
  }

  lemma BitsOfValues(a: nat, b: nat, c: nat, d: nat)
    requires a < 64 && b < 64 && c < 64 && d < 64
    ensures FirstValue(FirstByte(a, b)) == a && SecondValue(FirstByte(a, b), SecondByte(b, c)) == b
    ensures ThirdValue(SecondByte(b, c), ThirdByte(c, d)) == c && FourthValue(ThirdByte(c, d)) == d
    ensures b % 16 == 0 ==> SecondValue(FirstByte(a, b), 0) == b
    ensures c % 4 == 0 ==> ThirdValue(SecondByte(b, c), 0) == c
  {
  }

  lemma {:induction false} GroupsRoundTrip(bytes: seq<Byte>)
    ensures DecodeGroups(Encode(bytes)) == Some(bytes)
    decreases |bytes|
  {
    hide Symbol, SymbolValue, FirstValue, SecondValue, ThirdValue, FourthValue, FirstByte, SecondByte, ThirdByte;
    if |bytes| >= 3 {
      GroupsRoundTrip(bytes[3..]);
      assert Encode(bytes)[4..] == Encode(bytes[3..]);
      BitsOfBytes(bytes[0], bytes[1], bytes[2]);
      assert bytes == [bytes[0], bytes[1], bytes[2]] + bytes[3..];
    } else if |bytes| == 2 {
      BitsOfBytes(bytes[0], bytes[1], 0);
      assert bytes == [bytes[0], bytes[1]];
    } else if |bytes| == 1 {
      BitsOfBytes(bytes[0], 0, 0);
      assert bytes == [bytes[0]];
    }
  }

  lemma {:induction false} NoBreaks(s: string)
    requires forall i :: 0 <= i < |s| ==> SymbolValue(s[i]).Some?
    ensures WithoutBreaks(s) == s
    decreases |s|
  {
    if s != "" {
      NoBreaks(s[1..]);
    }
  }

  lemma RoundTrip(bytes: seq<Byte>)
    ensures Decode(Encode(bytes)) == Some(bytes)
  {
    GroupsRoundTrip(bytes);
    NoBreaks(Encode(bytes));
  }

  /** A full group of symbols is what the encoder writes for its three bytes. */
  lemma FullGroup(s: string, a: nat, b: nat, c: nat, d: nat, rest: seq<Byte>)
    requires |s| >= 4 && a < 64 && b < 64 && c < 64 && d < 64
    requires s[0] == Symbol(a) && s[1] == Symbol(b) && s[2] == Symbol(c) && s[3] == Symbol(d) && s[4..] == Encode(rest)
    ensures Encode([FirstByte(a, b), SecondByte(b, c), ThirdByte(c, d)] + rest) == s
  {
    hide Symbol, FirstValue, SecondValue, ThirdValue, FourthValue, FirstByte, SecondByte, ThirdByte;
    BitsOfValues(a, b, c, d);
    var bytes: seq<Byte> := [FirstByte(a, b), SecondByte(b, c), ThirdByte(c, d)] + rest;
    assert bytes[3..] == rest;
    assert s == [s[0], s[1], s[2], s[3]] + s[4..];
  }

  lemma LastGroup(s: string, a: nat, b: nat, c: nat)
    requires a < 64 && b < 64 && c < 64
    ensures s == [Symbol(a), Symbol(b)] && b % 16 == 0 ==> Encode([FirstByte(a, b)]) == s
    ensures s == [Symbol(a), Symbol(b), Symbol(c)] && c % 4 == 0 ==> Encode([FirstByte(a, b), SecondByte(b, c)]) == s
  {
    hide Symbol, FirstValue, SecondValue, ThirdValue, FourthValue, FirstByte, SecondByte, ThirdByte;
    BitsOfValues(a, b, c, 0);
  }

  lemma LastGroupIsCanonical(s: string)
    requires DecodeGroups(s).Some? && |s| < 4
    ensures Encode(DecodeGroups(s).value) == s
  {
    hide Symbol, SymbolValue, Encode;
    if |s| >= 2 {
      SymbolOfValue(s[0]);
      SymbolOfValue(s[1]);
      if |s| == 3 {
        SymbolOfValue(s[2]);
        assert s == [s[0], s[1], s[2]];
        LastGroup(s, SymbolValue(s[0]).value, SymbolValue(s[1]).value, SymbolValue(s[2]).value);
      } else {
        assert s == [s[0], s[1]];
        LastGroup(s, SymbolValue(s[0]).value, SymbolValue(s[1]).value, 0);
      }
    } else {
      EncodeNothing();
    }
  }

  lemma FullGroupIsCanonical(s: string)
    requires |s| >= 4 && DecodeGroups(s).Some?
    ensures DecodeGroups(s[4..]).Some?
    ensures Encode(DecodeGroups(s[4..]).value) == s[4..] ==> Encode(DecodeGroups(s).value) == s
  {
    hide Symbol, SymbolValue, Encode;
    var rest := DecodeGroups(s[4..]).value;
    if Encode(rest) == s[4..] {
      SymbolOfValue(s[0]);
      SymbolOfValue(s[1]);
      SymbolOfValue(s[2]);
      SymbolOfValue(s[3]);
      FullGroup(s, SymbolValue(s[0]).value, SymbolValue(s[1]).value, SymbolValue(s[2]).value,
          SymbolValue(s[3]).value, rest);
    }
  }

  /** Strictness: line breaks aside, a byte string has exactly one accepted encoding, the one the encoder writes. */
  lemma {:induction false} DecodesOnlyCanonical(s: string)
    requires DecodeGroups(s).Some?
    ensures Encode(DecodeGroups(s).value) == s
    decreases |s|
  {
    hide Encode, DecodeGroups;
    if |s| >= 4 {
      FullGroupIsCanonical(s);
      DecodesOnlyCanonical(s[4..]);
    } else {
      LastGroupIsCanonical(s);
    }
  }

  lemma EncodeNothing()
    ensures Encode([]) == ""
  {
  }

  lemma {:induction false} BreaksVanish(s: string, tail: string)
    ensures WithoutBreaks(s + tail) == WithoutBreaks(s) + WithoutBreaks(tail)
    decreases |s|
  {
    if s == "" {
      assert s + tail == tail;
    } else {
      assert (s + tail)[1..] == s[1..] + tail;
      BreaksVanish(s[1..], tail);
    }
  }

  // --- which text it is ------------------------------------------------------------------------------------

  function ByteAt(bytes: seq<Byte>, i: nat): nat { if i < |bytes| then bytes[i] else 0 }

  function ValueAt(s: string, i: nat): nat {
    if i < |s| && SymbolValue(s[i]).Some? then SymbolValue(s[i]).value else 0
  }

  /** The standard alphabet: A to Z, a to z, 0 to 9, plus and slash, by their code points. */
  lemma StandardAlphabet(v: nat)
    requires v < 64
    ensures Symbol(v) as int ==
            if v < 26 then 65 + v else if v < 52 then 71 + v else if v < 62 then v - 4 else if v == 62 then 43 else 47
  {
  }

  /** There are no more symbols than the bits need. */
  lemma {:induction false} EncodedLength(bytes: seq<Byte>)
    ensures |Encode(bytes)| == (4 * |bytes| + 2) / 3
    decreases |bytes|
  {
    hide Symbol, SymbolValue, FirstValue, SecondValue, ThirdValue, FourthValue;
    if |bytes| >= 3 {
      EncodedLength(bytes[3..]);
    }
  }

  /** The four symbols from `i` on are the 24-bit number of the three bytes from `j` on, most significant first. */
  ghost predicate SameNumber(s: string, bytes: seq<Byte>, i: nat, j: nat) {
    262144 * ValueAt(s, i) + 4096 * ValueAt(s, i + 1) + 64 * ValueAt(s, i + 2) + ValueAt(s, i + 3)
    == 65536 * ByteAt(bytes, j) + 256 * ByteAt(bytes, j + 1) + ByteAt(bytes, j + 2)
  }

  lemma FirstNumber(bytes: seq<Byte>)
    requires bytes != []
    ensures SameNumber(Encode(bytes), bytes, 0, 0)
  {
    hide Symbol, SymbolValue;
  }

  lemma LaterNumber(s: string, bytes: seq<Byte>, i: nat, j: nat)
    requires |s| >= 4 && |bytes| >= 3 && SameNumber(s[4..], bytes[3..], i, j)
    ensures SameNumber(s, bytes, i + 4, j + 3)
  {
    hide SymbolValue;
    assert forall n: nat :: ValueAt(s, n + 4) == ValueAt(s[4..], n);
    assert forall n: nat :: ByteAt(bytes, n + 3) == ByteAt(bytes[3..], n);
  }

  /** Every four symbols are the number of their three bytes, bytes and symbols that are missing being zero. */
  lemma {:induction false} EncodesNumbers(bytes: seq<Byte>, k: nat)
    requires 3 * k < |bytes|
    ensures SameNumber(Encode(bytes), bytes, 4 * k, 3 * k)
    decreases k
  {
    hide SymbolValue, SameNumber;
    if k == 0 {
      FirstNumber(bytes);
    } else {
      EncodesNumbers(bytes[3..], k - 1);
      assert Encode(bytes)[4..] == Encode(bytes[3..]) && |Encode(bytes)| >= 4;
      hide Encode;
      LaterNumber(Encode(bytes), bytes, 4 * (k - 1), 3 * (k - 1));
    }
  }
}
