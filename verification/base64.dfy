/** Standard base64 (section 4 of RFC 4648): the encoding `btoa` applies to a
    Latin-1 string, and the host's `arrayBufferToBase64` applies to bytes. */
module Base64 {
  import opened Wrappers

  type byte = x: int | 0 <= x < 256

  /** The alphabet of section 4 of RFC 4648: A-Z, a-z, 0-9, '+', '/'. */
  function CharOf(v: int): (c: char)
    requires 0 <= v < 64
  {
    if v < 26 then ('A' as int + v) as char
    else if v < 52 then ('a' as int + v - 26) as char
    else if v < 62 then ('0' as int + v - 52) as char
    else if v == 62 then '+'
    else '/'
  }

  predicate IsAlphabetChar(c: char) {
    || 'A' <= c <= 'Z'
    || 'a' <= c <= 'z'
    || '0' <= c <= '9'
    || c == '+' || c == '/'
  }

  /** The 6-bit value of an alphabet character. */
  function ValueOf(c: char): (v: int)
    requires IsAlphabetChar(c)
    ensures 0 <= v < 64 && CharOf(v) == c
  {
    if 'A' <= c <= 'Z' then c as int - 'A' as int
    else if 'a' <= c <= 'z' then c as int - 'a' as int + 26
    else if '0' <= c <= '9' then c as int - '0' as int + 52
    else if c == '+' then 62
    else 63
  }

  lemma CharOfInAlphabet(v: int)
    requires 0 <= v < 64
    ensures IsAlphabetChar(CharOf(v)) && ValueOf(CharOf(v)) == v
  {
  }

  /** The first, second and third sextets of a three-byte group. */
  function Sextet0(a: byte): int { a / 4 }
  function Sextet1(a: byte, b: byte): int { (a % 4) * 16 + b / 16 }
  function Sextet2(b: byte, c: byte): int { (b % 16) * 4 + c / 64 }
  function Sextet3(c: byte): int { c % 64 }

  /** The four characters of a full three-byte group. */
  function EncodeGroup(a: byte, b: byte, c: byte): string {
    [CharOf(Sextet0(a)), CharOf(Sextet1(a, b)), CharOf(Sextet2(b, c)), CharOf(Sextet3(c))]
  }

  /** The final group of one or two bytes, padded with '='; nothing for no bytes. */
  function EncodeTail(bytes: seq<byte>): string
    requires |bytes| < 3
  {
    if |bytes| == 2 then [CharOf(Sextet0(bytes[0])), CharOf(Sextet1(bytes[0], bytes[1])), CharOf(Sextet2(bytes[1], 0)), '=']
    else if |bytes| == 1 then [CharOf(Sextet0(bytes[0])), CharOf(Sextet1(bytes[0], 0)), '=', '=']
    else []
  }

  function Encode(bytes: seq<byte>): string
    decreases |bytes|
  {
    if |bytes| >= 3 then EncodeGroup(bytes[0], bytes[1], bytes[2]) + Encode(bytes[3..])
    else EncodeTail(bytes)
  }

  /** One group of four characters: three bytes, or fewer when padded with
      '='; None when it is not well formed. */
  function DecodeGroup(g: string): Option<seq<byte>>
    requires |g| == 4
  {
    if !IsAlphabetChar(g[0]) || !IsAlphabetChar(g[1]) then None
    else
      var v0, v1 := ValueOf(g[0]), ValueOf(g[1]);
      var a := v0 * 4 + v1 / 16;
      if g[2] == '=' && g[3] == '=' then Some([a])
      else if !IsAlphabetChar(g[2]) then None
      else
        var v2 := ValueOf(g[2]);
        var b := (v1 % 16) * 16 + v2 / 4;
        if g[3] == '=' then Some([a, b])
        else if !IsAlphabetChar(g[3]) then None
        else Some([a, b, (v2 % 4) * 64 + ValueOf(g[3])])
  }

  /** Decodes a padded base64 text; None when it is not well formed, including
      padding anywhere but in the last group. */
  function Decode(s: string): Option<seq<byte>>
    decreases |s|
  {
    if |s| == 0 then Some([])
    else if |s| < 4 then None
    else match DecodeGroup(s[..4])
      case None => None
      case Some(group) =>
        if |group| < 3 && |s| > 4 then None
        else match Decode(s[4..])
          case None => None
          case Some(rest) => Some(group + rest)
  }

  /** One more group adds four characters to the padded length. */
  lemma PaddedLengthStep(n: nat)
    requires n >= 3
    ensures (n + 2) / 3 * 4 == (n - 3 + 2) / 3 * 4 + 4
  {
  }

  lemma {:induction false} EncodeLength(bytes: seq<byte>)
    ensures |Encode(bytes)| == (|bytes| + 2) / 3 * 4
    decreases |bytes|
  {
    if |bytes| >= 3 {
      EncodeLength(bytes[3..]);
      assert |Encode(bytes)| == 4 + |Encode(bytes[3..])|;
      PaddedLengthStep(|bytes|);
    } else if |bytes| == 2 {
      assert (2 + 2) / 3 * 4 == 4;
    } else if |bytes| == 1 {
      assert (1 + 2) / 3 * 4 == 4;
    } else {
      assert (0 + 2) / 3 * 4 == 0;
    }
  }

  /** Every character of a group's text is from the alphabet or a final '='. */
  predicate AlphabetOrFinalPadding(s: string) {
    forall i :: 0 <= i < |s| ==> IsAlphabetChar(s[i]) || (s[i] == '=' && i >= |s| - 2)
  }

  lemma TailAlphabet(bytes: seq<byte>)
    requires |bytes| < 3
    ensures AlphabetOrFinalPadding(EncodeTail(bytes))
  {
    if |bytes| == 2 {
      CharOfInAlphabet(Sextet0(bytes[0]));
      CharOfInAlphabet(Sextet1(bytes[0], bytes[1]));
      CharOfInAlphabet(Sextet2(bytes[1], 0));
    } else if |bytes| == 1 {
      CharOfInAlphabet(Sextet0(bytes[0]));
      CharOfInAlphabet(Sextet1(bytes[0], 0));
    }
  }

  /** Every character is from the alphabet except a final padding of at most two '='. */
  lemma {:induction false} EncodeAlphabet(bytes: seq<byte>)
    ensures AlphabetOrFinalPadding(Encode(bytes))
    decreases |bytes|
  {
    if |bytes| >= 3 {
      var a, b, c := bytes[0], bytes[1], bytes[2];
      EncodeAlphabet(bytes[3..]);
      CharOfInAlphabet(Sextet0(a));
      CharOfInAlphabet(Sextet1(a, b));
      CharOfInAlphabet(Sextet2(b, c));
      CharOfInAlphabet(Sextet3(c));
      var g, rest := EncodeGroup(a, b, c), Encode(bytes[3..]);
      assert Encode(bytes) == g + rest;
      assert forall i :: 4 <= i < |g + rest| ==> (g + rest)[i] == rest[i - 4];
    } else {
      TailAlphabet(bytes);
    }
  }

  /** The arithmetic of one group: the sextets give the bytes back. */
  lemma GroupArithmetic(a: byte, b: byte, c: byte)
    ensures Sextet0(a) * 4 + Sextet1(a, b) / 16 == a
    ensures (Sextet1(a, b) % 16) * 16 + Sextet2(b, c) / 4 == b
    ensures (Sextet2(b, c) % 4) * 64 + Sextet3(c) == c
  {
  }

  /** A full group decodes to its three bytes. */
  lemma DecodeFullGroup(a: byte, b: byte, c: byte)
    ensures DecodeGroup(EncodeGroup(a, b, c)) == Some([a, b, c])
  {
    GroupArithmetic(a, b, c);
    CharOfInAlphabet(Sextet0(a));
    CharOfInAlphabet(Sextet1(a, b));
    CharOfInAlphabet(Sextet2(b, c));
    CharOfInAlphabet(Sextet3(c));
  }

  /** A final group holding two bytes decodes to them. */
  lemma DecodePairTail(a: byte, b: byte)
    ensures Decode(EncodeTail([a, b])) == Some([a, b])
  {
    var s := EncodeTail([a, b]);
    GroupArithmetic(a, b, 0);
    CharOfInAlphabet(Sextet0(a));
    CharOfInAlphabet(Sextet1(a, b));
    CharOfInAlphabet(Sextet2(b, 0));
    assert s[..4] == s && DecodeGroup(s) == Some([a, b]);
    assert s[4..] == [] && Decode(s[4..]) == Some([]);
    assert [a, b] + [] == [a, b];
  }

  /** A final group holding one byte decodes to it. */
  lemma DecodeSingleTail(a: byte)
    ensures Decode(EncodeTail([a])) == Some([a])
  {
    var s := EncodeTail([a]);
    GroupArithmetic(a, 0, 0);
    CharOfInAlphabet(Sextet0(a));
    CharOfInAlphabet(Sextet1(a, 0));
    assert s[..4] == s && DecodeGroup(s) == Some([a]);
    assert s[4..] == [] && Decode(s[4..]) == Some([]);
    assert [a] + [] == [a];
  }

  /** The final group decodes to its one or two bytes. */
  lemma DecodeTail(bytes: seq<byte>)
    requires |bytes| < 3
    ensures Decode(EncodeTail(bytes)) == Some(bytes)
  {
    if |bytes| == 2 {
      DecodePairTail(bytes[0], bytes[1]);
      assert bytes == [bytes[0], bytes[1]];
    } else if |bytes| == 1 {
      DecodeSingleTail(bytes[0]);
      assert bytes == [bytes[0]];
    } else {
      assert bytes == [];
    }
  }

  /** A full group in front of a decodable text decodes to its bytes in front
      of the text's. */
  lemma DecodeStep(g: string, rest: string, group: seq<byte>, tail: seq<byte>)
    requires |g| == 4 && DecodeGroup(g) == Some(group) && |group| == 3
    requires Decode(rest) == Some(tail)
    ensures Decode(g + rest) == Some(group + tail)
  {
    assert (g + rest)[..4] == g && (g + rest)[4..] == rest;
  }

  lemma FirstGroupSplit(bytes: seq<byte>)
    requires |bytes| >= 3
    ensures bytes == [bytes[0], bytes[1], bytes[2]] + bytes[3..]
  {
  }

  /** Decoding the encoding reproduces the bytes. */
  lemma {:induction false} DecodeEncode(bytes: seq<byte>)
    ensures Decode(Encode(bytes)) == Some(bytes)
    decreases |bytes|
  {
    if |bytes| >= 3 {
      var a, b, c := bytes[0], bytes[1], bytes[2];
      DecodeFullGroup(a, b, c);
      DecodeEncode(bytes[3..]);
      DecodeStep(EncodeGroup(a, b, c), Encode(bytes[3..]), [a, b, c], bytes[3..]);
      FirstGroupSplit(bytes);
    } else {
      DecodeTail(bytes);
    }
  }

  /** A Latin-1 string: every character code fits in a byte. */
  predicate IsLatin1(s: string) {
    forall i :: 0 <= i < |s| ==> s[i] as int < 256
  }

  function Latin1Bytes(s: string): (bytes: seq<byte>)
    requires IsLatin1(s)
    ensures |bytes| == |s| && forall i :: 0 <= i < |s| ==> bytes[i] == s[i] as int
  {
    seq(|s|, i requires 0 <= i < |s| => s[i] as int as byte)
  }

  /** `btoa`: base64 of the character codes of a Latin-1 string. */
  function Btoa(s: string): (r: string)
    requires IsLatin1(s)
    ensures |r| == (|s| + 2) / 3 * 4
    ensures AlphabetOrFinalPadding(r)
    ensures Decode(r) == Some(Latin1Bytes(s))
  {
    EncodeLength(Latin1Bytes(s));
    EncodeAlphabet(Latin1Bytes(s));
    DecodeEncode(Latin1Bytes(s));
    Encode(Latin1Bytes(s))
  }
}
