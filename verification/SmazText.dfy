/** Compressed text inside ordinary text: the "s:" prefix, base64, and the choice of the shorter form. */
module SmazText {
  import opened Prelude
  import opened Smaz

  // ----- base64, section 4 of RFC 4648

  function CharOf(v: int): char
    requires 0 <= v < 64
  {
    if v < 26 then 'A' + v as char
    else if v < 52 then 'a' + (v - 26) as char
    else if v < 62 then '0' + (v - 52) as char
    else if v == 62 then '+' else '/'
  }

  /** -1 for a character outside the alphabet. */
  function ValueOf(c: char): (v: int)
    ensures -1 <= v < 64
  {
    if 'A' <= c <= 'Z' then c as int - 'A' as int
    else if 'a' <= c <= 'z' then c as int - 'a' as int + 26
    else if '0' <= c <= '9' then c as int - '0' as int + 52
    else if c == '+' then 62
    else if c == '/' then 63
    else -1
  }

  lemma ValueOfCharOf(v: int)
    requires 0 <= v < 64
    ensures ValueOf(CharOf(v)) == v && !IsSpace(CharOf(v)) && CharOf(v) != '='
  {}

  function Encode64(b: seq<byte>): string {
    if b == [] then ""
    else if |b| == 1 then [CharOf(b[0] / 4), CharOf(b[0] % 4 * 16), '=', '=']
    else if |b| == 2 then
      [CharOf(b[0] / 4), CharOf(b[0] % 4 * 16 + b[1] / 16), CharOf(b[1] % 16 * 4), '=']
    else Quad(b[0], b[1], b[2]) + Encode64(b[3..])
  }

  /** Three bytes as four characters. */
  function Quad(b0: byte, b1: byte, b2: byte): (q: string)
    ensures |q| == 4
  {
    [CharOf(b0 / 4), CharOf(b0 % 4 * 16 + b1 / 16), CharOf(b1 % 16 * 4 + b2 / 64), CharOf(b2 % 64)]
  }

  /** None on a character outside the alphabet, a bad length, or bits that should be zero. */
  function Decode64(s: string): Option<seq<byte>> {
    if s == "" then Some([])
    else if |s| < 4 || ValueOf(s[0]) < 0 || ValueOf(s[1]) < 0 then None
    else
      var v0, v1 := ValueOf(s[0]), ValueOf(s[1]);
      if |s| == 4 && s[2] == '=' && s[3] == '=' then
        if v1 % 16 == 0 then Some([v0 * 4 + v1 / 16]) else None
      else if ValueOf(s[2]) < 0 then None
      else
        var v2 := ValueOf(s[2]);
        if |s| == 4 && s[3] == '=' then
          if v2 % 4 == 0 then Some([v0 * 4 + v1 / 16, v1 % 16 * 16 + v2 / 4]) else None
        else if ValueOf(s[3]) < 0 then None
        else Prefixed([v0 * 4 + v1 / 16, v1 % 16 * 16 + v2 / 4, v2 % 4 * 64 + ValueOf(s[3])], Decode64(s[4..]))
  }

  /** Four characters of the alphabet, none of them padding. */
  lemma DecodeQuad(v0: int, v1: int, v2: int, v3: int, more: string)
    requires 0 <= v0 < 64 && 0 <= v1 < 64 && 0 <= v2 < 64 && 0 <= v3 < 64
    ensures
      var q := [CharOf(v0), CharOf(v1), CharOf(v2), CharOf(v3)];
      && NoSpace(q)
      && Decode64(q + more) == Prefixed([v0 * 4 + v1 / 16, v1 % 16 * 16 + v2 / 4, v2 % 4 * 64 + v3], Decode64(more))
  {
    var q := [CharOf(v0), CharOf(v1), CharOf(v2), CharOf(v3)];
    ValueOfCharOf(v0);
    ValueOfCharOf(v1);
    ValueOfCharOf(v2);
    ValueOfCharOf(v3);
    assert (q + more)[4..] == more;
  }

  lemma Sextets(b0: byte, b1: byte, b2: byte) returns (v0: int, v1: int, v2: int, v3: int)
    ensures 0 <= v0 < 64 && 0 <= v1 < 64 && 0 <= v2 < 64 && 0 <= v3 < 64
    ensures Quad(b0, b1, b2) == [CharOf(v0), CharOf(v1), CharOf(v2), CharOf(v3)]
    ensures v0 == b0 / 4 && v1 == b0 % 4 * 16 + b1 / 16 && v2 == b1 % 16 * 4 + b2 / 64 && v3 == b2 % 64
    ensures b0 == v0 * 4 + v1 / 16 && b1 == v1 % 16 * 16 + v2 / 4 && b2 == v2 % 4 * 64 + v3
  {
    v0, v1, v2, v3 := b0 / 4, b0 % 4 * 16 + b1 / 16, b1 % 16 * 4 + b2 / 64, b2 % 64;
  }

  lemma QuadReadBack(b0: byte, b1: byte, b2: byte, more: string)
    ensures Decode64(Quad(b0, b1, b2) + more) == Prefixed([b0, b1, b2], Decode64(more))
    ensures NoSpace(Quad(b0, b1, b2))
  {
    var v0, v1, v2, v3 := Sextets(b0, b1, b2);
    DecodeQuad(v0, v1, v2, v3, more);
  }

  lemma OneReadBack(b0: byte)
    ensures Decode64(Encode64([b0])) == Some([b0]) && NoSpace(Encode64([b0]))
  {
    ValueOfCharOf(b0 / 4);
    ValueOfCharOf(b0 % 4 * 16);
  }

  lemma DecodeTwo(v0: int, v1: int, v2: int, b0: byte, b1: byte)
    requires 0 <= v0 < 64 && 0 <= v1 < 64 && 0 <= v2 < 64 && v2 % 4 == 0
    requires b0 == v0 * 4 + v1 / 16 && b1 == v1 % 16 * 16 + v2 / 4
    ensures
      var s := [CharOf(v0), CharOf(v1), CharOf(v2), '='];
      Decode64(s) == Some([b0, b1]) && NoSpace(s)
  {
    ValueOfCharOf(v0);
    ValueOfCharOf(v1);
    ValueOfCharOf(v2);
  }

  lemma TwoReadBack(b0: byte, b1: byte)
    ensures Decode64(Encode64([b0, b1])) == Some([b0, b1]) && NoSpace(Encode64([b0, b1]))
  {
    var v0, v1, v2, _ := Sextets(b0, b1, 0);
    DecodeTwo(v0, v1, v2, b0, b1);
    EncodedTwo(b0, b1, v0, v1, v2);
  }

  lemma EncodedTwo(b0: byte, b1: byte, v0: int, v1: int, v2: int)
    requires 0 <= v0 < 64 && 0 <= v1 < 64 && 0 <= v2 < 64
    requires v0 == b0 / 4 && v1 == b0 % 4 * 16 + b1 / 16 && v2 == b1 % 16 * 4
    ensures Encode64([b0, b1]) == [CharOf(v0), CharOf(v1), CharOf(v2), '=']
  {}

  lemma FirstThree(b: seq<byte>)
    requires 3 <= |b|
    ensures b == [b[0], b[1], b[2]] + b[3..]
  {}

  lemma FirstFour(s: string)
    requires 4 <= |s|
    ensures s == [s[0], s[1], s[2], s[3]] + s[4..]
  {}

  lemma QuadStep(b: seq<byte>)
    requires 3 <= |b| && Decode64(Encode64(b[3..])) == Some(b[3..]) && NoSpace(Encode64(b[3..]))
    ensures Decode64(Encode64(b)) == Some(b) && NoSpace(Encode64(b))
  {
    QuadReadBack(b[0], b[1], b[2], Encode64(b[3..]));
    FirstThree(b);
  }

  /** Decoding gives the bytes back, and the characters between survive trimming. */
  lemma {:induction false} Base64ReadBack(b: seq<byte>)
    ensures Decode64(Encode64(b)) == Some(b) && NoSpace(Encode64(b))
    decreases |b|
  {
    if 3 <= |b| {
      Base64ReadBack(b[3..]);
      QuadStep(b);
    } else if |b| == 1 {
      OneReadBack(b[0]);
      assert b == [b[0]];
    } else if |b| == 2 {
      TwoReadBack(b[0], b[1]);
      assert b == [b[0], b[1]];
    }
  }

  lemma CharOfValueOf(c: char)
    requires 0 <= ValueOf(c)
    ensures CharOf(ValueOf(c)) == c
  {}

  /** Three bytes taken apart again give the four values they were put together from. */
  lemma ValuesBack(v0: int, v1: int, v2: int, v3: int, b0: int, b1: int, b2: int)
    requires 0 <= v0 < 64 && 0 <= v1 < 64 && 0 <= v2 < 64 && 0 <= v3 < 64
    requires b0 == v0 * 4 + v1 / 16 && b1 == v1 % 16 * 16 + v2 / 4 && b2 == v2 % 4 * 64 + v3
    ensures 0 <= b0 < 256 && 0 <= b1 < 256 && 0 <= b2 < 256
    ensures b0 / 4 == v0 && b0 % 4 * 16 + b1 / 16 == v1 && b1 % 16 * 4 + b2 / 64 == v2 && b2 % 64 == v3
  {
    DivModUnique(b0, 4, v0, v1 / 16);
    DivModUnique(b1, 16, v1 % 16, v2 / 4);
    DivModUnique(b2, 64, v2 % 4, v3);
  }

  lemma OneEncoded(s: string, v0: int, v1: int, b0: byte)
    requires |s| == 4 && s[2] == '=' && s[3] == '='
    requires v0 == ValueOf(s[0]) && v1 == ValueOf(s[1]) && 0 <= v0 && 0 <= v1 && v1 % 16 == 0 && b0 == v0 * 4 + v1 / 16
    ensures Encode64([b0]) == s
  {
    ValuesBack(v0, v1, 0, 0, b0, 0, 0);
    CharOfValueOf(s[0]);
    CharOfValueOf(s[1]);
  }

  lemma TwoEncoded(s: string, v0: int, v1: int, v2: int, b0: byte, b1: byte)
    requires |s| == 4 && s[3] == '='
    requires v0 == ValueOf(s[0]) && v1 == ValueOf(s[1]) && v2 == ValueOf(s[2])
    requires 0 <= v0 && 0 <= v1 && 0 <= v2 && v2 % 4 == 0 && b0 == v0 * 4 + v1 / 16 && b1 == v1 % 16 * 16 + v2 / 4
    ensures Encode64([b0, b1]) == s
  {
    ValuesBack(v0, v1, v2, 0, b0, b1, 0);
    CharOfValueOf(s[0]);
    CharOfValueOf(s[1]);
    CharOfValueOf(s[2]);
  }

  lemma QuadBack(s: string, v0: int, v1: int, v2: int, v3: int, b0: byte, b1: byte, b2: byte)
    requires 4 <= |s| && v0 == ValueOf(s[0]) && v1 == ValueOf(s[1]) && v2 == ValueOf(s[2]) && v3 == ValueOf(s[3])
    requires 0 <= v0 && 0 <= v1 && 0 <= v2 && 0 <= v3
    requires b0 == v0 * 4 + v1 / 16 && b1 == v1 % 16 * 16 + v2 / 4 && b2 == v2 % 4 * 64 + v3
    ensures Quad(b0, b1, b2) == [s[0], s[1], s[2], s[3]]
  {
    ValuesBack(v0, v1, v2, v3, b0, b1, b2);
    CharOfValueOf(s[0]);
    CharOfValueOf(s[1]);
    CharOfValueOf(s[2]);
    CharOfValueOf(s[3]);
  }

  lemma EncodeThree(b0: byte, b1: byte, b2: byte, rest: seq<byte>)
    ensures Encode64([b0, b1, b2] + rest) == Quad(b0, b1, b2) + Encode64(rest)
  {
    assert ([b0, b1, b2] + rest)[3..] == rest;
  }

  lemma QuadEncoded(s: string, v0: int, v1: int, v2: int, v3: int, b0: byte, b1: byte, b2: byte, rest: seq<byte>)
    requires 4 <= |s| && v0 == ValueOf(s[0]) && v1 == ValueOf(s[1]) && v2 == ValueOf(s[2]) && v3 == ValueOf(s[3])
    requires 0 <= v0 && 0 <= v1 && 0 <= v2 && 0 <= v3 && Encode64(rest) == s[4..]
    requires b0 == v0 * 4 + v1 / 16 && b1 == v1 % 16 * 16 + v2 / 4 && b2 == v2 % 4 * 64 + v3
    ensures Encode64([b0, b1, b2] + rest) == s
  {
    QuadBack(s, v0, v1, v2, v3, b0, b1, b2);
    EncodeThree(b0, b1, b2, rest);
    FirstFour(s);
  }

  lemma PaddedTwiceIsEncoded(s: string)
    requires Decode64(s).Some? && |s| == 4 && s[2] == '=' && s[3] == '='
    ensures Encode64(Decode64(s).value) == s
  {
    OneEncoded(s, ValueOf(s[0]), ValueOf(s[1]), Decode64(s).value[0]);
  }

  lemma PaddedOnceIsEncoded(s: string)
    requires Decode64(s).Some? && |s| == 4 && s[2] != '=' && s[3] == '='
    ensures Encode64(Decode64(s).value) == s
  {
    var b := Decode64(s).value;
    TwoEncoded(s, ValueOf(s[0]), ValueOf(s[1]), ValueOf(s[2]), b[0], b[1]);
  }

  /** Four characters, none of them padding, and what follows. */
  lemma QuadDecoded(s: string) returns (b0: byte, b1: byte, b2: byte)
    requires s != "" && Decode64(s).Some? && !(|s| == 4 && s[3] == '=')
    ensures 4 <= |s| && forall i :: 0 <= i < 4 ==> 0 <= ValueOf(s[i])
    ensures Decode64(s) == Prefixed([b0, b1, b2], Decode64(s[4..]))
    ensures
      var v0, v1, v2, v3 := ValueOf(s[0]), ValueOf(s[1]), ValueOf(s[2]), ValueOf(s[3]);
      b0 == v0 * 4 + v1 / 16 && b1 == v1 % 16 * 16 + v2 / 4 && b2 == v2 % 4 * 64 + v3
  {
    var v0, v1, v2, v3 := ValueOf(s[0]), ValueOf(s[1]), ValueOf(s[2]), ValueOf(s[3]);
    b0, b1, b2 := v0 * 4 + v1 / 16, v1 % 16 * 16 + v2 / 4, v2 % 4 * 64 + v3;
  }

  /** What can be decoded is an encoding. */
  lemma {:induction false} DecodedIsEncoded(s: string)
    requires Decode64(s).Some?
    ensures Encode64(Decode64(s).value) == s
    decreases |s|
  {
    if s == "" {
    } else if |s| == 4 && s[2] == '=' && s[3] == '=' {
      PaddedTwiceIsEncoded(s);
    } else if |s| == 4 && s[3] == '=' {
      PaddedOnceIsEncoded(s);
    } else {
      var b0, b1, b2 := QuadDecoded(s);
      DecodedIsEncoded(s[4..]);
      QuadEncoded(s, ValueOf(s[0]), ValueOf(s[1]), ValueOf(s[2]), ValueOf(s[3]), b0, b1, b2, Decode64(s[4..]).value);
    }
  }

  /** Exactly the encodings can be decoded, each to what it encodes. */
  lemma Decode64Iff(s: string, b: seq<byte>)
    ensures Decode64(s) == Some(b) <==> Encode64(b) == s
  {
    Base64ReadBack(b);
    if Decode64(s) == Some(b) {
      DecodedIsEncoded(s);
    }
  }

  predicate NoSpace(s: string) {
    forall i :: 0 <= i < |s| ==> !IsSpace(s[i])
  }

  // ----- trimming

  /** The characters trim and trimLeft remove. */
  predicate IsSpace(c: char) {
    || '\t' <= c <= '\r' || c == ' ' || c == '\U{85}' || c == '\U{A0}' || c == '\U{1680}'
    || '\U{2000}' <= c <= '\U{200A}' || c == '\U{2028}' || c == '\U{2029}' || c == '\U{202F}'
    || c == '\U{205F}' || c == '\U{3000}' || c == '\U{FEFF}'
  }

  function TrimLeft(s: string): string {
    if s != "" && IsSpace(s[0]) then TrimLeft(s[1..]) else s
  }

  function TrimRight(s: string): string {
    if s != "" && IsSpace(s[|s| - 1]) then TrimRight(s[..|s| - 1]) else s
  }

  function Trim(s: string): string {
    TrimRight(TrimLeft(s))
  }

  lemma TrimNothing(s: string)
    requires NoSpace(s)
    ensures Trim(s) == s
  {}

  // ----- the text forms

  /** An ideal UTF-8: some encoder and decoder of texts. */
  datatype Utf8 = Utf8(encode: string -> seq<byte>, decode: seq<byte> -> string)

  const PREFIX := "s:"

  function EncodeIfSmaller(u: Utf8, d: Dict, text: string): string
    requires ValidDict(d)
  {
    if text == "" || PREFIX <= text then text
    else
      var original := u.encode(text);
      var candidate := PREFIX + Encode64(Compressed(d, original, []));
      if |u.encode(candidate)| < |original| then candidate else text
  }

  function Replaced(s: string, from: char, to: char): (r: string)
    ensures |r| == |s|
  {
    seq(|s|, i requires 0 <= i < |s| => if s[i] == from then to else s[i])
  }

  function PaddedToFour(s: string): string {
    if |s| % 4 == 0 then s else s + seq(4 - |s| % 4, _ => '=')
  }

  /** The URL alphabet mapped back, and missing padding added. */
  function Normal(s: string): string {
    PaddedToFour(Replaced(Replaced(s, '-', '+'), '_', '/'))
  }

  function DecodeFlexible(encoded: string): Option<seq<byte>> {
    var trimmed := Trim(encoded);
    match Decode64(trimmed)
    case Some(b) => Some(b)
    case None => Decode64(Normal(trimmed))
  }

  predicate Plain(s: string) {
    |s| % 4 == 0 && '-' !in s && '_' !in s
  }

  lemma {:induction false} EncodedIsPlain(b: seq<byte>)
    ensures Plain(Encode64(b))
    decreases |b|
  {
    if 3 <= |b| {
      EncodedIsPlain(b[3..]);
    }
  }

  lemma PlainIsNormal(s: string)
    requires Plain(s)
    ensures Normal(s) == s
  {
    assert Replaced(s, '-', '+') == s;
    assert Replaced(s, '_', '/') == s;
  }

  /** The two attempts together: exactly what is base64 once normalised. */
  lemma DecodeFlexibleIff(encoded: string, b: seq<byte>)
    ensures DecodeFlexible(encoded) == Some(b) <==> Encode64(b) == Normal(Trim(encoded))
  {
    var trimmed := Trim(encoded);
    if Decode64(trimmed).Some? {
      var c := Decode64(trimmed).value;
      Decode64Iff(trimmed, c);
      EncodedIsPlain(c);
      PlainIsNormal(trimmed);
      Decode64Iff(trimmed, b);
    } else {
      Decode64Iff(Normal(trimmed), b);
    }
  }

  function TryDecodePrefixed(u: Utf8, d: Dict, text: string): Option<string> {
    var t := TrimLeft(text);
    if !(PREFIX <= t) || |t| <= 2 then None
    else
      match DecodeFlexible(t[2..])
      case None => None
      case Some(compressed) =>
        match Decompressed(d, compressed)
        case None => None
        case Some(b) => Some(u.decode(b))
  }

  /** What a reader shows: the decoded text, or the text as it stands. */
  function Shown(u: Utf8, d: Dict, text: string): string {
    match TryDecodePrefixed(u, d, text)
    case None => text
    case Some(t) => t
  }

  lemma CandidateReadBack(u: Utf8, d: Dict, original: seq<byte>)
    requires ValidDict(d) && original != []
    ensures TryDecodePrefixed(u, d, PREFIX + Encode64(Compressed(d, original, []))) == Some(u.decode(original))
  {
    var compressed := Compressed(d, original, []);
    var candidate := PREFIX + Encode64(compressed);
    assert original + [] == original;
    NotEmpty(d, original, []);
    assert candidate[2..] == Encode64(compressed);
    assert TrimLeft(candidate) == candidate;
    Base64ReadBack(compressed);
    TrimNothing(Encode64(compressed));
    RoundTrip(d, original);
  }

  /**
   * A text that survives UTF-8 and does not look encoded (after left-trimming) is
   * shown unchanged after encoding, and encoding never makes it longer.
   */
  lemma TextReadBack(u: Utf8, d: Dict, text: string)
    requires ValidDict(d) && u.decode(u.encode(text)) == text
    requires !(PREFIX <= TrimLeft(text))
    ensures Shown(u, d, EncodeIfSmaller(u, d, text)) == text
    ensures |u.encode(EncodeIfSmaller(u, d, text))| <= |u.encode(text)|
  {
    if EncodeIfSmaller(u, d, text) != text {
      CandidateReadBack(u, d, u.encode(text));
    }
  }

  /** Sent as it is: empty, already marked, or not shorter when compressed. */
  predicate LeftAlone(u: Utf8, d: Dict, text: string)
    requires ValidDict(d)
  {
    || text == "" || PREFIX <= text
    || |u.encode(text)| <= |u.encode(PREFIX + Encode64(Compressed(d, u.encode(text), [])))|
  }

  /**
   * Exactly the texts that are not to be left alone are encoded; then the result is shorter in UTF-8, and the
   * base64 after its mark is that of bytes that decompress to the text.
   */
  lemma EncodesIff(u: Utf8, d: Dict, text: string)
    requires ValidDict(d)
    ensures EncodeIfSmaller(u, d, text) == text <==> LeftAlone(u, d, text)
    ensures !LeftAlone(u, d, text) ==>
      var r := EncodeIfSmaller(u, d, text);
      && |u.encode(r)| < |u.encode(text)| && "s:" <= r
      && Decode64(r[2..]).Some? && Decompressed(d, Decode64(r[2..]).value) == Some(u.encode(text))
  {
    if !LeftAlone(u, d, text) {
      var c := Compressed(d, u.encode(text), []);
      var r := PREFIX + Encode64(c);
      assert r[2..] == Encode64(c);
      Base64ReadBack(c);
      RoundTrip(d, u.encode(text));
    }
  }

  /** The examples of section 10 of RFC 4648. */
  lemma Rfc4648Examples()
    ensures Encode64([]) == "" && Encode64([0x66]) == "Zg==" && Encode64([0x66, 0x6F]) == "Zm8="
    ensures Encode64([0x66, 0x6F, 0x6F]) == "Zm9v" && Encode64([0x66, 0x6F, 0x6F, 0x62]) == "Zm9vYg=="
    ensures Encode64([0xFB, 0xFF, 0xBF]) == "+/+/"
  {
    var b := [0x66, 0x6F, 0x6F, 0x62];
    assert [0x66, 0x6F, 0x6F][3..] == [] && b[3..] == [0x62] && [0xFB, 0xFF, 0xBF][3..] == [];
  }

  /** After its mark a text holds, in base64 or nearly, these tokens, which mean b. */
  ghost predicate Carries(d: Dict, text: string, ts: seq<Token>, c: seq<byte>, b: seq<byte>) {
    var t := TrimLeft(text);
    PREFIX <= t && 2 < |t| && Spells(d, ts, c, b) && Encode64(c) == Normal(Trim(t[2..]))
  }

  /** Left alone, and carrying tokens that spell another text. */
  ghost predicate Misread(u: Utf8, d: Dict, text: string)
    requires ValidDict(d)
  {
    LeftAlone(u, d, text) && exists ts, c, b :: Carries(d, text, ts, c, b) && u.decode(b) != text
  }

  lemma DecodesIff(u: Utf8, d: Dict, text: string, c: seq<byte>, b: seq<byte>, ts: seq<Token>)
    requires ValidDict(d) && Carries(d, text, ts, c, b)
    ensures TryDecodePrefixed(u, d, text) == Some(u.decode(b))
  {
    DecodeFlexibleIff(TrimLeft(text)[2..], c);
    DecompressedIff(d, c, b);
  }

  lemma CarriedTokens(u: Utf8, d: Dict, text: string) returns (ts: seq<Token>, c: seq<byte>, b: seq<byte>)
    requires ValidDict(d) && TryDecodePrefixed(u, d, text).Some?
    ensures Carries(d, text, ts, c, b) && TryDecodePrefixed(u, d, text) == Some(u.decode(b))
  {
    var t := TrimLeft(text);
    c := DecodeFlexible(t[2..]).value;
    b := Decompressed(d, c).value;
    DecodeFlexibleIff(t[2..], c);
    DecompressedIff(d, c, b);
    ts :| Spells(d, ts, c, b);
  }

  /**
   * Exactly: a valid text is not shown as it was if and only if it was left alone, and after a mark it holds
   * base64 (or nearly) of a token stream that spells another text.
   */
  lemma TextComesBackIff(u: Utf8, d: Dict, text: string)
    requires ValidDict(d) && u.decode(u.encode(text)) == text
    ensures Shown(u, d, EncodeIfSmaller(u, d, text)) == text <==> !Misread(u, d, text)
  {
    if !LeftAlone(u, d, text) {
      CandidateReadBack(u, d, u.encode(text));
    } else {
      assert EncodeIfSmaller(u, d, text) == text;
      if TryDecodePrefixed(u, d, text).Some? {
        var ts, c, b := CarriedTokens(u, d, text);
      }
      if ts, c, b :| Carries(d, text, ts, c, b) && u.decode(b) != text {
        DecodesIff(u, d, text, c, b, ts);
      }
    }
  }

  /** A text that does look encoded is not protected: it is shown decoded. */
  lemma PrefixedTextIsLost(u: Utf8, d: Dict)
    requires ValidDict(d) && 0 < |d| && d[0] == [32] && u.decode([32]) == " "
    ensures EncodeIfSmaller(u, d, "s:AA==") == "s:AA=="
    ensures Shown(u, d, "s:AA==") == " "
  {
    var text := "s:AA==";
    assert TrimLeft(text) == text && text[2..] == "AA==";
    TrimNothing("AA==");
    assert Decode64("AA==") == Some([0]);
    assert [0][1..] == [];
    assert Decompressed(d, [0]) == Prefixed(d[0], Some([])) && d[0] + [] == [32];
  }
}
