/** The dictionary of the compressor, in code order. */
module SmazTable {
  import opened Prelude
  import opened Smaz
  import SmazText

  /** A dictionary word as its ASCII bytes. */
  function W(s: string): (e: Entry)
    requires s != [] && forall i :: 0 <= i < |s| ==> s[i] < 128 as char
  {
    seq(|s|, i requires 0 <= i < |s| => s[i] as int)
  }

  const CODES_0: seq<Entry> := [
    W(" "), W("the"), W("e"), W("t"), W("a"), W("of"), W("o"), W("and"), W("i"), W("n"), W("s"), W("e "),
    W("r"), W(" th"), W(" t"), W("in"), W("he"), W("th"), W("h"), W("he "), W("to"), W("\r\n"), W("l"),
    W("s "), W("d"), W(" a"), W("an"), W("er"), W("c"), W(" o"), W("d "), W("on")
  ]

  const CODES_32: seq<Entry> := [
    W(" of"), W("re"), W("of "), W("t "), W(", "), W("is"), W("u"), W("at"), W("   "), W("n "), W("or"),
    W("which"), W("f"), W("m"), W("as"), W("it"), W("that"), W("\n"), W("was"), W("en"), W("  "), W(" w"),
    W("es"), W(" an"), W(" i"), W("\r"), W("f "), W("g"), W("p"), W("nd"), W(" s"), W("nd ")
  ]

  const CODES_64: seq<Entry> := [
    W("ed "), W("w"), W("ed"), W("http://"), W("for"), W("te"), W("ing"), W("y "), W("The"), W(" c"),
    W("ti"), W("r "), W("his"), W("st"), W(" in"), W("ar"), W("nt"), W(","), W(" to"), W("y"), W("ng"),
    W(" h"), W("with"), W("le"), W("al"), W("to "), W("b"), W("ou"), W("be"), W("were"), W(" b"), W("se")
  ]

  const CODES_96: seq<Entry> := [
    W("o "), W("ent"), W("ha"), W("ng "), W("their"), W("\""), W("hi"), W("from"), W(" f"), W("in "),
    W("de"), W("ion"), W("me"), W("v"), W("."), W("ve"), W("all"), W("re "), W("ri"), W("ro"), W("is "),
    W("co"), W("f t"), W("are"), W("ea"), W(". "), W("her"), W(" m"), W("er "), W(" p"), W("es "), W("by")
  ]

  const CODES_128: seq<Entry> := [
    W("they"), W("di"), W("ra"), W("ic"), W("not"), W("s, "), W("d t"), W("at "), W("ce"), W("la"), W("h "),
    W("ne"), W("as "), W("tio"), W("on "), W("n t"), W("io"), W("we"), W(" a "), W("om"), W(", a"),
    W("s o"), W("ur"), W("li"), W("ll"), W("ch"), W("had"), W("this"), W("e t"), W("g "), W("e\r\n"),
    W(" wh")
  ]

  const CODES_160: seq<Entry> := [
    W("ere"), W(" co"), W("e o"), W("a "), W("us"), W(" d"), W("ss"), W("\n\r\n"), W("\r\n\r"), W("=\""),
    W(" be"), W(" e"), W("s a"), W("ma"), W("one"), W("t t"), W("or "), W("but"), W("el"), W("so"), W("l "),
    W("e s"), W("s,"), W("no"), W("ter"), W(" wa"), W("iv"), W("ho"), W("e a"), W(" r"), W("hat"), W("s t")
  ]

  const CODES_192: seq<Entry> := [
    W("ns"), W("ch "), W("wh"), W("tr"), W("ut"), W("/"), W("have"), W("ly "), W("ta"), W(" ha"), W(" on"),
    W("tha"), W("-"), W(" l"), W("ati"), W("en "), W("pe"), W(" re"), W("there"), W("ass"), W("si"),
    W(" fo"), W("wa"), W("ec"), W("our"), W("who"), W("its"), W("z"), W("fo"), W("rs"), W(">"), W("ot")
  ]

  const CODES_224: seq<Entry> := [
    W("un"), W("<"), W("im"), W("th "), W("nc"), W("ate"), W("><"), W("ver"), W("ad"), W(" we"), W("ly"),
    W("ee"), W(" n"), W("id"), W(" cl"), W("ac"), W("il"), W("</"), W("rt"), W(" wi"), W("div"), W("e, "),
    W(" it"), W("whi"), W(" ma"), W("ge"), W("x"), W("e c"), W("men"), W(".com")
  ]

  const RCB: Dict :=
    CODES_0 + CODES_32 + CODES_64 + CODES_96 + CODES_128 + CODES_160 + CODES_192 + CODES_224

  lemma RcbHas254Entries()
    ensures |RCB| == 254 && ValidDict(RCB)
  {}

  // ----- the compressor with this dictionary

  /** Every byte string comes back, and grows by two thirds at most. */
  lemma ShippedRoundTrip(s: seq<byte>)
    ensures ValidDict(RCB)
    ensures Decompressed(RCB, Compressed(RCB, s, [])) == Some(s)
    ensures 3 * |Compressed(RCB, s, [])| <= 5 * |s| + 2
  {
    RcbHas254Entries();
    RoundTrip(RCB, s);
    Expansion(RCB, s);
  }

  /** Which texts come back, with this dictionary. */
  lemma ShippedTextComesBackIff(u: SmazText.Utf8, text: string)
    requires u.decode(u.encode(text)) == text
    ensures ValidDict(RCB)
    ensures SmazText.Shown(u, RCB, SmazText.EncodeIfSmaller(u, RCB, text)) == text <==> !SmazText.Misread(u, RCB, text)
    ensures !(SmazText.PREFIX <= SmazText.TrimLeft(text)) ==>
      SmazText.Shown(u, RCB, SmazText.EncodeIfSmaller(u, RCB, text)) == text
  {
    RcbHas254Entries();
    SmazText.TextComesBackIff(u, RCB, text);
    if !(SmazText.PREFIX <= SmazText.TrimLeft(text)) {
      SmazText.TextReadBack(u, RCB, text);
    }
  }

  lemma FirstWordIsSpace()
    ensures RCB[0] == [32]
  {
    assert CODES_0[0] == W(" ") == [32];
  }

  /** The text s:AA== is shown as one space. */
  lemma ShippedTextIsLost(u: SmazText.Utf8)
    requires u.decode([32]) == " "
    ensures ValidDict(RCB)
    ensures SmazText.Shown(u, RCB, SmazText.EncodeIfSmaller(u, RCB, "s:AA==")) == " "
  {
    RcbHas254Entries();
    FirstWordIsSpace();
    SmazText.PrefixedTextIsLost(u, RCB);
  }

  // ----- a text that is encoded

  lemma ShortWords0(k: nat)
    requires k < 32
    ensures |CODES_0[k]| < 7
  {}

  lemma ShortWords32(k: nat)
    requires k < 32
    ensures |CODES_32[k]| < 7
  {}

  lemma WordAt(k: nat)
    requires k < 68
    ensures |RCB| == 254 && |CODES_0| == |CODES_32| == |CODES_64| == 32
    ensures RCB[k] == if k < 32 then CODES_0[k] else if k < 64 then CODES_32[k - 32] else CODES_64[k - 64]
  {
    RcbHas254Entries();
    InFront(CODES_0, CODES_32, CODES_64, CODES_96, CODES_128, CODES_160, CODES_192, CODES_224, k);
  }

  lemma InFront<T>(a: seq<T>, b: seq<T>, c: seq<T>, d: seq<T>, e: seq<T>, f: seq<T>, g: seq<T>, h: seq<T>, k: nat)
    requires |a| == 32 && |b| == 32 && |c| == 32 && k < 68
    ensures (a + b + c + d + e + f + g + h)[k] == if k < 32 then a[k] else if k < 64 then b[k - 32] else c[k - 64]
  {}

  lemma ShortWords(k: nat)
    requires k < 67 && |RCB| == 254
    ensures |RCB[k]| < 7
  {
    WordAt(k);
    if k < 32 {
      ShortWords0(k);
    } else if k < 64 {
      ShortWords32(k - 32);
    } else {
      ShortWords64(k - 64);
    }
  }

  lemma ShortWords64(k: nat)
    requires k < 3
    ensures |CODES_64[k]| < 7
  {}

  lemma HttpIsWord67()
    ensures |RCB| == 254 && RCB[67] == W("http://")
  {
    WordAt(67);
  }

  lemma BestForHttp()
    ensures ValidDict(RCB) && RCB[67] == W("http://") && IsBest(RCB, W("http://"), 67)
  {
    HttpIsWord67();
    BestIfLonger(RCB, W("http://"), 67);
  }

  lemma BestIfLonger(d: Dict, s: seq<byte>, c: nat)
    requires d == RCB && |d| == 254 && c == 67 && d[c] == s && |s| == 7
    ensures IsBest(d, s, c)
  {
    forall k | 0 <= k < 67 ensures |d[k]| < 7 {
      ShortWords(k);
    }
  }

  lemma CompressedHttp(s: seq<byte>)
    requires ValidDict(RCB) && s == RCB[67] && IsBest(RCB, s, 67)
    ensures Compressed(RCB, s, []) == [67]
  {
    WordFirst(RCB, s, 67, []);
    assert Compressed(RCB, [], []) == [];
    assert [67] + [] == [67];
  }

  lemma EncodedAs(u: SmazText.Utf8, text: string, code: string)
    requires ValidDict(RCB) && text != "" && text[0] != 's'
    requires SmazText.Encode64(Compressed(RCB, u.encode(text), [])) == code && |u.encode("s:" + code)| < |u.encode(text)|
    ensures SmazText.EncodeIfSmaller(u, RCB, text) == "s:" + code
  {}

  /** The text http:// is the dictionary word 67, and is sent as s:Qw==, one byte shorter. */
  lemma ShippedTextIsEncoded(u: SmazText.Utf8)
    requires u.encode("http://") == W("http://") && |u.encode("s:Qw==")| == 6
    ensures ValidDict(RCB) && SmazText.EncodeIfSmaller(u, RCB, "http://") == "s:Qw=="
  {
    BestForHttp();
    CompressedHttp(W("http://"));
    assert SmazText.Encode64([67]) == "Qw==";
    assert |W("http://")| == 7 && "s:" + "Qw==" == "s:Qw==";
    EncodedAs(u, "http://", "Qw==");
  }
}
