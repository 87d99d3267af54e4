/**
 The text of a listing cursor: base64 (sections 4 and 5 of RFC 4648) of the JSON of a creation time and an offer ID.
 Reading a cursor back gives its creation time, with the padding left off and with either alphabet. The JSON writer
 and reader are parameters.

 Bytes are encoded three at a time: the lemmas follow the groups, the last one with one or two signs of padding. What does
 not decode, or decodes to anything but an object with an integer time, is no time at all.
 */
module CursorText {
  import opened Texts
  import opened Json

  type Byte = b: nat | b < 256

  // ---- Base64 ----

  /** The standard alphabet. */
  function SextetChar(v: nat): char
    requires v < 64
  {
    if v < 26 then 'A' + v as char
    else if v < 52 then 'a' + (v - 26) as char
    else if v < 62 then '0' + (v - 52) as char
    else if v == 62 then '+'
    else '/'
  }

  /** Both alphabets: `-` and `_` stand for `+` and `/`. */
  function SextetOf(c: char): Option<nat> {
    if 'A' <= c <= 'Z' then Some(c as nat - 'A' as nat)
    else if 'a' <= c <= 'z' then Some(c as nat - 'a' as nat + 26)
    else if '0' <= c <= '9' then Some(c as nat - '0' as nat + 52)
    else if c == '+' || c == '-' then Some(62)
    else if c == '/' || c == '_' then Some(63)
    else None
  }

  lemma SextetRoundTrip(v: nat)
    requires v < 64
    ensures SextetOf(SextetChar(v)) == Some(v) && SextetChar(v) != '='
  {
  }

  function First(a: Byte): nat { a / 4 }

  function Second(a: Byte, b: Byte): nat { a % 4 * 16 + b / 16 }

  function Third(b: Byte, c: Byte): nat { b % 16 * 4 + c / 64 }

  function Fourth(c: Byte): nat { c % 64 }

  function Quad(a: Byte, b: Byte, c: Byte): string {
    [SextetChar(First(a)), SextetChar(Second(a, b)), SextetChar(Third(b, c)), SextetChar(Fourth(c))]
  }

  function Encode(bytes: seq<Byte>): string {
    if bytes == [] then ""
    else if |bytes| == 1 then [SextetChar(First(bytes[0])), SextetChar(Second(bytes[0], 0)), '=', '=']
    else if |bytes| == 2 then
      [SextetChar(First(bytes[0])), SextetChar(Second(bytes[0], bytes[1])), SextetChar(Third(bytes[1], 0)), '=']
    else Quad(bytes[0], bytes[1], bytes[2]) + Encode(bytes[3..])
  }

  /** The bytes of one group of four characters, the last one padded or not; None when a character does not fit. */
  function DecodeQuad(s: string, last: bool): Option<seq<Byte>>
    requires |s| == 4
  {
    DecodeSextets(SextetOf(s[0]), SextetOf(s[1]), SextetOf(s[2]), SextetOf(s[3]), last && s[2] == '=', last && s[3] == '=')
  }

  function DecodeSextets(v: Option<nat>, w: Option<nat>, x: Option<nat>, y: Option<nat>, thirdPad: bool, fourthPad: bool): Option<seq<Byte>> {
    if v.None? || w.None? then None
    else
      var first := v.value * 4 + w.value / 16;
      if thirdPad && fourthPad then ToBytes([first])
      else if x.None? then None
      else
        var second := w.value % 16 * 16 + x.value / 4;
        if fourthPad then ToBytes([first, second])
        else if y.None? then None
        else ToBytes([first, second, x.value % 4 * 64 + y.value])
  }

  function ToBytes(values: seq<nat>): Option<seq<Byte>> {
    if forall i :: 0 <= i < |values| ==> values[i] < 256 then Some(seq(|values|, i requires 0 <= i < |values| => values[i] as Byte))
    else None
  }

  function Decode(s: string): Option<seq<Byte>> {
    if s == "" then Some([])
    else if |s| < 4 then None
    else
      var quad, rest := DecodeQuad(s[..4], |s| == 4), Decode(s[4..]);
      if quad.None? || rest.None? then None else Some(quad.value + rest.value)
  }

  /** The characters of either alphabet. */
  predicate InAlphabet(c: char) {
    'A' <= c <= 'Z' || 'a' <= c <= 'z' || '0' <= c <= '9' || c in {'+', '/', '-', '_'}
  }

  lemma SextetsAreAlphabet(c: char)
    ensures SextetOf(c).Some? <==> InAlphabet(c)
    ensures !InAlphabet('=')
  {
  }

  lemma QuadIsAlphabet(s: string, last: bool)
    requires |s| == 4 && DecodeQuad(s, last).Some?
    ensures InAlphabet(s[0]) && InAlphabet(s[1])
    ensures InAlphabet(s[2]) || (last && s[2] == s[3] == '=')
    ensures InAlphabet(s[3]) || (last && s[3] == '=')
  {
    SextetsAreAlphabet(s[0]);
    SextetsAreAlphabet(s[1]);
    SextetsAreAlphabet(s[2]);
    SextetsAreAlphabet(s[3]);
    hide SextetOf;
    hide ToBytes;
    hide InAlphabet;
  }

  /** Only whole groups of the alphabets decode, with at most two signs of padding, at the very end. */
  lemma {:induction false} DecodesOnlyAlphabet(s: string)
    requires Decode(s).Some?
    ensures |s| % 4 == 0
    ensures forall i :: 0 <= i < |s| ==> InAlphabet(s[i]) || (s[i] == '=' && i >= |s| - 2 && (i == |s| - 1 || s[|s| - 1] == '='))
  {
    hide InAlphabet;
    hide DecodeQuad;
    if s != "" {
      QuadIsAlphabet(s[..4], |s| == 4);
      DecodesOnlyAlphabet(s[4..]);
      assert s == s[..4] + s[4..];
      assert |s| == 4 ==> s[4..] == "";
      assert forall i :: 4 <= i < |s| ==> s[i] == s[4..][i - 4];
    }
  }

  lemma Sextets(a: Byte, b: Byte, c: Byte)
    ensures First(a) < 64 && Second(a, b) < 64 && Third(b, c) < 64 && Fourth(c) < 64
    ensures First(a) * 4 + Second(a, b) / 16 == a
    ensures Second(a, b) % 16 * 16 + Third(b, c) / 4 == b
    ensures Third(b, c) % 4 * 64 + Fourth(c) == c
  {
  }

  lemma ToBytesOf(bytes: seq<Byte>, values: seq<nat>)
    requires |values| == |bytes| && forall i :: 0 <= i < |bytes| ==> values[i] == bytes[i]
    ensures ToBytes(values) == Some(bytes)
  {
    assert ToBytes(values).Some? && ToBytes(values).value == bytes;
  }

  lemma FullQuad(v: nat, w: nat, x: nat, y: nat, a: Byte, b: Byte, c: Byte)
    requires v * 4 + w / 16 == a && w % 16 * 16 + x / 4 == b && x % 4 * 64 + y == c
    ensures DecodeSextets(Some(v), Some(w), Some(x), Some(y), false, false) == Some([a, b, c])
  {
    hide ToBytes;
    ToBytesOf([a, b, c], [a, b, c]);
  }

  lemma QuadRoundTrip(a: Byte, b: Byte, c: Byte, last: bool)
    ensures DecodeQuad(Quad(a, b, c), last) == Some([a, b, c])
  {
    hide DecodeSextets;
    Sextets(a, b, c);
    FullQuad(First(a), Second(a, b), Third(b, c), Fourth(c), a, b, c);
    SextetRoundTrip(First(a));
    SextetRoundTrip(Second(a, b));
    SextetRoundTrip(Third(b, c));
    SextetRoundTrip(Fourth(c));
    hide SextetChar;
    hide SextetOf;
    hide First;
    hide Second;
    hide Third;
    hide Fourth;
  }

  lemma OneInQuad(v: nat, w: nat, x: Option<nat>, y: Option<nat>, a: Byte)
    requires v * 4 + w / 16 == a
    ensures DecodeSextets(Some(v), Some(w), x, y, true, true) == Some([a])
  {
    hide ToBytes;
    ToBytesOf([a], [a]);
  }

  lemma TwoInQuad(v: nat, w: nat, x: nat, y: Option<nat>, a: Byte, b: Byte)
    requires v * 4 + w / 16 == a && w % 16 * 16 + x / 4 == b
    ensures DecodeSextets(Some(v), Some(w), Some(x), y, false, true) == Some([a, b])
  {
    hide ToBytes;
    ToBytesOf([a, b], [a, b]);
  }

  lemma OneByteRoundTrip(a: Byte)
    ensures DecodeQuad(Encode([a]), true) == Some([a])
  {
    hide DecodeSextets;
    Sextets(a, 0, 0);
    OneInQuad(First(a), Second(a, 0), SextetOf('='), SextetOf('='), a);
    SextetRoundTrip(First(a));
    SextetRoundTrip(Second(a, 0));
    hide SextetChar;
    hide SextetOf;
    hide First;
    hide Second;
  }

  lemma TwoBytesRoundTrip(a: Byte, b: Byte)
    ensures DecodeQuad(Encode([a, b]), true) == Some([a, b])
  {
    hide DecodeSextets;
    Sextets(a, b, 0);
    TwoInQuad(First(a), Second(a, b), Third(b, 0), SextetOf('='), a, b);
    SextetRoundTrip(First(a));
    SextetRoundTrip(Second(a, b));
    SextetRoundTrip(Third(b, 0));
    hide SextetChar;
    hide SextetOf;
    hide First;
    hide Second;
    hide Third;
  }

  lemma ShortRoundTrip(bytes: seq<Byte>)
    requires 1 <= |bytes| <= 2
    ensures DecodeQuad(Encode(bytes), true) == Some(bytes) && |Encode(bytes)| == 4
  {
    hide DecodeQuad;
    if |bytes| == 1 {
      assert bytes == [bytes[0]];
      OneByteRoundTrip(bytes[0]);
    } else {
      assert bytes == [bytes[0], bytes[1]];
      TwoBytesRoundTrip(bytes[0], bytes[1]);
    }
  }

  lemma DecodeConcat(quad: string, rest: string)
    requires |quad| == 4
    ensures Decode(quad + rest) ==
      var first, others := DecodeQuad(quad, rest == ""), Decode(rest);
      if first.None? || others.None? then None else Some(first.value + others.value)
  {
    hide DecodeQuad;
    assert (quad + rest)[..4] == quad && (quad + rest)[4..] == rest;
  }

  lemma EncodeLong(bytes: seq<Byte>)
    requires |bytes| >= 3
    ensures Encode(bytes) == Quad(bytes[0], bytes[1], bytes[2]) + Encode(bytes[3..]) && |Quad(bytes[0], bytes[1], bytes[2])| == 4
    ensures bytes == [bytes[0], bytes[1], bytes[2]] + bytes[3..]
  {
  }

  lemma ShortDecodes(bytes: seq<Byte>)
    requires 1 <= |bytes| <= 2
    ensures Decode(Encode(bytes)) == Some(bytes) && |Encode(bytes)| == 4
  {
    ShortRoundTrip(bytes);
    hide DecodeQuad;
    hide Encode;
    DecodeConcat(Encode(bytes), "");
    assert Encode(bytes) + "" == Encode(bytes);
    assert bytes + [] == bytes;
  }

  lemma LongDecodes(bytes: seq<Byte>)
    requires |bytes| >= 3 && Decode(Encode(bytes[3..])) == Some(bytes[3..])
    ensures Decode(Encode(bytes)) == Some(bytes) && |Encode(bytes)| == 4 + |Encode(bytes[3..])|
  {
    hide DecodeQuad;
    hide Encode;
    hide Decode;
    hide Quad;
    EncodeLong(bytes);
    QuadRoundTrip(bytes[0], bytes[1], bytes[2], Encode(bytes[3..]) == "");
    DecodeConcat(Quad(bytes[0], bytes[1], bytes[2]), Encode(bytes[3..]));
  }

  lemma NothingDecodes()
    ensures Encode([]) == "" && Decode("") == Some([])
  {
  }

  lemma {:induction false} Base64RoundTrip(bytes: seq<Byte>)
    ensures Decode(Encode(bytes)) == Some(bytes)
    ensures |Encode(bytes)| % 4 == 0
  {
    hide Decode;
    hide Encode;
    if bytes == [] {
      NothingDecodes();
    } else if |bytes| <= 2 {
      ShortDecodes(bytes);
    } else {
      Base64RoundTrip(bytes[3..]);
      LongDecodes(bytes);
    }
  }

  // ---- Padding and alphabet ----

  /** The padding Python adds back: up to the next multiple of four characters. */
  function Padded(s: string): string {
    s + seq((4 - |s| % 4) % 4, i => '=')
  }

  function Unpadded(s: string): string {
    if s != "" && s[|s| - 1] == '=' then Unpadded(s[..|s| - 1]) else s
  }

  function UrlSafe(s: string): (r: string)
    ensures |r| == |s|
    ensures forall i :: 0 <= i < |s| ==> r[i] == if s[i] == '+' then '-' else if s[i] == '/' then '_' else s[i]
  {
    seq(|s|, i requires 0 <= i < |s| => if s[i] == '+' then '-' else if s[i] == '/' then '_' else s[i])
  }

  lemma SafeSextet(c: char)
    ensures var d := if c == '+' then '-' else if c == '/' then '_' else c;
      SextetOf(d) == SextetOf(c) && (d == '=' <==> c == '=')
  {
  }

  lemma SafeQuad(s: string, last: bool)
    requires |s| == 4
    ensures DecodeQuad(UrlSafe(s), last) == DecodeQuad(s, last)
  {
    SafeSextet(s[0]);
    SafeSextet(s[1]);
    SafeSextet(s[2]);
    SafeSextet(s[3]);
    hide SextetOf;
    hide DecodeSextets;
  }

  lemma {:induction false} UrlSafeDecodes(s: string)
    ensures Decode(UrlSafe(s)) == Decode(s)
  {
    if |s| >= 4 {
      hide DecodeQuad;
      UrlSafeDecodes(s[4..]);
      SafeQuad(s[..4], |s| == 4);
      assert UrlSafe(s)[4..] == UrlSafe(s[4..]);
      assert UrlSafe(s)[..4] == UrlSafe(s[..4]);
    }
  }

  lemma UnpadNothing(s: string)
    requires s != "" && s[|s| - 1] != '='
    ensures Unpadded(s) == s
  {
  }

  lemma UnpadOne(s: string)
    ensures Unpadded(s + "=") == Unpadded(s)
  {
    assert (s + "=")[..|s|] == s;
  }

  lemma QuadEnds(a: Byte, b: Byte, c: Byte)
    ensures |Quad(a, b, c)| == 4 && Quad(a, b, c)[3] != '='
  {
    Sextets(a, b, c);
    SextetRoundTrip(Fourth(c));
    hide SextetChar;
  }

  lemma ShortEnds(bytes: seq<Byte>)
    requires 1 <= |bytes| <= 2
    ensures var s := Encode(bytes);
      && |s| == 4 && s[|bytes|] != '='
      && s == s[..|bytes| + 1] + seq(3 - |bytes|, i => '=')
  {
    Sextets(bytes[0], if |bytes| == 2 then bytes[1] else 0, 0);
    SextetRoundTrip(Second(bytes[0], 0));
    if |bytes| == 2 {
      SextetRoundTrip(Third(bytes[1], 0));
    }
    hide SextetChar;
    hide First;
    hide Second;
    hide Third;
  }

  /** What the encoder ends with: no padding, one sign, or two. */
  lemma {:induction false} PaddingOf(bytes: seq<Byte>) returns (core: string, pads: nat)
    ensures Encode(bytes) == core + seq(pads, i => '=') && pads <= 2 && (|core| + pads) % 4 == 0
    ensures core != "" ==> core[|core| - 1] != '='
    ensures core == "" ==> pads == 0
  {
    if bytes == [] {
      core, pads := "", 0;
    } else if |bytes| <= 2 {
      ShortEnds(bytes);
      hide Encode;
      core, pads := Encode(bytes)[..|bytes| + 1], 3 - |bytes|;
    } else {
      hide Encode;
      hide Quad;
      var quad := Quad(bytes[0], bytes[1], bytes[2]);
      QuadEnds(bytes[0], bytes[1], bytes[2]);
      EncodeLong(bytes);
      var rest;
      rest, pads := PaddingOf(bytes[3..]);
      core := quad + rest;
      assert Encode(bytes) == core + seq(pads, i => '=');
    }
  }

  lemma {:induction false} UnpadCore(core: string, pads: nat)
    requires core != "" ==> core[|core| - 1] != '='
    ensures Unpadded(core + seq(pads, i => '=')) == core
  {
    if pads == 0 {
      assert core + seq(pads, i => '=') == core;
      if core != "" {
        UnpadNothing(core);
      }
    } else {
      assert core + seq(pads, i => '=') == core + seq(pads - 1, i => '=') + "=";
      UnpadOne(core + seq(pads - 1, i => '='));
      UnpadCore(core, pads - 1);
    }
  }

  /** The padding to add is what was left off. */
  lemma PadsNeeded(length: nat, pads: nat)
    requires pads <= 2 && (length + pads) % 4 == 0
    ensures (4 - length % 4) % 4 == pads
  {
  }

  /** Adding the padding back undoes leaving it off. */
  lemma {:induction false} PaddingRestored(bytes: seq<Byte>)
    ensures Padded(Unpadded(Encode(bytes))) == Encode(bytes)
  {
    hide Encode;
    hide Unpadded;
    var core, pads := PaddingOf(bytes);
    UnpadCore(core, pads);
    PadsNeeded(|core|, pads);
  }

  // ---- Cursors ----

  datatype JsonCodec = JsonCodec(dumps: Json -> seq<Byte>, loads: seq<Byte> -> Option<Json>)

  ghost predicate Inverse(codec: JsonCodec) {
    forall j :: codec.loads(codec.dumps(j)) == Some(j)
  }

  /** `offers_cursor`. */
  function OffersCursor(createdMs: int, id: string, codec: JsonCodec): string {
    Encode(codec.dumps(List([Int(createdMs), Text(id)])))
  }

  /** `cursor_created_at_ms`; a truth value is no time. */
  function CreatedAt(cursor: string, codec: JsonCodec): Option<int> {
    var bytes := Decode(Padded(cursor));
    if bytes.None? then None
    else
      match codec.loads(bytes.value)
      case Some(List(items)) => if items != [] && items[0].Int? then Some(items[0].n) else None
      case _ => None
  }

  /** The items of the list a cursor holds; none when it is no such text. */
  function Items(cursor: string, codec: JsonCodec): seq<Json> {
    var bytes := Decode(Padded(cursor));
    if bytes.None? then []
    else
      match codec.loads(bytes.value)
      case Some(List(items)) => items
      case _ => []
  }

  lemma CursorItems(createdMs: int, id: string, codec: JsonCodec)
    requires Inverse(codec)
    ensures Items(OffersCursor(createdMs, id, codec), codec) == [Int(createdMs), Text(id)]
  {
    var bytes := codec.dumps(List([Int(createdMs), Text(id)]));
    Base64RoundTrip(bytes);
    PaddedWhole(Encode(bytes));
    hide Encode;
    hide Decode;
    hide Padded;
  }

  lemma PaddedWhole(s: string)
    requires |s| % 4 == 0
    ensures Padded(s) == s
  {
  }

  /** A cursor's time reads back, also with the padding left off and in the URL safe alphabet. */
  lemma CursorRoundTrip(createdMs: int, id: string, codec: JsonCodec)
    requires Inverse(codec)
    ensures var cursor := OffersCursor(createdMs, id, codec);
      && CreatedAt(cursor, codec) == Some(createdMs)
      && CreatedAt(Unpadded(cursor), codec) == Some(createdMs)
      && CreatedAt(UrlSafe(cursor), codec) == Some(createdMs)
  {
    hide Encode;
    hide Decode;
    hide Padded;
    hide Unpadded;
    var bytes := codec.dumps(List([Int(createdMs), Text(id)]));
    Base64RoundTrip(bytes);
    PaddingRestored(bytes);
    PaddedWhole(Encode(bytes));
    PaddedWhole(UrlSafe(Encode(bytes)));
    UrlSafeDecodes(Encode(bytes));
    hide UrlSafe;
  }
}
