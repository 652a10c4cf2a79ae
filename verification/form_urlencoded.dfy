/** `URLSearchParams.toString()`: the application/x-www-form-urlencoded
    serializer of the WHATWG URL Standard (section 5.2), applied to the UTF-8
    bytes of every name and value, pairs joined by `&`. */
module FormUrlEncoded {
  import opened Wrappers
  import opened Bytes
  import opened Text
  import opened Fields
  import opened Hex

  /** Bytes the serializer leaves as they are: ASCII alphanumerics and
      `*`, `-`, `.`, `_`. */
  predicate Unescaped(b: byte) {
    || 0x30 <= b <= 0x39
    || 0x41 <= b <= 0x5A
    || 0x61 <= b <= 0x7A
    || b == 0x2A || b == 0x2D || b == 0x2E || b == 0x5F
  }

  /** Strings every character of which the serializer copies unchanged. */
  predicate FormSafe(s: string) {
    forall i :: 0 <= i < |s| ==> s[i] as int < 0x80 && Unescaped(s[i] as int)
  }

  predicate IsUpperHex(ch: char) {
    '0' <= ch <= '9' || 'A' <= ch <= 'F'
  }

  function UpperHexDigit(d: nat): (ch: char)
    requires d < 16
    ensures IsUpperHex(ch)
  {
    if d < 10 then ('0' as int + d) as char else ('A' as int + d - 10) as char
  }

  function UpperHexValue(ch: char): (d: nat)
    requires IsUpperHex(ch)
    ensures d < 16 && UpperHexDigit(d) == ch
  {
    if ch <= '9' then ch as int - '0' as int else ch as int - 'A' as int + 10
  }

  /** One byte of output: itself, `+` for a space, or `%XX` with uppercase hex. */
  function EncodeByte(b: byte): (r: string)
    ensures 1 <= |r| <= 3
    ensures '&' !in r && '=' !in r && '\n' !in r
  {
    if Unescaped(b) then [b as char]
    else if b == 0x20 then "+"
    else ['%', UpperHexDigit(b / 16), UpperHexDigit(b % 16)]
  }

  function EncodeBytes(bs: seq<byte>): (r: string)
    ensures '&' !in r && '=' !in r && '\n' !in r
  {
    if |bs| == 0 then "" else EncodeByte(bs[0]) + EncodeBytes(bs[1..])
  }

  /** The serializer's treatment of one name or value. */
  function Encode(s: string): (r: string)
    ensures '&' !in r && '=' !in r && '\n' !in r
  {
    EncodeBytes(Utf8(s))
  }

  /** Percent-decoding restricted to what the serializer can produce: the
      inverse that recovers the encoded bytes. */
  function DecodeBytes(t: string): Option<seq<byte>>
    decreases |t|
  {
    if |t| == 0 then Some([])
    else if t[0] == '+' then
      match DecodeBytes(t[1..])
      case None => None
      case Some(rest) => Some([0x20] + rest)
    else if t[0] == '%' then
      if |t| >= 3 && IsUpperHex(t[1]) && IsUpperHex(t[2]) then
        match DecodeBytes(t[3..])
        case None => None
        case Some(rest) => Some([UpperHexValue(t[1]) * 16 + UpperHexValue(t[2])] + rest)
      else None
    else if t[0] as int < 0x80 && Unescaped(t[0] as int) then
      match DecodeBytes(t[1..])
      case None => None
      case Some(rest) => Some([t[0] as int] + rest)
    else None
  }

  lemma DecodeEncodedByte(b: byte, t: string)
    ensures DecodeBytes(EncodeByte(b) + t) ==
      match DecodeBytes(t)
      case None => None
      case Some(rest) => Some([b] + rest)
  {
    var s := EncodeByte(b) + t;
    if Unescaped(b) {
      assert s[1..] == t;
    } else if b == 0x20 {
      assert s[1..] == t;
    } else {
      assert s[3..] == t;
    }
  }

  /** Decoding the serializer's output gives back exactly the encoded bytes. */
  lemma {:induction false} EncodeBytesRoundTrip(bs: seq<byte>)
    ensures DecodeBytes(EncodeBytes(bs)) == Some(bs)
  {
    if |bs| > 0 {
      EncodeBytesRoundTrip(bs[1..]);
      DecodeEncodedByte(bs[0], EncodeBytes(bs[1..]));
      assert [bs[0]] + bs[1..] == bs;
    }
  }

  /** A name or value decodes back to its UTF-8 bytes. */
  lemma EncodeRoundTrip(s: string)
    ensures DecodeBytes(Encode(s)) == Some(Utf8(s))
  {
    EncodeBytesRoundTrip(Utf8(s));
  }

  /** Names and values made only of unescaped characters are copied verbatim. */
  lemma {:induction false} EncodeFormSafe(s: string)
    requires FormSafe(s)
    ensures Encode(s) == s
  {
    if |s| > 0 {
      var bs := Utf8(s);
      assert bs == Utf8Char(s[0]) + Utf8(s[1..]);
      assert bs[0] == s[0] as int;
      assert bs[1..] == Utf8(s[1..]);
      assert FormSafe(s[1..]);
      EncodeFormSafe(s[1..]);
      assert [s[0]] + s[1..] == s;
    }
  }

  function PairText(f: Field): string {
    Encode(f.name) + "=" + Encode(f.value)
  }

  function Pairs(fs: seq<Field>): (r: seq<string>)
    ensures |r| == |fs| && forall i :: 0 <= i < |fs| ==> r[i] == PairText(fs[i])
  {
    if |fs| == 0 then [] else [PairText(fs[0])] + Pairs(fs[1..])
  }

  /** Appending a parameter appends its pair. */
  lemma PairsAppend(fs: seq<Field>, f: Field)
    ensures Pairs(fs + [f]) == Pairs(fs) + [PairText(f)]
  {
    assert |Pairs(fs + [f])| == |fs| + 1;
  }

  /** `new URLSearchParams(fs).toString()`, pairs in insertion order. */
  function Serialize(fs: seq<Field>): string {
    Join(Pairs(fs), "&")
  }

  /** Appending a parameter after serialising extends the text by `&name=value`:
      what was serialised before is a prefix of what is serialised after. */
  lemma SerializeAppend(fs: seq<Field>, f: Field)
    requires |fs| >= 1
    ensures Serialize(fs + [f]) == Serialize(fs) + "&" + PairText(f)
  {
    PairsAppend(fs, f);
    JoinConcat(Pairs(fs), [PairText(f)], "&");
  }

  /** The serialised query is unambiguous: splitting on `&` and then `=`
      recovers every encoded name and value, in order. */
  lemma SerializeSplits(fs: seq<Field>)
    requires |fs| >= 1
    ensures Split(Serialize(fs), '&') == Pairs(fs)
    ensures forall i :: 0 <= i < |fs| ==>
      Split(Pairs(fs)[i], '=') == [Encode(fs[i].name), Encode(fs[i].value)]
  {
    var ps := Pairs(fs);
    forall i | 0 <= i < |ps|
      ensures '&' !in ps[i] && Split(ps[i], '=') == [Encode(fs[i].name), Encode(fs[i].value)]
    {
      PairSplits(fs[i]);
    }
    SplitJoin(ps, '&');
  }

  /** One pair splits at its `=` into the encoded name and value, and holds
      no `&`. */
  lemma PairSplits(f: Field)
    ensures '&' !in PairText(f)
    ensures Split(PairText(f), '=') == [Encode(f.name), Encode(f.value)]
  {
    var n, v := Encode(f.name), Encode(f.value);
    JoinFreeOf([n, v], "=", '&');
    assert PairText(f) == Join([n, v], "=");
    SplitJoin([n, v], '=');
  }

  /** The serialised query never contains a line break, whatever it encodes. */
  lemma SerializeNoNewline(fs: seq<Field>)
    ensures '\n' !in Serialize(fs)
  {
    var ps := Pairs(fs);
    forall i | 0 <= i < |ps|
      ensures '\n' !in ps[i]
    {
      assert ps[i] == Join([Encode(fs[i].name), Encode(fs[i].value)], "=");
      JoinFreeOf([Encode(fs[i].name), Encode(fs[i].value)], "=", '\n');
    }
    JoinFreeOf(ps, "&", '\n');
  }

  /** Lower-case hexadecimal text is copied verbatim. */
  lemma LowerHexFormSafe(s: string)
    requires forall i :: 0 <= i < |s| ==> IsLowerHex(s[i])
    ensures FormSafe(s)
  {
  }

  /** A pair whose name and value need no escaping is serialised as written. */
  lemma VerbatimPair(name: string, value: string)
    requires FormSafe(name) && FormSafe(value)
    ensures PairText(Field(name, value)) == name + "=" + value
  {
    EncodeFormSafe(name);
    EncodeFormSafe(value);
  }

  /** Appending a pair that needs no escaping extends the serialised text by
      `&name=value` exactly. */
  lemma AppendVerbatim(fs: seq<Field>, name: string, value: string)
    requires |fs| >= 1 && FormSafe(name) && FormSafe(value)
    ensures Serialize(fs + [Field(name, value)]) == Serialize(fs) + "&" + name + "=" + value
  {
    SerializeAppend(fs, Field(name, value));
    VerbatimPair(name, value);
  }

  /** After such an append the `&`-separated pairs are the old ones followed
      by `name=value`. */
  lemma AppendedPairs(fs: seq<Field>, name: string, value: string)
    requires |fs| >= 1 && FormSafe(name) && FormSafe(value)
    ensures Split(Serialize(fs + [Field(name, value)]), '&') == Pairs(fs) + [name + "=" + value]
  {
    var f := Field(name, value);
    PairsAppend(fs, f);
    VerbatimPair(name, value);
    var ps := Pairs(fs) + [name + "=" + value];
    forall i | 0 <= i < |ps|
      ensures '&' !in ps[i]
    {
      if i < |fs| {
        PairSplits(fs[i]);
      } else {
        PairSplits(f);
      }
    }
    SplitJoin(ps, '&');
  }
}
