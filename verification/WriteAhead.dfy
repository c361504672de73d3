/** The write-ahead payload: the asset id in lower-case Base16 (section 8 of RFC 4648) among `|`-separated fields. */
module WriteAhead {
  import opened Prelude

  type Byte = b: int | 0 <= b < 256
  type Nibble = n: int | 0 <= n < 16

  // ----- Base16 -----

  function Digit(n: Nibble): (c: char)
    ensures '0' <= c <= '9' || 'a' <= c <= 'f'
  {
    if n < 10 then ('0' as int + n) as char else ('a' as int + n - 10) as char
  }

  function NibbleOf(c: char): Option<Nibble> {
    if '0' <= c <= '9' then Some(c as int - '0' as int)
    else if 'a' <= c <= 'f' then Some(c as int - 'a' as int + 10)
    else if 'A' <= c <= 'F' then Some(c as int - 'A' as int + 10)
    else None
  }

  function Hex(bytes: seq<Byte>): string {
    if bytes == [] then "" else [Digit(bytes[0] / 16), Digit(bytes[0] % 16)] + Hex(bytes[1..])
  }

  /** `hex_bytes`. */
  method HexBytes(bytes: seq<Byte>) returns (encoded: string)
    ensures encoded == Hex(bytes)
  {
    encoded := "";
    assert bytes[0..] == bytes;
    for i := 0 to |bytes|
      invariant encoded + Hex(bytes[i..]) == Hex(bytes)
    {
      assert bytes[i..][1..] == bytes[i + 1..];
      encoded := encoded + [Digit(bytes[i] / 16)] + [Digit(bytes[i] % 16)];
    }
  }

  function Unhex(s: string): Option<seq<Byte>>
    requires |s| % 2 == 0
  {
    if s == "" then Some([])
    else
      var high, low, rest := NibbleOf(s[0]), NibbleOf(s[1]), Unhex(s[2..]);
      if high.None? || low.None? || rest.None? then None else Some([high.value * 16 + low.value] + rest.value)
  }

  lemma {:induction false} HexIsEven(bytes: seq<Byte>)
    ensures |Hex(bytes)| == 2 * |bytes|
  {
    if bytes != [] {
      HexIsEven(bytes[1..]);
    }
  }

  lemma {:induction false} UnhexHex(bytes: seq<Byte>)
    ensures |Hex(bytes)| % 2 == 0 && Unhex(Hex(bytes)) == Some(bytes)
  {
    HexIsEven(bytes);
    if bytes != [] {
      UnhexHex(bytes[1..]);
      assert Hex(bytes)[2..] == Hex(bytes[1..]);
      assert [bytes[0]] + bytes[1..] == bytes;
    }
  }

  function LowerDigit(c: char): char {
    if 'A' <= c <= 'F' then (c as int + 32) as char else c
  }

  function LowerHex(s: string): string {
    if s == "" then "" else [LowerDigit(s[0])] + LowerHex(s[1..])
  }

  /** Decoding accepts exactly the digit strings, in either case. */
  lemma {:induction false} UnhexDefined(s: string)
    requires |s| % 2 == 0
    ensures Unhex(s).Some? <==> forall c | c in s :: NibbleOf(c).Some?
  {
    if s != "" {
      UnhexDefined(s[2..]);
      assert forall c :: c in s <==> c == s[0] || c == s[1] || c in s[2..];
    }
  }

  lemma DigitOfNibble(c: char)
    requires NibbleOf(c).Some?
    ensures Digit(NibbleOf(c).value) == LowerDigit(c)
  {
  }

  lemma HexPair(high: char, low: char, tail: seq<Byte>)
    requires NibbleOf(high).Some? && NibbleOf(low).Some?
    ensures Hex([NibbleOf(high).value * 16 + NibbleOf(low).value] + tail) == [LowerDigit(high), LowerDigit(low)] + Hex(tail)
  {
    var h: int := NibbleOf(high).value;
    var l: int := NibbleOf(low).value;
    var b: Byte := h * 16 + l;
    assert ([b] + tail)[1..] == tail;
    assert b / 16 == h && b % 16 == l;
    DigitOfNibble(high);
    DigitOfNibble(low);
  }

  lemma LowerPair(s: string)
    requires |s| >= 2
    ensures LowerHex(s) == [LowerDigit(s[0]), LowerDigit(s[1])] + LowerHex(s[2..])
  {
    assert s[1..][1..] == s[2..];
  }

  /** Encoding what was decoded brings the digits back in lower case. */
  lemma {:induction false} HexUnhex(s: string)
    requires |s| % 2 == 0 && Unhex(s).Some?
    ensures Hex(Unhex(s).value) == LowerHex(s)
  {
    if s != "" {
      HexUnhex(s[2..]);
      HexPair(s[0], s[1], Unhex(s[2..]).value);
      LowerPair(s);
    }
  }

  // ----- Fields -----

  function Split(s: string): (fields: seq<string>)
    ensures |fields| > 0
  {
    if s == "" then [""]
    else
      var rest := Split(s[1..]);
      if s[0] == '|' then [""] + rest else [[s[0]] + rest[0]] + rest[1..]
  }

  predicate StartsWith(s: string, prefix: string) {
    |prefix| <= |s| && s[..|prefix|] == prefix
  }

  const ASSET_PREFIX := "asset_id_hex="

  function FindAsset(fields: seq<string>): Option<string> {
    if fields == [] then None
    else if StartsWith(fields[0], ASSET_PREFIX) then Some(fields[0][|ASSET_PREFIX|..])
    else FindAsset(fields[1..])
  }

  /** `recover_write_ahead_asset`; which byte strings are UTF-8 is a parameter. */
  function RecoverAsset(payload: string, utf8: seq<Byte> -> bool): Result<seq<Byte>> {
    var encoded := FindAsset(Split(payload));
    if encoded.None? then Err("write_ahead_asset_missing")
    else if encoded.value == "" || |encoded.value| % 2 != 0 then Err("write_ahead_asset_hex_invalid")
    else
      var bytes := Unhex(encoded.value);
      if bytes.None? then Err("write_ahead_asset_hex_invalid")
      else if !utf8(bytes.value) then Err("write_ahead_asset_not_utf8")
      else if bytes.value == [] then Err("write_ahead_asset_empty")
      else Ok(bytes.value)
  }

  /** The payload an order is written ahead with; `rest` holds the fields after the asset. */
  function Payload(assetId: seq<Byte>, rest: string): string {
    "intent_v2|" + ASSET_PREFIX + Hex(assetId) + "|" + rest
  }

  lemma {:induction false} SplitAt(field: string, rest: string)
    requires '|' !in field
    ensures Split(field + "|" + rest) == [field] + Split(rest)
  {
    if field == "" {
      assert ("" + "|" + rest)[1..] == rest;
    } else {
      assert (field + "|" + rest)[1..] == field[1..] + "|" + rest;
      SplitAt(field[1..], rest);
      assert [field[0]] + field[1..] == field;
    }
  }

  lemma {:induction false} HexHasNoBar(bytes: seq<Byte>)
    ensures '|' !in Hex(bytes)
  {
    if bytes != [] {
      HexHasNoBar(bytes[1..]);
    }
  }

  lemma PayloadField(assetId: seq<Byte>, rest: string)
    ensures FindAsset(Split(Payload(assetId, rest))) == Some(Hex(assetId))
  {
    var field := ASSET_PREFIX + Hex(assetId);
    HexHasNoBar(assetId);
    SplitAt(field, rest);
    SplitAt("intent_v2", field + "|" + rest);
    assert Payload(assetId, rest) == "intent_v2" + "|" + (field + "|" + rest);
    assert !StartsWith("intent_v2", ASSET_PREFIX);
    assert field[..|ASSET_PREFIX|] == ASSET_PREFIX && field[|ASSET_PREFIX|..] == Hex(assetId);
  }

  /** What was written is read back, whatever the other fields hold; only an empty id is refused. */
  lemma PayloadRoundTrip(assetId: seq<Byte>, rest: string, utf8: seq<Byte> -> bool)
    requires utf8(assetId)
    ensures RecoverAsset(Payload(assetId, rest), utf8)
      == if assetId == [] then Err("write_ahead_asset_hex_invalid") else Ok(assetId)
  {
    PayloadField(assetId, rest);
    HexIsEven(assetId);
    UnhexHex(assetId);
  }
}
