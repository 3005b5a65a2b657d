/** The text envelope and the hex codec of ccr/mod.rs. */
module CcrCodec {
  import opened Options
  import opened Utf8

  datatype Payload = Payload(mediaType: Text, bytes: seq<byte>, metadata: map<Text, Text>)

  // ----- hexadecimal -----

  function HexDigit(n: nat): byte
    requires n < 16
  {
    if n < 10 then 48 + n else 87 + n
  }

  function ToHex(bytes: seq<byte>): (out: seq<byte>)
    ensures |out| == 2 * |bytes|
  {
    if bytes == [] then []
    else ToHex(bytes[..|bytes| - 1]) + [HexDigit(bytes[|bytes| - 1] / 16), HexDigit(bytes[|bytes| - 1] % 16)]
  }

  method EncodeHex(bytes: seq<byte>) returns (out: seq<byte>)
    ensures out == ToHex(bytes)
  {
    out := [];
    for i := 0 to |bytes|
      invariant out == ToHex(bytes[..i])
    {
      assert bytes[..i + 1][..i] == bytes[..i];
      out := out + [HexDigit(bytes[i] / 16), HexDigit(bytes[i] % 16)];
    }
    assert bytes[..|bytes|] == bytes;
  }

  /** `char::to_digit(16)`. */
  function DigitValue(c: byte): (r: Option<nat>)
    ensures r.Some? ==> r.value < 16
  {
    if 48 <= c <= 57 then Some(c - 48)
    else if 97 <= c <= 102 then Some(c - 87)
    else if 65 <= c <= 70 then Some(c - 55)
    else None
  }

  function DecodePair(hi: byte, lo: byte): Option<byte> {
    var h, l := DigitValue(hi), DigitValue(lo);
    if h.None? || l.None? then None else Some(h.value * 16 + l.value)
  }

  function FromHex(s: seq<byte>): Option<seq<byte>> {
    if |s| % 2 != 0 then None
    else if s == [] then Some([])
    else
      var init, last := FromHex(s[..|s| - 2]), DecodePair(s[|s| - 2], s[|s| - 1]);
      if init.None? || last.None? then None else Some(init.value + [last.value])
  }

  lemma {:induction false} HexRoundTrip(bytes: seq<byte>)
    ensures FromHex(ToHex(bytes)) == Some(bytes)
  {
    hide HexDigit, DecodePair;
    if bytes != [] {
      var init, b := bytes[..|bytes| - 1], bytes[|bytes| - 1];
      HexRoundTrip(init);
      PairRoundTrip(b);
      LastPair(ToHex(init), HexDigit(b / 16), HexDigit(b % 16));
      assert init + [b] == bytes;
    }
  }

  lemma LastPair(s: seq<byte>, hi: byte, lo: byte)
    requires FromHex(s).Some? && DecodePair(hi, lo).Some?
    ensures FromHex(s + [hi, lo]) == Some(FromHex(s).value + [DecodePair(hi, lo).value])
  {
    hide DecodePair;
    assert (s + [hi, lo])[..|s|] == s;
  }

  lemma PairRoundTrip(b: byte)
    ensures DecodePair(HexDigit(b / 16), HexDigit(b % 16)) == Some(b)
  {
    assert b / 16 * 16 + b % 16 == b;
  }

  lemma HexIsText(bytes: seq<byte>)
    ensures Valid(ToHex(bytes))
  {
    HexIsAscii(bytes);
    AsciiIsValid(ToHex(bytes));
  }

  lemma {:induction false} HexIsAscii(bytes: seq<byte>)
    ensures forall i | 0 <= i < |ToHex(bytes)| :: ToHex(bytes)[i] <= 0x7F
  {
    if bytes != [] {
      HexIsAscii(bytes[..|bytes| - 1]);
    }
  }

  // ----- JSON -----

  datatype Json =
    | JNull | JBool(b: bool) | JNumber(n: int) | JString(s: Text)
    | JArray(items: seq<Json>) | JObject(fields: map<Text, Json>)

  /** JSON text, kept uninterpreted; the only law used is that printed values read back. */
  datatype JsonText = JsonText(print_: Json -> Text, parse: Text -> Option<Json>, lossy: seq<byte> -> Text)

  ghost predicate JsonLaws(jt: JsonText) {
    && (forall j :: jt.parse(jt.print_(j)) == Some(j))
    && (forall s: seq<byte> :: Valid(s) ==> jt.lossy(s) == s)
  }

  function Ascii(s: string): (out: seq<byte>)
    requires forall i | 0 <= i < |s| :: s[i] < 128 as char
    ensures |out| == |s| && Valid(out)
  {
    var out := seq(|s|, i requires 0 <= i < |s| => s[i] as int);
    AsciiIsValid(out);
    out
  }

  const MARKER: Text := Ascii("ogham_ccr_payload")
  const MEDIA_TYPE: Text := Ascii("media_type")
  const ENC: Text := Ascii("enc")
  const DATA: Text := Ascii("data")
  const METADATA: Text := Ascii("metadata")
  const UTF8: Text := Ascii("utf8")
  const HEX: Text := Ascii("hex")
  const TEXT_PLAIN: Text := Ascii("text/plain; charset=utf-8")

  function MetadataJson(metadata: map<Text, Text>): Json {
    JObject(map k | k in metadata :: JString(metadata[k]))
  }

  // ----- the envelope -----

  function EnvelopeJson(mediaType: Text, enc: Text, data: Text, metadata: map<Text, Text>): Json {
    hide MARKER, MEDIA_TYPE, ENC, DATA, METADATA, Valid;
    JObject(map[
      MARKER := JNumber(1),
      MEDIA_TYPE := JString(mediaType),
      ENC := JString(enc),
      DATA := JString(data),
      METADATA := MetadataJson(metadata)])
  }

  function EncodePayload(jt: JsonText, p: Payload): Text {
    if Valid(p.bytes) then jt.print_(EnvelopeJson(p.mediaType, UTF8, p.bytes, p.metadata))
    else
      HexIsText(p.bytes);
      jt.print_(EnvelopeJson(p.mediaType, HEX, ToHex(p.bytes), p.metadata))
  }

  function Field(j: Json, k: Text): Option<Json> {
    if j.JObject? && k in j.fields then Some(j.fields[k]) else None
  }

  function StringField(j: Json, k: Text): Option<Text> {
    match Field(j, k)
    case Some(JString(s)) => Some(s)
    case _ => None
  }

  /** String-valued entries of an object; other values are skipped, a missing object reads as empty. */
  function StringEntries(j: Option<Json>): map<Text, Text> {
    if j.Some? && j.value.JObject?
    then map k | k in j.value.fields && j.value.fields[k].JString? :: j.value.fields[k].s
    else map[]
  }

  function PayloadOf(j: Json): Option<Payload> {
    if Field(j, MARKER) != Some(JNumber(1)) then None
    else
      var mediaType, data, enc := StringField(j, MEDIA_TYPE), StringField(j, DATA), StringField(j, ENC);
      if mediaType.None? || data.None? || enc.None? then None
      else
        var bytes := DecodeData(enc.value, data.value);
        if bytes.None? then None
        else Some(Payload(mediaType.value, bytes.value, StringEntries(Field(j, METADATA))))
  }

  function DecodeData(enc: Text, data: Text): Option<seq<byte>> {
    if enc == UTF8 then Some(data) else if enc == HEX then FromHex(data) else None
  }

  function DecodePayload(jt: JsonText, stored: Text): Payload {
    var j := jt.parse(stored);
    var p := if j.Some? then PayloadOf(j.value) else None;
    if p.Some? then p.value else Payload(TEXT_PLAIN, stored, map[])
  }

  /** The envelope of a text payload quotes its bytes; only binary ones are spelled in hexadecimal. */
  lemma EnvelopesQuoteText(jt: JsonText, p: Payload)
    requires JsonLaws(jt)
    ensures var j := jt.parse(EncodePayload(jt, p));
            && j.Some? && Field(j.value, MARKER) == Some(JNumber(1))
            && StringField(j.value, MEDIA_TYPE) == Some(p.mediaType)
            && StringField(j.value, ENC) == Some(if Valid(p.bytes) then UTF8 else HEX)
            && (Valid(p.bytes) ==> StringField(j.value, DATA) == Some(p.bytes))
            && Field(j.value, METADATA) == Some(MetadataJson(p.metadata))
  {
    hide MARKER, MEDIA_TYPE, ENC, DATA, METADATA, UTF8, HEX, EnvelopeJson, Field, StringField, MetadataJson, ToHex, Valid, JsonLaws;
    HexIsText(p.bytes);
    var enc, data := if Valid(p.bytes) then UTF8 else HEX, if Valid(p.bytes) then p.bytes else ToHex(p.bytes);
    EnvelopeFields(p.mediaType, enc, data, p.metadata);
    Reads(jt, EnvelopeJson(p.mediaType, enc, data, p.metadata));
  }

  // ----- what a stored text reads as -----

  predicate HasString(fields: map<Text, Json>, k: Text) {
    k in fields && fields[k].JString?
  }

  predicate IsHexText(s: seq<byte>) {
    |s| % 2 == 0 && forall i | 0 <= i < |s| :: IsHexDigit(s[i])
  }

  predicate IsHexDigit(c: byte) {
    48 <= c <= 57 || 97 <= c <= 102 || 65 <= c <= 70
  }

  /** The stored text is a marked object with a media type, data and a known encoding of that data. */
  predicate IsEnvelope(parsed: Option<Json>) {
    && parsed.Some? && parsed.value.JObject?
    && var fields := parsed.value.fields;
    && MARKER in fields && fields[MARKER] == JNumber(1)
    && HasString(fields, MEDIA_TYPE) && HasString(fields, DATA) && HasString(fields, ENC)
    && (fields[ENC].s == UTF8 || (fields[ENC].s == HEX && IsHexText(fields[DATA].s)))
  }

  /** The payload is the text itself. */
  predicate IsPlain(stored: Text, p: Payload) {
    p.mediaType == Ascii("text/plain; charset=utf-8") && p.bytes == stored && p.metadata == map[]
  }

  /** `bytes` are the values of the digit pairs of `s`. */
  ghost predicate Spells(s: seq<byte>, bytes: seq<byte>) {
    |s| == 2 * |bytes| && forall i | 0 <= i < |bytes| :: DecodePair(s[2 * i], s[2 * i + 1]) == Some(bytes[i])
  }

  /** An envelope reads as what its fields say, any other text as itself. */
  ghost predicate ReadsAs(jt: JsonText, stored: Text, p: Payload) {
    var parsed := jt.parse(stored);
    if !IsEnvelope(parsed) then IsPlain(stored, p)
    else
      var fields := parsed.value.fields;
      var data := fields[DATA].s;
      && p.mediaType == fields[MEDIA_TYPE].s
      && (if fields[ENC].s == UTF8 then p.bytes == data else Spells(data, p.bytes))
      && (forall k :: k in p.metadata <==>
                        METADATA in fields && fields[METADATA].JObject? && HasString(fields[METADATA].fields, k))
      && (forall k | k in p.metadata :: p.metadata[k] == fields[METADATA].fields[k].s)
  }

  /** Hex decoding succeeds exactly on an even number of digits, and gives their values. */
  lemma {:induction false} HexReads(s: seq<byte>)
    ensures FromHex(s).Some? <==> IsHexText(s)
    ensures FromHex(s).Some? ==> Spells(s, FromHex(s).value)
  {
    hide DecodePair, IsHexDigit;
    if |s| >= 2 && |s| % 2 == 0 {
      var init, hi, lo := s[..|s| - 2], s[|s| - 2], s[|s| - 1];
      HexReads(init);
      PairReads(hi, lo);
      assert s == init + [hi, lo];
      LastDigits(init, hi, lo);
      if FromHex(s).Some? {
        SpellsOneMore(init, FromHex(init).value, hi, lo);
      }
    }
  }

  lemma PairReads(hi: byte, lo: byte)
    ensures DecodePair(hi, lo).Some? <==> IsHexDigit(hi) && IsHexDigit(lo)
    ensures DecodePair(hi, lo).Some? ==> DecodePair(hi, lo).value < 256
  {
  }

  lemma LastDigits(s: seq<byte>, hi: byte, lo: byte)
    ensures IsHexText(s + [hi, lo]) <==> IsHexText(s) && IsHexDigit(hi) && IsHexDigit(lo)
  {
    hide IsHexDigit;
    var t := s + [hi, lo];
    assert t[|s|] == hi && t[|s| + 1] == lo && t[..|s|] == s;
  }

  lemma SpellsOneMore(s: seq<byte>, bytes: seq<byte>, hi: byte, lo: byte)
    requires Spells(s, bytes) && DecodePair(hi, lo).Some?
    ensures Spells(s + [hi, lo], bytes + [DecodePair(hi, lo).value])
  {
    hide DecodePair;
  }

  lemma FieldsRead(j: Json)
    ensures PayloadOf(j).Some? <==> IsEnvelope(Some(j))
    ensures PayloadOf(j).Some? ==>
              var p, fields := PayloadOf(j).value, j.fields;
              && p.mediaType == fields[MEDIA_TYPE].s
              && (if fields[ENC].s == UTF8 then p.bytes == fields[DATA].s else FromHex(fields[DATA].s) == Some(p.bytes))
              && p.metadata == StringEntries(Field(j, METADATA))
  {
    NamesDiffer();
    hide MARKER, MEDIA_TYPE, ENC, DATA, METADATA, UTF8, HEX, FromHex, IsHexText, StringEntries, Valid;
    if j.JObject? && HasString(j.fields, DATA) {
      HexReads(j.fields[DATA].s);
    }
  }

  lemma EntriesRead(j: Json)
    requires j.JObject?
    ensures var metadata := StringEntries(Field(j, METADATA));
            && (forall k :: k in metadata <==>
                              METADATA in j.fields && j.fields[METADATA].JObject? && HasString(j.fields[METADATA].fields, k))
            && (forall k | k in metadata :: metadata[k] == j.fields[METADATA].fields[k].s)
  {
    hide METADATA;
  }

  /** Any stored text reads as its envelope if it is one, and as plain text otherwise: also when it is
      no JSON, lacks the marker or a string field, names an unknown encoding or holds malformed digits. */
  lemma TextsReadBack(jt: JsonText, stored: Text)
    ensures ReadsAs(jt, stored, DecodePayload(jt, stored))
    ensures !IsEnvelope(jt.parse(stored)) ==> IsPlain(stored, DecodePayload(jt, stored))
  {
    hide MARKER, MEDIA_TYPE, ENC, DATA, METADATA, UTF8, HEX, FromHex, PayloadOf, StringEntries, Spells, Field, Valid;
    var parsed := jt.parse(stored);
    if parsed.Some? {
      FieldsRead(parsed.value);
      if IsEnvelope(parsed) {
        EntriesRead(parsed.value);
        HexReads(parsed.value.fields[DATA].s);
      }
    }
  }

  /** No two payloads are readings of the same text. */
  lemma ReadingIsUnique(jt: JsonText, stored: Text, p: Payload, q: Payload)
    requires ReadsAs(jt, stored, p) && ReadsAs(jt, stored, q)
    ensures p == q
  {
    hide MARKER, MEDIA_TYPE, ENC, DATA, METADATA, UTF8, HEX, DecodePair, Valid;
    assert p.bytes == q.bytes;
    assert p.metadata == q.metadata;
  }

  lemma NamesDiffer()
    ensures |MARKER| == 17 && |MEDIA_TYPE| == 10 && |ENC| == 3 && |DATA| == 4 && |METADATA| == 8
    ensures |UTF8| == 4 && |HEX| == 3
  {
  }

  lemma MetadataComesBack(metadata: map<Text, Text>)
    ensures StringEntries(Some(MetadataJson(metadata))) == metadata
  {
  }

  lemma EnvelopeFields(mediaType: Text, enc: Text, data: Text, metadata: map<Text, Text>)
    ensures var j := EnvelopeJson(mediaType, enc, data, metadata);
            && Field(j, MARKER) == Some(JNumber(1))
            && StringField(j, MEDIA_TYPE) == Some(mediaType)
            && StringField(j, ENC) == Some(enc)
            && StringField(j, DATA) == Some(data)
            && Field(j, METADATA) == Some(MetadataJson(metadata))
  {
    NamesDiffer();
    hide MARKER, MEDIA_TYPE, ENC, DATA, METADATA, UTF8, HEX, Valid, MetadataJson;
  }

  lemma Reads(jt: JsonText, j: Json)
    requires JsonLaws(jt)
    ensures jt.parse(jt.print_(j)) == Some(j)
  {
  }

  lemma DataComesBack(bytes: seq<byte>)
    ensures Valid(bytes) ==> DecodeData(UTF8, bytes) == Some(bytes)
    ensures Valid(ToHex(bytes)) && DecodeData(HEX, ToHex(bytes)) == Some(bytes)
  {
    NamesDiffer();
    HexIsText(bytes);
    HexRoundTrip(bytes);
    hide UTF8, HEX, ToHex, FromHex, Valid;
  }

  /** Every payload, text or binary, comes back exactly from its envelope. */
  lemma EnvelopeRoundTrip(jt: JsonText, p: Payload)
    requires JsonLaws(jt)
    ensures DecodePayload(jt, EncodePayload(jt, p)) == p
  {
    hide MARKER, MEDIA_TYPE, ENC, DATA, METADATA, UTF8, HEX, EnvelopeJson, Field, StringField, StringEntries,
         MetadataJson, DecodeData, ToHex, Valid, JsonLaws;
    var enc, data := if Valid(p.bytes) then UTF8 else HEX, if Valid(p.bytes) then p.bytes else ToHex(p.bytes);
    DataComesBack(p.bytes);
    MetadataComesBack(p.metadata);
    EnvelopeFields(p.mediaType, enc, data, p.metadata);
    Reads(jt, EnvelopeJson(p.mediaType, enc, data, p.metadata));
  }
}
