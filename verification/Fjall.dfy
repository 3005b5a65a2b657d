/** The native frame and the byte-map store of ccr/fjall.rs. */
module FjallStore {
  import opened Options
  import opened Utf8
  import opened CcrCodec

  const WORD := 0x1_0000_0000

  const MAGIC: seq<byte> := [0xff, 0xfe, 0x4f, 0x47, 0x48, 0x4d, 0x63, 0x63, 0x72, 0x01]

  // ----- little-endian lengths -----

  /** `(n as u32).to_le_bytes()`: the length wraps at 2^32. */
  function U32Bytes(n: nat): (out: seq<byte>)
    ensures |out| == 4
  {
    [n % 256, n / 256 % 256, n / 65536 % 256, n / 16777216 % 256]
  }

  function U32Value(s: seq<byte>): nat
    requires |s| == 4
  {
    (s[0] as nat) + 256 * (s[1] as nat) + 65536 * (s[2] as nat) + 16777216 * (s[3] as nat)
  }

  lemma U32Wraps(n: nat)
    ensures U32Value(U32Bytes(n)) == n % WORD
  {
    var a, b, c := n / 256, n / 65536, n / 16777216;
    assert n == 256 * a + n % 256;
    assert a / 256 == b && a == 256 * b + a % 256;
    assert b / 256 == c && b == 256 * c + b % 256;
    assert c == 256 * (c / 256) + c % 256;
  }

  lemma U32Reads(n: nat)
    requires n < WORD
    ensures U32Value(U32Bytes(n)) == n
  {
    U32Wraps(n);
    hide U32Bytes, U32Value;
  }

  // ----- the frame -----

  function FrameBody(jt: JsonText, p: Payload): seq<byte> {
    var meta := jt.print_(MetadataJson(p.metadata));
    U32Bytes(|p.mediaType|) + p.mediaType + U32Bytes(|meta|) + meta + p.bytes
  }

  function EncodeNative(jt: JsonText, p: Payload): seq<byte> {
    MAGIC + FrameBody(jt, p)
  }

  method BuildNative(jt: JsonText, p: Payload) returns (out: seq<byte>)
    ensures out == EncodeNative(jt, p)
  {
    var metadata := jt.print_(MetadataJson(p.metadata));
    out := MAGIC;
    out := out + U32Bytes(|p.mediaType|);
    out := out + p.mediaType;
    out := out + U32Bytes(|metadata|);
    out := out + metadata;
    out := out + p.bytes;
  }

  /** A length-prefixed chunk at `pos`, and the position after it. */
  function ReadChunk(rest: seq<byte>, pos: nat): (r: Option<(seq<byte>, nat)>)
    ensures r.Some? ==> pos + 4 + |r.value.0| == r.value.1 <= |rest|
  {
    if pos + 4 > |rest| then None
    else
      var len := U32Value(rest[pos..pos + 4]);
      if pos + 4 + len > |rest| then None
      else Some((rest[pos + 4..pos + 4 + len], pos + 4 + len))
  }

  method ReadU32(rest: seq<byte>, pos0: nat) returns (value: Option<nat>, pos: nat)
    ensures value == if pos0 + 4 <= |rest| then Some(U32Value(rest[pos0..pos0 + 4])) else None
    ensures pos == if value.Some? then pos0 + 4 else pos0
  {
    pos := pos0;
    var end := pos + 4;
    if end > |rest| {
      return None, pos;
    }
    value := Some(U32Value(rest[pos..end]));
    pos := end;
  }

  method ReadChunkAt(rest: seq<byte>, pos0: nat) returns (chunk: Option<seq<byte>>, pos: nat)
    ensures chunk.Some? <==> ReadChunk(rest, pos0).Some?
    ensures chunk.Some? ==> ReadChunk(rest, pos0) == Some((chunk.value, pos))
  {
    var len;
    len, pos := ReadU32(rest, pos0);
    if len.None? {
      return None, pos;
    }
    var end := pos + len.value;
    if end > |rest| {
      return None, pos;
    }
    chunk := Some(rest[pos..end]);
    pos := end;
  }

  /** Metadata must parse as an object of strings. */
  function ParseMetadata(jt: JsonText, chunk: seq<byte>): Option<map<Text, Text>> {
    if !Valid(chunk) then None
    else
      var j := jt.parse(chunk);
      if j.None? || !j.value.JObject? || (exists k :: k in j.value.fields && !j.value.fields[k].JString?) then None
      else Some(StringEntries(j))
  }

  function ParseFrame(jt: JsonText, rest: seq<byte>): Option<Payload> {
    var media := ReadChunk(rest, 0);
    if media.None? || !Valid(media.value.0) then None
    else
      var meta := ReadChunk(rest, media.value.1);
      if meta.None? then None
      else
        var metadata := ParseMetadata(jt, meta.value.0);
        if metadata.None? then None
        else Some(Payload(media.value.0, rest[meta.value.1..], metadata.value))
  }

  datatype FrameDecode = NotFramed | Framed(payload: Payload) | Malformed

  function DecodeNative(jt: JsonText, bytes: seq<byte>): FrameDecode {
    if |bytes| < |MAGIC| || bytes[..|MAGIC|] != MAGIC then NotFramed
    else
      match ParseFrame(jt, bytes[|MAGIC|..])
      case Some(p) => Framed(p)
      case None => Malformed
  }

  method DecodeFrame(jt: JsonText, bytes: seq<byte>) returns (r: FrameDecode)
    ensures r == DecodeNative(jt, bytes)
  {
    if |bytes| < |MAGIC| || bytes[..|MAGIC|] != MAGIC {
      return NotFramed;
    }
    var rest := bytes[|MAGIC|..];
    var media, pos := ReadChunkAt(rest, 0);
    if media.None? || !Valid(media.value) {
      return Malformed;
    }
    var meta;
    meta, pos := ReadChunkAt(rest, pos);
    if meta.None? {
      return Malformed;
    }
    var metadata := ParseMetadata(jt, meta.value);
    if metadata.None? {
      return Malformed;
    }
    r := Framed(Payload(media.value, rest[pos..], metadata.value));
  }

  // ----- what decoding gives -----

  predicate HeaderFits(jt: JsonText, p: Payload) {
    |p.mediaType| < WORD && |jt.print_(MetadataJson(p.metadata))| < WORD
  }

  lemma MetadataRoundTrip(jt: JsonText, metadata: map<Text, Text>)
    requires JsonLaws(jt)
    ensures ParseMetadata(jt, jt.print_(MetadataJson(metadata))) == Some(metadata)
  {
    assert StringEntries(Some(MetadataJson(metadata))) == metadata;
  }

  /** Reading a chunk that was written with its true length. */
  lemma ReadWritten(pre: seq<byte>, chunk: seq<byte>, post: seq<byte>)
    requires |chunk| < WORD
    ensures ReadChunk(pre + U32Bytes(|chunk|) + chunk + post, |pre|) == Some((chunk, |pre| + 4 + |chunk|))
  {
    var s := pre + U32Bytes(|chunk|) + chunk + post;
    ReadCut(pre, chunk, post, |s|);
    assert s[..|s|] == s;
  }

  lemma FrameRoundTrip(jt: JsonText, p: Payload)
    requires JsonLaws(jt) && HeaderFits(jt, p)
    ensures ParseFrame(jt, FrameBody(jt, p)) == Some(p)
  {
    var meta := jt.print_(MetadataJson(p.metadata));
    var head := U32Bytes(|p.mediaType|) + p.mediaType;
    var body := FrameBody(jt, p);
    ReadWritten([], p.mediaType, U32Bytes(|meta|) + meta + p.bytes);
    assert [] + U32Bytes(|p.mediaType|) + p.mediaType + (U32Bytes(|meta|) + meta + p.bytes) == body;
    ReadWritten(head, meta, p.bytes);
    assert head + U32Bytes(|meta|) + meta + p.bytes == body;
    assert body[|head| + 4 + |meta|..] == p.bytes;
    MetadataRoundTrip(jt, p.metadata);
  }

  lemma MagicSplit(jt: JsonText, p: Payload)
    ensures var e := EncodeNative(jt, p); e[..|MAGIC|] == MAGIC && e[|MAGIC|..] == FrameBody(jt, p)
  {
  }

  /** A frame comes back exactly, if and only if both header chunks are shorter than 2^32 bytes. */
  lemma NativeRoundTripIff(jt: JsonText, p: Payload)
    requires JsonLaws(jt)
    ensures DecodeNative(jt, EncodeNative(jt, p)) == Framed(p) <==> HeaderFits(jt, p)
  {
    MagicSplit(jt, p);
    if HeaderFits(jt, p) {
      FrameRoundTrip(jt, p);
    } else {
      WrappedLengthIsVisible(jt, p);
    }
  }

  /** A wrapped length always shows: the media type or the raw bytes change their length. */
  lemma WrappedLengthIsVisible(jt: JsonText, p: Payload)
    requires !HeaderFits(jt, p)
    ensures ParseFrame(jt, FrameBody(jt, p)) != Some(p)
  {
    var meta := jt.print_(MetadataJson(p.metadata));
    var body, head := FrameBody(jt, p), U32Bytes(|p.mediaType|) + p.mediaType;
    assert [] + U32Bytes(|p.mediaType|) + p.mediaType + (U32Bytes(|meta|) + meta + p.bytes) == body;
    assert head + U32Bytes(|meta|) + meta + p.bytes == body;
    hide FrameBody, ParseMetadata;
    ReadsWrappedLength([], p.mediaType, U32Bytes(|meta|) + meta + p.bytes);
    if |p.mediaType| < WORD {
      ReadWritten([], p.mediaType, U32Bytes(|meta|) + meta + p.bytes);
      ReadsWrappedLength(head, meta, p.bytes);
    }
  }

  lemma ReadsWrappedLength(pre: seq<byte>, chunk: seq<byte>, post: seq<byte>)
    ensures var r := ReadChunk(pre + U32Bytes(|chunk|) + chunk + post, |pre|);
            r.Some? ==> |r.value.0| == |chunk| % WORD && r.value.1 == |pre| + 4 + |chunk| % WORD
  {
    var s := pre + U32Bytes(|chunk|) + chunk + post;
    U32Wraps(|chunk|);
    hide U32Bytes, U32Value;
    assert s[|pre|..|pre| + 4] == U32Bytes(|chunk|);
  }

  /** Where a stored frame is cut decides what is seen: inside the magic it no longer looks like a frame,
      inside the header chunks it is malformed, inside the raw bytes it decodes to shortened bytes. */
  lemma CutFrame(jt: JsonText, p: Payload, k: nat)
    requires JsonLaws(jt) && HeaderFits(jt, p) && k <= |EncodeNative(jt, p)|
    ensures var cut := DecodeNative(jt, EncodeNative(jt, p)[..k]);
            var header := |MAGIC| + 8 + |p.mediaType| + |jt.print_(MetadataJson(p.metadata))|;
            && (k < |MAGIC| <==> cut == NotFramed)
            && (|MAGIC| <= k < header <==> cut == Malformed)
            && (header <= k ==> cut == Framed(p.(bytes := p.bytes[..k - header])))
  {
    hide *;
    DecodeCut(jt, p, k);
    var header := |MAGIC| + 8 + |p.mediaType| + |jt.print_(MetadataJson(p.metadata))|;
    if |MAGIC| <= k < header {
      CutInsideHeader(jt, p, k);
    } else if header <= k {
      CutInsideBytes(jt, p, k);
    }
  }

  lemma CutInsideHeader(jt: JsonText, p: Payload, k: nat)
    requires HeaderFits(jt, p) && |MAGIC| <= k < |MAGIC| + 8 + |p.mediaType| + |jt.print_(MetadataJson(p.metadata))|
    ensures k <= |EncodeNative(jt, p)| && DecodeNative(jt, EncodeNative(jt, p)[..k]) == Malformed
  {
    CutHeader(jt, p, k - |MAGIC|);
    hide *;
    DecodeCut(jt, p, k);
  }

  lemma CutInsideBytes(jt: JsonText, p: Payload, k: nat)
    requires JsonLaws(jt) && HeaderFits(jt, p)
    requires |MAGIC| + 8 + |p.mediaType| + |jt.print_(MetadataJson(p.metadata))| <= k <= |EncodeNative(jt, p)|
    ensures var header := |MAGIC| + 8 + |p.mediaType| + |jt.print_(MetadataJson(p.metadata))|;
            && k - header <= |p.bytes|
            && DecodeNative(jt, EncodeNative(jt, p)[..k]) == Framed(p.(bytes := p.bytes[..k - header]))
  {
    hide *;
    DecodeCut(jt, p, k);
    ShortenedParses(jt, p, k - |MAGIC| - 8 - |p.mediaType| - |jt.print_(MetadataJson(p.metadata))|);
  }

  lemma DecodeCut(jt: JsonText, p: Payload, k: nat)
    requires k <= |EncodeNative(jt, p)|
    ensures |EncodeNative(jt, p)| == |MAGIC| + 8 + |p.mediaType| + |jt.print_(MetadataJson(p.metadata))| + |p.bytes|
    ensures DecodeNative(jt, EncodeNative(jt, p)[..k])
         == if k < |MAGIC| then NotFramed
            else match ParseFrame(jt, FrameBody(jt, p)[..k - |MAGIC|]) case Some(q) => Framed(q) case None => Malformed
  {
    EncodedSize(jt, p);
    hide ParseFrame, FrameBody, ReadChunk, U32Bytes;
    if k >= |MAGIC| {
      CutPrefix(MAGIC, FrameBody(jt, p), k);
    }
  }

  lemma EncodedSize(jt: JsonText, p: Payload)
    ensures |FrameBody(jt, p)| == 8 + |p.mediaType| + |jt.print_(MetadataJson(p.metadata))| + |p.bytes|
  {
    hide U32Bytes, MetadataJson;
  }

  lemma CutPrefix(a: seq<byte>, b: seq<byte>, k: nat)
    requires |a| <= k <= |a + b|
    ensures (a + b)[..k][..|a|] == a && (a + b)[..k][|a|..] == b[..k - |a|]
  {
  }

  lemma ShortenedParses(jt: JsonText, p: Payload, n: nat)
    requires JsonLaws(jt) && HeaderFits(jt, p) && n <= |p.bytes|
    ensures var head := 8 + |p.mediaType| + |jt.print_(MetadataJson(p.metadata))|;
            && |FrameBody(jt, p)| == head + |p.bytes|
            && ParseFrame(jt, FrameBody(jt, p)[..head + n]) == Some(p.(bytes := p.bytes[..n]))
  {
    hide JsonLaws, ParseFrame;
    var head, q := 8 + |p.mediaType| + |jt.print_(MetadataJson(p.metadata))|, p.(bytes := p.bytes[..n]);
    assert FrameBody(jt, q) == FrameBody(jt, p)[..head + n];
    FrameRoundTrip(jt, q);
  }

  lemma CutHeader(jt: JsonText, p: Payload, n: nat)
    requires HeaderFits(jt, p) && n < 8 + |p.mediaType| + |jt.print_(MetadataJson(p.metadata))|
    ensures n <= |FrameBody(jt, p)| && ParseFrame(jt, FrameBody(jt, p)[..n]) == None
  {
    var meta := jt.print_(MetadataJson(p.metadata));
    var body, head := FrameBody(jt, p), U32Bytes(|p.mediaType|) + p.mediaType;
    var cut := body[..n];
    assert [] + U32Bytes(|p.mediaType|) + p.mediaType + (U32Bytes(|meta|) + meta + p.bytes) == body;
    assert head + U32Bytes(|meta|) + meta + p.bytes == body;
    hide FrameBody, ParseMetadata;
    ReadCut([], p.mediaType, U32Bytes(|meta|) + meta + p.bytes, n);
    if ReadChunk(cut, 0).Some? {
      ReadCut(head, meta, p.bytes, n);
    }
  }

  /** Reading a written chunk from a cut buffer: the cut either spares it whole or is noticed. */
  lemma ReadCut(pre: seq<byte>, chunk: seq<byte>, post: seq<byte>, n: nat)
    requires |chunk| < WORD && n <= |pre| + 4 + |chunk| + |post|
    ensures ReadChunk((pre + U32Bytes(|chunk|) + chunk + post)[..n], |pre|)
         == if |pre| + 4 + |chunk| <= n then Some((chunk, |pre| + 4 + |chunk|)) else None
  {
    hide U32Bytes, U32Value;
    var len := U32Bytes(|chunk|);
    U32Reads(|chunk|);
    Middle(pre, len, chunk, post, n);
    hide WORD;
  }

  lemma Middle(pre: seq<byte>, a: seq<byte>, b: seq<byte>, post: seq<byte>, n: nat)
    requires n <= |pre| + |a| + |b| + |post|
    ensures |pre| + |a| <= n ==> (pre + a + b + post)[..n][|pre|..|pre| + |a|] == a
    ensures |pre| + |a| + |b| <= n ==> (pre + a + b + post)[..n][|pre| + |a|..|pre| + |a| + |b|] == b
  {
    var s := pre + a + b + post;
    if |pre| + |a| <= n {
      assert s[..n][|pre|..|pre| + |a|] == s[|pre|..|pre| + |a|];
    }
    if |pre| + |a| + |b| <= n {
      assert s[..n][|pre| + |a|..|pre| + |a| + |b|] == s[|pre| + |a|..|pre| + |a| + |b|];
    }
  }

  /** Saved text is never taken for a frame: a frame begins with 0xFF, which UTF-8 excludes. */
  lemma TextIsNeverAFrame(jt: JsonText, t: Text)
    ensures DecodeNative(jt, t) == NotFramed
  {
    if |t| >= |MAGIC| {
      NoHighBytes(t, 0);
      assert t[..|MAGIC|][0] != MAGIC[0];
    }
  }

  // ----- the store -----

  datatype Entry = TextEntry(text: Text) | PayloadEntry(payload: Payload)

  /** The bytes an entry is kept as. */
  function Stored(jt: JsonText, e: Entry): seq<byte> {
    match e
    case TextEntry(t) => t
    case PayloadEntry(p) => if Valid(p.bytes) then EncodePayload(jt, p) else EncodeNative(jt, p)
  }

  datatype Result<+T> = Success(value: T) | StoreError

  function AsText(bytes: seq<byte>): Text
    requires Valid(bytes)
  {
    bytes
  }

  function RetrieveText(jt: JsonText, bytes: seq<byte>): Result<Text> {
    match DecodeNative(jt, bytes)
    case Framed(p) => if Valid(p.bytes) then Success(AsText(p.bytes)) else StoreError
    case NotFramed => Success(if Valid(bytes) then AsText(bytes) else [])
    case Malformed => StoreError
  }

  function RetrievePayloadFrom(jt: JsonText, bytes: seq<byte>): Result<Payload> {
    match DecodeNative(jt, bytes)
    case Framed(p) => Success(p)
    case NotFramed => Success(DecodePayload(jt, jt.lossy(bytes)))
    case Malformed => StoreError
  }

  /** The wrap-around of oversized headers is the only way a stored entry can be damaged. */
  predicate EntryFits(jt: JsonText, e: Entry) {
    e.PayloadEntry? && !Valid(e.payload.bytes) ==> HeaderFits(jt, e.payload)
  }

  lemma PlainTextComesBack(jt: JsonText, t: Text)
    requires JsonLaws(jt)
    ensures RetrieveText(jt, t) == Success(t)
    ensures RetrievePayloadFrom(jt, t) == Success(DecodePayload(jt, t))
    ensures ReadsAs(jt, t, DecodePayload(jt, t))
    ensures !IsEnvelope(jt.parse(t)) ==> IsPlain(t, DecodePayload(jt, t))
  {
    hide IsEnvelope, IsPlain, ReadsAs, DecodePayload, DecodeNative;
    TextIsNeverAFrame(jt, t);
    TextsReadBack(jt, t);
  }

  /** What comes back for each kind of entry: texts and payloads exactly; a text payload also reads as its
      envelope text, a binary payload refuses to be read as text, and a plain text read as a payload is
      what its fields say if it is an envelope, and the text itself otherwise. */
  lemma EntriesComeBack(jt: JsonText, e: Entry)
    requires JsonLaws(jt) && EntryFits(jt, e)
    ensures match e
            case TextEntry(t) =>
              && RetrieveText(jt, Stored(jt, e)) == Success(t)
              && RetrievePayloadFrom(jt, Stored(jt, e)).Success?
              && ReadsAs(jt, t, RetrievePayloadFrom(jt, Stored(jt, e)).value)
              && (!IsEnvelope(jt.parse(t)) ==> IsPlain(t, RetrievePayloadFrom(jt, Stored(jt, e)).value))
            case PayloadEntry(p) =>
              && RetrievePayloadFrom(jt, Stored(jt, e)) == Success(p)
              && RetrieveText(jt, Stored(jt, e)) == if Valid(p.bytes) then Success(EncodePayload(jt, p)) else StoreError
  {
    hide IsEnvelope, IsPlain, ReadsAs, DecodePayload;
    match e
    case TextEntry(t) =>
      PlainTextComesBack(jt, t);
    case PayloadEntry(p) =>
      if Valid(p.bytes) {
        TextIsNeverAFrame(jt, EncodePayload(jt, p));
        EnvelopeRoundTrip(jt, p);
      } else {
        NativeRoundTripIff(jt, p);
      }
  }

  datatype Op = Save(id: string, text: Text) | SavePayload(id: string, payload: Payload) | Delete(id: string)

  function ApplyBytes(jt: JsonText, partition: map<string, seq<byte>>, op: Op): map<string, seq<byte>> {
    match op
    case Save(id, text) => partition[id := text]
    case SavePayload(id, p) => partition[id := Stored(jt, PayloadEntry(p))]
    case Delete(id) => partition - {id}
  }

  function ApplyEntries(entries: map<string, Entry>, op: Op): map<string, Entry> {
    match op
    case Save(id, text) => entries[id := TextEntry(text)]
    case SavePayload(id, p) => entries[id := PayloadEntry(p)]
    case Delete(id) => entries - {id}
  }

  function RunBytes(jt: JsonText, partition: map<string, seq<byte>>, ops: seq<Op>): map<string, seq<byte>>
    decreases |ops|
  {
    if ops == [] then partition else RunBytes(jt, ApplyBytes(jt, partition, ops[0]), ops[1..])
  }

  function RunEntries(entries: map<string, Entry>, ops: seq<Op>): map<string, Entry>
    decreases |ops|
  {
    if ops == [] then entries else RunEntries(ApplyEntries(entries, ops[0]), ops[1..])
  }

  /** The partition holds exactly the typed entries. */
  ghost predicate Refines(jt: JsonText, partition: map<string, seq<byte>>, entries: map<string, Entry>) {
    partition.Keys == entries.Keys && forall id | id in entries :: partition[id] == Stored(jt, entries[id])
  }

  lemma {:induction false} RunsRefine(jt: JsonText, partition: map<string, seq<byte>>, entries: map<string, Entry>, ops: seq<Op>)
    requires Refines(jt, partition, entries)
    ensures Refines(jt, RunBytes(jt, partition, ops), RunEntries(entries, ops))
    decreases |ops|
  {
    hide Stored;
    if ops != [] {
      assert Stored(jt, TextEntry(if ops[0].Save? then ops[0].text else [])) == if ops[0].Save? then ops[0].text else [] by {
        StoredText(jt, if ops[0].Save? then ops[0].text else []);
      }
      RunsRefine(jt, ApplyBytes(jt, partition, ops[0]), ApplyEntries(entries, ops[0]), ops[1..]);
    }
  }

  lemma StoredText(jt: JsonText, t: Text)
    ensures Stored(jt, TextEntry(t)) == t
  {
  }

  /** Over any history of saves and deletes the byte store behaves as a map of typed values. */
  lemma StoreIsATypedMap(jt: JsonText, ops: seq<Op>, id: string)
    requires JsonLaws(jt) && forall i | 0 <= i < |ops| && ops[i].SavePayload? :: EntryFits(jt, PayloadEntry(ops[i].payload))
    ensures var partition, entries := RunBytes(jt, map[], ops), RunEntries(map[], ops);
            && (id in partition <==> id in entries)
            && (id in entries && entries[id].TextEntry? ==> RetrieveText(jt, partition[id]) == Success(entries[id].text))
            && (id in entries && entries[id].PayloadEntry? ==> RetrievePayloadFrom(jt, partition[id]) == Success(entries[id].payload))
  {
    hide EntryFits, Stored, RetrieveText, RetrievePayloadFrom;
    RunsRefine(jt, map[], map[], ops);
    var entries := RunEntries(map[], ops);
    if id in entries {
      RunKeepsFitting(jt, map[], ops, id);
      EntriesComeBack(jt, entries[id]);
    }
  }

  lemma {:induction false} RunKeepsFitting(jt: JsonText, entries: map<string, Entry>, ops: seq<Op>, id: string)
    requires forall i | 0 <= i < |ops| && ops[i].SavePayload? :: EntryFits(jt, PayloadEntry(ops[i].payload))
    requires forall k | k in entries :: EntryFits(jt, entries[k])
    ensures id in RunEntries(entries, ops) ==> EntryFits(jt, RunEntries(entries, ops)[id])
    decreases |ops|
  {
    if ops != [] {
      RunKeepsFitting(jt, ApplyEntries(entries, ops[0]), ops[1..], id);
    }
  }

  class Store {
    const jt: JsonText
    var partition: map<string, seq<byte>>
    ghost var entries: map<string, Entry>

    ghost predicate Valid()
      reads this
    {
      JsonLaws(jt) && Refines(jt, partition, entries)
    }

    constructor (jt: JsonText)
      requires JsonLaws(jt)
      ensures Valid() && entries == map[] && this.jt == jt
    {
      this.jt := jt;
      partition, entries := map[], map[];
    }

    method SaveText(id: string, text: Text)
      requires Valid()
      modifies this
      ensures Valid() && entries == ApplyEntries(old(entries), Save(id, text))
    {
      partition := partition[id := text];
      entries := entries[id := TextEntry(text)];
    }

    method SaveTyped(id: string, payload: Payload)
      requires Valid()
      modifies this
      ensures Valid() && entries == ApplyEntries(old(entries), SavePayload(id, payload))
    {
      hide EncodePayload, EncodeNative, JsonLaws;
      if Utf8.Valid(payload.bytes) {
        partition := partition[id := EncodePayload(jt, payload)];
      } else {
        var frame := BuildNative(jt, payload);
        partition := partition[id := frame];
      }
      entries := entries[id := PayloadEntry(payload)];
    }

    method Remove(id: string)
      requires Valid()
      modifies this
      ensures Valid() && entries == ApplyEntries(old(entries), Delete(id))
    {
      partition := partition - {id};
      entries := entries - {id};
    }

    method Retrieve(id: string) returns (r: Result<Option<Text>>)
      requires Valid()
      ensures id !in entries ==> r == Success(None)
      ensures id in entries && entries[id].TextEntry? ==> r == Success(Some(entries[id].text))
      ensures id in entries && entries[id].PayloadEntry? && EntryFits(jt, entries[id]) ==>
                var p := entries[id].payload; r == if Utf8.Valid(p.bytes) then Success(Some(EncodePayload(jt, p))) else StoreError
    {
      if id !in partition {
        return Success(None);
      }
      var bytes := partition[id];
      var frame := DecodeFrame(jt, bytes);
      if EntryFits(jt, entries[id]) {
        EntriesComeBack(jt, entries[id]);
      }
      match frame
      case Framed(p) => r := if Utf8.Valid(p.bytes) then Success(Some(AsText(p.bytes))) else StoreError;
      case NotFramed => r := Success(Some(if Utf8.Valid(bytes) then AsText(bytes) else []));
      case Malformed => r := StoreError;
    }

    method RetrievePayload(id: string) returns (r: Result<Option<Payload>>)
      requires Valid()
      ensures id !in entries ==> r == Success(None)
      ensures id in entries && entries[id].PayloadEntry? && EntryFits(jt, entries[id]) ==> r == Success(Some(entries[id].payload))
      ensures id in entries && entries[id].TextEntry? ==>
                var t := entries[id].text;
                && r.Success? && r.value.Some? && ReadsAs(jt, t, r.value.value)
                && (!IsEnvelope(jt.parse(t)) ==> IsPlain(t, r.value.value))
    {
      if id !in partition {
        return Success(None);
      }
      var bytes := partition[id];
      var frame := DecodeFrame(jt, bytes);
      if EntryFits(jt, entries[id]) {
        EntriesComeBack(jt, entries[id]);
      }
      match frame
      case Framed(p) => r := Success(Some(p));
      case NotFramed => r := Success(Some(DecodePayload(jt, jt.lossy(bytes))));
      case Malformed => r := StoreError;
    }
  }
}
