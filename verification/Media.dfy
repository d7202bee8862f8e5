/**
 * Cutting a medium into a metadata payload and chunk payloads, and putting it back together from
 * the decrypted rows of a thread. JSON objects are maps; their printed form, SHA-256 and the lenient
 * coercions of `optInt` are platform functions.
 */
module Media {
  import opened Basics
  import Decimal
  import PayloadCodec
  import Utf8

  const MAX_TOTAL_BYTES := 5_242_880
  const MAX_CHUNK_BYTES := 131_072
  const MAX_CHUNK_COUNT := 4_096
  const PCM_MAX_BYTES := 52_428_800
  const PCM_CHUNK_BYTES := 32_000

  datatype Json = Str(text: string) | Num(number: int) | Other(printed: string)

  type JsonObject = map<string, Json>

  datatype MimeKind = Image | EncodedAudio | Pcm | Refused

  /**
   * What the code takes from outside: the hash, JSON, and its tables of names. Nothing below depends
   * on the names themselves; `Mina` gives the real ones.
   */
  datatype Platform = Platform(
    sha256: seq<Byte> -> string,
    printed: JsonObject -> seq<Byte>,
    parse: seq<Byte> -> Option<JsonObject>,
    coerceInt: Json -> int,
    kindOf: string -> MimeKind,
    attachmentType: string,
    voiceType: string,
    chunkType: string,
    payloadTypes: seq<string>)
  {
    /** The object survives printing, and its text fits the metadata limit of the payload codec. */
    ghost predicate Carries(o: JsonObject) {
      |printed(o)| <= PayloadCodec.MAX_META_BYTES && parse(printed(o)) == Some(o)
    }

    ghost predicate Supports() {
      && attachmentType in payloadTypes && voiceType in payloadTypes && chunkType in payloadTypes
      && chunkType != attachmentType && chunkType != voiceType
      && (forall t :: t in payloadTypes ==> 1 <= Utf8.Size(t) <= PayloadCodec.MAX_TYPE_BYTES)
      && forall b :: IsHex64(sha256(b))
    }

    function EventTypeFor(mime: string): Result<string> {
      match kindOf(mime)
      case Image => Ok(attachmentType)
      case EncodedAudio => Ok(voiceType)
      case Pcm => Ok(voiceType)
      case Refused => Err("media_mime_refuse")
    }

    predicate IsPcm(mime: string) { kindOf(mime).Pcm? }

    function MaxBytesFor(mime: string): int { if IsPcm(mime) then PCM_MAX_BYTES else MAX_TOTAL_BYTES }

    function MaxChunkBytesFor(mime: string): int { if IsPcm(mime) then PCM_CHUNK_BYTES else MAX_CHUNK_BYTES }

    function TheoreticalLimit(mime: string): int {
      if IsPcm(mime) then MaxBytesFor(mime) + PCM_CHUNK_BYTES - 1 else MaxBytesFor(mime)
    }

    predicate Accepts(mime: string, size: int) { !kindOf(mime).Refused? && 1 <= size <= MaxBytesFor(mime) }
  }

  function MimeTable(mime: string): MimeKind {
    if mime in ["image/jpeg", "image/png", "image/webp"] then Image
    else if mime == "audio/mp4" then EncodedAudio
    else if mime == "audio/L16;rate=16000;channels=1" then Pcm
    else Refused
  }

  function Mina(sha256: seq<Byte> -> string, printed: JsonObject -> seq<Byte>,
                parse: seq<Byte> -> Option<JsonObject>, coerceInt: Json -> int): Platform {
    Platform(sha256, printed, parse, coerceInt, MimeTable, "message.attachment.created", "message.voice.created",
             "media.chunk", PayloadCodec.PAYLOAD_TYPES)
  }

  lemma NamesAreShort()
    ensures forall i :: 0 <= i < |PayloadCodec.PAYLOAD_TYPES| ==> 1 <= |PayloadCodec.PAYLOAD_TYPES[i]| <= 40
  {
    var types := PayloadCodec.PAYLOAD_TYPES;
    assert |types[0]| == 26 && |types[1]| == 21 && |types[2]| == 11 && |types[3]| == 26;
    assert |types[4]| == 24 && |types[5]| == 28 && |types[6]| == 25 && |types[7]| == 19;
  }

  lemma ShortNamesFit(names: seq<string>)
    requires forall i :: 0 <= i < |names| ==> 1 <= |names[i]| <= 40
    ensures forall t :: t in names ==> 1 <= Utf8.Size(t) <= PayloadCodec.MAX_TYPE_BYTES
  {
    forall t | t in names ensures 1 <= Utf8.Size(t) <= PayloadCodec.MAX_TYPE_BYTES {
      Utf8.SizeBounds(t);
    }
  }

  lemma SupportsFromTables(p: Platform, names: seq<string>)
    requires p.payloadTypes == names && |names| >= 3
    requires p.attachmentType == names[0] && p.voiceType == names[1] && p.chunkType == names[2]
    requires |names[0]| != |names[2]| && |names[1]| != |names[2]|
    requires forall i :: 0 <= i < |names| ==> 1 <= |names[i]| <= 40
    requires forall b :: IsHex64(p.sha256(b))
    ensures p.Supports()
  {
    ShortNamesFit(names);
  }

  /** The real tables meet what every result about media assumes of them. */
  lemma MinaSupports(sha256: seq<Byte> -> string, printed: JsonObject -> seq<Byte>,
                     parse: seq<Byte> -> Option<JsonObject>, coerceInt: Json -> int)
    requires forall b :: IsHex64(sha256(b))
    ensures Mina(sha256, printed, parse, coerceInt).Supports()
  {
    var types := PayloadCodec.PAYLOAD_TYPES;
    NamesAreShort();
    assert |types[0]| == 26 && |types[1]| == 21 && |types[2]| == 11;
    SupportsFromTables(Mina(sha256, printed, parse, coerceInt), types);
  }

  datatype Meta = Meta(mediaId: string, mime: string, sizeBytes: int, sha256: string, chunkCount: int, chunkBytes: int)

  datatype MediaPiece = MediaPiece(mediaId: string, metaPayload: seq<Byte>, chunkPayloads: seq<seq<Byte>>)

  predicate IsMediaId(s: string) {
    1 <= |s| <= 64 && forall c :: c in s ==>
      'A' <= c <= 'Z' || 'a' <= c <= 'z' || '0' <= c <= '9' || c in {'.', '_', ':', '-'}
  }

  predicate IsHex64(s: string) {
    |s| == 64 && forall c :: c in s ==> 'a' <= c <= 'f' || '0' <= c <= '9'
  }

  function Lowercase(s: string): string {
    seq(|s|, i requires 0 <= i < |s| => if 'A' <= s[i] <= 'Z' then s[i] - 'A' + 'a' else s[i])
  }

  function CeilDiv(size: int, chunk: int): int
    requires chunk > 0
  {
    (size + chunk - 1) / chunk
  }

  // ---------------------------------------------------------------- metadata

  const CORE_KEYS: set<string> := {"mediaId", "mime", "sizeBytes", "sha256", "chunkCount", "chunkBytes"}

  /** The object as it is filled: extra keys are put last and so would win. */
  function MetaObject(m: Meta, extra: JsonObject): JsonObject {
    map[
      "mediaId" := Str(m.mediaId), "mime" := Str(m.mime), "sizeBytes" := Num(m.sizeBytes),
      "sha256" := Str(m.sha256), "chunkCount" := Num(m.chunkCount), "chunkBytes" := Num(m.chunkBytes)
    ] + extra
  }

  /** The sender's checks, in their order. */
  function CheckMeta(p: Platform, m: Meta): Result<string> {
    var eventType := p.EventTypeFor(m.mime);
    if eventType.Err? then eventType
    else if !IsMediaId(m.mediaId) then Err("media_id_invalide")
    else if !(1 <= m.sizeBytes <= p.MaxBytesFor(m.mime)) then Err("media_taille_invalide")
    else if !IsHex64(m.sha256) then Err("media_digest_invalide")
    else if !(1 <= m.chunkBytes <= p.MaxChunkBytesFor(m.mime)) then Err("media_chunk_bytes_invalide")
    else if !(1 <= m.chunkCount <= MAX_CHUNK_COUNT) then Err("media_chunk_count_invalide")
    else if m.chunkCount * m.chunkBytes > p.TheoreticalLimit(m.mime) then Err("media_trop_gros")
    else if m.chunkCount != CeilDiv(m.sizeBytes, m.chunkBytes) then Err("media_chunk_count_invalide")
    else eventType
  }

  method EncodeMeta(p: Platform, m: Meta, extra: JsonObject) returns (r: Result<seq<Byte>>)
    ensures CheckMeta(p, m).Err? ==> r == Err(CheckMeta(p, m).error)
    ensures r.Ok? ==> r.value == PayloadCodec.Written(Utf8.Encode(CheckMeta(p, m).value), p.printed(MetaObject(m, extra)), [])
    ensures p.Supports() && CheckMeta(p, m).Ok? && p.Carries(MetaObject(m, extra)) ==> r.Ok?
  {
    var checked := CheckMeta(p, m);
    if checked.Err? { return Err(checked.error); }
    r := PayloadCodec.EncodeV2(p.payloadTypes, checked.value, p.printed(MetaObject(m, extra)), []);
  }

  /** `Number.toInt()` keeps the low 32 bits. */
  function ToInt(n: int): int { (n + 0x8000_0000) % 0x1_0000_0000 - 0x8000_0000 }

  function StringAt(o: JsonObject, key: string): Option<string> {
    if key in o && o[key].Str? then Some(o[key].text) else None
  }

  function IntAt(o: JsonObject, key: string): Option<int> {
    if key in o && o[key].Num? then Some(ToInt(o[key].number)) else None
  }

  /** The receiver's checks, in their order. */
  function ParseMeta(p: Platform, o: JsonObject): Result<Meta> {
    var mediaId, mime := StringAt(o, "mediaId"), StringAt(o, "mime");
    var size, sha := IntAt(o, "sizeBytes"), StringAt(o, "sha256");
    var chunkBytes, chunkCount := IntAt(o, "chunkBytes"), IntAt(o, "chunkCount");
    if mediaId.None? || !IsMediaId(mediaId.value) then Err("media_id_invalide")
    else if mime.None? || p.kindOf(mime.value).Refused? then Err("media_mime_refuse")
    else if size.None? || size.value < 1 || size.value > p.MaxBytesFor(mime.value) then Err("media_taille_invalide")
    else if sha.None? || !IsHex64(Lowercase(sha.value)) then Err("media_digest_invalide")
    else if chunkBytes.None? || chunkBytes.value < 1 || chunkBytes.value > p.MaxChunkBytesFor(mime.value) then
      Err("media_chunk_bytes_invalide")
    else if chunkCount.None? || !(1 <= chunkCount.value <= MAX_CHUNK_COUNT) then Err("media_chunk_count_invalide")
    else if chunkCount.value != CeilDiv(size.value, chunkBytes.value) then Err("media_chunk_count_invalide")
    else if chunkCount.value * chunkBytes.value > p.TheoreticalLimit(mime.value) then Err("media_trop_gros")
    else Ok(Meta(mediaId.value, mime.value, size.value, Lowercase(sha.value), chunkCount.value, chunkBytes.value))
  }

  predicate IsInt32(n: int) { -0x8000_0000 <= n < 0x8000_0000 }

  lemma LowercaseHex(s: string)
    requires IsHex64(s)
    ensures Lowercase(s) == s
  {
    forall i | 0 <= i < |s| ensures Lowercase(s)[i] == s[i] {
      assert s[i] in s;
    }
  }

  lemma MetaObjectReads(m: Meta, extra: JsonObject)
    requires extra.Keys !! CORE_KEYS
    ensures var o := MetaObject(m, extra);
            && StringAt(o, "mediaId") == Some(m.mediaId) && StringAt(o, "mime") == Some(m.mime)
            && StringAt(o, "sha256") == Some(m.sha256) && IntAt(o, "sizeBytes") == Some(ToInt(m.sizeBytes))
            && IntAt(o, "chunkCount") == Some(ToInt(m.chunkCount)) && IntAt(o, "chunkBytes") == Some(ToInt(m.chunkBytes))
  {
    var o := MetaObject(m, extra);
    assert o["mediaId"] == Str(m.mediaId) && o["mime"] == Str(m.mime) && o["sizeBytes"] == Num(m.sizeBytes);
    assert o["sha256"] == Str(m.sha256) && o["chunkCount"] == Num(m.chunkCount);
    assert o["chunkBytes"] == Num(m.chunkBytes);
  }

  lemma ToIntKeeps(n: int)
    requires IsInt32(n)
    ensures ToInt(n) == n
  {
  }

  /** Sender and receiver agree: what one accepts, the other reads back unchanged. */
  lemma ParseReadsWhatIsEncoded(p: Platform, m: Meta, extra: JsonObject)
    requires extra.Keys !! CORE_KEYS
    requires IsInt32(m.sizeBytes) && IsInt32(m.chunkCount) && IsInt32(m.chunkBytes)
    requires IsHex64(m.sha256)
    ensures CheckMeta(p, m).Ok? <==> ParseMeta(p, MetaObject(m, extra)) == Ok(m)
  {
    LowercaseHex(m.sha256);
    MetaObjectReads(m, extra);
    ToIntKeeps(m.sizeBytes);
    ToIntKeeps(m.chunkCount);
    ToIntKeeps(m.chunkBytes);
  }

  // ---------------------------------------------------------------- cutting

  function Slice(bytes: seq<Byte>, chunk: int, index: nat): seq<Byte>
    requires chunk > 0 && index * chunk <= |bytes|
  {
    bytes[index * chunk..Min(index * chunk + chunk, |bytes|)]
  }

  function MetaOf(p: Platform, bytes: seq<Byte>, mime: string, mediaId: string): Meta {
    var chunkBytes := p.MaxChunkBytesFor(mime);
    Meta(mediaId, mime, |bytes|, p.sha256(bytes), CeilDiv(|bytes|, chunkBytes), chunkBytes)
  }

  function ChunkObject(mediaId: string, index: int): JsonObject {
    map["mediaId" := Str(mediaId), "index" := Num(index)]
  }

  method EncodeChunk(p: Platform, mediaId: string, index: int, binary: seq<Byte>) returns (r: Result<seq<Byte>>)
    ensures r.Ok? ==> IsMediaId(mediaId) && index >= 0 && 1 <= |binary| <= MAX_CHUNK_BYTES
    ensures r.Ok? ==> r.value == PayloadCodec.Written(Utf8.Encode(p.chunkType), p.printed(ChunkObject(mediaId, index)), binary)
    ensures (&& p.Supports() && IsMediaId(mediaId) && index >= 0 && 1 <= |binary| <= MAX_CHUNK_BYTES
             && p.Carries(ChunkObject(mediaId, index))) ==> r.Ok?
  {
    if !IsMediaId(mediaId) { return Err("media_id_invalide"); }
    if index < 0 { return Err("media_index_invalide"); }
    if !(1 <= |binary| <= MAX_CHUNK_BYTES) { return Err("media_chunk_taille_invalide"); }
    r := PayloadCodec.EncodeV2(p.payloadTypes, p.chunkType, p.printed(ChunkObject(mediaId, index)), binary);
  }

  /** Every piece of arithmetic the limits rest on. */
  lemma ChunkArithmetic(size: int, chunk: int, count: int)
    requires size >= 1 && chunk >= 1 && count == CeilDiv(size, chunk)
    ensures count >= 1 && (count - 1) * chunk < size <= count * chunk <= size + chunk - 1
  {
    var q := (size + chunk - 1) / chunk;
    assert size + chunk - 1 == q * chunk + (size + chunk - 1) % chunk;
    assert (count - 1) * chunk == count * chunk - chunk;
  }

  lemma MulMono(a: int, b: int, c: int)
    requires a <= b && c >= 0
    ensures a * c <= b * c
  {
  }

  /** For every accepted type and length the sender's limits never reject what it is about to send. */
  lemma LimitsNeverReject(p: Platform, bytes: seq<Byte>, mime: string, mediaId: string)
    requires p.Supports() && IsMediaId(mediaId) && p.Accepts(mime, |bytes|)
    ensures CheckMeta(p, MetaOf(p, bytes, mime, mediaId)).Ok?
  {
    var m := MetaOf(p, bytes, mime, mediaId);
    if p.IsPcm(mime) {
      PcmLimits(|bytes|);
    } else {
      OtherLimits(|bytes|);
    }
    assert IsHex64(m.sha256);
  }

  lemma PcmLimits(size: int)
    requires 1 <= size <= PCM_MAX_BYTES
    ensures var count := CeilDiv(size, PCM_CHUNK_BYTES);
            1 <= count <= MAX_CHUNK_COUNT && count * PCM_CHUNK_BYTES <= PCM_MAX_BYTES + PCM_CHUNK_BYTES - 1
  {
  }

  lemma OtherLimits(size: int)
    requires 1 <= size <= MAX_TOTAL_BYTES
    ensures var count := CeilDiv(size, MAX_CHUNK_BYTES);
            1 <= count <= MAX_CHUNK_COUNT && count * MAX_CHUNK_BYTES <= MAX_TOTAL_BYTES
  {
  }

  /** What `chunk` hands to the outbox. */
  ghost predicate IsPieceOf(p: Platform, piece: MediaPiece, bytes: seq<Byte>, mime: string, extra: JsonObject) {
    && p.EventTypeFor(mime).Ok?
    && (var m := MetaOf(p, bytes, mime, piece.mediaId);
        && piece.metaPayload == PayloadCodec.Written(Utf8.Encode(p.EventTypeFor(mime).value), p.printed(MetaObject(m, extra)), [])
        && |piece.chunkPayloads| == m.chunkCount
        && forall i :: 0 <= i < m.chunkCount ==>
             i * m.chunkBytes < |bytes| && piece.chunkPayloads[i] == ChunkPayload(p, bytes, m.chunkBytes, piece.mediaId, i))
  }

  function ChunkPayload(p: Platform, bytes: seq<Byte>, chunk: int, mediaId: string, i: nat): seq<Byte>
    requires chunk > 0 && i * chunk <= |bytes|
  {
    PayloadCodec.Written(Utf8.Encode(p.chunkType), p.printed(ChunkObject(mediaId, i)), Slice(bytes, chunk, i))
  }

  ghost predicate AllCarried(p: Platform, bytes: seq<Byte>, mime: string, mediaId: string, extra: JsonObject) {
    var m := MetaOf(p, bytes, mime, mediaId);
    && p.Carries(MetaObject(m, extra))
    && forall i :: 0 <= i < m.chunkCount ==> p.Carries(ChunkObject(mediaId, i))
  }

  /** Cuts and encodes the chunks that the metadata announces. */
  method ChunkPayloads(p: Platform, bytes: seq<Byte>, m: Meta) returns (r: Result<seq<seq<Byte>>>)
    requires p.Supports() && IsMediaId(m.mediaId) && bytes != []
    requires 1 <= m.chunkBytes <= MAX_CHUNK_BYTES && m.chunkCount == CeilDiv(|bytes|, m.chunkBytes)
    ensures r.Ok? ==> |r.value| == m.chunkCount
    ensures r.Ok? ==> forall i :: 0 <= i < m.chunkCount ==>
      i * m.chunkBytes < |bytes| && r.value[i] == ChunkPayload(p, bytes, m.chunkBytes, m.mediaId, i)
    ensures (forall i :: 0 <= i < m.chunkCount ==> p.Carries(ChunkObject(m.mediaId, i))) ==> r.Ok?
  {
    ChunkArithmetic(|bytes|, m.chunkBytes, m.chunkCount);
    var chunkPayloads: seq<seq<Byte>> := [];
    for index := 0 to m.chunkCount
      invariant |chunkPayloads| == index
      invariant forall i :: 0 <= i < index ==>
        i * m.chunkBytes < |bytes| && chunkPayloads[i] == ChunkPayload(p, bytes, m.chunkBytes, m.mediaId, i)
    {
      MulMono(index, m.chunkCount - 1, m.chunkBytes);
      var from := index * m.chunkBytes;
      var slice := bytes[from..Min(from + m.chunkBytes, |bytes|)];
      var payload := EncodeChunk(p, m.mediaId, index, slice);
      if payload.Err? { return Err(payload.error); }
      chunkPayloads := chunkPayloads + [payload.value];
    }
    return Ok(chunkPayloads);
  }

  /** `mediaId` is the random identifier that the source draws. */
  method Chunk(p: Platform, bytes: seq<Byte>, mime: string, mediaId: string, extra: JsonObject)
    returns (r: Result<MediaPiece>)
    requires p.Supports() && IsMediaId(mediaId)
    ensures r.Ok? ==> p.Accepts(mime, |bytes|)
    ensures r.Ok? ==> r.value.mediaId == mediaId && IsPieceOf(p, r.value, bytes, mime, extra)
    ensures p.Accepts(mime, |bytes|) && AllCarried(p, bytes, mime, mediaId, extra) ==> r.Ok?
  {
    var eventType := p.EventTypeFor(mime);
    if eventType.Err? { return Err(eventType.error); }
    if bytes == [] { return Err("media_vide"); }
    if |bytes| > p.MaxBytesFor(mime) { return Err("media_trop_gros"); }
    var m := MetaOf(p, bytes, mime, mediaId);
    LimitsNeverReject(p, bytes, mime, mediaId);
    var metaPayload := EncodeMeta(p, m, extra);
    if metaPayload.Err? { return Err(metaPayload.error); }
    var chunkPayloads := ChunkPayloads(p, bytes, m);
    if chunkPayloads.Err? { return Err(chunkPayloads.error); }
    return Ok(MediaPiece(mediaId, metaPayload.value, chunkPayloads.value));
  }

  // ---------------------------------------------------------------- assembling

  predicate WellFormedMeta(m: Meta) {
    1 <= m.sizeBytes && 1 <= m.chunkBytes && m.chunkCount == CeilDiv(m.sizeBytes, m.chunkBytes)
  }

  function ExpectedSize(m: Meta, index: int): int {
    if index == m.chunkCount - 1 then m.sizeBytes - index * m.chunkBytes else m.chunkBytes
  }

  predicate ChunksMatch(m: Meta, chunks: map<int, seq<Byte>>) {
    forall i :: 0 <= i < m.chunkCount ==> i in chunks && |chunks[i]| == ExpectedSize(m, i)
  }

  /** Chunks 0..n-1 one after the other; a missing chunk contributes nothing. */
  function Joined(chunks: map<int, seq<Byte>>, n: nat): seq<Byte> {
    if n == 0 then [] else Joined(chunks, n - 1) + (if n - 1 in chunks then chunks[n - 1] else [])
  }

  lemma {:induction false} JoinedSize(m: Meta, chunks: map<int, seq<Byte>>, n: nat)
    requires WellFormedMeta(m) && ChunksMatch(m, chunks) && n <= m.chunkCount
    ensures |Joined(chunks, n)| == Covered(m, n)
  {
    if n > 0 {
      JoinedSize(m, chunks, n - 1);
      assert (n - 1) * m.chunkBytes + m.chunkBytes == n * m.chunkBytes;
    } else {
      ChunkArithmetic(m.sizeBytes, m.chunkBytes, m.chunkCount);
    }
  }

  lemma OffsetFits(m: Meta, index: int)
    requires WellFormedMeta(m) && 0 <= index < m.chunkCount
    ensures var offset := index * m.chunkBytes;
            && 0 <= offset && 0 <= ExpectedSize(m, index)
            && offset + ExpectedSize(m, index)
               == Covered(m, index + 1) == Min(offset + m.chunkBytes, m.sizeBytes) <= m.sizeBytes
  {
    ChunkArithmetic(m.sizeBytes, m.chunkBytes, m.chunkCount);
    assert (index + 1) * m.chunkBytes == index * m.chunkBytes + m.chunkBytes;
    if index + 1 < m.chunkCount {
      MulMono(index + 1, m.chunkCount - 1, m.chunkBytes);
    }
  }

  method Assemble(p: Platform, m: Meta, chunks: map<int, seq<Byte>>) returns (r: Result<seq<Byte>>)
    requires WellFormedMeta(m)
    ensures r.Ok? <==> ChunksMatch(m, chunks) && p.sha256(Joined(chunks, m.chunkCount)) == m.sha256
    ensures r.Ok? ==> r.value == Joined(chunks, m.chunkCount)
  {
    ChunkArithmetic(m.sizeBytes, m.chunkBytes, m.chunkCount);
    var out := new Byte[m.sizeBytes](_ => 0);
    var index := 0;
    while index < m.chunkCount
      invariant 0 <= index <= m.chunkCount
      invariant forall i :: 0 <= i < index ==> i in chunks && |chunks[i]| == ExpectedSize(m, i)
      invariant |Joined(chunks, index)| == Covered(m, index) <= out.Length
      invariant out[..|Joined(chunks, index)|] == Joined(chunks, index)
    {
      if index !in chunks { return Err("media_chunk_manquant"); }
      var chunk := chunks[index];
      var offset := index * m.chunkBytes;
      if |chunk| != ExpectedSize(m, index) { return Err("media_chunk_taille_invalide"); }
      OffsetFits(m, index);
      ghost var done := Joined(chunks, index);
      forall k | 0 <= k < |chunk| { out[offset + k] := chunk[k]; }
      assert out[..offset + |chunk|] == done + chunk;
      index := index + 1;
    }
    assert out[..m.sizeBytes] == out[..];
    if p.sha256(out[..]) != m.sha256 { return Err("media_digest_divergent"); }
    return Ok(out[..]);
  }

  lemma {:induction false} JoinedSlices(bytes: seq<Byte>, m: Meta, chunks: map<int, seq<Byte>>, n: nat)
    requires WellFormedMeta(m) && m.sizeBytes == |bytes| && n <= m.chunkCount
    requires forall i :: 0 <= i < m.chunkCount ==> i in chunks && IsSlice(chunks[i], bytes, m.chunkBytes, i)
    ensures 0 <= Covered(m, n) <= |bytes| && Joined(chunks, n) == bytes[..Covered(m, n)]
  {
    if n > 0 {
      JoinedSlices(bytes, m, chunks, n - 1);
      OffsetFits(m, n - 1);
      var from, to := Covered(m, n - 1), Covered(m, n);
      assert IsSlice(chunks[n - 1], bytes, m.chunkBytes, n - 1);
      assert bytes[..from] + bytes[from..to] == bytes[..to];
    } else {
      ChunkArithmetic(m.sizeBytes, m.chunkBytes, m.chunkCount);
    }
  }

  /** How many bytes the first `n` chunks hold. */
  function Covered(m: Meta, n: int): int {
    if n == m.chunkCount then m.sizeBytes else n * m.chunkBytes
  }

  ghost predicate IsSlice(chunk: seq<Byte>, bytes: seq<Byte>, width: int, index: int) {
    width > 0 && 0 <= index && index * width <= |bytes| && chunk == Slice(bytes, width, index)
  }

  // ---------------------------------------------------------------- what the two sides accept, in numbers
  /** Metadata within every limit, for a medium cut into its exact number of chunks. */
  ghost predicate Acceptable(p: Platform, m: Meta) {
    var pcm := p.kindOf(m.mime).Pcm?;
    && !p.kindOf(m.mime).Refused? && IsMediaId(m.mediaId) && IsHex64(m.sha256)
    && 1 <= m.sizeBytes <= (if pcm then 52_428_800 else 5_242_880)
    && 1 <= m.chunkBytes <= (if pcm then 32_000 else 131_072)
    && 1 <= m.chunkCount <= 4_096
    && m.chunkCount * m.chunkBytes <= (if pcm then 52_428_800 + 31_999 else 5_242_880)
    && (m.chunkCount - 1) * m.chunkBytes < m.sizeBytes <= m.chunkCount * m.chunkBytes
  }

  lemma CeilExactlyWhen(size: int, chunk: int, count: int)
    requires size >= 1 && chunk >= 1
    ensures count == CeilDiv(size, chunk) <==> (count - 1) * chunk < size <= count * chunk
  {
    var ceil := CeilDiv(size, chunk);
    ChunkArithmetic(size, chunk, ceil);
    if count < ceil {
      MulMono(count, ceil - 1, chunk);
    } else if count > ceil {
      MulMono(ceil, count - 1, chunk);
    }
  }

  /** What the sender lets through, and under which type. */
  lemma SenderAcceptsExactlyWhen(p: Platform, m: Meta)
    ensures CheckMeta(p, m).Ok? <==> Acceptable(p, m)
    ensures CheckMeta(p, m).Ok? ==>
      CheckMeta(p, m).value == if p.kindOf(m.mime).Image? then p.attachmentType else p.voiceType
  {
    if m.sizeBytes >= 1 && m.chunkBytes >= 1 { CeilExactlyWhen(m.sizeBytes, m.chunkBytes, m.chunkCount); }
  }

  /** The same hexadecimal digits, some of them perhaps written in capitals in `raw`. */
  ghost predicate SameDigits(raw: string, lower: string) {
    |raw| == |lower| && forall i :: 0 <= i < |raw| ==>
      raw[i] == lower[i] || ('A' <= raw[i] <= 'F' && lower[i] as int == raw[i] as int + 32)
  }

  lemma LowercaseReads(raw: string, lower: string)
    requires IsHex64(lower)
    ensures Lowercase(raw) == lower <==> SameDigits(raw, lower)
  {
    assert forall i :: 0 <= i < |lower| ==> lower[i] in lower;
    if SameDigits(raw, lower) {
      forall i | 0 <= i < |raw| ensures Lowercase(raw)[i] == lower[i] {
      }
    }
    if Lowercase(raw) == lower {
      forall i | 0 <= i < |raw|
        ensures raw[i] == lower[i] || ('A' <= raw[i] <= 'F' && lower[i] as int == raw[i] as int + 32)
      {
        assert Lowercase(raw)[i] == lower[i];
      }
    }
  }

  /** What the receiver makes of any object, whoever wrote it: the digest may come in capitals. */
  lemma ReceiverAcceptsExactlyWhen(p: Platform, o: JsonObject, m: Meta)
    ensures ParseMeta(p, o) == Ok(m) <==>
            && StringAt(o, "mediaId") == Some(m.mediaId) && StringAt(o, "mime") == Some(m.mime)
            && StringAt(o, "sha256").Some? && SameDigits(StringAt(o, "sha256").value, m.sha256)
            && IntAt(o, "sizeBytes") == Some(m.sizeBytes) && IntAt(o, "chunkCount") == Some(m.chunkCount)
            && IntAt(o, "chunkBytes") == Some(m.chunkBytes)
            && Acceptable(p, m)
  {
    var size, chunk, count := IntAt(o, "sizeBytes"), IntAt(o, "chunkBytes"), IntAt(o, "chunkCount");
    if StringAt(o, "sha256").Some? && IsHex64(m.sha256) { LowercaseReads(StringAt(o, "sha256").value, m.sha256); }
    if size.Some? && chunk.Some? && count.Some? && size.value >= 1 && chunk.value >= 1 {
      CeilExactlyWhen(size.value, chunk.value, count.value);
    }
  }

  /** A number is read by its low 32 bits. */
  lemma ToIntWraps(n: int)
    ensures IsInt32(ToInt(n)) && (ToInt(n) - n) % 0x1_0000_0000 == 0
  {
  }

  /** Extra metadata is put last: under a name of its own it is added, under a known name it replaces. */
  lemma ExtraIsPutLast(m: Meta, extra: JsonObject, key: string)
    ensures key in MetaObject(m, extra) <==> key in CORE_KEYS || key in extra
    ensures key in extra ==> MetaObject(m, extra)[key] == extra[key]
  {
  }

  /** The types of the real tables: pictures are attachments, sound is a voice note, raw PCM is cut finer. */
  lemma MinaTypes(sha256: seq<Byte> -> string, printed: JsonObject -> seq<Byte>,
                  parse: seq<Byte> -> Option<JsonObject>, coerceInt: Json -> int, mime: string)
    ensures var p := Mina(sha256, printed, parse, coerceInt);
            && (p.EventTypeFor(mime) == Ok("message.attachment.created") <==> mime in {"image/jpeg", "image/png", "image/webp"})
            && (p.EventTypeFor(mime) == Ok("message.voice.created") <==>
                  mime in {"audio/mp4", "audio/L16;rate=16000;channels=1"})
            && (p.EventTypeFor(mime) == Err("media_mime_refuse") <==>
                  mime !in {"image/jpeg", "image/png", "image/webp", "audio/mp4", "audio/L16;rate=16000;channels=1"})
            && (p.IsPcm(mime) <==> mime == "audio/L16;rate=16000;channels=1")
  {
    var types := PayloadCodec.PAYLOAD_TYPES;
    assert |"message.attachment.created"| == 26 && |"message.voice.created"| == 21;
  }
}
