/**
 * Sending a medium into a thread and reading it back from the thread's rows. Sealing is ideal: a row
 * either opens to the very payload that was sealed, or does not open at all (`None`).
 */
module MediaThread {
  import opened Basics
  import opened Media
  import Decimal
  import PayloadCodec
  import Utf8

  const MAX_OUTBOX := 5_000

  type Row = Option<seq<Byte>>

  /** What one row says about a given medium. */
  datatype Part = MetaPart(meta: Option<Meta>) | ChunkPart(index: int, binary: seq<Byte>)

  /** `optString`: a number or literal is read as it prints. */
  function OptString(o: JsonObject, key: string): string {
    if key !in o then ""
    else match o[key] case Str(s) => s case Num(n) => Decimal.Int(n) case Other(s) => s
  }

  function OptInt(p: Platform, o: JsonObject, key: string, default_: int): int {
    if key !in o then default_ else if o[key].Num? then ToInt(o[key].number) else p.coerceInt(o[key])
  }

  function Contribution(p: Platform, row: Row, mediaId: string): Option<Part> {
    if row.None? then None
    else
      var decoded := PayloadCodec.Meaning(p.payloadTypes, row.value);
      if decoded.Err? || decoded.value.TextV1? then None else PartOf(p, decoded.value, mediaId)
  }

  function PartOf(p: Platform, payload: PayloadCodec.Decoded, mediaId: string): Option<Part>
    requires payload.PayloadV2?
  {
    var json := p.parse(payload.meta);
    if json.None? || OptString(json.value, "mediaId") != mediaId then None
    else if payload.kind == p.attachmentType || payload.kind == p.voiceType then
      var parsed := ParseMeta(p, json.value);
      Some(MetaPart(if parsed.Ok? then Some(parsed.value) else None))
    else if payload.kind == p.chunkType then Some(ChunkPart(OptInt(p, json.value, "index", -1), payload.binary))
    else None
  }

  datatype Collected = Collected(meta: Option<Meta>, chunks: map<int, seq<Byte>>)

  function Add(c: Collected, part: Option<Part>): Collected {
    match part
    case None => c
    case Some(MetaPart(meta)) => c.(meta := meta)
    case Some(ChunkPart(index, binary)) => c.(chunks := c.chunks[index := binary])
  }

  /** Rows are read oldest first; a later row replaces what an earlier one said. */
  function Collect(p: Platform, rows: seq<Row>, mediaId: string): Collected {
    if rows == [] then Collected(None, map[])
    else Add(Collect(p, rows[..|rows| - 1], mediaId), Contribution(p, rows[|rows| - 1], mediaId))
  }

  /** The bytes and type that the rows give for a medium, or nothing: never part of a medium. */
  function Read(p: Platform, rows: seq<Row>, mediaId: string): Option<(seq<Byte>, string)> {
    var c := Collect(p, rows, mediaId);
    if c.meta.None? then None
    else
      var m := c.meta.value;
      if m.chunkCount >= 0 && ChunksMatch(m, c.chunks) && p.sha256(Joined(c.chunks, m.chunkCount)) == m.sha256 then
        Some((Joined(c.chunks, m.chunkCount), m.mime))
      else None
  }

  lemma {:induction false} CollectedMetaIsParsed(p: Platform, rows: seq<Row>, mediaId: string)
    ensures var meta := Collect(p, rows, mediaId).meta;
            meta.Some? ==> exists i :: 0 <= i < |rows| && Contribution(p, rows[i], mediaId) == Some(MetaPart(meta))
    ensures Collect(p, rows, mediaId).meta.Some? ==> WellFormedMeta(Collect(p, rows, mediaId).meta.value)
  {
    if rows != [] {
      var init := rows[..|rows| - 1];
      CollectedMetaIsParsed(p, init, mediaId);
      var meta := Collect(p, rows, mediaId).meta;
      if Collect(p, init, mediaId).meta == meta && meta.Some? {
        var i :| 0 <= i < |init| && Contribution(p, init[i], mediaId) == Some(MetaPart(meta));
        assert rows[i] == init[i];
      }
    }
  }

  method ReadMediaBytes(p: Platform, rows: seq<Row>, mediaId: string) returns (r: Option<(seq<Byte>, string)>)
    ensures r == Read(p, rows, mediaId)
  {
    var meta: Option<Meta> := None;
    var chunks: map<int, seq<Byte>> := map[];
    for i := 0 to |rows|
      invariant Collected(meta, chunks) == Collect(p, rows[..i], mediaId)
    {
      assert rows[..i + 1][..i] == rows[..i];
      var row := rows[i];
      if row.None? { continue; }
      var decoded := PayloadCodec.Decode(p.payloadTypes, row.value);
      if decoded.Err? || decoded.value.TextV1? { continue; }
      var json := p.parse(decoded.value.meta);
      if json.None? || OptString(json.value, "mediaId") != mediaId { continue; }
      var kind := decoded.value.kind;
      if kind == p.attachmentType || kind == p.voiceType {
        var parsed := ParseMeta(p, json.value);
        meta := if parsed.Ok? then Some(parsed.value) else None;
      } else if kind == p.chunkType {
        chunks := chunks[OptInt(p, json.value, "index", -1) := decoded.value.binary];
      }
    }
    assert rows[..|rows|] == rows;
    if meta.None? { return None; }
    CollectedMetaIsParsed(p, rows, mediaId);
    ChunkArithmetic(meta.value.sizeBytes, meta.value.chunkBytes, meta.value.chunkCount);
    var assembled := Assemble(p, meta.value, chunks);
    return if assembled.Ok? then Some((assembled.value, meta.value.mime)) else None;
  }

  /** A non-null answer has exactly the length, type and digest that some row's metadata announced. */
  lemma ReadIsAnnounced(p: Platform, rows: seq<Row>, mediaId: string)
    requires Read(p, rows, mediaId).Some?
    ensures var (bytes, mime) := Read(p, rows, mediaId).value;
            exists i, m :: 0 <= i < |rows| && Contribution(p, rows[i], mediaId) == Some(MetaPart(Some(m)))
              && |bytes| == m.sizeBytes && p.sha256(bytes) == m.sha256 && mime == m.mime
  {
    var c := Collect(p, rows, mediaId);
    CollectedMetaIsParsed(p, rows, mediaId);
    var m := c.meta.value;
    ChunkArithmetic(m.sizeBytes, m.chunkBytes, m.chunkCount);
    JoinedSize(m, c.chunks, m.chunkCount);
    var i :| 0 <= i < |rows| && Contribution(p, rows[i], mediaId) == Some(MetaPart(c.meta));
    assert Contribution(p, rows[i], mediaId) == Some(MetaPart(Some(m)));
  }

  // ---------------------------------------------------------------- the round trip

  /** Everything the rows of a sent medium need in order to be readable again. */
  ghost predicate Sent(p: Platform, piece: MediaPiece, bytes: seq<Byte>, mime: string, extra: JsonObject) {
    && p.Supports() && IsMediaId(piece.mediaId) && p.Accepts(mime, |bytes|)
    && extra.Keys !! CORE_KEYS
    && AllCarried(p, bytes, mime, piece.mediaId, extra)
    && IsPieceOf(p, piece, bytes, mime, extra)
  }

  /** A payload this side wrote is read as what it says. */
  lemma WrittenContributes(p: Platform, kind: string, meta: seq<Byte>, binary: seq<Byte>, mediaId: string)
    requires PayloadCodec.Encodable(p.payloadTypes, kind, meta, binary)
    ensures Contribution(p, Some(PayloadCodec.Written(Utf8.Encode(kind), meta, binary)), mediaId)
         == PartOf(p, PayloadCodec.PayloadV2(kind, meta, binary), mediaId)
  {
    var payload := PayloadCodec.Written(Utf8.Encode(kind), meta, binary);
    PayloadCodec.DecodeOfWritten(p.payloadTypes, kind, meta, binary);
    PayloadCodec.WrittenInParts(Utf8.Encode(kind), meta, binary);
    assert payload[0] == 0;
  }

  lemma MetaContributes(p: Platform, piece: MediaPiece, bytes: seq<Byte>, mime: string, extra: JsonObject)
    requires Sent(p, piece, bytes, mime, extra)
    ensures Contribution(p, Some(piece.metaPayload), piece.mediaId)
         == Some(MetaPart(Some(MetaOf(p, bytes, mime, piece.mediaId))))
  {
    var m := MetaOf(p, bytes, mime, piece.mediaId);
    var o := MetaObject(m, extra);
    LimitsNeverReject(p, bytes, mime, piece.mediaId);
    ParseReadsWhatIsEncoded(p, m, extra);
    WrittenContributes(p, p.EventTypeFor(mime).value, p.printed(o), [], piece.mediaId);
    assert o["mediaId"] == Str(piece.mediaId);
  }

  lemma SmallIntIsKept(n: int)
    requires -0x8000_0000 <= n < 0x8000_0000
    ensures ToInt(n) == n
  {
  }

  lemma ChunkObjectReads(p: Platform, mediaId: string, i: nat)
    requires i < 0x8000_0000
    ensures OptString(ChunkObject(mediaId, i), "mediaId") == mediaId
    ensures OptInt(p, ChunkObject(mediaId, i), "index", -1) == i
  {
    SmallIntIsKept(i);
  }

  lemma ChunkRowContributes(p: Platform, mediaId: string, i: nat, binary: seq<Byte>)
    requires p.Supports() && i < 0x8000_0000 && |binary| <= MAX_CHUNK_BYTES
    requires p.Carries(ChunkObject(mediaId, i))
    ensures var payload := PayloadCodec.Written(Utf8.Encode(p.chunkType), p.printed(ChunkObject(mediaId, i)), binary);
            Contribution(p, Some(payload), mediaId) == Some(ChunkPart(i, binary))
  {
    ChunkObjectReads(p, mediaId, i);
    WrittenContributes(p, p.chunkType, p.printed(ChunkObject(mediaId, i)), binary, mediaId);
  }

  lemma ChunkContributes(p: Platform, piece: MediaPiece, bytes: seq<Byte>, mime: string, extra: JsonObject, i: nat)
    requires Sent(p, piece, bytes, mime, extra)
    requires i < |piece.chunkPayloads|
    ensures i * p.MaxChunkBytesFor(mime) <= |bytes|
    ensures Contribution(p, Some(piece.chunkPayloads[i]), piece.mediaId)
         == Some(ChunkPart(i, Slice(bytes, p.MaxChunkBytesFor(mime), i)))
  {
    var m := MetaOf(p, bytes, mime, piece.mediaId);
    LimitsNeverReject(p, bytes, mime, piece.mediaId);
    SliceFits(bytes, m.chunkBytes, i);
    ChunkRowContributes(p, piece.mediaId, i, Slice(bytes, m.chunkBytes, i));
  }

  lemma SliceFits(bytes: seq<Byte>, chunk: int, i: nat)
    requires chunk > 0 && i * chunk < |bytes|
    ensures |Slice(bytes, chunk, i)| <= chunk
  {
  }

  /** A row that says nothing about the medium, or one of the rows that sending it wrote. */
  ghost predicate Genuine(p: Platform, row: Row, piece: MediaPiece) {
    || Contribution(p, row, piece.mediaId).None?
    || row == Some(piece.metaPayload)
    || (row.Some? && row.value in piece.chunkPayloads)
  }

  /** What has been collected is true of the medium: its own metadata, and its own slices. */
  ghost predicate Faithful(c: Collected, m: Meta, bytes: seq<Byte>) {
    && c.meta in {None, Some(m)}
    && forall i :: i in c.chunks ==> IsSlice(c.chunks[i], bytes, m.chunkBytes, i)
  }

  lemma AddChunk(c: Collected, m: Meta, bytes: seq<Byte>, i: int)
    requires m.chunkBytes > 0 && 0 <= i && i * m.chunkBytes <= |bytes|
    requires Faithful(c, m, bytes)
    ensures Faithful(Add(c, Some(ChunkPart(i, Slice(bytes, m.chunkBytes, i)))), m, bytes)
  {
    assert IsSlice(Slice(bytes, m.chunkBytes, i), bytes, m.chunkBytes, i);
  }

  lemma AddGenuine(p: Platform, c: Collected, row: Row, piece: MediaPiece, bytes: seq<Byte>, mime: string, extra: JsonObject)
    requires Sent(p, piece, bytes, mime, extra)
    requires Genuine(p, row, piece)
    requires Faithful(c, MetaOf(p, bytes, mime, piece.mediaId), bytes)
    ensures var c' := Add(c, Contribution(p, row, piece.mediaId));
            && Faithful(c', MetaOf(p, bytes, mime, piece.mediaId), bytes)
            && (c.meta.Some? || row == Some(piece.metaPayload) ==> c'.meta.Some?)
            && (forall i :: i in c.chunks ==> i in c'.chunks)
  {
    MetaContributes(p, piece, bytes, mime, extra);
    if row.Some? && row.value in piece.chunkPayloads {
      var i :| 0 <= i < |piece.chunkPayloads| && piece.chunkPayloads[i] == row.value;
      ChunkContributes(p, piece, bytes, mime, extra, i);
      AddChunk(c, MetaOf(p, bytes, mime, piece.mediaId), bytes, i);
    }
  }

  lemma ChunkIsCollected(p: Platform, c: Collected, piece: MediaPiece, bytes: seq<Byte>, mime: string, extra: JsonObject, i: nat)
    requires Sent(p, piece, bytes, mime, extra)
    requires i < |piece.chunkPayloads|
    ensures i in Add(c, Contribution(p, Some(piece.chunkPayloads[i]), piece.mediaId)).chunks
  {
    ChunkContributes(p, piece, bytes, mime, extra, i);
  }

  lemma {:induction false} CollectGenuine(
      p: Platform, rows: seq<Row>, piece: MediaPiece, bytes: seq<Byte>, mime: string, extra: JsonObject)
    requires Sent(p, piece, bytes, mime, extra)
    requires forall row :: row in rows ==> Genuine(p, row, piece)
    ensures var c := Collect(p, rows, piece.mediaId);
            && Faithful(c, MetaOf(p, bytes, mime, piece.mediaId), bytes)
            && (Some(piece.metaPayload) in rows ==> c.meta.Some?)
            && (forall i :: 0 <= i < |piece.chunkPayloads| && Some(piece.chunkPayloads[i]) in rows ==> i in c.chunks)
  {
    if rows != [] {
      var init, row := rows[..|rows| - 1], rows[|rows| - 1];
      assert rows == init + [row];
      assert row in rows;
      CollectGenuine(p, init, piece, bytes, mime, extra);
      AddGenuine(p, Collect(p, init, piece.mediaId), row, piece, bytes, mime, extra);
      forall i | 0 <= i < |piece.chunkPayloads| && Some(piece.chunkPayloads[i]) in rows
        ensures i in Collect(p, rows, piece.mediaId).chunks
      {
        if row == Some(piece.chunkPayloads[i]) {
          ChunkIsCollected(p, Collect(p, init, piece.mediaId), piece, bytes, mime, extra, i);
        }
      }
    }
  }

  /** With every chunk present, joining the slices restores the bytes. */
  lemma FaithfulReads(c: Collected, m: Meta, bytes: seq<Byte>)
    requires WellFormedMeta(m) && m.sizeBytes == |bytes|
    requires Faithful(c, m, bytes)
    requires forall i :: 0 <= i < m.chunkCount ==> i in c.chunks
    ensures m.chunkCount >= 1 && ChunksMatch(m, c.chunks) && Joined(c.chunks, m.chunkCount) == bytes
  {
    ChunkArithmetic(m.sizeBytes, m.chunkBytes, m.chunkCount);
    forall i | 0 <= i < m.chunkCount ensures |c.chunks[i]| == ExpectedSize(m, i) {
      assert IsSlice(c.chunks[i], bytes, m.chunkBytes, i);
      OffsetFits(m, i);
    }
    JoinedSlices(bytes, m, c.chunks, m.chunkCount);
    assert bytes[..|bytes|] == bytes;
  }

  /**
   * Among any other rows, in any order and with any repeats, the rows of a sent medium give back its
   * bytes and type.
   */
  lemma SentMediaReadsBack(p: Platform, rows: seq<Row>, piece: MediaPiece, bytes: seq<Byte>, mime: string, extra: JsonObject)
    requires Sent(p, piece, bytes, mime, extra)
    requires forall row :: row in rows ==> Genuine(p, row, piece)
    requires Some(piece.metaPayload) in rows
    requires forall i :: 0 <= i < |piece.chunkPayloads| ==> Some(piece.chunkPayloads[i]) in rows
    ensures Read(p, rows, piece.mediaId) == Some((bytes, mime))
  {
    CollectGenuine(p, rows, piece, bytes, mime, extra);
    FaithfulReads(Collect(p, rows, piece.mediaId), MetaOf(p, bytes, mime, piece.mediaId), bytes);
  }

  // ---------------------------------------------------------------- sending

  /** A thread's rows as they will decrypt, and the number of rows waiting in the outbox. */
  class Thread {
    var rows: seq<Row>
    var outboxSize: nat

    method SealAndEnqueue(payload: seq<Byte>) returns (ok: bool)
      modifies this
      ensures ok <==> old(outboxSize) < MAX_OUTBOX
      ensures ok ==> rows == old(rows) + [Some(payload)] && outboxSize == old(outboxSize) + 1
      ensures !ok ==> unchanged(this)
    {
      if outboxSize >= MAX_OUTBOX { return false; }
      rows := rows + [Some(payload)];
      outboxSize := outboxSize + 1;
      return true;
    }

    method SealChunks(chunks: seq<seq<Byte>>)
      requires outboxSize + |chunks| <= MAX_OUTBOX
      modifies this
      ensures rows == old(rows) + SealedAll(chunks) && outboxSize == old(outboxSize) + |chunks|
    {
      assert SealedAll(chunks[..0]) == [];
      for i := 0 to |chunks|
        invariant rows == old(rows) + SealedAll(chunks[..i])
        invariant outboxSize == old(outboxSize) + i
      {
        var ok := SealAndEnqueue(chunks[i]);
        assert SealedAll(chunks[..i + 1]) == SealedAll(chunks[..i]) + [Some(chunks[i])];
      }
      assert chunks[..|chunks|] == chunks;
    }

    /** Either every row of the medium is written, metadata first, or none is. */
    method SendMedia(p: Platform, bytes: seq<Byte>, mime: string, mediaId: string, extra: JsonObject, peerAccepts: bool)
      returns (r: Result<MediaPiece>)
      requires p.Supports() && IsMediaId(mediaId)
      modifies this
      ensures r.Err? ==> unchanged(this)
      ensures !peerAccepts ==> r == Err("chat_pc_sans_pieces_jointes")
      ensures (&& peerAccepts && p.Accepts(mime, |bytes|) && AllCarried(p, bytes, mime, mediaId, extra)
               && old(outboxSize) + CeilDiv(|bytes|, p.MaxChunkBytesFor(mime)) + 1 >= 5_000) ==> r == Err("chat_outbox_pleine")
      ensures r.Ok? ==> p.Accepts(mime, |bytes|) && r.value.mediaId == mediaId && IsPieceOf(p, r.value, bytes, mime, extra)
      ensures r.Ok? ==> rows == old(rows) + [Some(r.value.metaPayload)] + SealedAll(r.value.chunkPayloads)
      ensures r.Ok? ==> outboxSize == old(outboxSize) + |r.value.chunkPayloads| + 1 < MAX_OUTBOX
      ensures (&& peerAccepts && p.Accepts(mime, |bytes|) && AllCarried(p, bytes, mime, mediaId, extra)
               && old(outboxSize) + CeilDiv(|bytes|, p.MaxChunkBytesFor(mime)) + 1 < MAX_OUTBOX) ==> r.Ok?
    {
      if !peerAccepts { return Err("chat_pc_sans_pieces_jointes"); }
      var piece := Chunk(p, bytes, mime, mediaId, extra);
      if piece.Err? { return piece; }
      var chunks := piece.value.chunkPayloads;
      if !(outboxSize + |chunks| + 1 < MAX_OUTBOX) { return Err("chat_outbox_pleine"); }
      var ok := SealAndEnqueue(piece.value.metaPayload);
      SealChunks(chunks);
      return piece;
    }
  }

  function SealedAll(payloads: seq<seq<Byte>>): seq<Row> {
    seq(|payloads|, i requires 0 <= i < |payloads| => Some(payloads[i]))
  }

  /** `sendMedia` then `readMediaBytes`: the thread as sending left it gives the medium back. */
  lemma SendThenRead(
      p: Platform, before: seq<Row>, after: seq<Row>, piece: MediaPiece, bytes: seq<Byte>, mime: string, extra: JsonObject)
    requires Sent(p, piece, bytes, mime, extra)
    requires forall row :: row in before || row in after ==> Contribution(p, row, piece.mediaId).None?
    ensures Read(p, before + [Some(piece.metaPayload)] + SealedAll(piece.chunkPayloads) + after, piece.mediaId)
         == Some((bytes, mime))
  {
    var sealed := SealedAll(piece.chunkPayloads);
    var rows := before + [Some(piece.metaPayload)] + sealed + after;
    assert rows[|before|] == Some(piece.metaPayload);
    forall i | 0 <= i < |piece.chunkPayloads| ensures Some(piece.chunkPayloads[i]) in rows {
      assert rows[|before| + 1 + i] == sealed[i];
    }
    forall row | row in rows ensures Genuine(p, row, piece) {
      if row in sealed {
        var i :| 0 <= i < |sealed| && sealed[i] == row;
        assert row.value == piece.chunkPayloads[i];
      }
    }
    SentMediaReadsBack(p, rows, piece, bytes, mime, extra);
  }

  // ---------------------------------------------------------------- the last row counts
  ghost predicate SaysMeta(p: Platform, row: Row, mediaId: string) {
    Contribution(p, row, mediaId).Some? && Contribution(p, row, mediaId).value.MetaPart?
  }

  ghost predicate SaysChunk(p: Platform, row: Row, mediaId: string, k: int) {
    && Contribution(p, row, mediaId).Some? && Contribution(p, row, mediaId).value.ChunkPart?
    && Contribution(p, row, mediaId).value.index == k
  }

  /** Without a metadata row there is no metadata. */
  lemma {:induction false} NoMetaIsMissing(p: Platform, rows: seq<Row>, mediaId: string)
    requires forall row :: row in rows ==> !SaysMeta(p, row, mediaId)
    ensures Collect(p, rows, mediaId).meta == None
  {
    if rows != [] {
      assert rows[|rows| - 1] in rows;
      NoMetaIsMissing(p, rows[..|rows| - 1], mediaId);
    }
  }

  /** Of several metadata rows the last one counts, even when it is not valid and an earlier one is. */
  lemma {:induction false} LastMetaCounts(p: Platform, rows: seq<Row>, mediaId: string, i: nat)
    requires i < |rows| && SaysMeta(p, rows[i], mediaId)
    requires forall j :: i < j < |rows| ==> !SaysMeta(p, rows[j], mediaId)
    ensures Contribution(p, rows[i], mediaId) == Some(MetaPart(Collect(p, rows, mediaId).meta))
  {
    var init := rows[..|rows| - 1];
    if i < |init| {
      assert init[i] == rows[i] && !SaysMeta(p, rows[|init|], mediaId);
      LastMetaCounts(p, init, mediaId, i);
    }
  }

  /** A chunk that no row carries is missing. */
  lemma {:induction false} UncarriedChunkIsMissing(p: Platform, rows: seq<Row>, mediaId: string, k: int)
    requires forall row :: row in rows ==> !SaysChunk(p, row, mediaId, k)
    ensures k !in Collect(p, rows, mediaId).chunks
  {
    if rows != [] {
      assert rows[|rows| - 1] in rows;
      UncarriedChunkIsMissing(p, rows[..|rows| - 1], mediaId, k);
    }
  }

  /** Of several rows for one chunk the last one counts. */
  lemma {:induction false} LastChunkCounts(p: Platform, rows: seq<Row>, mediaId: string, k: int, i: nat)
    requires i < |rows| && SaysChunk(p, rows[i], mediaId, k)
    requires forall j :: i < j < |rows| ==> !SaysChunk(p, rows[j], mediaId, k)
    ensures k in Collect(p, rows, mediaId).chunks
    ensures Contribution(p, rows[i], mediaId) == Some(ChunkPart(k, Collect(p, rows, mediaId).chunks[k]))
  {
    var init := rows[..|rows| - 1];
    if i < |init| {
      assert init[i] == rows[i] && !SaysChunk(p, rows[|init|], mediaId, k);
      LastChunkCounts(p, init, mediaId, k, i);
    }
  }

  lemma {:induction false} JoinedIgnoresNegative(chunks: map<int, seq<Byte>>, k: int, binary: seq<Byte>, n: nat)
    requires k < 0
    ensures Joined(chunks[k := binary], n) == Joined(chunks, n)
  {
    if n > 0 { JoinedIgnoresNegative(chunks, k, binary, n - 1); }
  }

  /** A chunk row without an index changes nothing of what the rows before it give. */
  lemma UnindexedChunkIsIgnored(p: Platform, rows: seq<Row>, o: JsonObject, meta: seq<Byte>, binary: seq<Byte>, mediaId: string)
    requires PayloadCodec.Encodable(p.payloadTypes, p.chunkType, meta, binary) && p.parse(meta) == Some(o)
    requires "index" !in o && p.chunkType != p.attachmentType && p.chunkType != p.voiceType
    ensures Read(p, rows + [Some(PayloadCodec.Written(Utf8.Encode(p.chunkType), meta, binary))], mediaId) == Read(p, rows, mediaId)
  {
    var row := Some(PayloadCodec.Written(Utf8.Encode(p.chunkType), meta, binary));
    var all, c := rows + [row], Collect(p, rows, mediaId);
    assert all[..|all| - 1] == rows;
    WrittenContributes(p, p.chunkType, meta, binary, mediaId);
    if Contribution(p, row, mediaId).Some? {
      assert Collect(p, all, mediaId) == c.(chunks := c.chunks[-1 := binary]);
      if c.meta.Some? && c.meta.value.chunkCount >= 0 {
        JoinedIgnoresNegative(c.chunks, -1, binary, c.meta.value.chunkCount);
        ChunksIgnoreNegative(c.meta.value, c.chunks, binary);
      }
    }
  }

  lemma ChunksIgnoreNegative(m: Meta, chunks: map<int, seq<Byte>>, binary: seq<Byte>)
    ensures ChunksMatch(m, chunks[-1 := binary]) <==> ChunksMatch(m, chunks)
  {
    var more := chunks[-1 := binary];
    forall i | 0 <= i < m.chunkCount
      ensures (i in more && |more[i]| == ExpectedSize(m, i)) <==> (i in chunks && |chunks[i]| == ExpectedSize(m, i))
    {
    }
  }

  /** A row names its medium by text, or by a number that prints as it. */
  lemma NamesItsMedium(p: Platform, kind: string, o: JsonObject, meta: seq<Byte>, binary: seq<Byte>, mediaId: string)
    requires PayloadCodec.Encodable(p.payloadTypes, kind, meta, binary) && p.parse(meta) == Some(o) && "mediaId" in o
    requires kind in {p.attachmentType, p.voiceType, p.chunkType}
    ensures var row := Some(PayloadCodec.Written(Utf8.Encode(kind), meta, binary));
            && (o["mediaId"].Str? ==> (Contribution(p, row, mediaId).Some? <==> o["mediaId"].text == mediaId))
            && (o["mediaId"].Num? ==> (Contribution(p, row, mediaId).Some? <==> Decimal.Int(o["mediaId"].number) == mediaId))
  {
    WrittenContributes(p, kind, meta, binary, mediaId);
  }

  // ---------------------------------------------------------------- several media in one thread
  datatype Shipment = Shipment(piece: MediaPiece, bytes: seq<Byte>, mime: string, extra: JsonObject)

  ghost predicate Shipped(p: Platform, x: Shipment) { Sent(p, x.piece, x.bytes, x.mime, x.extra) }

  /** One of the rows that sending the medium wrote. */
  predicate IsRowOf(row: Row, x: Shipment) {
    row == Some(x.piece.metaPayload) || (row.Some? && row.value in x.piece.chunkPayloads)
  }

  lemma WrittenIsSilentElsewhere(p: Platform, kind: string, o: JsonObject, binary: seq<Byte>, mediaId: string, other: string)
    requires PayloadCodec.Encodable(p.payloadTypes, kind, p.printed(o), binary) && p.Carries(o)
    requires OptString(o, "mediaId") == mediaId != other
    ensures Contribution(p, Some(PayloadCodec.Written(Utf8.Encode(kind), p.printed(o), binary)), other) == None
  {
    WrittenContributes(p, kind, p.printed(o), binary, other);
  }

  /** The rows of a medium say nothing about any other medium. */
  lemma RowIsSilentElsewhere(p: Platform, x: Shipment, row: Row, other: string)
    requires Shipped(p, x) && IsRowOf(row, x) && other != x.piece.mediaId
    ensures Contribution(p, row, other) == None
  {
    var m := MetaOf(p, x.bytes, x.mime, x.piece.mediaId);
    if row == Some(x.piece.metaPayload) {
      var o := MetaObject(m, x.extra);
      assert o["mediaId"] == Str(x.piece.mediaId);
      WrittenIsSilentElsewhere(p, p.EventTypeFor(x.mime).value, o, [], x.piece.mediaId, other);
    } else {
      var i :| 0 <= i < |x.piece.chunkPayloads| && x.piece.chunkPayloads[i] == row.value;
      SliceFits(x.bytes, m.chunkBytes, i);
      WrittenIsSilentElsewhere(p, p.chunkType, ChunkObject(x.piece.mediaId, i), Slice(x.bytes, m.chunkBytes, i),
                               x.piece.mediaId, other);
    }
  }

  /** The row belongs to one of the media, or says nothing about any. */
  ghost predicate RowOfSome(p: Platform, row: Row, media: seq<Shipment>, mediaId: string) {
    Contribution(p, row, mediaId).None? || exists j :: 0 <= j < |media| && IsRowOf(row, media[j])
  }

  /**
   * Any number of media sent into one thread, their rows mixed in any order, with repeats and among rows
   * that say nothing about them: each medium all of whose rows are there reads back as itself.
   */
  lemma EachMediumReadsBack(p: Platform, rows: seq<Row>, media: seq<Shipment>, k: nat)
    requires k < |media| && forall j :: 0 <= j < |media| ==> Shipped(p, media[j])
    requires forall j :: 0 <= j < |media| && j != k ==> media[j].piece.mediaId != media[k].piece.mediaId
    requires forall row :: row in rows ==> RowOfSome(p, row, media, media[k].piece.mediaId)
    requires Some(media[k].piece.metaPayload) in rows
    requires forall i :: 0 <= i < |media[k].piece.chunkPayloads| ==> Some(media[k].piece.chunkPayloads[i]) in rows
    ensures Read(p, rows, media[k].piece.mediaId) == Some((media[k].bytes, media[k].mime))
  {
    var x := media[k];
    forall row | row in rows ensures Genuine(p, row, x.piece) {
      assert RowOfSome(p, row, media, x.piece.mediaId);
      if j :| 0 <= j < |media| && IsRowOf(row, media[j]) {
        if j != k { RowIsSilentElsewhere(p, media[j], row, x.piece.mediaId); }
      }
    }
    SentMediaReadsBack(p, rows, x.piece, x.bytes, x.mime, x.extra);
  }
}
