/**
 * From microphone to reader: PCM packets captured and sealed, turned into events over any number of
 * failing attempts, and read back from the thread.
 */
module VoiceDelivery {
  import opened Basics
  import opened Media
  import MediaThread
  import PayloadCodec
  import Utf8
  import opened VoiceCapture
  import VoiceEnqueue

  /** What an attempt seals: the metadata of the capture, and each chunk as it reads back. */
  ghost predicate IsVoicePiece(
    p: Platform, files: Directory, a: Attachment, mime: string, extra: JsonObject, piece: MediaPiece)
  {
    && p.IsPcm(mime)
    && piece.mediaId == a.mediaId
    && piece.metaPayload == MetaPayload(p, a, mime, extra)
    && |piece.chunkPayloads| == a.chunkCount
    && forall i :: 0 <= i < a.chunkCount ==>
         ReadChunk(files, a, i).Ok? && Some(piece.chunkPayloads[i]) == ChunkPart(p, files, a, i)
  }

  lemma {:induction false} PacketIsSlice(packets: seq<seq<Byte>>, n: nat, i: nat)
    requires i < n <= |packets| && AllButLastFull(packets)
    requires forall k :: 0 <= k < |packets| ==> IsPacket(packets[k])
    ensures i * CHUNK_BYTES < |Concat(packets[..n])| && packets[i] == Slice(Concat(packets[..n]), CHUNK_BYTES, i)
  {
    assert packets[..n][..n - 1] == packets[..n - 1];
    FullPrefixSize(packets, n - 1);
    assert IsPacket(packets[n - 1]) && IsPacket(packets[i]);
    if i < n - 1 {
      PacketIsSlice(packets, n - 1, i);
      FullPrefixSize(packets, i);
      assert (i + 1) * CHUNK_BYTES <= (n - 1) * CHUNK_BYTES;
    }
  }

  ghost predicate IsCapture(files: Directory, a: Attachment, packets: seq<seq<Byte>>) {
    && Describes(a, packets) && Holds(files, a.mediaId, a.keyEpoch, packets)
    && (forall i :: 0 <= i < |packets| ==> IsPacket(packets[i]))
    && |Concat(packets)| <= MAX_BYTES
  }

  lemma VoiceMeta(p: Platform, files: Directory, a: Attachment, packets: seq<seq<Byte>>, mime: string)
    requires IsCapture(files, a, packets) && AllButLastFull(packets) && p.IsPcm(mime)
    ensures MetaOf(p, Concat(packets), mime, a.mediaId)
         == Meta(a.mediaId, mime, a.sizeBytes, p.sha256(a.digestOf), a.chunkCount, a.chunkBytes)
  {
    CaptureRoundTrip(files, a, packets);
  }

  lemma VoiceChunk(
      p: Platform, files: Directory, a: Attachment, packets: seq<seq<Byte>>, mime: string, extra: JsonObject, piece: MediaPiece,
      i: nat)
    requires IsCapture(files, a, packets) && AllButLastFull(packets) && IsVoicePiece(p, files, a, mime, extra, piece)
    requires i < |packets|
    ensures i * CHUNK_BYTES < |Concat(packets)|
    ensures piece.chunkPayloads[i] == ChunkPayload(p, Concat(packets), CHUNK_BYTES, a.mediaId, i)
  {
    assert packets[..|packets|] == packets;
    PacketIsSlice(packets, |packets|, i);
    ReadableExactlyWhenFull(files, a, packets);
  }

  /** A capture that can be read at all is announced and cut as a medium sent in one piece would be. */
  lemma VoicePieceIsPiece(
      p: Platform, files: Directory, a: Attachment, packets: seq<seq<Byte>>, mime: string, extra: JsonObject, piece: MediaPiece)
    requires IsCapture(files, a, packets) && IsVoicePiece(p, files, a, mime, extra, piece)
    ensures IsPieceOf(p, piece, Concat(packets), mime, extra)
  {
    assert AllReadable(files, a);
    ReadableExactlyWhenFull(files, a, packets);
    VoiceMeta(p, files, a, packets, mime);
    assert p.EventTypeFor(mime) == Ok(p.voiceType);
    forall i | 0 <= i < a.chunkCount
      ensures i * CHUNK_BYTES < |Concat(packets)|
      ensures piece.chunkPayloads[i] == ChunkPayload(p, Concat(packets), CHUNK_BYTES, piece.mediaId, i)
    {
      VoiceChunk(p, files, a, packets, mime, extra, piece, i);
    }
  }

  ghost predicate RowsExist(s: VoiceEnqueue.State) {
    forall id :: id in s.journal <==> id in s.events
  }

  ghost function RowsOf(s: VoiceEnqueue.State): seq<MediaThread.Row>
    requires RowsExist(s)
  {
    seq(|s.journal|, i requires 0 <= i < |s.journal| => s.events[s.journal[i]])
  }

  lemma RowIsThere(s: VoiceEnqueue.State, id: string)
    requires RowsExist(s) && id in s.events
    ensures s.events[id] in RowsOf(s)
  {
    assert id in s.journal;
    var i :| 0 <= i < |s.journal| && s.journal[i] == id;
    assert RowsOf(s)[i] == s.events[id];
  }

  /** The payloads of a piece as they are sealed: metadata, then chunks. */
  function PartsOfPiece(piece: MediaPiece): seq<MediaThread.Row> {
    [Some(piece.metaPayload)] + MediaThread.SealedAll(piece.chunkPayloads)
  }

  lemma RowIsGenuine(p: Platform, s: VoiceEnqueue.State, piece: MediaPiece, row: MediaThread.Row)
    requires VoiceEnqueue.Inv(PartsOfPiece(piece), s) && VoiceEnqueue.Delivered(PartsOfPiece(piece), s)
    requires OthersSilent(p, s, piece.mediaId)
    requires row in RowsOf(s)
    ensures MediaThread.Genuine(p, row, piece)
  {
    var i :| 0 <= i < |RowsOf(s)| && RowsOf(s)[i] == row;
    var id := s.journal[i];
    assert id in s.events;
    if id in s.reserved {
      VoiceEnqueue.OnlyHolds(s.journal, s.reserved, id);
      var k :| 0 <= k < |s.plan| && s.plan[k] == id;
      assert row == PartsOfPiece(piece)[k];
      if k > 0 { assert row == Some(piece.chunkPayloads[k - 1]); }
    }
  }

  /** Nothing else in the thread claims to belong to this medium. */
  ghost predicate OthersSilent(p: Platform, s: VoiceEnqueue.State, mediaId: string) {
    forall id :: id in s.events && id !in s.reserved ==> MediaThread.Contribution(p, s.events[id], mediaId).None?
  }

  /** `rows` is the thread as it is read, in whatever order its rows come. */
  lemma DeliveredReadsBack(
      p: Platform, s: VoiceEnqueue.State, piece: MediaPiece, bytes: seq<Byte>, mime: string, extra: JsonObject,
      rows: seq<MediaThread.Row>)
    requires MediaThread.Sent(p, piece, bytes, mime, extra)
    requires VoiceEnqueue.Inv(PartsOfPiece(piece), s) && VoiceEnqueue.Delivered(PartsOfPiece(piece), s)
    requires OthersSilent(p, s, piece.mediaId)
    requires forall row :: row in rows <==> row in RowsOf(s)
    ensures MediaThread.Read(p, rows, piece.mediaId) == Some((bytes, mime))
  {
    forall row | row in rows ensures MediaThread.Genuine(p, row, piece) {
      RowIsGenuine(p, s, piece, row);
    }
    PartsAreRows(s, piece);
    MediaThread.SentMediaReadsBack(p, rows, piece, bytes, mime, extra);
  }

  lemma PartsAreRows(s: VoiceEnqueue.State, piece: MediaPiece)
    requires VoiceEnqueue.Inv(PartsOfPiece(piece), s) && VoiceEnqueue.Delivered(PartsOfPiece(piece), s)
    ensures Some(piece.metaPayload) in RowsOf(s)
    ensures forall i :: 0 <= i < |piece.chunkPayloads| ==> Some(piece.chunkPayloads[i]) in RowsOf(s)
  {
    var parts := PartsOfPiece(piece);
    assert parts[0] == Some(piece.metaPayload);
    RowIsThere(s, s.plan[0]);
    forall i | 0 <= i < |piece.chunkPayloads| ensures Some(piece.chunkPayloads[i]) in RowsOf(s) {
      assert parts[i + 1] == Some(piece.chunkPayloads[i]);
      RowIsThere(s, s.plan[i + 1]);
    }
  }

  // ---------------------------------------------------------------- from the capture to the reader

  function MetaPayload(p: Platform, a: Attachment, mime: string, extra: JsonObject): seq<Byte> {
    PayloadCodec.Written(
      Utf8.Encode(p.voiceType),
      p.printed(MetaObject(Meta(a.mediaId, mime, a.sizeBytes, p.sha256(a.digestOf), a.chunkCount, a.chunkBytes), extra)), [])
  }

  /** What sending chunk `i` seals: nothing when it does not read back. */
  function ChunkPart(p: Platform, files: Directory, a: Attachment, i: nat): MediaThread.Row {
    var chunk := ReadChunk(files, a, i);
    if chunk.Err? then None
    else Some(PayloadCodec.Written(Utf8.Encode(p.chunkType), p.printed(ChunkObject(a.mediaId, i)), chunk.value))
  }

  /** What an attempt to send the capture has to seal. */
  function PartsOf(p: Platform, files: Directory, a: Attachment, mime: string, extra: JsonObject): seq<MediaThread.Row>
    requires a.chunkCount >= 0
  {
    [Some(MetaPayload(p, a, mime, extra))]
    + seq(a.chunkCount, i requires 0 <= i < a.chunkCount => ChunkPart(p, files, a, i))
  }

  lemma DeliveredIsReadable(p: Platform, files: Directory, a: Attachment, mime: string, extra: JsonObject, s: VoiceEnqueue.State)
    requires a.chunkCount >= 0 && VoiceEnqueue.Delivered(PartsOf(p, files, a, mime, extra), s)
    ensures AllReadable(files, a)
  {
    var parts := PartsOf(p, files, a, mime, extra);
    forall i | 0 <= i < a.chunkCount ensures ReadChunk(files, a, i).Ok? {
      assert parts[i + 1] == ChunkPart(p, files, a, i);
    }
  }

  /** The piece that a readable capture amounts to. */
  function PieceOf(p: Platform, files: Directory, a: Attachment, mime: string, extra: JsonObject): MediaPiece
    requires a.chunkCount >= 0 && AllReadable(files, a)
  {
    MediaPiece(a.mediaId, MetaPayload(p, a, mime, extra),
               seq(a.chunkCount, i requires 0 <= i < a.chunkCount => ChunkPart(p, files, a, i).value))
  }

  lemma PieceHasTheParts(p: Platform, files: Directory, a: Attachment, mime: string, extra: JsonObject)
    requires a.chunkCount >= 0 && AllReadable(files, a) && p.IsPcm(mime)
    ensures IsVoicePiece(p, files, a, mime, extra, PieceOf(p, files, a, mime, extra))
    ensures PartsOfPiece(PieceOf(p, files, a, mime, extra)) == PartsOf(p, files, a, mime, extra)
  {
    var piece, parts := PieceOf(p, files, a, mime, extra), PartsOf(p, files, a, mime, extra);
    forall i | 0 <= i < a.chunkCount ensures MediaThread.SealedAll(piece.chunkPayloads)[i] == parts[i + 1] {
    }
    assert PartsOfPiece(piece) == parts;
  }

  /** Every part can be sealed exactly when every packet but the last is full. */
  lemma SealableExactlyWhenFull(
      p: Platform, files: Directory, a: Attachment, packets: seq<seq<Byte>>, mime: string, extra: JsonObject)
    requires IsCapture(files, a, packets)
    ensures var parts := PartsOf(p, files, a, mime, extra);
            (forall i :: 0 <= i < |parts| ==> parts[i].Some?) <==> AllButLastFull(packets)
  {
    var parts := PartsOf(p, files, a, mime, extra);
    ReadableExactlyWhenFull(files, a, packets);
    assert forall i :: 0 < i < |parts| ==> parts[i] == ChunkPart(p, files, a, i - 1);
    forall i | 0 <= i < a.chunkCount ensures parts[i + 1].Some? <==> ReadChunk(files, a, i).Ok? {
      assert parts[i + 1] == ChunkPart(p, files, a, i);
    }
  }

  /** A capture with a short packet before its last: no run succeeds, and its files are never deleted. */
  lemma ShortCaptureIsNeverSent(
      p: Platform, files: Directory, a: Attachment, packets: seq<seq<Byte>>, mime: string, extra: JsonObject,
      start: VoiceEnqueue.State, ops: seq<VoiceEnqueue.Op>)
    requires IsCapture(files, a, packets) && !AllButLastFull(packets)
    requires var parts := PartsOf(p, files, a, mime, extra);
             VoiceEnqueue.Inv(parts, start) && VoiceEnqueue.AllAllowed(parts, start, ops)
    ensures var s := VoiceEnqueue.RunAll(PartsOf(p, files, a, mime, extra), start, ops);
            !s.pc.Done? && s.files
  {
    var parts := PartsOf(p, files, a, mime, extra);
    ReadableExactlyWhenFull(files, a, packets);
    VoiceEnqueue.RunKeepsInv(parts, start, ops);
    var s := VoiceEnqueue.RunAll(parts, start, ops);
    if s.pc.Done? || !s.files { DeliveredIsReadable(p, files, a, mime, extra, s); }
  }

  /**
   * However many attempts failed, and wherever: once one succeeds, reading the medium from the thread,
   * in whatever order its rows come, gives back the PCM that was appended, in the announced type,
   * whatever else the thread holds.
   */
  lemma VoiceNoteArrives(
      p: Platform, files: Directory, a: Attachment, packets: seq<seq<Byte>>, mime: string, extra: JsonObject,
      start: VoiceEnqueue.State, ops: seq<VoiceEnqueue.Op>, rows: seq<MediaThread.Row>)
    requires IsCapture(files, a, packets) && p.IsPcm(mime)
    requires p.Supports() && IsMediaId(a.mediaId) && extra.Keys !! CORE_KEYS
    requires AllCarried(p, Concat(packets), mime, a.mediaId, extra)
    requires var parts := PartsOf(p, files, a, mime, extra);
             && VoiceEnqueue.Inv(parts, start) && VoiceEnqueue.AllAllowed(parts, start, ops)
             && var s := VoiceEnqueue.RunAll(parts, start, ops);
                && s.pc.Done? && OthersSilent(p, s, a.mediaId)
                && RowsExist(s) && forall row :: row in rows <==> row in RowsOf(s)
    ensures MediaThread.Read(p, rows, a.mediaId) == Some((Concat(packets), mime))
  {
    var parts := PartsOf(p, files, a, mime, extra);
    VoiceEnqueue.RunKeepsInv(parts, start, ops);
    var s := VoiceEnqueue.RunAll(parts, start, ops);
    DeliveredIsReadable(p, files, a, mime, extra, s);
    PieceHasTheParts(p, files, a, mime, extra);
    var piece := PieceOf(p, files, a, mime, extra);
    VoicePieceIsPiece(p, files, a, packets, mime, extra, piece);
    ConcatIsEven(packets);
    DeliveredReadsBack(p, s, piece, Concat(packets), mime, extra, rows);
  }
}
