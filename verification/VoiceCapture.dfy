/**
 * The encrypted voice capture: PCM packets sealed one by one into files, then read back by index.
 * The directory of a capture is a map from chunk index to sealed packet; sealing is ideal, and opens
 * only under the epoch, medium and index it was made for. Whether a write succeeds is an input.
 */
module VoiceCapture {
  import opened Basics
  import Media

  const CHUNK_BYTES := 32_000
  const BYTES_PER_SAMPLE := 2
  const MAX_BYTES := 52_428_800
  const MIN_DURATION_MS := 300
  const MAX_DURATION_MS := 1_800_000

  datatype Sealed = Sealed(epoch: int, mediaId: string, part: nat, plaintext: seq<Byte>)

  type Directory = map<nat, Sealed>

  datatype Attachment = Attachment(
    mediaId: string, keyEpoch: int, sizeBytes: int, digestOf: seq<Byte>, chunkCount: int, chunkBytes: int, durationMs: int)

  function Concat(packets: seq<seq<Byte>>): seq<Byte> {
    if packets == [] then [] else Concat(packets[..|packets| - 1]) + packets[|packets| - 1]
  }

  ghost predicate IsPacket(packet: seq<Byte>) {
    1 <= |packet| <= CHUNK_BYTES && |packet| % BYTES_PER_SAMPLE == 0
  }

  /** The directory holds exactly these packets, each sealed for its own place. */
  ghost predicate Holds(files: Directory, mediaId: string, epoch: int, packets: seq<seq<Byte>>) {
    && (forall i :: i in files <==> 0 <= i < |packets|)
    && forall i :: 0 <= i < |packets| ==> files[i] == Sealed(epoch, mediaId, i, packets[i])
  }

  /** Opens chunk `index`, and insists on the size that the attachment's layout gives it. */
  function ReadChunk(files: Directory, a: Attachment, index: int): Result<seq<Byte>> {
    if !(0 <= index < a.chunkCount) then Err("voice_chunk_index_invalide")
    else if index !in files then Err("io")
    else
      var file := files[index];
      var expected := if index == a.chunkCount - 1 then a.sizeBytes - index * a.chunkBytes else a.chunkBytes;
      if |file.plaintext| == 0 then Err("voice_chunk_chiffre_invalide")
      else if !(file.epoch == a.keyEpoch && file.mediaId == a.mediaId && file.part == index) then Err("aead")
      else if |file.plaintext| != expected then Err("voice_chunk_taille_invalide")
      else Ok(file.plaintext)
  }

  /** A chunk reads back exactly as the packet sealed for this very place, when it has the announced size. */
  lemma ReadsExactlyItsOwn(files: Directory, a: Attachment, index: int, packet: seq<Byte>)
    ensures ReadChunk(files, a, index) == Ok(packet) <==>
            && 0 <= index < a.chunkCount && index in files
            && files[index] == Sealed(a.keyEpoch, a.mediaId, index, packet) && packet != []
            && |packet| == if index < a.chunkCount - 1 then a.chunkBytes else a.sizeBytes - index * a.chunkBytes
  {
  }

  method ZeroFront(buffer: array<Byte>, n: nat)
    requires n <= buffer.Length
    modifies buffer
    ensures buffer[..] == seq(n, _ => 0) + old(buffer[n..])
  {
    forall i | 0 <= i < n { buffer[i] := 0; }
  }

  class Capture {
    const mediaId: string
    const keyEpoch: int
    var files: Directory
    var digest: seq<Byte>
    var sizeBytes: int
    var chunkCount: int
    var completed: bool
    var discarded: bool
    ghost var packets: seq<seq<Byte>>

    ghost predicate Valid()
      reads this
    {
      && (discarded ==> files == map[])
      && (!discarded ==>
            && Holds(files, mediaId, keyEpoch, packets)
            && chunkCount == |packets| && digest == Concat(packets) && sizeBytes == |digest|)
      && (forall i :: 0 <= i < |packets| ==> IsPacket(packets[i]))
      && 0 <= sizeBytes <= MAX_BYTES
    }

    ghost predicate Open()
      reads this
    {
      !completed && !discarded
    }

    constructor (mediaId: string, keyEpoch: int)
      ensures Valid() && Open() && packets == []
      ensures this.mediaId == mediaId && this.keyEpoch == keyEpoch
    {
      this.mediaId, this.keyEpoch := mediaId, keyEpoch;
      files, digest, sizeBytes, chunkCount := map[], [], 0, 0;
      completed, discarded, packets := false, false, [];
    }

    method DiscardInternal()
      requires Valid()
      modifies this`discarded, this`files
      ensures Valid() && discarded && files == map[]
    {
      discarded := true;
      files := map[];
    }

    /** Closing without a result: also deletes a capture that had been completed. */
    method Discard()
      requires Valid()
      modifies this`discarded, this`files
      ensures Valid() && discarded && files == map[]
    {
      if !discarded { DiscardInternal(); }
    }

    /**
     * Whatever happens, the caller's packet is zeroed and the rest of its buffer is left alone. An
     * error on an open capture discards it; on a closed one it changes nothing.
     */
    method Append(buffer: array<Byte>, byteCount: int, chunkWritten: bool, manifestWritten: bool) returns (r: Result<()>)
      requires Valid()
      modifies this`files, this`digest, this`sizeBytes, this`chunkCount, this`discarded, this`packets, buffer
      ensures Valid()
      ensures 0 <= byteCount <= buffer.Length ==> buffer[..] == seq(byteCount, _ => 0) + old(buffer[byteCount..])
      ensures !(0 <= byteCount <= buffer.Length) ==> buffer[..] == old(buffer[..])
      ensures r.Ok? <==> (&& old(Open()) && 1 <= byteCount <= buffer.Length && byteCount <= CHUNK_BYTES
                          && byteCount % BYTES_PER_SAMPLE == 0 && old(sizeBytes) + byteCount <= MAX_BYTES
                          && chunkWritten && manifestWritten)
      ensures r.Ok? ==> Open() && packets == old(packets) + [old(buffer[..byteCount])]
      ensures r.Err? && old(Open()) ==> discarded
      ensures r.Err? && !old(Open()) ==>
        files == old(files) && packets == old(packets) && discarded == old(discarded) && sizeBytes == old(sizeBytes)
    {
      r := TryAppend(buffer, byteCount, chunkWritten, manifestWritten);
      if r.Err? && !completed && !discarded {
        DiscardInternal();
      }
      if 0 <= byteCount <= buffer.Length {
        ZeroFront(buffer, byteCount);
      }
    }

    method TryAppend(buffer: array<Byte>, byteCount: int, chunkWritten: bool, manifestWritten: bool) returns (r: Result<()>)
      requires Valid()
      modifies this`files, this`digest, this`sizeBytes, this`chunkCount, this`packets
      ensures Valid()
      ensures r.Ok? <==> (&& Open() && 1 <= byteCount <= buffer.Length && byteCount <= CHUNK_BYTES
                          && byteCount % BYTES_PER_SAMPLE == 0 && old(sizeBytes) + byteCount <= MAX_BYTES
                          && chunkWritten && manifestWritten)
      ensures r.Ok? ==> packets == old(packets) + [buffer[..byteCount]]
      ensures r.Err? && !Open() ==> files == old(files) && packets == old(packets) && sizeBytes == old(sizeBytes)
    {
      if discarded { return Err("voice_capture_abandonnee"); }
      if completed { return Err("voice_capture_terminee"); }
      if !(1 <= byteCount <= buffer.Length) { return Err("voice_buffer_invalide"); }
      if byteCount > CHUNK_BYTES { return Err("voice_chunk_trop_grand"); }
      if byteCount % BYTES_PER_SAMPLE != 0 { return Err("voice_pcm_invalide"); }
      if sizeBytes > MAX_BYTES - byteCount { return Err("voice_trop_gros"); }
      if !chunkWritten { return Err("io"); }
      Record(buffer[..byteCount]);
      if !manifestWritten { return Err("io"); }
      return Ok(());
    }

    method Record(packet: seq<Byte>)
      requires Valid() && !discarded && IsPacket(packet) && sizeBytes + |packet| <= MAX_BYTES
      modifies this`files, this`digest, this`sizeBytes, this`chunkCount, this`packets
      ensures Valid() && packets == old(packets) + [packet]
    {
      files := files[chunkCount := Sealed(keyEpoch, mediaId, chunkCount, packet)];
      digest := digest + packet;
      sizeBytes := sizeBytes + |packet|;
      chunkCount := chunkCount + 1;
      packets := packets + [packet];
      assert packets[..|packets| - 1] == old(packets);
    }

    /** A completed capture keeps its packets; a failed completion discards them. */
    method Complete(durationMs: int, manifestWritten: bool) returns (r: Result<Attachment>)
      requires Valid()
      modifies this`completed, this`discarded, this`files
      ensures Valid() && packets == old(packets)
      ensures r.Ok? <==> (&& old(Open()) && old(chunkCount) > 0 && MIN_DURATION_MS <= durationMs <= MAX_DURATION_MS
                          && manifestWritten)
      ensures r.Ok? ==> !discarded && completed && Describes(r.value, packets) && files == old(files)
      ensures r.Ok? ==> r.value.mediaId == mediaId && r.value.keyEpoch == keyEpoch && r.value.durationMs == durationMs
      ensures r.Err? && old(Open()) ==> discarded
      ensures r.Err? && !old(Open()) ==> files == old(files)
    {
      if discarded { return Err("voice_capture_abandonnee"); }
      if completed { return Err("voice_capture_terminee"); }
      ConcatIsEven(packets);
      var error := if !(sizeBytes > 0 && chunkCount > 0) then "voice_capture_vide"
                   else if sizeBytes % BYTES_PER_SAMPLE != 0 then "voice_pcm_invalide"
                   else if !(MIN_DURATION_MS <= durationMs <= MAX_DURATION_MS) then "voice_duree_invalide"
                   else if !manifestWritten then "io"
                   else "";
      if error != "" {
        DiscardInternal();
        return Err(error);
      }
      completed := true;
      return Ok(Attachment(mediaId, keyEpoch, sizeBytes, digest, chunkCount, CHUNK_BYTES, durationMs));
    }
  }

  // ---------------------------------------------------------------- what a completed capture gives back

  ghost predicate Describes(a: Attachment, packets: seq<seq<Byte>>) {
    && a.chunkCount == |packets| > 0 && a.sizeBytes == |Concat(packets)| && a.digestOf == Concat(packets)
    && a.chunkBytes == CHUNK_BYTES
  }

  ghost predicate AllButLastFull(packets: seq<seq<Byte>>) {
    forall i :: 0 <= i < |packets| - 1 ==> |packets[i]| == CHUNK_BYTES
  }

  lemma {:induction false} ConcatIsEven(packets: seq<seq<Byte>>)
    requires forall i :: 0 <= i < |packets| ==> IsPacket(packets[i])
    ensures |Concat(packets)| % BYTES_PER_SAMPLE == 0
    ensures |packets| <= |Concat(packets)| <= |packets| * CHUNK_BYTES
  {
    if packets != [] {
      ConcatIsEven(packets[..|packets| - 1]);
      assert IsPacket(packets[|packets| - 1]);
    }
  }

  lemma {:induction false} FullPrefixSize(packets: seq<seq<Byte>>, n: nat)
    requires n < |packets| && AllButLastFull(packets)
    ensures |Concat(packets[..n])| == n * CHUNK_BYTES
  {
    if n > 0 {
      FullPrefixSize(packets, n - 1);
      assert packets[..n][..n - 1] == packets[..n - 1];
    }
  }

  ghost predicate AllReadable(files: Directory, a: Attachment) {
    forall i :: 0 <= i < a.chunkCount ==> ReadChunk(files, a, i).Ok?
  }

  /** Every chunk passes its size check exactly when every packet but the last was full. */
  lemma ReadableExactlyWhenFull(files: Directory, a: Attachment, packets: seq<seq<Byte>>)
    requires Describes(a, packets) && Holds(files, a.mediaId, a.keyEpoch, packets)
    requires forall i :: 0 <= i < |packets| ==> IsPacket(packets[i])
    ensures AllReadable(files, a) <==> AllButLastFull(packets)
    ensures AllReadable(files, a) ==> forall i :: 0 <= i < |packets| ==> ReadChunk(files, a, i) == Ok(packets[i])
  {
    if AllButLastFull(packets) {
      var last := |packets| - 1;
      FullPrefixSize(packets, last);
      forall i | 0 <= i < a.chunkCount ensures ReadChunk(files, a, i) == Ok(packets[i]) {
        assert IsPacket(packets[i]);
      }
    } else {
      var i :| 0 <= i < |packets| - 1 && |packets[i]| != CHUNK_BYTES;
      assert ReadChunk(files, a, i).Err?;
    }
  }

  /** Chunks 0..n-1 as they read back, one after the other. */
  function ReadAll(files: Directory, a: Attachment, n: nat): seq<Byte> {
    if n == 0 then []
    else ReadAll(files, a, n - 1) + (if ReadChunk(files, a, n - 1).Ok? then ReadChunk(files, a, n - 1).value else [])
  }

  lemma {:induction false} ReadAllIsConcat(files: Directory, a: Attachment, packets: seq<seq<Byte>>, n: nat)
    requires n <= |packets|
    requires forall i :: 0 <= i < |packets| ==> ReadChunk(files, a, i) == Ok(packets[i])
    ensures ReadAll(files, a, n) == Concat(packets[..n])
  {
    if n > 0 {
      ReadAllIsConcat(files, a, packets, n - 1);
      assert packets[..n][..n - 1] == packets[..n - 1];
    }
  }

  /**
   * A capture fed full packets (the last may be short) reads back as the PCM it was given, in the
   * number of chunks that the metadata checks demand.
   */
  lemma CaptureRoundTrip(files: Directory, a: Attachment, packets: seq<seq<Byte>>)
    requires Describes(a, packets) && Holds(files, a.mediaId, a.keyEpoch, packets)
    requires forall i :: 0 <= i < |packets| ==> IsPacket(packets[i])
    requires AllButLastFull(packets)
    ensures ReadAll(files, a, a.chunkCount) == Concat(packets) == a.digestOf
    ensures a.chunkCount == Media.CeilDiv(a.sizeBytes, CHUNK_BYTES)
  {
    ReadableExactlyWhenFull(files, a, packets);
    ReadAllIsConcat(files, a, packets, |packets|);
    assert packets[..|packets|] == packets;
    var last := |packets| - 1;
    FullPrefixSize(packets, last);
    assert IsPacket(packets[last]);
    assert a.sizeBytes == last * CHUNK_BYTES + |packets[last]|;
  }

  /** Two short packets: the chunk count satisfies the metadata check, yet chunk 0 can never be read. */
  lemma ShortPacketIsNeverReadable(epoch: int)
    ensures var short: seq<Byte> := seq(31_998, _ => 0);
            var packets := [short, short];
            var a := Attachment("m", epoch, 63_996, short + short, 2, CHUNK_BYTES, 300);
            var files: Directory := map[0 := Sealed(epoch, "m", 0, short), 1 := Sealed(epoch, "m", 1, short)];
            && Describes(a, packets) && Holds(files, "m", epoch, packets)
            && a.chunkCount == Media.CeilDiv(a.sizeBytes, CHUNK_BYTES)
            && ReadChunk(files, a, 0) == Err("voice_chunk_taille_invalide")
  {
    var short: seq<Byte> := seq(31_998, _ => 0);
    var packets := [short, short];
    assert packets[..1] == [short];
    assert Concat([short]) == [] + short;
    assert Concat(packets) == Concat([short]) + short;
  }
}
