/**
 * The decrypted payload of a chat event: bare text, or version 2
 * `00 02 typeLen:16 type metaLen:32 meta binLen:32 binary`, all lengths big-endian.
 * The metadata is kept as its UTF-8 bytes; the allowed types are a parameter, so that nothing below
 * depends on which they are.
 */
module PayloadCodec {
  import opened Basics
  import Framing
  import Utf8

  const MAX_TYPE_BYTES := 160
  const MAX_META_BYTES := 8192
  const MAX_BINARY_BYTES := 131072

  const PAYLOAD_TYPES: seq<string> := [
    "message.attachment.created", "message.voice.created", "media.chunk",
    "assistant.response.started", "assistant.response.chunk",
    "assistant.response.completed", "assistant.response.failed", "call.dial.requested"
  ]

  datatype Decoded = TextV1(text: seq<Byte>) | PayloadV2(kind: string, meta: seq<Byte>, binary: seq<Byte>)

  predicate Encodable(types: seq<string>, kind: string, meta: seq<Byte>, binary: seq<Byte>) {
    && kind in types
    && 1 <= Utf8.Size(kind) <= MAX_TYPE_BYTES
    && |meta| <= MAX_META_BYTES
    && |binary| <= MAX_BINARY_BYTES
  }

  /** The version-2 bytes of a payload. */
  function Written(kind: seq<Byte>, meta: seq<Byte>, binary: seq<Byte>): seq<Byte> {
    [0, 2] + Framing.UInt16(|kind|) + kind + Framing.UInt32(|meta|) + meta + Framing.UInt32(|binary|) + binary
  }

  method EncodeV2(types: seq<string>, kind: string, meta: seq<Byte>, binary: seq<Byte>) returns (r: Result<seq<Byte>>)
    ensures r.Ok? <==> kind in types && Utf8.Size(kind) <= MAX_TYPE_BYTES
                       && |meta| <= MAX_META_BYTES && |binary| <= MAX_BINARY_BYTES
    ensures r.Ok? ==> r.value == Written(Utf8.Encode(kind), meta, binary)
  {
    if kind !in types { return Err("chat_payload_type_invalide"); }
    var typeBytes := Utf8.Encode(kind);
    if |typeBytes| > MAX_TYPE_BYTES { return Err("chat_payload_type_trop_long"); }
    if |meta| > MAX_META_BYTES { return Err("chat_payload_meta_trop_longue"); }
    if |binary| > MAX_BINARY_BYTES { return Err("chat_payload_binaire_trop_long"); }
    var out: seq<Byte> := [0];
    out := out + [2];
    assert out == [0, 2];
    out := out + Framing.UInt16(|typeBytes|);
    out := out + typeBytes;
    out := out + Framing.UInt32(|meta|);
    out := out + meta;
    out := out + Framing.UInt32(|binary|);
    out := out + binary;
    return Ok(out);
  }

  /** The allowed type whose UTF-8 is `bytes`. */
  function TypeNamed(types: seq<string>, bytes: seq<Byte>): (kind: Option<string>)
    ensures kind.Some? ==> kind.value in types && Utf8.Encode(kind.value) == bytes
    ensures kind.None? ==> forall t :: t in types ==> Utf8.Encode(t) != bytes
  {
    if types == [] then None
    else if Utf8.Encode(types[0]) == bytes then Some(types[0])
    else TypeNamed(types[1..], bytes)
  }

  /** The next big-endian integer of `width` bytes at the cursor, or an underflow. */
  function ReadInt(payload: seq<Byte>, position: nat, width: nat): Option<nat> {
    if position + width <= |payload| then Some(BigEndian(payload[position..position + width])) else None
  }

  method Decode(types: seq<string>, payload: seq<Byte>) returns (r: Result<Decoded>)
    ensures r == Meaning(types, payload)
  {
    if payload == [] { return Ok(TextV1([])); }
    if payload[0] != 0 { return Ok(TextV1(payload)); }
    if !(|payload| >= 2 && payload[1] == 2) { return Err("chat_payload_version_inconnue"); }
    var position := 2;
    var typeLen := ReadInt(payload, position, 2);
    if typeLen.None? { return Err("underflow"); }
    position := position + 2;
    if !(1 <= typeLen.value <= MAX_TYPE_BYTES && |payload| - position >= typeLen.value) {
      return Err("chat_payload_type_invalide");
    }
    var kind := TypeNamed(types, payload[position..position + typeLen.value]);
    if kind.None? { return Err("chat_payload_type_invalide"); }
    position := position + typeLen.value;
    r := DecodeAfterType(kind.value, payload, position);
  }

  method DecodeAfterType(kind: string, payload: seq<Byte>, start: nat) returns (r: Result<Decoded>)
    requires start <= |payload|
    ensures r == DecodeBody(kind, payload, start)
  {
    var position := start;
    var metaLen := ReadInt(payload, position, 4);
    if metaLen.None? { return Err("underflow"); }
    position := position + 4;
    if !(metaLen.value <= MAX_META_BYTES && |payload| - position >= metaLen.value) {
      return Err("chat_payload_meta_invalide");
    }
    var meta := payload[position..position + metaLen.value];
    position := position + metaLen.value;
    var binLen := ReadInt(payload, position, 4);
    if binLen.None? { return Err("underflow"); }
    position := position + 4;
    if !(binLen.value <= MAX_BINARY_BYTES && |payload| - position == binLen.value) {
      return Err("chat_payload_binaire_invalide");
    }
    return Ok(PayloadV2(kind, meta, payload[position..]));
  }

  /** A payload whose first byte is not zero (or that has none) is a bare text. */
  function Meaning(types: seq<string>, payload: seq<Byte>): Result<Decoded> {
    if payload == [] || payload[0] != 0 then Ok(TextV1(payload)) else DecodeV2(types, payload)
  }

  /** Version and type: the type, and where what follows it starts. */
  function DecodeHead(types: seq<string>, payload: seq<Byte>): (r: Result<(string, nat)>)
    ensures r.Ok? ==> r.value.1 <= |payload|
  {
    if !(|payload| >= 2 && payload[0] == 0 && payload[1] == 2) then Err("chat_payload_version_inconnue")
    else
      var typeLen := ReadInt(payload, 2, 2);
      if typeLen.None? then Err("underflow")
      else if !(1 <= typeLen.value <= MAX_TYPE_BYTES && |payload| - 4 >= typeLen.value) then
        Err("chat_payload_type_invalide")
      else
        var kind := TypeNamed(types, payload[4..4 + typeLen.value]);
        if kind.None? then Err("chat_payload_type_invalide") else Ok((kind.value, 4 + typeLen.value))
  }

  function DecodeV2(types: seq<string>, payload: seq<Byte>): Result<Decoded> {
    var head := DecodeHead(types, payload);
    if head.Err? then Err(head.error) else DecodeBody(head.value.0, payload, head.value.1)
  }

  function DecodeBody(kind: string, payload: seq<Byte>, at: nat): Result<Decoded>
    requires at <= |payload|
  {
    var metaLen := ReadInt(payload, at, 4);
    if metaLen.None? then Err("underflow")
    else if !(metaLen.value <= MAX_META_BYTES && |payload| - (at + 4) >= metaLen.value) then
      Err("chat_payload_meta_invalide")
    else
      var end := at + 4 + metaLen.value;
      var binLen := ReadInt(payload, end, 4);
      if binLen.None? then Err("underflow")
      else if !(binLen.value <= MAX_BINARY_BYTES && |payload| - (end + 4) == binLen.value) then
        Err("chat_payload_binaire_invalide")
      else Ok(PayloadV2(kind, payload[at + 4..end], payload[end + 4..]))
  }

  // ---------------------------------------------------------------- decoding inverts encoding, both ways

  lemma SmallIsItsOwnRemainder(n: nat, limit: nat)
    requires n < limit
    ensures n % limit == n
  {
  }

  lemma UInt16Reads(n: nat)
    requires n < 0x1_0000
    ensures BigEndian(Framing.UInt16(n)) == n
  {
    SmallIsItsOwnRemainder(n, 0x1_0000);
    Framing.IntegersAreBigEndian(n);
  }

  lemma UInt32Reads(n: nat)
    requires n < 0x1_0000_0000
    ensures BigEndian(Framing.UInt32(n)) == n
  {
    SmallIsItsOwnRemainder(n, 0x1_0000_0000);
    Framing.IntegersAreBigEndian(n);
  }

  lemma ReadIntAt(before: seq<Byte>, number: seq<Byte>, after: seq<Byte>)
    ensures ReadInt(before + number + after, |before|, |number|) == Some(BigEndian(number))
  {
    assert (before + number + after)[|before|..|before| + |number|] == number;
  }

  lemma DecodeBodyOfWritten(kind: string, head: seq<Byte>, meta: seq<Byte>, binary: seq<Byte>)
    requires |meta| <= MAX_META_BYTES && |binary| <= MAX_BINARY_BYTES
    ensures DecodeBody(kind, head + Framing.UInt32(|meta|) + meta + Framing.UInt32(|binary|) + binary, |head|)
         == Ok(PayloadV2(kind, meta, binary))
  {
    var m, b := Framing.UInt32(|meta|), Framing.UInt32(|binary|);
    var payload := head + m + meta + b + binary;
    UInt32Reads(|meta|);
    UInt32Reads(|binary|);
    assert payload == head + m + (meta + b + binary);
    ReadIntAt(head, m, meta + b + binary);
    assert payload == (head + m + meta) + b + binary;
    ReadIntAt(head + m + meta, b, binary);
    assert payload[|head| + 4..|head| + 4 + |meta|] == meta;
  }

  lemma HeadReads(k: seq<Byte>, n: seq<Byte>, tail: seq<Byte>)
    requires |n| == 2
    ensures var payload := [0, 2] + n + k + tail;
            && payload[0] == 0 && payload[1] == 2
            && ReadInt(payload, 2, 2) == Some(BigEndian(n))
            && payload[4..4 + |k|] == k
            && payload[..4 + |k|] == [0, 2] + n + k
  {
    var payload := [0, 2] + n + k + tail;
    assert payload == [0, 2] + n + (k + tail);
    ReadIntAt([0, 2], n, k + tail);
  }

  lemma DecodeFromParts(types: seq<string>, kind: string, k: seq<Byte>, n: seq<Byte>, tail: seq<Byte>)
    requires |n| == 2 && BigEndian(n) == |k| && 1 <= |k| <= MAX_TYPE_BYTES
    requires TypeNamed(types, k) == Some(kind)
    ensures DecodeHead(types, [0, 2] + n + k + tail) == Ok((kind, 4 + |k|))
  {
    HeadReads(k, n, tail);
  }

  lemma DecodeOfParts(types: seq<string>, kind: string, payload: seq<Byte>, at: nat, meta: seq<Byte>, binary: seq<Byte>)
    requires DecodeHead(types, payload) == Ok((kind, at))
    requires DecodeBody(kind, payload, at) == Ok(PayloadV2(kind, meta, binary))
    ensures DecodeV2(types, payload) == Ok(PayloadV2(kind, meta, binary))
  {
  }

  lemma DecodeOfWritten(types: seq<string>, kind: string, meta: seq<Byte>, binary: seq<Byte>)
    requires Encodable(types, kind, meta, binary)
    ensures DecodeV2(types, Written(Utf8.Encode(kind), meta, binary)) == Ok(PayloadV2(kind, meta, binary))
  {
    var k := Utf8.Encode(kind);
    WrittenInParts(k, meta, binary);
    UInt16Reads(|k|);
    Utf8.EncodeInjective(TypeNamed(types, k).value, kind);
    var n := Framing.UInt16(|k|);
    var head, tail := [0, 2] + n + k, Framing.UInt32(|meta|) + meta + Framing.UInt32(|binary|) + binary;
    DecodeFromParts(types, kind, k, n, tail);
    BodyAfterHead(kind, head, meta, binary);
    DecodeOfParts(types, kind, head + tail, |head|, meta, binary);
  }

  lemma BodyAfterHead(kind: string, head: seq<Byte>, meta: seq<Byte>, binary: seq<Byte>)
    requires |meta| <= MAX_META_BYTES && |binary| <= MAX_BINARY_BYTES
    ensures DecodeBody(kind, head + (Framing.UInt32(|meta|) + meta + Framing.UInt32(|binary|) + binary), |head|)
         == Ok(PayloadV2(kind, meta, binary))
  {
    HeadThenBody(head, meta, binary);
    DecodeBodyOfWritten(kind, head, meta, binary);
  }

  lemma HeadThenBody(head: seq<Byte>, meta: seq<Byte>, binary: seq<Byte>)
    ensures head + (Framing.UInt32(|meta|) + meta + Framing.UInt32(|binary|) + binary)
         == head + Framing.UInt32(|meta|) + meta + Framing.UInt32(|binary|) + binary
  {
  }

  lemma TwoBytesWriteBack(number: seq<Byte>)
    requires |number| == 2
    ensures Framing.UInt16(BigEndian(number)) == number
  {
    PowersOf256();
    BigEndianBound(number);
    BigEndianWritesBack(number);
  }

  lemma FourBytesWriteBack(number: seq<Byte>)
    requires |number| == 4
    ensures Framing.UInt32(BigEndian(number)) == number
  {
    PowersOf256();
    BigEndianBound(number);
    BigEndianWritesBack(number);
  }

  lemma UInt16WritesBack(payload: seq<Byte>, at: nat, n: nat)
    requires ReadInt(payload, at, 2) == Some(n)
    ensures payload[at..at + 2] == Framing.UInt16(n)
  {
    TwoBytesWriteBack(payload[at..at + 2]);
  }

  lemma UInt32WritesBack(payload: seq<Byte>, at: nat, n: nat)
    requires ReadInt(payload, at, 4) == Some(n)
    ensures payload[at..at + 4] == Framing.UInt32(n)
  {
    FourBytesWriteBack(payload[at..at + 4]);
  }

  lemma WrittenOfDecodeBody(kind: string, payload: seq<Byte>, at: nat, meta: seq<Byte>, binary: seq<Byte>)
    requires at <= |payload|
    requires DecodeBody(kind, payload, at) == Ok(PayloadV2(kind, meta, binary))
    ensures |meta| <= MAX_META_BYTES && |binary| <= MAX_BINARY_BYTES
    ensures payload[at..] == Framing.UInt32(|meta|) + meta + Framing.UInt32(|binary|) + binary
  {
    var end := at + 4 + |meta|;
    UInt32WritesBack(payload, at, |meta|);
    UInt32WritesBack(payload, end, |binary|);
    assert payload[at..] == payload[at..at + 4] + payload[at + 4..end] + payload[end..end + 4] + payload[end + 4..];
  }

  lemma HeadOfDecode(types: seq<string>, payload: seq<Byte>, kind: string, at: nat)
    requires DecodeHead(types, payload) == Ok((kind, at))
    ensures var k := Utf8.Encode(kind);
            && kind in types && 1 <= |k| <= MAX_TYPE_BYTES && at == 4 + |k| <= |payload|
            && payload[..2] == [0, 2]
            && ReadInt(payload, 2, 2) == Some(|k|)
            && payload[4..4 + |k|] == k
  {
  }

  lemma WrittenOfDecode(types: seq<string>, payload: seq<Byte>, kind: string, meta: seq<Byte>, binary: seq<Byte>)
    requires DecodeV2(types, payload) == Ok(PayloadV2(kind, meta, binary))
    ensures Encodable(types, kind, meta, binary) && payload == Written(Utf8.Encode(kind), meta, binary)
  {
    var k := Utf8.Encode(kind);
    var at := 4 + |k|;
    HeadOfDecode(types, payload, DecodeHead(types, payload).value.0, DecodeHead(types, payload).value.1);
    WrittenOfDecodeBody(kind, payload, at, meta, binary);
    UInt16WritesBack(payload, 2, |k|);
    JoinFour(payload, at, [0, 2], Framing.UInt16(|k|), k,
             Framing.UInt32(|meta|) + meta + Framing.UInt32(|binary|) + binary);
    WrittenInParts(k, meta, binary);
  }

  lemma JoinFour(payload: seq<Byte>, at: nat, a: seq<Byte>, b: seq<Byte>, c: seq<Byte>, d: seq<Byte>)
    requires 4 <= at <= |payload|
    requires payload[..2] == a && payload[2..4] == b && payload[4..at] == c && payload[at..] == d
    ensures payload == a + b + c + d
  {
  }

  lemma WrittenInParts(k: seq<Byte>, meta: seq<Byte>, binary: seq<Byte>)
    ensures Written(k, meta, binary)
         == [0, 2] + Framing.UInt16(|k|) + k + (Framing.UInt32(|meta|) + meta + Framing.UInt32(|binary|) + binary)
  {
  }

  /** A byte string decodes to a version-2 payload exactly when it is that payload's encoding. */
  lemma DecodesExactlyWhatIsWritten(types: seq<string>, payload: seq<Byte>, kind: string, meta: seq<Byte>, binary: seq<Byte>)
    ensures DecodeV2(types, payload) == Ok(PayloadV2(kind, meta, binary))
       <==> Encodable(types, kind, meta, binary) && payload == Written(Utf8.Encode(kind), meta, binary)
  {
    if Encodable(types, kind, meta, binary) && payload == Written(Utf8.Encode(kind), meta, binary) {
      DecodeOfWritten(types, kind, meta, binary);
    }
    if DecodeV2(types, payload) == Ok(PayloadV2(kind, meta, binary)) {
      WrittenOfDecode(types, payload, kind, meta, binary);
    }
  }

  /**
   * A payload is bare text exactly when it is empty or its first byte is not zero, and then it is that
   * text; any other payload is an error unless it is the encoding of a version-2 payload.
   */
  lemma TextExactlyWhen(types: seq<string>, payload: seq<Byte>, text: seq<Byte>)
    ensures Meaning(types, payload) == Ok(TextV1(text)) <==> text == payload && (payload == [] || payload[0] != 0)
    ensures payload != [] && payload[0] == 0 ==>
      (Meaning(types, payload).Ok? <==>
         exists kind, meta, binary :: Encodable(types, kind, meta, binary) && payload == Written(Utf8.Encode(kind), meta, binary))
  {
    if payload != [] && payload[0] == 0 {
      if Meaning(types, payload).Ok? {
        var v := Meaning(types, payload).value;
        DecodesExactlyWhatIsWritten(types, payload, v.kind, v.meta, v.binary);
      }
      if kind, meta, binary :| Encodable(types, kind, meta, binary) && payload == Written(Utf8.Encode(kind), meta, binary) {
        DecodesExactlyWhatIsWritten(types, payload, kind, meta, binary);
      }
    }
  }
}
