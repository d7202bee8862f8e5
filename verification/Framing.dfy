/**
 * The byte strings that the two protocols sign and authenticate: the binary chat codec
 * (length-prefixed fields) and the envelope codec (decimal `length:text` fields joined by bars).
 * Both are shown to determine the fields they were built from.
 */
module Framing {
  import opened Basics
  import Utf8
  import Decimal

  // ---------------------------------------------------------------- length-prefixed frames

  const MAX_FIELD_BYTES := 4096

  /** US-ASCII: one byte a character, '?' for any other. */
  function Ascii(text: string): (bytes: seq<Byte>)
    ensures |bytes| == |text|
  {
    seq(|text|, i requires 0 <= i < |text| => if text[i] as int < 128 then text[i] as int else 63)
  }

  /** On US-ASCII texts this is UTF-8. */
  lemma {:induction false} AsciiIsUtf8(text: string)
    requires forall i :: 0 <= i < |text| ==> text[i] as int < 128
    ensures Ascii(text) == Utf8.Encode(text)
  {
    if text != "" {
      AsciiIsUtf8(text[1..]);
      assert Ascii(text) == [text[0] as int] + Ascii(text[1..]);
    }
  }

  predicate IsInt(x: int) { -0x8000_0000 <= x < 0x8000_0000 }

  predicate IsLong(x: int) { -0x8000_0000_0000_0000 <= x < 0x8000_0000_0000_0000 }

  /** `putShort`, `putInt` and `putLong` keep the low bits of a two's-complement number. */
  function UInt16(value: int): seq<Byte> { ToBytes(value % 0x1_0000, 2) }

  function UInt32(value: int): seq<Byte> { ToBytes(value % 0x1_0000_0000, 4) }

  function UInt64(value: int): seq<Byte> { ToBytes(value % 0x1_0000_0000_0000_0000, 8) }

  /** A field as it is written: at a width both sides know, or after its own length. */
  datatype Field = Fixed(bytes: seq<Byte>) | Prefixed(bytes: seq<Byte>) {
    function Written(): seq<Byte> {
      if Fixed? then bytes else UInt32(|bytes|) + bytes
    }

    ghost predicate SameShape(other: Field) {
      if Fixed? then other.Fixed? && |bytes| == |other.bytes|
      else other.Prefixed? && |bytes| < 0x8000_0000 && |other.bytes| < 0x8000_0000
    }
  }

  function Frame(fields: seq<Field>): seq<Byte> {
    if fields == [] then [] else fields[0].Written() + Frame(fields[1..])
  }

  lemma FrameCons(first: Field, rest: seq<Field>)
    ensures Frame([first] + rest) == first.Written() + Frame(rest)
  {
    assert ([first] + rest)[1..] == rest;
  }

  lemma FrameOfFive(a: Field, b: Field, c: Field, d: Field, e: Field)
    ensures Frame([a, b, c, d, e]) == a.Written() + b.Written() + c.Written() + d.Written() + e.Written()
  {
    FrameCons(e, []);
    FrameCons(d, [e]);
    FrameCons(c, [d, e]);
    FrameCons(b, [c, d, e]);
    FrameCons(a, [b, c, d, e]);
    assert [a] + [b, c, d, e] == [a, b, c, d, e] && [b] + [c, d, e] == [b, c, d, e];
    assert [c] + [d, e] == [c, d, e] && [d] + [e] == [d, e] && [e] + [] == [e];
    RegroupFive(a.Written(), b.Written(), c.Written(), d.Written(), e.Written());
  }

  lemma RegroupFive(a: seq<Byte>, b: seq<Byte>, c: seq<Byte>, d: seq<Byte>, e: seq<Byte>)
    ensures a + (b + (c + (d + (e + [])))) == a + b + c + d + e
  {
  }

  lemma {:induction false} FrameConcat(fs: seq<Field>, gs: seq<Field>)
    ensures Frame(fs + gs) == Frame(fs) + Frame(gs)
  {
    if fs == [] {
      assert fs + gs == gs;
    } else {
      assert (fs + gs)[1..] == fs[1..] + gs;
      FrameConcat(fs[1..], gs);
    }
  }

  lemma LowBytesReadBack(value: int, limit: int, width: nat)
    requires limit == Pow(256, width) > 0
    ensures BigEndian(ToBytes(value % limit, width)) == value % limit
  {
    ToBytesReadsBack(value % limit, width);
  }

  /** Numbers and lengths go out most significant byte first, negative ones in two's complement. */
  lemma IntegersAreBigEndian(value: int)
    ensures BigEndian(UInt16(value)) == value % 0x1_0000
    ensures BigEndian(UInt32(value)) == value % 0x1_0000_0000
    ensures BigEndian(UInt64(value)) == value % 0x1_0000_0000_0000_0000
    ensures |UInt16(value)| == 2 && |UInt32(value)| == 4 && |UInt64(value)| == 8
  {
    PowersOf256();
    LowBytesReadBack(value, 0x1_0000, 2);
    LowBytesReadBack(value, 0x1_0000_0000, 4);
    LowBytesReadBack(value, 0x1_0000_0000_0000_0000, 8);
  }

  lemma LowBytesInjective(a: int, b: int, limit: int, width: nat)
    requires limit == Pow(256, width) > 0
    requires ToBytes(a % limit, width) == ToBytes(b % limit, width)
    ensures a % limit == b % limit
  {
    LowBytesReadBack(a, limit, width);
    LowBytesReadBack(b, limit, width);
  }

  lemma UInt16Injective(a: int, b: int)
    requires UInt16(a) == UInt16(b)
    ensures a % 0x1_0000 == b % 0x1_0000
  {
    PowersOf256();
    LowBytesInjective(a, b, 0x1_0000, 2);
  }

  lemma UInt32Injective(a: int, b: int)
    requires UInt32(a) == UInt32(b)
    ensures a % 0x1_0000_0000 == b % 0x1_0000_0000
    ensures IsInt(a) && IsInt(b) ==> a == b
  {
    PowersOf256();
    LowBytesInjective(a, b, 0x1_0000_0000, 4);
  }

  lemma UInt64Injective(a: int, b: int)
    requires UInt64(a) == UInt64(b)
    ensures a % 0x1_0000_0000_0000_0000 == b % 0x1_0000_0000_0000_0000
    ensures IsLong(a) && IsLong(b) ==> a == b
  {
    PowersOf256();
    LowBytesInjective(a, b, 0x1_0000_0000_0000_0000, 8);
  }

  lemma LengthSplits(p: seq<Byte>, b: seq<Byte>, r: seq<Byte>, q: seq<Byte>, c: seq<Byte>, t: seq<Byte>)
    requires |p| == |q|
    requires p == q ==> |b| == |c|
    requires p + b + r == q + c + t
    ensures b == c && r == t
  {
    assert p + b + r == p + (b + r);
    assert q + c + t == q + (c + t);
    AppendInjective(p, b + r, q, c + t);
    AppendInjective(b, r, c, t);
  }

  lemma WrittenSplits(f: Field, g: Field, r: seq<Byte>, t: seq<Byte>)
    requires f.SameShape(g)
    requires f.Written() + r == g.Written() + t
    ensures f == g && r == t
  {
    if f.Fixed? {
      AppendInjective(f.bytes, r, g.bytes, t);
    } else {
      var p, q := UInt32(|f.bytes|), UInt32(|g.bytes|);
      if p == q {
        UInt32Injective(|f.bytes|, |g.bytes|);
      }
      LengthSplits(p, f.bytes, r, q, g.bytes, t);
    }
  }

  /** Moving a boundary between two fields always changes the bytes. */
  lemma {:induction false} FrameInjective(fs: seq<Field>, gs: seq<Field>)
    requires |fs| == |gs|
    requires forall i :: 0 <= i < |fs| ==> fs[i].SameShape(gs[i])
    requires Frame(fs) == Frame(gs)
    ensures fs == gs
  {
    if fs != [] {
      WrittenSplits(fs[0], gs[0], Frame(fs[1..]), Frame(gs[1..]));
      FrameInjective(fs[1..], gs[1..]);
    }
  }

  // ---------------------------------------------------------------- chat events

  datatype ChatEvent = ChatEvent(
    version: int,
    eventId: string,
    threadId: string,
    senderDeviceId: string,
    deviceSequence: int,
    keyEpoch: int,
    routingClass: string,
    createdAtMs: int,
    expiresAtMs: int,
    payloadCiphertext: string,
    nonce: string,
    authTag: string,
    signature: string)

  const AAD_PREFIX := "MINA_CHAT_EVENT_V2\0"
  const SIGNATURE_PREFIX := "MINA_CHAT_SIGNATURE_V1\0"

  /** The platform's Base64: any pair of functions; only canonical texts are ever compared. */
  datatype Base64 = Base64(decode: string -> Option<seq<Byte>>, encode: seq<Byte> -> string) {
    /** Decoding and encoding again gives the very text received. */
    predicate Canonical(text: string) {
      decode(text).Some? && encode(decode(text).value) == text
    }
  }

  /** The field widths that Kotlin's `Int` and `Long` impose. */
  predicate MachineWidths(e: ChatEvent) {
    && IsInt(e.version) && IsInt(e.keyEpoch)
    && IsLong(e.deviceSequence) && IsLong(e.createdAtMs) && IsLong(e.expiresAtMs)
  }

  predicate HeaderFits(e: ChatEvent) {
    && Utf8.Size(e.eventId) <= MAX_FIELD_BYTES
    && Utf8.Size(e.threadId) <= MAX_FIELD_BYTES
    && Utf8.Size(e.senderDeviceId) <= MAX_FIELD_BYTES
    && Utf8.Size(e.routingClass) <= MAX_FIELD_BYTES
  }

  function IdentityFields(e: ChatEvent): seq<Field> {
    [
      Fixed(Ascii(AAD_PREFIX)),
      Fixed(UInt16(e.version)),
      Prefixed(Utf8.Encode(e.eventId)),
      Prefixed(Utf8.Encode(e.threadId)),
      Prefixed(Utf8.Encode(e.senderDeviceId))
    ]
  }

  function ContextFields(e: ChatEvent): seq<Field> {
    [
      Fixed(UInt64(e.deviceSequence)),
      Fixed(UInt32(e.keyEpoch)),
      Prefixed(Utf8.Encode(e.routingClass)),
      Fixed(UInt64(e.createdAtMs)),
      Fixed(UInt64(e.expiresAtMs))
    ]
  }

  /** The authenticated header: who and where, then when and under which key. */
  function Header(e: ChatEvent): seq<Byte> { Frame(IdentityFields(e) + ContextFields(e)) }

  function SignatureFields(e: ChatEvent, nonce: seq<Byte>, ciphertext: seq<Byte>, tag: seq<Byte>): seq<Field> {
    [
      Fixed(Ascii(SIGNATURE_PREFIX)),
      Prefixed(Header(e)),
      Prefixed(nonce),
      Prefixed(ciphertext),
      Prefixed(tag)
    ]
  }

  function LengthPrefixedUtf8(text: string): Result<seq<Byte>> {
    var bytes := Utf8.Encode(text);
    if |bytes| <= MAX_FIELD_BYTES then Ok(Prefixed(bytes).Written()) else Err("chat_codec_champ_trop_long")
  }

  method EncodeHeader(e: ChatEvent) returns (r: Result<seq<Byte>>)
    ensures r == if HeaderFits(e) then Ok(Header(e)) else Err("chat_codec_champ_trop_long")
  {
    var eventId, threadId := LengthPrefixedUtf8(e.eventId), LengthPrefixedUtf8(e.threadId);
    var sender, routing := LengthPrefixedUtf8(e.senderDeviceId), LengthPrefixedUtf8(e.routingClass);
    var out := Ascii(AAD_PREFIX);
    out := out + UInt16(e.version);
    if eventId.Err? { return eventId; }
    out := out + eventId.value;
    if threadId.Err? { return threadId; }
    out := out + threadId.value;
    if sender.Err? { return sender; }
    out := out + sender.value;
    ghost var identity := out;
    out := out + UInt64(e.deviceSequence);
    out := out + UInt32(e.keyEpoch);
    if routing.Err? { return routing; }
    out := out + routing.value;
    out := out + UInt64(e.createdAtMs);
    out := out + UInt64(e.expiresAtMs);
    assert out == identity + (UInt64(e.deviceSequence) + UInt32(e.keyEpoch) + routing.value
                              + UInt64(e.createdAtMs) + UInt64(e.expiresAtMs));
    HeaderInWriteOrder(e);
    return Ok(out);
  }

  lemma HeaderInWriteOrder(e: ChatEvent)
    ensures Header(e)
         == (Ascii("MINA_CHAT_EVENT_V2\0") + UInt16(e.version) + Prefixed(Utf8.Encode(e.eventId)).Written()
             + Prefixed(Utf8.Encode(e.threadId)).Written() + Prefixed(Utf8.Encode(e.senderDeviceId)).Written())
            + (UInt64(e.deviceSequence) + UInt32(e.keyEpoch) + Prefixed(Utf8.Encode(e.routingClass)).Written()
               + UInt64(e.createdAtMs) + UInt64(e.expiresAtMs))
  {
    FrameConcat(IdentityFields(e), ContextFields(e));
    FrameOfFive(Fixed(Ascii(AAD_PREFIX)), Fixed(UInt16(e.version)), Prefixed(Utf8.Encode(e.eventId)),
                Prefixed(Utf8.Encode(e.threadId)), Prefixed(Utf8.Encode(e.senderDeviceId)));
    FrameOfFive(Fixed(UInt64(e.deviceSequence)), Fixed(UInt32(e.keyEpoch)), Prefixed(Utf8.Encode(e.routingClass)),
                Fixed(UInt64(e.createdAtMs)), Fixed(UInt64(e.expiresAtMs)));
  }

  function SignatureInput(e: ChatEvent, base64: Base64): Result<seq<Byte>> {
    if !HeaderFits(e) then Err("chat_codec_champ_trop_long")
    else
      var nonce, ciphertext, tag := base64.decode(e.nonce), base64.decode(e.payloadCiphertext), base64.decode(e.authTag);
      if nonce.None? || ciphertext.None? || tag.None? then Err("base64")
      else Ok(Frame(SignatureFields(e, nonce.value, ciphertext.value, tag.value)))
  }

  /** The signed bytes: a fixed text, then header, nonce, ciphertext and tag, each after its length. */
  lemma SignatureInWriteOrder(e: ChatEvent, nonce: seq<Byte>, ciphertext: seq<Byte>, tag: seq<Byte>)
    ensures Frame(SignatureFields(e, nonce, ciphertext, tag))
         == Ascii("MINA_CHAT_SIGNATURE_V1\0") + (UInt32(|Header(e)|) + Header(e)) + (UInt32(|nonce|) + nonce)
            + (UInt32(|ciphertext|) + ciphertext) + (UInt32(|tag|) + tag)
  {
    FrameOfFive(Fixed(Ascii(SIGNATURE_PREFIX)), Prefixed(Header(e)), Prefixed(nonce), Prefixed(ciphertext), Prefixed(tag));
  }

  method EncodeSignatureInput(e: ChatEvent, base64: Base64) returns (r: Result<seq<Byte>>)
    ensures r == SignatureInput(e, base64)
  {
    var header := EncodeHeader(e);
    if header.Err? {
      return header;
    }
    var out := Ascii(SIGNATURE_PREFIX);
    out := out + Prefixed(header.value).Written();
    var nonce := base64.decode(e.nonce);
    if nonce.None? { return Err("base64"); }
    out := out + Prefixed(nonce.value).Written();
    var ciphertext := base64.decode(e.payloadCiphertext);
    if ciphertext.None? { return Err("base64"); }
    out := out + Prefixed(ciphertext.value).Written();
    var tag := base64.decode(e.authTag);
    if tag.None? { return Err("base64"); }
    out := out + Prefixed(tag.value).Written();
    SignatureInWriteOrder(e, nonce.value, ciphertext.value, tag.value);
    return Ok(out);
  }

  /** What the header bytes determine: every field, the version up to its 16 low bits. */
  ghost predicate SameHeader(a: ChatEvent, b: ChatEvent) {
    && a.version % 0x1_0000 == b.version % 0x1_0000
    && a.eventId == b.eventId && a.threadId == b.threadId && a.senderDeviceId == b.senderDeviceId
    && a.deviceSequence == b.deviceSequence && a.keyEpoch == b.keyEpoch
    && a.routingClass == b.routingClass
    && a.createdAtMs == b.createdAtMs && a.expiresAtMs == b.expiresAtMs
  }

  /** The authenticated header is the same byte string exactly for the same header fields. */
  lemma HeaderInjective(a: ChatEvent, b: ChatEvent)
    requires MachineWidths(a) && MachineWidths(b) && HeaderFits(a) && HeaderFits(b)
    ensures Header(a) == Header(b) <==> SameHeader(a, b)
  {
    if Header(a) == Header(b) {
      HeaderFieldsSplit(a, b);
      UInt16Injective(a.version, b.version);
      Utf8.EncodeInjective(a.eventId, b.eventId);
      Utf8.EncodeInjective(a.threadId, b.threadId);
      Utf8.EncodeInjective(a.senderDeviceId, b.senderDeviceId);
      UInt64Injective(a.deviceSequence, b.deviceSequence);
      UInt32Injective(a.keyEpoch, b.keyEpoch);
      Utf8.EncodeInjective(a.routingClass, b.routingClass);
      UInt64Injective(a.createdAtMs, b.createdAtMs);
      UInt64Injective(a.expiresAtMs, b.expiresAtMs);
    }
  }

  lemma HeaderFieldsSplit(a: ChatEvent, b: ChatEvent)
    requires HeaderFits(a) && HeaderFits(b)
    requires Header(a) == Header(b)
    ensures UInt16(a.version) == UInt16(b.version)
    ensures Utf8.Encode(a.eventId) == Utf8.Encode(b.eventId)
    ensures Utf8.Encode(a.threadId) == Utf8.Encode(b.threadId)
    ensures Utf8.Encode(a.senderDeviceId) == Utf8.Encode(b.senderDeviceId)
    ensures UInt64(a.deviceSequence) == UInt64(b.deviceSequence)
    ensures UInt32(a.keyEpoch) == UInt32(b.keyEpoch)
    ensures Utf8.Encode(a.routingClass) == Utf8.Encode(b.routingClass)
    ensures UInt64(a.createdAtMs) == UInt64(b.createdAtMs)
    ensures UInt64(a.expiresAtMs) == UInt64(b.expiresAtMs)
  {
    var fs, gs := IdentityFields(a) + ContextFields(a), IdentityFields(b) + ContextFields(b);
    FrameInjective(fs, gs);
    AppendInjective(IdentityFields(a), ContextFields(a), IdentityFields(b), ContextFields(b));
    var i, j, k, l := IdentityFields(a), IdentityFields(b), ContextFields(a), ContextFields(b);
    assert i[1] == j[1] && i[2] == j[2] && i[3] == j[3] && i[4] == j[4];
    assert k[0] == l[0] && k[1] == l[1] && k[2] == l[2] && k[3] == l[3] && k[4] == l[4];
  }

  /** Decoded parts that a Java array can hold. */
  ghost predicate DecodedFits(e: ChatEvent, base64: Base64) {
    && (base64.decode(e.nonce).Some? ==> |base64.decode(e.nonce).value| < 0x8000_0000)
    && (base64.decode(e.payloadCiphertext).Some? ==> |base64.decode(e.payloadCiphertext).value| < 0x8000_0000)
    && (base64.decode(e.authTag).Some? ==> |base64.decode(e.authTag).value| < 0x8000_0000)
  }

  /** With canonical Base64 the signed bytes determine header, nonce, ciphertext and tag as texts. */
  lemma SignatureInputInjective(a: ChatEvent, b: ChatEvent, base64: Base64)
    requires MachineWidths(a) && MachineWidths(b)
    requires DecodedFits(a, base64) && DecodedFits(b, base64)
    requires base64.Canonical(a.nonce) && base64.Canonical(a.payloadCiphertext) && base64.Canonical(a.authTag)
    requires base64.Canonical(b.nonce) && base64.Canonical(b.payloadCiphertext) && base64.Canonical(b.authTag)
    requires SignatureInput(a, base64).Ok? && SignatureInput(b, base64).Ok?
    ensures SignatureInput(a, base64) == SignatureInput(b, base64)
       <==> (&& SameHeader(a, b) && a.nonce == b.nonce
             && a.payloadCiphertext == b.payloadCiphertext && a.authTag == b.authTag)
  {
    var fs := SignatureFields(a, base64.decode(a.nonce).value, base64.decode(a.payloadCiphertext).value,
                              base64.decode(a.authTag).value);
    var gs := SignatureFields(b, base64.decode(b.nonce).value, base64.decode(b.payloadCiphertext).value,
                              base64.decode(b.authTag).value);
    HeaderSize(a);
    HeaderSize(b);
    HeaderInjective(a, b);
    if SignatureInput(a, base64) == SignatureInput(b, base64) {
      FrameInjective(fs, gs);
      assert fs[1] == gs[1] && fs[2] == gs[2] && fs[3] == gs[3] && fs[4] == gs[4];
    }
  }

  lemma HeaderSize(e: ChatEvent)
    requires HeaderFits(e)
    ensures |Header(e)| < 0x8000_0000
  {
    HeaderInWriteOrder(e);
  }

  /** Why the version must be bounded: 16 bits cannot tell 2 from 65538. */
  lemma VersionWraps(e: ChatEvent)
    ensures Header(e.(version := 2)) == Header(e.(version := 65538))
  {
    assert UInt16(2) == UInt16(65538);
  }

  // ---------------------------------------------------------------- MINA envelopes

  datatype Envelope = Envelope(
    version: int,
    id: string,
    correlationId: string,
    channel: string,
    kind: string,
    createdAt: string,
    expiresAt: Option<string>,
    senderIdentityId: string,
    senderDeviceId: string,
    counter: int,
    encryption: string,
    signatureAlgorithm: string,
    payloadCiphertext: string,
    nonce: string,
    authTag: string)

  function EnvelopeFields(e: Envelope): seq<string> {
    [
      Decimal.Int(e.version), e.id, e.correlationId, e.channel, e.kind, e.createdAt,
      if e.expiresAt.Some? then e.expiresAt.value else "",
      e.senderIdentityId, e.senderDeviceId, Decimal.Int(e.counter), e.encryption, e.signatureAlgorithm
    ]
  }

  /** Which field stands where; the texts of the sealed payload come after these. */
  lemma EnvelopeFieldOrder(e: Envelope)
    ensures var fs := EnvelopeFields(e);
            && |fs| == 12
            && (e.version >= 0 ==> Decimal.Parse(fs[0]) == e.version)
            && fs[0] == Decimal.Int(e.version) && fs[1] == e.id && fs[2] == e.correlationId && fs[3] == e.channel
            && fs[4] == e.kind && fs[5] == e.createdAt && fs[6] == (if e.expiresAt == None then "" else e.expiresAt.value)
            && fs[7] == e.senderIdentityId && fs[8] == e.senderDeviceId && fs[9] == Decimal.Int(e.counter)
            && fs[10] == e.encryption && fs[11] == e.signatureAlgorithm
  {
    if e.version >= 0 { Decimal.ParseNat(e.version); }
  }

  function Piece(text: string): string { Decimal.Nat(Utf8.Size(text)) + ":" + text }

  /** `joinToString("|")`: the first piece, then a bar before each of the others. */
  function Join(values: seq<string>): string {
    if values == [] then "" else Piece(values[0]) + Barred(values[1..])
  }

  function Barred(values: seq<string>): string {
    if values == [] then "" else "|" + Piece(values[0]) + Barred(values[1..])
  }

  function Framed(values: seq<string>): seq<Byte> { Utf8.Encode(Join(values)) }

  function CanonicalHeader(e: Envelope): seq<Byte> { Framed(EnvelopeFields(e)) }

  function CanonicalSigningBytes(e: Envelope): seq<Byte> {
    Framed(EnvelopeFields(e) + [e.payloadCiphertext, e.nonce, e.authTag])
  }

  /** Of two texts starting the same string, equal UTF-8 sizes force equal texts. */
  lemma SizeSplits(v: string, w: string, r: string, t: string)
    requires v + r == w + t
    requires Utf8.Size(v) == Utf8.Size(w)
    ensures v == w && r == t
  {
    var whole := v + r;
    var short, long := if |v| <= |w| then v else w, if |v| <= |w| then w else v;
    assert v == whole[..|v|] && w == whole[..|w|];
    var extra := long[|short|..];
    assert long == short + extra;
    Utf8.SizeConcat(short, extra);
    Utf8.SizeBounds(extra);
    assert extra == "";
    AppendInjective(v, r, w, t);
  }

  /** A piece ends where its own numeral says, whatever follows. */
  lemma PieceSplits(v: string, w: string, r: string, t: string)
    requires Piece(v) + r == Piece(w) + t
    ensures v == w && r == t
  {
    var n, m := Decimal.Nat(Utf8.Size(v)), Decimal.Nat(Utf8.Size(w));
    assert Piece(v) + r == n + [':'] + (v + r);
    assert Piece(w) + t == m + [':'] + (w + t);
    Decimal.DelimitedSplits(n, m, ':', v + r, w + t);
    Decimal.NatInjective(Utf8.Size(v), Utf8.Size(w));
    SizeSplits(v, w, r, t);
  }

  lemma BarredUnfolds(values: seq<string>)
    requires values != []
    ensures Barred(values) == "|" + (Piece(values[0]) + Barred(values[1..]))
  {
  }

  lemma {:induction false} BarredInjective(vs: seq<string>, ws: seq<string>)
    requires Barred(vs) == Barred(ws)
    ensures vs == ws
  {
    if vs != [] && ws != [] {
      BarredUnfolds(vs);
      BarredUnfolds(ws);
      AppendInjective("|", Piece(vs[0]) + Barred(vs[1..]), "|", Piece(ws[0]) + Barred(ws[1..]));
      PieceSplits(vs[0], ws[0], Barred(vs[1..]), Barred(ws[1..]));
      BarredInjective(vs[1..], ws[1..]);
    }
  }

  lemma {:induction false} BarredSnoc(values: seq<string>, v: string)
    ensures Barred(values + [v]) == Barred(values) + ("|" + Decimal.Nat(Utf8.Size(v)) + ":" + v)
  {
    if values == [] {
      assert ([] + [v])[1..] == [];
    } else {
      assert (values + [v])[1..] == values[1..] + [v];
      BarredSnoc(values[1..], v);
    }
  }

  /** Each field is its UTF-8 size in decimal, a colon and the text; a bar stands between two fields. */
  lemma FramedFormat(values: seq<string>, v: string)
    ensures Framed(values + [v])
         == Framed(values) + Utf8.Encode((if values == [] then "" else "|") + Decimal.Nat(Utf8.Size(v)) + ":" + v)
  {
    var piece := (if values == [] then "" else "|") + Decimal.Nat(Utf8.Size(v)) + ":" + v;
    assert Join(values + [v]) == Join(values) + piece by {
      if values != [] {
        assert (values + [v])[1..] == values[1..] + [v];
        BarredSnoc(values[1..], v);
      }
    }
    Utf8.EncodeConcat(Join(values), piece);
  }

  /** The decimal framing is injective on all field lists, not only on lists of one length. */
  lemma JoinInjective(vs: seq<string>, ws: seq<string>)
    requires Join(vs) == Join(ws)
    ensures vs == ws
  {
    if vs != [] && ws != [] {
      PieceSplits(vs[0], ws[0], Barred(vs[1..]), Barred(ws[1..]));
      BarredInjective(vs[1..], ws[1..]);
    }
  }

  lemma FramedInjective(vs: seq<string>, ws: seq<string>)
    requires Framed(vs) == Framed(ws)
    ensures vs == ws
  {
    Utf8.EncodeInjective(Join(vs), Join(ws));
    JoinInjective(vs, ws);
  }

  /** Equality of every signed field; an absent expiry is written as the empty text. */
  ghost predicate SameEnvelopeHeader(a: Envelope, b: Envelope) {
    && a.version == b.version && a.id == b.id && a.correlationId == b.correlationId && a.channel == b.channel
    && a.kind == b.kind && a.createdAt == b.createdAt && a.senderIdentityId == b.senderIdentityId
    && a.senderDeviceId == b.senderDeviceId && a.counter == b.counter && a.encryption == b.encryption
    && a.signatureAlgorithm == b.signatureAlgorithm
    && (a.expiresAt == b.expiresAt || (a.expiresAt in {None, Some("")} && b.expiresAt in {None, Some("")}))
  }

  lemma EnvelopeFieldsInjective(a: Envelope, b: Envelope)
    ensures EnvelopeFields(a) == EnvelopeFields(b) <==> SameEnvelopeHeader(a, b)
  {
    var fs, gs := EnvelopeFields(a), EnvelopeFields(b);
    if fs == gs {
      assert fs[0] == gs[0] && fs[1] == gs[1] && fs[2] == gs[2] && fs[3] == gs[3] && fs[4] == gs[4] && fs[5] == gs[5];
      assert fs[6] == gs[6] && fs[7] == gs[7] && fs[8] == gs[8] && fs[9] == gs[9] && fs[10] == gs[10];
      assert fs[11] == gs[11];
      Decimal.IntInjective(a.version, b.version);
      Decimal.IntInjective(a.counter, b.counter);
    }
  }

  /** Two envelopes sign the same bytes exactly when every signed field agrees. */
  lemma SigningBytesInjective(a: Envelope, b: Envelope)
    ensures CanonicalHeader(a) == CanonicalHeader(b) <==> SameEnvelopeHeader(a, b)
    ensures CanonicalSigningBytes(a) == CanonicalSigningBytes(b)
       <==> (&& SameEnvelopeHeader(a, b) && a.payloadCiphertext == b.payloadCiphertext
             && a.nonce == b.nonce && a.authTag == b.authTag)
  {
    EnvelopeFieldsInjective(a, b);
    if CanonicalHeader(a) == CanonicalHeader(b) {
      FramedInjective(EnvelopeFields(a), EnvelopeFields(b));
    }
    var va, vb := [a.payloadCiphertext, a.nonce, a.authTag], [b.payloadCiphertext, b.nonce, b.authTag];
    if CanonicalSigningBytes(a) == CanonicalSigningBytes(b) {
      FramedInjective(EnvelopeFields(a) + va, EnvelopeFields(b) + vb);
      AppendInjective(EnvelopeFields(a), va, EnvelopeFields(b), vb);
      assert va[0] == vb[0] && va[1] == vb[1] && va[2] == vb[2];
    }
  }
}
