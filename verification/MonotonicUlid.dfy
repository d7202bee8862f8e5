/**
 * Monotonic ULIDs: 48 bits of time and 80 random bits, written in Crockford base 32.
 *
 * The value-level step `Next` is what the class computes; the theorems say when the identifiers
 * issued by a whole run, under any clock, increase lexicographically.
 */
module MonotonicUlid {
  import opened Basics

  const TIME_LENGTH := 10
  const RANDOM_LENGTH := 16
  const RANDOM_BYTES := 10
  /** 32^10, the number of times that ten base-32 digits can tell apart. */
  const TIME_LIMIT: nat := 0x4_0000_0000_0000
  /** 256^10 = 32^16. */
  const RANDOM_LIMIT: nat := 0x1_0000_0000_0000_0000_0000

  // ---------------------------------------------------------------- incrementing in place

  /** Add one with carry; false once every byte has overflowed (and is therefore zero). */
  function Increment(bytes: seq<Byte>): (r: (bool, seq<Byte>))
    ensures |r.1| == |bytes|
  {
    if bytes == [] then (false, [])
    else
      var init, last := bytes[..|bytes| - 1], bytes[|bytes| - 1];
      if last < 255 then (true, init + [last + 1])
      else
        var (ok, carried) := Increment(init);
        (ok, carried + [0])
  }

  /** `Increment` is +1 on the denoted number, modulo 256^n, and reports overflow exactly. */
  lemma {:induction false} IncrementAddsOne(bytes: seq<Byte>)
    ensures Increment(bytes).0 <==> BigEndian(bytes) + 1 < Pow(256, |bytes|)
    ensures BigEndian(Increment(bytes).1) == if Increment(bytes).0 then BigEndian(bytes) + 1 else 0
  {
    if bytes != [] {
      var init, last := bytes[..|bytes| - 1], bytes[|bytes| - 1];
      BigEndianBound(init);
      if last < 255 {
        BigEndianSnoc(init, last + 1);
        assert Pow(256, |bytes|) == 256 * Pow(256, |init|);
      } else {
        IncrementAddsOne(init);
        BigEndianSnoc(Increment(init).1, 0);
        assert Pow(256, |bytes|) == 256 * Pow(256, |init|);
      }
    }
  }

  method IncrementBigEndian(bytes: array<Byte>) returns (ok: bool)
    modifies bytes
    ensures ok == Increment(old(bytes[..])).0
    ensures bytes[..] == Increment(old(bytes[..])).1
  {
    ghost var was := bytes[..];
    var index := bytes.Length;
    assert was[..index] == was && Increment(was).1 + [] == Increment(was).1;
    while index > 0
      invariant 0 <= index <= bytes.Length
      invariant bytes[..index] == was[..index]
      invariant Increment(was).0 == Increment(was[..index]).0
      invariant Increment(was).1 == Increment(was[..index]).1 + bytes[index..]
    {
      index := index - 1;
      var value := bytes[index];
      ghost var rest := bytes[index + 1..];
      assert was[..index + 1][..index] == was[..index];
      assert was[index] == was[..index + 1][index] == value;
      if value < 0xff {
        bytes[index] := value + 1;
        assert bytes[..] == (was[..index] + [value + 1]) + rest;
        return true;
      }
      bytes[index] := 0;
      assert bytes[index..] == [0] + rest;
      assert (Increment(was[..index]).1 + [0]) + rest == Increment(was[..index]).1 + ([0] + rest);
    }
    assert was[..0] == [] && bytes[0..] == bytes[..];
    return false;
  }

  // ---------------------------------------------------------------- Crockford digits

  /** The low `width` base-32 digits of `value`, most significant first. */
  function Crockford(value: nat, width: nat): (text: string)
    ensures |text| == width
  {
    if width == 0 then "" else Crockford(value / 32, width - 1) + [DigitChar(value % 32)]
  }

  function IdText(time: nat, random: nat): string {
    Crockford(time, TIME_LENGTH) + Crockford(random, RANDOM_LENGTH)
  }

  /** The alphabet leaves out I, L, O and U. */
  function DigitChar(digit: nat): char
    requires digit < 32
  {
    if digit < 10 then '0' + digit as char
    else if digit < 18 then 'A' + (digit - 10) as char
    else if digit < 20 then 'J' + (digit - 18) as char
    else if digit < 22 then 'M' + (digit - 20) as char
    else if digit < 27 then 'P' + (digit - 22) as char
    else 'V' + (digit - 27) as char
  }

  /** Position of a character in the alphabet, or -1. */
  function DigitOf(c: char): (digit: int)
    ensures digit == -1 || 0 <= digit < 32
    ensures digit >= 0 ==> DigitChar(digit) == c
    ensures digit < 0 ==> forall d: nat :: d < 32 ==> DigitChar(d) != c
  {
    if '0' <= c <= '9' then (c - '0') as int
    else if 'A' <= c <= 'H' then (c - 'A') as int + 10
    else if 'J' <= c <= 'K' then (c - 'J') as int + 18
    else if 'M' <= c <= 'N' then (c - 'M') as int + 20
    else if 'P' <= c <= 'T' then (c - 'P') as int + 22
    else if 'V' <= c <= 'Z' then (c - 'V') as int + 27
    else -1
  }

  const ALPHABET := "0123456789ABCDEFGHJKMNPQRSTVWXYZ"

  lemma AlphabetIsCrockford()
    ensures |ALPHABET| == 32 && forall d :: 0 <= d < 32 ==> ALPHABET[d] == DigitChar(d)
  {
    assert seq(32, d requires 0 <= d < 32 => DigitChar(d)) == ALPHABET;
  }

  /** A character has a digit exactly when it is in the alphabet, and then it is its index there. */
  lemma DigitIsIndex(c: char)
    ensures DigitOf(c) >= 0 <==> c in ALPHABET
    ensures DigitOf(c) >= 0 ==> |ALPHABET| == 32 && ALPHABET[DigitOf(c)] == c
  {
    AlphabetIsCrockford();
    if c in ALPHABET {
      var d: nat :| d < |ALPHABET| && ALPHABET[d] == c;
      assert DigitChar(d) == c;
    }
  }

  method EncodeTime(ms: nat) returns (text: string)
    ensures text == Crockford(ms, TIME_LENGTH)
  {
    var value := ms;
    var out := new char[TIME_LENGTH](_ => '0');
    var index := TIME_LENGTH;
    while index > 0
      invariant 0 <= index <= TIME_LENGTH == out.Length
      invariant Crockford(ms, TIME_LENGTH) == Crockford(value, index) + out[index..]
    {
      index := index - 1;
      ghost var rest := out[index + 1..];
      out[index] := DigitChar(value % 32);
      assert out[index..] == [DigitChar(value % 32)] + rest;
      value := value / 32;
    }
    text := out[..];
    assert out[0..] == out[..];
  }

  method EncodeRandom(bytes: seq<Byte>) returns (text: string)
    ensures text == Crockford(BigEndian(bytes), RANDOM_LENGTH)
  {
    var bits: nat := 0;
    for i := 0 to |bytes|
      invariant bits == BigEndian(bytes[..i])
    {
      BigEndianSnoc(bytes[..i], bytes[i]);
      assert bytes[..i + 1] == bytes[..i] + [bytes[i]];
      bits := bits * 256 + bytes[i];
    }
    assert bytes[..|bytes|] == bytes;
    var out := new char[RANDOM_LENGTH](_ => '0');
    var index := RANDOM_LENGTH;
    while index > 0
      invariant 0 <= index <= RANDOM_LENGTH == out.Length
      invariant Crockford(BigEndian(bytes), RANDOM_LENGTH) == Crockford(bits, index) + out[index..]
    {
      index := index - 1;
      ghost var rest := out[index + 1..];
      out[index] := DigitChar(bits % 32);
      assert out[index..] == [DigitChar(bits % 32)] + rest;
      bits := bits / 32;
    }
    text := out[..];
    assert out[0..] == out[..];
  }

  /** Left-to-right value of base-32 text; a foreign character is an error. */
  function DecodeDigits(text: string): Result<nat> {
    if text == "" then Ok(0)
    else
      var head := DecodeDigits(text[..|text| - 1]);
      var digit := DigitOf(text[|text| - 1]);
      if head.Err? || digit < 0 then Err("ulid_caractere_invalide") else Ok(head.value * 32 + digit)
  }

  lemma {:induction false} DecodeErrIsMonotone(text: string, k: nat)
    requires k <= |text|
    requires DecodeDigits(text[..k]).Err?
    ensures DecodeDigits(text) == Err("ulid_caractere_invalide")
  {
    if k == |text| {
      assert text[..k] == text;
    } else {
      assert text[..|text| - 1][..k] == text[..k];
      DecodeErrIsMonotone(text[..|text| - 1], k);
    }
  }

  lemma {:induction false} DecodesExactlyTheAlphabet(text: string)
    ensures DecodeDigits(text).Ok? <==> forall c :: c in text ==> c in ALPHABET
  {
    if text != "" {
      var init, last := text[..|text| - 1], text[|text| - 1];
      DecodesExactlyTheAlphabet(init);
      DigitIsIndex(last);
      assert text == init + [last];
    }
  }

  /** Fails exactly on a foreign character among the first ten; gives back the time of an identifier. */
  method DecodeTime(ulid: string) returns (r: Result<nat>)
    ensures r == DecodeDigits(ulid[..Min(TIME_LENGTH, |ulid|)])
    ensures r.Ok? <==> forall c :: c in ulid[..Min(TIME_LENGTH, |ulid|)] ==> c in ALPHABET
    ensures forall time: nat, random: nat :: time < TIME_LIMIT && ulid == IdText(time, random) ==> r == Ok(time)
  {
    DecodesExactlyTheAlphabet(ulid[..Min(TIME_LENGTH, |ulid|)]);
    forall time: nat, random: nat | time < TIME_LIMIT && ulid == IdText(time, random)
      ensures DecodeDigits(ulid[..Min(TIME_LENGTH, |ulid|)]) == Ok(time)
    {
      TimeRoundTrip(time, random);
    }
    var head := ulid[..Min(TIME_LENGTH, |ulid|)];
    var value: nat := 0;
    for i := 0 to |head|
      invariant DecodeDigits(head[..i]) == Ok(value)
    {
      var digit := DigitOf(head[i]);
      assert head[..i + 1][..i] == head[..i];
      if digit < 0 {
        DecodeErrIsMonotone(head, i + 1);
        return Err("ulid_caractere_invalide");
      }
      value := value * 32 + digit;
    }
    assert head[..|head|] == head;
    return Ok(value);
  }

  lemma {:induction false} DecodeCrockford(value: nat, width: nat)
    requires value < Pow(32, width)
    ensures DecodeDigits(Crockford(value, width)) == Ok(value)
  {
    if width > 0 {
      var text := Crockford(value, width);
      assert text[..width - 1] == Crockford(value / 32, width - 1);
      DecodeCrockford(value / 32, width - 1);
    }
  }

  /** The time written in an identifier reads back, for every time that ten digits can hold. */
  lemma TimeRoundTrip(time: nat, random: nat)
    requires time < TIME_LIMIT
    ensures DecodeDigits(IdText(time, random)[..TIME_LENGTH]) == Ok(time)
  {
    assert IdText(time, random)[..TIME_LENGTH] == Crockford(time, TIME_LENGTH);
    assert Pow(32, 10) == TIME_LIMIT;
    DecodeCrockford(time, TIME_LENGTH);
  }

  // ---------------------------------------------------------------- lexicographic order

  /** The order of `String.compareTo`: at the first difference, or a proper prefix. */
  predicate LexLess(a: string, b: string) {
    b != "" && (a == "" || a[0] < b[0] || (a[0] == b[0] && LexLess(a[1..], b[1..])))
  }

  lemma {:induction false} LexLessAsymmetric(a: string, b: string)
    requires LexLess(a, b)
    ensures !LexLess(b, a)
  {
    if a != "" && a[0] == b[0] {
      LexLessAsymmetric(a[1..], b[1..]);
    }
  }

  lemma {:induction false} LexLessTransitive(a: string, b: string, c: string)
    requires LexLess(a, b) && LexLess(b, c)
    ensures LexLess(a, c)
  {
    if a != "" && a[0] == b[0] == c[0] {
      LexLessTransitive(a[1..], b[1..], c[1..]);
    }
  }

  lemma {:induction false} LexLessExtend(a: string, b: string, c: string, d: string)
    requires |a| == |b|
    requires LexLess(a, b) || (a == b && LexLess(c, d))
    ensures LexLess(a + c, b + d)
  {
    if a == "" {
      assert a + c == c && b + d == d;
    } else if a[0] == b[0] {
      LexLessExtend(a[1..], b[1..], c, d);
      assert (a + c)[1..] == a[1..] + c && (b + d)[1..] == b[1..] + d;
    }
  }

  /** Fixed-width Crockford text preserves order. */
  lemma {:induction false} CrockfordOrder(v: nat, w: nat, width: nat)
    requires v < w < Pow(32, width)
    ensures LexLess(Crockford(v, width), Crockford(w, width))
  {
    if width > 0 {
      var cv, cw := [DigitChar(v % 32)], [DigitChar(w % 32)];
      if v / 32 < w / 32 {
        assert w / 32 < Pow(32, width - 1);
        CrockfordOrder(v / 32, w / 32, width - 1);
      } else {
        assert v / 32 == w / 32 && v % 32 < w % 32;
      }
      LexLessExtend(Crockford(v / 32, width - 1), Crockford(w / 32, width - 1), cv, cw);
    }
  }

  ghost predicate Before(t1: nat, r1: nat, t2: nat, r2: nat) {
    t1 < t2 || (t1 == t2 && r1 < r2)
  }

  /** Identifiers compare exactly as their (time, random) pairs do. */
  lemma IdOrder(t1: nat, r1: nat, t2: nat, r2: nat)
    requires t1 < TIME_LIMIT && t2 < TIME_LIMIT
    requires r1 < RANDOM_LIMIT && r2 < RANDOM_LIMIT
    ensures LexLess(IdText(t1, r1), IdText(t2, r2)) <==> Before(t1, r1, t2, r2)
  {
    if Before(t1, r1, t2, r2) {
      IdOrderForward(t1, r1, t2, r2);
    } else if Before(t2, r2, t1, r1) {
      IdOrderForward(t2, r2, t1, r1);
      LexLessAsymmetric(IdText(t2, r2), IdText(t1, r1));
    } else if LexLess(IdText(t1, r1), IdText(t2, r2)) {
      LexLessAsymmetric(IdText(t1, r1), IdText(t2, r2));
    }
  }

  lemma IdOrderForward(t1: nat, r1: nat, t2: nat, r2: nat)
    requires t2 < TIME_LIMIT && r1 < RANDOM_LIMIT && r2 < RANDOM_LIMIT
    requires Before(t1, r1, t2, r2)
    ensures LexLess(IdText(t1, r1), IdText(t2, r2))
  {
    assert Pow(32, 10) == TIME_LIMIT;
    assert Pow(32, 16) == RANDOM_LIMIT;
    if t1 < t2 {
      CrockfordOrder(t1, t2, TIME_LENGTH);
    } else {
      CrockfordOrder(r1, r2, RANDOM_LENGTH);
    }
    LexLessExtend(Crockford(t1, 10), Crockford(t2, 10), Crockford(r1, 16), Crockford(r2, 16));
  }

  // ---------------------------------------------------------------- the generator

  datatype Generator = Generator(lastTime: int, lastRandom: seq<Byte>)

  /** One call: what the clock said, and what the random source would return. */
  datatype Call = Call(now: int, random: seq<Byte>)

  const INITIAL := Generator(-1, seq(RANDOM_BYTES, _ => 0))

  /** `copyOf(10)`: truncate, or pad with zeros. */
  function CopyOf(bytes: seq<Byte>): (r: seq<Byte>)
    ensures |r| == RANDOM_BYTES
    ensures forall i :: 0 <= i < RANDOM_BYTES ==> r[i] == if i < |bytes| then bytes[i] else 0
  {
    if |bytes| >= RANDOM_BYTES then bytes[..RANDOM_BYTES]
    else bytes + seq(RANDOM_BYTES - |bytes|, _ => 0)
  }

  ghost predicate WellFormed(g: Generator) {
    g.lastTime >= -1 && |g.lastRandom| == RANDOM_BYTES
  }

  function Next(g: Generator, call: Call): (r: (Generator, Result<string>)) {
    if call.now < 0 then (g, Err("ulid_horloge_invalide"))
    else if call.now > g.lastTime then
      var g' := Generator(call.now, CopyOf(call.random));
      (g', Ok(IdText(call.now, BigEndian(g'.lastRandom))))
    else
      var (ok, random) := Increment(g.lastRandom);
      var g' := g.(lastRandom := random);
      if ok then (g', Ok(IdText(g.lastTime, BigEndian(random)))) else (g', Err("ulid_entropy_exhausted"))
  }

  class Ulid {
    var lastTime: int
    var lastRandom: array<Byte>

    ghost predicate Valid()
      reads this
    {
      lastTime >= -1 && lastRandom.Length == RANDOM_BYTES
    }

    ghost function Value(): Generator
      reads this, lastRandom
    {
      Generator(lastTime, lastRandom[..])
    }

    constructor ()
      ensures Valid() && fresh(lastRandom)
      ensures Value() == INITIAL
    {
      lastTime := -1;
      lastRandom := new Byte[RANDOM_BYTES](_ => 0);
    }

    method NextId(call: Call) returns (r: Result<string>)
      requires Valid()
      modifies this, lastRandom
      ensures Valid() && (lastRandom == old(lastRandom) || fresh(lastRandom))
      ensures (Value(), r) == Next(old(Value()), call)
    {
      if call.now < 0 {
        return Err("ulid_horloge_invalide");
      }
      if call.now > lastTime {
        lastTime := call.now;
        var bytes := CopyOf(call.random);
        lastRandom := new Byte[RANDOM_BYTES](i requires 0 <= i < RANDOM_BYTES => bytes[i]);
        assert lastRandom[..] == bytes;
      } else {
        var ok := IncrementBigEndian(lastRandom);
        if !ok {
          return Err("ulid_entropy_exhausted");
        }
      }
      var time := EncodeTime(lastTime);
      var random := EncodeRandom(lastRandom[..]);
      return Ok(time + random);
    }
  }

  // ---------------------------------------------------------------- whole runs

  /** The identifiers that a run of calls issues, in order; failed calls issue none. */
  function Ids(g: Generator, calls: seq<Call>): seq<string>
    decreases calls
  {
    if calls == [] then []
    else
      var (g', r) := Next(g, calls[0]);
      (if r.Ok? then [r.value] else []) + Ids(g', calls[1..])
  }

  ghost predicate Increasing(ids: seq<string>) {
    forall i, j {:trigger LexLess(ids[i], ids[j])} :: 0 <= i < j < |ids| ==> LexLess(ids[i], ids[j])
  }

  predicate Exhausts(g: Generator, call: Call) {
    0 <= call.now <= g.lastTime && !Increment(g.lastRandom).0
  }

  /** The first usable clock reading in `calls`, if there is one, is later than `time`. */
  predicate ClockAdvances(time: int, calls: seq<Call>) {
    calls == [] || (if calls[0].now < 0 then ClockAdvances(time, calls[1..]) else calls[0].now > time)
  }

  /** After each exhaustion the generator is next used only once the clock has moved on. */
  predicate WaitsAfterExhaustion(g: Generator, calls: seq<Call>)
    decreases calls
  {
    calls == [] ||
    (&& (Exhausts(g, calls[0]) ==> ClockAdvances(g.lastTime, calls[1..]))
     && WaitsAfterExhaustion(Next(g, calls[0]).0, calls[1..]))
  }

  ghost predicate ClockInRange(calls: seq<Call>) {
    forall i :: 0 <= i < |calls| ==> calls[i].now < TIME_LIMIT
  }

  /** `(g.lastTime, last)` is the pair last issued; the bytes still hold it, or have been zeroed. */
  ghost predicate Issued(g: Generator, last: nat) {
    && WellFormed(g)
    && 0 <= g.lastTime < TIME_LIMIT
    && last < RANDOM_LIMIT
    && (BigEndian(g.lastRandom) == last || (last == RANDOM_LIMIT - 1 && BigEndian(g.lastRandom) == 0))
  }

  lemma IncreasingCons(a: string, b: string, rest: seq<string>)
    requires |a| == |b|
    requires forall i :: 0 <= i < |rest| ==> |rest[i]| == |b|
    ensures Increasing([a, b] + rest) <==> LexLess(a, b) && Increasing([b] + rest)
  {
    var all, tail := [a, b] + rest, [b] + rest;
    assert tail == all[1..];
    if LexLess(a, b) && Increasing(tail) {
      forall i, j | 0 <= i < j < |all| ensures LexLess(all[i], all[j]) {
        if i > 0 {
          assert all[i] == tail[i - 1] && all[j] == tail[j - 1];
        } else if j > 1 {
          assert tail[0] == b && all[j] == tail[j - 1];
          LexLessTransitive(a, b, all[j]);
        }
      }
    }
    if Increasing(all) {
      assert all[0] == a && all[1] == b;
      forall i, j | 0 <= i < j < |tail| ensures LexLess(tail[i], tail[j]) {
        assert tail[i] == all[i + 1] && tail[j] == all[j + 1];
      }
    }
  }

  lemma {:induction false} IdsHaveLength(g: Generator, calls: seq<Call>)
    ensures forall i :: 0 <= i < |Ids(g, calls)| ==> |Ids(g, calls)[i]| == 26
    decreases calls
  {
    if calls != [] {
      IdsHaveLength(Next(g, calls[0]).0, calls[1..]);
    }
  }

  /** The 80-bit reading of the two byte lemmas above. */
  lemma TenBytes(bytes: seq<Byte>)
    requires |bytes| == RANDOM_BYTES
    ensures BigEndian(bytes) < RANDOM_LIMIT
    ensures Increment(bytes).0 <==> BigEndian(bytes) + 1 < RANDOM_LIMIT
    ensures BigEndian(Increment(bytes).1) == if Increment(bytes).0 then BigEndian(bytes) + 1 else 0
  {
    assert Pow(256, 10) == RANDOM_LIMIT;
    BigEndianBound(bytes);
    IncrementAddsOne(bytes);
  }

  /** A call that issues keeps `Issued`, and is later than the previous pair unless it follows a wrap. */
  lemma NextIssues(g: Generator, last: nat, call: Call)
    requires Issued(g, last) && call.now < TIME_LIMIT
    requires Next(g, call).1.Ok?
    ensures var (g', r) := Next(g, call);
            var issued := BigEndian(g'.lastRandom);
            && Issued(g', issued)
            && r.value == IdText(g'.lastTime, issued)
            && (LexLess(IdText(g.lastTime, last), r.value) <==>
                BigEndian(g.lastRandom) == last || call.now > g.lastTime)
  {
    var g' := Next(g, call).0;
    TenBytes(g.lastRandom);
    TenBytes(g'.lastRandom);
    IdOrder(g.lastTime, last, g'.lastTime, BigEndian(g'.lastRandom));
  }

  /** An exhausted call issues nothing and leaves the bytes zeroed. */
  lemma NextExhausted(g: Generator, last: nat, call: Call)
    requires Issued(g, last) && Exhausts(g, call)
    ensures var g' := Next(g, call).0;
            Issued(g', last) && BigEndian(g'.lastRandom) == 0 != last && BigEndian(g.lastRandom) == last
  {
    TenBytes(g.lastRandom);
  }

  /** What the rest of the run has to do for the identifiers to keep increasing from `last` on. */
  ghost predicate KeepsGoing(g: Generator, last: nat, calls: seq<Call>) {
    (BigEndian(g.lastRandom) == last || ClockAdvances(g.lastTime, calls)) && WaitsAfterExhaustion(g, calls)
  }

  lemma AfterRejected(g: Generator, last: nat, calls: seq<Call>)
    requires calls != [] && calls[0].now < 0
    ensures Ids(g, calls) == Ids(g, calls[1..])
    ensures KeepsGoing(g, last, calls) <==> KeepsGoing(g, last, calls[1..])
  {
  }

  lemma AfterIssued(g: Generator, last: nat, calls: seq<Call>)
    requires Issued(g, last) && ClockInRange(calls) && calls != [] && calls[0].now >= 0 && Next(g, calls[0]).1.Ok?
    ensures var (g', r) := Next(g, calls[0]);
            && Ids(g, calls) == [r.value] + Ids(g', calls[1..])
            && (KeepsGoing(g, last, calls) <==>
                LexLess(IdText(g.lastTime, last), r.value) && KeepsGoing(g', BigEndian(g'.lastRandom), calls[1..]))
  {
    NextIssues(g, last, calls[0]);
  }

  lemma AfterExhausted(g: Generator, last: nat, calls: seq<Call>)
    requires Issued(g, last) && calls != [] && calls[0].now >= 0 && Next(g, calls[0]).1.Err?
    ensures var g' := Next(g, calls[0]).0;
            && Ids(g, calls) == Ids(g', calls[1..])
            && Issued(g', last) && g'.lastTime == g.lastTime
            && (KeepsGoing(g, last, calls) <==> KeepsGoing(g', last, calls[1..]))
  {
    NextExhausted(g, last, calls[0]);
  }

  lemma IncreasingOntoRest(previous: string, next: string, rest: seq<string>, ids: seq<string>)
    requires |previous| == |next| && forall i :: 0 <= i < |rest| ==> |rest[i]| == |next|
    requires ids == [next] + rest
    ensures Increasing([previous] + ids) <==> LexLess(previous, next) && Increasing([next] + rest)
  {
    IncreasingCons(previous, next, rest);
    assert [previous] + ids == [previous, next] + rest;
  }

  lemma {:induction false} RunAfterIssue(g: Generator, last: nat, calls: seq<Call>)
    requires Issued(g, last) && ClockInRange(calls)
    ensures Increasing([IdText(g.lastTime, last)] + Ids(g, calls)) <==> KeepsGoing(g, last, calls)
    decreases calls
  {
    if calls == [] {
      return;
    }
    var rest, previous := calls[1..], IdText(g.lastTime, last);
    var (g', r) := Next(g, calls[0]);
    assert ClockInRange(rest);
    if calls[0].now < 0 {
      AfterRejected(g, last, calls);
      RunAfterIssue(g, last, rest);
    } else if r.Ok? {
      NextIssues(g, last, calls[0]);
      AfterIssued(g, last, calls);
      RunAfterIssue(g', BigEndian(g'.lastRandom), rest);
      IdsHaveLength(g', rest);
      IncreasingOntoRest(previous, r.value, Ids(g', rest), Ids(g, calls));
    } else {
      AfterExhausted(g, last, calls);
      RunAfterIssue(g', last, rest);
    }
  }

  /**
   * From a fresh generator, under any clock (equal and backward readings included) and any random
   * bytes, the issued identifiers strictly increase if and only if no exhausted generator is used
   * again before its clock has moved on.
   */
  lemma {:induction false} RunIncreasesExactlyWhen(calls: seq<Call>)
    requires ClockInRange(calls)
    ensures Increasing(Ids(INITIAL, calls)) <==> WaitsAfterExhaustion(INITIAL, calls)
  {
    if calls == [] {
      return;
    }
    var call, rest := calls[0], calls[1..];
    assert ClockInRange(rest);
    var (g', r) := Next(INITIAL, call);
    if call.now < 0 {
      assert Ids(INITIAL, calls) == Ids(INITIAL, rest);
      RunIncreasesExactlyWhen(rest);
    } else {
      TenBytes(g'.lastRandom);
      RunAfterIssue(g', BigEndian(g'.lastRandom), rest);
      assert Ids(INITIAL, calls) == [r.value] + Ids(g', rest);
    }
  }

  predicate NeverExhausts(g: Generator, calls: seq<Call>)
    decreases calls
  {
    calls == [] || (!Exhausts(g, calls[0]) && NeverExhausts(Next(g, calls[0]).0, calls[1..]))
  }

  lemma {:induction false} NeverExhaustsWaits(g: Generator, calls: seq<Call>)
    requires NeverExhausts(g, calls)
    ensures WaitsAfterExhaustion(g, calls)
    decreases calls
  {
    if calls != [] {
      NeverExhaustsWaits(Next(g, calls[0]).0, calls[1..]);
    }
  }

  /** The promise of the generator, up to its first exhaustion. */
  lemma RunIncreasesUntilExhaustion(calls: seq<Call>)
    requires ClockInRange(calls) && NeverExhausts(INITIAL, calls)
    ensures Increasing(Ids(INITIAL, calls))
  {
    NeverExhaustsWaits(INITIAL, calls);
    RunIncreasesExactlyWhen(calls);
  }

  /** Exhaustion zeroes the bytes, so retrying within the same millisecond goes backwards. */
  lemma ExhaustionGoesBackwards()
    ensures var full := seq(RANDOM_BYTES, _ => 255 as Byte);
            var calls := [Call(7, full), Call(7, []), Call(7, [])];
            !Increasing(Ids(INITIAL, calls))
  {
    var full: seq<Byte> := seq(RANDOM_BYTES, _ => 255);
    var calls := [Call(7, full), Call(7, []), Call(7, [])];
    var g1 := Next(INITIAL, calls[0]).0;
    assert g1.lastRandom == full;
    FullCannotIncrement(RANDOM_BYTES);
    assert Exhausts(g1, calls[1]);
    assert calls[1..][0] == calls[1] && calls[1..][1..][0] == calls[2];
    assert !ClockAdvances(7, calls[1..][1..]);
    assert !WaitsAfterExhaustion(g1, calls[1..]);
    RunIncreasesExactlyWhen(calls);
  }

  lemma {:induction false} FullCannotIncrement(n: nat)
    ensures !Increment(seq(n, _ => 255 as Byte)).0
  {
    if n > 0 {
      var full: seq<Byte> := seq(n, _ => 255);
      var fewer: seq<Byte> := seq(n - 1, _ => 255);
      assert full[..n - 1] == fewer;
      FullCannotIncrement(n - 1);
    }
  }

  // ---------------------------------------------------------------- what one call issues
  /**
   * A call in a new millisecond keeps the drawn bytes and issues the time followed by them; a call in the
   * same millisecond, or after the clock went back, issues the next number at the last time, until the 80
   * bits are used up. A clock before 1970 is refused.
   */
  lemma CallIssues(g: Generator, call: Call)
    requires WellFormed(g)
    ensures var (g', r), last := Next(g, call), BigEndian(g.lastRandom);
            if call.now < 0 then g' == g && r == Err("ulid_horloge_invalide")
            else if call.now > g.lastTime then
              && g'.lastTime == call.now && |g'.lastRandom| == 10
              && (forall i :: 0 <= i < 10 ==> g'.lastRandom[i] == if i < |call.random| then call.random[i] else 0)
              && r == Ok(IdText(call.now, BigEndian(g'.lastRandom)))
            else
              && g'.lastTime == g.lastTime && |g'.lastRandom| == 10
              && if last + 1 < RANDOM_LIMIT
                 then BigEndian(g'.lastRandom) == last + 1 && r == Ok(IdText(g.lastTime, last + 1))
                 else BigEndian(g'.lastRandom) == 0 && r == Err("ulid_entropy_exhausted")
  {
    TenBytes(g.lastRandom);
  }

  ghost predicate DrawsFresh(g: Generator, call: Call) {
    WellFormed(g) && call.now > g.lastTime && 0 <= call.now < TIME_LIMIT && |call.random| == RANDOM_BYTES
  }

  /** All eighty drawn bits reach the identifier: two fresh identifiers are equal only for equal draws. */
  lemma FreshIdentifiersTellDraws(g: Generator, c: Call, h: Generator, d: Call)
    requires DrawsFresh(g, c) && DrawsFresh(h, d)
    ensures Next(g, c).0 == Generator(c.now, c.random)
    ensures Next(g, c).1 == Next(h, d).1 <==> c.now == d.now && c.random == d.random
  {
    CallIssues(g, c);
    CallIssues(h, d);
    assert Next(g, c).0.lastRandom == c.random && Next(h, d).0.lastRandom == d.random;
    if Next(g, c).1 == Next(h, d).1 {
      IdTextInjective(c.now, BigEndian(c.random), d.now, BigEndian(d.random), c.random, d.random);
    }
  }

  lemma IdTextInjective(t1: nat, r1: nat, t2: nat, r2: nat, b1: seq<Byte>, b2: seq<Byte>)
    requires t1 < TIME_LIMIT && t2 < TIME_LIMIT && |b1| == |b2| == RANDOM_BYTES
    requires r1 == BigEndian(b1) && r2 == BigEndian(b2) && IdText(t1, r1) == IdText(t2, r2)
    ensures t1 == t2 && b1 == b2
  {
    TenBytes(b1);
    TenBytes(b2);
    IdOrder(t1, r1, t2, r2);
    IdOrder(t2, r2, t1, r1);
    if LexLess(IdText(t1, r1), IdText(t2, r2)) { LexLessAsymmetric(IdText(t1, r1), IdText(t2, r2)); }
    BigEndianWritesBack(b1);
    BigEndianWritesBack(b2);
  }
}
