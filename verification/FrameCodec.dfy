/**
 Compression records and their fragments: build and decode one record, split it into fragments,
 and put fragments back together under size, order and time limits.
 */
module FrameCodec {
  import opened Prelude

  type Byte = x: int | 0 <= x < 256
  type Bytes = seq<Byte>

  const MAX_UNCOMPRESSED_LEN: nat := 1_048_576
  const RECORD_HEADER_LEN: nat := 5
  const MAX_COMPRESSED_RECORD_LEN: nat := 1_049_641
  const MAX_MESSAGE_LEN: nat := 65_535
  const AEAD_TAG_LEN: nat := 16
  const FRAGMENT_HEADER_LEN: nat := 2
  const MAX_CHUNK_LEN: nat := MAX_MESSAGE_LEN - AEAD_TAG_LEN - FRAGMENT_HEADER_LEN
  const MAX_FRAG_COUNT: nat := 40
  const READ_BUFFER_LEN: nat := 8192
  const INTER_FRAGMENT_TIMEOUT: nat := 10 * SECOND

  datatype Reason =
    | InflateFailed | InflatedTooLarge
    | ShortRecord | DeclaredTooLarge | LengthMismatch | UnknownCodec
    | Timeout | ShortFragment | FirstNotZero | BadCount | RunningTotal | CountChanged | OutOfOrder

  datatype Error = EnvelopeTooLarge | ProtocolError(reason: Reason)
  datatype Result<+T> = Ok(value: T) | Err(error: Error)

  // zlib as the two library calls: what inflating a body yields before it ends, cleanly or not.
  datatype Inflated = Inflated(output: Bytes, clean: bool)
  datatype Zlib = Zlib(deflate: Bytes -> Bytes, inflate: Bytes -> Inflated)

  ghost predicate Inverts(z: Zlib) {
    forall x: Bytes :: z.inflate(z.deflate(x)) == Inflated(x, true)
  }

  // ---- one record ----

  function Bounded(s: Inflated): Result<Bytes> {
    if |s.output| > MAX_UNCOMPRESSED_LEN then Err(ProtocolError(InflatedTooLarge))
    else if !s.clean then Err(ProtocolError(InflateFailed))
    else Ok(s.output)
  }

  // Reads of any size up to the buffer; stops the moment the output exceeds the cap, so at most one
  // buffer beyond it is ever held (`peak`).
  method BoundedZlibDecompress(z: Zlib, body: Bytes) returns (r: Result<Bytes>, ghost peak: nat)
    ensures r == Bounded(z.inflate(body))
    ensures peak <= MAX_UNCOMPRESSED_LEN + READ_BUFFER_LEN
    ensures r.Ok? ==> |r.value| <= peak
  {
    var s := z.inflate(body);
    var out: Bytes := [];
    peak := 0;
    while true
      invariant |out| <= |s.output| && out == s.output[..|out|]
      invariant |out| <= MAX_UNCOMPRESSED_LEN
      invariant |out| <= peak <= MAX_UNCOMPRESSED_LEN + READ_BUFFER_LEN
      decreases |s.output| - |out|
    {
      if |out| == |s.output| {
        if !s.clean {
          return Err(ProtocolError(InflateFailed)), peak;
        }
        break;
      }
      var read :| 0 < read <= READ_BUFFER_LEN && read <= |s.output| - |out|;
      out := out + s.output[|out|..|out| + read];
      peak := if peak < |out| then |out| else peak;
      if |out| > MAX_UNCOMPRESSED_LEN {
        return Err(ProtocolError(InflatedTooLarge)), peak;
      }
    }
    assert out == s.output;
    r := Ok(out);
  }

  function BigEndian(n: nat): (r: Bytes)
    requires n < 0x1_0000_0000
    ensures |r| == 4
  {
    [n / 0x100_0000, (n / 0x1_0000) % 256, (n / 256) % 256, n % 256]
  }

  function FromBigEndian(b: Bytes): nat
    requires |b| == 4
  {
    var b0: int, b1: int, b2: int, b3: int := b[0], b[1], b[2], b[3];
    b0 * 0x100_0000 + b1 * 0x1_0000 + b2 * 256 + b3
  }

  lemma BigEndianRoundTrip(n: nat)
    requires n < 0x1_0000_0000
    ensures FromBigEndian(BigEndian(n)) == n
  {
    assert n / 0x1_0000 == n / 0x100_0000 * 256 + (n / 0x1_0000) % 256;
    assert n / 256 == n / 0x1_0000 * 256 + (n / 256) % 256;
  }

  // Most significant byte first: one byte more on the right is one digit more in base 256.
  lemma BigEndianShifts(n: nat, last: Byte)
    requires n < 0x100_0000
    ensures BigEndian(n)[0] == 0 && BigEndian(256 * n + last) == BigEndian(n)[1..] + [last]
  {
    var m := 256 * n + last;
    LastByte(n, last);
    ByteByByte(m);
    ByteByByte(n);
  }

  function BuildRecord(z: Zlib, envelope: Bytes): Result<Bytes> {
    if |envelope| > MAX_UNCOMPRESSED_LEN then Err(EnvelopeTooLarge)
    else
      var compressed := z.deflate(envelope);
      if |compressed| < |envelope| then Ok([1] + BigEndian(|envelope|) + compressed)
      else Ok([0] + BigEndian(|envelope|) + envelope)
  }

  function DecodeRecord(z: Zlib, record: Bytes): (r: Result<Bytes>)
    ensures r.Ok? ==> |r.value| <= MAX_UNCOMPRESSED_LEN
  {
    if |record| < RECORD_HEADER_LEN then Err(ProtocolError(ShortRecord))
    else
      var declared := FromBigEndian(record[1..5]);
      var body := record[RECORD_HEADER_LEN..];
      if declared > MAX_UNCOMPRESSED_LEN then Err(ProtocolError(DeclaredTooLarge))
      else if record[0] == 0 then
        if |body| != declared then Err(ProtocolError(LengthMismatch)) else Ok(body)
      else if record[0] == 1 then Bounded(z.inflate(body))
      else Err(ProtocolError(UnknownCodec))
  }

  // One record survives the trip, and is at most five bytes longer than its envelope.
  lemma RecordRoundTrip(z: Zlib, envelope: Bytes)
    requires Inverts(z) && |envelope| <= MAX_UNCOMPRESSED_LEN
    ensures var record := BuildRecord(z, envelope);
            record.Ok? && DecodeRecord(z, record.value) == Ok(envelope)
            && RECORD_HEADER_LEN <= |record.value| <= |envelope| + RECORD_HEADER_LEN
  {
    var record := BuildRecord(z, envelope).value;
    BigEndianRoundTrip(|envelope|);
    assert record[1..5] == BigEndian(|envelope|);
    var compressed := z.deflate(envelope);
    if |compressed| < |envelope| {
      assert record[RECORD_HEADER_LEN..] == compressed;
    } else {
      assert record[RECORD_HEADER_LEN..] == envelope;
    }
  }

  // A record carries whichever is shorter, marked 1 for the deflated envelope and 0 for the envelope
  // itself; only an envelope over 1 MiB has none.
  lemma RecordIsTheShorter(z: Zlib, envelope: Bytes)
    ensures BuildRecord(z, envelope) == Err(EnvelopeTooLarge) <==> |envelope| > 1_048_576
    ensures |envelope| <= 1_048_576 ==>
      var record := BuildRecord(z, envelope).value;
      && record[1..5] == BigEndian(|envelope|)
      && (record[0] == 1 <==> |z.deflate(envelope)| < |envelope|) && (record[0] == 0 || record[0] == 1)
      && record[5..] == if record[0] == 1 then z.deflate(envelope) else envelope
  {
  }

  lemma HeaderIs(record: Bytes, codec: Byte, declared: nat)
    requires |record| >= 5 && declared < 0x1_0000_0000
    ensures record[0] == codec && FromBigEndian(record[1..5]) == declared
      <==> record[..5] == [codec] + BigEndian(declared)
  {
    BigEndianRoundTrip(declared);
    BytesAreBigEndian(record[1..5]);
    assert record[..5] == [record[0]] + record[1..5];
    assert ([codec] + BigEndian(declared))[0] == codec && ([codec] + BigEndian(declared))[1..] == BigEndian(declared);
  }

  lemma BytesAreBigEndian(b: Bytes)
    requires |b| == 4
    ensures FromBigEndian(b) < 0x1_0000_0000 && BigEndian(FromBigEndian(b)) == b
  {
    var n := FromBigEndian(b);
    var b0: int, b1: int, b2: int, b3: int := b[0], b[1], b[2], b[3];
    assert n == 256 * (256 * (256 * b0 + b1) + b2) + b3;
    LastByte(256 * (256 * b0 + b1) + b2, b3);
    LastByte(256 * b0 + b1, b2);
    LastByte(b0, b1);
    ByteByByte(n);
  }

  lemma LastByte(n: nat, last: nat)
    requires last < 256
    ensures (256 * n + last) / 256 == n && (256 * n + last) % 256 == last
  {
  }

  lemma ByteByByte(n: nat)
    ensures n / 0x1_0000 == n / 256 / 256 && n / 0x100_0000 == n / 256 / 256 / 256
  {
  }

  // The length a header declares.
  function Declared(record: Bytes): nat
    requires |record| >= 5
  {
    var b1: int, b2: int, b3: int, b4: int := record[1], record[2], record[3], record[4];
    256 * (256 * (256 * b1 + b2) + b3) + b4
  }

  // `record` is the envelope behind a header that gives its length, or anything that inflates cleanly to it
  // behind a header that declares no more than 1 MiB.
  predicate Records(z: Zlib, record: Bytes, envelope: Bytes) {
    && |envelope| <= 1_048_576
    && (|| record == [0] + BigEndian(|envelope|) + envelope
        || (&& |record| >= 5 && record[0] == 1 && Declared(record) <= 1_048_576
            && z.inflate(record[5..]) == Inflated(envelope, true)))
  }

  // Decoding yields an envelope exactly from such a record; so for codec 0 the length is checked, and no
  // other codec is accepted.
  lemma DecodesIff(z: Zlib, record: Bytes, envelope: Bytes)
    ensures DecodeRecord(z, record) == Ok(envelope) <==> Records(z, record, envelope)
  {
    if |record| >= 5 && |envelope| <= 1_048_576 {
      HeaderIs(record, 0, |envelope|);
      assert record == record[..5] + record[5..];
      assert ([0] + BigEndian(|envelope|) + envelope)[..5] == [0] + BigEndian(|envelope|);
      assert ([0] + BigEndian(|envelope|) + envelope)[5..] == envelope;
    }
  }

  // For codec 1 the declared length is only capped: a record may declare a length its body does not have.
  lemma DeclaredLengthIsOnlyCapped(z: Zlib, envelope: Bytes, declared: nat)
    requires Inverts(z) && |envelope| <= MAX_UNCOMPRESSED_LEN && declared < 0x1_0000_0000
    ensures DecodeRecord(z, [1] + BigEndian(declared) + z.deflate(envelope))
            == if declared <= MAX_UNCOMPRESSED_LEN then Ok(envelope) else Err(ProtocolError(DeclaredTooLarge))
  {
    var record: Bytes := [1] + BigEndian(declared) + z.deflate(envelope);
    BigEndianRoundTrip(declared);
    assert record[1..5] == BigEndian(declared);
    assert record[RECORD_HEADER_LEN..] == z.deflate(envelope);
  }

  // ---- fragments ----

  function ChunkCount(len: nat): nat {
    (len + MAX_CHUNK_LEN - 1) / MAX_CHUNK_LEN
  }

  function ChunkEnd(len: nat, k: nat): (e: nat)
    ensures e <= len
  {
    if k * MAX_CHUNK_LEN <= len then k * MAX_CHUNK_LEN else len
  }

  function Chunk(record: Bytes, i: nat): Bytes {
    record[ChunkEnd(|record|, i)..ChunkEnd(|record|, i + 1)]
  }

  // Both header bytes are casts to eight bits.
  function SplitIntoFragments(record: Bytes): (r: seq<Bytes>) {
    var n := ChunkCount(|record|);
    seq(n, i requires 0 <= i < n => [i % 256, n % 256] + Chunk(record, i))
  }

  // Fragment `i` fits, counts correctly and carries its chunk, which is not empty.
  predicate WellCut(record: Bytes, fragments: seq<Bytes>, i: nat)
    requires i < |fragments|
  {
    |fragments[i]| + AEAD_TAG_LEN <= MAX_MESSAGE_LEN && |fragments[i]| > FRAGMENT_HEADER_LEN
    && fragments[i][0] == i && fragments[i][1] == |fragments|
    && fragments[i][FRAGMENT_HEADER_LEN..] == Chunk(record, i)
  }

  // No record takes more than 17 fragments, so the casts lose nothing; and every fragment with its
  // authentication tag fits one transport message.
  lemma FragmentsFit(z: Zlib, envelope: Bytes)
    requires Inverts(z) && |envelope| <= MAX_UNCOMPRESSED_LEN
    ensures var record := BuildRecord(z, envelope).value;
            var fragments := SplitIntoFragments(record);
            1 <= |fragments| <= 17
            && forall i :: 0 <= i < |fragments| ==> WellCut(record, fragments, i)
  {
    RecordRoundTrip(z, envelope);
    SplitShape(BuildRecord(z, envelope).value);
  }

  lemma SplitShape(record: Bytes)
    requires 0 < |record| <= MAX_UNCOMPRESSED_LEN + RECORD_HEADER_LEN
    ensures var fragments := SplitIntoFragments(record);
            1 <= |fragments| <= 17
            && forall i :: 0 <= i < |fragments| ==> WellCut(record, fragments, i)
  {
    ChunkBounds(|record|);
    forall i | 0 <= i < ChunkCount(|record|) ensures WellCut(record, SplitIntoFragments(record), i) {
      ChunkSize(record, i);
    }
  }

  lemma ChunkBounds(len: nat)
    requires 0 < len <= MAX_UNCOMPRESSED_LEN + RECORD_HEADER_LEN
    ensures 1 <= ChunkCount(len) <= 17
  {
  }

  lemma ChunkSize(record: Bytes, i: nat)
    requires i < ChunkCount(|record|)
    ensures 0 < |Chunk(record, i)| <= MAX_CHUNK_LEN
  {
  }

  // ---- reassembly ----

  datatype Partial = Partial(fragCount: nat, nextIndex: nat, buffer: Bytes, lastFragmentAt: Time)

  type Outcome = Result<Option<Bytes>>

  function Completed(r: Result<Bytes>): Outcome {
    match r
    case Ok(envelope) => Ok(Some(envelope))
    case Err(e) => Err(e)
  }

  // One call: the new partial record and the answer.
  function Accept(z: Zlib, p: Option<Partial>, fragment: Bytes, now: Time): (Option<Partial>, Outcome) {
    if p.Some? && Since(now, p.value.lastFragmentAt) > INTER_FRAGMENT_TIMEOUT then (None, Err(ProtocolError(Timeout)))
    else if |fragment| < FRAGMENT_HEADER_LEN then (None, Err(ProtocolError(ShortFragment)))
    else
      var index, count, chunk := fragment[0], fragment[1], fragment[FRAGMENT_HEADER_LEN..];
      if p.None? then
        if index != 0 then (None, Err(ProtocolError(FirstNotZero)))
        else if count == 0 || count > MAX_FRAG_COUNT then (None, Err(ProtocolError(BadCount)))
        else if |chunk| > MAX_COMPRESSED_RECORD_LEN then (None, Err(ProtocolError(RunningTotal)))
        else if count == 1 then (None, Completed(DecodeRecord(z, chunk)))
        else (Some(Partial(count, 1, chunk, now)), Ok(None))
      else if count != p.value.fragCount then (None, Err(ProtocolError(CountChanged)))
      else if index != p.value.nextIndex then (None, Err(ProtocolError(OutOfOrder)))
      else
        var buffer := p.value.buffer + chunk;
        if |buffer| > MAX_COMPRESSED_RECORD_LEN then (None, Err(ProtocolError(RunningTotal)))
        else if index == count - 1 then (None, Completed(DecodeRecord(z, buffer)))
        else (Some(Partial(count, p.value.nextIndex + 1, buffer, now)), Ok(None))
  }

  class Reassembler {
    var partial: Option<Partial>

    constructor ()
      ensures partial == None
    {
      partial := None;
    }

    method AcceptFragment(z: Zlib, plaintext: Bytes, now: Time) returns (r: Outcome)
      modifies this
      ensures (partial, r) == Accept(z, old(partial), plaintext, now)
    {
      if partial.Some? && Since(now, partial.value.lastFragmentAt) > INTER_FRAGMENT_TIMEOUT {
        partial := None;
        return Err(ProtocolError(Timeout));
      }
      if |plaintext| < FRAGMENT_HEADER_LEN {
        partial := None;
        return Err(ProtocolError(ShortFragment));
      }
      var fragIndex := plaintext[0];
      var fragCount := plaintext[1];
      var chunk := plaintext[FRAGMENT_HEADER_LEN..];

      if partial.None? {
        if fragIndex != 0 {
          return Err(ProtocolError(FirstNotZero));
        }
        if fragCount == 0 || fragCount > MAX_FRAG_COUNT {
          return Err(ProtocolError(BadCount));
        }
        if |chunk| > MAX_COMPRESSED_RECORD_LEN {
          return Err(ProtocolError(RunningTotal));
        }
        if fragCount == 1 {
          return Completed(DecodeRecord(z, chunk));
        }
        partial := Some(Partial(fragCount, 1, chunk, now));
        return Ok(None);
      }

      if fragCount != partial.value.fragCount {
        partial := None;
        return Err(ProtocolError(CountChanged));
      }
      if fragIndex != partial.value.nextIndex {
        partial := None;
        return Err(ProtocolError(OutOfOrder));
      }
      partial := Some(partial.value.(buffer := partial.value.buffer + chunk, lastFragmentAt := now));
      if |partial.value.buffer| > MAX_COMPRESSED_RECORD_LEN {
        partial := None;
        return Err(ProtocolError(RunningTotal));
      }
      if fragIndex == fragCount - 1 {
        var buffer := partial.value.buffer;
        partial := None;
        return Completed(DecodeRecord(z, buffer));
      }
      partial := Some(partial.value.(nextIndex := partial.value.nextIndex + 1));
      r := Ok(None);
    }
  }

  // ---- any sequence of calls ----

  datatype Arrival = Arrival(fragment: Bytes, at: Time)

  function After(z: Zlib, p: Option<Partial>, calls: seq<Arrival>): Option<Partial> {
    if calls == [] then p
    else
      var last := |calls| - 1;
      Accept(z, After(z, p, calls[..last]), calls[last].fragment, calls[last].at).0
  }

  // The answer to the last call.
  function Answer(z: Zlib, p: Option<Partial>, calls: seq<Arrival>): Outcome
    requires calls != []
  {
    var last := |calls| - 1;
    Accept(z, After(z, p, calls[..last]), calls[last].fragment, calls[last].at).1
  }

  // The envelopes handed out, in order; None once any call has failed.
  function Handed(z: Zlib, p: Option<Partial>, calls: seq<Arrival>): Option<seq<Bytes>> {
    if calls == [] then Some([])
    else
      var before := Handed(z, p, calls[..|calls| - 1]);
      var answer := Answer(z, p, calls);
      if before.None? || answer.Err? then None
      else if answer.value.None? then before
      else Some(before.value + [answer.value.value])
  }

  predicate InTime(calls: seq<Arrival>, i: nat)
    requires 0 < i < |calls|
  {
    Since(calls[i].at, calls[i - 1].at) <= INTER_FRAGMENT_TIMEOUT
  }

  predicate NoLongGap(calls: seq<Arrival>) {
    forall i :: 0 < i < |calls| ==> InTime(calls, i)
  }

  predicate IsPart(c: Arrival, index: nat, count: nat) {
    |c.fragment| >= FRAGMENT_HEADER_LEN && c.fragment[0] == index && c.fragment[1] == count
  }

  predicate AreParts(calls: seq<Arrival>, count: nat) {
    forall i :: 0 <= i < |calls| ==> IsPart(calls[i], i, count)
  }

  // `calls` are fragments 0, 1, ... of a record of `count`, in order, with no gap over the timeout.
  predicate IsRun(calls: seq<Arrival>, count: nat) {
    1 <= count <= MAX_FRAG_COUNT && |calls| <= count
    && AreParts(calls, count) && NoLongGap(calls)
  }

  function Joined(calls: seq<Arrival>): Bytes {
    if calls == [] then []
    else
      var last := |calls| - 1;
      Joined(calls[..last])
      + (if |calls[last].fragment| >= FRAGMENT_HEADER_LEN then calls[last].fragment[FRAGMENT_HEADER_LEN..] else [])
  }

  // A call that fails, and a call that completes a record, leave the reassembler idle; any other
  // call leaves a record in progress.
  lemma IdleUnlessInProgress(z: Zlib, p: Option<Partial>, fragment: Bytes, now: Time)
    ensures var (q, r) := Accept(z, p, fragment, now); q.Some? <==> r == Ok(None)
  {
  }

  lemma JoinedOne(c: Arrival)
    requires |c.fragment| >= FRAGMENT_HEADER_LEN
    ensures Joined([c]) == c.fragment[FRAGMENT_HEADER_LEN..]
  {
    assert [c][..0] == [];
  }

  lemma JoinedSnoc(a: seq<Arrival>, c: Arrival)
    requires |c.fragment| >= FRAGMENT_HEADER_LEN
    ensures Joined(a + [c]) == Joined(a) + c.fragment[FRAGMENT_HEADER_LEN..]
  {
    assert (a + [c])[..|a|] == a;
  }

  // `p` is the run of the last `p.nextIndex` calls, which began with the reassembler idle.
  predicate Progress(z: Zlib, calls: seq<Arrival>, p: Partial) {
    1 <= p.nextIndex < p.fragCount <= MAX_FRAG_COUNT && p.nextIndex <= |calls|
    && IsRun(calls[|calls| - p.nextIndex..], p.fragCount)
    && p.buffer == Joined(calls[|calls| - p.nextIndex..]) && |p.buffer| <= MAX_COMPRESSED_RECORD_LEN
    && p.lastFragmentAt == calls[|calls| - 1].at
    && After(z, None, calls[..|calls| - p.nextIndex]) == None
  }

  // Whatever has been fed, a record in progress is the run of fragments received since the
  // reassembler was last idle, within every limit.
  lemma {:induction false} InProgressIsARun(z: Zlib, calls: seq<Arrival>)
    ensures After(z, None, calls).Some? ==> Progress(z, calls, After(z, None, calls).value)
  {
    if calls != [] {
      var last := |calls| - 1;
      InProgressIsARun(z, calls[..last]);
      var q := After(z, None, calls[..last]);
      var p := Accept(z, q, calls[last].fragment, calls[last].at).0;
      assert After(z, None, calls) == p;
      if p.Some? {
        if q.None? {
          assert calls[last..] == [calls[last]];
          JoinedOne(calls[last]);
        } else {
          ExtendRun(z, calls, q.value, p.value);
        }
      }
    }
  }

  lemma ExtendRun(z: Zlib, calls: seq<Arrival>, q: Partial, p: Partial)
    requires calls != [] && Progress(z, calls[..|calls| - 1], q)
    requires Accept(z, Some(q), calls[|calls| - 1].fragment, calls[|calls| - 1].at).0 == Some(p)
    ensures Progress(z, calls, p)
  {
    var last := |calls| - 1;
    var start := last - q.nextIndex;
    var front := calls[..last][start..];
    assert p.nextIndex == q.nextIndex + 1;
    assert calls[start..] == front + [calls[last]];
    JoinedSnoc(front, calls[last]);
    RunSnoc(front, calls[last], q.fragCount);
    assert calls[..start] == calls[..last][..start];
  }

  // A run grows by the next fragment, in time.
  lemma RunSnoc(front: seq<Arrival>, c: Arrival, count: nat)
    requires front != [] && IsRun(front, count) && |front| < count
    requires IsPart(c, |front|, count)
    requires Since(c.at, front[|front| - 1].at) <= INTER_FRAGMENT_TIMEOUT
    ensures IsRun(front + [c], count)
  {
    var calls := front + [c];
    assert forall i :: 0 <= i < |front| ==> calls[i] == front[i];
    forall i | 0 < i < |calls| ensures InTime(calls, i) {
      if i < |front| {
        assert InTime(front, i);
      }
    }
  }

  lemma GapFront(calls: seq<Arrival>)
    requires NoLongGap(calls) && calls != []
    ensures NoLongGap(calls[..|calls| - 1])
  {
    var front := calls[..|calls| - 1];
    forall i | 0 < i < |front| ensures InTime(front, i) {
      assert InTime(calls, i);
    }
  }

  lemma PartsFront(calls: seq<Arrival>, count: nat)
    requires calls != [] && AreParts(calls, count)
    ensures AreParts(calls[..|calls| - 1], count) && IsPart(calls[|calls| - 1], |calls| - 1, count)
  {
    var front := calls[..|calls| - 1];
    forall i | 0 <= i < |front| ensures IsPart(front[i], i, count) {
      assert IsPart(calls[i], i, count);
    }
  }

  lemma JoinedFront(calls: seq<Arrival>)
    requires calls != [] && |calls[|calls| - 1].fragment| >= FRAGMENT_HEADER_LEN
    ensures Joined(calls) == Joined(calls[..|calls| - 1]) + calls[|calls| - 1].fragment[FRAGMENT_HEADER_LEN..]
  {
  }

  // The front of a run is a run, and joins to less.
  lemma RunFront(calls: seq<Arrival>, count: nat)
    requires IsRun(calls, count) && calls != []
    ensures IsRun(calls[..|calls| - 1], count)
    ensures IsPart(calls[|calls| - 1], |calls| - 1, count)
    ensures Joined(calls) == Joined(calls[..|calls| - 1]) + calls[|calls| - 1].fragment[FRAGMENT_HEADER_LEN..]
  {
    PartsFront(calls, count);
    GapFront(calls);
    JoinedFront(calls);
  }

  // Feeding a proper beginning of a run to an idle reassembler leaves exactly that run in progress.
  lemma {:induction false} RunInProgress(z: Zlib, calls: seq<Arrival>, count: nat)
    requires IsRun(calls, count) && 0 < |calls| < count && |Joined(calls)| <= MAX_COMPRESSED_RECORD_LEN
    ensures After(z, None, calls) == Some(Partial(count, |calls|, Joined(calls), calls[|calls| - 1].at))
    ensures Handed(z, None, calls) == Some([])
  {
    var last := |calls| - 1;
    RunFront(calls, count);
    if last > 0 {
      assert InTime(calls, last);
      RunInProgress(z, calls[..last], count);
    } else {
      assert calls == [calls[0]];
      JoinedOne(calls[0]);
    }
  }

  // A whole run decodes its concatenation, once.
  lemma RunCompletes(z: Zlib, calls: seq<Arrival>, count: nat)
    requires IsRun(calls, count) && |calls| == count && |Joined(calls)| <= MAX_COMPRESSED_RECORD_LEN
    ensures Answer(z, None, calls) == Completed(DecodeRecord(z, Joined(calls)))
    ensures After(z, None, calls) == None
    ensures DecodeRecord(z, Joined(calls)).Ok? ==> Handed(z, None, calls) == Some([DecodeRecord(z, Joined(calls)).value])
  {
    var last := |calls| - 1;
    RunFront(calls, count);
    if last > 0 {
      assert InTime(calls, last);
      RunInProgress(z, calls[..last], count);
    } else {
      assert calls == [calls[0]];
      JoinedOne(calls[0]);
    }
    assert Handed(z, None, calls[..last]) == Some([]);
    assert Answer(z, None, calls) == Completed(DecodeRecord(z, Joined(calls)));
    if DecodeRecord(z, Joined(calls)).Ok? {
      var envelope := DecodeRecord(z, Joined(calls)).value;
      assert [] + [envelope] == [envelope];
      assert Handed(z, None, calls) == Some([] + [envelope]);
    }
  }

  lemma {:induction false} AfterAppend(z: Zlib, p: Option<Partial>, a: seq<Arrival>, b: seq<Arrival>)
    ensures After(z, p, a + b) == After(z, After(z, p, a), b)
    ensures b != [] ==> Answer(z, p, a + b) == Answer(z, After(z, p, a), b)
  {
    if b == [] {
      assert a + b == a;
    } else {
      assert (a + b)[..|a + b| - 1] == a + b[..|b| - 1];
      AfterAppend(z, p, a, b[..|b| - 1]);
    }
  }

  predicate EndsRun(z: Zlib, calls: seq<Arrival>, n: nat, envelope: Bytes)
    requires n <= |calls|
  {
    var tail := calls[|calls| - n..];
    n > 0 && IsRun(tail, n) && After(z, None, calls[..|calls| - n]) == None
    && |Joined(tail)| <= MAX_COMPRESSED_RECORD_LEN && DecodeRecord(z, Joined(tail)) == Ok(envelope)
  }

  lemma HandedOutEndsRun(z: Zlib, calls: seq<Arrival>, envelope: Bytes) returns (n: nat)
    requires calls != [] && Answer(z, None, calls) == Ok(Some(envelope))
    ensures n <= |calls| && EndsRun(z, calls, n, envelope)
  {
    var last := |calls| - 1;
    var q := After(z, None, calls[..last]);
    if q.None? {
      n := 1;
      assert calls[last..] == [calls[last]];
      JoinedOne(calls[last]);
    } else {
      InProgressIsARun(z, calls[..last]);
      n := q.value.fragCount;
      CompletesExactly(z, q.value, calls[last], envelope);
      LastFragment(z, calls, q.value, envelope);
    }
  }

  // The fragment `c` completes the record in progress and it decodes to `envelope`.
  predicate Completes(z: Zlib, q: Partial, c: Arrival, envelope: Bytes) {
    |c.fragment| >= FRAGMENT_HEADER_LEN && c.fragment[0] == q.nextIndex && c.fragment[1] == q.fragCount
    && q.nextIndex + 1 == q.fragCount && Since(c.at, q.lastFragmentAt) <= INTER_FRAGMENT_TIMEOUT
    && var buffer := q.buffer + c.fragment[FRAGMENT_HEADER_LEN..];
       |buffer| <= MAX_COMPRESSED_RECORD_LEN && DecodeRecord(z, buffer) == Ok(envelope)
  }

  lemma CompletesExactly(z: Zlib, q: Partial, c: Arrival, envelope: Bytes)
    ensures Accept(z, Some(q), c.fragment, c.at).1 == Ok(Some(envelope)) <==> Completes(z, q, c, envelope)
  {
  }

  lemma LastFragment(z: Zlib, calls: seq<Arrival>, q: Partial, envelope: Bytes)
    requires calls != [] && Progress(z, calls[..|calls| - 1], q)
    requires Completes(z, q, calls[|calls| - 1], envelope)
    ensures q.fragCount <= |calls| && EndsRun(z, calls, q.fragCount, envelope)
  {
    var last := |calls| - 1;
    var start := last - q.nextIndex;
    var front := calls[..last][start..];
    assert |calls| - q.fragCount == start;
    assert calls[start..] == front + [calls[last]];
    JoinedSnoc(front, calls[last]);
    RunSnoc(front, calls[last], q.fragCount);
    assert calls[..start] == calls[..last][..start];
  }

  lemma EndsRunHandsOut(z: Zlib, calls: seq<Arrival>, n: nat, envelope: Bytes)
    requires n <= |calls| && EndsRun(z, calls, n, envelope)
    ensures Answer(z, None, calls) == Ok(Some(envelope))
  {
    var start := |calls| - n;
    assert calls == calls[..start] + calls[start..];
    AfterAppend(z, None, calls[..start], calls[start..]);
    RunCompletes(z, calls[start..], n);
  }

  // The exact meaning of a handed-out envelope: after any calls whatever, the last one hands out
  // `envelope` if and only if it ends a complete run that began with the reassembler idle, whose
  // concatenation is within the cap and decodes to `envelope`.
  lemma HandedOutIffRun(z: Zlib, calls: seq<Arrival>, envelope: Bytes)
    requires calls != []
    ensures Answer(z, None, calls) == Ok(Some(envelope)) <==>
            exists n: nat :: n <= |calls| && EndsRun(z, calls, n, envelope)
    ensures Answer(z, None, calls) == Ok(Some(envelope)) ==> |envelope| <= MAX_UNCOMPRESSED_LEN
  {
    if Answer(z, None, calls) == Ok(Some(envelope)) {
      var n := HandedOutEndsRun(z, calls, envelope);
    }
    if exists n: nat :: n <= |calls| && EndsRun(z, calls, n, envelope) {
      var n: nat :| n <= |calls| && EndsRun(z, calls, n, envelope);
      EndsRunHandsOut(z, calls, n, envelope);
    }
  }

  // ---- a whole conversation ----

  // The fragments of a list of envelopes, in sending order.
  function Sent(z: Zlib, envelopes: seq<Bytes>): seq<Bytes>
    requires AllFit(envelopes)
  {
    if envelopes == [] then []
    else Sent(z, envelopes[..|envelopes| - 1]) + SentOne(z, envelopes[|envelopes| - 1])
  }

  function SentOne(z: Zlib, envelope: Bytes): seq<Bytes>
    requires |envelope| <= MAX_UNCOMPRESSED_LEN
  {
    SplitIntoFragments(BuildRecord(z, envelope).value)
  }

  predicate AllFit(envelopes: seq<Bytes>) {
    forall i :: 0 <= i < |envelopes| ==> |envelopes[i]| <= MAX_UNCOMPRESSED_LEN
  }

  predicate Carries(calls: seq<Arrival>, fragments: seq<Bytes>) {
    |calls| == |fragments| && forall i :: 0 <= i < |calls| ==> calls[i].fragment == fragments[i]
  }

  predicate HasChunk(record: Bytes, c: Arrival, i: nat) {
    |c.fragment| >= FRAGMENT_HEADER_LEN && c.fragment[FRAGMENT_HEADER_LEN..] == Chunk(record, i)
  }

  lemma {:induction false} JoinedChunks(record: Bytes, calls: seq<Arrival>)
    requires |calls| <= ChunkCount(|record|)
    requires forall i :: 0 <= i < |calls| ==> HasChunk(record, calls[i], i)
    ensures Joined(calls) == record[..ChunkEnd(|record|, |calls|)]
  {
    if calls != [] {
      var last := |calls| - 1;
      JoinedChunks(record, calls[..last]);
      assert HasChunk(record, calls[last], last);
      assert Joined(calls) == record[..ChunkEnd(|record|, last)] + Chunk(record, last);
    }
  }

  predicate Continues(fragment: Bytes) {
    fragment != [] && fragment[0] != 0
  }

  // No gap over the timeout inside a record; the pause before a first fragment may be any.
  predicate PromptWithin(calls: seq<Arrival>) {
    forall i :: 0 < i < |calls| && Continues(calls[i].fragment) ==> InTime(calls, i)
  }

  // The fragments of one record arrive as a run that joins to the record.
  lemma FragmentsAreARun(z: Zlib, envelope: Bytes, calls: seq<Arrival>)
    requires Inverts(z) && |envelope| <= MAX_UNCOMPRESSED_LEN && PromptWithin(calls)
    requires Carries(calls, SentOne(z, envelope))
    ensures IsRun(calls, |calls|) && |calls| > 0
    ensures Joined(calls) == BuildRecord(z, envelope).value
  {
    FragmentsFit(z, envelope);
    var record := BuildRecord(z, envelope).value;
    var fragments := SplitIntoFragments(record);
    forall i | 0 <= i < |calls| ensures HasChunk(record, calls[i], i) && IsPart(calls[i], i, |calls|) {
      assert WellCut(record, fragments, i);
    }
    forall i | 0 < i < |calls| ensures InTime(calls, i) {
      assert IsPart(calls[i], i, |calls|);
      assert Continues(calls[i].fragment);
    }
    JoinedChunks(record, calls);
    WholeRecord(record);
  }

  lemma WholeRecord(record: Bytes)
    ensures record[..ChunkEnd(|record|, ChunkCount(|record|))] == record
  {
  }

  // One envelope, fed fragment by fragment to an idle reassembler.
  lemma OneEnvelope(z: Zlib, envelope: Bytes, calls: seq<Arrival>)
    requires Inverts(z) && |envelope| <= MAX_UNCOMPRESSED_LEN && PromptWithin(calls)
    requires Carries(calls, SentOne(z, envelope))
    ensures After(z, None, calls) == None && Handed(z, None, calls) == Some([envelope])
  {
    RecordRoundTrip(z, envelope);
    FragmentsAreARun(z, envelope, calls);
    RunCompletes(z, calls, |calls|);
  }

  lemma {:induction false} HandedAppend(z: Zlib, p: Option<Partial>, a: seq<Arrival>, b: seq<Arrival>)
    requires After(z, p, a) == None && Handed(z, p, a).Some? && Handed(z, None, b).Some?
    ensures Handed(z, p, a + b) == Some(Handed(z, p, a).value + Handed(z, None, b).value)
  {
    if b == [] {
      assert a + b == a;
      assert Handed(z, p, a).value + [] == Handed(z, p, a).value;
    } else {
      var b' := b[..|b| - 1];
      assert (a + b)[..|a + b| - 1] == a + b';
      assert Handed(z, None, b').Some?;
      HandedAppend(z, p, a, b');
      AfterAppend(z, p, a, b);
      var answer := Answer(z, None, b);
      assert Answer(z, p, a + b) == answer;
      if answer.value.Some? {
        assert Handed(z, p, a).value + (Handed(z, None, b').value + [answer.value.value])
            == (Handed(z, p, a).value + Handed(z, None, b').value) + [answer.value.value];
      }
    }
  }

  lemma CarriesSplit(calls: seq<Arrival>, f: seq<Bytes>, g: seq<Bytes>)
    requires Carries(calls, f + g) && PromptWithin(calls)
    ensures calls == calls[..|f|] + calls[|f|..]
    ensures Carries(calls[..|f|], f) && PromptWithin(calls[..|f|])
    ensures Carries(calls[|f|..], g) && PromptWithin(calls[|f|..])
  {
    var b := calls[|f|..];
    forall i | 0 <= i < |b| ensures b[i].fragment == g[i] {
      assert b[i] == calls[|f| + i] && (f + g)[|f| + i] == g[i];
    }
    forall i | 0 < i < |b| && Continues(b[i].fragment) ensures InTime(b, i) {
      assert InTime(calls, |f| + i);
    }
    forall i | 0 < i < |f| && Continues(calls[..|f|][i].fragment) ensures InTime(calls[..|f|], i) {
      assert InTime(calls, i);
    }
  }

  // The part of a conversation that carries the last envelope.
  lemma LastOne(z: Zlib, envelopes: seq<Bytes>, calls: seq<Arrival>) returns (a: seq<Arrival>, b: seq<Arrival>)
    requires PromptWithin(calls) && envelopes != [] && AllFit(envelopes) && Carries(calls, Sent(z, envelopes))
    ensures calls == a + b && PromptWithin(a) && PromptWithin(b)
    ensures AllFit(envelopes[..|envelopes| - 1]) && Carries(a, Sent(z, envelopes[..|envelopes| - 1]))
    ensures Carries(b, SentOne(z, envelopes[|envelopes| - 1]))
  {
    var last := |envelopes| - 1;
    var f, g := Sent(z, envelopes[..last]), SentOne(z, envelopes[last]);
    CarriesSplit(calls, f, g);
    a, b := calls[..|f|], calls[|f|..];
  }

  // Any list of envelopes, built, split and fed in order, comes back exactly if no record is interrupted
  // for longer than the timeout; between records any time may pass.
  lemma {:induction false} ConversationRoundTrip(z: Zlib, envelopes: seq<Bytes>, calls: seq<Arrival>)
    requires Inverts(z) && PromptWithin(calls)
    requires AllFit(envelopes) && Carries(calls, Sent(z, envelopes))
    ensures After(z, None, calls) == None && Handed(z, None, calls) == Some(envelopes)
  {
    if envelopes == [] {
      assert calls == [];
    } else {
      var front, envelope := envelopes[..|envelopes| - 1], envelopes[|envelopes| - 1];
      assert envelopes == front + [envelope];
      var a, b := LastOne(z, envelopes, calls);
      ConversationRoundTrip(z, front, a);
      OneMore(z, front, envelope, a, b);
    }
  }

  lemma OneMore(z: Zlib, front: seq<Bytes>, envelope: Bytes, a: seq<Arrival>, b: seq<Arrival>)
    requires Inverts(z) && |envelope| <= MAX_UNCOMPRESSED_LEN && PromptWithin(b)
    requires After(z, None, a) == None && Handed(z, None, a) == Some(front)
    requires Carries(b, SentOne(z, envelope))
    ensures After(z, None, a + b) == None && Handed(z, None, a + b) == Some(front + [envelope])
  {
    OneEnvelope(z, envelope, b);
    AfterAppend(z, None, a, b);
    HandedAppend(z, None, a, b);
  }
}
