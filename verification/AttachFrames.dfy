/** Demultiplexing a container's attach stream: frames of two streams, each delivered to its sink up to
    a limit, whatever the frame and chunk boundaries. */
module AttachFrames {
  import opened Options

  type Byte = x: int | 0 <= x < 256

  datatype Stream = Stdout | Stderr

  const MAX_FRAME: nat := 0x100_0000
  const CHUNK: nat := 0x8000

  datatype Failure = BadLimit | MalformedFrame | UnknownStream | FrameTooLarge | MalformedPayload | NoSink | SinkFailed

  datatype Count = Count(accepted: nat, observed: nat, truncated: bool)

  datatype Counts = Counts(stdout: Count, stderr: Count)

  datatype Frame = Frame(stream: Stream, payload: seq<Byte>)

  // ---------------------------------------------------------------- the wire format

  function StreamOf(b: Byte): Option<Stream> { if b == 1 then Some(Stdout) else if b == 2 then Some(Stderr) else None }

  function StreamByte(s: Stream): Byte { if s.Stdout? then 1 else 2 }

  function BigEndian(b: seq<Byte>): nat
    requires |b| == 4
  {
    ((b[0] as int * 256 + b[1] as int) * 256 + b[2] as int) * 256 + b[3] as int
  }

  function Size(n: nat): (b: seq<Byte>)
    requires n < 0x1_0000_0000
    ensures |b| == 4
  {
    [n / 0x100_0000, n / 0x1_0000 % 256, n / 256 % 256, n % 256]
  }

  lemma SizeReadsBack(n: nat)
    requires n < 0x1_0000_0000
    ensures BigEndian(Size(n)) == n
  {
    var a, b, c := n / 256, n / 0x1_0000, n / 0x100_0000;
    assert a / 256 == b && b / 256 == c;
  }

  /** A frame as the engine writes it: stream, three zero bytes, size, payload. */
  function Encode(f: Frame): seq<Byte>
    requires |f.payload| < 0x1_0000_0000
  {
    [StreamByte(f.stream), 0, 0, 0] + Size(|f.payload|) + f.payload
  }

  ghost predicate Sendable(frames: seq<Frame>) { forall i | 0 <= i < |frames| :: |frames[i].payload| <= MAX_FRAME }

  function EncodeAll(frames: seq<Frame>): seq<Byte>
    requires Sendable(frames)
  {
    if frames == [] then [] else Encode(frames[0]) + EncodeAll(frames[1..])
  }

  // ---------------------------------------------------------------- what is delivered

  /** Everything that was sent on a stream. */
  function Sent(frames: seq<Frame>, s: Stream): seq<Byte> {
    if frames == [] then [] else (if frames[0].stream == s then frames[0].payload else []) + Sent(frames[1..], s)
  }

  function Prefix(bytes: seq<Byte>, limit: nat): seq<Byte> { if |bytes| <= limit then bytes else bytes[..limit] }

  function CountOf(bytes: seq<Byte>, limit: nat): Count { Count(|Prefix(bytes, limit)|, |bytes|, |bytes| > limit) }

  // ---------------------------------------------------------------- what any input holds

  /** How reading an input ends: None when it is a sequence of whole frames. */
  function Ending(input: seq<Byte>): Option<Failure> {
    if input == [] then None
    else if |input| < 8 then Some(MalformedFrame)
    else if StreamOf(input[0]).None? then Some(UnknownStream)
    else if BigEndian(input[4..8]) > MAX_FRAME then Some(FrameTooLarge)
    else if |input| - 8 < BigEndian(input[4..8]) then Some(MalformedPayload)
    else Ending(input[8 + BigEndian(input[4..8])..])
  }

  /** The payload bytes of a stream that are read before the end; of a payload that is cut short, the whole chunks. */
  function Observed(input: seq<Byte>, s: Stream): seq<Byte> {
    if |input| < 8 || StreamOf(input[0]).None? || BigEndian(input[4..8]) > MAX_FRAME then []
    else
      var size, available := BigEndian(input[4..8]), |input| - 8;
      if available < size then
        if StreamOf(input[0]).value == s then input[8..8 + available - available % CHUNK] else []
      else (if StreamOf(input[0]).value == s then input[8..8 + size] else []) + Observed(input[8 + size..], s)
  }

  lemma EncodedHeader(f: Frame, rest: seq<Byte>)
    requires |f.payload| <= MAX_FRAME
    ensures var input := Encode(f) + rest;
              && |input| == 8 + |f.payload| + |rest| && StreamOf(input[0]) == Some(f.stream)
              && BigEndian(input[4..8]) == |f.payload|
              && input[8..8 + |f.payload|] == f.payload && input[8 + |f.payload|..] == rest
  {
    SizeReadsBack(|f.payload|);
    var input := Encode(f) + rest;
    assert input[4..8] == Size(|f.payload|);
  }

  /** Reading back what an engine wrote: every frame, and no error. */
  lemma {:induction false} EncodedIsObserved(frames: seq<Frame>, s: Stream)
    requires Sendable(frames)
    ensures Ending(EncodeAll(frames)) == None && Observed(EncodeAll(frames), s) == Sent(frames, s)
  {
    if frames != [] {
      EncodedHeader(frames[0], EncodeAll(frames[1..]));
      EncodedIsObserved(frames[1..], s);
    }
  }

  // ---------------------------------------------------------------- the sink

  /** The caller's callback: it takes `left` more calls, and fails from then on. */
  class Sink {
    var stdout: seq<Byte>
    var stderr: seq<Byte>
    var left: nat

    constructor (calls: nat)
      ensures stdout == [] && stderr == [] && left == calls
    {
      stdout, stderr, left := [], [], calls;
    }

    function Received(s: Stream): seq<Byte>
      reads this
    {
      if s.Stdout? then stdout else stderr
    }

    method Write(s: Stream, data: seq<Byte>) returns (ok: bool)
      modifies this
      ensures ok == (old(left) > 0)
      ensures ok ==> left == old(left) - 1
      ensures forall t :: Received(t) == old(Received(t)) + if ok && t == s then data else []
      ensures !ok ==> left == 0
    {
      if left == 0 {
        return false;
      }
      left := left - 1;
      if s.Stdout? {
        stdout := stdout + data;
      } else {
        stderr := stderr + data;
      }
      return true;
    }
  }

  function CountFor(counts: Counts, s: Stream): Count { if s.Stdout? then counts.stdout else counts.stderr }

  /** What was read so far on each stream. */
  datatype Seen = Seen(stdout: seq<Byte>, stderr: seq<Byte>)

  function On(seen: Seen, s: Stream): seq<Byte> { if s.Stdout? then seen.stdout else seen.stderr }

  function More(seen: Seen, s: Stream, data: seq<Byte>): Seen {
    if s.Stdout? then Seen(seen.stdout + data, seen.stderr) else Seen(seen.stdout, seen.stderr + data)
  }

  /** The sink has the allowed part of what was read, and the counts say how much that is. */
  ghost predicate Tracks(counts: Counts, sink: Sink?, limit: nat, seen: Seen)
    reads sink
  {
    TracksOn(counts, sink, limit, seen, Stdout) && TracksOn(counts, sink, limit, seen, Stderr)
  }

  ghost predicate TracksOn(counts: Counts, sink: Sink?, limit: nat, seen: Seen, s: Stream)
    reads sink
  {
    && CountFor(counts, s) == CountOf(On(seen, s), limit)
    && Prefix(On(seen, s), limit) == if sink == null then [] else sink.Received(s)
  }

  /** Of a chunk, as much is delivered as the limit leaves room for. */
  lemma PrefixGrows(bytes: seq<Byte>, data: seq<Byte>, limit: nat)
    ensures var room := limit - |Prefix(bytes, limit)|;
              && room >= 0
              && Prefix(bytes + data, limit) == Prefix(bytes, limit) + (if |data| <= room then data else data[..room])
              && (|bytes + data| > limit <==> |bytes| > limit || |data| > room)
  {
  }

  // ---------------------------------------------------------------- decoding

  /** The body of the loop over the chunks of a payload. */
  method TakeChunk(s: Stream, data: seq<Byte>, limit: nat, sink: Sink?, counts0: Counts, ghost seen: Seen)
    returns (failure: Option<Failure>, counts: Counts)
    requires data != [] && Tracks(counts0, sink, limit, seen)
    modifies sink
    ensures failure.None? ==> Tracks(counts, sink, limit, More(seen, s, data))
    ensures failure == Some(NoSink) ==> sink == null && |On(seen, s)| < limit
    ensures failure == Some(SinkFailed) ==> sink != null && sink.left == 0
    ensures failure.Some? ==> failure.value in {NoSink, SinkFailed} && forall t :: sink != null ==> sink.Received(t) == old(sink.Received(t))
  {
    PrefixGrows(On(seen, s), data, limit);
    failure := None;
    var c := CountFor(counts0, s);
    var accepted, available := 0, limit - c.accepted;
    if available > 0 {
      accepted := if |data| < available then |data| else available;
    }
    var after := Count(c.accepted + accepted, c.observed + |data|, c.truncated || accepted < |data|);
    counts := if s.Stdout? then counts0.(stdout := after) else counts0.(stderr := after);
    assert data[..|data|] == data && data[..0] == [];
    assert Prefix(On(seen, s) + data, limit) == Prefix(On(seen, s), limit) + data[..accepted];
    if accepted > 0 {
      if sink == null {
        return Some(NoSink), counts;
      }
      var ok := sink.Write(s, data[..accepted]);
      if !ok {
        return Some(SinkFailed), counts;
      }
    }
  }

  ghost predicate Delivered(sink: Sink?, limit: nat, seen: Seen)
    reads sink
  {
    forall s: Stream {:trigger On(seen, s)} :: Prefix(On(seen, s), limit) == if sink == null then [] else sink.Received(s)
  }

  predicate SinkFault(failure: Option<Failure>) { failure == Some(NoSink) || failure == Some(SinkFailed) }

  /** Whole chunks of what is available of a payload. */
  function WholeChunks(available: nat, size: nat): nat { if available < size then available - available % CHUNK else size }

  /** In the middle of a payload, between chunks. */
  lemma ChunksSoFar(chunks: nat, done: nat, available: nat, size: nat)
    requires done == chunks * CHUNK && done <= available && done < size
    ensures done <= WholeChunks(available, size) <= available
    ensures available - done < (if size - done < CHUNK then size - done else CHUNK) ==>
              available < size && done == WholeChunks(available, size)
  {
    var left := available - done;
    assert available % CHUNK == left % CHUNK <= left;
  }

  /** The loop over the chunks of a payload, of which `input` is what the reader still holds. */
  method TakePayload(s: Stream, input: seq<Byte>, size: nat, limit: nat, sink: Sink?, counts0: Counts, ghost seen0: Seen)
    returns (failure: Option<Failure>, counts: Counts, ghost done: nat)
    requires Tracks(counts0, sink, limit, seen0)
    modifies sink
    ensures done <= WholeChunks(|input|, size) <= |input|
    ensures !SinkFault(failure) ==>
              && failure == (if |input| < size then Some(MalformedPayload) else None)
              && done == WholeChunks(|input|, size) && Tracks(counts, sink, limit, More(seen0, s, input[..done]))
    ensures SinkFault(failure) ==> Delivered(sink, limit, More(seen0, s, input[..done]))
    ensures failure == Some(NoSink) ==> sink == null
    ensures failure == Some(SinkFailed) ==> sink != null && sink.left == 0
  {
    failure, counts, done := None, counts0, 0;
    var remaining := size;
    var at := 0;
    ghost var seen, chunks: nat := seen0, 0;
    assert input[..0] == [] && More(seen0, s, []) == seen0;
    while remaining > 0
      invariant failure.None? && 0 <= remaining && remaining + at == size && at <= |input| && done == at
      invariant remaining > 0 ==> at == chunks * CHUNK
      invariant seen == More(seen0, s, input[..at]) && Tracks(counts, sink, limit, seen)
    {
      var chunk := CHUNK;
      if remaining < chunk {
        chunk := remaining;
      }
      ChunksSoFar(chunks, at, |input|, size);
      if |input| - at < chunk {
        failure := Some(MalformedPayload);
        return;
      }
      ChunkStep(seen0, s, input, at, chunk);
      failure, counts := TakeChunk(s, input[at..at + chunk], limit, sink, counts, seen);
      if failure.Some? {
        return;
      }
      remaining := remaining - chunk;
      seen := More(seen, s, input[at..at + chunk]);
      at := at + chunk;
      chunks := chunks + 1;
      done := at;
    }
  }

  lemma ChunkStep(seen0: Seen, s: Stream, input: seq<Byte>, at: nat, chunk: nat)
    requires at + chunk <= |input|
    ensures More(More(seen0, s, input[..at]), s, input[at..at + chunk]) == More(seen0, s, input[..at + chunk])
  {
    assert input[..at + chunk] == input[..at] + input[at..at + chunk];
  }

  method Decode(input: seq<Byte>, maxPerStream: int, sink: Sink?) returns (failure: Option<Failure>, counts: Counts, ghost seen: Seen)
    requires sink != null ==> sink.stdout == [] && sink.stderr == []
    modifies sink
    ensures maxPerStream < 0 <==> failure == Some(BadLimit)
    ensures maxPerStream >= 0 && !SinkFault(failure) ==>
              failure == Ending(input) && Saw(seen, input, []) && Tracks(counts, sink, maxPerStream, seen)
    ensures maxPerStream >= 0 && SinkFault(failure) ==>
              Delivered(sink, maxPerStream, seen) && forall s :: On(seen, s) <= Observed(input, s)
    ensures failure == Some(NoSink) ==> sink == null
    ensures failure == Some(SinkFailed) ==> sink != null && sink.left == 0
  {
    failure, counts, seen := None, Counts(Count(0, 0, false), Count(0, 0, false)), Seen([], []);
    if maxPerStream < 0 {
      return Some(BadLimit), counts, seen;
    }
    var reader := input;
    while reader != []
      invariant failure.None? && Tracks(counts, sink, maxPerStream, seen)
      invariant Ending(input) == Ending(reader) && Saw(seen, input, reader)
      decreases |reader|
    {
      if |reader| < 8 {
        return Some(MalformedFrame), counts, seen;
      }
      var stream := StreamOf(reader[0]);
      if stream.None? {
        return Some(UnknownStream), counts, seen;
      }
      var size := BigEndian(reader[4..8]);
      if size > MAX_FRAME {
        return Some(FrameTooLarge), counts, seen;
      }
      ghost var done;
      failure, counts, done := TakePayload(stream.value, reader[8..], size, maxPerStream, sink, counts, seen);
      FrameStep(seen, input, reader, stream.value, size, done);
      seen := More(seen, stream.value, reader[8..][..done]);
      if failure.Some? {
        return;
      }
      reader := reader[8 + size..];
    }
  }

  /** What was seen, and what the reader still holds, make up the input. */
  ghost predicate Saw(seen: Seen, input: seq<Byte>, reader: seq<Byte>) {
    && Observed(input, Stdout) == seen.stdout + Observed(reader, Stdout)
    && Observed(input, Stderr) == seen.stderr + Observed(reader, Stderr)
  }

  /** The frame at the head of the reader, of which `rest` is what follows. */
  lemma FrameObserved(reader: seq<Byte>, stream: Stream, size: nat, s: Stream)
    requires 8 <= |reader| && StreamOf(reader[0]) == Some(stream) && size == BigEndian(reader[4..8]) <= MAX_FRAME
    ensures var body, whole := reader[8..], WholeChunks(|reader[8..]|, size);
            var rest := if |body| < size then [] else reader[8 + size..];
              && whole <= |body|
              && Observed(reader, s) == (if s == stream then body[..whole] else []) + Observed(rest, s)
  {
    var body, whole := reader[8..], WholeChunks(|reader[8..]|, size);
    assert reader[8..8 + whole] == body[..whole];
  }

  lemma StepOn(seen: seq<Byte>, input: seq<Byte>, got: seq<Byte>, head: seq<Byte>, rest: seq<Byte>)
    requires input == seen + (head + rest) && got <= head
    ensures seen + got <= input && (got == head ==> input == (seen + got) + rest)
  {
  }

  lemma MoreOn(seen: Seen, stream: Stream, data: seq<Byte>, s: Stream)
    ensures On(More(seen, stream, data), s) == On(seen, s) + if s == stream then data else []
  {
  }

  /** The step on one of the two streams. */
  lemma FrameStepOn(seen: Seen, input: seq<Byte>, reader: seq<Byte>, stream: Stream, size: nat, done: nat, s: Stream)
    requires Observed(input, s) == On(seen, s) + Observed(reader, s)
    requires 8 <= |reader| && StreamOf(reader[0]) == Some(stream) && size == BigEndian(reader[4..8]) <= MAX_FRAME
    requires done <= WholeChunks(|reader[8..]|, size) <= |reader[8..]|
    ensures var after := More(seen, stream, reader[8..][..done]);
            var rest := if |reader[8..]| < size then [] else reader[8 + size..];
              && On(after, s) <= Observed(input, s)
              && (done == WholeChunks(|reader[8..]|, size) ==> Observed(input, s) == On(after, s) + Observed(rest, s))
  {
    var body, whole := reader[8..], WholeChunks(|reader[8..]|, size);
    var rest := if |body| < size then [] else reader[8 + size..];
    FrameObserved(reader, stream, size, s);
    MoreOn(seen, stream, body[..done], s);
    assert body[..done] <= body[..whole];
    var got, head := if s == stream then body[..done] else [], if s == stream then body[..whole] else [];
    StepOn(On(seen, s), Observed(input, s), got, head, Observed(rest, s));
  }

  lemma FrameStep(seen: Seen, input: seq<Byte>, reader: seq<Byte>, stream: Stream, size: nat, done: nat)
    requires Saw(seen, input, reader)
    requires 8 <= |reader| && StreamOf(reader[0]) == Some(stream) && size == BigEndian(reader[4..8]) <= MAX_FRAME
    requires done <= WholeChunks(|reader[8..]|, size) <= |reader[8..]|
    ensures var after := More(seen, stream, reader[8..][..done]);
              && (forall s :: On(after, s) <= Observed(input, s))
              && (done == WholeChunks(|reader[8..]|, size) ==>
                    if |reader[8..]| < size then Saw(after, input, []) else Saw(after, input, reader[8 + size..]))
  {
    FrameStepOn(seen, input, reader, stream, size, done, Stdout);
    FrameStepOn(seen, input, reader, stream, size, done, Stderr);
  }

  /** The stream has been given what was sent on it, up to the limit; the counts are the lengths, and it is
      truncated exactly when more was sent than the limit. */
  ghost predicate Demultiplexed(frames: seq<Frame>, limit: nat, sink: Sink, counts: Counts, s: Stream)
    reads sink
  {
    var sent := Sent(frames, s);
    && sink.Received(s) == (if |sent| <= limit then sent else sent[..limit])
    && CountFor(counts, s) == Count(|sink.Received(s)|, |sent|, |sent| > limit)
  }

  lemma SeenIsSent(frames: seq<Frame>, seen: Seen, s: Stream)
    requires Sendable(frames) && Saw(seen, EncodeAll(frames), [])
    ensures On(seen, s) == Sent(frames, s) && Ending(EncodeAll(frames)) == None
  {
    EncodedIsObserved(frames, s);
  }

  lemma PartOfSent(frames: seq<Frame>, limit: nat, sink: Sink, seen: Seen, s: Stream)
    requires Sendable(frames) && Delivered(sink, limit, seen) && On(seen, s) <= Observed(EncodeAll(frames), s)
    ensures sink.Received(s) <= Sent(frames, s) && |sink.Received(s)| <= limit
  {
    EncodedIsObserved(frames, s);
  }

  lemma TracksSent(frames: seq<Frame>, limit: nat, sink: Sink, seen: Seen, counts: Counts, s: Stream)
    requires TracksOn(counts, sink, limit, seen, s) && On(seen, s) == Sent(frames, s)
    ensures Demultiplexed(frames, limit, sink, counts, s)
  {
  }

  /** Decoding what an engine writes for any frames: without a fault of the sink both streams are
      demultiplexed, and with one each still has a part of what was sent, within the limit. */
  method DecodeFrames(frames: seq<Frame>, limit: nat, sink: Sink) returns (failure: Option<Failure>, counts: Counts)
    requires Sendable(frames) && sink.stdout == [] && sink.stderr == []
    modifies sink
    ensures failure.None? || (failure == Some(SinkFailed) && sink.left == 0)
    ensures failure.None? ==> Demultiplexed(frames, limit, sink, counts, Stdout) && Demultiplexed(frames, limit, sink, counts, Stderr)
    ensures failure.Some? ==> forall s: Stream :: sink.Received(s) <= Sent(frames, s) && |sink.Received(s)| <= limit
  {
    ghost var seen;
    failure, counts, seen := Decode(EncodeAll(frames), limit, sink);
    EncodedIsObserved(frames, Stdout);
    if failure.Some? {
      forall s: Stream ensures sink.Received(s) <= Sent(frames, s) && |sink.Received(s)| <= limit {
        PartOfSent(frames, limit, sink, seen, s);
      }
    } else {
      SeenIsSent(frames, seen, Stdout);
      SeenIsSent(frames, seen, Stderr);
      TracksSent(frames, limit, sink, seen, counts, Stdout);
      TracksSent(frames, limit, sink, seen, counts, Stderr);
    }
  }
}
