/** What an attach stream holds, byte for byte: whole frames, and a rest that says how reading it ends. */
module FrameLaws {
  import opened Options
  import opened AttachFrames

  /** A frame with the three bytes of its header that nothing reads. */
  datatype Sending = Sending(stream: Stream, reserved: seq<Byte>, payload: seq<Byte>)

  ghost predicate WellFormed(f: Sending) { |f.reserved| == 3 && |f.payload| <= 16 * 1024 * 1024 }

  /** On the wire: 1 for stdout or 2 for stderr, three bytes, the size of the payload with its highest byte
      first, and the payload. */
  ghost predicate IsOnWire(f: Sending, bytes: seq<Byte>) {
    && |bytes| == 8 + |f.payload| && bytes[0] == (if f.stream == Stdout then 1 else 2)
    && bytes[1..4] == f.reserved && bytes[8..] == f.payload
    && |f.payload| == SizeIn(bytes)
  }

  ghost predicate AreOnWire(frames: seq<Sending>, bytes: seq<Byte>)
    decreases |frames|
  {
    if frames == [] then bytes == []
    else exists n: nat :: n <= |bytes| && IsOnWire(frames[0], bytes[..n]) && AreOnWire(frames[1..], bytes[n..])
  }

  function PayloadsOf(frames: seq<Sending>, s: Stream): seq<Byte> {
    if frames == [] then [] else (if frames[0].stream == s then frames[0].payload else []) + PayloadsOf(frames[1..], s)
  }

  /** The size that a header names. */
  function SizeIn(rest: seq<Byte>): nat
    requires |rest| >= 8
  {
    rest[4] as int * 16777216 + rest[5] as int * 65536 + rest[6] as int * 256 + rest[7] as int
  }

  /** What is left when no whole frame follows: nothing, less than a header, a stream that there is not, a
      size beyond the limit, or less than the payload. */
  ghost predicate EndsIn(rest: seq<Byte>, failure: Option<Failure>) {
    match failure
    case None => rest == []
    case Some(MalformedFrame) => 0 < |rest| < 8
    case Some(UnknownStream) => |rest| >= 8 && rest[0] != 1 && rest[0] != 2
    case Some(FrameTooLarge) => |rest| >= 8 && (rest[0] == 1 || rest[0] == 2) && SizeIn(rest) > 16 * 1024 * 1024
    case Some(MalformedPayload) =>
      |rest| >= 8 && (rest[0] == 1 || rest[0] == 2) && |rest| - 8 < SizeIn(rest) <= 16 * 1024 * 1024
    case _ => false
  }

  /** Of a payload that is cut short, the whole pieces of 32 KiB are read. */
  function ReadOf(rest: seq<Byte>, failure: Option<Failure>, s: Stream): seq<Byte> {
    if failure == Some(MalformedPayload) && |rest| >= 8 && rest[0] == (if s == Stdout then 1 else 2) then
      rest[8..|rest| - (|rest| - 8) % 32768]
    else []
  }

  lemma HeaderIsRead(rest: seq<Byte>)
    requires |rest| >= 8
    ensures BigEndian(rest[4..8]) == SizeIn(rest)
    ensures StreamOf(rest[0]) == if rest[0] == 1 then Some(Stdout) else if rest[0] == 2 then Some(Stderr) else None
  {
  }

  lemma EndIsRead(rest: seq<Byte>, failure: Option<Failure>, s: Stream)
    requires EndsIn(rest, failure)
    ensures Ending(rest) == failure && Observed(rest, s) == ReadOf(rest, failure, s)
  {
    if |rest| >= 8 { HeaderIsRead(rest); }
  }

  lemma FrameIsRead(f: Sending, bytes: seq<Byte>, n: nat, s: Stream)
    requires WellFormed(f) && n <= |bytes| && IsOnWire(f, bytes[..n])
    ensures Ending(bytes) == Ending(bytes[n..])
    ensures Observed(bytes, s) == (if f.stream == s then f.payload else []) + Observed(bytes[n..], s)
  {
    HeaderIsRead(bytes);
    var head := bytes[..n];
    assert head[4] == bytes[4] && head[5] == bytes[5] && head[6] == bytes[6] && head[7] == bytes[7] && head[0] == bytes[0];
    assert SizeIn(bytes) == |f.payload| && n == 8 + |f.payload|;
    assert bytes[8..n] == head[8..] == f.payload;
  }

  ghost predicate AllWellFormed(frames: seq<Sending>) { forall i | 0 <= i < |frames| :: WellFormed(frames[i]) }

  /** Reading ends as the rest says, and each stream has the payloads of its frames and what is read of the rest. */
  ghost predicate IsRead(frames: seq<Sending>, bytes: seq<Byte>, rest: seq<Byte>, failure: Option<Failure>, s: Stream) {
    Ending(bytes) == failure && Observed(bytes, s) == PayloadsOf(frames, s) + ReadOf(rest, failure, s)
  }

  lemma OneMoreIsRead(frames: seq<Sending>, bytes: seq<Byte>, m: nat, rest: seq<Byte>, failure: Option<Failure>, s: Stream)
    requires frames != [] && WellFormed(frames[0]) && m <= |bytes| && IsOnWire(frames[0], bytes[..m])
    requires IsRead(frames[1..], bytes[m..], rest, failure, s)
    ensures IsRead(frames, bytes, rest, failure, s)
  {
    FrameIsRead(frames[0], bytes, m, s);
    var first := if frames[0].stream == s then frames[0].payload else [];
    Associates(first, PayloadsOf(frames[1..], s), ReadOf(rest, failure, s));
  }

  lemma Associates(x: seq<Byte>, y: seq<Byte>, z: seq<Byte>)
    ensures x + (y + z) == (x + y) + z
  {
  }

  lemma FirstOnWire(frames: seq<Sending>, bytes: seq<Byte>, n: nat) returns (m: nat)
    requires frames != [] && n <= |bytes| && AreOnWire(frames, bytes[..n])
    ensures m <= n && IsOnWire(frames[0], bytes[..m]) && AreOnWire(frames[1..], bytes[m..][..n - m])
    ensures bytes[n..] == bytes[m..][n - m..]
  {
    m :| 0 <= m <= n && IsOnWire(frames[0], bytes[..n][..m]) && AreOnWire(frames[1..], bytes[..n][m..]);
    SlicesAgree(bytes, m, n);
  }

  lemma SlicesAgree(bytes: seq<Byte>, m: nat, n: nat)
    requires m <= n <= |bytes|
    ensures bytes[..n][..m] == bytes[..m] && bytes[..n][m..] == bytes[m..][..n - m] && bytes[n..] == bytes[m..][n - m..]
  {
  }

  /** Whatever is on the wire, frames up to `n` and a rest, is read so. */
  lemma {:induction false} FramesAreRead(frames: seq<Sending>, bytes: seq<Byte>, n: nat, failure: Option<Failure>, s: Stream)
    requires AllWellFormed(frames) && n <= |bytes| && AreOnWire(frames, bytes[..n]) && EndsIn(bytes[n..], failure)
    ensures IsRead(frames, bytes, bytes[n..], failure, s)
    decreases |frames|
  {
    if frames == [] {
      assert bytes[n..] == bytes;
      EndIsRead(bytes, failure, s);
    } else {
      var m := FirstOnWire(frames, bytes, n);
      FramesAreRead(frames[1..], bytes[m..], n - m, failure, s);
      OneMoreIsRead(frames, bytes, m, bytes[n..], failure, s);
    }
  }

  lemma OneMoreOnWire(f: Sending, frames: seq<Sending>, bytes: seq<Byte>, m: nat, n: nat)
    requires m + n <= |bytes| && IsOnWire(f, bytes[..m]) && AreOnWire(frames, bytes[m..][..n])
    ensures AreOnWire([f] + frames, bytes[..m + n])
  {
    SlicesAgree(bytes, m, m + n);
    assert ([f] + frames)[1..] == frames;
  }

  lemma FrameAtHead(bytes: seq<Byte>) returns (f: Sending)
    requires |bytes| >= 8 && (bytes[0] == 1 || bytes[0] == 2) && SizeIn(bytes) <= 16 * 1024 * 1024 && SizeIn(bytes) <= |bytes| - 8
    ensures WellFormed(f) && IsOnWire(f, bytes[..8 + SizeIn(bytes)])
  {
    var m := 8 + SizeIn(bytes);
    var head := bytes[..m];
    f := Sending(if bytes[0] == 1 then Stdout else Stderr, bytes[1..4], bytes[8..m]);
    assert head[0] == bytes[0] && head[4] == bytes[4] && head[5] == bytes[5] && head[6] == bytes[6] && head[7] == bytes[7];
    assert head[1..4] == bytes[1..4] && head[8..] == bytes[8..m] && |head| == m;
  }

  /** Every input is of this kind: some frames, and a rest that ends in one of the five ways. */
  lemma {:induction false} EveryInputIsFramesAndRest(bytes: seq<Byte>) returns (frames: seq<Sending>, n: nat, failure: Option<Failure>)
    ensures AllWellFormed(frames) && n <= |bytes| && AreOnWire(frames, bytes[..n]) && EndsIn(bytes[n..], failure)
    decreases |bytes|
  {
    frames, n := [], 0;
    assert bytes[0..] == bytes;
    if bytes == [] {
      failure := None;
    } else if |bytes| < 8 {
      failure := Some(MalformedFrame);
    } else if bytes[0] != 1 && bytes[0] != 2 {
      failure := Some(UnknownStream);
    } else if SizeIn(bytes) > 16 * 1024 * 1024 {
      failure := Some(FrameTooLarge);
    } else if |bytes| - 8 < SizeIn(bytes) {
      failure := Some(MalformedPayload);
    } else {
      var m := 8 + SizeIn(bytes);
      var f := FrameAtHead(bytes);
      frames, n, failure := EveryInputIsFramesAndRest(bytes[m..]);
      OneMoreOnWire(f, frames, bytes, m, n);
      assert bytes[m..][n..] == bytes[m + n..];
      frames, n := [f] + frames, m + n;
    }
  }

  /** An engine's frame on the wire, with zeros for the three bytes that nothing reads. */
  lemma EncodedIsOnWire(f: Frame)
    requires |f.payload| <= MAX_FRAME
    ensures var sending := Sending(f.stream, [0, 0, 0], f.payload); WellFormed(sending) && IsOnWire(sending, Encode(f))
  {
    SizeReadsBack(|f.payload|);
    var bytes := Encode(f);
    assert bytes[4..8] == Size(|f.payload|);
    HeaderIsRead(bytes);
  }
}
