/**
 * `apps/runner/src/docker.ts`: Docker's framed log stream, read whole by `demultiplex`, in bounded
 * part by `readLogs`, and incrementally by `followContainerLogs`. Bytes throughout.
 */
module DockerLogs {
  import opened Base

  /** One frame: the stream byte (2 is stderr, anything else stdout), three unused bytes, the payload. */
  datatype RawFrame = Frame(stream: byte, unused: seq<byte>, payload: seq<byte>)

  /** A frame whose length field can hold its length. */
  type Frame = f: RawFrame | |f.unused| == 3 && |f.payload| < 0x1_0000_0000 witness RawFrame.Frame(0, [0, 0, 0], [])

  const HEADER := 8
  const STDERR: byte := 2
  const NEWLINE: byte := 10

  function BigEndian32(n: nat): (r: seq<byte>)
    requires n < 0x1_0000_0000
    ensures |r| == 4
  {
    [n / 0x100 / 0x100 / 0x100, n / 0x100 / 0x100 % 0x100, n / 0x100 % 0x100, n % 0x100]
  }

  function Shift(high: nat, low: byte): (n: nat)
    ensures n / 0x100 == high && n % 0x100 == low
  {
    high * 0x100 + low
  }

  function ReadUInt32BE(b: seq<byte>, at: nat): (n: nat)
    requires at + 4 <= |b|
    ensures n < 0x1_0000_0000
  {
    Shift(Shift(Shift(b[at], b[at + 1]), b[at + 2]), b[at + 3])
  }

  function EncodeFrame(f: Frame): seq<byte>
  {
    [f.stream] + f.unused + BigEndian32(|f.payload|) + f.payload
  }

  function Encode(frames: seq<Frame>): seq<byte>
  {
    if frames == [] then [] else EncodeFrame(frames[0]) + Encode(frames[1..])
  }

  // ---------------------------------------------------------------------------
  // The reference reading of a byte stream: its whole frames, and what is left over.
  // ---------------------------------------------------------------------------

  function FrameSize(b: seq<byte>): (n: nat)
    requires HEADER <= |b|
    ensures HEADER <= n
  {
    HEADER + ReadUInt32BE(b, 4)
  }

  predicate HasFrame(b: seq<byte>) {
    HEADER <= |b| && FrameSize(b) <= |b|
  }

  function FirstFrame(b: seq<byte>): (f: Frame)
    requires HasFrame(b)
  {
    RawFrame.Frame(b[0], b[1..4], b[HEADER..FrameSize(b)])
  }

  function Frames(b: seq<byte>): (frames: seq<Frame>)
    decreases |b|
  {
    if HasFrame(b) then [FirstFrame(b)] + Frames(b[FrameSize(b)..]) else []
  }

  function Residue(b: seq<byte>): (r: seq<byte>)
    ensures !HasFrame(r)
    decreases |b|
  {
    if HasFrame(b) then Residue(b[FrameSize(b)..]) else b
  }

  lemma FramesStep(b: seq<byte>)
    ensures Frames(b) == if HasFrame(b) then [FirstFrame(b)] + Frames(b[FrameSize(b)..]) else []
    ensures Residue(b) == if HasFrame(b) then Residue(b[FrameSize(b)..]) else b
  {
  }

  lemma BigEndianRoundTrip(n: nat)
    requires n < 0x1_0000_0000
    ensures ReadUInt32BE(BigEndian32(n), 0) == n
  {
  }

  lemma BigEndianUnique(b: seq<byte>)
    requires |b| == 4
    ensures BigEndian32(ReadUInt32BE(b, 0)) == b
  {
  }

  lemma ReadIsLocal(b: seq<byte>, at: nat)
    requires at + 4 <= |b|
    ensures ReadUInt32BE(b, at) == ReadUInt32BE(b[at..at + 4], 0)
  {
  }

  lemma EncodedParts(f: Frame)
    ensures var e := EncodeFrame(f);
      && |e| == HEADER + |f.payload| && e[0] == f.stream && e[1..4] == f.unused
      && e[4..8] == BigEndian32(|f.payload|) && e[HEADER..] == f.payload
  {
  }

  /** Reading the first frame of a stream and writing it are inverse. */
  lemma FirstFrameRoundTrip(f: Frame, rest: seq<byte>)
    ensures var b := EncodeFrame(f) + rest;
      HasFrame(b) && FirstFrame(b) == f && FrameSize(b) == |EncodeFrame(f)| && b[FrameSize(b)..] == rest
  {
    var e := EncodeFrame(f);
    var b := e + rest;
    EncodedParts(f);
    BigEndianRoundTrip(|f.payload|);
    ReadIsLocal(b, 4);
    hide EncodeFrame, ReadUInt32BE, BigEndian32;
    assert b[4..8] == e[4..8] && b[1..4] == e[1..4];
    assert b[HEADER..|e|] == e[HEADER..];
  }

  lemma FirstFrameIsPrefix(b: seq<byte>)
    requires HasFrame(b)
    ensures EncodeFrame(FirstFrame(b)) + b[FrameSize(b)..] == b
  {
    hide ReadUInt32BE, BigEndian32, EncodeFrame;
    var n := FrameSize(b);
    BigEndianUnique(b[4..8]);
    ReadIsLocal(b, 4);
    EncodedParts(FirstFrame(b));
    PrefixParts(b, n);
    SameParts(EncodeFrame(FirstFrame(b)), b[..n]);
  }

  lemma PrefixParts(b: seq<byte>, n: nat)
    requires HEADER <= n <= |b|
    ensures b[..n][1..4] == b[1..4] && b[..n][4..8] == b[4..8] && b[..n][HEADER..] == b[HEADER..n]
    ensures b[..n] + b[n..] == b
  {
  }

  lemma SameParts(e: seq<byte>, c: seq<byte>)
    requires |e| == |c| >= HEADER && e[0] == c[0] && e[1..4] == c[1..4] && e[4..8] == c[4..8]
    requires e[HEADER..] == c[HEADER..]
    ensures e == c
  {
    forall k | 0 <= k < |e|
      ensures e[k] == c[k]
    {
      if 1 <= k < 4 {
        assert e[k] == e[1..4][k - 1] && c[k] == c[1..4][k - 1];
      } else if 4 <= k < 8 {
        assert e[k] == e[4..8][k - 4] && c[k] == c[4..8][k - 4];
      } else if 8 <= k {
        assert e[k] == e[HEADER..][k - 8] && c[k] == c[HEADER..][k - 8];
      }
    }
  }

  /** Every byte stream is its frames, encoded, and the residue: nothing is lost and nothing invented. */
  lemma {:induction false} ParseIsExact(b: seq<byte>)
    ensures Encode(Frames(b)) + Residue(b) == b
    decreases |b|
  {
    FramesStep(b);
    if HasFrame(b) {
      var f, rest := FirstFrame(b), b[FrameSize(b)..];
      ParseIsExact(rest);
      FirstFrameIsPrefix(b);
      EncodeCons(f, Frames(rest));
      Associative(EncodeFrame(f), Encode(Frames(rest)), Residue(rest));
    }
  }

  lemma EncodeCons(f: Frame, rest: seq<Frame>)
    ensures Encode([f] + rest) == EncodeFrame(f) + Encode(rest)
  {
    assert ([f] + rest)[1..] == rest;
  }

  lemma ParseHead(f: Frame, tail: seq<byte>)
    ensures Frames(EncodeFrame(f) + tail) == [f] + Frames(tail)
    ensures Residue(EncodeFrame(f) + tail) == Residue(tail)
  {
    FirstFrameRoundTrip(f, tail);
    FramesStep(EncodeFrame(f) + tail);
    hide EncodeFrame, Frames, Residue, FirstFrame, FrameSize, HasFrame;
  }

  /** Frames ahead of any bytes are read back as they were written, and the rest is read on its own. */
  lemma {:induction false} ParseAfterEncode(frames: seq<Frame>, rest: seq<byte>)
    ensures Frames(Encode(frames) + rest) == frames + Frames(rest)
    ensures Residue(Encode(frames) + rest) == Residue(rest)
  {
    if frames == [] {
      assert Encode(frames) + rest == rest && frames + Frames(rest) == Frames(rest);
    } else {
      var f, later := frames[0], Encode(frames[1..]);
      ParseHead(f, later + rest);
      ParseAfterEncode(frames[1..], rest);
      hide EncodeFrame, Frames, Residue;
      Associative(EncodeFrame(f), later, rest);
      Associative([f], frames[1..], Frames(rest));
      assert frames == [f] + frames[1..];
    }
  }

  /** Parsing what arrives later only ever needs the residue of what came before. */
  lemma ParseResumes(a: seq<byte>, b: seq<byte>)
    ensures Frames(a + b) == Frames(a) + Frames(Residue(a) + b)
    ensures Residue(a + b) == Residue(Residue(a) + b)
  {
    ParseIsExact(a);
    hide Frames, Residue, Encode;
    assert a + b == Encode(Frames(a)) + (Residue(a) + b);
    ParseAfterEncode(Frames(a), Residue(a) + b);
  }

  // ---------------------------------------------------------------------------
  // The two streams.
  // ---------------------------------------------------------------------------

  function Payloads(frames: seq<Frame>, stderr: bool): seq<byte> {
    if frames == [] then []
    else (if (frames[0].stream == STDERR) == stderr then frames[0].payload else []) + Payloads(frames[1..], stderr)
  }

  lemma {:induction false} PayloadsConcat(a: seq<Frame>, b: seq<Frame>, stderr: bool)
    ensures Payloads(a + b, stderr) == Payloads(a, stderr) + Payloads(b, stderr)
  {
    if a == [] {
      assert a + b == b;
    } else {
      PayloadsConcat(a[1..], b, stderr);
      assert a + b == [a[0]] + (a[1..] + b);
      PayloadsCons(a[0], a[1..] + b, stderr);
      var first := if (a[0].stream == STDERR) == stderr then a[0].payload else [];
      Associative(first, Payloads(a[1..], stderr), Payloads(b, stderr));
    }
  }

  lemma PayloadsCons(f: Frame, rest: seq<Frame>, stderr: bool)
    ensures Payloads([f] + rest, stderr) ==
            (if (f.stream == STDERR) == stderr then f.payload else []) + Payloads(rest, stderr)
  {
    assert ([f] + rest)[1..] == rest;
  }

  /** What a cut frame still carries for one stream. */
  function CutPayload(r: seq<byte>, stderr: bool): seq<byte> {
    if HEADER <= |r| && (r[0] == STDERR) == stderr then r[HEADER..] else []
  }

  datatype Logs = Logs(stdout: seq<byte>, stderr: seq<byte>, truncated: bool)

  /** One stream of a finished buffer: whole frames, then whatever a cut frame holds. */
  function Stream(b: seq<byte>, stderr: bool): seq<byte> {
    Payloads(Frames(b), stderr) + CutPayload(Residue(b), stderr)
  }

  /** `demultiplex`. */
  method Demultiplex(buffer: seq<byte>, truncated: bool) returns (logs: Logs)
    ensures logs.stdout == Stream(buffer, false)
    ensures logs.stderr == Stream(buffer, true)
    ensures logs.truncated <==> truncated || HEADER <= |Residue(buffer)|
  {
    hide Stream, Residue, ReadUInt32BE;
    assert buffer[0..] == buffer;
    var out: seq<byte>, err: seq<byte> := [], [];
    var offset := 0;
    while offset + HEADER <= |buffer|
      invariant offset <= |buffer| ==>
        out + Stream(buffer[offset..], false) == Stream(buffer, false) &&
        err + Stream(buffer[offset..], true) == Stream(buffer, true) &&
        Residue(buffer[offset..]) == Residue(buffer)
      invariant offset > |buffer| ==>
        out == Stream(buffer, false) && err == Stream(buffer, true) && HEADER <= |Residue(buffer)|
      decreases |buffer| - offset
    {
      var stream := buffer[offset];
      var length := ReadUInt32BE(buffer, offset + 4);
      var start := offset + HEADER;
      var end := if start + length <= |buffer| then start + length else |buffer|;
      WalkTurn(buffer, offset, false);
      WalkTurn(buffer, offset, true);
      if stream == STDERR {
        err := err + buffer[start..end];
      } else {
        out := out + buffer[start..end];
      }
      offset := start + length;
    }
    if offset <= |buffer| {
      ShortTail(buffer[offset..]);
    }
    logs := Logs(out, err, truncated || offset > |buffer|);
  }

  lemma ShortTail(b: seq<byte>)
    requires |b| < HEADER
    ensures Stream(b, false) == [] && Stream(b, true) == [] && Residue(b) == b
  {
  }

  lemma LengthInPlace(buffer: seq<byte>, offset: nat)
    requires offset + HEADER <= |buffer|
    ensures buffer[offset..][0] == buffer[offset]
    ensures ReadUInt32BE(buffer[offset..], 4) == ReadUInt32BE(buffer, offset + 4)
  {
  }

  /** One turn of the walk, at `offset`. */
  lemma WalkTurn(buffer: seq<byte>, offset: nat, stderr: bool)
    requires offset + HEADER <= |buffer|
    ensures
      var rest, start := buffer[offset..], offset + HEADER;
      var next := start + ReadUInt32BE(buffer, offset + 4);
      var mine := (buffer[offset] == STDERR) == stderr;
      if next <= |buffer| then
        && Stream(rest, stderr) == (if mine then buffer[start..next] else []) + Stream(buffer[next..], stderr)
        && Residue(rest) == Residue(buffer[next..])
      else
        && Stream(rest, stderr) == (if mine then buffer[start..] else [])
        && Residue(rest) == rest
  {
    hide ReadUInt32BE, Stream, Residue, HasFrame, FrameSize;
    var rest := buffer[offset..];
    LengthInPlace(buffer, offset);
    FrameInPlace(buffer, offset);
    StreamStep(rest, stderr);
    DropInPlace(buffer, offset, HEADER);
    if HasFrame(rest) {
      DropInPlace(buffer, offset, FrameSize(rest));
      SliceInPlace(buffer, offset, HEADER, FrameSize(rest));
    }
  }

  lemma FrameInPlace(buffer: seq<byte>, offset: nat)
    requires offset + HEADER <= |buffer|
    ensures |buffer[offset..]| >= HEADER
    ensures FrameSize(buffer[offset..]) == HEADER + ReadUInt32BE(buffer, offset + 4)
    ensures HasFrame(buffer[offset..]) <==> offset + HEADER + ReadUInt32BE(buffer, offset + 4) <= |buffer|
  {
    LengthInPlace(buffer, offset);
    hide ReadUInt32BE;
  }

  lemma DropInPlace<T>(s: seq<T>, offset: nat, n: nat)
    requires offset + n <= |s|
    ensures s[offset..][n..] == s[offset + n..]
  {
  }

  lemma SliceInPlace<T>(s: seq<T>, offset: nat, n: nat, m: nat)
    requires n <= m && offset + m <= |s|
    ensures s[offset..][n..m] == s[offset + n..offset + m]
  {
  }

  lemma StreamStep(b: seq<byte>, stderr: bool)
    requires HEADER <= |b|
    ensures
      var mine := (b[0] == STDERR) == stderr;
      if HasFrame(b) then
        && Stream(b, stderr) == (if mine then b[HEADER..FrameSize(b)] else []) + Stream(b[FrameSize(b)..], stderr)
        && Residue(b) == Residue(b[FrameSize(b)..])
      else
        && Stream(b, stderr) == (if mine then b[HEADER..] else [])
        && Residue(b) == b
  {
    FramesStep(b);
    if HasFrame(b) {
      var f, rest := FirstFrame(b), b[FrameSize(b)..];
      hide Frames, Residue;
      PayloadsCons(f, Frames(rest), stderr);
      Associative(if (f.stream == STDERR) == stderr then f.payload else [], Payloads(Frames(rest), stderr),
                  CutPayload(Residue(rest), stderr));
    }
  }

  // ---------------------------------------------------------------------------
  // What the batch reader promises.
  // ---------------------------------------------------------------------------

  /** Encode any frames, read them back: each stream is exactly its payloads, and nothing is cut. */
  lemma {:induction false} DemultiplexInvertsEncode(frames: seq<Frame>, stderr: bool)
    ensures Stream(Encode(frames), stderr) == Payloads(frames, stderr)
    ensures Residue(Encode(frames)) == []
  {
    ParseAfterEncode(frames, []);
    assert Encode(frames) + [] == Encode(frames) && frames + [] == frames;
  }

  lemma StreamResumes(a: seq<byte>, b: seq<byte>, stderr: bool)
    ensures Stream(a + b, stderr) == Payloads(Frames(a), stderr) + Stream(Residue(a) + b, stderr)
  {
    ParseResumes(a, b);
    hide Frames, Residue, CutPayload;
    var r := Residue(a) + b;
    PayloadsConcat(Frames(a), Frames(r), stderr);
    Associative(Payloads(Frames(a), stderr), Payloads(Frames(r), stderr), CutPayload(Residue(r), stderr));
  }

  lemma CutIsPrefix(r: seq<byte>, b: seq<byte>, stderr: bool)
    requires !HasFrame(r)
    ensures CutPayload(r, stderr) <= Stream(r + b, stderr)
  {
    if HEADER <= |r| {
      assert (r + b)[4..8] == r[4..8];
      ReadIsLocal(r + b, 4);
      ReadIsLocal(r, 4);
      hide ReadUInt32BE, Stream;
      StreamStep(r + b, stderr);
      assert r[HEADER..] <= (r + b)[HEADER..];
      if HasFrame(r + b) {
        assert r[HEADER..] <= (r + b)[HEADER..FrameSize(r + b)];
      }
    }
  }

  /** Cutting a log anywhere, in a header or inside a payload, only ever shortens each stream. */
  lemma CutShortens(b: seq<byte>, n: nat, stderr: bool)
    requires n <= |b|
    ensures Stream(b[..n], stderr) <= Stream(b, stderr)
  {
    var a, rest := b[..n], b[n..];
    assert b == a + rest;
    StreamResumes(a, rest, stderr);
    CutIsPrefix(Residue(a), rest, stderr);
    hide Frames, Residue, CutPayload;
    PrefixUnder(Payloads(Frames(a), stderr), CutPayload(Residue(a), stderr), Stream(Residue(a) + rest, stderr));
  }

  lemma PrefixUnder<T>(a: seq<T>, b: seq<T>, c: seq<T>)
    requires b <= c
    ensures a + b <= a + c
  {
    assert (a + c)[..|a + b|] == a + c[..|b|];
  }

  /** Both streams together are never longer than what was read: headers are overhead. */
  lemma {:induction false} StreamsFit(b: seq<byte>)
    ensures |Stream(b, false)| + |Stream(b, true)| <= |b|
    decreases |b|
  {
    if HEADER <= |b| {
      StreamStep(b, false);
      StreamStep(b, true);
      if HasFrame(b) {
        StreamsFit(b[FrameSize(b)..]);
      }
    }
  }

  function Prefix(b: seq<byte>, n: nat): seq<byte> {
    if n <= |b| then b[..n] else b
  }

  /** `readLogs`: the body's data events, the byte bound, and the frame walk over what was kept. */
  method ReadLogs(chunks: seq<seq<byte>>, maxBytes: nat) returns (logs: Logs)
    ensures var all := Flatten(chunks);
      && logs.stdout <= Stream(all, false) && logs.stderr <= Stream(all, true)
      && |logs.stdout| + |logs.stderr| <= maxBytes
      && (|all| <= maxBytes ==> logs.stdout == Stream(all, false) && logs.stderr == Stream(all, true))
      && (logs.truncated <==> maxBytes < |all| || HEADER <= |Residue(all)|)
  {
    var kept, truncated := KeepBounded(chunks, maxBytes);
    logs := Demultiplex(kept, truncated);
    ghost var all := Flatten(chunks);
    assert all[..|kept|] == kept;
    CutShortens(all, |kept|, false);
    CutShortens(all, |kept|, true);
    StreamsFit(kept);
    assert |all| <= maxBytes ==> kept == all;
  }

  /** The body's data events: `kept` is `Buffer.concat(chunks)`, and a truncated read ignores the rest. */
  method KeepBounded(chunks: seq<seq<byte>>, maxBytes: nat) returns (kept: seq<byte>, truncated: bool)
    ensures kept == Prefix(Flatten(chunks), maxBytes)
    ensures truncated <==> maxBytes < |Flatten(chunks)|
  {
    kept, truncated := [], false;
    var size := 0;
    ghost var all := Flatten(chunks);
    for i := 0 to |chunks|
      invariant !truncated ==> size == |kept| <= maxBytes && kept + Flatten(chunks[i..]) == all
      invariant truncated ==> maxBytes < |all| && kept == all[..maxBytes]
    {
      if !truncated {
        var chunk := chunks[i];
        ghost var rest := Flatten(chunks[i + 1..]);
        FlattenCons(chunks, i);
        Associative(kept, chunk, rest);
        size := size + |chunk|;
        if size > maxBytes {
          truncated := true;
          CutInside(kept, chunk, rest, maxBytes);
          kept := kept + chunk[..|chunk| - (size - maxBytes)];
        } else {
          kept := kept + chunk;
        }
      }
    }
  }

  lemma FlattenCons<T>(chunks: seq<seq<T>>, i: nat)
    requires i < |chunks|
    ensures Flatten(chunks[i..]) == chunks[i] + Flatten(chunks[i + 1..])
  {
    assert chunks[i..][1..] == chunks[i + 1..];
  }

  lemma CutInside<T>(kept: seq<T>, chunk: seq<T>, rest: seq<T>, n: nat)
    requires |kept| <= n <= |kept| + |chunk|
    ensures kept + chunk[..n - |kept|] == (kept + (chunk + rest))[..n]
  {
  }

  // ---------------------------------------------------------------------------
  // Lines.
  // ---------------------------------------------------------------------------

  function IndexOfNewline(t: seq<byte>): (i: nat)
    ensures i <= |t| && NEWLINE !in t[..i] && (i < |t| ==> t[i] == NEWLINE)
  {
    if t == [] || t[0] == NEWLINE then 0
    else
      var i := 1 + IndexOfNewline(t[1..]);
      assert t[..i] == [t[0]] + t[1..][..i - 1];
      i
  }

  /** The newline-terminated lines of a text, without their newlines. */
  function Lines(t: seq<byte>): seq<seq<byte>>
    decreases |t|
  {
    var i := IndexOfNewline(t);
    if i == |t| then [] else [t[..i]] + Lines(t[i + 1..])
  }

  /** What follows the last newline. */
  function Tail(t: seq<byte>): seq<byte>
    decreases |t|
  {
    var i := IndexOfNewline(t);
    if i == |t| then t else Tail(t[i + 1..])
  }

  function Terminated(lines: seq<seq<byte>>): seq<byte> {
    if lines == [] then [] else lines[0] + [NEWLINE] + Terminated(lines[1..])
  }

  function NonEmpty(lines: seq<seq<byte>>): seq<seq<byte>> {
    if lines == [] then [] else (if lines[0] == [] then [] else [lines[0]]) + NonEmpty(lines[1..])
  }

  /** `Lines` and `Tail` take a text apart exactly, and leave no newline inside a line. */
  lemma {:induction false} LinesAreExact(t: seq<byte>)
    ensures Terminated(Lines(t)) + Tail(t) == t
    ensures NEWLINE !in Tail(t) && forall l | l in Lines(t) :: NEWLINE !in l
    decreases |t|
  {
    var i := IndexOfNewline(t);
    if i < |t| {
      var rest := t[i + 1..];
      LinesAreExact(rest);
      assert Lines(t) == [t[..i]] + Lines(rest) && Tail(t) == Tail(rest);
      hide Lines, Tail, IndexOfNewline;
      TerminatedCons(t[..i], Lines(rest));
      Associative(t[..i] + [NEWLINE], Terminated(Lines(rest)), Tail(rest));
      SplitAt(t, i);
    }
  }

  lemma TerminatedCons(line: seq<byte>, lines: seq<seq<byte>>)
    ensures Terminated([line] + lines) == line + [NEWLINE] + Terminated(lines)
  {
    assert ([line] + lines)[1..] == lines;
  }

  lemma SplitAt<T>(t: seq<T>, i: nat)
    requires i < |t|
    ensures t[..i] + [t[i]] + t[i + 1..] == t
  {
  }

  lemma {:induction false} IndexIsLocal(t: seq<byte>, more: seq<byte>)
    requires IndexOfNewline(t) < |t|
    ensures IndexOfNewline(t + more) == IndexOfNewline(t)
  {
    if t[0] != NEWLINE {
      IndexIsLocal(t[1..], more);
      assert (t + more)[1..] == t[1..] + more;
    }
  }

  /** Splitting what arrives later only ever needs the tail of what came before. */
  lemma {:induction false} LinesResume(a: seq<byte>, b: seq<byte>)
    ensures Lines(a + b) == Lines(a) + Lines(Tail(a) + b)
    ensures Tail(a + b) == Tail(Tail(a) + b)
    decreases |a|
  {
    var i := IndexOfNewline(a);
    if i == |a| {
      assert Lines(a) + Lines(a + b) == Lines(a + b);
    } else {
      IndexIsLocal(a, b);
      var rest := a[i + 1..];
      assert (a + b)[i + 1..] == rest + b && (a + b)[..i] == a[..i];
      LinesResume(rest, b);
      Associative([a[..i]], Lines(rest), Lines(Tail(rest) + b));
    }
  }

  lemma {:induction false} NonEmptyConcat(a: seq<seq<byte>>, b: seq<seq<byte>>)
    ensures NonEmpty(a + b) == NonEmpty(a) + NonEmpty(b)
  {
    if a == [] {
      assert a + b == b;
    } else {
      NonEmptyConcat(a[1..], b);
      assert a + b == [a[0]] + (a[1..] + b);
      assert (a + b)[1..] == a[1..] + b;
      Associative(if a[0] == [] then [] else [a[0]], NonEmpty(a[1..]), NonEmpty(b));
    }
  }

  // ---------------------------------------------------------------------------
  // The streaming reader.
  // ---------------------------------------------------------------------------

  /** The stdout of the whole frames received so far. */
  function WholeText(b: seq<byte>): seq<byte> {
    Payloads(Frames(b), false)
  }

  lemma NoLine(pending: seq<byte>)
    requires IndexOfNewline(pending) == |pending|
    ensures Lines(pending) == [] && NonEmpty(Lines(pending)) == [] && Tail(pending) == pending
  {
  }

  /** Taking one line off `pending` hands it on, unless it is empty. */
  lemma TakeLine(emitted: seq<seq<byte>>, pending: seq<byte>)
    requires IndexOfNewline(pending) < |pending|
    ensures
      var i := IndexOfNewline(pending);
      var rest := pending[i + 1..];
      && Tail(pending) == Tail(rest)
      && (emitted + (if i == 0 then [] else [pending[..i]])) + NonEmpty(Lines(rest))
         == emitted + NonEmpty(Lines(pending))
  {
    var i := IndexOfNewline(pending);
    var rest := pending[i + 1..];
    assert ([pending[..i]] + Lines(rest))[1..] == Lines(rest);
    Associative(emitted, if i == 0 then [] else [pending[..i]], NonEmpty(Lines(rest)));
  }

  lemma NoFrame(carry: seq<byte>)
    requires !HasFrame(carry)
    ensures WholeText(carry) == [] && Residue(carry) == carry
  {
  }

  /** Taking one frame off `carry` moves its stdout payload onto `pending`. */
  lemma TakeFrame(pending: seq<byte>, carry: seq<byte>)
    requires HasFrame(carry)
    ensures
      var n := FrameSize(carry);
      var mine := if carry[0] == STDERR then [] else carry[HEADER..n];
      && Residue(carry) == Residue(carry[n..])
      && (pending + mine) + WholeText(carry[n..]) == pending + WholeText(carry)
  {
    var n := FrameSize(carry);
    FramesStep(carry);
    PayloadsCons(FirstFrame(carry), Frames(carry[n..]), false);
    Associative(pending, if carry[0] == STDERR then [] else carry[HEADER..n], WholeText(carry[n..]));
  }

  /** `followContainerLogs`: `carry` and `pending` are its two variables, `emitted` what `onLine` was given. */
  class Follower {
    var stopped: bool
    var pending: seq<byte>
    var carry: seq<byte>
    var emitted: seq<seq<byte>>
    ghost var received: seq<byte>

    ghost predicate Valid()
      reads this
    {
      && carry == Residue(received)
      && pending == Tail(WholeText(received))
      && emitted == NonEmpty(Lines(WholeText(received)))
    }

    constructor ()
      ensures Valid() && !stopped && received == [] && emitted == []
    {
      stopped, pending, carry, emitted, received := false, [], [], [], [];
    }

    /** One `data` event. */
    method OnData(chunk: seq<byte>)
      requires Valid()
      modifies this
      ensures Valid() && stopped == old(stopped)
      ensures received == old(received) + (if stopped then [] else chunk)
    {
      if stopped {
        return;
      }
      hide Frames, Residue, Lines, Tail, NonEmpty;
      ghost var text := WholeText(received);
      carry := carry + chunk;
      ghost var all := carry;
      ParseResumes(received, chunk);
      PayloadsConcat(Frames(received), Frames(all), false);
      received := received + chunk;
      WalkFrames();
      LinesResume(text, Payloads(Frames(all), false));
      NonEmptyConcat(Lines(text), Lines(pending));
      EmitLines();
    }

    /** The inner walk over whole frames. */
    method WalkFrames()
      modifies this`carry, this`pending
      ensures carry == Residue(old(carry))
      ensures pending == old(pending) + WholeText(old(carry))
    {
      hide Residue, WholeText, ReadUInt32BE;
      while |carry| >= HEADER
        invariant Residue(carry) == Residue(old(carry))
        invariant pending + WholeText(carry) == old(pending) + WholeText(old(carry))
        decreases |carry|
      {
        var length := ReadUInt32BE(carry, 4);
        if |carry| < HEADER + length {
          break;
        }
        TakeFrame(pending, carry);
        var stream := carry[0];
        var payload := carry[HEADER..HEADER + length];
        carry := carry[HEADER + length..];
        if stream != STDERR {
          pending := pending + payload;
        }
      }
      NoFrame(carry);
    }

    /** The inner loop handing complete lines to `onLine`. */
    method EmitLines()
      modifies this`pending, this`emitted
      ensures pending == Tail(old(pending))
      ensures emitted == old(emitted) + NonEmpty(Lines(old(pending)))
    {
      hide Lines, Tail, NonEmpty;
      var newline := IndexOfNewline(pending);
      while newline != |pending|
        invariant newline == IndexOfNewline(pending)
        invariant Tail(pending) == Tail(old(pending))
        invariant emitted + NonEmpty(Lines(pending)) == old(emitted) + NonEmpty(Lines(old(pending)))
        decreases |pending|
      {
        var line := pending[..newline];
        TakeLine(emitted, pending);
        pending := pending[newline + 1..];
        if line != [] {
          emitted := emitted + [line];
        }
        newline := IndexOfNewline(pending);
      }
      NoLine(pending);
    }

    /** `stop()`: whatever arrives afterwards is ignored. */
    method Stop()
      requires Valid()
      modifies this`stopped
      ensures Valid() && stopped
    {
      stopped := true;
    }
  }

  /** A whole follow: however the body is cut into chunks, the lines depend on its bytes alone. */
  method Follow(chunks: seq<seq<byte>>) returns (emitted: seq<seq<byte>>)
    ensures emitted == NonEmpty(Lines(WholeText(Flatten(chunks))))
  {
    var follower := new Follower();
    for i := 0 to |chunks|
      invariant follower.Valid() && !follower.stopped && fresh(follower)
      invariant follower.received == Flatten(chunks[..i])
    {
      follower.OnData(chunks[i]);
      assert chunks[..i + 1] == chunks[..i] + [chunks[i]];
      FlattenAppend(chunks[..i], chunks[i]);
    }
    assert chunks[..|chunks|] == chunks;
    emitted := follower.emitted;
  }

  /** At a frame boundary the two readers agree: the lines followed are the lines of the finished stdout. */
  lemma FollowAgreesWithDemultiplex(b: seq<byte>)
    ensures WholeText(b) <= Stream(b, false)
    ensures |Residue(b)| < HEADER ==> WholeText(b) == Stream(b, false)
    ensures NonEmpty(Lines(WholeText(b))) <= NonEmpty(Lines(Stream(b, false)))
  {
    LinesResume(WholeText(b), CutPayload(Residue(b), false));
    NonEmptyConcat(Lines(WholeText(b)), Lines(Tail(WholeText(b)) + CutPayload(Residue(b), false)));
  }

  // ---------------------------------------------------------------------------
  // The format, byte by byte.
  // ---------------------------------------------------------------------------

  /**
   * A frame on the wire: its stream, three bytes, its length with the most significant byte first, its payload;
   * stream 2 is the error stream, and any other is output.
   */
  lemma WireFormat(stream: byte, a: byte, b: byte, c: byte, d: byte, payload: seq<byte>)
    requires |payload| == 16_777_216 * (a as nat) + 65_536 * (b as nat) + 256 * (c as nat) + d as nat
    ensures
      var wire := [stream, 0, 0, 0, a, b, c, d] + payload;
      && Stream(wire, true) == (if stream == 2 then payload else [])
      && Stream(wire, false) == (if stream == 2 then [] else payload)
      && Residue(wire) == []
  {
    var f := RawFrame.Frame(stream, [0, 0, 0], payload);
    var wire := [stream, 0, 0, 0, a, b, c, d] + payload;
    BigEndianUnique([a, b, c, d]);
    assert ReadUInt32BE([a, b, c, d], 0) == |payload|;
    assert EncodeFrame(f) == wire;
    OneFrame(f);
    DemultiplexInvertsEncode([f], true);
    DemultiplexInvertsEncode([f], false);
    hide EncodeFrame, Stream, Residue, Frames;
    assert payload + [] == payload;
  }

  lemma OneFrame(f: Frame)
    ensures Encode([f]) == EncodeFrame(f) && Payloads([f], true) == (if f.stream == 2 then f.payload else [])
    ensures Payloads([f], false) == (if f.stream == 2 then [] else f.payload)
  {
    assert Encode([]) == [] && Payloads([], true) == [] == Payloads([], false);
    assert [f][1..] == [];
    assert EncodeFrame(f) + [] == EncodeFrame(f) && f.payload + [] == f.payload;
    hide EncodeFrame;
  }

  /** Lines end at byte 10. */
  lemma LineFormat(line: seq<byte>, rest: seq<byte>)
    requires 10 !in line
    ensures Lines(line + [10] + rest) == [line] + Lines(rest) && Tail(line + [10] + rest) == Tail(rest)
  {
    var t := line + [10] + rest;
    assert t[|line|] == 10 && t[..|line|] == line && t[|line| + 1..] == rest;
    FirstNewline(t, |line|);
  }

  lemma {:induction false} FirstNewline(t: seq<byte>, n: nat)
    requires n < |t| && t[n] == 10 && 10 !in t[..n]
    ensures IndexOfNewline(t) == n
    decreases n
  {
    if n > 0 {
      assert t[0] in t[..n];
      assert t[1..][..n - 1] == t[..n][1..];
      FirstNewline(t[1..], n - 1);
    }
  }
}
