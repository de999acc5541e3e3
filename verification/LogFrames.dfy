/** The CI runner's log reader: frames of an eight-byte header and a payload arrive in reads
    that cut them anywhere; the reader emits the non-empty lines of every payload. */
module LogFrames {
  import opened Text

  newtype Byte = b: int | 0 <= b < 256

  type Bytes = seq<Byte>

  const NEWLINE: Byte := 10

  /** Bytes 4 to 7 of the header, most significant first. */
  function PayloadLength(buffer: Bytes): nat
    requires 8 <= |buffer|
  {
    buffer[4] as nat * 0x100_0000 + buffer[5] as nat * 0x1_0000 + buffer[6] as nat * 0x100 + buffer[7] as nat
  }

  predicate HasFrame(buffer: Bytes) {
    8 <= |buffer| && 8 + PayloadLength(buffer) <= |buffer|
  }

  /** All complete payloads at the front of the buffer, and what is left. */
  function Parse(buffer: Bytes): (r: (seq<Bytes>, Bytes))
    ensures !HasFrame(r.1)
    ensures |r.1| <= |buffer|
    decreases |buffer|
  {
    if !HasFrame(buffer) then ([], buffer)
    else
      var n := 8 + PayloadLength(buffer);
      var (payloads, rest) := Parse(buffer[n..]);
      ([buffer[8..n]] + payloads, rest)
  }

  function NonEmpty(lines: seq<Bytes>): seq<Bytes> {
    if lines == [] then []
    else (if lines[0] != [] then [lines[0]] else []) + NonEmpty(lines[1..])
  }

  /** The lines emitted for a sequence of payloads. */
  function Emitted(payloads: seq<Bytes>): seq<Bytes> {
    if payloads == [] then [] else NonEmpty(Split(payloads[0], NEWLINE)) + Emitted(payloads[1..])
  }

  function Flatten(chunks: seq<Bytes>): Bytes {
    if chunks == [] then [] else chunks[0] + Flatten(chunks[1..])
  }

  /** A frame as the container runtime writes it. */
  function Frame(stream: Byte, payload: Bytes): Bytes
    requires |payload| < 0x1_0000_0000
  {
    var n0 := |payload|;
    var n1 := n0 / 0x100;
    var n2 := n1 / 0x100;
    var n3 := n2 / 0x100;
    [stream, 0, 0, 0, n3 as Byte, (n2 % 0x100) as Byte, (n1 % 0x100) as Byte, (n0 % 0x100) as Byte] + payload
  }

  function Frames(stream: Byte, payloads: seq<Bytes>): Bytes
    requires forall p :: p in payloads ==> |p| < 0x1_0000_0000
  {
    if payloads == [] then []
    else assert payloads[0] in payloads; Frame(stream, payloads[0]) + Frames(stream, payloads[1..])
  }

  /** Bytes that arrive later do not change the frames already complete. */
  lemma {:induction false} ParseThenMore(a: Bytes, b: Bytes)
    ensures var (early, rest) := Parse(a); var (late, end) := Parse(rest + b);
            Parse(a + b) == (early + late, end)
    decreases |a|
  {
    if HasFrame(a) {
      var n := 8 + PayloadLength(a);
      ParseThenMore(a[n..], b);
      ParseFirst(a);
      FirstStays(a, b);
      hide Parse, HasFrame;
      var (early, rest) := Parse(a[n..]);
      Regroup([a[8..n]], early, Parse(rest + b).0);
    } else {
      hide PayloadLength;
      ConcatNothing(Parse(a + b).0);
    }
  }

  lemma ParseFirst(a: Bytes)
    requires HasFrame(a)
    ensures var n := 8 + PayloadLength(a); Parse(a) == ([a[8..n]] + Parse(a[n..]).0, Parse(a[n..]).1)
  {
    hide PayloadLength;
  }

  /** A complete frame stays the first one. */
  lemma FirstStays(a: Bytes, b: Bytes)
    requires HasFrame(a)
    ensures var n := 8 + PayloadLength(a);
            Parse(a + b) == ([a[8..n]] + Parse(a[n..] + b).0, Parse(a[n..] + b).1)
  {
    HeaderStays(a, b);
    hide PayloadLength;
    var n := 8 + PayloadLength(a);
    ParseFirst(a + b);
    assert (a + b)[n..] == a[n..] + b && (a + b)[8..n] == a[8..n];
  }

  lemma HeaderStays(a: Bytes, b: Bytes)
    requires 8 <= |a|
    ensures PayloadLength(a + b) == PayloadLength(a)
  {
  }

  lemma ConcatNothing(a: seq<Bytes>)
    ensures [] + a == a
  {
  }

  lemma {:induction false} EmittedConcat(a: seq<Bytes>, b: seq<Bytes>)
    ensures Emitted(a + b) == Emitted(a) + Emitted(b)
  {
    if a == [] {
      assert a + b == b;
    } else {
      assert (a + b)[1..] == a[1..] + b;
      EmittedConcat(a[1..], b);
    }
  }

  lemma {:induction false} FlattenSnoc(chunks: seq<Bytes>, c: Bytes)
    ensures Flatten(chunks + [c]) == Flatten(chunks) + c
  {
    if chunks == [] {
      assert [c][1..] == [];
      assert [] + [c] == [c];
    } else {
      assert (chunks + [c])[1..] == chunks[1..] + [c];
      FlattenSnoc(chunks[1..], c);
    }
  }

  lemma FrameLength(stream: Byte, payload: Bytes)
    requires |payload| < 0x1_0000_0000
    ensures |Frame(stream, payload)| == 8 + |payload| && Frame(stream, payload)[8..] == payload
    ensures PayloadLength(Frame(stream, payload)) == |payload|
  {
  }

  lemma ParseOne(f: Bytes, payload: Bytes, more: Bytes)
    requires |f| == 8 + |payload| && f[8..] == payload && PayloadLength(f) == |payload|
    ensures Parse(f + more) == ([payload] + Parse(more).0, Parse(more).1)
  {
    HeaderStays(f, more);
    hide PayloadLength;
    assert (f + more)[|f|..] == more && (f + more)[8..|f|] == payload;
  }

  /** Parsing undoes framing, whatever incomplete frame follows. */
  lemma {:induction false} ParseUndoesFraming(stream: Byte, payloads: seq<Bytes>, tail: Bytes)
    requires forall p :: p in payloads ==> |p| < 0x1_0000_0000
    requires !HasFrame(tail)
    ensures Parse(Frames(stream, payloads) + tail) == (payloads, tail)
  {
    if payloads == [] {
      hide PayloadLength;
      assert Frames(stream, payloads) + tail == tail;
    } else {
      FramesStep(stream, payloads);
      hide *;
      ParseUndoesFraming(stream, payloads[1..], tail);
      ParseFront(stream, payloads, Frames(stream, payloads[1..]), tail);
    }
  }

  lemma ParseFront(stream: Byte, payloads: seq<Bytes>, rest: Bytes, tail: Bytes)
    requires payloads != [] && |payloads[0]| < 0x1_0000_0000
    requires Parse(rest + tail) == (payloads[1..], tail)
    ensures Parse(Frame(stream, payloads[0]) + rest + tail) == (payloads, tail)
  {
    var p := payloads[0];
    var f := Frame(stream, p);
    FrameLength(stream, p);
    hide *;
    ParseOne(f, p, rest + tail);
    assert [p] + payloads[1..] == payloads;
    Regroup(f, rest, tail);
  }

  lemma FramesStep(stream: Byte, payloads: seq<Bytes>)
    requires forall p :: p in payloads ==> |p| < 0x1_0000_0000
    requires payloads != []
    ensures payloads[0] in payloads
    ensures Frames(stream, payloads) == Frame(stream, payloads[0]) + Frames(stream, payloads[1..])
  {
    hide Frame;
  }

  /** Nothing is dropped: the headers, the payloads and the leftover make up the stream. */
  lemma {:induction false} ParseLosesNothing(buffer: Bytes) returns (headers: seq<Bytes>)
    ensures |headers| == |Parse(buffer).0| && forall h :: h in headers ==> |h| == 8
    ensures buffer == Interleave(headers, Parse(buffer).0) + Parse(buffer).1
    decreases |buffer|
  {
    if HasFrame(buffer) {
      var n := 8 + PayloadLength(buffer);
      hide PayloadLength;
      var hs := ParseLosesNothing(buffer[n..]);
      headers := [buffer[..8]] + hs;
      var rest := Parse(buffer[n..]).0;
      assert Parse(buffer).0 == [buffer[8..n]] + rest;
      assert Parse(buffer).1 == Parse(buffer[n..]).1;
      hide *;
      InterleaveOne(buffer[..8], hs, buffer[8..n], rest);
      Reassemble(buffer, n, Interleave(hs, rest), Parse(buffer[n..]).1);
    } else {
      headers := [];
    }
  }

  lemma Reassemble(buffer: Bytes, n: nat, x: Bytes, y: Bytes)
    requires 8 <= n <= |buffer| && buffer[n..] == x + y
    ensures buffer == buffer[..8] + buffer[8..n] + x + y
  {
    assert buffer == buffer[..8] + buffer[8..n] + buffer[n..];
  }

  lemma InterleaveOne(h: Bytes, hs: seq<Bytes>, p: Bytes, ps: seq<Bytes>)
    requires |hs| == |ps|
    ensures Interleave([h] + hs, [p] + ps) == h + p + Interleave(hs, ps)
  {
    assert ([h] + hs)[1..] == hs && ([p] + ps)[1..] == ps;
  }

  function Interleave(headers: seq<Bytes>, payloads: seq<Bytes>): Bytes
    requires |headers| == |payloads|
  {
    if headers == [] then [] else headers[0] + payloads[0] + Interleave(headers[1..], payloads[1..])
  }

  function WithoutNewlines(b: Bytes): Bytes {
    if b == [] then [] else (if b[0] == NEWLINE then [] else [b[0]]) + WithoutNewlines(b[1..])
  }

  lemma {:induction false} FlattenConcat(a: seq<Bytes>, b: seq<Bytes>)
    ensures Flatten(a + b) == Flatten(a) + Flatten(b)
  {
    if a == [] {
      assert a + b == b;
    } else {
      assert (a + b)[1..] == a[1..] + b;
      FlattenConcat(a[1..], b);
    }
  }

  lemma {:induction false} NonEmptyFlat(lines: seq<Bytes>)
    ensures Flatten(NonEmpty(lines)) == Flatten(lines)
    ensures forall line :: line in NonEmpty(lines) <==> line in lines && line != []
  {
    if lines != [] {
      NonEmptyFlat(lines[1..]);
      var rest := NonEmpty(lines[1..]);
      assert ([lines[0]] + rest)[1..] == rest && [] + rest == rest;
      assert lines == [lines[0]] + lines[1..];
    }
  }

  lemma {:induction false} SplitFlat(payload: Bytes)
    ensures Flatten(Split(payload, NEWLINE)) == WithoutNewlines(payload)
  {
    if payload != [] {
      SplitFlat(payload[1..]);
      var parts := Split(payload[1..], NEWLINE);
      assert ([[]] + parts)[1..] == parts;
      assert ([[payload[0]] + parts[0]] + parts[1..])[1..] == parts[1..];
    }
  }

  /** The lines emitted hold every byte of the payloads in its place, apart from the newlines. None is empty or
      has a newline in it. */
  lemma {:induction false} OnlyNewlinesGo(payloads: seq<Bytes>)
    ensures Flatten(Emitted(payloads)) == WithoutNewlines(Flatten(payloads))
    ensures forall line :: line in Emitted(payloads) ==> line != [] && NEWLINE !in line
  {
    if payloads != [] {
      var lines := Split(payloads[0], NEWLINE);
      OnlyNewlinesGo(payloads[1..]);
      SplitFlat(payloads[0]);
      NonEmptyFlat(lines);
      SplitJoin(payloads[0], NEWLINE);
      FlattenConcat(NonEmpty(lines), Emitted(payloads[1..]));
      WithoutConcat(payloads[0], Flatten(payloads[1..]));
      hide Split, NonEmpty;
    }
  }

  lemma {:induction false} WithoutConcat(a: Bytes, b: Bytes)
    ensures WithoutNewlines(a + b) == WithoutNewlines(a) + WithoutNewlines(b)
  {
    if a == [] {
      assert a + b == b;
    } else {
      assert (a + b)[1..] == a[1..] + b;
      WithoutConcat(a[1..], b);
    }
  }

  /** Whatever stands between two newlines, or between one and an end of the payload, is emitted whole. */
  lemma WholeLines(a: Bytes, line: Bytes, b: Bytes)
    requires line != [] && NEWLINE !in line
    requires a == [] || a[|a| - 1] == NEWLINE
    requires b == [] || b[0] == NEWLINE
    ensures line in Emitted([a + line + b])
  {
    SplitPlain(line, NEWLINE);
    var rest := line + b;
    if b == [] {
      assert rest == line;
    } else {
      assert rest == line + [NEWLINE] + b[1..];
      SplitAt(line, NEWLINE, b[1..]);
    }
    assert line in Split(rest, NEWLINE);
    if a == [] {
      assert a + line + b == rest;
    } else {
      assert a + line + b == a[..|a| - 1] + [NEWLINE] + rest;
      SplitAt(a[..|a| - 1], NEWLINE, rest);
    }
    NonEmptyFlat(Split(a + line + b, NEWLINE));
    assert [a + line + b][1..] == [];
    hide Split, NonEmpty;
  }

  lemma EmitFirst(buffer: Bytes)
    requires HasFrame(buffer)
    ensures var n := 8 + PayloadLength(buffer);
            && Parse(buffer).1 == Parse(buffer[n..]).1
            && Emitted(Parse(buffer).0) == NonEmpty(Split(buffer[8..n], NEWLINE)) + Emitted(Parse(buffer[n..]).0)
  {
    hide PayloadLength, Split, NonEmpty;
    var n := 8 + PayloadLength(buffer);
    var payload, rest := buffer[8..n], Parse(buffer[n..]).0;
    assert ([payload] + rest)[1..] == rest;
  }

  /** The frames found in one buffer: emit their lines and keep what is left. */
  method TakeFrames(start: Bytes) returns (lines: seq<Bytes>, buffer: Bytes)
    ensures lines == Emitted(Parse(start).0) && buffer == Parse(start).1
  {
    lines, buffer := [], start;
    hide PayloadLength, Split, NonEmpty;
    while 8 <= |buffer|
      invariant Parse(buffer).1 == Parse(start).1
      invariant lines + Emitted(Parse(buffer).0) == Emitted(Parse(start).0)
      decreases |buffer|
    {
      var payloadLen := PayloadLength(buffer);
      if |buffer| < 8 + payloadLen {
        break;
      }
      EmitFirst(buffer);
      hide Parse, Emitted;
      var payload := buffer[8..8 + payloadLen];
      var kept := EmitLines(payload);
      Regroup(lines, kept, Emitted(Parse(buffer[8 + payloadLen..]).0));
      lines := lines + kept;
      buffer := buffer[8 + payloadLen..];
    }
  }

  method EmitLines(payload: Bytes) returns (lines: seq<Bytes>)
    ensures lines == NonEmpty(Split(payload, NEWLINE))
  {
    lines := [];
    var parts := Split(payload, NEWLINE);
    hide Split;
    for i := 0 to |parts|
      invariant lines + NonEmpty(parts[i..]) == NonEmpty(parts)
    {
      NextLine(parts, i);
      hide NonEmpty;
      if parts[i] != [] {
        Regroup(lines, [parts[i]], NonEmpty(parts[i + 1..]));
        lines := lines + [parts[i]];
      }
    }
  }

  lemma NextLine(parts: seq<Bytes>, i: nat)
    requires i < |parts|
    ensures NonEmpty(parts[i..]) == if parts[i] != [] then [parts[i]] + NonEmpty(parts[i + 1..])
            else NonEmpty(parts[i + 1..])
  {
    assert parts[i..][1..] == parts[i + 1..] && parts[i..][0] == parts[i];
  }

  /** `streamOutput`: whatever reads the stream arrives in, the lines are those of one parse of
      the whole stream, less than a frame is left over, and the second loop, after the end of
      the stream, finds nothing. */
  method StreamOutput(chunks: seq<Bytes>) returns (lines: seq<Bytes>, late: seq<Bytes>, buffer: Bytes)
    ensures lines == Emitted(Parse(Flatten(chunks)).0)
    ensures late == [] && buffer == Parse(Flatten(chunks)).1
  {
    lines, buffer := [], [];
    for i := 0 to |chunks|
      invariant (lines, buffer) == (Emitted(Parse(Flatten(chunks[..i])).0), Parse(Flatten(chunks[..i])).1)
    {
      var n := |chunks[i]|;
      ghost var before := Flatten(chunks[..i]);
      assert chunks[..i + 1] == chunks[..i] + [chunks[i]];
      FlattenSnoc(chunks[..i], chunks[i]);
      if n > 0 {
        ParseThenMore(before, chunks[i]);
        EmittedConcat(Parse(before).0, Parse(Parse(before).1 + chunks[i]).0);
        buffer := buffer + chunks[i];
        var more;
        more, buffer := TakeFrames(buffer);
        lines := lines + more;
      } else {
        assert before + chunks[i] == before;
      }
    }
    assert chunks[..|chunks|] == chunks;
    late, buffer := TakeFrames(buffer);
  }
}
