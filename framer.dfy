/** Cutting the TAK Server byte stream into CoT events: the buffer logic of
    `TAKBridge._stream_recv`. The stream has no length prefix; an event is
    everything up to and including the first `</event>`, trimmed to start at
    its first `<event`. */
module Framer {
  import opened Base

  /** `MAX_BUF = 1 << 20`: a buffer longer than this is discarded. */
  const MAX_BUF: nat := 0x10_0000

  /** The bytes of `</event>`. */
  const END_TAG: Bytes := [0x3C, 0x2F, 0x65, 0x76, 0x65, 0x6E, 0x74, 0x3E]

  /** The bytes of `<event`. */
  const START_TAG: Bytes := [0x3C, 0x65, 0x76, 0x65, 0x6E, 0x74]

  /** `END_TAG in buf`. */
  predicate HasEndTag(b: Bytes) {
    Find(b, END_TAG).Some?
  }

  /** A piece ends with `</event>` and holds no earlier `</event>`. */
  predicate IsFrame(p: Bytes) {
    |p| >= |END_TAG| && Find(p, END_TAG) == Some(|p| - |END_TAG|)
  }

  /** The pieces cut off a buffer and what is left of it. */
  datatype Cut = Cut(pieces: seq<Bytes>, rest: Bytes)

  /** Cutting `buf[:end_idx]` at the first `</event>` gives a piece that ends there. */
  lemma FirstFrame(buf: Bytes, i: nat)
    requires Find(buf, END_TAG) == Some(i)
    ensures IsFrame(buf[..i + |END_TAG|])
  {
    var n := i + |END_TAG|;
    var p := buf[..n];
    OccursInPrefix(buf, n, END_TAG, i);
    forall j: nat | j < i
      ensures !OccursAt(p, END_TAG, j)
    {
      OccursInPrefix(buf, n, END_TAG, j);
    }
    FindIs(p, END_TAG, i);
  }

  /** The inner `while END_TAG in buf` loop: cut the buffer at its first
      `</event>` until none is left. */
  function Frames(buf: Bytes): (c: Cut)
    decreases |buf|
  {
    var f := Find(buf, END_TAG);
    if f.None? then Cut([], buf)
    else
      var n := f.value + |END_TAG|;
      var c := Frames(buf[n..]);
      Cut([buf[..n]] + c.pieces, c.rest)
  }

  /** Framing loses nothing: the pieces followed by the rest are the buffer. */
  lemma {:induction false} FramesLossless(buf: Bytes)
    ensures Concat(Frames(buf).pieces) + Frames(buf).rest == buf
    decreases |buf|
  {
    var f := Find(buf, END_TAG);
    if f.Some? {
      var n := f.value + |END_TAG|;
      var p, q := buf[..n], buf[n..];
      var c := Frames(q);
      assert Frames(buf) == Cut([p] + c.pieces, c.rest);
      FramesLossless(q);
      ConcatCons(p, c.pieces);
      assert buf == p + q;
      Regroup(p, Concat(c.pieces), c.rest);
    } else {
      assert Frames(buf) == Cut([], buf);
    }
  }

  /** After the inner loop the buffer holds no `</event>`. */
  lemma {:induction false} FramesRestHasNoEndTag(buf: Bytes)
    ensures !HasEndTag(Frames(buf).rest)
    decreases |buf|
  {
    var f := Find(buf, END_TAG);
    if f.Some? {
      FramesRestHasNoEndTag(buf[f.value + |END_TAG|..]);
    }
  }

  /** Every piece cut ends with the first `</event>` of the buffer it was cut from. */
  lemma {:induction false} FramesPiecesAreFrames(buf: Bytes)
    ensures forall k :: 0 <= k < |Frames(buf).pieces| ==> IsFrame(Frames(buf).pieces[k])
    decreases |buf|
  {
    var f := Find(buf, END_TAG);
    if f.Some? {
      FirstFrame(buf, f.value);
      FramesPiecesAreFrames(buf[f.value + |END_TAG|..]);
    }
  }

  /** A buffer that starts with a whole frame is cut there first. */
  lemma FramesAfterFrame(p: Bytes, z: Bytes)
    requires IsFrame(p)
    ensures Frames(p + z) == Cut([p] + Frames(z).pieces, Frames(z).rest)
  {
    var i := |p| - |END_TAG|;
    var s := p + z;
    assert s[..|p|] == p;
    assert s[|p|..] == z;
    OccursInPrefix(s, |p|, END_TAG, i);
    forall j: nat | j < i
      ensures !OccursAt(s, END_TAG, j)
    {
      OccursInPrefix(s, |p|, END_TAG, j);
    }
    FindIs(s, END_TAG, i);
  }

  /** Cutting `x + z` starts with the first frame of `x`, when `x` has one. */
  lemma FramesFirstOfJoin(x: Bytes, z: Bytes, i: nat)
    requires Find(x, END_TAG) == Some(i)
    ensures Frames(x + z) == Cut([x[..i + |END_TAG|]] + Frames(x[i + |END_TAG|..] + z).pieces,
                                 Frames(x[i + |END_TAG|..] + z).rest)
  {
    var n := i + |END_TAG|;
    FirstFrame(x, i);
    assert x + z == x[..n] + (x[n..] + z) by {
      assert x == x[..n] + x[n..];
    }
    FramesAfterFrame(x[..n], x[n..] + z);
  }

  /** Splitting the input at any point and cutting the two parts one after
      the other (the second together with what the first left over) gives
      the same pieces and the same rest as cutting the whole: an event split
      across two reads is framed as if it had come in one. */
  lemma {:induction false} FramesSplit(x: Bytes, z: Bytes)
    ensures Frames(x + z).pieces == Frames(x).pieces + Frames(Frames(x).rest + z).pieces
    ensures Frames(x + z).rest == Frames(Frames(x).rest + z).rest
    decreases |x|
  {
    var f := Find(x, END_TAG);
    if f.Some? {
      var n := f.value + |END_TAG|;
      var p, x' := x[..n], x[n..];
      var a := Frames(x');
      var b := Frames(a.rest + z);
      assert Frames(x) == Cut([p] + a.pieces, a.rest);
      FramesFirstOfJoin(x, z, f.value);
      FramesSplit(x', z);
      Regroup([p], a.pieces, b.pieces);
    } else {
      assert Frames(x) == Cut([], x);
      assert [] + Frames(x + z).pieces == Frames(x + z).pieces;
    }
  }

  /** `raw_event[raw_event.find(b"<event"):]`, or `None` when the piece holds
      no `<event` and is dropped: the suffix that starts at the first `<event`. */
  function Trim(piece: Bytes): (r: Option<Bytes>)
    ensures r.None? <==> forall j: nat :: !OccursAt(piece, START_TAG, j)
    ensures r.Some? ==> |r.value| <= |piece| && r.value == piece[|piece| - |r.value|..]
    ensures r.Some? ==> OccursAt(piece, START_TAG, |piece| - |r.value|)
    ensures r.Some? ==> forall j: nat :: j < |piece| - |r.value| ==> !OccursAt(piece, START_TAG, j)
  {
    match Find(piece, START_TAG)
    case None => None
    case Some(s) => Some(piece[s..])
  }

  /** A trimmed frame is one CoT event: it starts with `<event`, ends with
      `</event>` and holds no other `</event>`. */
  lemma TrimmedFrame(p: Bytes)
    requires IsFrame(p) && Trim(p).Some?
    ensures START_TAG <= Trim(p).value && IsFrame(Trim(p).value)
  {
    var e := Trim(p).value;
    var s := |p| - |e|;
    var i := |p| - |END_TAG|;
    assert p[i..i + |END_TAG|] == END_TAG;
    assert p[s..s + |START_TAG|] == START_TAG;
    forall k | i < k < |p|
      ensures p[k] != 0x3C
    {
      assert p[k] == p[i..i + |END_TAG|][k - i];
    }
    assert p[s] == p[s..s + |START_TAG|][0] == 0x3C;
    assert e[..|START_TAG|] == p[s..s + |START_TAG|];
    OccursInSuffix(p, s, END_TAG, i - s);
    forall j: nat | j < i - s
      ensures !OccursAt(e, END_TAG, j)
    {
      OccursInSuffix(p, s, END_TAG, j);
    }
    FindIs(e, END_TAG, i - s);
  }

  /** What one cut piece hands to the parser: its trimmed event, or nothing. */
  function Released(piece: Bytes): seq<Bytes> {
    match Trim(piece)
    case None => []
    case Some(e) => [e]
  }

  /** The events handed to the parser for a list of cut pieces, in order. */
  function Emitted(pieces: seq<Bytes>): seq<Bytes> {
    if pieces == [] then []
    else Released(pieces[0]) + Emitted(pieces[1..])
  }

  /** One turn of the inner loop: cutting at the first `</event>` releases
      that piece's event ahead of everything the rest of the buffer releases. */
  lemma EmittedCut(buf: Bytes)
    requires HasEndTag(buf)
    ensures var n := Find(buf, END_TAG).value + |END_TAG|;
      Emitted(Frames(buf).pieces) == Released(buf[..n]) + Emitted(Frames(buf[n..]).pieces) &&
      Frames(buf).rest == Frames(buf[n..]).rest
  {
    var n := Find(buf, END_TAG).value + |END_TAG|;
    var c := Frames(buf[n..]);
    assert Frames(buf) == Cut([buf[..n]] + c.pieces, c.rest);
    assert ([buf[..n]] + c.pieces)[1..] == c.pieces;
  }

  /** A buffer without `</event>` is not cut at all. */
  lemma FramesOfUncut(buf: Bytes)
    requires !HasEndTag(buf)
    ensures Frames(buf) == Cut([], buf) && Emitted(Frames(buf).pieces) == []
  {
  }

  lemma {:induction false} EmittedAppend(a: seq<Bytes>, b: seq<Bytes>)
    ensures Emitted(a + b) == Emitted(a) + Emitted(b)
  {
    if a == [] {
      assert a + b == b;
    } else {
      assert (a + b)[1..] == a[1..] + b;
      EmittedAppend(a[1..], b);
    }
  }

  /** Every event emitted from frames starts with `<event` and is a frame. */
  lemma {:induction false} EmittedAreEvents(pieces: seq<Bytes>)
    requires forall k :: 0 <= k < |pieces| ==> IsFrame(pieces[k])
    ensures forall k :: 0 <= k < |Emitted(pieces)| ==>
      START_TAG <= Emitted(pieces)[k] && IsFrame(Emitted(pieces)[k])
  {
    if pieces != [] {
      EmittedAreEvents(pieces[1..]);
      if Trim(pieces[0]).Some? {
        TrimmedFrame(pieces[0]);
      }
    }
  }

  /** The buffer after one received chunk, and the events it released. */
  datatype StepOut = StepOut(buf: Bytes, events: seq<Bytes>)

  /** One received non-empty chunk: `buf += chunk`; a buffer over `MAX_BUF`
      is discarded whole, otherwise the complete events are cut off. */
  function Step(buf: Bytes, chunk: Bytes): StepOut {
    var b := buf + chunk;
    if |b| > MAX_BUF then StepOut([], [])
    else StepOut(Frames(b).rest, Emitted(Frames(b).pieces))
  }

  /** The buffer a step leaves behind never exceeds `MAX_BUF`, holds no
      `</event>`, and is the tail of what was received; an oversized buffer
      is emptied and releases nothing, even complete events it held. */
  lemma StepBuffer(buf: Bytes, chunk: Bytes)
    ensures |Step(buf, chunk).buf| <= MAX_BUF && !HasEndTag(Step(buf, chunk).buf)
    ensures |buf + chunk| > MAX_BUF ==> Step(buf, chunk) == StepOut([], [])
    ensures |buf + chunk| <= MAX_BUF ==>
      var r := Step(buf, chunk).buf;
      |r| <= |buf + chunk| && r == (buf + chunk)[|buf + chunk| - |r|..]
  {
    var b := buf + chunk;
    if |b| <= MAX_BUF {
      var c := Frames(b);
      FramesLossless(b);
      FramesRestHasNoEndTag(b);
      assert b == Concat(c.pieces) + c.rest;
    }
  }

  /** Every event a step releases is one whole CoT event. */
  lemma StepEventsAreEvents(buf: Bytes, chunk: Bytes)
    ensures forall k :: 0 <= k < |Step(buf, chunk).events| ==>
      START_TAG <= Step(buf, chunk).events[k] && IsFrame(Step(buf, chunk).events[k])
  {
    if |buf + chunk| <= MAX_BUF {
      FramesPiecesAreFrames(buf + chunk);
      EmittedAreEvents(Frames(buf + chunk).pieces);
    }
  }

  /** Reading one chunk in two parts releases the same events and leaves the
      same buffer as reading it at once, as long as the buffer stays within
      `MAX_BUF`. */
  lemma StepSplit(buf: Bytes, c1: Bytes, c2: Bytes)
    requires |buf + c1 + c2| <= MAX_BUF
    ensures Step(buf, c1 + c2).events == Step(buf, c1).events + Step(Step(buf, c1).buf, c2).events
    ensures Step(buf, c1 + c2).buf == Step(Step(buf, c1).buf, c2).buf
  {
    var x := buf + c1;
    var y := Frames(x).rest;
    assert |y| <= |x| by {
      FramesLossless(x);
      assert |Concat(Frames(x).pieces) + y| == |x|;
    }
    assert buf + (c1 + c2) == x + c2;
    assert Step(buf, c1) == StepOut(y, Emitted(Frames(x).pieces));
    assert Step(y, c2) == StepOut(Frames(y + c2).rest, Emitted(Frames(y + c2).pieces));
    assert Step(buf, c1 + c2) == StepOut(Frames(x + c2).rest, Emitted(Frames(x + c2).pieces));
    FramesSplit(x, c2);
    EmittedAppend(Frames(x).pieces, Frames(y + c2).pieces);
  }

  /** The result of one `sock.recv(4096)`: data (empty when the server
      closed the connection) or the exception it raised. */
  datatype Recv = Chunk(data: Bytes) | RecvError(msg: string)

  /** How `_stream_recv` ends: the server closed the connection (it
      returns), `recv` raised (the exception propagates), or the bridge was
      stopped (`_running` became false; the reads ran out). */
  datatype StreamEnd = PeerClosed | Raised(msg: string) | Stopped

  datatype StreamRun = StreamRun(events: seq<Bytes>, end: StreamEnd)

  /** The events `_stream_recv` hands to the parser for a sequence of reads,
      starting from buffer `buf`, and how it ends. */
  function Stream(buf: Bytes, recvs: seq<Recv>): (r: StreamRun)
    decreases |recvs|
  {
    if recvs == [] then StreamRun([], Stopped)
    else match recvs[0]
      case RecvError(m) => StreamRun([], Raised(m))
      case Chunk(d) =>
        if d == [] then StreamRun([], PeerClosed)
        else
          var s := Step(buf, d);
          var r := Stream(s.buf, recvs[1..]);
          StreamRun(s.events + r.events, r.end)
  }

  /** How a run of reads ends: at the first read that raises or returns
      nothing, or, when there is none, because the reads ran out. */
  function EndOf(recvs: seq<Recv>): StreamEnd
    decreases |recvs|
  {
    if recvs == [] then Stopped
    else match recvs[0]
      case RecvError(m) => Raised(m)
      case Chunk(d) => if d == [] then PeerClosed else EndOf(recvs[1..])
  }

  /** How the stream ends does not depend on what the reads carry nor on
      the buffer. */
  lemma {:induction false} StreamEnds(buf: Bytes, recvs: seq<Recv>)
    ensures Stream(buf, recvs).end == EndOf(recvs)
    decreases |recvs|
  {
    if recvs != [] && recvs[0].Chunk? && recvs[0].data != [] {
      StreamEnds(Step(buf, recvs[0].data).buf, recvs[1..]);
    }
  }

  /** `Stream` on the reads from index `j` on, unfolded by one read. */
  lemma StreamAt(buf: Bytes, recvs: seq<Recv>, j: nat)
    requires j < |recvs|
    ensures recvs[j].RecvError? ==> Stream(buf, recvs[j..]) == StreamRun([], Raised(recvs[j].msg))
    ensures recvs[j] == Chunk([]) ==> Stream(buf, recvs[j..]) == StreamRun([], PeerClosed)
    ensures recvs[j].Chunk? && recvs[j].data != [] ==>
      var s := Step(buf, recvs[j].data);
      Stream(buf, recvs[j..]) ==
        StreamRun(s.events + Stream(s.buf, recvs[j + 1..]).events, Stream(s.buf, recvs[j + 1..]).end)
  {
    assert recvs[j..][0] == recvs[j] && recvs[j..][1..] == recvs[j + 1..];
  }

  /** Everything the stream hands to the parser is one whole CoT event. */
  lemma {:induction false} StreamEventsAreEvents(buf: Bytes, recvs: seq<Recv>)
    ensures forall k :: 0 <= k < |Stream(buf, recvs).events| ==>
      START_TAG <= Stream(buf, recvs).events[k] && IsFrame(Stream(buf, recvs).events[k])
    decreases |recvs|
  {
    if recvs != [] && recvs[0].Chunk? && recvs[0].data != [] {
      var s := Step(buf, recvs[0].data);
      StepEventsAreEvents(buf, recvs[0].data);
      StreamEventsAreEvents(s.buf, recvs[1..]);
    }
  }
}
