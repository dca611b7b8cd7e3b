/** `TAKBridge`: the connection state, counters and loops of the bridge to a
    TAK Server. Sockets, threads and the clock are replaced by their
    observable results: `recv` by a sequence of `Recv` results, `sendall` by
    a count of calls that succeed, and clock readings by integers. */
module TakBridge {
  import opened Base
  import opened Cot
  import opened Framer
  import opened TakCodec
  import opened Backoff

  /** Seconds between two self-SA heartbeats. */
  const SA_INTERVAL: int := 15

  /** Seconds a self-SA heartbeat stays valid. */
  const SA_STALE: int := 30

  /** Seconds a pushed track stays valid beyond the push interval. */
  const PUSH_STALE_MARGIN: int := 15

  /** The XML parser: the element for well-formed bytes, `None` where
      `etree.fromstring` raises `XMLSyntaxError`. */
  type Parser = Bytes -> Option<Element>

  /** The upsert one parsed event leads to (none, or one). */
  function UpsertOf(parse: Parser, callsign: string, ev: Bytes): (r: seq<TrackWrite>)
    ensures |r| <= 1
    ensures |r| == 1 <==> parse(ev).Some? && HandleEvent(callsign, parse(ev).value).Some?
  {
    match parse(ev)
    case None => []
    case Some(root) =>
      match HandleEvent(callsign, root)
      case None => []
      case Some(w) => [w]
  }

  /** How many of the events handed to the parser it accepts: the amount
      `_events_received` grows by. */
  function Received(parse: Parser, events: seq<Bytes>): nat
    decreases |events|
  {
    if events == [] then 0
    else Received(parse, events[..|events| - 1]) + (if parse(events[|events| - 1]).Some? then 1 else 0)
  }

  /** The upserts made for the events handed to the parser, in order. */
  function Inbound(parse: Parser, callsign: string, events: seq<Bytes>): seq<TrackWrite>
    decreases |events|
  {
    if events == [] then []
    else Inbound(parse, callsign, events[..|events| - 1]) + UpsertOf(parse, callsign, events[|events| - 1])
  }

  /** Handing one more event to the parser. */
  lemma InboundSnoc(parse: Parser, callsign: string, events: seq<Bytes>, ev: Bytes)
    ensures Received(parse, events + [ev]) == Received(parse, events) + (if parse(ev).Some? then 1 else 0)
    ensures Inbound(parse, callsign, events + [ev]) == Inbound(parse, callsign, events) + UpsertOf(parse, callsign, ev)
  {
    assert (events + [ev])[..|events|] == events;
  }

  /** Parsing two runs of events counts and upserts what each run does. */
  lemma {:induction false} InboundAppend(parse: Parser, callsign: string, a: seq<Bytes>, b: seq<Bytes>)
    ensures Received(parse, a + b) == Received(parse, a) + Received(parse, b)
    ensures Inbound(parse, callsign, a + b) == Inbound(parse, callsign, a) + Inbound(parse, callsign, b)
    decreases |b|
  {
    if b == [] {
      assert a + b == a;
    } else {
      var m := |b| - 1;
      assert a + b == (a + b[..m]) + [b[m]];
      assert b == b[..m] + [b[m]];
      InboundAppend(parse, callsign, a, b[..m]);
      InboundSnoc(parse, callsign, a + b[..m], b[m]);
      InboundSnoc(parse, callsign, b[..m], b[m]);
      Regroup(Inbound(parse, callsign, a), Inbound(parse, callsign, b[..m]), UpsertOf(parse, callsign, b[m]));
    }
  }

  /** `_events_received` counts one per event that parses, whether or not an
      upsert follows: never more than the events framed, and all of them
      exactly when all parse. */
  lemma {:induction false} ReceivedCounts(parse: Parser, events: seq<Bytes>)
    ensures Received(parse, events) <= |events|
    ensures Received(parse, events) == |events| <==>
      forall k :: 0 <= k < |events| ==> parse(events[k]).Some?
    ensures Received(parse, events) == 0 <==>
      forall k :: 0 <= k < |events| ==> parse(events[k]).None?
    decreases |events|
  {
    if events != [] {
      var m := |events| - 1;
      var init := events[..m];
      ReceivedCounts(parse, init);
      assert forall k :: 0 <= k < m ==> init[k] == events[k];
    }
  }

  /** Every upsert made for inbound events is from a parsed event, carries
      the server's source tag, and is never for the bridge's own callsign. */
  lemma {:induction false} InboundSound(parse: Parser, callsign: string, events: seq<Bytes>)
    ensures |Inbound(parse, callsign, events)| <= Received(parse, events)
    ensures forall k :: 0 <= k < |Inbound(parse, callsign, events)| ==>
      var w := Inbound(parse, callsign, events)[k];
      w.uid != callsign && w.meta.Some? && "source" in w.meta.value &&
      w.meta.value["source"] == Text(SOURCE_TAG)
    decreases |events|
  {
    if events != [] {
      var m := |events| - 1;
      InboundSound(parse, callsign, events[..m]);
      var u := UpsertOf(parse, callsign, events[m]);
      var i := Inbound(parse, callsign, events[..m]);
      assert Inbound(parse, callsign, events) == i + u;
      if |u| == 1 {
        var root := parse(events[m]).value;
        assert u[0] == HandleEvent(callsign, root).value;
      }
    }
  }

  /** The status dictionary. `lastConnectedAt` is the wall-clock second of
      the last connect. */
  datatype Status = Status(
    connected: bool, host: string, port: int, tls: bool, callsign: string,
    lastConnectedAt: Option<int>, lastError: Option<string>,
    reconnectCount: nat, eventsReceived: nat, eventsSent: nat)

  /** The outcome of one connection attempt of `_recv_loop`: `_connect`
      raised, or it returned a socket at wall-clock second `wall`, after
      which the self-SA either went out or raised, and the reads of
      `_stream_recv` followed. */
  datatype Attempt =
    | Refused(error: string)
    | Opened(wall: int, saError: Option<string>, recvs: seq<Recv>)

  /** The attempt ended because the bridge was stopped while it was reading. */
  predicate Halts(a: Attempt) {
    a.Opened? && a.saError.None? && EndOf(a.recvs) == Stopped
  }

  /** The attempt ended in an exception caught by `_recv_loop`. */
  predicate Fails(a: Attempt) {
    a.Refused? || a.saError.Some? || EndOf(a.recvs).Raised?
  }

  /** For each attempt, whether the connection was established. */
  function Connects(attempts: seq<Attempt>): (cs: seq<bool>)
    ensures |cs| == |attempts|
    ensures forall k :: 0 <= k < |attempts| ==> cs[k] == attempts[k].Opened?
  {
    seq(|attempts|, k requires 0 <= k < |attempts| => attempts[k].Opened?)
  }

  /** The attempts `_recv_loop` makes: all of them, up to and including the
      first one during which the bridge was stopped. */
  function Ran(attempts: seq<Attempt>): seq<Attempt>
    decreases |attempts|
  {
    if attempts == [] then []
    else if Halts(attempts[0]) then [attempts[0]]
    else [attempts[0]] + Ran(attempts[1..])
  }

  /** None of the attempts halts. */
  predicate NoneHalt(s: seq<Attempt>)
    decreases |s|
  {
    s == [] || (NoneHalt(s[..|s| - 1]) && !Halts(s[|s| - 1]))
  }

  lemma {:induction false} NoneHaltAt(s: seq<Attempt>, i: nat)
    requires NoneHalt(s) && i < |s|
    ensures !Halts(s[i])
    decreases |s|
  {
    if i < |s| - 1 {
      NoneHaltAt(s[..|s| - 1], i);
    }
  }

  lemma NoneHaltSnoc(attempts: seq<Attempt>, k: nat)
    requires k < |attempts| && NoneHalt(attempts[..k]) && !Halts(attempts[k])
    ensures NoneHalt(attempts[..k + 1])
  {
    assert attempts[..k + 1][..k] == attempts[..k];
  }

  /** `Ran` stops at the first attempt that halts, or takes them all. */
  lemma {:induction false} RanIs(attempts: seq<Attempt>, k: nat)
    requires k < |attempts|
    requires forall i :: 0 <= i < k ==> !Halts(attempts[i])
    requires Halts(attempts[k]) || k == |attempts| - 1
    ensures Ran(attempts) == attempts[..k + 1]
    decreases k
  {
    if k > 0 {
      var tail := attempts[1..];
      forall i | 0 <= i < k - 1
        ensures !Halts(tail[i])
      {
        assert tail[i] == attempts[i + 1];
      }
      RanIs(tail, k - 1);
      assert attempts[..k + 1] == [attempts[0]] + tail[..k];
    } else if !Halts(attempts[0]) {
      assert attempts[1..] == [];
    }
  }

  /** The delays over one more attempt. */
  lemma DelaysStep(attempts: seq<Attempt>, k: nat)
    requires k < |attempts|
    ensures Delays(Connects(attempts[..k + 1])) ==
      Delays(Connects(attempts[..k])) +
        [if attempts[k].Opened? || k == 0 then 1 else Next(Delays(Connects(attempts[..k]))[k - 1])]
  {
    assert attempts[..k + 1][..k] == attempts[..k];
    assert Connects(attempts[..k + 1]) == Connects(attempts[..k]) + [attempts[k].Opened?];
    DelaysSnoc(Connects(attempts[..k]), attempts[k].Opened?);
  }

  /** The delays `_recv_loop` sleeps between the attempts it makes. */
  function Sleeps(ran: seq<Attempt>): seq<nat> {
    if ran == [] then [] else Delays(Connects(ran))[..|ran| - 1]
  }

  /** The backoff after one more attempt: reset by a connect, and the
      delays so far are what the loop has slept once that attempt is its
      last. */
  lemma BackoffStep(attempts: seq<Attempt>, k: nat, sleeps: seq<nat>, backoff: nat)
    requires k < |attempts| && sleeps == Delays(Connects(attempts[..k]))
    requires backoff == if attempts[k].Opened? || k == 0 then 1 else Next(sleeps[k - 1])
    ensures sleeps + [backoff] == Delays(Connects(attempts[..k + 1]))
    ensures Sleeps(attempts[..k + 1]) == sleeps
  {
    DelaysStep(attempts, k);
    assert (sleeps + [backoff])[..k] == sleeps;
  }

  /** Between consecutive attempts the loop sleeps between 1 and 60 seconds:
      1 right after a connection that was established, otherwise twice the
      previous delay (at most 60). */
  lemma SleepsFollowBackoff(ran: seq<Attempt>)
    ensures |Sleeps(ran)| == if ran == [] then 0 else |ran| - 1
    ensures forall k :: 0 <= k < |Sleeps(ran)| ==> 1 <= Sleeps(ran)[k] <= MAX_BACKOFF
    ensures forall k :: 0 <= k < |Sleeps(ran)| && ran[k].Opened? ==> Sleeps(ran)[k] == 1
    ensures forall k :: 0 < k < |Sleeps(ran)| && ran[k].Refused? ==>
      Sleeps(ran)[k] == Next(Sleeps(ran)[k - 1]) && Sleeps(ran)[k - 1] <= Sleeps(ran)[k]
  {
    if ran != [] {
      var cs := Connects(ran);
      DelaysBounded(cs);
      forall k | 0 <= k < |ran| - 1
        ensures Sleeps(ran)[k] == Delays(cs)[k] && cs[k] == ran[k].Opened?
        ensures Delays(cs)[k] == if cs[k] || k == 0 then 1 else Next(Delays(cs)[k - 1])
      {
        DelayAt(cs, k);
      }
      forall k | 0 <= k < |Sleeps(ran)| && ran[k].Opened?
        ensures Sleeps(ran)[k] == 1
      {
        assert cs[k];
        assert Sleeps(ran)[k] == Delays(cs)[k];
        DelayAt(cs, k);
        assert Delays(cs)[k] == 1;
      }
    }
  }

  /** The state `_recv_loop` leaves behind it: what `status()` reports of
      it, and what went out and came in. */
  datatype Tally = Tally(
    lastConnectedAt: Option<int>, lastError: Option<string>,
    reconnectCount: nat, eventsReceived: nat,
    outbox: seq<Element>, upserts: seq<TrackWrite>)

  /** One iteration of `_send_loop`, after its `sleep(1)`: whether it saw a
      connected socket, the monotonic and wall-clock seconds, how many
      `sendall` calls succeed before one raises, and what `list_fn` returns
      (`None` when it raises). */
  datatype TickIn = TickIn(linked: bool, mono: int, wall: int, accepts: nat, tracks: Option<seq<TrackRecord>>)

  /** The timers after one iteration, what it sent, what it added to
      `_events_sent`, and whether the self-SA and the push succeeded. */
  datatype TickOut = TickOut(
    lastSa: int, lastPush: int, sent: seq<Element>, counted: nat, saSent: bool, pushed: bool)

  /** What a run of `_send_loop` iterations sends and counts, and the
      monotonic seconds of every successful self-SA and push. */
  datatype SendTrace = SendTrace(sent: seq<Element>, counted: nat, saTimes: seq<int>, pushTimes: seq<int>)

  /** How many of the attempts ended in a caught exception. */
  function Failures(attempts: seq<Attempt>): (n: nat)
    ensures n <= |attempts|
    decreases |attempts|
  {
    if attempts == [] then 0
    else Failures(attempts[..|attempts| - 1]) + (if Fails(attempts[|attempts| - 1]) then 1 else 0)
  }

  /** The times are at least `gap` apart, the first at least `gap` after `from`. */
  predicate Spaced(times: seq<int>, from: int, gap: int)
    decreases |times|
  {
    times == [] || (times[0] - from >= gap && Spaced(times[1..], times[0], gap))
  }

  /** Where a push stops: the events sent are the plan's first `accepts`,
      or all of its events when there are fewer. */
  lemma PushCut(all: seq<Element>, done: seq<Element>, tail: seq<Element>, accepts: nat)
    requires all == done + tail && |done| <= accepts
    requires tail == [] || |done| == accepts
    ensures all[..Min(accepts, |all|)] == done
    ensures tail != [] ==> |all| > accepts
  {
    assert all[..|done|] == done;
  }

  class Bridge {
    const host: string
    const port: int
    const tls: bool
    const certPath: string
    const keyPath: string
    const caPath: string
    const callsign: string
    const pushInterval: int
    /** Whether an `upsert_fn` callback was given. */
    const hasUpsertFn: bool
    /** Whether a `list_fn` callback was given. */
    const hasListFn: bool

    var running: bool
    var connected: bool
    /** `_sock is not None`. */
    var hasSock: bool
    var lastConnectedAt: Option<int>
    var lastError: Option<string>
    var reconnectCount: nat
    var eventsReceived: nat
    var eventsSent: nat
    /** Every event handed to a successful `sendall`, in order. */
    var outbox: seq<Element>
    /** Every call of the `upsert_fn` callback, in order. */
    var upserts: seq<TrackWrite>

    /** The bridge is connected only over a socket it holds, and only after
        it has connected once. */
    predicate Valid()
      reads this
    {
      (connected ==> hasSock) && (connected ==> lastConnectedAt.Some?)
    }

    constructor(host: string, port: int, tls: bool, certPath: string, keyPath: string,
                caPath: string, callsign: string, pushInterval: int,
                hasUpsertFn: bool, hasListFn: bool)
      ensures this.host == host && this.port == port && this.tls == tls
      ensures this.certPath == certPath && this.keyPath == keyPath && this.caPath == caPath
      ensures this.callsign == callsign && this.pushInterval == pushInterval
      ensures this.hasUpsertFn == hasUpsertFn && this.hasListFn == hasListFn
      ensures !running && !connected && !hasSock
      ensures lastConnectedAt == None && lastError == None
      ensures reconnectCount == 0 && eventsReceived == 0 && eventsSent == 0
      ensures outbox == [] && upserts == []
      ensures Valid()
    {
      this.host := host;
      this.port := port;
      this.tls := tls;
      this.certPath := certPath;
      this.keyPath := keyPath;
      this.caPath := caPath;
      this.callsign := callsign;
      this.pushInterval := pushInterval;
      this.hasUpsertFn := hasUpsertFn;
      this.hasListFn := hasListFn;
      running := false;
      connected := false;
      hasSock := false;
      lastConnectedAt := None;
      lastError := None;
      reconnectCount := 0;
      eventsReceived := 0;
      eventsSent := 0;
      outbox := [];
      upserts := [];
    }

    /** `start`: sets `_running`; a second call changes nothing. The two
        loops it spawns are `RecvLoop` and `SendLoop`. */
    method Start()
      modifies this`running
      ensures running
    {
      if running {
        return;
      }
      running := true;
    }

    /** `_close_socket`: not connected and no socket, whatever happened
        before; errors of `shutdown` and `close` are swallowed. */
    method CloseSocket()
      modifies this`connected, this`hasSock
      ensures !connected && !hasSock
    {
      connected := false;
      if hasSock {
        hasSock := false;
      }
    }

    /** `stop`: clears `_running` and closes the socket. */
    method Stop()
      modifies this`running, this`connected, this`hasSock
      ensures !running && !connected && !hasSock
      ensures Valid()
    {
      running := false;
      CloseSocket();
    }

    /** `status()`: a snapshot of the state; a connected bridge always
        reports when it connected. */
    function GetStatus(): (s: Status)
      requires Valid()
      reads this
      ensures s.connected ==> s.lastConnectedAt.Some?
      ensures s.connected == connected && s.reconnectCount == reconnectCount
      ensures s.eventsReceived == eventsReceived && s.eventsSent == eventsSent
    {
      Status(connected, host, port, tls, callsign, lastConnectedAt, lastError,
             reconnectCount, eventsReceived, eventsSent)
    }

    /** The `try` block around one trimmed event: parse it, hand it to
        `_handle_event`, and count it if it parsed. */
    method Consume(parse: Parser, ev: Bytes)
      modifies this`eventsReceived, this`upserts
      ensures eventsReceived == old(eventsReceived) + (if parse(ev).Some? then 1 else 0)
      ensures upserts == old(upserts) + (if hasUpsertFn then UpsertOf(parse, callsign, ev) else [])
    {
      match parse(ev)
      case None =>
      case Some(root) =>
        var w := HandleEvent(callsign, root);
        if hasUpsertFn && w.Some? {
          upserts := upserts + [w.value];
        }
        eventsReceived := eventsReceived + 1;
    }

    /** The upserts the callback sees for a run of events. */
    function Delivered(parse: Parser, events: seq<Bytes>): seq<TrackWrite> {
      if hasUpsertFn then Inbound(parse, callsign, events) else []
    }

    /** The events handed to the parser, and their upserts, when the
        callback is given. */
    lemma DeliveredAppend(parse: Parser, a: seq<Bytes>, b: seq<Bytes>)
      ensures Received(parse, a + b) == Received(parse, a) + Received(parse, b)
      ensures Delivered(parse, a + b) == Delivered(parse, a) + Delivered(parse, b)
    {
      InboundAppend(parse, callsign, a, b);
    }

    /** The inner `while END_TAG in buf` loop of `_stream_recv`: cut the
        buffer at its first `</event>` until none is left, handing each
        trimmed event to the parser. Leaves the framing's remainder. */
    method CutEvents(parse: Parser, whole: Bytes) returns (rest: Bytes)
      modifies this`eventsReceived, this`upserts
      ensures rest == Frames(whole).rest
      ensures eventsReceived == old(eventsReceived) + Received(parse, Emitted(Frames(whole).pieces))
      ensures upserts == old(upserts) + Delivered(parse, Emitted(Frames(whole).pieces))
    {
      var buf := whole;
      ghost var cut: seq<Bytes> := [];
      while HasEndTag(buf)
        invariant Emitted(Frames(whole).pieces) == cut + Emitted(Frames(buf).pieces)
        invariant Frames(buf).rest == Frames(whole).rest
        invariant eventsReceived == old(eventsReceived) + Received(parse, cut)
        invariant upserts == old(upserts) + Delivered(parse, cut)
        decreases |buf|
      {
        EmittedCut(buf);
        var n := Find(buf, END_TAG).value + |END_TAG|;
        var raw := buf[..n];
        buf := buf[n..];
        var s := Find(raw, START_TAG);
        if s.Some? {
          var ev := raw[s.value..];
          Consume(parse, ev);
          InboundSnoc(parse, callsign, cut, ev);
          Regroup(old(upserts), Delivered(parse, cut), if hasUpsertFn then UpsertOf(parse, callsign, ev) else []);
          assert Released(raw) == [ev];
        } else {
          assert Released(raw) == [];
          assert cut + [] == cut;
        }
        Regroup(cut, Released(raw), Emitted(Frames(buf).pieces));
        cut := cut + Released(raw);
      }
      FramesOfUncut(buf);
      assert cut + [] == cut;
      rest := buf;
    }

    /** One non-empty chunk: `buf += chunk`, then either discard an
        oversized buffer or cut the complete events off it. */
    method Absorb(parse: Parser, buf: Bytes, chunk: Bytes) returns (buf': Bytes)
      modifies this`eventsReceived, this`upserts
      ensures buf' == Step(buf, chunk).buf
      ensures eventsReceived == old(eventsReceived) + Received(parse, Step(buf, chunk).events)
      ensures upserts == old(upserts) + Delivered(parse, Step(buf, chunk).events)
    {
      var b := buf + chunk;
      if |b| > MAX_BUF {
        buf' := [];
      } else {
        buf' := CutEvents(parse, b);
      }
    }

    /** `_stream_recv`: read until the server closes, `recv` raises or the
        reads run out (the bridge was stopped), cutting complete events off
        the buffer as they arrive. Every event the framing releases is
        parsed, counted and dispatched, in stream order. */
    method StreamRecv(parse: Parser, recvs: seq<Recv>) returns (end: StreamEnd)
      modifies this`eventsReceived, this`upserts
      ensures end == EndOf(recvs)
      ensures eventsReceived == old(eventsReceived) + Received(parse, Stream([], recvs).events)
      ensures upserts == old(upserts) + Delivered(parse, Stream([], recvs).events)
    {
      var buf: Bytes := [];
      var j := 0;
      ghost var seen: seq<Bytes> := [];
      while j < |recvs|
        invariant 0 <= j <= |recvs|
        invariant Stream([], recvs).events == seen + Stream(buf, recvs[j..]).events
        invariant Stream([], recvs).end == Stream(buf, recvs[j..]).end
        invariant eventsReceived == old(eventsReceived) + Received(parse, seen)
        invariant upserts == old(upserts) + Delivered(parse, seen)
      {
        StreamAt(buf, recvs, j);
        var r := recvs[j];
        if r.RecvError? || r.data == [] {
          assert seen + [] == seen;
          StreamEnds([], recvs);
          return if r.RecvError? then Raised(r.msg) else PeerClosed;
        }
        ghost var st := Step(buf, r.data);
        buf := Absorb(parse, buf, r.data);
        DeliveredAppend(parse, seen, st.events);
        Regroup(old(upserts), Delivered(parse, seen), Delivered(parse, st.events));
        Regroup(seen, st.events, Stream(buf, recvs[j + 1..]).events);
        seen := seen + st.events;
        j := j + 1;
      }
      assert recvs[j..] == [];
      assert seen + [] == seen;
      StreamEnds([], recvs);
      return Stopped;
    }

    /** The heartbeat `_send_self_sa` builds at wall-clock second `wall`. */
    function HeartbeatAt(zulu: int -> string, wall: int): Element {
      SelfSa(callsign, zulu(wall), zulu(wall + SA_STALE))
    }

    /** `_send_self_sa`: one heartbeat handed to `sendall`, which succeeds
        or raises. */
    method SendSelfSa(zulu: int -> string, wall: int, delivered: bool)
      modifies this`outbox
      ensures outbox == old(outbox) + (if delivered then [HeartbeatAt(zulu, wall)] else [])
    {
      var ev := HeartbeatAt(zulu, wall);
      if delivered {
        outbox := outbox + [ev];
      }
    }

    /** What one push at wall-clock second `wall` would send for what
        `list_fn` returned if every `sendall` succeeded: nothing, and an
        interrupted push, when `list_fn` raised. */
    function PushPlan(zulu: int -> string, wall: int, tracks: Option<seq<TrackRecord>>): (p: Plan)
      ensures tracks.None? ==> p == Plan([], false)
      ensures tracks == Some([]) ==> p == Plan([], true)
    {
      match tracks
      case None => Plan([], false)
      case Some(l) => Outbound(l, zulu(wall), zulu(wall + pushInterval + PUSH_STALE_MARGIN))
    }

    /** `_push_local_tracks` over what `list_fn` returned, on a socket whose
        first `accepts` `sendall` calls succeed. Echo tracks are skipped; the
        others go out in order until building an event or a `sendall`
        raises. `_events_sent` grows by the number sent, and only when the
        whole push got through; nothing at all happens without a `list_fn`
        or with no tracks, and nothing is sent when `list_fn` raises. */
    method PushLocalTracks(zulu: int -> string, wall: int, tracks: Option<seq<TrackRecord>>, accepts: nat)
      returns (ok: bool)
      modifies this`outbox, this`eventsSent
      ensures !hasListFn || tracks == Some([]) ==> ok && outbox == old(outbox) && eventsSent == old(eventsSent)
      ensures hasListFn && tracks.None? ==> !ok && outbox == old(outbox) && eventsSent == old(eventsSent)
      ensures hasListFn ==>
        var p := PushPlan(zulu, wall, tracks);
        && outbox == old(outbox) + p.elements[..Min(accepts, |p.elements|)]
        && (ok <==> p.complete && |p.elements| <= accepts)
        && eventsSent == old(eventsSent) + (if ok then |p.elements| else 0)
    {
      if !hasListFn {
        return true;
      }
      if tracks.None? {
        return false;
      }
      var list := tracks.value;
      if list == [] {
        return true;
      }
      var ts, staleTs := zulu(wall), zulu(wall + pushInterval + PUSH_STALE_MARGIN);
      ghost var all := PushPlan(zulu, wall, tracks);
      ghost var done: seq<Element> := [];
      var sent: nat := 0;
      var i := 0;
      while i < |list|
        invariant 0 <= i <= |list|
        invariant all.elements == done + Outbound(list[i..], ts, staleTs).elements
        invariant all.complete == Outbound(list[i..], ts, staleTs).complete
        invariant outbox == old(outbox) + done && |done| == sent <= accepts
        invariant eventsSent == old(eventsSent)
      {
        var t := list[i];
        OutboundAt(list, i, ts, staleTs);
        if !IsEcho(t) {
          var e := PushElement(t, ts, staleTs);
          if e.None? || sent == accepts {
            PushCut(all.elements, done, if e.None? then [] else [e.value] + Outbound(list[i + 1..], ts, staleTs).elements, accepts);
            return false;
          }
          ghost var rest := Outbound(list[i + 1..], ts, staleTs).elements;
          Regroup(done, [e.value], rest);
          outbox := outbox + [e.value];
          done := done + [e.value];
          sent := sent + 1;
        }
        i := i + 1;
      }
      assert list[i..] == [];
      PushCut(all.elements, done, [], accepts);
      eventsSent := eventsSent + sent;
      return true;
    }

    /** The self-SA of an iteration is due and its `sendall` succeeds. */
    predicate SaFires(t: TickIn, lastSa: int) {
      t.mono - lastSa >= SA_INTERVAL && t.accepts >= 1
    }

    /** The `sendall` calls left for the push once the self-SA, if due, has
        been tried: a failed self-SA leaves a broken socket. */
    function LeftAfterSa(t: TickIn, lastSa: int): nat {
      if t.mono - lastSa < SA_INTERVAL then t.accepts
      else if t.accepts >= 1 then t.accepts - 1
      else 0
    }

    /** One iteration of `_send_loop`: nothing without a connected socket;
        otherwise a self-SA when 15 seconds have passed since the last one
        that went out, then a push when `push_interval` seconds have passed
        since the last push that got through. A timer moves only when its
        send succeeds. */
    function TickSpec(zulu: int -> string, t: TickIn, lastSa: int, lastPush: int): (o: TickOut)
      ensures !t.linked ==> o == TickOut(lastSa, lastPush, [], 0, false, false)
      ensures o.saSent <==> t.linked && t.mono - lastSa >= SA_INTERVAL && t.accepts >= 1
      ensures o.pushed ==> t.linked && t.mono - lastPush >= pushInterval
      ensures hasListFn && t.tracks.None? ==> !o.pushed
      ensures o.lastSa == (if o.saSent then t.mono else lastSa)
      ensures o.lastPush == (if o.pushed then t.mono else lastPush)
    {
      if !t.linked then TickOut(lastSa, lastPush, [], 0, false, false)
      else
        var saSent := SaFires(t, lastSa);
        var left := LeftAfterSa(t, lastSa);
        var pushDue := t.mono - lastPush >= pushInterval;
        var p := PushPlan(zulu, t.wall, t.tracks);
        var pushed := pushDue && (!hasListFn || (p.complete && |p.elements| <= left));
        var pushOut := if pushDue && hasListFn then p.elements[..Min(left, |p.elements|)] else [];
        TickOut(
          if saSent then t.mono else lastSa,
          if pushed then t.mono else lastPush,
          (if saSent then [HeartbeatAt(zulu, t.wall)] else []) + pushOut,
          if pushed && hasListFn then |p.elements| else 0,
          saSent, pushed)
    }

    /** `_send_loop` over a run of iterations, from the given timers. */
    function SendRun(zulu: int -> string, ticks: seq<TickIn>, lastSa: int, lastPush: int): SendTrace
      decreases |ticks|
    {
      if ticks == [] then SendTrace([], 0, [], [])
      else
        var o := TickSpec(zulu, ticks[0], lastSa, lastPush);
        var r := SendRun(zulu, ticks[1..], o.lastSa, o.lastPush);
        SendTrace(
          o.sent + r.sent, o.counted + r.counted,
          (if o.saSent then [ticks[0].mono] else []) + r.saTimes,
          (if o.pushed then [ticks[0].mono] else []) + r.pushTimes)
    }

    /** The send loop is silent while it sees no connected socket. */
    lemma {:induction false} SendRunSilent(zulu: int -> string, ticks: seq<TickIn>, lastSa: int, lastPush: int)
      requires forall k :: 0 <= k < |ticks| ==> !ticks[k].linked
      ensures SendRun(zulu, ticks, lastSa, lastPush) == SendTrace([], 0, [], [])
      decreases |ticks|
    {
      if ticks != [] {
        assert !ticks[0].linked;
        SendRunSilent(zulu, ticks[1..], lastSa, lastPush);
      }
    }

    /** Successful self-SAs are at least 15 seconds apart, the first at
        least 15 seconds after the starting timer. */
    lemma {:induction false} SendRunSaSpaced(zulu: int -> string, ticks: seq<TickIn>, lastSa: int, lastPush: int)
      ensures Spaced(SendRun(zulu, ticks, lastSa, lastPush).saTimes, lastSa, SA_INTERVAL)
      decreases |ticks|
    {
      if ticks != [] {
        var o := TickSpec(zulu, ticks[0], lastSa, lastPush);
        SendRunSaSpaced(zulu, ticks[1..], o.lastSa, o.lastPush);
        var r := SendRun(zulu, ticks[1..], o.lastSa, o.lastPush).saTimes;
        if o.saSent {
          assert ([ticks[0].mono] + r)[1..] == r;
        } else {
          assert [] + r == r;
        }
      }
    }

    /** Successful pushes are at least `push_interval` seconds apart, the
        first at least that long after the starting timer. */
    lemma {:induction false} SendRunPushSpaced(zulu: int -> string, ticks: seq<TickIn>, lastSa: int, lastPush: int)
      ensures Spaced(SendRun(zulu, ticks, lastSa, lastPush).pushTimes, lastPush, pushInterval)
      decreases |ticks|
    {
      if ticks != [] {
        var o := TickSpec(zulu, ticks[0], lastSa, lastPush);
        SendRunPushSpaced(zulu, ticks[1..], o.lastSa, o.lastPush);
        var r := SendRun(zulu, ticks[1..], o.lastSa, o.lastPush).pushTimes;
        if o.pushed {
          assert ([ticks[0].mono] + r)[1..] == r;
        } else {
          assert [] + r == r;
        }
      }
    }

    /** The self-SA step of one iteration on a connected socket. */
    method SelfSaPhase(zulu: int -> string, t: TickIn, lastSa: int) returns (lastSa': int, left: nat)
      modifies this`outbox
      ensures lastSa' == (if SaFires(t, lastSa) then t.mono else lastSa)
      ensures left == LeftAfterSa(t, lastSa)
      ensures outbox == old(outbox) + (if SaFires(t, lastSa) then [HeartbeatAt(zulu, t.wall)] else [])
    {
      lastSa', left := lastSa, t.accepts;
      if t.mono - lastSa >= SA_INTERVAL {
        SendSelfSa(zulu, t.wall, left >= 1);
        if left >= 1 {
          lastSa' := t.mono;
          left := left - 1;
        } else {
          left := 0;
        }
      }
    }

    /** One iteration of `_send_loop`, on the timers it keeps. */
    method Tick(zulu: int -> string, t: TickIn, lastSa: int, lastPush: int)
      returns (lastSa': int, lastPush': int)
      modifies this`outbox, this`eventsSent
      ensures var o := TickSpec(zulu, t, lastSa, lastPush);
        lastSa' == o.lastSa && lastPush' == o.lastPush &&
        outbox == old(outbox) + o.sent && eventsSent == old(eventsSent) + o.counted
    {
      lastSa', lastPush' := lastSa, lastPush;
      if !t.linked {
        return;
      }
      var left;
      lastSa', left := SelfSaPhase(zulu, t, lastSa);
      ghost var sa := outbox[|old(outbox)|..];
      assert outbox == old(outbox) + sa;
      ghost var p := PushPlan(zulu, t.wall, t.tracks);
      ghost var pushOut: seq<Element> := [];
      if t.mono - lastPush >= pushInterval {
        var ok := PushLocalTracks(zulu, t.wall, t.tracks, left);
        if hasListFn {
          pushOut := p.elements[..Min(left, |p.elements|)];
        }
        if ok {
          lastPush' := t.mono;
        }
      }
      Regroup(old(outbox), sa, pushOut);
    }

    /** `_send_loop`: the iterations it makes while the bridge runs, both
        timers starting at 0. */
    method SendLoop(zulu: int -> string, ticks: seq<TickIn>)
      modifies this`outbox, this`eventsSent
      ensures !old(running) ==> outbox == old(outbox) && eventsSent == old(eventsSent)
      ensures old(running) ==>
        outbox == old(outbox) + SendRun(zulu, ticks, 0, 0).sent &&
        eventsSent == old(eventsSent) + SendRun(zulu, ticks, 0, 0).counted
    {
      if !running {
        return;
      }
      var lastSa, lastPush := 0, 0;
      var k := 0;
      ghost var done: seq<Element> := [];
      ghost var counted: nat := 0;
      while k < |ticks|
        invariant 0 <= k <= |ticks|
        invariant SendRun(zulu, ticks, 0, 0).sent == done + SendRun(zulu, ticks[k..], lastSa, lastPush).sent
        invariant SendRun(zulu, ticks, 0, 0).counted == counted + SendRun(zulu, ticks[k..], lastSa, lastPush).counted
        invariant outbox == old(outbox) + done && eventsSent == old(eventsSent) + counted
      {
        assert ticks[k..][0] == ticks[k] && ticks[k..][1..] == ticks[k + 1..];
        ghost var o := TickSpec(zulu, ticks[k], lastSa, lastPush);
        ghost var before := outbox;
        lastSa, lastPush := Tick(zulu, ticks[k], lastSa, lastPush);
        Regroup(done, o.sent, SendRun(zulu, ticks[k + 1..], lastSa, lastPush).sent);
        Regroup(old(outbox), done, o.sent);
        done := done + o.sent;
        counted := counted + o.counted;
        k := k + 1;
      }
      assert ticks[k..] == [];
      assert done + [] == done;
    }

    /** The part of the state `_recv_loop` changes. */
    function GetTally(): Tally
      reads this
    {
      Tally(lastConnectedAt, lastError, reconnectCount, eventsReceived, outbox, upserts)
    }

    /** The state after one attempt: a connect is recorded, a heartbeat that
        went out and the events read are accounted for, and a caught
        exception is recorded as the last error and counted as a reconnect. */
    function AfterSession(parse: Parser, zulu: int -> string, t: Tally, a: Attempt): (r: Tally)
      ensures r.reconnectCount == t.reconnectCount + (if Fails(a) then 1 else 0)
      ensures !Fails(a) ==> r.lastError == t.lastError
      ensures a.Refused? ==> r.lastError == Some(a.error) && r.lastConnectedAt == t.lastConnectedAt
      ensures a.Opened? ==> r.lastConnectedAt == Some(a.wall)
      ensures a.Opened? && a.saError.Some? ==> r.lastError == a.saError
      ensures a.Opened? && a.saError.None? && EndOf(a.recvs).Raised? ==>
        r.lastError == Some(EndOf(a.recvs).msg)
      ensures r.outbox == t.outbox + (if a.Opened? && a.saError.None? then [HeartbeatAt(zulu, a.wall)] else [])
      ensures r.eventsReceived == t.eventsReceived +
        (if a.Opened? && a.saError.None? then Received(parse, Stream([], a.recvs).events) else 0)
    {
      match a
      case Refused(e) => t.(lastError := Some(e), reconnectCount := t.reconnectCount + 1)
      case Opened(wall, saError, recvs) =>
        var t1 := t.(lastConnectedAt := Some(wall));
        if saError.Some? then
          t1.(lastError := saError, reconnectCount := t1.reconnectCount + 1)
        else
          var run := Stream([], recvs);
          var t2 := t1.(
            outbox := t1.outbox + [HeartbeatAt(zulu, wall)],
            eventsReceived := t1.eventsReceived + Received(parse, run.events),
            upserts := t1.upserts + Delivered(parse, run.events));
          var end := EndOf(recvs);
          if end.Raised? then t2.(lastError := Some(end.msg), reconnectCount := t2.reconnectCount + 1)
          else t2
    }

    /** The state after a run of attempts. */
    function Replay(parse: Parser, zulu: int -> string, t: Tally, attempts: seq<Attempt>): Tally
      decreases |attempts|
    {
      if attempts == [] then t
      else AfterSession(parse, zulu, Replay(parse, zulu, t, attempts[..|attempts| - 1]), attempts[|attempts| - 1])
    }

    /** `Replay` over one more attempt. */
    lemma ReplayStep(parse: Parser, zulu: int -> string, t: Tally, attempts: seq<Attempt>, k: nat)
      requires k < |attempts|
      ensures Replay(parse, zulu, t, attempts[..k + 1]) ==
        AfterSession(parse, zulu, Replay(parse, zulu, t, attempts[..k]), attempts[k])
    {
      assert attempts[..k + 1][..k] == attempts[..k];
    }

    /** `_reconnect_count` counts exactly the attempts that ended in a
        caught exception. */
    lemma {:induction false} ReplayReconnects(parse: Parser, zulu: int -> string, t: Tally, attempts: seq<Attempt>)
      ensures Replay(parse, zulu, t, attempts).reconnectCount == t.reconnectCount + Failures(attempts)
      decreases |attempts|
    {
      if attempts != [] {
        var m := |attempts| - 1;
        ReplayReconnects(parse, zulu, t, attempts[..m]);
      }
    }

    /** The upserts one attempt makes: those of the events it read, when the
        socket opened and the self-SA went out. */
    lemma SessionUpserts(parse: Parser, zulu: int -> string, t: Tally, a: Attempt)
      ensures AfterSession(parse, zulu, t, a).upserts ==
        t.upserts + (if a.Opened? && a.saError.None? then Delivered(parse, Stream([], a.recvs).events) else [])
    {
    }

    /** The attempts keep every earlier upsert, and each one they add is a
        sound inbound one: keyed by another uid than the bridge's callsign
        and tagged with the server's source. */
    lemma {:induction false} ReplayUpserts(parse: Parser, zulu: int -> string, t: Tally, attempts: seq<Attempt>)
      ensures |Replay(parse, zulu, t, attempts).upserts| >= |t.upserts|
      ensures Replay(parse, zulu, t, attempts).upserts[..|t.upserts|] == t.upserts
      ensures forall k :: |t.upserts| <= k < |Replay(parse, zulu, t, attempts).upserts| ==>
        var w := Replay(parse, zulu, t, attempts).upserts[k];
        w.uid != callsign && w.meta.Some? && "source" in w.meta.value &&
        w.meta.value["source"] == Text(SOURCE_TAG)
      decreases |attempts|
    {
      if attempts != [] {
        var m := |attempts| - 1;
        var a := attempts[m];
        var t' := Replay(parse, zulu, t, attempts[..m]);
        ReplayUpserts(parse, zulu, t, attempts[..m]);
        SessionUpserts(parse, zulu, t', a);
        var d := if a.Opened? && a.saError.None? then Delivered(parse, Stream([], a.recvs).events) else [];
        if a.Opened? && a.saError.None? {
          InboundSound(parse, callsign, Stream([], a.recvs).events);
        }
        var r := t'.upserts + d;
        assert Replay(parse, zulu, t, attempts).upserts == r;
        assert r[..|t.upserts|] == t'.upserts[..|t.upserts|];
        forall k | |t'.upserts| <= k < |r|
          ensures r[k] == d[k - |t'.upserts|]
        {
        }
      }
    }

    /** `_except` branch of `_recv_loop`: not connected, the message kept,
        one more reconnect counted. */
    method RecordError(e: string)
      modifies this`connected, this`lastError, this`reconnectCount
      ensures !connected && lastError == Some(e) && reconnectCount == old(reconnectCount) + 1
    {
      connected := false;
      lastError := Some(e);
      reconnectCount := reconnectCount + 1;
    }

    /** A successful `_connect`: the socket is kept, the bridge is connected
        and the connect time recorded. */
    method Connect(wall: int)
      modifies this`connected, this`hasSock, this`lastConnectedAt
      ensures connected && hasSock && lastConnectedAt == Some(wall)
      ensures Valid()
    {
      hasSock := true;
      connected := true;
      lastConnectedAt := Some(wall);
    }

    /** One pass of `_recv_loop`'s body: connect, send the self-SA, read the
        stream; record a caught exception; close the socket. */
    method ConnectOnce(parse: Parser, zulu: int -> string, a: Attempt) returns (linked: bool)
      modifies this`connected, this`hasSock, this`lastConnectedAt, this`lastError,
               this`reconnectCount, this`eventsReceived, this`outbox, this`upserts
      ensures linked == a.Opened?
      ensures GetTally() == AfterSession(parse, zulu, old(GetTally()), a)
      ensures !connected && !hasSock
    {
      linked := a.Opened?;
      match a {
        case Refused(e) =>
          RecordError(e);
        case Opened(wall, saError, recvs) =>
          Connect(wall);
          SendSelfSa(zulu, wall, saError.None?);
          if saError.Some? {
            RecordError(saError.value);
          } else {
            var end := StreamRecv(parse, recvs);
            if end.Raised? {
              RecordError(end.msg);
            }
          }
      }
      CloseSocket();
    }

    /** One more attempt, accounted for in the replay of the earlier ones. */
    method NextAttempt(parse: Parser, zulu: int -> string, attempts: seq<Attempt>, k: nat, ghost start: Tally)
      returns (linked: bool)
      requires k < |attempts| && GetTally() == Replay(parse, zulu, start, attempts[..k])
      modifies this`connected, this`hasSock, this`lastConnectedAt, this`lastError,
               this`reconnectCount, this`eventsReceived, this`outbox, this`upserts
      ensures linked == attempts[k].Opened?
      ensures GetTally() == Replay(parse, zulu, start, attempts[..k + 1])
      ensures !connected && !hasSock
    {
      linked := ConnectOnce(parse, zulu, attempts[k]);
      ReplayStep(parse, zulu, start, attempts, k);
    }

    /** `_recv_loop`: the attempts it makes while the bridge runs, with the
        delays it sleeps between them. It stops after the attempt during
        which the bridge was stopped, or after the last attempt. */
    method RecvLoop(parse: Parser, zulu: int -> string, attempts: seq<Attempt>)
      returns (sleeps: seq<nat>)
      modifies this`connected, this`hasSock, this`lastConnectedAt, this`lastError,
               this`reconnectCount, this`eventsReceived, this`outbox, this`upserts
      ensures !old(running) ==>
        sleeps == [] && GetTally() == old(GetTally()) &&
        connected == old(connected) && hasSock == old(hasSock)
      ensures old(running) ==>
        && GetTally() == Replay(parse, zulu, old(GetTally()), Ran(attempts))
        && sleeps == Sleeps(Ran(attempts))
        && (attempts != [] ==> !connected && !hasSock)
      ensures attempts == [] ==> connected == old(connected) && hasSock == old(hasSock)
      ensures old(Valid()) ==> Valid()
    {
      sleeps := [];
      if !running || attempts == [] {
        return;
      }
      ghost var start := GetTally();
      var backoff: nat := 1;
      var k := 0;
      while true
        invariant 0 <= k < |attempts|
        invariant NoneHalt(attempts[..k])
        invariant GetTally() == Replay(parse, zulu, start, attempts[..k])
        invariant sleeps == Delays(Connects(attempts[..k]))
        invariant backoff == if k == 0 then 1 else Next(sleeps[k - 1])
        decreases |attempts| - k
      {
        var linked := NextAttempt(parse, zulu, attempts, k, start);
        if linked {
          backoff := 1;
        }
        BackoffStep(attempts, k, sleeps, backoff);
        if Halts(attempts[k]) || k == |attempts| - 1 {
          forall i | 0 <= i < k
            ensures !Halts(attempts[i])
          {
            NoneHaltAt(attempts[..k], i);
          }
          RanIs(attempts, k);
          return;
        }
        NoneHaltSnoc(attempts, k);
        sleeps := sleeps + [backoff];
        backoff := Next(backoff);
        k := k + 1;
      }
    }
  }
}
