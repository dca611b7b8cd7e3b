/** The HTTP server's two CoT endpoints: `POST /tak/cot`, which reads one
    `<event>` into the track table, and `GET /tak/cot/pull`, which writes the
    whole table out as CoT events. These use the server's own tables, which
    differ from the bridge's; `Interop` relates the two. */
module CotEndpoints {
  import opened Base
  import opened Cot
  import opened Registry

  /** The decimal text of a whole number, as an f-string formats an `int`. */
  function NatToDecimal(n: nat): (s: string)
    ensures |s| >= 1
    ensures forall k :: 0 <= k < |s| ==> '0' <= s[k] <= '9'
    ensures n > 0 ==> s[0] != '0'
    decreases n
  {
    if n < 10 then [(48 + n) as char]
    else NatToDecimal(n / 10) + [(48 + n % 10) as char]
  }

  /** The number a string of decimal digits denotes. */
  function DecimalValue(s: string): nat
    requires forall k :: 0 <= k < |s| ==> '0' <= s[k] <= '9'
    decreases |s|
  {
    if s == [] then 0
    else 10 * DecimalValue(s[..|s| - 1]) + (s[|s| - 1] as int - 48)
  }

  /** Reading the decimal text back gives the number. */
  lemma {:induction false} DecimalRoundTrip(n: nat)
    ensures DecimalValue(NatToDecimal(n)) == n
    decreases n
  {
    if n >= 10 {
      DecimalRoundTrip(n / 10);
      var s := NatToDecimal(n);
      assert s[..|s| - 1] == NatToDecimal(n / 10);
    }
  }

  /** `f"COT-{int(time.time())}"`: the uid of an event that names none. */
  function FallbackUid(nowSec: nat): string {
    "COT-" + NatToDecimal(nowSec)
  }

  /** Events without a uid received in different seconds get different uids,
      so they are stored as different tracks. */
  lemma FallbackUidsDiffer(a: nat, b: nat)
    requires a != b
    ensures FallbackUid(a) != FallbackUid(b)
  {
    DecimalRoundTrip(a);
    DecimalRoundTrip(b);
    assert FallbackUid(a)[4..] == NatToDecimal(a);
    assert FallbackUid(b)[4..] == NatToDecimal(b);
  }

  /** `root.get("uid") or root.get("id") or f"COT-{...}"`. */
  function IngestUid(root: Element, nowSec: nat): (u: string)
    ensures u != ""
    ensures Truthy(root.uid) ==> u == root.uid.value
    ensures !Truthy(root.uid) && Truthy(root.id) ==> u == root.id.value
    ensures !Truthy(root.uid) && !Truthy(root.id) ==> u == FallbackUid(nowSec)
  {
    if Truthy(root.uid) then root.uid.value
    else if Truthy(root.id) then root.id.value
    else FallbackUid(nowSec)
  }

  /** The side `ingest_cot` reads from a CoT type: only the friendly and
      hostile prefixes are recognised. */
  function MainSide(t: string): (s: string)
    ensures s == "friendly" <==> "a-f" <= t
    ensures s == "enemy" <==> "a-h" <= t
    ensures s == "unknown" <==> !("a-f" <= t) && !("a-h" <= t)
  {
    assert "a-f" <= t ==> t[2] == 'f';
    assert "a-h" <= t ==> t[2] == 'h';
    if "a-f" <= t then "friendly"
    else if "a-h" <= t then "enemy"
    else "unknown"
  }

  /** The display layer `ingest_cot` gives a side: friendly and enemy keep
      their own layer, every other side is `other`. */
  function MainLayer(side: string): (l: string)
    ensures l == "friendly" <==> side == "friendly"
    ensures l == "enemy" <==> side == "enemy"
    ensures l == "other" <==> side != "friendly" && side != "enemy"
  {
    if side == "friendly" then "friendly"
    else if side == "enemy" then "enemy"
    else "other"
  }

  /** The SIDC affiliation letter of `ingest_cot`: no neutral letter. */
  function MainAff(side: string): (a: char)
    ensures a == 'F' <==> side == "friendly"
    ensures a == 'H' <==> side == "enemy"
    ensures a == 'U' <==> side != "friendly" && side != "enemy"
  {
    if side == "friendly" then 'F'
    else if side == "enemy" then 'H'
    else 'U'
  }

  /** The SIDC battle dimension of `ingest_cot`: air only for friendly and
      hostile air types. */
  function MainDim(t: string): (d: char)
    ensures d == 'A' <==> "a-f-A" <= t || "a-h-A" <= t
    ensures d == 'A' || d == 'G'
  {
    if "a-f-A" <= t || "a-h-A" <= t then 'A' else 'G'
  }

  /** Why `ingest_cot` refuses a body. */
  datatype Fault =
    | Malformed(message: string)  // the XML parser's error message
    | NoPoint                     // the event has no `.//point`
    | BadCoordinate               // `float()` of `lat` or `lon` raises

  /** The text after `Invalid CoT: ` in the 400 reply; `coordError` is the
      message `float()` raises, which the model does not compute. */
  function FaultText(f: Fault, coordError: string): string {
    match f
    case Malformed(m) => m
    case NoPoint => "No point element"
    case BadCoordinate => coordError
  }

  /** The meta dictionary `ingest_cot` stores: type, timing attributes and
      symbol code, but no callsign and no source tag. */
  function IngestMeta(root: Element): Meta {
    var t := CotType(root);
    map[
      "cot_type" := Text(t),
      "how" := AttrValue(root.how),
      "time" := AttrValue(root.time),
      "start" := AttrValue(root.start),
      "stale" := AttrValue(root.stale),
      "sidc" := Text(Sidc(MainAff(MainSide(t)), MainDim(t)))]
  }

  /** The upsert `ingest_cot` makes for a parsed event, or why it refuses
      it. An event is accepted exactly when it has a point with readable
      coordinates; a missing point is reported as such. */
  function DecodeIngest(root: Element, nowSec: nat): (r: Result<TrackWrite, Fault>)
    ensures r.Ok? <==>
      root.point.Some? && root.point.value.lat.Some? && root.point.value.lon.Some?
    ensures root.point.None? ==> r == Err(NoPoint)
    ensures root.point.Some? && !r.Ok? ==> r == Err(BadCoordinate)
    ensures r.Ok? ==>
      && r.value.uid == IngestUid(root, nowSec)
      && r.value.side == MainSide(CotType(root))
      && r.value.layer == MainLayer(r.value.side)
      && r.value.lat == root.point.value.lat.value
      && r.value.lon == root.point.value.lon.value
      && r.value.meta.Some?
      && r.value.meta.value.Keys == {"cot_type", "how", "time", "start", "stale", "sidc"}
      && "source" !in r.value.meta.value
      && r.value.meta.value["sidc"] == Text(Sidc(MainAff(r.value.side), MainDim(CotType(root))))
      && r.value.meta == Some(IngestMeta(root))
  {
    var uid := IngestUid(root, nowSec);
    var side := MainSide(CotType(root));
    match root.point
    case None => Err(NoPoint)
    case Some(pt) =>
      if pt.lat.None? || pt.lon.None? then Err(BadCoordinate)
      else Ok(TrackWrite(uid, side, MainLayer(side), pt.lat.value, pt.lon.value, Some(IngestMeta(root))))
  }

  /** `ingest_cot` on a raw body: parse, read, upsert at server time `now`
      and reply with the uid; any failure is a 400 whose detail names it,
      and leaves the table alone. `nowSec` is `int(time.time())`. */
  method IngestCot(store: TrackStore, raw: Bytes, parse: Bytes -> Result<Element, string>,
                   nowSec: nat, now: int, coordError: string) returns (r: Reply<string>)
    requires store.Valid()
    modifies store
    ensures store.Valid()
    ensures parse(raw).Err? ==>
      r == HttpError(400, "Invalid CoT: " + parse(raw).error) &&
      store.Contents() == old(store.Contents())
    ensures parse(raw).Ok? && DecodeIngest(parse(raw).value, nowSec).Err? ==>
      r == HttpError(400, "Invalid CoT: " + FaultText(DecodeIngest(parse(raw).value, nowSec).error, coordError)) &&
      store.Contents() == old(store.Contents())
    ensures parse(raw).Ok? && DecodeIngest(parse(raw).value, nowSec).Ok? ==>
      var w := DecodeIngest(parse(raw).value, nowSec).value;
      r == Reply(w.uid) && store.Contents() == Upserted(old(store.Contents()), w, now)
  {
    var parsed := parse(raw);
    if parsed.Err? {
      return HttpError(400, "Invalid CoT: " + FaultText(Malformed(parsed.error), coordError));
    }
    var decoded := DecodeIngest(parsed.value, nowSec);
    if decoded.Err? {
      return HttpError(400, "Invalid CoT: " + FaultText(decoded.error, coordError));
    }
    store.Upsert(decoded.value, now);
    return Reply(decoded.value.uid);
  }

  /** The CoT type `pull_cot` exports a side as. */
  function PullType(side: string): (t: string)
    ensures MainSide(t) == (if side in {"friendly", "enemy"} then side else "unknown")
    ensures XmlText(t)
  {
    if side == "friendly" then "a-f-G-U-C"
    else if side == "enemy" then "a-h-G-U-C"
    else "b-m-p-s-m"
  }

  /** The `<event>` `pull_cot` builds for one stored track, or `None` when
      `ev.set` rejects the track's uid as not XML text. `ts` is the
      formatted request time, `staleTs` the same time without its
      microseconds. The event carries the type of the track's side, the
      track's position at zero height with 25 m error bounds, and no
      `<detail>`. */
  function PullElement(t: TrackRecord, ts: string, staleTs: string): (r: Option<Element>)
    ensures r.Some? <==> XmlText(t.uid)
    ensures r.Some? ==>
      && r.value.uid == Some(t.uid) && r.value.id == None
      && r.value.cotType == Some(PullType(t.side)) && r.value.how == Some("m-g")
      && r.value.time == Some(ts) && r.value.start == Some(ts) && r.value.stale == Some(staleTs)
      && r.value.point == Some(Point(Some(t.lat), Some(t.lon), Some("0"), Some("25"), Some("25")))
      && r.value.contact.None? && r.value.group.None? && r.value.takv.None?
  {
    if !XmlText(t.uid) then None
    else Some(Element(
      Some("2.0"), Some(t.uid), None, Some(PullType(t.side)), Some("m-g"),
      Some(ts), Some(ts), Some(staleTs),
      Some(Point(Some(t.lat), Some(t.lon), Some("0"), Some("25"), Some("25"))),
      None, None, None))
  }

  /** Every track of the listing can be exported. */
  predicate Exportable(tracks: seq<TrackRecord>) {
    forall k :: 0 <= k < |tracks| ==> XmlText(tracks[k].uid)
  }

  /** The serialised events of a listing, one per track, in listing order,
      or `None` when building one of them raises. */
  function Serialized(serialize: Element -> Bytes, tracks: seq<TrackRecord>, ts: string, staleTs: string): (out: Option<seq<Bytes>>)
    ensures out.Some? <==> Exportable(tracks)
    ensures out.Some? ==>
      |out.value| == |tracks| &&
      forall k :: 0 <= k < |tracks| ==>
        PullElement(tracks[k], ts, staleTs).Some? &&
        out.value[k] == serialize(PullElement(tracks[k], ts, staleTs).value)
  {
    if Exportable(tracks) then
      Some(seq(|tracks|, k requires 0 <= k < |tracks| => serialize(PullElement(tracks[k], ts, staleTs).value)))
    else None
  }

  /** Exporting one more track whose event can be built. */
  lemma SerializedSnoc(serialize: Element -> Bytes, tracks: seq<TrackRecord>, t: TrackRecord, ts: string, staleTs: string)
    requires Exportable(tracks) && XmlText(t.uid)
    ensures Serialized(serialize, tracks + [t], ts, staleTs) ==
      Some(Serialized(serialize, tracks, ts, staleTs).value + [serialize(PullElement(t, ts, staleTs).value)])
  {
    var l := tracks + [t];
    assert forall k :: 0 <= k < |tracks| ==> l[k] == tracks[k];
    assert l[|tracks|] == t;
    assert Exportable(l);
    var a, b := Serialized(serialize, tracks, ts, staleTs).value, Serialized(serialize, l, ts, staleTs).value;
    var e := serialize(PullElement(t, ts, staleTs).value);
    assert |b| == |a + [e]|;
    forall k | 0 <= k < |b|
      ensures b[k] == (a + [e])[k]
    {
      if k < |tracks| {
        assert b[k] == serialize(PullElement(tracks[k], ts, staleTs).value) == a[k];
      }
    }
    assert b == a + [e];
  }

  const NEWLINE: Bytes := [10]

  /** The reply FastAPI sends for an exception the handler does not catch. */
  const SERVER_ERROR: Reply<Bytes> := HttpError(500, "Internal Server Error")

  /** `pull_cot`: the events of every stored track, serialised by
      `serialize` and separated by one newline byte, empty when the table
      is; a track whose event cannot be built fails the whole request. */
  method PullCot(store: TrackStore, serialize: Element -> Bytes, ts: string, staleTs: string) returns (r: Reply<Bytes>)
    requires store.Valid()
    ensures var out := Serialized(serialize, Listing(store.rows, store.order), ts, staleTs);
      r == if out.Some? then Reply(Join(NEWLINE, out.value)) else SERVER_ERROR
  {
    var tracks := store.ListTracks();
    var events: seq<Bytes> := [];
    var i := 0;
    while i < |tracks|
      invariant 0 <= i <= |tracks|
      invariant Exportable(tracks[..i])
      invariant Serialized(serialize, tracks[..i], ts, staleTs) == Some(events)
    {
      var ev := PullElement(tracks[i], ts, staleTs);
      if ev.None? {
        assert !Exportable(tracks);
        return SERVER_ERROR;
      }
      assert tracks[..i + 1] == tracks[..i] + [tracks[i]];
      SerializedSnoc(serialize, tracks[..i], tracks[i], ts, staleTs);
      events := events + [serialize(ev.value)];
      i := i + 1;
    }
    assert tracks[..i] == tracks;
    r := Reply(if events != [] then Join(NEWLINE, events) else []);
  }

  /** The sum of the lengths of some byte strings. */
  function TotalLength(parts: seq<Bytes>): nat {
    if parts == [] then 0 else |parts[0]| + TotalLength(parts[1..])
  }

  /** A joined body holds every part and one separator between each pair of
      neighbours, and nothing else. */
  lemma {:induction false} JoinLength(sep: Bytes, parts: seq<Bytes>)
    requires parts != []
    ensures |Join(sep, parts)| == TotalLength(parts) + |sep| * (|parts| - 1)
    decreases |parts|
  {
    if |parts| > 1 {
      JoinLength(sep, parts[1..]);
    } else {
      assert parts[1..] == [];
    }
  }

  /** The body is empty exactly when there are no events, as serialised
      events are never empty. */
  lemma JoinEmptyIff(sep: Bytes, parts: seq<Bytes>)
    requires forall k :: 0 <= k < |parts| ==> parts[k] != []
    ensures Join(sep, parts) == [] <==> parts == []
  {
    if parts != [] {
      JoinLength(sep, parts);
      assert |parts[0]| > 0;
    }
  }
}
