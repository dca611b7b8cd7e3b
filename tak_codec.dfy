/** The bridge's CoT tables: how `TAKBridge._handle_event` turns an inbound
    event into an upsert, and how `_push_local_tracks` and `_send_self_sa`
    turn local state into outbound events. */
module TakCodec {
  import opened Base
  import opened Cot

  /** The `source` meta value that marks a track learned from the TAK Server. */
  const SOURCE_TAG: string := "tak_server"

  /** `root.get("uid") or root.get("id")`, with `None` for a falsy result. */
  function EventUid(root: Element): (r: Option<string>)
    ensures r.None? <==> !Truthy(root.uid) && !Truthy(root.id)
    ensures r.Some? ==> r.value != ""
    ensures Truthy(root.uid) ==> r == root.uid
    ensures !Truthy(root.uid) && Truthy(root.id) ==> r == root.id
  {
    if Truthy(root.uid) then root.uid
    else if Truthy(root.id) then root.id
    else None
  }

  /** The side a CoT type prefix names: `a-f`, `a-h`, `a-n`, else unknown. */
  function Side(t: string): (s: string)
    ensures s == "friendly" <==> "a-f" <= t
    ensures s == "enemy" <==> "a-h" <= t
    ensures s == "neutral" <==> "a-n" <= t
    ensures s == "unknown" <==> !("a-f" <= t) && !("a-h" <= t) && !("a-n" <= t)
  {
    assert "a-f" <= t ==> t[2] == 'f';
    assert "a-h" <= t ==> t[2] == 'h';
    assert "a-n" <= t ==> t[2] == 'n';
    if "a-f" <= t then "friendly"
    else if "a-h" <= t then "enemy"
    else if "a-n" <= t then "neutral"
    else "unknown"
  }

  /** The display layer of a side: its own layer for friendly and enemy,
      `other` for everything else. */
  function Layer(side: string): (l: string)
    ensures l == "friendly" <==> side == "friendly"
    ensures l == "enemy" <==> side == "enemy"
    ensures l == "other" <==> side != "friendly" && side != "enemy"
  {
    if side == "friendly" then "friendly"
    else if side == "enemy" then "enemy"
    else "other"
  }

  /** The SIDC affiliation letter of a side. */
  function Aff(side: string): (a: char)
    ensures a == 'F' <==> side == "friendly"
    ensures a == 'H' <==> side == "enemy"
    ensures a == 'N' <==> side == "neutral"
    ensures a == 'U' <==> side !in {"friendly", "enemy", "neutral"}
  {
    if side == "friendly" then 'F'
    else if side == "enemy" then 'H'
    else if side == "neutral" then 'N'
    else 'U'
  }

  /** The SIDC battle dimension: air when the fifth character of the type is `A`. */
  function Dim(t: string): char {
    if |t| > 4 && t[4] == 'A' then 'A' else 'G'
  }

  /** The layer of a CoT type: friendly and enemy for those prefixes,
      `other` for neutral and unknown alike. */
  lemma LayerOfType(t: string)
    ensures Layer(Side(t)) == "friendly" <==> "a-f" <= t
    ensures Layer(Side(t)) == "enemy" <==> "a-h" <= t
    ensures Layer(Side(t)) == "other" <==> !("a-f" <= t) && !("a-h" <= t)
  {
  }

  /** The symbol code derived from a CoT type: 15 characters, an affiliation
      letter that follows the type prefix, and air exactly when the fifth
      character of the type is `A`. */
  lemma SidcOfType(t: string)
    ensures |Sidc(Aff(Side(t)), Dim(t))| == 15
    ensures Sidc(Aff(Side(t)), Dim(t))[1] == 'F' <==> "a-f" <= t
    ensures Sidc(Aff(Side(t)), Dim(t))[1] == 'H' <==> "a-h" <= t
    ensures Sidc(Aff(Side(t)), Dim(t))[1] == 'N' <==> "a-n" <= t
    ensures Sidc(Aff(Side(t)), Dim(t))[1] == 'U' <==> Side(t) == "unknown"
    ensures Sidc(Aff(Side(t)), Dim(t))[2] == 'A' <==> |t| > 4 && t[4] == 'A'
    ensures Sidc(Aff(Side(t)), Dim(t))[2] == 'G' <==> !(|t| > 4 && t[4] == 'A')
  {
  }

  /** The callsign of `<detail><contact>`, when it is there and non-empty. */
  function ContactCallsign(root: Element): (r: Option<string>)
    ensures r.Some? <==> root.contact.Some? && Truthy(root.contact.value.callsign)
    ensures r.Some? ==> r == root.contact.value.callsign
  {
    if root.contact.Some? && Truthy(root.contact.value.callsign) then root.contact.value.callsign
    else None
  }

  /** The meta dictionary `_handle_event` attaches to an inbound track. */
  function InboundMeta(root: Element, callsign: string): Meta {
    var t := CotType(root);
    map[
      "cot_type" := Text(t),
      "how" := AttrValue(root.how),
      "time" := AttrValue(root.time),
      "start" := AttrValue(root.start),
      "stale" := AttrValue(root.stale),
      "sidc" := Text(Sidc(Aff(Side(t)), Dim(t))),
      "callsign" := Text(callsign),
      "source" := Text(SOURCE_TAG)]
  }

  /** The upsert `_handle_event` makes for a parsed event, or `None` when it
      skips the event. It skips exactly an event without a uid, one carrying
      the bridge's own callsign, one without a point and one with a
      coordinate `float()` cannot read. Otherwise the upsert is keyed by the
      event's uid, takes side and layer from the type prefix, and its meta
      holds exactly the eight keys, with the callsign of the contact (or the
      uid) and the server's source tag. */
  function HandleEvent(ownCallsign: string, root: Element): (r: Option<TrackWrite>)
    ensures r.Some? <==>
      EventUid(root).Some? && EventUid(root).value != ownCallsign &&
      root.point.Some? && root.point.value.lat.Some? && root.point.value.lon.Some?
    ensures r.Some? ==>
      && Some(r.value.uid) == EventUid(root)
      && r.value.side == Side(CotType(root))
      && r.value.layer == Layer(r.value.side)
      && r.value.lat == root.point.value.lat.value
      && r.value.lon == root.point.value.lon.value
      && r.value.meta.Some?
      && r.value.meta.value.Keys ==
           {"cot_type", "how", "time", "start", "stale", "sidc", "callsign", "source"}
      && r.value.meta.value["source"] == Text(SOURCE_TAG)
      && r.value.meta.value["cot_type"] == Text(CotType(root))
      && r.value.meta.value["sidc"] == Text(Sidc(Aff(r.value.side), Dim(CotType(root))))
      && r.value.meta.value["callsign"] == Text(ContactCallsign(root).GetOr(r.value.uid))
      && r.value.meta == Some(InboundMeta(root, ContactCallsign(root).GetOr(r.value.uid)))
  {
    match EventUid(root)
    case None => None
    case Some(uid) =>
      if uid == ownCallsign then None
      else match root.point
        case None => None
        case Some(pt) =>
          if pt.lat.None? || pt.lon.None? then None
          else
            var side := Side(CotType(root));
            var cs := ContactCallsign(root).GetOr(uid);
            Some(TrackWrite(uid, side, Layer(side), pt.lat.value, pt.lon.value,
                            Some(InboundMeta(root, cs))))
  }

  /** `t.get("meta", {}).get("source") == "tak_server"`: the track came from
      the TAK Server and is not pushed back to it. */
  predicate IsEcho(t: TrackRecord) {
    "source" in t.meta && t.meta["source"] == Text(SOURCE_TAG)
  }

  /** The CoT type a local track is pushed with when its meta names none. */
  function DefaultType(side: string): (r: string)
    ensures Side(r) == (if side in {"friendly", "enemy", "neutral"} then side else "unknown")
    ensures |r| == 9 && r[4] == 'G'
    ensures XmlText(r)
  {
    if side == "friendly" then "a-f-G-U-C"
    else if side == "enemy" then "a-h-G-U-C"
    else if side == "neutral" then "a-n-G-U-C"
    else "a-u-G-U-C"
  }

  /** The value `ev.set` receives for `meta.get(key, default)`: the default
      when the key is absent, the string when it holds one, and `None` when
      it holds anything else (`ev.set` then raises `TypeError`). */
  function MetaString(m: Meta, key: string, default: string): (r: Option<string>)
    ensures key !in m ==> r == Some(default)
    ensures key in m ==> (r.Some? <==> m[key].Text?)
    ensures key in m && m[key].Text? ==> r == Some(m[key].text)
  {
    if key !in m then Some(default)
    else match m[key]
      case Text(s) => Some(s)
      case _ => None
  }

  /** The `<event>` `_push_local_tracks` builds for one local track, or
      `None` when building it raises: when `ev.set` is handed a uid, type or
      callsign that is not a string or not XML text. `ts` and `staleTs` are
      the formatted send time and stale time. */
  function PushElement(t: TrackRecord, ts: string, staleTs: string): (r: Option<Element>)
    ensures r.Some? <==>
      XmlText(t.uid) &&
      Settable(MetaString(t.meta, "cot_type", DefaultType(t.side))) &&
      Settable(MetaString(t.meta, "callsign", t.uid))
    ensures r.Some? ==>
      && r.value.uid == Some(t.uid)
      && r.value.cotType == MetaString(t.meta, "cot_type", DefaultType(t.side))
      && r.value.contact == Some(Contact(MetaString(t.meta, "callsign", t.uid)))
      && r.value.point.Some? && r.value.point.value.lat == Some(t.lat) && r.value.point.value.lon == Some(t.lon)
      && r.value.time == Some(ts) && r.value.start == Some(ts) && r.value.stale == Some(staleTs)
  {
    var ty := MetaString(t.meta, "cot_type", DefaultType(t.side));
    var cs := MetaString(t.meta, "callsign", t.uid);
    if !XmlText(t.uid) || !Settable(ty) || !Settable(cs) then None
    else Some(Element(
      Some("2.0"), Some(t.uid), None, ty, Some("m-g"),
      Some(ts), Some(ts), Some(staleTs),
      Some(Point(Some(t.lat), Some(t.lon), Some("0"), Some("25"), Some("25"))),
      Some(Contact(cs)), None, None))
  }

  /** A local track whose meta names no type and no callsign can be pushed
      exactly when its uid is XML text, and then goes out with its side's
      default type and its uid as callsign. */
  lemma PushElementDefaults(t: TrackRecord, ts: string, staleTs: string)
    requires "cot_type" !in t.meta && "callsign" !in t.meta
    ensures PushElement(t, ts, staleTs).Some? <==> XmlText(t.uid)
    ensures PushElement(t, ts, staleTs).Some? ==>
      PushElement(t, ts, staleTs).value.cotType == Some(DefaultType(t.side)) &&
      PushElement(t, ts, staleTs).value.contact == Some(Contact(Some(t.uid)))
  {
  }

  /** The self-SA heartbeat `_send_self_sa` builds for the bridge's own
      callsign, with formatted send and stale times. */
  function SelfSa(callsign: string, ts: string, staleTs: string): Element {
    Element(
      Some("2.0"), Some(callsign), None, Some("a-f-G-U-C"), Some("h-g-i-g-o"),
      Some(ts), Some(ts), Some(staleTs),
      Some(Point(Some(0.0), Some(0.0), Some("0"), Some("9999999"), Some("9999999"))),
      Some(Contact(Some(callsign))),
      Some(Group("Cyan", "HQ")),
      Some(Takv("COP-Lite", "1.0.0", "server", "Tactical COP Lite")))
  }

  /** The events one push hands to `sendall`, in list order, and whether the
      push reaches the end of the list (`false` when building an event
      raises part way). */
  datatype Plan = Plan(elements: seq<Element>, complete: bool)

  /** What `_push_local_tracks` sends for a list of tracks when every
      `sendall` succeeds: echo tracks are skipped, the others are encoded in
      order until one cannot be. */
  function Outbound(tracks: seq<TrackRecord>, ts: string, staleTs: string): Plan
    decreases |tracks|
  {
    if tracks == [] then Plan([], true)
    else if IsEcho(tracks[0]) then Outbound(tracks[1..], ts, staleTs)
    else match PushElement(tracks[0], ts, staleTs)
      case None => Plan([], false)
      case Some(e) =>
        var p := Outbound(tracks[1..], ts, staleTs);
        Plan([e] + p.elements, p.complete)
  }

  /** `Outbound` on the tracks from index `i` on, unfolded by one track. */
  lemma OutboundAt(tracks: seq<TrackRecord>, i: nat, ts: string, staleTs: string)
    requires i < |tracks|
    ensures IsEcho(tracks[i]) ==> Outbound(tracks[i..], ts, staleTs) == Outbound(tracks[i + 1..], ts, staleTs)
    ensures !IsEcho(tracks[i]) && PushElement(tracks[i], ts, staleTs).None? ==>
      Outbound(tracks[i..], ts, staleTs) == Plan([], false)
    ensures !IsEcho(tracks[i]) && PushElement(tracks[i], ts, staleTs).Some? ==>
      Outbound(tracks[i..], ts, staleTs) ==
        Plan([PushElement(tracks[i], ts, staleTs).value] + Outbound(tracks[i + 1..], ts, staleTs).elements,
             Outbound(tracks[i + 1..], ts, staleTs).complete)
  {
    assert tracks[i..][0] == tracks[i] && tracks[i..][1..] == tracks[i + 1..];
  }

  /** The tracks a push looks at once echoes are filtered out, in order. */
  function Local(tracks: seq<TrackRecord>): (r: seq<TrackRecord>)
    ensures |r| <= |tracks|
    ensures forall k :: 0 <= k < |r| ==> !IsEcho(r[k])
    ensures forall x :: x in r <==> x in tracks && !IsEcho(x)
    decreases |tracks|
  {
    if tracks == [] then []
    else if IsEcho(tracks[0]) then Local(tracks[1..])
    else [tracks[0]] + Local(tracks[1..])
  }

  /** A single track is kept exactly when it is not an echo. */
  lemma LocalOne(t: TrackRecord)
    ensures Local([t]) == if IsEcho(t) then [] else [t]
  {
    assert [t][1..] == [];
  }

  /** Filtering keeps list order: the filter of two lists joined is the
      two filters joined. */
  lemma {:induction false} LocalAppend(a: seq<TrackRecord>, b: seq<TrackRecord>)
    ensures Local(a + b) == Local(a) + Local(b)
    decreases |a|
  {
    if a == [] {
      assert a + b == b;
    } else {
      assert (a + b)[0] == a[0] && (a + b)[1..] == a[1..] + b;
      LocalAppend(a[1..], b);
    }
  }

  /** Echo tracks make no difference to a push: it sends exactly what it
      sends for the list without them. */
  lemma {:induction false} OutboundIgnoresEchoes(tracks: seq<TrackRecord>, ts: string, staleTs: string)
    ensures Outbound(tracks, ts, staleTs) == Outbound(Local(tracks), ts, staleTs)
    decreases |tracks|
  {
    if tracks != [] {
      OutboundIgnoresEchoes(tracks[1..], ts, staleTs);
      if !IsEcho(tracks[0]) {
        assert ([tracks[0]] + Local(tracks[1..]))[1..] == Local(tracks[1..]);
      }
    }
  }

  /** Every track of the list can be encoded for the push. */
  predicate Encodable(l: seq<TrackRecord>, ts: string, staleTs: string) {
    forall k :: 0 <= k < |l| ==> PushElement(l[k], ts, staleTs).Some?
  }

  /** A list led by an encodable track is encodable exactly when its tail is. */
  lemma EncodableCons(t: TrackRecord, l: seq<TrackRecord>, ts: string, staleTs: string)
    ensures Encodable([t] + l, ts, staleTs) <==>
      PushElement(t, ts, staleTs).Some? && Encodable(l, ts, staleTs)
  {
    var l' := [t] + l;
    assert l'[0] == t;
    assert forall k :: 0 <= k < |l| ==> l'[k + 1] == l[k];
    if PushElement(t, ts, staleTs).Some? && Encodable(l, ts, staleTs) {
      forall k | 0 <= k < |l'|
        ensures PushElement(l'[k], ts, staleTs).Some?
      {
        if k > 0 {
          assert l'[k] == l[k - 1];
        }
      }
    }
  }

  /** A push reaches the end of the list exactly when every non-echo track
      can be encoded. */
  lemma {:induction false} OutboundCompleteIff(tracks: seq<TrackRecord>, ts: string, staleTs: string)
    ensures Outbound(tracks, ts, staleTs).complete <==> Encodable(Local(tracks), ts, staleTs)
    decreases |tracks|
  {
    if tracks != [] {
      OutboundCompleteIff(tracks[1..], ts, staleTs);
      if !IsEcho(tracks[0]) {
        EncodableCons(tracks[0], Local(tracks[1..]), ts, staleTs);
      }
    }
  }

  /** Every push, complete or cut short, sends the events of the leading
      non-echo tracks, in list order, each the encoding of its track. A
      complete push sends one per non-echo track; one cut short stops just
      before the first non-echo track that cannot be encoded. */
  lemma {:induction false} OutboundEncodesLocal(tracks: seq<TrackRecord>, ts: string, staleTs: string)
    ensures var p, l := Outbound(tracks, ts, staleTs), Local(tracks);
      && |p.elements| <= |l|
      && (forall k :: 0 <= k < |p.elements| ==> PushElement(l[k], ts, staleTs) == Some(p.elements[k]))
      && (p.complete ==> |p.elements| == |l|)
      && (!p.complete ==> |p.elements| < |l| && PushElement(l[|p.elements|], ts, staleTs).None?)
    decreases |tracks|
  {
    if tracks != [] {
      OutboundEncodesLocal(tracks[1..], ts, staleTs);
      if !IsEcho(tracks[0]) {
        var l, l' := Local(tracks), Local(tracks[1..]);
        assert l == [tracks[0]] + l';
        var e := PushElement(tracks[0], ts, staleTs);
        if e.Some? {
          var p := Outbound(tracks[1..], ts, staleTs);
          var es := [e.value] + p.elements;
          assert Outbound(tracks, ts, staleTs) == Plan(es, p.complete);
          forall k | 0 <= k < |es|
            ensures PushElement(l[k], ts, staleTs) == Some(es[k])
          {
            if k > 0 {
              assert l[k] == l'[k - 1] && es[k] == p.elements[k - 1];
            }
          }
          if !p.complete {
            assert l[|es|] == l'[|p.elements|];
          }
        }
      }
    }
  }

  /** A push never sends more events than there are tracks. */
  lemma {:induction false} OutboundBounded(tracks: seq<TrackRecord>, ts: string, staleTs: string)
    ensures |Outbound(tracks, ts, staleTs).elements| <= |Local(tracks)|
    decreases |tracks|
  {
    if tracks != [] {
      OutboundBounded(tracks[1..], ts, staleTs);
    }
  }
}
