/** How the two halves of the system read each other's events: what a TAK
    peer running the bridge's inbound table makes of the events the bridge
    and the HTTP pull export, and where the bridge's and the server's
    readings of one CoT type agree. */
module Interop {
  import opened Base
  import opened Cot
  import opened TakCodec
  import opened Registry
  import opened CotEndpoints

  /** A local track pushed by one bridge and received by a bridge with a
      different callsign is stored under the same uid and position, with
      the side of the type it was pushed with (the default type of its own
      side when its meta names none), its callsign, and the server's source
      tag, so the receiver never pushes it back. */
  lemma PushThenHandle(t: TrackRecord, ts: string, staleTs: string, other: string)
    requires PushElement(t, ts, staleTs).Some?
    requires t.uid != "" && t.uid != other
    ensures HandleEvent(other, PushElement(t, ts, staleTs).value).Some?
    ensures var w := HandleEvent(other, PushElement(t, ts, staleTs).value).value;
      var cs := MetaString(t.meta, "callsign", t.uid).value;
      && w.uid == t.uid && w.lat == t.lat && w.lon == t.lon
      && w.side == Side(MetaString(t.meta, "cot_type", DefaultType(t.side)).value)
      && ("cot_type" !in t.meta ==>
            w.side == if t.side in {"friendly", "enemy", "neutral"} then t.side else "unknown")
      && w.meta.value["callsign"] == Text(if cs != "" then cs else t.uid)
      && IsEcho(RecordOf(w.uid, RowOf(w, 0)))
  {
    var e := PushElement(t, ts, staleTs).value;
    assert EventUid(e) == Some(t.uid);
  }

  /** The bridge's own heartbeat, echoed back by the TAK Server, is never
      stored. */
  lemma SelfSaIgnored(callsign: string, ts: string, staleTs: string)
    ensures HandleEvent(callsign, SelfSa(callsign, ts, staleTs)).None?
  {
    var e := SelfSa(callsign, ts, staleTs);
    assert callsign != "" ==> EventUid(e) == Some(callsign);
  }

  /** Every track learned from the TAK Server is stored as an echo, whatever
      the clock, so the next push leaves it out. */
  lemma InboundIsEcho(own: string, root: Element, now: int, tracks: seq<TrackRecord>)
    requires HandleEvent(own, root).Some?
    ensures var w := HandleEvent(own, root).value;
      && IsEcho(RecordOf(w.uid, RowOf(w, now)))
      && RecordOf(w.uid, RowOf(w, now)) !in Local(tracks)
  {
  }

  /** A track exported by `pull_cot` and posted back to `/tak/cot` is read
      with its uid (when it has one) and position, and with its side when it
      is friendly or enemy; every other side comes back unknown. */
  lemma PullThenIngest(t: TrackRecord, ts: string, staleTs: string, nowSec: nat)
    requires PullElement(t, ts, staleTs).Some?
    ensures DecodeIngest(PullElement(t, ts, staleTs).value, nowSec).Ok?
    ensures var w := DecodeIngest(PullElement(t, ts, staleTs).value, nowSec).value;
      && (t.uid != "" ==> w.uid == t.uid)
      && (t.uid == "" ==> w.uid == FallbackUid(nowSec))
      && w.lat == t.lat && w.lon == t.lon
      && w.side == (if t.side in {"friendly", "enemy"} then t.side else "unknown")
      && w.layer == MainLayer(w.side)
  {
  }

  /** The two readings of a CoT type's side agree except on the neutral
      prefix, which only the bridge recognises. */
  lemma SideAgreement(t: string)
    ensures MainSide(t) == (if Side(t) == "neutral" then "unknown" else Side(t))
    ensures MainLayer(MainSide(t)) == Layer(Side(t))
  {
  }

  /** The bridge reads the type `pull_cot` exports for a side back as that
      side when it is friendly or enemy, and as unknown otherwise, just as
      the server does. */
  lemma PullTypeReadByBridge(side: string)
    ensures Side(PullType(side)) == (if side in {"friendly", "enemy"} then side else "unknown")
    ensures Side(PullType(side)) == MainSide(PullType(side))
  {
  }

  /** Both files take an event's uid from `uid`, then `id`; only the server
      falls back to a uid of its own when the event names none. */
  lemma UidAgreement(root: Element, nowSec: nat)
    ensures EventUid(root).Some? ==> IngestUid(root, nowSec) == EventUid(root).value
    ensures EventUid(root).None? ==> IngestUid(root, nowSec) == FallbackUid(nowSec)
  {
  }

  /** Where the server reads an air dimension, so does the bridge; the
      bridge also reads one for every other affiliation (a neutral air
      type, say), where the server reads ground. */
  lemma DimAgreement(t: string)
    ensures MainDim(t) == 'A' ==> Dim(t) == 'A'
    ensures exists u: string :: MainDim(u) == 'G' && Dim(u) == 'A'
  {
    if "a-f-A" <= t {
      assert t[4] == 'A';
    }
    if "a-h-A" <= t {
      assert t[4] == 'A';
    }
    var u := "a-n-A";
    assert u[2] == 'n' && "a-f-A"[2] == 'f' && "a-h-A"[2] == 'h';
    assert MainDim(u) == 'G' && Dim(u) == 'A';
  }
}
