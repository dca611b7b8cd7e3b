/** The track table of the HTTP server: `upsert_track` / `list_tracks` over
    the SQLite table `tracks` keyed by `uid`, the validation of
    `POST /api/tracks`, and the batch upsert of `POST /ingest/bft`. The table
    is a map from uid to row plus the order rows were first inserted in,
    which is the order a full scan returns them in. */
module Registry {
  import opened Base
  import opened Cot

  /** The columns of one row besides its key. */
  datatype Row = Row(side: string, layer: string, lat: real, lon: real, updatedAt: int, meta: Meta)

  /** The table: its rows by uid and the uids in insertion order. */
  datatype Table = Table(rows: map<string, Row>, order: seq<string>)

  /** `uid TEXT PRIMARY KEY`: every row appears once in the scan order, and
      the scan order names only rows. */
  ghost predicate TableValid(t: Table) {
    Distinct(t.order) && (forall u :: u in t.rows <==> u in t.order)
  }

  /** `json.dumps(meta or {})`: a missing meta is stored as an empty object. */
  function StoredMeta(m: Option<Meta>): (r: Meta)
    ensures m.None? ==> r == map[]
    ensures m.Some? ==> r == m.value
  {
    m.GetOr(map[])
  }

  /** The row a write stores: every column from the write, except that
      `updated_at` is the server clock at the write. */
  function RowOf(w: TrackWrite, now: int): Row {
    Row(w.side, w.layer, w.lat, w.lon, now, StoredMeta(w.meta))
  }

  /** `INSERT ... ON CONFLICT(uid) DO UPDATE`: a new uid is appended, an
      existing one keeps its place and has every column replaced. */
  function Upserted(t: Table, w: TrackWrite, now: int): (r: Table)
    ensures TableValid(t) ==> TableValid(r)
    ensures r.rows == t.rows[w.uid := RowOf(w, now)]
    ensures w.uid in t.rows ==> r.order == t.order
    ensures w.uid !in t.rows ==> r.order == t.order + [w.uid]
  {
    if w.uid in t.rows then Table(t.rows[w.uid := RowOf(w, now)], t.order)
    else Table(t.rows[w.uid := RowOf(w, now)], t.order + [w.uid])
  }

  /** A run of writes applied in order, each with its own clock reading. */
  function ApplyAll(t: Table, writes: seq<TrackWrite>, stamps: seq<int>): Table
    requires |stamps| == |writes|
    decreases |writes|
  {
    if writes == [] then t
    else
      var m := |writes| - 1;
      Upserted(ApplyAll(t, writes[..m], stamps[..m]), writes[m], stamps[m])
  }

  /** `ApplyAll` over one more write. */
  lemma ApplyAllStep(t: Table, writes: seq<TrackWrite>, stamps: seq<int>, i: nat)
    requires |stamps| == |writes| && i < |writes|
    ensures ApplyAll(t, writes[..i + 1], stamps[..i + 1]) ==
      Upserted(ApplyAll(t, writes[..i], stamps[..i]), writes[i], stamps[i])
  {
    assert writes[..i + 1][..i] == writes[..i] && stamps[..i + 1][..i] == stamps[..i];
  }

  /** Writes keep the table keyed by uid. */
  lemma {:induction false} ApplyAllValid(t: Table, writes: seq<TrackWrite>, stamps: seq<int>)
    requires |stamps| == |writes| && TableValid(t)
    ensures TableValid(ApplyAll(t, writes, stamps))
    decreases |writes|
  {
    if writes != [] {
      var m := |writes| - 1;
      ApplyAllValid(t, writes[..m], stamps[..m]);
    }
  }

  /** After a run of writes the table holds exactly the uids it held before
      and the uids written. */
  lemma {:induction false} ApplyAllKeys(t: Table, writes: seq<TrackWrite>, stamps: seq<int>, u: string)
    requires |stamps| == |writes|
    ensures u in ApplyAll(t, writes, stamps).rows <==>
      u in t.rows || exists j :: 0 <= j < |writes| && writes[j].uid == u
    decreases |writes|
  {
    if writes != [] {
      var m := |writes| - 1;
      ApplyAllKeys(t, writes[..m], stamps[..m], u);
      if exists j :: 0 <= j < |writes| && writes[j].uid == u {
        var j :| 0 <= j < |writes| && writes[j].uid == u;
        if j < m {
          assert writes[..m][j].uid == u;
        }
      }
    }
  }

  /** The last write of a uid decides its row: every column of it, with the
      clock reading of that write. */
  lemma {:induction false} ApplyAllLastWins(t: Table, writes: seq<TrackWrite>, stamps: seq<int>, k: nat)
    requires |stamps| == |writes| && k < |writes|
    requires forall j :: k < j < |writes| ==> writes[j].uid != writes[k].uid
    ensures writes[k].uid in ApplyAll(t, writes, stamps).rows
    ensures ApplyAll(t, writes, stamps).rows[writes[k].uid] == RowOf(writes[k], stamps[k])
    decreases |writes|
  {
    var m := |writes| - 1;
    if k < m {
      forall j | k < j < m
        ensures writes[..m][j].uid != writes[..m][k].uid
      {
      }
      ApplyAllLastWins(t, writes[..m], stamps[..m], k);
    }
  }

  /** A uid no write names keeps its row, or stays absent. */
  lemma {:induction false} ApplyAllUntouched(t: Table, writes: seq<TrackWrite>, stamps: seq<int>, u: string)
    requires |stamps| == |writes|
    requires forall j :: 0 <= j < |writes| ==> writes[j].uid != u
    ensures u in ApplyAll(t, writes, stamps).rows <==> u in t.rows
    ensures u in t.rows ==> ApplyAll(t, writes, stamps).rows[u] == t.rows[u]
    decreases |writes|
  {
    if writes != [] {
      var m := |writes| - 1;
      forall j | 0 <= j < m
        ensures writes[..m][j].uid != u
      {
      }
      ApplyAllUntouched(t, writes[..m], stamps[..m], u);
    }
  }

  /** One `list_tracks()` dictionary. */
  function RecordOf(uid: string, r: Row): TrackRecord {
    TrackRecord(uid, r.side, r.layer, r.lat, r.lon, r.updatedAt, r.meta)
  }

  /** The rows of the given uids, in that order. */
  function Listing(rows: map<string, Row>, uids: seq<string>): (out: seq<TrackRecord>)
    requires forall k :: 0 <= k < |uids| ==> uids[k] in rows
    ensures |out| == |uids|
    decreases |uids|
  {
    if uids == [] then []
    else
      var m := |uids| - 1;
      Listing(rows, uids[..m]) + [RecordOf(uids[m], rows[uids[m]])]
  }

  /** The listing holds the row of each uid at that uid's place. */
  lemma {:induction false} ListingAt(rows: map<string, Row>, uids: seq<string>, k: nat)
    requires forall i :: 0 <= i < |uids| ==> uids[i] in rows
    requires k < |uids|
    ensures Listing(rows, uids)[k] == RecordOf(uids[k], rows[uids[k]])
    decreases |uids|
  {
    var m := |uids| - 1;
    if k < m {
      ListingAt(rows, uids[..m], k);
    }
  }

  /** `list_tracks` returns one record per stored uid, the first-inserted
      first, each carrying that uid's current row. */
  lemma OnePerUid(t: Table)
    requires TableValid(t)
    ensures var out := Listing(t.rows, t.order);
      && |out| == |t.rows.Keys|
      && (forall i, j :: 0 <= i < j < |out| ==> out[i].uid != out[j].uid)
      && (forall k :: 0 <= k < |out| ==> out[k].uid in t.rows && out[k] == RecordOf(out[k].uid, t.rows[out[k].uid]))
      && (forall u :: u in t.rows ==> exists k :: 0 <= k < |out| && out[k].uid == u)
  {
    var out := Listing(t.rows, t.order);
    forall k | 0 <= k < |out|
      ensures out[k] == RecordOf(t.order[k], t.rows[t.order[k]])
    {
      ListingAt(t.rows, t.order, k);
    }
    DistinctCard(t.order, t.rows.Keys);
  }

  /** A sequence without repeats that enumerates a set is as long as it. */
  lemma {:induction false} DistinctCard(s: seq<string>, keys: set<string>)
    requires Distinct(s) && (forall u :: u in keys <==> u in s)
    ensures |s| == |keys|
    decreases |s|
  {
    if s == [] {
      assert keys == {};
    } else {
      var m := |s| - 1;
      var init := s[..m];
      assert forall u :: u in init ==> u in s;
      assert s == init + [s[m]];
      assert s[m] !in init;
      DistinctCard(init, keys - {s[m]});
    }
  }

  /** The SQLite table. */
  class TrackStore {
    var rows: map<string, Row>
    var order: seq<string>

    function Contents(): Table
      reads this
    {
      Table(rows, order)
    }

    ghost predicate Valid()
      reads this
    {
      TableValid(Contents())
    }

    /** `init_db` on the database file: `CREATE TABLE IF NOT EXISTS` keeps
        the table `start` the file already holds (the empty table for a new
        file). */
    constructor(start: Table)
      requires TableValid(start)
      ensures Valid() && Contents() == start
    {
      rows := start.rows;
      order := start.order;
    }

    /** `upsert_track(uid, side, layer, lat, lon, meta)` at server time `now`. */
    method Upsert(w: TrackWrite, now: int)
      requires Valid()
      modifies this
      ensures Valid()
      ensures Contents() == Upserted(old(Contents()), w, now)
    {
      if w.uid !in rows {
        order := order + [w.uid];
      }
      rows := rows[w.uid := RowOf(w, now)];
    }

    /** `list_tracks()`: every row, in scan order. */
    method ListTracks() returns (out: seq<TrackRecord>)
      requires Valid()
      ensures out == Listing(rows, order)
    {
      out := [];
      var i := 0;
      while i < |order|
        invariant 0 <= i <= |order|
        invariant out == Listing(rows, order[..i])
      {
        assert order[..i + 1][..i] == order[..i];
        out := out + [RecordOf(order[i], rows[order[i]])];
        i := i + 1;
      }
      assert order[..i] == order;
    }
  }

  /** The body of `POST /api/tracks` and of each entry of `POST /ingest/bft`. */
  datatype TrackIn = TrackIn(uid: string, side: string, layer: string, lat: real, lon: real, meta: Meta)

  function WriteOf(t: TrackIn): TrackWrite {
    TrackWrite(t.uid, t.side, t.layer, t.lat, t.lon, Some(t.meta))
  }

  const SIDES: set<string> := {"friendly", "enemy", "neutral", "unknown"}

  const LAYERS: set<string> := {"friendly", "enemy", "fires", "air", "ew", "other"}

  /** An HTTP reply: the JSON result, or an `HTTPException`. */
  datatype Reply<T> = Reply(body: T) | HttpError(status: int, detail: string)

  /** The checks of `api_upsert`, side first: the detail of the 400 reply,
      or `None` when the track is accepted. */
  function Invalid(t: TrackIn): (r: Option<string>)
    ensures r.None? <==> t.side in SIDES && t.layer in LAYERS
    ensures t.side !in SIDES ==> r == Some("Invalid side")
    ensures t.side in SIDES && t.layer !in LAYERS ==> r == Some("Invalid layer")
  {
    if t.side !in SIDES then Some("Invalid side")
    else if t.layer !in LAYERS then Some("Invalid layer")
    else None
  }

  /** `api_upsert`: a valid track is upserted at server time `now` and the
      reply carries the clock reading `replyAt` taken after the write; an
      invalid one is refused with 400 and the table is left alone. */
  method ApiUpsert(store: TrackStore, t: TrackIn, now: int, replyAt: int) returns (r: Reply<int>)
    requires store.Valid()
    modifies store
    ensures store.Valid()
    ensures Invalid(t).Some? ==>
      r == HttpError(400, Invalid(t).value) && store.Contents() == old(store.Contents())
    ensures Invalid(t).None? ==>
      r == Reply(replyAt) && store.Contents() == Upserted(old(store.Contents()), WriteOf(t), now)
  {
    var bad := Invalid(t);
    if bad.Some? {
      return HttpError(400, bad.value);
    }
    store.Upsert(WriteOf(t), now);
    return Reply(replyAt);
  }

  function WritesOf(batch: seq<TrackIn>): (ws: seq<TrackWrite>)
    ensures |ws| == |batch|
    ensures forall k :: 0 <= k < |batch| ==> ws[k] == WriteOf(batch[k])
  {
    seq(|batch|, k requires 0 <= k < |batch| => WriteOf(batch[k]))
  }

  /** `ingest_bft`: every track of the batch upserted in order, without
      validation, the k-th at server time `stamps[k]`; the reply counts the
      batch. */
  method IngestBft(store: TrackStore, batch: seq<TrackIn>, stamps: seq<int>) returns (count: nat)
    requires store.Valid() && |stamps| == |batch|
    modifies store
    ensures store.Valid()
    ensures count == |batch|
    ensures store.Contents() == ApplyAll(old(store.Contents()), WritesOf(batch), stamps)
  {
    var ws := WritesOf(batch);
    var i := 0;
    while i < |batch|
      invariant 0 <= i <= |batch|
      invariant store.Valid()
      invariant store.Contents() == ApplyAll(old(store.Contents()), ws[..i], stamps[..i])
    {
      ApplyAllStep(old(store.Contents()), ws, stamps, i);
      store.Upsert(ws[i], stamps[i]);
      i := i + 1;
    }
    assert ws[..i] == ws && stamps[..i] == stamps;
    return |batch|;
  }
}
