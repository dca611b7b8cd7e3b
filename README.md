# TAK bridge and track registry, modelled in Dafny

This project models a small common-operating-picture server. It has two parts:

- `main.py` is the HTTP side. It keeps a SQLite table of tracks keyed by uid. It exposes:
  - `upsert_track` and `list_tracks`;
  - `POST /api/tracks`, which validates side and layer;
  - `POST /ingest/bft`, a batch upsert with no validation;
  - `POST /tak/cot`, which reads one Cursor-on-Target (CoT) `<event>` into the table;
  - `GET /tak/cot/pull`, which writes the whole table out as CoT events.
- `tak_bridge.py` is `TAKBridge`, a client of a TAK Server.
  - `_recv_loop` connects, sends a self-SA heartbeat and reads the server's byte stream, reconnecting with a capped doubling backoff.
  - `_stream_recv` cuts the stream into `<event>…</event>` pieces.
  - `_handle_event` turns each parsed event into an upsert.
  - `_send_loop` sends a heartbeat every 15 seconds and pushes the local tracks every `push_interval` seconds. Tracks that came from the server are never pushed back.

The modules follow the two files:

- **Base**: options, results, octets, sequence search and join.
- **Cot**: the parsed CoT element as a record of optional attributes, meta values, and the upsert and record shapes.
- **Framer**: `_stream_recv`'s buffer framing, as functions on byte sequences.
- **TakCodec**: the bridge's type-prefix tables, `_handle_event`, and the events `_push_local_tracks` and `_send_self_sa` build.
- **Backoff**: the reconnect delays.
- **TakBridge**: class `Bridge`, with the fields of `TAKBridge` and one method per operation. Each method is proved against a specification function: `Stream`, `Outbound`, `TickSpec`/`SendRun` or `Replay`.
- **Registry**: class `TrackStore`, a map from uid to row plus the scan order; `api_upsert`; `ingest_bft`.
- **CotEndpoints**: `ingest_cot` and `pull_cot`, with `main.py`'s own tables. These differ from the bridge's: there is no neutral, the air dimension is read from the `a-f-A`/`a-h-A` prefixes, and the fallback type is `b-m-p-s-m`.
- **Interop**: how the two files read each other's events.

What the model stands in for:

- **XML parsing** is an injected function. The bridge's parser returns `Option<Element>`; `None` stands for `XMLSyntaxError`. The server's parser returns `Result<Element, string>` carrying the parser's message.
- **Serialisation** is an injected function as well. Building an event is modelled, including lxml's refusal (`ValueError`) of an attribute value that is not XML 1.0 text, such as a uid holding a NUL or control character.
- **Coordinates** are `Option<real>`: the number `float()` reads, or `None` where it raises.
- **Clocks** are integers passed in. Date formatting is an injected `zulu` function, or formatted strings passed in.
- **`recv`** is a sequence of `Recv` results.
- **`sendall`** is the number of calls that succeed before one raises.
- **A whole run of `_recv_loop`** is a sequence of `Attempt`s. The bridge being stopped is the read sequence running out.

Facts about the code that shape the model:

- **Framing:** the read loop cuts events at the first `</event>` in its buffer. It does not track XML nesting.
- **Heartbeat timing:** the self-SA heartbeat has its own 15-second timer, apart from the push timer.
- **Missing type:** an event without a `type` attribute is read as type `""`, whose side is unknown.
- **Validation:** `api_upsert` checks only side and layer. It does not check uid or coordinates.
- **Bridge state:** the code keeps only the `_running` and `_connected` flags.
- **Timestamps:** `updated_at` is always the server's clock at the write, and nothing in the code reads it back to classify a track.
- **No shared code:** the two files share no code. `main.py` has its own uid, side, layer and symbol-code rules, so `CotEndpoints` does not import `TakCodec`. What both use comes from Python and lxml, or is the MIL-STD-2525C symbol-code layout, and lives in `Base` and `Cot`: truthiness of an attribute, `root.get("type", "")`, and the `Sidc` layout.

## Model

| member | source | states |
|---|---|---|
| Framer.Frames | tak_bridge.py:197-200 | defines the inner loop: the pieces cut at the buffer's successive first `</event>`, and the buffer left once none remains |
| Framer.Emitted | tak_bridge.py:202-205 | defines what the cut pieces hand to the parser: each piece's trimmed event in order, a piece without `<event` giving none |
| Framer.Step | tak_bridge.py:189-205 | defines one non-empty chunk: append it, empty an oversized buffer releasing nothing, or cut the complete events off it |
| Framer.Stream | tak_bridge.py:177-205 | defines a run of reads from a buffer: the steps of the data chunks up to the first read that raises or returns nothing, and how the run ends |
| Framer.EndOf | tak_bridge.py:180-187 | defines how a run of reads ends, from the reads alone |
| Framer.FramesLossless | tak_bridge.py:197-200 | the pieces the inner `while END_TAG in buf` loop cuts, followed by the buffer it leaves, are exactly the buffer it started with |
| Framer.FramesRestHasNoEndTag | tak_bridge.py:197-200 | after the inner loop the buffer holds no `</event>` |
| Framer.FramesPiecesAreFrames | tak_bridge.py:197-200 | every cut piece ends with `</event>` and holds no earlier `</event>`, i.e. it ends at the first `</event>` of the buffer it was cut from |
| Framer.FramesSplit | tak_bridge.py:189-200 | cutting `x + z` gives the pieces of `x` followed by the pieces of what `x` leaves plus `z`, and the same remaining buffer |
| Framer.Trim | tak_bridge.py:202-205 | a piece with no `<event` is dropped (exactly then); otherwise the result is the suffix starting at the first `<event` |
| Framer.TrimmedFrame | tak_bridge.py:202-205 | a trimmed piece starts with `<event` and still ends at its only `</event>` |
| Framer.EmittedAreEvents | tak_bridge.py:197-208 | every event handed to the parser from cut pieces starts with `<event` and ends at its only `</event>` |
| Framer.StepBuffer | tak_bridge.py:189-200 | after a chunk the buffer is at most `MAX_BUF` (2^20) bytes and holds no `</event>`; a buffer that grows past `MAX_BUF` is emptied and releases nothing, even when it held whole events; otherwise the step is the framing of `buf + chunk` |
| Framer.StepEventsAreEvents | tak_bridge.py:189-208 | every event one chunk releases starts with `<event` and ends at its only `</event>` |
| Framer.StepSplit | tak_bridge.py:189-200 | below the size limit, receiving a chunk in two parts releases the same events and leaves the same buffer as receiving it whole |
| Framer.StreamEnds | tak_bridge.py:180-187 | the stream ends at the first read that raises (`Raised`) or returns no data (`PeerClosed`), or `Stopped` when the reads run out, whatever the data and the buffer |
| Framer.StreamEventsAreEvents | tak_bridge.py:177-208 | every event `_stream_recv` hands to the parser over a run of reads starts with `<event` and ends at its only `</event>` |
| Cot.XmlText | tak_bridge.py:377-392 | defines the strings lxml's `set` accepts as attribute values: the characters of section 2.2 of XML 1.0; every other string makes it raise `ValueError` |
| Cot.Sidc | tak_bridge.py:246 | the symbol code is 15 characters, `S`, the affiliation and the dimension letters first |
| TakCodec.Layer | tak_bridge.py:236-241 | the layer is friendly iff the side is, enemy iff the side is, other for every other side |
| TakCodec.Aff | tak_bridge.py:244 | the affiliation letter is F, H or N exactly for friendly, enemy and neutral, and U for every other side |
| TakCodec.Dim | tak_bridge.py:245 | defines the dimension letter: `A` when the type is longer than 4 with `A` at index 4, else `G` |
| TakCodec.InboundMeta | tak_bridge.py:263-272 | defines the eight-key meta of an inbound track: type, the four timing attributes (null when missing), SIDC, callsign and source `tak_server` |
| TakCodec.IsEcho | tak_bridge.py:363 | defines an echo: a track whose meta's `source` is `tak_server` |
| TakCodec.SelfSa | tak_bridge.py:314-342 | defines the heartbeat: own callsign as uid and contact, type `a-f-G-U-C`, how `h-g-i-g-o`, point 0,0 with the 9999999 error bounds, group Cyan/HQ and the `takv` fields |
| TakCodec.Outbound | tak_bridge.py:361-397 | defines what a push sends when every `sendall` succeeds: echoes skipped, the other tracks' events in order, stopping at the first track whose event cannot be built |
| TakCodec.EventUid | tak_bridge.py:218-220 | the uid is `uid` when non-empty, else `id` when non-empty, and absent exactly when both are missing or empty |
| TakCodec.Side | tak_bridge.py:225-234 | friendly iff the type starts `a-f`, enemy iff `a-h`, neutral iff `a-n`, unknown iff none of them |
| TakCodec.LayerOfType | tak_bridge.py:236-241 | the layer is friendly iff the type starts `a-f`, enemy iff `a-h`, other otherwise |
| TakCodec.SidcOfType | tak_bridge.py:244-246 | the SIDC of a type has 15 characters, affiliation F/H/N/U iff the type's prefix is `a-f`/`a-h`/`a-n`/none, and dimension `A` iff the type is longer than 4 with `A` at index 4, else `G` |
| TakCodec.ContactCallsign | tak_bridge.py:258-261 | the contact callsign is used exactly when a `<contact>` with a non-empty callsign is present |
| TakCodec.HandleEvent | tak_bridge.py:217-275 | no upsert exactly when uid and id are both missing or empty, the uid is the bridge's own callsign, there is no point, or a coordinate cannot be read; otherwise the upsert has the event's uid, the side and layer of the type prefix, the point's coordinates, and meta with exactly the eight keys, the callsign of the contact (else the uid), the SIDC and source `tak_server`; the meta is exactly `InboundMeta` of the event and that callsign |
| TakCodec.DefaultType | tak_bridge.py:366-374 | the default push type is read back as the track's side for friendly, enemy and neutral, and as unknown for every other side; it is a 9-character ground type |
| TakCodec.MetaString | tak_bridge.py:379-394 | `meta.get(key, default)` yields the default for a missing key, the string for a string value, and a failure (the `TypeError` of `ev.set`) for any other value |
| TakCodec.PushElement | tak_bridge.py:376-394 | a track's event can be built exactly when its uid, its meta's `cot_type` (else the side's default type) and its meta's `callsign` (else the uid) are strings lxml accepts, i.e. XML 1.0 text with no NUL or other control character; the event then carries the track's uid, meta's `cot_type` (else the side's default type), meta's `callsign` (else the uid) as contact callsign, the track's lat and lon, and the given send and stale times |
| TakCodec.PushElementDefaults | tak_bridge.py:366-394 | a track whose meta names no type and no callsign can be built exactly when its uid is XML text, and then has its side's default type and its uid as contact callsign |
| TakCodec.Local | tak_bridge.py:361-364 | a track is kept exactly when it is in the list and not tagged `source: tak_server` |
| TakCodec.LocalOne | tak_bridge.py:362-364 | a single track is kept exactly when it is not an echo |
| TakCodec.LocalAppend | tak_bridge.py:361-364 | the filter keeps list order: filtering two joined lists is joining their filters |
| TakCodec.OutboundIgnoresEchoes | tak_bridge.py:361-364 | a push sends exactly what it would send for the list with the server's tracks removed |
| TakCodec.OutboundCompleteIff | tak_bridge.py:361-397 | a push reaches the end of the list exactly when every non-echo track can be built |
| TakCodec.OutboundEncodesLocal | tak_bridge.py:361-397 | every push, complete or cut short, sends the events of the leading non-echo tracks in list order, each that track's event; a complete push covers every non-echo track, and one cut short stops right before the first non-echo track whose event cannot be built |
| TakCodec.OutboundBounded | tak_bridge.py:361-397 | a push never sends more events than there are non-echo tracks |
| Backoff.Next | tak_bridge.py:175 | defines `min(backoff * 2, 60)` |
| Backoff.Delays | tak_bridge.py:148-175 | one delay per attempt; `DelayAt` states each |
| Backoff.DelayAt | tak_bridge.py:148-175 | the delay after attempt k is 1 after a connect and after the first attempt, else `min(2 * previous, 60)` |
| Backoff.DelaysPrefix | tak_bridge.py:148-175 | later attempts never change the delays of earlier ones |
| Backoff.DelaysBounded | tak_bridge.py:174-175 | every delay lies in the range 1 to 60 |
| Backoff.DelaysGrowOnFailure | tak_bridge.py:174-175 | the delay never decreases between consecutive failed attempts |
| Backoff.DelaysClosedForm | tak_bridge.py:148-175 | after n failures since the last reset the delay is `min(2^n, 60)` |
| TakBridge.Received | tak_bridge.py:207-211 | defines the growth of `_events_received` over a run of events: one per event that parses |
| TakBridge.Inbound | tak_bridge.py:207-209 | defines the upserts made for a run of events, in order |
| TakBridge.Ran | tak_bridge.py:149-173 | defines the attempts the loop makes: up to and including the first during which the bridge was stopped |
| TakBridge.Sleeps | tak_bridge.py:173-175 | defines the delays slept: one after every attempt but the last |
| TakBridge.UpsertOf | tak_bridge.py:207-209 | an event leads to at most one upsert, and to one exactly when it parses and `_handle_event` accepts it |
| TakBridge.InboundAppend | tak_bridge.py:197-213 | parsing two runs of events counts and upserts what each run does separately |
| TakBridge.ReceivedCounts | tak_bridge.py:207-213 | `_events_received` grows by one per event that parses, even when no upsert follows: never more than the events framed, all of them exactly when all parse, none exactly when none do |
| TakBridge.InboundSound | tak_bridge.py:217-275 | inbound upserts are no more than the parsed events, and each carries source `tak_server` and a uid other than the bridge's callsign |
| TakBridge.SleepsFollowBackoff | tak_bridge.py:148-175 | the loop sleeps once between consecutive attempts, 1 to 60 seconds, 1 after a connect, and otherwise `min(2 * previous, 60)`, never less than the previous delay |
| TakBridge.Bridge.constructor | tak_bridge.py:32-68 | the configuration is kept; the bridge is not running, not connected, has no socket, no last connect or error, and all counters are 0 |
| TakBridge.Bridge.Start | tak_bridge.py:72-84 | afterwards the bridge runs; a second call changes nothing |
| TakBridge.Bridge.CloseSocket | tak_bridge.py:131-143 | afterwards the bridge is not connected and holds no socket, and nothing else changes |
| TakBridge.Bridge.Stop | tak_bridge.py:86-93 | afterwards the bridge is not running, not connected and holds no socket |
| TakBridge.Bridge.GetStatus | tak_bridge.py:95-108 | the status reports the fields and counters as they are; a connected bridge always reports a last-connect time |
| TakBridge.Bridge.Consume | tak_bridge.py:207-213 | one trimmed event raises `_events_received` by one iff it parses, and calls `upsert_fn` (when given) with exactly its upsert |
| TakBridge.Bridge.CutEvents | tak_bridge.py:197-213 | the inner loop leaves the framing's remaining buffer and counts and dispatches exactly the events released from the cut pieces, in order |
| TakBridge.Bridge.Absorb | tak_bridge.py:189-213 | one non-empty chunk leaves the buffer of `Framer.Step` and counts and dispatches exactly its events |
| TakBridge.Bridge.StreamRecv | tak_bridge.py:177-213 | the read loop ends as `EndOf` says, and counts and dispatches exactly the events the framing releases over the whole stream, in stream order |
| TakBridge.Bridge.HeartbeatAt | tak_bridge.py:310-321 | defines the heartbeat at a wall-clock second: sent at that second, stale 30 seconds later |
| TakBridge.Bridge.PushPlan | tak_bridge.py:355-358 | defines a push at a wall-clock second: sent at that second, stale `push_interval + 15` seconds later; when `list_fn` raises (line 351) nothing is sent and the push is interrupted; an empty list is a complete push of nothing |
| TakBridge.Bridge.LeftAfterSa | tak_bridge.py:293-298 | defines the `sendall` calls left for the push: all of them when no self-SA is due, one fewer after a successful one, none after a failed one |
| TakBridge.Bridge.SendRun | tak_bridge.py:282-305 | defines a run of send-loop iterations as successive `TickSpec` steps |
| TakBridge.Bridge.SendSelfSa | tak_bridge.py:309-344 | the heartbeat (own callsign, `a-f-G-U-C`, stale after 30 seconds) is appended to what was sent exactly when `sendall` succeeds |
| TakBridge.Bridge.PushLocalTracks | tak_bridge.py:348-401 | without `list_fn` or with no tracks nothing is sent and the push succeeds; when `list_fn` raises nothing is sent and the push fails; otherwise the first `accepts` events of the push plan go out in order, the push succeeds iff the plan is complete and fits, and `_events_sent` grows by the number sent only on success |
| TakBridge.Bridge.TickSpec | tak_bridge.py:282-305 | an iteration without a connected socket sends nothing and keeps both timers; the self-SA goes out iff it is due and `sendall` succeeds; a push succeeds only when due, and never when `list_fn` raises; each timer moves to `now` exactly when its send succeeded |
| TakBridge.Bridge.SelfSaPhase | tak_bridge.py:293-298 | a due self-SA whose `sendall` succeeds is sent and moves `last_sa`; a failed one leaves the socket with no successful sends |
| TakBridge.Bridge.Tick | tak_bridge.py:283-305 | one iteration sends, counts and moves the timers as `TickSpec` says |
| TakBridge.Bridge.SendLoop | tak_bridge.py:279-305 | a bridge that is not running sends nothing; otherwise the loop sends and counts what `SendRun` over its iterations says, with both timers starting at 0 |
| TakBridge.Bridge.SendRunSilent | tak_bridge.py:285-289 | while no connected socket is seen, nothing is sent, counted or timed |
| TakBridge.Bridge.SendRunSaSpaced | tak_bridge.py:293-298 | successful self-SAs are at least 15 seconds apart, the first at least 15 seconds after the starting timer |
| TakBridge.Bridge.SendRunPushSpaced | tak_bridge.py:300-305 | successful pushes are at least `push_interval` seconds apart, the first at least `push_interval` after the starting timer |
| TakBridge.Bridge.Replay | tak_bridge.py:149-175 | defines the state after a run of attempts as successive `AfterSession` steps |
| TakBridge.Bridge.AfterSession | tak_bridge.py:150-172 | an attempt raises `_reconnect_count` by one exactly when it ends in an exception; the last error becomes that exception's message (the refusal, the self-SA error or the read error) and is kept otherwise; an opened connection sets the last-connect time to its wall-clock second, a refused one keeps it; exactly the heartbeat for that second is sent when the connection opened and the self-SA did not raise; `_events_received` grows by the events of that connection's stream that parse |
| TakBridge.Bridge.ReplayReconnects | tak_bridge.py:162-166 | over a run of attempts `_reconnect_count` grows by exactly the number of exceptions caught |
| TakBridge.Bridge.ReplayUpserts | tak_bridge.py:149-173 | a run of attempts keeps every earlier upsert, and each upsert it adds carries source `tak_server` and a uid other than the bridge's callsign |
| TakBridge.Bridge.RecordError | tak_bridge.py:162-166 | the except branch clears `connected`, keeps the message as the last error and adds one to `_reconnect_count` |
| TakBridge.Bridge.Connect | tak_bridge.py:151-155 | after a connect the bridge holds a socket, is connected, has recorded the connect time and keeps its invariant, so `status()` can report `connected` |
| TakBridge.Bridge.ConnectOnce | tak_bridge.py:150-172 | one pass of the loop body changes the tally as `AfterSession` says and ends with the socket closed |
| TakBridge.Bridge.RecvLoop | tak_bridge.py:147-175 | a bridge that is not running changes nothing; otherwise the attempts up to the one during which the bridge was stopped are made, the final state is their `Replay`, the sleeps between them follow the backoff, and the socket is closed at the end; with no attempts the connection flags stay as they were; the connection invariant `Valid` is kept |
| Registry.RowOf | main.py:49-58 | defines the row a write stores: every column from the write, `updated_at` from the server clock |
| Registry.ApplyAll | main.py:48-58 | defines a run of upserts applied in order, each at its own server time |
| Registry.Listing | main.py:66-79 | one record per listed uid, in that order; `ListingAt` states each |
| Registry.StoredMeta | main.py:58 | a null meta is stored as an empty map, any other as it is |
| Registry.Upserted | main.py:45-61 | an upsert keeps the table keyed by uid, replaces every column of the uid's row with the write and the server's time, appends a new uid to the scan order and never duplicates an existing one |
| Registry.ApplyAllValid | main.py:31-32 | any run of writes keeps one row per uid in the scan order |
| Registry.ApplyAllKeys | main.py:48-58 | after a run of writes a uid is stored exactly when it was before or some write names it |
| Registry.ApplyAllLastWins | main.py:51-58 | the last write of a uid decides its whole row, stamped with that write's server time |
| Registry.ApplyAllUntouched | main.py:48-58 | a uid no write names keeps its row, or stays absent |
| Registry.OnePerUid | main.py:63-81 | `list_tracks` returns one record per stored uid, with no uid twice, each with that uid's current row |
| Registry.TrackStore.constructor | main.py:27-43 | `CREATE TABLE IF NOT EXISTS` on the database file keeps the table the file already holds (empty for a new file) |
| Registry.TrackStore.Upsert | main.py:45-61 | the table afterwards is `Upserted` of the table before |
| Registry.TrackStore.ListTracks | main.py:63-81 | the records are the rows in scan order |
| Registry.Invalid | main.py:116-119 | a track is accepted exactly when its side is one of the four sides and its layer one of the six layers; the side is checked first, giving "Invalid side", then "Invalid layer" |
| Registry.ApiUpsert | main.py:113-121 | an invalid track gets a 400 with that detail and leaves the table alone; a valid one is upserted once at server time |
| Registry.IngestBft | main.py:123-127 | every track of the batch is upserted in batch order without validation, and the count is the batch length |
| CotEndpoints.FallbackUid | main.py:136 | defines `COT-` followed by the decimal seconds |
| CotEndpoints.MainAff | main.py:142 | the affiliation letter is F iff friendly, H iff enemy, U otherwise |
| CotEndpoints.IngestMeta | main.py:150 | defines the six-key meta `ingest_cot` stores: type, the four timing attributes (null when missing) and SIDC |
| CotEndpoints.PullElement | main.py:163-177 | the event can be built exactly when the track's uid is XML text; it then carries the uid, the export type of the side, how `m-g`, the request time and stale time, the point with zero height and 25 m error bounds, and no detail |
| Base.Join | main.py:179 | defines `sep.join(parts)` |
| CotEndpoints.NatToDecimal | main.py:136 | the decimal text of a whole number is non-empty, all digits, with no leading zero |
| CotEndpoints.DecimalRoundTrip | main.py:136 | reading the decimal text back gives the number |
| CotEndpoints.FallbackUidsDiffer | main.py:136 | events without uid and id received in different seconds get different fallback uids |
| CotEndpoints.IngestUid | main.py:136 | the uid is `uid`, then `id` (each when non-empty), then `COT-<seconds>`, and never empty |
| CotEndpoints.MainSide | main.py:138 | friendly iff the type starts `a-f`, enemy iff `a-h`, otherwise unknown (no neutral) |
| CotEndpoints.MainDim | main.py:143 | the dimension is `A` iff the type starts `a-f-A` or `a-h-A`, else `G` |
| CotEndpoints.MainLayer | main.py:140 | the layer is friendly iff the side is, enemy iff the side is, other for every other side |
| CotEndpoints.DecodeIngest | main.py:136-152 | an event is accepted exactly when it has a point with readable coordinates; a missing point is the `No point element` fault; an accepted event's write has the uid, side, layer and coordinates above and the six meta keys, with no source tag; the meta is exactly `IngestMeta` of the event |
| CotEndpoints.IngestCot | main.py:131-154 | a body that does not parse, or has no point or an unreadable coordinate, gets a 400 `Invalid CoT: <reason>` and leaves the table alone; otherwise the event is upserted at server time and the reply carries its uid |
| CotEndpoints.PullType | main.py:166 | `ingest_cot` reads the export type of friendly and enemy back as that side, and of every other side as unknown; the type is XML text |
| CotEndpoints.Serialized | main.py:161-178 | one serialised event per track, in list order, exactly when every track's event can be built; otherwise none |
| CotEndpoints.PullCot | main.py:156-180 | the body is the serialised events of the listed tracks, in listing order, separated by one newline; a track whose event cannot be built makes the request fail with FastAPI's 500 reply |
| CotEndpoints.JoinLength | main.py:179 | the joined body is the parts plus one separator between each pair of neighbours |
| CotEndpoints.JoinEmptyIff | main.py:179 | the body is empty exactly when there are no tracks, since serialised events are never empty |
| Interop.PushThenHandle | tak_bridge.py:217-275 | a pushed local track, received by a bridge with another callsign, is stored under its uid and position, with the side of its pushed type, its callsign, and the source tag that stops it being pushed again |
| Interop.SelfSaIgnored | tak_bridge.py:221-223 | the bridge's own heartbeat echoed back is never stored |
| Interop.InboundIsEcho | tak_bridge.py:362-364 | every track learned from the TAK Server is left out of the next push |
| Interop.PullThenIngest | main.py:156-180 | an exported track (one whose event can be built) posted back to `/tak/cot` is read with its uid (when non-empty), its position, and its side when friendly or enemy, otherwise unknown |
| Interop.SideAgreement | main.py:138-140 | the server's side reading agrees with the bridge's except that neutral becomes unknown; the layers always agree |
| Interop.PullTypeReadByBridge | main.py:166 | the bridge reads the type `pull_cot` exports for friendly and enemy as that side, and for every other side as unknown, as the server does |
| Interop.UidAgreement | main.py:136 | the server takes the same uid as the bridge from `uid`, then `id`, and uses `COT-<seconds>` exactly where the bridge finds none |
| Interop.DimAgreement | main.py:143 | where the server reads an air dimension the bridge does too, but not the other way round |

## Left out

- Sockets, TLS and `_connect` (tak_bridge.py:112-129): these are network I/O. An attempt is modelled as `Refused(error)` or `Opened(...)`.
- The `socket.timeout` retry in `_stream_recv` and the 4096-byte read size: a read is a `Recv` value of any length.
- Threads, `threading.Lock`, `join` timeouts, `time.sleep` and daemon lifecycle: these exist for concurrency. The loops run sequentially, and the delays `_recv_loop` would sleep are returned as a sequence.
- The `_running` flag changing while a loop runs (a `stop()` from another thread): this is modelled as the attempts, reads or iterations running out, so the loops never write `running`.
- lxml parsing and serialisation: these are a foreign library. They are injected functions.
- `float()`: coordinates are `Option<real>`. The exception text for an unreadable coordinate is a parameter.
- `datetime` and `strftime`/`isoformat`: clocks are integers passed in, and formatted times come from an injected function or are passed in as strings.
- `lastConnectedAt` and `updated_at` are integers, not ISO strings.
- Stale-time arithmetic: the stale times are whatever the formatter yields for `now + 30` and `now + push_interval + 15`.
- `pull_cot`'s stale time (the request time without microseconds) is taken as given, as a string.
- An exception raised by the `upsert_fn` callback inside `_stream_recv`, or by `upsert_track` inside `ingest_cot`, is not modelled.
- SQLite and JSON: meta is a map of `MetaValue`. `list_tracks` has no `ORDER BY`; its scan order is modelled as first-insertion (rowid) order.
- `init_db` table creation details, FastAPI routing, templates, static files, `GET /api/tracks`, `FrameSource`, OpenCV and MJPEG streaming: these are UI and video I/O.
- CotEndpoints.IngestCot: the detail for an unreadable coordinate is the parameter `coordError`. The model does not tell `float()`'s `TypeError` text for a missing attribute apart from its `ValueError` text for a malformed one.
- TakBridge.Bridge.HeartbeatAt: a bridge callsign lxml rejects (one with a control character) makes every `_send_self_sa` raise before its `sendall`. The model builds the heartbeat from any callsign; the callsign is configuration, not data from the network or the API.
- TakCodec.PushElement / CotEndpoints.PullElement: the send, stale and request times are not checked for XML text. They come from `strftime` and `isoformat`, which print ASCII digits and punctuation only.
- TakBridge.Bridge.PushLocalTracks: when a `sendall` raises part way through a push, the events already sent are not added to `_events_sent`. This is the code as written (lines 396-401 are skipped by the exception), and the contract states it.
- Logging (`log.info`, `log.warning`, `log.debug`) is not modelled.
