/** The records both core files exchange: a parsed CoT element, the meta
    dictionary of a track, the arguments of an upsert and a stored track. */
module Cot {
  import opened Base

  /** The `<point>` element. `lat` and `lon` stand for the number Python's
      `float()` reads from the attribute; `None` when the attribute is
      missing or `float()` rejects it. */
  datatype Point = Point(
    lat: Option<real>, lon: Option<real>,
    hae: Option<string>, ce: Option<string>, le: Option<string>)

  /** `<detail><contact callsign=".."/>`. */
  datatype Contact = Contact(callsign: Option<string>)

  /** `<detail><__group name=".." role=".."/>`. */
  datatype Group = Group(name: string, role: string)

  /** `<detail><takv os=".." version=".." device=".." platform=".."/>`. */
  datatype Takv = Takv(os: string, version: string, device: string, platform: string)

  /** A CoT `<event>` as the XML library presents it: every attribute of the
      root element is optional, and `point` and `contact` are the first
      `.//point` and `.//detail/contact` descendants, if any. */
  datatype Element = Element(
    version: Option<string>,
    uid: Option<string>,
    id: Option<string>,
    cotType: Option<string>,
    how: Option<string>,
    time: Option<string>,
    start: Option<string>,
    stale: Option<string>,
    point: Option<Point>,
    contact: Option<Contact>,
    group: Option<Group>,
    takv: Option<Takv>)

  /** `root.get("type", "")`: the element's type, empty when it has none. */
  function CotType(root: Element): string {
    root.cotType.GetOr("")
  }

  /** A character lxml accepts in an attribute value: a `Char` of section
      2.2 of the XML 1.0 recommendation, i.e. tab, newline, carriage return
      or any scalar value from U+0020 on except U+FFFE and U+FFFF. */
  predicate XmlChar(c: char) {
    c == '\t' || c == '\n' || c == '\r' ||
    (' ' <= c <= '\U{D7FF}') || ('\U{E000}' <= c <= '\U{FFFD}') || '\U{10000}' <= c
  }

  /** A string `ev.set` accepts; on any other string it raises `ValueError`
      ("All strings must be XML compatible"). */
  predicate XmlText(s: string) {
    forall i :: 0 <= i < |s| ==> XmlChar(s[i])
  }

  /** A value `ev.set` accepts: a string (`None` stands for a value of
      another type, for which it raises `TypeError`) that is XML text. */
  predicate Settable(v: Option<string>) {
    v.Some? && XmlText(v.value)
  }

  /** A JSON value held in a track's meta dictionary: a string, `null`, or
      any other JSON value (number, boolean, list, object), kept as its text. */
  datatype MetaValue = Text(text: string) | Null | Other(json: string)

  type Meta = map<string, MetaValue>

  /** An optional attribute stored in meta: a missing one becomes `null`. */
  function AttrValue(v: Option<string>): MetaValue {
    match v
    case Some(s) => Text(s)
    case None => Null
  }

  /** The arguments of `upsert_track(uid, side, layer, lat, lon, meta)`. */
  datatype TrackWrite = TrackWrite(
    uid: string, side: string, layer: string, lat: real, lon: real, meta: Option<Meta>)

  /** One dictionary of `list_tracks()`. `updatedAt` is the server clock
      reading stamped at the last write. */
  datatype TrackRecord = TrackRecord(
    uid: string, side: string, layer: string, lat: real, lon: real, updatedAt: int, meta: Meta)

  /** The MIL-STD-2525C symbol code `S<aff><dim>P------*****` both files build. */
  function Sidc(aff: char, dim: char): (s: string)
    ensures |s| == 15 && s[0] == 'S' && s[1] == aff && s[2] == dim
  {
    ['S', aff, dim] + "P------*****"
  }
}
