/** The flare record and the normalisation `fetchFlares` applies to every object of the
    `/flares/` response before storing it. */
module Flares {
  import opened Wrappers

  /** One object of the JSON array as it arrives. The four fields that the page defaults
      may be absent (`None`); the five it copies are taken to be present. */
  datatype RawFlare = RawFlare(
    id: int,
    volume: real,
    duration: real,
    h2s: real,
    date: string,
    latitude: Option<real>,
    longitude: Option<real>,
    location: Option<string>,
    operator: Option<string>)

  /** The record the page stores and displays. */
  datatype Flare = Flare(
    id: int,
    volume: real,
    duration: real,
    h2s: real,
    date: string,
    latitude: real,
    longitude: real,
    location: string,
    operator: string)

  const Unknown: string := "Unknown"

  /** JavaScript truthiness of a number that may be absent: absent and zero are falsy. */
  predicate NumberIsTruthy(v: Option<real>)
  {
    v.Some? && v.value != 0.0
  }

  /** JavaScript truthiness of a string that may be absent: absent and "" are falsy. */
  predicate TextIsTruthy(v: Option<string>)
  {
    v.Some? && v.value != ""
  }

  /** `v || 0` */
  function NumberOrZero(v: Option<real>): real
  {
    if NumberIsTruthy(v) then v.value else 0.0
  }

  /** `v || "Unknown"` */
  function TextOrUnknown(v: Option<string>): string
  {
    if TextIsTruthy(v) then v.value else Unknown
  }

  /** What every normalised record satisfies: it has a location and an operator to show. */
  predicate IsNormalized(f: Flare)
  {
    f.location != "" && f.operator != ""
  }

  /** The object literal built for one record inside `data.map`. It copies the five
      pass-through fields; a coordinate is the one sent when one was sent and 0 when it was
      absent (a sent 0 falls back to the default 0, the same value); an absent or empty
      location/operator becomes "Unknown" and any other is kept. */
  function Normalize(raw: RawFlare): (f: Flare)
    ensures f.id == raw.id && f.volume == raw.volume && f.duration == raw.duration &&
            f.h2s == raw.h2s && f.date == raw.date
    ensures f.latitude == (match raw.latitude case Some(x) => x case None => 0.0)
    ensures f.longitude == (match raw.longitude case Some(x) => x case None => 0.0)
    ensures f.location == (if raw.location in {None, Some("")} then Unknown else raw.location.value)
    ensures f.operator == (if raw.operator in {None, Some("")} then Unknown else raw.operator.value)
    ensures IsNormalized(f)
  {
    Flare(raw.id, raw.volume, raw.duration, raw.h2s, raw.date,
          NumberOrZero(raw.latitude), NumberOrZero(raw.longitude),
          TextOrUnknown(raw.location), TextOrUnknown(raw.operator))
  }

  /** `data.map(...)`: one normalised record per input object, in the same order. */
  function NormalizeAll(data: seq<RawFlare>): (r: seq<Flare>)
    ensures |r| == |data|
    ensures forall i :: 0 <= i < |data| ==> r[i] == Normalize(data[i])
    ensures forall f :: f in r ==> IsNormalized(f)
  {
    seq(|data|, i requires 0 <= i < |data| => Normalize(data[i]))
  }
}
