/** The markers `FlareMap` places: one per flare whose latitude and longitude are both
    truthy, at that flare's coordinates. */
module FlareMap {
  import opened Flares
  import Search
  import Seqs

  /** `flare.latitude && flare.longitude`: both coordinates are non-zero. */
  predicate HasCoordinates(f: Flare)
  {
    f.latitude != 0.0 && f.longitude != 0.0
  }

  /** A map marker: its React key and its `[latitude, longitude]` position. */
  datatype Marker = Marker(key: int, lat: real, lng: real)

  function MarkerOf(f: Flare): Marker
  {
    Marker(f.id, f.latitude, f.longitude)
  }

  /** `data.filter(flare => flare.latitude && flare.longitude)`: an order-preserving
      subsequence of the input that keeps every occurrence of a flare with both coordinates
      and nothing else. */
  function Plotted(data: seq<Flare>): (r: seq<Flare>)
    ensures Seqs.IsSubsequence(r, data)
    ensures forall f :: multiset(r)[f] == if HasCoordinates(f) then multiset(data)[f] else 0
    ensures forall f :: f in r <==> f in data && HasCoordinates(f)
  {
    Seqs.FilterIsSubsequence(HasCoordinates, data);
    Seqs.Filter(HasCoordinates, data)
  }

  /** One marker per flare of `flares`, in order. Every occurrence of a flare contributes
      its own marker. */
  function MarkersOf(flares: seq<Flare>): (r: seq<Marker>)
    ensures |r| == |flares|
    ensures forall i :: 0 <= i < |flares| ==> r[i] == MarkerOf(flares[i])
    ensures forall f :: multiset(r)[MarkerOf(f)] >= multiset(flares)[f]
  {
    if flares == [] then []
    else
      assert flares == [flares[0]] + flares[1..];
      [MarkerOf(flares[0])] + MarkersOf(flares[1..])
  }

  /** `.map(flare => <Marker position={[flare.latitude, flare.longitude]} />)` over the kept
      flares: the i-th marker is at the i-th kept flare's position, and no marker sits on a
      zero coordinate. */
  function Markers(data: seq<Flare>): (r: seq<Marker>)
    ensures |r| == |Plotted(data)| <= |data|
    ensures forall i :: 0 <= i < |r| ==> r[i] == MarkerOf(Plotted(data)[i])
    ensures forall m :: m in r ==> m.lat != 0.0 && m.lng != 0.0
  {
    MarkersOf(Plotted(data))
  }

  /** Every marker sits at the coordinates of a flare of the input that has both coordinates,
      and every occurrence of such a flare has a marker of its own. */
  lemma MarkersExactly(data: seq<Flare>)
    ensures forall m :: m in Markers(data) ==> exists f :: f in data && HasCoordinates(f) && m == MarkerOf(f)
    ensures forall f :: HasCoordinates(f) ==> multiset(Markers(data))[MarkerOf(f)] >= multiset(data)[f]
  {
    var p := Plotted(data);
    forall m | m in Markers(data) ensures exists f :: f in data && HasCoordinates(f) && m == MarkerOf(f) {
      var i :| 0 <= i < |p| && Markers(data)[i] == m;
      assert p[i] in p;
    }
    assert Markers(data) == MarkersOf(p);
  }

  /** A flare of the input gets a marker at its position if and only if its latitude and
      longitude are both non-zero. */
  lemma MarkerIffCoordinates(data: seq<Flare>, f: Flare)
    requires f in data
    ensures MarkerOf(f) in Markers(data) <==> f.latitude != 0.0 && f.longitude != 0.0
  {
    MarkersExactly(data);
  }

  /** A raw record is plotted after normalisation exactly when both coordinates it was sent
      are truthy: a defaulted coordinate, or a single zero one, drops the record from the map. */
  lemma NormalizedPlottedIff(raw: RawFlare)
    ensures HasCoordinates(Normalize(raw)) <==> NumberIsTruthy(raw.latitude) && NumberIsTruthy(raw.longitude)
  {
  }

  /** The page's map is given the search result (`filteredFlares`), so raw record `data[i]`
      is plotted there exactly when both its coordinates are truthy and it matches the term. */
  lemma PageMarkers(data: seq<RawFlare>, term: string, i: nat)
    requires i < |data|
    ensures Normalize(data[i]) in Plotted(Search.Filtered(NormalizeAll(data), term)) <==>
      NumberIsTruthy(data[i].latitude) && NumberIsTruthy(data[i].longitude) && Search.Matches(Normalize(data[i]), term)
  {
    assert NormalizeAll(data)[i] == Normalize(data[i]);
    NormalizedPlottedIff(data[i]);
  }

  /** The map is given the search result, so every marker belongs to a stored flare that
      matches the search and has both coordinates. */
  lemma MarkersSatisfySearch(flares: seq<Flare>, term: string)
    ensures forall m :: m in Markers(Search.Filtered(flares, term)) ==>
      exists f :: f in flares && Search.Matches(f, term) && HasCoordinates(f) && m == MarkerOf(f)
  {
    MarkersExactly(Search.Filtered(flares, term));
  }
}
