/** The map component of frontend/src/components/map.js: the list of points
    of interest (POIs) a user places by clicking, at most five, with one
    marker per placed POI; removal from the popup; and the markers drawn for
    the properties whose coordinates read as finite numbers. Leaflet, the
    geolocation start-up and the popup HTML are outside the model. */
module PoiMap {
  import opened Collections
  import opened Text

  const MaxPois := 5

  /** A POI; its id is the clock reading `Date.now()` at the click. */
  datatype Poi = Poi(latitude: real, longitude: real, id: int)

  /** A POI marker and the `POI #n` label of its popup. */
  datatype PoiMarker = PoiMarker(poiId: int, number: nat, latitude: real, longitude: real)

  datatype ClickOutcome = Ignored | Rejected(alert: string) | Added(number: nat)

  /** A coordinate as stored on a property document. */
  datatype CoordValue = Undefined | Null | Finite(x: real) | NonFinite | Str(s: string)

  /** `Number(v)` where the result is finite; `None` for NaN and the infinities. */
  function FiniteNumber(v: CoordValue): Option<real> {
    match v
    case Undefined => None
    case Null => Some(0.0)
    case Finite(x) => Some(x)
    case NonFinite => None
    case Str(s) => match NumberOf(s) case Some(n) => Some(n as real) case None => None
  }

  datatype Place = Place(houseName: string, latitude: CoordValue, longitude: CoordValue)

  datatype PropertyMarker = PropertyMarker(latitude: real, longitude: real, title: string)

  predicate HasPosition(p: Place) {
    FiniteNumber(p.latitude).Some? && FiniteNumber(p.longitude).Some?
  }

  function MarkerFor(p: Place): PropertyMarker
    requires HasPosition(p)
  {
    PropertyMarker(FiniteNumber(p.latitude).value, FiniteNumber(p.longitude).value,
                   if p.houseName != [] then p.houseName else "Property")
  }

  /** The markers `renderPropertyMarkers` creates, in property order. */
  function PropertyMarkers(properties: seq<Place>): (r: seq<PropertyMarker>)
    ensures |r| <= |properties|
    decreases |properties|
  {
    if properties == [] then []
    else MarkersOf(properties[0]) + PropertyMarkers(properties[1..])
  }

  function MarkersOf(p: Place): seq<PropertyMarker> {
    if HasPosition(p) then [MarkerFor(p)] else []
  }

  /** A marker is drawn exactly for each property with a position, in order. */
  lemma {:induction false} PropertyMarkersAppend(a: seq<Place>, b: seq<Place>)
    ensures PropertyMarkers(a + b) == PropertyMarkers(a) + PropertyMarkers(b)
    decreases |a|
  {
    if a == [] {
      assert a + b == b;
    } else {
      assert (a + b)[0] == a[0] && (a + b)[1..] == a[1..] + b;
      PropertyMarkersAppend(a[1..], b);
      assert PropertyMarkers(a + b) == MarkersOf(a[0]) + PropertyMarkers(a[1..] + b);
    }
  }

  lemma {:induction false} PropertyMarkersCount(properties: seq<Place>)
    ensures |PropertyMarkers(properties)| == |Filter(properties, (p: Place) => HasPosition(p))|
    decreases |properties|
  {
    if properties != [] {
      PropertyMarkersCount(properties[1..]);
    }
  }

  /** A `null` coordinate reads as 0 and is drawn; a missing one is not. */
  lemma NullReadsAsZero(name: string)
    ensures PropertyMarkers([Place(name, Null, Null)]) == [PropertyMarker(0.0, 0.0, if name != [] then name else "Property")]
    ensures PropertyMarkers([Place(name, Undefined, Finite(1.0))]) == []
  {
  }

  /** The first index whose marker belongs to `poiId` (`findIndex`). */
  function FirstMarkerOf(markers: seq<PoiMarker>, poiId: int): (r: Option<nat>)
    ensures r.Some? ==> r.value < |markers| && markers[r.value].poiId == poiId
    ensures r.Some? ==> forall i | 0 <= i < r.value :: markers[i].poiId != poiId
    ensures r.None? ==> forall i | 0 <= i < |markers| :: markers[i].poiId != poiId
    decreases |markers|
  {
    if markers == [] then None
    else if markers[0].poiId == poiId then Some(0)
    else match FirstMarkerOf(markers[1..], poiId)
      case None => None
      case Some(k) => Some(k + 1)
  }

  function NotId(poiId: int): Poi -> bool {
    (p: Poi) => p.id != poiId
  }

  class MapView {
    var pois: seq<Poi>
    var poiMarkers: seq<PoiMarker>
    var propertyMarkers: seq<PropertyMarker>
    /** Every list handed to `onPoisChange`, oldest first. */
    var reported: seq<seq<Poi>>
    const poiMode: bool

    constructor (initial: seq<Poi>, poiMode: bool)
      ensures this.poiMode == poiMode && pois == initial
      ensures poiMarkers == [] && propertyMarkers == [] && reported == []
    {
      this.poiMode := poiMode;
      pois := initial;
      poiMarkers := [];
      propertyMarkers := [];
      reported := [];
    }

    /** The map click handler: ignored outside POI mode, refused with five
        POIs, otherwise one POI and one marker labelled `length + 1` are
        appended and the new list is reported. */
    method Click(lat: real, lng: real, now: int) returns (r: ClickOutcome)
      modifies this
      ensures propertyMarkers == old(propertyMarkers)
      ensures !poiMode ==> r == Ignored && pois == old(pois) && poiMarkers == old(poiMarkers) && reported == old(reported)
      ensures poiMode && |old(pois)| >= MaxPois ==>
                r == Rejected("Maximum 5 POIs allowed. Remove one to add another.")
                && pois == old(pois) && poiMarkers == old(poiMarkers) && reported == old(reported)
      ensures poiMode && |old(pois)| < MaxPois ==>
                && r == Added(|old(pois)| + 1)
                && pois == old(pois) + [Poi(lat, lng, now)]
                && poiMarkers == old(poiMarkers) + [PoiMarker(now, |old(pois)| + 1, lat, lng)]
                && reported == old(reported) + [pois]
      ensures |old(pois)| <= MaxPois ==> |pois| <= MaxPois
    {
      if !poiMode {
        return Ignored;
      }
      if |pois| >= MaxPois {
        return Rejected("Maximum 5 POIs allowed. Remove one to add another.");
      }
      var newPoi := Poi(lat, lng, now);
      var n := |pois| + 1;
      pois := pois + [newPoi];
      reported := reported + [pois];
      poiMarkers := poiMarkers + [PoiMarker(newPoi.id, n, lat, lng)];
      r := Added(n);
    }

    /** `window.removePoi`: every POI with the id goes, the others keep their
        order; only the first marker with the id is removed. */
    method RemovePoi(poiId: int)
      modifies this
      ensures propertyMarkers == old(propertyMarkers)
      ensures pois == Filter(old(pois), NotId(poiId)) && reported == old(reported) + [pois]
      ensures FirstMarkerOf(old(poiMarkers), poiId).None? ==> poiMarkers == old(poiMarkers)
      ensures FirstMarkerOf(old(poiMarkers), poiId).Some? ==>
                var k := FirstMarkerOf(old(poiMarkers), poiId).value;
                poiMarkers == old(poiMarkers)[..k] + old(poiMarkers)[k + 1..]
    {
      pois := Filter(pois, NotId(poiId));
      reported := reported + [pois];
      var k := FirstMarkerOf(poiMarkers, poiId);
      if k.Some? {
        poiMarkers := poiMarkers[..k.value] + poiMarkers[k.value + 1..];
      }
    }

    /** `renderPropertyMarkers`: the old markers are cleared and one marker
        is pushed per property with a finite position. */
    method RenderPropertyMarkers(properties: seq<Place>)
      modifies this
      ensures propertyMarkers == PropertyMarkers(properties)
      ensures pois == old(pois) && poiMarkers == old(poiMarkers) && reported == old(reported)
    {
      propertyMarkers := [];
      var i := 0;
      while i < |properties|
        invariant 0 <= i <= |properties|
        invariant propertyMarkers == PropertyMarkers(properties[..i])
        invariant pois == old(pois) && poiMarkers == old(poiMarkers) && reported == old(reported)
      {
        PropertyMarkersAppend(properties[..i], [properties[i]]);
        assert properties[..i + 1] == properties[..i] + [properties[i]];
        var p := properties[i];
        if HasPosition(p) {
          propertyMarkers := propertyMarkers + [MarkerFor(p)];
        }
        i := i + 1;
      }
      assert properties[..i] == properties;
    }
  }

  /** Removal keeps exactly the POIs with another id, in order. */
  lemma RemovalKeepsOthers(pois: seq<Poi>, poiId: int)
    ensures IsSubsequence(Filter(pois, NotId(poiId)), pois)
    ensures forall p :: p in Filter(pois, NotId(poiId)) <==> p in pois && p.id != poiId
  {
    FilterIsSubsequence(pois, NotId(poiId));
    forall p ensures p in Filter(pois, NotId(poiId)) <==> p in pois && p.id != poiId {
      FilterMembership(pois, NotId(poiId), p);
    }
  }

  /** Two POIs placed within the same millisecond share an id: removing one
      removes both POIs but only one of their two markers. */
  lemma SameMillisecondClicks(a: Poi, b: Poi, ma: PoiMarker, mb: PoiMarker)
    requires a.id == b.id && ma.poiId == a.id && mb.poiId == a.id
    ensures Filter([a, b], NotId(a.id)) == []
    ensures FirstMarkerOf([ma, mb], a.id) == Some(0)
  {
  }
}
