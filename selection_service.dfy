/** The state of the property-selection engine
    (backend/services/propertySelectionService.js): the process-wide route
    cache, the time of the last routing request, and the four operations that
    read and update them. The routing service is an oracle `osrm` from the
    coordinate list of a request to its reply; the clock is passed in as two
    readings, before and after the throttle's wait. */
module SelectionService {
  import opened Collections
  import opened PropertySelection

  // ------------------------------------------------------------------
  // Cache keys

  /** The `${latitude},${longitude}` token of one point in a cache key. */
  datatype KeyPoint = KeyPoint(latitude: Option<real>, longitude: Option<real>)

  function PropertyPoints(props: seq<Property>): (r: seq<KeyPoint>)
    ensures |r| == |props|
    ensures forall i :: 0 <= i < |props| ==> r[i] == KeyPoint(props[i].latitude, props[i].longitude)
  {
    seq(|props|, i requires 0 <= i < |props| => KeyPoint(props[i].latitude, props[i].longitude))
  }

  function PoiPoints(pois: seq<Poi>): (r: seq<KeyPoint>)
    ensures |r| == |pois|
    ensures forall j :: 0 <= j < |pois| ==> r[j] == KeyPoint(Some(pois[j].latitude), Some(pois[j].longitude))
  {
    seq(|pois|, j requires 0 <= j < |pois| => KeyPoint(Some(pois[j].latitude), Some(pois[j].longitude)))
  }

  /** The bulk key as the source builds it: `bulk|` followed by the tokens of
      the properties and then of the POIs, all joined by `|`. No token contains
      `|`, so two such strings are equal exactly when their token lists are;
      the key is that list. */
  function AsWrittenBulkKey(props: seq<Property>, pois: seq<Poi>): seq<KeyPoint> {
    PropertyPoints(props) + PoiPoints(pois)
  }

  /** The flat key does not record where the properties end: two properties
      and one POI give the same key as the first property and two POIs placed
      at the second property and the first POI. The first call caches a
      ranking of two candidates, which the second call, retrieving a single
      candidate, would then be answered with. */
  lemma AsWrittenBulkKeyCollides(a: Property, b: Property, c: Poi, weights: Option<seq<Field>>, reply: TableReply)
    requires b.latitude.Some? && b.longitude.Some?
    ensures var bAsPoi := Poi(b.latitude.value, b.longitude.value);
      && AsWrittenBulkKey([a, b], [c]) == AsWrittenBulkKey([a], [bAsPoi, c])
      && |ScoresFromReply([a, b], 1, weights, reply)| == 2
      && |ScoresFromReply([a], 2, weights, reply)| == 1
  {
    var bAsPoi := Poi(b.latitude.value, b.longitude.value);
    assert PropertyPoints([a, b]) == PropertyPoints([a]) + [KeyPoint(b.latitude, b.longitude)];
    assert PoiPoints([bAsPoi, c]) == [KeyPoint(b.latitude, b.longitude)] + PoiPoints([c]);
  }

  /** One bulk call as the source writes it, on a cache keyed by the flat
      token list: the scored list it returns and the cache after it. */
  function AsWrittenBulkStep(cache: map<seq<KeyPoint>, seq<Scored>>, props: seq<Property>, pois: seq<Poi>,
                             weights: Option<seq<Field>>, reply: TableReply): (seq<Scored>, map<seq<KeyPoint>, seq<Scored>>)
  {
    if pois == [] || props == [] then (Unscored(props), cache)
    else
      var key := AsWrittenBulkKey(props, pois);
      if key in cache then (cache[key], cache)
      else
        var scored := ScoresFromReply(props, |pois|, weights, reply);
        (scored, if DecodeBulk(reply, |props|, |pois|).Ok? then cache[key := scored] else cache)
  }

  /** The collision at work: once a call for properties [A, B] and POI [C]
      has been scored and cached, a call for property [A] with POIs [B, C]
      sends no request and is answered with the first call's two candidates
      for its single property. */
  lemma AsWrittenSecondCallReusesFirst(a: Property, b: Property, c: Poi, weights: Option<seq<Field>>,
                                       first: TableReply, second: TableReply)
    requires b.latitude.Some? && b.longitude.Some?
    requires DecodeBulk(first, 2, 1).Ok?
    ensures var bAsPoi := Poi(b.latitude.value, b.longitude.value);
      var call1 := AsWrittenBulkStep(map[], [a, b], [c], weights, first);
      var call2 := AsWrittenBulkStep(call1.1, [a], [bAsPoi, c], weights, second);
      && call2.0 == call1.0 && |call2.0| == 2
      && call2.1 == call1.1
  {
    AsWrittenBulkKeyCollides(a, b, c, weights, first);
  }

  /** The key the engine uses: property points and POI points kept apart. */
  datatype CacheKey =
    | TableKey(origin: KeyPoint, pois: seq<KeyPoint>)
    | BulkKey(points: seq<KeyPoint>, pois: seq<KeyPoint>)

  function TableKeyOf(lat: real, lon: real, pois: seq<Poi>): CacheKey {
    TableKey(KeyPoint(Some(lat), Some(lon)), PoiPoints(pois))
  }

  function BulkKeyOf(props: seq<Property>, pois: seq<Poi>): CacheKey {
    BulkKey(PropertyPoints(props), PoiPoints(pois))
  }

  /** Two bulk calls share a key exactly when they put the same number of
      properties at the same points and ask about the same POIs; they then
      send the routing service the same coordinate list. The weights are not
      part of the key. */
  lemma BulkKeyDetermines(p1: seq<Property>, q1: seq<Poi>, p2: seq<Property>, q2: seq<Poi>)
    ensures BulkKeyOf(p1, q1) == BulkKeyOf(p2, q2)
            <==> PropertyPoints(p1) == PropertyPoints(p2) && q1 == q2
    ensures BulkKeyOf(p1, q1) == BulkKeyOf(p2, q2) ==> |p1| == |p2| && BulkRequest(p1, q1) == BulkRequest(p2, q2)
  {
    if BulkKeyOf(p1, q1) == BulkKeyOf(p2, q2) {
      PoiPointsInjective(q1, q2);
      SamePointsSameRequest(p1, p2, q1);
    }
  }

  lemma PoiPointsInjective(q1: seq<Poi>, q2: seq<Poi>)
    requires PoiPoints(q1) == PoiPoints(q2)
    ensures q1 == q2
  {
    assert |q1| == |PoiPoints(q1)| == |PoiPoints(q2)| == |q2|;
    forall j | 0 <= j < |q1| ensures q1[j] == q2[j] {
      assert PoiPoints(q1)[j] == PoiPoints(q2)[j];
    }
  }

  /** Properties at the same points are sent as the same coordinates. */
  lemma SamePointsSameRequest(p1: seq<Property>, p2: seq<Property>, q: seq<Poi>)
    requires PropertyPoints(p1) == PropertyPoints(p2)
    ensures |p1| == |p2| && BulkRequest(p1, q) == BulkRequest(p2, q)
  {
    assert |p1| == |PropertyPoints(p1)| == |PropertyPoints(p2)| == |p2|;
    forall i | 0 <= i < |p1|
      ensures p1[i].latitude == p2[i].latitude && p1[i].longitude == p2[i].longitude
    {
      assert PropertyPoints(p1)[i] == PropertyPoints(p2)[i];
    }
    assert PropertyCoordinates(p1) == PropertyCoordinates(p2);
  }

  // ------------------------------------------------------------------
  // Cache entries

  datatype CacheEntry = TableEntry(legs: seq<RouteLeg>) | BulkEntry(scored: seq<Scored>)

  /** The shape every successfully scored candidate has: one leg per POI in
      POI order, weighted distance = distance * weight, and a finite score
      equal to the sum of the weighted distances. */
  ghost predicate ScoredFits(s: Scored, m: nat) {
    && |s.legs| == m
    && (forall j | 0 <= j < m :: s.legs[j].poiIndex == j && !s.legs[j].distance.Missing?
                                && s.legs[j].weightedDistance == Weighted(s.legs[j].distance, s.legs[j].weight))
    && s.score == Finite(TotalWeighted(s.legs))
  }

  /** What an entry holds for its key: single-property legs in POI order for a
      table key; for a bulk key, one fitting candidate per property point. */
  ghost predicate EntryFits(k: CacheKey, e: CacheEntry) {
    match k
    case TableKey(_, _) =>
      e.TableEntry? && (forall j | 0 <= j < |e.legs| :: e.legs[j].poiIndex == j)
    case BulkKey(points, pois) =>
      e.BulkEntry? && |e.scored| == |points| && (forall s | s in e.scored :: ScoredFits(s, |pois|))
  }

  lemma ScoreAllFits(props: seq<Property>, m: nat, weights: Option<seq<Field>>, reply: TableReply)
    requires DecodeBulk(reply, |props|, m).Ok?
    ensures var s := ScoresFromReply(props, m, weights, reply);
      |s| == |props| && forall c | c in s :: ScoredFits(c, m)
  {
  }

  lemma DecodeSingleOrdered(reply: TableReply)
    requires DecodeSingle(reply).Ok?
    ensures var legs := DecodeSingle(reply).value;
      forall j | 0 <= j < |legs| :: legs[j].poiIndex == j
  {
  }

  // ------------------------------------------------------------------
  // The engine

  /** Writing a key twice leaves the second value. */
  lemma OverwriteTwice<K, V>(m: map<K, V>, k: K, v: V, w: V)
    ensures m[k := v][k := w] == m[k := w]
  {
  }

  class RouteClient {
    /** `routeCache` of the source. */
    var routeCache: map<CacheKey, CacheEntry>
    /** `lastRequestTime` of the source, in milliseconds. */
    var lastRequestTime: int
    /** The coordinate lists sent to the routing service, oldest first. */
    ghost var requests: seq<seq<LonLat>>

    ghost predicate Valid()
      reads this
    {
      forall k | k in routeCache :: EntryFits(k, routeCache[k])
    }

    /** Every cached bulk ranking is sorted by score. */
    ghost predicate RankingsSorted()
      reads this
    {
      forall k | k in routeCache && routeCache[k].BulkEntry? :: SortedByScore(routeCache[k].scored)
    }

    /** Every cached bulk ranking other than the one under `key` is sorted. */
    ghost predicate RankingsSortedExcept(key: CacheKey)
      reads this
    {
      forall k | k in routeCache && k != key && routeCache[k].BulkEntry? :: SortedByScore(routeCache[k].scored)
    }

    constructor ()
      ensures Valid() && RankingsSorted()
      ensures routeCache == map[] && lastRequestTime == 0 && requests == []
    {
      routeCache := map[];
      lastRequestTime := 0;
      requests := [];
    }

    /** `throttledFetch`: the wait before a request, then the clock reading
        after the wait becomes the time of the last request. If the clock has
        advanced by at least the wait, consecutive requests are at least 200 ms
        apart. */
    method ThrottledFetch(now: int, clockAfterWait: int) returns (waited: int)
      modifies this
      ensures waited == ThrottleDelay(now, old(lastRequestTime))
      ensures lastRequestTime == clockAfterWait
      ensures routeCache == old(routeCache) && requests == old(requests)
      ensures clockAfterWait >= now + waited ==> lastRequestTime >= old(lastRequestTime) + MinRequestInterval
    {
      waited := ThrottleDelay(now, lastRequestTime);
      lastRequestTime := clockAfterWait;
    }

    /** `getDistancesFromPropertyToPois`: no POIs gives no legs and no request;
        a cached key is answered from the cache with no throttle and no
        request; otherwise one throttled request is made, its failure is
        reported, and only a success is cached. */
    method DistancesFromPropertyToPois(lat: real, lon: real, pois: seq<Poi>, osrm: seq<LonLat> -> TableReply,
                                       now: int, clockAfterWait: int)
      returns (r: Result<seq<RouteLeg>, RoutingError>)
      requires Valid()
      modifies this
      ensures Valid()
      ensures old(RankingsSorted()) ==> RankingsSorted()
      ensures pois == [] ==> r == Ok([]) && unchanged(this)
      ensures pois != [] && TableKeyOf(lat, lon, pois) in old(routeCache) ==>
                r == Ok(old(routeCache)[TableKeyOf(lat, lon, pois)].legs) && unchanged(this)
      ensures pois != [] && TableKeyOf(lat, lon, pois) !in old(routeCache) ==>
                && r == DecodeSingle(osrm(TableRequest(lat, lon, pois)))
                && requests == old(requests) + [TableRequest(lat, lon, pois)]
                && lastRequestTime == clockAfterWait
                && routeCache == (if r.Ok? then old(routeCache)[TableKeyOf(lat, lon, pois) := TableEntry(r.value)]
                                  else old(routeCache))
    {
      if pois == [] {
        return Ok([]);
      }
      var key := TableKeyOf(lat, lon, pois);
      if key in routeCache {
        return Ok(routeCache[key].legs);
      }
      var waited := ThrottledFetch(now, clockAfterWait);
      var coordinates := TableRequest(lat, lon, pois);
      requests := requests + [coordinates];
      r := DecodeSingle(osrm(coordinates));
      if r.Ok? {
        DecodeSingleOrdered(osrm(coordinates));
        routeCache := routeCache[key := TableEntry(r.value)];
      }
    }

    /** `scorePropertyAgainstPoisBulk`. No POIs or no properties: all `Inf`,
        nothing requested, nothing cached. A cached key (whatever the weights)
        is answered from the cache with no throttle and no request. Otherwise
        one throttled request is made and scored, and the scores are cached
        only on success. `cached` tells whether the returned list is the
        cache entry itself. */
    method ScorePropertyAgainstPoisBulk(props: seq<Property>, pois: seq<Poi>, weights: Option<seq<Field>>,
                                        osrm: seq<LonLat> -> TableReply, now: int, clockAfterWait: int)
      returns (scored: seq<Scored>, cached: bool)
      requires Valid()
      modifies this
      ensures Valid()
      ensures |scored| == |props|
      ensures cached ==> BulkKeyOf(props, pois) in routeCache && routeCache[BulkKeyOf(props, pois)] == BulkEntry(scored)
      ensures !cached ==> routeCache == old(routeCache)
      ensures old(RankingsSorted()) ==> RankingsSortedExcept(BulkKeyOf(props, pois))
      ensures pois == [] || props == [] ==> scored == Unscored(props) && !cached && unchanged(this)
      ensures pois != [] && props != [] && BulkKeyOf(props, pois) in old(routeCache) ==>
                scored == old(routeCache)[BulkKeyOf(props, pois)].scored && cached && unchanged(this)
      ensures pois != [] && props != [] && BulkKeyOf(props, pois) !in old(routeCache) ==>
                var reply := osrm(BulkRequest(props, pois));
                && scored == ScoresFromReply(props, |pois|, weights, reply)
                && cached == DecodeBulk(reply, |props|, |pois|).Ok?
                && requests == old(requests) + [BulkRequest(props, pois)]
                && lastRequestTime == clockAfterWait
                && routeCache == (if cached then old(routeCache)[BulkKeyOf(props, pois) := BulkEntry(scored)]
                                  else old(routeCache))
    {
      if pois == [] || props == [] {
        return Unscored(props), false;
      }
      var key := BulkKeyOf(props, pois);
      if key in routeCache {
        assert EntryFits(key, routeCache[key]);
        return routeCache[key].scored, true;
      }
      var waited := ThrottledFetch(now, clockAfterWait);
      var coordinates := BulkRequest(props, pois);
      requests := requests + [coordinates];
      var reply := osrm(coordinates);
      scored := ScoresFromReply(props, |pois|, weights, reply);
      cached := DecodeBulk(reply, |props|, |pois|).Ok?;
      if cached {
        ScoreAllFits(props, |pois|, weights, reply);
        routeCache := routeCache[key := BulkEntry(scored)];
      }
    }

    /** `scored.sort(...)`: the ranking is the stable sort of `scored`; when
        `scored` is the cache entry under `key`, the sort reorders that entry
        too. Sorting an already sorted entry changes nothing. */
    method SortScored(key: CacheKey, scored: seq<Scored>, cached: bool) returns (ranked: seq<Scored>)
      requires Valid()
      requires cached ==> key in routeCache && routeCache[key] == BulkEntry(scored)
      modifies this
      ensures Valid()
      ensures ranked == SortByScore(scored) && |ranked| == |scored|
      ensures routeCache == if cached then old(routeCache)[key := BulkEntry(ranked)] else old(routeCache)
      ensures requests == old(requests) && lastRequestTime == old(lastRequestTime)
      ensures cached && old(RankingsSortedExcept(key)) ==> RankingsSorted()
      ensures !cached && old(RankingsSorted()) ==> RankingsSorted()
      ensures SortedByScore(scored) ==> ranked == scored && routeCache == old(routeCache)
    {
      ranked := SortByScore(scored);
      SortIsPermutation(scored);
      SortIsSorted(scored);
      assert |ranked| == |scored| by {
        assert |multiset(ranked)| == |multiset(scored)|;
      }
      if SortedByScore(scored) {
        SortOfSorted(scored);
      }
      if cached {
        forall s | s in ranked ensures s in scored {
          assert s in multiset(ranked);
        }
        assert EntryFits(key, routeCache[key]);
        if SortedByScore(scored) {
          assert routeCache[key := BulkEntry(ranked)] == routeCache;
        }
        routeCache := routeCache[key := BulkEntry(ranked)];
      }
    }

    /** Scoring and ranking of retrieved candidates against validated POIs:
        the scored list is sorted (in place: when it is the cache entry, the
        entry becomes the sorted list) and the head of the ranking is picked.
        Once every cached ranking is sorted, a repeated request is answered
        with exactly the cached ranking. */
    method RankCandidates(props: seq<Property>, pois: seq<Poi>, weights: Option<seq<Field>>,
                          osrm: seq<LonLat> -> TableReply, now: int, clockAfterWait: int)
      returns (r: Selection)
      requires pois != []
      requires Valid()
      modifies this
      ensures Valid()
      ensures old(RankingsSorted()) ==> RankingsSorted()
      ensures r.Selection? && |r.candidates| == |props|
      ensures props == [] ==>
                r == Pick([]) && routeCache == old(routeCache) && requests == old(requests)
                && lastRequestTime == old(lastRequestTime)
      ensures props != [] && BulkKeyOf(props, pois) in old(routeCache) ==>
                && r == Pick(SortByScore(old(routeCache)[BulkKeyOf(props, pois)].scored))
                && routeCache == old(routeCache)[BulkKeyOf(props, pois) := BulkEntry(r.candidates)]
                && requests == old(requests) && lastRequestTime == old(lastRequestTime)
      ensures props != [] && BulkKeyOf(props, pois) in old(routeCache) && old(RankingsSorted()) ==>
                r.candidates == old(routeCache)[BulkKeyOf(props, pois)].scored && routeCache == old(routeCache)
      ensures props != [] && BulkKeyOf(props, pois) !in old(routeCache) ==>
                var reply := osrm(BulkRequest(props, pois));
                && r == Pick(SortByScore(ScoresFromReply(props, |pois|, weights, reply)))
                && requests == old(requests) + [BulkRequest(props, pois)]
                && lastRequestTime == clockAfterWait
                && routeCache == (if DecodeBulk(reply, |props|, |pois|).Ok?
                                  then old(routeCache)[BulkKeyOf(props, pois) := BulkEntry(r.candidates)]
                                  else old(routeCache))
    {
      var key := BulkKeyOf(props, pois);
      if key in routeCache && RankingsSorted() {
        assert EntryFits(key, routeCache[key]);
        assert SortedByScore(routeCache[key].scored);
      }
      ghost var before := routeCache;
      var scored, cached := ScorePropertyAgainstPoisBulk(props, pois, weights, osrm, now, clockAfterWait);
      var ranked := SortScored(key, scored, cached);
      r := Pick(ranked);
      if cached && key !in before {
        OverwriteTwice(before, key, BulkEntry(scored), BulkEntry(ranked));
      }
    }

    /** `findBestProperty`: with no valid POI the early answer is returned and
        nothing happens; otherwise the candidates the filters and the limit
        select are ranked against the valid POIs: no candidate gives the empty
        answer with no request, a cached key the (re-sorted) cached ranking,
        and any other key the ranking of one batched request. */
    method FindBestProperty(request: SelectionRequest, store: seq<Property>, osrm: seq<LonLat> -> TableReply,
                            now: int, clockAfterWait: int)
      returns (r: Selection)
      requires Valid()
      modifies this
      ensures Valid()
      ensures old(RankingsSorted()) ==> RankingsSorted()
      ensures ValidPois(request.pois) == [] ==> r == NoValidPois && unchanged(this)
      ensures ValidPois(request.pois) != [] ==>
                var props := Candidates(store, request.filters, LimitOf(request));
                r.Selection? && |r.candidates| == |props|
      ensures ValidPois(request.pois) != [] && Candidates(store, request.filters, LimitOf(request)) == [] ==>
                r == Pick([]) && routeCache == old(routeCache) && requests == old(requests)
                && lastRequestTime == old(lastRequestTime)
      ensures ValidPois(request.pois) != [] && Candidates(store, request.filters, LimitOf(request)) != [] ==>
                var props := Candidates(store, request.filters, LimitOf(request));
                var key := BulkKeyOf(props, ValidPois(request.pois));
                key in old(routeCache) ==>
                  && r == Pick(SortByScore(old(routeCache)[key].scored))
                  && routeCache == old(routeCache)[key := BulkEntry(r.candidates)]
                  && requests == old(requests) && lastRequestTime == old(lastRequestTime)
                  && (old(RankingsSorted()) ==> r.candidates == old(routeCache)[key].scored
                                                 && routeCache == old(routeCache))
      ensures ValidPois(request.pois) != [] && Candidates(store, request.filters, LimitOf(request)) != [] ==>
                var props := Candidates(store, request.filters, LimitOf(request));
                var pois := ValidPois(request.pois);
                var key := BulkKeyOf(props, pois);
                var reply := osrm(BulkRequest(props, pois));
                key !in old(routeCache) ==>
                  && r == Pick(SortByScore(ScoresFromReply(props, |pois|, request.weights, reply)))
                  && requests == old(requests) + [BulkRequest(props, pois)]
                  && lastRequestTime == clockAfterWait
                  && routeCache == (if DecodeBulk(reply, |props|, |pois|).Ok?
                                    then old(routeCache)[key := BulkEntry(r.candidates)]
                                    else old(routeCache))
    {
      var pois := ValidPois(request.pois);
      if pois == [] {
        return NoValidPois;
      }
      var props := Candidates(store, request.filters, LimitOf(request));
      r := RankCandidates(props, pois, request.weights, osrm, now, clockAfterWait);
    }
  }
}
