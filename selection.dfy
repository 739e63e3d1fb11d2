/** The value-level part of the property-selection engine
    (backend/services/propertySelectionService.js): POI validation, the
    candidate query, the layout of the batched `table/v1` request, decoding of
    the distance and duration matrices, weighted scoring, the stable ranking
    and the shape of the returned object. The state the engine keeps between
    calls (route cache, last request time) is in module SelectionService. */
module PropertySelection {
  import opened Collections

  /** Minimum spacing, in milliseconds, between two requests to the routing service. */
  const MinRequestInterval: int := 200

  /** Number of candidates retrieved when the request names no limit. */
  const DefaultLimit: nat := 100

  // ------------------------------------------------------------------
  // Request

  /** A request-body value, as far as `typeof x === "number"` can tell. */
  datatype Field = Num(value: real) | NotNumber

  /** One entry of the `pois` array; `NullPoi` stands for a falsy entry. */
  datatype PoiInput = NullPoi | PoiInput(latitude: Field, longitude: Field)

  datatype Poi = Poi(latitude: real, longitude: real)

  /** Candidate filters; an absent field is `None`. */
  datatype Filters = Filters(minPrice: Option<int>, maxPrice: Option<int>, rooms: Option<int>)

  /** The argument of `findBestProperty`. `limit == None` takes the default of
      100; `weights == None` stands for a `weights` value that is not an array. */
  datatype SelectionRequest = SelectionRequest(
    pois: seq<PoiInput>, filters: Filters, limit: Option<nat>, weights: Option<seq<Field>>)

  predicate IsValidPoi(p: PoiInput) {
    p.PoiInput? && p.latitude.Num? && p.longitude.Num?
  }

  function AsPoi(p: PoiInput): Poi
    requires IsValidPoi(p)
  {
    Poi(p.latitude.value, p.longitude.value)
  }

  /** The POIs that take part in scoring: the entries whose latitude and
      longitude are both numbers, in request order. */
  function ValidPois(pois: seq<PoiInput>): (r: seq<Poi>)
  {
    var kept := Filter(pois, IsValidPoi);
    seq(|kept|, i requires 0 <= i < |kept| => AsPoi(kept[i]))
  }

  /** Validation is a filter: it commutes with concatenation, so the valid
      POIs keep their request order, and a single entry survives exactly when
      both its coordinates are numbers. */
  lemma ValidPoisAppend(a: seq<PoiInput>, b: seq<PoiInput>)
    ensures ValidPois(a + b) == ValidPois(a) + ValidPois(b)
  {
    FilterAppend(a, b, IsValidPoi);
  }

  lemma ValidPoisSingle(p: PoiInput)
    ensures ValidPois([p]) == if IsValidPoi(p) then [AsPoi(p)] else []
  {
    assert [p][1..] == [];
  }

  /** The example of a well-formed and a malformed POI: only the first counts. */
  lemma ValidPoisExample()
    ensures ValidPois([PoiInput(Num(23.8), Num(90.4)), PoiInput(NotNumber, Num(90.4))])
            == [Poi(23.8, 90.4)]
  {
    var good := PoiInput(Num(23.8), Num(90.4));
    var bad := PoiInput(NotNumber, Num(90.4));
    ValidPoisAppend([good], [bad]);
    ValidPoisSingle(good);
    ValidPoisSingle(bad);
    assert [good] + [bad] == [good, bad];
  }

  // ------------------------------------------------------------------
  // Candidate retrieval

  /** A property record as the store returns it; a coordinate that is null or
      missing is `None`. */
  datatype Property = Property(
    id: nat, houseName: string, address: string, price: int, rooms: int,
    latitude: Option<real>, longitude: Option<real>)

  /** Truthiness of an optional number (absent and 0 are falsy). */
  predicate Truthy(x: Option<int>) {
    x.Some? && x.value != 0
  }

  /** The store query: coordinates not null, and a bound for each filter
      that is truthy. */
  datatype Query = Query(minPrice: Option<int>, maxPrice: Option<int>, minRooms: Option<int>)

  function BuildQuery(f: Filters): Query {
    Query(
      if Truthy(f.minPrice) then f.minPrice else None,
      if Truthy(f.maxPrice) then f.maxPrice else None,
      if Truthy(f.rooms) then f.rooms else None)
  }

  predicate MatchesQuery(q: Query, p: Property) {
    && p.latitude.Some? && p.longitude.Some?
    && (q.minPrice.Some? ==> p.price >= q.minPrice.value)
    && (q.maxPrice.Some? ==> p.price <= q.maxPrice.value)
    && (q.minRooms.Some? ==> p.rooms >= q.minRooms.value)
  }

  /** The effective limit: the request's, or 100. */
  function LimitOf(request: SelectionRequest): nat {
    if request.limit.Some? then request.limit.value else DefaultLimit
  }

  /** `Property.find(query).limit(limit)` over a store given as a sequence in
      its natural order; a limit of 0 means no limit. */
  function Candidates(store: seq<Property>, f: Filters, limit: nat): seq<Property> {
    var q := BuildQuery(f);
    var matching := Filter(store, (p: Property) => MatchesQuery(q, p));
    if limit == 0 then matching else Take(matching, limit)
  }

  /** Every candidate has both coordinates and meets every truthy filter, a
      falsy filter (absent or 0) constrains nothing, at most `limit`
      candidates are returned, and they come in store order. */
  lemma CandidatesMeetFilters(store: seq<Property>, f: Filters, limit: nat)
    ensures var r := Candidates(store, f, limit);
      && (limit > 0 ==> |r| <= limit)
      && (forall p :: p in r ==> p in store)
      && (forall p :: p in r ==>
            && p.latitude.Some? && p.longitude.Some?
            && (Truthy(f.minPrice) ==> p.price >= f.minPrice.value)
            && (Truthy(f.maxPrice) ==> p.price <= f.maxPrice.value)
            && (Truthy(f.rooms) ==> p.rooms >= f.rooms.value))
  {
    var q := BuildQuery(f);
    var matching := Filter(store, (p: Property) => MatchesQuery(q, p));
    var r := Candidates(store, f, limit);
    forall p | p in r ensures p in matching {
      if limit != 0 {
        assert r == matching[..|r|];
      }
    }
  }

  // ------------------------------------------------------------------
  // The batched table request

  /** One coordinate of the request, in the wire order `[longitude, latitude]`. */
  datatype LonLat = LonLat(lon: real, lat: real)

  /** A number or null as JavaScript arithmetic reads it (`Number(x)`, `x * w`): null converts to 0. */
  function NullAsZero(x: Option<real>): real {
    if x.Some? then x.value else 0.0
  }

  /** The coordinate list of the batched request: every property, then every POI. */
  function BulkRequest(props: seq<Property>, pois: seq<Poi>): seq<LonLat> {
    PropertyCoordinates(props)
    + seq(|pois|, j requires 0 <= j < |pois| => LonLat(pois[j].longitude, pois[j].latitude))
  }

  /** The coordinates of the properties, in order, at the head of a bulk request. */
  function PropertyCoordinates(props: seq<Property>): (r: seq<LonLat>)
    ensures |r| == |props|
    ensures forall i :: 0 <= i < |props| ==>
              r[i] == LonLat(NullAsZero(props[i].longitude), NullAsZero(props[i].latitude))
  {
    seq(|props|, i requires 0 <= i < |props| =>
          LonLat(NullAsZero(props[i].longitude), NullAsZero(props[i].latitude)))
  }

  /** The request has N + M coordinates: property `i` sits at index `i` and
      POI `j` at index `N + j`. */
  lemma BulkRequestLayout(props: seq<Property>, pois: seq<Poi>)
    ensures var r := BulkRequest(props, pois);
      && |r| == |props| + |pois|
      && (forall i :: 0 <= i < |props| ==>
            r[i] == LonLat(NullAsZero(props[i].longitude), NullAsZero(props[i].latitude)))
      && (forall j :: 0 <= j < |pois| ==> r[|props| + j] == LonLat(pois[j].longitude, pois[j].latitude))
  {
  }

  /** The coordinate list of the single-property request: the property, then every POI. */
  function TableRequest(lat: real, lon: real, pois: seq<Poi>): seq<LonLat> {
    [LonLat(lon, lat)] + seq(|pois|, j requires 0 <= j < |pois| => LonLat(pois[j].longitude, pois[j].latitude))
  }

  // ------------------------------------------------------------------
  // The reply

  /** A matrix of the JSON reply. A cell is a number, or `null` (`None`)
      where the routing service found no route between the two points. */
  type Matrix = seq<seq<Option<real>>>

  /** The decoded JSON body; a falsy `distances` or `durations` is `None`. */
  datatype TableBody = TableBody(distances: Option<Matrix>, durations: Option<Matrix>)

  /** What the routing service gives back for one request: the fetch itself
      failed, or a status with a body that did (`Some`) or did not (`None`)
      parse as JSON. */
  datatype TableReply = NetworkFailure | Reply(status: int, body: Option<TableBody>)

  datatype RoutingError = FetchFailed | RequestFailed(status: int) | InvalidJson | NoMatrices | MalformedMatrix

  predicate IsOkStatus(status: int) {
    200 <= status <= 299
  }

  /** The reply passed the status, JSON and matrix-presence checks. */
  predicate HasMatrices(reply: TableReply) {
    && reply.Reply? && IsOkStatus(reply.status) && reply.body.Some?
    && reply.body.value.distances.Some? && reply.body.value.durations.Some?
  }

  /** What reading `row[k]` gives: a number, `null` (no route), or
      `undefined` when `k` is past the end of the row. */
  datatype Cell = Reached(value: real) | NoRoute | Missing

  function CellAt(row: seq<Option<real>>, k: nat): Cell {
    if k >= |row| then Missing else if row[k].Some? then Reached(row[k].value) else NoRoute
  }

  datatype Tables = Tables(distances: Matrix, durations: Matrix)

  /** Rows `0 .. n-1` of both matrices exist (indexing a missing row throws)
      and the distance rows reach column `n + m - 1`. A duration row may be
      shorter: a duration read past its end is `undefined`. */
  predicate Covers(t: Tables, n: nat, m: nat) {
    && |t.distances| >= n && |t.durations| >= n
    && (forall i :: 0 <= i < n ==> |t.distances[i]| >= n + m)
  }

  /** Decoding of a reply to an `n`-origin, `m`-destination request, with the
      failures in the order the source checks them. */
  function DecodeBulk(reply: TableReply, n: nat, m: nat): (r: Result<Tables, RoutingError>)
    ensures r.Ok? ==> Covers(r.value, n, m)
    ensures r.Ok? <==> HasMatrices(reply)
                       && Covers(Tables(reply.body.value.distances.value, reply.body.value.durations.value), n, m)
    ensures r.Ok? ==> r.value == Tables(reply.body.value.distances.value, reply.body.value.durations.value)
  {
    match reply
    case NetworkFailure => Err(FetchFailed)
    case Reply(status, body) =>
      if !IsOkStatus(status) then Err(RequestFailed(status))
      else if body.None? then Err(InvalidJson)
      else if body.value.distances.None? || body.value.durations.None? then Err(NoMatrices)
      else
        var t := Tables(body.value.distances.value, body.value.durations.value);
        if Covers(t, n, m) then Ok(t) else Err(MalformedMatrix)
  }

  /** One entry of the single-property answer. */
  datatype RouteLeg = RouteLeg(distance: Cell, duration: Cell, poiIndex: nat)

  /** Decoding of a reply to the single-property request: one leg per cell of
      distance row 0 after the first (the property itself), whatever the
      number of POIs, with the duration read from the same column of duration
      row 0. A missing distance row 0 is the TypeError the source throws, and
      so is a missing duration row 0 once there is a leg to build. */
  function DecodeSingle(reply: TableReply): (r: Result<seq<RouteLeg>, RoutingError>)
  {
    match reply
    case NetworkFailure => Err(FetchFailed)
    case Reply(status, body) =>
      if !IsOkStatus(status) then Err(RequestFailed(status))
      else if body.None? then Err(InvalidJson)
      else if body.value.distances.None? || body.value.durations.None? then Err(NoMatrices)
      else
        var dist := body.value.distances.value;
        var dur := body.value.durations.value;
        if |dist| == 0 then Err(MalformedMatrix)
        else if |dist[0]| <= 1 then Ok([])
        else if |dur| == 0 then Err(MalformedMatrix)
        else
          Ok(seq(|dist[0]| - 1, j requires 0 <= j < |dist[0]| - 1 =>
                   RouteLeg(CellAt(dist[0], j + 1), CellAt(dur[0], j + 1), j)))
  }

  /** A reply decodes exactly when it has both matrices, a distance row 0
      and, when that row has more than the property's own cell, a duration
      row 0. There is then one leg per cell after the first: leg `j` reads
      column `j + 1` of both rows and has `poiIndex == j`; its distance is a
      number or null, and its duration is `undefined` exactly when the
      duration row ends before column `j + 1`. */
  lemma DecodeSingleLayout(reply: TableReply)
    ensures DecodeSingle(reply).Ok? <==>
      && HasMatrices(reply)
      && |reply.body.value.distances.value| > 0
      && (|reply.body.value.distances.value[0]| <= 1 || |reply.body.value.durations.value| > 0)
    ensures DecodeSingle(reply).Ok? ==>
      var row := reply.body.value.distances.value[0];
      var legs := DecodeSingle(reply).value;
      && |legs| == (if |row| <= 1 then 0 else |row| - 1)
      && (legs != [] ==> |reply.body.value.durations.value| > 0)
      && (forall j :: 0 <= j < |legs| ==>
            var durRow := reply.body.value.durations.value[0];
            && legs[j] == RouteLeg(CellAt(row, j + 1), CellAt(durRow, j + 1), j)
            && !legs[j].distance.Missing?
            && (legs[j].duration.Missing? <==> |durRow| <= j + 1))
  {
  }

  /** A duration row that stops early still gives legs, the last duration
      being `undefined`; and with no POI column there is nothing to read from
      the duration matrix, even when it has no row. */
  lemma ShortDurationRows()
    ensures DecodeSingle(Reply(200, Some(TableBody(Some([[Some(0.0), Some(500.0), Some(900.0)]]),
                                                   Some([[Some(0.0), Some(40.0)]])))))
            == Ok([RouteLeg(Reached(500.0), Reached(40.0), 0), RouteLeg(Reached(900.0), Missing, 1)])
    ensures DecodeSingle(Reply(200, Some(TableBody(Some([[Some(0.0)]]), Some([]))))) == Ok([])
  {
    var row: seq<Option<real>> := [Some(0.0), Some(500.0), Some(900.0)];
    var durRow: seq<Option<real>> := [Some(0.0), Some(40.0)];
    var r := DecodeSingle(Reply(200, Some(TableBody(Some([row]), Some([durRow])))));
    assert r.Ok? && |r.value| == 2;
    var legs := r.value;
    assert legs[0] == RouteLeg(CellAt(row, 1), CellAt(durRow, 1), 0);
    assert legs[1] == RouteLeg(CellAt(row, 2), CellAt(durRow, 2), 1);
    assert legs == [legs[0], legs[1]];
  }

  // ------------------------------------------------------------------
  // Legs and scores

  datatype Leg = Leg(distance: Cell, duration: Cell, weight: real, weightedDistance: real, poiIndex: nat)

  /** `distance * weight` for a distance that is a number or null. */
  function Weighted(d: Cell, w: real): real
    requires !d.Missing?
  {
    if d.Reached? then d.value * w else 0.0
  }

  /** The weight of POI `j`: `weights[j]` when `weights` is an array whose
      entry `j` is a number, 1 otherwise. */
  function WeightAt(weights: Option<seq<Field>>, j: nat): real {
    if weights.Some? && j < |weights.value| && weights.value[j].Num? then weights.value[j].value else 1.0
  }

  /** The legs of property `i`: one per POI, reading column `n + j` of row `i`. */
  function LegsOf(t: Tables, n: nat, i: nat, m: nat, weights: Option<seq<Field>>): (legs: seq<Leg>)
    requires i < n && Covers(t, n, m)
  {
    seq(m, j requires 0 <= j < m =>
          var d := CellAt(t.distances[i], n + j);
          var w := WeightAt(weights, j);
          Leg(d, CellAt(t.durations[i], n + j), w, Weighted(d, w), j))
  }

  /** `legs.reduce((sum, leg) => sum + leg.weightedDistance, 0)`. */
  function TotalWeighted(legs: seq<Leg>): real
    decreases |legs|
  {
    if legs == [] then 0.0 else TotalWeighted(legs[..|legs| - 1]) + legs[|legs| - 1].weightedDistance
  }

  /** `Inf` stands for JavaScript's `Infinity`, the "unscored" sentinel. */
  datatype Score = Finite(value: real) | Inf

  datatype Scored = Scored(property: Property, score: Score, legs: seq<Leg>)

  /** Every property with score `Inf` and no legs, in input order. */
  function Unscored(props: seq<Property>): (r: seq<Scored>)
    ensures |r| == |props|
    ensures forall i :: 0 <= i < |props| ==> r[i] == Scored(props[i], Inf, [])
  {
    seq(|props|, i requires 0 <= i < |props| => Scored(props[i], Inf, []))
  }

  function ScoreAll(props: seq<Property>, m: nat, weights: Option<seq<Field>>, t: Tables): seq<Scored>
    requires Covers(t, |props|, m)
  {
    seq(|props|, i requires 0 <= i < |props| =>
          var legs := LegsOf(t, |props|, i, m, weights);
          Scored(props[i], Finite(TotalWeighted(legs)), legs))
  }

  /** What `scorePropertyAgainstPoisBulk` makes of the reply to its one
      request: scores on success, the all-`Inf` fallback on any failure. */
  function ScoresFromReply(props: seq<Property>, m: nat, weights: Option<seq<Field>>, reply: TableReply): seq<Scored> {
    match DecodeBulk(reply, |props|, m)
    case Ok(t) => ScoreAll(props, m, weights, t)
    case Err(_) => Unscored(props)
  }

  /** Leg `j` of property `i` reads cell `[i][N + j]` of both matrices (a
      duration past the end of its row is `undefined`), is tagged with
      `poiIndex == j`, carries the weight of POI `j`, and its weighted distance
      is distance times weight with null read as 0; the score is finite. */
  lemma ScoredLayout(props: seq<Property>, m: nat, weights: Option<seq<Field>>, reply: TableReply, i: nat, j: nat)
    requires DecodeBulk(reply, |props|, m).Ok?
    requires i < |props| && j < m
    ensures var t := DecodeBulk(reply, |props|, m).value;
      var s := ScoresFromReply(props, m, weights, reply);
      && |s| == |props| && s[i].property == props[i] && s[i].score.Finite?
      && |s[i].legs| == m
      && s[i].legs[j] == Leg(CellAt(t.distances[i], |props| + j), CellAt(t.durations[i], |props| + j),
                             WeightAt(weights, j), NullAsZero(t.distances[i][|props| + j]) * WeightAt(weights, j), j)
  {
  }

  /** A failed request gives every property score `Inf` and no legs, in input order. */
  lemma FailedReplyIsUnscored(props: seq<Property>, m: nat, weights: Option<seq<Field>>, reply: TableReply)
    requires DecodeBulk(reply, |props|, m).Err?
    ensures ScoresFromReply(props, m, weights, reply) == Unscored(props)
  {
  }

  /** Independent reference for a score: the sum over the POIs of the distance
      in row `row`, column `n + j` (null counting 0), times the weight of POI `j`. */
  function WeightedRowSum(row: seq<Option<real>>, n: nat, m: nat, weights: Option<seq<Field>>): real
    requires n + m <= |row|
  {
    if m == 0 then 0.0 else WeightedRowSum(row, n, m - 1, weights) + NullAsZero(row[n + m - 1]) * WeightAt(weights, m - 1)
  }

  lemma {:induction false} TotalWeightedIsRowSum(legs: seq<Leg>, row: seq<Option<real>>, n: nat, weights: Option<seq<Field>>)
    requires n + |legs| <= |row|
    requires forall j :: 0 <= j < |legs| ==> legs[j].weightedDistance == NullAsZero(row[n + j]) * WeightAt(weights, j)
    ensures TotalWeighted(legs) == WeightedRowSum(row, n, |legs|, weights)
    decreases |legs|
  {
    if legs != [] {
      TotalWeightedIsRowSum(legs[..|legs| - 1], row, n, weights);
    }
  }

  /** On success the score of property `i` is the weighted sum of its
      distances to the POIs. */
  lemma ScoreIsWeightedSum(props: seq<Property>, m: nat, weights: Option<seq<Field>>, reply: TableReply, i: nat)
    requires DecodeBulk(reply, |props|, m).Ok? && i < |props|
    ensures var t := DecodeBulk(reply, |props|, m).value;
      ScoresFromReply(props, m, weights, reply)[i].score
        == Finite(WeightedRowSum(t.distances[i], |props|, m, weights))
  {
    var t := DecodeBulk(reply, |props|, m).value;
    var legs := LegsOf(t, |props|, i, m, weights);
    forall j | 0 <= j < m
      ensures legs[j].weightedDistance == NullAsZero(t.distances[i][|props| + j]) * WeightAt(weights, j)
    {
      ScoredLayout(props, m, weights, reply, i, j);
    }
    TotalWeightedIsRowSum(legs, t.distances[i], |props|, weights);
  }

  /** The plain sum of a row segment, null counting 0. */
  function Sum(xs: seq<Option<real>>): real
    decreases |xs|
  {
    if xs == [] then 0.0 else Sum(xs[..|xs| - 1]) + NullAsZero(xs[|xs| - 1])
  }

  /** A POI without a numeric weight counts with weight 1; with no weights at
      all, the weighted sum is the plain sum of the distances. */
  lemma {:induction false} UnweightedRowSum(row: seq<Option<real>>, n: nat, m: nat, weights: Option<seq<Field>>)
    requires n + m <= |row|
    requires forall j :: 0 <= j < m ==> WeightAt(weights, j) == 1.0
    ensures WeightedRowSum(row, n, m, weights) == Sum(row[n..n + m])
  {
    if m > 0 {
      UnweightedRowSum(row, n, m - 1, weights);
      var xs := row[n..n + m];
      assert xs[..m - 1] == row[n..n + m - 1];
      assert xs[m - 1] == row[n + m - 1];
      assert WeightAt(weights, m - 1) == 1.0;
      assert Sum(xs) == Sum(xs[..m - 1]) + NullAsZero(xs[m - 1]);
    }
  }

  /** A POI the routing service found no route to (a null cell) adds nothing
      to the score, whatever its weight: a property that reaches none of the
      POIs scores 0, the best score there is when distances are non-negative. */
  lemma {:induction false} NoRouteRowSum(row: seq<Option<real>>, n: nat, m: nat, weights: Option<seq<Field>>)
    requires n + m <= |row|
    requires forall k :: n <= k < n + m ==> row[k].None?
    ensures WeightedRowSum(row, n, m, weights) == 0.0
  {
    if m > 0 {
      NoRouteRowSum(row, n, m - 1, weights);
    }
  }

  /** Two properties and one POI: the first property is 1000 m from it and
      the second has no route to it. The second scores 0 and is picked. */
  lemma NoRouteRanksFirst(a: Property, b: Property)
    ensures var reply := Reply(200, Some(TableBody(
              Some([[Some(0.0), Some(5.0), Some(1000.0)], [Some(5.0), Some(0.0), None]]),
              Some([[Some(0.0), Some(1.0), Some(60.0)], [Some(1.0), Some(0.0), None]]))));
      var s := ScoresFromReply([a, b], 1, None, reply);
      && s[0].score == Finite(1000.0) && s[1].score == Finite(0.0)
      && SortByScore(s) == [s[1], s[0]]
  {
    var reply := Reply(200, Some(TableBody(
              Some([[Some(0.0), Some(5.0), Some(1000.0)], [Some(5.0), Some(0.0), None]]),
              Some([[Some(0.0), Some(1.0), Some(60.0)], [Some(1.0), Some(0.0), None]]))));
    var s := ScoresFromReply([a, b], 1, None, reply);
    var t := DecodeBulk(reply, 2, 1).value;
    ScoreIsWeightedSum([a, b], 1, None, reply, 0);
    ScoreIsWeightedSum([a, b], 1, None, reply, 1);
    NoRouteRowSum(t.distances[1], 2, 1, None);
    assert WeightedRowSum(t.distances[0], 2, 1, None) == 1000.0;
    assert s[1..] == [s[1]];
    assert SortByScore([s[1]]) == [s[1]];
    assert Insert(s[0], [s[1]]) == [s[1], s[0]];
  }

  lemma NoWeightsMeansUnitWeights(weights: Option<seq<Field>>, j: nat)
    requires weights.None? || weights == Some([])
    ensures WeightAt(weights, j) == 1.0
  {
  }

  /** The worked example: distances 1000 m and 2000 m, weights 2 and 0.5,
      give the score 1000 * 2 + 2000 * 0.5 = 3000. */
  lemma WeightedExample(p: Property)
    ensures var reply := Reply(200, Some(TableBody(Some([[Some(0.0), Some(1000.0), Some(2000.0)]]),
                                                   Some([[Some(0.0), Some(60.0), Some(120.0)]]))));
      ScoresFromReply([p], 2, Some([Num(2.0), Num(0.5)]), reply)[0].score == Finite(3000.0)
  {
    var reply := Reply(200, Some(TableBody(Some([[Some(0.0), Some(1000.0), Some(2000.0)]]),
                                           Some([[Some(0.0), Some(60.0), Some(120.0)]]))));
    var t := DecodeBulk(reply, 1, 2).value;
    ScoreIsWeightedSum([p], 2, Some([Num(2.0), Num(0.5)]), reply, 0);
    assert WeightAt(Some([Num(2.0), Num(0.5)]), 0) == 2.0;
    assert WeightAt(Some([Num(2.0), Num(0.5)]), 1) == 0.5;
  }

  // ------------------------------------------------------------------
  // Ranking: `scored.sort((a, b) => a.score - b.score)`

  /** The order the comparator induces: finite scores by value, every finite
      score before `Inf`, and `Inf` tied with `Inf` (`Infinity - Infinity`
      is NaN, which the sort treats as "keep the order"). */
  predicate ScoreLe(a: Score, b: Score) {
    match (a, b)
    case (_, Inf) => true
    case (Inf, Finite(_)) => false
    case (Finite(x), Finite(y)) => x <= y
  }

  ghost predicate SortedByScore(s: seq<Scored>) {
    forall i, j :: 0 <= i < j < |s| ==> ScoreLe(s[i].score, s[j].score)
  }

  /** Inserts `x` before the first element it does not exceed. */
  function Insert(x: Scored, s: seq<Scored>): (r: seq<Scored>)
    ensures multiset(r) == multiset(s) + multiset{x}
    decreases |s|
  {
    if s == [] then [x]
    else if ScoreLe(x.score, s[0].score) then [x] + s
    else
      assert s == [s[0]] + s[1..];
      [s[0]] + Insert(x, s[1..])
  }

  /** Array.prototype.sort with the score comparator: a stable sort, written as
      an insertion sort on values. */
  function SortByScore(s: seq<Scored>): seq<Scored>
    decreases |s|
  {
    if s == [] then [] else Insert(s[0], SortByScore(s[1..]))
  }

  lemma {:induction false} InsertSorted(x: Scored, s: seq<Scored>)
    requires SortedByScore(s)
    ensures SortedByScore(Insert(x, s))
    decreases |s|
  {
    if s != [] && !ScoreLe(x.score, s[0].score) {
      InsertSorted(x, s[1..]);
      var r := Insert(x, s);
      forall k | 1 <= k < |r| ensures ScoreLe(s[0].score, r[k].score) {
        assert r[k] in multiset(Insert(x, s[1..]));
        assert r[k] == x || r[k] in s[1..];
      }
    }
  }

  /** The ranking is sorted ascending by score ... */
  lemma {:induction false} SortIsSorted(s: seq<Scored>)
    ensures SortedByScore(SortByScore(s))
    decreases |s|
  {
    if s != [] {
      SortIsSorted(s[1..]);
      InsertSorted(s[0], SortByScore(s[1..]));
    }
  }

  /** ... and a permutation of the scored list. */
  lemma {:induction false} SortIsPermutation(s: seq<Scored>)
    ensures multiset(SortByScore(s)) == multiset(s)
    decreases |s|
  {
    if s != [] {
      SortIsPermutation(s[1..]);
      MultisetOfTail(s);
    }
  }

  lemma MultisetOfTail<T>(s: seq<T>)
    requires s != []
    ensures multiset(s) == multiset(s[1..]) + multiset{s[0]}
  {
    assert s == [s[0]] + s[1..];
  }

  /** The test "has score exactly `v`". */
  function HasScore(v: Score): Scored -> bool {
    (c: Scored) => c.score == v
  }

  /** The candidates whose score is exactly `v`, in order. */
  function WithScore(s: seq<Scored>, v: Score): seq<Scored> {
    Filter(s, HasScore(v))
  }

  lemma WithScoreCons(x: Scored, s: seq<Scored>, v: Score)
    ensures WithScore([x] + s, v) == WithScore([x], v) + WithScore(s, v)
  {
    FilterAppend([x], s, HasScore(v));
  }

  lemma WithScoreSingle(x: Scored, v: Score)
    ensures WithScore([x], v) == if x.score == v then [x] else []
  {
    assert [x][1..] == [];
  }

  /** One step of the insertion: passing over `y`, which `x` exceeds, keeps
      the order of the candidates with score `v`. */
  lemma InsertStableStep(x: Scored, y: Scored, s: seq<Scored>, rest: seq<Scored>, v: Score)
    requires !ScoreLe(x.score, y.score)
    requires WithScore(rest, v) == WithScore([x], v) + WithScore(s, v)
    ensures WithScore([y] + rest, v) == WithScore([x], v) + WithScore([y] + s, v)
  {
    WithScoreCons(y, rest, v);
    WithScoreCons(y, s, v);
    WithScoreSingle(x, v);
    WithScoreSingle(y, v);
    SwapAroundEmpty(WithScore([x], v), WithScore([y], v), WithScore(s, v));
  }

  lemma SwapAroundEmpty<T>(a: seq<T>, b: seq<T>, c: seq<T>)
    requires a == [] || b == []
    ensures b + (a + c) == a + (b + c)
  {
    if a == [] {
      assert a + c == c && a + (b + c) == b + c;
    } else {
      assert b + (a + c) == a + c && b + c == c;
    }
  }

  lemma {:induction false} InsertStable(x: Scored, s: seq<Scored>, v: Score)
    ensures WithScore(Insert(x, s), v) == WithScore([x], v) + WithScore(s, v)
    decreases |s|
  {
    if s != [] {
      if ScoreLe(x.score, s[0].score) {
        WithScoreCons(x, s, v);
      } else {
        assert Insert(x, s) == [s[0]] + Insert(x, s[1..]);
        InsertStable(x, s[1..], v);
        InsertStableStep(x, s[0], s[1..], Insert(x, s[1..]), v);
        assert s == [s[0]] + s[1..];
      }
    }
  }

  /** The sort is stable: among candidates with equal scores the order of the
      input is kept. */
  lemma {:induction false} SortIsStable(s: seq<Scored>, v: Score)
    ensures WithScore(SortByScore(s), v) == WithScore(s, v)
    decreases |s|
  {
    if s != [] {
      SortIsStable(s[1..], v);
      InsertStable(s[0], SortByScore(s[1..]), v);
      WithScoreCons(s[0], s[1..], v);
      assert s == [s[0]] + s[1..];
    }
  }

  /** Sorting a sorted list changes nothing, so sorting a cached ranking
      again leaves it as it was. */
  lemma {:induction false} SortOfSorted(s: seq<Scored>)
    requires SortedByScore(s)
    ensures SortByScore(s) == s
    decreases |s|
  {
    if s != [] {
      assert SortedByScore(s[1..]);
      SortOfSorted(s[1..]);
    }
  }

  /** The worked ranking example: scores 50, 10, 30 rank as 10, 30, 50. */
  lemma RankingExample(a: Property, b: Property, c: Property)
    ensures var s := [Scored(a, Finite(50.0), []), Scored(b, Finite(10.0), []), Scored(c, Finite(30.0), [])];
      SortByScore(s) == [s[1], s[2], s[0]]
  {
    var s := [Scored(a, Finite(50.0), []), Scored(b, Finite(10.0), []), Scored(c, Finite(30.0), [])];
    assert s[1..][1..] == [s[2]];
    assert SortByScore([s[2]]) == [s[2]];
    assert SortByScore(s[1..]) == [s[1], s[2]];
    assert Insert(s[0], [s[2]]) == [s[2], s[0]];
    assert Insert(s[0], [s[1], s[2]]) == [s[1]] + Insert(s[0], [s[2]]);
  }

  // ------------------------------------------------------------------
  // The returned object

  /** `NoValidPois` is the early answer `{property: null, score: Infinity,
      distances: [], candidates: []}`; otherwise the object carries the head
      of the ranking and the whole ranking. */
  datatype Selection =
    | NoValidPois
    | Selection(property: Option<Property>, score: Score, distances: seq<Cell>, durations: seq<Cell>,
                legs: seq<Leg>, candidates: seq<Scored>)

  function Distances(legs: seq<Leg>): (r: seq<Cell>)
    ensures |r| == |legs| && forall j :: 0 <= j < |legs| ==> r[j] == legs[j].distance
  {
    seq(|legs|, j requires 0 <= j < |legs| => legs[j].distance)
  }

  function Durations(legs: seq<Leg>): (r: seq<Cell>)
    ensures |r| == |legs| && forall j :: 0 <= j < |legs| ==> r[j] == legs[j].duration
  {
    seq(|legs|, j requires 0 <= j < |legs| => legs[j].duration)
  }

  /** The object built from a ranking. */
  function Pick(ranked: seq<Scored>): Selection {
    if ranked == [] then Selection(None, Inf, [], [], [], [])
    else
      var legs := ranked[0].legs;
      Selection(Some(ranked[0].property), ranked[0].score, Distances(legs), Durations(legs), legs, ranked)
  }

  /** The answer for a ranking: `property`, `score` and `legs` all come from
      its head whenever there is one (even when that score is `Inf`), the
      head's score is the least of all candidates, and `null`/`Inf` only for
      an empty ranking. */
  lemma PickIsBest(scored: seq<Scored>)
    ensures var ranked := SortByScore(scored);
      var r := Pick(ranked);
      && r.Selection? && r.candidates == ranked
      && (scored == [] ==> r.property.None? && r.score == Inf && r.legs == [])
      && (scored != [] ==> r.property == Some(ranked[0].property) && r.score == ranked[0].score
                           && r.legs == ranked[0].legs && r.distances == Distances(r.legs)
                           && r.durations == Durations(r.legs))
      && (forall c :: c in scored ==> ScoreLe(r.score, c.score))
  {
    var ranked := SortByScore(scored);
    SortIsSorted(scored);
    SortIsPermutation(scored);
    forall c | c in scored ensures ScoreLe(Pick(ranked).score, c.score) {
      assert c in multiset(ranked);
      var k :| 0 <= k < |ranked| && ranked[k] == c;
      if k > 0 {
        assert ScoreLe(ranked[0].score, ranked[k].score);
      }
    }
    if scored != [] {
      assert |ranked| == |scored| by { assert |multiset(ranked)| == |multiset(scored)|; }
    } else {
      assert ranked == [];
    }
  }

  lemma UnscoredIsSorted(props: seq<Property>)
    ensures SortedByScore(Unscored(props))
  {
  }

  /** Fail-soft answer: when scoring fell back, the ranking is the properties
      in retrieval order with `Inf` and no legs, and `property` is the first
      retrieved property (not null) whenever there is one. */
  lemma FallbackSelection(props: seq<Property>)
    ensures Pick(SortByScore(Unscored(props)))
            == Selection(if props == [] then None else Some(props[0]), Inf, [], [], [], Unscored(props))
  {
    UnscoredIsSorted(props);
    SortOfSorted(Unscored(props));
  }

  // ------------------------------------------------------------------
  // Throttle

  /** The delay `throttledFetch` waits before a request, given the clock
      reading `now` and the time `last` of the previous request. */
  function ThrottleDelay(now: int, last: int): (d: int)
    ensures d >= 0
    ensures now + d >= last + MinRequestInterval
    ensures d == 0 <==> now - last >= MinRequestInterval
    ensures now >= last ==> d <= MinRequestInterval
  {
    if now - last < MinRequestInterval then MinRequestInterval - (now - last) else 0
  }

  /** The delay is the shortest wait that restores the 200 ms spacing. */
  lemma ThrottleDelayIsLeast(now: int, last: int, d: int)
    requires d >= 0 && now + d >= last + MinRequestInterval
    ensures ThrottleDelay(now, last) <= d
  {
  }
}
