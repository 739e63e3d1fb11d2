/** The owner-side handlers of backend/controllers/propertyController.js:
    creating an advertisement (with de-duplicated room images), approving or
    rejecting a rental request, deleting a property together with the
    Cloudinary images it names, and building the tenant search filter.
    The database is a pair of in-memory maps plus the list of notifications
    written; an upload or a destroy call to Cloudinary is outside the model
    (the uploaded URLs are parameters, the ids to destroy are an output). */
module PropertyController {
  import opened Collections
  import opened Text
  import opened Http
  import opened CloudinaryId

  type UserId = string
  type PropertyId = nat
  type RequestId = nat

  /** `req.session.user && req.session.user.id` is truthy: a present, non-empty id. */
  predicate SignedIn(session: Option<UserId>) {
    session.Some? && session.value != []
  }

  const UnauthorizedError := "Unauthorized"

  /** The form fields of an advertisement other than its images. */
  datatype AdFields = AdFields(
    houseName: string, address: string, contact: string, description: string,
    rooms: int, washrooms: int, squareFeet: int, price: int)

  /** A stored property as the handlers below use it; `mainImage` and
      `roomImages` may be absent on documents written by other code. */
  datatype Listing = Listing(
    fields: AdFields, owner: UserId, mainImage: Option<string>, roomImages: Option<seq<string>>)

  datatype RentalStatus = Pending | Approved | Rejected

  function StatusName(s: RentalStatus): string {
    match s
    case Pending => "pending"
    case Approved => "approved"
    case Rejected => "rejected"
  }

  /** A rental request; `tenant` is `None` when the populated tenant
      document no longer exists. */
  datatype RentalRequest = RentalRequest(property: PropertyId, tenant: Option<UserId>, status: RentalStatus)

  datatype Notification = Notification(tenant: UserId, message: string)

  /** The JSON values the handlers answer with. */
  datatype Reply =
    | AdCreated(message: string, property: Listing)
    | RequestUpdated(message: string, request: RentalRequest)

  // ------------------------------------------------------------------
  // Rental-request decisions

  /** The `action` of the request body: `approve` and `reject` are the only
      accepted values. */
  function StatusFor(action: Option<string>): (r: Option<RentalStatus>)
    ensures r == Some(Approved) <==> action == Some("approve")
    ensures r == Some(Rejected) <==> action == Some("reject")
    ensures r != Some(Pending)
  {
    if action == Some("approve") then Some(Approved)
    else if action == Some("reject") then Some(Rejected)
    else None
  }

  /** The text of the notification sent to the tenant. */
  function DecisionMessage(houseName: string, status: RentalStatus): string {
    "Your request for property \"" + houseName + "\" has been " + StatusName(status) + "."
  }

  /** The notification names the house and the new status. */
  lemma DecisionMessageNames(houseName: string, status: RentalStatus)
    ensures Contains(DecisionMessage(houseName, status), houseName)
    ensures Contains(DecisionMessage(houseName, status), StatusName(status))
  {
    var m := DecisionMessage(houseName, status);
    assert m == "Your request for property \"" + houseName + ("\" has been " + StatusName(status) + ".");
    ContainsPart("Your request for property \"", houseName, "\" has been " + StatusName(status) + ".");
    assert m == ("Your request for property \"" + houseName + "\" has been ") + StatusName(status) + ".";
    ContainsPart("Your request for property \"" + houseName + "\" has been ", StatusName(status), ".");
  }

  /** The message `property.owner` raises on a missing property, which the
      handler's catch turns into a 400. */
  const MissingPropertyError := "Cannot read properties of null (reading 'owner')"
  /** The message `request.tenant._id` raises on a missing tenant. */
  const MissingTenantError := "Cannot read properties of null (reading '_id')"

  // ------------------------------------------------------------------
  // Images to clean up on delete

  /** A URL that `startsWith("http")`; the empty string is not one. */
  predicate IsHttp(u: string) {
    StartsWith(u, "http")
  }

  function HttpTest(): string -> bool {
    (u: string) => IsHttp(u)
  }

  /** The list the delete handler builds: the main image if it is an http
      URL, then the http room images in their order. */
  function CleanupUrls(mainImage: Option<string>, roomImages: Option<seq<string>>): seq<string> {
    (if mainImage.Some? && IsHttp(mainImage.value) then [mainImage.value] else [])
    + (if roomImages.Some? then Filter(roomImages.value, HttpTest()) else [])
  }

  /** Only http URLs are collected, the main image first, and the rest are
      exactly the http room images in order. */
  lemma CleanupUrlsShape(mainImage: Option<string>, roomImages: Option<seq<string>>)
    ensures var r := CleanupUrls(mainImage, roomImages);
      var k := if mainImage.Some? && IsHttp(mainImage.value) then 1 else 0;
      && (forall i | 0 <= i < |r| :: IsHttp(r[i]))
      && k <= |r| && (k == 1 ==> r[0] == mainImage.value)
      && r[k..] == (if roomImages.Some? then Filter(roomImages.value, HttpTest()) else [])
  {
    var r := CleanupUrls(mainImage, roomImages);
    forall i | 0 <= i < |r| ensures IsHttp(r[i]) {
      assert r[i] in r;
    }
  }

  /** The list the delete handler builds: the main image when it is an http
      URL, then the room images pushed by the `forEach`. */
  method CollectImages(mainImage: Option<string>, roomImages: Option<seq<string>>) returns (images: seq<string>)
    ensures images == CleanupUrls(mainImage, roomImages)
  {
    images := [];
    if mainImage.Some? && IsHttp(mainImage.value) {
      images := images + [mainImage.value];
    }
    if roomImages.Some? {
      images := PushHttpImages(images, roomImages.value);
    } else {
      assert images + [] == images;
    }
  }

  /** The `forEach` over the room images: each http URL is pushed, in order. */
  method PushHttpImages(head: seq<string>, rooms: seq<string>) returns (images: seq<string>)
    ensures images == head + Filter(rooms, HttpTest())
  {
    images := head;
    var i := 0;
    while i < |rooms|
      invariant 0 <= i <= |rooms|
      invariant images == head + Filter(rooms[..i], HttpTest())
    {
      HttpFilterStep(head, rooms, i);
      if IsHttp(rooms[i]) {
        images := images + [rooms[i]];
      }
      i := i + 1;
    }
    assert rooms[..i] == rooms;
  }

  /** One more room image extends the collected list by that image exactly
      when it is an http URL. */
  lemma HttpFilterStep(head: seq<string>, rooms: seq<string>, i: nat)
    requires i < |rooms|
    ensures head + Filter(rooms[..i + 1], HttpTest())
         == head + Filter(rooms[..i], HttpTest()) + (if IsHttp(rooms[i]) then [rooms[i]] else [])
  {
    var f := Filter(rooms[..i], HttpTest());
    var d := if IsHttp(rooms[i]) then [rooms[i]] else [];
    assert rooms[..i + 1] == rooms[..i] + [rooms[i]];
    FilterAppend(rooms[..i], [rooms[i]], HttpTest());
    FilterSingleton(rooms[i], HttpTest());
    assert head + (f + d) == head + f + d;
  }

  /** `images.map(extractPublicIdFromUrl).filter(Boolean)`. */
  function PublicIds(images: seq<string>): (r: seq<string>)
    ensures |r| <= |images|
    decreases |images|
  {
    if images == [] then []
    else
      (match ExtractPublicId(Some(images[0])) case Some(id) => [id] case None => [])
      + PublicIds(images[1..])
  }

  /** An id is destroyed exactly when some collected URL yields it; none is empty. */
  lemma {:induction false} PublicIdsMembership(images: seq<string>, id: string)
    ensures id in PublicIds(images) <==> exists u | u in images :: ExtractPublicId(Some(u)) == Some(id)
    ensures id in PublicIds(images) ==> id != []
    decreases |images|
  {
    if images != [] {
      PublicIdsMembership(images[1..], id);
      assert images == [images[0]] + images[1..];
      if ExtractPublicId(Some(images[0])) == Some(id) {
        assert images[0] in images;
      }
    }
  }

  /** A URL list that extracts without failure keeps its length and order. */
  lemma {:induction false} PublicIdsAllExtract(images: seq<string>)
    requires forall i | 0 <= i < |images| :: ExtractPublicId(Some(images[i])).Some?
    ensures |PublicIds(images)| == |images|
    ensures forall i | 0 <= i < |images| :: Some(PublicIds(images)[i]) == ExtractPublicId(Some(images[i]))
    decreases |images|
  {
    if images != [] {
      PublicIdsAllExtract(images[1..]);
    }
  }

  // ------------------------------------------------------------------
  // Search

  /** `{ $regex: address, $options: "i" }`. */
  datatype AddressTerm = AddressTerm(regex: string, caseInsensitive: bool)

  /** The filter object: a missing entry is no constraint; a `rooms` entry
      of `None` is `parseInt` giving NaN. */
  datatype SearchFilter = SearchFilter(address: Option<AddressTerm>, rooms: Option<Option<int>>)

  /** The filter built from the query parameters, entry by entry. */
  function BuildSearchFilter(address: Option<string>, rooms: Option<string>): (f: SearchFilter)
    ensures f.address.Some? <==> address.Some? && address.value != []
    ensures f.address.Some? ==> f.address.value == AddressTerm(address.value, true)
    ensures f.rooms.Some? <==> rooms.Some? && rooms.value != []
    ensures f.rooms.Some? ==> f.rooms.value == ParseInt(rooms.value)
  {
    var withAddress := if address.Some? && address.value != [] then Some(AddressTerm(address.value, true)) else None;
    var withRooms := if rooms.Some? && rooms.value != [] then Some(ParseInt(rooms.value)) else None;
    SearchFilter(withAddress, withRooms)
  }

  /** With neither parameter the filter is empty; a digit string becomes its number. */
  lemma SearchFilterExamples()
    ensures BuildSearchFilter(None, Some("")) == SearchFilter(None, None)
    ensures BuildSearchFilter(Some("Dhaka"), Some("3")).rooms == Some(Some(3))
  {
    ParseIntAgreesWithNumber("3");
    assert TrimEnd("3") == "3";
    assert Trim("3") == "3";
  }

  // ------------------------------------------------------------------
  // The store

  class PropertyDesk {
    var properties: map<PropertyId, Listing>
    var requests: map<RequestId, RentalRequest>
    var notifications: seq<Notification>
    var nextId: PropertyId

    ghost predicate Valid()
      reads this
    {
      forall id | id in properties :: id < nextId
    }

    constructor ()
      ensures Valid() && properties == map[] && requests == map[] && notifications == []
    {
      properties := map[];
      requests := map[];
      notifications := [];
      nextId := 0;
    }

    /** `createAdvertisement`: 401 without a signed-in owner; otherwise the
        uploaded main image (or `""`) and the de-duplicated room images are
        stored, and a main image of `""` fails the schema's `required` check. */
    method CreateAdvertisement(session: Option<UserId>, fields: AdFields, mainUpload: Option<string>,
                               roomUploads: seq<string>)
      returns (resp: Response<Reply>, id: Option<PropertyId>)
      requires Valid()
      modifies this
      ensures Valid()
      ensures requests == old(requests) && notifications == old(notifications)
      ensures !SignedIn(session) ==>
                resp == Response(401, Error(UnauthorizedError)) && id.None? && properties == old(properties)
      ensures SignedIn(session) && (mainUpload.None? || mainUpload.value == []) ==>
                resp.status == 400 && id.None? && properties == old(properties)
      ensures SignedIn(session) && mainUpload.Some? && mainUpload.value != [] ==>
                var p := Listing(fields, session.value, mainUpload, Some(Dedup(roomUploads)));
                && id.Some? && id.value !in old(properties)
                && properties == old(properties)[id.value := p]
                && resp == Response(201, Value(AdCreated("Advertisement created", p)))
    {
      if !SignedIn(session) {
        return Response(401, Error(UnauthorizedError)), None;
      }
      var mainImage := if mainUpload.Some? then mainUpload.value else "";
      var unique := Dedup(roomUploads);
      if mainImage == [] {
        return Response(400, Error("Property validation failed: mainImage: Path `mainImage` is required.")), None;
      }
      var p := Listing(fields, session.value, Some(mainImage), Some(unique));
      properties := properties[nextId := p];
      id := Some(nextId);
      nextId := nextId + 1;
      resp := Response(201, Value(AdCreated("Advertisement created", p)));
    }

    /** `updateRentalRequest`: 401, then 400 for an unknown action, 404 for a
        missing request, 400 for a missing property and 403 for another
        owner, each leaving the store as it was; otherwise the status is
        saved and the tenant notified. A missing tenant fails after the
        save, with no notification. */
    method UpdateRentalRequest(session: Option<UserId>, id: RequestId, action: Option<string>)
      returns (resp: Response<Reply>)
      requires Valid()
      modifies this
      ensures Valid()
      ensures properties == old(properties)
      ensures !SignedIn(session) ==>
                resp == Response(401, Error(UnauthorizedError))
                && requests == old(requests) && notifications == old(notifications)
      ensures SignedIn(session) && StatusFor(action).None? ==>
                resp == Response(400, Error("Invalid action"))
                && requests == old(requests) && notifications == old(notifications)
      ensures SignedIn(session) && StatusFor(action).Some? && id !in old(requests) ==>
                resp == Response(404, Error("Rental request not found"))
                && requests == old(requests) && notifications == old(notifications)
      ensures SignedIn(session) && StatusFor(action).Some? && id in old(requests)
              && old(requests)[id].property !in old(properties) ==>
                resp == Response(400, Error(MissingPropertyError))
                && requests == old(requests) && notifications == old(notifications)
      ensures SignedIn(session) && StatusFor(action).Some? && id in old(requests)
              && old(requests)[id].property in old(properties)
              && old(properties)[old(requests)[id].property].owner != session.value ==>
                resp == Response(403, Error("Not authorized to update this request"))
                && requests == old(requests) && notifications == old(notifications)
      ensures SignedIn(session) && StatusFor(action).Some? && id in old(requests)
              && old(requests)[id].property in old(properties)
              && old(properties)[old(requests)[id].property].owner == session.value ==>
                var status := StatusFor(action).value;
                var r := old(requests)[id].(status := status);
                var house := old(properties)[r.property].fields.houseName;
                && requests == old(requests)[id := r]
                && (r.tenant.Some? ==>
                      && notifications == old(notifications) + [Notification(r.tenant.value, DecisionMessage(house, status))]
                      && resp == Json(RequestUpdated("Rental request " + StatusName(status), r)))
                && (r.tenant.None? ==>
                      notifications == old(notifications) && resp == Response(400, Error(MissingTenantError)))
    {
      if !SignedIn(session) {
        return Response(401, Error(UnauthorizedError));
      }
      var decided := StatusFor(action);
      if decided.None? {
        return Response(400, Error("Invalid action"));
      }
      var status := decided.value;
      if id !in requests {
        return Response(404, Error("Rental request not found"));
      }
      var request := requests[id];
      if request.property !in properties {
        return Response(400, Error(MissingPropertyError));
      }
      var property := properties[request.property];
      if property.owner != session.value {
        return Response(403, Error("Not authorized to update this request"));
      }
      request := request.(status := status);
      requests := requests[id := request];
      if request.tenant.None? {
        return Response(400, Error(MissingTenantError));
      }
      notifications := notifications + [Notification(request.tenant.value, DecisionMessage(property.fields.houseName, status))];
      resp := Json(RequestUpdated("Rental request " + StatusName(status), request));
    }

    /** `deleteProperty`: 401, 404 and 403 leave the store as it was;
        otherwise the property is removed and `destroyed` lists the public
        ids handed to Cloudinary, those of the collected image URLs. */
    method DeleteProperty(session: Option<UserId>, id: PropertyId)
      returns (resp: Response<Reply>, destroyed: seq<string>)
      requires Valid()
      modifies this
      ensures Valid()
      ensures requests == old(requests) && notifications == old(notifications)
      ensures !SignedIn(session) ==>
                resp == Response(401, Error(UnauthorizedError)) && destroyed == [] && properties == old(properties)
      ensures SignedIn(session) && id !in old(properties) ==>
                resp == Response(404, Error("Property not found")) && destroyed == [] && properties == old(properties)
      ensures SignedIn(session) && id in old(properties) && old(properties)[id].owner != session.value ==>
                resp == Response(403, Error("Not authorized to delete this property"))
                && destroyed == [] && properties == old(properties)
      ensures SignedIn(session) && id in old(properties) && old(properties)[id].owner == session.value ==>
                var p := old(properties)[id];
                && destroyed == PublicIds(CleanupUrls(p.mainImage, p.roomImages))
                && properties == old(properties) - {id}
                && resp == Response(200, Message("Property deleted successfully"))
    {
      if !SignedIn(session) {
        return Response(401, Error(UnauthorizedError)), [];
      }
      if id !in properties {
        return Response(404, Error("Property not found")), [];
      }
      var p := properties[id];
      if p.owner != session.value {
        return Response(403, Error("Not authorized to delete this property")), [];
      }
      var images := CollectImages(p.mainImage, p.roomImages);
      destroyed := PublicIds(images);
      properties := properties - {id};
      resp := Response(200, Message("Property deleted successfully"));
    }
  }
}
