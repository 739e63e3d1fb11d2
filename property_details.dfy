/** The pure helpers of frontend/src/pages/PropertyDetails.js: the
    de-duplicated room images, the main-image and room-image URLs, the
    blank-text guards of the comment forms and the size of the image modal. */
module PropertyDetailsPage {
  import opened Collections
  import opened Text

  /** The backend that serves images stored under a relative path. */
  const BackendHost := "https://tenantsync-backend.onrender.com"

  /** `Array.from(new Set(property.roomImages || []))`. */
  function UniqueRoomImages(roomImages: Option<seq<string>>): (r: seq<string>)
    ensures roomImages.None? ==> r == []
    ensures NoDuplicates(r)
    ensures roomImages.Some? ==> forall u :: u in r <==> u in roomImages.value
  {
    Dedup(if roomImages.Some? then roomImages.value else [])
  }

  /** An http URL is used as it is; anything else is a path on the backend. */
  function ResolveImage(img: string): (u: string)
    ensures StartsWith(img, "http") ==> u == img
    ensures !StartsWith(img, "http") ==> u == BackendHost + img
  {
    if StartsWith(img, "http") then img else BackendHost + img
  }

  /** Every resolved URL is an http URL, so resolving twice changes nothing. */
  lemma ResolvedIsHttp(img: string)
    ensures StartsWith(ResolveImage(img), "http")
    ensures ResolveImage(ResolveImage(img)) == ResolveImage(img)
  {
    if !StartsWith(img, "http") {
      var u := BackendHost + img;
      assert u[0] == 'h' && u[1] == 't' && u[2] == 't' && u[3] == 'p';
      assert u[..4] == "http";
    }
  }

  /** `mainImageUrl`: `None` (null) for a missing image or one that is blank
      after trimming; otherwise the trimmed value, resolved. */
  function MainImageUrl(mainImage: Option<string>): (r: Option<string>)
    ensures r.None? <==> mainImage.None? || IsBlank(mainImage.value)
    ensures r.Some? ==> r.value == ResolveImage(Trim(mainImage.value))
  {
    if mainImage.None? then None
    else
      var img := Trim(mainImage.value);
      TrimEmptyIffBlank(mainImage.value);
      if img == [] then None else Some(ResolveImage(img))
  }

  /** Room images are resolved without trimming, in the de-duplicated order. */
  function RoomImageUrls(roomImages: Option<seq<string>>): (r: seq<string>)
    ensures |r| == |UniqueRoomImages(roomImages)|
    ensures forall i | 0 <= i < |r| :: r[i] == ResolveImage(UniqueRoomImages(roomImages)[i])
  {
    var u := UniqueRoomImages(roomImages);
    seq(|u|, i requires 0 <= i < |u| => ResolveImage(u[i]))
  }

  /** The main image is trimmed before the prefix test and a room image is
      not: a leading space sends a room image to the backend host. */
  lemma TrimDifference(path: string)
    requires path == " http://img"
    ensures MainImageUrl(Some(path)) == Some("http://img")
    ensures ResolveImage(path) == BackendHost + path
  {
    LeadingSpaceTrimmed(path);
    HttpKept(path[1..]);
    assert !StartsWith(path, "http") by {
      assert path[0] == ' ';
    }
  }

  lemma LeadingSpaceTrimmed(path: string)
    requires path == " http://img"
    ensures path[1..] == "http://img" && Trim(path) == path[1..]
  {
    var u := path[1..];
    assert IsWhitespace(path[0]) && !IsWhitespace(u[0]);
    assert TrimStart(u) == u;
    assert TrimStart(path) == u;
    assert !IsWhitespace(u[|u| - 1]);
    assert TrimEnd(u) == u;
  }

  lemma HttpKept(u: string)
    requires u == "http://img"
    ensures ResolveImage(u) == u
  {
    assert u[..4] == "http";
  }

  /** The comment, reply and edit forms send the text as typed, and only
      when it is not blank. */
  function SubmittedText(text: string): (r: Option<string>)
    ensures r.None? <==> IsBlank(text)
    ensures r.Some? ==> r.value == text
  {
    TrimEmptyIffBlank(text);
    if Trim(text) == [] then None else Some(text)
  }

  /** The `size` argument of `openImageModal`; a dimension is given when it
      is a non-empty string. */
  datatype SizeArg = SizeArg(width: Option<string>, height: Option<string>)

  datatype ModalSize = ModalSize(width: string, height: string)

  predicate Given(v: Option<string>) {
    v.Some? && v.value != []
  }

  /** `openImageModal`'s size: either branch of the source. */
  function ModalSizeFor(size: Option<SizeArg>): ModalSize {
    if size.Some? && (Given(size.value.width) || Given(size.value.height)) then
      ModalSize(if Given(size.value.width) then size.value.width.value else "90vw",
                if Given(size.value.height) then size.value.height.value else "85vh")
    else ModalSize("90vw", "85vh")
  }

  /** The two branches amount to one rule per dimension: a given value is
      kept and a missing one defaults to 90vw wide or 85vh high. */
  lemma ModalSizePerDimension(size: Option<SizeArg>)
    ensures var m := ModalSizeFor(size);
      && m.width == (if size.Some? && Given(size.value.width) then size.value.width.value else "90vw")
      && m.height == (if size.Some? && Given(size.value.height) then size.value.height.value else "85vh")
  {
  }
}
