/** The profile handlers of backend/controllers/profileController.js:
    the id guard, the not-found answers and the `updateData` merge of
    `updateProfile`. A profile document and a request body are maps from
    field name to JSON value; whether a string is a valid database id is
    decided by the database library and is a parameter here. */
module ProfileController {
  import opened Http

  /** A JSON value as it arrives in a request body: `null`, a boolean, a
      number, a string, or an object or array (always truthy). */
  datatype JsValue = JNull | JBool(b: bool) | JNum(n: real) | JStr(s: string) | JCompound

  predicate Truthy(v: JsValue) {
    match v
    case JNull => false
    case JBool(b) => b
    case JNum(n) => n != 0.0
    case JStr(s) => s != []
    case JCompound => true
  }

  type Document = map<string, JsValue>

  const ImageField := "profileImage"
  const NoSuchProfile := "No such profile"

  /** `const { profileImage, ...otherFields } = body`, then `profileImage`
      added back only when it is truthy. */
  function UpdateData(body: Document): (u: Document)
    ensures forall k :: k != ImageField ==> (k in u <==> k in body)
    ensures forall k | k in u && k != ImageField :: u[k] == body[k]
    ensures ImageField in u <==> ImageField in body && Truthy(body[ImageField])
    ensures ImageField in u ==> u[ImageField] == body[ImageField]
  {
    var others := body - {ImageField};
    if ImageField in body && Truthy(body[ImageField]) then others[ImageField := body[ImageField]] else others
  }

  /** The update as the database applies it: every field of the patch is set. */
  function Apply(stored: Document, patch: Document): (d: Document)
    ensures forall k :: k in d <==> k in stored || k in patch
    ensures forall k | k in patch :: d[k] == patch[k]
    ensures forall k | k in stored && k !in patch :: d[k] == stored[k]
  {
    stored + patch
  }

  /** An empty, null or missing image in the body never replaces the stored
      one, and every other field of the body is written as given. */
  lemma StoredImageSurvivesEmptyPatch(stored: Document, body: Document)
    requires ImageField !in body || !Truthy(body[ImageField])
    ensures var d := Apply(stored, UpdateData(body));
      && (ImageField in d <==> ImageField in stored)
      && (ImageField in stored ==> d[ImageField] == stored[ImageField])
      && forall k | k in body && k != ImageField :: k in d && d[k] == body[k]
  {
  }

  /** A truthy image in the body is stored. */
  lemma GivenImageIsStored(stored: Document, body: Document)
    requires ImageField in body && Truthy(body[ImageField])
    ensures var d := Apply(stored, UpdateData(body));
      ImageField in d && d[ImageField] == body[ImageField]
  {
  }

  /** `getProfile`: 404 for an invalid id or a missing profile, else the profile. */
  function GetProfile(users: map<string, Document>, validId: string -> bool, id: string): (r: Response<Document>)
    ensures r.status == 200 <==> validId(id) && id in users
    ensures r.status == 200 ==> r.body == Value(users[id])
    ensures r.status != 200 ==> r == Response(404, Error(NoSuchProfile))
  {
    if !validId(id) then Response(404, Error(NoSuchProfile))
    else if id !in users then Response(404, Error(NoSuchProfile))
    else Response(200, Value(users[id]))
  }

  datatype Outcome = Outcome(response: Response<Document>, users: map<string, Document>)

  /** `deleteProfile`: 404 without a change for an invalid id or a missing
      profile; otherwise the profile is removed and returned. */
  function DeleteProfile(users: map<string, Document>, validId: string -> bool, id: string): (r: Outcome)
    ensures !validId(id) || id !in users ==> r == Outcome(Response(404, Error(NoSuchProfile)), users)
    ensures validId(id) && id in users ==>
              r.response == Response(200, Value(users[id])) && r.users == users - {id}
  {
    if !validId(id) then Outcome(Response(404, Error(NoSuchProfile)), users)
    else if id !in users then Outcome(Response(404, Error(NoSuchProfile)), users)
    else Outcome(Response(200, Value(users[id])), users - {id})
  }

  /** `updateProfile`: 404 without a change for an invalid id or a missing
      profile; otherwise the merged patch is applied and the new document
      returned. No other profile changes. */
  function UpdateProfile(users: map<string, Document>, validId: string -> bool, id: string, body: Document): (r: Outcome)
    ensures !validId(id) || id !in users ==> r == Outcome(Response(404, Error(NoSuchProfile)), users)
    ensures validId(id) && id in users ==>
              && r.users.Keys == users.Keys
              && r.users[id] == Apply(users[id], UpdateData(body))
              && (forall other | other in users && other != id :: r.users[other] == users[other])
              && r.response == Response(200, Value(r.users[id]))
  {
    if !validId(id) then Outcome(Response(404, Error(NoSuchProfile)), users)
    else if id !in users then Outcome(Response(404, Error(NoSuchProfile)), users)
    else
      var d := Apply(users[id], UpdateData(body));
      Outcome(Response(200, Value(d)), users[id := d])
  }
}
