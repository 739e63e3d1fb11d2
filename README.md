# RentEase core, modelled in Dafny

RentEase is a rental platform. Owners advertise properties, and tenants search, comment, review and request rentals. Its most algorithmic part is the property-selection engine. A tenant names up to five points of interest (POIs) with weights. The engine asks a routing service (OSRM, `table/v1`) for one distance matrix covering every candidate property and every POI. It then scores each property by its weighted distance sum, ranks the properties and returns the best one. It also keeps a process-wide route cache and throttles requests.

This project models that engine together with the smaller pieces of logic around it:

- the comment store and its handlers;
- the owner-side property handlers, including the Cloudinary public-id extractor;
- review uniqueness and the profile-update merge;
- the pure helpers and validators of the front-end pages: login, registration, payment, rating stars, home filter, property details, the POI map, the navigation bar and the review form.

Each source file becomes one module:

| module | source file | form |
|---|---|---|
| `PropertySelection` | backend/services/propertySelectionService.js | functions and lemmas: POI validation, request layout, matrix decoding, scoring, insertion sort, the returned object, throttle delay |
| `SelectionService` | backend/services/propertySelectionService.js | class `RouteClient` with the route cache, the last request time and the requests sent; methods for the four operations |
| `Comments` | backend/models/Comment.js | class `CommentRepo` over a map of comments, plus the reaction toggles as functions |
| `CommentController` | backend/controllers/commentController.js | methods mapping store results to responses |
| `PropertyController`, `CloudinaryId` | backend/controllers/propertyController.js | class `PropertyDesk` for the handlers; the public-id regular expression as a backtracking matcher with a declarative counterpart |
| `ReviewController` | backend/controllers/reviewController.js | class `ReviewStore` |
| `ProfileController` | backend/controllers/profileController.js | functions over maps |
| `LoginPage`, `RegisterPage`, `EmailFormat` | frontend/src/pages/Login.js, Register.js | functions |
| `PaymentPage`, `RatingStars`, `HomePage`, `PropertyDetailsPage`, `Navbar` | the page or component of the same name | functions |
| `PoiMap` | frontend/src/components/map.js | class `MapView` with the POI list and the two marker lists |
| `ReviewForm` | frontend/src/pages/ReviewForm.js | class `ReviewForm` with the form state |
| `Collections`, `Text`, `Http` | — | shared: `Option`/`Result`, filter, dedup, `trim`, ASCII `toLowerCase`, `includes`, `parseInt` and `Number` on digit strings, the response type |

The routing service and the clock are parameters. `osrm` is a function from the coordinate list of a request to its reply, which is a network failure, a status with an unparsable body, or a status with the decoded body. The throttle receives the clock reading before its wait and the reading after it. A matrix cell of the reply is a number or `null` (no route). Reading a cell gives `Reached`, `NoRoute` or, past the end of a row, `Missing` (`undefined`). In arithmetic, `null` reads as 0. A score is `Finite(real)` or `Inf`, which stands for JavaScript's `Infinity`. The JavaScript sort is modelled by a stable insertion sort on values (`SortByScore`). The class writes the sorted list back into the cache entry when the scored list came from the cache, because the source sorts the cached array in place.

Where the code and its description disagree, the model follows the code:

- `findBestProperty` returns `ranked[0].property` even when that candidate's score is `Infinity`. It does not return `null` then.
- The bulk cache key does not include the weights.

There is one deliberate departure, recorded under "## Findings". The source's bulk cache key is a flat string that lets two different calls collide. `RouteClient` keys its cache with the corrected key, which keeps the property points and the POI points apart. The flat key and its consequence are modelled on values by `AsWrittenBulkStep`.

## Model

| member | source | states |
|---|---|---|
| PropertySelection.ValidPoisAppend | backend/services/propertySelectionService.js:140-142 | POI validation is a filter: the valid POIs of a concatenation are the valid POIs of each part, in order |
| PropertySelection.ValidPoisSingle | backend/services/propertySelectionService.js:140-142 | a single entry is kept exactly when it is non-null with numeric latitude and longitude |
| PropertySelection.ValidPoisExample | backend/services/propertySelectionService.js:140-142 | a POI with a non-number latitude is dropped and a well-formed one is kept |
| PropertySelection.CandidatesMeetFilters | backend/services/propertySelectionService.js:149-161 | every candidate has both coordinates and comes from the store; each truthy min-price, max-price and rooms filter holds; at most `limit` candidates |
| PropertySelection.PropertyCoordinates | backend/services/propertySelectionService.js:88-89 | one `[Number(longitude), Number(latitude)]` pair per property, in retrieval order (null reads as 0) |
| PropertySelection.BulkRequestLayout | backend/services/propertySelectionService.js:87-92 | the batched request has N + M coordinates: property `i` at `i` and POI `j` at `N + j`, longitude first |
| PropertySelection.DecodeBulk | backend/services/propertySelectionService.js:99-121 | a reply decodes exactly when its status is 2xx, its body parses, both matrices are present, both have N rows and the distance rows reach N + M columns; duration rows may be shorter |
| PropertySelection.DecodeSingleLayout | backend/services/propertySelectionService.js:52-69 | a reply decodes exactly when it has both matrices, a distance row 0 and, if that row has a POI cell, a duration row 0; there is one leg per cell after the first; leg `j` reads column `j + 1` of both rows and has `poiIndex == j`; its duration is `undefined` exactly when the duration row ends before that column |
| PropertySelection.ShortDurationRows | backend/services/propertySelectionService.js:63-69 | a duration row that stops early gives a leg with an `undefined` duration; `distances = [[0]]` with `durations = []` gives `[]` |
| PropertySelection.Unscored | backend/services/propertySelectionService.js:74-75 | the fallback: every property in input order, with score `Inf` and no legs |
| PropertySelection.ScoredLayout | backend/services/propertySelectionService.js:113-127 | leg `j` of property `i` reads cell `[i][N + j]` of both matrices, where a short duration row gives `undefined`; it carries the weight of POI `j` and `distance * weight` with `null` read as 0; the score is finite |
| PropertySelection.FailedReplyIsUnscored | backend/services/propertySelectionService.js:102-110 | any failed reply gives every property score `Inf` and no legs |
| PropertySelection.TotalWeightedIsRowSum | backend/services/propertySelectionService.js:126 | the `reduce` over the legs equals the weighted sum over row `i` |
| PropertySelection.ScoreIsWeightedSum | backend/services/propertySelectionService.js:113-127 | on success, the score of property `i` is `Finite` of the sum over POIs `j` of `distances[i][N + j] * weight(j)`, with `null` counting 0 |
| PropertySelection.UnweightedRowSum | backend/services/propertySelectionService.js:116-126 | with unit weights, the score is the plain sum of the distances `distances[i][N..N + M]`, with `null` counting 0 |
| PropertySelection.NoRouteRowSum | backend/services/propertySelectionService.js:118-126 | a POI with no route (a `null` cell) adds nothing, whatever its weight; a property that reaches no POI scores 0 |
| PropertySelection.NoRouteRanksFirst | backend/services/propertySelectionService.js:113-170 | of a property 1000 m from the POI and one with no route to it, the second scores 0 and is ranked first |
| PropertySelection.NoWeightsMeansUnitWeights | backend/services/propertySelectionService.js:116 | with no weights array, or an empty one, every POI has weight 1 |
| PropertySelection.WeightedExample | backend/services/propertySelectionService.js:113-127 | distances 1000 and 2000 with weights 2 and 0.5 give score 3000 |
| PropertySelection.Insert | backend/services/propertySelectionService.js:170 | one insertion step adds exactly its element (multiset) |
| PropertySelection.InsertSorted | backend/services/propertySelectionService.js:170 | inserting into a sorted ranking keeps it sorted |
| PropertySelection.SortIsSorted | backend/services/propertySelectionService.js:170 | the ranking is sorted by the comparator `a.score - b.score` (`Inf` last) |
| PropertySelection.SortIsPermutation | backend/services/propertySelectionService.js:170 | the ranking is a permutation of the scored list |
| PropertySelection.InsertStable | backend/services/propertySelectionService.js:170 | insertion keeps the relative order of the candidates with equal scores |
| PropertySelection.SortIsStable | backend/services/propertySelectionService.js:170 | the sort is stable: the candidates with any given score keep their input order |
| PropertySelection.SortOfSorted | backend/services/propertySelectionService.js:170 | sorting a sorted list changes nothing |
| PropertySelection.RankingExample | backend/services/propertySelectionService.js:170 | scores 50, 10, 30 are ranked 10, 30, 50 |
| PropertySelection.Distances | backend/services/propertySelectionService.js:190 | `distances` is the legs' distances, index by index |
| PropertySelection.Durations | backend/services/propertySelectionService.js:191 | `durations` is the legs' durations, index by index |
| PropertySelection.PickIsBest | backend/services/propertySelectionService.js:177-194 | `property`, `score` and `legs` come from `ranked[0]` whenever one exists (even with score `Inf`); `null`/`Inf`/`[]` only for an empty ranking; the chosen score is the least of all candidates; `candidates` is the ranking |
| PropertySelection.UnscoredIsSorted | backend/services/propertySelectionService.js:170 | a list of unscored candidates is already sorted |
| PropertySelection.FallbackSelection | backend/services/propertySelectionService.js:168-194 | after a failed scoring, the answer is the first property with score `Inf` and no legs, and the candidates are all properties in input order |
| PropertySelection.ThrottleDelay | backend/services/propertySelectionService.js:14-19 | the wait is non-negative and zero exactly when 200 ms have passed; it restores the 200 ms spacing; it is at most 200 ms if the clock did not go back |
| PropertySelection.ThrottleDelayIsLeast | backend/services/propertySelectionService.js:14-19 | every wait that restores the spacing is at least the throttle's wait |
| SelectionService.PropertyPoints | backend/services/propertySelectionService.js:78 | the property part of the bulk key: one `latitude,longitude` token per property, in order |
| SelectionService.PoiPoints | backend/services/propertySelectionService.js:78 | the POI part of a key: one token per POI, in order |
| SelectionService.AsWrittenSecondCallReusesFirst | backend/services/propertySelectionService.js:78-79 | on the flat key as written, after properties [A, B] with POI [C] were scored and cached, property [A] with POIs [B, C] is answered from the cache with the two candidates of the first call, and the cache is unchanged |
| SelectionService.AsWrittenBulkKeyCollides | backend/services/propertySelectionService.js:78 | the key as written is the same for properties [A, B] with POIs [C] and for properties [A] with POIs [B, C], while the two calls have 2 and 1 candidates |
| SelectionService.BulkKeyDetermines | backend/services/propertySelectionService.js:78-79 | two bulk calls share a corrected key exactly when their property points and POIs agree; they then send the same coordinate list; the weights play no part |
| SelectionService.ScoreAllFits | backend/services/propertySelectionService.js:113-131 | every successfully scored candidate stored in the cache has one leg per POI in POI order and a finite score equal to its weighted sum |
| SelectionService.DecodeSingleOrdered | backend/services/propertySelectionService.js:63-67 | the single-property legs are tagged `0, 1, …` in POI order |
| SelectionService.RouteClient.constructor | backend/services/propertySelectionService.js:4-7 | an empty cache and a last request time of 0 |
| SelectionService.RouteClient.ThrottledFetch | backend/services/propertySelectionService.js:14-21 | waits `ThrottleDelay(now, lastRequestTime)` and then records the clock; the cache is untouched |
| SelectionService.RouteClient.DistancesFromPropertyToPois | backend/services/propertySelectionService.js:30-71 | no POIs gives `[]`; a cached key is answered from the cache with no request; otherwise one request goes out and the reply is decoded by `DecodeSingle`, which accepts short or missing duration rows as the source does; the legs are cached exactly when decoding succeeds |
| SelectionService.RouteClient.ScorePropertyAgainstPoisBulk | backend/services/propertySelectionService.js:73-136 | no POIs or no properties gives the unscored list with no request; a cached key is answered from the cache with no throttle or request, whatever the weights; otherwise one batched request goes out, and the result is cached exactly when decoding succeeds |
| SelectionService.RouteClient.SortScored | backend/services/propertySelectionService.js:170 | the ranking is `SortByScore(scored)`; when the list is the cached one, the cache entry becomes the sorted list (in-place sort); a sorted list changes nothing |
| SelectionService.RouteClient.RankCandidates | backend/services/propertySelectionService.js:168-194 | the answer is `Pick` of the sorted scores, from the cache or from the one request; the state changes as the two steps say; cached rankings stay sorted |
| SelectionService.RouteClient.FindBestProperty | backend/services/propertySelectionService.js:138-195 | with no valid POI, the answer is `{null, Inf, [], []}` and nothing changes; with no candidate, the answer is `Pick([])` and nothing changes; for a cached key, the answer is `Pick` of the re-sorted cached ranking with no request, and the entry becomes that ranking; otherwise one batched request goes out and the throttle records the clock; the answer is `Pick` of its sorted scores, cached only on success; there is always one candidate per retrieved property (under the corrected key) |
| Comments.WithoutCount | backend/models/Comment.js:72 | removing `u` drops every occurrence of `u` and keeps every other id as often as before |
| Comments.WithoutKeepsOrder | backend/models/Comment.js:72 | the removal distributes over concatenation, so the other ids keep their order |
| Comments.LikedEffect | backend/models/Comment.js:71-72 | after a like, `u` is in `likes` (added once when absent, unchanged when present) and in no dislike; the other users' reactions and the rest of the comment are unchanged |
| Comments.DislikedEffect | backend/models/Comment.js:79-80 | the mirror image for a dislike |
| Comments.LikeIdempotent | backend/models/Comment.js:71-72 | liking twice is liking once |
| Comments.DislikeIdempotent | backend/models/Comment.js:79-80 | disliking twice is disliking once |
| Comments.TogglesKeepExclusive | backend/models/Comment.js:68-83 | either toggle keeps every user out of one of the two lists |
| Comments.LikeThenDislike | backend/models/Comment.js:68-83 | a like followed by a dislike leaves the user among the dislikes only |
| Comments.CommentRepo.constructor | backend/models/Comment.js:34-36 | an empty store |
| Comments.CommentRepo.Create | backend/models/Comment.js:37-39 | stores one new comment, with no replies or reactions, under a fresh id |
| Comments.CommentRepo.AddReply | backend/models/Comment.js:46-52 | a missing comment gives null and no change; otherwise exactly one reply is appended at the end |
| Comments.CommentRepo.UpdateContentIfAuthor | backend/models/Comment.js:53-60 | `not_found`, or `forbidden` for another author, with no change; otherwise only the content is replaced |
| Comments.CommentRepo.DeleteIfAuthor | backend/models/Comment.js:61-67 | `not_found` and `forbidden` as for an edit; otherwise exactly that comment is removed |
| Comments.CommentRepo.ToggleLike | backend/models/Comment.js:68-75 | a missing comment gives null; otherwise the comment becomes `Liked(c, u)` |
| Comments.CommentRepo.ToggleDislike | backend/models/Comment.js:76-83 | a missing comment gives null; otherwise the comment becomes `Disliked(c, u)` |
| CommentController.ReplyContentMissingIffBlank | backend/controllers/commentController.js:31 | a reply is refused exactly when its content is absent or only whitespace |
| CommentController.RefusalResponse | backend/controllers/commentController.js:60-61 | `forbidden` maps to 403 and `not_found` to 404 |
| CommentController.EditResponse | backend/controllers/commentController.js:60-62 | 200 with the comment exactly when it was updated; otherwise the refusal's status |
| CommentController.DeleteResponse | backend/controllers/commentController.js:74-76 | 200 with "Comment deleted" exactly when deleted; otherwise the refusal's status |
| CommentController.FoundResponse | backend/controllers/commentController.js:85-86 | 404 exactly when the comment is missing, else the comment as JSON |
| CommentController.CreateComment | backend/controllers/commentController.js:3-15 | no content check: any content is stored under a fresh id; no session user gives 500 and no change |
| CommentController.ReplyToComment | backend/controllers/commentController.js:26-49 | blank content gives 400 before the store is touched; a missing comment gives 404; otherwise one reply is appended and the comment is returned |
| CommentController.EditComment | backend/controllers/commentController.js:52-66 | 404 or 403 with no change; otherwise the new content and the comment are returned |
| CommentController.DeleteComment | backend/controllers/commentController.js:68-80 | 404 or 403 with no change; otherwise the comment is removed and "Comment deleted" is returned |
| CommentController.LikeComment | backend/controllers/commentController.js:82-90 | 404 for a missing comment; otherwise the toggled comment |
| CommentController.DislikeComment | backend/controllers/commentController.js:92-100 | 404 for a missing comment; otherwise the toggled comment |
| PropertyController.StatusFor | backend/controllers/propertyController.js:161-168 | `approve` gives approved and `reject` gives rejected, and nothing else is accepted |
| PropertyController.DecisionMessageNames | backend/controllers/propertyController.js:180-183 | the notification text contains the house name and the new status |
| PropertyController.CleanupUrlsShape | backend/controllers/propertyController.js:279-285 | only http URLs are collected: first the main image if it is one, then exactly the http room images in order |
| PropertyController.CollectImages | backend/controllers/propertyController.js:279-285 | the `push` loop builds exactly that list |
| PropertyController.PushHttpImages | backend/controllers/propertyController.js:281-285 | the `forEach` appends the http room images, in order, to what was collected before |
| PropertyController.PublicIds | backend/controllers/propertyController.js:287-289 | at most one id per URL |
| PropertyController.PublicIdsMembership | backend/controllers/propertyController.js:287-289 | an id is destroyed exactly when some collected URL yields it, and no id is empty |
| PropertyController.PublicIdsAllExtract | backend/controllers/propertyController.js:287-289 | when every URL yields an id, the ids are those, one per URL, in order |
| PropertyController.BuildSearchFilter | backend/controllers/propertyController.js:225-235 | an `address` entry (case-insensitive) exactly when the address is non-empty; a `rooms` entry, `parseInt` of it, exactly when rooms is non-empty |
| PropertyController.SearchFilterExamples | backend/controllers/propertyController.js:225-235 | empty parameters give the empty filter; rooms "3" gives 3 |
| PropertyController.PropertyDesk.constructor | backend/controllers/propertyController.js:1-4 | no properties, requests or notifications |
| PropertyController.PropertyDesk.CreateAdvertisement | backend/controllers/propertyController.js:60-123 | no session gives 401; no main image gives 400 (the schema requires it); otherwise one listing under a fresh id with the room images de-duplicated and 201 |
| PropertyController.PropertyDesk.UpdateRentalRequest | backend/controllers/propertyController.js:153-190 | 401, 400 for an invalid action, 404, 400 for a missing property and 403 for a non-owner leave everything unchanged; otherwise the status is set and the tenant is notified with the house name and the status |
| PropertyController.PropertyDesk.DeleteProperty | backend/controllers/propertyController.js:265-302 | 401, 404 and 403 change nothing; otherwise the ids of the collected http URLs are destroyed and the property is removed |
| CloudinaryId.ExtractPublicId | backend/controllers/propertyController.js:48-52 | no value or the empty string gives null; an id, when there is one, is never empty |
| CloudinaryId.LastSuffix | backend/controllers/propertyController.js:51 | the greedy group ends at the last dot that an extension and optional query can follow |
| CloudinaryId.CaptureFromSpans | backend/controllers/propertyController.js:51 | group 1 from `c` exists exactly when some end completes the match, and it is the longest such span |
| CloudinaryId.VersionEndIffSegment | backend/controllers/propertyController.js:51 | the version step ends at `c` exactly when `v`, one or more digits and `/` fill the span |
| CloudinaryId.SuffixAtIffTail | backend/controllers/propertyController.js:51 | the suffix test is `.`, one or more alphanumerics, then the end or `?` and any rest of the line |
| CloudinaryId.MatchAtSpans | backend/controllers/propertyController.js:51 | an attempt at `/upload/` succeeds exactly when the expression matches from there |
| CloudinaryId.FirstMatchFindsLeftmost | backend/controllers/propertyController.js:51 | the search returns the attempt at the first start position that succeeds |
| CloudinaryId.FirstMatchSome | backend/controllers/propertyController.js:51 | a successful search comes from a start where `/upload/` matches, with no earlier successful start |
| CloudinaryId.NoFirstMatch | backend/controllers/propertyController.js:51 | the search succeeds when any later start succeeds |
| CloudinaryId.ExtractIffMatches | backend/controllers/propertyController.js:48-52 | an id is returned exactly when the regular expression matches the URL somewhere |
| CloudinaryId.MatchAtLongest | backend/controllers/propertyController.js:51 | the attempt's group is the longest span from its start, and starts after `/upload/` only when no version segment there can be completed to a match |
| CloudinaryId.ExtractedIdIsLeftmostLongest | backend/controllers/propertyController.js:48-52 | the returned id is group 1 of the leftmost match: the version segment is dropped whenever the match can be completed after it, and the capture is the longest one |
| CloudinaryId.VersionedUrl | backend/controllers/propertyController.js:45-52 | for a URL with a version segment and an extension, the id is the text between them |
| CloudinaryId.DocumentedExample | backend/controllers/propertyController.js:46-47 | `…/image/upload/v1699999999/properties/my-img.jpg` gives `properties/my-img` |
| CloudinaryId.NoIdWithoutUpload | backend/controllers/propertyController.js:48-52 | a missing value, the empty string and a URL without `/upload/` give null |
| ReviewController.AtMostOneReviewPerPair | backend/controllers/reviewController.js:10-14 | with unique pairs, each (property, user) pair has at most one review |
| ReviewController.AddKeepsUnique | backend/controllers/reviewController.js:10-14 | inserting a review for an unreviewed pair keeps the pairs unique |
| ReviewController.ReviewStore.constructor | backend/models/Review.js:25-27 | an empty store |
| ReviewController.ReviewStore.AddReview | backend/controllers/reviewController.js:3-18 | a falsy id or rating (so 0) gives 400; an existing pair gives 400 "Already reviewed"; a rating outside 1..5 (Review.js:14-19) gives 500; otherwise exactly one review is appended with 201; the pairs stay unique |
| ProfileController.UpdateData | backend/controllers/profileController.js:61-69 | every field except `profileImage` passes through unchanged; `profileImage` is kept exactly when it is truthy |
| ProfileController.Apply | backend/controllers/profileController.js:71 | the update overwrites the fields it names and keeps the others |
| ProfileController.StoredImageSurvivesEmptyPatch | backend/controllers/profileController.js:61-71 | an empty or missing image never overwrites the stored one, while the other fields are applied |
| ProfileController.GivenImageIsStored | backend/controllers/profileController.js:67-71 | a truthy image is stored |
| ProfileController.GetProfile | backend/controllers/profileController.js:11-23 | 200 with the record exactly when the id is valid and known; otherwise 404 "No such profile" |
| ProfileController.DeleteProfile | backend/controllers/profileController.js:38-51 | an invalid or unknown id gives 404 and no change; otherwise the record is removed and returned |
| ProfileController.UpdateProfile | backend/controllers/profileController.js:54-77 | an invalid or unknown id gives 404 and no change; otherwise only that record is merged with `updateData` and returned |
| LoginPage.Submit | frontend/src/pages/Login.js:20-45 | `admin`/`admin` takes the shortcut with no request; otherwise the login is posted exactly when the e-mail matches the pattern, and the error is set when it does not |
| LoginPage.AdminIsNoEmail | frontend/src/pages/Login.js:24-39 | the shortcut is taken although `admin` fails the e-mail pattern |
| LoginPage.RoleDestination | frontend/src/pages/Login.js:53-59 | Owner goes to `/owner-dashboard`, Tenant to `/` and any other role to `/admin` |
| LoginPage.LoginErrorMessage | frontend/src/pages/Login.js:62-75 | case-insensitively: "password" first, then "not registered" or "no user", then the generic message |
| LoginPage.LoginErrorIgnoresCase | frontend/src/pages/Login.js:62-75 | the classification does not depend on case, and a missing message is generic |
| LoginPage.OnChange | frontend/src/pages/Login.js:15-18 | an edit clears the error, sets the edited field and keeps the other field |
| RegisterPage.OnChange | frontend/src/pages/Register.js:21-25 | an edit clears both messages, sets the edited field and keeps every other field |
| RegisterPage.DefaultRoleKept | frontend/src/pages/Register.js:11-16 | the form starts with role Tenant, and editing another field keeps it |
| RegisterPage.Submit | frontend/src/pages/Register.js:27-34 | an e-mail that fails the pattern sets "Please enter a valid email address." and sends nothing; a matching one posts the form |
| RegisterPage.RegisterFailure | frontend/src/pages/Register.js:40-53 | a message containing "email is already registered", in any case, is shown; anything else, including no message, raises the alert |
| RegisterPage.RegisterFailureIgnoresCase | frontend/src/pages/Register.js:41-48 | the classification does not depend on case |
| EmailFormat.EmailCheckMatchesPattern | frontend/src/pages/Login.js:34-35 | the executable check accepts exactly the strings the pattern `^[^\s@]+@[^\s@]+\.[^\s@]+$` matches |
| EmailFormat.CheckImpliesPattern | frontend/src/pages/Register.js:30-31 | every accepted string matches the pattern |
| EmailFormat.PatternImpliesCheck | frontend/src/pages/Register.js:30-31 | every matching string is accepted |
| PaymentPage.Days | frontend/src/pages/Payment.js:23-29 | 0 when a date is missing or the range is reversed; otherwise `to - from + 1` |
| PaymentPage.DaysOfAdjacentStays | frontend/src/pages/Payment.js:27-28 | the same day counts 1, and two adjacent stays add up to the stay joining them |
| PaymentPage.TotalPrice | frontend/src/pages/Payment.js:31-32 | zero when there are no days or no price |
| PaymentPage.RentNow | frontend/src/pages/Payment.js:34-42 | no user is refused first and missing or reversed dates next; a request is sent exactly when signed in with `from <= to`, carrying `(to - from + 1) * price` |
| RatingStars.StarsFor | frontend/src/components/RatingStars.js:5-7 | full is `floor(rating)`; half is 1 exactly when there is a fractional part; the three counts sum to 5 |
| RatingStars.StarsInRange | frontend/src/components/RatingStars.js:5-7 | for a rating in 0..5, every count is non-negative and bounded |
| RatingStars.IntegerRatingHasNoHalf | frontend/src/components/RatingStars.js:6 | an integer rating shows no half star |
| RatingStars.ThreeAndAHalf | frontend/src/components/RatingStars.js:5-7 | 3.5 gives 3 full, 1 half and 1 empty |
| HomePage.FilteredProperties | frontend/src/pages/home.js:26-32 | an order-preserving subsequence; a property is kept exactly when its address contains the term, ignoring case, and its rooms match |
| HomePage.NoFilterShowsAll | frontend/src/pages/home.js:26-32 | an empty term and an empty room filter show every property |
| HomePage.TermIgnoresCase | frontend/src/pages/home.js:27-29 | lower-casing the term changes nothing |
| HomePage.BlankRoomFilter | frontend/src/pages/home.js:30 | a whitespace-only room filter reads as `Number("  ") == 0` |
| PropertyDetailsPage.UniqueRoomImages | frontend/src/pages/PropertyDetails.js:206 | no duplicates, the same images, and `[]` when `roomImages` is missing |
| PropertyDetailsPage.ResolveImage | frontend/src/pages/PropertyDetails.js:212 | an http URL is kept and anything else gets the backend host |
| PropertyDetailsPage.ResolvedIsHttp | frontend/src/pages/PropertyDetails.js:212 | a resolved URL is an http URL, so resolving again changes nothing |
| PropertyDetailsPage.MainImageUrl | frontend/src/pages/PropertyDetails.js:209-213 | null exactly when the image is missing or blank; otherwise the trimmed value, resolved |
| PropertyDetailsPage.RoomImageUrls | frontend/src/pages/PropertyDetails.js:241-250 | each de-duplicated room image resolved without trimming, in order |
| PropertyDetailsPage.TrimDifference | frontend/src/pages/PropertyDetails.js:210-250 | " http://img" is a valid main image but is sent to the backend host when it is a room image |
| PropertyDetailsPage.SubmittedText | frontend/src/pages/PropertyDetails.js:82-95 | a comment, a reply or an edit is sent exactly when its text is not blank, and it is sent untrimmed |
| PropertyDetailsPage.ModalSizePerDimension | frontend/src/pages/PropertyDetails.js:177-186 | each dimension keeps a given value and otherwise defaults to 90vw or 85vh |
| PoiMap.PropertyMarkers | frontend/src/components/map.js:144-165 | at most one marker per property |
| PoiMap.PropertyMarkersAppend | frontend/src/components/map.js:144-165 | markers are drawn property by property, in order |
| PoiMap.PropertyMarkersCount | frontend/src/components/map.js:144-165 | exactly one marker per property with a finite position |
| PoiMap.NullReadsAsZero | frontend/src/components/map.js:145-147 | `Number(null)` is 0, so null coordinates give a marker at (0, 0); an undefined one gives none |
| PoiMap.FirstMarkerOf | frontend/src/components/map.js:217 | `findIndex`: the first marker with that POI id, or none |
| PoiMap.MapView.constructor | frontend/src/components/map.js:1-20 | the initial POIs and no markers |
| PoiMap.MapView.Click | frontend/src/components/map.js:175-206 | ignored unless in POI mode; refused at 5 POIs; otherwise exactly one POI and one marker labelled `length + 1` are appended and the new list is reported; the list never grows past 5 |
| PoiMap.MapView.RemovePoi | frontend/src/components/map.js:210-222 | every POI with that id is removed and the rest keep their order; only the first marker with that id is removed |
| PoiMap.MapView.RenderPropertyMarkers | frontend/src/components/map.js:136-165 | the markers become exactly `PropertyMarkers(properties)`; the POIs are untouched |
| PoiMap.RemovalKeepsOthers | frontend/src/components/map.js:212 | the remaining POIs are an order-preserving subsequence with exactly the other ids |
| PoiMap.SameMillisecondClicks | frontend/src/components/map.js:184-220 | two POIs created in the same millisecond share an id: removing one removes both POIs but only the first marker |
| Navbar.ProfileLink | frontend/src/components/Navbar.js:12-19 | Tenant goes to `/tenant-dashboard`, Owner to `/owner-dashboard` and any other role to `/` |
| Navbar.Render | frontend/src/components/Navbar.js:7-59 | nothing on `/login` and `/register`; otherwise RentEase and Map View, then the greeting and the Profile link for a user, or the Login link for a visitor |
| Navbar.LinksOfRender | frontend/src/components/Navbar.js:37-59 | no link leads to `/register`; the Login link is shown exactly to visitors; every other link leads to a page that shows the bar |
| ReviewForm.HighlightedPrefix | frontend/src/pages/ReviewForm.js:54 | the highlighted stars are the first `hover` stars, or the first `rating` stars while nothing is hovered |
| ReviewForm.CanSubmit | frontend/src/pages/ReviewForm.js:14-17 | a post is allowed exactly when a rating is chosen and the text is not blank |
| ReviewForm.RefusalMessage | frontend/src/pages/ReviewForm.js:30-35 | the server's non-empty error, else the generic message |
| ReviewForm.ReviewForm.constructor | frontend/src/pages/ReviewForm.js:5-10 | rating and hover 0, empty text and messages |
| ReviewForm.ReviewForm.ClickStar | frontend/src/pages/ReviewForm.js:56 | the clicked star becomes the rating |
| ReviewForm.ReviewForm.SetHover | frontend/src/pages/ReviewForm.js:57-58 | entering a star sets the hover and leaving a star sets it to 0 |
| ReviewForm.ReviewForm.EditText | frontend/src/pages/ReviewForm.js:69 | the text area sets the review text |
| ReviewForm.ReviewForm.Submit | frontend/src/pages/ReviewForm.js:12-36 | an incomplete form only sets the error and posts nothing; a complete one is posted once; on success the rating, text and error are reset and the callback runs once; on failure the error is shown and the form is kept |
| ReviewForm.ReviewForm.Post | frontend/src/pages/ReviewForm.js:18-35 | the `try` branch: one post of the form's values, then the reset or the error message |
| Collections.Dedup | backend/controllers/propertyController.js:102 | `Array.from(new Set(…))`: no duplicates and the same elements |
| Collections.DedupFirstOccurrenceOrder | backend/controllers/propertyController.js:102 | the kept elements appear in the order of their first occurrences |
| Collections.DedupOfDistinct | backend/controllers/propertyController.js:102 | a list without duplicates is unchanged |
| Collections.FilterMembership | frontend/src/components/map.js:212 | `filter` keeps exactly the elements that pass |
| Collections.FilterIsSubsequence | frontend/src/pages/home.js:26 | `filter` yields an order-preserving subsequence |
| Collections.FilterAppend | backend/services/propertySelectionService.js:140-142 | `filter` distributes over concatenation |
| Collections.FilterIdempotent | frontend/src/components/map.js:212 | filtering twice is filtering once |
| Collections.Take | backend/services/propertySelectionService.js:161 | `limit(n)`: the first `n` elements, or all of them when there are fewer |
| Text.Trim | backend/controllers/commentController.js:31 | the result is empty or starts and ends with a non-whitespace character |
| Text.TrimEmptyIffBlank | frontend/src/pages/ReviewForm.js:14 | the trimmed text is empty exactly when the text is blank |
| Text.ToLower | frontend/src/pages/home.js:27-29 | same length, with each ASCII capital lowered |
| Text.ToLowerIdempotent | frontend/src/pages/Login.js:64 | lowering twice is lowering once |
| Text.NumberOf | frontend/src/pages/home.js:30 | `Number` of a blank string is 0 |
| Text.ParseIntAgreesWithNumber | backend/controllers/propertyController.js:234 | on a decimal digit string, `parseInt` and `Number` agree and succeed |
| Text.ReadDigits | backend/controllers/propertyController.js:234 | `parseInt` fails exactly when no digit can be read |

## Left out

- The network: the routing service, `fetch`, the URLs and JSON decoding are an oracle from the coordinate list to a reply.
- Real time: the throttle's wait is the clock reading after the wait, passed in. The 200 ms minimum is proved about that reading.
- Concurrency: the race between two concurrent selections on `lastRequestTime`, and on the cache, is not modelled. The model is sequential.
- IEEE floating point: there is no NaN and no overflow, scores are exact `real`s and `Infinity` is the `Inf` constructor.
- PropertySelection.DecodeBulk: a distance row shorter than N + M columns counts as a failed reply, giving the fallback with nothing cached. In the source the missing cell reads `undefined`, the score becomes NaN and that ranking is cached. Modelling NaN is out of scope. A short duration row is modelled as the source has it: the durations read `undefined` and the result is cached.
- SelectionService.RouteClient.ScorePropertyAgainstPoisBulk: the class caches under the corrected key, so the source's flat-key cache hit (a call answered with another call's ranking) does not occur in `RouteClient`. Its `|scored| == |props|`, and the same candidate count in `RankCandidates` and `FindBestProperty`, hold under that key only. The as-written behaviour is modelled on values by `AsWrittenBulkStep` and `AsWrittenSecondCallReusesFirst`.
- PropertySelection.ScoreLe: the comparator `a.score - b.score` is read as the total order it induces (`Inf` after every finite score, `Inf` equal to `Inf`). An inconsistent comparator is not modelled.
- Mongoose: queries, `populate`, `$ne`/`$gte`/`$lte`, `.limit` and ObjectId validation are modelled as maps, sequences and a filter over the store in its natural order. Whether an id is valid is a parameter.
- Cloudinary and multer: uploads become the URLs passed to `CreateAdvertisement`, and `destroy` becomes the list of ids `DeleteProperty` returns. `Promise.allSettled` and its errors are not modelled.
- The listing endpoints `getRentalRequests`, `getProperties`, `getAllProperties`, `getPropertyById`, `getCommentsByProperty`, `getReviewsForProperty`, `getAllProfiles` and `createProfile` only delegate to a query. They are not part of this model.
- Authentication, sessions and password hashing (authController.js) are not part of this model. A session is an optional user id.
- React rendering, Leaflet, geolocation, timers (`setTimeout`), `alert` and navigation are not part of this model. Each page's state changes are modelled as values, and a navigation target is a string.
- The "No property selected" render of Payment.js and the loading states of the pages are not part of this model.
- Dates are day numbers. `new Date` parsing and time zones are not modelled.
- Text.ToLower covers ASCII letters only. Full Unicode case mapping is not modelled.
- Text.NumberOf covers decimal integers with optional whitespace only. Fractions, exponents, signs and `0x`/`0o`/`0b` prefixes are not modelled.
- PropertyController.PropertyDesk.UpdateRentalRequest: the 400 answers for a missing property or tenant carry the runtime's TypeError text as a constant. Other runtimes word it differently.
- PropertyController.PropertyDesk.CreateAdvertisement: the other schema checks that make `save()` fail (missing fields, casting) are not modelled. Only the required main image is.
- ReviewController.ReviewStore.AddReview: the 500 answer for an out-of-range rating is stated only by status. The validation text is Mongoose's.
- PoiMap: a POI's id is the click time passed in. The popups and the marker icons are not modelled.

## Findings

| source | as written | input that shows it | evidently intended | confidence | as-written member | corrected member |
|---|---|---|---|---|---|---|
| backend/services/propertySelectionService.js:78 | The bulk cache key joins the property points and then the POI points with the same separator `\|`. It does not record where the properties end. | Call 1 has properties [A, B] and POIs [C]. Call 2 has properties [A] and POIs [B's point, C]. Both calls give the key `bulk\|A\|B\|C`, so call 2 is answered with call 1's two-candidate ranking. | Keep the property list and the POI list apart in the key. Then equal keys mean the same properties and the same POIs. | not executed; the collision is proved, and whether such a pair of calls occurs in use is not | SelectionService.AsWrittenSecondCallReusesFirst | SelectionService.BulkKeyDetermines |
