# Dog sync webhook — a Dafny model

The system is a webhook. It receives a dog's form submission, maps it to a
canonical dog record and upserts one shop product for that dog. The product is
keyed by a permanent handle, `dog-<Id>`, derived from the submission's `Id`
field. The handler checks three things in turn: the request method, the entry
id and the three store settings. It then searches the store by handle. If a
product is found, it updates that product by id and re-asserts the handle.
Otherwise it creates one. It answers 405, 400, 500, 502 or 200.

This project models `api/sync-dog.js` as pure Dafny functions:

| module | models |
|---|---|
| `JsValues` | the JavaScript values a submission field can hold; truthiness; `String(v)` (safe integers in decimal, arrays via `Array.prototype.toString`) |
| `Text` | `toLowerCase` (ASCII letters), `includes`, `trim` with the ECMAScript white-space set |
| `Seqs` | the values of the present entries of a list of optional values; `join` |
| `Availability` | `normalizeAvailability`, also stated as an ordered rule list with pass-through |
| `Mapper` | `mapCognitoToDog`: the `a \|\| b \|\| c` alias chains and the photo-URL extraction (a reference function plus the two nested loops as methods) |
| `Handles` | the handle `dog-${entryId}` |
| `Payload` | `buildTags` and `buildShopifyProductPayload`: title fallback, description blocks, trimming, placeholder, tags, images |
| `Upsert` | the handler's branching. The search result and the write result are inputs. |
| `Store` | the store as a map from handle to product. `Sync` runs the handler against it, so that properties over several requests can be stated. |
| `Scenarios` | worked examples on concrete submissions |

The handle keeps the id's letter case: `api/sync-dog.js:43` uses the entry id
verbatim, and `Scenarios.HandleKeepsCase` fixes `dog-AB-1` for the id `AB-1`.

Some behaviour was pinned down while writing the model:
- A truthy availability that is an empty array, or an array holding a single null, prints as "". `normalizeAvailability` then returns "". The dog has no availability tag and no availability section. `Availability.Normalize` and `Mapper.MapDog` state this exception.
- A missing or falsy `Id` is 400 before the settings are checked. So a submission without an id never reaches the 500 branch, even when the settings are also missing.
- A failed search is treated like "not found". If the handle is already in use, the handler then creates a second product. `Store.FailedLocateCreatesDuplicate` states this.
- A story equal to the text "No information available." looks like the placeholder once wrapped in `<p>`. The model keeps the two apart only through the empty-body condition (`Payload.BodyFromBlocks`).

## Model

| member | source | states |
|---|---|---|
| Availability.Normalize | api/sync-dog.js:210-221 | The result is "Available: Now", "Available Soon: Nursery", "Adopted", or the value's own string form. It is the string form only for a truthy value. It is empty only for an array value. |
| Availability.NormalizeByRules | api/sync-dog.js:210-221 | A falsy value gives "Available: Now". Otherwise the result is the label of the first firing rule, tried in order on the lower-cased string: "nursery" or "soon"; "adopted"; "available" and "now". If no rule fires, the string is returned unchanged. |
| Availability.FirstMatch | api/sync-dog.js:214-220 | No label exactly when no rule fires. Otherwise the label of a firing rule with no firing rule before it. |
| Availability.LabelsAreFixed | api/sync-dog.js:211-217 | Each of the three canonical labels normalises to itself. |
| Availability.NormalizeIdempotent | api/sync-dog.js:210-221 | Normalising an already normalised, non-empty availability gives it back unchanged. |
| Text.Lower | api/sync-dog.js:212 | Same length. Each ASCII capital becomes its small letter; every other character is kept. |
| Text.IncludesIff | api/sync-dog.js:215-217 | `includes` holds exactly when the word occurs at some position of the text. |
| Text.Trim | api/sync-dog.js:289 | The result is empty exactly when the text is all white space. Otherwise it is a slice with white space only outside it, and it neither starts nor ends with white space. |
| Text.TrimIdempotent | api/sync-dog.js:299 | Trimming a trimmed text changes nothing. |
| JsValues.Show | api/sync-dog.js:212 | `String(v)` of a truthy value that is not an array is non-empty. |
| JsValues.DecimalRoundTrip | api/sync-dog.js:43 | The decimal text of a natural number reads back as that number. |
| JsValues.ShowInjective | api/sync-dog.js:43 | Two string ids, or two integer ids, with the same printed text are equal. |
| Mapper.Resolve | api/sync-dog.js:158-165 | The alias chain gives no value exactly when no alias key holds a truthy value. Otherwise it gives the value under a truthy key with no truthy key before it. |
| Mapper.MapDog | api/sync-dog.js:142-208 | The entry id is the raw `Id` field. Availability is "Available: Now" when neither `Code` nor `Availability` is truthy. It is non-empty unless one of those keys holds an array. There are at most as many URLs as photo descriptors. |
| Mapper.ExtractImageUrls | api/sync-dog.js:167-192 | The loop over the five photo fields yields exactly the reference list `ImageUrls`. |
| Mapper.AppendDescriptorUrls | api/sync-dog.js:181-191 | The loop over one photo array appends exactly the URLs of its descriptors, in order. |
| Mapper.ImageUrlsByField | api/sync-dog.js:171-180 | The image URLs are those of MainPhoto, then AdditionalPhoto1 to AdditionalPhoto4, concatenated in that order. |
| Mapper.ImageUrlsTrace | api/sync-dog.js:180-192 | The k-th URL comes from a later descriptor than the (k-1)-th, and that descriptor has a `File` or an `Id`. The URL is the `File` when set, and the download URL otherwise. Conversely, every descriptor with a `File` or an `Id` contributes one URL. |
| Mapper.NoPhotosNoImages | api/sync-dog.js:168-192 | A submission without photo fields has no image URLs. |
| Handles.DeriveHandle | api/sync-dog.js:43 | Reading the id text back out of the handle gives the id's printed text. |
| Handles.HandleRoundTrip | api/sync-dog.js:41-43 | Every handle starts with "dog-". Stripping that prefix gives back the id's printed text exactly. |
| Handles.HandleInjective | api/sync-dog.js:41-43 | Two string ids, or two integer ids, share a handle only if they are equal. |
| Handles.HandleIgnoresOtherFields | api/sync-dog.js:41-47 | Changing or adding any field other than `Id` leaves the entry id and the handle as they were. |
| Payload.BuildTags | api/sync-dog.js:308-315 | At most four tags, none empty. The first tag is the availability exactly when the availability is set. |
| Payload.TagsFollowSlots | api/sync-dog.js:308-315 | The tags are the present entries of the four slots in order: availability, "Litter: …", "Breed: …", "Gender: …". There are at most four, and availability comes first when set. |
| Payload.BodyFromBlocks | api/sync-dog.js:255-291 | The description is the placeholder exactly when no block is present. Otherwise it is the present blocks, in their fixed order, concatenated without the final blank line. |
| Payload.BodyHtml | api/sync-dog.js:256-299 | The description is never empty. It is either the placeholder or markup that opens with `<` and closes with `>`. |
| Payload.FinishMarkup | api/sync-dog.js:288-299 | An empty raw description becomes the placeholder. Otherwise trimming drops exactly the final blank line. |
| Payload.StoryComesFirst | api/sync-dog.js:258-261 | When the story is set, its `<p>` paragraph opens the description. |
| Payload.AvailabilityComesLast | api/sync-dog.js:284-286 | When availability is set, its bold section closes the description. |
| Payload.Images | api/sync-dog.js:293-295 | One image per URL, in the same order, with `src` equal to the URL. |
| Payload.Title | api/sync-dog.js:298 | The title is the name when the name is truthy, and "Dog <entryId>" otherwise. |
| Payload.BuildPayload | api/sync-dog.js:252-306 | The payload carries the given handle, status "active", type "Dog", one image per URL and the title fallback. Its description is the dog's `BodyHtml`, never empty, and its tags are the dog's tags joined by ", ". |
| Upsert.Existing | api/sync-dog.js:223-250 | A failed search reads as "no product", like an empty result. A found product is returned as is. |
| Upsert.Admit | api/sync-dog.js:5-37 | A request is admitted exactly when it is POST, has a truthy `Id` and has all three settings. A non-POST request is 405 and a missing id is 400, in that order. A request missing a setting is 500, reporting for each of the three settings whether it is present. The admitted handle is `dog-<Id>`. |
| Upsert.PlanWrite | api/sync-dog.js:56-107 | The write carries the payload for the handle. It is an update exactly when the search found a product, and the update uses that product's id. |
| Upsert.Finish | api/sync-dog.js:82-130 | 502 exactly when the write is rejected. The 502 names the failed action (update or create, as the write was), and carries the details and the handle, plus the product id exactly when the write was an update, and then it is the updated id. Otherwise 200 with the returned product and the action taken. |
| Upsert.HandleRequest | api/sync-dog.js:1-130 | A 405, 400 or 500 answer makes no store call. The 500 answer reports which of the three settings are present. An admitted request makes exactly one search by `dog-<Id>`, then one write whose payload is built from the mapped submission and that handle. The write is an update of the found id when the search found one, and a create otherwise. The answer is 502 exactly when the write is rejected, and otherwise 200 with "updated" or "created". |
| Store.Sync | api/sync-dog.js:5-124 | A request calls the store exactly when it is admitted, and otherwise leaves the store unchanged. An admitted request answers 502 exactly when the write is rejected, which leaves the store unchanged; an accepted write leaves a product filed under `dog-<Id>`. |
| Store.Locate | api/sync-dog.js:223-250 | An unreachable store gives a failed search. Otherwise the search finds a product exactly when one is filed under the handle, and returns that product. |
| Store.RefusedLeavesStore | api/sync-dog.js:5-37 | A refused request makes no call and leaves the store unchanged. |
| Store.RejectedLeavesStore | api/sync-dog.js:82-118 | A rejected write leaves the store unchanged and answers 502. |
| Store.SyncPreservesWellFormed | api/sync-dog.js:41-124 | Every sync keeps each product filed under its own handle and keeps ids unique. |
| Store.UpdateKeepsIdentity | api/sync-dog.js:60-94 | Syncing an id whose handle is filed updates that product. It keeps its id, its handle and the set of filed handles, now holds the payload built from the new submission, and every other product is untouched. |
| Store.FailedLocateCreatesDuplicate | api/sync-dog.js:234-249 | A failed search on a filed handle makes a create with a new id. The filed product stays as it was. |
| Store.SyncCreates | api/sync-dog.js:95-124 | Syncing an id whose handle is not filed creates the product under `dog-<Id>` with the new id and the payload built from the submission. |
| Store.CreateThenUpdate | api/sync-dog.js:41-124 | The first sync of an id creates its product. A later sync with the same `Id`, whatever else changed, updates the same product: same id, same handle, searched by the same handle, no product added, and the product holds the payload of the later submission. |
| Store.SameIdSameHandle | api/sync-dog.js:41-43 | Two admitted requests with the same `Id` are filed under the same handle, `dog-<Id>`. |
| Scenarios.NurseryWordingIsSoon | api/sync-dog.js:215 | "Nursery - accepting deposits" normalises to "Available Soon: Nursery". |
| Scenarios.MissingAvailabilityIsNow | api/sync-dog.js:211 | No availability, or an empty one, is "Available: Now". |
| Scenarios.AdoptedWording | api/sync-dog.js:216 | "Adopted!" normalises to "Adopted". |
| Scenarios.UnknownWordingIsKept | api/sync-dog.js:219-220 | "On hold" is kept as written. |
| Scenarios.RexIsMapped | api/sync-dog.js:146-165 | `{Id:"1-1", DogName:"Rex", Breed:"Lab"}` maps to entry id "1-1", name "Rex" and breed "Lab". Availability is "Available: Now", and there are no images. |
| Scenarios.RexTags | api/sync-dog.js:308-315 | That dog is tagged "Available: Now, Breed: Lab". |
| Scenarios.RexPayload | api/sync-dog.js:297-302 | Its handle is "dog-1-1", its title is "Rex" and it has no images. |
| Scenarios.HandleKeepsCase | api/sync-dog.js:43 | The id "AB-1" gives the handle "dog-AB-1". |
| Scenarios.NumericEntryId | api/sync-dog.js:43 | The numeric id 24 gives the handle "dog-24". |
| Scenarios.EmptyAliasFallsThrough | api/sync-dog.js:158 | An empty `DogName` falls through to `Name`. |

## Left out

- Network I/O. The fetches, URLs, headers, JSON encoding and decoding, `encodeURIComponent`, and response bodies are not modelled. The search result (`LocateOutcome`) and the write result (`WriteOutcome`, with the rejection text) are inputs.
- `Store.Apply` is an assumption about the platform, not code of this system. It assigns a fresh id on create and files the product under its handle.
- Store.Apply: a create on a handle that is already filed leaves the map unchanged, because the platform keeps handles unique and files the new product under a different handle that the model does not track. The product it returns still carries the requested handle, not the one the platform would assign.
- JsValues.Show: prints every integer in full decimal. JavaScript numbers are doubles: `String(n)` switches to exponent form from 1e21, and a JSON integer above 2^53 is rounded when parsed. The model agrees with the source only for integers of magnitude below 2^53.
- Console logging is not modelled; it has no effect on the result.
- The three environment settings are a `Config` of optional strings. A setting counts as present when it is defined and non-empty, as `!` and `!!` test it.
- The `try`/`catch` answer 500 "Internal server error" (`api/sync-dog.js:132-139`) is not modelled. It covers exceptions such as a missing request body making `mapCognitoToDog` throw. `Request.body` is always a record of fields.
- The response for an accepted write is modelled as the product the store returned; the `result.product || result` choice is not modelled.
- Concurrency is not modelled. Two simultaneous syncs of one new id can both see "not found" and both create, and the model does not cover that race. The duplicate from a failed search is covered.
- The search's "first of several matches" is not modelled. The map holds at most one product per handle.
- Field values are null, booleans, strings, integers and arrays of photo descriptors. Arrays of strings are left out: a multi-choice `Availability` such as `["Nursery"]` prints as "Nursery" and the source would normalise it to "Available Soon: Nursery", which the model cannot express. Fractional numbers, NaN, plain objects as field values, and photo arrays holding non-objects are left out; so are `File` or `Id` values that are not strings. An empty string stands for an unset `File` or `Id`.
- Text.Lower: lower-cases ASCII letters only, not all of Unicode. This cannot change which rule fires, because every matched word is ASCII. Among the non-ASCII characters, only U+212A (KELVIN SIGN) lower-cases to an ASCII letter ("k"), and no matched word contains "k". U+0130 lower-cases to "i" followed by a combining dot, which cannot complete a match either. An unmatched value is returned un-lowered in any case.
- `api/check-env.js` is not part of this model. It only reports which settings are present.
