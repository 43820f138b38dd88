# Image similarity: comparison engine and result cache

This project models the core of an image-similarity web service in Dafny. A
caller submits two image URLs and a method name (`orb`, `hist` or `phash`).
The service registers both images under the SHA-256 identity of their URL,
looks the ordered triple `(identity1, identity2, method)` up in a result
cache, and on a miss loads both images, runs the named similarity strategy,
stores the score and answers it.

The model is organised by source file:

- `compare.dfy` (module `Compare`, from `app/compare.py`): the parameter
  record and its fluent builder (a class whose setters update a map in
  place), the keypoint (ORB), histogram and perceptual-hash strategies, the
  load-and-check wrapper they share, and the dispatcher over a fixed registry.
  The ORB and pHash strategies end in plain arithmetic over counts. That
  arithmetic is modelled over `real`, with the matching sort and the Hamming
  distance written out.
- `models.dfy` (module `Models`, from `app/models.py`): the method validator,
  the `"orb"` default, and validation of the whole request record.
- `crud.dfy` (module `Crud`, from `app/crud.py` and `app/database.py`): the
  images and comparisons tables. The queries are functions over a table. The
  two inserts are first given as transitions on a `Tables` value, and the
  `Database` class's methods, which update its fields in place, are proved to
  perform exactly those transitions. The table invariant holds the uniqueness
  constraints.
- `api.dfy` (module `Api`, from `app/api.py`): the request handler. `Respond`
  gives the handler's answer and the new tables as a function of the old
  ones. The method `Api.CompareImages` runs the handler on a `Database` and is
  proved equal to `Respond`. The lemmas state the cache-hit short circuit,
  idempotence, order-sensitive keys and "no record on failure".
- `collaborators.dfy`, `errors.dfy`, `wrappers.dfy`: the external collaborators
  as values and function types, Python's exceptions as a datatype, and
  Option/Result.

The URL hasher, the image loader, URL validation and the image-library calls
are parameters: the proofs hold for every choice of them. Two library rules
are the exception and are modelled concretely: OpenCV's colour conversion
(`Compare.ConvertBgrToRgb`) and the hash subtraction (`Compare.HashDistance`). The loader's
outcome distinguishes a decoded grayscale image, an undecodable one (the
loader returns `None`), and a raised fetch error.

Some of the code's behaviour is easy to miss. The model follows the code in
each of these places:

- A failed comparison leaves the two image records it registered. Only the
  comparison record is never written (`Api.FailureWritesNoComparison`).
- A rejected duplicate insert would show the error page, not a score. In
  sequential use it cannot happen: the insert follows a lookup that missed.
- The pHash divisor is the square of the hash's row count. This equals the
  bit length only for square hashes, such as those `phash` produces.
- The histogram score is the raw correlation. It is not clamped to [0, 1].
- Error pages rendered by the handler's own exception handling are ordinary
  pages. Only the early method check answers with status 400.

## Model

| member | source | states |
|---|---|---|
| `Compare.AlgorithmParamsBuilder.constructor` | app/compare.py:16-17 | a new builder holds no parameters |
| `Compare.AlgorithmParamsBuilder.AddImg1` | app/compare.py:19-21 | sets exactly the `img1_path` key, leaves the other keys as they were, and returns the same builder |
| `Compare.AlgorithmParamsBuilder.AddImg2` | app/compare.py:23-25 | sets exactly the `img2_path` key, leaves the other keys as they were, and returns the same builder |
| `Compare.AlgorithmParamsBuilder.AddAlgorithm` | app/compare.py:27-29 | sets exactly the `algorithm` key, leaves the other keys as they were, and returns the same builder |
| `Compare.AlgorithmParamsBuilder.Build` | app/compare.py:31-32 | succeeds if and only if all three keys are set, and then carries the value last stored under each; otherwise a validation error names exactly the missing fields |
| `Compare.MissingFields` | app/compare.py:10-13 | lists exactly the record fields that have no entry, never more than there are fields |
| `Compare.BuildParams` | app/api.py:94-98 | the fluent chain of a new builder, three setters and `build` yields the record of the three given values |
| `Compare.SortByDistance` | app/compare.py:67 | the sorted matches are in ascending distance order and are a permutation of the input |
| `Compare.OrbScore` | app/compare.py:62-69 | exactly 0 when either descriptor set is absent; otherwise the number of matches (the sort does not change it) over the larger keypoint count, or a division error when that count is 0 |
| `Compare.DistinctBelowBound` | app/compare.py:65-66 | pairwise distinct descriptor indices below n number at most n (the counting step behind one-to-one matching) |
| `Compare.OrbScoreInUnitInterval` | app/compare.py:65-69 | with cross-checked one-to-one matching and one descriptor per keypoint, the ORB score is defined and lies in [0, 1] |
| `Compare.Hamming` | app/compare.py:95 | the distance of two equal-length bit strings is at most their length, and is 0 if and only if they are equal |
| `Compare.HashDistance` | app/compare.py:95 | hash subtraction succeeds if and only if both hashes hold the same number of bits (a shape error otherwise), and then gives the number of differing bits (`Compare.Hamming`), at most rows x cols and 0 exactly for equal hashes |
| `Compare.PHashScore` | app/compare.py:94-96 | a shape error when the bit counts differ, else a division error when the first hash has no rows, else exactly 1 - (number of differing bits) / rows²; when the first hash is square of positive side and the second holds as many bits, the score is defined, lies in [0, 1], and is 1 if and only if the hashes are equal |
| `Compare.OrbCompare` | app/compare.py:57-69 | the keypoint strategy fails only by division by zero; with well-formed detections and one-to-one matching it is defined and lies in [0, 1] |
| `Compare.HistogramCompare` | app/compare.py:74-81 | the histogram strategy never fails and answers the library's correlation of the two images, unclamped |
| `Compare.ConvertBgrToRgb` | app/compare.py:87-88 | the BGR-to-RGB conversion succeeds if and only if the raster has three or four channels |
| `Compare.PHashCompareAsWritten` | app/compare.py:85-96 | the pHash strategy as written yields a score only when both rasters have three or four channels |
| `Compare.PHashAsWrittenAlwaysFails` | app/compare.py:87-88 | as written, the pHash strategy fails with a channel error for every pair of grayscale images the loader yields |
| `Compare.PHashCompare` | app/compare.py:85-96 | the corrected pHash strategy, hashing the grayscale images directly: for a square first hash of positive side and a second of as many bits the score lies in [0, 1] and is 1 if and only if the hashes are equal; an image compared with itself scores exactly 1 |
| `Compare.SpecificCompare` | app/compare.py:57-96 | with the corrected pHash strategy: the histogram strategy answers the raw correlation, unclamped; a strategy fails only by division by zero or a hash shape error |
| `Compare.StrategyCompare` | app/compare.py:36-46 | a fetch error on the first image propagates, and so does one on the second when the first was fetched; with both fetched but either not decoded the answer is the "could not be loaded" error, whatever the strategy and library; it succeeds only with both images decoded, and then is the strategy's comparison of the first image with the second |
| `Compare.CompareImages` | app/compare.py:99-111 | the unknown-algorithm error arises exactly for names other than `orb`, `hist` and `phash`, and carries the name; each known name runs its own strategy (the corrected one for `phash`) on `img1_path` then `img2_path`, unchanged |
| `Models.ValidateMethod` | app/models.py:8-12 | a method is accepted if and only if it is `orb`, `hist` or `phash`, and is then returned unchanged; any other value is an error whose message starts with "Invalid method" |
| `Models.ValidatorAgreesWithRegistry` | app/compare.py:100-104 | the validator accepts exactly the names the dispatcher's registry holds |
| `Models.NewCompareRequest` | app/models.py:3-12 | a request validates if and only if both URLs parse and the method is accepted, and then holds the parsed URLs and the method; otherwise the error names each failing field |
| `Models.MethodDefaultsToOrb` | app/models.py:6 | a request that omits the method uses `orb` |
| `Crud.FindImage` | app/crud.py:25 | answers a record of the table with the given hash, and answers nothing exactly when no record has it |
| `Crud.GetComparison` | app/crud.py:37-45 | read-only and exact on the ordered key: answers a record of the table whose two hashes and method equal the arguments in the given order, and nothing exactly when there is none |
| `Crud.Tables.GetOrCreateImage` | app/crud.py:10-33 | the answered record carries `hash_url(url)` and is in the table; an existing record with that hash is returned and nothing changes; otherwise exactly one record with the URL and its hash is appended and returned; comparisons are untouched |
| `Crud.Tables.CreateComparison` | app/crud.py:47-57 | a record with the same ordered key makes the insert fail and changes nothing; otherwise exactly one record with the given fields is appended and all other records are unchanged |
| `Crud.GetOrCreatePreservesValid` | app/crud.py:25-31 | registering an image keeps the invariant: unique image hashes and URLs, each hash the identity of its URL |
| `Crud.GetOrCreateIdempotent` | app/crud.py:10-33 | registering the same URL twice answers the same record and the second call changes nothing; the table grows by at most one |
| `Crud.CreatePreservesValid` | app/database.py:30-32 | inserting a comparison keeps at most one record per ordered key |
| `Crud.RegisterAllKeepsHashesUnique` | app/database.py:19 | after any sequence of registrations the invariant holds, every registered URL's identity has a record, earlier records stay findable, and comparisons are untouched |
| `Crud.Database.GetOrCreateImage` | app/crud.py:10-33 | updates the database's tables exactly as `Crud.Tables.GetOrCreateImage` describes and keeps the invariant |
| `Crud.Database.CreateComparison` | app/crud.py:47-57 | updates the database's tables exactly as `Crud.Tables.CreateComparison` describes and keeps the invariant |
| `Api.RegisterInputsFacts` | app/api.py:68-69 | after both registrations both identities have records, the answered records carry the identities, comparisons and the invariant are untouched, and registering again changes nothing |
| `Api.RegisterInputs` | app/api.py:68-69 | both answered records carry their URL's identity and are in the table; existing image records are kept, at most two are added, and comparisons are untouched |
| `Api.PrepareImages` | app/api.py:86-91 | loading and writing both images succeeds if and only if both decode; a fetch error on the first URL propagates, and so does one on the second when the first was fetched |
| `Api.Respond` | app/api.py:56-126 | the handler rejects with status 400 exactly the methods outside the three names, touching nothing; a score page answers the validated request's URLs and method; only a score page writes a comparison, and image records are never lost |
| `Api.RespondToRequest` | app/api.py:67-83 | a validated request is never rejected; a score page answers the request's URLs and method; only a score page writes a comparison, and image records are never lost |
| `Api.RespondToMiss` | app/api.py:100-104 | the miss path never changes the images; only an answered score changes the tables, by exactly the insert of that score |
| `Api.CompareImages` | app/api.py:56-115 | the handler's answer and new tables are exactly those `Respond` gives for the tables before the call, and the invariant is kept |
| `Api.RejectsInvalidMethodFirst` | app/api.py:56-57 | a method outside the three names gets status 400 "Invalid method" and no table is touched |
| `Api.RespondPreservesValid` | app/api.py:68-104 | every answer leaves unique image hashes and URLs and at most one comparison per ordered key |
| `Api.RegistersBothImages` | app/api.py:68-69 | once the request validates, both images have records afterwards, whatever else happens, and no image record is lost |
| `Api.CacheHitShortCircuits` | app/api.py:72-83 | on a hit the answer is the stored similarity, no comparison is written, and the answer is the same for every loader and image library (nothing is loaded or computed) |
| `Api.MissComputesAndStores` | app/api.py:100-115 | on a miss a score is answered if and only if both images load and the dispatcher succeeds; the score is the dispatcher's result on the raw form fields, and exactly one record with it is stored under the two identities and the method |
| `Api.FailureWritesNoComparison` | app/api.py:121-126 | an error answer writes no comparison; a rejected method touches no table |
| `Api.RepeatedCallReturnsSameScore` | app/api.py:72-104 | repeating a call that answered a score answers the same page and changes nothing, whatever the loader and library do the second time |
| `Api.CacheKeyIsOrdered` | app/api.py:72-104 | when the identities differ, handling (A, B) leaves the lookup of (B, A) exactly as it was |
| `Api.ImageComparedWithItselfScoresOne` | app/compare.py:94-96 | with the corrected pHash strategy and a deterministic loader: on a cold cache, comparing an image with itself by pHash answers exactly 1 when it loads and hashes to a square matrix |

## Findings

| source | as written | input that shows it | evidently intended | confidence | as-written member | corrected member |
|---|---|---|---|---|---|---|
| app/compare.py:87-88 | the pHash strategy converts each image with OpenCV's BGR-to-RGB conversion. The loader decodes every image as one-channel grayscale (app/utils.py:16, 19), and that conversion rejects one-channel input, so pHash never yields a score | any two images that load, with method `phash` | hash the grayscale images directly, giving a score in [0, 1] that is 1 for equal hashes | high; not executed | `Compare.PHashAsWrittenAlwaysFails` (on `Compare.PHashCompareAsWritten`) | `Compare.PHashCompare` (used by `Compare.SpecificCompare`) |

## Left out

- `Compare.SpecificCompare`: runs the corrected pHash strategy (`Compare.PHashCompare`), not the one as written. So `Compare.CompareImages`, `Api.Respond`, `Api.CompareImages` and every `Api` lemma describe pHash scores that the code as written never produces. As written, every `phash` miss where both images load ends in the error page with the channel error, and no comparison is stored (see "## Findings").
- `Collaborators.Loader`: a loader is a function of the locator, so two fetches of one URL always give the same outcome. The source fetches over the network each time: twice per miss (app/api.py:86-87, then app/compare.py:40-41), and twice for the same URL in a self-comparison. `Api.ImageComparedWithItselfScoresOne` rests on this assumption. The same goes for the agreement between `Api.PrepareImages` and the dispatcher's own loads in `Api.MissComputesAndStores`.
- `Compare.ConvertBgrToRgb` encodes OpenCV's channel check for the BGR-to-RGB conversion (three or four channels, an error otherwise) as an assumption about that library, which is not part of this model. The pHash finding and `Compare.PHashAsWrittenAlwaysFails` depend on it.
- `Compare.HashDistance` compares bit counts and flattened bits, as the hash library's subtraction does. That library is not part of this model.
- The image libraries are abstract functions in `Collaborators.Vision`: ORB detection and brute-force matching, the histogram computation and its correlation, and the perceptual hash. Floating-point rounding is not modelled: scores are `real`.
- The histogram score is not bounded. It is the raw correlation, in [-1, 1], and no lemma claims [0, 1].
- `Compare.OrbScoreInUnitInterval` assumes one-to-one matching and one descriptor per keypoint. These are properties of OpenCV's cross-checked matcher and of ORB, which are not part of this model.
- `hash_url` is an abstract deterministic function (`Collaborators.UrlHasher`). SHA-256 itself and its collision resistance are not modelled. The proofs hold even when two URLs collide.
- Image loading is abstract (`Collaborators.Loader`): network and disk access, HTTP status handling and decoding. So is writing temporary files; only its failure on an image that is `None` is kept.
- URL validation and canonical URL text are an abstract parser (`Collaborators.UrlParser`).
- `Api.CompareImages` leaves out the builder chain that the handler runs and then discards. `Compare.BuildParams` models that chain on its own.
- `Api.CompareImages` has no branch for a rejected comparison insert. The insert follows a lookup that missed, so the uniqueness constraint cannot reject it. `Api.Respond` keeps that branch.
- Concurrency is not modelled: calls are sequential. The duplicate-insert race between simultaneous requests is therefore absent.
- Database sessions, commit, refresh and engine setup are not modelled. Primary keys are the row count plus one, as with no deletions.
- The web layer is not modelled: routing, templates, static files, the global ValueError handler (no error reaches it from this handler), the index and statistics pages.
- The statistics report and the command-line entry point are not modelled. The command line names the histogram method `histogram`, which the dispatcher would reject.
- Error texts (`Errors.Error.Message`): only the unknown-algorithm, could-not-be-loaded, fetch and invalid-method texts come from the service's code. The fetch text is the service's only for a non-200 answer (app/utils.py:13-14); a request that fails outright raises the HTTP library's own exception and text, which the model folds into the same error. The colour, division, hash-shape and uniqueness texts are library and runtime texts, and the validation and temporary-file texts are placeholders.
