/**
 * The comparison request handler: validate the method, validate the request,
 * register both images, consult the cache, and on a miss load, compare,
 * store and answer. `Respond` states the handler's effect as a function of
 * the tables before the call; `CompareImages` performs it on a database.
 */
module Api {
  import opened Wrappers
  import opened Errors
  import opened Collaborators
  import opened Models
  import opened Crud
  import Compare

  /** The collaborators a request runs against. */
  datatype Env = Env(parseUrl: UrlParser, load: Loader, vision: Vision)

  /** What the handler answers. */
  datatype Response =
    | Rejected(status: nat, detail: string)   // an HTTP error raised before any work
    | ErrorPage(error: Error)                 // the error page rendered by the handler's own exception handling
    | ScorePage(input1: string, input2: string, methodName: string, similarityScore: real)

  /**
   * Registers the two images in order and answers both records: each carries
   * its URL's identity and is in the table, existing image records are kept,
   * at most two are added, and the comparisons are untouched.
   */
  function RegisterInputs(t: Tables, identity: UrlHasher, url1: string, url2: string): (res: (Tables, ImageRecord, ImageRecord))
    ensures res.0.comparisons == t.comparisons
    ensures res.1.hash == identity(url1) && res.2.hash == identity(url2)
    ensures res.1 in res.0.images && res.2 in res.0.images
    ensures t.images <= res.0.images && |res.0.images| <= |t.images| + 2
  {
    var (t1, image1) := t.GetOrCreateImage(identity, url1);
    var (t2, image2) := t1.GetOrCreateImage(identity, url2);
    (t2, image1, image2)
  }

  /**
   * After registration both identities have records, the records answered
   * carry the identities, the comparisons and the invariant are untouched,
   * and registering the same two URLs again changes nothing.
   */
  lemma RegisterInputsFacts(t: Tables, identity: UrlHasher, url1: string, url2: string)
    requires t.Valid(identity)
    ensures var (t2, image1, image2) := RegisterInputs(t, identity, url1, url2);
      && t2.Valid(identity)
      && t2.comparisons == t.comparisons
      && image1.hash == identity(url1) && image2.hash == identity(url2)
      && FindImage(t2.images, identity(url1)) == Some(image1)
      && FindImage(t2.images, identity(url2)) == Some(image2)
      && RegisterInputs(t2, identity, url1, url2) == (t2, image1, image2)
  {
    var (t1, image1) := t.GetOrCreateImage(identity, url1);
    var (t2, image2) := t1.GetOrCreateImage(identity, url2);
    GetOrCreatePreservesValid(t, identity, url1);
    GetOrCreatePreservesValid(t1, identity, url2);
    GetOrCreateIdempotent(t, identity, url1);
    GetOrCreateIdempotent(t1, identity, url2);
    assert FindImage(t1.images, identity(url1)) == Some(image1);
    if t2 != t1 {
      FindImageAppend(t1.images, [image2], identity(url1));
    }
    assert FindImage(t2.images, identity(url1)) == Some(image1);
  }

  /** Loading both URLs and writing each image to a temporary file; an image that is None cannot be written. */
  function PrepareImages(load: Loader, url1: string, url2: string): (r: Result<(), Error>)
    ensures r.Success? <==> load(url1).Loaded? && load(url2).Loaded?
    ensures load(url1).FetchError? ==> r == Failure(FetchFailed(url1))
    ensures !load(url1).FetchError? && load(url2).FetchError? ==> r == Failure(FetchFailed(url2))
  {
    var img1 := load(url1);
    if img1.FetchError? then Failure(FetchFailed(url1))
    else
      var img2 := load(url2);
      if img2.FetchError? then Failure(FetchFailed(url2))
      else if img1.NotDecoded? || img2.NotDecoded? then Failure(TempFileWriteFailed)
      else Success(())
  }

  /**
   * The handler's answer and the tables after it, from the tables before it:
   * an invalid method is rejected outright, an invalid request gives the
   * error page, and a valid one goes on to registration and the cache.
   */
  function Respond(t: Tables, identity: UrlHasher, env: Env, input1: string, input2: string, methodName: string)
    : (res: (Response, Tables))
    ensures res.0.Rejected? <==> methodName !in ValidMethods
    ensures res.0.Rejected? ==> res == (Rejected(400, "Invalid method"), t)
    ensures res.0.ScorePage? ==>
      NewCompareRequest(env.parseUrl, input1, input2, methodName) ==
        Success(CompareRequest(res.0.input1, res.0.input2, res.0.methodName))
    ensures !res.0.ScorePage? ==> res.1.comparisons == t.comparisons
    ensures t.images <= res.1.images
  {
    if methodName !in ValidMethods then (Rejected(400, "Invalid method"), t)
    else
      match NewCompareRequest(env.parseUrl, input1, input2, methodName)
      case Failure(e) => (ErrorPage(e), t)
      case Success(request) => RespondToRequest(t, identity, env, input1, input2, request)
  }

  /** Registers both images, then answers from the cache or, on a miss, computes. */
  function RespondToRequest(t: Tables, identity: UrlHasher, env: Env, input1: string, input2: string, request: CompareRequest)
    : (res: (Response, Tables))
    ensures !res.0.Rejected?
    ensures res.0.ScorePage? ==> res.0 == ScorePage(request.input1, request.input2, request.methodName, res.0.similarityScore)
    ensures !res.0.ScorePage? ==> res.1.comparisons == t.comparisons
    ensures t.images <= res.1.images
  {
    var (t2, image1, image2) := RegisterInputs(t, identity, request.input1, request.input2);
    var existing := GetComparison(t2.comparisons, image1.hash, image2.hash, request.methodName);
    if existing.Some? then (ScorePage(request.input1, request.input2, request.methodName, existing.value.similarity), t2)
    else RespondToMiss(t2, image1.hash, image2.hash, env, input1, input2, request)
  }

  /**
   * The miss path: load and write both images, run the dispatcher on the raw
   * form fields, store the score under the two hashes and the method, and
   * answer it. Only a stored score changes the tables.
   */
  function RespondToMiss(t: Tables, hash1: string, hash2: string, env: Env, input1: string, input2: string, request: CompareRequest)
    : (res: (Response, Tables))
    ensures res.1.images == t.images
    ensures !res.0.ScorePage? ==> res.1 == t
    ensures res.0.ScorePage? ==>
      res.1 == t.CreateComparison(hash1, hash2, request.methodName, res.0.similarityScore).1
  {
    var prepared := PrepareImages(env.load, request.input1, request.input2);
    if prepared.Failure? then (ErrorPage(prepared.error), t)
    else
      var similarity := Compare.CompareImages(Compare.AlgorithmParams(input1, input2, request.methodName), env.load, env.vision);
      if similarity.Failure? then (ErrorPage(similarity.error), t)
      else
        var (stored, t3) := t.CreateComparison(hash1, hash2, request.methodName, similarity.value);
        if stored.Failure? then (ErrorPage(stored.error), t)
        else (ScorePage(request.input1, request.input2, request.methodName, similarity.value), t3)
  }

  /** The comparison request handler, on a database updated in place. */
  method CompareImages(db: Database, env: Env, input1: string, input2: string, methodName: string := DefaultMethod)
    returns (response: Response)
    requires db.Valid()
    modifies db
    ensures db.Valid()
    ensures (response, db.State()) == Respond(old(db.State()), db.identity, env, input1, input2, methodName)
  {
    if methodName !in ValidMethods {
      return Rejected(400, "Invalid method");
    }
    var request := NewCompareRequest(env.parseUrl, input1, input2, methodName);
    if request.Failure? {
      return ErrorPage(request.error);
    }
    var input1Url, input2Url := request.value.input1, request.value.input2;
    var image1 := db.GetOrCreateImage(input1Url);
    var image2 := db.GetOrCreateImage(input2Url);
    var existing := GetComparison(db.comparisons, image1.hash, image2.hash, methodName);
    if existing.Some? {
      return ScorePage(input1Url, input2Url, methodName, existing.value.similarity);
    }
    var prepared := PrepareImages(env.load, input1Url, input2Url);
    if prepared.Failure? {
      return ErrorPage(prepared.error);
    }
    var params := Compare.AlgorithmParams(input1, input2, methodName);
    var similarity := Compare.CompareImages(params, env.load, env.vision);
    if similarity.Failure? {
      return ErrorPage(similarity.error);
    }
    // The lookup above missed, so the uniqueness constraint accepts this insert.
    var stored := db.CreateComparison(image1.hash, image2.hash, methodName, similarity.value);
    response := ScorePage(input1Url, input2Url, methodName, similarity.value);
  }

  // ---------------------------------------------------------------------------
  // Properties of the handler
  // ---------------------------------------------------------------------------

  /** A method outside the three names is rejected with status 400 before any table is touched. */
  lemma RejectsInvalidMethodFirst(t: Tables, identity: UrlHasher, env: Env, input1: string, input2: string, methodName: string)
    requires methodName != "orb" && methodName != "hist" && methodName != "phash"
    ensures Respond(t, identity, env, input1, input2, methodName) == (Rejected(400, "Invalid method"), t)
  {
  }

  /** The handler keeps the table invariant, whatever it answers. */
  lemma RespondPreservesValid(t: Tables, identity: UrlHasher, env: Env, input1: string, input2: string, methodName: string)
    requires t.Valid(identity)
    ensures Respond(t, identity, env, input1, input2, methodName).1.Valid(identity)
  {
    var request := NewCompareRequest(env.parseUrl, input1, input2, methodName);
    if methodName in ValidMethods && request.Success? {
      RespondToRequestPreservesValid(t, identity, env, input1, input2, request.value);
    }
  }

  lemma RespondToRequestPreservesValid(t: Tables, identity: UrlHasher, env: Env, input1: string, input2: string, request: CompareRequest)
    requires t.Valid(identity)
    ensures RespondToRequest(t, identity, env, input1, input2, request).1.Valid(identity)
  {
    RegisterInputsFacts(t, identity, request.input1, request.input2);
    var (t2, image1, image2) := RegisterInputs(t, identity, request.input1, request.input2);
    if GetComparison(t2.comparisons, image1.hash, image2.hash, request.methodName).None? {
      var missed := RespondToMiss(t2, image1.hash, image2.hash, env, input1, input2, request);
      if missed.0.ScorePage? {
        CreatePreservesValid(t2, identity, image1.hash, image2.hash, request.methodName, missed.0.similarityScore);
      }
    }
  }

  /**
   * Once the request validates, both images have records afterwards,
   * whatever the rest of the handler does, and no image record is dropped.
   */
  lemma RegistersBothImages(t: Tables, identity: UrlHasher, env: Env, input1: string, input2: string, methodName: string)
    requires t.Valid(identity)
    requires methodName in ValidMethods
    requires env.parseUrl(input1).Some? && env.parseUrl(input2).Some?
    ensures var t' := Respond(t, identity, env, input1, input2, methodName).1;
      && FindImage(t'.images, identity(env.parseUrl(input1).value)).Some?
      && FindImage(t'.images, identity(env.parseUrl(input2).value)).Some?
      && t.images <= t'.images
  {
    var url1, url2 := env.parseUrl(input1).value, env.parseUrl(input2).value;
    RegisterInputsFacts(t, identity, url1, url2);
  }

  /**
   * On a cache hit the handler answers the stored similarity, writes no
   * comparison, and its answer does not depend on the loader or the image
   * library: nothing is loaded or computed.
   */
  lemma CacheHitShortCircuits(t: Tables, identity: UrlHasher, env: Env, otherLoad: Loader, otherVision: Vision,
                              input1: string, input2: string, methodName: string, cached: ComparisonRecord)
    requires t.Valid(identity)
    requires methodName in ValidMethods
    requires env.parseUrl(input1).Some? && env.parseUrl(input2).Some?
    requires GetComparison(t.comparisons, identity(env.parseUrl(input1).value), identity(env.parseUrl(input2).value), methodName)
             == Some(cached)
    ensures var (response, t') := Respond(t, identity, env, input1, input2, methodName);
      && response == ScorePage(env.parseUrl(input1).value, env.parseUrl(input2).value, methodName, cached.similarity)
      && t'.comparisons == t.comparisons
      && Respond(t, identity, env.(load := otherLoad, vision := otherVision), input1, input2, methodName) == (response, t')
  {
    RegisterInputsFacts(t, identity, env.parseUrl(input1).value, env.parseUrl(input2).value);
  }

  /**
   * On a miss in a valid cache, the handler answers a score exactly when
   * both images load and the dispatcher succeeds; the score is the
   * dispatcher's, computed on the raw form fields, and it is stored as one
   * new record under the ordered key of the two identities and the method.
   */
  lemma MissComputesAndStores(t: Tables, identity: UrlHasher, env: Env, input1: string, input2: string, methodName: string)
    requires t.Valid(identity)
    requires methodName in ValidMethods
    requires env.parseUrl(input1).Some? && env.parseUrl(input2).Some?
    requires GetComparison(t.comparisons, identity(env.parseUrl(input1).value), identity(env.parseUrl(input2).value), methodName).None?
    ensures
      var url1, url2 := env.parseUrl(input1).value, env.parseUrl(input2).value;
      var similarity := Compare.CompareImages(Compare.AlgorithmParams(input1, input2, methodName), env.load, env.vision);
      var (response, t') := Respond(t, identity, env, input1, input2, methodName);
      && (response.ScorePage? <==> env.load(url1).Loaded? && env.load(url2).Loaded? && similarity.Success?)
      && (response.ScorePage? ==>
            && response == ScorePage(url1, url2, methodName, similarity.value)
            && t'.comparisons == t.comparisons + [ComparisonRecord(|t.comparisons| + 1, identity(url1), identity(url2), methodName, similarity.value)])
  {
    RegisterInputsFacts(t, identity, env.parseUrl(input1).value, env.parseUrl(input2).value);
  }

  /** A failed request writes no comparison; a rejected one touches no table at all. */
  lemma FailureWritesNoComparison(t: Tables, identity: UrlHasher, env: Env, input1: string, input2: string, methodName: string)
    ensures var (response, t') := Respond(t, identity, env, input1, input2, methodName);
      && (!response.ScorePage? ==> t'.comparisons == t.comparisons)
      && (response.Rejected? ==> t' == t)
  {
    var request := NewCompareRequest(env.parseUrl, input1, input2, methodName);
    if methodName in ValidMethods && request.Success? {
      var (t2, image1, image2) := RegisterInputs(t, identity, request.value.input1, request.value.input2);
      assert t2.comparisons == t.comparisons;
    }
  }

  /**
   * Repeating a call that answered a score answers the same page again and
   * changes nothing, whatever the loader and image library do the second time.
   */
  lemma RepeatedCallReturnsSameScore(t: Tables, identity: UrlHasher, env: Env, otherLoad: Loader, otherVision: Vision,
                                     input1: string, input2: string, methodName: string)
    requires t.Valid(identity)
    requires Respond(t, identity, env, input1, input2, methodName).0.ScorePage?
    ensures var first := Respond(t, identity, env, input1, input2, methodName);
      Respond(first.1, identity, env.(load := otherLoad, vision := otherVision), input1, input2, methodName) == first
  {
    var request := NewCompareRequest(env.parseUrl, input1, input2, methodName);
    RepeatedRequestSameScore(t, identity, env, env.(load := otherLoad, vision := otherVision), input1, input2, request.value);
  }

  lemma RepeatedRequestSameScore(t: Tables, identity: UrlHasher, env: Env, otherEnv: Env,
                                 input1: string, input2: string, request: CompareRequest)
    requires t.Valid(identity)
    requires RespondToRequest(t, identity, env, input1, input2, request).0.ScorePage?
    ensures var first := RespondToRequest(t, identity, env, input1, input2, request);
      RespondToRequest(first.1, identity, otherEnv, input1, input2, request) == first
  {
    var (response, t') := RespondToRequest(t, identity, env, input1, input2, request);
    var url1, url2, methodName := request.input1, request.input2, request.methodName;
    var h1, h2 := identity(url1), identity(url2);
    RegisterInputsFacts(t, identity, url1, url2);
    var (t2, image1, image2) := RegisterInputs(t, identity, url1, url2);
    if GetComparison(t2.comparisons, h1, h2, methodName).None? {
      var created := ComparisonRecord(|t2.comparisons| + 1, h1, h2, methodName, response.similarityScore);
      assert t'.comparisons == t2.comparisons + [created];
      GetComparisonAppend(t2.comparisons, [created], h1, h2, methodName);
      assert GetComparison([created], h1, h2, methodName) == Some(created);
      assert t'.images == t2.images;
      assert RegisterInputs(t', identity, url1, url2) == (t', image1, image2);
    }
  }

  /**
   * The cache key is ordered: storing the result for (A, B) leaves the
   * lookup of (B, A) exactly as it was when the two identities differ.
   */
  lemma CacheKeyIsOrdered(t: Tables, identity: UrlHasher, env: Env, input1: string, input2: string, methodName: string)
    requires t.Valid(identity)
    requires env.parseUrl(input1).Some? && env.parseUrl(input2).Some?
    requires identity(env.parseUrl(input1).value) != identity(env.parseUrl(input2).value)
    ensures
      var h1, h2 := identity(env.parseUrl(input1).value), identity(env.parseUrl(input2).value);
      var t' := Respond(t, identity, env, input1, input2, methodName).1;
      GetComparison(t'.comparisons, h2, h1, methodName) == GetComparison(t.comparisons, h2, h1, methodName)
  {
    var url1, url2 := env.parseUrl(input1).value, env.parseUrl(input2).value;
    var h1, h2 := identity(url1), identity(url2);
    var (response, t') := Respond(t, identity, env, input1, input2, methodName);
    FailureWritesNoComparison(t, identity, env, input1, input2, methodName);
    if response.ScorePage? && GetComparison(t.comparisons, h1, h2, methodName).None? {
      MissComputesAndStores(t, identity, env, input1, input2, methodName);
      var created := ComparisonRecord(|t.comparisons| + 1, h1, h2, methodName, response.similarityScore);
      GetComparisonAppend(t.comparisons, [created], h2, h1, methodName);
    } else if response.ScorePage? {
      RegisterInputsFacts(t, identity, url1, url2);
    }
  }

  /**
   * Comparing an image with itself by perceptual hash on a cold cache
   * answers exactly 1, provided the image loads and hashes to a square
   * matrix of positive side.
   */
  lemma ImageComparedWithItselfScoresOne(t: Tables, identity: UrlHasher, env: Env, input: string)
    requires t.Valid(identity)
    requires env.parseUrl(input).Some?
    requires env.load(env.parseUrl(input).value).Loaded? && env.load(input).Loaded?
    requires var h := env.vision.phash(env.load(input).image); h.rows == h.cols && h.rows > 0
    requires var id := identity(env.parseUrl(input).value); GetComparison(t.comparisons, id, id, "phash").None?
    ensures Respond(t, identity, env, input, input, "phash").0 == ScorePage(env.parseUrl(input).value, env.parseUrl(input).value, "phash", 1.0)
  {
    MissComputesAndStores(t, identity, env, input, input, "phash");
  }
}
