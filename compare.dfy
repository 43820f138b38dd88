/**
 * The comparison engine: the parameter record and its builder, the three
 * similarity strategies behind a common load-and-check wrapper, and the
 * dispatcher that picks a strategy by name from a fixed registry.
 */
module Compare {
  import opened Wrappers
  import opened Errors
  import opened Collaborators

  // ---------------------------------------------------------------------------
  // Parameters and their builder
  // ---------------------------------------------------------------------------

  /** The three-field parameter record handed to the dispatcher. */
  datatype AlgorithmParams = AlgorithmParams(img1Path: string, img2Path: string, algorithm: string)

  const Img1Field := "img1_path"
  const Img2Field := "img2_path"
  const AlgorithmField := "algorithm"

  /** The record's fields in declaration order, which is the order validation reports them in. */
  const ParamFields := [Img1Field, Img2Field, AlgorithmField]

  /** The names among `fields` that `params` has no entry for, in the order of `fields`. */
  function MissingFields(params: map<string, string>, fields: seq<string>): (missing: seq<string>)
    ensures forall f :: f in missing <==> f in fields && f !in params
    ensures |missing| <= |fields|
  {
    if fields == [] then []
    else (if fields[0] in params then [] else [fields[0]]) + MissingFields(params, fields[1..])
  }

  /** Collects the parameters one key at a time; each setter answers the builder itself. */
  class AlgorithmParamsBuilder {
    var params: map<string, string>

    constructor ()
      ensures params == map[]
    {
      params := map[];
    }

    method AddImg1(img1Path: string) returns (builder: AlgorithmParamsBuilder)
      modifies this
      ensures params == old(params)[Img1Field := img1Path]
      ensures builder == this
    {
      params := params[Img1Field := img1Path];
      builder := this;
    }

    method AddImg2(img2Path: string) returns (builder: AlgorithmParamsBuilder)
      modifies this
      ensures params == old(params)[Img2Field := img2Path]
      ensures builder == this
    {
      params := params[Img2Field := img2Path];
      builder := this;
    }

    method AddAlgorithm(algorithm: string) returns (builder: AlgorithmParamsBuilder)
      modifies this
      ensures params == old(params)[AlgorithmField := algorithm]
      ensures builder == this
    {
      params := params[AlgorithmField := algorithm];
      builder := this;
    }

    /**
     * Validates the collected keys into a record: it succeeds exactly when all
     * three keys are present, carries the value stored under each, and
     * otherwise reports every missing field.
     */
    function Build(): (r: Result<AlgorithmParams, Error>)
      reads this
      ensures r.Success? <==> Img1Field in params && Img2Field in params && AlgorithmField in params
      ensures r.Success? ==>
        r.value.img1Path == params[Img1Field] &&
        r.value.img2Path == params[Img2Field] &&
        r.value.algorithm == params[AlgorithmField]
      ensures r.Failure? ==>
        r.error.ValidationError? && r.error.fields != [] &&
        forall f :: f in r.error.fields <==> f in ParamFields && f !in params
    {
      var missing := MissingFields(params, ParamFields);
      if missing != [] then
        assert missing[0] in missing;
        Failure(ValidationError(missing))
      else
        assert Img1Field in params && Img2Field in params && AlgorithmField in params by {
          assert Img1Field in ParamFields && Img2Field in ParamFields && AlgorithmField in ParamFields;
        }
        Success(AlgorithmParams(params[Img1Field], params[Img2Field], params[AlgorithmField]))
    }
  }

  /** The fluent builder chain a request handler runs: a fresh builder, the three setters, then `Build`. */
  method BuildParams(img1Path: string, img2Path: string, algorithm: string) returns (r: Result<AlgorithmParams, Error>)
    ensures r == Success(AlgorithmParams(img1Path, img2Path, algorithm))
  {
    var builder := new AlgorithmParamsBuilder();
    var b1 := builder.AddImg1(img1Path);
    var b2 := b1.AddImg2(img2Path);
    var b3 := b2.AddAlgorithm(algorithm);
    r := b3.Build();
  }

  // ---------------------------------------------------------------------------
  // Keypoint (ORB) strategy
  // ---------------------------------------------------------------------------

  function Max(a: nat, b: nat): nat {
    if a >= b then a else b
  }

  predicate SortedByDistance(matches: seq<Match>) {
    forall i, j :: 0 <= i < j < |matches| ==> matches[i].distance <= matches[j].distance
  }

  /** Inserts `m` in front of the first match that is not closer than it. */
  function InsertByDistance(m: Match, sorted: seq<Match>): (r: seq<Match>)
    ensures multiset(r) == multiset(sorted) + multiset{m}
  {
    if sorted == [] || m.distance <= sorted[0].distance then [m] + sorted
    else
      assert sorted == [sorted[0]] + sorted[1..];
      [sorted[0]] + InsertByDistance(m, sorted[1..])
  }

  lemma {:induction false} InsertKeepsSorted(m: Match, sorted: seq<Match>)
    requires SortedByDistance(sorted)
    ensures SortedByDistance(InsertByDistance(m, sorted))
  {
    if sorted != [] && m.distance > sorted[0].distance {
      var tail := sorted[1..];
      var rest := InsertByDistance(m, tail);
      InsertKeepsSorted(m, tail);
      forall k | 0 <= k < |rest| ensures sorted[0].distance <= rest[k].distance {
        assert rest[k] in multiset(rest);
        if rest[k] != m {
          assert rest[k] in multiset(tail);
          var j :| 0 <= j < |tail| && tail[j] == rest[k];
          assert sorted[j + 1] == rest[k];
        }
      }
      var r := [sorted[0]] + rest;
      forall i, j | 0 <= i < j < |r| ensures r[i].distance <= r[j].distance {
        if i > 0 {
          assert r[i] == rest[i - 1] && r[j] == rest[j - 1];
        } else {
          assert r[j] == rest[j - 1];
        }
      }
    }
  }

  /** The matches ordered by ascending distance: a sorted permutation of its input. */
  function SortByDistance(matches: seq<Match>): (r: seq<Match>)
    ensures SortedByDistance(r)
    ensures multiset(r) == multiset(matches)
  {
    if matches == [] then []
    else
      var sortedTail := SortByDistance(matches[1..]);
      InsertKeepsSorted(matches[0], sortedTail);
      assert matches == [matches[0]] + matches[1..];
      InsertByDistance(matches[0], sortedTail)
  }

  /**
   * The keypoint score from the two detections: 0 when either image has no
   * descriptors, otherwise the number of cross-checked matches over the larger
   * keypoint count (sorting the matches by distance does not change their number).
   */
  function OrbScore(d1: Detection, d2: Detection, bfMatch: (seq<Descriptor>, seq<Descriptor>) -> seq<Match>): (r: Result<real, Error>)
    ensures d1.descriptors.None? || d2.descriptors.None? ==> r == Success(0.0)
    ensures d1.descriptors.Some? && d2.descriptors.Some? ==>
      var matched := |bfMatch(d1.descriptors.value, d2.descriptors.value)|;
      var larger := Max(d1.keypoints, d2.keypoints);
      (larger == 0 ==> r == Failure(ZeroDivision)) &&
      (larger > 0 ==> r == Success(matched as real / larger as real))
  {
    if d1.descriptors.None? || d2.descriptors.None? then Success(0.0)
    else
      var raw := bfMatch(d1.descriptors.value, d2.descriptors.value);
      var matches := SortByDistance(raw);
      assert |matches| == |raw| by {
        assert |multiset(matches)| == |multiset(raw)|;
      }
      var larger := Max(d1.keypoints, d2.keypoints);
      if larger == 0 then Failure(ZeroDivision)
      else Success(|matches| as real / larger as real)
  }

  /** OpenCV's ORB gives one descriptor per keypoint, and no descriptor set at all when it finds no keypoint. */
  predicate WellFormedDetection(d: Detection) {
    d.descriptors.Some? ==> 0 < |d.descriptors.value| == d.keypoints
  }

  /**
   * Cross-checked matching is one-to-one: every match names valid descriptor
   * indices, and no descriptor of either set is used by two matches.
   */
  predicate CrossChecked(matches: seq<Match>, n1: nat, n2: nat) {
    && (forall i :: 0 <= i < |matches| ==> matches[i].queryIdx < n1 && matches[i].trainIdx < n2)
    && (forall i, j :: 0 <= i < j < |matches| ==>
          matches[i].queryIdx != matches[j].queryIdx && matches[i].trainIdx != matches[j].trainIdx)
  }

  /** Pairwise distinct numbers below `n` number at most `n`. */
  lemma {:induction false} DistinctBelowBound(xs: seq<nat>, n: nat)
    requires forall i :: 0 <= i < |xs| ==> xs[i] < n
    requires forall i, j :: 0 <= i < j < |xs| ==> xs[i] != xs[j]
    ensures |xs| <= n
    decreases |xs|
  {
    if xs != [] {
      var m := xs[0];
      // Drop the first element and close the gap it leaves in [0, n).
      var ys := seq(|xs| - 1, i requires 0 <= i < |xs| - 1 => if xs[i + 1] > m then xs[i + 1] - 1 else xs[i + 1]);
      forall i | 0 <= i < |ys| ensures ys[i] < n - 1 {
        assert xs[i + 1] != m by { assert xs[0] != xs[i + 1]; }
      }
      forall i, j | 0 <= i < j < |ys| ensures ys[i] != ys[j] {
        assert xs[i + 1] != xs[j + 1];
        assert xs[i + 1] != m by { assert xs[0] != xs[i + 1]; }
        assert xs[j + 1] != m by { assert xs[0] != xs[j + 1]; }
      }
      DistinctBelowBound(ys, n - 1);
    }
  }

  /**
   * With well-formed detections and one-to-one matching, the keypoint score
   * is defined and lies in [0, 1].
   */
  lemma OrbScoreInUnitInterval(d1: Detection, d2: Detection, bfMatch: (seq<Descriptor>, seq<Descriptor>) -> seq<Match>)
    ensures
      WellFormedDetection(d1) && WellFormedDetection(d2) &&
      (d1.descriptors.Some? && d2.descriptors.Some? ==>
         CrossChecked(bfMatch(d1.descriptors.value, d2.descriptors.value),
                      |d1.descriptors.value|, |d2.descriptors.value|)) ==>
        OrbScore(d1, d2, bfMatch).Success? && 0.0 <= OrbScore(d1, d2, bfMatch).value <= 1.0
  {
    if WellFormedDetection(d1) && WellFormedDetection(d2) &&
       d1.descriptors.Some? && d2.descriptors.Some? &&
       CrossChecked(bfMatch(d1.descriptors.value, d2.descriptors.value),
                    |d1.descriptors.value|, |d2.descriptors.value|)
    {
      var matches := bfMatch(d1.descriptors.value, d2.descriptors.value);
      var queries := seq(|matches|, i requires 0 <= i < |matches| => matches[i].queryIdx);
      DistinctBelowBound(queries, |d1.descriptors.value|);
      var larger := Max(d1.keypoints, d2.keypoints);
      RatioInUnitInterval(|matches|, larger);
    }
  }

  /** A count over a positive bound is a non-negative ratio, at most 1 when the count does not exceed the bound. */
  lemma RatioInUnitInterval(count: nat, bound: nat)
    requires bound > 0
    ensures 0.0 <= count as real / bound as real
    ensures count <= bound ==> count as real / bound as real <= 1.0
  {
  }

  /** The keypoint strategy on two decoded images. */
  function OrbCompare(img1: GrayImage, img2: GrayImage, vision: Vision): (r: Result<real, Error>)
    ensures r.Failure? ==> r.error == ZeroDivision
    ensures
      var d1, d2 := vision.orbDetect(img1), vision.orbDetect(img2);
      WellFormedDetection(d1) && WellFormedDetection(d2) &&
      (d1.descriptors.Some? && d2.descriptors.Some? ==>
         CrossChecked(vision.bfMatch(d1.descriptors.value, d2.descriptors.value),
                      |d1.descriptors.value|, |d2.descriptors.value|)) ==>
        r.Success? && 0.0 <= r.value <= 1.0
  {
    var d1, d2 := vision.orbDetect(img1), vision.orbDetect(img2);
    OrbScoreInUnitInterval(d1, d2, vision.bfMatch);
    OrbScore(d1, d2, vision.bfMatch)
  }

  // ---------------------------------------------------------------------------
  // Histogram strategy
  // ---------------------------------------------------------------------------

  /** The histogram strategy: the raw correlation of the two normalised histograms, not clamped. */
  function HistogramCompare(img1: GrayImage, img2: GrayImage, vision: Vision): (r: Result<real, Error>)
    ensures r.Success? && r.value == vision.histCorrel(img1, img2)
  {
    Success(vision.histCorrel(img1, img2))
  }

  // ---------------------------------------------------------------------------
  // Perceptual-hash strategy
  // ---------------------------------------------------------------------------

  /** The number of positions at which two bit strings of equal length differ. */
  function Hamming(a: seq<bool>, b: seq<bool>): (d: nat)
    requires |a| == |b|
    ensures d <= |a|
    ensures d == 0 <==> a == b
  {
    if a == [] then 0
    else
      assert a == [a[0]] + a[1..] && b == [b[0]] + b[1..];
      (if a[0] != b[0] then 1 else 0) + Hamming(a[1..], b[1..])
  }

  /**
   * Subtracting two image hashes: the Hamming distance of their flattened
   * bits, or an error when they hold different numbers of bits.
   */
  function HashDistance(h1: ImageHash, h2: ImageHash): (r: Result<nat, Error>)
    ensures r.Success? <==> |h1.bits| == |h2.bits|
    ensures r.Failure? ==> r.error == HashShapeMismatch
    ensures r.Success? ==> r.value == Hamming(h1.bits, h2.bits)
    ensures r.Success? ==> r.value <= h1.rows * h1.cols && (r.value == 0 <==> h1.bits == h2.bits)
  {
    if |h1.bits| != |h2.bits| then Failure(HashShapeMismatch)
    else Success(Hamming(h1.bits, h2.bits))
  }

  /**
   * The perceptual-hash score: one minus the Hamming distance over the square
   * of the first hash's row count. When the first hash is square of positive
   * side and the second holds as many bits, it is defined, lies in [0, 1], and
   * is exactly 1 when the hashes are equal.
   */
  function PHashScore(h1: ImageHash, h2: ImageHash): (r: Result<real, Error>)
    ensures r.Success? ==> |h1.bits| == |h2.bits| && h1.rows > 0
    ensures r.Success? ==> r.value == 1.0 - Hamming(h1.bits, h2.bits) as real / (h1.rows * h1.rows) as real
    ensures |h1.bits| != |h2.bits| ==> r == Failure(HashShapeMismatch)
    ensures |h1.bits| == |h2.bits| && h1.rows == 0 ==> r == Failure(ZeroDivision)
    ensures h1.rows == h1.cols && |h2.bits| == |h1.bits| && h1.rows > 0 ==>
      r.Success? && 0.0 <= r.value <= 1.0 && (r.value == 1.0 <==> h1.bits == h2.bits)
  {
    var maxDistance := h1.rows * h1.rows;
    var distance :- HashDistance(h1, h2);
    if maxDistance == 0 then Failure(ZeroDivision)
    else
      RatioInUnitInterval(distance, maxDistance);
      Success(1.0 - distance as real / maxDistance as real)
  }

  /** OpenCV's BGR-to-RGB conversion accepts only three- or four-channel input. */
  function ConvertBgrToRgb(r: Raster): (c: Result<Raster, Error>)
    ensures c.Success? <==> r.channels == 3 || r.channels == 4
  {
    if r.channels == 3 || r.channels == 4 then Success(r.(channels := 3))
    else Failure(ColorConversion(r.channels))
  }

  /** The perceptual-hash strategy as written: it converts each image from BGR to RGB before hashing. */
  function PHashCompareAsWritten(img1: Raster, img2: Raster, vision: Vision): (r: Result<real, Error>)
    ensures r.Success? ==> (img1.channels == 3 || img1.channels == 4) && (img2.channels == 3 || img2.channels == 4)
  {
    var rgb1 :- ConvertBgrToRgb(img1);
    var rgb2 :- ConvertBgrToRgb(img2);
    PHashScore(vision.phash(rgb1), vision.phash(rgb2))
  }

  /** Every image the loader yields is grayscale, so the written pHash strategy never yields a score. */
  lemma PHashAsWrittenAlwaysFails(img1: GrayImage, img2: GrayImage, vision: Vision)
    ensures PHashCompareAsWritten(img1, img2, vision) == Failure(ColorConversion(1))
  {
  }

  /**
   * The perceptual-hash strategy hashing the grayscale images directly. With
   * a square first hash of positive side and a second hash of as many bits,
   * its score lies in [0, 1], and an image
   * compared with itself scores exactly 1.
   */
  function PHashCompare(img1: GrayImage, img2: GrayImage, vision: Vision): (r: Result<real, Error>)
    ensures
      var h1, h2 := vision.phash(img1), vision.phash(img2);
      h1.rows == h1.cols && |h2.bits| == |h1.bits| && h1.rows > 0 ==>
        r.Success? && 0.0 <= r.value <= 1.0 && (r.value == 1.0 <==> h1.bits == h2.bits)
    ensures
      var h := vision.phash(img1);
      img1 == img2 && h.rows == h.cols && h.rows > 0 ==> r == Success(1.0)
  {
    PHashScore(vision.phash(img1), vision.phash(img2))
  }

  // ---------------------------------------------------------------------------
  // Strategy wrapper and dispatcher
  // ---------------------------------------------------------------------------

  datatype Strategy = Orb | Histogram | PHash

  /** The fixed, read-only registry of strategies by name. */
  const Registry: map<string, Strategy> := map["orb" := Orb, "hist" := Histogram, "phash" := PHash]

  /** The strategy-specific comparison of two decoded images. */
  function SpecificCompare(strategy: Strategy, img1: GrayImage, img2: GrayImage, vision: Vision): (r: Result<real, Error>)
    ensures r.Failure? ==> r.error == ZeroDivision || r.error == HashShapeMismatch
    ensures strategy == Histogram ==> r == Success(vision.histCorrel(img1, img2))
  {
    match strategy
    case Orb => OrbCompare(img1, img2, vision)
    case Histogram => HistogramCompare(img1, img2, vision)
    case PHash => PHashCompare(img1, img2, vision)
  }

  /**
   * The common strategy wrapper: load both images (a fetch error propagates),
   * refuse to compare when either could not be decoded, else delegate to the
   * specific comparison.
   */
  function StrategyCompare(strategy: Strategy, img1Path: string, img2Path: string, load: Loader, vision: Vision): (r: Result<real, Error>)
    ensures load(img1Path).FetchError? ==> r == Failure(FetchFailed(img1Path))
    ensures !load(img1Path).FetchError? && load(img2Path).FetchError? ==> r == Failure(FetchFailed(img2Path))
    ensures (!load(img1Path).FetchError? && !load(img2Path).FetchError? &&
             (load(img1Path).NotDecoded? || load(img2Path).NotDecoded?)) ==> r == Failure(ImagesNotLoaded)
    ensures r.Success? ==> load(img1Path).Loaded? && load(img2Path).Loaded?
    ensures load(img1Path).Loaded? && load(img2Path).Loaded? ==>
      r == SpecificCompare(strategy, load(img1Path).image, load(img2Path).image, vision)
    ensures r.Failure? ==> !r.error.UnknownAlgorithm?
  {
    var first := load(img1Path);
    if first.FetchError? then Failure(FetchFailed(img1Path))
    else
      var second := load(img2Path);
      if second.FetchError? then Failure(FetchFailed(img2Path))
      else if first.NotDecoded? || second.NotDecoded? then Failure(ImagesNotLoaded)
      else SpecificCompare(strategy, first.image, second.image, vision)
  }

  /**
   * The dispatcher: an unregistered name is an unknown-algorithm error and
   * nothing else is; a registered name runs that name's strategy on
   * `img1Path` then `img2Path`, unchanged.
   */
  function CompareImages(params: AlgorithmParams, load: Loader, vision: Vision): (r: Result<real, Error>)
    ensures (r.Failure? && r.error.UnknownAlgorithm?) <==>
      params.algorithm != "orb" && params.algorithm != "hist" && params.algorithm != "phash"
    ensures r.Failure? && r.error.UnknownAlgorithm? ==> r.error.name == params.algorithm
    ensures params.algorithm == "orb" ==> r == StrategyCompare(Orb, params.img1Path, params.img2Path, load, vision)
    ensures params.algorithm == "hist" ==> r == StrategyCompare(Histogram, params.img1Path, params.img2Path, load, vision)
    ensures params.algorithm == "phash" ==> r == StrategyCompare(PHash, params.img1Path, params.img2Path, load, vision)
  {
    if params.algorithm !in Registry then Failure(UnknownAlgorithm(params.algorithm))
    else StrategyCompare(Registry[params.algorithm], params.img1Path, params.img2Path, load, vision)
  }
}
