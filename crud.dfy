/**
 * The image registry and the comparison cache: two tables, the queries on
 * them, and the two inserts, first as transitions on a value and then as the
 * methods of a database object that are proved to perform them.
 */
module Crud {
  import opened Wrappers
  import opened Errors
  import opened Collaborators

  /** A row of the images table; `id` is the auto-incremented primary key. */
  datatype ImageRecord = ImageRecord(id: nat, url: string, hash: string)

  /** A row of the comparisons table. */
  datatype ComparisonRecord = ComparisonRecord(
    id: nat, image1Hash: string, image2Hash: string, methodName: string, similarity: real)

  /** The cache key of a comparison: the ordered pair of image hashes and the method. */
  function Key(c: ComparisonRecord): (string, string, string) {
    (c.image1Hash, c.image2Hash, c.methodName)
  }

  /** The first row satisfying `matches`, as a query's `first()` answers it. */
  function FirstWhere<T>(rows: seq<T>, matches: T -> bool): (r: Option<T>)
    ensures r.None? <==> forall i :: 0 <= i < |rows| ==> !matches(rows[i])
    ensures r.Some? ==>
      exists i :: 0 <= i < |rows| && rows[i] == r.value && matches(rows[i]) &&
        forall j :: 0 <= j < i ==> !matches(rows[j])
  {
    if rows == [] then None
    else if matches(rows[0]) then Some(rows[0])
    else
      var r := FirstWhere(rows[1..], matches);
      assert r.Some? ==>
        exists i :: 0 <= i < |rows| && rows[i] == r.value && matches(rows[i]) &&
          forall j :: 0 <= j < i ==> !matches(rows[j])
      by {
        if r.Some? {
          var k :| 0 <= k < |rows[1..]| && rows[1..][k] == r.value && matches(rows[1..][k]) &&
            forall j :: 0 <= j < k ==> !matches(rows[1..][j]);
          assert rows[k + 1] == r.value;
          forall j | 0 <= j < k + 1 ensures !matches(rows[j]) {
            if j > 0 { assert rows[j] == rows[1..][j - 1]; }
          }
        }
      }
      r
  }

  /** Appending rows never changes a match already found, and is searched only when there was none. */
  lemma {:induction false} FirstWhereAppend<T>(rows: seq<T>, extra: seq<T>, matches: T -> bool)
    ensures FirstWhere(rows + extra, matches) ==
      if FirstWhere(rows, matches).Some? then FirstWhere(rows, matches) else FirstWhere(extra, matches)
  {
    if rows != [] {
      assert (rows + extra)[0] == rows[0];
      assert (rows + extra)[1..] == rows[1..] + extra;
      FirstWhereAppend(rows[1..], extra, matches);
    } else {
      assert rows + extra == extra;
    }
  }

  /** The image query by hash. */
  function FindImage(images: seq<ImageRecord>, hash: string): (r: Option<ImageRecord>)
    ensures r.Some? ==> r.value in images && r.value.hash == hash
    ensures r.None? <==> forall i :: 0 <= i < |images| ==> images[i].hash != hash
  {
    FirstWhere(images, (img: ImageRecord) => img.hash == hash)
  }

  /**
   * The cache lookup: read-only, and exact on the ordered key — it answers a
   * record whose hashes and method equal the arguments in the given order,
   * and answers nothing exactly when there is no such record.
   */
  function GetComparison(comparisons: seq<ComparisonRecord>, hash1: string, hash2: string, methodName: string)
    : (r: Option<ComparisonRecord>)
    ensures r.Some? ==> r.value in comparisons && Key(r.value) == (hash1, hash2, methodName)
    ensures r.None? <==> forall i :: 0 <= i < |comparisons| ==> Key(comparisons[i]) != (hash1, hash2, methodName)
  {
    FirstWhere(comparisons, (c: ComparisonRecord) => Key(c) == (hash1, hash2, methodName))
  }

  lemma FindImageAppend(images: seq<ImageRecord>, extra: seq<ImageRecord>, hash: string)
    ensures FindImage(images + extra, hash) ==
      if FindImage(images, hash).Some? then FindImage(images, hash) else FindImage(extra, hash)
  {
    FirstWhereAppend(images, extra, (img: ImageRecord) => img.hash == hash);
  }

  lemma GetComparisonAppend(comparisons: seq<ComparisonRecord>, extra: seq<ComparisonRecord>,
                            hash1: string, hash2: string, methodName: string)
    ensures GetComparison(comparisons + extra, hash1, hash2, methodName) ==
      if GetComparison(comparisons, hash1, hash2, methodName).Some?
      then GetComparison(comparisons, hash1, hash2, methodName)
      else GetComparison(extra, hash1, hash2, methodName)
  {
    FirstWhereAppend(comparisons, extra, (c: ComparisonRecord) => Key(c) == (hash1, hash2, methodName));
  }

  /** The contents of both tables. */
  datatype Tables = Tables(images: seq<ImageRecord>, comparisons: seq<ComparisonRecord>) {

    /**
     * The table invariant: ids count up from 1, every image's hash is the
     * identity of its URL, image hashes and URLs are unique, and at most one
     * comparison exists per ordered key.
     */
    ghost predicate Valid(identity: UrlHasher) {
      && (forall i :: 0 <= i < |images| ==> images[i].id == i + 1 && images[i].hash == identity(images[i].url))
      && (forall i, j :: 0 <= i < j < |images| ==> images[i].hash != images[j].hash && images[i].url != images[j].url)
      && (forall i :: 0 <= i < |comparisons| ==> comparisons[i].id == i + 1)
      && (forall i, j :: 0 <= i < j < |comparisons| ==> Key(comparisons[i]) != Key(comparisons[j]))
    }

    /**
     * Registers an image by the identity of its URL: an existing record with
     * that hash is returned and nothing is inserted; otherwise exactly one
     * record with the URL and its hash is appended and returned. The
     * comparisons are untouched.
     */
    function GetOrCreateImage(identity: UrlHasher, url: string): (res: (Tables, ImageRecord))
      ensures res.1.hash == identity(url) && res.1 in res.0.images
      ensures res.0.comparisons == comparisons
      ensures FindImage(images, identity(url)).Some? ==>
        res.0 == this && res.1 == FindImage(images, identity(url)).value
      ensures FindImage(images, identity(url)).None? ==>
        res.1 == ImageRecord(|images| + 1, url, identity(url)) && res.0.images == images + [res.1]
    {
      var imageHash := identity(url);
      match FindImage(images, imageHash)
      case Some(existing) => (this, existing)
      case None =>
        var created := ImageRecord(|images| + 1, url, imageHash);
        (this.(images := images + [created]), created)
    }

    /**
     * Inserts a comparison. A record with the same ordered key makes the
     * insert fail and changes nothing; otherwise exactly one record with the
     * given fields is appended, every other record unchanged.
     */
    function CreateComparison(hash1: string, hash2: string, methodName: string, similarity: real)
      : (res: (Result<ComparisonRecord, Error>, Tables))
      ensures res.1.images == images
      ensures GetComparison(comparisons, hash1, hash2, methodName).Some? ==>
        res == (Failure(DuplicateComparison), this)
      ensures GetComparison(comparisons, hash1, hash2, methodName).None? ==>
        res.0 == Success(ComparisonRecord(|comparisons| + 1, hash1, hash2, methodName, similarity)) &&
        res.1.comparisons == comparisons + [res.0.value]
    {
      if GetComparison(comparisons, hash1, hash2, methodName).Some? then (Failure(DuplicateComparison), this)
      else
        var created := ComparisonRecord(|comparisons| + 1, hash1, hash2, methodName, similarity);
        (Success(created), this.(comparisons := comparisons + [created]))
    }
  }

  /** Registering an image keeps the table invariant, in particular unique hashes and URLs. */
  lemma GetOrCreatePreservesValid(t: Tables, identity: UrlHasher, url: string)
    requires t.Valid(identity)
    ensures t.GetOrCreateImage(identity, url).0.Valid(identity)
  {
    var h := identity(url);
    if FindImage(t.images, h).None? {
      var images' := t.GetOrCreateImage(identity, url).0.images;
      forall i, j | 0 <= i < j < |images'|
        ensures images'[i].hash != images'[j].hash && images'[i].url != images'[j].url
      {
        if j == |t.images| {
          assert images'[i] == t.images[i];
          assert t.images[i].hash != h;
        }
      }
    }
  }

  /**
   * Registering the same URL twice answers the same record both times, and
   * the second call changes nothing: the table grows by at most one.
   */
  lemma GetOrCreateIdempotent(t: Tables, identity: UrlHasher, url: string)
    ensures var (t1, image1) := t.GetOrCreateImage(identity, url);
      t1.GetOrCreateImage(identity, url) == (t1, image1) && |t1.images| <= |t.images| + 1
  {
    var (t1, image1) := t.GetOrCreateImage(identity, url);
    if FindImage(t.images, identity(url)).None? {
      FindImageAppend(t.images, [image1], identity(url));
      assert FindImage([image1], identity(url)) == Some(image1);
    }
  }

  /** Inserting a comparison keeps the table invariant: at most one record per ordered key. */
  lemma CreatePreservesValid(t: Tables, identity: UrlHasher, hash1: string, hash2: string, methodName: string, similarity: real)
    requires t.Valid(identity)
    ensures t.CreateComparison(hash1, hash2, methodName, similarity).1.Valid(identity)
  {
  }

  /** The tables after registering each URL of `urls` in turn. */
  function RegisterAll(t: Tables, identity: UrlHasher, urls: seq<string>): Tables
    decreases |urls|
  {
    if urls == [] then t
    else RegisterAll(t.GetOrCreateImage(identity, urls[0]).0, identity, urls[1..])
  }

  /**
   * After any sequence of registrations the invariant still holds (image
   * hashes stay unique), every registered URL's identity has a record, and
   * the comparisons are untouched.
   */
  lemma {:induction false} RegisterAllKeepsHashesUnique(t: Tables, identity: UrlHasher, urls: seq<string>)
    requires t.Valid(identity)
    ensures RegisterAll(t, identity, urls).Valid(identity)
    ensures RegisterAll(t, identity, urls).comparisons == t.comparisons
    ensures forall u :: u in urls ==> FindImage(RegisterAll(t, identity, urls).images, identity(u)).Some?
    ensures forall u :: FindImage(t.images, identity(u)).Some? ==> FindImage(RegisterAll(t, identity, urls).images, identity(u)).Some?
    decreases |urls|
  {
    if urls != [] {
      var t1 := t.GetOrCreateImage(identity, urls[0]).0;
      GetOrCreatePreservesValid(t, identity, urls[0]);
      forall u | FindImage(t.images, identity(u)).Some? ensures FindImage(t1.images, identity(u)).Some? {
        if t1 != t {
          FindImageAppend(t.images, [t.GetOrCreateImage(identity, urls[0]).1], identity(u));
        }
      }
      assert FindImage(t1.images, identity(urls[0])).Some?;
      RegisterAllKeepsHashesUnique(t1, identity, urls[1..]);
      forall u | u in urls ensures FindImage(RegisterAll(t, identity, urls).images, identity(u)).Some? {
        if u != urls[0] { assert u in urls[1..]; }
      }
    }
  }

  /** The database session: the two tables, updated in place, keyed by a fixed URL hasher. */
  class Database {
    const identity: UrlHasher
    var images: seq<ImageRecord>
    var comparisons: seq<ComparisonRecord>

    function State(): Tables
      reads this
    {
      Tables(images, comparisons)
    }

    ghost predicate Valid()
      reads this
    {
      State().Valid(identity)
    }

    constructor (identity: UrlHasher)
      ensures this.identity == identity
      ensures images == [] && comparisons == []
      ensures Valid()
    {
      this.identity := identity;
      images := [];
      comparisons := [];
    }

    /** Looks the URL's hash up and inserts a record when there is none. */
    method GetOrCreateImage(url: string) returns (image: ImageRecord)
      requires Valid()
      modifies this
      ensures Valid()
      ensures (State(), image) == old(State()).GetOrCreateImage(identity, url)
    {
      GetOrCreatePreservesValid(State(), identity, url);
      var imageHash := identity(url);
      var existing := FindImage(images, imageHash);
      if existing.None? {
        image := ImageRecord(|images| + 1, url, imageHash);
        images := images + [image];
      } else {
        image := existing.value;
      }
    }

    /** Adds a comparison; the uniqueness constraint rejects a second record for the same ordered key. */
    method CreateComparison(hash1: string, hash2: string, methodName: string, similarity: real)
      returns (r: Result<ComparisonRecord, Error>)
      requires Valid()
      modifies this
      ensures Valid()
      ensures (r, State()) == old(State()).CreateComparison(hash1, hash2, methodName, similarity)
    {
      CreatePreservesValid(State(), identity, hash1, hash2, methodName, similarity);
      if GetComparison(comparisons, hash1, hash2, methodName).Some? {
        r := Failure(DuplicateComparison);
      } else {
        var created := ComparisonRecord(|comparisons| + 1, hash1, hash2, methodName, similarity);
        comparisons := comparisons + [created];
        r := Success(created);
      }
    }
  }
}
