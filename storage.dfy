/** The MinIO object-storage adapter (`minioServant`, also aliased as
    `s3Servant`): the application's object-storage operations mapped onto an
    S3-compatible client.

    The adapter never changes its own fields after construction, so it is a
    value here. The client is not: every operation RETURNS the request it
    hands to the client (a `Request`) and TAKES the client's answer as a
    parameter, so that what is sent and how the answer is shaped are both
    stated. Times and durations are modelled as integers counting
    nanoseconds; the current time is a parameter. */
module MinioStorage {
  import opened Wrappers
  import opened GoStrings

  const MinInt64: int := -0x8000_0000_0000_0000
  const MaxInt64: int := 0x7fff_ffff_ffff_ffff

  /** Go's `int64`. */
  type Int64 = x: int | MinInt64 <= x <= MaxInt64

  /** `time.Duration`: a count of nanoseconds. */
  type Duration = Int64

  /** `time.Time`, as nanoseconds on one time line. */
  type Time = int

  /** `time.Second`. */
  const Second: int := 1_000_000_000

  /** The largest whole number of seconds an int64 Duration can hold. */
  const MaxSeconds: int := 9_223_372_036

  /** An error reported by the client; the adapter forwards it unchanged. */
  datatype Error = Error(message: string)

  /** Object-lock retention modes of the client (`minio.Governance`,
      `minio.Compliance`). */
  datatype RetentionMode = Governance | Compliance

  /** The numeric fields and labels of a `semver.Version` (its original text
      is not kept). */
  datatype SemVer = SemVer(major: nat, minor: nat, patch: nat, prerelease: string, metadata: string)

  /** The adapter's configuration, fixed at construction. The client handle
      is not a field: its behaviour is the answer passed to each operation. */
  datatype Servant = Servant(
    bucket: string,
    domain: string,
    retainInDays: Duration,
    retainUntilDate: Time,
    allowPersistObject: bool)

  /** The write options of `minio.PutObjectOptions` the adapter sets; `None`
      stands for Go's zero value (no mode, no retain-until date). */
  datatype PutObjectOptions = PutObjectOptions(
    contentType: string,
    mode: Option<RetentionMode>,
    retainUntilDate: Option<Time>)

  /** The client calls the adapter makes, with the arguments it passes. */
  datatype Request =
    | PutObjectCall(bucket: string, key: string, opts: PutObjectOptions)
    | PutObjectRetentionCall(bucket: string, key: string, mode: RetentionMode, retainUntil: Time)
    | RemoveObjectCall(bucket: string, key: string, forceDelete: bool)
    | RemoveObjectsCall(bucket: string, keys: seq<string>)
    | StatObjectCall(bucket: string, key: string)
    | PresignedGetObjectCall(bucket: string, key: string, expires: Duration)

  /** One per-key result delivered by a bulk delete (`minio.RemoveObjectError`). */
  datatype RemoveObjectError = RemoveObjectError(objectName: string, err: Option<Error>)

  /** What `PersistObject` asks of the client (nothing, when disabled) and
      what it returns. */
  datatype Persisted = Persisted(call: Option<Request>, err: Option<Error>)

  /** A single call and the error the operation returns. */
  datatype Forwarded = Forwarded(call: Request, err: Option<Error>)

  /** `IsObjectExist`'s call and its `(bool, error)` return. */
  datatype Existence = Existence(call: Request, found: bool, err: Option<Error>)

  /** `SignURL`'s call and its `(string, error)` return. */
  datatype Signed = Signed(call: Request, url: string, err: Option<Error>)

  // ---------------------------------------------------------------------
  // Identity

  /** `Name`: the backend's name, whatever the configuration. */
  function Name(s: Servant): (name: string)
    ensures name == "MinIO"
  {
    "MinIO"
  }

  /** `Version`: `semver.MustParse("v0.2.0")`, whatever the configuration. */
  function Version(s: Servant): (v: SemVer)
    ensures v.major == 0 && v.minor == 2 && v.patch == 0
    ensures v.prerelease == "" && v.metadata == ""
  {
    SemVer(0, 2, 0, "", "")
  }

  // ---------------------------------------------------------------------
  // URL <-> key

  /** `ObjectURL`: the public URL of an object is the domain followed by the
      key, for every key including the empty one. */
  function ObjectURL(s: Servant, objectKey: string): (url: string)
    ensures HasPrefix(url, s.domain) && url[|s.domain|..] == objectKey
    ensures |url| == |s.domain| + |objectKey|
  {
    s.domain + objectKey
  }

  /** `ObjectKey`: every leftmost non-overlapping occurrence of the domain is
      removed from the URL (`strings.Replace(url, domain, "", -1)`). */
  function ObjectKey(s: Servant, objectUrl: string): (key: string)
    ensures |key| == |objectUrl| - |s.domain| * Count(objectUrl, s.domain)
    ensures s.domain == "" || !Occurs(objectUrl, s.domain) ==> key == objectUrl
    ensures s.domain != "" && Occurs(objectUrl, s.domain) ==> |key| < |objectUrl|
  {
    RemovingAll(objectUrl, s.domain);
    ReplaceAll(objectUrl, s.domain, "")
  }

  /** `ObjectKey` inverts `ObjectURL` exactly for the keys in which the
      domain does not occur (or when the domain is empty): the domain in
      front is removed and the scan resumes at the key, so any occurrence
      inside the key is removed too and the key comes back shorter. */
  lemma ObjectKeyRoundTrip(s: Servant, objectKey: string)
    ensures ObjectKey(s, ObjectURL(s, objectKey)) == objectKey
        <==> s.domain == "" || !Occurs(objectKey, s.domain)
  {
    var d := s.domain;
    if d != "" {
      ReplaceAllLeading(d, objectKey, "");
      RemovingAll(objectKey, d);
    }
  }

  // ---------------------------------------------------------------------
  // Writing and retention

  /** The retention decision of `PutObject`: objects written while the
      adapter allows persisting, and not already asked to be persistent,
      are locked in Governance mode until `now + retainInDays`; every other
      write sets only the content type. */
  method PutOptions(s: Servant, contentType: string, persistance: bool, now: Time)
    returns (opts: PutObjectOptions)
    ensures opts.contentType == contentType
    ensures opts.mode.Some? <==> s.allowPersistObject && !persistance
    ensures opts.retainUntilDate.Some? <==> s.allowPersistObject && !persistance
    ensures opts.mode.Some? ==> opts.mode.value == Governance
    ensures opts.retainUntilDate.Some? ==> opts.retainUntilDate.value == now + s.retainInDays
  {
    opts := PutObjectOptions(contentType, None, None);
    if s.allowPersistObject && !persistance {
      opts := opts.(mode := Some(Governance));
      opts := opts.(retainUntilDate := Some(now + s.retainInDays));
    }
  }

  /** `PutObject`: writes the object with the options above; a failed write
      returns the empty URL and the client's error, a successful one the
      object's public URL, from which `ObjectKey` recovers the key whenever
      the domain does not occur in it. The content stream and its size are
      passed through to the client and are not modelled. */
  method PutObject(s: Servant, objectKey: string, contentType: string, persistance: bool,
                   now: Time, answer: Outcome<Error>)
    returns (call: Request, url: string, err: Option<Error>)
    ensures call.PutObjectCall? && call.bucket == s.bucket && call.key == objectKey
    ensures call.opts.contentType == contentType
    ensures call.opts.mode.Some? <==> s.allowPersistObject && !persistance
    ensures call.opts.mode.Some? ==>
              call.opts.mode.value == Governance && call.opts.retainUntilDate == Some(now + s.retainInDays)
    ensures call.opts.mode.None? ==> call.opts.retainUntilDate.None?
    ensures answer.Fail? ==> url == "" && err == Some(answer.error)
    ensures answer.Pass? ==> err.None? && HasPrefix(url, s.domain) && url[|s.domain|..] == objectKey
    ensures answer.Pass? && (s.domain == "" || !Occurs(objectKey, s.domain)) ==>
              ObjectKey(s, url) == objectKey
  {
    var opts := PutOptions(s, contentType, persistance, now);
    call := PutObjectCall(s.bucket, objectKey, opts);
    match answer
    case Fail(e) =>
      url, err := "", Some(e);
    case Pass =>
      url, err := ObjectURL(s, objectKey), None;
      ObjectKeyRoundTrip(s, objectKey);
  }

  /** `PersistObject`: when persisting is not allowed nothing is sent and no
      error is returned; otherwise a Governance retention with the adapter's
      fixed `retainUntilDate` (not one computed from the clock) is requested
      and the client's error is returned as it is. */
  function PersistObject(s: Servant, objectKey: string, answer: Outcome<Error>): (r: Persisted)
    ensures !s.allowPersistObject ==> r.call.None? && r.err.None?
    ensures s.allowPersistObject ==>
              r.call == Some(PutObjectRetentionCall(s.bucket, objectKey, Governance, s.retainUntilDate))
    ensures s.allowPersistObject ==> (r.err.None? <==> answer.Pass?)
    ensures s.allowPersistObject && answer.Fail? ==> r.err == Some(answer.error)
  {
    if !s.allowPersistObject then Persisted(None, None)
    else
      var err := match answer case Pass => None case Fail(e) => Some(e);
      Persisted(Some(PutObjectRetentionCall(s.bucket, objectKey, Governance, s.retainUntilDate)), err)
  }

  // ---------------------------------------------------------------------
  // Deleting

  /** `DeleteObject`: a single delete with MinIO's force-delete flag set
      (whether that overrides a retention lock is up to the server);
      the client's error is returned as it is. */
  function DeleteObject(s: Servant, objectKey: string, answer: Outcome<Error>): (r: Forwarded)
    ensures r.call == RemoveObjectCall(s.bucket, objectKey, true)
    ensures r.err.None? <==> answer.Pass?
    ensures answer.Fail? ==> r.err == Some(answer.error)
  {
    match answer
    case Pass => Forwarded(RemoveObjectCall(s.bucket, objectKey, true), None)
    case Fail(e) => Forwarded(RemoveObjectCall(s.bucket, objectKey, true), Some(e))
  }

  /** The error a bulk delete reports for a sequence of per-key results: the
      last one that is not nil, or nil when every result succeeded. */
  function LastError(results: seq<RemoveObjectError>): (e: Option<Error>)
    ensures e.None? <==> forall i | 0 <= i < |results| :: results[i].err.None?
    ensures e.Some? ==> exists i | 0 <= i < |results| ::
              results[i].err == e && forall j | i < j < |results| :: results[j].err.None?
  {
    if results == [] then None
    else if results[|results| - 1].err.Some? then results[|results| - 1].err
    else LastError(results[..|results| - 1])
  }

  /** Earlier failures are discarded: the outcome of a run of results is the
      outcome of its later part whenever that part holds an error, and that of
      its earlier part otherwise. */
  lemma {:induction false} LastErrorAppend(earlier: seq<RemoveObjectError>, later: seq<RemoveObjectError>)
    ensures LastError(earlier + later)
         == if LastError(later).Some? then LastError(later) else LastError(earlier)
    decreases |later|
  {
    if later != [] {
      var all := earlier + later;
      var init := later[..|later| - 1];
      assert all[..|all| - 1] == earlier + init;
      assert all[|all| - 1] == later[|later| - 1];
      LastErrorAppend(earlier, init);
    } else {
      assert earlier + later == earlier;
    }
  }

  /** `DeleteObjects`: all keys are sent, in the caller's order, to one bulk
      delete (also when there are none), and the per-key results the client
      delivers are drained in delivery order, keeping only the last error. */
  method DeleteObjects(s: Servant, objectKeys: seq<string>, results: seq<RemoveObjectError>)
    returns (call: Request, err: Option<Error>)
    ensures call == RemoveObjectsCall(s.bucket, objectKeys)
    ensures err == LastError(results)
  {
    // The keys pushed into the objects channel, which the client consumes.
    var sent: seq<string> := [];
    for i := 0 to |objectKeys|
      invariant sent == objectKeys[..i]
    {
      sent := sent + [objectKeys[i]];
    }
    call := RemoveObjectsCall(s.bucket, sent);

    err := None;
    for i := 0 to |results|
      invariant err == LastError(results[..i])
    {
      assert results[..i + 1][..i] == results[..i];
      if results[i].err.Some? {
        err := results[i].err;
      }
    }
    assert results[..|results|] == results;
  }

  // ---------------------------------------------------------------------
  // Lookup and signing

  /** `IsObjectExist`: true with no error exactly when the metadata lookup
      succeeds; any lookup error, "not found" included, gives false and that
      error. */
  function IsObjectExist(s: Servant, objectKey: string, answer: Outcome<Error>): (r: Existence)
    ensures r.call == StatObjectCall(s.bucket, objectKey)
    ensures r.found <==> answer.Pass?
    ensures r.found <==> r.err.None?
    ensures answer.Fail? ==> r.err == Some(answer.error)
  {
    match answer
    case Pass => Existence(StatObjectCall(s.bucket, objectKey), true, None)
    case Fail(e) => Existence(StatObjectCall(s.bucket, objectKey), false, Some(e))
  }

  /** Go's two's-complement `int64` arithmetic: `x` reduced into the int64
      range modulo 2^64. */
  function Wrap64(x: int): (r: Int64)
    ensures (x - r) % 0x1_0000_0000_0000_0000 == 0
    ensures MinInt64 <= x <= MaxInt64 ==> r == x
  {
    (x - MinInt64) % 0x1_0000_0000_0000_0000 + MinInt64
  }

  /** `time.Duration(expiredInSec) * time.Second`: the product in nanoseconds,
      wrapped like any int64 product. */
  function ExpiryOf(expiredInSec: Int64): (d: Duration)
    ensures (d - expiredInSec * Second) % 0x1_0000_0000_0000_0000 == 0
    ensures -MaxSeconds <= expiredInSec <= MaxSeconds ==> d == expiredInSec * Second
  {
    Wrap64(expiredInSec * Second)
  }

  /** The multiplication wraps without notice: an expiry of 2^55 + 3600
      seconds is requested as 3600 seconds. */
  lemma ExpiryWraps()
    ensures ExpiryOf(0x80_0000_0000_0000 + 3600) == ExpiryOf(3600) == 3600 * Second
  {
  }

  /** The wrap has a period of 2^55 seconds: 2^55 * 10^9 is a multiple of
      2^64, so adding 2^55 seconds never changes the requested duration. */
  lemma ExpiryPeriod(expiredInSec: Int64)
    requires expiredInSec + 0x80_0000_0000_0000 <= MaxInt64
    ensures ExpiryOf(expiredInSec + 0x80_0000_0000_0000) == ExpiryOf(expiredInSec)
  {
  }

  /** `SignURL`: asks for a presigned GET URL valid for `expiredInSec`
      seconds, with no extra request parameters; a failure returns the empty
      string and the client's error, a success the URL the client built. */
  function SignURL(s: Servant, objectKey: string, expiredInSec: Int64, answer: Result<string, Error>)
    : (r: Signed)
    ensures r.call.PresignedGetObjectCall? && r.call.bucket == s.bucket && r.call.key == objectKey
    ensures r.call.expires == ExpiryOf(expiredInSec)
    ensures answer.Failure? ==> r.url == "" && r.err == Some(answer.error)
    ensures answer.Success? ==> r.url == answer.value && r.err.None?
  {
    var call := PresignedGetObjectCall(s.bucket, objectKey, ExpiryOf(expiredInSec));
    match answer
    case Failure(e) => Signed(call, "", Some(e))
    case Success(u) => Signed(call, u, None)
  }
}
