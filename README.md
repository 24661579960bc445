# MinIO object-storage adapter — a Dafny model

The adapter (`minioServant`, also aliased as `s3Servant`) puts the
application's object-storage operations onto an S3-compatible client:
writing an object with an optional Governance retention lock, persisting it
later, deleting one or many objects, testing for existence, presigning a GET
URL, and turning keys into public URLs and back. It also reports its own
name and version.

The model has three modules:

- `Wrappers` (wrappers.dfy): `Option` (Go's `error`, with `None` for nil),
  `Outcome` and `Result` for the client's answers.
- `GoStrings` (gostrings.dfy): Go's `strings.Replace(s, old, new, -1)` and
  `strings.Count`, with Go's rule for an empty pattern. The adapter's
  `ObjectKey` is this replacement with an empty replacement.
- `MinioStorage` (storage.dfy): the adapter. Its configuration (bucket,
  domain, retention duration, fixed retain-until date, persistence flag) is
  never changed after construction, so it is the immutable datatype
  `Servant`. The SDK client is abstract. Each operation returns the
  `Request` it hands to the client. The client's answer is a parameter: an
  `Outcome`, a `Result`, or the sequence of per-key results of a bulk
  delete. The current time is also a parameter. Times and durations are
  modelled as integers counting nanoseconds.

Two operations are methods, because the source builds their results step
by step. `PutOptions`/`PutObject` update the write options field by field.
`DeleteObjects` pushes the keys one at a time and then folds the per-key
results into one error. The fold is proved against `LastError`, a separate
definition of "the last non-nil error, or nil".

Two behaviours of the code shape what the model proves:

- `DeleteObjects` calls `RemoveObjects` even with no keys
  (internal/dao/storage/minio.go:70). Its result is nil only when the client
  delivers no error.
- `ObjectKey` removes every leftmost non-overlapping occurrence of the
  domain (internal/dao/storage/minio.go:109). So `ObjectKey(ObjectURL(k)) == k`
  holds exactly when the domain is empty or does not occur in `k`. The model
  proves both directions.

The expiry that `SignURL` passes to the client is
`time.Duration(expiredInSec) * time.Second`, an int64 product that wraps
silently. The model writes the wrap out in `Wrap64`. It proves that the
expiry is exact for every value up to 9223372036 seconds and congruent to
the true product modulo 2^64 for every value. `ExpiryPeriod` shows that
adding 2^55 seconds never changes the requested duration; `ExpiryWraps`
shows that 2^55 + 3600 seconds is requested as 3600 seconds.

## Model

| member | source | states |
|---|---|---|
| `MinioStorage.Name` | internal/dao/storage/minio.go:31-33 | The name is "MinIO" for every adapter configuration. |
| `MinioStorage.Version` | internal/dao/storage/minio.go:35-37 | The version is 0.2.0, with no pre-release or build metadata, for every configuration. |
| `MinioStorage.ObjectURL` | internal/dao/storage/minio.go:104-106 | The URL starts with the domain, and what follows the domain is exactly the key. This includes the empty key. |
| `MinioStorage.ObjectKey` | internal/dao/storage/minio.go:108-110 | The result is shorter than the URL by one domain length per counted occurrence. It equals the URL when the domain is empty or absent, and is strictly shorter when the domain occurs. |
| `MinioStorage.ObjectKeyRoundTrip` | internal/dao/storage/minio.go:104-110 | `ObjectKey(ObjectURL(k)) == k` if and only if the domain is empty or does not occur in `k`. |
| `MinioStorage.PutOptions` | internal/dao/storage/minio.go:40-44 | The content type is always set. A Governance mode and a retain-until of `now + retainInDays` are set exactly when persisting is allowed and the caller did not ask for persistence. Otherwise neither is set. |
| `MinioStorage.PutObject` | internal/dao/storage/minio.go:39-50 | The write goes to the adapter's bucket under the key, with the retention decision above. A failure returns `("", err)`. A success returns `(domain + key, nil)`, and `ObjectKey` maps that URL back to the key whenever the domain does not occur in the key. |
| `MinioStorage.PersistObject` | internal/dao/storage/minio.go:52-61 | When persisting is disabled, no request is made and nil is returned. Otherwise the request is a Governance retention until the adapter's stored `retainUntilDate`, with no clock involved. The result is nil exactly when the client succeeds, and the client's error otherwise. |
| `MinioStorage.DeleteObject` | internal/dao/storage/minio.go:63-65 | The request is a single delete of the key in the adapter's bucket with the force-delete flag set (no governance-bypass option). The result is nil exactly when the client succeeds, and the client's error otherwise. |
| `MinioStorage.LastError` | internal/dao/storage/minio.go:77-82 | The result is nil exactly when every per-key result is nil. Otherwise it is the error of some result after which every result is nil. |
| `MinioStorage.LastErrorAppend` | internal/dao/storage/minio.go:77-82 | Earlier failures are discarded. The error for `earlier + later` is that of `later` if `later` holds an error, and that of `earlier` otherwise. |
| `MinioStorage.DeleteObjects` | internal/dao/storage/minio.go:67-84 | All keys, in the caller's order, go to one bulk delete, even when there are no keys. The returned error is the last non-nil per-key error in delivery order, or nil. |
| `MinioStorage.IsObjectExist` | internal/dao/storage/minio.go:86-92 | The request is a metadata lookup of the key. The result is true exactly when the lookup succeeds, and true exactly when the error is nil. A failed lookup returns false with the client's error. |
| `MinioStorage.Wrap64` | internal/dao/storage/minio.go:97 | The result is in the int64 range and congruent to the input modulo 2^64. It equals the input when the input is already in range. |
| `MinioStorage.ExpiryOf` | internal/dao/storage/minio.go:97 | The requested duration is `expiredInSec` seconds in nanoseconds, exactly, whenever `abs(expiredInSec) <= 9223372036`. For every int64 input it is congruent to `expiredInSec * 10^9` modulo 2^64. |
| `MinioStorage.ExpiryPeriod` | internal/dao/storage/minio.go:97 | For every int64 `x` with room to add 2^55, `x + 2^55` seconds gives the same requested duration as `x` seconds. |
| `MinioStorage.ExpiryWraps` | internal/dao/storage/minio.go:97 | 2^55 + 3600 seconds wraps to the same duration as 3600 seconds. |
| `MinioStorage.SignURL` | internal/dao/storage/minio.go:94-102 | The request is a presigned GET of the key in the adapter's bucket, with an expiry of `expiredInSec` seconds (int64 product). A failure returns `("", err)`. A success returns the client's URL with nil. |
| `GoStrings.ReplaceAll` | internal/dao/storage/minio.go:109 | Models `strings.Replace(s, old, new, -1)`: leftmost non-overlapping matches, and insertion at every rune boundary for an empty `old`. The result has length `len(s) + n*(len(new) - len(old))`, where `n` is `Count(s, old)`. `ReplaceAllNoMatch`, `ReplaceAllSelf`, `InsertNothing` and `RemovingAll` characterize it further. |
| `GoStrings.Count` | internal/dao/storage/minio.go:109 | Models `strings.Count`, which `strings.Replace` uses to size its result and to return early when nothing matches. For a non-empty pattern, the counted occurrences fit in the string: `n * len(old) <= len(s)`. `CountPositiveIffOccurs` characterizes when it is zero. |
| `GoStrings.CountPositiveIffOccurs` | internal/dao/storage/minio.go:109 | The count is positive if and only if the pattern occurs in the string, for every pattern, the empty one included. |
| `GoStrings.ReplaceAllNoMatch` | internal/dao/storage/minio.go:109 | A string in which the pattern does not occur comes back unchanged, so Go's early return when `Count == 0` does not change the result. |
| `GoStrings.ReplaceAllSelf` | internal/dao/storage/minio.go:109 | Replacing a pattern by itself returns the input, so Go's early return for `old == new` does not change the result. |
| `GoStrings.InsertNothing` | internal/dao/storage/minio.go:109 | With an empty pattern and an empty replacement, Go's insert-at-every-rune rule returns the input. |
| `GoStrings.RemovingAll` | internal/dao/storage/minio.go:109 | Removing a pattern shortens the string by one pattern length per counted occurrence. The string is unchanged when the pattern is empty or absent, and strictly shorter otherwise. |

## Left out

- The SDK client calls (`PutObject`, `PutObjectRetention`, `RemoveObject`, `RemoveObjects`, `StatObject`, `PresignedGetObject`) are network I/O. Each is a `Request` value that the operation returns, plus an answer that the operation takes.
- The channel hand-off of `DeleteObjects` is concurrency. The adapter fills a buffered channel with the keys and drains the result channel. Any goroutine lives inside the SDK's `RemoveObjects`. The model folds a given finite sequence of per-key results. The objects channel is never closed, so whether the client ever ends the result stream depends on the SDK, and the model does not decide it.
- Go strings are arbitrary byte sequences. The model's strings are sequences of runes (`seq<char>`), so it assumes valid UTF-8 and measures lengths in runes where Go's `len` counts bytes. For valid UTF-8 the replacements agree, because UTF-8 is self-synchronizing. URLs that are not valid UTF-8 are not modelled.
- `time.Now()` is a parameter (`now`). `Time.Add` is unbounded integer addition, without Go's saturation of out-of-range times.
- `semver.MustParse` belongs to a foreign library. The version is a constant `SemVer` value.
- The presigned URL's format (AWS Signature Version 4 query-string authentication) is produced by the SDK. `SignURL` returns whatever URL the client gives. The adapter passes an empty `url.Values`, so the model's `PresignedGetObjectCall` has no parameter field.
- The content stream and `objectSize` of `PutObject` are passed through to the client untouched, so they are not modelled.
- Server-side enforcement of retention locks and of forced deletion is not modelled.
- The construction of the adapter (client, bucket and configuration loading) is not part of this model. `Servant` takes its configuration as given.
