# Artifact bucket retention — Dafny model

The artifacts plugin exposes object-storage buckets of a project over REST.
Almost everything it does is a pass-through to the storage client; the logic
of its own that this project models is:

- the **readable retention label** shown for a bucket: the lifecycle's
  expiration day count turned into `years`, `months`, `weeks` or `days` by a
  fixed-divisor priority chain (365, 31, 7), module `ReadableRetention`;
- the **retention day computation** for creating or updating a bucket: an
  optional `(expiration_value, expiration_measure)` request converted to a day
  count through the calendar and clamped by the project's data retention limit
  (`-1` = unlimited, `0` = falsy), raising `Forbidden` when the limit is
  exceeded, module `RetentionDays`;
- the **bucket id** `p--<project_id>.<bucket>`, with a parser proved to be its
  inverse, module `BucketIds`;
- the **bucket listing**: tag sets folded into dictionaries (later keys win),
  one row per bucket, the bucket count and summed size, module `BucketListing`;
- the **accept/reject decisions** of the `post` and `put` handlers: which
  status they answer, which storage actions they perform and in which order,
  and which id they report, module `BucketEndpoints`.

The calendar step `(today + relativedelta(**{measure: value}) - today).days`
is a function parameter `(measure, value) -> days` (today's date is fixed
inside it). The predicate `RetentionDays.CalendarExact` fixes it only for
`"days"` (the value) and `"weeks"` (seven times the value); months and years
depend on calendar arithmetic and stay abstract. Storage-client answers (bucket
list, sizes, tag sets, the result of `create_bucket`, whether configuring the
lifecycle raised) are parameters as well.

The code's behaviour differs from the obvious reading in four places:

- The classifier's guard is truthiness (`days != 0`), not `days > 0`:
  negative exact multiples are classified too (`-365` gives `years, -1`).
- The computed day count is not restricted to be non-negative: a negative
  value gives a negative offset, which passes the unlimited sentinel and every
  non-negative limit (a negative limit other than -1 can still refuse it).
- With limit -1 and no retention fields the computed days are `-1 or None`,
  which is -1 and truthy: `put` and `post` then configure a lifecycle of -1
  days rather than leaving the bucket without expiration.
- A limit of `0` means "no expiration" only when no spec is given; with a spec
  it is an actual ceiling of zero days.

## Model

| member | source | states |
|---|---|---|
| ReadableRetention.Readable | api/v1/artifacts.py:9-21 | the label always denotes the input day count (value times unit); it is years exactly for non-zero multiples of 365, months exactly for non-zero multiples of 31 that are not multiples of 365, weeks exactly for non-zero multiples of 7 that are multiples of neither; 0 gives `days, 0` |
| ReadableRetention.ReadableIsCanonical | api/v1/artifacts.py:10-17 | every produced label is canonical: no earlier rule of the priority chain could have claimed its day count |
| ReadableRetention.CanonicalIsReadable | api/v1/artifacts.py:10-17 | every canonical label is what the classifier returns for the day count it denotes |
| ReadableRetention.ReadableCharacterisation | api/v1/artifacts.py:10-17 | the classifier's label for a day count is the unique canonical label denoting that count (both directions) |
| ReadableRetention.ReadableExamples | api/v1/artifacts.py:10-17 | 2555 gives years 7, 217 gives months 7, 14 gives weeks 2, 30 gives days 30, -365 gives years -1, 0 gives days 0 |
| ReadableRetention.MeasureNameKeywords | api/v1/artifacts.py:11-17 | the four measure strings written into the label are distinct, and the day and week labels are the `days` and `weeks` keywords a retention request takes |
| RetentionDays.CalculateRetentionDays | api/v1/buckets.py:83-93 | without a truthy value and measure the result is the limit, with 0 becoming None; with them it fails exactly when a limit other than -1 is below the calendar offset, and otherwise returns that offset; a returned count never exceeds a finite limit |
| RetentionDays.UnlimitedNeverRaises | api/v1/buckets.py:88-93 | with limit -1 any given spec returns its offset and never raises `Forbidden` |
| RetentionDays.DaysAndWeeksOffsets | api/v1/buckets.py:86-92 | a days request yields its value and a weeks request seven times its value, refused exactly when that exceeds a finite limit |
| RetentionDays.NegativeOffsetsPass | api/v1/buckets.py:88-91 | negative day or week counts pass every limit that is -1 or non-negative |
| RetentionDays.ZeroLimitAsymmetry | api/v1/buckets.py:84-93 | limit 0 gives None without a spec but refuses any positive offset with one |
| RetentionDays.ReadableDaysWeeksRoundTrip | api/v1/buckets.py:86-93 | a non-zero count labelled in days or weeks, submitted back as a request to an unlimited project, gives the same count |
| RetentionDays.RetentionExamples | api/v1/buckets.py:83-93 | limit 30 refuses 45 days; no spec with limit 90 gives 90; unlimited accepts 10000 days |
| BucketIds.DecimalString | api/v1/buckets.py:33 | the rendered project id is a non-empty digit string without leading zero and without '.' |
| BucketIds.BucketId | api/v1/buckets.py:33 | the id used in the listing and in the update reply (line 71) is "p--", the project id as a canonical decimal that reads back to that id, ".", and the bucket name |
| BucketIds.DecimalStringValue | api/v1/buckets.py:33 | the rendered project id reads back as the same number |
| BucketIds.BucketIdRoundTrip | api/v1/buckets.py:33 | parsing `p--<project_id>.<bucket>` gives back the project id and bucket name, dots in the name included |
| BucketIds.ParseBucketIdSound | api/v1/buckets.py:71 | any id the parser accepts is exactly the id of the pair it returns |
| BucketIds.BucketIdInjective | api/v1/buckets.py:71 | two different project/bucket pairs never share an id |
| BucketIds.BucketIdExample | api/v1/buckets.py:71 | project 42 and bucket `reports.daily` give `p--42.reports.daily` |
| BucketListing.FoldTags | api/v1/buckets.py:30 | the folded tags have exactly the tag set's keys, and each key maps to the value of its last occurrence |
| BucketListing.FoldTagsAppend | api/v1/buckets.py:30 | folding a concatenation of tag lists is the second fold overriding the first |
| BucketListing.BucketTags | api/v1/buckets.py:30 | a falsy tag response gives an empty map; a present one gives exactly the keys of its tag set, each with the value of its last occurrence |
| BucketListing.FoldTagsExample | api/v1/buckets.py:30 | a repeated key keeps its later value |
| BucketListing.ListBuckets | api/v1/buckets.py:20-37 | one row per bucket in order, carrying its name, size, `p--` id and folded tags; total is the bucket count and total size the sum of the sizes |
| BucketEndpoints.LStripSlash | api/v1/buckets.py:53 | the reported id is a suffix of the location, all removed characters are '/', and it does not start with '/' |
| BucketEndpoints.LStripSlashIdempotent | api/v1/buckets.py:53 | stripping an already stripped location changes nothing |
| BucketEndpoints.Put | api/v1/buckets.py:57-75 | 403 exactly when the name is given and the retention is refused; the lifecycle is configured, once, with the computed days, exactly when the name is given and the days are truthy; 200 exactly when that configuration did not raise; the id is `p--<project_id>.<bucket>` whenever the lifecycle call is made and absent on every other reply; no bucket is ever created |
| BucketEndpoints.Post | api/v1/buckets.py:39-55 | 403 exactly when the retention is refused, and then nothing is created; otherwise the bucket is created first; 200 exactly when creation returned a non-empty Location and the days are truthy, in which case the lifecycle is configured with those days and the id is the Location without leading slashes; a 400 with a name given means exactly one bucket creation and nothing else; no other reply reports an id |
| BucketEndpoints.UnlimitedWithoutSpec | api/v1/buckets.py:49-75 | with limit -1 and no retention fields the days are -1, which is truthy: `put` configures a -1-day lifecycle, and `post` does too after a creation with a non-empty Location |
| BucketEndpoints.ZeroLimitWithoutSpec | api/v1/buckets.py:49-75 | with limit 0 and no retention fields `put` answers 400 without storage calls while `post` creates the bucket and answers 400 |

## Left out

- Flask request parsing, response bodies and messages, `flask_restful` routing and the mode handlers of the artifacts API: HTTP plumbing. Replies keep only status, storage actions and id.
- The storage client (`MinioClient`, `MinioClientAdmin`): listing, creating and removing buckets and files, uploads, lifecycle read and write, sizes and tags are foreign I/O; their answers are parameters.
- The `delete` handlers and the file upload endpoints: direct pass-throughs to the storage client with no decision of their own.
- Permission tables of the host framework's `check_api` decorator and the project lookup RPC; the project's retention limit is a plain `int` parameter.
- `hurry.filesize.size` formatting: listing rows carry the raw byte count.
- `relativedelta` calendar arithmetic and `datetime.today()`: the day offset is an abstract calendar function, fixed only for days and weeks.
- RetentionDays.CalculateRetentionDays: does not model the `TypeError` `calculate_retention_days` raises when the project limit is `None` and a spec is given, because the limit is modelled as an `int`.
- RetentionDays.CalculateRetentionDays: does not model the `OverflowError` or `ValueError` the calendar step raises when the shifted date leaves the supported date range (about 740,000 days back and 2.9 million days forward from a present-day date), because the calendar function and `CalendarExact` are stated for all integers.
- RetentionDays.CalculateRetentionDays: does not model `int(expiration_value)` on strings or floats, nor the `TypeError` for a measure keyword `relativedelta` does not accept; the value is an optional `int` and the calendar function is total.
- BucketEndpoints.Post: does not model a `create_bucket` dict without a `Location` key (a `KeyError`) or an exception from configuring the lifecycle after creation, because both are failures of the foreign client.
- BucketListing.BucketTags: does not model a truthy tag response without a `TagSet` key (a `KeyError`).
- The exception swallowing around the lifecycle read in the artifacts `get` handlers: I/O error handling that turns any failure into a `None` retention policy.
