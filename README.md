# Multipart upload to digital-downloads: a Dafny model of `upload`

The program uploads one local file to object storage through the
digital-downloads control plane. The control plane answers a signed-URL
request with a plan, `{id, upload_id, urls: [{part, start, end, url}]}`.
`upload` then walks the plan's `urls`. For each entry it slices the bytes
`[start, end)` from the file, builds a fixed set of S3-style headers and PUTs
the slice to the presigned URL. Each PUT's promise yields the record
`{ETag, PartNumber}`, where the ETag is the response's `etag` header with its
quotes removed. `Promise.all` joins these promises. When every part has
fulfilled, the list of records and the plan's `upload_id` are posted to
`assets/{id}/uploaded`. If any part fails, the catch branch runs and
completion is never posted.

The model is split into modules that follow the pieces of `upload`:

- `Strings` (strings.dfy): JavaScript's `split` with a one-character separator
  and `join`, with reference definitions of what a split/join chain computes.
  `RemoveAll` deletes every occurrence of a character. `Before` is the prefix
  before the first occurrence.
- `ETagHeader` (etag_header.dfy): `etag.split('"').join('')`.
- `AmzDate` (amz_date.dfy): the `X-Amz-Date` expression. It maps a
  `toISOString()` value to the ISO 8601 basic format `YYYYMMDDTHHmmssZ`
  (ISO 8601:2004 section 4.3.2).
- `Blob` (blob.dfy): Node's `Blob.slice`, including its treatment of negative
  and out-of-range offsets.
- `Promises` (promises.dfy): `Promise.all`'s bookkeeping. Values are stored by
  index as the promises settle in some order, and the first rejection wins.
- `Upload` (upload.dfy): the plan and request/response records, the part loop
  as a method (`SendParts`), the per-part result (`PartResult`), the
  completion rule (`Complete`, `FanInMeaning`) and `Upload`, which puts them
  together.

Inputs that the program reads from the outside world are parameters:

- the plan, as a value;
- the file, as a byte sequence;
- one `toISOString()` reading per loop iteration, because each iteration calls
  `new Date()`;
- how each PUT settles (`PutRejected(reason)`, or `PutFulfilled(etag)` with
  the `etag` header present or absent);
- the order in which the part promises settle.

Where the code and the design disagree, the model follows the code:

- The payload-hash header is the constant `UNSIGNED-PAYLOAD`, not a SHA-256
  digest of the part.
- The plan is not validated. A contiguous, covering plan is only a hypothesis
  of the lemma `CoveringSlicesReassemble`, and an inverted or out-of-range
  range is sliced the way `Blob.slice` slices it.
- Every `"` is removed from the ETag, not only the surrounding pair.
- On failure, the catch branch receives one error: the first rejection to
  settle. Part errors are not aggregated.
- The completion parts are an ordered list in plan order, not a set.
- The outcome of completion is not returned to the caller.

## Model

| member | source | states |
|---|---|---|
| `Strings.Split` | index.js:70 | `split` with one separator never gives an empty list, and no piece contains the separator |
| `Strings.Join` | index.js:70 | a join with at least one piece starts with the first piece |
| `Strings.JoinLast` | index.js:70 | a join ends with the separator and the last piece, after the join of the other pieces |
| `Strings.JoinSplit` | index.js:70 | joining the pieces of a split with the same separator gives back the input |
| `Strings.JoinSplitRemovesAll` | index.js:70 | `split(c).join('')` deletes every `c` and keeps the other characters in order |
| `Strings.SplitFirstIsBefore` | index.js:57 | `split('.')[0]` is the text before the first `.`, or the whole string when there is none |
| `Strings.BeforeRemoveAllCommute` | index.js:57 | deleting `:` and then cutting at the first `.` is the same as cutting first and then deleting |
| `ETagHeader.Normalize` | index.js:70 | the normalised ETag is the header with every `"` deleted, so it contains no `"` |
| `ETagHeader.NormalizeIdempotent` | index.js:70 | normalising twice gives the same result as normalising once |
| `ETagHeader.NormalizeUnquoted` | index.js:70 | a value without quotes is unchanged |
| `ETagHeader.NormalizeKeepsOrder` | index.js:70 | normalising distributes over concatenation, deletes a `"` and keeps any other character, so the kept characters stay in their order |
| `ETagHeader.NormalizeCounts` | index.js:70 | every character other than `"` occurs as often after normalising as before |
| `ETagHeader.NormalizeQuoted` | index.js:70 | a quoted identifier `"id"` becomes `id` |
| `ETagHeader.NormalizeExample` | index.js:70 | `"abc123"` becomes `abc123` |
| `ETagHeader.NormalizeInnerQuote` | index.js:70 | a quote inside the value is deleted too: `a"b` becomes `ab` |
| `AmzDate.FromIsoStringCharacters` | index.js:57 | the date header always ends in `Z` and contains no `-`, `:` or `.` |
| `AmzDate.FromIsoStringMeaning` | index.js:57 | for any input, the header is the text before the first `.` with every `:` and `-` deleted, followed by `Z` |
| `AmzDate.FromIsoStringWellFormed` | index.js:57 | for a well-formed 24-character `toISOString()` value, the header is exactly `YYYYMMDD` + `T` + `HHmmss` + `Z`: the same digits in the same order, milliseconds dropped, and it is in the 16-character basic format |
| `Blob.RelativeOffset` | index.js:50 | `slice` clamps an offset to `[0, size]`; an in-range offset is kept, a negative one counts back from the end, and one past either end is clamped to `size` or to `0` |
| `Blob.Slice` | index.js:50 | a slice is a prefix of the file from the clamped start; its length is the clamped end minus the clamped start, or `0` when the clamped end does not pass the clamped start, so it is never longer than the file |
| `Blob.SliceInRange` | index.js:50 | when `0 <= start <= end <= size`, the part body is exactly the bytes at offsets `start` to `end - 1`, and its length is `end - start` |
| `Blob.SliceInverted` | index.js:50 | a range whose clamped end does not pass its clamped start gives an empty body, never a wrapped one |
| `Blob.SliceClampsEnd` | index.js:50 | an end past the file's size stops the body at the last byte |
| `Blob.SliceAdjacent` | index.js:50 | adjacent in-range slices concatenate to the slice of the combined range |
| `Promises.Settle` | index.js:82 | while promises settle, `Promise.all` keeps exactly one slot per promise |
| `Promises.SettleMeaning` | index.js:82 | each settled value is stored in its own index's slot and the other slots are untouched; the join fails exactly when a settled promise was rejected, and then with the reason of the first such promise |
| `Promises.All` | index.js:82 | a fulfilled `Promise.all` has one value per promise |
| `Promises.AllFulfils` | index.js:82 | `Promise.all` fulfils if and only if every promise fulfils, and its i-th value is the i-th promise's value whatever the settlement order |
| `Promises.AllRejects` | index.js:82 | a rejected `Promise.all` carries the reason of the first rejected promise to settle |
| `Promises.AllOrderIndependent` | index.js:82 | the settlement order changes neither whether `Promise.all` fulfils nor the value it fulfils with |
| `Upload.PartHeaders` | index.js:53-59 | every part sends exactly three headers |
| `Upload.PartHeadersFixed` | index.js:53-59 | every PUT has three headers: `X-Amz-Content-Sha256: UNSIGNED-PAYLOAD`, `X-Amz-Algorithm: AWS4-HMAC-SHA256`, and `X-Amz-Date` formatted from that part's clock reading; no header is a Content-Type in any letter case |
| `Upload.PartHeadersDifferOnlyInDate` | index.js:53-59 | two parts' header sets differ at most in the date value |
| `Upload.PartRequest` | index.js:50-65 | a part's PUT goes to the entry's presigned URL; its body is never longer than the file and, for an in-range entry, is the file's bytes `[start, end)` |
| `Upload.PartRequestHeaders` | index.js:53-65 | a part's PUT carries `UNSIGNED-PAYLOAD` as its payload hash and the basic-format date of that part's own clock reading |
| `Upload.PartResult` | index.js:66-75 | a part's promise fulfils if and only if the PUT fulfilled with an `etag` header; the record has `PartNumber` equal to the plan entry's `part` and the quote-free `etag` as `ETag`; a rejected PUT rejects with its reason |
| `Upload.SendParts` | index.js:46-77 | exactly one PUT and one promise per entry of `urls`, in plan order; the i-th PUT goes to the i-th URL with the i-th slice and headers, and the i-th promise settles as the i-th PUT's response dictates |
| `Upload.PartResults` | index.js:46-77 | one promise per plan entry; the i-th fulfils exactly when the i-th PUT fulfilled with an `etag`, and then carries the i-th entry's `part` |
| `Upload.CompletionUrl` | index.js:86 | the completion endpoint is the API base followed by `assets/`, the asset id and `/uploaded` |
| `Upload.CompletionUrlTargetsAsset` | index.js:86 | the completion endpoint contains the plan's asset `id`, which can be read back from it; different assets get different endpoints |
| `Upload.Complete` | index.js:82-97 | completion is posted exactly when the join fulfilled, to the asset's completion endpoint with the joined part list and the plan's `upload_id`; otherwise the catch branch receives the join's error |
| `Upload.EmptyPlanCompletes` | index.js:82-89 | a plan with no entries still posts completion, with an empty part list |
| `Upload.CoveringSlicesReassemble` | index.js:48-50 | when the plan's ranges are contiguous from `lo` to `hi`, the concatenated part slices are exactly the file's bytes `[lo, hi)` |
| `Upload.RequestsReassemble` | index.js:48-50 | for a contiguous plan covering the whole file, the concatenated PUT bodies are the file |
| `Upload.FanInMeaning` | index.js:82-97 | completion is posted if and only if every PUT fulfilled with an `etag`; its body lists, in plan order, `PartNumber = urls[i].part` and the stripped i-th `etag`, carries the plan's `upload_id` and targets the plan's `id`; otherwise the catch branch receives the first failed part's error |
| `Upload.Upload` | index.js:46-97 | the whole of `upload` after the plan arrives: one PUT per entry as above, bodies that reassemble the file for a covering plan, and the completion rule of `FanInMeaning` |

## Left out

- The signed-URL POST, the completion POST and axios itself are not modelled. This covers `baseURL`, the default `Authorization` header (which the `axios.create()` instance also inherits), the request and response plumbing, and deleting the PUT default `Content-Type` on the instance. These are foreign library calls. PUT outcomes are inputs, and the modelled header list is the explicit per-request set.
- Promises.All: every promise is assumed to settle. A PUT that never settles leaves the join pending, and neither the completion nor the catch branch runs; the model has no pending outcome.
- Upload.FanInMeaning: assumes, through `Promises.All`, that every PUT settles; a hung PUT leaves the join pending and neither branch runs.
- Upload.Upload: assumes that every PUT settles, exactly as `Upload.FanInMeaning` does.
- A failure of the completion POST, which the same catch branch also receives, is not modelled: it is transport.
- Loading `.env`, the `ACCESS_TOKEN` check and `process.exit` are not modelled: they are startup plumbing.
- Reading the file, `statSync`, building the `Blob` and the top-level call are not modelled: they are I/O. The file is a byte sequence. The metadata `size` is only sent to the control plane, so it is not modelled.
- `debug` and `console` logging are not modelled.
- Asynchrony as such is not modelled: the scheduling of promises, and the fact that `upload` returns before the un-awaited `Promise.all` settles. The join is modelled over a settlement order.
- `new Date()` is not modelled: each loop iteration's `toISOString()` string is a parameter.
- Plan fields are JSON integers and strings. `Blob.slice`'s conversion of fractional, `NaN` or missing offsets is not modelled, and neither is a numeric `id` being turned into text in the completion URL.
- A plan whose `urls` is not an array makes the `for…of` throw. This is not modelled: `urls` is a sequence.
- `Blob.byte` is a value from 0 to 255. The slice's MIME type and its copy-on-slice behaviour are not modelled.
- The code does not compute a real per-part SHA-256, validate the plan, cap concurrency, set timeouts, aggregate part errors or return the completion result. None of this is modelled as if it did.
