/**
 * The multipart upload orchestrator: for every entry of the signed-URL plan
 * the part loop slices the file, builds the fixed header set and issues one
 * PUT whose response becomes the record `{ETag, PartNumber}`; once every
 * part's promise has fulfilled, the parts and the plan's `upload_id` are
 * posted to the asset's `uploaded` endpoint. Any failed part sends execution
 * to the catch branch and completion is never posted.
 *
 * PUT outcomes, the clock readings and the order in which the part promises
 * settle are inputs; the transport itself is not modelled.
 */
module Upload {
  import opened Wrappers
  import opened Blob
  import AmzDate
  import ETagHeader
  import Promises
  import Strings

  /** One entry of the plan's `urls`: a part number, a byte range `[start, end)` and a presigned URL. */
  datatype PartSpec = PartSpec(part: int, start: int, end: int, url: string)

  /** The control plane's answer to the signed-URL request. */
  datatype SignedResponse = SignedResponse(id: string, upload_id: string, urls: seq<PartSpec>)

  datatype Header = Header(name: string, value: string)

  /** One PUT as issued: the presigned URL, the part's bytes and its headers. */
  datatype PutRequest = PutRequest(url: string, body: seq<byte>, headers: seq<Header>)

  /** How a PUT settles: rejected by the transport, or fulfilled with the response's `etag` header, if any. */
  datatype PutResponse = PutRejected(reason: string) | PutFulfilled(etag: Option<string>)

  /** Why a part's promise rejects: the PUT was rejected, or the response had no `etag`
      header, so reading `.split` of `undefined` threw. */
  datatype PartError = TransferFailed(reason: string) | MissingETag

  /** The record a part's promise fulfils with, field names as in the completion body. */
  datatype UploadedPart = UploadedPart(ETag: string, PartNumber: int)

  datatype CompletionBody = CompletionBody(parts: seq<UploadedPart>, upload_id: string)

  datatype CompletionRequest = CompletionRequest(url: string, body: CompletionBody)

  /** How the join ends: the completion request is posted, or the catch branch runs with the error. */
  datatype Outcome = Completed(request: CompletionRequest) | Failed(error: PartError)

  const ApiBase := "https://app.digital-downloads.com/api/v1/"
  const ContentSha256Header := "X-Amz-Content-Sha256"
  const AlgorithmHeader := "X-Amz-Algorithm"
  const DateHeader := "X-Amz-Date"
  /** A fixed sentinel, not a digest of the part. */
  const UnsignedPayload := "UNSIGNED-PAYLOAD"
  const SigningAlgorithm := "AWS4-HMAC-SHA256"
  const Quote := ETagHeader.Quote

  /** The headers of every part's PUT; only the date depends on the clock reading. */
  function PartHeaders(isoNow: string): (hs: seq<Header>)
    ensures |hs| == 3
    ensures forall k :: 0 <= k < |hs| ==> "X-Amz-" <= hs[k].name
  {
    [ Header(ContentSha256Header, UnsignedPayload),
      Header(AlgorithmHeader, SigningAlgorithm),
      Header(DateHeader, AmzDate.FromIsoString(isoNow)) ]
  }

  /** The value of the first header called `name`, if there is one. */
  function HeaderValue(headers: seq<Header>, name: string): (r: Option<string>)
    ensures r.None? <==> forall k :: 0 <= k < |headers| ==> headers[k].name != name
    ensures r.Some? ==> exists k :: 0 <= k < |headers| && headers[k] == Header(name, r.value)
  {
    if headers == [] then None
    else if headers[0].name == name then Some(headers[0].value)
    else HeaderValue(headers[1..], name)
  }

  function AsciiLower(s: string): (r: string)
    ensures |r| == |s|
  {
    seq(|s|, i requires 0 <= i < |s| => if 'A' <= s[i] <= 'Z' then (s[i] as int + 32) as char else s[i])
  }

  /** Every part gets the same constant headers and a date header in the basic format; no header
      is a content type, in any letter case. */
  lemma PartHeadersFixed(isoNow: string)
    ensures |PartHeaders(isoNow)| == 3
    ensures HeaderValue(PartHeaders(isoNow), ContentSha256Header) == Some(UnsignedPayload)
    ensures HeaderValue(PartHeaders(isoNow), AlgorithmHeader) == Some(SigningAlgorithm)
    ensures HeaderValue(PartHeaders(isoNow), DateHeader) == Some(AmzDate.FromIsoString(isoNow))
    ensures forall k :: 0 <= k < |PartHeaders(isoNow)| ==> AsciiLower(PartHeaders(isoNow)[k].name) != "content-type"
  {
    var hs := PartHeaders(isoNow);
    assert hs[1..][1..] == [Header(DateHeader, AmzDate.FromIsoString(isoNow))];
    assert HeaderValue(hs[1..][1..], DateHeader) == Some(AmzDate.FromIsoString(isoNow));
    assert HeaderValue(hs, DateHeader) == HeaderValue(hs[1..][1..], DateHeader);
    forall k | 0 <= k < 3 ensures AsciiLower(hs[k].name) != "content-type" {
      assert hs[k].name[0] == 'X';
      assert AsciiLower(hs[k].name)[0] == 'x';
    }
  }

  /** Two parts' headers differ at most in the date. */
  lemma PartHeadersDifferOnlyInDate(isoNow1: string, isoNow2: string)
    ensures PartHeaders(isoNow1)[..2] == PartHeaders(isoNow2)[..2]
    ensures AmzDate.FromIsoString(isoNow1) == AmzDate.FromIsoString(isoNow2) ==> PartHeaders(isoNow1) == PartHeaders(isoNow2)
  {
  }

  /** The PUT issued for one plan entry, with the clock reading taken for it. */
  function PartRequest(spec: PartSpec, file: seq<byte>, isoNow: string): (r: PutRequest)
    ensures r.url == spec.url && |r.body| <= |file|
    ensures 0 <= spec.start <= spec.end <= |file| ==> r.body == file[spec.start..spec.end]
  {
    PutRequest(spec.url, Slice(file, spec.start, spec.end), PartHeaders(isoNow))
  }

  /** Every part's PUT carries the unsigned-payload marker and the basic-format date of its own
      clock reading. */
  lemma PartRequestHeaders(spec: PartSpec, file: seq<byte>, isoNow: string)
    ensures HeaderValue(PartRequest(spec, file, isoNow).headers, ContentSha256Header) == Some(UnsignedPayload)
    ensures HeaderValue(PartRequest(spec, file, isoNow).headers, DateHeader) == Some(AmzDate.FromIsoString(isoNow))
  {
    PartHeadersFixed(isoNow);
  }

  /** What a part's promise settles to once its PUT settles. */
  function PartResult(spec: PartSpec, response: PutResponse): (r: Result<UploadedPart, PartError>)
    ensures r.Success? <==> Delivered(response)
    ensures r.Success? ==> r.value.PartNumber == spec.part && Quote !in r.value.ETag
    ensures r.Success? ==> r.value.ETag == Strings.RemoveAll(response.etag.value, Quote)
    ensures response.PutRejected? ==> r == Failure(TransferFailed(response.reason))
  {
    match response
    case PutRejected(reason) => Failure(TransferFailed(reason))
    case PutFulfilled(None) => Failure(MissingETag)
    case PutFulfilled(Some(etag)) => Success(UploadedPart(ETagHeader.Normalize(etag), spec.part))
  }

  /** A PUT that fulfilled with an `etag` header. */
  predicate Delivered(response: PutResponse) {
    response.PutFulfilled? && response.etag.Some?
  }

  /** The part loop: one PUT and one promise per plan entry, in plan order. The i-th PUT's
      settlement is `responses[i]` and the i-th reading of the clock is `clock[i]`. */
  method SendParts(plan: SignedResponse, file: seq<byte>, clock: seq<string>, responses: seq<PutResponse>)
    returns (requests: seq<PutRequest>, promises: seq<Result<UploadedPart, PartError>>)
    requires |clock| == |plan.urls| && |responses| == |plan.urls|
    ensures |requests| == |plan.urls| && |promises| == |plan.urls|
    ensures forall i :: 0 <= i < |plan.urls| ==> requests[i] == PartRequest(plan.urls[i], file, clock[i])
    ensures forall i :: 0 <= i < |plan.urls| ==> promises[i] == PartResult(plan.urls[i], responses[i])
  {
    requests, promises := [], [];
    for i := 0 to |plan.urls|
      invariant |requests| == i && |promises| == i
      invariant forall k :: 0 <= k < i ==> requests[k] == PartRequest(plan.urls[k], file, clock[k])
      invariant forall k :: 0 <= k < i ==> promises[k] == PartResult(plan.urls[k], responses[k])
    {
      var part := plan.urls[i];
      var blob := Slice(file, part.start, part.end);
      var headers := PartHeaders(clock[i]);
      requests := requests + [PutRequest(part.url, blob, headers)];
      promises := promises + [PartResult(part, responses[i])];
    }
  }

  /** The endpoint the completion is posted to. */
  function CompletionUrl(id: string): (url: string)
    ensures |url| == |ApiBase| + 16 + |id|
    ensures url[..|ApiBase| + 7] == ApiBase + "assets/"
    ensures url[|url| - 9..] == "/uploaded"
  {
    ApiBase + "assets/" + id + "/uploaded"
  }

  /** Different assets have different completion endpoints, and the asset id can be read back
      from the endpoint. */
  lemma CompletionUrlTargetsAsset(id1: string, id2: string)
    ensures CompletionUrl(id1)[|ApiBase| + 7..|CompletionUrl(id1)| - 9] == id1
    ensures CompletionUrl(id1) == CompletionUrl(id2) ==> id1 == id2
  {
    var prefix := ApiBase + "assets/";
    assert |prefix| == |ApiBase| + 7;
    assert CompletionUrl(id1) == prefix + id1 + "/uploaded";
    assert CompletionUrl(id1)[|prefix|..|CompletionUrl(id1)| - 9] == id1;
    assert CompletionUrl(id2)[|prefix|..|CompletionUrl(id2)| - 9] == id2;
  }

  /** The continuation of `Promise.all`: post the parts on fulfilment, or run the catch branch. */
  function Complete(plan: SignedResponse, joined: Result<seq<UploadedPart>, PartError>): (o: Outcome)
    ensures o.Completed? <==> joined.Success?
    ensures o.Completed? ==> o.request.url == CompletionUrl(plan.id)
    ensures o.Completed? ==> o.request.body.parts == joined.value && o.request.body.upload_id == plan.upload_id
    ensures o.Failed? ==> o.error == joined.error
  {
    match joined
    case Success(parts) => Completed(CompletionRequest(CompletionUrl(plan.id), CompletionBody(parts, plan.upload_id)))
    case Failure(e) => Failed(e)
  }

  /** A plan with no entries still posts completion, with an empty part list: nothing is validated. */
  lemma EmptyPlanCompletes(plan: SignedResponse)
    requires plan.urls == []
    ensures Complete(plan, Promises.All<UploadedPart, PartError>([], [])) ==
      Completed(CompletionRequest(CompletionUrl(plan.id), CompletionBody([], plan.upload_id)))
  {
    Promises.AllFulfils<UploadedPart, PartError>([], []);
  }

  /** The plan's ranges follow each other without gap or overlap and run from `lo` to `hi`. */
  predicate Covers(urls: seq<PartSpec>, lo: int, hi: int)
    decreases |urls|
  {
    if urls == [] then lo == hi
    else urls[0].start == lo && lo <= urls[0].end && Covers(urls[1..], urls[0].end, hi)
  }

  lemma {:induction false} CoversOrdered(urls: seq<PartSpec>, lo: int, hi: int)
    requires Covers(urls, lo, hi)
    ensures lo <= hi
    ensures urls != [] ==> urls[0].end <= hi
    decreases |urls|
  {
    if urls != [] {
      CoversOrdered(urls[1..], urls[0].end, hi);
    }
  }

  function Concat(chunks: seq<seq<byte>>): seq<byte>
  {
    if chunks == [] then [] else chunks[0] + Concat(chunks[1..])
  }

  function Bodies(requests: seq<PutRequest>): seq<seq<byte>>
  {
    seq(|requests|, i requires 0 <= i < |requests| => requests[i].body)
  }

  /** The slices the part loop takes, in plan order. */
  function Slices(urls: seq<PartSpec>, file: seq<byte>): (r: seq<seq<byte>>)
    ensures |r| == |urls|
  {
    seq(|urls|, i requires 0 <= i < |urls| => Slice(file, urls[i].start, urls[i].end))
  }

  /** When the plan's ranges cover `[lo, hi)` contiguously, the part slices put back together
      are exactly those bytes of the file. The code relies on this without checking it. */
  lemma {:induction false} CoveringSlicesReassemble(urls: seq<PartSpec>, file: seq<byte>, lo: int, hi: int)
    requires 0 <= lo <= hi <= |file| && Covers(urls, lo, hi)
    ensures Concat(Slices(urls, file)) == file[lo..hi]
    decreases |urls|
  {
    CoversOrdered(urls, lo, hi);
    var slices := Slices(urls, file);
    if urls != [] {
      var mid := urls[0].end;
      CoversOrdered(urls[1..], mid, hi);
      CoveringSlicesReassemble(urls[1..], file, mid, hi);
      assert slices[1..] == Slices(urls[1..], file);
      SliceInRange(file, lo, mid);
      assert file[lo..mid] + file[mid..hi] == file[lo..hi];
    }
  }

  lemma BodiesAreSlices(plan: SignedResponse, file: seq<byte>, requests: seq<PutRequest>)
    requires |requests| == |plan.urls|
    requires forall i :: 0 <= i < |plan.urls| ==> requests[i].body == Slice(file, plan.urls[i].start, plan.urls[i].end)
    ensures Bodies(requests) == Slices(plan.urls, file)
  {
    var bodies, slices := Bodies(requests), Slices(plan.urls, file);
    forall i | 0 <= i < |plan.urls| ensures bodies[i] == slices[i] {
      assert bodies[i] == requests[i].body;
    }
  }

  /** The bodies of the part loop's PUTs for a contiguous plan covering the file put the file back together. */
  lemma RequestsReassemble(plan: SignedResponse, file: seq<byte>, requests: seq<PutRequest>)
    requires |requests| == |plan.urls|
    requires forall i :: 0 <= i < |plan.urls| ==> requests[i].body == Slice(file, plan.urls[i].start, plan.urls[i].end)
    requires Covers(plan.urls, 0, |file|)
    ensures Concat(Bodies(requests)) == file
  {
    BodiesAreSlices(plan, file, requests);
    CoveringSlicesReassemble(plan.urls, file, 0, |file|);
    assert file[0..|file|] == file;
  }

  /** The settled part promises, in plan order. */
  function PartResults(plan: SignedResponse, responses: seq<PutResponse>): (rs: seq<Result<UploadedPart, PartError>>)
    requires |responses| == |plan.urls|
    ensures |rs| == |plan.urls|
    ensures forall i :: 0 <= i < |rs| ==> (rs[i].Success? <==> Delivered(responses[i]))
    ensures forall i :: 0 <= i < |rs| ==> rs[i].Success? ==> rs[i].value.PartNumber == plan.urls[i].part
  {
    seq(|plan.urls|, i requires 0 <= i < |plan.urls| => PartResult(plan.urls[i], responses[i]))
  }

  /** The completion rule: completion is posted exactly when every PUT fulfilled with an `etag`;
      its body lists one record per plan entry, in plan order whatever the settlement order, and
      carries the plan's `upload_id` to the plan's asset. Otherwise the catch branch receives the
      error of the first failed part to settle. */
  lemma FanInMeaning(plan: SignedResponse, responses: seq<PutResponse>, settleOrder: seq<nat>)
    requires |responses| == |plan.urls|
    requires Promises.IsSettleOrder(settleOrder, |plan.urls|)
    ensures var outcome := Complete(plan, Promises.All(PartResults(plan, responses), settleOrder));
      && (outcome.Completed? <==> forall i :: 0 <= i < |responses| ==> Delivered(responses[i]))
      && (outcome.Completed? ==>
        && outcome.request.url == CompletionUrl(plan.id)
        && outcome.request.body.upload_id == plan.upload_id
        && |outcome.request.body.parts| == |plan.urls|
        && forall i :: 0 <= i < |plan.urls| ==>
             outcome.request.body.parts[i] == UploadedPart(ETagHeader.Normalize(responses[i].etag.value), plan.urls[i].part))
      && (outcome.Failed? ==>
        exists k :: 0 <= k < |settleOrder|
          && PartResult(plan.urls[settleOrder[k]], responses[settleOrder[k]]) == Failure(outcome.error)
          && forall j :: 0 <= j < k ==> Delivered(responses[settleOrder[j]]))
  {
    var results := PartResults(plan, responses);
    Promises.AllFulfils(results, settleOrder);
    Promises.AllRejects(results, settleOrder);
    assert forall i :: 0 <= i < |results| ==> results[i] == PartResult(plan.urls[i], responses[i]);
  }

  /** `upload` from the moment the plan is in hand: the part loop, the join over the part
      promises settling in `settleOrder`, and the completion rule. */
  method Upload(plan: SignedResponse, file: seq<byte>, clock: seq<string>, responses: seq<PutResponse>, settleOrder: seq<nat>)
    returns (requests: seq<PutRequest>, outcome: Outcome)
    requires |clock| == |plan.urls| && |responses| == |plan.urls|
    requires Promises.IsSettleOrder(settleOrder, |plan.urls|)
    ensures |requests| == |plan.urls|
    ensures forall i :: 0 <= i < |plan.urls| ==> requests[i] == PartRequest(plan.urls[i], file, clock[i])
    ensures Covers(plan.urls, 0, |file|) ==> Concat(Bodies(requests)) == file
    ensures outcome.Completed? <==> forall i :: 0 <= i < |responses| ==> Delivered(responses[i])
    ensures outcome.Completed? ==>
      && outcome.request.url == CompletionUrl(plan.id)
      && outcome.request.body.upload_id == plan.upload_id
      && |outcome.request.body.parts| == |plan.urls|
      && forall i :: 0 <= i < |plan.urls| ==>
           outcome.request.body.parts[i] == UploadedPart(ETagHeader.Normalize(responses[i].etag.value), plan.urls[i].part)
    ensures outcome.Failed? ==>
      exists k :: 0 <= k < |settleOrder|
        && PartResult(plan.urls[settleOrder[k]], responses[settleOrder[k]]) == Failure(outcome.error)
        && forall j :: 0 <= j < k ==> Delivered(responses[settleOrder[j]])
  {
    var promises;
    requests, promises := SendParts(plan, file, clock, responses);
    assert promises == PartResults(plan, responses);
    var joined := Promises.All(promises, settleOrder);
    outcome := Complete(plan, joined);
    FanInMeaning(plan, responses, settleOrder);
    if Covers(plan.urls, 0, |file|) {
      RequestsReassemble(plan, file, requests);
    }
  }
}
