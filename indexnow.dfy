/**
  The client side of the IndexNow submission: the API path helper, the
  fail-fast batch submitter and the content fetcher. Every network reply is
  supplied by an oracle.
*/
module IndexNow {
  import opened Types

  /** What one `fetch` produced: a reply with its status and body text, or a thrown error. */
  datatype Response = Reply(status: int, body: string) | Thrown(reason: string)

  /** `response.ok`: a fetch reply is ok exactly when its status is in 200..299. */
  predicate Ok(r: Response)
  {
    r.Reply? && 200 <= r.status <= 299
  }

  /** The acceptance test the submitter and the proxy apply to an IndexNow reply. */
  predicate Accepted(r: Response)
  {
    r.Reply? && (Ok(r) || r.status == 200 || r.status == 202)
  }

  /** The explicit 200 and 202 tests add nothing to `ok`: acceptance is exactly a 2xx reply. */
  lemma AcceptedIsOk(r: Response)
    ensures Accepted(r) <==> Ok(r)
  {
  }

  /** True when `s` starts with `/`. */
  predicate StartsWithSlash(s: string)
  {
    |s| > 0 && s[0] == '/'
  }

  /**
    `apiUrl`: with no configured base the path is used as is; otherwise one
    trailing `/` is removed from the base and the path is joined to it with
    a `/`.
  */
  function ApiUrl(base: string, path: string): (r: string)
    ensures base == "" ==> r == path
    ensures base != "" ==> |path| <= |r| && r[|r| - |path|..] == path
    ensures base != "" ==> base[..|base| - 1] <= r
    ensures base != "" && !StartsWithSlash(path) ==> |r| > |path| && r[|r| - |path| - 1] == '/'
    ensures base != "" && base[|base| - 1] != '/' && StartsWithSlash(path) ==> r == base + path
    ensures base != "" && base[|base| - 1] == '/' && StartsWithSlash(path) ==> r == base[..|base| - 1] + path
  {
    if base == "" then path
    else
      var b := if base[|base| - 1] == '/' then base[..|base| - 1] else base;
      var p := if StartsWithSlash(path) then path else "/" + path;
      b + p
  }

  /** One trailing slash on the base makes no difference. */
  lemma ApiUrlTrailingSlash(base: string, path: string)
    requires base != "" && base[|base| - 1] != '/'
    ensures ApiUrl(base + "/", path) == ApiUrl(base, path)
  {
    assert (base + "/")[..|base|] == base;
  }

  /** A missing leading slash on the path makes no difference. */
  lemma ApiUrlLeadingSlash(base: string, path: string)
    requires base != "" && !StartsWithSlash(path)
    ensures ApiUrl(base, path) == ApiUrl(base, "/" + path)
  {
  }

  /** The largest number of URLs one request carries. */
  const BatchSize: nat := 10000

  /** The body of one submission request. */
  datatype Payload = Payload(host: string, key: string, keyLocation: string, urlList: seq<string>)

  /** The message of a submission result. */
  datatype Message =
    | ApiKeyRequired
    | HostRequired
    | NoUrls
    | ApiError(status: int, text: string)
    | NetworkError(reason: string)
    | SubmittedAll(count: nat)

  datatype SubmitResult = SubmitResult(success: bool, message: Message, submittedCount: nat)

  /** The key location sent: the configured one, or `https://{host}/{apiKey}.txt` when it is empty. */
  function KeyLocation(settings: SiteSettings): (r: string)
    ensures settings.keyLocation != "" ==> r == settings.keyLocation
    ensures settings.keyLocation == "" ==> r == "https://" + settings.host + "/" + settings.apiKey + ".txt"
  {
    if settings.keyLocation != "" then settings.keyLocation
    else "https://" + settings.host + "/" + settings.apiKey + ".txt"
  }

  /** How many requests `n` URLs take: one per started slice of 10,000. */
  function NumBatches(n: nat): nat
    decreases n
  {
    if n == 0 then 0
    else if n <= BatchSize then 1
    else 1 + NumBatches(n - BatchSize)
  }

  /** Slice k exists exactly when it starts before the end of the list. */
  lemma {:induction false} NumBatchesBound(n: nat, k: nat)
    ensures k < NumBatches(n) <==> k * BatchSize < n
    decreases n
  {
    if n > BatchSize && k > 0 {
      NumBatchesBound(n - BatchSize, k - 1);
    }
  }

  /** The count is the ceiling of n / 10000. */
  lemma NumBatchesCeiling(n: nat)
    ensures NumBatches(n) == (n + BatchSize - 1) / BatchSize
  {
    var c := NumBatches(n);
    NumBatchesBound(n, c);
    if c > 0 {
      NumBatchesBound(n, c - 1);
    }
  }

  function Min(a: int, b: int): int
  {
    if a <= b then a else b
  }

  /** The k-th slice `urls.slice(k * 10000, (k + 1) * 10000)`. */
  function Batch(urls: seq<string>, k: nat): (b: seq<string>)
    requires k < NumBatches(|urls|)
    ensures 1 <= |b| <= BatchSize
    ensures k < NumBatches(|urls|) - 1 ==> |b| == BatchSize
  {
    NumBatchesBound(|urls|, k);
    NumBatchesBound(|urls|, k + 1);
    urls[k * BatchSize .. Min((k + 1) * BatchSize, |urls|)]
  }

  /** The request for the k-th slice. */
  function PayloadFor(urls: seq<string>, settings: SiteSettings, k: nat): (p: Payload)
    requires k < NumBatches(|urls|)
    ensures p.host == settings.host && p.key == settings.apiKey && p.keyLocation == KeyLocation(settings)
    ensures p.urlList == Batch(urls, k)
  {
    Payload(settings.host, settings.apiKey, KeyLocation(settings), Batch(urls, k))
  }

  /** All URLs carried by the given requests, in order. */
  function Carried(ps: seq<Payload>): seq<string>
  {
    if |ps| == 0 then [] else Carried(ps[..|ps| - 1]) + ps[|ps| - 1].urlList
  }

  /** The result message for a reply that was not accepted. */
  function FailureMessage(r: Response): Message
  {
    match r
    case Reply(status, body) => ApiError(status, body)
    case Thrown(reason) => NetworkError(reason)
  }

  /** Every check before sending passes: an api key, a host and at least one URL. */
  predicate Ready(urls: seq<string>, settings: SiteSettings)
  {
    settings.apiKey != "" && settings.host != "" && urls != []
  }

  /**
    `submitToIndexNow`. The checks run in the order api key, host, URL list,
    and a failed check sends nothing. Then the consecutive slices of at most
    10,000 URLs are sent one by one; `respond(k, p)` is the reply to the k-th
    request `p`. The first reply that is not accepted, or a thrown error, ends
    the run with the count of the URLs of the earlier, accepted slices; when
    every slice is accepted, the count is the number of URLs.
  */
  method SubmitToIndexNow(urls: seq<string>, settings: SiteSettings, respond: (nat, Payload) -> Response)
    returns (result: SubmitResult, sent: seq<Payload>)
    ensures settings.apiKey == "" ==> result == SubmitResult(false, ApiKeyRequired, 0) && sent == []
    ensures settings.apiKey != "" && settings.host == "" ==> result == SubmitResult(false, HostRequired, 0) && sent == []
    ensures settings.apiKey != "" && settings.host != "" && urls == [] ==>
      result == SubmitResult(false, NoUrls, 0) && sent == []
    ensures Ready(urls, settings) ==> 1 <= |sent| <= NumBatches(|urls|)
    ensures Ready(urls, settings) ==> forall k :: 0 <= k < |sent| ==> sent[k] == PayloadFor(urls, settings, k)
    ensures Ready(urls, settings) ==> forall k :: 0 <= k < |sent| - 1 ==> Accepted(respond(k, sent[k]))
    ensures Ready(urls, settings) ==>
      (result.success <==> |sent| == NumBatches(|urls|) && Accepted(respond(|sent| - 1, sent[|sent| - 1])))
    ensures result.success ==> result == SubmitResult(true, SubmittedAll(|urls|), |urls|)
    ensures Ready(urls, settings) && !result.success ==>
      && !Accepted(respond(|sent| - 1, sent[|sent| - 1]))
      && result.message == FailureMessage(respond(|sent| - 1, sent[|sent| - 1]))
      && result.submittedCount == |Carried(sent[..|sent| - 1])|
    ensures result.success ==> Carried(sent) == urls
    ensures result.submittedCount <= |urls|
  {
    sent := [];
    if settings.apiKey == "" {
      return SubmitResult(false, ApiKeyRequired, 0), sent;
    }
    if settings.host == "" {
      return SubmitResult(false, HostRequired, 0), sent;
    }
    if |urls| == 0 {
      return SubmitResult(false, NoUrls, 0), sent;
    }
    result, sent := SubmitBatches(urls, settings, respond);
    if result.success {
      CarriedBatches(urls, settings, sent);
      NumBatchesBound(|urls|, |sent|);
      assert urls[..|urls|] == urls;
    } else {
      FailedRunCount(urls, settings, sent);
    }
  }

  /** The sending loop of `submitToIndexNow`, entered once every check has passed. */
  method SubmitBatches(urls: seq<string>, settings: SiteSettings, respond: (nat, Payload) -> Response)
    returns (result: SubmitResult, sent: seq<Payload>)
    requires Ready(urls, settings)
    ensures 1 <= |sent| <= NumBatches(|urls|)
    ensures forall k :: 0 <= k < |sent| ==> sent[k] == PayloadFor(urls, settings, k)
    ensures forall k :: 0 <= k < |sent| - 1 ==> Accepted(respond(k, sent[k]))
    ensures result.success <==> |sent| == NumBatches(|urls|) && Accepted(respond(|sent| - 1, sent[|sent| - 1]))
    ensures result.success ==> result == SubmitResult(true, SubmittedAll(|urls|), |urls|)
    ensures !result.success ==>
      && !Accepted(respond(|sent| - 1, sent[|sent| - 1]))
      && result.message == FailureMessage(respond(|sent| - 1, sent[|sent| - 1]))
      && result.submittedCount == (|sent| - 1) * BatchSize
    ensures result.submittedCount <= |urls|
  {
    sent := [];
    var total := 0;
    var i := 0;
    while i < |urls|
      invariant i == |sent| * BatchSize
      invariant i < |urls| <==> |sent| < NumBatches(|urls|)
      invariant |sent| <= NumBatches(|urls|)
      invariant forall k :: 0 <= k < |sent| ==> sent[k] == PayloadFor(urls, settings, k)
      invariant forall k :: 0 <= k < |sent| ==> Accepted(respond(k, sent[k]))
      invariant total == Min(i, |urls|)
    {
      var k := |sent|;
      var batch := urls[i .. Min(i + BatchSize, |urls|)];
      var payload := Payload(settings.host, settings.apiKey, KeyLocation(settings), batch);
      NextBatch(urls, settings, k, i);
      sent := sent + [payload];
      var response := respond(k, payload);
      if !Accepted(response) {
        return SubmitResult(false, FailureMessage(response), total), sent;
      }
      total := total + |batch|;
      i := i + BatchSize;
    }
    return SubmitResult(true, SubmittedAll(total), total), sent;
  }

  /** The loop's step: the slice it cuts at `i == k * 10000` is the k-th batch, and another slice follows exactly when it ends before the list does. */
  lemma NextBatch(urls: seq<string>, settings: SiteSettings, k: nat, i: nat)
    requires i == k * BatchSize && i < |urls|
    ensures k < NumBatches(|urls|)
    ensures PayloadFor(urls, settings, k)
      == Payload(settings.host, settings.apiKey, KeyLocation(settings), urls[i .. Min(i + BatchSize, |urls|)])
    ensures i + BatchSize < |urls| <==> k + 1 < NumBatches(|urls|)
  {
    NumBatchesBound(|urls|, k);
    NumBatchesBound(|urls|, k + 1);
  }

  /**
    The first `|ps|` requests carry the input's first `|ps| * 10000` URLs, or
    all of them: the slices are consecutive, in order, and leave no gap.
  */
  lemma {:induction false} CarriedBatches(urls: seq<string>, settings: SiteSettings, ps: seq<Payload>)
    requires |ps| <= NumBatches(|urls|)
    requires forall k :: 0 <= k < |ps| ==> ps[k] == PayloadFor(urls, settings, k)
    ensures Carried(ps) == urls[..Min(|ps| * BatchSize, |urls|)]
    decreases |ps|
  {
    if |ps| > 0 {
      var m := |ps| - 1;
      CarriedBatches(urls, settings, ps[..m]);
      NumBatchesBound(|urls|, m);
      assert Carried(ps) == Carried(ps[..m]) + Batch(urls, m);
      assert urls[..m * BatchSize] + Batch(urls, m) == urls[..Min(|ps| * BatchSize, |urls|)];
    }
  }

  /** When a run stops at its k-th request, exactly k * 10000 URLs were counted as submitted. */
  lemma FailedRunCount(urls: seq<string>, settings: SiteSettings, sent: seq<Payload>)
    requires 1 <= |sent| <= NumBatches(|urls|)
    requires forall k :: 0 <= k < |sent| ==> sent[k] == PayloadFor(urls, settings, k)
    ensures |Carried(sent[..|sent| - 1])| == (|sent| - 1) * BatchSize
  {
    var m := |sent| - 1;
    CarriedBatches(urls, settings, sent[..m]);
    NumBatchesBound(|urls|, m);
  }

  /** 25,000 URLs go out as three requests of 10,000, 10,000 and 5,000 URLs, in that order. */
  lemma TwentyFiveThousandUrls(urls: seq<string>)
    requires |urls| == 25000
    ensures NumBatches(|urls|) == 3
    ensures Batch(urls, 0) == urls[..10000]
    ensures Batch(urls, 1) == urls[10000..20000]
    ensures Batch(urls, 2) == urls[20000..]
  {
  }

  /** `fetchPageContent`: the body of an ok reply; null for any other reply or a thrown error. */
  function FetchPageContent(r: Response): (content: Option<string>)
    ensures content.Some? <==> Ok(r)
    ensures content.Some? ==> content.value == r.body
  {
    match r
    case Thrown(_) => None
    case Reply(status, body) => if !(200 <= status <= 299) then None else Some(body)
  }
}
